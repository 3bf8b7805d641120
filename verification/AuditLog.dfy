/** The audit log only grows; what the rows that an operation appends look like. */
module AuditLog {
  import opened Wrappers
  import opened Ledger
  import opened Approvals
  import opened Allocation
  import opened Lending
  import opened Refunds

  /** `e` has the log of `b` and possibly more rows, all readable and for one of these reasons. */
  ghost predicate Appends(b: Book, e: Book, reasons: set<AuditReason>) {
    && |b.audit| <= |e.audit|
    && (forall i :: 0 <= i < |b.audit| ==> e.audit[i] == b.audit[i])
    && (forall i :: |b.audit| <= i < |e.audit| ==> e.audit[i].Audit? && e.audit[i].reason in reasons)
  }

  lemma AppendsThen(b: Book, c: Book, e: Book, reasons: set<AuditReason>)
    requires Appends(b, c, reasons) && Appends(c, e, reasons)
    ensures Appends(b, e, reasons)
  {
  }

  lemma AppendsLegible(b: Book, e: Book, reasons: set<AuditReason>, u: Addr)
    requires Appends(b, e, reasons)
    ensures Legible(e.audit, u) <==> Legible(b.audit, u)
  {
  }

  function ExpiryReasons(): set<AuditReason> { {DelegatedPaymentExpired} }

  function ReturnReasons(): set<AuditReason> { {DelegatedPaymentExpired, DelegatedPaymentRevoke} }

  lemma {:induction false} MoveKeepsLog(b: Book, rows: seq<Approval>, now: int)
    ensures MoveExpired(b, rows, now).audit == b.audit
    decreases |rows|
  {
    if rows != [] { MoveKeepsLog(if Live(rows[0], now) then b else Moved(b, rows[0]), rows[1..], now); }
  }

  lemma {:induction false} CreditAppends(b: Book, payers: seq<Addr>, expired: seq<Approval>)
    requires CreditExpired(b, payers, expired).Ok?
    ensures Appends(b, CreditExpired(b, payers, expired).value, ExpiryReasons())
    decreases |payers|
  {
    if payers != [] {
      var c := Post(b, payers[0], SumLeft(Pick(expired, Given(payers[0]))), DelegatedPaymentExpired, None);
      CreditAppends(c, payers[1..], expired);
      AppendsThen(b, c, CreditExpired(b, payers, expired).value, ExpiryReasons());
    }
  }

  lemma TrimAppends(b: Book, rows: seq<Approval>, now: int)
    requires Trim(b, rows, now).Ok?
    ensures Appends(b, Trim(b, rows, now).value, ExpiryReasons())
  {
    MoveKeepsLog(b, rows, now);
    CreditAppends(MoveExpired(b, rows, now), Dedupe(PayersOf(ExpiredRows(rows, now))), ExpiredRows(rows, now));
  }

  lemma {:induction false} RestoreAppends(s: Restoring, rows: seq<Inactive>, change: Id)
    requires RestoreInactive(s, rows, change).Ok?
    ensures Appends(s.book, RestoreInactive(s, rows, change).value.book, ReturnReasons())
    decreases |rows|
  {
    if rows != [] && s.rest >= 1 {
      var c := RestoreOne(s, rows[0], change).value;
      RestoreAppends(c, rows[1..], change);
      AppendsThen(s.book, c.book, RestoreInactive(s, rows, change).value.book, ReturnReasons());
    }
  }

  lemma RefundPayerAppends(b: Book, share: Share, f: Refunding)
    requires RefundPayer(b, share, f).Ok?
    ensures Appends(b, RefundPayer(b, share, f).value, ReturnReasons())
  {
    var link := Between(share.payer, f.signer);
    TrimAppends(b, Pick(b.active, link), f.now);
    var t := Trim(b, Pick(b.active, link), f.now).value;
    var g := GiveActive(Giving(t.active, share.winc), LiveRows(Pick(b.active, link), f.now), share.winc);
    var given := t.(active := g.active);
    RestoreAppends(Restoring(given, g.rest), PickInactive(given.inactive, link), f.change);
  }

  lemma {:induction false} RefundAppends(b: Book, shares: seq<Share>, f: Refunding)
    requires RefundShares(b, shares, f).Ok?
    ensures Appends(b, RefundShares(b, shares, f).value, ReturnReasons() + {f.reason})
    decreases |shares|
  {
    if shares != [] {
      var c := RefundShare(b, shares[0], f).value;
      if shares[0].payer != f.signer { RefundPayerAppends(b, shares[0], f); }
      RefundAppends(c, shares[1..], f);
      AppendsThen(b, c, RefundShares(b, shares, f).value, ReturnReasons() + {f.reason});
    }
  }

  /** A charge appends rows for its own reason only, readable or not. */
  lemma {:induction false} ChargeAppends(b: Book, parts: seq<Part>, c: Charge)
    requires ApplyParts(b, parts, c).Ok?
    ensures var e := ApplyParts(b, parts, c).value;
            && |b.audit| <= |e.audit|
            && (forall i :: 0 <= i < |b.audit| ==> e.audit[i] == b.audit[i])
            && (forall i :: |b.audit| <= i < |e.audit| ==> e.audit[i].reason == c.reason || e.audit[i].reason == ApprovedReason(c.reason))
    decreases |parts|
  {
    if parts != [] { ChargeAppends(ApplyPart(b, parts[0], c).value, parts[1..], c); }
  }

  // ---------- The rows of each operation ----------

  /** A plan writes one row for each of its parts, in their order: the payers' as approved spends, the signer's as a charge. */
  lemma {:induction false} PlanRows(b: Book, parts: seq<Part>, c: Charge)
    requires ApplyParts(b, parts, c).Ok?
    ensures var log := ApplyParts(b, parts, c).value.audit;
            && |log| == |b.audit| + |parts| && log[..|b.audit|] == b.audit
            && (forall i :: 0 <= i < |parts| ==>
                  log[|b.audit| + i] ==
                  Withdrawal(parts[i].payer, parts[i].winc, if parts[i].payer == c.signer then c.reason else ApprovedReason(c.reason),
                             Some(c.change)))
    decreases |parts|
  {
    if parts != [] {
      var e := ApplyPart(b, parts[0], c).value;
      PlanRows(e, parts[1..], c);
      var log := ApplyParts(b, parts, c).value.audit;
      assert log[..|b.audit|] == log[..|e.audit|][..|b.audit|];
      assert log[|b.audit|] == log[..|e.audit|][|b.audit|];
      forall i | 1 <= i < |parts| ensures log[|b.audit| + i] == log[|e.audit| + (i - 1)] && parts[1..][i - 1] == parts[i] { }
    }
  }

  /** Lending and taking back write one row each, of what leaves or enters the balance, under their own id. */
  lemma LoanRows(b: Book, id: Id, payer: Addr, spender: Addr, amount: int, expires: Option<int>)
    requires CreateApproval(b, id, payer, spender, amount, expires).Ok?
    ensures CreateApproval(b, id, payer, spender, amount, expires).value.audit ==
            b.audit + [Withdrawal(payer, amount, DelegatedPaymentApproval, Some(id))]
  {
  }

  lemma RevokeRows(b: Book, payer: Addr, spender: Addr, change: Id)
    requires Revoke(b, payer, spender, change).Ok?
    ensures Revoke(b, payer, spender, change).value.audit ==
            b.audit + (if Pick(b.active, Between(payer, spender)) == [] then []
                       else [Audit(payer, Lent(b, Between(payer, spender)), DelegatedPaymentRevoke, Some(change))])
  {
  }

  /** Expiry writes one row for each payer that has something expired, of all that its expired approvals still held. */
  lemma {:induction false} ExpiryRows(b: Book, payers: seq<Addr>, expired: seq<Approval>)
    requires CreditExpired(b, payers, expired).Ok?
    ensures CreditExpired(b, payers, expired).value.audit ==
            b.audit + seq(|payers|, i requires 0 <= i < |payers| =>
                        Audit(payers[i], SumLeft(Pick(expired, Given(payers[i]))), DelegatedPaymentExpired, None))
    decreases |payers|
  {
    if payers != [] {
      var due := SumLeft(Pick(expired, Given(payers[0])));
      ExpiryRows(Post(b, payers[0], due, DelegatedPaymentExpired, None), payers[1..], expired);
    }
  }
}
