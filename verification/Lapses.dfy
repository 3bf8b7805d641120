/**
 What ends an approval. Over every run of balance operations one is found expired only if an operation swept it on or
 after its date, and revoked only if its payer took back what it had given that spender.
 */
module Lapses {
  import opened Wrappers
  import opened Ledger
  import opened Approvals
  import opened Allocation
  import opened Spending
  import opened Lending
  import opened Refunds
  import opened RoundTrip
  import opened RefundExact
  import opened Expiry
  import opened Runs

  /** The operation is one that ends this approval, and had reason to. */
  predicate EndedBy(op: Op, x: Inactive) {
    match x.reason
    case Used => false
    case Expired =>
      x.row.expires.Some?
      && (match op
          case Expire(link, now) => Matches(link, x.row) && x.row.expires.value <= now
          case Report(user, now) => (x.row.payer == user || x.row.spender == user) && x.row.expires.value <= now
          case GiveBack(_, _, how) => x.row.spender == how.signer && x.row.expires.value <= how.now
          case _ => false)
    case Revoked => op.TakeBack? && op.payer == x.row.payer && op.spender == x.row.spender && x.revokedBy == Some(op.change)
  }

  /** Besides used-up rows, only what this spender had received and was due by then has come into the inactive table. */
  ghost predicate OnlyDue(b: Book, e: Book, spender: Addr, now: int) {
    forall x :: x in e.inactive && !x.reason.Used? ==>
      || x in b.inactive
      || (x.reason.Expired? && x.row.spender == spender && x.row.expires.Some? && x.row.expires.value <= now)
  }

  lemma {:induction false} UsedUpReason(rows: seq<Approval>, w: int)
    ensures forall x :: x in UsedUpRows(rows, w) ==> x.reason.Used?
  {
    if rows != [] && w >= 1 && Left(rows[0]) <= w { UsedUpReason(rows[1..], w - Left(rows[0])); }
  }

  lemma {:induction false} ApplyEnds(b: Book, parts: seq<Part>, c: Allocation.Charge)
    requires ApplyParts(b, parts, c).Ok?
    ensures forall x :: x in ApplyParts(b, parts, c).value.inactive ==> x in b.inactive || x.reason.Used?
    decreases |parts|
  {
    if parts != [] {
      if parts[0].payer != c.signer {
        DrawMoves(Draw(b.active, b.inactive, parts[0].winc), parts[0].rows);
        UsedUpReason(parts[0].rows, parts[0].winc);
      }
      ApplyEnds(ApplyPart(b, parts[0], c).value, parts[1..], c);
    }
  }

  lemma {:induction false} RemovedInactive(rows: seq<Inactive>, id: Id, x: Inactive)
    ensures x in RemoveInactive(rows, id) ==> x in rows
  {
    if rows != [] { RemovedInactive(rows[1..], id, x); }
  }

  lemma {:induction false} RestoreEnds(s: Restoring, rows: seq<Inactive>, change: Id)
    requires RestoreInactive(s, rows, change).Ok?
    ensures forall x :: x in RestoreInactive(s, rows, change).value.book.inactive ==> x in s.book.inactive
    decreases |rows|
  {
    if rows != [] && s.rest >= 1 {
      var e := RestoreOne(s, rows[0], change).value;
      forall x | x in e.book.inactive ensures x in s.book.inactive { RemovedInactive(s.book.inactive, rows[0].row.id, x); }
      RestoreEnds(e, rows[1..], change);
    }
  }

  lemma RefundPayerEnds(b: Book, share: Share, f: Refunding)
    requires Keyed(b) && RefundPayer(b, share, f).Ok?
    ensures OnlyDue(b, RefundPayer(b, share, f).value, f.signer, f.now)
  {
    var link := Between(share.payer, f.signer);
    var rows := Pick(b.active, link);
    PickedRows(b, link);
    TrimExactly(b, rows, f.now);
    forall r | r in rows ensures r.spender == f.signer { PickIn(b.active, link, r); }
    var t := Trim(b, rows, f.now).value;
    var g := GiveActive(Giving(t.active, share.winc), LiveRows(rows, f.now), share.winc);
    var given := t.(active := g.active);
    RestoreEnds(Restoring(given, g.rest), PickInactive(given.inactive, link), f.change);
  }

  lemma {:induction false} RefundEnds(b: Book, shares: seq<Share>, f: Refunding)
    requires Keyed(b) && RefundShares(b, shares, f).Ok?
    ensures OnlyDue(b, RefundShares(b, shares, f).value, f.signer, f.now)
    decreases |shares|
  {
    if shares != [] {
      var e := RefundShare(b, shares[0], f).value;
      if shares[0].payer != f.signer {
        RefundPayerSound(b, shares[0], f);
        RefundPayerEnds(b, shares[0], f);
      }
      RefundEnds(e, shares[1..], f);
    }
  }

  lemma RevokeEnds(b: Book, op: Op, x: Inactive)
    requires op.TakeBack? && Outcome(b, op).Ok? && x in Apply(b, op).inactive && !x.reason.Used?
    ensures x in b.inactive || EndedBy(op, x)
  {
    var link := Between(op.payer, op.spender);
    var moved := b.inactive + AsInactive(Pick(b.active, link), Revoked, Some(op.change));
    RevokeUsedUpRows(moved, link, op.change);
    var i :| 0 <= i < |moved| && RevokeUsedUp(moved, link, op.change)[i] == x;
    if x == moved[i] && x !in b.inactive {
      assert moved[i] in moved;
      AsInactiveIn(Pick(b.active, link), Revoked, Some(op.change), x);
      PickIn(b.active, link, x.row);
    }
  }

  lemma TrimEnds(b: Book, op: Op, x: Inactive)
    requires Keyed(b) && (op.Expire? || op.Report?) && x in Apply(b, op).inactive
    ensures x in b.inactive || EndedBy(op, x)
  {
    if op.Expire? {
      PickedRows(b, op.link);
      PickIn(b.active, op.link, x.row);
      TrimExactly(b, Pick(b.active, op.link), op.now);
    } else {
      TouchingRows(b.active, op.user);
      ReceivedIn(b.active, op.user, x.row);
      TrimExactly(b, Touching(b.active, op.user), op.now);
    }
  }

  /** No operation ends an approval without reason. */
  lemma StepEnds(b: Book, op: Op, x: Inactive)
    requires Keyed(b) && Proper(op) && x in Apply(b, op).inactive && !x.reason.Used?
    ensures x in b.inactive || EndedBy(op, x)
  {
    if Outcome(b, op).Ok? {
      match op
      case TakeBack(payer, spender, change) => RevokeEnds(b, op, x);
      case Expire(link, now) => TrimEnds(b, op, x);
      case Report(user, now) => TrimEnds(b, op, x);
      case Charge(signer, winc, paidBy, directive, reason, change) =>
        if winc >= 1 {
          ApplyEnds(b, PlanSpend(b, signer, winc, Dedupe(paidBy), directive).value,
                    Allocation.Charge(signer, Balance(b, signer), reason, change));
        }
      case GiveBack(amount, overflow, how) => RefundEnds(b, SharesOf(overflow, how.signer, amount), how);
      case _ =>
    }
  }

  /** Over every run, what is found expired or revoked was ended by an operation of the run that had reason to. */
  lemma {:induction false} RunEnds(b: Book, ops: seq<Op>, x: Inactive)
    requires Keyed(b) && Balanced(b) && (forall op :: op in ops ==> Proper(op))
    requires x in Run(b, ops).inactive && !x.reason.Used?
    ensures x in b.inactive || exists op :: op in ops && EndedBy(op, x)
    decreases |ops|
  {
    if ops != [] {
      StepSound(b, ops[0]);
      RunEnds(Apply(b, ops[0]), ops[1..], x);
      if x in Apply(b, ops[0]).inactive { StepEnds(b, ops[0], x); }
    }
  }

  /** From empty tables, then, nothing expires before its date and nobody but its payer revokes an approval. */
  lemma EndedFromEmpty(ops: seq<Op>, x: Inactive)
    requires (forall op :: op in ops ==> Proper(op)) && x in Run(EmptyBook(), ops).inactive && !x.reason.Used?
    ensures exists op :: op in ops && EndedBy(op, x)
  {
    RunEnds(EmptyBook(), ops, x);
  }
}
