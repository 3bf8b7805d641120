/**
 The payment database: one object whose fields are the tables. Each public method is one transaction; its
 contract says that it leaves the tables as the specification function computes them from the old ones, or
 leaves them unchanged and returns the error.
 */
module Database {
  import opened Wrappers
  import opened Ledger
  import opened Approvals
  import opened Allocation
  import opened Lending
  import opened Refunds
  import Expiry
  import Runs
  import Payments
  import Crypto
  import Arns
  import Reservations
  import Service

  datatype BalanceReport = BalanceReport(winc: int, controlled: int, effective: int, given: seq<Approval>, received: seq<Approval>)

  /** The report of `u`, read from tables `e` that the expiry has left of `b`. */
  ghost predicate Reports(b: Book, e: Book, u: Addr, now: int, r: Result<BalanceReport, Error>) {
    var live := LiveRows(Touching(b.active, u), now);
    && Trim(b, Touching(b.active, u), now) == Ok(e)
    && (r.Err? <==> u !in b.users && SumLeft(Received(live, u)) < 1)
    && (r.Ok? ==>
          var v := r.value;
          && v.given == Pick(live, Given(u)) && v.received == Received(live, u)
          && UniqueIds(v.given) && UniqueIds(v.received)
          && (forall a :: a in v.given <==> a in b.active && a.payer == u && (a.expires == None || now < a.expires.value))
          && (forall a :: a in v.received <==> a in b.active && a.spender == u && (a.expires == None || now < a.expires.value))
          && v.winc == Balance(e, u) && v.effective == v.winc + SumLeft(v.received)
          && v.controlled == (if u in b.users then Controlled(b, u) else 0)
          && (u in b.users ==> Controlled(e, u) == Controlled(b, u)))
  }

  class PostgresDatabase {
    var users: map<Addr, int>
    var approvals: seq<Approval>
    var inactiveApprovals: seq<Inactive>
    var auditLog: seq<Audit>
    var quotes: map<Id, Payments.Quote>
    var receipts: seq<Payments.Receipt>
    var chargebacks: seq<Payments.ChargebackReceipt>
    var gifts: map<Id, Payments.Gift>
    var redeemedGifts: map<Id, Payments.RedeemedGift>
    var pendingTxs: map<Id, Crypto.Tx>
    var creditedTxs: seq<Crypto.Tx>
    var failedTxs: map<Id, Crypto.Tx>
    var reservations: seq<Reservations.Reservation>
    var arnsReceipts: map<Id, Arns.Receipt>
    var failedArns: seq<Arns.Receipt>
    ghost var history: seq<Service.Op>     // the transactions so far, refused ones included

    function BookNow(): Book
      reads this`users, this`approvals, this`inactiveApprovals, this`auditLog
    {
      Book(users, approvals, inactiveApprovals, auditLog)
    }

    function ShopNow(): Payments.Shop
      reads this`users, this`approvals, this`inactiveApprovals, this`auditLog, this`quotes, this`receipts, this`chargebacks,
          this`gifts, this`redeemedGifts
    {
      Payments.Shop(quotes, receipts, chargebacks, gifts, redeemedGifts, BookNow())
    }

    function TillNow(): Crypto.Till
      reads this`users, this`approvals, this`inactiveApprovals, this`auditLog, this`pendingTxs, this`creditedTxs, this`failedTxs
    {
      Crypto.Till(pendingTxs, creditedTxs, failedTxs, BookNow())
    }

    function RegistryNow(): Arns.Registry
      reads this`users, this`approvals, this`inactiveApprovals, this`auditLog, this`arnsReceipts, this`failedArns
    {
      Arns.Registry(arnsReceipts, failedArns, BookNow())
    }

    function DeskNow(): Reservations.Desk
      reads this`users, this`approvals, this`inactiveApprovals, this`auditLog, this`reservations
    {
      Reservations.Desk(reservations, BookNow())
    }

    function TablesNow(): Service.Tables
      reads this`users, this`approvals, this`inactiveApprovals, this`auditLog
      reads this`quotes, this`receipts, this`chargebacks, this`gifts, this`redeemedGifts
      reads this`pendingTxs, this`creditedTxs, this`failedTxs, this`arnsReceipts, this`failedArns, this`reservations
    {
      Service.Tables(quotes, receipts, chargebacks, gifts, redeemedGifts, pendingTxs, creditedTxs, failedTxs,
                     arnsReceipts, failedArns, reservations, BookNow())
    }

    constructor ()
      ensures Valid() && history == []
      ensures BookNow() == Runs.EmptyBook()
      ensures quotes == map[] && receipts == [] && chargebacks == [] && gifts == map[] && redeemedGifts == map[]
      ensures pendingTxs == map[] && creditedTxs == [] && failedTxs == map[]
      ensures reservations == [] && arnsReceipts == map[] && failedArns == []
    {
      users, approvals, inactiveApprovals, auditLog := map[], [], [], [];
      quotes, receipts, chargebacks, gifts, redeemedGifts := map[], [], [], map[], map[];
      pendingTxs, creditedTxs, failedTxs := map[], [], map[];
      reservations, arnsReceipts, failedArns := [], map[], [];
      history := [];
    }

    /** The tables are those of the service's run of this history; every transaction keeps it so. */
    ghost predicate Valid()
      reads this
    {
      Service.IsRun(TablesNow(), history)
    }

    /**
     What the tables therefore always are: every approval in one table, every balance what its audit rows stand for;
     approvals in range, logs readable and balances never below zero exactly as the history says.
     */
    lemma Keeps(u: Addr)
      requires Valid()
      ensures Keyed(BookNow()) && Balanced(BookNow())
      ensures WellFormed(BookNow()) <==> !Runs.LendsNegativeIn(Runs.EmptyBook(), Service.Expand(Service.Empty(), history))
      ensures Reconciled(BookNow(), u) <==> !Runs.GarblesIn(Runs.EmptyBook(), Service.Expand(Service.Empty(), history), u)
      ensures !Runs.OverdrawsIn(Runs.EmptyBook(), Service.Expand(Service.Empty(), history)) ==> Runs.Solvent(BookNow())
      ensures Reservations.Exclusive(DeskNow()) && Crypto.KeyedPending(TillNow())
    {
      Service.EmptyKeeps(history, u);
      Service.EmptyKeyed();
      Service.RunSolvent(Service.Empty(), history);
      Service.RunExclusive(Service.Empty(), history);
    }

    /** Enters a transaction that took the tables from `t` to what they are. */
    ghost method Enter(t: Service.Tables, op: Service.Op)
      requires Service.IsRun(t, history) && Service.Proper(op) && TablesNow() == Service.Apply(t, op)
      modifies `history
      ensures Valid() && history == old(history) + [op]
    {
      Service.OneStepMore(t, history, op);
      history := history + [op];
    }

    /** Enters a transaction in the history; its effect on the tables is then due. */
    ghost method Begin(op: Service.Op)
      requires Valid() && Service.Proper(op)
      modifies `history
      ensures history == old(history) + [op] && Service.IsRun(Service.Apply(TablesNow(), op), history)
    {
      Service.OneStepMore(TablesNow(), history, op);
      history := history + [op];
    }

    /** ROLLBACK of the balance tables. */
    method Restore(b: Book)
      modifies `users, `approvals, `inactiveApprovals, `auditLog
      ensures BookNow() == b
    {
      users, approvals, inactiveApprovals, auditLog := b.users, b.active, b.inactive, b.audit;
    }

    // ---------- Spending ----------

    /** Draws a part of a charge from its payer's approvals; returns what they did not pay. */
    method DrawFromApprovals(rows: seq<Approval>, winc: int) returns (rest: int)
      modifies `approvals, `inactiveApprovals
      ensures Draw(approvals, inactiveApprovals, rest) == DrawFrom(Draw(old(approvals), old(inactiveApprovals), winc), rows)
    {
      rest := winc;
      var i := 0;
      while i < |rows| && rest >= 1
        invariant i <= |rows|
        invariant DrawFrom(Draw(approvals, inactiveApprovals, rest), rows[i..])
               == DrawFrom(Draw(old(approvals), old(inactiveApprovals), winc), rows)
      {
        var row := rows[i];
        var left := row.approved - row.used;
        var toSpend := if left >= rest then rest else left;
        rest := rest - toSpend;
        var used := row.used + toSpend;
        if used == row.approved {
          approvals := Replace(approvals, row.id, None);
          inactiveApprovals := inactiveApprovals + [Inactive(row.(used := used), Used, None)];
        } else {
          approvals := Replace(approvals, row.id, Some(row.(used := used)));
        }
        assert rows[i..][1..] == rows[i + 1..];
        i := i + 1;
      }
    }

    /** The loop over `paidBy`: who pays how much, from which approvals. */
    method PlanPayers(signer: Addr, amount: nat, paid: seq<Addr>) returns (parts: seq<Part>, rest: int, signerListed: bool)
      ensures Planning(parts, rest, signerListed) == PlanList(BookNow(), signer, paid, Planning([], amount, false))
    {
      var signerBalance := Balance(BookNow(), signer);
      parts, rest, signerListed := [], amount, false;
      var i := 0;
      while i < |paid| && rest != 0
        invariant i <= |paid|
        invariant PlanList(BookNow(), signer, paid[i..], Planning(parts, rest, signerListed))
               == PlanList(BookNow(), signer, paid, Planning([], amount, false))
      {
        var payer := paid[i];
        assert paid[i..][1..] == paid[i + 1..];
        i := i + 1;
        if payer == signer {
          var signerSpend := if signerBalance >= rest then rest else signerBalance;
          rest := rest - signerSpend;
          if signerSpend != 0 {
            parts := parts + [Part(signer, signerSpend, [])];
            signerListed := true;
          }
          continue;
        }
        var fromPayer := Pick(approvals, Between(payer, signer));
        if fromPayer == [] { continue; }
        var approved := SumLeft(fromPayer);
        var share := if approved >= rest then rest else approved;
        rest := rest - share;
        if share != 0 { parts := parts + [Part(payer, share, fromPayer)]; }
      }
    }

    method UseBalanceAndApprovals(signer: Addr, amount: nat, paidBy: seq<Addr>, directive: Directive, reason: AuditReason, change: Id)
      returns (r: Result<Option<seq<Share>>, Error>)
      modifies `users, `approvals, `inactiveApprovals, `auditLog
      ensures var s := Spend(old(BookNow()), signer, amount, paidBy, directive, reason, change);
              && (s.Ok? ==> r == Ok(s.value.overflow) && BookNow() == s.value.book)
              && (s.Err? ==> r == Err(s.error) && BookNow() == old(BookNow()))
    {
      var before := BookNow();
      var paid := Dedupe(paidBy);
      var signerBalance := Balance(before, signer);
      var parts: seq<Part> := [];
      if |paid| == 0 {
        parts := [Part(signer, amount, [])];
      } else {
        var rest, signerListed;
        parts, rest, signerListed := PlanPayers(signer, amount, paid);
        if rest > 0 && directive != ListOnly && !signerListed && signerBalance >= rest {
          parts := parts + [Part(signer, rest, [])];
          rest := 0;
        }
        if rest > 0 { return Err(InsufficientBalance(signer)); }
      }
      if parts == [] { return Err(EmptyPlan); }
      var overflow := OverflowOf(parts, signer);
      if amount < 1 { return Ok(overflow); }
      r := ApplyPlan(parts, Charge(signer, signerBalance, reason, change), overflow);
    }

    method ApplyPlan(parts: seq<Part>, c: Charge, overflow: Option<seq<Share>>) returns (r: Result<Option<seq<Share>>, Error>)
      modifies `users, `approvals, `inactiveApprovals, `auditLog
      ensures var s := ApplyParts(old(BookNow()), parts, c);
              && (s.Ok? ==> r == Ok(overflow) && BookNow() == s.value)
              && (s.Err? ==> r == Err(s.error) && BookNow() == old(BookNow()))
    {
      var before := BookNow();
      var i := 0;
      while i < |parts|
        invariant i <= |parts|
        invariant ApplyParts(BookNow(), parts[i..], c) == ApplyParts(before, parts, c)
      {
        var part := parts[i];
        assert parts[i..][1..] == parts[i + 1..];
        if part.payer != c.signer {
          var rest := DrawFromApprovals(part.rows, part.winc);
          if rest > 0 {
            Restore(before);
            return Err(InsufficientBalance(part.payer));
          }
          auditLog := auditLog + [Withdrawal(part.payer, part.winc, ApprovedReason(c.reason), Some(c.change))];
        } else {
          var balance := c.balance - part.winc;
          if balance < 0 {
            Restore(before);
            return Err(InsufficientBalance(part.payer));
          }
          users := users[c.signer := balance];
          auditLog := auditLog + [Withdrawal(c.signer, part.winc, c.reason, Some(c.change))];
        }
        i := i + 1;
      }
      return Ok(overflow);
    }

    // ---------- Expiry ----------

    /** First loop: expired rows move to the inactive table; returns the expired and the live ones. */
    method MoveExpiredRows(rows: seq<Approval>, now: int) returns (expired: seq<Approval>, live: seq<Approval>)
      modifies `approvals, `inactiveApprovals
      ensures BookNow() == MoveExpired(old(BookNow()), rows, now)
      ensures expired == ExpiredRows(rows, now) && live == LiveRows(rows, now)
    {
      ghost var before := BookNow();
      expired, live := [], [];
      var i := 0;
      while i < |rows|
        invariant i <= |rows|
        invariant users == before.users && auditLog == before.audit
        invariant MoveExpired(BookNow(), rows[i..], now) == MoveExpired(before, rows, now)
        invariant expired + ExpiredRows(rows[i..], now) == ExpiredRows(rows, now)
        invariant live + LiveRows(rows[i..], now) == LiveRows(rows, now)
      {
        var row := rows[i];
        assert rows[i..][1..] == rows[i + 1..];
        ExpiredStep(rows, i, now);
        i := i + 1;
        if Live(row, now) {
          assert live + ([row] + LiveRows(rows[i..], now)) == (live + [row]) + LiveRows(rows[i..], now);
          live := live + [row];
          continue;
        }
        assert expired + ([row] + ExpiredRows(rows[i..], now)) == (expired + [row]) + ExpiredRows(rows[i..], now);
        MoveRow(row);
        expired := expired + [row];
      }
    }

    method MoveRow(row: Approval)
      modifies `approvals, `inactiveApprovals
      ensures BookNow() == Moved(old(BookNow()), row)
    {
      var deleted := Replace(approvals, row.id, None);
      if deleted != approvals {
        approvals := deleted;
        inactiveApprovals := inactiveApprovals + [Inactive(row, Expired, None)];
      }
    }

    static lemma ExpiredStep(rows: seq<Approval>, i: nat, now: int)
      requires i < |rows|
      ensures ExpiredRows(rows[i..], now) == (if Live(rows[i], now) then [] else [rows[i]]) + ExpiredRows(rows[i + 1..], now)
      ensures LiveRows(rows[i..], now) == (if Live(rows[i], now) then [rows[i]] else []) + LiveRows(rows[i + 1..], now)
    {
      assert rows[i..][1..] == rows[i + 1..];
    }

    /** trimExpiredApprovals: returns the approvals that are still live. */
    method TrimExpiredApprovals(rows: seq<Approval>, now: int) returns (r: Result<seq<Approval>, Error>)
      modifies `users, `approvals, `inactiveApprovals, `auditLog
      ensures var t := Trim(old(BookNow()), rows, now);
              && (t.Ok? ==> r == Ok(LiveRows(rows, now)) && BookNow() == t.value)
              && (t.Err? ==> r == Err(t.error) && BookNow() == old(BookNow()))
    {
      var before := BookNow();
      var expired, live := MoveExpiredRows(rows, now);
      var payers := Dedupe(PayersOf(expired));
      var k := 0;
      while k < |payers|
        invariant k <= |payers|
        invariant CreditExpired(BookNow(), payers[k..], expired) == Trim(before, rows, now)
      {
        var payer := payers[k];
        assert payers[k..][1..] == payers[k + 1..];
        if payer !in users {
          Restore(before);
          return Err(UserNotFound(payer));
        }
        var toRefund := SumLeft(Pick(expired, Given(payer)));
        users := users[payer := users[payer] + toRefund];
        auditLog := auditLog + [Audit(payer, toRefund, DelegatedPaymentExpired, None)];
        k := k + 1;
      }
      return Ok(live);
    }

    // ---------- Refunding ----------

    method GiveToActive(rows: seq<Approval>, winc: int) returns (rest: int)
      modifies `approvals
      ensures Giving(approvals, rest) == GiveActive(Giving(old(approvals), winc), rows, winc)
    {
      rest := winc;
      var i := 0;
      while i < |rows| && rest >= 1
        invariant i <= |rows|
        invariant GiveActive(Giving(approvals, rest), rows[i..], winc) == GiveActive(Giving(old(approvals), winc), rows, winc)
      {
        var row := rows[i];
        assert rows[i..][1..] == rows[i + 1..];
        if row.used >= winc {
          approvals := Replace(approvals, row.id, Some(row.(used := row.used - winc)));
          rest := 0;
        } else {
          approvals := Replace(approvals, row.id, Some(row.(used := 0)));
          rest := rest - row.used;
        }
        i := i + 1;
      }
    }

    method RestoreFromInactive(rows: seq<Inactive>, winc: int, change: Id) returns (r: Result<int, Error>)
      modifies `users, `approvals, `inactiveApprovals, `auditLog
      ensures var s := RestoreInactive(Restoring(old(BookNow()), winc), rows, change);
              && (s.Ok? ==> r == Ok(s.value.rest) && BookNow() == s.value.book)
              && (s.Err? ==> r == Err(s.error))
    {
      ghost var before := BookNow();
      var rest := winc;
      var i := 0;
      while i < |rows| && rest >= 1
        invariant i <= |rows|
        invariant RestoreInactive(Restoring(BookNow(), rest), rows[i..], change) == RestoreInactive(Restoring(before, winc), rows, change)
      {
        var x := rows[i];
        assert rows[i..][1..] == rows[i + 1..];
        i := i + 1;
        if x.reason != Used {
          if x.row.payer !in users { return Err(UserNotFound(x.row.payer)); }
          users := users[x.row.payer := users[x.row.payer] + x.row.used];
          auditLog := auditLog + [Audit(x.row.payer, x.row.used,
                                        if x.reason.Expired? then DelegatedPaymentExpired else DelegatedPaymentRevoke, Some(change))];
          continue;
        }
        var used := if x.row.used >= rest then x.row.used - rest else 0;
        inactiveApprovals := RemoveInactive(inactiveApprovals, x.row.id);
        approvals := approvals + [x.row.(used := used)];
        rest := rest - x.row.used;
      }
      return Ok(rest);
    }

    method RefundToPayer(share: Share, f: Refunding) returns (r: Result<(), Error>)
      modifies `users, `approvals, `inactiveApprovals, `auditLog
      ensures var s := RefundPayer(old(BookNow()), share, f);
              (s.Ok? ==> r == Ok(()) && BookNow() == s.value) && (s.Err? ==> r == Err(s.error))
    {
      var link := Between(share.payer, f.signer);
      var live := TrimExpiredApprovals(Pick(approvals, link), f.now);
      if live.Err? { return Err(live.error); }
      var rest := GiveToActive(live.value, share.winc);
      var done := RestoreFromInactive(PickInactive(inactiveApprovals, link), rest, f.change);
      if done.Err? { return Err(done.error); }
      return Ok(());
    }

    method RefundToSigner(share: Share, f: Refunding) returns (r: Result<(), Error>)
      requires share.payer == f.signer
      modifies `users, `auditLog
      ensures var s := RefundShare(old(BookNow()), share, f);
              (s.Ok? ==> r == Ok(()) && BookNow() == s.value) && (s.Err? ==> r == Err(s.error))
    {
      if f.signer !in users { return Err(UserNotFound(f.signer)); }
      users := users[f.signer := users[f.signer] + share.winc];
      auditLog := auditLog + [Audit(f.signer, share.winc, f.reason, Some(f.change))];
      return Ok(());
    }

    method RefundWincFromOverflowSpend(amount: int, overflow: Option<seq<Share>>, f: Refunding) returns (r: Result<(), Error>)
      modifies `users, `approvals, `inactiveApprovals, `auditLog
      ensures var s := Refund(old(BookNow()), amount, overflow, f);
              && (s.Ok? ==> r == Ok(()) && BookNow() == s.value)
              && (s.Err? ==> r == Err(s.error) && BookNow() == old(BookNow()))
    {
      var before := BookNow();
      var payers := if overflow.None? then [Share(f.signer, amount)] else overflow.value;
      var i := 0;
      while i < |payers|
        invariant i <= |payers|
        invariant RefundShares(BookNow(), payers[i..], f) == RefundShares(before, payers, f)
      {
        var share := payers[i];
        assert payers[i..][1..] == payers[i + 1..];
        var done;
        if share.payer != f.signer { done := RefundToPayer(share, f); } else { done := RefundToSigner(share, f); }
        if done.Err? {
          Restore(before);
          return Err(done.error);
        }
        i := i + 1;
      }
      return Ok(());
    }

    // ---------- Approvals and balances ----------

    method CreateDelegatedPaymentApproval(id: Id, payer: Addr, spender: Addr, amount: int, expires: Option<int>)
        returns (r: Result<Approval, Error>)
      requires Valid()
      modifies `users, `approvals, `auditLog, `history
      ensures Valid() && history == old(history) + [Service.Money(Runs.Lend(id, payer, spender, amount, expires))]
      ensures var s := CreateApproval(old(BookNow()), id, payer, spender, amount, expires);
              && (s.Ok? ==> r == Ok(Approval(id, payer, spender, amount, 0, expires)) && BookNow() == s.value)
              && (s.Err? ==> r == Err(s.error) && BookNow() == old(BookNow()))
    {
      ghost var t := TablesNow();
      r := LendInTransaction(id, payer, spender, amount, expires);
      Service.MoneyLeaves(t, TablesNow(), Runs.Lend(id, payer, spender, amount, expires));
      Enter(t, Service.Money(Runs.Lend(id, payer, spender, amount, expires)));
    }

    /** The transaction's body. */
    method LendInTransaction(id: Id, payer: Addr, spender: Addr, amount: int, expires: Option<int>) returns (r: Result<Approval, Error>)
      modifies `users, `approvals, `auditLog
      ensures var s := CreateApproval(old(BookNow()), id, payer, spender, amount, expires);
              && (s.Ok? ==> r == Ok(Approval(id, payer, spender, amount, 0, expires)) && BookNow() == s.value)
              && (s.Err? ==> r == Err(s.error) && BookNow() == old(BookNow()))
    {
      if HasId(approvals, inactiveApprovals, id) { return Err(ConflictingApproval(id)); }
      if payer !in users { return Err(UserNotFound(payer)); }
      if users[payer] < amount { return Err(InsufficientBalance(payer)); }
      var row := Approval(id, payer, spender, amount, 0, expires);
      approvals := approvals + [row];
      users := users[payer := users[payer] - amount];
      auditLog := auditLog + [Withdrawal(payer, amount, DelegatedPaymentApproval, Some(id))];
      return Ok(row);
    }

    method RevokeDelegatedPaymentApprovals(payer: Addr, spender: Addr, revokedBy: Id) returns (r: Result<seq<Inactive>, Error>)
      requires Valid()
      modifies `users, `approvals, `inactiveApprovals, `auditLog, `history
      ensures Valid() && history == old(history) + [Service.Money(Runs.TakeBack(payer, spender, revokedBy))]
      ensures r.Err? <==> Returned(old(BookNow()), payer, spender, revokedBy) == []
      ensures var s := Revoke(old(BookNow()), payer, spender, revokedBy);
              && (s.Ok? ==> r == Ok(Returned(old(BookNow()), payer, spender, revokedBy)) && BookNow() == s.value)
              && (s.Err? ==> r == Err(s.error) && BookNow() == old(BookNow()))
    {
      ghost var t := TablesNow();
      Service.IsRunSound(t, history);
      RevokeReturns(BookNow(), payer, spender, revokedBy);
      r := RevokeInTransaction(payer, spender, revokedBy);
      Service.MoneyLeaves(t, TablesNow(), Runs.TakeBack(payer, spender, revokedBy));
      Enter(t, Service.Money(Runs.TakeBack(payer, spender, revokedBy)));
    }

    /** The transaction's body. */
    method RevokeInTransaction(payer: Addr, spender: Addr, revokedBy: Id) returns (r: Result<seq<Inactive>, Error>)
      modifies `users, `approvals, `inactiveApprovals, `auditLog
      ensures var s := Revoke(old(BookNow()), payer, spender, revokedBy);
              && (s.Ok? ==> r == Ok(Returned(old(BookNow()), payer, spender, revokedBy)) && BookNow() == s.value)
              && (s.Err? ==> r == Err(s.error) && BookNow() == old(BookNow()))
    {
      var before := BookNow();
      var link := Between(payer, spender);
      var deleted := Pick(approvals, link);
      if deleted != [] && payer !in users { return Err(UserNotFound(payer)); }
      approvals := Without(approvals, link);
      inactiveApprovals := inactiveApprovals + AsInactive(deleted, Revoked, Some(revokedBy));
      if |deleted| > 0 {
        var toRefund := SumLeft(deleted);
        users := users[payer := users[payer] + toRefund];
        auditLog := auditLog + [Audit(payer, toRefund, DelegatedPaymentRevoke, Some(revokedBy))];
      }
      UsedUpRevokedAppend(before.inactive, AsInactive(deleted, Revoked, Some(revokedBy)), link, revokedBy);
      RevokedNotSelected(deleted, link, revokedBy);
      var marked := UsedUpRevoked(inactiveApprovals, link, revokedBy);
      assert marked == UsedUpRevoked(before.inactive, link, revokedBy);
      inactiveApprovals := RevokeUsedUp(inactiveApprovals, link, revokedBy);
      if deleted == [] && inactiveApprovals == before.inactive {
        Restore(before);
        return Err(NoApprovalsFound(payer, spender));
      }
      return Ok(AsInactive(deleted, Revoked, Some(revokedBy)) + marked);
    }

    /** getBalance; the expiry it performs first stays even when the user is unknown. */
    method GetBalance(u: Addr, now: int) returns (r: Result<BalanceReport, Error>)
      requires Valid()
      modifies `users, `approvals, `inactiveApprovals, `auditLog, `history
      ensures Valid() && history == old(history) + [Service.Money(Runs.Report(u, now))]
      ensures Reports(old(BookNow()), BookNow(), u, now, r)
    {
      ghost var t := TablesNow();
      Service.IsRunSound(t, history);
      r := ReportBalance(u, now);
      Service.MoneyLeaves(t, TablesNow(), Runs.Report(u, now));
      Enter(t, Service.Money(Runs.Report(u, now)));
    }

    /** The expiry and the report. */
    method ReportBalance(u: Addr, now: int) returns (r: Result<BalanceReport, Error>)
      requires Keyed(BookNow())
      modifies `users, `approvals, `inactiveApprovals, `auditLog
      ensures Reports(old(BookNow()), BookNow(), u, now, r)
    {
      ReportedControlled(BookNow(), u, now);
      Expiry.ReportedExactly(BookNow(), u, now);
      var touching := Touching(approvals, u);
      var live := TrimExpiredApprovals(touching, now);
      var given := Pick(live.value, Given(u));
      var received := Received(live.value, u);
      if u in users {
        return Ok(BalanceReport(users[u], users[u] + SumLeft(given), users[u] + SumLeft(received), given, received));
      }
      if SumLeft(received) >= 1 { return Ok(BalanceReport(0, 0, SumLeft(received), given, received)); }
      return Err(UserNotFound(u));
    }

    // ---------- Plain balance changes ----------

    /** INSERT ... ON CONFLICT DO UPDATE, with its audit row; says whether the user was created. */
    method AtomicCreditUser(user: Addr, amount: int, onInsert: AuditReason, onUpdate: AuditReason, change: Id) returns (created: bool)
      modifies `users, `auditLog
      ensures BookNow() == Runs.CreditUser(old(BookNow()), user, amount, onInsert, onUpdate, change)
      ensures created <==> user !in old(users)
    {
      created := user !in users;
      if created {
        users := users[user := amount];
        auditLog := auditLog + [Audit(user, amount, onInsert, Some(change))];
      } else {
        users := users[user := users[user] + amount];
        auditLog := auditLog + [Audit(user, amount, onUpdate, Some(change))];
      }
    }

    method AdjustUserWinstonBalance(user: Addr, amount: int, reason: AuditReason, change: Id)
      requires Valid() && !IsApprovedSpend(reason)
      modifies `users, `auditLog, `history
      ensures Valid() && history == old(history) + [Service.Money(Runs.Adjust(user, amount, reason, change))]
      ensures BookNow() == Runs.Apply(old(BookNow()), Runs.Adjust(user, amount, reason, change))
    {
      Begin(Service.Money(Runs.Adjust(user, amount, reason, change)));
      if user !in users {
        users := users[user := amount];
      } else {
        users := users[user := users[user] + amount];
      }
      auditLog := auditLog + [Audit(user, amount, reason, Some(change))];
      assert users == old(users)[user := Balance(old(BookNow()), user) + amount];
    }

    /** The balance part of finalizeX402Payment. */
    method FinalizeX402(user: Addr, refund: nat, fraud: bool, item: Id) returns (r: Result<(), Error>)
      requires Valid()
      modifies `users, `auditLog, `history
      ensures Valid() && old(history) <= history
      ensures var paid := if refund > 0 then Runs.ChangeLocked(old(BookNow()), user, refund, X402OverpaymentRefund, item)
          else Ok(old(BookNow()));
              && (paid.Err? ==> r == Err(paid.error) && BookNow() == old(BookNow()))
              && (paid.Ok? ==> r == Ok(()) && BookNow() == if fraud then Note(paid.value, user, 0, X402FraudPenalty, Some(item))
                else paid.value)
    {
      if refund > 0 {
        if user !in users { return Err(UserNotFound(user)); }
        CreditLocked(user, refund, X402OverpaymentRefund, item);
      }
      if fraud { Remark(user, X402FraudPenalty, item); }
      return Ok(());
    }

    method CreditLocked(user: Addr, winc: nat, reason: AuditReason, change: Id)
      requires Valid() && user in users && !IsApprovedSpend(reason)
      modifies `users, `auditLog, `history
      ensures Valid() && history == old(history) + [Service.Money(Runs.CreditLocked(user, winc, reason, change))]
      ensures BookNow() == Post(old(BookNow()), user, winc, reason, Some(change))
    {
      ghost var t := TablesNow();
      users := users[user := users[user] + winc];
      auditLog := auditLog + [Audit(user, winc, reason, Some(change))];
      Service.MoneyLeaves(t, TablesNow(), Runs.CreditLocked(user, winc, reason, change));
      Enter(t, Service.Money(Runs.CreditLocked(user, winc, reason, change)));
    }

    method Remark(user: Addr, reason: AuditReason, change: Id)
      requires Valid()
      modifies `auditLog, `history
      ensures Valid() && history == old(history) + [Service.Money(Runs.Remark(user, reason, change))]
      ensures BookNow() == Note(old(BookNow()), user, 0, reason, Some(change))
    {
      Begin(Service.Money(Runs.Remark(user, reason, change)));
      auditLog := auditLog + [Audit(user, 0, reason, Some(change))];
    }

    // ---------- Reservations ----------

    method ReserveBalance(id: Id, signer: Addr, winc: nat, item: Id, paidBy: seq<Addr>, directive: Directive, now: int)
        returns (r: Result<(), Error>)
      requires Valid()
      modifies `users, `approvals, `inactiveApprovals, `auditLog, `reservations, `history
      ensures Valid() && history == old(history) + [Service.Reserve(id, signer, winc, item, paidBy, directive, now)]
      ensures var s := Reservations.Reserve(old(DeskNow()), id, signer, winc, item, paidBy, directive, now);
              && (s.Ok? ==> r == Ok(()) && DeskNow() == s.value)
              && (s.Err? ==> r == Err(s.error) && DeskNow() == old(DeskNow()))
    {
      ghost var t := TablesNow();
      r := ReserveInTransaction(id, signer, winc, item, paidBy, directive, now);
      Service.DeskLeaves(t, TablesNow(), Service.Reserve(id, signer, winc, item, paidBy, directive, now));
      Enter(t, Service.Reserve(id, signer, winc, item, paidBy, directive, now));
    }

    /** The transaction's body. */
    method ReserveInTransaction(id: Id, signer: Addr, winc: nat, item: Id, paidBy: seq<Addr>, directive: Directive, now: int)
        returns (r: Result<(), Error>)
      modifies `users, `approvals, `inactiveApprovals, `auditLog, `reservations
      ensures var s := Reservations.Reserve(old(DeskNow()), id, signer, winc, item, paidBy, directive, now);
              && (s.Ok? ==> r == Ok(()) && DeskNow() == s.value)
              && (s.Err? ==> r == Err(s.error) && DeskNow() == old(DeskNow()))
    {
      if Reservations.Active(reservations, item) != [] { return Ok(()); }
      var before := BookNow();
      var overflow := UseBalanceAndApprovals(signer, winc, paidBy, directive, Upload, item);
      if overflow.Err? { return Err(overflow.error); }
      if Reservations.HasRow(reservations, id) {
        Restore(before);
        return Err(AlreadyExists(id));
      }
      reservations := reservations + [Reservations.Reservation(id, item, signer, winc, overflow.value, false, now)];
      return Ok(());
    }

    method RefundBalance(signer: Addr, amount: int, item: Id, now: int) returns (r: Result<(), Error>)
      requires Valid()
      modifies `users, `approvals, `inactiveApprovals, `auditLog, `reservations, `history
      ensures Valid() && history == old(history) + [Service.RefundItem(signer, amount, item, now)]
      ensures var s := Reservations.RefundItem(old(DeskNow()), signer, amount, item, now);
              && (s.Ok? ==> r == Ok(()) && DeskNow() == s.value)
              && (s.Err? ==> r == Err(s.error) && DeskNow() == old(DeskNow()))
    {
      ghost var t := TablesNow();
      r := RefundInTransaction(signer, amount, item, now);
      Service.DeskLeaves(t, TablesNow(), Service.RefundItem(signer, amount, item, now));
      Enter(t, Service.RefundItem(signer, amount, item, now));
    }

    /** The transaction's body. */
    method RefundInTransaction(signer: Addr, amount: int, item: Id, now: int) returns (r: Result<(), Error>)
      modifies `users, `approvals, `inactiveApprovals, `auditLog, `reservations
      ensures var s := Reservations.RefundItem(old(DeskNow()), signer, amount, item, now);
              && (s.Ok? ==> r == Ok(()) && DeskNow() == s.value)
              && (s.Err? ==> r == Err(s.error) && DeskNow() == old(DeskNow()))
    {
      var found := Reservations.Active(reservations, item);
      var overflow := if found == [] then None else Reservations.Newest(found).overflow;
      var done := RefundWincFromOverflowSpend(amount, overflow, Refunding(signer, RefundedUpload, item, now));
      if done.Err? { return Err(done.error); }
      if found != [] { reservations := Reservations.MarkRefunded(reservations, Reservations.Newest(found).id); }
      return Ok(());
    }

    // ---------- Quotes, receipts, gifts, chargebacks ----------

    method CreateTopUpQuote(q: Payments.Quote) returns (r: Result<(), Error>)
      requires Valid()
      modifies `quotes, `history
      ensures Valid() && history == old(history) + [Service.Shopping(Payments.Quoted(q))]
      ensures var s := Payments.CreateQuote(old(ShopNow()), q);
              && (s.Ok? ==> r == Ok(()) && ShopNow() == s.value)
              && (s.Err? ==> r == Err(s.error) && ShopNow() == old(ShopNow()))
    {
      Begin(Service.Shopping(Payments.Quoted(q)));
      if q.id in quotes { return Err(AlreadyExists(q.id)); }
      quotes := quotes[q.id := q];
      return Ok(());
    }

    /** The part shared by paid and bypassed receipts; nothing is written when a key refuses the row. */
    method InsertReceipt(row: Payments.Receipt, giftReason: AuditReason, onInsert: AuditReason, onUpdate: AuditReason)
        returns (r: Result<(), Error>)
      modifies `users, `auditLog, `receipts, `gifts
      ensures var s := Payments.InsertReceipt(old(ShopNow()), row, giftReason, onInsert, onUpdate);
              && (s.Ok? ==> r == Ok(()) && ShopNow() == s.value)
              && (s.Err? ==> r == Err(s.error) && ShopNow() == old(ShopNow()))
    {
      if Payments.HasReceipt(receipts, row.id) || Payments.HasReceiptFor(receipts, row.quote.id) { return Err(AlreadyExists(row.id)); }
      if row.quote.kind.Email? {
        if row.id in gifts { return Err(AlreadyExists(row.id)); }
        gifts := gifts[row.id := Payments.Gift(row.id, row.quote.destination, row.quote.winc)];
        auditLog := auditLog + [Audit(row.quote.destination, 0, giftReason, Some(row.id))];
      } else {
        var _ := AtomicCreditUser(row.quote.destination, row.quote.winc, onInsert, onUpdate, row.id);
      }
      receipts := receipts + [row];
      return Ok(());
    }

    method CreatePaymentReceipt(quoteId: Id, receiptId: Id, paid: int, currency: string, now: int) returns (r: Result<(), Error>)
      requires Valid()
      modifies `users, `auditLog, `quotes, `receipts, `gifts, `history
      ensures Valid() && history == old(history) + [Service.Shopping(Payments.Paid(quoteId, receiptId, paid, currency, now))]
      ensures var s := Payments.CreateReceipt(old(ShopNow()), quoteId, receiptId, paid, currency, now);
              && (s.Ok? ==> r == Ok(()) && ShopNow() == s.value)
              && (s.Err? ==> r == Err(s.error) && ShopNow() == old(ShopNow()))
    {
      ghost var t := TablesNow();
      r := PayInTransaction(quoteId, receiptId, paid, currency, now);
      Service.ShopLeaves(t, TablesNow(), Payments.Paid(quoteId, receiptId, paid, currency, now));
      Enter(t, Service.Shopping(Payments.Paid(quoteId, receiptId, paid, currency, now)));
    }

    /** The transaction's body. */
    method PayInTransaction(quoteId: Id, receiptId: Id, paid: int, currency: string, now: int) returns (r: Result<(), Error>)
      modifies `users, `auditLog, `quotes, `receipts, `gifts
      ensures var s := Payments.CreateReceipt(old(ShopNow()), quoteId, receiptId, paid, currency, now);
              && (s.Ok? ==> r == Ok(()) && ShopNow() == s.value)
              && (s.Err? ==> r == Err(s.error) && ShopNow() == old(ShopNow()))
    {
      if quoteId !in quotes { return Err(NotFound(quoteId)); }
      var before, q := quotes, quotes[quoteId];
      if q.expires < now { return Err(Mismatch(quoteId)); }
      if paid < q.payment || currency != q.currency { return Err(Mismatch(quoteId)); }
      quotes := quotes - {quoteId};
      r := InsertReceipt(Payments.Receipt(receiptId, q), GiftedPayment, AccountCreation, Payment);
      if r.Err? { quotes := before; }
    }

    /** ROLLBACK of what an inserted receipt touches. */
    method RestoreShop(s: Payments.Shop)
      requires quotes == s.quotes && chargebacks == s.chargebacks && redeemedGifts == s.redeemed
      requires approvals == s.book.active && inactiveApprovals == s.book.inactive
      modifies `users, `auditLog, `receipts, `gifts
      ensures ShopNow() == s
    {
      users, auditLog, receipts, gifts := s.book.users, s.book.audit, s.receipts, s.gifts;
    }

    method CreateBypassedPaymentReceipts(bypassed: seq<Payments.Quote>) returns (r: Result<(), Error>)
      requires Valid()
      modifies `users, `auditLog, `receipts, `gifts, `history
      ensures Valid() && history == old(history) + [Service.Shopping(Payments.Bypassed(bypassed))]
      ensures var s := Payments.CreateBypassed(old(ShopNow()), bypassed);
              && (s.Ok? ==> r == Ok(()) && ShopNow() == s.value)
              && (s.Err? ==> r == Err(s.error) && ShopNow() == old(ShopNow()))
    {
      Begin(Service.Shopping(Payments.Bypassed(bypassed)));
      r := BypassInTransaction(bypassed);
    }

    /** The transaction's body. */
    method BypassInTransaction(bypassed: seq<Payments.Quote>) returns (r: Result<(), Error>)
      modifies `users, `auditLog, `receipts, `gifts
      ensures var s := Payments.CreateBypassed(old(ShopNow()), bypassed);
              && (s.Ok? ==> r == Ok(()) && ShopNow() == s.value)
              && (s.Err? ==> r == Err(s.error) && ShopNow() == old(ShopNow()))
    {
      var before := ShopNow();
      var i := 0;
      while i < |bypassed|
        invariant i <= |bypassed|
        invariant quotes == before.quotes && chargebacks == before.chargebacks && redeemedGifts == before.redeemed
        invariant approvals == before.book.active && inactiveApprovals == before.book.inactive
        invariant Payments.CreateBypassed(ShopNow(), bypassed[i..]) == Payments.CreateBypassed(before, bypassed)
      {
        assert bypassed[i..][1..] == bypassed[i + 1..];
        r := InsertReceipt(Payments.Receipt(bypassed[i].id, bypassed[i]), BypassedGiftedPayment, BypassedAccountCreation, BypassedPayment);
        if r.Err? {
          RestoreShop(before);
          return;
        }
        i := i + 1;
      }
      return Ok(());
    }

    method RedeemGift(destination: Addr, receiptId: Id, email: Addr) returns (r: Result<int, Error>)
      requires Valid()
      modifies `users, `auditLog, `gifts, `redeemedGifts, `history
      ensures Valid() && history == old(history) + [Service.Shopping(Payments.Redeemed(destination, receiptId, email))]
      ensures var s := Payments.RedeemGift(old(ShopNow()), destination, receiptId, email);
              && (s.Ok? ==> receiptId in old(gifts) && r == Ok(old(gifts)[receiptId].winc) && ShopNow() == s.value)
              && (s.Err? ==> r == Err(s.error) && ShopNow() == old(ShopNow()))
    {
      Begin(Service.Shopping(Payments.Redeemed(destination, receiptId, email)));
      r := RedeemInTransaction(destination, receiptId, email);
    }

    /** The transaction's body. */
    method RedeemInTransaction(destination: Addr, receiptId: Id, email: Addr) returns (r: Result<int, Error>)
      modifies `users, `auditLog, `gifts, `redeemedGifts
      ensures var s := Payments.RedeemGift(old(ShopNow()), destination, receiptId, email);
              && (s.Ok? ==> receiptId in old(gifts) && r == Ok(old(gifts)[receiptId].winc) && ShopNow() == s.value)
              && (s.Err? ==> r == Err(s.error) && ShopNow() == old(ShopNow()))
    {
      if receiptId !in gifts {
        return if receiptId in redeemedGifts then Err(AlreadyRedeemed(receiptId)) else Err(NotFound(receiptId));
      }
      if !Payments.HasReceipt(receipts, receiptId) { return Err(NotFound(receiptId)); }
      var gift := gifts[receiptId];
      if gift.email != email { return Err(Mismatch(receiptId)); }
      if receiptId in redeemedGifts { return Err(AlreadyExists(receiptId)); }
      gifts := gifts - {receiptId};
      redeemedGifts := redeemedGifts[receiptId := Payments.RedeemedGift(gift, destination)];
      var _ := AtomicCreditUser(destination, gift.winc, GiftedAccountCreation, GiftedPaymentRedemption, receiptId);
      return Ok(gift.winc);
    }

    method CreateChargebackReceipt(quoteId: Id, reason: string, chargebackId: Id) returns (r: Result<(), Error>)
      requires Valid()
      modifies `users, `auditLog, `receipts, `chargebacks, `history
      ensures Valid() && history == old(history) + [Service.Shopping(Payments.ChargedBack(quoteId, reason, chargebackId))]
      ensures var s := Payments.CreateChargeback(old(ShopNow()), quoteId, reason, chargebackId);
              && (s.Ok? ==> r == Ok(()) && ShopNow() == s.value)
              && (s.Err? ==> r == Err(s.error) && ShopNow() == old(ShopNow()))
    {
      ghost var t := TablesNow();
      r := ChargeBackInTransaction(quoteId, reason, chargebackId);
      Service.ShopLeaves(t, TablesNow(), Payments.ChargedBack(quoteId, reason, chargebackId));
      Enter(t, Service.Shopping(Payments.ChargedBack(quoteId, reason, chargebackId)));
    }

    /** The transaction's body. */
    method ChargeBackInTransaction(quoteId: Id, reason: string, chargebackId: Id) returns (r: Result<(), Error>)
      modifies `users, `auditLog, `receipts, `chargebacks
      ensures var s := Payments.CreateChargeback(old(ShopNow()), quoteId, reason, chargebackId);
              && (s.Ok? ==> r == Ok(()) && ShopNow() == s.value)
              && (s.Err? ==> r == Err(s.error) && ShopNow() == old(ShopNow()))
    {
      var found := Payments.ReceiptFor(receipts, quoteId);
      if found.None? { return Err(NotFound(quoteId)); }
      var row := found.value;
      var before := BookNow();
      if row.quote.kind.Wallet? {
        var u := row.quote.destination;
        if u !in users { return Err(UserNotFound(u)); }
        users := users[u := users[u] - row.quote.winc];
        auditLog := auditLog + [Withdrawal(u, row.quote.winc, Chargeback, Some(chargebackId))];
      }
      if Payments.HasChargeback(chargebacks, chargebackId) {
        users, auditLog := before.users, before.audit;
        return Err(AlreadyExists(chargebackId));
      }
      receipts := Payments.RemoveReceipt(receipts, row.id);
      chargebacks := chargebacks + [Payments.ChargebackReceipt(chargebackId, row, reason)];
      return Ok(());
    }

    // ---------- Crypto payments ----------

    method CreatePendingTransaction(tx: Crypto.Tx) returns (r: Result<(), Error>)
      requires Valid()
      modifies `pendingTxs, `history
      ensures Valid() && history == old(history) + [Service.Paying(Crypto.Seen(tx))]
      ensures var s := Crypto.CreatePending(old(TillNow()), tx);
              (s.Ok? ==> r == Ok(()) && TillNow() == s.value) && (s.Err? ==> r == Err(s.error) && TillNow() == old(TillNow()))
    {
      Begin(Service.Paying(Crypto.Seen(tx)));
      if tx.id in pendingTxs { return Err(AlreadyExists(tx.id)); }
      pendingTxs := pendingTxs[tx.id := tx];
      return Ok(());
    }

    method CreateNewCreditedTransaction(tx: Crypto.Tx) returns (r: Result<(), Error>)
      requires Valid()
      modifies `users, `auditLog, `creditedTxs, `history
      ensures Valid() && history == old(history) + [Service.Paying(Crypto.Direct(tx))]
      ensures var s := Crypto.CreditTx(old(TillNow()), tx);
              (s.Ok? ==> r == Ok(()) && TillNow() == s.value) && (s.Err? ==> r == Err(s.error) && TillNow() == old(TillNow()))
    {
      Begin(Service.Paying(Crypto.Direct(tx)));
      r := InsertCredited(tx);
    }

    /** A credited row and its credit, or nothing when the key refuses it. */
    method InsertCredited(tx: Crypto.Tx) returns (r: Result<(), Error>)
      modifies `users, `auditLog, `creditedTxs
      ensures var s := Crypto.CreditTx(old(TillNow()), tx);
              (s.Ok? ==> r == Ok(()) && TillNow() == s.value) && (s.Err? ==> r == Err(s.error) && TillNow() == old(TillNow()))
    {
      if Crypto.IsCredited(creditedTxs, tx.id) { return Err(AlreadyExists(tx.id)); }
      creditedTxs := creditedTxs + [tx];
      var _ := AtomicCreditUser(tx.destination, tx.winc, AccountCreation, CryptoPayment, tx.id);
      return Ok(());
    }

    method CreditPendingTransaction(id: Id) returns (r: Result<(), Error>)
      requires Valid()
      modifies `users, `auditLog, `pendingTxs, `creditedTxs, `history
      ensures Valid() && history == old(history) + [Service.Paying(Crypto.Confirmed(id))]
      ensures var s := Crypto.CreditPending(old(TillNow()), id);
              (s.Ok? ==> r == Ok(()) && TillNow() == s.value) && (s.Err? ==> r == Err(s.error) && TillNow() == old(TillNow()))
    {
      ghost var t := TablesNow();
      r := ConfirmInTransaction(id);
      Service.TillLeaves(t, TablesNow(), Crypto.Confirmed(id));
      Enter(t, Service.Paying(Crypto.Confirmed(id)));
    }

    /** The transaction's body. */
    method ConfirmInTransaction(id: Id) returns (r: Result<(), Error>)
      modifies `users, `auditLog, `pendingTxs, `creditedTxs
      ensures var s := Crypto.CreditPending(old(TillNow()), id);
              (s.Ok? ==> r == Ok(()) && TillNow() == s.value) && (s.Err? ==> r == Err(s.error) && TillNow() == old(TillNow()))
    {
      if id !in pendingTxs { return Err(NotFound(id)); }
      var before, tx := pendingTxs, pendingTxs[id];
      pendingTxs := pendingTxs - {id};
      r := InsertCredited(tx);
      if r.Err? { pendingTxs := before; }
    }

    method FailPendingTransaction(id: Id) returns (r: Result<(), Error>)
      requires Valid()
      modifies `pendingTxs, `failedTxs, `history
      ensures Valid() && history == old(history) + [Service.Paying(Crypto.Failed(id))]
      ensures var s := Crypto.FailPending(old(TillNow()), id);
              (s.Ok? ==> r == Ok(()) && TillNow() == s.value) && (s.Err? ==> r == Err(s.error) && TillNow() == old(TillNow()))
    {
      Begin(Service.Paying(Crypto.Failed(id)));
      if id !in pendingTxs { return Err(NotFound(id)); }
      if id in failedTxs { return Err(AlreadyExists(id)); }
      failedTxs := failedTxs[id := pendingTxs[id]];
      pendingTxs := pendingTxs - {id};
      return Ok(());
    }

    // ---------- ArNS purchases ----------

    method CreateArNSPurchaseReceipt(nonce: Id, owner: Addr, winc: nat, paidBy: seq<Addr>, process: Option<Id>, now: int)
        returns (r: Result<(), Error>)
      requires Valid()
      modifies `users, `approvals, `inactiveApprovals, `auditLog, `arnsReceipts, `history
      ensures Valid() && history == old(history) + [Service.Buying(Arns.Create(nonce, owner, winc, paidBy, process, now))]
      ensures var s := Arns.CreateReceipt(old(RegistryNow()), nonce, owner, winc, paidBy, process, now);
              && (s.Ok? ==> r == Ok(()) && RegistryNow() == s.value)
              && (s.Err? ==> r == Err(s.error) && RegistryNow() == old(RegistryNow()))
    {
      ghost var t := TablesNow();
      r := PurchaseInTransaction(nonce, owner, winc, paidBy, process, now);
      Service.RegistryLeaves(t, TablesNow(), Arns.Create(nonce, owner, winc, paidBy, process, now));
      Enter(t, Service.Buying(Arns.Create(nonce, owner, winc, paidBy, process, now)));
    }

    /** The transaction's body. */
    method PurchaseInTransaction(nonce: Id, owner: Addr, winc: nat, paidBy: seq<Addr>, process: Option<Id>, now: int)
        returns (r: Result<(), Error>)
      modifies `users, `approvals, `inactiveApprovals, `auditLog, `arnsReceipts
      ensures var s := Arns.CreateReceipt(old(RegistryNow()), nonce, owner, winc, paidBy, process, now);
              && (s.Ok? ==> r == Ok(()) && RegistryNow() == s.value)
              && (s.Err? ==> r == Err(s.error) && RegistryNow() == old(RegistryNow()))
    {
      var before := BookNow();
      var overflow := UseBalanceAndApprovals(owner, winc, paidBy, ListOrSigner, ArnsPurchaseOrder, nonce);
      if overflow.Err? { return Err(overflow.error); }
      if nonce in arnsReceipts {
        Restore(before);
        return Err(AlreadyExists(nonce));
      }
      arnsReceipts := arnsReceipts[nonce := Arns.Receipt(nonce, owner, winc, overflow.value, Arns.Reserved, process, None, now)];
      return Ok(());
    }

    method UpdateFailedArNSPurchase(nonce: Id, now: int) returns (r: Result<(), Error>)
      requires Valid()
      modifies `users, `approvals, `inactiveApprovals, `auditLog, `arnsReceipts, `failedArns, `history
      ensures Valid() && history == old(history) + [Service.Buying(Arns.Fail(nonce, now))]
      ensures var s := Arns.FailPurchase(old(RegistryNow()), nonce, now);
              && (s.Ok? ==> r == Ok(()) && RegistryNow() == s.value)
              && (s.Err? ==> r == Err(s.error) && RegistryNow() == old(RegistryNow()))
    {
      ghost var t := TablesNow();
      r := FailInTransaction(nonce, now);
      Service.RegistryLeaves(t, TablesNow(), Arns.Fail(nonce, now));
      Enter(t, Service.Buying(Arns.Fail(nonce, now)));
    }

    /** The transaction's body. */
    method FailInTransaction(nonce: Id, now: int) returns (r: Result<(), Error>)
      modifies `users, `approvals, `inactiveApprovals, `auditLog, `arnsReceipts, `failedArns
      ensures var s := Arns.FailPurchase(old(RegistryNow()), nonce, now);
              && (s.Ok? ==> r == Ok(()) && RegistryNow() == s.value)
              && (s.Err? ==> r == Err(s.error) && RegistryNow() == old(RegistryNow()))
    {
      if nonce !in arnsReceipts || !Arns.Unconfirmed(arnsReceipts[nonce].status) { return Err(NotFound(nonce)); }
      var row := arnsReceipts[nonce];
      var done := RefundWincFromOverflowSpend(row.winc, row.overflow, Refunding(row.owner, ArnsPurchaseOrderFailed, nonce, now));
      assert old(RegistryNow()).receipts[nonce] == row;
      if done.Err? { return Err(done.error); }
      arnsReceipts := arnsReceipts - {nonce};
      failedArns := failedArns + [row];
      return Ok(());
    }

    method MarkArNSPurchaseBought(nonce: Id)
      requires Valid()
      modifies `arnsReceipts, `history
      ensures Valid() && history == old(history) + [Service.Buying(Arns.Mark(nonce))]
      ensures RegistryNow() == Arns.MarkBought(old(RegistryNow()), nonce)
    {
      Begin(Service.Buying(Arns.Mark(nonce)));
      if nonce in arnsReceipts && (arnsReceipts[nonce].status == Arns.Reserved || arnsReceipts[nonce].status == Arns.Spawned) {
        arnsReceipts := arnsReceipts[nonce := arnsReceipts[nonce].(status := Arns.Bought)];
      }
    }

    method PersistSpawnedAntId(nonce: Id, ant: Id)
      requires Valid()
      modifies `arnsReceipts, `history
      ensures Valid() && history == old(history) + [Service.Buying(Arns.Persist(nonce, ant))]
      ensures RegistryNow() == Arns.PersistSpawned(old(RegistryNow()), nonce, ant)
    {
      Begin(Service.Buying(Arns.Persist(nonce, ant)));
      if nonce in arnsReceipts && arnsReceipts[nonce].status == Arns.Reserved {
        arnsReceipts := arnsReceipts[nonce := arnsReceipts[nonce].(status := Arns.Spawned, process := Some(ant))];
      }
    }

    method AddMessageIdToPurchaseReceipt(nonce: Id, message: Id)
      requires Valid()
      modifies `arnsReceipts, `history
      ensures Valid() && history == old(history) + [Service.Buying(Arns.Store(nonce, message))]
      ensures RegistryNow() == Arns.AddMessage(old(RegistryNow()), nonce, message)
    {
      Begin(Service.Buying(Arns.Store(nonce, message)));
      if nonce in arnsReceipts {
        arnsReceipts := arnsReceipts[nonce := arnsReceipts[nonce].(status := Arns.Recorded, message := Some(message))];
      }
    }
  }
}
