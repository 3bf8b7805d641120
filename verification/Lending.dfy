/**
 Lending and taking back winc: creating, revoking and expiring delegated approvals. Each moves winc between
 the payer's balance and its approvals, so the payer's controlled balance does not change.
 */
module Lending {
  import opened Wrappers
  import opened Ledger
  import opened Approvals
  import opened Allocation

  // ---------- The operations ----------

  predicate HasId(active: seq<Approval>, inactive: seq<Inactive>, id: Id) {
    (exists r :: r in active && r.id == id) || (exists x :: x in inactive && x.row.id == id)
  }

  /** Any whole amount is accepted that the balance covers, also a negative one, which raises the balance. */
  function CreateApproval(b: Book, id: Id, payer: Addr, spender: Addr, amount: int, expires: Option<int>): Result<Book, Error> {
    if HasId(b.active, b.inactive, id) then Err(ConflictingApproval(id))
    else if payer !in b.users then Err(UserNotFound(payer))
    else if b.users[payer] < amount then Err(InsufficientBalance(payer))
    else
      Ok(b.(active := b.active + [Approval(id, payer, spender, amount, 0, expires)],
            users := b.users[payer := b.users[payer] - amount],
            audit := b.audit + [Withdrawal(payer, amount, DelegatedPaymentApproval, Some(id))]))
  }

  /** DELETE of the rows a link selects. */
  function Without(rows: seq<Approval>, link: Link): seq<Approval> {
    if rows == [] then []
    else if Matches(link, rows[0]) then Without(rows[1..], link)
    else [rows[0]] + Without(rows[1..], link)
  }

  /** INSERT of rows that became inactive. */
  function AsInactive(rows: seq<Approval>, reason: InactiveReason, revokedBy: Option<Id>): seq<Inactive> {
    if rows == [] then [] else [Inactive(rows[0], reason, revokedBy)] + AsInactive(rows[1..], reason, revokedBy)
  }

  /** UPDATE of the used-up rows of a link: a later refund of them goes to the payer's balance. */
  function RevokeUsedUp(rows: seq<Inactive>, link: Link, revokedBy: Id): seq<Inactive> {
    if rows == [] then []
    else [if Matches(link, rows[0].row) && rows[0].reason.Used? then Inactive(rows[0].row, Revoked, Some(revokedBy)) else rows[0]]
         + RevokeUsedUp(rows[1..], link, revokedBy)
  }

  /** The used-up rows of a link, as a revoke leaves them. */
  function UsedUpRevoked(rows: seq<Inactive>, link: Link, revokedBy: Id): seq<Inactive> {
    if rows == [] then []
    else if Matches(link, rows[0].row) && rows[0].reason.Used? then
      [Inactive(rows[0].row, Revoked, Some(revokedBy))] + UsedUpRevoked(rows[1..], link, revokedBy)
    else UsedUpRevoked(rows[1..], link, revokedBy)
  }

  function Revoke(b: Book, payer: Addr, spender: Addr, revokedBy: Id): Result<Book, Error> {
    var link := Between(payer, spender);
    var rows := Pick(b.active, link);
    if rows != [] && payer !in b.users then Err(UserNotFound(payer))
    else
      var taken := b.(active := Without(b.active, link), inactive := b.inactive + AsInactive(rows, Revoked, Some(revokedBy)));
      var paid := if rows == [] then taken else Post(taken, payer, SumLeft(rows), DelegatedPaymentRevoke, Some(revokedBy));
      var done := paid.(inactive := RevokeUsedUp(paid.inactive, link, revokedBy));
      if rows == [] && done.inactive == b.inactive then Err(NoApprovalsFound(payer, spender)) else Ok(done)
  }

  predicate Live(r: Approval, now: int) { r.expires.None? || r.expires.value > now }

  function LiveRows(rows: seq<Approval>, now: int): seq<Approval> {
    if rows == [] then []
    else if Live(rows[0], now) then [rows[0]] + LiveRows(rows[1..], now)
    else LiveRows(rows[1..], now)
  }

  function ExpiredRows(rows: seq<Approval>, now: int): seq<Approval> {
    if rows == [] then []
    else if Live(rows[0], now) then ExpiredRows(rows[1..], now)
    else [rows[0]] + ExpiredRows(rows[1..], now)
  }

  /** First loop of trimExpiredApprovals: expired rows go to the inactive table. */
  function MoveExpired(b: Book, rows: seq<Approval>, now: int): Book
    decreases |rows|
  {
    if rows == [] then b
    else if Live(rows[0], now) then MoveExpired(b, rows[1..], now)
    else MoveExpired(Moved(b, rows[0]), rows[1..], now)
  }

  /** The move of one row; nothing is inserted when nothing was deleted. */
  function Moved(b: Book, r: Approval): Book {
    var deleted := Replace(b.active, r.id, None);
    if deleted == b.active then b else b.(active := deleted, inactive := b.inactive + [Inactive(r, Expired, None)])
  }

  function PayersOf(rows: seq<Approval>): seq<Addr> {
    if rows == [] then [] else [rows[0].payer] + PayersOf(rows[1..])
  }

  /** Second loop: one credit per payer, of what its expired approvals still held. */
  function CreditExpired(b: Book, payers: seq<Addr>, expired: seq<Approval>): Result<Book, Error>
    decreases |payers|
  {
    if payers == [] then Ok(b)
    else if payers[0] !in b.users then Err(UserNotFound(payers[0]))
    else CreditExpired(Post(b, payers[0], SumLeft(Pick(expired, Given(payers[0]))), DelegatedPaymentExpired, None), payers[1..], expired)
  }

  function Trim(b: Book, rows: seq<Approval>, now: int): Result<Book, Error> {
    var expired := ExpiredRows(rows, now);
    CreditExpired(MoveExpired(b, rows, now), Dedupe(PayersOf(expired)), expired)
  }

  // ---------- Creating ----------

  /**
   A created approval moves winc between the payer's balance and the approval: it leaves every controlled balance, and
   the payer is not below zero afterwards. Approvals in range stay so if and only if the amount is not negative.
   */
  lemma CreateApprovalNeutral(b: Book, id: Id, payer: Addr, spender: Addr, amount: int, expires: Option<int>)
    requires Keyed(b) && CreateApproval(b, id, payer, spender, amount, expires).Ok?
    ensures var e := CreateApproval(b, id, payer, spender, amount, expires).value;
            && Keyed(e) && (Balanced(b) ==> Balanced(e)) && e.users.Keys == b.users.Keys
            && (WellFormed(b) ==> (WellFormed(e) <==> amount >= 0))
            && (forall u :: Controlled(e, u) == Controlled(b, u))
            && Lent(e, Between(payer, spender)) == Lent(b, Between(payer, spender)) + amount
            && Balance(e, payer) == Balance(b, payer) - amount >= 0
  {
    var row := Approval(id, payer, spender, amount, 0, expires);
    var lent := b.(active := b.active + [row]);
    forall link
      ensures SumLeft(Pick(lent.active, link)) == SumLeft(Pick(b.active, link)) + (if Matches(link, row) then amount else 0)
    {
      PickTotals(b.active, [row], link);
      PickOne(row, link);
    }
    assert forall r :: r in lent.active <==> r in b.active || r == row;
    if Balanced(b) { WithdrawalBalances(lent, payer, amount, DelegatedPaymentApproval, Some(id)); }
  }

  // ---------- Revoking ----------

  lemma {:induction false} WithoutIn(rows: seq<Approval>, link: Link, r: Approval)
    ensures r in Without(rows, link) <==> r in rows && !Matches(link, r)
  {
    if rows != [] { WithoutIn(rows[1..], link, r); }
  }

  lemma {:induction false} WithoutUnique(rows: seq<Approval>, link: Link)
    requires UniqueIds(rows)
    ensures UniqueIds(Without(rows, link))
  {
    if rows != [] {
      WithoutUnique(rows[1..], link);
      forall r | r in Without(rows[1..], link) ensures r.id != rows[0].id { WithoutIn(rows[1..], link, r); }
    }
  }

  /** Deleting one payer's rows to one spender takes their remainder out of that payer's lent total only. */
  lemma {:induction false} WithoutLent(rows: seq<Approval>, link: Link, u: Addr)
    requires link.Between?
    ensures SumLeft(Pick(Without(rows, link), Given(u))) ==
            SumLeft(Pick(rows, Given(u))) - (if u == link.payer then SumLeft(Pick(rows, link)) else 0)
  {
    if rows != [] {
      WithoutLent(rows[1..], link, u);
      var r := rows[0];
      PickOne(r, Given(u));
      PickOne(r, link);
      assert rows == [r] + rows[1..];
      PickTotals([r], rows[1..], Given(u));
      PickTotals([r], rows[1..], link);
      PickTotals([r], Without(rows[1..], link), Given(u));
      if Matches(link, r) { assert Without(rows, link) == Without(rows[1..], link); }
    }
  }

  lemma {:induction false} AsInactiveIn(rows: seq<Approval>, reason: InactiveReason, revokedBy: Option<Id>, x: Inactive)
    ensures x in AsInactive(rows, reason, revokedBy) <==> x.row in rows && x == Inactive(x.row, reason, revokedBy)
  {
    if rows != [] { AsInactiveIn(rows[1..], reason, revokedBy, x); }
  }

  lemma {:induction false} AsInactiveUnique(rows: seq<Approval>, reason: InactiveReason, revokedBy: Option<Id>)
    requires UniqueIds(rows)
    ensures UniqueInactiveIds(AsInactive(rows, reason, revokedBy))
  {
    if rows != [] {
      AsInactiveUnique(rows[1..], reason, revokedBy);
      forall x | x in AsInactive(rows[1..], reason, revokedBy)
        ensures x.row.id != rows[0].id
      {
        AsInactiveIn(rows[1..], reason, revokedBy, x);
      }
    }
  }

  lemma {:induction false} RevokeUsedUpRows(rows: seq<Inactive>, link: Link, revokedBy: Id)
    ensures |RevokeUsedUp(rows, link, revokedBy)| == |rows|
    ensures forall i :: 0 <= i < |rows| ==>
              RevokeUsedUp(rows, link, revokedBy)[i] ==
              if Matches(link, rows[i].row) && rows[i].reason.Used? then Inactive(rows[i].row, Revoked, Some(revokedBy)) else rows[i]
  {
    if rows != [] { RevokeUsedUpRows(rows[1..], link, revokedBy); }
  }

  /** The update changes the table exactly when it selects a row. */
  lemma {:induction false} UsedUpRevokedNone(rows: seq<Inactive>, link: Link, revokedBy: Id)
    ensures UsedUpRevoked(rows, link, revokedBy) == [] <==> RevokeUsedUp(rows, link, revokedBy) == rows
  {
    if rows != [] {
      UsedUpRevokedNone(rows[1..], link, revokedBy);
      RevokeUsedUpRows(rows, link, revokedBy);
      assert RevokeUsedUp(rows, link, revokedBy)[1..] == RevokeUsedUp(rows[1..], link, revokedBy);
    }
  }

  /** The rows just moved aside are revoked already: the update does not select them. */
  lemma {:induction false} RevokedNotSelected(rows: seq<Approval>, link: Link, revokedBy: Id)
    ensures UsedUpRevoked(AsInactive(rows, Revoked, Some(revokedBy)), link, revokedBy) == []
  {
    if rows != [] { RevokedNotSelected(rows[1..], link, revokedBy); }
  }

  lemma {:induction false} UsedUpRevokedAppend(rows: seq<Inactive>, more: seq<Inactive>, link: Link, revokedBy: Id)
    ensures UsedUpRevoked(rows + more, link, revokedBy) == UsedUpRevoked(rows, link, revokedBy) + UsedUpRevoked(more, link, revokedBy)
  {
    if rows == [] {
      assert rows + more == more;
    } else {
      UsedUpRevokedAppend(rows[1..], more, link, revokedBy);
      assert (rows + more)[1..] == rows[1..] + more;
      var rest, last := UsedUpRevoked(rows[1..], link, revokedBy), UsedUpRevoked(more, link, revokedBy);
      var head := if Matches(link, rows[0].row) && rows[0].reason.Used? then [Inactive(rows[0].row, Revoked, Some(revokedBy))] else [];
      assert head + (rest + last) == (head + rest) + last;
    }
  }

  /** What a revoke returns: the approvals it revoked, then the used-up ones it marked. It is refused when there are none. */
  function Returned(b: Book, payer: Addr, spender: Addr, revokedBy: Id): seq<Inactive> {
    AsInactive(Pick(b.active, Between(payer, spender)), Revoked, Some(revokedBy)) +
      UsedUpRevoked(b.inactive, Between(payer, spender), revokedBy)
  }

  lemma RevokeReturns(b: Book, payer: Addr, spender: Addr, revokedBy: Id)
    requires Keyed(b)
    ensures Revoke(b, payer, spender, revokedBy).Err? <==> Returned(b, payer, spender, revokedBy) == []
  {
    RevokeSound(b, payer, spender, revokedBy);
    UsedUpRevokedNone(b.inactive, Between(payer, spender), revokedBy);
    assert b.inactive + [] == b.inactive;
  }

  /** The rows it returns: those of the link that were active or used up, each as revoked by this revoke. */
  lemma ReturnedExactly(b: Book, payer: Addr, spender: Addr, revokedBy: Id, x: Inactive)
    ensures x in Returned(b, payer, spender, revokedBy) <==>
            && x.row.payer == payer && x.row.spender == spender && x.reason == Revoked && x.revokedBy == Some(revokedBy)
            && (x.row in b.active || exists y :: y in b.inactive && y.row == x.row && y.reason == Used)
  {
    AsInactiveIn(Pick(b.active, Between(payer, spender)), Revoked, Some(revokedBy), x);
    PickIn(b.active, Between(payer, spender), x.row);
    UsedUpRevokedIn(b.inactive, Between(payer, spender), revokedBy, x);
  }

  lemma {:induction false} UsedUpRevokedIn(rows: seq<Inactive>, link: Link, revokedBy: Id, x: Inactive)
    ensures x in UsedUpRevoked(rows, link, revokedBy) <==>
            && Matches(link, x.row) && x.reason == Revoked && x.revokedBy == Some(revokedBy)
            && exists y :: y in rows && y.row == x.row && y.reason == Used
  {
    if rows != [] {
      UsedUpRevokedIn(rows[1..], link, revokedBy, x);
      assert forall y :: y in rows <==> y == rows[0] || y in rows[1..];
    }
  }

  lemma RevokeUsedUpIn(rows: seq<Inactive>, link: Link, revokedBy: Id, x: Inactive)
    requires x in RevokeUsedUp(rows, link, revokedBy)
    ensures exists y :: y in rows && y.row == x.row && (x.reason.Used? ==> x == y)
  {
    RevokeUsedUpRows(rows, link, revokedBy);
    var i :| 0 <= i < |rows| && RevokeUsedUp(rows, link, revokedBy)[i] == x;
    assert rows[i] in rows;
  }

  lemma RevokeUsedUpSound(active: seq<Approval>, rows: seq<Inactive>, link: Link, revokedBy: Id)
    requires KeyedApprovals(active, rows)
    ensures KeyedApprovals(active, RevokeUsedUp(rows, link, revokedBy))
    ensures SoundRows(active, rows) ==> SoundRows(active, RevokeUsedUp(rows, link, revokedBy))
  {
    RevokeUsedUpRows(rows, link, revokedBy);
    forall x | x in RevokeUsedUp(rows, link, revokedBy)
      ensures x.reason.Used? ==> x.row.used == x.row.approved
      ensures SoundRows(active, rows) ==> SoundRow(x.row)
      ensures forall r :: r in active ==> r.id != x.row.id
    {
      RevokeUsedUpIn(rows, link, revokedBy, x);
    }
  }

  lemma RevokeMoveSound(active: seq<Approval>, inactive: seq<Inactive>, link: Link, revokedBy: Id)
    requires KeyedApprovals(active, inactive)
    ensures var moved := AsInactive(Pick(active, link), Revoked, Some(revokedBy));
            && KeyedApprovals(Without(active, link), inactive + moved)
            && (SoundRows(active, inactive) ==> SoundRows(Without(active, link), inactive + moved))
  {
    var rows := Pick(active, link);
    var moved := AsInactive(rows, Revoked, Some(revokedBy));
    WithoutUnique(active, link);
    PickUnique(active, link);
    AsInactiveUnique(rows, Revoked, Some(revokedBy));
    forall r | r in Without(active, link) ensures r in active && !Matches(link, r) { WithoutIn(active, link, r); }
    forall x | x in moved ensures x.row in active && Matches(link, x.row) && x.reason == Revoked {
      AsInactiveIn(rows, Revoked, Some(revokedBy), x);
      PickIn(active, link, x.row);
    }
    assert forall r, q :: r in active && q in active && r.id == q.id ==> r == q;
  }

  lemma RevokePayers(b: Book, link: Link, revokedBy: Id)
    requires Keyed(b)
    ensures forall r :: r in Without(b.active, link) ==> r.payer in b.users
    ensures forall x :: x in RevokeUsedUp(b.inactive + AsInactive(Pick(b.active, link), Revoked, Some(revokedBy)), link, revokedBy)
              ==> x.row.payer in b.users
  {
    var moved := AsInactive(Pick(b.active, link), Revoked, Some(revokedBy));
    forall r | r in Without(b.active, link) ensures r.payer in b.users { WithoutIn(b.active, link, r); }
    forall x | x in RevokeUsedUp(b.inactive + moved, link, revokedBy) ensures x.row.payer in b.users {
      RevokeUsedUpIn(b.inactive + moved, link, revokedBy, x);
      var y :| y in b.inactive + moved && y.row == x.row;
      AsInactiveIn(Pick(b.active, link), Revoked, Some(revokedBy), y);
      PickIn(b.active, link, y.row);
    }
  }

  /** A revoke keeps the tables sound and the log balanced; it fails only when there is nothing to revoke. */
  lemma RevokeSound(b: Book, payer: Addr, spender: Addr, revokedBy: Id)
    requires Keyed(b)
    ensures var r := Revoke(b, payer, spender, revokedBy);
            && (r.Err? ==> r.error == NoApprovalsFound(payer, spender) && Pick(b.active, Between(payer, spender)) == [])
            && (r.Ok? ==> Keyed(r.value) && r.value.users.Keys == b.users.Keys)
            && (r.Ok? ==> (WellFormed(b) ==> WellFormed(r.value)) && (Balanced(b) ==> Balanced(r.value)))
  {
    var link := Between(payer, spender);
    var rows := Pick(b.active, link);
    if rows != [] { PickIn(b.active, link, rows[0]); }
    var moved := b.inactive + AsInactive(rows, Revoked, Some(revokedBy));
    RevokeMoveSound(b.active, b.inactive, link, revokedBy);
    RevokeUsedUpSound(Without(b.active, link), moved, link, revokedBy);
    RevokePayers(b, link, revokedBy);
    if Balanced(b) {
      PostBalances(b.(active := Without(b.active, link), inactive := moved), payer, SumLeft(rows), DelegatedPaymentRevoke, Some(revokedBy));
    }
  }

  /** A revoke pays back exactly what the revoked approvals still held, and leaves none active. */
  lemma RevokeNeutral(b: Book, payer: Addr, spender: Addr, revokedBy: Id)
    requires Keyed(b) && Revoke(b, payer, spender, revokedBy).Ok?
    ensures var e := Revoke(b, payer, spender, revokedBy).value;
            && (forall u :: Controlled(e, u) == Controlled(b, u))
            && (forall u :: Balance(e, u) == Balance(b, u) + (if u == payer then Lent(b, Between(payer, spender)) else 0))
            && (forall q :: q in e.active ==> !Matches(Between(payer, spender), q))
  {
    var link := Between(payer, spender);
    var e := Revoke(b, payer, spender, revokedBy).value;
    forall q | q in e.active ensures !Matches(link, q) { WithoutIn(b.active, link, q); }
    forall u ensures Controlled(e, u) == Controlled(b, u) { WithoutLent(b.active, link, u); }
  }

  lemma {:induction false} RevokeUsedUpMember(rows: seq<Inactive>, link: Link, revokedBy: Id, x: Inactive)
    ensures x in RevokeUsedUp(rows, link, revokedBy) <==>
            (x in rows && !(Matches(link, x.row) && x.reason.Used?)) || x in UsedUpRevoked(rows, link, revokedBy)
  {
    if rows != [] {
      RevokeUsedUpMember(rows[1..], link, revokedBy, x);
      assert x in rows <==> x == rows[0] || x in rows[1..];
    }
  }

  /**
   Row by row: the two users' approvals leave the active table, those returned take their place and that of the
   used-up ones; no other row moves.
   */
  lemma RevokeExactly(b: Book, payer: Addr, spender: Addr, revokedBy: Id)
    requires Keyed(b) && Revoke(b, payer, spender, revokedBy).Ok?
    ensures var e := Revoke(b, payer, spender, revokedBy).value;
            && (forall r :: r in e.active <==> r in b.active && !(r.payer == payer && r.spender == spender))
            && (forall x :: x in e.inactive <==>
                  || (x in b.inactive && !(x.row.payer == payer && x.row.spender == spender && x.reason == Used))
                  || x in Returned(b, payer, spender, revokedBy))
  {
    var link := Between(payer, spender);
    var moved := AsInactive(Pick(b.active, link), Revoked, Some(revokedBy));
    forall r ensures r in Without(b.active, link) <==> r in b.active && !Matches(link, r) { WithoutIn(b.active, link, r); }
    UsedUpRevokedAppend(b.inactive, moved, link, revokedBy);
    RevokedNotSelected(Pick(b.active, link), link, revokedBy);
    forall x ensures x in RevokeUsedUp(b.inactive + moved, link, revokedBy) <==>
        || (x in b.inactive && !(x.row.payer == payer && x.row.spender == spender && x.reason == Used))
        || x in Returned(b, payer, spender, revokedBy)
    {
      RevokeUsedUpMember(b.inactive + moved, link, revokedBy, x);
      AsInactiveIn(Pick(b.active, link), Revoked, Some(revokedBy), x);
    }
  }

  // ---------- Expiring ----------

  lemma {:induction false} MoveExpiredSound(b: Book, rows: seq<Approval>, now: int)
    requires Keyed(b) && (forall r :: r in rows ==> r in b.active) && UniqueIds(rows)
    ensures var e := MoveExpired(b, rows, now);
            && Keyed(e) && (WellFormed(b) ==> WellFormed(e)) && e.users == b.users && e.audit == b.audit
            && (forall r :: r in e.active ==> r in b.active)
    decreases |rows|
  {
    if rows != [] {
      var r := rows[0];
      if Live(r, now) {
        MoveExpiredSound(b, rows[1..], now);
      } else {
        MoveOne(b, r);
        MoveExpiredSound(b.(active := Replace(b.active, r.id, None), inactive := b.inactive + [Inactive(r, Expired, None)]),
          rows[1..], now);
      }
    }
  }

  /** Moving one active row aside. */
  lemma MoveOne(b: Book, r: Approval)
    requires Keyed(b) && r in b.active
    ensures var e := b.(active := Replace(b.active, r.id, None), inactive := b.inactive + [Inactive(r, Expired, None)]);
            && e.active != b.active && Keyed(e) && (WellFormed(b) ==> WellFormed(e))
            && (forall q :: q in e.active <==> q in b.active && q.id != r.id)
  {
    var deleted := Replace(b.active, r.id, None);
    ReplaceUnique(b.active, r.id, None);
    forall q ensures q in deleted <==> q in b.active && q.id != r.id { ReplaceIn(b.active, r.id, None, q); }
    assert r !in deleted;
  }

  /** The rows moved aside take their remainder out of the lent totals. */
  lemma {:induction false} MoveExpiredLent(b: Book, rows: seq<Approval>, now: int, link: Link)
    requires Keyed(b) && (forall r :: r in rows ==> r in b.active) && UniqueIds(rows)
    ensures Lent(MoveExpired(b, rows, now), link) == Lent(b, link) - SumLeft(Pick(ExpiredRows(rows, now), link))
    decreases |rows|
  {
    if rows != [] {
      var r := rows[0];
      if Live(r, now) {
        MoveExpiredLent(b, rows[1..], now, link);
      } else {
        MoveOne(b, r);
        ReplaceTotals(b.active, r, None, link);
        MoveExpiredLent(b.(active := Replace(b.active, r.id, None), inactive := b.inactive + [Inactive(r, Expired, None)]),
          rows[1..], now, link);
        PickOne(r, link);
        PickTotals([r], ExpiredRows(rows[1..], now), link);
      }
    }
  }

  lemma {:induction false} PayersOfIn(rows: seq<Approval>, u: Addr)
    ensures u in PayersOf(rows) <==> exists r :: r in rows && r.payer == u
  {
    if rows != [] { PayersOfIn(rows[1..], u); }
  }

  lemma {:induction false} ExpiredIn(rows: seq<Approval>, now: int, r: Approval)
    ensures r in ExpiredRows(rows, now) <==> r in rows && !Live(r, now)
    ensures r in LiveRows(rows, now) <==> r in rows && Live(r, now)
  {
    if rows != [] { ExpiredIn(rows[1..], now, r); }
  }

  lemma {:induction false} NothingGiven(rows: seq<Approval>, u: Addr)
    requires forall r :: r in rows ==> r.payer != u
    ensures Pick(rows, Given(u)) == []
  {
    if rows != [] { NothingGiven(rows[1..], u); }
  }

  /** Every payer is credited once. */
  lemma {:induction false} CreditExpiredBalances(b: Book, payers: seq<Addr>, expired: seq<Approval>)
    requires Distinct(payers) && (forall p :: p in payers ==> p in b.users)
    ensures var r := CreditExpired(b, payers, expired);
            && r.Ok? && r.value.active == b.active && r.value.inactive == b.inactive && r.value.users.Keys == b.users.Keys
            && (forall u :: Balance(r.value, u) == Balance(b, u) + (if u in payers then SumLeft(Pick(expired, Given(u))) else 0))
            && (Balanced(b) ==> Balanced(r.value))
    decreases |payers|
  {
    if payers != [] {
      var due := SumLeft(Pick(expired, Given(payers[0])));
      if Balanced(b) { PostBalances(b, payers[0], due, DelegatedPaymentExpired, None); }
      CreditExpiredBalances(Post(b, payers[0], due, DelegatedPaymentExpired, None), payers[1..], expired);
    }
  }

  /**
   Trimming never fails, keeps the tables sound and the log balanced, and pays every payer exactly what its
   expired approvals still held: controlled balances do not change.
   */
  lemma TrimNeutral(b: Book, rows: seq<Approval>, now: int)
    requires Keyed(b) && (forall r :: r in rows ==> r in b.active) && UniqueIds(rows)
    ensures var r := Trim(b, rows, now);
            && r.Ok? && Keyed(r.value) && (WellFormed(b) ==> WellFormed(r.value)) && (Balanced(b) ==> Balanced(r.value)) &&
              r.value.users.Keys == b.users.Keys
            && (forall u :: Controlled(r.value, u) == Controlled(b, u))
            && (forall u :: Balance(r.value, u) == Balance(b, u) + SumLeft(Pick(ExpiredRows(rows, now), Given(u))))
  {
    var expired := ExpiredRows(rows, now);
    var moved := MoveExpired(b, rows, now);
    var payers := Dedupe(PayersOf(expired));
    MoveExpiredSound(b, rows, now);
    DedupeDistinct(PayersOf(expired));
    assert forall p :: p in payers <==> p in Payers(payers);
    assert forall p :: p in PayersOf(expired) <==> p in Payers(PayersOf(expired));
    forall p ensures p in payers <==> exists r :: r in expired && r.payer == p { PayersOfIn(expired, p); }
    forall r | r in expired ensures r.payer in moved.users { ExpiredIn(rows, now, r); }
    CreditExpiredBalances(moved, payers, expired);
    forall u ensures Controlled(Trim(b, rows, now).value, u) == Controlled(b, u)
             ensures u !in payers ==> Pick(expired, Given(u)) == []
    {
      MoveExpiredLent(b, rows, now, Given(u));
      if u !in payers { NothingGiven(expired, u); }
    }
  }

  lemma {:induction false} NothingExpired(b: Book, rows: seq<Approval>, now: int)
    requires forall r :: r in rows ==> Live(r, now)
    ensures LiveRows(rows, now) == rows && ExpiredRows(rows, now) == [] && MoveExpired(b, rows, now) == b
  {
    if rows != [] {
      assert Live(rows[0], now);
      NothingExpired(b, rows[1..], now);
    }
  }

  /** Nothing expired, nothing changes. */
  lemma TrimNothing(b: Book, rows: seq<Approval>, now: int)
    requires forall r :: r in rows ==> Live(r, now)
    ensures Trim(b, rows, now) == Ok(b)
  {
    NothingExpired(b, rows, now);
    assert Dedupe(PayersOf([])) == [];
  }

  // ---------- Reporting a balance ----------

  /** The approvals a user gave or received. */
  function Touching(rows: seq<Approval>, u: Addr): seq<Approval> {
    if rows == [] then []
    else if rows[0].payer == u || rows[0].spender == u then [rows[0]] + Touching(rows[1..], u)
    else Touching(rows[1..], u)
  }

  function Received(rows: seq<Approval>, u: Addr): seq<Approval> {
    if rows == [] then []
    else if rows[0].spender == u then [rows[0]] + Received(rows[1..], u)
    else Received(rows[1..], u)
  }

  lemma {:induction false} TouchingRows(rows: seq<Approval>, u: Addr)
    requires UniqueIds(rows)
    ensures UniqueIds(Touching(rows, u))
    ensures forall r :: r in Touching(rows, u) ==> r in rows
    ensures Pick(Touching(rows, u), Given(u)) == Pick(rows, Given(u))
  {
    if rows != [] {
      TouchingRows(rows[1..], u);
      assert forall r :: r in Touching(rows[1..], u) ==> r.id != rows[0].id;
      assert ([rows[0]] + Touching(rows[1..], u))[1..] == Touching(rows[1..], u);
    }
  }

  lemma {:induction false} LiveAndExpired(rows: seq<Approval>, now: int, link: Link)
    ensures SumLeft(Pick(rows, link)) == SumLeft(Pick(LiveRows(rows, now), link)) + SumLeft(Pick(ExpiredRows(rows, now), link))
  {
    if rows != [] {
      LiveAndExpired(rows[1..], now, link);
      assert rows == [rows[0]] + rows[1..];
      PickTotals([rows[0]], rows[1..], link);
      PickTotals([rows[0]], LiveRows(rows[1..], now), link);
      PickTotals([rows[0]], ExpiredRows(rows[1..], now), link);
    }
  }

  /**
   Reading a user's balance first expires what is due. The controlled balance it reports is the user's
   controlled balance, before and after.
   */
  lemma ReportedControlled(b: Book, u: Addr, now: int)
    requires Keyed(b)
    ensures var rows := Touching(b.active, u);
            var t := Trim(b, rows, now);
            && t.Ok? && Keyed(t.value) && (WellFormed(b) ==> WellFormed(t.value)) && t.value.users.Keys == b.users.Keys
            && Balance(t.value, u) + SumLeft(Pick(LiveRows(rows, now), Given(u))) == Controlled(t.value, u) == Controlled(b, u)
  {
    var rows := Touching(b.active, u);
    TouchingRows(b.active, u);
    TrimNeutral(b, rows, now);
    LiveAndExpired(rows, now, Given(u));
  }
}
