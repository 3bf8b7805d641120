/** Balance reservations: one active reservation per data item, charged once, refunded once. */
module Reservations {
  import opened Wrappers
  import opened Ledger
  import opened Allocation
  import opened Spending
  import opened Refunds
  import opened RoundTrip

  datatype Reservation = Reservation(
    id: Id, item: Id, signer: Addr, winc: nat, overflow: Option<seq<Share>>, refunded: bool, reserved: int)

  datatype Desk = Desk(rows: seq<Reservation>, book: Book)

  predicate ActiveFor(r: Reservation, item: Id) { r.item == item && !r.refunded }

  function Active(rows: seq<Reservation>, item: Id): seq<Reservation> {
    if rows == [] then []
    else if ActiveFor(rows[0], item) then [rows[0]] + Active(rows[1..], item)
    else Active(rows[1..], item)
  }

  predicate HasRow(rows: seq<Reservation>, id: Id) { exists r :: r in rows && r.id == id }

  /** A row with the latest reservation date. */
  function Newest(rows: seq<Reservation>): Reservation
    requires rows != []
  {
    if |rows| == 1 then rows[0]
    else
      var later := Newest(rows[1..]);
      if later.reserved > rows[0].reserved then later else rows[0]
  }

  /** Flags the reservation with this id as refunded. */
  function MarkRefunded(rows: seq<Reservation>, id: Id): seq<Reservation> {
    if rows == [] then []
    else [if rows[0].id == id then rows[0].(refunded := true) else rows[0]] + MarkRefunded(rows[1..], id)
  }

  function Reserve(d: Desk, id: Id, signer: Addr, winc: nat, item: Id, paidBy: seq<Addr>, directive: Directive, now: int)
      : Result<Desk, Error>
  {
    if Active(d.rows, item) != [] then Ok(d)
    else
      var spent := Spend(d.book, signer, winc, paidBy, directive, Upload, item);
      if spent.Err? then Err(spent.error)
      else if HasRow(d.rows, id) then Err(AlreadyExists(id))
      else Ok(Desk(d.rows + [Reservation(id, item, signer, winc, spent.value.overflow, false, now)], spent.value.book))
  }

  /** The amount is the caller's; only `overflow_spend` is taken from the reservation. */
  function RefundItem(d: Desk, signer: Addr, amount: int, item: Id, now: int): Result<Desk, Error> {
    var found := Active(d.rows, item);
    var overflow := if found == [] then None else Newest(found).overflow;
    var r := Refund(d.book, amount, overflow, Refunding(signer, RefundedUpload, item, now));
    if r.Err? then Err(r.error)
    else Ok(Desk(if found == [] then d.rows else MarkRefunded(d.rows, Newest(found).id), r.value))
  }

  // ---------- At most one active reservation ----------

  ghost predicate Exclusive(d: Desk) {
    && (forall item :: |Active(d.rows, item)| <= 1)
    && (forall i, j :: 0 <= i < j < |d.rows| ==> d.rows[i].id != d.rows[j].id)
  }

  lemma {:induction false} ActiveAppend(rows: seq<Reservation>, r: Reservation, item: Id)
    ensures Active(rows + [r], item) == Active(rows, item) + (if ActiveFor(r, item) then [r] else [])
  {
    if rows == [] {
      assert rows + [r] == [r];
    } else {
      ActiveAppend(rows[1..], r, item);
      assert (rows + [r])[1..] == rows[1..] + [r];
    }
  }

  lemma {:induction false} ActiveIn(rows: seq<Reservation>, item: Id, r: Reservation)
    ensures r in Active(rows, item) <==> r in rows && ActiveFor(r, item)
  {
    if rows != [] { ActiveIn(rows[1..], item, r); }
  }

  lemma {:induction false} MarkKeepsOthers(rows: seq<Reservation>, id: Id, item: Id)
    ensures |Active(MarkRefunded(rows, id), item)| <= |Active(rows, item)|
    ensures (forall r :: r in rows && ActiveFor(r, item) ==> r.id != id) ==> Active(MarkRefunded(rows, id), item) == Active(rows, item)
    ensures (forall r :: r in rows && ActiveFor(r, item) ==> r.id == id) ==> Active(MarkRefunded(rows, id), item) == []
    ensures |MarkRefunded(rows, id)| == |rows|
    ensures forall i :: 0 <= i < |rows| ==> MarkRefunded(rows, id)[i].id == rows[i].id
  {
    if rows != [] { MarkKeepsOthers(rows[1..], id, item); }
  }

  lemma {:induction false} NewestIn(rows: seq<Reservation>)
    requires rows != []
    ensures Newest(rows) in rows
    ensures forall r :: r in rows ==> r.reserved <= Newest(rows).reserved
  {
    if |rows| > 1 { NewestIn(rows[1..]); }
  }

  /** Reserving keeps one active reservation per item; the primary key refuses a repeated reservation id. */
  lemma ReserveExclusive(d: Desk, id: Id, signer: Addr, winc: nat, item: Id, paidBy: seq<Addr>, directive: Directive, now: int)
    requires Exclusive(d)
    requires Reserve(d, id, signer, winc, item, paidBy, directive, now).Ok?
    ensures var e := Reserve(d, id, signer, winc, item, paidBy, directive, now).value;
            Exclusive(e) && |Active(e.rows, item)| == 1
  {
    var e := Reserve(d, id, signer, winc, item, paidBy, directive, now).value;
    if e != d {
      forall other ensures |Active(e.rows, other)| <= 1 { ActiveAppend(d.rows, e.rows[|d.rows|], other); }
      ActiveAppend(d.rows, e.rows[|d.rows|], item);
    }
  }

  lemma RefundExclusive(d: Desk, signer: Addr, amount: int, item: Id, now: int)
    requires Exclusive(d) && RefundItem(d, signer, amount, item, now).Ok?
    ensures var e := RefundItem(d, signer, amount, item, now).value;
            Exclusive(e) && Active(e.rows, item) == []
  {
    var found := Active(d.rows, item);
    if found != [] {
      var r := Newest(found);
      forall other ensures |Active(MarkRefunded(d.rows, r.id), other)| <= 1 { MarkKeepsOthers(d.rows, r.id, other); }
      NewestIn(found);
      ActiveIn(d.rows, item, r);
      forall q | q in d.rows && ActiveFor(q, item) ensures q.id == r.id { ActiveIn(d.rows, item, q); }
      MarkKeepsOthers(d.rows, r.id, item);
    }
  }

  /** A repeated reserve charges nothing and changes nothing. */
  lemma ReserveTwice(d: Desk, id: Id, signer: Addr, winc: nat, item: Id, paidBy: seq<Addr>, directive: Directive, now: int,
                     id2: Id, signer2: Addr, winc2: nat, paidBy2: seq<Addr>, directive2: Directive, now2: int)
    requires Reserve(d, id, signer, winc, item, paidBy, directive, now).Ok?
    ensures var e := Reserve(d, id, signer, winc, item, paidBy, directive, now).value;
            Reserve(e, id2, signer2, winc2, item, paidBy2, directive2, now2) == Ok(e)
  {
    var e := Reserve(d, id, signer, winc, item, paidBy, directive, now).value;
    if e != d { ActiveAppend(d.rows, e.rows[|d.rows|], item); }
  }

  /**
   Reserve, then refund the same amount: every balance and every lent total is as before, and the item is free
   again, under the conditions of SpendThenRefundRestores.
   */
  lemma ReserveThenRefund(d: Desk, id: Id, signer: Addr, winc: nat, item: Id, paidBy: seq<Addr>, directive: Directive, now: int, later: int)
    requires Exclusive(d) && WellFormed(d.book)
    requires winc >= 1 && Active(d.rows, item) == [] && Reserve(d, id, signer, winc, item, paidBy, directive, now).Ok?
    requires Undisturbed(d.book, Reserve(d, id, signer, winc, item, paidBy, directive, now).value.book, signer,
                         PlanSpend(d.book, signer, winc, Dedupe(paidBy), directive).value, later)
    requires forall p :: p in paidBy && p != signer ==> OnlyFirstUsed(Pick(d.book.active, Between(p, signer)))
    ensures var r := RefundItem(Reserve(d, id, signer, winc, item, paidBy, directive, now).value, signer, winc, item, later);
            && r.Ok?
            && (forall u :: Balance(r.value.book, u) == Balance(d.book, u))
            && LentRestored(d.book, r.value.book)
            && Active(r.value.rows, item) == []
  {
    var e := Reserve(d, id, signer, winc, item, paidBy, directive, now).value;
    ReserveExclusive(d, id, signer, winc, item, paidBy, directive, now);
    ActiveAppend(d.rows, e.rows[|d.rows|], item);
    SpendThenRefundRestores(d.book, signer, winc, paidBy, directive, Upload, item, Refunding(signer, RefundedUpload, item, later));
    RefundExclusive(e, signer, winc, item, later);
  }

  // ---------- Which rows, exactly ----------

  /**
   A reserve of a free item goes through if and only if the charge does and the reservation's id is new; it adds one
   active row with the order's own terms and the charge's record, and charges the book, and nothing else.
   */
  lemma ReserveExactly(d: Desk, id: Id, signer: Addr, winc: nat, item: Id, paidBy: seq<Addr>, directive: Directive, now: int)
    ensures var r := Reserve(d, id, signer, winc, item, paidBy, directive, now);
            var spent := Spend(d.book, signer, winc, paidBy, directive, Upload, item);
            if exists q :: q in d.rows && q.item == item && !q.refunded then r == Ok(d)
            else
              && (r.Ok? <==> spent.Ok? && forall q :: q in d.rows ==> q.id != id)
              && (r.Ok? ==>
                    && r.value.book == spent.value.book
                    && r.value.rows == d.rows + [Reservation(id, item, signer, winc, spent.value.overflow, false, now)])
  {
    forall q ensures q in Active(d.rows, item) <==> q in d.rows && q.item == item && !q.refunded { ActiveIn(d.rows, item, q); }
    if Active(d.rows, item) != [] { assert Active(d.rows, item)[0] in Active(d.rows, item); }
  }

  lemma {:induction false} MarkedAt(rows: seq<Reservation>, id: Id, i: nat)
    requires i < |rows|
    ensures |MarkRefunded(rows, id)| == |rows|
    ensures MarkRefunded(rows, id)[i] == if rows[i].id == id then rows[i].(refunded := true) else rows[i]
  {
    if i > 0 { MarkedAt(rows[1..], id, i - 1); } else if |rows| > 1 { MarkedAt(rows[1..], id, 0); }
  }

  /** A refund flags the item's active row, takes the recorded shares from it, and leaves every other row as it is. */
  lemma RefundExactly(d: Desk, r: Reservation, signer: Addr, amount: int, now: int)
    requires Exclusive(d) && r in d.rows && !r.refunded
    ensures var o := RefundItem(d, signer, amount, r.item, now);
            var refunded := Refund(d.book, amount, r.overflow, Refunding(signer, RefundedUpload, r.item, now));
            && (o.Ok? <==> refunded.Ok?)
            && (o.Ok? ==>
                  && o.value.book == refunded.value && |o.value.rows| == |d.rows|
                  && (forall i :: 0 <= i < |d.rows| ==>
                        o.value.rows[i] == if d.rows[i] == r then r.(refunded := true) else d.rows[i]))
  {
    ActiveIn(d.rows, r.item, r);
    var found := Active(d.rows, r.item);
    assert found[0] == r;
    MarkedAt(d.rows, r.id, 0);
    forall i | 0 <= i < |d.rows| ensures MarkRefunded(d.rows, r.id)[i] == if d.rows[i] == r then r.(refunded := true) else d.rows[i] {
      MarkedAt(d.rows, r.id, i);
    }
  }

  /** Without an active row the given amount goes to the signer, and the rows stay. */
  lemma RefundUnreserved(d: Desk, signer: Addr, amount: int, item: Id, now: int)
    requires forall q :: q in d.rows && q.item == item ==> q.refunded
    ensures var o := RefundItem(d, signer, amount, item, now);
            && (o.Ok? <==> signer in d.book.users)
            && (o.Ok? ==>
                  && o.value.rows == d.rows
                  && (forall u :: Balance(o.value.book, u) == Balance(d.book, u) + (if u == signer then amount else 0)))
  {
    if Active(d.rows, item) != [] { ActiveIn(d.rows, item, Active(d.rows, item)[0]); }
    var f := Refunding(signer, RefundedUpload, item, now);
    var share := Share(signer, amount);
    assert [share][1..] == [] && [share][0] == share;
    assert RefundShares(d.book, [share], f) == RefundShare(d.book, share, f);
  }
}
