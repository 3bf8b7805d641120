/**
 Which approvals expire, in terms of their own dates: what an expiry moves aside, what a balance report then lists, to
 which rows a refund gives back, and how long a loan lasts.
 */
module Expiry {
  import opened Wrappers
  import opened Ledger
  import opened Approvals
  import opened Allocation
  import opened Spending
  import opened Lending
  import opened Refunds
  import opened RoundTrip
  import opened RefundExact

  /** An expiry takes out of the active table those of the given rows that have a date which is not in the future. */
  lemma {:induction false} MovedExactly(b: Book, rows: seq<Approval>, now: int)
    requires Keyed(b) && (forall r :: r in rows ==> r in b.active) && UniqueIds(rows)
    ensures var e := MoveExpired(b, rows, now);
            && (forall r :: r in e.active <==> r in b.active && (r in rows ==> r.expires == None || now < r.expires.value))
            && (forall x :: x in e.inactive <==>
                  || x in b.inactive
                  || (x.row in rows && x.row.expires.Some? && x.row.expires.value <= now && x == Inactive(x.row, Expired, None)))
    decreases |rows|
  {
    if rows != [] {
      var r := rows[0];
      if r.expires.Some? && r.expires.value <= now {
        MoveOne(b, r);
        MovedExactly(Moved(b, r), rows[1..], now);
        assert forall q :: q in b.active && q.id == r.id ==> q == r;
      } else {
        MovedExactly(b, rows[1..], now);
      }
    }
  }

  lemma TrimExactly(b: Book, rows: seq<Approval>, now: int)
    requires Keyed(b) && (forall r :: r in rows ==> r in b.active) && UniqueIds(rows)
    ensures var t := Trim(b, rows, now);
            && t.Ok?
            && (forall r :: r in t.value.active <==> r in b.active && (r in rows ==> r.expires == None || now < r.expires.value))
            && (forall x :: x in t.value.inactive <==>
                  || x in b.inactive
                  || (x.row in rows && x.row.expires.Some? && x.row.expires.value <= now && x == Inactive(x.row, Expired, None)))
  {
    TrimNeutral(b, rows, now);
    TrimTables(b, rows, now);
    MovedExactly(b, rows, now);
  }

  // ---------- A balance report ----------

  lemma {:induction false} ReceivedIn(rows: seq<Approval>, u: Addr, r: Approval)
    ensures r in Received(rows, u) <==> r in rows && r.spender == u
    ensures r in Touching(rows, u) <==> r in rows && (r.payer == u || r.spender == u)
  {
    if rows != [] { ReceivedIn(rows[1..], u, r); }
  }

  lemma {:induction false} LiveUnique(rows: seq<Approval>, now: int, u: Addr)
    requires UniqueIds(rows)
    ensures UniqueIds(LiveRows(rows, now)) && UniqueIds(Received(rows, u))
  {
    if rows != [] {
      LiveUnique(rows[1..], now, u);
      forall r | r in LiveRows(rows[1..], now) ensures r.id != rows[0].id { ExpiredIn(rows[1..], now, r); }
      forall r | r in Received(rows[1..], u) ensures r.id != rows[0].id { ReceivedIn(rows[1..], u, r); }
    }
  }

  /** A report lists each approval once that the user gave, or received, and that has not expired. */
  lemma ReportedExactly(b: Book, u: Addr, now: int)
    requires Keyed(b)
    ensures var live := LiveRows(Touching(b.active, u), now);
            && UniqueIds(Pick(live, Given(u))) && UniqueIds(Received(live, u))
            && (forall r :: r in Pick(live, Given(u)) <==>
                  r in b.active && r.payer == u && (r.expires == None || now < r.expires.value))
            && (forall r :: r in Received(live, u) <==>
                  r in b.active && r.spender == u && (r.expires == None || now < r.expires.value))
  {
    var rows := Touching(b.active, u);
    var live := LiveRows(rows, now);
    TouchingRows(b.active, u);
    LiveUnique(rows, now, u);
    LiveUnique(live, now, u);
    PickUnique(live, Given(u));
    forall r ensures r in live <==> r in b.active && (r.payer == u || r.spender == u) && (r.expires == None || now < r.expires.value) {
      ReceivedIn(b.active, u, r);
      ExpiredIn(rows, now, r);
    }
    forall r ensures r in Pick(live, Given(u)) <==> r in live && r.payer == u { PickIn(live, Given(u), r); }
    forall r ensures r in Received(live, u) <==> r in live && r.spender == u { ReceivedIn(live, u, r); }
  }

  // ---------- A refund ----------

  /** The rows a refund of a payer's share gives back to: its unexpired active ones, and all that were moved aside. */
  lemma RefundRowsExactly(b: Book, payer: Addr, spender: Addr, now: int)
    requires Keyed(b)
    ensures forall r :: r in LiveOf(b, Between(payer, spender), now) <==>
              r in b.active && r.payer == payer && r.spender == spender && (r.expires == None || now < r.expires.value)
    ensures forall x :: x in GoneOf(b, Between(payer, spender), now) <==>
              && x.row.payer == payer && x.row.spender == spender
              && (x in b.inactive
                  || (x.row in b.active && x.row.expires.Some? && x.row.expires.value <= now && x == Inactive(x.row, Expired, None)))
  {
    var link := Between(payer, spender);
    var rows := Pick(b.active, link);
    forall r ensures r in rows <==> r in b.active && r.payer == payer && r.spender == spender { PickIn(b.active, link, r); }
    forall r ensures r in LiveRows(rows, now) <==> r in rows && (r.expires == None || now < r.expires.value) { ExpiredIn(rows, now, r); }
    forall x ensures x in AsInactive(ExpiredRows(rows, now), Expired, None) <==>
        x.row in rows && x.row.expires.Some? && x.row.expires.value <= now && x == Inactive(x.row, Expired, None)
    {
      AsInactiveIn(ExpiredRows(rows, now), Expired, None, x);
      ExpiredIn(rows, now, x.row);
    }
    forall x ensures x in PickInactive(b.inactive, link) <==> x in b.inactive && x.row.payer == payer && x.row.spender == spender {
      PickInactiveIn(b.inactive, link, x);
    }
  }

  // ---------- A loan ----------

  /** When a loan is accepted, and that it is lent on its own terms. */
  lemma LoanTerms(b: Book, id: Id, payer: Addr, spender: Addr, amount: int, expires: Option<int>)
    ensures var r := CreateApproval(b, id, payer, spender, amount, expires);
            && (r.Ok? <==>
                  && (forall q :: q in b.active ==> q.id != id) && (forall x :: x in b.inactive ==> x.row.id != id)
                  && payer in b.users && b.users[payer] >= amount)
            && (r.Ok? ==>
                  && r.value.inactive == b.inactive
                  && (forall q :: q in r.value.active <==> q in b.active || q == Approval(id, payer, spender, amount, 0, expires)))
  {
  }

  /**
   How long a loan lasts: it is active until its date comes, however often expiry runs before; the first expiry from
   its date on moves it aside, unused, and pays it back.
   */
  lemma LoanLasts(b: Book, id: Id, payer: Addr, spender: Addr, amount: int, expires: Option<int>, now: int)
    requires Keyed(b) && CreateApproval(b, id, payer, spender, amount, expires).Ok?
    ensures var e := CreateApproval(b, id, payer, spender, amount, expires).value;
            var row := Approval(id, payer, spender, amount, 0, expires);
            var t := Trim(e, Pick(e.active, Between(payer, spender)), now);
            && t.Ok?
            && (row in t.value.active <==> expires == None || now < expires.value)
            && (Inactive(row, Expired, None) in t.value.inactive <==> expires.Some? && expires.value <= now)
            && Controlled(t.value, payer) == Controlled(b, payer)
  {
    var e := CreateApproval(b, id, payer, spender, amount, expires).value;
    var link := Between(payer, spender);
    var row := Approval(id, payer, spender, amount, 0, expires);
    CreateApprovalNeutral(b, id, payer, spender, amount, expires);
    LoanTerms(b, id, payer, spender, amount, expires);
    PickedRows(e, link);
    PickIn(e.active, link, row);
    TrimExactly(e, Pick(e.active, link), now);
    TrimNeutral(e, Pick(e.active, link), now);
  }
}
