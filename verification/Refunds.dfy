/**
 Refunding a charge from its recorded `overflow_spend`: the signer's part goes back to its balance, a payer's
 part goes back to the approvals it was drawn from, active ones first, then those that were moved aside.
 */
module Refunds {
  import opened Wrappers
  import opened Ledger
  import opened Approvals
  import opened Allocation
  import opened Spending
  import opened Lending

  // ---------- The operation ----------

  datatype Giving = Giving(active: seq<Approval>, rest: int)

  /** One pass over an active approval. Note the comparison with the whole part `w`, not with what is left of it. */
  function GiveOne(g: Giving, r: Approval, w: int): Giving {
    if r.used >= w then Giving(Replace(g.active, r.id, Some(r.(used := r.used - w))), 0)
    else Giving(Replace(g.active, r.id, Some(r.(used := 0))), g.rest - r.used)
  }

  function GiveActive(g: Giving, rows: seq<Approval>, w: int): Giving
    decreases |rows|
  {
    if rows == [] || g.rest < 1 then g else GiveActive(GiveOne(g, rows[0], w), rows[1..], w)
  }

  datatype Restoring = Restoring(book: Book, rest: int)

  /** One pass over an inactive approval: an expired or revoked one pays its whole used amount to the payer. */
  function RestoreOne(s: Restoring, x: Inactive, change: Id): Result<Restoring, Error> {
    if x.reason.Used? then
      var reactivated := x.row.(used := if x.row.used >= s.rest then x.row.used - s.rest else 0);
      Ok(Restoring(s.book.(inactive := RemoveInactive(s.book.inactive, x.row.id), active := s.book.active + [reactivated]),
                   s.rest - x.row.used))
    else if x.row.payer !in s.book.users then Err(UserNotFound(x.row.payer))
    else
      Ok(Restoring(Post(s.book, x.row.payer, x.row.used,
                        if x.reason.Expired? then DelegatedPaymentExpired else DelegatedPaymentRevoke, Some(change)), s.rest))
  }

  function RestoreInactive(s: Restoring, rows: seq<Inactive>, change: Id): Result<Restoring, Error>
    decreases |rows|
  {
    if rows == [] || s.rest < 1 then Ok(s)
    else
      var r := RestoreOne(s, rows[0], change);
      if r.Err? then r else RestoreInactive(r.value, rows[1..], change)
  }

  datatype Refunding = Refunding(signer: Addr, reason: AuditReason, change: Id, now: int)

  function RefundPayer(b: Book, share: Share, f: Refunding): Result<Book, Error> {
    var link := Between(share.payer, f.signer);
    var trimmed := Trim(b, Pick(b.active, link), f.now);
    if trimmed.Err? then trimmed
    else
      var g := GiveActive(Giving(trimmed.value.active, share.winc), LiveRows(Pick(b.active, link), f.now), share.winc);
      var given := trimmed.value.(active := g.active);
      var r := RestoreInactive(Restoring(given, g.rest), PickInactive(given.inactive, link), f.change);
      if r.Err? then Err(r.error) else Ok(r.value.book)
  }

  function RefundShare(b: Book, share: Share, f: Refunding): Result<Book, Error> {
    if share.payer != f.signer then RefundPayer(b, share, f)
    else if f.signer !in b.users then Err(UserNotFound(f.signer))
    else Ok(Post(b, f.signer, share.winc, f.reason, Some(f.change)))
  }

  function RefundShares(b: Book, shares: seq<Share>, f: Refunding): Result<Book, Error>
    decreases |shares|
  {
    if shares == [] then Ok(b)
    else
      var r := RefundShare(b, shares[0], f);
      if r.Err? then r else RefundShares(r.value, shares[1..], f)
  }

  function SharesOf(overflow: Option<seq<Share>>, signer: Addr, amount: int): seq<Share> {
    if overflow.Some? then overflow.value else [Share(signer, amount)]
  }

  /** refundWincFromOverflowSpend */
  function Refund(b: Book, amount: int, overflow: Option<seq<Share>>, f: Refunding): Result<Book, Error> {
    RefundShares(b, SharesOf(overflow, f.signer, amount), f)
  }

  // ---------- What one payer gets back ----------

  /** Given back to active approvals. */
  function GivenBack(rows: seq<Approval>, w: int, rest: int): int {
    if rows == [] || rest < 1 then 0
    else if rows[0].used >= w then w
    else rows[0].used + GivenBack(rows[1..], w, rest - rows[0].used)
  }

  function RestAfter(rows: seq<Approval>, w: int, rest: int): int {
    if rows == [] || rest < 1 then rest
    else if rows[0].used >= w then 0
    else RestAfter(rows[1..], w, rest - rows[0].used)
  }

  /** Given back to used-up approvals, which become active again. */
  function Restored(rows: seq<Inactive>, rest: int): int {
    if rows == [] || rest < 1 then 0
    else if rows[0].reason.Used? then
      (if rows[0].row.used >= rest then rest else rows[0].row.used) + Restored(rows[1..], rest - rows[0].row.used)
    else Restored(rows[1..], rest)
  }

  /** Paid to the payer's balance for expired and revoked approvals. */
  function PaidOut(rows: seq<Inactive>, rest: int): int {
    if rows == [] || rest < 1 then 0
    else if rows[0].reason.Used? then PaidOut(rows[1..], rest - rows[0].row.used)
    else rows[0].row.used + PaidOut(rows[1..], rest)
  }

  // ---------- One active approval ----------

  function GivenRow(r: Approval, w: int): Approval {
    r.(used := if r.used >= w then r.used - w else 0)
  }

  lemma GiveOneSound(b: Book, rest: int, r: Approval, w: int)
    requires Keyed(b) && r in b.active && w >= 1
    ensures Keyed(b.(active := GiveOne(Giving(b.active, rest), r, w).active))
    ensures WellFormed(b) ==> WellFormed(b.(active := GiveOne(Giving(b.active, rest), r, w).active))
    ensures forall q :: q in b.active && q.id != r.id ==> q in GiveOne(Giving(b.active, rest), r, w).active
  {
    var active := GiveOne(Giving(b.active, rest), r, w).active;
    assert active == Replace(b.active, r.id, Some(GivenRow(r, w)));
    ReplaceUnique(b.active, r.id, Some(GivenRow(r, w)));
    forall q ensures q in active <==> (q in b.active && q.id != r.id) || q == GivenRow(r, w) {
      ReplaceIn(b.active, r.id, Some(GivenRow(r, w)), q);
    }
  }

  lemma GiveOneTotals(active: seq<Approval>, rest: int, r: Approval, w: int, link: Link)
    requires UniqueIds(active) && r in active
    ensures SumLeft(Pick(GiveOne(Giving(active, rest), r, w).active, link)) ==
            SumLeft(Pick(active, link)) + (if Matches(link, r) then r.used - GivenRow(r, w).used else 0)
    ensures !Matches(link, r) ==> Pick(GiveOne(Giving(active, rest), r, w).active, link) == Pick(active, link)
  {
    assert GiveOne(Giving(active, rest), r, w).active == Replace(active, r.id, Some(GivenRow(r, w)));
    ReplaceTotals(active, r, Some(GivenRow(r, w)), link);
    if !Matches(link, r) { ReplaceFrame(active, r, Some(GivenRow(r, w)), link); }
  }

  // ---------- All active approvals ----------

  ghost predicate Rows(b: Book, rows: seq<Approval>, link: Link) {
    UniqueIds(rows) && forall r :: r in rows ==> r in b.active && Matches(link, r)
  }

  lemma {:induction false} GiveActiveSound(b: Book, rows: seq<Approval>, link: Link, w: int, rest: int)
    requires Keyed(b) && Rows(b, rows, link) && (w >= 1 || rest < 1)
    ensures Keyed(b.(active := GiveActive(Giving(b.active, rest), rows, w).active))
    ensures WellFormed(b) ==> WellFormed(b.(active := GiveActive(Giving(b.active, rest), rows, w).active))
    ensures GiveActive(Giving(b.active, rest), rows, w).rest == RestAfter(rows, w, rest)
    decreases |rows|
  {
    if rows != [] && rest >= 1 {
      GiveOneSound(b, rest, rows[0], w);
      var g := GiveOne(Giving(b.active, rest), rows[0], w);
      GiveActiveSound(b.(active := g.active), rows[1..], link, w, g.rest);
    }
  }

  /** A row of one payer and one spender is selected by their link and by everything the payer gave. */
  lemma SelectedBy(r: Approval, link: Link, other: Link)
    requires link.Between? && Matches(link, r)
    ensures Matches(other, r) <==> other == link || other == Given(link.payer)
  {
  }

  lemma GivenFirst(active: seq<Approval>, rows: seq<Approval>, w: int, rest: int)
    requires rows != [] && rest >= 1
    ensures GivenBack(rows, w, rest) ==
            rows[0].used - GivenRow(rows[0], w).used + GivenBack(rows[1..], w, GiveOne(Giving(active, rest), rows[0], w).rest)
  {
  }

  lemma {:induction false} GiveActiveTotals(b: Book, rows: seq<Approval>, link: Link, w: int, rest: int, other: Link)
    requires Keyed(b) && Rows(b, rows, link) && (w >= 1 || rest < 1) && link.Between?
    ensures var active := GiveActive(Giving(b.active, rest), rows, w).active;
            && SumLeft(Pick(active, other)) ==
               SumLeft(Pick(b.active, other)) + (if other == link || other == Given(link.payer) then GivenBack(rows, w, rest) else 0)
            && (other != link && other != Given(link.payer) ==> Pick(active, other) == Pick(b.active, other))
    decreases |rows|
  {
    if rows != [] && rest >= 1 {
      GiveOneSound(b, rest, rows[0], w);
      GiveOneTotals(b.active, rest, rows[0], w, other);
      SelectedBy(rows[0], link, other);
      GivenFirst(b.active, rows, w, rest);
      var g := GiveOne(Giving(b.active, rest), rows[0], w);
      GiveActiveTotals(b.(active := g.active), rows[1..], link, w, g.rest, other);
    }
  }

  // ---------- Inactive approvals ----------

  lemma {:induction false} RemoveInactiveIn(rows: seq<Inactive>, id: Id, x: Inactive)
    requires UniqueInactiveIds(rows)
    ensures x in RemoveInactive(rows, id) <==> x in rows && x.row.id != id
  {
    if rows != [] {
      if rows[0].row.id == id {
        assert forall y :: y in rows[1..] ==> y.row.id != id;
      } else {
        RemoveInactiveIn(rows[1..], id, x);
      }
    }
  }

  lemma {:induction false} RemoveInactiveUnique(rows: seq<Inactive>, id: Id)
    requires UniqueInactiveIds(rows)
    ensures UniqueInactiveIds(RemoveInactive(rows, id))
  {
    if rows != [] && rows[0].row.id != id {
      RemoveInactiveUnique(rows[1..], id);
      forall x | x in RemoveInactive(rows[1..], id) ensures x.row.id != rows[0].row.id { RemoveInactiveIn(rows[1..], id, x); }
    }
  }

  lemma {:induction false} RemoveInactiveFrame(rows: seq<Inactive>, x: Inactive, link: Link)
    requires UniqueInactiveIds(rows) && x in rows && !Matches(link, x.row)
    ensures PickInactive(RemoveInactive(rows, x.row.id), link) == PickInactive(rows, link)
  {
    if rows[0].row.id == x.row.id {
      assert rows[0] == x;
    } else {
      RemoveInactiveFrame(rows[1..], x, link);
      assert ([rows[0]] + RemoveInactive(rows[1..], x.row.id))[1..] == RemoveInactive(rows[1..], x.row.id);
    }
  }

  function Reactivated(x: Inactive, rest: int): Approval {
    x.row.(used := if x.row.used >= rest then x.row.used - rest else 0)
  }

  ghost predicate InactiveRows(b: Book, rows: seq<Inactive>, link: Link) {
    UniqueInactiveIds(rows) && forall x :: x in rows ==> x in b.inactive && Matches(link, x.row)
  }

  lemma RestoreOneSound(s: Restoring, x: Inactive, change: Id)
    requires Keyed(s.book) && x in s.book.inactive && s.rest >= 1
    ensures var r := RestoreOne(s, x, change);
            && r.Ok? && Keyed(r.value.book) && (WellFormed(s.book) ==> WellFormed(r.value.book)) &&
              r.value.book.users.Keys == s.book.users.Keys
            && (Balanced(s.book) ==> Balanced(r.value.book))
            && (forall y :: y in s.book.inactive && y.row.id != x.row.id ==> y in r.value.book.inactive)
  {
    if x.reason.Used? {
      RemoveInactiveUnique(s.book.inactive, x.row.id);
      forall y ensures y in RemoveInactive(s.book.inactive, x.row.id) <==> y in s.book.inactive && y.row.id != x.row.id {
        RemoveInactiveIn(s.book.inactive, x.row.id, y);
      }
      var active := s.book.active + [Reactivated(x, s.rest)];
      assert forall q :: q in active <==> q in s.book.active || q == Reactivated(x, s.rest);
    } else if Balanced(s.book) {
      var why := if x.reason.Expired? then DelegatedPaymentExpired else DelegatedPaymentRevoke;
      PostBalances(s.book, x.row.payer, x.row.used, why, Some(change));
    }
  }

  lemma RestoreOneTotals(s: Restoring, x: Inactive, change: Id, link: Link)
    requires Keyed(s.book) && x in s.book.inactive && s.rest >= 1 && RestoreOne(s, x, change).Ok?
    ensures var e := RestoreOne(s, x, change).value.book;
            && Lent(e, link) == Lent(s.book, link)
               + (if Matches(link, x.row) && x.reason.Used? then (if x.row.used >= s.rest then s.rest else x.row.used) else 0)
            && (!Matches(link, x.row) ==>
                  Pick(e.active, link) == Pick(s.book.active, link) &&
                    PickInactive(e.inactive, link) == PickInactive(s.book.inactive, link))
  {
    if x.reason.Used? {
      var r := Reactivated(x, s.rest);
      PickAppend(s.book.active, [r], link);
      PickTotals(s.book.active, [r], link);
      PickOne(r, link);
      if !Matches(link, x.row) { RemoveInactiveFrame(s.book.inactive, x, link); }
    }
  }

  lemma {:induction false} RestoreSound(s: Restoring, rows: seq<Inactive>, link: Link, change: Id)
    requires Keyed(s.book) && InactiveRows(s.book, rows, link)
    ensures var r := RestoreInactive(s, rows, change);
            && r.Ok? && Keyed(r.value.book) && (WellFormed(s.book) ==> WellFormed(r.value.book)) &&
              r.value.book.users.Keys == s.book.users.Keys
            && (Balanced(s.book) ==> Balanced(r.value.book))
    decreases |rows|
  {
    if rows != [] && s.rest >= 1 {
      RestoreOneSound(s, rows[0], change);
      RestoreSound(RestoreOne(s, rows[0], change).value, rows[1..], link, change);
    }
  }

  lemma {:induction false} RestoreTotals(s: Restoring, rows: seq<Inactive>, link: Link, change: Id, other: Link)
    requires Keyed(s.book) && InactiveRows(s.book, rows, link) && link.Between?
    requires RestoreInactive(s, rows, change).Ok?
    ensures var e := RestoreInactive(s, rows, change).value.book;
            && Lent(e, other) == Lent(s.book, other) + (if other == link || other == Given(link.payer) then Restored(rows, s.rest) else 0)
            && (other != link && other != Given(link.payer) ==>
                  Pick(e.active, other) == Pick(s.book.active, other) &&
                    PickInactive(e.inactive, other) == PickInactive(s.book.inactive, other))
    decreases |rows|
  {
    if rows != [] && s.rest >= 1 {
      RestoreOneSound(s, rows[0], change);
      RestoreOneTotals(s, rows[0], change, other);
      SelectedBy(rows[0].row, link, other);
      RestoreTotals(RestoreOne(s, rows[0], change).value, rows[1..], link, change, other);
    }
  }

  lemma {:induction false} RestoreBalances(s: Restoring, rows: seq<Inactive>, link: Link, change: Id)
    requires Keyed(s.book) && InactiveRows(s.book, rows, link)
    requires RestoreInactive(s, rows, change).Ok?
    ensures var e := RestoreInactive(s, rows, change).value.book;
            forall u :: Balance(e, u) == Balance(s.book, u) + (if u == link.payer then PaidOut(rows, s.rest) else 0)
    decreases |rows|
  {
    if rows != [] && s.rest >= 1 {
      RestoreOneSound(s, rows[0], change);
      RestoreBalances(RestoreOne(s, rows[0], change).value, rows[1..], link, change);
    }
  }
}
