/**
 Approvals are never lost: whatever happens, an approval that was made stays in one of the two tables, for its
 amount. So one that was made for a negative amount is there for ever.
 */
module Loans {
  import opened Wrappers
  import opened Ledger
  import opened Approvals
  import opened Allocation
  import opened Spending
  import opened Lending
  import opened Refunds
  import opened RoundTrip

  /** An approval with this id is in one of the tables, for this amount. */
  ghost predicate Known(active: seq<Approval>, inactive: seq<Inactive>, id: Id, amount: int) {
    (exists r :: r in active && r.id == id && r.approved == amount)
    || (exists x :: x in inactive && x.row.id == id && x.row.approved == amount)
  }

  ghost predicate KnownIn(b: Book, id: Id, amount: int) { Known(b.active, b.inactive, id, amount) }

  /** A row is updated in place, or moved aside. */
  lemma ReplaceKnown(active: seq<Approval>, inactive: seq<Inactive>, r: Approval, next: Option<Approval>, more: seq<Inactive>,
      id: Id, amount: int)
    requires UniqueIds(active) && r in active && Known(active, inactive, id, amount)
    requires next.Some? ==> next.value.id == r.id && next.value.approved == r.approved
    requires next.None? ==> exists x :: x in more && x.row.id == r.id && x.row.approved == r.approved
    ensures Known(Replace(active, r.id, next), inactive + more, id, amount)
  {
    if q :| q in active && q.id == id && q.approved == amount {
      if id == r.id {
        if next.Some? {
          ReplaceIn(active, r.id, next, next.value);
        } else {
          var x :| x in more && x.row.id == r.id && x.row.approved == r.approved;
          assert x in inactive + more;
        }
      } else {
        ReplaceIn(active, r.id, next, q);
      }
    } else {
      var x :| x in inactive && x.row.id == id && x.row.approved == amount;
      assert x in inactive + more;
    }
  }

  lemma DrawOneKnown(d: Draw, r: Approval, id: Id, amount: int)
    requires UniqueIds(d.active) && r in d.active && Known(d.active, d.inactive, id, amount)
    ensures Known(DrawOne(d, r).active, DrawOne(d, r).inactive, id, amount)
  {
    var next := NextState(r, d.rest);
    var drawn := r.(used := r.used + Portion(r, d.rest));
    var more := if next.None? then [Inactive(drawn, Used, None)] else [];
    if next.None? { assert Inactive(drawn, Used, None) in more; }
    assert d.inactive + [] == d.inactive;
    ReplaceKnown(d.active, d.inactive, r, next, more, id, amount);
  }

  lemma {:induction false} DrawKnown(d: Draw, link: Link, id: Id, amount: int)
    requires UniqueIds(d.active) && Known(d.active, d.inactive, id, amount)
    ensures var e := DrawFrom(d, Pick(d.active, link)); Known(e.active, e.inactive, id, amount)
    decreases |Pick(d.active, link)|
  {
    var rows := Pick(d.active, link);
    if rows != [] && d.rest >= 1 {
      DrawStep(d, link);
      DrawOneKnown(d, rows[0], id, amount);
      if Left(rows[0]) <= d.rest { DrawKnown(DrawOne(d, rows[0]), link, id, amount); }
    }
  }

  lemma {:induction false} ApplyKnown(b: Book, parts: seq<Part>, c: Charge, id: Id, amount: int)
    requires Ready(b, parts, c) && KnownIn(b, id, amount)
    ensures ApplyParts(b, parts, c).Ok? && KnownIn(ApplyParts(b, parts, c).value, id, amount)
    decreases |parts|
  {
    if parts != [] {
      ReadyStep(b, parts, c);
      if parts[0].payer != c.signer {
        DrawKnown(Draw(b.active, b.inactive, parts[0].winc), Between(parts[0].payer, c.signer), id, amount);
      }
      ApplyKnown(ApplyPart(b, parts[0], c).value, parts[1..], c, id, amount);
    }
  }

  lemma RevokeKnown(b: Book, payer: Addr, spender: Addr, revokedBy: Id, id: Id, amount: int)
    requires KnownIn(b, id, amount) && Revoke(b, payer, spender, revokedBy).Ok?
    ensures KnownIn(Revoke(b, payer, spender, revokedBy).value, id, amount)
  {
    var link := Between(payer, spender);
    var moved := AsInactive(Pick(b.active, link), Revoked, Some(revokedBy));
    var all := b.inactive + moved;
    RevokeUsedUpRows(all, link, revokedBy);
    if q :| q in b.active && q.id == id && q.approved == amount {
      WithoutIn(b.active, link, q);
      if Matches(link, q) {
        PickIn(b.active, link, q);
        AsInactiveIn(Pick(b.active, link), Revoked, Some(revokedBy), Inactive(q, Revoked, Some(revokedBy)));
        InactiveKept(all, link, revokedBy, Inactive(q, Revoked, Some(revokedBy)));
      }
    } else {
      var x :| x in b.inactive && x.row.id == id && x.row.approved == amount;
      InactiveKept(all, link, revokedBy, x);
    }
  }

  lemma InactiveKept(rows: seq<Inactive>, link: Link, revokedBy: Id, x: Inactive)
    requires x in rows
    ensures exists y :: y in RevokeUsedUp(rows, link, revokedBy) && y.row == x.row
  {
    RevokeUsedUpRows(rows, link, revokedBy);
    var i :| 0 <= i < |rows| && rows[i] == x;
    assert RevokeUsedUp(rows, link, revokedBy)[i] in RevokeUsedUp(rows, link, revokedBy);
  }

  lemma {:induction false} MoveKnown(b: Book, rows: seq<Approval>, now: int, id: Id, amount: int)
    requires Keyed(b) && (forall r :: r in rows ==> r in b.active) && UniqueIds(rows) && KnownIn(b, id, amount)
    ensures KnownIn(MoveExpired(b, rows, now), id, amount)
    decreases |rows|
  {
    if rows != [] {
      if Live(rows[0], now) {
        MoveKnown(b, rows[1..], now, id, amount);
      } else {
        var more := [Inactive(rows[0], Expired, None)];
        MoveOne(b, rows[0]);
        assert more[0] in more;
        ReplaceKnown(b.active, b.inactive, rows[0], None, more, id, amount);
        MoveKnown(Moved(b, rows[0]), rows[1..], now, id, amount);
      }
    }
  }

  lemma TrimKnown(b: Book, rows: seq<Approval>, now: int, id: Id, amount: int)
    requires Keyed(b) && (forall r :: r in rows ==> r in b.active) && UniqueIds(rows) && KnownIn(b, id, amount)
    ensures Trim(b, rows, now).Ok? && KnownIn(Trim(b, rows, now).value, id, amount)
  {
    TrimNeutral(b, rows, now);
    MoveKnown(b, rows, now, id, amount);
    TrimTables(b, rows, now);
  }

  lemma {:induction false} GiveKnown(b: Book, rows: seq<Approval>, link: Link, w: int, rest: int, id: Id, amount: int)
    requires Keyed(b) && Rows(b, rows, link) && (w >= 1 || rest < 1) && KnownIn(b, id, amount)
    ensures Known(GiveActive(Giving(b.active, rest), rows, w).active, b.inactive, id, amount)
    decreases |rows|
  {
    if rows != [] && rest >= 1 {
      var g := GiveOne(Giving(b.active, rest), rows[0], w);
      GiveOneSound(b, rest, rows[0], w);
      assert b.inactive + [] == b.inactive;
      ReplaceKnown(b.active, b.inactive, rows[0], Some(GivenRow(rows[0], w)), [], id, amount);
      GiveKnown(b.(active := g.active), rows[1..], link, w, g.rest, id, amount);
    }
  }

  lemma RestoreOneKnown(s: Restoring, x: Inactive, change: Id, id: Id, amount: int)
    requires Keyed(s.book) && x in s.book.inactive && RestoreOne(s, x, change).Ok? && KnownIn(s.book, id, amount)
    ensures KnownIn(RestoreOne(s, x, change).value.book, id, amount)
  {
    if x.reason.Used? {
      var e := RestoreOne(s, x, change).value.book;
      var back := Reactivated(x, s.rest);
      assert back in e.active;
      if q :| q in s.book.active && q.id == id && q.approved == amount {
        assert q in e.active;
      } else {
        var y :| y in s.book.inactive && y.row.id == id && y.row.approved == amount;
        RemoveInactiveIn(s.book.inactive, x.row.id, y);
        if y.row.id == x.row.id {
          assert y == x;
          assert back.id == id && back.approved == amount;
        }
      }
    }
  }

  lemma {:induction false} RestoreKnown(s: Restoring, rows: seq<Inactive>, link: Link, change: Id, id: Id, amount: int)
    requires Keyed(s.book) && InactiveRows(s.book, rows, link) && RestoreInactive(s, rows, change).Ok? && KnownIn(s.book, id, amount)
    ensures KnownIn(RestoreInactive(s, rows, change).value.book, id, amount)
    decreases |rows|
  {
    if rows != [] && s.rest >= 1 {
      RestoreOneSound(s, rows[0], change);
      RestoreOneKnown(s, rows[0], change, id, amount);
      RestoreKnown(RestoreOne(s, rows[0], change).value, rows[1..], link, change, id, amount);
    }
  }

  lemma RefundPayerKnown(b: Book, share: Share, f: Refunding, id: Id, amount: int)
    requires Keyed(b) && RefundPayer(b, share, f).Ok? && KnownIn(b, id, amount)
    ensures KnownIn(RefundPayer(b, share, f).value, id, amount)
  {
    var link := Between(share.payer, f.signer);
    LiveRowsAfterTrim(b, link, f.now);
    PickedRows(b, link);
    TrimKnown(b, Pick(b.active, link), f.now, id, amount);
    var t := Trim(b, Pick(b.active, link), f.now).value;
    var rows := LiveRows(Pick(b.active, link), f.now);
    GiveActiveSound(t, rows, link, share.winc, share.winc);
    GiveKnown(t, rows, link, share.winc, share.winc, id, amount);
    var g := GiveActive(Giving(t.active, share.winc), rows, share.winc);
    var given := t.(active := g.active);
    PickedRows(given, link);
    RestoreKnown(Restoring(given, g.rest), PickInactive(given.inactive, link), link, f.change, id, amount);
  }

  lemma {:induction false} RefundKnown(b: Book, shares: seq<Share>, f: Refunding, id: Id, amount: int)
    requires Keyed(b) && !IsApprovedSpend(f.reason) && RefundShares(b, shares, f).Ok? && KnownIn(b, id, amount)
    ensures KnownIn(RefundShares(b, shares, f).value, id, amount)
    decreases |shares|
  {
    if shares != [] {
      if shares[0].payer != f.signer {
        RefundPayerSound(b, shares[0], f);
        RefundPayerKnown(b, shares[0], f, id, amount);
      }
      RefundKnown(RefundShare(b, shares[0], f).value, shares[1..], f, id, amount);
    }
  }
}
