/**
 To which approvals a refund gives back, row by row: active ones in the order of the table, then used-up ones, as long
 as something is left of the part. Stated on sums of used amounts, without the loops.
 */
module Returns {
  import opened Wrappers
  import opened Ledger
  import opened Approvals
  import opened Allocation
  import opened Spending
  import opened Lending
  import opened Refunds
  import opened RoundTrip
  import opened RefundExact

  // ---------- Active approvals ----------

  /** The refund comes to row `i`: something is left there and at every row ahead, and none ahead had used the whole part. */
  ghost predicate Comes(rows: seq<Approval>, w: int, rest: int, i: nat)
    requires i <= |rows|
  {
    forall j :: 0 <= j <= i ==> LeftBefore(rows, rest, j) >= 1 && (j < i ==> rows[j].used < w)
  }

  function LeftBefore(rows: seq<Approval>, rest: int, j: nat): int
    requires j <= |rows|
  {
    rest - SumUsed(rows[..j])
  }

  lemma ComesNext(rows: seq<Approval>, w: int, rest: int, i: nat)
    requires 0 < i <= |rows|
    ensures Comes(rows, w, rest, i) <==> rest >= 1 && rows[0].used < w && Comes(rows[1..], w, rest - rows[0].used, i - 1)
  {
    var left := rest - rows[0].used;
    forall j | 1 <= j <= i ensures LeftBefore(rows, rest, j) == LeftBefore(rows[1..], left, j - 1) {
      assert rows[..j][1..] == rows[1..][..j - 1] && rows[..j][0] == rows[0];
    }
    assert LeftBefore(rows, rest, 0) == rest;
    if Comes(rows, w, rest, i) {
      forall j | 0 <= j <= i - 1 ensures LeftBefore(rows[1..], left, j) >= 1 && (j < i - 1 ==> rows[1..][j].used < w) {
        assert LeftBefore(rows, rest, j + 1) >= 1;
      }
    }
    if rest >= 1 && rows[0].used < w && Comes(rows[1..], w, left, i - 1) {
      forall j | 0 <= j <= i ensures LeftBefore(rows, rest, j) >= 1 && (j < i ==> rows[j].used < w) {
        if j > 0 {
          assert LeftBefore(rows[1..], left, j - 1) >= 1;
          assert j < i ==> rows[1..][j - 1] == rows[j];
        }
      }
    }
  }

  lemma {:induction false} ReplaceBy(done: seq<Approval>, r: Approval, rest: seq<Approval>, next: Approval)
    requires UniqueIds(done + [r] + rest)
    ensures Replace(done + [r] + rest, r.id, Some(next)) == done + [next] + rest
  {
    var all := done + [r] + rest;
    if done == [] {
      assert all == [r] + rest;
    } else {
      assert all[0] == done[0] && all[|done|] == r;
      assert all[1..] == done[1..] + [r] + rest;
      ReplaceBy(done[1..], r, rest, next);
      assert done + [next] + rest == [done[0]] + (done[1..] + [next] + rest);
    }
  }

  lemma GivesFirst(active: seq<Approval>, done: seq<Approval>, rows: seq<Approval>, link: Link, w: int, rest: int)
    requires UniqueIds(active) && rows != [] && Pick(active, link) == done + rows
    ensures var after := GiveOne(Giving(active, rest), rows[0], w).active;
            UniqueIds(after) && Pick(after, link) == done + [GivenRow(rows[0], w)] + rows[1..]
  {
    var r, next := rows[0], GivenRow(rows[0], w);
    assert done + rows == done + [r] + rows[1..];
    assert (done + rows)[|done|] == r;
    PickUnique(active, link);
    PickIn(active, link, r);
    assert GiveOne(Giving(active, rest), r, w).active == Replace(active, r.id, Some(next));
    ReplaceUnique(active, r.id, Some(next));
    ReplaceWithin(active, r, Some(next), link);
    ReplaceBy(done, r, rows[1..], next);
  }

  function After(rows: seq<Approval>, w: int, rest: int): seq<Approval> {
    if rows == [] || rest < 1 then rows
    else [GivenRow(rows[0], w)] + After(rows[1..], w, if rows[0].used >= w then 0 else rest - rows[0].used)
  }

  lemma {:induction false} GivesAfter(active: seq<Approval>, done: seq<Approval>, rows: seq<Approval>, link: Link, w: int, rest: int)
    requires UniqueIds(active) && Pick(active, link) == done + rows
    ensures Pick(GiveActive(Giving(active, rest), rows, w).active, link) == done + After(rows, w, rest)
    decreases |rows|
  {
    if rows != [] && rest >= 1 {
      var g := GiveOne(Giving(active, rest), rows[0], w);
      GivesFirst(active, done, rows, link, w, rest);
      GivesAfter(g.active, done + [GivenRow(rows[0], w)], rows[1..], link, w, g.rest);
      assert done + [GivenRow(rows[0], w)] + After(rows[1..], w, g.rest) == done + After(rows, w, rest);
    }
  }

  lemma {:induction false} AfterAt(rows: seq<Approval>, w: int, rest: int, i: nat)
    requires i < |rows|
    ensures |After(rows, w, rest)| == |rows|
    ensures After(rows, w, rest)[i] == if Comes(rows, w, rest, i) then GivenRow(rows[i], w) else rows[i]
  {
    assert LeftBefore(rows, rest, 0) == rest;
    if rest >= 1 {
      var left := if rows[0].used >= w then 0 else rest - rows[0].used;
      if i > 0 {
        ComesNext(rows, w, rest, i);
        AfterAt(rows[1..], w, left, i - 1);
        if left == 0 { assert LeftBefore(rows[1..], left, 0) == 0; }
      } else if |rows| > 1 {
        AfterAt(rows[1..], w, left, 0);
      }
    }
  }

  /** What the loop leaves of the payer's active approvals: the same rows in the same order, less what each was given. */
  lemma GivesInTurn(active: seq<Approval>, rows: seq<Approval>, link: Link, w: int, rest: int)
    requires UniqueIds(active) && Pick(active, link) == rows
    ensures var after := Pick(GiveActive(Giving(active, rest), rows, w).active, link);
            && |after| == |rows|
            && (forall i :: 0 <= i < |rows| ==> after[i] == if Comes(rows, w, rest, i) then GivenRow(rows[i], w) else rows[i])
  {
    assert [] + rows == rows && [] + After(rows, w, rest) == After(rows, w, rest);
    GivesAfter(active, [], rows, link, w, rest);
    if rows == [] { assert After(rows, w, rest) == []; } else { AfterAt(rows, w, rest, 0); }
    forall i | 0 <= i < |rows| ensures After(rows, w, rest)[i] == if Comes(rows, w, rest, i) then GivenRow(rows[i], w) else rows[i] {
      AfterAt(rows, w, rest, i);
    }
  }

  /** What is left for the inactive ones. */
  lemma {:induction false} LeftForInactive(rows: seq<Approval>, w: int, rest: int)
    ensures Comes(rows, w, rest, |rows|) ==> RestAfter(rows, w, rest) == rest - SumUsed(rows)
    ensures !Comes(rows, w, rest, |rows|) ==> RestAfter(rows, w, rest) < 1
  {
    assert LeftBefore(rows, rest, 0) == rest;
    if rows != [] && rest >= 1 {
      ComesNext(rows, w, rest, |rows|);
      if rows[0].used < w { LeftForInactive(rows[1..], w, rest - rows[0].used); }
    }
  }

  // ---------- Inactive approvals ----------

  /** The refund comes to inactive row `i`: something is left there and at every row ahead. */
  ghost predicate ComesTo(rows: seq<Inactive>, rest: int, i: nat)
    requires i < |rows|
  {
    forall j :: 0 <= j <= i ==> LeftAt(rows, rest, j) >= 1
  }

  function LeftAt(rows: seq<Inactive>, rest: int, j: nat): int
    requires j <= |rows|
  {
    rest - SumUsedUp(rows[..j])
  }

  lemma ComesToNext(rows: seq<Inactive>, rest: int, i: nat)
    requires 0 < i < |rows|
    ensures var left := rest - (if rows[0].reason.Used? then rows[0].row.used else 0);
            && LeftAt(rows, rest, i) == LeftAt(rows[1..], left, i - 1)
            && (ComesTo(rows, rest, i) <==> rest >= 1 && ComesTo(rows[1..], left, i - 1))
  {
    var left := rest - (if rows[0].reason.Used? then rows[0].row.used else 0);
    forall j | 1 <= j <= i ensures LeftAt(rows, rest, j) == LeftAt(rows[1..], left, j - 1) {
      assert rows[..j][1..] == rows[1..][..j - 1] && rows[..j][0] == rows[0];
    }
    assert LeftAt(rows, rest, 0) == rest;
    if ComesTo(rows, rest, i) {
      forall j | 0 <= j <= i - 1 ensures LeftAt(rows[1..], left, j) >= 1 { assert LeftAt(rows, rest, j + 1) >= 1; }
    } else {
      var j :| 0 <= j <= i && LeftAt(rows, rest, j) < 1;
      if j > 0 { assert LeftAt(rows[1..], left, j - 1) < 1; }
    }
  }

  /** A used-up row the refund comes to is active again, less what was left; every other inactive row stays. */
  ghost predicate Reopened(e: Book, x: Inactive, comes: bool, left: int) {
    if x.reason.Used? && comes then x !in e.inactive && Reactivated(x, left) in e.active else x in e.inactive
  }

  lemma {:induction false} RestoreKeepsOthers(s: Restoring, rows: seq<Inactive>, change: Id)
    requires Keyed(s.book) && RestoreInactive(s, rows, change).Ok? && (forall x :: x in rows ==> x in s.book.inactive)
    requires UniqueInactiveIds(rows)
    ensures var e := RestoreInactive(s, rows, change).value.book;
            && (forall r :: r in s.book.active ==> r in e.active)
            && (forall x :: x in s.book.inactive && x !in rows ==> x in e.inactive)
            && (forall x :: x in e.inactive ==> x in s.book.inactive)
    decreases |rows|
  {
    if rows != [] && s.rest >= 1 {
      RestoreOneSound(s, rows[0], change);
      var e := RestoreOne(s, rows[0], change).value;
      forall x ensures x in e.book.inactive <==> x in s.book.inactive && !(rows[0].reason.Used? && x == rows[0]) {
        if rows[0].reason.Used? { RemoveInactiveIn(s.book.inactive, rows[0].row.id, x); }
      }
      RestoreKeepsOthers(e, rows[1..], change);
    }
  }

  lemma RestoresFirst(s: Restoring, rows: seq<Inactive>, change: Id)
    requires Keyed(s.book) && RestoreInactive(s, rows, change).Ok? && (forall x :: x in rows ==> x in s.book.inactive)
    requires UniqueInactiveIds(rows) && rows != [] && s.rest >= 1
    ensures var e := RestoreOne(s, rows[0], change);
            && e.Ok? && Keyed(e.value.book) && (forall x :: x in rows[1..] ==> x in e.value.book.inactive)
    ensures Reopened(RestoreInactive(s, rows, change).value.book, rows[0], true, s.rest)
  {
    var x := rows[0];
    RestoreOneSound(s, x, change);
    var e := RestoreOne(s, x, change).value;
    if x.reason.Used? { RemoveInactiveIn(s.book.inactive, x.row.id, x); }
    RestoreKeepsOthers(e, rows[1..], change);
  }

  lemma {:induction false} RestoresInTurn(s: Restoring, rows: seq<Inactive>, change: Id, i: nat)
    requires Keyed(s.book) && RestoreInactive(s, rows, change).Ok? && (forall x :: x in rows ==> x in s.book.inactive)
    requires UniqueInactiveIds(rows) && i < |rows|
    ensures Reopened(RestoreInactive(s, rows, change).value.book, rows[i], ComesTo(rows, s.rest, i), LeftAt(rows, s.rest, i))
    decreases |rows|
  {
    assert LeftAt(rows, s.rest, 0) == s.rest;
    if s.rest < 1 {
      assert !ComesTo(rows, s.rest, i);
    } else {
      RestoresFirst(s, rows, change);
      if i == 0 {
        assert ComesTo(rows, s.rest, 0);
      } else {
        var e := RestoreOne(s, rows[0], change).value;
        RestoresInTurn(e, rows[1..], change, i - 1);
        ComesToNext(rows, s.rest, i);
        assert e.rest == s.rest - (if rows[0].reason.Used? then rows[0].row.used else 0);
        assert RestoreInactive(s, rows, change) == RestoreInactive(e, rows[1..], change);
      }
    }
  }

  // ---------- A payer's refund ----------

  /** The refund of a part comes to the inactive approvals: every live one is given back to, and none alone had used the part. */
  ghost predicate PastLive(live: seq<Approval>, w: int) { Comes(live, w, w, |live|) }

  /** The tables a refund goes through: the live rows given back to, then the gone ones restored. */
  lemma RefundStages(b: Book, share: Share, f: Refunding) returns (given: Book)
    requires Keyed(b)
    ensures var link := Between(share.payer, f.signer);
            var live, gone, w := LiveOf(b, link, f.now), GoneOf(b, link, f.now), share.winc;
            var r := RestoreInactive(Restoring(given, RestAfter(live, w, w)), gone, f.change);
            && Keyed(given) && InactiveRows(given, gone, link) && r.Ok? && RefundPayer(b, share, f) == Ok(r.value.book)
            && |Pick(given.active, link)| == |live|
            && (forall i :: 0 <= i < |live| ==>
                  Pick(given.active, link)[i] == if Comes(live, w, w, i) then GivenRow(live[i], w) else live[i])
  {
    var link := Between(share.payer, f.signer);
    var live, w := LiveOf(b, link, f.now), share.winc;
    RefundAfterExpiry(b, share, f);
    ExpiringLists(b, link, f.now);
    RefundPayerSound(b, share, f);
    var t := Expiring(b, link, f.now);
    NothingExpired(t, live, f.now);
    TrimNothing(t, live, f.now);
    PickedRows(t, link);
    GiveActiveSound(t, live, link, w, w);
    given := t.(active := GiveActive(Giving(t.active, w), live, w).active);
    GivesInTurn(t.active, live, link, w, w);
    PickedRows(given, link);
  }

  /**
   What the refund of a part leaves of the payer's live approvals: in the order of the table each gives back, until
   nothing is left; the others stay as they are.
   */
  lemma LiveInTurn(b: Book, share: Share, f: Refunding, i: nat)
    requires Keyed(b) && i < |LiveOf(b, Between(share.payer, f.signer), f.now)|
    ensures var live := LiveOf(b, Between(share.payer, f.signer), f.now);
            var r := RefundPayer(b, share, f);
            r.Ok? && (if Comes(live, share.winc, share.winc, i) then GivenRow(live[i], share.winc) else live[i]) in r.value.active
  {
    var link := Between(share.payer, f.signer);
    var given := RefundStages(b, share, f);
    RestoreKeepsOthers(Restoring(given, RestAfter(LiveOf(b, link, f.now), share.winc, share.winc)), GoneOf(b, link, f.now), f.change);
    PickIn(given.active, link, Pick(given.active, link)[i]);
  }

  /**
   And of its inactive ones: if something is left behind the live ones, the used-up ones become active again, in turn,
   as far as it goes; all others, and every expired or revoked one, stay as they are.
   */
  lemma GoneInTurn(b: Book, share: Share, f: Refunding, i: nat)
    requires Keyed(b) && i < |GoneOf(b, Between(share.payer, f.signer), f.now)|
    ensures var live, gone := LiveOf(b, Between(share.payer, f.signer), f.now), GoneOf(b, Between(share.payer, f.signer), f.now);
            var r, left := RefundPayer(b, share, f), share.winc - SumUsed(live);
            r.Ok? && Reopened(r.value, gone[i], PastLive(live, share.winc) && ComesTo(gone, left, i), LeftAt(gone, left, i))
  {
    var link := Between(share.payer, f.signer);
    var live, gone, w := LiveOf(b, link, f.now), GoneOf(b, link, f.now), share.winc;
    var given := RefundStages(b, share, f);
    var rest := RestAfter(live, w, w);
    RestoresInTurn(Restoring(given, rest), gone, f.change, i);
    LeftForInactive(live, w, w);
    if !PastLive(live, w) {
      assert LeftAt(gone, rest, 0) == rest;
      assert !ComesTo(gone, rest, i);
    }
  }
}
