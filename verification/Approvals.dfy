/**
 Drawing a charge from the approvals one payer gave one spender: rows are drawn in table order, a row that
 is used up moves to the inactive table.
 */
module Approvals {
  import opened Wrappers
  import opened Ledger

  datatype Draw = Draw(active: seq<Approval>, inactive: seq<Inactive>, rest: int)

  /** The part of `rest` that one approval pays. */
  function Portion(r: Approval, rest: int): int {
    if Left(r) >= rest then rest else Left(r)
  }

  /** One pass of the loop over delegated approvals. */
  function DrawOne(d: Draw, r: Approval): Draw {
    var drawn := r.(used := r.used + Portion(r, d.rest));
    if drawn.used == r.approved then
      Draw(Replace(d.active, r.id, None), d.inactive + [Inactive(drawn, Used, None)], d.rest - Portion(r, d.rest))
    else
      Draw(Replace(d.active, r.id, Some(drawn)), d.inactive, d.rest - Portion(r, d.rest))
  }

  function DrawFrom(d: Draw, rows: seq<Approval>): Draw
    decreases |rows|
  {
    if rows == [] || d.rest < 1 then d else DrawFrom(DrawOne(d, rows[0]), rows[1..])
  }

  // ---------- What a draw of `w` leaves behind in a list of approvals ----------

  function Remainder(rows: seq<Approval>, w: int): seq<Approval> {
    if rows == [] || w < 1 then rows
    else if Left(rows[0]) <= w then Remainder(rows[1..], w - Left(rows[0]))
    else [rows[0].(used := rows[0].used + w)] + rows[1..]
  }

  function UsedUp(r: Approval): Inactive { Inactive(r.(used := r.approved), Used, None) }

  function UsedUpRows(rows: seq<Approval>, w: int): seq<Inactive> {
    if rows == [] || w < 1 || Left(rows[0]) > w then []
    else [UsedUp(rows[0])] + UsedUpRows(rows[1..], w - Left(rows[0]))
  }

  // ---------- One step ----------

  lemma DrawOneSound(d: Draw, r: Approval)
    requires KeyedApprovals(d.active, d.inactive) && r in d.active && d.rest >= 1
    ensures KeyedApprovals(DrawOne(d, r).active, DrawOne(d, r).inactive)
    ensures SoundRows(d.active, d.inactive) ==> SoundRows(DrawOne(d, r).active, DrawOne(d, r).inactive)
    ensures forall q :: q in DrawOne(d, r).active ==> q.payer in (set p | p in d.active :: p.payer)
  {
    var e := DrawOne(d, r);
    var drawn := r.(used := r.used + Portion(r, d.rest));
    var next := if drawn.used == r.approved then None else Some(drawn);
    ReplaceUnique(d.active, r.id, next);
    forall q | q in e.active
      ensures (q in d.active && q.id != r.id) || (next.Some? && q == drawn)
    {
      ReplaceIn(d.active, r.id, next, q);
    }
    assert forall x :: x in e.inactive ==> x in d.inactive || x == Inactive(drawn, Used, None);
    assert forall x :: x in d.inactive ==> x.row.id != r.id;
  }

  /** The row's new state; None when it is used up. */
  function NextState(r: Approval, rest: int): Option<Approval> {
    if r.used + Portion(r, rest) == r.approved then None else Some(r.(used := r.used + Portion(r, rest)))
  }

  lemma DrawOneTotals(d: Draw, r: Approval, link: Link)
    requires UniqueIds(d.active) && r in d.active
    ensures SumLeft(Pick(DrawOne(d, r).active, link)) ==
            SumLeft(Pick(d.active, link)) - (if Matches(link, r) then Portion(r, d.rest) else 0)
  {
    ReplaceTotals(d.active, r, NextState(r, d.rest), link);
  }

  lemma DrawOneFrame(d: Draw, r: Approval, link: Link)
    requires UniqueIds(d.active) && r in d.active && !Matches(link, r)
    ensures Pick(DrawOne(d, r).active, link) == Pick(d.active, link)
    ensures PickInactive(DrawOne(d, r).inactive, link) == PickInactive(d.inactive, link)
  {
    ReplaceFrame(d.active, r, NextState(r, d.rest), link);
    PickInactiveAppend(d.inactive, [UsedUp(r)], link);
  }

  /** If the drawn row heads its link's list, the list continues behind it. */
  lemma DrawOneHead(d: Draw, link: Link)
    requires UniqueIds(d.active) && Pick(d.active, link) != [] && d.rest >= 1
    ensures var r := Pick(d.active, link)[0];
            && r in d.active && Matches(link, r)
            && Pick(DrawOne(d, r).active, link) ==
               (if Left(r) <= d.rest then [] else [r.(used := r.used + d.rest)]) + Pick(d.active, link)[1..]
  {
    var r := Pick(d.active, link)[0];
    PickIn(d.active, link, r);
    ReplaceWithin(d.active, r, NextState(r, d.rest), link);
  }

  // ---------- The whole draw ----------

  lemma SelectedSound(active: seq<Approval>, inactive: seq<Inactive>, link: Link)
    requires SoundApprovals(active, inactive)
    ensures forall r :: r in Pick(active, link) ==> SoundRow(r)
    ensures SumLeft(Pick(active, link)) >= 0 && SumUsed(Pick(active, link)) >= 0
  {
    forall r | r in Pick(active, link) ensures SoundRow(r) { PickIn(active, link, r); }
    SumLeftNonNegative(Pick(active, link));
  }

  /** The head of a link's list is drawn first; the draw goes on only if that row is used up. */
  lemma DrawStep(d: Draw, link: Link)
    requires UniqueIds(d.active) && Pick(d.active, link) != [] && d.rest >= 1
    ensures var rows := Pick(d.active, link);
            && rows[0] in d.active && Matches(link, rows[0])
            && UniqueIds(DrawOne(d, rows[0]).active)
            && (if Left(rows[0]) <= d.rest then
                  && DrawFrom(d, rows) == DrawFrom(DrawOne(d, rows[0]), Pick(DrawOne(d, rows[0]).active, link))
                  && Pick(DrawOne(d, rows[0]).active, link) == rows[1..]
                  && DrawOne(d, rows[0]).rest == d.rest - Left(rows[0])
                else DrawFrom(d, rows) == DrawOne(d, rows[0]) && DrawOne(d, rows[0]).rest == 0)
  {
    var rows := Pick(d.active, link);
    DrawOneHead(d, link);
    ReplaceUnique(d.active, rows[0].id, NextState(rows[0], d.rest));
    assert DrawFrom(d, rows) == DrawFrom(DrawOne(d, rows[0]), rows[1..]);
  }

  /** A draw of no more than there is takes exactly what is asked, also where some rows hold less than nothing. */
  lemma {:induction false} DrawExact(d: Draw, link: Link)
    requires KeyedApprovals(d.active, d.inactive)
    ensures var e := DrawFrom(d, Pick(d.active, link));
            && KeyedApprovals(e.active, e.inactive)
            && (SoundRows(d.active, d.inactive) ==> SoundRows(e.active, e.inactive))
            && (0 <= d.rest <= SumLeft(Pick(d.active, link)) ==> e.rest == 0)
            && (d.rest < 1 ==> e == d)
    decreases |Pick(d.active, link)|
  {
    var rows := Pick(d.active, link);
    if rows != [] && d.rest >= 1 {
      DrawStep(d, link);
      DrawOneSound(d, rows[0]);
      if Left(rows[0]) <= d.rest { DrawExact(DrawOne(d, rows[0]), link); }
    }
  }

  /** The rows a draw leaves under its link. */
  lemma {:induction false} DrawLeaves(d: Draw, link: Link)
    requires UniqueIds(d.active)
    ensures Pick(DrawFrom(d, Pick(d.active, link)).active, link) == Remainder(Pick(d.active, link), d.rest)
    decreases |Pick(d.active, link)|
  {
    var rows := Pick(d.active, link);
    if rows != [] && d.rest >= 1 {
      DrawStep(d, link);
      if Left(rows[0]) <= d.rest { DrawLeaves(DrawOne(d, rows[0]), link); } else { DrawOneHead(d, link); }
    }
  }

  /** The rows it moves aside. */
  lemma {:induction false} DrawMoves(d: Draw, rows: seq<Approval>)
    ensures DrawFrom(d, rows).inactive == d.inactive + UsedUpRows(rows, d.rest)
    decreases |rows|
  {
    if rows != [] && d.rest >= 1 {
      DrawMoves(DrawOne(d, rows[0]), rows[1..]);
    }
  }

  /** Effect of a draw on the totals and rows of every other link. */
  lemma {:induction false} DrawTotals(d: Draw, link: Link, other: Link)
    requires UniqueIds(d.active) && link.Between?
    requires other.Between? ==> other != link
    ensures var e := DrawFrom(d, Pick(d.active, link));
            && SumLeft(Pick(e.active, other)) ==
               SumLeft(Pick(d.active, other)) - (if other == Given(link.payer) then d.rest - e.rest else 0)
            && (other != Given(link.payer) ==>
                && Pick(e.active, other) == Pick(d.active, other)
                && PickInactive(e.inactive, other) == PickInactive(d.inactive, other))
    decreases |Pick(d.active, link)|
  {
    var rows := Pick(d.active, link);
    if rows != [] && d.rest >= 1 {
      var r := rows[0];
      DrawStep(d, link);
      DrawOneTotals(d, r, other);
      if other != Given(link.payer) { DrawOneFrame(d, r, other); }
      if Left(r) <= d.rest { DrawTotals(DrawOne(d, r), link, other); }
    }
  }

  lemma {:induction false} RemainderTotals(rows: seq<Approval>, w: int)
    requires forall r :: r in rows ==> SoundRow(r)
    requires 0 <= w <= SumLeft(rows)
    ensures SumLeft(Remainder(rows, w)) == SumLeft(rows) - w
    ensures SumUsed(Remainder(rows, w)) + SumUsedUp(UsedUpRows(rows, w)) == SumUsed(rows) + w
    ensures forall r :: r in Remainder(rows, w) ==> SoundRow(r)
  {
    if rows == [] || w < 1 {
    } else {
      assert SoundRow(rows[0]);
      if Left(rows[0]) <= w {
        RemainderTotals(rows[1..], w - Left(rows[0]));
        SumUsedUpAppend([UsedUp(rows[0])], UsedUpRows(rows[1..], w - Left(rows[0])));
      } else {
        var first := [rows[0].(used := rows[0].used + w)];
        SumLeftAppend(first, rows[1..]);
        SumLeftAppend([rows[0]], rows[1..]);
        PickOne(first[0], Given(first[0].payer));
        PickOne(rows[0], Given(rows[0].payer));
        assert rows == [rows[0]] + rows[1..];
      }
    }
  }

  /**
   Greedy drawing, in closed form. For a charge that the payer's approvals cover: a prefix of `m` rows, the
   last of them reached while something was still owed, is used up; at most one further row is part-drawn by
   `x`; rows behind it keep their amounts; used-up rows move to the inactive table with used == approved;
   nothing is left over.
   */
  lemma GreedyDraw(d: Draw, link: Link) returns (m: nat, x: int)
    requires SoundApprovals(d.active, d.inactive) && 1 <= d.rest <= SumLeft(Pick(d.active, link))
    ensures GreedySplit(Pick(d.active, link), d.rest, m, x)
    ensures var rows := Pick(d.active, link);
            var e := DrawFrom(d, rows);
            && e.rest == 0
            && Pick(e.active, link) == (if x == 0 then rows[m..] else [rows[m].(used := rows[m].used + x)] + rows[m + 1..])
            && e.inactive == d.inactive + seq(m, i requires 0 <= i < m => UsedUp(rows[i]))
  {
    SelectedSound(d.active, d.inactive, link);
    DrawExact(d, link);
    DrawLeaves(d, link);
    DrawMoves(d, Pick(d.active, link));
    m, x := GreedyShape(Pick(d.active, link), d.rest);
    UsedUpList(Pick(d.active, link), d.rest, m, x);
  }

  ghost predicate GreedySplit(rows: seq<Approval>, w: int, m: nat, x: int) {
    && m <= |rows| && 0 <= x && SumLeft(rows[..m]) + x == w
    && (m > 0 ==> SumLeft(rows[..m - 1]) < w)
    && (x > 0 ==> m < |rows| && x < Left(rows[m]))
  }

  lemma PrefixStep(rows: seq<Approval>, j: nat)
    requires j < |rows|
    ensures SumLeft(rows[..j + 1]) == Left(rows[0]) + SumLeft(rows[1..][..j])
  {
    assert rows[..j + 1][1..] == rows[1..][..j];
  }

  lemma {:induction false} GreedyShape(rows: seq<Approval>, w: int) returns (m: nat, x: int)
    requires (forall r :: r in rows ==> SoundRow(r)) && 0 <= w <= SumLeft(rows)
    ensures GreedySplit(rows, w, m, x)
    ensures Remainder(rows, w) == (if x == 0 then rows[m..] else [rows[m].(used := rows[m].used + x)] + rows[m + 1..])
  {
    if rows == [] || w < 1 {
      m, x := 0, 0;
    } else if Left(rows[0]) > w {
      m, x := 0, w;
    } else {
      assert SoundRow(rows[0]);
      m, x := GreedyShape(rows[1..], w - Left(rows[0]));
      PrefixStep(rows, m);
      if m > 0 { PrefixStep(rows, m - 1); }
      m := m + 1;
    }
  }

  lemma {:induction false} UsedUpList(rows: seq<Approval>, w: int, m: nat, x: int)
    requires (forall r :: r in rows ==> SoundRow(r)) && GreedySplit(rows, w, m, x)
    ensures UsedUpRows(rows, w) == seq(m, i requires 0 <= i < m => UsedUp(rows[i]))
  {
    if m == 0 {
      assert rows[..0] == [];
    } else {
      SumLeftNonNegative(rows[..m - 1]);
      PrefixStep(rows, m - 1);
      if m > 1 { PrefixStep(rows, m - 2); }
      SumLeftNonNegative(rows[1..][..m - 1]);
      UsedUpList(rows[1..], w - Left(rows[0]), m - 1, x);
    }
  }
}
