/**
 The reservation migration: legacy rows may hold several reservations for one data item. Rows are numbered per
 item in descending order of their reservation date (ties in any order), and all but number 1 are flagged
 refunded, so that the partial unique index can be created.
 */
module Backfill {
  type Id = string

  datatype Legacy = Legacy(id: Id, item: Id, reserved: int)

  datatype Migrated = Migrated(row: Legacy, refunded: bool)

  /** An order in which ROW_NUMBER may number the rows: a permutation, newest first within an item. */
  ghost predicate IsOrder(rows: seq<Legacy>, order: seq<nat>) {
    && |order| == |rows|
    && (forall k :: 0 <= k < |order| ==> order[k] < |rows|)
    && (forall j, k :: 0 <= j < k < |order| ==> order[j] != order[k])
    && (forall i :: 0 <= i < |rows| ==> i in order)
    && (forall j, k :: 0 <= j < k < |order| && rows[order[j]].item == rows[order[k]].item ==>
          rows[order[j]].reserved >= rows[order[k]].reserved)
  }

  /** Rows of an item among the first `k` in order. */
  function Ahead(rows: seq<Legacy>, order: seq<nat>, k: nat, item: Id): nat
    requires k <= |order| && forall j :: 0 <= j < |order| ==> order[j] < |rows|
  {
    if k == 0 then 0 else Ahead(rows, order, k - 1, item) + (if rows[order[k - 1]].item == item then 1 else 0)
  }

  function PlaceOf(order: seq<nat>, i: nat): nat
    requires i in order
    ensures PlaceOf(order, i) < |order| && order[PlaceOf(order, i)] == i
  {
    if order[0] == i then 0 else 1 + PlaceOf(order[1..], i)
  }

  /** ROW_NUMBER() OVER (PARTITION BY item ORDER BY reserved DESC) */
  function RowNumber(rows: seq<Legacy>, order: seq<nat>, i: nat): nat
    requires i in order && forall j :: 0 <= j < |order| ==> order[j] < |rows|
  {
    Ahead(rows, order, PlaceOf(order, i) + 1, rows[i].item)
  }

  function Migrate(rows: seq<Legacy>, order: seq<nat>): seq<Migrated>
    requires (forall k :: 0 <= k < |order| ==> order[k] < |rows|) && (forall i :: 0 <= i < |rows| ==> i in order)
  {
    seq(|rows|, i requires 0 <= i < |rows| => Migrated(rows[i], RowNumber(rows, order, i) > 1))
  }

  lemma {:induction false} AheadNone(rows: seq<Legacy>, order: seq<nat>, k: nat, item: Id)
    requires k <= |order| && forall j :: 0 <= j < |order| ==> order[j] < |rows|
    ensures Ahead(rows, order, k, item) == 0 <==> forall j :: 0 <= j < k ==> rows[order[j]].item != item
  {
    if k > 0 { AheadNone(rows, order, k - 1, item); }
  }

  /** A row stays active exactly when no row of its item comes before it. */
  lemma ActiveIffFirst(rows: seq<Legacy>, order: seq<nat>, i: nat)
    requires IsOrder(rows, order) && i < |rows|
    ensures !Migrate(rows, order)[i].refunded <==> forall j :: 0 <= j < PlaceOf(order, i) ==> rows[order[j]].item != rows[i].item
  {
    AheadNone(rows, order, PlaceOf(order, i), rows[i].item);
  }

  lemma {:induction false} FirstOfItem(rows: seq<Legacy>, order: seq<nat>, k: nat, item: Id) returns (f: nat)
    requires k < |order| && (forall j :: 0 <= j < |order| ==> order[j] < |rows|) && rows[order[k]].item == item
    ensures f <= k && rows[order[f]].item == item && forall j :: 0 <= j < f ==> rows[order[j]].item != item
  {
    if j :| 0 <= j < k && rows[order[j]].item == item {
      f := FirstOfItem(rows, order, j, item);
    } else {
      f := k;
    }
  }

  lemma PlaceUnique(order: seq<nat>, k: nat)
    requires k < |order| && forall i, j :: 0 <= i < j < |order| ==> order[i] != order[j]
    ensures PlaceOf(order, order[k]) == k
  {
  }

  /**
   For every legacy table and every tie-break: no row is lost or altered, each data item that has rows keeps
   exactly one active, and that one is among its newest.
   */
  lemma OneActiveAndNewest(rows: seq<Legacy>, order: seq<nat>, i: nat) returns (keep: nat)
    requires IsOrder(rows, order) && i < |rows|
    ensures var after := Migrate(rows, order);
            && |after| == |rows| && (forall j :: 0 <= j < |rows| ==> after[j].row == rows[j])
            && keep < |rows| && rows[keep].item == rows[i].item && !after[keep].refunded
            && (forall j :: 0 <= j < |rows| && rows[j].item == rows[i].item && j != keep ==> after[j].refunded)
            && (forall j :: 0 <= j < |rows| && rows[j].item == rows[i].item ==> rows[j].reserved <= rows[keep].reserved)
  {
    var f := FirstOfItem(rows, order, PlaceOf(order, i), rows[i].item);
    keep := order[f];
    PlaceUnique(order, f);
    ActiveIffFirst(rows, order, keep);
    forall j | 0 <= j < |rows| && rows[j].item == rows[i].item && j != keep
      ensures Migrate(rows, order)[j].refunded && rows[j].reserved <= rows[keep].reserved
    {
      ActiveIffFirst(rows, order, j);
      assert order[PlaceOf(order, j)] == j;
      assert f < PlaceOf(order, j);
    }
  }

  /** Afterwards the partial unique index can be created. */
  ghost predicate Indexable(after: seq<Migrated>) {
    forall i, j :: 0 <= i < j < |after| && !after[i].refunded && !after[j].refunded ==> after[i].row.item != after[j].row.item
  }

  lemma MigrateIndexable(rows: seq<Legacy>, order: seq<nat>)
    requires IsOrder(rows, order)
    ensures Indexable(Migrate(rows, order))
  {
    forall i, j | 0 <= i < j < |rows| && !Migrate(rows, order)[i].refunded && !Migrate(rows, order)[j].refunded
      ensures rows[i].item != rows[j].item
    {
      if rows[i].item == rows[j].item { var keep := OneActiveAndNewest(rows, order, i); }
    }
  }
}
