/** Which payer pays what: the order in which a charge comes to its payers, stated without the planning loop. */
module Turns {
  import opened Wrappers
  import opened Ledger
  import opened Approvals
  import opened Allocation
  import opened Spending
  import opened Refunds
  import opened RoundTrip

  /**
   What the payer at place `k` pays: nothing if the payers ahead of it have met the charge, else what they left of it,
   as far as the payer reaches. A payer with less than nothing that the charge comes to pays just that.
   */
  function Turn(b: Book, signer: Addr, paid: seq<Addr>, amount: int, k: nat): int
    requires k < |paid|
  {
    if Met(b, signer, paid[..k], amount) then 0
    else Least(Capacity(b, signer, paid[k]), amount - Offer(b, signer, paid[..k]))
  }

  function Least(x: int, y: int): int { if x <= y then x else y }

  /** What is left to a signer that is not on the list. */
  function LastTurn(b: Book, signer: Addr, paid: seq<Addr>, amount: int): int {
    if Met(b, signer, paid, amount) then 0 else amount - Offer(b, signer, paid)
  }

  /** The payers of the parts stand in the order of the list. */
  ghost predicate InListOrder(parts: seq<Part>, paid: seq<Addr>) {
    forall i, j :: 0 <= i < j < |parts| ==> Before(paid, parts[i].payer, parts[j].payer)
  }

  ghost predicate FromList(parts: seq<Part>, paid: seq<Addr>) {
    forall i :: 0 <= i < |parts| ==> parts[i].payer in paid
  }

  ghost predicate Before(list: seq<Addr>, x: Addr, y: Addr) {
    exists k, l :: 0 <= k < l < |list| && list[k] == x && list[l] == y
  }

  // ---------- Without debts: the familiar formula ----------

  lemma {:induction false} OfferGrows(b: Book, signer: Addr, paid: seq<Addr>, k: nat)
    requires k <= |paid| && (forall i :: 0 <= i < |paid| ==> Capacity(b, signer, paid[i]) >= 0)
    ensures 0 <= Offer(b, signer, paid[..k]) <= Offer(b, signer, paid)
  {
    if k > 0 {
      assert paid[..k][1..] == paid[1..][..k - 1];
      OfferGrows(b, signer, paid[1..], k - 1);
    } else if paid != [] {
      OfferGrows(b, signer, paid[1..], 0);
    }
  }

  /**
   Where no listed payer has less than nothing, each pays what those ahead of it leave of the charge, up to what it
   has: the first of the list first.
   */
  lemma TurnInRange(b: Book, signer: Addr, paid: seq<Addr>, amount: nat, k: nat)
    requires k < |paid| && (forall i :: 0 <= i < |paid| ==> Capacity(b, signer, paid[i]) >= 0)
    ensures var left := Least(Capacity(b, signer, paid[k]), amount - Offer(b, signer, paid[..k]));
            Turn(b, signer, paid, amount, k) == if left >= 0 then left else 0
  {
    var ahead := paid[..k];
    MetByPrefix(b, signer, ahead, amount);
    if m: nat :| m <= |ahead| && Offer(b, signer, ahead[..m]) >= amount { OfferGrows(b, signer, ahead, m); }
    assert ahead[..k] == ahead;
  }

  // ---------- The loop over payers takes them in turn ----------

  lemma {:induction false} ShareAppend(parts: seq<Part>, part: Part, u: Addr)
    requires forall i :: 0 <= i < |parts| ==> parts[i].payer != part.payer
    ensures ShareOf(parts + [part], u) == if u == part.payer then part.winc else ShareOf(parts, u)
  {
    if parts == [] {
      assert parts + [part] == [part];
    } else {
      assert (parts + [part])[1..] == parts[1..] + [part];
      ShareAppend(parts[1..], part, u);
    }
  }

  lemma {:induction false} NoShare(parts: seq<Part>, u: Addr)
    requires u !in PartPayers(parts)
    ensures ShareOf(parts, u) == 0
  {
    if parts != [] {
      assert parts[0] in parts;
      NoShare(parts[1..], u);
    }
  }

  lemma PlanPayerShare(b: Book, signer: Addr, payer: Addr, p: Planning, u: Addr)
    requires payer !in PartPayers(p.parts) && p.rest >= 1
    ensures var q := PlanPayer(b, signer, payer, p);
            && q.rest == p.rest - Least(Capacity(b, signer, payer), p.rest)
            && ShareOf(q.parts, u) == (if u == payer then Least(Capacity(b, signer, payer), p.rest) else ShareOf(p.parts, u))
  {
    var q := PlanPayer(b, signer, payer, p);
    if q.parts == p.parts {
      NoShare(p.parts, payer);
    } else {
      forall i | 0 <= i < |p.parts| ensures p.parts[i].payer != payer { assert p.parts[i] in p.parts; }
      ShareAppend(p.parts, q.parts[|p.parts|], u);
    }
  }

  /** The first payer's turn comes before any other; every later one comes to what that leaves. */
  lemma TurnStep(b: Book, signer: Addr, paid: seq<Addr>, rest: int, k: nat)
    requires k < |paid| && rest >= 1
    ensures var first := Least(Capacity(b, signer, paid[0]), rest);
            Turn(b, signer, paid, rest, k) ==
            if k == 0 then first else if rest == first then 0 else Turn(b, signer, paid[1..], rest - first, k - 1)
  {
    if k > 0 {
      var ahead, c := paid[..k], Capacity(b, signer, paid[0]);
      assert ahead[0] == paid[0] && ahead[1..] == paid[1..][..k - 1] && paid[1..][k - 1] == paid[k];
      assert Met(b, signer, ahead, rest) <==> Met(b, signer, paid[1..][..k - 1], rest - c);
      assert Offer(b, signer, ahead) == c + Offer(b, signer, paid[1..][..k - 1]);
      if c >= rest { assert Met(b, signer, paid[1..][..k - 1], rest - c); }
    } else {
      assert paid[..0] == [];
    }
  }

  /** Every listed payer pays its turn, and nobody else's part changes. */
  lemma {:induction false} ListInTurn(b: Book, signer: Addr, paid: seq<Addr>, p: Planning)
    requires Distinct(paid) && p.rest >= 0 && PartPayers(p.parts) !! Payers(paid)
    ensures var parts := PlanList(b, signer, paid, p).parts;
            && (forall k :: 0 <= k < |paid| ==>
                  ShareOf(parts, paid[k]) == if p.rest == 0 then 0 else Turn(b, signer, paid, p.rest, k))
            && (forall u :: u !in paid ==> ShareOf(parts, u) == ShareOf(p.parts, u))
    decreases |paid|
  {
    var parts := PlanList(b, signer, paid, p).parts;
    if p.rest == 0 {
      forall k | 0 <= k < |paid| ensures ShareOf(parts, paid[k]) == 0 {
        assert paid[k] in Payers(paid);
        NoShare(parts, paid[k]);
      }
    } else if paid != [] {
      var q := PlanPayer(b, signer, paid[0], p);
      assert paid[0] in Payers(paid) && Payers(paid[1..]) <= Payers(paid) && paid[0] !in paid[1..];
      forall u ensures ShareOf(q.parts, u) ==
          (if u == paid[0] then Least(Capacity(b, signer, paid[0]), p.rest) else ShareOf(p.parts, u))
      {
        PlanPayerShare(b, signer, paid[0], p, u);
      }
      assert PartPayers(q.parts) <= PartPayers(p.parts) + {paid[0]};
      ListInTurn(b, signer, paid[1..], q);
      forall k | 0 <= k < |paid| ensures ShareOf(parts, paid[k]) == Turn(b, signer, paid, p.rest, k) {
        TurnStep(b, signer, paid, p.rest, k);
        if k > 0 { assert paid[k] == paid[1..][k - 1]; }
      }
    }
  }

  /** What is appended to the parts is in the order of the list. */
  lemma {:induction false} ListInOrder(b: Book, signer: Addr, done: seq<Addr>, paid: seq<Addr>, p: Planning)
    requires InListOrder(p.parts, done) && FromList(p.parts, done)
    ensures var parts := PlanList(b, signer, paid, p).parts;
            InListOrder(parts, done + paid) && FromList(parts, done + paid)
    decreases |paid|
  {
    if paid == [] || p.rest == 0 {
      OrderExtends(p.parts, done, paid);
    } else {
      var q := PlanPayer(b, signer, paid[0], p);
      OrderExtends(p.parts, done, [paid[0]]);
      if q.parts != p.parts { OrderAppend(p.parts, q.parts[|p.parts|], done); }
      ListInOrder(b, signer, done + [paid[0]], paid[1..], q);
      assert done + [paid[0]] + paid[1..] == done + paid;
    }
  }

  lemma OrderExtends(parts: seq<Part>, done: seq<Addr>, more: seq<Addr>)
    requires InListOrder(parts, done)
    ensures InListOrder(parts, done + more)
  {
    forall i, j | 0 <= i < j < |parts| ensures Before(done + more, parts[i].payer, parts[j].payer) {
      BeforeExtends(done, more, parts[i].payer, parts[j].payer);
    }
  }

  lemma BeforeExtends(list: seq<Addr>, more: seq<Addr>, x: Addr, y: Addr)
    requires Before(list, x, y)
    ensures Before(list + more, x, y)
  {
    var k, l :| 0 <= k < l < |list| && list[k] == x && list[l] == y;
    assert (list + more)[k] == x && (list + more)[l] == y;
  }

  lemma OrderAppend(parts: seq<Part>, part: Part, done: seq<Addr>)
    requires InListOrder(parts, done) && FromList(parts, done)
    ensures InListOrder(parts + [part], done + [part.payer])
  {
    var all, list := parts + [part], done + [part.payer];
    OrderExtends(parts, done, [part.payer]);
    forall i, j | 0 <= i < j < |all| ensures Before(list, all[i].payer, all[j].payer) {
      if j == |parts| {
        var k :| 0 <= k < |done| && done[k] == parts[i].payer;
        assert list[k] == all[i].payer && list[|done|] == all[j].payer;
      } else {
        assert Before(list, parts[i].payer, parts[j].payer);
      }
    }
  }

  // ---------- A whole charge ----------

  /** The list a charge goes through: the signer comes last unless it is listed. */
  function Queue(signer: Addr, paid: seq<Addr>): seq<Addr> { if signer in paid then paid else paid + [signer] }

  /** A successful plan is what the loop over payers made of it, with what is left for an unlisted signer at the end. */
  lemma PlanEnds(b: Book, signer: Addr, amount: nat, paid: seq<Addr>, directive: Directive)
    requires amount >= 1 && Distinct(paid) && PlanSpend(b, signer, amount, paid, directive).Ok?
    ensures var p := PlanList(b, signer, paid, Planning([], amount, false));
            var parts := PlanSpend(b, signer, amount, paid, directive).value;
            && FromList(p.parts, paid) && p.rest >= 0
            && (p.rest == 0 ==> parts == p.parts && Met(b, signer, paid, amount))
            && (p.rest > 0 ==> signer !in paid && parts == p.parts + [Part(signer, p.rest, [])]
                               && p.rest == LastTurn(b, signer, paid, amount))
  {
    var start := Planning([], amount, false);
    ListInOrder(b, signer, [], paid, start);
    assert [] + paid == paid;
    PlanListRest(b, signer, paid, start);
    PlanListFits(b, signer, paid, start);
  }

  /** Every part of a plan in closed form. */
  lemma PlanInTurn(b: Book, signer: Addr, amount: nat, paid: seq<Addr>, directive: Directive)
    requires amount >= 1 && Distinct(paid) && PlanSpend(b, signer, amount, paid, directive).Ok?
    ensures var parts := PlanSpend(b, signer, amount, paid, directive).value;
            && (forall k :: 0 <= k < |paid| ==> ShareOf(parts, paid[k]) == Turn(b, signer, paid, amount, k))
            && (signer !in paid ==> ShareOf(parts, signer) == LastTurn(b, signer, paid, amount))
            && (forall u :: u !in paid && u != signer ==> ShareOf(parts, u) == 0)
  {
    var start := Planning([], amount, false);
    var p := PlanList(b, signer, paid, start);
    ListInTurn(b, signer, paid, start);
    PlanEnds(b, signer, amount, paid, directive);
    if p.rest > 0 {
      forall u ensures ShareOf(p.parts + [Part(signer, p.rest, [])], u) == if u == signer then p.rest else ShareOf(p.parts, u) {
        ShareAppend(p.parts, Part(signer, p.rest, []), u);
      }
    }
  }

  /** Its parts stand in the order of the list. */
  lemma PlanInOrder(b: Book, signer: Addr, amount: nat, paid: seq<Addr>, directive: Directive)
    requires amount >= 1 && Distinct(paid) && PlanSpend(b, signer, amount, paid, directive).Ok?
    ensures InListOrder(PlanSpend(b, signer, amount, paid, directive).value, Queue(signer, paid))
  {
    var start := Planning([], amount, false);
    var p := PlanList(b, signer, paid, start);
    ListInOrder(b, signer, [], paid, start);
    assert [] + paid == paid;
    PlanEnds(b, signer, amount, paid, directive);
    if p.rest > 0 {
      OrderAppend(p.parts, Part(signer, p.rest, []), paid);
    } else if signer !in paid {
      OrderExtends(p.parts, paid, [signer]);
    }
  }

  // ---------- The list a charge is planned on ----------

  /** `kept` stands in the order in which its members first occur. */
  ghost predicate FirstOrder(list: seq<Addr>, kept: seq<Addr>) {
    forall i, j, m :: 0 <= i < j < |kept| && 0 <= m < |list| && list[m] == kept[j] ==> kept[i] in list[..m]
  }

  lemma FirstOrderStep(seen: seq<Addr>, x: Addr, kept: seq<Addr>)
    requires FirstOrder(seen, kept) && Payers(kept) == Payers(seen)
    ensures var more := if x in kept then kept else kept + [x];
            FirstOrder(seen + [x], more) && Payers(more) == Payers(seen + [x])
  {
    var more := if x in kept then kept else kept + [x];
    assert forall y :: y in Payers(kept) <==> y in kept;
    assert forall y :: y in Payers(seen) <==> y in seen;
    forall i, j, m | 0 <= i < j < |more| && 0 <= m < |seen + [x]| && (seen + [x])[m] == more[j]
      ensures more[i] in (seen + [x])[..m]
    {
      assert more[i] in kept;
      if m < |seen| {
        assert (seen + [x])[..m] == seen[..m] && seen[m] in seen;
      } else {
        assert (seen + [x])[..m] == seen;
      }
    }
  }

  lemma {:induction false} DedupeFromOrder(seen: seq<Addr>, paidBy: seq<Addr>, kept: seq<Addr>)
    requires FirstOrder(seen, kept) && Payers(kept) == Payers(seen)
    ensures FirstOrder(seen + paidBy, DedupeFrom(paidBy, kept))
    decreases |paidBy|
  {
    if paidBy == [] {
      assert seen + paidBy == seen;
    } else {
      FirstOrderStep(seen, paidBy[0], kept);
      DedupeFromOrder(seen + [paidBy[0]], paidBy[1..], if paidBy[0] in kept then kept else kept + [paidBy[0]]);
      assert seen + [paidBy[0]] + paidBy[1..] == seen + paidBy;
    }
  }

  /** Each payer is taken where it is listed first. */
  lemma DedupeOrder(paidBy: seq<Addr>)
    ensures FirstOrder(paidBy, Dedupe(paidBy))
  {
    DedupeFromOrder([], paidBy, []);
    assert [] + paidBy == paidBy;
  }

  /** What a charge takes from the payer at place `k`: its turn, or nothing for a payer whose approvals are below zero. */
  function TakenAt(b: Book, signer: Addr, paid: seq<Addr>, amount: int, k: nat): int
    requires k < |paid|
  {
    var turn := Turn(b, signer, paid, amount, k);
    if paid[k] != signer && turn < 0 then 0 else turn
  }

  /** What a user is to pay of a charge. */
  ghost predicate Owes(b: Book, signer: Addr, paid: seq<Addr>, amount: int, u: Addr, w: int) {
    (exists k :: 0 <= k < |paid| && paid[k] == u && w == Turn(b, signer, paid, amount, k))
    || (u == signer && u !in paid && w == LastTurn(b, signer, paid, amount))
  }

  /**
   Who pays for a charge: each listed payer, in the order in which payers are first listed, what its turn comes to; an
   unlisted signer what is left at the end; nobody else.
   */
  lemma SpendInTurn(b: Book, signer: Addr, amount: nat, paidBy: seq<Addr>, directive: Directive, reason: AuditReason, change: Id)
    requires Keyed(b) && !IsApprovedSpend(reason) && amount >= 1
    requires Spend(b, signer, amount, paidBy, directive, reason, change).Ok?
    ensures Distinct(Dedupe(paidBy)) && Payers(Dedupe(paidBy)) == Payers(paidBy) && FirstOrder(paidBy, Dedupe(paidBy))
    ensures var e := Spend(b, signer, amount, paidBy, directive, reason, change).value.book;
            var paid := Dedupe(paidBy);
            && (forall k :: 0 <= k < |paid| ==>
                  Controlled(e, paid[k]) == Controlled(b, paid[k]) - TakenAt(b, signer, paid, amount, k))
            && (signer !in paid ==> Controlled(e, signer) == Controlled(b, signer) - LastTurn(b, signer, paid, amount))
            && (forall u :: u !in paid && u != signer ==> Controlled(e, u) == Controlled(b, u))
  {
    DedupeDistinct(paidBy);
    DedupeOrder(paidBy);
    SpendReady(b, signer, amount, paidBy, directive, reason, change);
    SpendTakes(b, signer, amount, paidBy, directive, reason, change);
    PlanInTurn(b, signer, amount, Dedupe(paidBy), directive);
  }

  /** The recorded shares say the same, in the same order: whoever is to pay something, and that. */
  lemma SharesInTurn(b: Book, signer: Addr, amount: nat, paidBy: seq<Addr>, directive: Directive, reason: AuditReason, change: Id)
    requires Keyed(b) && !IsApprovedSpend(reason) && amount >= 1
    requires Spend(b, signer, amount, paidBy, directive, reason, change).Ok?
    ensures var shares := SharesOf(Spend(b, signer, amount, paidBy, directive, reason, change).value.overflow, signer, amount);
            var paid := Dedupe(paidBy);
            && (forall i, j :: 0 <= i < j < |shares| ==> Before(Queue(signer, paid), shares[i].payer, shares[j].payer))
            && (forall u, w :: Share(u, w) in shares <==> w != 0 && Owes(b, signer, paid, amount, u, w))
  {
    var paid := Dedupe(paidBy);
    DedupeDistinct(paidBy);
    SpendReady(b, signer, amount, paidBy, directive, reason, change);
    RecordedShares(b, signer, amount, paidBy, directive, reason, change);
    PlanInOrder(b, signer, amount, paid, directive);
    var parts := PlanSpend(b, signer, amount, paid, directive).value;
    forall u, w ensures Share(u, w) in Strip(parts) <==> w != 0 && Owes(b, signer, paid, amount, u, w) {
      ShareListed(b, signer, parts, u, w);
      if w != 0 { OwesShare(b, signer, amount, paid, directive, u, w); }
    }
  }

  lemma OwesShare(b: Book, signer: Addr, amount: nat, paid: seq<Addr>, directive: Directive, u: Addr, w: int)
    requires amount >= 1 && Distinct(paid) && PlanSpend(b, signer, amount, paid, directive).Ok? && w != 0
    ensures Owes(b, signer, paid, amount, u, w) <==> ShareOf(PlanSpend(b, signer, amount, paid, directive).value, u) == w
  {
    PlanInTurn(b, signer, amount, paid, directive);
    if u in paid {
      var k :| 0 <= k < |paid| && paid[k] == u;
      assert forall l :: 0 <= l < |paid| && paid[l] == u ==> l == k;
    }
  }

  /** The recorded shares are the shares that are not zero. */
  lemma ShareListed(b: Book, signer: Addr, parts: seq<Part>, u: Addr, w: int)
    requires PlanFits(b, signer, parts)
    ensures Share(u, w) in Strip(parts) <==> w != 0 && ShareOf(parts, u) == w
  {
    if Share(u, w) in Strip(parts) {
      var i :| 0 <= i < |parts| && Strip(parts)[i] == Share(u, w);
      ShareAt(parts, i);
    } else if ShareOf(parts, u) != 0 {
      var i := PartOf(parts, u);
      assert Strip(parts)[i] == Share(u, parts[i].winc);
    }
  }

  lemma {:induction false} PartOf(parts: seq<Part>, u: Addr) returns (i: nat)
    requires ShareOf(parts, u) != 0
    ensures i < |parts| && parts[i].payer == u && parts[i].winc == ShareOf(parts, u)
  {
    if parts[0].payer == u {
      i := 0;
    } else {
      i := PartOf(parts[1..], u);
      i := i + 1;
    }
  }

  /** With distinct payers, a part is its payer's share. */
  lemma {:induction false} ShareAt(parts: seq<Part>, i: nat)
    requires i < |parts| && (forall k, l :: 0 <= k < l < |parts| ==> parts[k].payer != parts[l].payer)
    ensures ShareOf(parts, parts[i].payer) == parts[i].winc
  {
    if i > 0 {
      assert parts[1..][i - 1] == parts[i];
      ShareAt(parts[1..], i - 1);
    }
  }
}
