/**
 Payers with less than nothing: a listed signer in debt, or a payer whose approvals to the signer sum below zero.
 For them the order of the payer list can decide a charge, and a charge can plan a negative part, which the audit log
 writes illegibly and which, for a payer, draws nothing.
 */
module Debt {
  import opened Wrappers
  import opened Ledger
  import opened Approvals
  import opened Allocation
  import opened Spending

  // ---------- When the order of the payer list matters ----------

  function Gain(x: int): int { if x > 0 then x else 0 }

  /** What the payers that have something offer together; no order involved. */
  ghost function PositiveFunds(b: Book, signer: Addr, payers: set<Addr>): int {
    if payers == {} then 0
    else
      var p :| p in payers;
      Gain(Capacity(b, signer, p)) + PositiveFunds(b, signer, payers - {p})
  }

  /** Those that have something reach the charge, but with the debts of the others added to it they do not. */
  ghost predicate OrderMatters(b: Book, signer: Addr, amount: nat, payers: set<Addr>, directive: Directive) {
    Usable(b, signer, payers, directive) < amount <= PositiveFunds(b, signer, payers)
  }

  lemma {:induction false} PositiveFundsRemove(b: Book, signer: Addr, payers: set<Addr>, q: Addr)
    requires q in payers
    ensures PositiveFunds(b, signer, payers) == Gain(Capacity(b, signer, q)) + PositiveFunds(b, signer, payers - {q})
    decreases payers
  {
    var p :| p in payers
             && PositiveFunds(b, signer, payers) == Gain(Capacity(b, signer, p)) + PositiveFunds(b, signer, payers - {p});
    if p != q {
      PositiveFundsRemove(b, signer, payers - {p}, q);
      PositiveFundsRemove(b, signer, payers - {q}, p);
      assert payers - {p} - {q} == payers - {q} - {p};
    }
  }

  /** The stretch that meets a charge offers no more than the payers that have something. */
  lemma {:induction false} MetBound(b: Book, signer: Addr, paid: seq<Addr>, rest: int)
    requires Distinct(paid) && Met(b, signer, paid, rest)
    ensures PositiveFunds(b, signer, Payers(paid)) >= Gain(rest)
  {
    PositiveNonNegative(b, signer, Payers(paid));
    if rest > 0 {
      MetBound(b, signer, paid[1..], rest - Capacity(b, signer, paid[0]));
      PositiveFundsRemove(b, signer, Payers(paid), paid[0]);
      assert Payers(paid) - {paid[0]} == Payers(paid[1..]);
    }
  }

  lemma {:induction false} PositiveNonNegative(b: Book, signer: Addr, payers: set<Addr>)
    ensures PositiveFunds(b, signer, payers) >= 0
    decreases payers
  {
    if payers != {} {
      var p :| p in payers;
      PositiveFundsRemove(b, signer, payers, p);
      PositiveNonNegative(b, signer, payers - {p});
    }
  }

  /** The payers that have something, in list order; and the others. */
  function Givers(b: Book, signer: Addr, paid: seq<Addr>): seq<Addr> {
    if paid == [] then []
    else if Capacity(b, signer, paid[0]) > 0 then [paid[0]] + Givers(b, signer, paid[1..])
    else Givers(b, signer, paid[1..])
  }

  function Debtors(b: Book, signer: Addr, paid: seq<Addr>): seq<Addr> {
    if paid == [] then []
    else if Capacity(b, signer, paid[0]) > 0 then Debtors(b, signer, paid[1..])
    else [paid[0]] + Debtors(b, signer, paid[1..])
  }

  lemma {:induction false} GiversIn(b: Book, signer: Addr, paid: seq<Addr>, x: Addr)
    ensures x in Givers(b, signer, paid) <==> x in paid && Capacity(b, signer, x) > 0
    ensures x in Debtors(b, signer, paid) <==> x in paid && Capacity(b, signer, x) <= 0
  {
    if paid != [] { GiversIn(b, signer, paid[1..], x); }
  }

  lemma {:induction false} GiversDistinct(b: Book, signer: Addr, paid: seq<Addr>)
    requires Distinct(paid)
    ensures Distinct(Givers(b, signer, paid)) && Distinct(Debtors(b, signer, paid))
    ensures Offer(b, signer, Givers(b, signer, paid)) == PositiveFunds(b, signer, Payers(paid))
  {
    if paid != [] {
      GiversDistinct(b, signer, paid[1..]);
      forall x | x in paid[1..] ensures x != paid[0] { }
      forall x ensures x in Givers(b, signer, paid[1..]) || x in Debtors(b, signer, paid[1..]) ==> x in paid[1..] {
        GiversIn(b, signer, paid[1..], x);
      }
      PositiveFundsRemove(b, signer, Payers(paid), paid[0]);
      assert Payers(paid) - {paid[0]} == Payers(paid[1..]);
    }
  }

  /** The two orders that decide: who has something first, or last. */
  lemma SplitPayers(b: Book, signer: Addr, paid: seq<Addr>)
    requires Distinct(paid)
    ensures var givers, debtors := Givers(b, signer, paid), Debtors(b, signer, paid);
            && Distinct(givers + debtors) && Distinct(debtors + givers)
            && Payers(givers + debtors) == Payers(debtors + givers) == Payers(paid)
            && (forall x :: x in givers ==> Capacity(b, signer, x) > 0)
            && (forall x :: x in debtors ==> Capacity(b, signer, x) <= 0)
  {
    var givers, debtors := Givers(b, signer, paid), Debtors(b, signer, paid);
    GiversDistinct(b, signer, paid);
    forall x ensures (x in givers <==> x in paid && Capacity(b, signer, x) > 0)
                     && (x in debtors <==> x in paid && Capacity(b, signer, x) <= 0)
    {
      GiversIn(b, signer, paid, x);
    }
    DistinctJoin(givers, debtors);
    DistinctJoin(debtors, givers);
  }

  lemma DistinctJoin(xs: seq<Addr>, ys: seq<Addr>)
    requires Distinct(xs) && Distinct(ys) && (forall x :: x in xs ==> x !in ys)
    ensures Distinct(xs + ys)
  {
    var all := xs + ys;
    forall i, j | 0 <= i < j < |all| ensures all[i] != all[j] {
      if i < |xs| <= j { assert all[i] in xs && all[j] in ys; }
    }
  }

  lemma TwoOrders(b: Book, signer: Addr, paid: seq<Addr>, amount: nat) returns (best: seq<Addr>, worst: seq<Addr>)
    requires Distinct(paid) && amount >= 1
    ensures Distinct(best) && Distinct(worst) && Payers(best) == Payers(worst) == Payers(paid)
    ensures amount <= PositiveFunds(b, signer, Payers(paid)) ==> Met(b, signer, best, amount)
    ensures Met(b, signer, worst, amount) ==> Offer(b, signer, worst) >= amount
  {
    var givers, debtors := Givers(b, signer, paid), Debtors(b, signer, paid);
    best, worst := givers + debtors, debtors + givers;
    SplitPayers(b, signer, paid);
    GiversDistinct(b, signer, paid);
    MetByPrefix(b, signer, best, amount);
    assert best[..|givers|] == givers;
    if amount <= PositiveFunds(b, signer, Payers(paid)) { assert Offer(b, signer, best[..|givers|]) >= amount; }
    if Met(b, signer, worst, amount) { MetWorst(b, signer, debtors, givers, amount); }
  }

  lemma {:induction false} MetWorst(b: Book, signer: Addr, debtors: seq<Addr>, givers: seq<Addr>, rest: int)
    requires forall x :: x in debtors ==> Capacity(b, signer, x) <= 0
    requires forall x :: x in givers ==> Capacity(b, signer, x) > 0
    requires Met(b, signer, debtors + givers, rest) && (rest >= 1 || debtors == [])
    ensures Offer(b, signer, debtors + givers) >= rest
    decreases |debtors| + |givers|
  {
    if debtors != [] {
      assert (debtors + givers)[1..] == debtors[1..] + givers;
      assert debtors[0] in debtors;
      MetWorst(b, signer, debtors[1..], givers, rest - Capacity(b, signer, debtors[0]));
    } else {
      assert debtors + givers == givers;
      OfferPositive(b, signer, givers);
      if rest >= 1 {
        assert givers[0] in givers;
        assert [] + givers[1..] == givers[1..];
        MetWorst(b, signer, [], givers[1..], rest - Capacity(b, signer, givers[0]));
      }
    }
  }

  lemma {:induction false} OfferPositive(b: Book, signer: Addr, givers: seq<Addr>)
    requires forall x :: x in givers ==> Capacity(b, signer, x) > 0
    ensures Offer(b, signer, givers) >= 0
  {
    if givers != [] {
      assert givers[0] in givers;
      OfferPositive(b, signer, givers[1..]);
    }
  }

  lemma {:induction false} DedupeFromDistinctList(paid: seq<Addr>, kept: seq<Addr>)
    requires Distinct(kept + paid)
    ensures DedupeFrom(paid, kept) == kept + paid
  {
    if paid != [] {
      assert (kept + paid)[|kept|] == paid[0];
      assert kept + paid == (kept + [paid[0]]) + paid[1..];
      assert forall i :: 0 <= i < |kept| ==> (kept + paid)[i] == kept[i];
      DedupeFromDistinctList(paid[1..], kept + [paid[0]]);
    }
  }

  /** A list without repetitions is its own payer list. */
  lemma DedupeSame(paid: seq<Addr>)
    requires Distinct(paid)
    ensures Dedupe(paid) == paid
  {
    assert [] + paid == paid;
    DedupeFromDistinctList(paid, []);
  }

  ghost predicate SameVerdict(b: Book, signer: Addr, amount: nat, paidBy: seq<Addr>, other: seq<Addr>, directive: Directive,
                              reason: AuditReason, change: Id)
  {
    Spend(b, signer, amount, other, directive, reason, change).Ok? <==> Spend(b, signer, amount, paidBy, directive, reason, change).Ok?
  }

  /** Where the order does not matter the usable funds decide, for every list of these payers. */
  lemma FundsDecide(b: Book, signer: Addr, amount: nat, paidBy: seq<Addr>, directive: Directive, reason: AuditReason, change: Id)
    requires Keyed(b) && !IsApprovedSpend(reason) && amount >= 1
    requires !OrderMatters(b, signer, amount, Payers(paidBy), directive)
    ensures Spend(b, signer, amount, paidBy, directive, reason, change).Ok? <==> Usable(b, signer, Payers(paidBy), directive) >= amount
  {
    SpendComplete(b, signer, amount, paidBy, directive, reason, change);
    DedupeDistinct(paidBy);
    if Met(b, signer, Dedupe(paidBy), amount) { MetBound(b, signer, Dedupe(paidBy), amount); }
  }

  /** The verdict is the same for every order and repetition of the payer list if and only if no debt stands between. */
  lemma OrderFreeIff(b: Book, signer: Addr, amount: nat, paidBy: seq<Addr>, directive: Directive, reason: AuditReason, change: Id)
    requires Keyed(b) && !IsApprovedSpend(reason) && amount >= 1
    ensures (forall other :: Payers(other) == Payers(paidBy) ==> SameVerdict(b, signer, amount, paidBy, other, directive, reason, change))
            <==> !OrderMatters(b, signer, amount, Payers(paidBy), directive)
  {
    if OrderMatters(b, signer, amount, Payers(paidBy), directive) {
      DedupeDistinct(paidBy);
      var best, worst := TwoOrders(b, signer, Dedupe(paidBy), amount);
      DedupeSame(best);
      DedupeSame(worst);
      OfferIsFunds(b, signer, worst);
      SpendComplete(b, signer, amount, best, directive, reason, change);
      SpendComplete(b, signer, amount, worst, directive, reason, change);
      assert !(SameVerdict(b, signer, amount, paidBy, best, directive, reason, change)
               && SameVerdict(b, signer, amount, paidBy, worst, directive, reason, change));
    } else {
      forall other | Payers(other) == Payers(paidBy) ensures SameVerdict(b, signer, amount, paidBy, other, directive, reason, change) {
        FundsDecide(b, signer, amount, paidBy, directive, reason, change);
        FundsDecide(b, signer, amount, other, directive, reason, change);
      }
    }
  }

  /** In particular it does not matter where nobody on the list has less than nothing. */
  lemma {:induction false} NoDebtNoOrder(b: Book, signer: Addr, amount: nat, payers: set<Addr>, directive: Directive)
    requires forall p :: p in payers ==> Capacity(b, signer, p) >= 0
    ensures PositiveFunds(b, signer, payers) == Funds(b, signer, payers)
    ensures !OrderMatters(b, signer, amount, payers, directive)
    decreases payers
  {
    if payers != {} {
      var p :| p in payers;
      NoDebtNoOrder(b, signer, amount, payers - {p}, directive);
      FundsRemove(b, signer, payers, p);
      PositiveFundsRemove(b, signer, payers, p);
    }
  }

  /** A signer in debt by 5, and a payer whose one approval is worth 5. */
  function DebtBook(): Book {
    Book(map["s" := -5, "p" := 0], [Approval("x", "p", "s", 5, 0, None)], [], [])
  }

  lemma DebtBookCapacity()
    ensures WellFormed(DebtBook())
    ensures Capacity(DebtBook(), "s", "s") == -5 && Capacity(DebtBook(), "s", "p") == 5
  {
    PickOne(DebtBook().active[0], Between("p", "s"));
  }

  lemma DedupeTwo(p: Addr, q: Addr)
    requires p != q
    ensures Dedupe([p, q]) == [p, q]
  {
    var both := [p, q];
    assert both[1..] == [q] && [q][1..] == [];
    assert DedupeFrom(both, []) == DedupeFrom([q], [] + [p]);
    assert [] + [p] == [p];
    assert DedupeFrom([q], [p]) == DedupeFrom([], [p] + [q]);
  }

  /**
   With a signer in debt (after a chargeback) the order does matter: the debt is added to the charge only when
   the list reaches the signer.
   */
  lemma DebtMakesOrderMatter()
    ensures WellFormed(DebtBook()) && Balance(DebtBook(), "s") < 0
    ensures Spend(DebtBook(), "s", 5, ["p", "s"], ListOrSigner, Upload, "d").Ok?
    ensures Spend(DebtBook(), "s", 5, ["s", "p"], ListOrSigner, Upload, "d").Err?
  {
    DebtBookCapacity();
    PayerAhead();
    SignerAhead();
  }

  lemma PayerAhead()
    ensures Spend(DebtBook(), "s", 5, ["p", "s"], ListOrSigner, Upload, "d").Ok?
  {
    var b := DebtBook();
    DebtBookCapacity();
    DedupeTwo("p", "s");
    SpendComplete(b, "s", 5, ["p", "s"], ListOrSigner, Upload, "d");
    assert ["p", "s"][1..] == ["s"];
    assert Met(b, "s", ["s"], 5 - Capacity(b, "s", "p"));
  }

  lemma SignerAhead()
    ensures Spend(DebtBook(), "s", 5, ["s", "p"], ListOrSigner, Upload, "d").Err?
  {
    var b := DebtBook();
    DebtBookCapacity();
    DedupeTwo("s", "p");
    SpendComplete(b, "s", 5, ["s", "p"], ListOrSigner, Upload, "d");
    OfferIsFunds(b, "s", ["s", "p"]);
    assert ["s", "p"][1..] == ["p"] && ["p"][1..] == [];
    assert Offer(b, "s", ["p"]) == Capacity(b, "s", "p") + Offer(b, "s", []);
    assert Offer(b, "s", ["s", "p"]) == Capacity(b, "s", "s") + Offer(b, "s", ["p"]);
    assert ["s", "p"][0] in Payers(["s", "p"]);
    assert !Met(b, "s", [], 5) && !Met(b, "s", ["p"], 10);
  }

  // ---------- When a part is negative ----------

  ghost predicate Negative(parts: seq<Part>, u: Addr) { exists i :: 0 <= i < |parts| && parts[i].payer == u && parts[i].winc < 0 }

  lemma NegativeAppend(parts: seq<Part>, part: Part, u: Addr)
    ensures Negative(parts + [part], u) <==> Negative(parts, u) || (part.payer == u && part.winc < 0)
  {
    if Negative(parts, u) {
      var i :| 0 <= i < |parts| && parts[i].payer == u && parts[i].winc < 0;
      assert (parts + [part])[i].winc < 0 && (parts + [part])[i].payer == u;
    }
    assert (parts + [part])[|parts|] == part;
  }

  /** The charge comes to this payer with something left: no stretch of the list ahead of it offers the charge. */
  predicate Reaches(b: Book, signer: Addr, paid: seq<Addr>, u: Addr, rest: int) {
    rest >= 1 && paid != [] && (paid[0] == u || Reaches(b, signer, paid[1..], u, rest - Capacity(b, signer, paid[0])))
  }

  lemma NegativePass(b: Book, signer: Addr, payer: Addr, p: Planning, u: Addr)
    requires p.rest >= 1
    ensures var q := PlanPayer(b, signer, payer, p);
            Negative(q.parts, u) <==> Negative(p.parts, u) || (payer == u && Capacity(b, signer, u) < 0)
  {
    var q := PlanPayer(b, signer, payer, p);
    if q != p { NegativeAppend(p.parts, q.parts[|p.parts|], u); }
  }

  /** The list plans a negative part for a user exactly when it comes to it and the user has less than nothing. */
  lemma {:induction false} NegativeList(b: Book, signer: Addr, paid: seq<Addr>, p: Planning, u: Addr)
    requires p.rest >= 0
    ensures Negative(PlanList(b, signer, paid, p).parts, u) <==>
            Negative(p.parts, u) || (Capacity(b, signer, u) < 0 && Reaches(b, signer, paid, u, p.rest))
    decreases |paid|
  {
    if paid != [] && p.rest != 0 {
      NegativePass(b, signer, paid[0], p, u);
      NegativeList(b, signer, paid[1..], PlanPayer(b, signer, paid[0], p), u);
    }
  }

  /** The charge comes to a user that has less than nothing: a debtor, or a payer whose approvals sum below zero. */
  predicate ReachesDebtor(b: Book, signer: Addr, amount: nat, paidBy: seq<Addr>, u: Addr) {
    Capacity(b, signer, u) < 0 && Reaches(b, signer, Dedupe(paidBy), u, amount)
  }

  /** A plan gives a user a negative part if and only if the charge comes to it as a debtor. */
  lemma NegativePlan(b: Book, signer: Addr, amount: nat, paidBy: seq<Addr>, directive: Directive, u: Addr)
    requires PlanSpend(b, signer, amount, Dedupe(paidBy), directive).Ok?
    ensures Negative(PlanSpend(b, signer, amount, Dedupe(paidBy), directive).value, u) <==> ReachesDebtor(b, signer, amount, paidBy, u)
  {
    var paid := Dedupe(paidBy);
    if paid != [] {
      var p := PlanList(b, signer, paid, Planning([], amount, false));
      NegativeList(b, signer, paid, Planning([], amount, false), u);
      if p.rest > 0 { NegativeAppend(p.parts, Part(signer, p.rest, []), u); }
    }
  }

  /** The charge comes to a payer, not the signer, whose approvals sum below zero. */
  ghost predicate ReachesShortPayer(b: Book, signer: Addr, amount: nat, paidBy: seq<Addr>) {
    exists u :: u != signer && ReachesDebtor(b, signer, amount, paidBy, u)
  }

  /**
   Conservation of a spend: what it takes from its payers together is what it is for, if and only if it comes to no
   payer whose approvals sum below zero; otherwise it takes more.
   */
  lemma SpendConserves(b: Book, signer: Addr, amount: nat, paidBy: seq<Addr>, directive: Directive, reason: AuditReason, change: Id)
    requires Keyed(b) && !IsApprovedSpend(reason) && amount >= 1
    requires Spend(b, signer, amount, paidBy, directive, reason, change).Ok?
    ensures var parts := PlanSpend(b, signer, amount, Dedupe(paidBy), directive).value;
            && TakenSum(parts, signer) >= amount
            && (TakenSum(parts, signer) == amount <==> !ReachesShortPayer(b, signer, amount, paidBy))
  {
    SpendReady(b, signer, amount, paidBy, directive, reason, change);
    var parts := PlanSpend(b, signer, amount, Dedupe(paidBy), directive).value;
    TakenExact(parts, signer);
    forall u ensures Negative(parts, u) <==> ReachesDebtor(b, signer, amount, paidBy, u) {
      NegativePlan(b, signer, amount, paidBy, directive, u);
    }
    if PayerShort(parts, signer) {
      var i :| 0 <= i < |parts| && parts[i].payer != signer && parts[i].winc < 0;
      assert Negative(parts, parts[i].payer);
    }
  }

  /** Approvals in range never sum below zero, so there a charge always conserves. */
  lemma SoundConserves(b: Book, signer: Addr, amount: nat, paidBy: seq<Addr>)
    requires WellFormed(b)
    ensures !ReachesShortPayer(b, signer, amount, paidBy)
  {
    forall u | u != signer ensures Capacity(b, signer, u) >= 0 { SelectedSound(b.active, b.inactive, Between(u, signer)); }
  }

  // ---------- What the log then shows ----------

  lemma LegibleAppend(log: seq<Audit>, row: Audit, u: Addr)
    ensures Legible(log + [row], u) <==> Legible(log, u) && (row.user == u ==> row.Audit?)
  {
    assert (log + [row])[|log|] == row;
    assert forall i :: 0 <= i < |log| ==> (log + [row])[i] == log[i];
  }

  lemma {:induction false} ApplyLegible(b: Book, parts: seq<Part>, c: Charge, u: Addr)
    requires ApplyParts(b, parts, c).Ok?
    ensures Legible(ApplyParts(b, parts, c).value.audit, u) <==>
            Legible(b.audit, u) && forall i :: 0 <= i < |parts| && parts[i].payer == u ==> parts[i].winc >= 0
    decreases |parts|
  {
    if parts != [] {
      var e := ApplyPart(b, parts[0], c).value;
      var row := e.audit[|b.audit|];
      LegibleAppend(b.audit, row, u);
      ApplyLegible(e, parts[1..], c, u);
      assert forall i :: 0 <= i < |parts[1..]| ==> parts[1..][i] == parts[i + 1];
    }
  }

  /** A charge leaves a user's log legible exactly when it does not come to that user as a debtor. */
  lemma SpendLegible(b: Book, signer: Addr, amount: nat, paidBy: seq<Addr>, directive: Directive, reason: AuditReason, change: Id, u: Addr)
    requires Spend(b, signer, amount, paidBy, directive, reason, change).Ok?
    ensures Legible(Spend(b, signer, amount, paidBy, directive, reason, change).value.book.audit, u) <==>
            Legible(b.audit, u) && !ReachesDebtor(b, signer, amount, paidBy, u)
  {
    if amount >= 1 {
      NegativePlan(b, signer, amount, paidBy, directive, u);
      var parts := PlanSpend(b, signer, amount, Dedupe(paidBy), directive).value;
      ApplyLegible(b, parts, Charge(signer, Balance(b, signer), reason, change), u);
    }
  }
}
