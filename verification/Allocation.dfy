/**
 Splitting one charge over an ordered payer list, and applying the split: each listed payer pays from the
 approvals it gave the signer, the signer pays from its balance.
 */
module Allocation {
  import opened Wrappers
  import opened Ledger
  import opened Approvals

  datatype Directive = ListOnly | ListOrSigner

  /** One payer's part of a charge, with the approvals it is to be drawn from. */
  datatype Part = Part(payer: Addr, winc: int, rows: seq<Approval>)

  /** What a reservation stores of a part (`overflow_spend`). */
  datatype Share = Share(payer: Addr, winc: int)

  datatype Planning = Planning(parts: seq<Part>, rest: int, signerListed: bool)

  datatype Spent = Spent(book: Book, overflow: Option<seq<Share>>)

  // ---------- The allocator ----------

  /** Each payer once, where it is listed first. */
  function DedupeFrom(paidBy: seq<Addr>, kept: seq<Addr>): seq<Addr> {
    if paidBy == [] then kept
    else DedupeFrom(paidBy[1..], if paidBy[0] in kept then kept else kept + [paidBy[0]])
  }

  function Dedupe(paidBy: seq<Addr>): seq<Addr> { DedupeFrom(paidBy, []) }

  /** One pass of the loop over payers. */
  function PlanPayer(b: Book, signer: Addr, payer: Addr, p: Planning): Planning {
    if payer == signer then
      var amount := if Balance(b, signer) >= p.rest then p.rest else Balance(b, signer);
      if amount != 0 then Planning(p.parts + [Part(signer, amount, [])], p.rest - amount, true) else p
    else
      var rows := Pick(b.active, Between(payer, signer));
      var amount := if SumLeft(rows) >= p.rest then p.rest else SumLeft(rows);
      if rows == [] || amount == 0 then p else Planning(p.parts + [Part(payer, amount, rows)], p.rest - amount, p.signerListed)
  }

  function PlanList(b: Book, signer: Addr, paid: seq<Addr>, p: Planning): Planning
    decreases |paid|
  {
    if paid == [] || p.rest == 0 then p else PlanList(b, signer, paid[1..], PlanPayer(b, signer, paid[0], p))
  }

  function PlanSpend(b: Book, signer: Addr, amount: nat, paid: seq<Addr>, directive: Directive): Result<seq<Part>, Error> {
    if paid == [] then Ok([Part(signer, amount, [])])
    else
      var p := PlanList(b, signer, paid, Planning([], amount, false));
      if p.rest > 0 && directive.ListOrSigner? && !p.signerListed && Balance(b, signer) >= p.rest then
        Ok(p.parts + [Part(signer, p.rest, [])])
      else if p.rest > 0 then Err(InsufficientBalance(signer))
      else Ok(p.parts)
  }

  /** Stored unless the signer is the only payer. */
  function OverflowOf(parts: seq<Part>, signer: Addr): Option<seq<Share>>
    requires parts != []
  {
    if |parts| > 1 || parts[0].payer != signer then
      Some(Strip(parts))
    else None
  }

  function Strip(parts: seq<Part>): seq<Share> {
    seq(|parts|, i requires 0 <= i < |parts| => Share(parts[i].payer, parts[i].winc))
  }

  // ---------- Applying a plan ----------

  datatype Charge = Charge(signer: Addr, balance: int, reason: AuditReason, change: Id)

  function ApprovedReason(reason: AuditReason): AuditReason {
    if reason.Upload? then ApprovedUpload else ApprovedArnsPurchaseOrder
  }

  function ApplyPart(b: Book, part: Part, c: Charge): Result<Book, Error> {
    if part.payer != c.signer then
      var e := DrawFrom(Draw(b.active, b.inactive, part.winc), part.rows);
      if e.rest > 0 then Err(InsufficientBalance(part.payer))
      else Ok(b.(active := e.active, inactive := e.inactive,
                 audit := b.audit + [Withdrawal(part.payer, part.winc, ApprovedReason(c.reason), Some(c.change))]))
    else if c.balance - part.winc < 0 then Err(InsufficientBalance(part.payer))
    else Ok(b.(users := b.users[c.signer := c.balance - part.winc],
               audit := b.audit + [Withdrawal(c.signer, part.winc, c.reason, Some(c.change))]))
  }

  function ApplyParts(b: Book, parts: seq<Part>, c: Charge): Result<Book, Error>
    decreases |parts|
  {
    if parts == [] then Ok(b)
    else
      var r := ApplyPart(b, parts[0], c);
      if r.Err? then r else ApplyParts(r.value, parts[1..], c)
  }

  /** useBalanceAndApprovals. An empty plan (a zero charge on listed payers) is the source's TypeError. */
  function Spend(b: Book, signer: Addr, amount: nat, paidBy: seq<Addr>, directive: Directive,
                 reason: AuditReason, change: Id): Result<Spent, Error> {
    var plan := PlanSpend(b, signer, amount, Dedupe(paidBy), directive);
    if plan.Err? then Err(plan.error)
    else if plan.value == [] then Err(EmptyPlan)
    else
      var overflow := OverflowOf(plan.value, signer);
      if amount < 1 then Ok(Spent(b, overflow))
      else
        var r := ApplyParts(b, plan.value, Charge(signer, Balance(b, signer), reason, change));
        if r.Err? then Err(r.error) else Ok(Spent(r.value, overflow))
  }

  // ---------- Reference: the funds a payer list offers ----------

  function Capacity(b: Book, signer: Addr, payer: Addr): int {
    if payer == signer then Balance(b, signer) else Lent(b, Between(payer, signer))
  }

  /** What a set of payers can pay for the signer; no order involved. */
  ghost function Funds(b: Book, signer: Addr, payers: set<Addr>): int {
    if payers == {} then 0
    else
      var p :| p in payers;
      Capacity(b, signer, p) + Funds(b, signer, payers - {p})
  }

  ghost function Payers(paidBy: seq<Addr>): set<Addr> { set p | p in paidBy }

  /** Funds of the listed payers, plus the signer's balance where the directive lets an unlisted signer pay. */
  ghost function Usable(b: Book, signer: Addr, payers: set<Addr>, directive: Directive): int {
    Funds(b, signer, payers)
    + (if signer !in payers && (payers == {} || directive.ListOrSigner?) && Balance(b, signer) > 0 then Balance(b, signer) else 0)
  }

  function Offer(b: Book, signer: Addr, paid: seq<Addr>): int {
    if paid == [] then 0 else Capacity(b, signer, paid[0]) + Offer(b, signer, paid[1..])
  }

  /** Some stretch of the list, from its front on, offers at least `rest`. */
  predicate Met(b: Book, signer: Addr, paid: seq<Addr>, rest: int) {
    rest <= 0 || (paid != [] && Met(b, signer, paid[1..], rest - Capacity(b, signer, paid[0])))
  }

  ghost predicate Distinct(xs: seq<Addr>) {
    forall i, j :: 0 <= i < j < |xs| ==> xs[i] != xs[j]
  }

  lemma {:induction false} FundsRemove(b: Book, signer: Addr, payers: set<Addr>, q: Addr)
    requires q in payers
    ensures Funds(b, signer, payers) == Capacity(b, signer, q) + Funds(b, signer, payers - {q})
    decreases payers
  {
    var p :| p in payers && Funds(b, signer, payers) == Capacity(b, signer, p) + Funds(b, signer, payers - {p});
    if p != q {
      FundsRemove(b, signer, payers - {p}, q);
      FundsRemove(b, signer, payers - {q}, p);
      assert payers - {p} - {q} == payers - {q} - {p};
    }
  }

  lemma {:induction false} OfferIsFunds(b: Book, signer: Addr, paid: seq<Addr>)
    requires Distinct(paid)
    ensures Offer(b, signer, paid) == Funds(b, signer, Payers(paid))
  {
    if paid != [] {
      OfferIsFunds(b, signer, paid[1..]);
      FundsRemove(b, signer, Payers(paid), paid[0]);
      assert Payers(paid) - {paid[0]} == Payers(paid[1..]);
    }
  }

  lemma {:induction false} DedupeFromDistinct(paidBy: seq<Addr>, kept: seq<Addr>)
    requires Distinct(kept)
    ensures Distinct(DedupeFrom(paidBy, kept))
    ensures Payers(DedupeFrom(paidBy, kept)) == Payers(paidBy) + Payers(kept)
  {
    if paidBy != [] {
      DedupeFromDistinct(paidBy[1..], if paidBy[0] in kept then kept else kept + [paidBy[0]]);
    }
  }

  lemma DedupeDistinct(paidBy: seq<Addr>)
    ensures Distinct(Dedupe(paidBy)) && Payers(Dedupe(paidBy)) == Payers(paidBy)
    ensures Dedupe(paidBy) == [] <==> paidBy == []
  {
    DedupeFromDistinct(paidBy, []);
    if paidBy != [] { assert paidBy[0] in Payers(paidBy); }
    if Dedupe(paidBy) != [] { assert Dedupe(paidBy)[0] in Payers(Dedupe(paidBy)); }
  }

  lemma {:induction false} MetByPrefix(b: Book, signer: Addr, paid: seq<Addr>, rest: int)
    ensures Met(b, signer, paid, rest) <==> exists k: nat :: k <= |paid| && Offer(b, signer, paid[..k]) >= rest
  {
    assert paid[..0] == [];
    if rest > 0 && paid != [] {
      var first := Capacity(b, signer, paid[0]);
      MetByPrefix(b, signer, paid[1..], rest - first);
      forall k: nat | k < |paid| ensures Offer(b, signer, paid[..k + 1]) == first + Offer(b, signer, paid[1..][..k]) {
        assert paid[..k + 1][1..] == paid[1..][..k];
      }
      if k: nat :| k <= |paid| && Offer(b, signer, paid[..k]) >= rest {
        assert k > 0 && Offer(b, signer, paid[1..][..k - 1]) >= rest - first;
      }
      if k: nat :| k <= |paid[1..]| && Offer(b, signer, paid[1..][..k]) >= rest - first {
        assert Offer(b, signer, paid[..k + 1]) >= rest;
      }
    } else if rest <= 0 {
      assert Offer(b, signer, paid[..0]) >= rest;
    }
  }

  /** In particular the whole list may be that stretch. */
  lemma {:induction false} OfferMeets(b: Book, signer: Addr, paid: seq<Addr>, rest: int)
    requires Offer(b, signer, paid) >= rest
    ensures Met(b, signer, paid, rest)
  {
    if rest > 0 && paid != [] { OfferMeets(b, signer, paid[1..], rest - Capacity(b, signer, paid[0])); }
  }

  // ---------- The plan is sound and complete ----------

  function PartsSum(parts: seq<Part>): int {
    if parts == [] then 0 else PartsSum(parts[..|parts| - 1]) + parts[|parts| - 1].winc
  }

  /** A part that its payer can pay. Only who has less than nothing can be given a negative part. */
  ghost predicate Fits(b: Book, signer: Addr, part: Part) {
    part.winc <= Capacity(b, signer, part.payer) && (Capacity(b, signer, part.payer) >= 0 ==> part.winc > 0)
    && part.rows == if part.payer == signer then [] else Pick(b.active, Between(part.payer, signer))
  }

  ghost predicate PlanFits(b: Book, signer: Addr, parts: seq<Part>) {
    && (forall i :: 0 <= i < |parts| ==> Fits(b, signer, parts[i]))
    && (forall i, j :: 0 <= i < j < |parts| ==> parts[i].payer != parts[j].payer)
  }

  ghost function PartPayers(parts: seq<Part>): set<Addr> { set part | part in parts :: part.payer }

  lemma FitsAppend(b: Book, signer: Addr, parts: seq<Part>, part: Part)
    requires PlanFits(b, signer, parts) && Fits(b, signer, part) && part.payer !in PartPayers(parts)
    ensures PlanFits(b, signer, parts + [part])
    ensures PartsSum(parts + [part]) == PartsSum(parts) + part.winc
    ensures PartPayers(parts + [part]) == PartPayers(parts) + {part.payer}
  {
    assert (parts + [part])[..|parts|] == parts;
    assert forall q :: q in parts + [part] <==> q in parts || q == part;
    assert forall i :: 0 <= i < |parts| ==> parts[i] in parts;
  }

  lemma PlanPayerFits(b: Book, signer: Addr, payer: Addr, p: Planning)
    requires p.rest > 0 && PlanFits(b, signer, p.parts) && payer !in PartPayers(p.parts)
    ensures var q := PlanPayer(b, signer, payer, p);
            && PlanFits(b, signer, q.parts) && q.rest >= 0
            && PartsSum(q.parts) + q.rest == PartsSum(p.parts) + p.rest
            && PartPayers(q.parts) <= PartPayers(p.parts) + {payer}
  {
    var q := PlanPayer(b, signer, payer, p);
    if q != p { FitsAppend(b, signer, p.parts, q.parts[|p.parts|]); }
  }

  lemma {:induction false} PlanListFits(b: Book, signer: Addr, paid: seq<Addr>, p: Planning)
    requires p.rest >= 0 && Distinct(paid)
    requires PlanFits(b, signer, p.parts) && PartPayers(p.parts) !! Payers(paid)
    ensures var q := PlanList(b, signer, paid, p);
            && PlanFits(b, signer, q.parts) && q.rest >= 0
            && PartsSum(q.parts) + q.rest == PartsSum(p.parts) + p.rest
            && PartPayers(q.parts) <= PartPayers(p.parts) + Payers(paid)
    decreases |paid|
  {
    if paid != [] && p.rest != 0 {
      assert paid[0] in Payers(paid) && Payers(paid[1..]) <= Payers(paid) && paid[0] !in Payers(paid[1..]);
      PlanPayerFits(b, signer, paid[0], p);
      PlanListFits(b, signer, paid[1..], PlanPayer(b, signer, paid[0], p));
    }
  }

  /** The list covers the charge exactly when a stretch of it does; otherwise what is left is the charge less the offers. */
  lemma {:induction false} PlanListRest(b: Book, signer: Addr, paid: seq<Addr>, p: Planning)
    requires p.rest >= 1 && Distinct(paid)
    requires p.signerListed ==> signer !in paid
    ensures var q := PlanList(b, signer, paid, p);
            && (q.rest == 0 <==> Met(b, signer, paid, p.rest))
            && (q.rest != 0 ==>
                  && q.rest == p.rest - Offer(b, signer, paid)
                  && (q.signerListed <==> p.signerListed || (signer in paid && Balance(b, signer) != 0)))
    decreases |paid|
  {
    if paid != [] {
      var q := PlanPayer(b, signer, paid[0], p);
      if q.rest != 0 { PlanListRest(b, signer, paid[1..], q); }
    }
  }

  /**
   A plan exists exactly when a stretch of the list offers the charge, or the funds of all payers together reach it;
   a plan's parts fit and sum to the charge. For every content of the tables.
   */
  lemma PlanComplete(b: Book, signer: Addr, amount: nat, paid: seq<Addr>, directive: Directive)
    requires amount >= 1 && Distinct(paid) && paid != []
    ensures var plan := PlanSpend(b, signer, amount, paid, directive);
            && (plan.Ok? <==> Met(b, signer, paid, amount) || Usable(b, signer, Payers(paid), directive) >= amount)
            && (plan.Ok? ==> plan.value != [] && PlanFits(b, signer, plan.value) && PartsSum(plan.value) == amount)
            && (plan.Err? ==> plan.error == InsufficientBalance(signer))
  {
    var start := Planning([], amount, false);
    var p := PlanList(b, signer, paid, start);
    PlanListFits(b, signer, paid, start);
    PlanListRest(b, signer, paid, start);
    OfferIsFunds(b, signer, paid);
    assert paid[0] in Payers(paid);
    if Offer(b, signer, paid) >= amount { OfferMeets(b, signer, paid, amount); }
    var plan := PlanSpend(b, signer, amount, paid, directive);
    if plan.Ok? && p.rest > 0 {
      FitsAppend(b, signer, p.parts, Part(signer, p.rest, []));
    }
  }
}
