/** What applying an allocation does to balances, approvals and the log. */
module Spending {
  import opened Wrappers
  import opened Ledger
  import opened Approvals
  import opened Allocation

  // ---------- Applying a fitting plan ----------

  /** The part of a plan that a user pays. */
  function ShareOf(parts: seq<Part>, u: Addr): int {
    if parts == [] then 0
    else if parts[0].payer == u then parts[0].winc
    else ShareOf(parts[1..], u)
  }

  /** What is taken from a user: a negative part of a payer draws nothing, the signer's is booked on its balance. */
  function Taken(parts: seq<Part>, signer: Addr, u: Addr): int {
    if u != signer && ShareOf(parts, u) < 0 then 0 else ShareOf(parts, u)
  }

  /** Applying one fitting part succeeds; ids stay in one table, approvals in range stay so, balances follow the log. */
  lemma ApplyPartSound(b: Book, part: Part, c: Charge)
    requires Keyed(b) && Fits(b, c.signer, part) && (part.payer == c.signer ==> c.balance == Balance(b, c.signer))
    requires !IsApprovedSpend(c.reason)
    ensures ApplyPart(b, part, c).Ok? && Keyed(ApplyPart(b, part, c).value)
    ensures WellFormed(b) ==> WellFormed(ApplyPart(b, part, c).value)
    ensures ApplyPart(b, part, c).value.users ==
            if part.payer == c.signer then b.users[c.signer := c.balance - part.winc] else b.users
    ensures c.signer == part.payer ==> c.signer in b.users
    ensures Balanced(b) ==> Balanced(ApplyPart(b, part, c).value)
  {
    if part.payer == c.signer {
      if Balanced(b) { WithdrawalBalances(b, c.signer, part.winc, c.reason, Some(c.change)); }
    } else {
      var d := Draw(b.active, b.inactive, part.winc);
      var link := Between(part.payer, c.signer);
      DrawExact(d, link);
      DrawPayers(d, link, b.users.Keys);
      if Balanced(b) { ApprovedBalances(b, Withdrawal(part.payer, part.winc, ApprovedReason(c.reason), Some(c.change))); }
    }
  }

  lemma ApprovedBalances(b: Book, row: Audit)
    requires Balanced(b) && IsApprovedSpend(row.reason)
    ensures Balanced(b.(audit := b.audit + [row]))
  {
    forall v ensures AuditSum(b.audit + [row], v) == AuditSum(b.audit, v) { AuditSumAppend(b.audit, row, v); }
  }

  /** Drawn rows keep their payer. */
  lemma {:induction false} DrawPayers(d: Draw, link: Link, users: set<Addr>)
    requires UniqueIds(d.active)
    requires (forall r :: r in d.active ==> r.payer in users) && (forall x :: x in d.inactive ==> x.row.payer in users)
    ensures var e := DrawFrom(d, Pick(d.active, link));
            (forall r :: r in e.active ==> r.payer in users) && (forall x :: x in e.inactive ==> x.row.payer in users)
    decreases |Pick(d.active, link)|
  {
    var rows := Pick(d.active, link);
    if rows != [] && d.rest >= 1 {
      DrawStep(d, link);
      var e := DrawOne(d, rows[0]);
      forall r | r in e.active ensures r.payer in users { ReplaceIn(d.active, rows[0].id, NextState(rows[0], d.rest), r); }
      if Left(rows[0]) <= d.rest { DrawPayers(e, link, users); }
    }
  }

  /** The lists a fitting part leaves: its own link is drawn, the others are untouched. */
  lemma ApplyPartLink(b: Book, part: Part, c: Charge, link: Link)
    requires Keyed(b) && Fits(b, c.signer, part) && link.Between?
    requires part.payer == c.signer ==> c.balance == Balance(b, c.signer)
    requires ApplyPart(b, part, c).Ok?
    ensures var e := ApplyPart(b, part, c).value;
            if part.payer != c.signer && link == Between(part.payer, c.signer) then
              && Pick(e.active, link) == Remainder(Pick(b.active, link), part.winc)
              && PickInactive(e.inactive, link) == PickInactive(b.inactive, link) + UsedUpRows(Pick(b.active, link), part.winc)
            else
              Pick(e.active, link) == Pick(b.active, link) && PickInactive(e.inactive, link) == PickInactive(b.inactive, link)
  {
    if part.payer != c.signer {
      var own := Between(part.payer, c.signer);
      var d := Draw(b.active, b.inactive, part.winc);
      if link == own {
        DrawLeaves(d, link);
        DrawMoves(d, part.rows);
        PickInactiveAppend(b.inactive, UsedUpRows(part.rows, part.winc), link);
        UsedUpPicked(b.active, link, part.winc);
      } else {
        DrawTotals(d, own, link);
      }
    }
  }

  lemma UsedUpPicked(active: seq<Approval>, link: Link, w: int)
    ensures PickInactive(UsedUpRows(Pick(active, link), w), link) == UsedUpRows(Pick(active, link), w)
  {
    forall r | r in Pick(active, link) ensures Matches(link, r) { PickIn(active, link, r); }
    UsedUpAllMatch(Pick(active, link), link, w);
  }

  lemma {:induction false} UsedUpAllMatch(rows: seq<Approval>, link: Link, w: int)
    requires forall r :: r in rows ==> Matches(link, r)
    ensures PickInactive(UsedUpRows(rows, w), link) == UsedUpRows(rows, w)
  {
    if rows != [] && w >= 1 && Left(rows[0]) <= w {
      assert Matches(link, rows[0]);
      UsedUpAllMatch(rows[1..], link, w - Left(rows[0]));
    }
  }

  lemma ApplyPartLent(b: Book, part: Part, c: Charge, u: Addr)
    requires Keyed(b) && Fits(b, c.signer, part) && (part.payer == c.signer ==> c.balance == Balance(b, c.signer))
    requires ApplyPart(b, part, c).Ok?
    ensures Controlled(ApplyPart(b, part, c).value, u) ==
            Controlled(b, u) - (if u != part.payer || (u != c.signer && part.winc < 0) then 0 else part.winc)
  {
    if part.payer != c.signer {
      var d := Draw(b.active, b.inactive, part.winc);
      DrawExact(d, Between(part.payer, c.signer));
      DrawTotals(d, Between(part.payer, c.signer), Given(u));
    }
  }

  /** What fits before a part is applied fits afterwards. */
  lemma ApplyPartFits(b: Book, part: Part, c: Charge, other: Part)
    requires Keyed(b) && Fits(b, c.signer, part) && Fits(b, c.signer, other)
    requires part.payer == c.signer ==> c.balance == Balance(b, c.signer)
    requires other.payer != part.payer && ApplyPart(b, part, c).Ok?
    ensures Fits(ApplyPart(b, part, c).value, c.signer, other)
  {
    ApplyPartLink(b, part, c, Between(other.payer, c.signer));
  }

  /** A plan that can be applied from here. */
  ghost predicate Ready(b: Book, parts: seq<Part>, c: Charge) {
    && Keyed(b) && PlanFits(b, c.signer, parts) && !IsApprovedSpend(c.reason)
    && (forall i :: 0 <= i < |parts| && parts[i].payer == c.signer ==> c.balance == Balance(b, c.signer))
  }

  lemma ReadyStep(b: Book, parts: seq<Part>, c: Charge)
    requires Ready(b, parts, c) && parts != []
    ensures ApplyPart(b, parts[0], c).Ok? && Ready(ApplyPart(b, parts[0], c).value, parts[1..], c)
  {
    ApplyPartSound(b, parts[0], c);
    var e := ApplyPart(b, parts[0], c).value;
    forall i | 0 <= i < |parts[1..]| ensures Fits(e, c.signer, parts[1..][i]) {
      ApplyPartFits(b, parts[0], c, parts[i + 1]);
    }
  }

  /** A plan that fits is applied in full; only the signer's balance moves. */
  lemma {:induction false} ApplySound(b: Book, parts: seq<Part>, c: Charge)
    requires Ready(b, parts, c)
    ensures var r := ApplyParts(b, parts, c);
            && r.Ok? && Keyed(r.value) && (WellFormed(b) ==> WellFormed(r.value))
            && r.value.users.Keys == b.users.Keys
            && (forall u :: Balance(r.value, u) == Balance(b, u) - (if u == c.signer then ShareOf(parts, u) else 0))
            && (Balanced(b) ==> Balanced(r.value))
    decreases |parts|
  {
    if parts != [] {
      ReadyStep(b, parts, c);
      ApplyPartSound(b, parts[0], c);
      ApplySound(ApplyPart(b, parts[0], c).value, parts[1..], c);
      OnePart(b, parts, c);
    }
  }

  /** Payers are distinct: behind a payer's part there is no second one. */
  lemma OnePart(b: Book, parts: seq<Part>, c: Charge)
    requires Ready(b, parts, c) && parts != []
    ensures ShareOf(parts[1..], parts[0].payer) == 0
  {
    NoPart(parts[1..], parts[0].payer);
  }

  lemma {:induction false} NoPart(parts: seq<Part>, u: Addr)
    requires forall i :: 0 <= i < |parts| ==> parts[i].payer != u
    ensures ShareOf(parts, u) == 0
  {
    if parts != [] { NoPart(parts[1..], u); }
  }

  /** The lists a plan leaves under every link. */
  lemma {:induction false} ApplyLink(b: Book, parts: seq<Part>, c: Charge, link: Link)
    requires Ready(b, parts, c) && link.Between?
    ensures var r := ApplyParts(b, parts, c);
            var w := if link.spender == c.signer && link.payer != c.signer then ShareOf(parts, link.payer) else 0;
            && r.Ok?
            && Pick(r.value.active, link) == Remainder(Pick(b.active, link), w)
            && PickInactive(r.value.inactive, link) == PickInactive(b.inactive, link) + UsedUpRows(Pick(b.active, link), w)
    decreases |parts|
  {
    if parts != [] {
      ReadyStep(b, parts, c);
      ApplyPartLink(b, parts[0], c, link);
      ApplyLink(ApplyPart(b, parts[0], c).value, parts[1..], c, link);
      OnePart(b, parts, c);
    }
  }

  /** Every payer's controlled balance falls by exactly what is taken from it. */
  lemma {:induction false} ApplyControlled(b: Book, parts: seq<Part>, c: Charge, u: Addr)
    requires Ready(b, parts, c)
    ensures ApplyParts(b, parts, c).Ok?
    ensures Controlled(ApplyParts(b, parts, c).value, u) == Controlled(b, u) - Taken(parts, c.signer, u)
    decreases |parts|
  {
    if parts != [] {
      ReadyStep(b, parts, c);
      ApplyPartLent(b, parts[0], c, u);
      ApplyControlled(ApplyPart(b, parts[0], c).value, parts[1..], c, u);
      OnePart(b, parts, c);
    }
  }

  // ---------- useBalanceAndApprovals ----------

  /** The plan behind a successful spend is applicable; a plan over a list always is. */
  lemma SpendReady(b: Book, signer: Addr, amount: nat, paidBy: seq<Addr>, directive: Directive, reason: AuditReason, change: Id)
    requires Keyed(b) && !IsApprovedSpend(reason) && amount >= 1
    ensures var plan := PlanSpend(b, signer, amount, Dedupe(paidBy), directive);
            var c := Charge(signer, Balance(b, signer), reason, change);
            && (Spend(b, signer, amount, paidBy, directive, reason, change).Ok? <==>
                  plan.Ok? && PlanFits(b, signer, plan.value))
            && (plan.Ok? && PlanFits(b, signer, plan.value) ==> plan.value != [] && Ready(b, plan.value, c))
            && (plan.Ok? ==> PartsSum(plan.value) == amount && (PlanFits(b, signer, plan.value) || Balance(b, signer) < amount))
            && (paidBy != [] && plan.Ok? ==> PlanFits(b, signer, plan.value))
  {
    DedupeDistinct(paidBy);
    var paid := Dedupe(paidBy);
    var c := Charge(signer, Balance(b, signer), reason, change);
    if paid == [] {
      var part := Part(signer, amount, []);
      assert [part][..0] == [];
      assert PartsSum([part]) == amount;
      if Balance(b, signer) >= amount {
        assert Ready(b, [part], c);
        ApplySound(b, [part], c);
      } else {
        assert ApplyParts(b, [part], c).Err?;
        assert !Fits(b, signer, [part][0]);
      }
    } else {
      PlanComplete(b, signer, amount, paid, directive);
      var plan := PlanSpend(b, signer, amount, paid, directive);
      if plan.Ok? { ApplySound(b, plan.value, c); }
    }
  }

  /**
   Allocation is sound and complete, also where some approvals are for less than nothing. For every charge of at
   least 1 the spend succeeds exactly when a stretch of the payer list, from its front on, offers the charge, or the
   usable funds of all payers together reach it. A refused spend always names the signer. A plan's payers are
   distinct and its parts fit and sum to the charge.
   */
  lemma SpendComplete(b: Book, signer: Addr, amount: nat, paidBy: seq<Addr>, directive: Directive, reason: AuditReason, change: Id)
    requires Keyed(b) && !IsApprovedSpend(reason) && amount >= 1
    ensures var r := Spend(b, signer, amount, paidBy, directive, reason, change);
            var plan := PlanSpend(b, signer, amount, Dedupe(paidBy), directive);
            && (r.Ok? <==> Met(b, signer, Dedupe(paidBy), amount) || Usable(b, signer, Payers(paidBy), directive) >= amount)
            && (r.Err? ==> r.error == InsufficientBalance(signer))
            && (r.Ok? ==> plan.Ok? && PlanFits(b, signer, plan.value) && PartsSum(plan.value) == amount)
  {
    SpendReady(b, signer, amount, paidBy, directive, reason, change);
    DedupeDistinct(paidBy);
    if Dedupe(paidBy) != [] { PlanComplete(b, signer, amount, Dedupe(paidBy), directive); }
  }

  /**
   What a spend takes: on success each user's controlled balance falls by exactly what is taken from it, the
   signer's balance by its part and nobody else's; the parts sum to the charge. Ids stay in one table, approvals in
   range stay so, balances follow the log.
   */
  lemma SpendTakes(b: Book, signer: Addr, amount: nat, paidBy: seq<Addr>, directive: Directive, reason: AuditReason, change: Id)
    requires Keyed(b) && !IsApprovedSpend(reason)
    requires Spend(b, signer, amount, paidBy, directive, reason, change).Ok?
    ensures var e := Spend(b, signer, amount, paidBy, directive, reason, change).value.book;
            && Keyed(e) && (WellFormed(b) ==> WellFormed(e)) && (Balanced(b) ==> Balanced(e)) && e.users.Keys == b.users.Keys
            && (amount == 0 ==> e == b)
    ensures amount >= 1 ==>
              var parts := PlanSpend(b, signer, amount, Dedupe(paidBy), directive).value;
              var e := Spend(b, signer, amount, paidBy, directive, reason, change).value.book;
              && PartsSum(parts) == amount
              && (forall u :: Controlled(e, u) == Controlled(b, u) - Taken(parts, signer, u))
              && (forall u :: Balance(e, u) == Balance(b, u) - (if u == signer then ShareOf(parts, u) else 0))
              && ShareOf(parts, signer) <= (if Balance(b, signer) >= 0 then Balance(b, signer) else 0)
  {
    if amount >= 1 {
      SpendReady(b, signer, amount, paidBy, directive, reason, change);
      var parts := PlanSpend(b, signer, amount, Dedupe(paidBy), directive).value;
      var c := Charge(signer, Balance(b, signer), reason, change);
      ApplySound(b, parts, c);
      forall u ensures Controlled(ApplyParts(b, parts, c).value, u) == Controlled(b, u) - Taken(parts, signer, u) {
        ApplyControlled(b, parts, c, u);
      }
      ShareFits(b, parts, c);
    }
  }

  lemma {:induction false} ShareFits(b: Book, parts: seq<Part>, c: Charge)
    requires PlanFits(b, c.signer, parts)
    ensures ShareOf(parts, c.signer) <= (if Balance(b, c.signer) >= 0 then Balance(b, c.signer) else 0)
  {
    if parts != [] && parts[0].payer != c.signer { ShareFits(b, parts[1..], c); }
  }

  // ---------- When a charge conserves ----------

  /** What a charge takes from all its payers together. */
  function TakenSum(parts: seq<Part>, signer: Addr): int {
    if parts == [] then 0
    else TakenSum(parts[..|parts| - 1], signer)
         + (var part := parts[|parts| - 1]; if part.payer != signer && part.winc < 0 then 0 else part.winc)
  }

  /** A payer other than the signer was given a negative part. */
  ghost predicate PayerShort(parts: seq<Part>, signer: Addr) {
    exists i :: 0 <= i < |parts| && parts[i].payer != signer && parts[i].winc < 0
  }

  /** A charge takes what it is for, if and only if no payer was given a negative part; else it takes more. */
  lemma {:induction false} TakenExact(parts: seq<Part>, signer: Addr)
    ensures TakenSum(parts, signer) >= PartsSum(parts)
    ensures TakenSum(parts, signer) == PartsSum(parts) <==> !PayerShort(parts, signer)
  {
    if parts != [] {
      var front, last := parts[..|parts| - 1], parts[|parts| - 1];
      TakenExact(front, signer);
      assert forall i :: 0 <= i < |front| ==> parts[i] == front[i];
      if PayerShort(front, signer) {
        var i :| 0 <= i < |front| && front[i].payer != signer && front[i].winc < 0;
        assert parts[i].winc < 0 && parts[i].payer != signer;
      }
    }
  }
}
