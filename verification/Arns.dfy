/** ArNS purchase receipts: the debit, the status ladder, the guarded refund and the stale scan. */
module Arns {
  import opened Wrappers
  import opened Ledger
  import opened Allocation
  import opened Spending
  import opened Refunds
  import opened RoundTrip

  datatype Status = Reserved | Spawned | Bought | Recorded

  function Rank(s: Status): nat {
    match s case Reserved => 0 case Spawned => 1 case Bought => 2 case Recorded => 3
  }

  datatype Receipt = Receipt(
    nonce: Id, owner: Addr, winc: nat, overflow: Option<seq<Share>>, status: Status,
    process: Option<Id>, message: Option<Id>, created: int)

  datatype Registry = Registry(receipts: map<Id, Receipt>, failed: seq<Receipt>, book: Book)

  /** The states from which a purchase may still be refunded. */
  predicate Unconfirmed(s: Status) { s.Reserved? || s.Spawned? }

  // ---------- Operations ----------

  function CreateReceipt(g: Registry, nonce: Id, owner: Addr, winc: nat, paidBy: seq<Addr>, process: Option<Id>, now: int)
      : Result<Registry, Error>
  {
    var spent := Spend(g.book, owner, winc, paidBy, ListOrSigner, ArnsPurchaseOrder, nonce);
    if spent.Err? then Err(spent.error)
    else if nonce in g.receipts then Err(AlreadyExists(nonce))
    else Ok(g.(book := spent.value.book,
               receipts := g.receipts[nonce := Receipt(nonce, owner, winc, spent.value.overflow, Reserved, process, None, now)]))
  }

  function RefundOf(r: Receipt, nonce: Id, now: int): Refunding { Refunding(r.owner, ArnsPurchaseOrderFailed, nonce, now) }

  /** updateFailedArNSPurchase: only an unconfirmed purchase is deleted and refunded. */
  function FailPurchase(g: Registry, nonce: Id, now: int): Result<Registry, Error> {
    if nonce !in g.receipts || !Unconfirmed(g.receipts[nonce].status) then Err(NotFound(nonce))
    else
      var r := g.receipts[nonce];
      var refunded := Refund(g.book, r.winc, r.overflow, RefundOf(r, nonce, now));
      if refunded.Err? then Err(refunded.error)
      else Ok(Registry(g.receipts - {nonce}, g.failed + [r], refunded.value))
  }

  /** The plain UPDATEs; each is a no-op when its WHERE clause selects nothing. */
  function MarkBought(g: Registry, nonce: Id): Registry {
    if nonce in g.receipts && Unconfirmed(g.receipts[nonce].status) then
      g.(receipts := g.receipts[nonce := g.receipts[nonce].(status := Bought)])
    else g
  }

  function PersistSpawned(g: Registry, nonce: Id, ant: Id): Registry {
    if nonce in g.receipts && g.receipts[nonce].status.Reserved? then
      g.(receipts := g.receipts[nonce := g.receipts[nonce].(status := Spawned, process := Some(ant))])
    else g
  }

  function AddMessage(g: Registry, nonce: Id, message: Id): Registry {
    if nonce in g.receipts then
      g.(receipts := g.receipts[nonce := g.receipts[nonce].(status := Recorded, message := Some(message))])
    else g
  }

  function RecordSpawned(g: Registry, nonce: Id, ant: Id): Registry {
    if nonce in g.receipts then g.(receipts := g.receipts[nonce := g.receipts[nonce].(process := Some(ant))]) else g
  }

  /** getStalePendingArNSPurchases, as the set of nonces it returns. */
  function Stale(g: Registry, now: int, threshold: int): set<Id> {
    set n | n in g.receipts && Unconfirmed(g.receipts[n].status) && g.receipts[n].created < now - threshold
  }

  // ---------- Runs ----------

  datatype Op =
    | Create(nonce: Id, owner: Addr, winc: nat, paidBy: seq<Addr>, process: Option<Id>, now: int)
    | Fail(nonce: Id, now: int)
    | Mark(nonce: Id)
    | Persist(nonce: Id, ant: Id)
    | Store(nonce: Id, message: Id)
    | Link(nonce: Id, ant: Id)

  /** A registry with the debits and refunds committed so far. */
  datatype Trace = Trace(now: Registry, debits: multiset<Id>, refunds: multiset<Id>)

  function Step(t: Trace, op: Op): Trace {
    match op
    case Create(nonce, owner, winc, paidBy, process, now) =>
      var r := CreateReceipt(t.now, nonce, owner, winc, paidBy, process, now);
      if r.Ok? then Trace(r.value, t.debits + multiset{nonce}, t.refunds) else t
    case Fail(nonce, now) =>
      var r := FailPurchase(t.now, nonce, now);
      if r.Ok? then Trace(r.value, t.debits, t.refunds + multiset{nonce}) else t
    case Mark(nonce) => t.(now := MarkBought(t.now, nonce))
    case Persist(nonce, ant) => t.(now := PersistSpawned(t.now, nonce, ant))
    case Store(nonce, message) => t.(now := AddMessage(t.now, nonce, message))
    case Link(nonce, ant) => t.(now := RecordSpawned(t.now, nonce, ant))
  }

  function Run(t: Trace, ops: seq<Op>): Trace
    decreases |ops|
  {
    if ops == [] then t else Run(Step(t, ops[0]), ops[1..])
  }

  function Here(t: Trace, nonce: Id): int { if nonce in t.now.receipts then 1 else 0 }

  // ---------- The lifecycle ----------

  /** One step: the ladder only goes up; a receipt appears with a debit and disappears with a refund. */
  lemma StepLadder(t: Trace, op: Op, nonce: Id)
    ensures var e := Step(t, op);
            && e.debits[nonce] - e.refunds[nonce] - Here(e, nonce) == t.debits[nonce] - t.refunds[nonce] - Here(t, nonce)
            && e.refunds[nonce] >= t.refunds[nonce]
            && (nonce in t.now.receipts && nonce in e.now.receipts ==>
                  Rank(e.now.receipts[nonce].status) >= Rank(t.now.receipts[nonce].status))
            && (nonce in t.now.receipts && nonce !in e.now.receipts ==>
                  e.refunds[nonce] == t.refunds[nonce] + 1 && Unconfirmed(t.now.receipts[nonce].status))
            && (nonce in t.now.receipts && nonce in e.now.receipts ==> e.refunds[nonce] == t.refunds[nonce])
  {
  }

  /** Debits less refunds of a nonce are 1 while its receipt exists and 0 otherwise, over every run from an empty registry. */
  lemma {:induction false} RunBalanced(t: Trace, ops: seq<Op>, nonce: Id)
    ensures var e := Run(t, ops);
            e.debits[nonce] - e.refunds[nonce] - Here(e, nonce) == t.debits[nonce] - t.refunds[nonce] - Here(t, nonce)
    decreases |ops|
  {
    if ops != [] {
      StepLadder(t, ops[0], nonce);
      RunBalanced(Step(t, ops[0]), ops[1..], nonce);
    }
  }

  function Start(b: Book): Trace { Trace(Registry(map[], [], b), multiset{}, multiset{}) }

  lemma DebitedWhileHeld(b: Book, ops: seq<Op>, nonce: Id)
    ensures var e := Run(Start(b), ops);
            e.debits[nonce] == e.refunds[nonce] + (if nonce in e.now.receipts then 1 else 0)
  {
    RunBalanced(Start(b), ops, nonce);
  }

  /** Once bought or recorded, a purchase keeps its receipt, never steps back and is never refunded again. */
  lemma {:induction false} BoughtForever(t: Trace, ops: seq<Op>, nonce: Id)
    requires nonce in t.now.receipts && !Unconfirmed(t.now.receipts[nonce].status)
    ensures var e := Run(t, ops);
            && nonce in e.now.receipts
            && Rank(e.now.receipts[nonce].status) >= Rank(t.now.receipts[nonce].status)
            && e.refunds[nonce] == t.refunds[nonce]
    decreases |ops|
  {
    if ops != [] {
      StepLadder(t, ops[0], nonce);
      BoughtForever(Step(t, ops[0]), ops[1..], nonce);
    }
  }

  /** Between two moments of a run, a receipt that was not refunded meanwhile is still there and has not stepped back. */
  lemma {:induction false} NeverBack(t: Trace, ops: seq<Op>, nonce: Id)
    requires nonce in t.now.receipts
    ensures var e := Run(t, ops);
            && e.refunds[nonce] >= t.refunds[nonce]
            && (e.refunds[nonce] == t.refunds[nonce] ==>
                  nonce in e.now.receipts && Rank(e.now.receipts[nonce].status) >= Rank(t.now.receipts[nonce].status))
    decreases |ops|
  {
    if ops != [] {
      StepLadder(t, ops[0], nonce);
      var e := Step(t, ops[0]);
      if nonce in e.now.receipts { NeverBack(e, ops[1..], nonce); } else { RefundsGrow(e, ops[1..], nonce); }
    }
  }

  lemma {:induction false} RefundsGrow(t: Trace, ops: seq<Op>, nonce: Id)
    ensures Run(t, ops).refunds[nonce] >= t.refunds[nonce]
    decreases |ops|
  {
    if ops != [] {
      StepLadder(t, ops[0], nonce);
      RefundsGrow(Step(t, ops[0]), ops[1..], nonce);
    }
  }

  /** No orphan: over every run, the stale scan returns exactly the old enough debits that are neither refunded nor bought. */
  lemma StaleFindsOrphans(b: Book, ops: seq<Op>, nonce: Id, now: int, threshold: int)
    ensures var e := Run(Start(b), ops);
            e.debits[nonce] > e.refunds[nonce] ==> nonce in e.now.receipts
    ensures var e := Run(Start(b), ops);
            nonce in Stale(e.now, now, threshold) <==>
              && e.debits[nonce] > e.refunds[nonce]
              && nonce in e.now.receipts
              && Rank(e.now.receipts[nonce].status) < Rank(Bought)
              && e.now.receipts[nonce].created < now - threshold
  {
    DebitedWhileHeld(b, ops, nonce);
  }

  /** A refund is refused only for a confirmed or unknown purchase, or where a share belongs to an owner without an account. */
  lemma FailSucceeds(g: Registry, nonce: Id, now: int)
    requires Keyed(g.book)
    ensures FailPurchase(g, nonce, now).Ok? <==>
              && nonce in g.receipts && Unconfirmed(g.receipts[nonce].status)
              && (var r := g.receipts[nonce];
                  r.owner in g.book.users || forall i :: 0 <= i < |SharesOf(r.overflow, r.owner, r.winc)| ==>
                    SharesOf(r.overflow, r.owner, r.winc)[i].payer != r.owner)
  {
    if nonce in g.receipts {
      var r := g.receipts[nonce];
      RefundSharesSound(g.book, SharesOf(r.overflow, r.owner, r.winc), RefundOf(r, nonce, now));
    }
  }

  /** A failed purchase gives back its debit: the round trip of the charge, through the receipt's own record of it. */
  lemma FailUndoesCreate(g: Registry, nonce: Id, owner: Addr, winc: nat, paidBy: seq<Addr>, process: Option<Id>, created: int, now: int)
    requires WellFormed(g.book) && winc >= 1 && CreateReceipt(g, nonce, owner, winc, paidBy, process, created).Ok?
    requires var parts := PlanSpend(g.book, owner, winc, Dedupe(paidBy), ListOrSigner).value;
             Undisturbed(g.book, CreateReceipt(g, nonce, owner, winc, paidBy, process, created).value.book, owner, parts, now)
    requires forall p :: p in paidBy && p != owner ==> OnlyFirstUsed(Ledger.Pick(g.book.active, Between(p, owner)))
    ensures var r := FailPurchase(CreateReceipt(g, nonce, owner, winc, paidBy, process, created).value, nonce, now);
            && r.Ok?
            && r.value.receipts == g.receipts
            && (forall u :: Balance(r.value.book, u) == Balance(g.book, u))
            && LentRestored(g.book, r.value.book)
  {
    var e := CreateReceipt(g, nonce, owner, winc, paidBy, process, created).value;
    SpendThenRefundRestores(g.book, owner, winc, paidBy, ListOrSigner, ArnsPurchaseOrder, nonce, RefundOf(e.receipts[nonce], nonce, now));
    assert e.receipts - {nonce} == g.receipts;
  }

  // ---------- What stands behind a receipt ----------

  /** The purchase was created on these terms, and its state is what operations on it have made of it. */
  ghost predicate Backed(ops: seq<Op>, nonce: Id, r: Receipt) {
    && r.nonce == nonce
    && (exists op :: op in ops && op.Create? && op.nonce == nonce && op.owner == r.owner && op.winc == r.winc && op.now == r.created)
    && (r.status.Spawned? ==> r.process.Some?)
    && (r.status.Bought? ==> Mark(nonce) in ops)
    && (r.status.Recorded? <==> r.message.Some?)
    && (r.message.Some? ==> Store(nonce, r.message.value) in ops)
    && (r.process.Some? ==>
          || Persist(nonce, r.process.value) in ops || Link(nonce, r.process.value) in ops
          || exists op :: op in ops && op.Create? && op.nonce == nonce && op.process == r.process)
  }

  ghost predicate AllBacked(g: Registry, ops: seq<Op>) {
    && (forall nonce :: nonce in g.receipts ==> Backed(ops, nonce, g.receipts[nonce]))
    && (forall r :: r in g.failed ==> Backed(ops, r.nonce, r) && Unconfirmed(r.status))
  }

  lemma BackedGrows(ops: seq<Op>, op: Op, nonce: Id, r: Receipt)
    requires Backed(ops, nonce, r)
    ensures Backed(ops + [op], nonce, r)
  {
    assert forall o :: o in ops ==> o in ops + [op];
  }

  lemma StepBacked(t: Trace, ops: seq<Op>, op: Op)
    requires AllBacked(t.now, ops)
    ensures AllBacked(Step(t, op).now, ops + [op])
  {
    assert op in ops + [op];
    forall nonce, r | Backed(ops, nonce, r) ensures Backed(ops + [op], nonce, r) { BackedGrows(ops, op, nonce, r); }
  }

  lemma {:induction false} RunBackedFrom(t: Trace, before: seq<Op>, ops: seq<Op>)
    requires AllBacked(t.now, before)
    ensures AllBacked(Run(t, ops).now, before + ops)
    decreases |ops|
  {
    if ops == [] {
      assert before + ops == before;
    } else {
      StepBacked(t, before, ops[0]);
      RunBackedFrom(Step(t, ops[0]), before + [ops[0]], ops[1..]);
      assert before + [ops[0]] + ops[1..] == before + ops;
    }
  }

  /**
   Over every run from an empty registry each receipt, also a failed one, has the terms and the date of its order, a
   failed one was never confirmed, and every state, ANT and message comes from an operation on that purchase.
   */
  lemma RunBacked(b: Book, ops: seq<Op>)
    ensures AllBacked(Run(Start(b), ops).now, ops)
  {
    RunBackedFrom(Start(b), [], ops);
    assert [] + ops == ops;
  }
}
