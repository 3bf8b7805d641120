/**
 One Buy-Name request against the chain: debit, spawn an ANT, persist its id, buy the name, confirm, mark,
 record. Every step can fail, the process can crash between any two, the buy can land although the call threw,
 and the refund and reconcile jobs run at any time.
 */
module ArnsPurchase {
  import opened Wrappers
  import opened Ledger
  import opened Allocation
  import opened Spending
  import opened Refunds
  import opened RoundTrip
  import Arns

  /** The order being bought; `supplied` is the buyer's own ANT, if any. */
  datatype Order = Order(nonce: Id, owner: Addr, winc: nat, paidBy: seq<Addr>, supplied: Option<Id>)

  /** The name's record on chain: the ANT it resolves to, and whether this purchase registered it. */
  datatype Record = Record(ant: Id, ours: bool)

  datatype Stage =
    | Idle
    | Paid
    | Minted(ant: Id)            // an ANT was spawned and exists only in memory
    | Ready(ant: Id)             // the ANT id is persisted, or was supplied
    | Landed(ant: Id)            // the buy is on chain, the call has not returned
    | Confirmed(ant: Id)         // the call returned
    | Marked(ant: Id)
    | Linked
    | Caught(held: Option<Id>)   // the write threw
    | Stopped

  datatype World = World(
    db: Arns.Registry,
    chain: Option<Record>,
    stage: Stage,
    sent: Option<Id>,            // the ANT of the buy that was submitted
    refunds: nat)

  datatype Event =
    | Debit(now: int)
    | Spawn(ant: Id) | SpawnThrows
    | Persist | PersistThrows
    | PersistCommitsThrows             // the id is stored, but the call throws
    | UseSupplied
    | BuyLands | BuyThrows
    | Returns | ThrowsAfterLanding
    | Mark | MarkThrows
    | Link | LinkThrows
    | Store(message: Id) | StoreThrows
    | ConfirmAndSettle(now: int)       // after a throw: read the chain, then mark bought or refund
    | ReadThrows(now: int)             // after a throw: every read failed, so refund
    | Crash
    | OtherBuys(ant: Id)
    | LandsLate                        // a buy that threw lands afterwards
    | RefundJob(now: int)
    | Reconcile                        // promote a stale receipt whose ANT the name resolves to
    | StoreJob(message: Id)

  function Receipt(w: World, o: Order): Option<Arns.Receipt> {
    if o.nonce in w.db.receipts then Some(w.db.receipts[o.nonce]) else None
  }

  /** updateFailedArNSPurchase; a refused refund changes nothing. */
  function TryRefund(w: World, o: Order, now: int): World {
    var r := Arns.FailPurchase(w.db, o.nonce, now);
    if r.Ok? then w.(db := r.value, refunds := w.refunds + 1) else w
  }

  function Resolves(w: World, ant: Option<Id>): bool { w.chain.Some? && ant == Some(w.chain.value.ant) }

  function Next(w: World, o: Order, e: Event): World {
    match e
    case Debit(now) =>
      if !w.stage.Idle? then w
      else
        var r := Arns.CreateReceipt(w.db, o.nonce, o.owner, o.winc, o.paidBy, o.supplied, now);
        if r.Ok? then w.(db := r.value, stage := Paid) else w.(stage := Stopped)
    case Spawn(ant) => if w.stage.Paid? && o.supplied.None? then w.(stage := Minted(ant)) else w
    case SpawnThrows => if w.stage.Paid? && o.supplied.None? then w.(stage := Caught(None)) else w
    case Persist =>
      if w.stage.Minted? then w.(db := Arns.PersistSpawned(w.db, o.nonce, w.stage.ant), stage := Ready(w.stage.ant)) else w
    case PersistCommitsThrows =>
      if w.stage.Minted? then w.(db := Arns.PersistSpawned(w.db, o.nonce, w.stage.ant), stage := Caught(Some(w.stage.ant))) else w
    case PersistThrows => if w.stage.Minted? then w.(stage := Caught(Some(w.stage.ant))) else w
    case UseSupplied => if w.stage.Paid? && o.supplied.Some? then w.(stage := Ready(o.supplied.value)) else w
    case BuyLands =>
      if w.stage.Ready? && w.chain.None? then
        w.(chain := Some(Record(w.stage.ant, true)), sent := Some(w.stage.ant), stage := Landed(w.stage.ant))
      else w
    case BuyThrows => if w.stage.Ready? then w.(sent := Some(w.stage.ant), stage := Caught(Some(w.stage.ant))) else w
    case Returns => if w.stage.Landed? then w.(stage := Confirmed(w.stage.ant)) else w
    case ThrowsAfterLanding => if w.stage.Landed? then w.(stage := Caught(Some(w.stage.ant))) else w
    case Mark => if w.stage.Confirmed? then w.(db := Arns.MarkBought(w.db, o.nonce), stage := Marked(w.stage.ant)) else w
    case MarkThrows => if w.stage.Confirmed? then w.(stage := Marked(w.stage.ant)) else w
    case Link =>
      if w.stage.Marked? then
        w.(db := if o.supplied.None? then Arns.RecordSpawned(w.db, o.nonce, w.stage.ant) else w.db, stage := Linked)
      else w
    case LinkThrows => if w.stage.Marked? then w.(stage := Linked) else w
    case Store(message) => if w.stage.Linked? then w.(db := Arns.AddMessage(w.db, o.nonce, message), stage := Stopped) else w
    case StoreThrows => if w.stage.Linked? then w.(stage := Stopped) else w
    case ConfirmAndSettle(now) =>
      if !w.stage.Caught? then w
      else if Resolves(w, w.stage.held) then w.(db := Arns.MarkBought(w.db, o.nonce), stage := Stopped)
      else TryRefund(w, o, now).(stage := Stopped)
    case ReadThrows(now) => if w.stage.Caught? then TryRefund(w, o, now).(stage := Stopped) else w
    case Crash => w.(stage := Stopped)
    case OtherBuys(ant) => if w.chain.None? then w.(chain := Some(Record(ant, false))) else w
    case LandsLate => if w.sent.Some? && w.chain.None? then w.(chain := Some(Record(w.sent.value, true))) else w
    case RefundJob(now) => TryRefund(w, o, now)
    case Reconcile =>
      if Receipt(w, o).Some? && Resolves(w, Receipt(w, o).value.process) then w.(db := Arns.MarkBought(w.db, o.nonce)) else w
    case StoreJob(message) => if w.sent.Some? && BoughtByUs(w) then w.(db := Arns.AddMessage(w.db, o.nonce, message)) else w
  }

  function Run(w: World, o: Order, events: seq<Event>): World
    decreases |events|
  {
    if events == [] then w else Run(Next(w, o, events[0]), o, events[1..])
  }

  predicate BoughtByUs(w: World) { w.chain.Some? && w.chain.value.ours }

  /** The mapping is not lost: the receipt is there and carries the ANT the name resolves to. */
  predicate MappingKept(w: World, o: Order) {
    BoughtByUs(w) && Receipt(w, o).Some? && Receipt(w, o).value.process == Some(w.chain.value.ant)
  }

  // ---------- The invariant ----------

  /** Before the ANT id is persisted, nothing but the debit has touched the receipt. */
  ghost predicate Untouched(w: World, o: Order) {
    Receipt(w, o).Some? ==> Receipt(w, o).value.status.Reserved? && Receipt(w, o).value.process == o.supplied
  }

  ghost predicate Carries(w: World, o: Order, ant: Id) {
    Receipt(w, o).Some? ==> Receipt(w, o).value.process == Some(ant)
  }

  ghost predicate StageFits(w: World, o: Order) {
    match w.stage
    case Idle => Receipt(w, o).None? && w.refunds == 0
    case Paid => w.sent.None? && (Receipt(w, o).Some? ==> Receipt(w, o).value.process == o.supplied)
                 && (o.supplied.None? ==> Untouched(w, o))
    case Minted(_) => o.supplied.None? && w.sent.None? && Untouched(w, o)
    case Ready(ant) => w.sent.None? && Carries(w, o, ant)
    case Landed(ant) => Carries(w, o, ant) && w.sent == Some(ant)
    case Confirmed(ant) => Carries(w, o, ant) && w.sent == Some(ant)
    case Marked(ant) => Carries(w, o, ant) && w.sent == Some(ant)
    case Caught(held) => w.sent.Some? ==> held == w.sent
    case _ => true
  }

  ghost predicate Inv(w: World, o: Order) {
    && StageFits(w, o)
    && (w.stage.Idle? ==> w.sent.None?)
    && (w.sent.Some? ==> Carries(w, o, w.sent.value))
    && (BoughtByUs(w) ==> w.sent == Some(w.chain.value.ant))
    && (w.refunds > 0 ==> Receipt(w, o).None?)
    && (!w.stage.Idle? && Receipt(w, o).None? ==> w.refunds > 0 || (w.stage.Stopped? && w.sent.None?))
  }

  lemma RefundKeeps(w: World, o: Order, now: int)
    requires Inv(w, o)
    ensures var e := TryRefund(w, o, now);
            && (e == w || (e == w.(db := e.db, refunds := w.refunds + 1) && Receipt(w, o).Some? && Receipt(e, o).None?))
            && Inv(e, o) && Inv(e.(stage := Stopped), o)
  {
  }

  /** The jobs and the other buyers. */
  predicate IsHandlerStep(e: Event) {
    !e.RefundJob? && !e.Reconcile? && !e.StoreJob? && !e.OtherBuys? && !e.LandsLate? && !e.ConfirmAndSettle? && !e.ReadThrows? && !e.Crash?
  }

  lemma HandlerKeeps(w: World, o: Order, e: Event)
    requires Inv(w, o) && IsHandlerStep(e)
    ensures Inv(Next(w, o, e), o)
  {
  }

  lemma RefundStepKeeps(w: World, o: Order, e: Event)
    requires Inv(w, o) && (e.ConfirmAndSettle? || e.ReadThrows? || e.RefundJob?)
    ensures Inv(Next(w, o, e), o)
  {
    RefundKeeps(w, o, e.now);
  }

  lemma JobKeeps(w: World, o: Order, e: Event)
    requires Inv(w, o) && !IsHandlerStep(e) && !e.ConfirmAndSettle? && !e.ReadThrows? && !e.RefundJob?
    ensures Inv(Next(w, o, e), o)
  {
  }

  lemma NextKeeps(w: World, o: Order, e: Event)
    requires Inv(w, o)
    ensures Inv(Next(w, o, e), o)
  {
    if IsHandlerStep(e) {
      HandlerKeeps(w, o, e);
    } else if e.ConfirmAndSettle? || e.ReadThrows? || e.RefundJob? {
      RefundStepKeeps(w, o, e);
    } else {
      JobKeeps(w, o, e);
    }
  }

  /** A request that has not started, for a nonce without a receipt and a name nobody holds. */
  ghost predicate Start(w: World, o: Order) {
    w.stage.Idle? && w.sent.None? && w.chain.None? && w.refunds == 0 && Receipt(w, o).None?
  }

  lemma {:induction false} RunKeeps(w: World, o: Order, events: seq<Event>)
    requires Inv(w, o)
    ensures Inv(Run(w, o, events), o)
    decreases |events|
  {
    if events != [] {
      NextKeeps(w, o, events[0]);
      RunKeeps(Next(w, o, events[0]), o, events[1..]);
    }
  }

  /**
   At every point of every run, crashes, late landings and jobs included: if the name was bought by this purchase,
   then the receipt exists and carries the ANT on chain exactly when the purchase has not been refunded.
   */
  lemma BoughtMeansMapped(w: World, o: Order, events: seq<Event>)
    requires Start(w, o) && BoughtByUs(Run(w, o, events))
    ensures MappingKept(Run(w, o, events), o) <==> Run(w, o, events).refunds == 0
  {
    RunKeeps(w, o, events);
  }

  // ---------- Exactly when the mapping is lost ----------

  /** A refund of this purchase is accepted: its receipt is unconfirmed and nobody without an account must be paid. */
  predicate Accepted(w: World, o: Order, now: int) { Arns.FailPurchase(w.db, o.nonce, now).Ok? }

  /**
   The steps that lose a mapping: an accepted refund of a bought name by a job or because the chain could not be
   read, and a buy that lands when the purchase was refunded before. A settlement that reads the chain never does.
   */
  predicate Loses(w: World, o: Order, e: Event) {
    match e
    case RefundJob(now) => BoughtByUs(w) && Accepted(w, o, now)
    case ReadThrows(now) => BoughtByUs(w) && w.stage.Caught? && Accepted(w, o, now)
    case BuyLands => w.stage.Ready? && w.chain.None? && Receipt(w, o).None?
    case LandsLate => w.sent.Some? && w.chain.None? && Receipt(w, o).None?
    case _ => false
  }

  predicate LosesIn(w: World, o: Order, events: seq<Event>)
    decreases |events|
  {
    events != [] && (Loses(w, o, events[0]) || LosesIn(Next(w, o, events[0]), o, events[1..]))
  }

  /** A bought name has its mapping. */
  predicate Whole(w: World, o: Order) { BoughtByUs(w) ==> MappingKept(w, o) }

  lemma RefundLoses(w: World, o: Order, e: Event)
    requires Inv(w, o) && Whole(w, o) && (e.ConfirmAndSettle? || e.ReadThrows? || e.RefundJob?)
    ensures Whole(Next(w, o, e), o) <==> !Loses(w, o, e)
  {
    RefundKeeps(w, o, e.now);
  }

  lemma StepLoses(w: World, o: Order, e: Event)
    requires Inv(w, o) && Whole(w, o)
    ensures Whole(Next(w, o, e), o) <==> !Loses(w, o, e)
  {
    if e.ConfirmAndSettle? || e.ReadThrows? || e.RefundJob? { RefundLoses(w, o, e); }
  }

  /** A lost mapping stays lost: the name stays bought, and a receipt never comes back. */
  lemma LostForGood(w: World, o: Order, e: Event)
    requires Inv(w, o) && !Whole(w, o)
    ensures !Whole(Next(w, o, e), o)
  {
  }

  lemma {:induction false} RunLost(w: World, o: Order, events: seq<Event>)
    requires Inv(w, o) && !Whole(w, o)
    ensures !Whole(Run(w, o, events), o)
    decreases |events|
  {
    if events != [] {
      LostForGood(w, o, events[0]);
      NextKeeps(w, o, events[0]);
      RunLost(Next(w, o, events[0]), o, events[1..]);
    }
  }

  lemma {:induction false} RunLoses(w: World, o: Order, events: seq<Event>)
    requires Inv(w, o) && Whole(w, o)
    ensures Whole(Run(w, o, events), o) <==> !LosesIn(w, o, events)
    decreases |events|
  {
    if events != [] {
      StepLoses(w, o, events[0]);
      NextKeeps(w, o, events[0]);
      if Loses(w, o, events[0]) {
        RunLost(Next(w, o, events[0]), o, events[1..]);
      } else {
        RunLoses(Next(w, o, events[0]), o, events[1..]);
      }
    }
  }

  /**
   Wherever the process crashes and whatever the jobs do: a name bought by this purchase has its receipt, carrying
   the ANT on chain, if and only if no step of the run lost it.
   */
  lemma MappingLostExactly(w: World, o: Order, events: seq<Event>)
    requires Start(w, o)
    ensures (BoughtByUs(Run(w, o, events)) ==> MappingKept(Run(w, o, events), o)) <==> !LosesIn(w, o, events)
  {
    RunLoses(w, o, events);
  }

  // ---------- Nothing is marked as bought that is not ----------

  /**
   A receipt past the refundable states: the name is registered and, if the request sent a buy or goes on, for the
   receipt's ANT.
   */
  ghost predicate OnChain(w: World, o: Order) {
    && (Receipt(w, o).Some? && (Receipt(w, o).value.status.Bought? || Receipt(w, o).value.status.Recorded?) ==>
          w.chain.Some? && (w.sent.Some? || !w.stage.Stopped? ==> Receipt(w, o).value.process == Some(w.chain.value.ant)))
    && (w.stage.Landed? || w.stage.Confirmed? || w.stage.Marked? || w.stage.Linked? ==> BoughtByUs(w))
  }

  lemma RefundOnChain(w: World, o: Order, e: Event)
    requires Inv(w, o) && OnChain(w, o) && (e.ConfirmAndSettle? || e.ReadThrows? || e.RefundJob?)
    ensures OnChain(Next(w, o, e), o)
  {
    RefundKeeps(w, o, e.now);
  }

  lemma HandlerOnChain(w: World, o: Order, e: Event)
    requires Inv(w, o) && OnChain(w, o) && IsHandlerStep(e)
    ensures OnChain(Next(w, o, e), o)
  {
  }

  lemma StepOnChain(w: World, o: Order, e: Event)
    requires Inv(w, o) && OnChain(w, o)
    ensures OnChain(Next(w, o, e), o)
  {
    if e.ConfirmAndSettle? || e.ReadThrows? || e.RefundJob? {
      RefundOnChain(w, o, e);
    } else if IsHandlerStep(e) {
      HandlerOnChain(w, o, e);
    }
  }

  lemma {:induction false} RunOnChain(w: World, o: Order, events: seq<Event>)
    requires Inv(w, o) && OnChain(w, o)
    ensures OnChain(Run(w, o, events), o)
    decreases |events|
  {
    if events != [] {
      StepOnChain(w, o, events[0]);
      NextKeeps(w, o, events[0]);
      RunOnChain(Next(w, o, events[0]), o, events[1..]);
    }
  }

  /** At every point of every run a receipt that is bought or recorded, and so not refundable, stands for a registered name. */
  lemma BoughtIsOnChain(w: World, o: Order, events: seq<Event>)
    requires Start(w, o)
    ensures OnChain(Run(w, o, events), o)
  {
    RunOnChain(w, o, events);
  }

  // ---------- The three ways to lose it ----------

  lemma RunStep(w: World, o: Order, e: Event, rest: seq<Event>)
    ensures Run(w, o, [e] + rest) == Run(Next(w, o, e), o, rest)
  {
    assert ([e] + rest)[1..] == rest;
  }

  /** An order that is debited, for somebody with an account or for more than nothing. */
  ghost predicate Debits(w: World, o: Order, now: int) {
    && Start(w, o) && o.supplied.None? && Keyed(w.db.book) && (o.owner in w.db.book.users || o.winc >= 1)
    && Arns.CreateReceipt(w.db, o.nonce, o.owner, o.winc, o.paidBy, o.supplied, now).Ok?
  }

  /** Nobody without an account has a share in a charge. */
  lemma OwnerHasAccount(b: Book, o: Order)
    requires Keyed(b) && o.owner !in b.users && o.winc >= 1
    requires Spend(b, o.owner, o.winc, o.paidBy, ListOrSigner, ArnsPurchaseOrder, o.nonce).Ok?
    ensures var s := Spend(b, o.owner, o.winc, o.paidBy, ListOrSigner, ArnsPurchaseOrder, o.nonce).value;
            forall i :: 0 <= i < |SharesOf(s.overflow, o.owner, o.winc)| ==> SharesOf(s.overflow, o.owner, o.winc)[i].payer != o.owner
  {
    SpendReady(b, o.owner, o.winc, o.paidBy, ListOrSigner, ArnsPurchaseOrder, o.nonce);
    RecordedShares(b, o.owner, o.winc, o.paidBy, ListOrSigner, ArnsPurchaseOrder, o.nonce);
    var parts := PlanSpend(b, o.owner, o.winc, Dedupe(o.paidBy), ListOrSigner).value;
    assert forall i :: 0 <= i < |parts| ==> Fits(b, o.owner, parts[i]);
  }

  /** While it is unconfirmed, such an order's refund is accepted. */
  lemma DebitAccepted(w: World, o: Order, now: int, v: World, later: int)
    requires Debits(w, o, now) && v.db.book == Next(w, o, Debit(now)).db.book
    requires var r := Next(w, o, Debit(now)).db.receipts[o.nonce];
             Receipt(v, o).Some? && Arns.Unconfirmed(Receipt(v, o).value.status)
             && Receipt(v, o).value.owner == r.owner && Receipt(v, o).value.winc == r.winc && Receipt(v, o).value.overflow == r.overflow
    ensures Accepted(v, o, later)
  {
    SpendTakes(w.db.book, o.owner, o.winc, o.paidBy, ListOrSigner, ArnsPurchaseOrder, o.nonce);
    if o.owner !in w.db.book.users { OwnerHasAccount(w.db.book, o); }
    Arns.FailSucceeds(v.db, o.nonce, later);
  }

  lemma RefundedThenBought(minted: World, o: Order, ant: Id, now: int)
    requires minted.stage == Minted(ant) && minted.chain.None? && Accepted(minted, o, now)
    ensures var e := Next(Next(Next(minted, o, RefundJob(now)), o, Persist), o, BuyLands);
            BoughtByUs(e) && Receipt(e, o).None?
  {
    var refunded := Next(minted, o, RefundJob(now));
    assert refunded.stage == Minted(ant) && Receipt(refunded, o).None?;
  }

  lemma ThrownThenLanded(ready: World, o: Order, ant: Id, now: int)
    requires ready.stage == Ready(ant) && ready.chain.None? && Accepted(Next(ready, o, BuyThrows), o, now)
    ensures var e := Next(Next(Next(ready, o, BuyThrows), o, ConfirmAndSettle(now)), o, LandsLate);
            BoughtByUs(e) && Receipt(e, o).None?
  {
    var caught := Next(ready, o, BuyThrows);
    assert caught.stage == Caught(Some(ant)) && caught.sent == Some(ant) && caught.chain.None?;
    var settled := Next(caught, o, ConfirmAndSettle(now));
    assert Receipt(settled, o).None? && settled.sent == Some(ant) && settled.chain.None?;
  }

  lemma LandedThenRefunded(ready: World, o: Order, ant: Id, now: int)
    requires ready.stage == Ready(ant) && ready.chain.None?
    requires Accepted(Next(Next(ready, o, BuyLands), o, ThrowsAfterLanding), o, now)
    ensures var e := Next(Next(Next(ready, o, BuyLands), o, ThrowsAfterLanding), o, ReadThrows(now));
            BoughtByUs(e) && Receipt(e, o).None?
  {
  }

  /** A refund job between the spawn and the persist: the persist selects no row, the buy goes ahead. */
  lemma RefundJobLosesMapping(w: World, o: Order, ant: Id, t0: int, t1: int)
    requires Debits(w, o, t0)
    ensures var e := Run(w, o, [Debit(t0), Spawn(ant), RefundJob(t1), Persist, BuyLands]);
            BoughtByUs(e) && Receipt(e, o).None?
  {
    var paid := Next(w, o, Debit(t0));
    var minted := Next(paid, o, Spawn(ant));
    DebitAccepted(w, o, t0, minted, t1);
    RefundedThenBought(minted, o, ant, t1);
    RunFive(w, o, Debit(t0), Spawn(ant), RefundJob(t1), Persist, BuyLands);
  }

  lemma RunFive(w: World, o: Order, a: Event, b: Event, c: Event, d: Event, e: Event)
    ensures Run(w, o, [a, b, c, d, e]) == Next(Next(Next(Next(Next(w, o, a), o, b), o, c), o, d), o, e)
  {
    assert [a, b, c, d, e] == [a] + [b, c, d, e] && [b, c, d, e] == [b] + [c, d, e] && [c, d, e] == [c] + [d, e] && [d, e] == [d] + [e];
    RunStep(w, o, a, [b, c, d, e]);
    RunStep(Next(w, o, a), o, b, [c, d, e]);
    RunStep(Next(Next(w, o, a), o, b), o, c, [d, e]);
    RunStep(Next(Next(Next(w, o, a), o, b), o, c), o, d, [e]);
    assert [e] == [e] + [];
    RunStep(Next(Next(Next(Next(w, o, a), o, b), o, c), o, d), o, e, []);
  }

  lemma RunSix(w: World, o: Order, a: Event, b: Event, c: Event, d: Event, e: Event, f: Event)
    ensures Run(w, o, [a, b, c, d, e, f]) == Next(Next(Next(Next(Next(Next(w, o, a), o, b), o, c), o, d), o, e), o, f)
  {
    assert [a, b, c, d, e, f] == [a] + [b, c, d, e, f];
    RunStep(w, o, a, [b, c, d, e, f]);
    RunFive(Next(w, o, a), o, b, c, d, e, f);
  }

  /** The first three steps: the receipt carries the spawned ANT and may still be refunded. */
  lemma Prepared(w: World, o: Order, ant: Id, now: int) returns (ready: World)
    requires Debits(w, o, now)
    ensures ready == Next(Next(Next(w, o, Debit(now)), o, Spawn(ant)), o, Persist)
    ensures ready.stage == Ready(ant) && ready.chain.None? && ready.refunds == 0
    ensures forall v: World, later: int {:trigger Accepted(v, o, later)} :: v.db == ready.db ==> Accepted(v, o, later)
  {
    ready := Next(Next(Next(w, o, Debit(now)), o, Spawn(ant)), o, Persist);
    forall v: World, later: int | v.db == ready.db ensures Accepted(v, o, later) { DebitAccepted(w, o, now, v, later); }
  }

  /** A landed buy whose call threw while the chain cannot be read is refunded. */
  lemma UnreadableChainRefundsLanded(w: World, o: Order, ant: Id, t0: int, t1: int)
    requires Debits(w, o, t0)
    ensures var e := Run(w, o, [Debit(t0), Spawn(ant), Persist, BuyLands, ThrowsAfterLanding, ReadThrows(t1)]);
            BoughtByUs(e) && Receipt(e, o).None?
  {
    var ready := Prepared(w, o, ant, t0);
    LandedThenRefunded(ready, o, ant, t1);
    RunSix(w, o, Debit(t0), Spawn(ant), Persist, BuyLands, ThrowsAfterLanding, ReadThrows(t1));
  }

  /** A buy that threw, was not on chain when the name was read, and lands after the refund. */
  lemma LateLandingLosesMapping(w: World, o: Order, ant: Id, t0: int, t1: int)
    requires Debits(w, o, t0)
    ensures var e := Run(w, o, [Debit(t0), Spawn(ant), Persist, BuyThrows, ConfirmAndSettle(t1), LandsLate]);
            BoughtByUs(e) && Receipt(e, o).None?
  {
    var ready := Prepared(w, o, ant, t0);
    ThrownThenLanded(ready, o, ant, t1);
    RunSix(w, o, Debit(t0), Spawn(ant), Persist, BuyThrows, ConfirmAndSettle(t1), LandsLate);
  }
}
