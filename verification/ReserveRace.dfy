/**
 Concurrent reserves. A reserve is a database transaction of three steps: look for an active reservation of the
 data item; read and plan the charge, locking the signer; write the charge as planned together with the
 reservation. The partial unique index refuses a second active row for an item, which rolls the transaction back.
 Steps of any number of transactions interleave; refunds and credits are single steps that wait for the locks they need.
 */
module ReserveRace {
  import opened Wrappers
  import opened Ledger
  import opened Approvals
  import opened Allocation
  import opened Spending
  import opened Lending
  import opened Refunds
  import opened RoundTrip
  import Runs
  import Reservations

  type Pid = nat

  datatype Request = Request(id: Id, item: Id, signer: Addr, winc: nat, paidBy: seq<Addr>, directive: Directive, now: int)

  datatype Stage =
    | Idle
    | Looked(req: Request)                                        // found no active reservation
    | Debited(req: Request, parts: seq<Part>, balance: int)       // planned from what it read; holds the signer's lock

  /** The committed tables, the locks, the open transactions, and what was committed so far. */
  datatype World = World(
    desk: Reservations.Desk, locks: map<Addr, Pid>, stages: map<Pid, Stage>, debits: multiset<Id>, refunds: multiset<Id>)

  datatype Act =
    | Look(p: Pid, req: Request)
    | Debit(p: Pid)
    | Insert(p: Pid)
    | Abort(p: Pid)
    | RefundItem(signer: Addr, amount: int, item: Id, now: int)
    | Credit(user: Addr, winc: nat, reason: AuditReason, change: Id)

  function StageOf(w: World, p: Pid): Stage { if p in w.stages then w.stages[p] else Idle }

  function PlanOf(b: Book, q: Request): Result<seq<Part>, Error> { PlanSpend(b, q.signer, q.winc, Dedupe(q.paidBy), q.directive) }

  /** The rows a transaction writes when it commits: those of its plan, computed from the values it read. */
  function Written(b: Book, q: Request, parts: seq<Part>, balance: int): Result<Book, Error> {
    if q.winc < 1 then Ok(b) else ApplyParts(b, parts, Charge(q.signer, balance, Upload, q.item))
  }

  function RowOf(q: Request, parts: seq<Part>): Reservations.Reservation
    requires parts != []
  {
    Reservations.Reservation(q.id, q.item, q.signer, q.winc, OverflowOf(parts, q.signer), false, q.now)
  }

  function Stop(w: World, p: Pid): World {
    var s := StageOf(w, p);
    w.(stages := w.stages[p := Idle], locks := if s.Debited? then w.locks - {s.req.signer} else w.locks)
  }

  function SharesFor(d: Reservations.Desk, signer: Addr, amount: int, item: Id): seq<Share> {
    var found := Reservations.Active(d.rows, item);
    SharesOf(if found == [] then None else Reservations.Newest(found).overflow, signer, amount)
  }

  /** A refund waits for the signer and the payers it may pay. */
  predicate Waits(w: World, signer: Addr, shares: seq<Share>) {
    signer in w.locks || exists s :: s in shares && s.payer in w.locks
  }

  /** The insert goes through: neither the unique index nor the primary key refuses it. */
  predicate Inserts(w: World, p: Pid) {
    var s := StageOf(w, p);
    s.Debited? && s.parts != [] && Reservations.Active(w.desk.rows, s.req.item) == [] && !Reservations.HasRow(w.desk.rows, s.req.id)
    && Written(w.desk.book, s.req, s.parts, s.balance).Ok?
  }

  predicate Passes(w: World, a: Act)
    requires a.RefundItem?
  {
    !Waits(w, a.signer, SharesFor(w.desk, a.signer, a.amount, a.item)) &&
      Reservations.RefundItem(w.desk, a.signer, a.amount, a.item, a.now).Ok?
  }

  /** A blocked or senseless act leaves the world as it is. */
  function Next(w: World, a: Act): World {
    match a
    case Look(p, req) =>
      if StageOf(w, p).Idle? && Reservations.Active(w.desk.rows, req.item) == [] then w.(stages := w.stages[p := Looked(req)]) else w
    case Debit(p) =>
      var s := StageOf(w, p);
      if !s.Looked? || s.req.signer in w.locks then w
      else
        var plan := PlanOf(w.desk.book, s.req);
        var balance := Balance(w.desk.book, s.req.signer);
        if plan.Err? || plan.value == [] || Written(w.desk.book, s.req, plan.value, balance).Err? then Stop(w, p)
        else w.(stages := w.stages[p := Debited(s.req, plan.value, balance)], locks := w.locks[s.req.signer := p])
    case Insert(p) =>
      var s := StageOf(w, p);
      if !s.Debited? then w
      else if !Inserts(w, p) then Stop(w, p)
      else
        Stop(w, p).(desk := Reservations.Desk(w.desk.rows + [RowOf(s.req, s.parts)], Written(w.desk.book, s.req, s.parts, s.balance).value),
                    debits := w.debits + multiset{s.req.item})
    case Abort(p) => Stop(w, p)
    case RefundItem(signer, amount, item, now) =>
      if !Passes(w, a) then w
      else
        w.(desk := Reservations.RefundItem(w.desk, signer, amount, item, now).value,
           refunds := if Reservations.Active(w.desk.rows, item) == [] then w.refunds else w.refunds + multiset{item})
    case Credit(user, winc, reason, change) =>
      if user in w.locks then w
      else w.(desk := w.desk.(book := Runs.CreditUser(w.desk.book, user, winc, reason, reason, change)))
  }

  function Run(w: World, acts: seq<Act>): World
    decreases |acts|
  {
    if acts == [] then w else Run(Next(w, acts[0]), acts[1..])
  }

  /** The service's own operations, each in one step. */
  datatype Atomic =
    | Reserved(req: Request)
    | Refunded(signer: Addr, amount: int, item: Id, now: int)
    | Credited(user: Addr, winc: nat, reason: AuditReason, change: Id)

  function Commit(d: Reservations.Desk, c: Atomic): Reservations.Desk {
    match c
    case Reserved(q) =>
      var r := Reservations.Reserve(d, q.id, q.signer, q.winc, q.item, q.paidBy, q.directive, q.now);
      if r.Ok? then r.value else d
    case Refunded(signer, amount, item, now) =>
      var r := Reservations.RefundItem(d, signer, amount, item, now);
      if r.Ok? then r.value else d
    case Credited(user, winc, reason, change) => d.(book := Runs.CreditUser(d.book, user, winc, reason, reason, change))
  }

  function Serial(d: Reservations.Desk, log: seq<Atomic>): Reservations.Desk
    decreases |log|
  {
    if log == [] then d else Serial(Commit(d, log[0]), log[1..])
  }

  /** What a step commits. */
  function CommitOf(w: World, a: Act): seq<Atomic> {
    match a
    case Insert(p) => if Inserts(w, p) then [Reserved(StageOf(w, p).req)] else []
    case RefundItem(signer, amount, item, now) => if Passes(w, a) then [Refunded(signer, amount, item, now)] else []
    case Credit(user, winc, reason, change) => if user in w.locks then [] else [Credited(user, winc, reason, change)]
    case _ => []
  }

  function LogOf(w: World, acts: seq<Act>): seq<Atomic>
    decreases |acts|
  {
    if acts == [] then [] else CommitOf(w, acts[0]) + LogOf(Next(w, acts[0]), acts[1..])
  }

  // ---------- What a charge reads ----------

  /** Nothing that a charge of this signer reads differs. */
  ghost predicate Same(b: Book, e: Book, signer: Addr) {
    Balance(e, signer) == Balance(b, signer)
    && forall p :: p != signer ==> Pick(e.active, Between(p, signer)) == Pick(b.active, Between(p, signer))
  }

  lemma {:induction false} PlanListSame(b: Book, e: Book, signer: Addr, paid: seq<Addr>, p: Planning)
    requires Same(b, e, signer)
    ensures PlanList(e, signer, paid, p) == PlanList(b, signer, paid, p)
    decreases |paid|
  {
    if paid != [] && p.rest != 0 { PlanListSame(b, e, signer, paid[1..], PlanPayer(b, signer, paid[0], p)); }
  }

  /** A plan made earlier is still the plan, and can still be written in full. */
  ghost predicate Planned(b: Book, q: Request, parts: seq<Part>, balance: int) {
    PlanOf(b, q) == Ok(parts) && parts != [] && balance == Balance(b, q.signer) && Written(b, q, parts, balance).Ok?
  }

  lemma PlannedSame(b: Book, e: Book, q: Request, parts: seq<Part>, balance: int)
    requires Keyed(b) && Keyed(e) && Same(b, e, q.signer) && Planned(b, q, parts, balance)
    ensures Planned(e, q, parts, balance)
  {
    PlanListSame(b, e, q.signer, Dedupe(q.paidBy), Planning([], q.winc, false));
    if q.winc >= 1 {
      SpendReady(b, q.signer, q.winc, q.paidBy, q.directive, Upload, q.item);
      assert forall i :: 0 <= i < |parts| ==> Fits(b, q.signer, parts[i]) && Fits(e, q.signer, parts[i]);
      SpendReady(e, q.signer, q.winc, q.paidBy, q.directive, Upload, q.item);
    }
  }

  /** Writing a planned charge is the atomic charge. */
  lemma WrittenIsSpend(b: Book, q: Request, parts: seq<Part>, balance: int)
    requires Keyed(b) && Planned(b, q, parts, balance)
    ensures Spend(b, q.signer, q.winc, q.paidBy, q.directive, Upload, q.item)
            == Ok(Spent(Written(b, q, parts, balance).value, OverflowOf(parts, q.signer)))
  {
  }

  /** A charge leaves what other signers' charges read. */
  lemma WrittenFrame(b: Book, q: Request, parts: seq<Part>, balance: int, u: Addr)
    requires Keyed(b) && Planned(b, q, parts, balance) && u != q.signer
    ensures Same(b, Written(b, q, parts, balance).value, u)
  {
    WrittenIsSpend(b, q, parts, balance);
    if q.winc >= 1 {
      var c := Charge(q.signer, balance, Upload, q.item);
      SpendReady(b, q.signer, q.winc, q.paidBy, q.directive, Upload, q.item);
      ApplySound(b, parts, c);
      forall p | p != u ensures Pick(Written(b, q, parts, balance).value.active, Between(p, u)) == Pick(b.active, Between(p, u)) {
        ApplyLink(b, parts, c, Between(p, u));
      }
    }
  }

  lemma {:induction false} MoveFrame(b: Book, rows: seq<Approval>, now: int, link: Link)
    requires Keyed(b) && (forall r :: r in rows ==> r in b.active && !Matches(link, r)) && UniqueIds(rows)
    ensures Pick(MoveExpired(b, rows, now).active, link) == Pick(b.active, link)
    decreases |rows|
  {
    if rows != [] {
      if Live(rows[0], now) {
        MoveFrame(b, rows[1..], now, link);
      } else {
        MoveOne(b, rows[0]);
        ReplaceFrame(b.active, rows[0], None, link);
        MoveFrame(Moved(b, rows[0]), rows[1..], now, link);
      }
    }
  }

  lemma TrimFrame(b: Book, link: Link, now: int, u: Addr)
    requires Keyed(b) && link.Between? && u != link.payer && u != link.spender
    ensures Trim(b, Pick(b.active, link), now).Ok? && Same(b, Trim(b, Pick(b.active, link), now).value, u)
  {
    var rows := Pick(b.active, link);
    PickedRows(b, link);
    TrimNeutral(b, rows, now);
    forall r | r in ExpiredRows(rows, now) ensures r.payer != u { ExpiredIn(rows, now, r); }
    NothingGiven(ExpiredRows(rows, now), u);
    TrimTables(b, rows, now);
    forall p ensures Pick(Trim(b, rows, now).value.active, Between(p, u)) == Pick(b.active, Between(p, u)) {
      MoveFrame(b, rows, now, Between(p, u));
    }
  }

  lemma RefundPayerFrame(b: Book, share: Share, f: Refunding, u: Addr)
    requires Keyed(b) && u != share.payer && u != f.signer && RefundPayer(b, share, f).Ok?
    ensures Same(b, RefundPayer(b, share, f).value, u)
  {
    var link := Between(share.payer, f.signer);
    LiveRowsAfterTrim(b, link, f.now);
    TrimFrame(b, link, f.now, u);
    var t := Trim(b, Pick(b.active, link), f.now).value;
    var rows := LiveRows(Pick(b.active, link), f.now);
    GiveActiveSound(t, rows, link, share.winc, share.winc);
    var g := GiveActive(Giving(t.active, share.winc), rows, share.winc);
    var given := t.(active := g.active);
    PickedRows(given, link);
    var inactive := PickInactive(given.inactive, link);
    RestoreBalances(Restoring(given, g.rest), inactive, link, f.change);
    forall p | p != u ensures Pick(RefundPayer(b, share, f).value.active, Between(p, u)) == Pick(b.active, Between(p, u)) {
      GiveActiveTotals(t, rows, link, share.winc, share.winc, Between(p, u));
      RestoreTotals(Restoring(given, g.rest), inactive, link, f.change, Between(p, u));
    }
  }

  /** A refund leaves what the charges of everybody else read. */
  lemma {:induction false} RefundFrame(b: Book, shares: seq<Share>, f: Refunding, u: Addr)
    requires Keyed(b) && u != f.signer && (forall s :: s in shares ==> s.payer != u)
    requires !IsApprovedSpend(f.reason) && RefundShares(b, shares, f).Ok?
    ensures Same(b, RefundShares(b, shares, f).value, u)
    decreases |shares|
  {
    if shares != [] {
      var e := RefundShare(b, shares[0], f).value;
      if shares[0].payer != f.signer {
        RefundPayerFrame(b, shares[0], f, u);
        RefundPayerSound(b, shares[0], f);
      }
      RefundFrame(e, shares[1..], f, u);
    }
  }

  // ---------- The invariant ----------

  /** An open transaction that has planned holds its signer's lock, and its plan is what it would plan now. */
  ghost predicate LocksHeld(w: World) {
    forall p :: p in w.stages && w.stages[p].Debited? ==>
      var s := w.stages[p];
      s.req.signer in w.locks && w.locks[s.req.signer] == p && Planned(w.desk.book, s.req, s.parts, s.balance)
  }

  /** Debits less refunds of an item are its number of active reservations. */
  ghost predicate Counted(w: World) {
    forall item :: w.debits[item] == w.refunds[item] + |Reservations.Active(w.desk.rows, item)|
  }

  ghost predicate Inv(w: World) {
    Keyed(w.desk.book) && Balanced(w.desk.book) && LocksHeld(w) && Reservations.Exclusive(w.desk) && Counted(w)
  }

  /** A step that changes the book without touching what open transactions have read keeps their plans. */
  lemma LocksKept(w: World, e: World)
    requires LocksHeld(w) && Keyed(w.desk.book) && Keyed(e.desk.book)
    requires forall p :: p in e.stages && e.stages[p].Debited? ==> p in w.stages && w.stages[p] == e.stages[p]
    requires forall p :: p in e.stages && e.stages[p].Debited? ==>
               var u := e.stages[p].req.signer;
               && (u in w.locks ==> u in e.locks && e.locks[u] == w.locks[u])
               && Same(w.desk.book, e.desk.book, u)
    ensures LocksHeld(e)
  {
    forall p | p in e.stages && e.stages[p].Debited?
      ensures var s := e.stages[p];
              s.req.signer in e.locks && e.locks[s.req.signer] == p && Planned(e.desk.book, s.req, s.parts, s.balance)
    {
      var s := e.stages[p];
      PlannedSame(w.desk.book, e.desk.book, s.req, s.parts, s.balance);
    }
  }

  /** An insert that goes through commits exactly the atomic reserve on the tables as they are then. */
  lemma InsertIsReserve(w: World, p: Pid)
    requires Inv(w) && Inserts(w, p)
    ensures var q := StageOf(w, p).req;
            Reservations.Reserve(w.desk, q.id, q.signer, q.winc, q.item, q.paidBy, q.directive, q.now) == Ok(Next(w, Insert(p)).desk)
  {
    var s := StageOf(w, p);
    WrittenIsSpend(w.desk.book, s.req, s.parts, s.balance);
  }

  lemma InsertKeepsBook(w: World, p: Pid)
    requires Inv(w) && Inserts(w, p)
    ensures var e := Next(w, Insert(p)); Keyed(e.desk.book) && Balanced(e.desk.book) && LocksHeld(e)
  {
    var s := StageOf(w, p);
    var e := Next(w, Insert(p));
    WrittenIsSpend(w.desk.book, s.req, s.parts, s.balance);
    SpendTakes(w.desk.book, s.req.signer, s.req.winc, s.req.paidBy, s.req.directive, Upload, s.req.item);
    forall q | q in e.stages && e.stages[q].Debited?
      ensures q in w.stages && w.stages[q] == e.stages[q] && e.stages[q].req.signer != s.req.signer
      ensures Same(w.desk.book, e.desk.book, e.stages[q].req.signer)
    {
      WrittenFrame(w.desk.book, s.req, s.parts, s.balance, e.stages[q].req.signer);
    }
    LocksKept(w, e);
  }

  lemma InsertKeepsRows(w: World, p: Pid)
    requires Inv(w) && Inserts(w, p)
    ensures Reservations.Exclusive(Next(w, Insert(p)).desk) && Counted(Next(w, Insert(p)))
  {
    var s := StageOf(w, p);
    var e := Next(w, Insert(p));
    InsertIsReserve(w, p);
    Reservations.ReserveExclusive(w.desk, s.req.id, s.req.signer, s.req.winc, s.req.item, s.req.paidBy, s.req.directive, s.req.now);
    forall item ensures e.debits[item] == e.refunds[item] + |Reservations.Active(e.desk.rows, item)| {
      Reservations.ActiveAppend(w.desk.rows, RowOf(s.req, s.parts), item);
    }
  }

  lemma RefundKeepsBook(w: World, a: Act)
    requires Inv(w) && a.RefundItem? && Passes(w, a)
    ensures var e := Next(w, a); Keyed(e.desk.book) && Balanced(e.desk.book) && LocksHeld(e)
  {
    var e := Next(w, a);
    var shares := SharesFor(w.desk, a.signer, a.amount, a.item);
    var f := Refunding(a.signer, RefundedUpload, a.item, a.now);
    RefundSharesSound(w.desk.book, shares, f);
    forall q | q in e.stages && e.stages[q].Debited? ensures Same(w.desk.book, e.desk.book, e.stages[q].req.signer) {
      RefundFrame(w.desk.book, shares, f, e.stages[q].req.signer);
    }
    LocksKept(w, e);
  }

  lemma RefundKeepsRows(w: World, a: Act)
    requires Inv(w) && a.RefundItem? && Passes(w, a)
    ensures Reservations.Exclusive(Next(w, a).desk) && Counted(Next(w, a))
  {
    var e := Next(w, a);
    var rows := w.desk.rows;
    Reservations.RefundExclusive(w.desk, a.signer, a.amount, a.item, a.now);
    var found := Reservations.Active(rows, a.item);
    if found != [] {
      var r := Reservations.Newest(found);
      Reservations.NewestIn(found);
      Reservations.ActiveIn(rows, a.item, r);
      forall item | item != a.item ensures Reservations.Active(e.desk.rows, item) == Reservations.Active(rows, item) {
        Reservations.MarkKeepsOthers(rows, r.id, item);
      }
    }
  }

  lemma StopKeeps(w: World, p: Pid)
    requires Inv(w)
    ensures Inv(Stop(w, p))
  {
    LocksKept(w, Stop(w, p));
  }

  lemma CreditKeeps(w: World, a: Act)
    requires Inv(w) && a.Credit? && !IsApprovedSpend(a.reason)
    ensures Inv(Next(w, a))
  {
    if a.user !in w.locks {
      PostBalances(w.desk.book, a.user, a.winc, a.reason, Some(a.change));
      LocksKept(w, Next(w, a));
    }
  }

  lemma DebitKeeps(w: World, p: Pid)
    requires Inv(w)
    ensures Inv(Next(w, Debit(p)))
  {
    StopKeeps(w, p);
  }

  predicate Proper(a: Act) { a.Credit? ==> !IsApprovedSpend(a.reason) }

  lemma NextKeeps(w: World, a: Act)
    requires Inv(w) && Proper(a)
    ensures Inv(Next(w, a))
  {
    match a
    case Look(p, req) =>
    case Debit(p) => DebitKeeps(w, p);
    case Insert(p) =>
      if Inserts(w, p) {
        InsertKeepsBook(w, p);
        InsertKeepsRows(w, p);
      } else {
        StopKeeps(w, p);
      }
    case Abort(p) => StopKeeps(w, p);
    case RefundItem(_, _, _, _) =>
      if Passes(w, a) {
        RefundKeepsBook(w, a);
        RefundKeepsRows(w, a);
      }
    case Credit(_, _, _, _) => CreditKeeps(w, a);
  }

  /** A planned charge is never refused when it is written: only the keys can roll a transaction back then. */
  lemma InsertRefusedByKeys(w: World, p: Pid)
    requires Inv(w) && StageOf(w, p).Debited?
    ensures var q := StageOf(w, p).req;
            Inserts(w, p) <==> Reservations.Active(w.desk.rows, q.item) == [] && !Reservations.HasRow(w.desk.rows, q.id)
  {
  }

  // ---------- Every interleaving is serial ----------

  lemma StepSerial(w: World, a: Act)
    requires Inv(w)
    ensures Next(w, a).desk == Serial(w.desk, CommitOf(w, a))
  {
    if a.Insert? && Inserts(w, a.p) { InsertIsReserve(w, a.p); }
    var log := CommitOf(w, a);
    if log != [] { assert log[1..] == []; }
  }

  lemma {:induction false} SerialAppend(d: Reservations.Desk, log: seq<Atomic>, more: seq<Atomic>)
    ensures Serial(d, log + more) == Serial(Serial(d, log), more)
    decreases |log|
  {
    if log == [] {
      assert log + more == more;
    } else {
      assert (log + more)[1..] == log[1..] + more;
      SerialAppend(Commit(d, log[0]), log[1..], more);
    }
  }

  /**
   Any interleaving of any number of reserves with refunds and credits ends in the tables that the committed
   operations reach one after the other, each in a single step, in the order of their commits.
   */
  lemma {:induction false} RunSerial(w: World, acts: seq<Act>)
    requires Inv(w) && (forall a :: a in acts ==> Proper(a))
    ensures Run(w, acts).desk == Serial(w.desk, LogOf(w, acts))
    decreases |acts|
  {
    if acts != [] {
      StepSerial(w, acts[0]);
      NextKeeps(w, acts[0]);
      RunSerial(Next(w, acts[0]), acts[1..]);
      SerialAppend(w.desk, CommitOf(w, acts[0]), LogOf(Next(w, acts[0]), acts[1..]));
    }
  }

  /**
   Along every interleaving: an item has at most one active reservation, its committed debits less refunds are that
   number, approvals are sound and balances equal their audit sums.
   */
  lemma {:induction false} RunKeeps(w: World, acts: seq<Act>)
    requires Inv(w) && (forall a :: a in acts ==> Proper(a))
    ensures Inv(Run(w, acts))
    decreases |acts|
  {
    if acts != [] {
      NextKeeps(w, acts[0]);
      RunKeeps(Next(w, acts[0]), acts[1..]);
    }
  }

  function Fresh(b: Book): World { World(Reservations.Desk([], b), map[], map[], multiset{}, multiset{}) }

  lemma ChargedOnce(b: Book, acts: seq<Act>, item: Id)
    requires Keyed(b) && Balanced(b) && (forall a :: a in acts ==> Proper(a))
    ensures var w := Run(Fresh(b), acts);
            && w.debits[item] == w.refunds[item] + |Reservations.Active(w.desk.rows, item)|
            && |Reservations.Active(w.desk.rows, item)| <= 1
  {
    assert forall i :: Reservations.Active(Fresh(b).desk.rows, i) == [];
    RunKeeps(Fresh(b), acts);
  }

  // ---------- The look-up alone is not enough ----------

  /** The insert without the unique index. */
  function InsertUnchecked(w: World, p: Pid): World {
    var s := StageOf(w, p);
    if !s.Debited? || s.parts == [] || Written(w.desk.book, s.req, s.parts, s.balance).Err? then w
    else
      Stop(w, p).(desk := Reservations.Desk(w.desk.rows + [RowOf(s.req, s.parts)], Written(w.desk.book, s.req, s.parts, s.balance).value),
                  debits := w.debits + multiset{s.req.item})
  }

  function Wants(id: Id): Request { Request(id, "d", "a", 3, [], ListOrSigner, 0) }

  /** Two requests for one item that both looked before either inserted. */
  function BothLooked(): World {
    Fresh(Book(map["a" := 10], [], [], [])).(stages := map[1 := Looked(Wants("x")), 2 := Looked(Wants("y"))])
  }

  lemma BothCanLook()
    ensures Run(Fresh(Book(map["a" := 10], [], [], [])), [Look(1, Wants("x")), Look(2, Wants("y"))]) == BothLooked()
  {
    var acts := [Look(1, Wants("x")), Look(2, Wants("y"))];
    assert acts[1..] == [Look(2, Wants("y"))];
    assert [Look(2, Wants("y"))][1..] == [];
  }

  lemma PlainDebit(w: World, p: Pid, id: Id)
    requires StageOf(w, p) == Looked(Wants(id)) && "a" !in w.locks && Balance(w.desk.book, "a") >= 3
    ensures var e := InsertUnchecked(Next(w, Debit(p)), p);
            && e.desk.rows == w.desk.rows + [Reservations.Reservation(id, "d", "a", 3, None, false, 0)]
            && Balance(e.desk.book, "a") == Balance(w.desk.book, "a") - 3
            && e.debits == w.debits + multiset{"d"}
            && e.locks == w.locks && e.stages == w.stages[p := Idle]
  {
    var part := Part("a", 3, []);
    assert PlanOf(w.desk.book, Wants(id)) == Ok([part]);
    var c := Charge("a", Balance(w.desk.book, "a"), Upload, "d");
    assert [part][1..] == [];
    assert ApplyParts(w.desk.book, [part], c) == ApplyPart(w.desk.book, part, c);
    var d := Next(w, Debit(p));
    assert d.locks - {"a"} == w.locks;
  }

  /** Both looked before either inserted: without the index they would charge the item twice. */
  lemma LookAloneChargesTwice()
    ensures var looked := Run(Fresh(Book(map["a" := 10], [], [], [])), [Look(1, Wants("x")), Look(2, Wants("y"))]);
            var first := InsertUnchecked(Next(looked, Debit(1)), 1);
            var second := InsertUnchecked(Next(first, Debit(2)), 2);
            second.debits["d"] == 2 && |Reservations.Active(second.desk.rows, "d")| == 2 && Balance(second.desk.book, "a") == 4
  {
    BothCanLook();
    PlainDebit(BothLooked(), 1, "x");
    var first := InsertUnchecked(Next(BothLooked(), Debit(1)), 1);
    PlainDebit(first, 2, "y");
    var x := Reservations.Reservation("x", "d", "a", 3, None, false, 0);
    var y := Reservations.Reservation("y", "d", "a", 3, None, false, 0);
    Reservations.ActiveAppend([], x, "d");
    Reservations.ActiveAppend([x], y, "d");
    assert [] + [x] == [x];
  }
}
