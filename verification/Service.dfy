/**
 The whole service: all tables over one book, and every operation. Each step's effect on the book is a run of
 balance operations, so what those keep holds over every run of the service.
 */
module Service {
  import opened Wrappers
  import opened Ledger
  import opened Allocation
  import opened Spending
  import opened Refunds
  import opened RoundTrip
  import opened Debt
  import Loans
  import Runs
  import Payments
  import Crypto
  import Arns
  import Reservations

  datatype Tables = Tables(
    quotes: map<Id, Payments.Quote>, receipts: seq<Payments.Receipt>, chargebacks: seq<Payments.ChargebackReceipt>,
    gifts: map<Id, Payments.Gift>, redeemed: map<Id, Payments.RedeemedGift>,
    pending: map<Id, Crypto.Tx>, credited: seq<Crypto.Tx>, failed: map<Id, Crypto.Tx>,
    purchases: map<Id, Arns.Receipt>, failedPurchases: seq<Arns.Receipt>,
    reservations: seq<Reservations.Reservation>,
    book: Book)

  function ShopOf(t: Tables): Payments.Shop { Payments.Shop(t.quotes, t.receipts, t.chargebacks, t.gifts, t.redeemed, t.book) }

  function TillOf(t: Tables): Crypto.Till { Crypto.Till(t.pending, t.credited, t.failed, t.book) }

  function RegistryOf(t: Tables): Arns.Registry { Arns.Registry(t.purchases, t.failedPurchases, t.book) }

  function DeskOf(t: Tables): Reservations.Desk { Reservations.Desk(t.reservations, t.book) }

  datatype Op =
    | Money(money: Runs.Op)
    | Shopping(shopping: Payments.Op)
    | Paying(paying: Crypto.Op)
    | Buying(buying: Arns.Op)
    | Reserve(id: Id, signer: Addr, winc: nat, item: Id, paidBy: seq<Addr>, directive: Directive, now: int)
    | RefundItem(signer: Addr, amount: int, item: Id, now: int)

  function Bought(g: Arns.Registry, op: Arns.Op): Arns.Registry { Arns.Step(Arns.Trace(g, multiset{}, multiset{}), op).now }

  function Reserved(d: Reservations.Desk, op: Op): Reservations.Desk
    requires op.Reserve? || op.RefundItem?
  {
    var r := if op.Reserve? then Reservations.Reserve(d, op.id, op.signer, op.winc, op.item, op.paidBy, op.directive, op.now)
             else Reservations.RefundItem(d, op.signer, op.amount, op.item, op.now);
    if r.Ok? then r.value else d
  }

  function Apply(t: Tables, op: Op): Tables {
    match op
    case Money(money) => t.(book := Runs.Apply(t.book, money))
    case Shopping(shopping) =>
      var s := Payments.Apply(ShopOf(t), shopping);
      t.(quotes := s.quotes, receipts := s.receipts, chargebacks := s.chargebacks, gifts := s.gifts, redeemed := s.redeemed, book := s.book)
    case Paying(paying) =>
      var s := Crypto.Apply(TillOf(t), paying);
      t.(pending := s.pending, credited := s.credited, failed := s.failed, book := s.book)
    case Buying(buying) =>
      var g := Bought(RegistryOf(t), buying);
      t.(purchases := g.receipts, failedPurchases := g.failed, book := g.book)
    case _ =>
      var d := Reserved(DeskOf(t), op);
      t.(reservations := d.rows, book := d.book)
  }

  function Run(t: Tables, ops: seq<Op>): Tables
    decreases |ops|
  {
    if ops == [] then t else Run(Apply(t, ops[0]), ops[1..])
  }

  function Empty(): Tables {
    Tables(map[], [], [], map[], map[], map[], [], map[], map[], [], [], Runs.EmptyBook())
  }

  /** Balance operations called directly use the service's audit reasons. */
  predicate Proper(op: Op) { op.Money? ==> Runs.Proper(op.money) }

  // ---------- Every step is a run of balance operations ----------

  function InsertOp(r: Payments.Receipt, giftReason: AuditReason, onInsert: AuditReason, onUpdate: AuditReason): Runs.Op {
    if r.quote.kind.Email? then Runs.Remark(r.quote.destination, giftReason, r.id)
    else Runs.Credit(r.quote.destination, r.quote.winc, onInsert, onUpdate, r.id)
  }

  function BypassOps(quotes: seq<Payments.Quote>): seq<Runs.Op> {
    if quotes == [] then []
    else
      [InsertOp(Payments.Receipt(quotes[0].id, quotes[0]), BypassedGiftedPayment, BypassedAccountCreation, BypassedPayment)]
      + BypassOps(quotes[1..])
  }

  /** The balance operations of each kind of step; none when it is refused. */
  function ShopOps(s: Payments.Shop, op: Payments.Op): seq<Runs.Op> {
    if Payments.Outcome(s, op).Err? then []
    else
      match op
      case Quoted(_) => []
      case Paid(quoteId, receiptId, _, _, _) =>
        [InsertOp(Payments.Receipt(receiptId, s.quotes[quoteId]), GiftedPayment, AccountCreation, Payment)]
      case Bypassed(quotes) => BypassOps(quotes)
      case Redeemed(destination, receiptId, _) =>
        [Runs.Credit(destination, s.gifts[receiptId].winc, GiftedAccountCreation, GiftedPaymentRedemption, receiptId)]
      case ChargedBack(quoteId, _, chargebackId) =>
        var r := Payments.ReceiptFor(s.receipts, quoteId).value;
        if r.quote.kind.Email? then [] else [Runs.ChargeBack(r.quote.destination, r.quote.winc, chargebackId)]
  }

  function PayOps(t: Crypto.Till, op: Crypto.Op): seq<Runs.Op> {
    if Crypto.Outcome(t, op).Err? then []
    else
      match op
      case Confirmed(id) =>
        [Runs.Credit(t.pending[id].destination, t.pending[id].winc, AccountCreation, CryptoPayment, t.pending[id].id)]
      case Direct(tx) => [Runs.Credit(tx.destination, tx.winc, AccountCreation, CryptoPayment, tx.id)]
      case _ => []
  }

  function BuyOps(g: Arns.Registry, op: Arns.Op): seq<Runs.Op> {
    match op
    case Create(nonce, owner, winc, paidBy, process, now) =>
      if Arns.CreateReceipt(g, nonce, owner, winc, paidBy, process, now).Err? then []
      else [Runs.Charge(owner, winc, paidBy, ListOrSigner, ArnsPurchaseOrder, nonce)]
    case Fail(nonce, now) =>
      if Arns.FailPurchase(g, nonce, now).Err? then []
      else [Runs.GiveBack(g.receipts[nonce].winc, g.receipts[nonce].overflow, Arns.RefundOf(g.receipts[nonce], nonce, now))]
    case _ => []
  }

  function RecordedFor(d: Reservations.Desk, item: Id): Option<seq<Share>> {
    var found := Reservations.Active(d.rows, item);
    if found == [] then None else Reservations.Newest(found).overflow
  }

  function DeskOps(d: Reservations.Desk, op: Op): seq<Runs.Op>
    requires op.Reserve? || op.RefundItem?
  {
    if op.RefundItem? then
      [Runs.GiveBack(op.amount, RecordedFor(d, op.item), Refunding(op.signer, RefundedUpload, op.item, op.now))]
    else if Reservations.Active(d.rows, op.item) != [] || Reservations.HasRow(d.rows, op.id) then []
    else [Runs.Charge(op.signer, op.winc, op.paidBy, op.directive, Upload, op.item)]
  }

  function OpsOf(t: Tables, op: Op): seq<Runs.Op> {
    if op.Money? then [op.money]
    else if op.Shopping? then ShopOps(ShopOf(t), op.shopping)
    else if op.Paying? then PayOps(TillOf(t), op.paying)
    else if op.Buying? then BuyOps(RegistryOf(t), op.buying)
    else DeskOps(DeskOf(t), op)
  }

  /** The balance operations of a run of the service. */
  function Expand(t: Tables, ops: seq<Op>): seq<Runs.Op>
    decreases |ops|
  {
    if ops == [] then [] else OpsOf(t, ops[0]) + Expand(Apply(t, ops[0]), ops[1..])
  }

  lemma RunOne(b: Book, op: Runs.Op)
    ensures Runs.Run(b, [op]) == Runs.Apply(b, op)
  {
    assert [op][1..] == [] && [op][0] == op;
  }

  lemma InsertBook(s: Payments.Shop, r: Payments.Receipt, giftReason: AuditReason, onInsert: AuditReason, onUpdate: AuditReason)
    requires Payments.InsertReceipt(s, r, giftReason, onInsert, onUpdate).Ok?
    ensures Payments.InsertReceipt(s, r, giftReason, onInsert, onUpdate).value.book
            == Runs.Apply(s.book, InsertOp(r, giftReason, onInsert, onUpdate))
  {
    var e := Payments.InsertReceipt(s, r, giftReason, onInsert, onUpdate).value;
    var q := r.quote;
    if q.kind.Email? {
      assert e.book == Note(s.book, q.destination, 0, giftReason, Some(r.id));
      RemarkIs(s.book, q.destination, giftReason, r.id);
    } else {
      assert e.book == Runs.CreditUser(s.book, q.destination, q.winc, onInsert, onUpdate, r.id);
      CreditIs(s.book, q.destination, q.winc, onInsert, onUpdate, r.id);
    }
  }

  lemma RemarkIs(b: Book, user: Addr, reason: AuditReason, change: Id)
    ensures Runs.Apply(b, Runs.Remark(user, reason, change)) == Note(b, user, 0, reason, Some(change))
  {
  }

  lemma CreditIs(b: Book, user: Addr, amount: int, onInsert: AuditReason, onUpdate: AuditReason, change: Id)
    ensures Runs.Apply(b, Runs.Credit(user, amount, onInsert, onUpdate, change))
            == Runs.CreditUser(b, user, amount, onInsert, onUpdate, change)
  {
  }

  lemma {:induction false} BypassBook(s: Payments.Shop, quotes: seq<Payments.Quote>)
    requires Payments.CreateBypassed(s, quotes).Ok?
    ensures Payments.CreateBypassed(s, quotes).value.book == Runs.Run(s.book, BypassOps(quotes))
    ensures forall op :: op in BypassOps(quotes) ==> Runs.Proper(op)
    decreases |quotes|
  {
    if quotes != [] {
      var r := Payments.Receipt(quotes[0].id, quotes[0]);
      var e := Payments.InsertReceipt(s, r, BypassedGiftedPayment, BypassedAccountCreation, BypassedPayment).value;
      var first := InsertOp(r, BypassedGiftedPayment, BypassedAccountCreation, BypassedPayment);
      InsertBook(s, r, BypassedGiftedPayment, BypassedAccountCreation, BypassedPayment);
      BypassBook(e, quotes[1..]);
      assert ([first] + BypassOps(quotes[1..]))[1..] == BypassOps(quotes[1..]);
    }
  }

  lemma PaidBook(s: Payments.Shop, op: Payments.Op)
    requires op.Paid? && Payments.Outcome(s, op).Ok?
    ensures Payments.Apply(s, op).book == Runs.Run(s.book, ShopOps(s, op))
  {
    var r := Payments.Receipt(op.receiptId, s.quotes[op.quoteId]);
    InsertBook(s.(quotes := s.quotes - {op.quoteId}), r, GiftedPayment, AccountCreation, Payment);
    RunOne(s.book, InsertOp(r, GiftedPayment, AccountCreation, Payment));
  }

  lemma RedeemedBook(s: Payments.Shop, op: Payments.Op)
    requires op.Redeemed? && Payments.Outcome(s, op).Ok?
    ensures Payments.Apply(s, op).book == Runs.Run(s.book, ShopOps(s, op))
  {
    RunOne(s.book, ShopOps(s, op)[0]);
  }

  lemma ChargedBackBook(s: Payments.Shop, op: Payments.Op)
    requires op.ChargedBack? && Payments.Outcome(s, op).Ok?
    ensures Payments.Apply(s, op).book == Runs.Run(s.book, ShopOps(s, op))
  {
    if ShopOps(s, op) != [] { RunOne(s.book, ShopOps(s, op)[0]); }
  }

  lemma ShopBook(s: Payments.Shop, op: Payments.Op)
    ensures Payments.Apply(s, op).book == Runs.Run(s.book, ShopOps(s, op))
    ensures forall o :: o in ShopOps(s, op) ==> Runs.Proper(o)
  {
    if Payments.Outcome(s, op).Ok? {
      match op
      case Quoted(_) =>
      case Paid(_, _, _, _, _) => PaidBook(s, op);
      case Bypassed(quotes) => BypassBook(s, quotes);
      case Redeemed(_, _, _) => RedeemedBook(s, op);
      case ChargedBack(_, _, _) => ChargedBackBook(s, op);
    }
  }

  lemma PayBook(t: Crypto.Till, op: Crypto.Op)
    ensures Crypto.Apply(t, op).book == Runs.Run(t.book, PayOps(t, op))
    ensures forall o :: o in PayOps(t, op) ==> Runs.Proper(o)
  {
    if PayOps(t, op) != [] { RunOne(t.book, PayOps(t, op)[0]); }
  }

  lemma BuyBook(g: Arns.Registry, op: Arns.Op)
    ensures Bought(g, op).book == Runs.Run(g.book, BuyOps(g, op))
    ensures forall o :: o in BuyOps(g, op) ==> Runs.Proper(o)
  {
    if BuyOps(g, op) != [] { RunOne(g.book, BuyOps(g, op)[0]); }
  }

  lemma DeskBook(d: Reservations.Desk, op: Op)
    requires op.Reserve? || op.RefundItem?
    ensures Reserved(d, op).book == Runs.Run(d.book, DeskOps(d, op))
    ensures forall o :: o in DeskOps(d, op) ==> Runs.Proper(o)
  {
    if DeskOps(d, op) != [] { RunOne(d.book, DeskOps(d, op)[0]); }
  }

  /** Every step of the service moves the book by its balance operations and nothing else. */
  lemma StepBook(t: Tables, op: Op)
    requires Proper(op)
    ensures Apply(t, op).book == Runs.Run(t.book, OpsOf(t, op))
    ensures forall o :: o in OpsOf(t, op) ==> Runs.Proper(o)
  {
    if op.Money? {
      RunOne(t.book, op.money);
    } else if op.Shopping? {
      ShopBook(ShopOf(t), op.shopping);
    } else if op.Paying? {
      PayBook(TillOf(t), op.paying);
    } else if op.Buying? {
      BuyBook(RegistryOf(t), op.buying);
    } else {
      DeskBook(DeskOf(t), op);
    }
  }

  /** So does every run: what holds over every run of balance operations holds over every run of the service. */
  lemma {:induction false} RunBook(t: Tables, ops: seq<Op>)
    requires forall op :: op in ops ==> Proper(op)
    ensures Run(t, ops).book == Runs.Run(t.book, Expand(t, ops))
    ensures forall o :: o in Expand(t, ops) ==> Runs.Proper(o)
    decreases |ops|
  {
    if ops != [] {
      StepBook(t, ops[0]);
      RunBook(Apply(t, ops[0]), ops[1..]);
      Runs.RunAppend(t.book, OpsOf(t, ops[0]), Expand(Apply(t, ops[0]), ops[1..]));
    }
  }

  // ---------- What every run of the service keeps ----------

  /**
   Over every run of the whole service an approval is in one table and balances are what the audit rows stand for;
   approvals stay in range if and only if no loan of a negative amount was accepted; and a user's amounts as written
   sum to its balance if and only if no withdrawal of a negative amount from it was written.
   */
  lemma RunReconciled(t: Tables, ops: seq<Op>, u: Addr)
    requires Keyed(t.book) && Balanced(t.book) && (forall op :: op in ops ==> Proper(op))
    ensures Keyed(Run(t, ops).book) && Balanced(Run(t, ops).book)
    ensures WellFormed(t.book) ==> (WellFormed(Run(t, ops).book) <==> !Runs.LendsNegativeIn(t.book, Expand(t, ops)))
    ensures Reconciled(Run(t, ops).book, u) <==> Legible(t.book.audit, u) && !Runs.GarblesIn(t.book, Expand(t, ops), u)
  {
    RunBook(t, ops);
    Runs.RunSound(t.book, Expand(t, ops));
    Runs.RunReconciles(t.book, Expand(t, ops), u);
  }

  /**
   Over every run of the service nobody is ever below zero, not even between two receipts of one batch, if and only if
   none of its balance operations overdraws someone.
   */
  lemma RunSolvent(t: Tables, ops: seq<Op>)
    requires Keyed(t.book) && Balanced(t.book) && Runs.Solvent(t.book) && (forall op :: op in ops ==> Proper(op))
    ensures Runs.StaysSolvent(t.book, Expand(t, ops)) <==> !Runs.OverdrawsIn(t.book, Expand(t, ops))
    ensures Runs.StaysSolvent(t.book, Expand(t, ops)) ==> Runs.Solvent(Run(t, ops).book)
  {
    RunBook(t, ops);
    Runs.RunSolvent(t.book, Expand(t, ops));
    if Runs.StaysSolvent(t.book, Expand(t, ops)) { Runs.SolventAtEnd(t.book, Expand(t, ops)); }
  }

  /** Over every run an approval that was made stays in one of the tables, for its amount. */
  lemma RunKnown(t: Tables, ops: seq<Op>, id: Id, amount: int)
    requires Keyed(t.book) && Balanced(t.book) && (forall op :: op in ops ==> Proper(op))
    requires Loans.KnownIn(t.book, id, amount)
    ensures Loans.KnownIn(Run(t, ops).book, id, amount)
  {
    RunBook(t, ops);
    Runs.RunKnown(t.book, Expand(t, ops), id, amount);
  }

  /** A charge records a negative share of a user if and only if it comes to that user as a debtor. */
  lemma SpendFair(b: Book, signer: Addr, amount: nat, paidBy: seq<Addr>, directive: Directive, reason: AuditReason, change: Id, u: Addr)
    requires Keyed(b) && !IsApprovedSpend(reason) && amount >= 1
    requires Spend(b, signer, amount, paidBy, directive, reason, change).Ok?
    ensures var shares := SharesOf(Spend(b, signer, amount, paidBy, directive, reason, change).value.overflow, signer, amount);
            (exists s :: s in shares && s.payer == u && s.winc < 0) <==> ReachesDebtor(b, signer, amount, paidBy, u)
  {
    RecordedShares(b, signer, amount, paidBy, directive, reason, change);
    SpendReady(b, signer, amount, paidBy, directive, reason, change);
    NegativePlan(b, signer, amount, paidBy, directive, u);
    StripNegative(PlanSpend(b, signer, amount, Dedupe(paidBy), directive).value, u);
  }

  lemma StripNegative(parts: seq<Part>, u: Addr)
    ensures (exists s :: s in Strip(parts) && s.payer == u && s.winc < 0) <==> Negative(parts, u)
  {
    assert forall i :: 0 <= i < |parts| ==>
             Strip(parts)[i].winc == parts[i].winc && Strip(parts)[i].payer == parts[i].payer && Strip(parts)[i] in Strip(parts);
  }

  // ---------- Keys ----------

  /** Ids handed in are new where the service makes them up. */
  ghost predicate Fresh(t: Tables, op: Op) {
    match op
    case Shopping(shopping) => Payments.FreshIds(ShopOf(t), shopping)
    case _ => true
  }

  ghost predicate UniqueKeys(t: Tables) {
    Payments.OnePlace(ShopOf(t)) && Reservations.Exclusive(DeskOf(t)) && Crypto.KeyedPending(TillOf(t))
  }

  ghost predicate RunFresh(t: Tables, ops: seq<Op>)
    decreases |ops|
  {
    ops == [] || (Fresh(t, ops[0]) && RunFresh(Apply(t, ops[0]), ops[1..]))
  }

  lemma ReservedExclusive(d: Reservations.Desk, op: Op)
    requires Reservations.Exclusive(d) && (op.Reserve? || op.RefundItem?)
    ensures Reservations.Exclusive(Reserved(d, op))
  {
    if op.Reserve? {
      if Reservations.Reserve(d, op.id, op.signer, op.winc, op.item, op.paidBy, op.directive, op.now).Ok? {
        Reservations.ReserveExclusive(d, op.id, op.signer, op.winc, op.item, op.paidBy, op.directive, op.now);
      }
    } else if Reservations.RefundItem(d, op.signer, op.amount, op.item, op.now).Ok? {
      Reservations.RefundExclusive(d, op.signer, op.amount, op.item, op.now);
    }
  }

  lemma StepExclusive(t: Tables, op: Op)
    requires Reservations.Exclusive(DeskOf(t)) && Crypto.KeyedPending(TillOf(t))
    ensures Reservations.Exclusive(DeskOf(Apply(t, op))) && Crypto.KeyedPending(TillOf(Apply(t, op)))
  {
    if op.Paying? {
      Crypto.StepCredits(TillOf(t), op.paying, "", "");
    } else if op.Reserve? || op.RefundItem? {
      ReservedExclusive(DeskOf(t), op);
    }
    SameRows(t, op);
  }

  lemma SameRows(t: Tables, op: Op)
    ensures !op.Reserve? && !op.RefundItem? ==> Apply(t, op).reservations == t.reservations
    ensures !op.Paying? ==> Apply(t, op).pending == t.pending
  {
  }

  lemma StepKeyed(t: Tables, op: Op)
    requires UniqueKeys(t) && Fresh(t, op)
    ensures UniqueKeys(Apply(t, op))
  {
    StepExclusive(t, op);
    if op.Shopping? { Payments.StepOnePlace(ShopOf(t), op.shopping); }
  }

  /** Over every run: a quote id is in one place, a data item has at most one active reservation. */
  lemma {:induction false} RunKeyed(t: Tables, ops: seq<Op>)
    requires UniqueKeys(t) && RunFresh(t, ops)
    ensures UniqueKeys(Run(t, ops))
    decreases |ops|
  {
    if ops != [] {
      StepKeyed(t, ops[0]);
      RunKeyed(Apply(t, ops[0]), ops[1..]);
    }
  }

  // ---------- Income ----------

  predicate Foreign(op: Op) { op.Money? ==> Runs.Foreign(op.money) }

  /** What a wallet's income must be: the receipts it holds and the crypto payments credited to it. */
  function Earned(t: Tables, a: Addr): int { Payments.Held(t.receipts, a) + Crypto.CreditedTo(t.credited, a) }

  lemma OtherIncome(t: Tables, op: Op, a: Addr)
    requires Proper(op) && Foreign(op) && !op.Shopping? && !op.Paying?
    ensures Runs.Income(Apply(t, op).book.audit, a) == Runs.Income(t.book.audit, a)
  {
    StepBook(t, op);
    OpsForeign(t, op);
    Runs.RunIncome(t.book, OpsOf(t, op), a);
  }

  lemma OpsForeign(t: Tables, op: Op)
    requires Foreign(op) && !op.Shopping? && !op.Paying?
    ensures forall o :: o in OpsOf(t, op) ==> Runs.Foreign(o)
  {
  }

  lemma StepIncome(t: Tables, op: Op, a: Addr)
    requires UniqueKeys(t) && Proper(op) && Foreign(op)
    ensures Runs.Income(Apply(t, op).book.audit, a) - Earned(Apply(t, op), a) == Runs.Income(t.book.audit, a) - Earned(t, a)
  {
    if op.Shopping? {
      Payments.StepMoney(ShopOf(t), op.shopping, a);
    } else if op.Paying? {
      Crypto.StepCredits(TillOf(t), op.paying, "", a);
    } else {
      OtherIncome(t, op, a);
    }
  }

  /**
   Over every run of the service with fresh ids, a wallet's top-ups less chargebacks move exactly with the receipts
   it still holds and the crypto payments credited to it, whatever else happens.
   */
  lemma {:induction false} RunIncome(t: Tables, ops: seq<Op>, a: Addr)
    requires UniqueKeys(t) && RunFresh(t, ops) && (forall op :: op in ops ==> Proper(op) && Foreign(op))
    ensures Runs.Income(Run(t, ops).book.audit, a) - Earned(Run(t, ops), a) == Runs.Income(t.book.audit, a) - Earned(t, a)
    decreases |ops|
  {
    if ops != [] {
      StepIncome(t, ops[0], a);
      StepKeyed(t, ops[0]);
      RunIncome(Apply(t, ops[0]), ops[1..], a);
    }
  }

  lemma {:induction false} RunSnoc(t: Tables, ops: seq<Op>, op: Op)
    ensures Run(t, ops + [op]) == Apply(Run(t, ops), op)
    decreases |ops|
  {
    if ops == [] {
      assert ops + [op] == [op] && [op][1..] == [];
    } else {
      assert (ops + [op])[1..] == ops[1..] + [op];
      RunSnoc(Apply(t, ops[0]), ops[1..], op);
    }
  }

  // ---------- From empty tables ----------

  /** The tables are those of this run from empty tables. */
  ghost predicate IsRun(t: Tables, history: seq<Op>) {
    t == Run(Empty(), history) && forall op :: op in history ==> Proper(op)
  }

  // What an operation leaves, recognised from the tables it may change.

  ghost predicate DeskChange(t: Tables, e: Tables) { e == t.(reservations := e.reservations, book := e.book) }

  ghost predicate RegistryChange(t: Tables, e: Tables) {
    e == t.(purchases := e.purchases, failedPurchases := e.failedPurchases, book := e.book)
  }

  ghost predicate TillChange(t: Tables, e: Tables) {
    e == t.(pending := e.pending, credited := e.credited, failed := e.failed, book := e.book)
  }

  ghost predicate ShopChange(t: Tables, e: Tables) {
    e == t.(quotes := e.quotes, receipts := e.receipts, chargebacks := e.chargebacks, gifts := e.gifts, redeemed := e.redeemed,
      book := e.book)
  }

  lemma MoneyLeaves(t: Tables, e: Tables, op: Runs.Op)
    requires e == t.(book := e.book) && e.book == Runs.Apply(t.book, op)
    ensures e == Apply(t, Money(op))
  {
  }

  lemma DeskLeaves(t: Tables, e: Tables, op: Op)
    requires (op.Reserve? || op.RefundItem?) && DeskChange(t, e) && DeskOf(e) == Reserved(DeskOf(t), op)
    ensures e == Apply(t, op)
  {
  }

  lemma RegistryLeaves(t: Tables, e: Tables, op: Arns.Op)
    requires RegistryChange(t, e) && RegistryOf(e) == Bought(RegistryOf(t), op)
    ensures e == Apply(t, Buying(op))
  {
  }

  lemma TillLeaves(t: Tables, e: Tables, op: Crypto.Op)
    requires TillChange(t, e) && TillOf(e) == Crypto.Apply(TillOf(t), op)
    ensures e == Apply(t, Paying(op))
  {
  }

  lemma ShopLeaves(t: Tables, e: Tables, op: Payments.Op)
    requires ShopChange(t, e) && ShopOf(e) == Payments.Apply(ShopOf(t), op)
    ensures e == Apply(t, Shopping(op))
  {
  }

  lemma IsRunSound(t: Tables, history: seq<Op>)
    requires IsRun(t, history)
    ensures Keyed(t.book) && Balanced(t.book)
  {
    EmptyKeeps(history, "");
  }

  lemma OneStepMore(t: Tables, history: seq<Op>, op: Op)
    requires IsRun(t, history) && Proper(op)
    ensures IsRun(Apply(t, op), history + [op])
  {
    RunSnoc(Empty(), history, op);
  }

  lemma EmptyKeyed()
    ensures UniqueKeys(Empty()) && WellFormed(Empty().book) && Balanced(Empty().book) && Runs.Solvent(Empty().book)
  {
  }

  /** The service starts with all of it. */
  lemma EmptyKeeps(ops: seq<Op>, u: Addr)
    requires forall op :: op in ops ==> Proper(op)
    ensures Keyed(Run(Empty(), ops).book) && Balanced(Run(Empty(), ops).book)
    ensures WellFormed(Run(Empty(), ops).book) <==> !Runs.LendsNegativeIn(Empty().book, Expand(Empty(), ops))
    ensures Reconciled(Run(Empty(), ops).book, u) <==> !Runs.GarblesIn(Empty().book, Expand(Empty(), ops), u)
    ensures Runs.StaysSolvent(Empty().book, Expand(Empty(), ops)) <==> !Runs.OverdrawsIn(Empty().book, Expand(Empty(), ops))
  {
    EmptyKeyed();
    RunReconciled(Empty(), ops, u);
    RunSolvent(Empty(), ops);
  }

  /** A data item never has two active reservations; reservation ids and pending transactions keep their keys. */
  lemma {:induction false} RunExclusive(t: Tables, ops: seq<Op>)
    requires Reservations.Exclusive(DeskOf(t)) && Crypto.KeyedPending(TillOf(t))
    ensures Reservations.Exclusive(DeskOf(Run(t, ops))) && Crypto.KeyedPending(TillOf(Run(t, ops)))
    decreases |ops|
  {
    if ops != [] {
      StepExclusive(t, ops[0]);
      RunExclusive(Apply(t, ops[0]), ops[1..]);
    }
  }

  lemma EmptyKeys(ops: seq<Op>, a: Addr)
    requires RunFresh(Empty(), ops) && (forall op :: op in ops ==> Proper(op) && Foreign(op))
    ensures UniqueKeys(Run(Empty(), ops)) && Runs.Income(Run(Empty(), ops).book.audit, a) == Earned(Run(Empty(), ops), a)
  {
    EmptyKeyed();
    RunKeyed(Empty(), ops);
    RunIncome(Empty(), ops, a);
  }
}
