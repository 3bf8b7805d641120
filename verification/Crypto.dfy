/** Crypto payment transactions: pending, then credited or failed, or credited directly. */
module Crypto {
  import opened Wrappers
  import opened Ledger
  import opened Runs

  datatype Tx = Tx(id: Id, destination: Addr, winc: nat)

  /** Each table has the transaction id as primary key. */
  datatype Till = Till(pending: map<Id, Tx>, credited: seq<Tx>, failed: map<Id, Tx>, book: Book)

  predicate IsCredited(credited: seq<Tx>, id: Id) { exists tx :: tx in credited && tx.id == id }

  function CreditTx(t: Till, tx: Tx): Result<Till, Error> {
    if IsCredited(t.credited, tx.id) then Err(AlreadyExists(tx.id))
    else Ok(t.(credited := t.credited + [tx],
               book := CreditUser(t.book, tx.destination, tx.winc, AccountCreation, CryptoPayment, tx.id)))
  }

  function CreatePending(t: Till, tx: Tx): Result<Till, Error> {
    if tx.id in t.pending then Err(AlreadyExists(tx.id)) else Ok(t.(pending := t.pending[tx.id := tx]))
  }

  function CreditPending(t: Till, id: Id): Result<Till, Error> {
    if id !in t.pending then Err(NotFound(id)) else CreditTx(t.(pending := t.pending - {id}), t.pending[id])
  }

  function FailPending(t: Till, id: Id): Result<Till, Error> {
    if id !in t.pending then Err(NotFound(id))
    else if id in t.failed then Err(AlreadyExists(id))
    else Ok(t.(pending := t.pending - {id}, failed := t.failed[id := t.pending[id]]))
  }

  datatype Op = Seen(tx: Tx) | Confirmed(id: Id) | Failed(id: Id) | Direct(tx: Tx)

  function Outcome(t: Till, op: Op): Result<Till, Error> {
    match op
    case Seen(tx) => CreatePending(t, tx)
    case Confirmed(id) => CreditPending(t, id)
    case Failed(id) => FailPending(t, id)
    case Direct(tx) => CreditTx(t, tx)
  }

  function Apply(t: Till, op: Op): Till {
    var r := Outcome(t, op);
    if r.Ok? then r.value else t
  }

  function Run(t: Till, ops: seq<Op>): Till
    decreases |ops|
  {
    if ops == [] then t else Run(Apply(t, ops[0]), ops[1..])
  }

  ghost predicate KeyedPending(t: Till) { forall id :: id in t.pending ==> t.pending[id].id == id }

  // ---------- What the audit log records ----------

  predicate IsCryptoReason(reason: AuditReason) { reason.CryptoPayment? || reason.AccountCreation? }

  /** How often a transaction id raised a balance. */
  function Raises(log: seq<Audit>, id: Id): int {
    if log == [] then 0
    else Raises(log[..|log| - 1], id) + (var a := log[|log| - 1]; if a.change == Some(id) && IsCryptoReason(a.reason) then 1 else 0)
  }

  /** What crypto payments added to a user's balance. */
  function Raised(log: seq<Audit>, u: Addr): int {
    if log == [] then 0
    else Raised(log[..|log| - 1], u) + (var a := log[|log| - 1]; if a.user == u && IsCryptoReason(a.reason) then a.amount else 0)
  }

  function CreditedTo(credited: seq<Tx>, u: Addr): int {
    if credited == [] then 0
    else CreditedTo(credited[..|credited| - 1], u) + (var tx := credited[|credited| - 1]; if tx.destination == u then tx.winc else 0)
  }

  function Once(t: Till, id: Id): int { if IsCredited(t.credited, id) then 1 else 0 }

  lemma {:induction false} RaisesAppend(log: seq<Audit>, a: Audit, id: Id, u: Addr)
    ensures Raises(log + [a], id) == Raises(log, id) + (if a.change == Some(id) && IsCryptoReason(a.reason) then 1 else 0)
    ensures Raised(log + [a], u) == Raised(log, u) + (if a.user == u && IsCryptoReason(a.reason) then a.amount else 0)
  {
    assert (log + [a])[..|log|] == log;
  }

  lemma {:induction false} CreditedAppend(credited: seq<Tx>, tx: Tx, u: Addr)
    ensures CreditedTo(credited + [tx], u) == CreditedTo(credited, u) + (if tx.destination == u then tx.winc else 0)
  {
    assert (credited + [tx])[..|credited|] == credited;
  }

  /** From one moment to a later one: raises follow the credited table, which only grows, and so does income. */
  ghost predicate Follows(t: Till, e: Till, id: Id, u: Addr) {
    && Raises(e.book.audit, id) - Once(e, id) == Raises(t.book.audit, id) - Once(t, id)
    && Raised(e.book.audit, u) - CreditedTo(e.credited, u) == Raised(t.book.audit, u) - CreditedTo(t.credited, u)
    && Income(e.book.audit, u) - CreditedTo(e.credited, u) == Income(t.book.audit, u) - CreditedTo(t.credited, u)
    && Once(e, id) >= Once(t, id)
  }

  lemma CreditTxEffect(t: Till, tx: Tx, id: Id, u: Addr)
    requires CreditTx(t, tx).Ok?
    ensures Follows(t, CreditTx(t, tx).value, id, u)
  {
    var e := CreditTx(t, tx).value;
    var row := Audit(tx.destination, tx.winc, if tx.destination in t.book.users then CryptoPayment else AccountCreation, Some(tx.id));
    assert e.book.audit == t.book.audit + [row];
    RaisesAppend(t.book.audit, row, id, u);
    IncomeAppend(t.book.audit, row, u);
    CreditedAppend(t.credited, tx, u);
    assert forall x :: x in e.credited <==> x in t.credited || x == tx;
  }

  lemma SameFollows(t: Till, e: Till, id: Id, u: Addr)
    requires e.credited == t.credited && e.book == t.book
    ensures Follows(t, e, id, u)
  {
  }

  lemma ConfirmedFollows(t: Till, c: Id, id: Id, u: Addr)
    requires KeyedPending(t) && CreditPending(t, c).Ok?
    ensures Follows(t, CreditPending(t, c).value, id, u) && KeyedPending(CreditPending(t, c).value)
  {
    var taken := t.(pending := t.pending - {c});
    SameFollows(t, taken, id, u);
    CreditTxEffect(taken, t.pending[c], id, u);
  }

  lemma FailedKeyed(t: Till, c: Id)
    requires KeyedPending(t) && FailPending(t, c).Ok?
    ensures KeyedPending(FailPending(t, c).value)
  {
  }

  lemma StepCredits(t: Till, op: Op, id: Id, u: Addr)
    requires KeyedPending(t)
    ensures KeyedPending(Apply(t, op)) && Follows(t, Apply(t, op), id, u)
  {
    match op
    case Seen(tx) => SameFollows(t, Apply(t, op), id, u);
    case Confirmed(c) => if Outcome(t, op).Ok? { ConfirmedFollows(t, c, id, u); } else { SameFollows(t, t, id, u); }
    case Failed(c) =>
      if Outcome(t, op).Ok? { FailedKeyed(t, c); }
      SameFollows(t, Apply(t, op), id, u);
    case Direct(tx) => if Outcome(t, op).Ok? { CreditTxEffect(t, tx, id, u); } else { SameFollows(t, t, id, u); }
  }

  /**
   Over every run a transaction id raises a balance exactly when it enters the credited table, which it does at
   most once and never leaves; what an address was credited moves with the sum of its credited rows.
   */
  lemma {:induction false} RunCredits(t: Till, ops: seq<Op>, id: Id, u: Addr)
    requires KeyedPending(t)
    ensures Follows(t, Run(t, ops), id, u)
    decreases |ops|
  {
    if ops != [] {
      StepCredits(t, ops[0], id, u);
      RunCredits(Apply(t, ops[0]), ops[1..], id, u);
    }
  }

  /** From empty tables: at most one raise for each id, and credits equal the credited rows. */
  lemma AtMostOnce(ops: seq<Op>, id: Id, u: Addr)
    ensures var e := Run(Till(map[], [], map[], EmptyBook()), ops);
            && Raises(e.book.audit, id) == Once(e, id) <= 1
            && Raised(e.book.audit, u) == CreditedTo(e.credited, u)
  {
    RunCredits(Till(map[], [], map[], EmptyBook()), ops, id, u);
  }

  // ---------- What stands behind a row ----------

  /** The transaction was seen, and later confirmed, or it was credited directly. */
  ghost predicate CreditBacked(ops: seq<Op>, tx: Tx) {
    (Seen(tx) in ops && Confirmed(tx.id) in ops) || Direct(tx) in ops
  }

  ghost predicate AllBacked(t: Till, ops: seq<Op>) {
    && (forall id :: id in t.pending ==> t.pending[id].id == id && Seen(t.pending[id]) in ops)
    && (forall tx :: tx in t.credited ==> CreditBacked(ops, tx))
    && (forall id :: id in t.failed ==> t.failed[id].id == id && Seen(t.failed[id]) in ops && Failed(id) in ops)
  }

  lemma StepBacked(t: Till, ops: seq<Op>, op: Op)
    requires AllBacked(t, ops)
    ensures AllBacked(Apply(t, op), ops + [op])
  {
    assert forall o :: o in ops + [op] <==> o in ops || o == op;
  }

  lemma {:induction false} RunBackedFrom(t: Till, before: seq<Op>, ops: seq<Op>)
    requires AllBacked(t, before)
    ensures AllBacked(Run(t, ops), before + ops)
    decreases |ops|
  {
    if ops == [] {
      assert before + ops == before;
    } else {
      StepBacked(t, before, ops[0]);
      RunBackedFrom(Apply(t, ops[0]), before + [ops[0]], ops[1..]);
      assert before + [ops[0]] + ops[1..] == before + ops;
    }
  }

  /** Over every run from empty tables a credited transaction was seen and confirmed, or direct; a failed one seen and failed. */
  lemma RunBacked(book: Book, ops: seq<Op>)
    ensures AllBacked(Run(Till(map[], [], map[], book), ops), ops)
  {
    RunBackedFrom(Till(map[], [], map[], book), [], ops);
    assert [] + ops == ops;
  }

  /** When each operation is accepted, and which row it moves where. */
  lemma AcceptedExactly(t: Till, op: Op)
    requires KeyedPending(t)
    ensures match op
            case Seen(tx) =>
              && (Outcome(t, op).Ok? <==> tx.id !in t.pending)
              && (Outcome(t, op).Ok? ==> Apply(t, op) == t.(pending := t.pending[tx.id := tx]))
            case Confirmed(id) =>
              && (Outcome(t, op).Ok? <==> id in t.pending && forall tx :: tx in t.credited ==> tx.id != id)
              && (Outcome(t, op).Ok? ==>
                    && Apply(t, op).pending == t.pending - {id} && Apply(t, op).credited == t.credited + [t.pending[id]]
                    && Apply(t, op).failed == t.failed && Paid(t.book, Apply(t, op).book, t.pending[id]))
            case Failed(id) =>
              && (Outcome(t, op).Ok? <==> id in t.pending && id !in t.failed)
              && (Outcome(t, op).Ok? ==>
                    Apply(t, op) == t.(pending := t.pending - {id}, failed := t.failed[id := t.pending[id]]))
            case Direct(tx) =>
              && (Outcome(t, op).Ok? <==> forall other :: other in t.credited ==> other.id != tx.id)
              && (Outcome(t, op).Ok? ==>
                    && Apply(t, op).pending == t.pending && Apply(t, op).credited == t.credited + [tx]
                    && Apply(t, op).failed == t.failed && Paid(t.book, Apply(t, op).book, tx))
  {
  }

  /** The destination, and nobody else, has the transaction's winc more. */
  ghost predicate Paid(b: Book, e: Book, tx: Tx) {
    forall u :: Balance(e, u) == Balance(b, u) + (if u == tx.destination then tx.winc else 0)
  }
}
