/**
 Whole runs of the balance-changing operations, in any order and with any arguments. An operation that fails
 rolls back, so it leaves the book as it was.
 */
module Runs {
  import opened Wrappers
  import opened Ledger
  import opened Approvals
  import opened Allocation
  import opened Spending
  import opened Lending
  import opened Refunds
  import opened RoundTrip
  import opened RefundExact
  import opened Loans
  import opened Debt
  import opened AuditLog

  /** The INSERT ... ON CONFLICT credit: creates the user or adds to the balance. */
  function CreditUser(b: Book, user: Addr, amount: int, onInsert: AuditReason, onUpdate: AuditReason, change: Id): Book {
    Post(b, user, amount, if user in b.users then onUpdate else onInsert, Some(change))
  }

  /** A credit writes one row; only a user's first is one of an account that is new. */
  lemma CreditRow(b: Book, user: Addr, amount: int, onInsert: AuditReason, onUpdate: AuditReason, change: Id, more: int, next: Id)
    ensures var e := CreditUser(b, user, amount, onInsert, onUpdate, change);
            var again := CreditUser(e, user, more, onInsert, onUpdate, next);
            && e.audit == b.audit + [Audit(user, amount, if user in b.users then onUpdate else onInsert, Some(change))]
            && again.audit == e.audit + [Audit(user, more, onUpdate, Some(next))]
            && again.users == b.users[user := Balance(b, user) + amount + more]
  {
  }

  /** A change to an existing user's balance; without the user the transaction fails. */
  function ChangeLocked(b: Book, user: Addr, amount: int, reason: AuditReason, change: Id): Result<Book, Error> {
    if user !in b.users then Err(UserNotFound(user)) else Ok(Post(b, user, amount, reason, Some(change)))
  }

  /** A withdrawal from an existing user, below zero if need be; a negative one raises the balance. */
  function WithdrawLocked(b: Book, user: Addr, winc: int, reason: AuditReason, change: Id): Result<Book, Error> {
    if user !in b.users then Err(UserNotFound(user))
    else
      Ok(b.(users := b.users[user := b.users[user] - winc], audit := b.audit + [Withdrawal(user, winc, reason, Some(change))]))
  }

  /** Both need the user's account, and each undoes the other. */
  lemma LockedExactly(b: Book, user: Addr, amount: int, reason: AuditReason, why: AuditReason, change: Id)
    ensures ChangeLocked(b, user, amount, reason, change).Ok? <==> user in b.users
    ensures WithdrawLocked(b, user, amount, reason, change).Ok? <==> user in b.users
    ensures user in b.users ==>
              var paid := ChangeLocked(b, user, amount, reason, change).value;
              var taken := WithdrawLocked(paid, user, amount, why, change);
              && Balance(paid, user) == Balance(b, user) + amount && taken.Ok? && taken.value.users == b.users
              && |taken.value.audit| == |b.audit| + 2
  {
  }

  datatype Op =
    | Credit(user: Addr, amount: int, onInsert: AuditReason, onUpdate: AuditReason, change: Id)
    | Adjust(user: Addr, delta: int, reason: AuditReason, change: Id)
    | CreditLocked(user: Addr, winc: nat, reason: AuditReason, change: Id)
    | Remark(user: Addr, reason: AuditReason, change: Id)
    | ChargeBack(user: Addr, taken: int, change: Id)
    | Lend(id: Id, payer: Addr, spender: Addr, lent: int, expires: Option<int>)
    | TakeBack(payer: Addr, spender: Addr, change: Id)
    | Expire(link: Link, now: int)
    | Report(user: Addr, now: int)
    | Charge(signer: Addr, winc: nat, paidBy: seq<Addr>, directive: Directive, reason: AuditReason, change: Id)
    | GiveBack(amount: int, overflow: Option<seq<Share>>, how: Refunding)

  function Outcome(b: Book, op: Op): Result<Book, Error> {
    match op
    case Credit(user, winc, onInsert, onUpdate, change) => Ok(CreditUser(b, user, winc, onInsert, onUpdate, change))
    case Adjust(user, delta, reason, change) => Ok(CreditUser(b, user, delta, reason, reason, change))
    case CreditLocked(user, winc, reason, change) => ChangeLocked(b, user, winc, reason, change)
    case Remark(user, reason, change) => Ok(Note(b, user, 0, reason, Some(change)))
    case ChargeBack(user, taken, change) => WithdrawLocked(b, user, taken, Chargeback, change)
    case Lend(id, payer, spender, winc, expires) => CreateApproval(b, id, payer, spender, winc, expires)
    case TakeBack(payer, spender, change) => Revoke(b, payer, spender, change)
    case Expire(link, now) => Trim(b, Pick(b.active, link), now)
    case Report(user, now) => Trim(b, Touching(b.active, user), now)
    case Charge(signer, winc, paidBy, directive, reason, change) =>
      var r := Spend(b, signer, winc, paidBy, directive, reason, change);
      if r.Ok? then Ok(r.value.book) else Err(r.error)
    case GiveBack(amount, overflow, how) => Refund(b, amount, overflow, how)
  }

  function Apply(b: Book, op: Op): Book {
    var r := Outcome(b, op);
    if r.Ok? then r.value else b
  }

  function Run(b: Book, ops: seq<Op>): Book
    decreases |ops|
  {
    if ops == [] then b else Run(Apply(b, ops[0]), ops[1..])
  }

  lemma {:induction false} RunAppend(b: Book, ops: seq<Op>, more: seq<Op>)
    ensures Run(b, ops + more) == Run(Run(b, ops), more)
    decreases |ops|
  {
    if ops == [] {
      assert ops + more == more;
    } else {
      assert (ops + more)[1..] == ops[1..] + more;
      RunAppend(Apply(b, ops[0]), ops[1..], more);
    }
  }

  /** The audit reasons the service uses: only a spend from approvals is written as `approved_*`. */
  predicate Proper(op: Op) {
    match op
    case Credit(_, _, onInsert, onUpdate, _) => !IsApprovedSpend(onInsert) && !IsApprovedSpend(onUpdate)
    case Adjust(_, _, reason, _) => !IsApprovedSpend(reason)
    case CreditLocked(_, _, reason, _) => !IsApprovedSpend(reason)
    case Charge(_, _, _, _, reason, _) => !IsApprovedSpend(reason)
    case GiveBack(_, _, how) => !IsApprovedSpend(how.reason)
    case _ => true
  }

  // ---------- One step ----------

  /** A loan of a negative amount that is accepted. */
  predicate LendsNegative(b: Book, op: Op) { op.Lend? && op.lent < 0 && Outcome(b, op).Ok? }

  /**
   Each operation keeps ids in one table and balances what the audit rows stand for. It keeps all approvals in range
   if and only if it is no loan of a negative amount.
   */
  lemma StepSound(b: Book, op: Op)
    requires Keyed(b) && Balanced(b) && Proper(op)
    ensures Keyed(Apply(b, op)) && Balanced(Apply(b, op))
    ensures WellFormed(b) ==> (WellFormed(Apply(b, op)) <==> !LendsNegative(b, op))
  {
    match op
    case Credit(user, amount, onInsert, onUpdate, change) =>
      PostBalances(b, user, amount, if user in b.users then onUpdate else onInsert, Some(change));
    case Adjust(user, delta, reason, change) => PostBalances(b, user, delta, reason, Some(change));
    case CreditLocked(user, winc, reason, change) => PostBalances(b, user, winc, reason, Some(change));
    case Remark(user, reason, change) => NoteBalances(b, user, 0, reason, Some(change));
    case ChargeBack(user, taken, change) => WithdrawalBalances(b, user, taken, Chargeback, Some(change));
    case Lend(id, payer, spender, lent, expires) =>
      if Outcome(b, op).Ok? { CreateApprovalNeutral(b, id, payer, spender, lent, expires); }
    case TakeBack(payer, spender, change) => RevokeSound(b, payer, spender, change);
    case Expire(link, now) =>
      PickedRows(b, link);
      TrimNeutral(b, Pick(b.active, link), now);
    case Report(user, now) =>
      TouchingRows(b.active, user);
      TrimNeutral(b, Touching(b.active, user), now);
    case Charge(signer, winc, paidBy, directive, reason, change) =>
      if Outcome(b, op).Ok? { SpendTakes(b, signer, winc, paidBy, directive, reason, change); }
    case GiveBack(amount, overflow, how) => RefundSharesSound(b, SharesOf(overflow, how.signer, amount), how);
  }

  /** No operation loses an approval or changes what it is for. */
  lemma StepKnown(b: Book, op: Op, id: Id, amount: int)
    requires Keyed(b) && Proper(op) && KnownIn(b, id, amount)
    ensures KnownIn(Apply(b, op), id, amount)
  {
    if Outcome(b, op).Ok? {
      match op
      case TakeBack(payer, spender, change) => RevokeKnown(b, payer, spender, change, id, amount);
      case Expire(link, now) =>
        PickedRows(b, link);
        TrimKnown(b, Pick(b.active, link), now, id, amount);
      case Report(user, now) =>
        TouchingRows(b.active, user);
        TrimKnown(b, Touching(b.active, user), now, id, amount);
      case Charge(signer, winc, paidBy, directive, reason, change) =>
        if winc >= 1 {
          SpendReady(b, signer, winc, paidBy, directive, reason, change);
          ApplyKnown(b, PlanSpend(b, signer, winc, Dedupe(paidBy), directive).value,
                     Allocation.Charge(signer, Balance(b, signer), reason, change), id, amount);
        }
      case GiveBack(sum, overflow, how) => RefundKnown(b, SharesOf(overflow, how.signer, sum), how, id, amount);
      case Lend(_, _, _, _, _) => LentKnown(b, op, id, amount);
      case _ =>
    }
  }

  lemma LentKnown(b: Book, op: Op, id: Id, amount: int)
    requires op.Lend? && Outcome(b, op).Ok?
    ensures KnownIn(b, id, amount) ==> KnownIn(Apply(b, op), id, amount)
    ensures KnownIn(Apply(b, op), op.id, op.lent)
  {
    var row := Approval(op.id, op.payer, op.spender, op.lent, 0, op.expires);
    var e := Apply(b, op);
    assert e.active == b.active + [row] && row in e.active;
    assert forall r :: r in b.active ==> r in e.active;
  }

  /** Over every run an approval that was made stays in one of the tables, for its amount. */
  lemma {:induction false} RunKnown(b: Book, ops: seq<Op>, id: Id, amount: int)
    requires Keyed(b) && Balanced(b) && (forall op :: op in ops ==> Proper(op)) && KnownIn(b, id, amount)
    ensures KnownIn(Run(b, ops), id, amount)
    decreases |ops|
  {
    if ops != [] {
      StepSound(b, ops[0]);
      StepKnown(b, ops[0], id, amount);
      RunKnown(Apply(b, ops[0]), ops[1..], id, amount);
    }
  }

  predicate LendsNegativeIn(b: Book, ops: seq<Op>)
    decreases |ops|
  {
    ops != [] && (LendsNegative(b, ops[0]) || LendsNegativeIn(Apply(b, ops[0]), ops[1..]))
  }

  /**
   The approval state machine and the log over every run: an approval id is in at most one table and used-up rows are
   used up; each balance is what its user's audit rows stand for; and 0 <= used <= approved for every approval if and
   only if no loan of a negative amount was accepted.
   */
  lemma {:induction false} RunSound(b: Book, ops: seq<Op>)
    requires Keyed(b) && Balanced(b) && (forall op :: op in ops ==> Proper(op))
    ensures Keyed(Run(b, ops)) && Balanced(Run(b, ops))
    ensures WellFormed(b) ==> (WellFormed(Run(b, ops)) <==> !LendsNegativeIn(b, ops))
    decreases |ops|
  {
    if ops != [] {
      var op, e := ops[0], Apply(b, ops[0]);
      StepSound(b, op);
      RunSound(e, ops[1..]);
      if LendsNegative(b, op) {
        LentKnown(b, op, op.id, op.lent);
        RunKnown(e, ops[1..], op.id, op.lent);
        OutOfRange(Run(e, ops[1..]), op.id, op.lent);
      }
    }
  }

  lemma OutOfRange(b: Book, id: Id, amount: int)
    requires KnownIn(b, id, amount) && amount < 0
    ensures !WellFormed(b)
  {
    if r :| r in b.active && r.id == id && r.approved == amount {
      assert !SoundRow(r);
    } else {
      var x :| x in b.inactive && x.row.id == id && x.row.approved == amount;
      assert !SoundRow(x.row);
    }
  }

  // ---------- Audit reconciliation ----------

  /**
   The withdrawals of negative amounts, whose rows have two minus signs: a charge that comes to this user as a debtor,
   a loan of a negative amount, and the chargeback of a negative receipt.
   */
  predicate Garbles(b: Book, op: Op, u: Addr) {
    Outcome(b, op).Ok?
    && (match op
        case Charge(signer, winc, paidBy, _, _, _) => ReachesDebtor(b, signer, winc, paidBy, u)
        case Lend(_, payer, _, lent, _) => payer == u && lent < 0
        case ChargeBack(user, taken, _) => user == u && taken < 0
        case _ => false)
  }

  ghost predicate GarblesIn(b: Book, ops: seq<Op>, u: Addr)
    decreases |ops|
  {
    ops != [] && (Garbles(b, ops[0], u) || GarblesIn(Apply(b, ops[0]), ops[1..], u))
  }

  lemma StepLegible(b: Book, op: Op, u: Addr)
    requires Proper(op)
    ensures Legible(Apply(b, op).audit, u) <==> Legible(b.audit, u) && !Garbles(b, op, u)
  {
    if Outcome(b, op).Ok? {
      match op
      case Expire(link, now) =>
        TrimAppends(b, Pick(b.active, link), now);
        AppendsLegible(b, Apply(b, op), ExpiryReasons(), u);
      case Report(user, now) =>
        TrimAppends(b, Touching(b.active, user), now);
        AppendsLegible(b, Apply(b, op), ExpiryReasons(), u);
      case Charge(signer, winc, paidBy, directive, reason, change) =>
        SpendLegible(b, signer, winc, paidBy, directive, reason, change, u);
      case GiveBack(amount, overflow, how) =>
        RefundAppends(b, SharesOf(overflow, how.signer, amount), how);
        AppendsLegible(b, Apply(b, op), ReturnReasons() + {how.reason}, u);
      case _ => OneRowLegible(b, Apply(b, op), u);
    }
  }

  lemma OneRowLegible(b: Book, e: Book, u: Addr)
    requires e.audit == b.audit || (|e.audit| == |b.audit| + 1 && e.audit[..|b.audit|] == b.audit)
    ensures e.audit == b.audit ==> (Legible(e.audit, u) <==> Legible(b.audit, u))
    ensures e.audit != b.audit ==>
              var row := e.audit[|b.audit|]; (Legible(e.audit, u) <==> Legible(b.audit, u) && (row.user == u ==> row.Audit?))
  {
    if e.audit != b.audit {
      assert e.audit == b.audit + [e.audit[|b.audit|]];
      LegibleAppend(b.audit, e.audit[|b.audit|], u);
    }
  }

  /**
   Audit reconciliation over every run, user by user: the amounts written for a user can be summed and give the
   balance, if and only if no withdrawal of a negative amount from that user was written.
   */
  lemma {:induction false} RunReconciles(b: Book, ops: seq<Op>, u: Addr)
    requires Keyed(b) && Balanced(b) && (forall op :: op in ops ==> Proper(op))
    ensures Reconciled(Run(b, ops), u) <==> Legible(b.audit, u) && !GarblesIn(b, ops, u)
    decreases |ops|
  {
    if ops != [] {
      StepSound(b, ops[0]);
      StepLegible(b, ops[0], u);
      RunReconciles(Apply(b, ops[0]), ops[1..], u);
    }
  }

  lemma RunFromEmpty(ops: seq<Op>)
    requires forall op :: op in ops ==> Proper(op)
    ensures Keyed(Run(EmptyBook(), ops)) && Balanced(Run(EmptyBook(), ops))
    ensures WellFormed(Run(EmptyBook(), ops)) <==> !LendsNegativeIn(EmptyBook(), ops)
    ensures forall u: Addr :: Reconciled(Run(EmptyBook(), ops), u) <==> !GarblesIn(EmptyBook(), ops, u)
  {
    RunSound(EmptyBook(), ops);
    forall u: Addr ensures Reconciled(Run(EmptyBook(), ops), u) <==> !GarblesIn(EmptyBook(), ops, u) { RunReconciles(EmptyBook(), ops, u); }
  }

  function EmptyBook(): Book { Book(map[], [], [], []) }

  // ---------- Controlled balances ----------

  /** What an operation does to a user's controlled balance. */
  function ControlledChange(b: Book, op: Op, u: Addr): int {
    if Outcome(b, op).Err? then 0
    else
      match op
      case Credit(user, amount, _, _, _) => if u == user then amount else 0
      case Adjust(user, delta, _, _) => if u == user then delta else 0
      case CreditLocked(user, winc, _, _) => if u == user then winc else 0
      case ChargeBack(user, taken, _) => if u == user then -taken else 0
      case Charge(signer, winc, paidBy, directive, _, _) =>
        if winc == 0 then 0 else -Taken(PlanSpend(b, signer, winc, Dedupe(paidBy), directive).value, signer, u)
      case GiveBack(amount, overflow, how) => RefundChange(b, SharesOf(overflow, how.signer, amount), how, u)
      case _ => 0
  }

  /**
   Controlled balances are exact: lending, revoking and expiring approvals leave every one unchanged; a credit
   or a charge moves exactly the users it credits or charges, by exactly their amounts; a refund moves its signer by
   its shares and each payer by the gain read off its approvals, whatever has expired.
   */
  lemma ControlledExact(b: Book, op: Op, u: Addr)
    requires Keyed(b) && Proper(op)
    ensures Controlled(Apply(b, op), u) == Controlled(b, u) + ControlledChange(b, op, u)
  {
    match op
    case Lend(id, payer, spender, lent, expires) =>
      if Outcome(b, op).Ok? { CreateApprovalNeutral(b, id, payer, spender, lent, expires); }
    case TakeBack(payer, spender, change) =>
      if Outcome(b, op).Ok? { RevokeNeutral(b, payer, spender, change); }
    case Expire(link, now) =>
      PickedRows(b, link);
      TrimNeutral(b, Pick(b.active, link), now);
    case Report(user, now) =>
      TouchingRows(b.active, user);
      TrimNeutral(b, Touching(b.active, user), now);
    case Charge(signer, winc, paidBy, directive, reason, change) =>
      if Outcome(b, op).Ok? { SpendTakes(b, signer, winc, paidBy, directive, reason, change); }
    case GiveBack(amount, overflow, how) =>
      if Outcome(b, op).Ok? { RefundControlled(b, SharesOf(overflow, how.signer, amount), how, u); }
    case _ =>
  }

  // ---------- Balances below zero ----------

  /** Nobody is below zero. */
  ghost predicate Solvent(b: Book) { forall u: Addr :: Balance(b, u) >= 0 }

  /**
   What takes a user below zero: a credit, an adjustment, a chargeback, the taking back or expiry of approvals that hold
   less than nothing, or a refund, by more than the balance.
   */
  predicate Overdraws(b: Book, op: Op, u: Addr) {
    match op
    case Credit(user, amount, _, _, _) => u == user && Balance(b, u) + amount < 0
    case Adjust(user, delta, _, _) => u == user && Balance(b, u) + delta < 0
    case ChargeBack(user, taken, _) => u == user && u in b.users && Balance(b, u) < taken
    case TakeBack(payer, spender, _) => u == payer && Outcome(b, op).Ok? && Balance(b, u) + Lent(b, Between(payer, spender)) < 0
    case Expire(link, now) => Balance(b, u) + SumLeft(Pick(ExpiredRows(Pick(b.active, link), now), Given(u))) < 0
    case Report(user, now) => Balance(b, u) + SumLeft(Pick(ExpiredRows(Touching(b.active, user), now), Given(u))) < 0
    case GiveBack(amount, overflow, how) =>
      Outcome(b, op).Ok? && Balance(b, u) + RefundMoney(b, SharesOf(overflow, how.signer, amount), how, u) < 0
    case _ => false
  }

  /** A balance that is not negative becomes so exactly there. */
  lemma OverdrawnExactly(b: Book, op: Op, u: Addr)
    requires Keyed(b) && Proper(op) && Balance(b, u) >= 0
    ensures Balance(Apply(b, op), u) < 0 <==> Overdraws(b, op, u)
  {
    match op
    case Lend(id, payer, spender, lent, expires) =>
      if Outcome(b, op).Ok? { CreateApprovalNeutral(b, id, payer, spender, lent, expires); }
    case TakeBack(payer, spender, change) =>
      if Outcome(b, op).Ok? { RevokeNeutral(b, payer, spender, change); }
    case Expire(link, now) =>
      PickedRows(b, link);
      TrimNeutral(b, Pick(b.active, link), now);
    case Report(user, now) =>
      TouchingRows(b.active, user);
      TrimNeutral(b, Touching(b.active, user), now);
    case Charge(signer, winc, paidBy, directive, reason, change) =>
      if Outcome(b, op).Ok? { SpendTakes(b, signer, winc, paidBy, directive, reason, change); }
    case GiveBack(amount, overflow, how) =>
      if Outcome(b, op).Ok? { RefundMoneyExact(b, SharesOf(overflow, how.signer, amount), how, u); }
    case _ =>
  }

  /** With all approvals in range, only credits and adjustments below zero, chargebacks and negative shares of the signer do. */
  lemma SoundOverdraws(b: Book, op: Op, u: Addr)
    requires WellFormed(b) && Proper(op) && Balance(b, u) >= 0 && Overdraws(b, op, u)
    ensures op.Credit? || op.Adjust? || op.ChargeBack? || op.GiveBack?
    ensures op.GiveBack? ==>
              u == op.how.signer && Balance(b, u) + SignerTotal(SharesOf(op.overflow, op.how.signer, op.amount), u) < 0
  {
    match op
    case TakeBack(payer, spender, change) => SelectedSound(b.active, b.inactive, Between(payer, spender));
    case Expire(link, now) =>
      PickedRows(b, link);
      ExpiredSound(b, Pick(b.active, link), now, u);
    case Report(user, now) =>
      TouchingRows(b.active, user);
      ExpiredSound(b, Touching(b.active, user), now, u);
    case GiveBack(amount, overflow, how) => RefundMoneySound(b, SharesOf(overflow, how.signer, amount), how, u);
    case _ =>
  }

  lemma ExpiredSound(b: Book, rows: seq<Approval>, now: int, u: Addr)
    requires WellFormed(b) && (forall r :: r in rows ==> r in b.active)
    ensures SumLeft(Pick(ExpiredRows(rows, now), Given(u))) >= 0
  {
    forall r | r in Pick(ExpiredRows(rows, now), Given(u)) ensures SoundRow(r) {
      PickIn(ExpiredRows(rows, now), Given(u), r);
      ExpiredIn(rows, now, r);
    }
    SumLeftNonNegative(Pick(ExpiredRows(rows, now), Given(u)));
  }

  ghost predicate StaysSolvent(b: Book, ops: seq<Op>)
    decreases |ops|
  {
    Solvent(b) && (ops == [] || StaysSolvent(Apply(b, ops[0]), ops[1..]))
  }

  ghost predicate OverdrawsSomeone(b: Book, op: Op) { exists u: Addr :: Overdraws(b, op, u) }

  ghost predicate OverdrawsIn(b: Book, ops: seq<Op>)
    decreases |ops|
  {
    ops != [] && (OverdrawsSomeone(b, ops[0]) || OverdrawsIn(Apply(b, ops[0]), ops[1..]))
  }

  /** From solvent users, nobody is ever below zero in a run if and only if no step of it overdraws someone. */
  lemma {:induction false} RunSolvent(b: Book, ops: seq<Op>)
    requires Keyed(b) && Balanced(b) && Solvent(b) && (forall op :: op in ops ==> Proper(op))
    ensures StaysSolvent(b, ops) <==> !OverdrawsIn(b, ops)
    decreases |ops|
  {
    if ops != [] {
      var e := Apply(b, ops[0]);
      StepSound(b, ops[0]);
      forall u: Addr ensures Balance(e, u) < 0 <==> Overdraws(b, ops[0], u) { OverdrawnExactly(b, ops[0], u); }
      if Solvent(e) { RunSolvent(e, ops[1..]); }
    }
  }

  lemma {:induction false} SolventAtEnd(b: Book, ops: seq<Op>)
    requires StaysSolvent(b, ops)
    ensures Solvent(Run(b, ops))
    decreases |ops|
  {
    if ops != [] { SolventAtEnd(Apply(b, ops[0]), ops[1..]); }
  }

  /** A withdrawal of a negative amount by name: a loan or a chargeback. */
  predicate NegativeByName(op: Op) { (op.Lend? && op.lent < 0) || (op.ChargeBack? && op.taken < 0) }

  /** While nobody is below zero and no loan or chargeback is for a negative amount, everybody's log reconciles. */
  lemma {:induction false} SolventReconciles(b: Book, ops: seq<Op>, u: Addr)
    requires WellFormed(b) && Balanced(b) && (forall op :: op in ops ==> Proper(op) && !NegativeByName(op))
    requires Legible(b.audit, u) && StaysSolvent(b, ops)
    ensures Reconciled(Run(b, ops), u)
    decreases |ops|
  {
    if ops != [] {
      var op := ops[0];
      StepSound(b, op);
      StepLegible(b, op, u);
      if op.Charge? && u != op.signer { SelectedSound(b.active, b.inactive, Between(u, op.signer)); }
      SolventReconciles(Apply(b, op), ops[1..], u);
    }
  }

  // ---------- Income ----------

  /** The audit reasons of top-ups: payments by receipt, chargebacks of them, and crypto payments. */
  predicate IsIncome(reason: AuditReason) {
    reason.AccountCreation? || reason.Payment? || reason.BypassedAccountCreation? || reason.BypassedPayment? || reason.Chargeback?
    || reason.CryptoPayment?
  }

  /** Top-ups less chargebacks of a user, from the audit log. */
  function Income(log: seq<Audit>, a: Addr): int {
    if log == [] then 0
    else Income(log[..|log| - 1], a) + (var row := log[|log| - 1]; if row.user == a && IsIncome(row.reason) then row.amount else 0)
  }

  lemma IncomeAppend(log: seq<Audit>, row: Audit, a: Addr)
    ensures Income(log + [row], a) == Income(log, a) + (if row.user == a && IsIncome(row.reason) then row.amount else 0)
  {
    assert (log + [row])[..|log|] == log;
  }

  lemma {:induction false} IncomeSame(log: seq<Audit>, more: seq<Audit>, a: Addr)
    requires |log| <= |more| && (forall i :: 0 <= i < |log| ==> more[i] == log[i])
    requires forall i :: |log| <= i < |more| ==> !IsIncome(more[i].reason)
    ensures Income(more, a) == Income(log, a)
  {
    if |more| == |log| { assert more == log; } else { IncomeSame(log, more[..|more| - 1], a); }
  }

  /** An operation that is no top-up and no chargeback. */
  predicate Foreign(op: Op) {
    match op
    case Credit(_, _, onInsert, onUpdate, _) => !IsIncome(onInsert) && !IsIncome(onUpdate)
    case Adjust(_, _, reason, _) => !IsIncome(reason)
    case CreditLocked(_, _, reason, _) => !IsIncome(reason)
    case Remark(_, reason, _) => !IsIncome(reason)
    case ChargeBack(_, _, _) => false
    case Charge(_, _, _, _, reason, _) => !IsIncome(reason)
    case GiveBack(_, _, how) => !IsIncome(how.reason)
    case _ => true
  }

  lemma AppendsIncome(b: Book, e: Book, reasons: set<AuditReason>, a: Addr)
    requires Appends(b, e, reasons) && (forall r :: r in reasons ==> !IsIncome(r))
    ensures Income(e.audit, a) == Income(b.audit, a)
  {
    IncomeSame(b.audit, e.audit, a);
  }

  lemma ChargeIncome(b: Book, op: Op, a: Addr)
    requires op.Charge? && Foreign(op)
    ensures Income(Apply(b, op).audit, a) == Income(b.audit, a)
  {
    if Outcome(b, op).Ok? && op.winc >= 1 {
      ChargeAppends(b, PlanSpend(b, op.signer, op.winc, Dedupe(op.paidBy), op.directive).value,
                    Allocation.Charge(op.signer, Balance(b, op.signer), op.reason, op.change));
      IncomeSame(b.audit, Apply(b, op).audit, a);
    }
  }

  lemma StepIncome(b: Book, op: Op, a: Addr)
    requires Foreign(op)
    ensures Income(Apply(b, op).audit, a) == Income(b.audit, a)
  {
    if op.Charge? {
      ChargeIncome(b, op, a);
    } else if Outcome(b, op).Ok? {
      match op
      case Expire(link, now) =>
        TrimAppends(b, Pick(b.active, link), now);
        AppendsIncome(b, Apply(b, op), ExpiryReasons(), a);
      case Report(user, now) =>
        TrimAppends(b, Touching(b.active, user), now);
        AppendsIncome(b, Apply(b, op), ExpiryReasons(), a);
      case GiveBack(amount, overflow, how) =>
        RefundAppends(b, SharesOf(overflow, how.signer, amount), how);
        AppendsIncome(b, Apply(b, op), ReturnReasons() + {how.reason}, a);
      case _ => IncomeSame(b.audit, Apply(b, op).audit, a);
    }
  }

  lemma {:induction false} RunIncome(b: Book, ops: seq<Op>, a: Addr)
    requires forall op :: op in ops ==> Foreign(op)
    ensures Income(Run(b, ops).audit, a) == Income(b.audit, a)
    decreases |ops|
  {
    if ops != [] {
      StepIncome(b, ops[0], a);
      RunIncome(Apply(b, ops[0]), ops[1..], a);
    }
  }

  // ---------- Expired and revoked approvals stay so ----------

  ghost predicate DeadStay(b: Book, e: Book) {
    forall x :: x in b.inactive && !x.reason.Used? ==> x in e.inactive
  }

  lemma {:induction false} ApplyDeadStay(b: Book, parts: seq<Part>, c: Allocation.Charge)
    requires ApplyParts(b, parts, c).Ok?
    ensures DeadStay(b, ApplyParts(b, parts, c).value)
    decreases |parts|
  {
    if parts != [] {
      if parts[0].payer != c.signer { DrawMoves(Draw(b.active, b.inactive, parts[0].winc), parts[0].rows); }
      ApplyDeadStay(ApplyPart(b, parts[0], c).value, parts[1..], c);
    }
  }

  lemma {:induction false} MoveDeadStay(b: Book, rows: seq<Approval>, now: int)
    ensures DeadStay(b, MoveExpired(b, rows, now))
    decreases |rows|
  {
    if rows != [] {
      if Live(rows[0], now) {
        MoveDeadStay(b, rows[1..], now);
      } else {
        MoveDeadStay(Moved(b, rows[0]), rows[1..], now);
      }
    }
  }

  lemma {:induction false} CreditInactive(b: Book, payers: seq<Addr>, expired: seq<Approval>)
    requires CreditExpired(b, payers, expired).Ok?
    ensures CreditExpired(b, payers, expired).value.inactive == b.inactive
    decreases |payers|
  {
    if payers != [] {
      CreditInactive(Post(b, payers[0], SumLeft(Pick(expired, Given(payers[0]))), DelegatedPaymentExpired, None), payers[1..], expired);
    }
  }

  lemma TrimDeadStay(b: Book, rows: seq<Approval>, now: int)
    requires Trim(b, rows, now).Ok?
    ensures DeadStay(b, Trim(b, rows, now).value)
  {
    MoveDeadStay(b, rows, now);
    CreditInactive(MoveExpired(b, rows, now), Dedupe(PayersOf(ExpiredRows(rows, now))), ExpiredRows(rows, now));
  }

  lemma {:induction false} RestoreDeadStay(s: Restoring, rows: seq<Inactive>, link: Link, change: Id)
    requires Keyed(s.book) && InactiveRows(s.book, rows, link) && RestoreInactive(s, rows, change).Ok?
    ensures DeadStay(s.book, RestoreInactive(s, rows, change).value.book)
    decreases |rows|
  {
    if rows != [] && s.rest >= 1 {
      RestoreOneSound(s, rows[0], change);
      forall x | x in s.book.inactive && !x.reason.Used? ensures x in RestoreOne(s, rows[0], change).value.book.inactive {
        assert x.row.id != rows[0].row.id || x == rows[0];
      }
      RestoreDeadStay(RestoreOne(s, rows[0], change).value, rows[1..], link, change);
    }
  }

  lemma RefundPayerDeadStay(b: Book, share: Share, f: Refunding)
    requires Keyed(b) && RefundPayer(b, share, f).Ok?
    ensures DeadStay(b, RefundPayer(b, share, f).value)
  {
    var link := Between(share.payer, f.signer);
    LiveRowsAfterTrim(b, link, f.now);
    TrimDeadStay(b, Pick(b.active, link), f.now);
    var t := Trim(b, Pick(b.active, link), f.now).value;
    var rows := LiveRows(Pick(b.active, link), f.now);
    GiveActiveSound(t, rows, link, share.winc, share.winc);
    var g := GiveActive(Giving(t.active, share.winc), rows, share.winc);
    var given := t.(active := g.active);
    PickedRows(given, link);
    RestoreDeadStay(Restoring(given, g.rest), PickInactive(given.inactive, link), link, f.change);
  }

  lemma {:induction false} RefundDeadStay(b: Book, shares: seq<Share>, f: Refunding)
    requires Keyed(b) && !IsApprovedSpend(f.reason) && RefundShares(b, shares, f).Ok?
    ensures DeadStay(b, RefundShares(b, shares, f).value)
    decreases |shares|
  {
    if shares != [] {
      var e := RefundShare(b, shares[0], f).value;
      if shares[0].payer != f.signer {
        RefundPayerSound(b, shares[0], f);
        RefundPayerDeadStay(b, shares[0], f);
      }
      RefundDeadStay(e, shares[1..], f);
    }
  }

  lemma RevokeDeadStay(b: Book, payer: Addr, spender: Addr, change: Id)
    requires Revoke(b, payer, spender, change).Ok?
    ensures DeadStay(b, Revoke(b, payer, spender, change).value)
  {
    var link := Between(payer, spender);
    var moved := b.inactive + AsInactive(Pick(b.active, link), Revoked, Some(change));
    RevokeUsedUpRows(moved, link, change);
    forall x | x in b.inactive && !x.reason.Used? ensures x in RevokeUsedUp(moved, link, change) {
      var i :| 0 <= i < |b.inactive| && b.inactive[i] == x;
      assert moved[i] == x;
      assert RevokeUsedUp(moved, link, change)[i] == x;
    }
  }

  /** No operation touches an expired or revoked approval again. */
  lemma StepDeadStay(b: Book, op: Op)
    requires Keyed(b) && Proper(op)
    ensures DeadStay(b, Apply(b, op))
  {
    if Outcome(b, op).Ok? {
      match op
      case TakeBack(payer, spender, change) => RevokeDeadStay(b, payer, spender, change);
      case Expire(link, now) => TrimDeadStay(b, Pick(b.active, link), now);
      case Report(user, now) => TrimDeadStay(b, Touching(b.active, user), now);
      case Charge(signer, winc, paidBy, directive, reason, change) =>
        if winc >= 1 {
          ApplyDeadStay(b, PlanSpend(b, signer, winc, Dedupe(paidBy), directive).value,
                        Allocation.Charge(signer, Balance(b, signer), reason, change));
        }
      case GiveBack(amount, overflow, how) => RefundDeadStay(b, SharesOf(overflow, how.signer, amount), how);
      case _ =>
    }
  }

  /** Over every run, an approval that has expired or been revoked never becomes active again. */
  lemma {:induction false} DeadForever(b: Book, ops: seq<Op>, x: Inactive)
    requires Keyed(b) && Balanced(b) && (forall op :: op in ops ==> Proper(op))
    requires x in b.inactive && !x.reason.Used?
    ensures x in Run(b, ops).inactive
    ensures forall r :: r in Run(b, ops).active ==> r.id != x.row.id
    decreases |ops|
  {
    if ops != [] {
      StepSound(b, ops[0]);
      StepDeadStay(b, ops[0]);
      DeadForever(Apply(b, ops[0]), ops[1..], x);
    }
  }
}
