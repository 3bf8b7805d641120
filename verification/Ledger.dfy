/**
 The tables that carry winc: the user balances, the two delegated approval tables and the audit log.
 A `Book` is their content at one moment. Approval tables are sequences because the service reads them
 without an ORDER BY: every statement below holds for every row order.
 */
module Ledger {
  import opened Wrappers

  type Addr = string
  type Id = string

  datatype AuditReason =
    | Upload | ApprovedUpload | RefundedUpload
    | ArnsPurchaseOrder | ApprovedArnsPurchaseOrder | ArnsPurchaseOrderFailed | ArnsAccountCreation
    | Payment | AccountCreation | CryptoPayment | Chargeback
    | BypassedPayment | BypassedAccountCreation | BypassedGiftedPayment
    | GiftedPayment | GiftedPaymentRedemption | GiftedAccountCreation
    | DelegatedPaymentApproval | DelegatedPaymentRevoke | DelegatedPaymentExpired
    | X402TopUp | X402HybridExcess | X402OverpaymentRefund | X402FraudPenalty

  /** The `approved_*` rows record a spend that an approval had already taken out of the payer's balance. */
  predicate IsApprovedSpend(reason: AuditReason) {
    reason.ApprovedUpload? || reason.ApprovedArnsPurchaseOrder?
  }

  /**
   A row of the audit log. Amounts are text: a withdrawal is written as a minus sign and the amount, so withdrawing
   a negative amount leaves two minus signs, which is no number. `amount` is what the row stands for in any case.
   */
  datatype Audit =
    | Audit(user: Addr, amount: int, reason: AuditReason, change: Option<Id>)
    | DoubleMinus(user: Addr, amount: int, reason: AuditReason, change: Option<Id>)

  function Withdrawal(u: Addr, winc: int, reason: AuditReason, change: Option<Id>): Audit {
    if winc < 0 then DoubleMinus(u, -winc, reason, change) else Audit(u, -winc, reason, change)
  }

  datatype Approval = Approval(id: Id, payer: Addr, spender: Addr, approved: int, used: int, expires: Option<int>)

  datatype InactiveReason = Used | Expired | Revoked

  datatype Inactive = Inactive(row: Approval, reason: InactiveReason, revokedBy: Option<Id>)

  datatype Book = Book(users: map<Addr, int>, active: seq<Approval>, inactive: seq<Inactive>, audit: seq<Audit>)

  datatype Error =
    | UserNotFound(user: Addr)
    | InsufficientBalance(user: Addr)
    | ConflictingApproval(id: Id)
    | NoApprovalsFound(payer: Addr, spender: Addr)
    | EmptyPlan
    | NotFound(id: Id)
    | AlreadyExists(id: Id)
    | Mismatch(id: Id)
    | AlreadyRedeemed(id: Id)

  /** A user without a row has balance zero. */
  function Balance(b: Book, u: Addr): int {
    if u in b.users then b.users[u] else 0
  }

  // ---------- Row selections ----------

  /** The two WHERE clauses used on approvals: everything a payer gave, or what one payer gave one spender. */
  datatype Link = Given(payer: Addr) | Between(payer: Addr, spender: Addr)

  predicate Matches(link: Link, r: Approval) {
    r.payer == link.payer && (link.Between? ==> r.spender == link.spender)
  }

  function Pick(rows: seq<Approval>, link: Link): seq<Approval> {
    if rows == [] then []
    else if Matches(link, rows[0]) then [rows[0]] + Pick(rows[1..], link)
    else Pick(rows[1..], link)
  }

  function PickInactive(rows: seq<Inactive>, link: Link): seq<Inactive> {
    if rows == [] then []
    else if Matches(link, rows[0].row) then [rows[0]] + PickInactive(rows[1..], link)
    else PickInactive(rows[1..], link)
  }

  // ---------- Row updates ----------

  /** UPDATE (Some) or DELETE (None) of the row with primary key `id`; no such row, no effect. */
  function Replace(rows: seq<Approval>, id: Id, next: Option<Approval>): seq<Approval> {
    if rows == [] then []
    else if rows[0].id == id then (if next.Some? then [next.value] else []) + rows[1..]
    else [rows[0]] + Replace(rows[1..], id, next)
  }

  function RemoveInactive(rows: seq<Inactive>, id: Id): seq<Inactive> {
    if rows == [] then []
    else if rows[0].row.id == id then rows[1..]
    else [rows[0]] + RemoveInactive(rows[1..], id)
  }

  // ---------- Totals ----------

  function Left(r: Approval): int { r.approved - r.used }

  function SumLeft(rows: seq<Approval>): int {
    if rows == [] then 0 else Left(rows[0]) + SumLeft(rows[1..])
  }

  function SumUsed(rows: seq<Approval>): int {
    if rows == [] then 0 else rows[0].used + SumUsed(rows[1..])
  }

  /** Used amounts of the rows that were moved aside because they were used up. */
  function SumUsedUp(rows: seq<Inactive>): int {
    if rows == [] then 0 else (if rows[0].reason.Used? then rows[0].row.used else 0) + SumUsedUp(rows[1..])
  }

  /** Winc still lent out under a link. */
  function Lent(b: Book, link: Link): int { SumLeft(Pick(b.active, link)) }

  /** Winc drawn under a link that a refund can still give back to an approval. */
  function Drawn(b: Book, link: Link): int {
    SumUsed(Pick(b.active, link)) + SumUsedUp(PickInactive(b.inactive, link))
  }

  /** `controlledWinc` of getBalance. */
  function Controlled(b: Book, u: Addr): int { Balance(b, u) + Lent(b, Given(u)) }

  /** What the rows of the audit log stand for, added up: a user's balance without the `approved_*` rows. */
  function AuditSum(log: seq<Audit>, u: Addr): int {
    if log == [] then 0
    else AuditSum(log[..|log| - 1], u)
         + (var a := log[|log| - 1]; if a.user == u && !IsApprovedSpend(a.reason) then a.amount else 0)
  }

  /** Every balance is what its user's audit rows stand for. */
  ghost predicate Balanced(b: Book) {
    forall u: Addr :: AuditSum(b.audit, u) == Balance(b, u)
  }

  /** Every amount of the user in the log can be read as a number. */
  ghost predicate Legible(log: seq<Audit>, u: Addr) {
    forall i :: 0 <= i < |log| && log[i].user == u ==> log[i].Audit?
  }

  /** The user's audit amounts, as written, can be summed, and their sum is the balance. */
  ghost predicate Reconciled(b: Book, u: Addr) {
    Legible(b.audit, u) && AuditSum(b.audit, u) == Balance(b, u)
  }

  /** Change a balance and write the matching audit row. */
  function Post(b: Book, u: Addr, amount: int, reason: AuditReason, change: Option<Id>): Book {
    b.(users := b.users[u := Balance(b, u) + amount], audit := b.audit + [Audit(u, amount, reason, change)])
  }

  /** Write an audit row that moves no balance. */
  function Note(b: Book, u: Addr, amount: int, reason: AuditReason, change: Option<Id>): Book {
    b.(audit := b.audit + [Audit(u, amount, reason, change)])
  }

  // ---------- Well-formed tables ----------

  ghost predicate UniqueIds(rows: seq<Approval>) {
    forall i, j :: 0 <= i < j < |rows| ==> rows[i].id != rows[j].id
  }

  ghost predicate UniqueInactiveIds(rows: seq<Inactive>) {
    forall i, j :: 0 <= i < j < |rows| ==> rows[i].row.id != rows[j].row.id
  }

  ghost predicate SoundRow(r: Approval) { 0 <= r.used <= r.approved }

  /** An id is in at most one of the two tables, and used-up rows are used up. */
  ghost predicate KeyedApprovals(active: seq<Approval>, inactive: seq<Inactive>) {
    && UniqueIds(active)
    && UniqueInactiveIds(inactive)
    && (forall r, x :: r in active && x in inactive ==> r.id != x.row.id)
    && (forall x :: x in inactive ==> x.reason.Used? ==> x.row.used == x.row.approved)
  }

  /** Used amounts are in range: no approval is for a negative amount or draws more than it is for. */
  ghost predicate SoundRows(active: seq<Approval>, inactive: seq<Inactive>) {
    (forall r :: r in active ==> SoundRow(r)) && (forall x :: x in inactive ==> SoundRow(x.row))
  }

  ghost predicate SoundApprovals(active: seq<Approval>, inactive: seq<Inactive>) {
    KeyedApprovals(active, inactive) && SoundRows(active, inactive)
  }

  ghost predicate PayersExist(b: Book) {
    && (forall r :: r in b.active ==> r.payer in b.users)
    && (forall x :: x in b.inactive ==> x.row.payer in b.users)
  }

  /** What every run keeps, also with approvals of negative amounts. */
  ghost predicate Keyed(b: Book) {
    KeyedApprovals(b.active, b.inactive) && PayersExist(b)
  }

  /** Keyed, and no approval is out of range. */
  ghost predicate WellFormed(b: Book) {
    SoundApprovals(b.active, b.inactive) && PayersExist(b)
  }

  // ---------- Facts about selections and totals ----------

  lemma {:induction false} PickIn(rows: seq<Approval>, link: Link, r: Approval)
    ensures r in Pick(rows, link) <==> r in rows && Matches(link, r)
  {
    if rows != [] { PickIn(rows[1..], link, r); }
  }

  lemma {:induction false} PickUnique(rows: seq<Approval>, link: Link)
    requires UniqueIds(rows)
    ensures UniqueIds(Pick(rows, link))
  {
    if rows != [] {
      PickUnique(rows[1..], link);
      forall r | r in Pick(rows[1..], link) ensures r.id != rows[0].id { PickIn(rows[1..], link, r); }
    }
  }

  lemma {:induction false} PickAppend(rows: seq<Approval>, more: seq<Approval>, link: Link)
    ensures Pick(rows + more, link) == Pick(rows, link) + Pick(more, link)
  {
    if rows == [] {
      assert rows + more == more;
    } else {
      PickAppend(rows[1..], more, link);
      assert (rows + more)[1..] == rows[1..] + more;
      var head := if Matches(link, rows[0]) then [rows[0]] else [];
      assert head + (Pick(rows[1..], link) + Pick(more, link)) == (head + Pick(rows[1..], link)) + Pick(more, link);
    }
  }

  lemma {:induction false} PickInactiveAppend(rows: seq<Inactive>, more: seq<Inactive>, link: Link)
    ensures PickInactive(rows + more, link) == PickInactive(rows, link) + PickInactive(more, link)
  {
    if rows == [] {
      assert rows + more == more;
    } else {
      PickInactiveAppend(rows[1..], more, link);
      assert (rows + more)[1..] == rows[1..] + more;
      var head := if Matches(link, rows[0].row) then [rows[0]] else [];
      assert head + (PickInactive(rows[1..], link) + PickInactive(more, link)) == (head + PickInactive(rows[1..], link)) +
        PickInactive(more, link);
    }
  }

  lemma {:induction false} PickInactiveIn(rows: seq<Inactive>, link: Link, x: Inactive)
    ensures x in PickInactive(rows, link) <==> x in rows && Matches(link, x.row)
  {
    if rows != [] { PickInactiveIn(rows[1..], link, x); }
  }

  lemma {:induction false} PickInactiveUnique(rows: seq<Inactive>, link: Link)
    requires UniqueInactiveIds(rows)
    ensures UniqueInactiveIds(PickInactive(rows, link))
  {
    if rows != [] {
      PickInactiveUnique(rows[1..], link);
      forall x | x in PickInactive(rows[1..], link) ensures x.row.id != rows[0].row.id { PickInactiveIn(rows[1..], link, x); }
    }
  }

  lemma {:induction false} SumLeftAppend(rows: seq<Approval>, more: seq<Approval>)
    ensures SumLeft(rows + more) == SumLeft(rows) + SumLeft(more)
    ensures SumUsed(rows + more) == SumUsed(rows) + SumUsed(more)
  {
    if rows == [] {
      assert rows + more == more;
    } else {
      SumLeftAppend(rows[1..], more);
      assert (rows + more)[1..] == rows[1..] + more;
    }
  }

  lemma PickTotals(head: seq<Approval>, rest: seq<Approval>, link: Link)
    ensures SumLeft(Pick(head + rest, link)) == SumLeft(Pick(head, link)) + SumLeft(Pick(rest, link))
    ensures SumUsed(Pick(head + rest, link)) == SumUsed(Pick(head, link)) + SumUsed(Pick(rest, link))
  {
    PickAppend(head, rest, link);
    SumLeftAppend(Pick(head, link), Pick(rest, link));
  }

  lemma PickOne(r: Approval, link: Link)
    ensures Pick([r], link) == if Matches(link, r) then [r] else []
    ensures SumLeft([r]) == Left(r) && SumUsed([r]) == r.used
  {
  }

  lemma {:induction false} SumUsedUpAppend(rows: seq<Inactive>, more: seq<Inactive>)
    ensures SumUsedUp(rows + more) == SumUsedUp(rows) + SumUsedUp(more)
  {
    if rows == [] {
      assert rows + more == more;
    } else {
      SumUsedUpAppend(rows[1..], more);
      assert (rows + more)[1..] == rows[1..] + more;
    }
  }

  lemma {:induction false} SumLeftNonNegative(rows: seq<Approval>)
    requires forall r :: r in rows ==> SoundRow(r)
    ensures SumLeft(rows) >= 0 && SumUsed(rows) >= 0
  {
    if rows != [] {
      assert SoundRow(rows[0]);
      SumLeftNonNegative(rows[1..]);
    }
  }

  // ---------- Facts about row updates ----------

  lemma {:induction false} ReplaceIn(rows: seq<Approval>, id: Id, next: Option<Approval>, r: Approval)
    requires UniqueIds(rows)
    ensures r in Replace(rows, id, next) <==>
            (r in rows && r.id != id) || (next == Some(r) && exists q :: q in rows && q.id == id)
  {
    if rows != [] {
      if rows[0].id == id {
        assert rows[0] in rows;
        assert forall q :: q in rows[1..] ==> q.id != id;
      } else {
        ReplaceIn(rows[1..], id, next, r);
      }
    }
  }

  lemma {:induction false} ReplaceUnique(rows: seq<Approval>, id: Id, next: Option<Approval>)
    requires UniqueIds(rows)
    requires next.Some? ==> next.value.id == id
    ensures UniqueIds(Replace(rows, id, next))
  {
    if rows != [] && rows[0].id != id {
      ReplaceUnique(rows[1..], id, next);
      forall r | r in Replace(rows[1..], id, next) ensures r.id != rows[0].id { ReplaceIn(rows[1..], id, next, r); }
    }
  }

  /** Replacing one row moves each total by that row's change. */
  lemma {:induction false} ReplaceTotals(rows: seq<Approval>, r: Approval, next: Option<Approval>, link: Link)
    requires UniqueIds(rows) && r in rows
    ensures SumLeft(Pick(Replace(rows, r.id, next), link)) ==
            SumLeft(Pick(rows, link)) - (if Matches(link, r) then Left(r) else 0)
            + (if next.Some? && Matches(link, next.value) then Left(next.value) else 0)
    ensures SumUsed(Pick(Replace(rows, r.id, next), link)) ==
            SumUsed(Pick(rows, link)) - (if Matches(link, r) then r.used else 0)
            + (if next.Some? && Matches(link, next.value) then next.value.used else 0)
  {
    assert rows == [rows[0]] + rows[1..];
    PickTotals([rows[0]], rows[1..], link);
    PickOne(rows[0], link);
    if rows[0].id == r.id {
      assert rows[0] == r;
      if next.Some? {
        PickTotals([next.value], rows[1..], link);
        PickOne(next.value, link);
      } else {
        assert Replace(rows, r.id, next) == rows[1..];
      }
    } else {
      ReplaceTotals(rows[1..], r, next, link);
      PickTotals([rows[0]], Replace(rows[1..], r.id, next), link);
    }
  }

  /** Rows of other links keep their place. */
  lemma {:induction false} ReplaceFrame(rows: seq<Approval>, r: Approval, next: Option<Approval>, link: Link)
    requires UniqueIds(rows) && r in rows && !Matches(link, r)
    requires next.Some? ==> !Matches(link, next.value)
    ensures Pick(Replace(rows, r.id, next), link) == Pick(rows, link)
  {
    if rows[0].id == r.id {
      assert rows[0] == r;
      if next.Some? {
        PickAppend([next.value], rows[1..], link);
        PickOne(next.value, link);
      } else {
        assert Replace(rows, r.id, next) == rows[1..];
      }
    } else {
      ReplaceFrame(rows[1..], r, next, link);
      PickAppend([rows[0]], Replace(rows[1..], r.id, next), link);
      PickOne(rows[0], link);
    }
  }

  /** Within its own link, a replaced row is replaced in place. */
  lemma {:induction false} ReplaceWithin(rows: seq<Approval>, r: Approval, next: Option<Approval>, link: Link)
    requires UniqueIds(rows) && r in rows && Matches(link, r)
    requires next.Some? ==> Matches(link, next.value)
    ensures Pick(Replace(rows, r.id, next), link) == Replace(Pick(rows, link), r.id, next)
  {
    PickOne(rows[0], link);
    if rows[0].id == r.id {
      assert rows[0] == r;
      assert Pick(rows, link) == [r] + Pick(rows[1..], link);
      if next.Some? {
        PickAppend([next.value], rows[1..], link);
        PickOne(next.value, link);
      } else {
        assert Replace(rows, r.id, next) == rows[1..];
      }
    } else {
      ReplaceWithin(rows[1..], r, next, link);
      PickAppend([rows[0]], Replace(rows[1..], r.id, next), link);
      if Matches(link, rows[0]) {
        assert Pick(rows, link) == [rows[0]] + Pick(rows[1..], link);
        assert Pick(rows, link)[1..] == Pick(rows[1..], link);
      } else {
        assert Pick(rows, link) == Pick(rows[1..], link);
      }
    }
  }

  // ---------- Facts about the audit log ----------

  lemma AuditSumAppend(log: seq<Audit>, a: Audit, u: Addr)
    ensures AuditSum(log + [a], u) ==
            AuditSum(log, u) + (if a.user == u && !IsApprovedSpend(a.reason) then a.amount else 0)
  {
    assert (log + [a])[..|log|] == log;
  }

  lemma PostBalances(b: Book, u: Addr, amount: int, reason: AuditReason, change: Option<Id>)
    requires Balanced(b) && !IsApprovedSpend(reason)
    ensures Balanced(Post(b, u, amount, reason, change))
  {
    forall v ensures AuditSum(Post(b, u, amount, reason, change).audit, v) == Balance(Post(b, u, amount, reason, change), v) {
      AuditSumAppend(b.audit, Audit(u, amount, reason, change), v);
    }
  }

  lemma NoteBalances(b: Book, u: Addr, amount: int, reason: AuditReason, change: Option<Id>)
    requires Balanced(b) && (IsApprovedSpend(reason) || amount == 0)
    ensures Balanced(Note(b, u, amount, reason, change))
  {
    forall v ensures AuditSum(Note(b, u, amount, reason, change).audit, v) == Balance(b, v) {
      AuditSumAppend(b.audit, Audit(u, amount, reason, change), v);
    }
  }

  lemma WithdrawalBalances(b: Book, u: Addr, winc: int, reason: AuditReason, change: Option<Id>)
    requires Balanced(b) && !IsApprovedSpend(reason)
    ensures Balanced(b.(users := b.users[u := Balance(b, u) - winc], audit := b.audit + [Withdrawal(u, winc, reason, change)]))
  {
    var row := Withdrawal(u, winc, reason, change);
    forall v ensures AuditSum(b.audit + [row], v) == AuditSum(b.audit, v) + (if v == u then -winc else 0) {
      AuditSumAppend(b.audit, row, v);
    }
  }
}
