/** Top-up quotes, payment receipts, gifts and chargebacks. */
module Payments {
  import opened Wrappers
  import opened Ledger
  import opened Runs

  datatype Kind = Wallet | Email

  datatype Quote = Quote(id: Id, destination: Addr, kind: Kind, winc: int, payment: int, currency: string, expires: int)

  /** A receipt is the quote's row with a receipt id. */
  datatype Receipt = Receipt(id: Id, quote: Quote)

  datatype ChargebackReceipt = ChargebackReceipt(id: Id, receipt: Receipt, reason: string)

  datatype Gift = Gift(receiptId: Id, email: Addr, winc: int)

  datatype RedeemedGift = RedeemedGift(gift: Gift, destination: Addr)

  datatype Shop = Shop(
    quotes: map<Id, Quote>,
    receipts: seq<Receipt>,
    chargebacks: seq<ChargebackReceipt>,
    gifts: map<Id, Gift>,
    redeemed: map<Id, RedeemedGift>,
    book: Book)

  // ---------- Operations ----------

  predicate HasReceipt(receipts: seq<Receipt>, id: Id) { exists r :: r in receipts && r.id == id }

  /** UNIQUE(payment_receipt.top_up_quote_id) */
  predicate HasReceiptFor(receipts: seq<Receipt>, quoteId: Id) { exists r :: r in receipts && r.quote.id == quoteId }

  predicate HasChargeback(chargebacks: seq<ChargebackReceipt>, id: Id) { exists c :: c in chargebacks && c.id == id }

  function CreateQuote(s: Shop, q: Quote): Result<Shop, Error> {
    if q.id in s.quotes then Err(AlreadyExists(q.id)) else Ok(s.(quotes := s.quotes[q.id := q]))
  }

  /** INSERT of a receipt with its gift or credit; the primary key and the unique quote id may refuse it. */
  function InsertReceipt(s: Shop, r: Receipt, giftReason: AuditReason, onInsert: AuditReason, onUpdate: AuditReason): Result<Shop, Error> {
    if HasReceipt(s.receipts, r.id) || HasReceiptFor(s.receipts, r.quote.id) then Err(AlreadyExists(r.id))
    else
      var t := s.(receipts := s.receipts + [r]);
      if r.quote.kind.Email? then
        if r.id in s.gifts then Err(AlreadyExists(r.id))
        else Ok(t.(gifts := s.gifts[r.id := Gift(r.id, r.quote.destination, r.quote.winc)],
                   book := Note(s.book, r.quote.destination, 0, giftReason, Some(r.id))))
      else Ok(t.(book := CreditUser(s.book, r.quote.destination, r.quote.winc, onInsert, onUpdate, r.id)))
  }

  function CreateReceipt(s: Shop, quoteId: Id, receiptId: Id, paid: int, currency: string, now: int): Result<Shop, Error> {
    if quoteId !in s.quotes then Err(NotFound(quoteId))
    else
      var q := s.quotes[quoteId];
      if q.expires < now then Err(Mismatch(quoteId))
      else if paid < q.payment || currency != q.currency then Err(Mismatch(quoteId))
      else InsertReceipt(s.(quotes := s.quotes - {quoteId}), Receipt(receiptId, q), GiftedPayment, AccountCreation, Payment)
  }

  /** The admin path: receipts without a quote, one id serving as receipt id and quote id; all or nothing. */
  function CreateBypassed(s: Shop, quotes: seq<Quote>): Result<Shop, Error>
    decreases |quotes|
  {
    if quotes == [] then Ok(s)
    else
      var r := InsertReceipt(s, Receipt(quotes[0].id, quotes[0]), BypassedGiftedPayment, BypassedAccountCreation, BypassedPayment);
      if r.Err? then r else CreateBypassed(r.value, quotes[1..])
  }

  function RedeemGift(s: Shop, destination: Addr, receiptId: Id, email: Addr): Result<Shop, Error> {
    if receiptId !in s.gifts then
      if receiptId in s.redeemed then Err(AlreadyRedeemed(receiptId)) else Err(NotFound(receiptId))
    else if !HasReceipt(s.receipts, receiptId) then Err(NotFound(receiptId))
    else if s.gifts[receiptId].email != email then Err(Mismatch(receiptId))
    else if receiptId in s.redeemed then Err(AlreadyExists(receiptId))
    else
      Ok(s.(gifts := s.gifts - {receiptId},
            redeemed := s.redeemed[receiptId := RedeemedGift(s.gifts[receiptId], destination)],
            book := CreditUser(s.book, destination, s.gifts[receiptId].winc, GiftedAccountCreation, GiftedPaymentRedemption, receiptId)))
  }

  function ReceiptFor(receipts: seq<Receipt>, quoteId: Id): Option<Receipt> {
    if receipts == [] then None
    else if receipts[0].quote.id == quoteId then Some(receipts[0])
    else ReceiptFor(receipts[1..], quoteId)
  }

  function RemoveReceipt(receipts: seq<Receipt>, id: Id): seq<Receipt> {
    if receipts == [] then []
    else if receipts[0].id == id then receipts[1..]
    else [receipts[0]] + RemoveReceipt(receipts[1..], id)
  }

  /** A wallet's credit is taken back, possibly below zero; a gift's is not (its lookup reads unredeemed gifts only). */
  function CreateChargeback(s: Shop, quoteId: Id, reason: string, chargebackId: Id): Result<Shop, Error> {
    var found := ReceiptFor(s.receipts, quoteId);
    if found.None? then Err(NotFound(quoteId))
    else
      var r := found.value;
      var debited := if r.quote.kind.Email? then Ok(s.book)
                     else WithdrawLocked(s.book, r.quote.destination, r.quote.winc, Chargeback, chargebackId);
      if debited.Err? then Err(debited.error)
      else if HasChargeback(s.chargebacks, chargebackId) then Err(AlreadyExists(chargebackId))
      else Ok(s.(book := debited.value, receipts := RemoveReceipt(s.receipts, r.id),
                 chargebacks := s.chargebacks + [ChargebackReceipt(chargebackId, r, reason)]))
  }

  // ---------- Runs ----------

  datatype Op =
    | Quoted(q: Quote)
    | Paid(quoteId: Id, receiptId: Id, paid: int, currency: string, now: int)
    | Bypassed(quotes: seq<Quote>)
    | Redeemed(destination: Addr, receiptId: Id, email: Addr)
    | ChargedBack(quoteId: Id, reason: string, chargebackId: Id)

  function Outcome(s: Shop, op: Op): Result<Shop, Error> {
    match op
    case Quoted(q) => CreateQuote(s, q)
    case Paid(quoteId, receiptId, paid, currency, now) => CreateReceipt(s, quoteId, receiptId, paid, currency, now)
    case Bypassed(quotes) => CreateBypassed(s, quotes)
    case Redeemed(destination, receiptId, email) => RedeemGift(s, destination, receiptId, email)
    case ChargedBack(quoteId, reason, chargebackId) => CreateChargeback(s, quoteId, reason, chargebackId)
  }

  function Apply(s: Shop, op: Op): Shop {
    var r := Outcome(s, op);
    if r.Ok? then r.value else s
  }

  function Run(s: Shop, ops: seq<Op>): Shop
    decreases |ops|
  {
    if ops == [] then s else Run(Apply(s, ops[0]), ops[1..])
  }

  // ---------- A quote id is in one place ----------

  ghost function ReceiptQuotes(receipts: seq<Receipt>): set<Id> { set r | r in receipts :: r.quote.id }

  ghost function ChargebackQuotes(chargebacks: seq<ChargebackReceipt>): set<Id> { set c | c in chargebacks :: c.receipt.quote.id }

  ghost function UsedIds(s: Shop): set<Id> { s.quotes.Keys + ReceiptQuotes(s.receipts) + ChargebackQuotes(s.chargebacks) }

  ghost predicate OnePlace(s: Shop) {
    && (forall id :: id in s.quotes ==> s.quotes[id].id == id)
    && s.quotes.Keys !! ReceiptQuotes(s.receipts)
    && s.quotes.Keys !! ChargebackQuotes(s.chargebacks)
    && ReceiptQuotes(s.receipts) !! ChargebackQuotes(s.chargebacks)
    && DistinctReceipts(s.receipts)
  }

  /** Ids handed to a new quote or a bypassed receipt are new. */
  ghost predicate FreshIds(s: Shop, op: Op) {
    match op
    case Quoted(q) => q.id !in UsedIds(s)
    case Bypassed(quotes) => forall q :: q in quotes ==> q.id !in s.quotes && q.id !in ChargebackQuotes(s.chargebacks)
    case _ => true
  }

  lemma ReceiptsAppend(receipts: seq<Receipt>, r: Receipt)
    ensures ReceiptQuotes(receipts + [r]) == ReceiptQuotes(receipts) + {r.quote.id}
  {
    assert forall x :: x in receipts + [r] <==> x in receipts || x == r;
  }

  ghost predicate DistinctReceipts(receipts: seq<Receipt>) {
    forall i, j :: 0 <= i < j < |receipts| ==> receipts[i].quote.id != receipts[j].quote.id && receipts[i].id != receipts[j].id
  }

  lemma DistinctAppend(receipts: seq<Receipt>, r: Receipt)
    requires DistinctReceipts(receipts) && !HasReceipt(receipts, r.id) && !HasReceiptFor(receipts, r.quote.id)
    ensures DistinctReceipts(receipts + [r])
  {
    assert forall i :: 0 <= i < |receipts| ==> receipts[i] in receipts;
  }

  lemma InsertOnePlace(s: Shop, r: Receipt, giftReason: AuditReason, onInsert: AuditReason, onUpdate: AuditReason)
    requires OnePlace(s) && r.quote.id !in s.quotes && r.quote.id !in ChargebackQuotes(s.chargebacks)
    requires InsertReceipt(s, r, giftReason, onInsert, onUpdate).Ok?
    ensures OnePlace(InsertReceipt(s, r, giftReason, onInsert, onUpdate).value)
  {
    ReceiptsAppend(s.receipts, r);
    DistinctAppend(s.receipts, r);
  }

  lemma {:induction false} BypassedOnePlace(s: Shop, quotes: seq<Quote>)
    requires OnePlace(s) && CreateBypassed(s, quotes).Ok?
    requires forall q :: q in quotes ==> q.id !in s.quotes && q.id !in ChargebackQuotes(s.chargebacks)
    ensures OnePlace(CreateBypassed(s, quotes).value)
    decreases |quotes|
  {
    if quotes != [] {
      InsertOnePlace(s, Receipt(quotes[0].id, quotes[0]), BypassedGiftedPayment, BypassedAccountCreation, BypassedPayment);
      BypassedOnePlace(InsertReceipt(s, Receipt(quotes[0].id, quotes[0]), BypassedGiftedPayment, BypassedAccountCreation,
        BypassedPayment).value, quotes[1..]);
    }
  }

  lemma {:induction false} ReceiptForIn(receipts: seq<Receipt>, quoteId: Id)
    ensures ReceiptFor(receipts, quoteId).None? <==> !HasReceiptFor(receipts, quoteId)
    ensures ReceiptFor(receipts, quoteId).Some? ==>
              ReceiptFor(receipts, quoteId).value in receipts && ReceiptFor(receipts, quoteId).value.quote.id == quoteId
  {
    if receipts != [] { ReceiptForIn(receipts[1..], quoteId); }
  }

  lemma {:induction false} RemoveReceiptRows(receipts: seq<Receipt>, r: Receipt)
    requires r in receipts && DistinctReceipts(receipts)
    ensures var rest := RemoveReceipt(receipts, r.id);
            && (forall x :: x in rest <==> x in receipts && x != r)
            && DistinctReceipts(rest)
            && r.quote.id !in ReceiptQuotes(rest)
  {
    if receipts[0].id == r.id {
      assert receipts[0] == r;
    } else {
      var rest := RemoveReceipt(receipts[1..], r.id);
      RemoveReceiptRows(receipts[1..], r);
      forall i | 0 <= i < |rest| ensures rest[i].id != receipts[0].id && rest[i].quote.id != receipts[0].quote.id {
        assert rest[i] in receipts[1..];
      }
      DistinctPrepend(receipts[0], rest);
    }
  }

  lemma DistinctPrepend(r: Receipt, rest: seq<Receipt>)
    requires DistinctReceipts(rest) && forall i :: 0 <= i < |rest| ==> rest[i].id != r.id && rest[i].quote.id != r.quote.id
    ensures DistinctReceipts([r] + rest)
  {
  }

  lemma ChargebackOnePlace(s: Shop, quoteId: Id, reason: string, chargebackId: Id)
    requires OnePlace(s) && CreateChargeback(s, quoteId, reason, chargebackId).Ok?
    ensures OnePlace(CreateChargeback(s, quoteId, reason, chargebackId).value)
  {
    var r := ReceiptFor(s.receipts, quoteId).value;
    ReceiptForIn(s.receipts, quoteId);
    RemoveReceiptRows(s.receipts, r);
    var e := CreateChargeback(s, quoteId, reason, chargebackId).value;
    assert forall c :: c in e.chargebacks <==> c in s.chargebacks || c == ChargebackReceipt(chargebackId, r, reason);
    assert ChargebackQuotes(e.chargebacks) == ChargebackQuotes(s.chargebacks) + {quoteId};
    assert quoteId in ReceiptQuotes(s.receipts);
    assert ReceiptQuotes(e.receipts) <= ReceiptQuotes(s.receipts);
  }

  /** With fresh ids, a quote id is never in two of quote, receipt and chargeback; and no two receipts share one. */
  lemma StepOnePlace(s: Shop, op: Op)
    requires OnePlace(s) && FreshIds(s, op)
    ensures OnePlace(Apply(s, op))
  {
    if Outcome(s, op).Ok? {
      match op
      case Paid(quoteId, receiptId, paid, currency, now) =>
        InsertOnePlace(s.(quotes := s.quotes - {quoteId}), Receipt(receiptId, s.quotes[quoteId]), GiftedPayment, AccountCreation, Payment);
      case Bypassed(quotes) => BypassedOnePlace(s, quotes);
      case ChargedBack(quoteId, reason, chargebackId) => ChargebackOnePlace(s, quoteId, reason, chargebackId);
      case _ =>
    }
  }

  ghost predicate RunFresh(s: Shop, ops: seq<Op>)
    decreases |ops|
  {
    ops == [] || (FreshIds(s, ops[0]) && RunFresh(Apply(s, ops[0]), ops[1..]))
  }

  lemma {:induction false} RunOnePlace(s: Shop, ops: seq<Op>)
    requires OnePlace(s) && RunFresh(s, ops)
    ensures OnePlace(Run(s, ops))
    decreases |ops|
  {
    if ops != [] {
      StepOnePlace(s, ops[0]);
      RunOnePlace(Apply(s, ops[0]), ops[1..]);
    }
  }

  /** Freshness is needed: the table of open quotes alone refuses a repeated id, receipts and chargebacks do not. */
  lemma QuoteNeedsFreshId(s: Shop, q: Quote)
    requires OnePlace(s) && CreateQuote(s, q).Ok?
    ensures OnePlace(CreateQuote(s, q).value) <==> q.id !in ReceiptQuotes(s.receipts) && q.id !in ChargebackQuotes(s.chargebacks)
  {
    assert q.id in CreateQuote(s, q).value.quotes;
  }

  // ---------- Receipt money ----------

  /** Winc of the receipts a wallet still holds. */
  function Held(receipts: seq<Receipt>, a: Addr): int {
    if receipts == [] then 0
    else HeldOf(receipts[0], a) + Held(receipts[1..], a)
  }

  lemma {:induction false} HeldAppend(receipts: seq<Receipt>, r: Receipt, a: Addr)
    ensures Held(receipts + [r], a) == Held(receipts, a) + HeldOf(r, a)
  {
    if receipts == [] {
      assert receipts + [r] == [r];
    } else {
      HeldAppend(receipts[1..], r, a);
      assert (receipts + [r])[1..] == receipts[1..] + [r];
    }
  }

  lemma {:induction false} HeldRemove(receipts: seq<Receipt>, r: Receipt, a: Addr)
    requires r in receipts && DistinctReceipts(receipts)
    ensures Held(RemoveReceipt(receipts, r.id), a) == Held(receipts, a) - HeldOf(r, a)
  {
    if receipts[0].id == r.id {
      assert receipts[0] == r;
    } else {
      HeldRemove(receipts[1..], r, a);
      assert ([receipts[0]] + RemoveReceipt(receipts[1..], r.id))[1..] == RemoveReceipt(receipts[1..], r.id);
    }
  }

  function HeldOf(r: Receipt, a: Addr): int {
    if r.quote.kind.Wallet? && r.quote.destination == a then r.quote.winc else 0
  }

  lemma InsertMoney(s: Shop, r: Receipt, giftReason: AuditReason, onInsert: AuditReason, onUpdate: AuditReason, a: Addr)
    requires InsertReceipt(s, r, giftReason, onInsert, onUpdate).Ok?
    requires IsIncome(onInsert) && IsIncome(onUpdate)
    ensures var e := InsertReceipt(s, r, giftReason, onInsert, onUpdate).value;
            Income(e.book.audit, a) - Held(e.receipts, a) == Income(s.book.audit, a) - Held(s.receipts, a)
  {
    var e := InsertReceipt(s, r, giftReason, onInsert, onUpdate).value;
    HeldAppend(s.receipts, r, a);
    if r.quote.kind.Email? {
      IncomeAppend(s.book.audit, Audit(r.quote.destination, 0, giftReason, Some(r.id)), a);
    } else {
      var reason := if r.quote.destination in s.book.users then onUpdate else onInsert;
      IncomeAppend(s.book.audit, Audit(r.quote.destination, r.quote.winc, reason, Some(r.id)), a);
    }
  }

  lemma {:induction false} BypassedMoney(s: Shop, quotes: seq<Quote>, a: Addr)
    requires CreateBypassed(s, quotes).Ok?
    ensures var e := CreateBypassed(s, quotes).value;
            Income(e.book.audit, a) - Held(e.receipts, a) == Income(s.book.audit, a) - Held(s.receipts, a)
    decreases |quotes|
  {
    if quotes != [] {
      var r := Receipt(quotes[0].id, quotes[0]);
      InsertMoney(s, r, BypassedGiftedPayment, BypassedAccountCreation, BypassedPayment, a);
      BypassedMoney(InsertReceipt(s, r, BypassedGiftedPayment, BypassedAccountCreation, BypassedPayment).value, quotes[1..], a);
    }
  }

  lemma ChargebackMoney(s: Shop, quoteId: Id, reason: string, chargebackId: Id, a: Addr)
    requires OnePlace(s) && CreateChargeback(s, quoteId, reason, chargebackId).Ok?
    ensures var e := CreateChargeback(s, quoteId, reason, chargebackId).value;
            Income(e.book.audit, a) - Held(e.receipts, a) == Income(s.book.audit, a) - Held(s.receipts, a)
  {
    ReceiptForIn(s.receipts, quoteId);
    var r := ReceiptFor(s.receipts, quoteId).value;
    var e := CreateChargeback(s, quoteId, reason, chargebackId).value;
    assert Held(e.receipts, a) == Held(s.receipts, a) - HeldOf(r, a) by { HeldRemove(s.receipts, r, a); }
    var row := Withdrawal(r.quote.destination, r.quote.winc, Chargeback, Some(chargebackId));
    IncomeAppend(s.book.audit, row, a);
    assert e.book.audit == if r.quote.kind.Email? then s.book.audit else s.book.audit + [row];
  }

  lemma StepMoney(s: Shop, op: Op, a: Addr)
    requires OnePlace(s)
    ensures Income(Apply(s, op).book.audit, a) - Held(Apply(s, op).receipts, a) == Income(s.book.audit, a) - Held(s.receipts, a)
  {
    if Outcome(s, op).Ok? {
      match op
      case Quoted(q) =>
      case Paid(quoteId, receiptId, paid, currency, now) =>
        InsertMoney(s.(quotes := s.quotes - {quoteId}), Receipt(receiptId, s.quotes[quoteId]), GiftedPayment, AccountCreation, Payment, a);
      case Bypassed(quotes) => BypassedMoney(s, quotes, a);
      case Redeemed(destination, receiptId, email) =>
        IncomeAppend(s.book.audit, Audit(destination, s.gifts[receiptId].winc,
          if destination in s.book.users then GiftedPaymentRedemption else GiftedAccountCreation, Some(receiptId)), a);
      case ChargedBack(quoteId, reason, chargebackId) => ChargebackMoney(s, quoteId, reason, chargebackId, a);
    }
  }

  /**
   Over every run of these operations with fresh ids, a wallet's income, that is its receipt credits less its
   chargebacks, moves exactly with the winc of the receipts it still holds; from empty tables they are equal.
   */
  lemma {:induction false} RunMoney(s: Shop, ops: seq<Op>, a: Addr)
    requires OnePlace(s) && RunFresh(s, ops)
    ensures Income(Run(s, ops).book.audit, a) - Held(Run(s, ops).receipts, a) == Income(s.book.audit, a) - Held(s.receipts, a)
    decreases |ops|
  {
    if ops != [] {
      StepOnePlace(s, ops[0]);
      StepMoney(s, ops[0], a);
      RunMoney(Apply(s, ops[0]), ops[1..], a);
    }
  }

  /** A quote that has become a receipt, possibly charged back since. */
  ghost predicate Settled(s: Shop, quoteId: Id) {
    quoteId in ReceiptQuotes(s.receipts) || quoteId in ChargebackQuotes(s.chargebacks)
  }

  lemma {:induction false} BypassedSettled(s: Shop, quotes: seq<Quote>, quoteId: Id)
    requires Settled(s, quoteId) && CreateBypassed(s, quotes).Ok?
    ensures Settled(CreateBypassed(s, quotes).value, quoteId)
    decreases |quotes|
  {
    if quotes != [] {
      var r := Receipt(quotes[0].id, quotes[0]);
      ReceiptsAppend(s.receipts, r);
      BypassedSettled(InsertReceipt(s, r, BypassedGiftedPayment, BypassedAccountCreation, BypassedPayment).value, quotes[1..], quoteId);
    }
  }

  lemma StepSettled(s: Shop, op: Op, quoteId: Id)
    requires OnePlace(s) && Settled(s, quoteId)
    ensures Settled(Apply(s, op), quoteId)
  {
    if Outcome(s, op).Ok? {
      match op
      case Paid(id, receiptId, paid, currency, now) => ReceiptsAppend(s.receipts, Receipt(receiptId, s.quotes[id]));
      case Bypassed(quotes) => BypassedSettled(s, quotes, quoteId);
      case ChargedBack(id, reason, chargebackId) =>
        ReceiptForIn(s.receipts, id);
        var r := ReceiptFor(s.receipts, id).value;
        RemoveReceiptRows(s.receipts, r);
        assert ChargebackReceipt(chargebackId, r, reason) in Apply(s, op).chargebacks;
        assert forall c :: c in s.chargebacks ==> c in Apply(s, op).chargebacks;
      case _ =>
    }
  }

  /** A quote credits at most once: after its receipt was made, every later attempt in any run is refused. */
  lemma {:induction false} PaidOnce(s: Shop, ops: seq<Op>, quoteId: Id, receiptId: Id, paid: int, currency: string, now: int)
    requires OnePlace(s) && RunFresh(s, ops) && Settled(s, quoteId)
    ensures Settled(Run(s, ops), quoteId)
    ensures CreateReceipt(Run(s, ops), quoteId, receiptId, paid, currency, now) == Err(NotFound(quoteId))
    decreases |ops|
  {
    if ops != [] {
      StepOnePlace(s, ops[0]);
      StepSettled(s, ops[0], quoteId);
      PaidOnce(Apply(s, ops[0]), ops[1..], quoteId, receiptId, paid, currency, now);
    }
  }

  // ---------- Gifts ----------

  /** A gift is redeemed at most once: after that every later attempt in any run is refused. */
  lemma {:induction false} RedeemedOnce(s: Shop, ops: seq<Op>, receiptId: Id, destination: Addr, email: Addr)
    requires receiptId in s.redeemed
    ensures receiptId in Run(s, ops).redeemed && RedeemGift(Run(s, ops), destination, receiptId, email).Err?
    decreases |ops|
  {
    if ops != [] {
      StepRedeemed(s, ops[0], receiptId);
      RedeemedOnce(Apply(s, ops[0]), ops[1..], receiptId, destination, email);
    }
  }

  lemma StepRedeemed(s: Shop, op: Op, receiptId: Id)
    requires receiptId in s.redeemed
    ensures receiptId in Apply(s, op).redeemed
  {
    if op.Bypassed? && Outcome(s, op).Ok? { BypassedRedeemed(s, op.quotes); }
  }

  lemma {:induction false} BypassedRedeemed(s: Shop, quotes: seq<Quote>)
    requires CreateBypassed(s, quotes).Ok?
    ensures CreateBypassed(s, quotes).value.redeemed == s.redeemed
    decreases |quotes|
  {
    if quotes != [] {
      var r := Receipt(quotes[0].id, quotes[0]);
      BypassedRedeemed(InsertReceipt(s, r, BypassedGiftedPayment, BypassedAccountCreation, BypassedPayment).value, quotes[1..]);
    }
  }
}
