/**
 What stands behind a receipt: over every run each was paid for in full, in its currency and in time, or granted by an
 administrator; and exactly when a quote, a payment, a gift and a chargeback are accepted, on the tables themselves.
 */
module Receipts {
  import opened Wrappers
  import opened Ledger
  import opened Payments

  // ---------- The history behind the tables ----------

  /** The quote was made, and later paid in full, in its currency, not after its end. */
  ghost predicate PaidFor(ops: seq<Op>, r: Receipt) {
    exists i, j ::
      && 0 <= j < i < |ops| && ops[j] == Quoted(r.quote)
      && ops[i].Paid? && ops[i].quoteId == r.quote.id && ops[i].receiptId == r.id
      && ops[i].paid >= r.quote.payment && ops[i].currency == r.quote.currency && ops[i].now <= r.quote.expires
  }

  /** The receipt was given without a payment. */
  ghost predicate Granted(ops: seq<Op>, r: Receipt) {
    r.id == r.quote.id && exists op :: op in ops && op.Bypassed? && r.quote in op.quotes
  }

  ghost predicate Backed(ops: seq<Op>, r: Receipt) { PaidFor(ops, r) || Granted(ops, r) }

  /** A gift stands for the quote of a receipt that was sent to an e-mail address, for its whole winc. */
  ghost predicate GiftBacked(ops: seq<Op>, g: Gift) {
    exists r :: Backed(ops, r) && r.quote.kind.Email? && g == Gift(r.id, r.quote.destination, r.quote.winc)
  }

  ghost predicate AllBacked(s: Shop, ops: seq<Op>) {
    && (forall id :: id in s.quotes ==> s.quotes[id].id == id && Quoted(s.quotes[id]) in ops)
    && (forall r :: r in s.receipts ==> Backed(ops, r))
    && (forall c :: c in s.chargebacks ==> Backed(ops, c.receipt))
    && (forall id :: id in s.gifts ==> s.gifts[id].receiptId == id && GiftBacked(ops, s.gifts[id]))
    && (forall id :: id in s.redeemed ==>
          var g := s.redeemed[id].gift;
          g.receiptId == id && GiftBacked(ops, g) && Redeemed(s.redeemed[id].destination, id, g.email) in ops)
  }

  lemma BackedGrows(ops: seq<Op>, op: Op, r: Receipt)
    requires Backed(ops, r)
    ensures Backed(ops + [op], r)
  {
    if PaidFor(ops, r) {
      var i, j :| && 0 <= j < i < |ops| && ops[j] == Quoted(r.quote)
                  && ops[i].Paid? && ops[i].quoteId == r.quote.id && ops[i].receiptId == r.id
                  && ops[i].paid >= r.quote.payment && ops[i].currency == r.quote.currency && ops[i].now <= r.quote.expires;
      assert (ops + [op])[j] == ops[j] && (ops + [op])[i] == ops[i];
    } else {
      var o :| o in ops && o.Bypassed? && r.quote in o.quotes;
      assert o in ops + [op];
    }
  }

  lemma AllBackedGrows(s: Shop, ops: seq<Op>, op: Op)
    requires AllBacked(s, ops)
    ensures AllBacked(s, ops + [op])
  {
    forall r | Backed(ops, r) ensures Backed(ops + [op], r) { BackedGrows(ops, op, r); }
    forall g | GiftBacked(ops, g) ensures GiftBacked(ops + [op], g) {
      var r :| Backed(ops, r) && r.quote.kind.Email? && g == Gift(r.id, r.quote.destination, r.quote.winc);
      assert Backed(ops + [op], r);
    }
  }

  /** One more receipt. */
  lemma InsertBacked(s: Shop, ops: seq<Op>, r: Receipt, giftReason: AuditReason, onInsert: AuditReason, onUpdate: AuditReason)
    requires AllBacked(s, ops) && Backed(ops, r) && InsertReceipt(s, r, giftReason, onInsert, onUpdate).Ok?
    ensures AllBacked(InsertReceipt(s, r, giftReason, onInsert, onUpdate).value, ops)
  {
  }

  lemma {:induction false} BypassedBacked(s: Shop, ops: seq<Op>, quotes: seq<Quote>)
    requires AllBacked(s, ops) && CreateBypassed(s, quotes).Ok?
    requires forall q :: q in quotes ==> Granted(ops, Receipt(q.id, q))
    ensures AllBacked(CreateBypassed(s, quotes).value, ops)
    decreases |quotes|
  {
    if quotes != [] {
      var r := Receipt(quotes[0].id, quotes[0]);
      assert quotes[0] in quotes;
      InsertBacked(s, ops, r, BypassedGiftedPayment, BypassedAccountCreation, BypassedPayment);
      BypassedBacked(InsertReceipt(s, r, BypassedGiftedPayment, BypassedAccountCreation, BypassedPayment).value, ops, quotes[1..]);
    }
  }

  lemma PaidBacked(s: Shop, ops: seq<Op>, op: Op)
    requires AllBacked(s, ops) && op.Paid? && Outcome(s, op).Ok?
    ensures PaidFor(ops + [op], Receipt(op.receiptId, s.quotes[op.quoteId]))
  {
    var q := s.quotes[op.quoteId];
    var j :| 0 <= j < |ops| && ops[j] == Quoted(q);
    assert (ops + [op])[j] == Quoted(q) && (ops + [op])[|ops|] == op;
  }

  lemma {:induction false} RemovedIn(receipts: seq<Receipt>, id: Id, r: Receipt)
    ensures r in RemoveReceipt(receipts, id) ==> r in receipts
  {
    if receipts != [] { RemovedIn(receipts[1..], id, r); }
  }

  lemma RedeemedBacked(s: Shop, ops: seq<Op>, op: Op)
    requires AllBacked(s, ops) && op in ops && op.Redeemed? && Outcome(s, op).Ok?
    ensures AllBacked(Apply(s, op), ops)
  {
  }

  lemma ChargedBackBacked(s: Shop, ops: seq<Op>, op: Op)
    requires AllBacked(s, ops) && op.ChargedBack? && Outcome(s, op).Ok?
    ensures AllBacked(Apply(s, op), ops)
  {
    ReceiptForIn(s.receipts, op.quoteId);
    var r := ReceiptFor(s.receipts, op.quoteId).value;
    forall x | x in Apply(s, op).receipts ensures x in s.receipts { RemovedIn(s.receipts, r.id, x); }
  }

  lemma StepBacked(s: Shop, ops: seq<Op>, op: Op)
    requires AllBacked(s, ops)
    ensures AllBacked(Apply(s, op), ops + [op])
  {
    var all := ops + [op];
    AllBackedGrows(s, ops, op);
    assert op in all;
    if Outcome(s, op).Ok? {
      match op
      case Quoted(q) =>
      case Paid(quoteId, receiptId, paid, currency, now) =>
        PaidBacked(s, ops, op);
        var left := s.(quotes := s.quotes - {quoteId});
        InsertBacked(left, all, Receipt(receiptId, s.quotes[quoteId]), GiftedPayment, AccountCreation, Payment);
      case Bypassed(quotes) =>
        forall q | q in quotes ensures Granted(all, Receipt(q.id, q)) { }
        BypassedBacked(s, all, quotes);
      case Redeemed(destination, receiptId, email) => RedeemedBacked(s, all, op);
      case ChargedBack(quoteId, reason, chargebackId) => ChargedBackBacked(s, all, op);
    }
  }

  lemma {:induction false} RunBackedFrom(s: Shop, before: seq<Op>, ops: seq<Op>)
    requires AllBacked(s, before)
    ensures AllBacked(Run(s, ops), before + ops)
    decreases |ops|
  {
    if ops == [] {
      assert before + ops == before;
    } else {
      StepBacked(s, before, ops[0]);
      RunBackedFrom(Apply(s, ops[0]), before + [ops[0]], ops[1..]);
      assert before + [ops[0]] + ops[1..] == before + ops;
    }
  }

  /**
   Over every run from empty tables: each receipt, held or charged back, was quoted and then paid in full, in the
   quote's currency and not after its end, or granted; each gift, open or redeemed, is for the winc and the address of
   such a receipt's quote; and a redeemed one was asked for by that address.
   */
  lemma RunBacked(book: Book, ops: seq<Op>)
    ensures AllBacked(Run(Shop(map[], [], [], map[], map[], book), ops), ops)
  {
    RunBackedFrom(Shop(map[], [], [], map[], map[], book), [], ops);
    assert [] + ops == ops;
  }

  // ---------- When each is accepted, and what it does ----------

  /** Open quotes stay open, unchanged, until they are paid. */
  lemma {:induction false} StaysOpen(s: Shop, ops: seq<Op>, quoteId: Id)
    requires quoteId in s.quotes && (forall op :: op in ops && op.Paid? ==> op.quoteId != quoteId)
    ensures quoteId in Run(s, ops).quotes && Run(s, ops).quotes[quoteId] == s.quotes[quoteId]
    decreases |ops|
  {
    if ops != [] {
      assert ops[0] in ops;
      if ops[0].Bypassed? && Outcome(s, ops[0]).Ok? { BypassedExactly(s, ops[0].quotes); }
      StaysOpen(Apply(s, ops[0]), ops[1..], quoteId);
    }
  }

  lemma QuoteExactly(s: Shop, q: Quote)
    ensures var r := CreateQuote(s, q);
            && (r.Ok? <==> q.id !in s.quotes)
            && (r.Ok? ==> r.value == s.(quotes := s.quotes[q.id := q]))
  {
  }

  /** The user's balance rises by the amount, nobody else's moves. */
  ghost predicate Credited(b: Book, e: Book, u: Addr, amount: int) {
    forall v :: Balance(e, v) == Balance(b, v) + (if v == u then amount else 0)
  }

  /** What a new receipt does: a wallet is credited with the quote's winc, an address gets a gift of it. */
  ghost predicate Given(s: Shop, e: Shop, r: Receipt) {
    && e.receipts == s.receipts + [r]
    && (r.quote.kind == Wallet ==> Credited(s.book, e.book, r.quote.destination, r.quote.winc) && e.gifts == s.gifts)
    && (r.quote.kind == Email ==>
          e.book.users == s.book.users && e.gifts == s.gifts[r.id := Gift(r.id, r.quote.destination, r.quote.winc)])
  }

  /** The keys do not refuse the receipt. */
  ghost predicate Unused(s: Shop, r: Receipt) {
    && (forall x :: x in s.receipts ==> x.id != r.id && x.quote.id != r.quote.id)
    && (r.quote.kind == Email ==> r.id !in s.gifts)
  }

  lemma InsertExactly(s: Shop, r: Receipt, giftReason: AuditReason, onInsert: AuditReason, onUpdate: AuditReason)
    ensures var o := InsertReceipt(s, r, giftReason, onInsert, onUpdate);
            && (o.Ok? <==> Unused(s, r))
            && (o.Ok? ==> Given(s, o.value, r) && o.value.quotes == s.quotes && o.value.chargebacks == s.chargebacks)
  {
    assert HasReceipt(s.receipts, r.id) <==> exists x :: x in s.receipts && x.id == r.id;
    assert HasReceiptFor(s.receipts, r.quote.id) <==> exists x :: x in s.receipts && x.quote.id == r.quote.id;
    assert Unused(s, r) <==>
        !HasReceipt(s.receipts, r.id) && !HasReceiptFor(s.receipts, r.quote.id) && (r.quote.kind.Email? ==> r.id !in s.gifts);
  }

  /** A payment makes a receipt if and only if the quote is open, not over, paid in full and in its currency. */
  lemma PaidExactly(s: Shop, quoteId: Id, receiptId: Id, paid: int, currency: string, now: int)
    requires OnePlace(s)
    ensures var r := CreateReceipt(s, quoteId, receiptId, paid, currency, now);
            && (r.Ok? <==>
                  && quoteId in s.quotes && now <= s.quotes[quoteId].expires
                  && paid >= s.quotes[quoteId].payment && currency == s.quotes[quoteId].currency
                  && (forall x :: x in s.receipts ==> x.id != receiptId)
                  && (s.quotes[quoteId].kind == Email ==> receiptId !in s.gifts))
            && (r.Ok? ==> Given(s, r.value, Receipt(receiptId, s.quotes[quoteId])) && r.value.quotes == s.quotes - {quoteId})
  {
    if quoteId in s.quotes {
      InsertExactly(s.(quotes := s.quotes - {quoteId}), Receipt(receiptId, s.quotes[quoteId]), GiftedPayment, AccountCreation, Payment);
      forall x | x in s.receipts ensures x.quote.id != quoteId { assert x.quote.id in ReceiptQuotes(s.receipts); }
    }
  }

  /** A batch goes through if and only if no two of it, and none of it and a held receipt, share an id. */
  lemma {:induction false} BypassedExactly(s: Shop, quotes: seq<Quote>)
    ensures var r := CreateBypassed(s, quotes);
            && (r.Ok? <==>
                  && (forall i :: 0 <= i < |quotes| ==> Unused(s, Receipt(quotes[i].id, quotes[i])))
                  && (forall i, j :: 0 <= i < j < |quotes| ==> quotes[i].id != quotes[j].id))
            && (r.Ok? ==>
                  && r.value.quotes == s.quotes && r.value.chargebacks == s.chargebacks
                  && r.value.receipts == s.receipts + seq(|quotes|, i requires 0 <= i < |quotes| => Receipt(quotes[i].id, quotes[i])))
    decreases |quotes|
  {
    if quotes != [] {
      var r := Receipt(quotes[0].id, quotes[0]);
      InsertExactly(s, r, BypassedGiftedPayment, BypassedAccountCreation, BypassedPayment);
      var o := InsertReceipt(s, r, BypassedGiftedPayment, BypassedAccountCreation, BypassedPayment);
      if o.Ok? {
        BypassedExactly(o.value, quotes[1..]);
        forall i | 1 <= i < |quotes|
          ensures Unused(o.value, Receipt(quotes[i].id, quotes[i])) <==>
                  Unused(s, Receipt(quotes[i].id, quotes[i])) && quotes[i].id != quotes[0].id
        {
          UnusedNext(s, o.value, r, Receipt(quotes[i].id, quotes[i]));
          assert quotes[1..][i - 1] == quotes[i];
        }
      }
    }
  }

  lemma UnusedNext(s: Shop, e: Shop, r: Receipt, next: Receipt)
    requires Given(s, e, r) && r.id == r.quote.id && next.id == next.quote.id
    ensures Unused(e, next) <==> Unused(s, next) && next.id != r.id
  {
    assert forall x :: x in e.receipts <==> x in s.receipts || x == r;
  }

  /** A gift is redeemed if and only if it is open, its receipt is still held and its own address asks. */
  lemma RedeemExactly(s: Shop, destination: Addr, receiptId: Id, email: Addr)
    ensures var r := RedeemGift(s, destination, receiptId, email);
            && (r.Ok? <==>
                  && receiptId in s.gifts && receiptId !in s.redeemed && s.gifts[receiptId].email == email
                  && (exists x :: x in s.receipts && x.id == receiptId))
            && (r.Err? ==> (r.error == AlreadyRedeemed(receiptId) <==> receiptId !in s.gifts && receiptId in s.redeemed))
            && (r.Ok? ==>
                  && Credited(s.book, r.value.book, destination, s.gifts[receiptId].winc)
                  && r.value.gifts == s.gifts - {receiptId}
                  && r.value.redeemed == s.redeemed[receiptId := RedeemedGift(s.gifts[receiptId], destination)])
  {
  }

  /** A chargeback goes through if and only if the quote has a receipt, whose wallet has an account, and its own id is new. */
  lemma ChargebackExactly(s: Shop, r: Receipt, reason: string, chargebackId: Id)
    requires OnePlace(s) && r in s.receipts
    ensures var o := CreateChargeback(s, r.quote.id, reason, chargebackId);
            && (o.Ok? <==>
                  && (r.quote.kind == Wallet ==> r.quote.destination in s.book.users)
                  && (forall c :: c in s.chargebacks ==> c.id != chargebackId))
            && (o.Ok? ==>
                  && Credited(s.book, o.value.book, r.quote.destination, if r.quote.kind == Wallet then -r.quote.winc else 0)
                  && (forall x :: x in o.value.receipts <==> x in s.receipts && x != r)
                  && o.value.chargebacks == s.chargebacks + [ChargebackReceipt(chargebackId, r, reason)])
  {
    ReceiptForIn(s.receipts, r.quote.id);
    RemoveReceiptRows(s.receipts, r);
  }

  lemma ChargebackNeedsReceipt(s: Shop, quoteId: Id, reason: string, chargebackId: Id)
    requires CreateChargeback(s, quoteId, reason, chargebackId).Ok?
    ensures exists r :: r in s.receipts && r.quote.id == quoteId
  {
    ReceiptForIn(s.receipts, quoteId);
  }
}
