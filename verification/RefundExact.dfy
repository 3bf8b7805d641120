/**
 What a refund does exactly, whatever has expired or been revoked meanwhile. A refund first expires what is due;
 the rest is read off the rows of the payer's approvals as they are then.
 */
module RefundExact {
  import opened Wrappers
  import opened Ledger
  import opened Approvals
  import opened Allocation
  import opened Spending
  import opened Lending
  import opened Refunds
  import opened RoundTrip

  // ---------- The expiry that comes first ----------

  lemma {:induction false} ReplaceAt(done: seq<Approval>, r: Approval, rest: seq<Approval>)
    requires UniqueIds(done + [r] + rest)
    ensures Replace(done + [r] + rest, r.id, None) == done + rest
  {
    var all := done + [r] + rest;
    if done == [] {
      assert all == [r] + rest;
    } else {
      assert all[0] == done[0] && all[|done|] == r;
      assert all[1..] == done[1..] + [r] + rest;
      ReplaceAt(done[1..], r, rest);
      assert Replace(all, r.id, None) == [done[0]] + Replace(all[1..], r.id, None);
      assert done + rest == [done[0]] + (done[1..] + rest);
    }
  }

  /** Expiring one link's rows leaves its live ones in order and appends the others to its inactive ones. */
  lemma {:induction false} MoveLists(b: Book, done: seq<Approval>, rows: seq<Approval>, now: int, link: Link)
    requires Keyed(b) && Pick(b.active, link) == done + rows
    ensures var e := MoveExpired(b, rows, now);
            && Pick(e.active, link) == done + LiveRows(rows, now)
            && PickInactive(e.inactive, link) == PickInactive(b.inactive, link) + AsInactive(ExpiredRows(rows, now), Expired, None)
    decreases |rows|
  {
    if rows == [] {
      assert PickInactive(b.inactive, link) + [] == PickInactive(b.inactive, link);
    } else {
      var r := rows[0];
      if Live(r, now) {
        AppendFirst(done, r, rows[1..]);
        assert [r] + rows[1..] == rows;
        MoveLists(b, done + [r], rows[1..], now, link);
        AppendFirst(done, r, LiveRows(rows[1..], now));
      } else {
        assert [r] + rows[1..] == rows;
        MoveOneLists(b, done, r, rows[1..], link);
        MoveLists(Moved(b, r), done, rows[1..], now, link);
        AppendFirst(PickInactive(b.inactive, link), Inactive(r, Expired, None), AsInactive(ExpiredRows(rows[1..], now), Expired, None));
      }
    }
  }

  lemma AppendFirst<T>(a: seq<T>, x: T, c: seq<T>)
    ensures (a + [x]) + c == a + ([x] + c)
  {
  }

  lemma MoveOneLists(b: Book, done: seq<Approval>, r: Approval, rest: seq<Approval>, link: Link)
    requires Keyed(b) && Pick(b.active, link) == done + ([r] + rest)
    ensures Keyed(Moved(b, r)) && (WellFormed(b) ==> WellFormed(Moved(b, r))) && Pick(Moved(b, r).active, link) == done + rest
    ensures PickInactive(Moved(b, r).inactive, link) == PickInactive(b.inactive, link) + [Inactive(r, Expired, None)]
  {
    assert (done + ([r] + rest))[|done|] == r;
    PickIn(b.active, link, r);
    MoveOne(b, r);
    ReplaceWithin(b.active, r, None, link);
    PickUnique(b.active, link);
    assert done + ([r] + rest) == done + [r] + rest;
    ReplaceAt(done, r, rest);
    PickInactiveAppend(b.inactive, [Inactive(r, Expired, None)], link);
  }

  /** The tables with a payer's due approvals expired. */
  function Expiring(b: Book, link: Link, now: int): Book {
    var t := Trim(b, Pick(b.active, link), now);
    if t.Ok? then t.value else b
  }

  function LiveOf(b: Book, link: Link, now: int): seq<Approval> { LiveRows(Pick(b.active, link), now) }

  /** The inactive approvals a refund finds: those there were, then those it has just expired. */
  function GoneOf(b: Book, link: Link, now: int): seq<Inactive> {
    PickInactive(b.inactive, link) + AsInactive(ExpiredRows(Pick(b.active, link), now), Expired, None)
  }

  lemma ExpiringLists(b: Book, link: Link, now: int)
    requires Keyed(b)
    ensures var t := Expiring(b, link, now);
            && Trim(b, Pick(b.active, link), now) == Ok(t) && Keyed(t) && (WellFormed(b) ==> WellFormed(t)) && (Balanced(b) ==> Balanced(t))
            && Pick(t.active, link) == LiveOf(b, link, now) && PickInactive(t.inactive, link) == GoneOf(b, link, now)
            && (forall r :: r in Pick(t.active, link) ==> Live(r, now))
            && (forall u :: Controlled(t, u) == Controlled(b, u))
  {
    var rows := Pick(b.active, link);
    PickedRows(b, link);
    TrimNeutral(b, rows, now);
    assert [] + rows == rows;
    MoveLists(b, [], rows, now, link);
    assert [] + LiveRows(rows, now) == LiveRows(rows, now);
    TrimTables(b, rows, now);
    forall r | r in LiveRows(rows, now) ensures Live(r, now) { ExpiredIn(rows, now, r); }
  }

  /** A refund with something to expire is the refund after that expiry. */
  lemma RefundAfterExpiry(b: Book, share: Share, f: Refunding)
    requires Keyed(b)
    ensures RefundPayer(b, share, f) == RefundPayer(Expiring(b, Between(share.payer, f.signer), f.now), share, f)
  {
    var link := Between(share.payer, f.signer);
    ExpiringLists(b, link, f.now);
    var t := Expiring(b, link, f.now);
    TrimNothing(t, Pick(t.active, link), f.now);
    NothingExpired(t, Pick(t.active, link), f.now);
  }

  // ---------- One payer ----------

  /** What the refund of a part `w` brings its payer, in approvals and balance together. */
  function PayerGain(live: seq<Approval>, gone: seq<Inactive>, w: int): int {
    Gain(live, gone, w) + PaidOut(gone, RestAfter(live, w, w))
  }

  /** A payer's controlled balance rises by its gain, whatever has expired; nobody else's moves. */
  lemma RefundPayerControlled(b: Book, share: Share, f: Refunding, u: Addr)
    requires Keyed(b)
    ensures var link := Between(share.payer, f.signer);
            var r := RefundPayer(b, share, f);
            && r.Ok?
            && Controlled(r.value, u) == Controlled(b, u)
               + (if u == share.payer then PayerGain(LiveOf(b, link, f.now), GoneOf(b, link, f.now), share.winc) else 0)
  {
    var link := Between(share.payer, f.signer);
    ExpiringLists(b, link, f.now);
    RefundAfterExpiry(b, share, f);
    var t := Expiring(b, link, f.now);
    RefundPayerTotals(t, share, f, Given(u));
    RefundPayerBalances(t, share, f);
  }

  /** What expired and revoked approvals have used. */
  function SumGone(rows: seq<Inactive>): int {
    if rows == [] then 0 else (if rows[0].reason.Used? then 0 else rows[0].row.used) + SumGone(rows[1..])
  }

  /** An expired or revoked approval with used winc stands where the used-up ones ahead of it do not reach `need`. */
  ghost predicate Stray(rows: seq<Inactive>, k: nat, need: int) {
    k < |rows| && !rows[k].reason.Used? && rows[k].row.used > 0 && SumUsedUp(rows[..k]) < need
  }

  ghost predicate NoneStray(rows: seq<Inactive>, need: int) { forall k: nat :: !Stray(rows, k, need) }

  lemma UsedUpPrefix(rows: seq<Inactive>, k: nat)
    requires k < |rows|
    ensures SumUsedUp(rows[..k + 1]) == (if rows[0].reason.Used? then rows[0].row.used else 0) + SumUsedUp(rows[1..][..k])
  {
    assert rows[..k + 1][1..] == rows[1..][..k];
  }

  lemma StrayStep(rows: seq<Inactive>, need: int)
    requires rows != []
    ensures NoneStray(rows, need) <==>
            !Stray(rows, 0, need) && NoneStray(rows[1..], if rows[0].reason.Used? then need - rows[0].row.used else need)
  {
    var after := if rows[0].reason.Used? then need - rows[0].row.used else need;
    forall k: nat | k < |rows| - 1 ensures Stray(rows[1..], k, after) <==> Stray(rows, k + 1, need) { UsedUpPrefix(rows, k); }
    if NoneStray(rows, need) {
      forall k: nat ensures !Stray(rows[1..], k, after) { assert !Stray(rows, k + 1, need); }
    } else if !Stray(rows, 0, need) {
      var k: nat :| Stray(rows, k, need);
      assert Stray(rows[1..], k - 1, after);
    }
  }

  lemma NothingNeeded(rows: seq<Inactive>, need: int)
    requires (forall x :: x in rows ==> SoundRow(x.row)) && need < 1
    ensures NoneStray(rows, need)
  {
    forall k: nat | k < |rows| ensures SumUsedUp(rows[..k]) >= 0 { RestoredExact(rows[..k], 0); }
  }

  /** What is paid out for expired and revoked approvals, read off the rows. */
  lemma {:induction false} PaidOutRows(rows: seq<Inactive>, need: int)
    requires forall x :: x in rows ==> SoundRow(x.row)
    ensures PaidOut(rows, need) >= 0
    ensures SumUsedUp(rows) < need ==> PaidOut(rows, need) == SumGone(rows)
    ensures PaidOut(rows, need) == 0 <==> NoneStray(rows, need)
  {
    RestoredExact(rows, 0);
    if need < 1 {
      NothingNeeded(rows, need);
    } else if rows != [] {
      assert SoundRow(rows[0].row);
      assert rows[..0] == [];
      StrayStep(rows, need);
      PaidOutRows(rows[1..], if rows[0].reason.Used? then need - rows[0].row.used else need);
    }
  }

  lemma {:induction false} AsInactiveSound(rows: seq<Approval>, reason: InactiveReason)
    requires forall r :: r in rows ==> SoundRow(r)
    ensures forall x :: x in AsInactive(rows, reason, None) ==> SoundRow(x.row)
  {
    if rows != [] {
      assert SoundRow(rows[0]);
      AsInactiveSound(rows[1..], reason);
    }
  }

  lemma ListsSound(b: Book, link: Link, now: int)
    requires WellFormed(b)
    ensures forall r :: r in LiveOf(b, link, now) ==> SoundRow(r)
    ensures forall x :: x in GoneOf(b, link, now) ==> SoundRow(x.row)
  {
    var rows := Pick(b.active, link);
    LinkSound(b, link);
    forall r | r in LiveRows(rows, now) || r in ExpiredRows(rows, now) ensures SoundRow(r) { ExpiredIn(rows, now, r); }
    AsInactiveSound(ExpiredRows(rows, now), Expired);
  }

  /** The expired and revoked approvals add exactly what the drawn winc does not hold. */
  ghost predicate GoneFits(live: seq<Approval>, gone: seq<Inactive>, w: int) {
    var drawn := SumUsed(live) + SumUsedUp(gone);
    if drawn < w then SumGone(gone) == w - drawn else NoneStray(gone, w - SumUsed(live))
  }

  lemma GainOnRows(live: seq<Approval>, gone: seq<Inactive>, w: int)
    requires (forall r :: r in live ==> SoundRow(r)) && (forall x :: x in gone ==> SoundRow(x.row)) && w >= 1
    ensures PayerGain(live, gone, w) == w <==> Covers(live, w) && GoneFits(live, gone, w)
  {
    var rest := RestAfter(live, w, w);
    CoversExact(live, w, w);
    RestoredExact(gone, rest);
    PaidOutRows(gone, rest);
    SumLeftNonNegative(live);
    if Covers(live, w) && SumUsed(live) >= w { NothingNeeded(gone, w - SumUsed(live)); }
  }

  /**
   A payer is made whole, approvals and balance together, if and only if its live approvals cover its part and its
   expired and revoked ones fit; nothing is assumed about what has expired.
   */
  lemma PayerMadeWhole(b: Book, share: Share, f: Refunding)
    requires WellFormed(b) && share.winc >= 1 && share.payer != f.signer
    ensures var link := Between(share.payer, f.signer);
            var live, gone := LiveOf(b, link, f.now), GoneOf(b, link, f.now);
            var r := RefundPayer(b, share, f);
            && r.Ok?
            && (Controlled(r.value, share.payer) == Controlled(b, share.payer) + share.winc <==>
                  Covers(live, share.winc) && GoneFits(live, gone, share.winc))
  {
    var link := Between(share.payer, f.signer);
    RefundPayerControlled(b, share, f, share.payer);
    ListsSound(b, link, f.now);
    GainOnRows(LiveOf(b, link, f.now), GoneOf(b, link, f.now), share.winc);
  }

  // ---------- A whole refund ----------

  /** What a refund brings a user: share by share, each on the tables the ones before it left. */
  function RefundChange(b: Book, shares: seq<Share>, f: Refunding, u: Addr): int
    decreases |shares|
  {
    if shares == [] || RefundShare(b, shares[0], f).Err? then 0
    else
      var link := Between(shares[0].payer, f.signer);
      (if shares[0].payer != u then 0
       else if u == f.signer then shares[0].winc
       else PayerGain(LiveOf(b, link, f.now), GoneOf(b, link, f.now), shares[0].winc))
      + RefundChange(RefundShare(b, shares[0], f).value, shares[1..], f, u)
  }

  /** A refund moves each user's controlled balance by exactly that. */
  lemma {:induction false} RefundControlled(b: Book, shares: seq<Share>, f: Refunding, u: Addr)
    requires Keyed(b) && !IsApprovedSpend(f.reason) && RefundShares(b, shares, f).Ok?
    ensures Controlled(RefundShares(b, shares, f).value, u) == Controlled(b, u) + RefundChange(b, shares, f, u)
    decreases |shares|
  {
    if shares != [] {
      var e := RefundShare(b, shares[0], f).value;
      if shares[0].payer != f.signer {
        RefundPayerSound(b, shares[0], f);
        RefundPayerControlled(b, shares[0], f, u);
      }
      RefundControlled(e, shares[1..], f, u);
    }
  }

  // ---------- Balances ----------

  /** What the refund of a part `w` pays to its payer's balance: what has just expired, and for what is gone. */
  function PayerPaid(b: Book, link: Link, w: int, now: int): int {
    SumLeft(Pick(ExpiredRows(Pick(b.active, link), now), Given(link.payer))) +
      PaidOut(GoneOf(b, link, now), RestAfter(LiveOf(b, link, now), w, w))
  }

  /** Refunding a payer moves its balance by exactly that, and no other. */
  lemma RefundPayerMoney(b: Book, share: Share, f: Refunding, u: Addr)
    requires Keyed(b)
    ensures RefundPayer(b, share, f).Ok?
    ensures Balance(RefundPayer(b, share, f).value, u) ==
            Balance(b, u) + (if u == share.payer then PayerPaid(b, Between(share.payer, f.signer), share.winc, f.now) else 0)
  {
    var link := Between(share.payer, f.signer);
    var rows := Pick(b.active, link);
    ExpiringLists(b, link, f.now);
    RefundAfterExpiry(b, share, f);
    PickedRows(b, link);
    TrimNeutral(b, rows, f.now);
    if u != link.payer {
      forall r | r in ExpiredRows(rows, f.now) ensures r.payer != u { ExpiredIn(rows, f.now, r); }
      NothingGiven(ExpiredRows(rows, f.now), u);
    }
    RefundPayerBalances(Expiring(b, link, f.now), share, f);
  }

  /** What a refund pays to a user's balance: share by share, each on the tables the ones before it left. */
  function RefundMoney(b: Book, shares: seq<Share>, f: Refunding, u: Addr): int
    decreases |shares|
  {
    if shares == [] || RefundShare(b, shares[0], f).Err? then 0
    else
      (if shares[0].payer != u then 0
       else if u == f.signer then shares[0].winc
       else PayerPaid(b, Between(u, f.signer), shares[0].winc, f.now))
      + RefundMoney(RefundShare(b, shares[0], f).value, shares[1..], f, u)
  }

  /** A refund moves each user's balance by exactly that. */
  lemma {:induction false} RefundMoneyExact(b: Book, shares: seq<Share>, f: Refunding, u: Addr)
    requires Keyed(b) && !IsApprovedSpend(f.reason) && RefundShares(b, shares, f).Ok?
    ensures Balance(RefundShares(b, shares, f).value, u) == Balance(b, u) + RefundMoney(b, shares, f, u)
    decreases |shares|
  {
    if shares != [] {
      if shares[0].payer != f.signer {
        RefundPayerSound(b, shares[0], f);
        RefundPayerMoney(b, shares[0], f, u);
      }
      RefundMoneyExact(RefundShare(b, shares[0], f).value, shares[1..], f, u);
    }
  }

  function SignerTotal(shares: seq<Share>, signer: Addr): int {
    if shares == [] then 0 else (if shares[0].payer == signer then shares[0].winc else 0) + SignerTotal(shares[1..], signer)
  }

  lemma PayerPaidSound(b: Book, link: Link, w: int, now: int)
    requires WellFormed(b)
    ensures PayerPaid(b, link, w, now) >= 0
  {
    var expired := ExpiredRows(Pick(b.active, link), now);
    ListsSound(b, link, now);
    PaidOutNonNegative(GoneOf(b, link, now), RestAfter(LiveOf(b, link, now), w, w));
    LinkSound(b, link);
    forall r | r in Pick(expired, Given(link.payer)) ensures SoundRow(r) {
      PickIn(expired, Given(link.payer), r);
      ExpiredIn(Pick(b.active, link), now, r);
    }
    SumLeftNonNegative(Pick(expired, Given(link.payer)));
  }

  /** With all approvals in range a refund pays its signer the sum of its shares and lowers nobody else's balance. */
  lemma {:induction false} RefundMoneySound(b: Book, shares: seq<Share>, f: Refunding, u: Addr)
    requires WellFormed(b) && !IsApprovedSpend(f.reason) && RefundShares(b, shares, f).Ok?
    ensures if u == f.signer then RefundMoney(b, shares, f, u) == SignerTotal(shares, u) else RefundMoney(b, shares, f, u) >= 0
    decreases |shares|
  {
    if shares != [] {
      if shares[0].payer != f.signer {
        RefundPayerSound(b, shares[0], f);
        PayerPaidSound(b, Between(shares[0].payer, f.signer), shares[0].winc, f.now);
      }
      RefundMoneySound(RefundShare(b, shares[0], f).value, shares[1..], f, u);
    }
  }
}
