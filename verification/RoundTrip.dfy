/**
 Exactness of refunds: when a refund gives each payer back exactly its part, and when a spend followed by its
 refund restores every balance and every lent total.
 */
module RoundTrip {
  import opened Wrappers
  import opened Ledger
  import opened Approvals
  import opened Allocation
  import opened Spending
  import opened Lending
  import opened Refunds

  // ---------- When the active approvals return the right amount ----------

  /** The first used amount that is not zero. */
  function FirstUsed(rows: seq<Approval>): int {
    if rows == [] then 0 else if rows[0].used != 0 then rows[0].used else FirstUsed(rows[1..])
  }

  ghost predicate HitsAt(rows: seq<Approval>, k: nat, x: int) { k <= |rows| && SumUsed(rows[..k]) == x }

  /** The used amounts, added up in row order, reach exactly `x`. */
  ghost predicate Hits(rows: seq<Approval>, x: int) { exists k: nat :: HitsAt(rows, k, x) }

  /**
   The active approvals do not give back more than `w`: the first part-used approval holds it all, or adding
   the used amounts in row order hits it exactly, or all of them together are less.
   */
  ghost predicate Covers(rows: seq<Approval>, w: int) {
    FirstUsed(rows) >= w || Hits(rows, w) || SumUsed(rows) < w
  }

  lemma PrefixUsed(rows: seq<Approval>, k: nat)
    requires k < |rows|
    ensures SumUsed(rows[..k + 1]) == rows[0].used + SumUsed(rows[1..][..k])
  {
    assert rows[..k + 1][1..] == rows[1..][..k];
  }

  lemma HitsStep(rows: seq<Approval>, x: int)
    requires rows != [] && x != 0
    ensures Hits(rows, x) <==> Hits(rows[1..], x - rows[0].used)
  {
    if Hits(rows, x) {
      var k: nat :| HitsAt(rows, k, x);
      assert k > 0 by { assert rows[..0] == []; }
      PrefixUsed(rows, k - 1);
      assert HitsAt(rows[1..], k - 1, x - rows[0].used);
    }
    if Hits(rows[1..], x - rows[0].used) {
      var k: nat :| HitsAt(rows[1..], k, x - rows[0].used);
      PrefixUsed(rows, k);
      assert HitsAt(rows, k + 1, x);
    }
  }

  lemma HitsSign(rows: seq<Approval>, x: int)
    requires forall r :: r in rows ==> SoundRow(r)
    ensures x < 0 ==> !Hits(rows, x)
    ensures x == 0 ==> Hits(rows, x)
  {
    assert rows[..0] == [];
    assert HitsAt(rows, 0, 0);
    forall k: nat | k <= |rows| ensures SumUsed(rows[..k]) >= 0 { SumLeftNonNegative(rows[..k]); }
  }

  /** As Covers, part-way through a part `w` of which `rest` is left. */
  ghost predicate CoversRest(rows: seq<Approval>, w: int, rest: int) {
    (rest == w && FirstUsed(rows) >= w) || Hits(rows, rest) || SumUsed(rows) < rest
  }

  lemma {:induction false} CoversExact(rows: seq<Approval>, w: int, rest: int)
    requires (forall r :: r in rows ==> SoundRow(r)) && 1 <= rest <= w
    ensures CoversRest(rows, w, rest) ==>
              && GivenBack(rows, w, rest) == (if SumUsed(rows) < rest then SumUsed(rows) else rest)
              && RestAfter(rows, w, rest) == rest - GivenBack(rows, w, rest)
    ensures !CoversRest(rows, w, rest) ==> GivenBack(rows, w, rest) > rest && RestAfter(rows, w, rest) <= 0
  {
    if rows != [] {
      var used := rows[0].used;
      assert SoundRow(rows[0]);
      SumLeftNonNegative(rows[1..]);
      HitsStep(rows, rest);
      HitsSign(rows[1..], rest - used);
      if used < w && used < rest { CoversExact(rows[1..], w, rest - used); }
    }
  }

  lemma {:induction false} RestoredExact(rows: seq<Inactive>, rest: int)
    requires forall x :: x in rows ==> SoundRow(x.row)
    ensures SumUsedUp(rows) >= 0
    ensures Restored(rows, rest) == (if rest < 1 then 0 else if SumUsedUp(rows) < rest then SumUsedUp(rows) else rest)
  {
    if rows != [] {
      assert SoundRow(rows[0].row);
      RestoredExact(rows[1..], rest);
      RestoredExact(rows[1..], rest - rows[0].row.used);
    }
  }

  /** What a payer's approvals get back for a part `w`. */
  function Gain(active: seq<Approval>, inactive: seq<Inactive>, w: int): int {
    GivenBack(active, w, w) + Restored(inactive, RestAfter(active, w, w))
  }

  /** A part comes back to the approvals exactly, if and only if they cover it and hold enough drawn winc. */
  lemma GainExact(active: seq<Approval>, inactive: seq<Inactive>, w: int)
    requires (forall r :: r in active ==> SoundRow(r)) && (forall x :: x in inactive ==> SoundRow(x.row)) && w >= 1
    ensures Gain(active, inactive, w) == w <==> Covers(active, w) && SumUsed(active) + SumUsedUp(inactive) >= w
    ensures !Covers(active, w) ==> Gain(active, inactive, w) > w
  {
    CoversExact(active, w, w);
    RestoredExact(inactive, RestAfter(active, w, w));
    SumLeftNonNegative(active);
  }

  // ---------- One payer's refund ----------

  lemma {:induction false} LiveKept(b: Book, rows: seq<Approval>, now: int, r: Approval)
    requires Keyed(b) && (forall q :: q in rows ==> q in b.active) && UniqueIds(rows)
    requires r in b.active && Live(r, now)
    ensures r in MoveExpired(b, rows, now).active
    decreases |rows|
  {
    if rows != [] {
      if Live(rows[0], now) {
        LiveKept(b, rows[1..], now, r);
      } else {
        MoveOne(b, rows[0]);
        LiveKept(b.(active := Replace(b.active, rows[0].id, None), inactive := b.inactive + [Inactive(rows[0], Expired, None)]),
          rows[1..], now, r);
      }
    }
  }

  lemma {:induction false} LiveRowsUnique(rows: seq<Approval>, now: int)
    requires UniqueIds(rows)
    ensures UniqueIds(LiveRows(rows, now))
  {
    if rows != [] {
      LiveRowsUnique(rows[1..], now);
      forall r | r in LiveRows(rows[1..], now) ensures r.id != rows[0].id { ExpiredIn(rows[1..], now, r); }
    }
  }

  lemma PickedRows(b: Book, link: Link)
    requires Keyed(b)
    ensures Rows(b, Pick(b.active, link), link) && InactiveRows(b, PickInactive(b.inactive, link), link)
  {
    PickUnique(b.active, link);
    PickInactiveUnique(b.inactive, link);
    forall r | r in Pick(b.active, link) ensures r in b.active && Matches(link, r) { PickIn(b.active, link, r); }
    forall x | x in PickInactive(b.inactive, link) ensures x in b.inactive && Matches(link, x.row) { PickInactiveIn(b.inactive, link, x); }
  }

  lemma LiveRowsAfterTrim(b: Book, link: Link, now: int)
    requires Keyed(b)
    ensures var trimmed := Trim(b, Pick(b.active, link), now);
            && trimmed.Ok? && Keyed(trimmed.value) && (WellFormed(b) ==> WellFormed(trimmed.value)) &&
              trimmed.value.users.Keys == b.users.Keys
            && (Balanced(b) ==> Balanced(trimmed.value))
            && Rows(trimmed.value, LiveRows(Pick(b.active, link), now), link)
  {
    var rows := Pick(b.active, link);
    PickedRows(b, link);
    TrimNeutral(b, rows, now);
    LiveRowsUnique(rows, now);
    forall r | r in LiveRows(rows, now) ensures r in Trim(b, rows, now).value.active && Matches(link, r) {
      ExpiredIn(rows, now, r);
      LiveKept(b, rows, now, r);
      TrimTables(b, rows, now);
    }
  }

  /** Crediting expired approvals leaves the approval tables alone. */
  lemma TrimTables(b: Book, rows: seq<Approval>, now: int)
    requires Trim(b, rows, now).Ok?
    ensures Trim(b, rows, now).value.active == MoveExpired(b, rows, now).active
    ensures Trim(b, rows, now).value.inactive == MoveExpired(b, rows, now).inactive
  {
    CreditTables(MoveExpired(b, rows, now), Dedupe(PayersOf(ExpiredRows(rows, now))), ExpiredRows(rows, now));
  }

  lemma {:induction false} CreditTables(b: Book, payers: seq<Addr>, expired: seq<Approval>)
    requires CreditExpired(b, payers, expired).Ok?
    ensures CreditExpired(b, payers, expired).value.active == b.active && CreditExpired(b, payers, expired).value.inactive == b.inactive
    decreases |payers|
  {
    if payers != [] {
      CreditTables(Post(b, payers[0], SumLeft(Pick(expired, Given(payers[0]))), DelegatedPaymentExpired, None), payers[1..], expired);
    }
  }

  /** A refund to a payer's approvals never fails and keeps the tables sound and the log balanced. */
  lemma RefundPayerSound(b: Book, share: Share, f: Refunding)
    requires Keyed(b)
    ensures var r := RefundPayer(b, share, f);
            && r.Ok? && Keyed(r.value) && (WellFormed(b) ==> WellFormed(r.value)) && r.value.users.Keys == b.users.Keys
            && (Balanced(b) ==> Balanced(r.value))
  {
    var link := Between(share.payer, f.signer);
    LiveRowsAfterTrim(b, link, f.now);
    var t := Trim(b, Pick(b.active, link), f.now).value;
    var rows := LiveRows(Pick(b.active, link), f.now);
    GiveActiveSound(t, rows, link, share.winc, share.winc);
    var g := GiveActive(Giving(t.active, share.winc), rows, share.winc);
    var given := t.(active := g.active);
    PickedRows(given, link);
    RestoreSound(Restoring(given, g.rest), PickInactive(given.inactive, link), link, f.change);
  }

  /** All recorded shares: a refund fails only if it must pay a signer without an account. */
  lemma {:induction false} RefundSharesSound(b: Book, shares: seq<Share>, f: Refunding)
    requires Keyed(b) && !IsApprovedSpend(f.reason)
    ensures var r := RefundShares(b, shares, f);
            && (r.Ok? <==> f.signer in b.users || forall i :: 0 <= i < |shares| ==> shares[i].payer != f.signer)
            && (r.Err? ==> r.error == UserNotFound(f.signer))
            && (r.Ok? ==> Keyed(r.value) && r.value.users.Keys == b.users.Keys)
            && (r.Ok? ==> (WellFormed(b) ==> WellFormed(r.value)) && (Balanced(b) ==> Balanced(r.value)))
    decreases |shares|
  {
    if shares != [] {
      if shares[0].payer != f.signer {
        RefundPayerSound(b, shares[0], f);
        RefundSharesSound(RefundPayer(b, shares[0], f).value, shares[1..], f);
      } else if f.signer in b.users {
        if Balanced(b) { PostBalances(b, f.signer, shares[0].winc, f.reason, Some(f.change)); }
        RefundSharesSound(Post(b, f.signer, shares[0].winc, f.reason, Some(f.change)), shares[1..], f);
      }
    }
  }

  /** Where nothing of a link has expired, its refund is the gain computed from its rows; other links keep theirs. */
  lemma RefundPayerTotals(b: Book, share: Share, f: Refunding, other: Link)
    requires Keyed(b)
    requires forall r :: r in Pick(b.active, Between(share.payer, f.signer)) ==> Live(r, f.now)
    ensures var link := Between(share.payer, f.signer);
            var r := RefundPayer(b, share, f);
            && r.Ok?
            && Lent(r.value, other) == Lent(b, other)
               + (if other == link || other == Given(share.payer)
                  then Gain(Pick(b.active, link), PickInactive(b.inactive, link), share.winc)
                  else 0)
            && (other != link && other != Given(share.payer) ==>
                  Pick(r.value.active, other) == Pick(b.active, other) &&
                    PickInactive(r.value.inactive, other) == PickInactive(b.inactive, other))
  {
    var link := Between(share.payer, f.signer);
    var rows := Pick(b.active, link);
    TrimNothing(b, rows, f.now);
    NothingExpired(b, rows, f.now);
    PickedRows(b, link);
    GiveActiveSound(b, rows, link, share.winc, share.winc);
    GiveActiveTotals(b, rows, link, share.winc, share.winc, other);
    var g := GiveActive(Giving(b.active, share.winc), rows, share.winc);
    var given := b.(active := g.active);
    PickedRows(given, link);
    RestoreSound(Restoring(given, g.rest), PickInactive(given.inactive, link), link, f.change);
    RestoreTotals(Restoring(given, g.rest), PickInactive(given.inactive, link), link, f.change, other);
  }

  /** Paid to the payer's balance because its approvals have expired or been revoked. */
  function PaidFor(b: Book, share: Share, f: Refunding): int {
    var link := Between(share.payer, f.signer);
    PaidOut(PickInactive(b.inactive, link), RestAfter(Pick(b.active, link), share.winc, share.winc))
  }

  lemma RefundPayerBalances(b: Book, share: Share, f: Refunding)
    requires Keyed(b)
    requires forall r :: r in Pick(b.active, Between(share.payer, f.signer)) ==> Live(r, f.now)
    ensures var link := Between(share.payer, f.signer);
            var r := RefundPayer(b, share, f);
            && r.Ok?
            && (forall u :: Balance(r.value, u) == Balance(b, u) + (if u == share.payer then PaidFor(b, share, f) else 0))
  {
    var link := Between(share.payer, f.signer);
    var rows := Pick(b.active, link);
    TrimNothing(b, rows, f.now);
    NothingExpired(b, rows, f.now);
    PickedRows(b, link);
    GiveActiveSound(b, rows, link, share.winc, share.winc);
    var g := GiveActive(Giving(b.active, share.winc), rows, share.winc);
    var given := b.(active := g.active);
    PickedRows(given, link);
    RestoreSound(Restoring(given, g.rest), PickInactive(given.inactive, link), link, f.change);
    RestoreBalances(Restoring(given, g.rest), PickInactive(given.inactive, link), link, f.change);
  }

  lemma LinkSound(b: Book, link: Link)
    requires WellFormed(b)
    ensures forall r :: r in Pick(b.active, link) ==> SoundRow(r)
    ensures forall x :: x in PickInactive(b.inactive, link) ==> SoundRow(x.row)
  {
    forall r | r in Pick(b.active, link) ensures SoundRow(r) { PickIn(b.active, link, r); }
    forall x | x in PickInactive(b.inactive, link) ensures SoundRow(x.row) { PickInactiveIn(b.inactive, link, x); }
  }

  lemma {:induction false} PaidOutNonNegative(rows: seq<Inactive>, rest: int)
    requires forall x :: x in rows ==> SoundRow(x.row)
    ensures PaidOut(rows, rest) >= 0
    ensures (forall x :: x in rows ==> x.reason.Used?) ==> PaidOut(rows, rest) == 0
  {
    if rows != [] && rest >= 1 {
      assert SoundRow(rows[0].row);
      PaidOutNonNegative(rows[1..], rest);
      PaidOutNonNegative(rows[1..], rest - rows[0].row.used);
    }
  }

  // ---------- All shares ----------

  function Amount(shares: seq<Share>, u: Addr): int {
    if shares == [] then 0 else if shares[0].payer == u then shares[0].winc else Amount(shares[1..], u)
  }

  /** Distinct payers, none of whose approvals to the signer has expired or was expired or revoked before. */
  ghost predicate Refundable(b: Book, shares: seq<Share>, f: Refunding) {
    && WellFormed(b)
    && (f.signer !in b.users ==> forall i :: 0 <= i < |shares| ==> shares[i].payer != f.signer)
    && (forall i, j :: 0 <= i < j < |shares| ==> shares[i].payer != shares[j].payer)
    && (forall i :: 0 <= i < |shares| && shares[i].payer != f.signer ==> AllReturnable(b, Between(shares[i].payer, f.signer), f.now))
  }

  ghost predicate AllReturnable(b: Book, link: Link, now: int) {
    && (forall r :: r in Pick(b.active, link) ==> Live(r, now))
    && (forall x :: x in PickInactive(b.inactive, link) ==> x.reason.Used?)
  }

  lemma RefundableStep(b: Book, shares: seq<Share>, f: Refunding)
    requires Refundable(b, shares, f) && shares != [] && !IsApprovedSpend(f.reason)
    ensures RefundShare(b, shares[0], f).Ok? && Refundable(RefundShare(b, shares[0], f).value, shares[1..], f)
  {
    if shares[0].payer != f.signer {
      RefundPayerSound(b, shares[0], f);
      forall i | 0 <= i < |shares[1..]| && shares[1..][i].payer != f.signer
        ensures AllReturnable(RefundShare(b, shares[0], f).value, Between(shares[1..][i].payer, f.signer), f.now)
      {
        assert shares[1..][i] == shares[i + 1];
        RefundPayerTotals(b, shares[0], f, Between(shares[i + 1].payer, f.signer));
      }
    }
  }

  lemma {:induction false} NoAmount(shares: seq<Share>, u: Addr)
    requires forall i :: 0 <= i < |shares| ==> shares[i].payer != u
    ensures Amount(shares, u) == 0
  {
    if shares != [] { NoAmount(shares[1..], u); }
  }

  /** Only the signer's balance moves, by its own share. */
  lemma {:induction false} RefundBalances(b: Book, shares: seq<Share>, f: Refunding)
    requires Refundable(b, shares, f) && !IsApprovedSpend(f.reason)
    ensures var r := RefundShares(b, shares, f);
            r.Ok? && forall u :: Balance(r.value, u) == Balance(b, u) + (if u == f.signer then Amount(shares, u) else 0)
    decreases |shares|
  {
    if shares != [] {
      RefundableStep(b, shares, f);
      RefundBalances(RefundShare(b, shares[0], f).value, shares[1..], f);
      NoAmount(shares[1..], shares[0].payer);
      if shares[0].payer != f.signer {
        RefundPayerBalances(b, shares[0], f);
        var link := Between(shares[0].payer, f.signer);
        LinkSound(b, link);
        PaidOutNonNegative(PickInactive(b.inactive, link), RestAfter(Pick(b.active, link), shares[0].winc, shares[0].winc));
      }
    }
  }

  /** Each link gains what its rows give back for its share, and no other link gains anything. */
  lemma {:induction false} RefundLent(b: Book, shares: seq<Share>, f: Refunding, link: Link)
    requires Refundable(b, shares, f) && !IsApprovedSpend(f.reason) && link.Between?
    ensures var r := RefundShares(b, shares, f);
            var w := if link.spender == f.signer && link.payer != f.signer then Amount(shares, link.payer) else 0;
            r.Ok? && Lent(r.value, link) == Lent(b, link) + Gain(Pick(b.active, link), PickInactive(b.inactive, link), w)
    decreases |shares|
  {
    if shares != [] {
      RefundableStep(b, shares, f);
      RefundLent(RefundShare(b, shares[0], f).value, shares[1..], f, link);
      NoAmount(shares[1..], shares[0].payer);
      if shares[0].payer != f.signer { RefundPayerTotals(b, shares[0], f, link); }
    }
  }

  // ---------- Spend, then refund ----------

  lemma {:induction false} StripAmount(parts: seq<Part>, u: Addr)
    ensures Amount(Strip(parts), u) == ShareOf(parts, u)
  {
    if parts != [] {
      StripAmount(parts[1..], u);
      assert Strip(parts)[1..] == Strip(parts[1..]);
    }
  }

  /** The payers of a charge whose refund can be exact: nothing of theirs has expired or been revoked. */
  ghost predicate Undisturbed(b: Book, spent: Book, signer: Addr, parts: seq<Part>, now: int) {
    forall i :: 0 <= i < |parts| && parts[i].payer != signer ==>
      && (forall x :: x in PickInactive(b.inactive, Between(parts[i].payer, signer)) ==> x.reason.Used?)
      && (forall r :: r in Pick(spent.active, Between(parts[i].payer, signer)) ==> Live(r, now))
  }

  /** A charge's recorded shares are its plan's parts. */
  lemma RecordedShares(b: Book, signer: Addr, amount: nat, paidBy: seq<Addr>, directive: Directive, reason: AuditReason, change: Id)
    requires Keyed(b) && !IsApprovedSpend(reason) && amount >= 1
    requires Spend(b, signer, amount, paidBy, directive, reason, change).Ok?
    ensures var s := Spend(b, signer, amount, paidBy, directive, reason, change).value;
            SharesOf(s.overflow, signer, amount) == Strip(PlanSpend(b, signer, amount, Dedupe(paidBy), directive).value)
  {
    SpendReady(b, signer, amount, paidBy, directive, reason, change);
    var parts := PlanSpend(b, signer, amount, Dedupe(paidBy), directive).value;
    if |parts| == 1 { assert parts[..0] == []; assert PartsSum(parts) == parts[0].winc; }
  }

  /** After a charge, a link's lists: drawn rows may have moved aside, drawn winc has grown by the charge. */
  lemma AfterSpend(b: Book, parts: seq<Part>, c: Charge, payer: Addr)
    requires WellFormed(b) && Ready(b, parts, c) && payer != c.signer
    ensures var link := Between(payer, c.signer);
            var r := ApplyParts(b, parts, c);
            && r.Ok?
            && Drawn(r.value, link) == Drawn(b, link) + ShareOf(parts, payer)
            && Lent(r.value, link) == Lent(b, link) - ShareOf(parts, payer)
            && ((forall x :: x in PickInactive(b.inactive, link) ==> x.reason.Used?) ==>
                  forall x :: x in PickInactive(r.value.inactive, link) ==> x.reason.Used?)
  {
    var link := Between(payer, c.signer);
    ApplyLink(b, parts, c, link);
    LinkSound(b, link);
    PlanShare(b, parts, c, payer);
    RemainderTotals(Pick(b.active, link), ShareOf(parts, payer));
    SumUsedUpAppend(PickInactive(b.inactive, link), UsedUpRows(Pick(b.active, link), ShareOf(parts, payer)));
    UsedUpReasons(Pick(b.active, link), ShareOf(parts, payer));
  }

  lemma {:induction false} PlanShare(b: Book, parts: seq<Part>, c: Charge, payer: Addr)
    requires WellFormed(b) && Ready(b, parts, c) && payer != c.signer
    ensures 0 <= ShareOf(parts, payer) <= Lent(b, Between(payer, c.signer))
    ensures payer in PartPayers(parts) ==> ShareOf(parts, payer) >= 1
  {
    if parts == [] || parts[0].payer == payer {
      SelectedSound(b.active, b.inactive, Between(payer, c.signer));
    } else {
      assert Ready(b, parts[1..], c);
      PlanShare(b, parts[1..], c, payer);
    }
  }

  lemma {:induction false} UsedUpReasons(rows: seq<Approval>, w: int)
    ensures forall x :: x in UsedUpRows(rows, w) ==> x.reason.Used?
  {
    if rows != [] && w >= 1 && Left(rows[0]) <= w { UsedUpReasons(rows[1..], w - Left(rows[0])); }
  }

  lemma SpentRefundable(b: Book, parts: seq<Part>, c: Charge, f: Refunding)
    requires WellFormed(b) && Ready(b, parts, c) && f.signer == c.signer && ApplyParts(b, parts, c).Ok?
    requires Undisturbed(b, ApplyParts(b, parts, c).value, c.signer, parts, f.now)
    ensures Refundable(ApplyParts(b, parts, c).value, Strip(parts), f)
  {
    var spent := ApplyParts(b, parts, c).value;
    ApplySound(b, parts, c);
    forall i | 0 <= i < |parts| && parts[i].payer != f.signer
      ensures AllReturnable(spent, Between(parts[i].payer, f.signer), f.now)
    {
      AfterSpend(b, parts, c, parts[i].payer);
    }
    if f.signer !in b.users {
      forall i | 0 <= i < |parts| ensures parts[i].payer != f.signer { assert Fits(b, c.signer, parts[i]); }
    }
  }

  /** One link through a charge and its refund. */
  lemma LinkRoundTrip(b: Book, parts: seq<Part>, c: Charge, f: Refunding, link: Link)
    requires WellFormed(b) && Ready(b, parts, c) && f.signer == c.signer && !IsApprovedSpend(f.reason) && ApplyParts(b, parts, c).Ok?
    requires Undisturbed(b, ApplyParts(b, parts, c).value, c.signer, parts, f.now) && link.Between?
    ensures var spent := ApplyParts(b, parts, c).value;
            var r := RefundShares(spent, Strip(parts), f);
            && r.Ok?
            && (Lent(r.value, link) == Lent(b, link) <==>
                  (link.spender == c.signer && link.payer != c.signer && link.payer in PartPayers(parts) ==>
                     Covers(Pick(spent.active, link), ShareOf(parts, link.payer))))
  {
    var spent := ApplyParts(b, parts, c).value;
    ApplySound(b, parts, c);
    SpentRefundable(b, parts, c, f);
    RefundLent(spent, Strip(parts), f, link);
    StripAmount(parts, link.payer);
    if link.spender == c.signer && link.payer != c.signer {
      AfterSpend(b, parts, c, link.payer);
      PlanShare(b, parts, c, link.payer);
      LinkSound(spent, link);
      DrawnNonNegative(b, link);
      if link.payer in PartPayers(parts) {
        GainExact(Pick(spent.active, link), PickInactive(spent.inactive, link), ShareOf(parts, link.payer));
      } else {
        NoPart(parts, link.payer) by { forall i | 0 <= i < |parts| ensures parts[i].payer != link.payer { assert parts[i] in parts; } }
      }
    } else {
      ApplyLink(b, parts, c, link);
    }
  }

  lemma DrawnNonNegative(b: Book, link: Link)
    requires WellFormed(b)
    ensures Drawn(b, link) >= 0
  {
    LinkSound(b, link);
    SumLeftNonNegative(Pick(b.active, link));
    RestoredExact(PickInactive(b.inactive, link), 0);
  }

  /** Every link lends after the refund what it lent before the charge. */
  ghost predicate LentRestored(b: Book, e: Book) {
    forall link: Link :: link.Between? ==> Lent(e, link) == Lent(b, link)
  }

  /** The approvals a charge left active cover its parts. */
  ghost predicate PartsCovered(spent: Book, signer: Addr, parts: seq<Part>) {
    forall p :: p in PartPayers(parts) && p != signer ==> Covers(Pick(spent.active, Between(p, signer)), ShareOf(parts, p))
  }

  lemma PlanRoundTrip(b: Book, parts: seq<Part>, c: Charge, f: Refunding)
    requires WellFormed(b) && Ready(b, parts, c) && f.signer == c.signer && !IsApprovedSpend(f.reason) && ApplyParts(b, parts, c).Ok?
    requires Undisturbed(b, ApplyParts(b, parts, c).value, c.signer, parts, f.now)
    ensures var spent := ApplyParts(b, parts, c).value;
            var r := RefundShares(spent, Strip(parts), f);
            r.Ok? && (LentRestored(b, r.value) <==> PartsCovered(spent, c.signer, parts))
  {
    var spent := ApplyParts(b, parts, c).value;
    LinkRoundTrip(b, parts, c, f, Between(c.signer, c.signer));
    var e := RefundShares(spent, Strip(parts), f).value;
    if LentRestored(b, e) {
      forall p | p in PartPayers(parts) && p != c.signer ensures Covers(Pick(spent.active, Between(p, c.signer)), ShareOf(parts, p)) {
        LinkRoundTrip(b, parts, c, f, Between(p, c.signer));
      }
    }
    if PartsCovered(spent, c.signer, parts) {
      forall link: Link | link.Between? ensures Lent(e, link) == Lent(b, link) { LinkRoundTrip(b, parts, c, f, link); }
    }
  }

  /**
   Spend, then refund. If nothing between the signer and its payers has expired or been revoked, refunding the
   recorded shares never fails and restores every balance, and it restores what every link lends if and only if
   each payer's active approvals, as the charge left them, cover that payer's part.
   */
  lemma SpendThenRefund(b: Book, signer: Addr, amount: nat, paidBy: seq<Addr>, directive: Directive, reason: AuditReason, change: Id,
      f: Refunding)
    requires WellFormed(b) && !IsApprovedSpend(reason) && !IsApprovedSpend(f.reason) && f.signer == signer && amount >= 1
    requires Spend(b, signer, amount, paidBy, directive, reason, change).Ok?
    requires Undisturbed(b, Spend(b, signer, amount, paidBy, directive, reason, change).value.book, signer,
                         PlanSpend(b, signer, amount, Dedupe(paidBy), directive).value, f.now)
    ensures var s := Spend(b, signer, amount, paidBy, directive, reason, change).value;
            var parts := PlanSpend(b, signer, amount, Dedupe(paidBy), directive).value;
            var r := Refund(s.book, amount, s.overflow, f);
            && r.Ok?
            && (forall u :: Balance(r.value, u) == Balance(b, u))
            && (LentRestored(b, r.value) <==> PartsCovered(s.book, signer, parts))
  {
    var s := Spend(b, signer, amount, paidBy, directive, reason, change).value;
    var parts := PlanSpend(b, signer, amount, Dedupe(paidBy), directive).value;
    var c := Charge(signer, Balance(b, signer), reason, change);
    SpendReady(b, signer, amount, paidBy, directive, reason, change);
    RecordedShares(b, signer, amount, paidBy, directive, reason, change);
    PlanRoundTrip(b, parts, c, f);
    ApplySound(b, parts, c);
    SpentRefundable(b, parts, c, f);
    RefundBalances(s.book, Strip(parts), f);
    StripAmount(parts, signer);
  }

  // ---------- A condition on the approvals before the charge ----------

  /** Only the first approval in row order may be part-used. */
  ghost predicate OnlyFirstUsed(rows: seq<Approval>) {
    forall i :: 0 < i < |rows| ==> rows[i].used == 0
  }

  lemma {:induction false} UnusedRemainder(rows: seq<Approval>, w: int)
    requires (forall r :: r in rows ==> SoundRow(r) && r.used == 0) && 0 <= w <= SumLeft(rows)
    ensures SumUsed(Remainder(rows, w)) <= w
  {
    if rows != [] && w >= 1 {
      assert SoundRow(rows[0]) && rows[0].used == 0;
      if Left(rows[0]) <= w { UnusedRemainder(rows[1..], w - Left(rows[0])); } else { UnusedSum(rows[1..]); }
    } else {
      UnusedSum(rows);
    }
  }

  lemma {:induction false} UnusedSum(rows: seq<Approval>)
    requires forall r :: r in rows ==> r.used == 0
    ensures SumUsed(rows) == 0
  {
    if rows != [] {
      assert rows[0].used == 0;
      UnusedSum(rows[1..]);
    }
  }

  /** If only the first approval was part-used before a charge, the approvals cover it afterwards. */
  lemma OnlyFirstUsedCovers(rows: seq<Approval>, w: int)
    requires (forall r :: r in rows ==> SoundRow(r)) && OnlyFirstUsed(rows) && 1 <= w <= SumLeft(rows)
    ensures Covers(Remainder(rows, w), w)
  {
    assert SoundRow(rows[0]);
    if Left(rows[0]) <= w {
      forall r | r in rows[1..] ensures SoundRow(r) && r.used == 0 { }
      UnusedRemainder(rows[1..], w - Left(rows[0]));
      var rest := Remainder(rows, w);
      assert rest[..|rest|] == rest;
      if SumUsed(rest) == w { assert HitsAt(rest, |rest|, w); }
    }
  }

  /** Spend, then refund, restores everything when only each payer's first approval was part-used before. */
  lemma SpendThenRefundRestores(b: Book, signer: Addr, amount: nat, paidBy: seq<Addr>, directive: Directive, reason: AuditReason,
      change: Id, f: Refunding)
    requires WellFormed(b) && !IsApprovedSpend(reason) && !IsApprovedSpend(f.reason) && f.signer == signer && amount >= 1
    requires Spend(b, signer, amount, paidBy, directive, reason, change).Ok?
    requires Undisturbed(b, Spend(b, signer, amount, paidBy, directive, reason, change).value.book, signer,
                         PlanSpend(b, signer, amount, Dedupe(paidBy), directive).value, f.now)
    requires forall p :: p in paidBy && p != signer ==> OnlyFirstUsed(Pick(b.active, Between(p, signer)))
    ensures var s := Spend(b, signer, amount, paidBy, directive, reason, change).value;
            var r := Refund(s.book, amount, s.overflow, f);
            && r.Ok?
            && (forall u :: Balance(r.value, u) == Balance(b, u))
            && LentRestored(b, r.value)
  {
    var s := Spend(b, signer, amount, paidBy, directive, reason, change).value;
    var parts := PlanSpend(b, signer, amount, Dedupe(paidBy), directive).value;
    var c := Charge(signer, Balance(b, signer), reason, change);
    SpendThenRefund(b, signer, amount, paidBy, directive, reason, change, f);
    SpendReady(b, signer, amount, paidBy, directive, reason, change);
    DedupeDistinct(paidBy);
    forall p | p in PartPayers(parts) && p != signer ensures Covers(Pick(s.book.active, Between(p, signer)), ShareOf(parts, p)) {
      PlanPayersListed(b, signer, paidBy, amount, directive, p);
      ApplyLink(b, parts, c, Between(p, signer));
      LinkSound(b, Between(p, signer));
      PlanShare(b, parts, c, p);
      OnlyFirstUsedCovers(Pick(b.active, Between(p, signer)), ShareOf(parts, p));
    }
  }

  lemma PlanPayersListed(b: Book, signer: Addr, paidBy: seq<Addr>, amount: nat, directive: Directive, p: Addr)
    requires WellFormed(b) && p != signer
    requires PlanSpend(b, signer, amount, Dedupe(paidBy), directive).Ok?
    requires p in PartPayers(PlanSpend(b, signer, amount, Dedupe(paidBy), directive).value)
    ensures p in paidBy
  {
    DedupeDistinct(paidBy);
    PlanListFits(b, signer, Dedupe(paidBy), Planning([], amount, false));
    assert p in Payers(paidBy);
  }
}
