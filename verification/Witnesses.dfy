/** Runs from empty tables on which an expected property fails: a payer "p" lends to a signer "s". */
module Witnesses {
  import opened Wrappers
  import opened Ledger
  import opened Approvals
  import opened Allocation
  import opened Spending
  import opened Lending
  import opened Refunds
  import opened RoundTrip
  import opened Debt
  import opened Runs

  function Link(): Ledger.Link { Between("p", "s") }

  function Row(id: Id, approved: int, used: int): Approval { Approval(id, "p", "s", approved, used, None) }

  function Spent(id: Id, approved: int): Inactive { Inactive(Row(id, approved, approved), Used, None) }

  /** What the tables show, the log aside. */
  ghost predicate Shows(b: Book, balance: int, active: seq<Approval>, inactive: seq<Inactive>) {
    b.users == map["p" := balance] && b.active == active && b.inactive == inactive
    && (forall r :: r in active ==> r.payer == "p" && r.spender == "s" && r.expires == None)
    && (forall x :: x in inactive ==> x.row.payer == "p" && x.row.spender == "s")
  }

  // ---------- Steps on such tables ----------

  lemma {:induction false} AllPicked(rows: seq<Approval>)
    requires forall r :: r in rows ==> r.payer == "p" && r.spender == "s"
    ensures Pick(rows, Link()) == rows && Without(rows, Link()) == []
  {
    if rows != [] {
      assert rows[0] in rows;
      AllPicked(rows[1..]);
    }
  }

  lemma {:induction false} AllPickedInactive(rows: seq<Inactive>)
    requires forall x :: x in rows ==> x.row.payer == "p" && x.row.spender == "s"
    ensures PickInactive(rows, Link()) == rows
  {
    if rows != [] {
      assert rows[0] in rows;
      AllPickedInactive(rows[1..]);
    }
  }

  lemma RunCons(b: Book, op: Op, rest: seq<Op>)
    ensures Run(b, [op] + rest) == Run(Apply(b, op), rest)
  {
    assert ([op] + rest)[1..] == rest;
  }

  function TopUp(winc: nat): Op { Credit("p", winc, AccountCreation, Payment, "t") }

  function Lends(id: Id, winc: int): Op { Lend(id, "p", "s", winc, None) }

  function Charges(winc: nat): Op { Runs.Charge("s", winc, ["p"], ListOnly, Upload, "d") }

  function GivesBack(winc: int): Op { GiveBack(winc, Some([Share("p", winc)]), Refunding("s", RefundedUpload, "d", 0)) }

  lemma TopUpStep(winc: nat)
    ensures Shows(Apply(EmptyBook(), TopUp(winc)), winc, [], [])
  {
  }

  lemma LendStep(b: Book, balance: int, active: seq<Approval>, inactive: seq<Inactive>, id: Id, winc: nat)
    requires Shows(b, balance, active, inactive) && balance >= winc && !HasId(active, inactive, id)
    ensures Shows(Apply(b, Lends(id, winc)), balance - winc, active + [Row(id, winc, 0)], inactive)
  {
  }

  lemma ChargeStep(b: Book, balance: int, active: seq<Approval>, inactive: seq<Inactive>, winc: nat, after: Draw)
    requires Shows(b, balance, active, inactive) && active != [] && 1 <= winc <= SumLeft(active)
    requires after == DrawFrom(Draw(active, inactive, winc), active) && after.rest < 1
    requires forall r :: r in after.active ==> r.payer == "p" && r.spender == "s" && r.expires == None
    requires forall x :: x in after.inactive ==> x.row.payer == "p" && x.row.spender == "s"
    ensures Shows(Apply(b, Charges(winc)), balance, after.active, after.inactive)
    ensures Spend(b, "s", winc, ["p"], ListOnly, Upload, "d").Ok?
    ensures Spend(b, "s", winc, ["p"], ListOnly, Upload, "d").value.overflow == Some([Share("p", winc)])
  {
    AllPicked(active);
    DedupeOne();
    var part := Part("p", winc, active);
    assert ["p"][1..] == [];
    assert PlanPayer(b, "s", "p", Planning([], winc, false)) == Planning([part], 0, false);
    assert PlanSpend(b, "s", winc, ["p"], ListOnly) == Ok([part]);
    var c := Allocation.Charge("s", Balance(b, "s"), Upload, "d");
    assert [part][1..] == [] && [part][0] == part;
    assert ApplyParts(b, [part], c) == ApplyPart(b, part, c);
    assert Strip([part]) == [Share("p", winc)];
  }

  lemma DedupeOne()
    ensures Dedupe(["p"]) == ["p"]
  {
    DedupeSame(["p"]);
  }

  lemma GiveStep(b: Book, balance: int, active: seq<Approval>, inactive: seq<Inactive>, winc: int, given: Giving, after: Restoring)
    requires Shows(b, balance, active, inactive)
    requires given == GiveActive(Giving(active, winc), active, winc)
    requires RestoreInactive(Restoring(b.(active := given.active), given.rest), inactive, "d") == Ok(after)
    ensures Apply(b, GivesBack(winc)) == after.book
  {
    AllPicked(active);
    AllPickedInactive(inactive);
    TrimNothing(b, active, 0);
    NothingExpired(b, active, 0);
    var share := Share("p", winc);
    var f := Refunding("s", RefundedUpload, "d", 0);
    assert RefundPayer(b, share, f) == Ok(after.book);
    assert [share][1..] == [] && [share][0] == share;
    assert RefundShares(b, [share], f) == Ok(after.book);
  }

  // ---------- Rows one at a time ----------

  lemma DrawFirst(d: Draw, r: Approval, rest: seq<Approval>)
    ensures d.rest >= 1 ==> DrawFrom(d, [r] + rest) == DrawFrom(DrawOne(d, r), rest)
    ensures d.rest < 1 ==> DrawFrom(d, [r] + rest) == d
  {
    assert ([r] + rest)[1..] == rest;
  }

  lemma GiveFirst(g: Giving, r: Approval, rest: seq<Approval>, w: int)
    ensures g.rest >= 1 ==> GiveActive(g, [r] + rest, w) == GiveActive(GiveOne(g, r, w), rest, w)
    ensures g.rest < 1 ==> GiveActive(g, [r] + rest, w) == g
  {
    assert ([r] + rest)[1..] == rest;
  }

  lemma ReplaceFirst(r: Approval, rest: seq<Approval>, next: Option<Approval>)
    ensures Replace([r] + rest, r.id, next) == (if next.Some? then [next.value] else []) + rest
  {
    assert ([r] + rest)[1..] == rest;
  }

  lemma ReplaceLater(r: Approval, rest: seq<Approval>, id: Id, next: Option<Approval>)
    requires r.id != id
    ensures Replace([r] + rest, id, next) == [r] + Replace(rest, id, next)
  {
    assert ([r] + rest)[1..] == rest;
  }

  lemma RunThree(b: Book, o1: Op, o2: Op, o3: Op)
    ensures Run(b, [o1, o2, o3]) == Apply(Apply(Apply(b, o1), o2), o3)
  {
    assert [o1, o2, o3] == [o1] + [o2, o3] && [o2, o3] == [o2] + [o3] && [o3] == [o3] + [];
    RunCons(b, o1, [o2, o3]);
    RunCons(Apply(b, o1), o2, [o3]);
    RunCons(Apply(Apply(b, o1), o2), o3, []);
  }

  /** One row, drawn in part or in full. */
  lemma DrawSingle(r: Approval, inactive: seq<Inactive>, w: int)
    requires 1 <= w <= Left(r)
    ensures DrawFrom(Draw([r], inactive, w), [r]) ==
            if w == Left(r) then Draw([], inactive + [UsedUp(r)], 0) else Draw([r.(used := r.used + w)], inactive, 0)
  {
    assert [r] + [] == [r];
    DrawFirst(Draw([r], inactive, w), r, []);
    ReplaceFirst(r, [], if w == Left(r) then None else Some(r.(used := r.used + w)));
  }

  // ---------- A refund that gives back too much ----------

  /** An approval is used up by two charges; two newer ones stand when the second charge is refunded to it. */
  function UsedUpFirst(): seq<Op> { [TopUp(20), Lends("z", 9), Charges(4)] }

  function LentAgain(): seq<Op> { [Charges(5), Lends("x", 2), Lends("y", 9)] }

  /** Its refund reactivates the old approval behind the newer ones; then two charges draw on the newer ones. */
  function DrawnAgain(): seq<Op> { [GivesBack(5), Charges(1), Charges(3)] }

  lemma UsedUpFirstShows(b: Book)
    requires b == EmptyBook()
    ensures Shows(Run(b, UsedUpFirst()), 11, [Row("z", 9, 4)], [])
  {
    LentAndDrawn(b, 20, "z", 9, 4);
  }

  /** A loan from a fresh account, then a charge that draws it in part. */
  lemma LentAndDrawn(empty: Book, total: nat, id: Id, winc: nat, drawn: nat)
    requires 1 <= drawn < winc <= total && empty == EmptyBook()
    ensures Shows(Run(empty, [TopUp(total), Lends(id, winc), Charges(drawn)]), total - winc, [Row(id, winc, drawn)], [])
  {
    var b := Apply(empty, TopUp(total));
    RunThree(empty, TopUp(total), Lends(id, winc), Charges(drawn));
    TopUpStep(total);
    OneLent(b, total, id, winc);
    PartDrawn(Apply(b, Lends(id, winc)), total - winc, Row(id, winc, 0), drawn);
  }

  lemma OneLent(b: Book, total: nat, id: Id, winc: nat)
    requires Shows(b, total, [], []) && winc <= total
    ensures Shows(Apply(b, Lends(id, winc)), total - winc, [Row(id, winc, 0)], [])
  {
    LendStep(b, total, [], [], id, winc);
    assert [] + [Row(id, winc, 0)] == [Row(id, winc, 0)];
  }

  /** A charge that draws the one approval in part. */
  lemma PartDrawn(b: Book, balance: int, r: Approval, w: nat)
    requires Shows(b, balance, [r], []) && 1 <= w < Left(r)
    ensures Shows(Apply(b, Charges(w)), balance, [r.(used := r.used + w)], [])
  {
    DrawSingle(r, [], w);
    PickOne(r, Link());
    assert r in [r];
    ChargeStep(b, balance, [r], [], w, Draw([r.(used := r.used + w)], [], 0));
  }

  lemma FullyDrawn(b: Book)
    requires Shows(b, 11, [Row("z", 9, 4)], [])
    ensures Shows(Apply(b, Charges(5)), 11, [], [Spent("z", 9)])
  {
    DrawSingle(Row("z", 9, 4), [], 5);
    PickOne(Row("z", 9, 4), Link());
    assert [] + [Spent("z", 9)] == [Spent("z", 9)];
    ChargeStep(b, 11, [Row("z", 9, 4)], [], 5, Draw([], [Spent("z", 9)], 0));
  }

  lemma LentAgainShows(b: Book)
    requires Shows(b, 11, [Row("z", 9, 4)], [])
    ensures Shows(Run(b, LentAgain()), 0, [Row("x", 2, 0), Row("y", 9, 0)], [Spent("z", 9)])
  {
    RunThree(b, Charges(5), Lends("x", 2), Lends("y", 9));
    FullyDrawn(b);
    var b1 := Apply(b, Charges(5));
    LendStep(b1, 11, [], [Spent("z", 9)], "x", 2);
    assert [] + [Row("x", 2, 0)] == [Row("x", 2, 0)];
    LendStep(Apply(b1, Lends("x", 2)), 9, [Row("x", 2, 0)], [Spent("z", 9)], "y", 9);
  }

  lemma GiveToUnused(x: Approval, y: Approval, w: int)
    requires x.used == 0 && y.used == 0 && x.id != y.id && w >= 1
    ensures GiveActive(Giving([x, y], w), [x, y], w) == Giving([x, y], w)
  {
    assert [x, y] == [x] + [y] && [y] + [] == [y];
    GiveFirst(Giving([x, y], w), x, [y], w);
    ReplaceFirst(x, [y], Some(x));
    GiveFirst(Giving([x, y], w), y, [], w);
    ReplaceLater(x, [y], y.id, Some(y));
    ReplaceFirst(y, [], Some(y));
  }

  lemma Reactivates(b: Book)
    requires Shows(b, 0, [Row("x", 2, 0), Row("y", 9, 0)], [Spent("z", 9)])
    ensures Shows(Apply(b, GivesBack(5)), 0, [Row("x", 2, 0), Row("y", 9, 0), Row("z", 9, 4)], [])
  {
    var active := [Row("x", 2, 0), Row("y", 9, 0)];
    GiveToUnused(Row("x", 2, 0), Row("y", 9, 0), 5);
    var after := Restoring(b.(active := active + [Row("z", 9, 4)], inactive := []), -4);
    assert [Spent("z", 9)][1..] == [] && [Spent("z", 9)][0] == Spent("z", 9);
    assert RestoreOne(Restoring(b, 5), Spent("z", 9), "d") == Ok(after);
    assert RestoreInactive(Restoring(b, 5), [Spent("z", 9)], "d") == RestoreInactive(after, [], "d");
    GiveStep(b, 0, active, [Spent("z", 9)], 5, Giving(active, 5), after);
  }

  lemma DrawFirstOfThree(w: int, x: Approval, y: Approval, z: Approval)
    requires 1 <= w < Left(x)
    ensures DrawFrom(Draw([x, y, z], [], w), [x, y, z]) == Draw([x.(used := x.used + w), y, z], [], 0)
  {
    assert [x, y, z] == [x] + [y, z] && [y, z] == [y] + [z];
    DrawFirst(Draw([x, y, z], [], w), x, [y, z]);
    ReplaceFirst(x, [y, z], Some(x.(used := x.used + w)));
    DrawFirst(DrawOne(Draw([x, y, z], [], w), x), y, [z]);
  }

  lemma DrawThroughFirst(w: int, x: Approval, y: Approval, z: Approval)
    requires 0 < Left(x) < w < Left(x) + Left(y)
    ensures DrawFrom(Draw([x, y, z], [], w), [x, y, z]) == Draw([y.(used := y.used + w - Left(x)), z], [UsedUp(x)], 0)
  {
    assert [x, y, z] == [x] + [y, z] && [y, z] == [y] + [z];
    DrawFirst(Draw([x, y, z], [], w), x, [y, z]);
    ReplaceFirst(x, [y, z], None);
    assert [] + [UsedUp(x)] == [UsedUp(x)];
    var d := Draw([y, z], [UsedUp(x)], w - Left(x));
    assert DrawOne(Draw([x, y, z], [], w), x) == d;
    DrawFirst(d, y, [z]);
    ReplaceFirst(y, [z], Some(y.(used := y.used + d.rest)));
    assert [z] + [] == [z];
    DrawFirst(DrawOne(d, y), z, []);
  }

  lemma SumThree(x: Approval, y: Approval, z: Approval)
    ensures SumLeft([x, y, z]) == Left(x) + Left(y) + Left(z) && SumLeft([y, z]) == Left(y) + Left(z)
  {
    assert [x, y, z][1..] == [y, z] && [y, z][1..] == [z];
    assert SumLeft([x, y, z]) == Left(x) + SumLeft([y, z]);
    assert SumLeft([y, z]) == Left(y) + SumLeft([z]);
    PickOne(z, Link());
  }

  lemma DrawOneMore(b: Book)
    requires Shows(b, 0, [Row("x", 2, 0), Row("y", 9, 0), Row("z", 9, 4)], [])
    ensures Shows(Apply(b, Charges(1)), 0, [Row("x", 2, 1), Row("y", 9, 0), Row("z", 9, 4)], [])
  {
    var x, y, z := Row("x", 2, 0), Row("y", 9, 0), Row("z", 9, 4);
    DrawFirstOfThree(1, x, y, z);
    SumThree(x, y, z);
    ChargeStep(b, 0, [x, y, z], [], 1, Draw([Row("x", 2, 1), y, z], [], 0));
  }

  lemma DrawThreeMore(b: Book)
    requires Shows(b, 0, [Row("x", 2, 1), Row("y", 9, 0), Row("z", 9, 4)], [])
    ensures Shows(Apply(b, Charges(3)), 0, [Row("y", 9, 2), Row("z", 9, 4)], [Spent("x", 2)])
  {
    var x, y, z := Row("x", 2, 1), Row("y", 9, 0), Row("z", 9, 4);
    DrawThroughFirst(3, x, y, z);
    SumThree(x, y, z);
    ChargeStep(b, 0, [x, y, z], [], 3, Draw([Row("y", 9, 2), z], [Spent("x", 2)], 0));
  }

  lemma DrawnAgainShows(b: Book)
    requires Shows(b, 0, [Row("x", 2, 0), Row("y", 9, 0)], [Spent("z", 9)])
    ensures Shows(Run(b, DrawnAgain()), 0, [Row("y", 9, 2), Row("z", 9, 4)], [Spent("x", 2)])
  {
    RunThree(b, GivesBack(5), Charges(1), Charges(3));
    Reactivates(b);
    DrawOneMore(Apply(b, GivesBack(5)));
    DrawThreeMore(Apply(Apply(b, GivesBack(5)), Charges(1)));
  }

  lemma GiveBehind(y: Approval, z: Approval, w: int)
    requires y.id != z.id && 0 <= y.used < w <= z.used
    ensures GiveActive(Giving([y, z], w), [y, z], w) == Giving([y.(used := 0), z.(used := z.used - w)], 0)
  {
    var y0, z1 := y.(used := 0), z.(used := z.used - w);
    assert [y, z] == [y] + [z] && [z] + [] == [z] && [y0] + [z] == [y0, z];
    GiveFirst(Giving([y, z], w), y, [z], w);
    ReplaceFirst(y, [z], Some(y0));
    GiveFirst(Giving([y0, z], w - y.used), z, [], w);
    ReplaceLater(y0, [z], z.id, Some(z1));
    ReplaceFirst(z, [], Some(z1));
  }

  /** The refund of the last charge, of 3, brings the payer 5: its second approval gives 2, its third a whole 3. */
  lemma PartUsedBehindOverpays()
    ensures var ops := UsedUpFirst() + LentAgain() + DrawnAgain();
            var b := Run(EmptyBook(), ops);
            && (forall op :: op in ops ==> Proper(op))
            && Controlled(Apply(b, GivesBack(3)), "p") == Controlled(b, "p") + 5
  {
    ReachedShows();
    LastRefund(Reached());
    ReachedByRun();
  }

  function Reached(): Book { Run(Run(Run(EmptyBook(), UsedUpFirst()), LentAgain()), DrawnAgain()) }

  lemma ReachedShows()
    ensures Shows(Reached(), 0, [Row("y", 9, 2), Row("z", 9, 4)], [Spent("x", 2)])
  {
    UsedUpFirstShows(EmptyBook());
    LentAgainShows(Run(EmptyBook(), UsedUpFirst()));
    DrawnAgainShows(Run(Run(EmptyBook(), UsedUpFirst()), LentAgain()));
  }

  lemma ReachedByRun()
    ensures var ops := UsedUpFirst() + LentAgain() + DrawnAgain();
            Run(EmptyBook(), ops) == Reached() && forall op :: op in ops ==> Proper(op)
  {
    RunAppend(EmptyBook(), UsedUpFirst(), LentAgain());
    RunAppend(EmptyBook(), UsedUpFirst() + LentAgain(), DrawnAgain());
    ReachedProperly();
  }

  lemma ReachedProperly()
    ensures forall op :: op in UsedUpFirst() + LentAgain() + DrawnAgain() ==> Proper(op)
  {
    ProperAppend(UsedUpFirst(), LentAgain());
    ProperAppend(UsedUpFirst() + LentAgain(), DrawnAgain());
  }

  lemma ProperAppend(ops: seq<Op>, more: seq<Op>)
    requires (forall op :: op in ops ==> Proper(op)) && (forall op :: op in more ==> Proper(op))
    ensures forall op :: op in ops + more ==> Proper(op)
  {
  }

  lemma LastRefund(b: Book)
    requires Shows(b, 0, [Row("y", 9, 2), Row("z", 9, 4)], [Spent("x", 2)])
    ensures Controlled(Apply(b, GivesBack(3)), "p") == Controlled(b, "p") + 5
  {
    var y, z := Row("y", 9, 2), Row("z", 9, 4);
    GiveBehind(y, z, 3);
    var given := Giving([Row("y", 9, 0), Row("z", 9, 1)], 0);
    GiveStep(b, 0, [y, z], [Spent("x", 2)], 3, given, Restoring(b.(active := given.active), 0));
    AllGiven([y, z]);
    AllGiven(given.active);
    SumThree(y, y, z);
    SumThree(y, given.active[0], given.active[1]);
  }

  lemma {:induction false} AllGiven(rows: seq<Approval>)
    requires forall r :: r in rows ==> r.payer == "p"
    ensures Pick(rows, Given("p")) == rows
  {
    if rows != [] {
      assert rows[0] in rows;
      AllGiven(rows[1..]);
    }
  }

  // ---------- A revoked approval pays its whole use ----------

  function TakesBack(): Op { TakeBack("p", "s", "r") }

  lemma TakeBackStep(b: Book, balance: int, row: Approval)
    requires Shows(b, balance, [row], [])
    ensures Shows(Apply(b, TakesBack()), balance + Left(row), [], [Inactive(row, Revoked, Some("r"))])
  {
    AllPicked([row]);
    PickOne(row, Link());
    var moved := Inactive(row, Revoked, Some("r"));
    assert AsInactive([row], Revoked, Some("r")) == [moved];
    assert [] + [moved] == [moved] && [moved][1..] == [];
    assert RevokeUsedUp([moved], Link(), "r") == [moved];
  }

  /** Charges of 2 and 4, then the payer revokes: the refund of the first, of 2, brings it 6. */
  lemma RevokedPaysWholeUse()
    ensures var ops := [TopUp(10), Lends("x", 10), Charges(2)] + [Charges(4), TakesBack()];
            var b := Run(EmptyBook(), ops);
            && (forall op :: op in ops ==> Proper(op))
            && Controlled(Apply(b, GivesBack(2)), "p") == Controlled(b, "p") + 6
  {
    RunAppend(EmptyBook(), [TopUp(10), Lends("x", 10), Charges(2)], [Charges(4), TakesBack()]);
    ChargedFirst(EmptyBook());
    var b := Run(EmptyBook(), [TopUp(10), Lends("x", 10), Charges(2)]);
    ChargedAndRevoked(b);
    RefundOfRevoked(Run(b, [Charges(4), TakesBack()]));
  }

  lemma ChargedFirst(b: Book)
    requires b == EmptyBook()
    ensures Shows(Run(b, [TopUp(10), Lends("x", 10), Charges(2)]), 0, [Row("x", 10, 2)], [])
  {
    LentAndDrawn(b, 10, "x", 10, 2);
  }

  lemma ChargedAndRevoked(b: Book)
    requires Shows(b, 0, [Row("x", 10, 2)], [])
    ensures Shows(Run(b, [Charges(4), TakesBack()]), 4, [], [Inactive(Row("x", 10, 6), Revoked, Some("r"))])
  {
    PartDrawn(b, 0, Row("x", 10, 2), 4);
    TakeBackStep(Apply(b, Charges(4)), 0, Row("x", 10, 6));
    assert [Charges(4), TakesBack()] == [Charges(4)] + [TakesBack()] && [TakesBack()] == [TakesBack()] + [];
    RunCons(b, Charges(4), [TakesBack()]);
    RunCons(Apply(b, Charges(4)), TakesBack(), []);
  }

  lemma RefundOfRevoked(b: Book)
    requires Shows(b, 4, [], [Inactive(Row("x", 10, 6), Revoked, Some("r"))])
    ensures Controlled(Apply(b, GivesBack(2)), "p") == Controlled(b, "p") + 6
  {
    var gone := Inactive(Row("x", 10, 6), Revoked, Some("r"));
    var after := Restoring(Post(b, "p", 6, DelegatedPaymentRevoke, Some("d")), 2);
    assert [gone][1..] == [] && [gone][0] == gone;
    assert b.(active := []) == b;
    assert RestoreInactive(Restoring(b, 2), [gone], "d") == RestoreInactive(after, [], "d");
    GiveStep(b, 4, [], [gone], 2, Giving([], 2), after);
  }

  // ---------- A debtor ----------

  /** The signer tops up 5, spends it, and is charged back; a payer lends it 10. */
  function IntoDebt(): seq<Op> {
    [Credit("s", 5, AccountCreation, Payment, "t"), Runs.Charge("s", 5, [], ListOrSigner, Upload, "d"), ChargeBack("s", 5, "c")]
  }

  function LentToDebtor(): seq<Op> { [TopUp(10), Lends("x", 10)] }

  function DebtorsCharge(): Op { Runs.Charge("s", 5, ["s", "p"], ListOrSigner, Upload, "e") }

  /** The chargeback takes the signer to -5. */
  lemma ChargebackOverdraws()
    ensures Run(EmptyBook(), IntoDebt()).users == map["s" := -5] && Run(EmptyBook(), IntoDebt()).active == []
    ensures Run(EmptyBook(), IntoDebt()).inactive == []
    ensures (forall op :: op in IntoDebt() ==> Proper(op)) && !StaysSolvent(EmptyBook(), IntoDebt())
  {
    var o1, o2, o3 := IntoDebt()[0], IntoDebt()[1], IntoDebt()[2];
    RunThree(EmptyBook(), o1, o2, o3);
    var b1 := Apply(EmptyBook(), o1);
    assert b1.users == map["s" := 5];
    var part := Part("s", 5, []);
    var c := Allocation.Charge("s", 5, Upload, "d");
    assert [part][1..] == [] && [part][0] == part;
    assert Dedupe([]) == [];
    assert ApplyParts(b1, [part], c) == ApplyPart(b1, part, c);
    var b2 := Apply(b1, o2);
    assert b2.users == map["s" := 0];
    assert Balance(Apply(b2, o3), "s") == -5;
    assert IntoDebt()[1..] == [o2, o3] && [o2, o3][1..] == [o3] && [o3][1..] == [];
  }

  lemma LentToDebtorShows(b: Book)
    requires b.users == map["s" := -5] && b.active == [] && b.inactive == []
    ensures var e := Run(b, LentToDebtor());
            e.users == map["s" := -5, "p" := 0] && e.active == [Row("x", 10, 0)] && e.inactive == []
  {
    assert LentToDebtor() == [TopUp(10)] + [Lends("x", 10)] && [Lends("x", 10)] == [Lends("x", 10)] + [];
    RunCons(b, TopUp(10), [Lends("x", 10)]);
    RunCons(Apply(b, TopUp(10)), Lends("x", 10), []);
    assert [] + [Row("x", 10, 0)] == [Row("x", 10, 0)];
  }

  lemma DebtorIsServed(b: Book)
    requires b.users == map["s" := -5, "p" := 0] && b.active == [Row("x", 10, 0)] && b.inactive == []
    ensures Garbles(b, DebtorsCharge(), "s")
  {
    DebtorFunds(b);
    DedupeTwo("s", "p");
    ServedDebtor(b, DebtorsCharge(), "s");
  }

  /** A charge that has the funds and lists the debtor first garbles its log. */
  lemma ServedDebtor(b: Book, op: Op, u: Addr)
    requires WellFormed(b) && Proper(op) && op.Charge? && op.signer == u && op.winc >= 1 && Balance(b, u) < 0
    requires u in op.paidBy && Usable(b, u, Payers(op.paidBy), op.directive) >= op.winc
    requires Dedupe(op.paidBy) != [] && Dedupe(op.paidBy)[0] == u
    ensures Garbles(b, op, u)
  {
    SpendComplete(b, op.signer, op.winc, op.paidBy, op.directive, op.reason, op.change);
  }

  lemma DebtorFunds(b: Book)
    requires b.users == map["s" := -5, "p" := 0] && b.active == [Row("x", 10, 0)]
    ensures Funds(b, "s", Payers(["s", "p"])) == 5 && "s" in Payers(["s", "p"])
  {
    OfferIsFunds(b, "s", ["s", "p"]);
    AllPicked(b.active);
    PickOne(b.active[0], Link());
    assert ["s", "p"][1..] == ["p"] && ["p"][1..] == [];
    assert Offer(b, "s", ["p"]) == Capacity(b, "s", "p") + Offer(b, "s", []);
    assert Offer(b, "s", ["s", "p"]) == Capacity(b, "s", "s") + Offer(b, "s", ["p"]);
    assert ["s", "p"][0] in Payers(["s", "p"]);
  }

  /** The debtor's next charge leaves it a log that cannot be summed. */
  lemma DebtGarblesTheLog()
    ensures var ops := IntoDebt() + LentToDebtor() + [DebtorsCharge()];
            (forall op :: op in ops ==> Proper(op)) && !Reconciled(Run(EmptyBook(), ops), "s")
  {
    var before := IntoDebt() + LentToDebtor();
    ChargebackOverdraws();
    LentToDebtorShows(Run(EmptyBook(), IntoDebt()));
    RunAppend(EmptyBook(), IntoDebt(), LentToDebtor());
    DebtorIsServed(Run(EmptyBook(), before));
    ProperAppend(IntoDebt(), LentToDebtor());
    ProperAppend(before, [DebtorsCharge()]);
    GarbledAtEnd(before, DebtorsCharge(), "s");
  }

  /** A run from empty tables that ends with an unreadable row. */
  lemma GarbledAtEnd(before: seq<Op>, op: Op, u: Addr)
    requires (forall o :: o in before ==> Proper(o)) && Proper(op) && Garbles(Run(EmptyBook(), before), op, u)
    ensures !Reconciled(Run(EmptyBook(), before + [op]), u)
  {
    var b := Run(EmptyBook(), before);
    RunSound(EmptyBook(), before);
    RunAppend(EmptyBook(), before, [op]);
    assert [op][0] == op;
    assert GarblesIn(b, [op], u);
    RunReconciles(b, [op], u);
  }

  // ---------- A loan of a negative amount ----------

  /** An account of 1 lends -5, spends the 6 it then holds, and takes the loan back. */
  function LendsLess(): seq<Op> { [TopUp(1), Lends("x", -5)] }

  function SpendsAll(): Op { Runs.Charge("p", 6, [], ListOrSigner, Upload, "d") }

  lemma LendsLessShows()
    ensures var b := Run(EmptyBook(), LendsLess());
            b.users == map["p" := 6] && b.active == [Row("x", -5, 0)] && b.inactive == []
    ensures forall op :: op in LendsLess() ==> Proper(op)
  {
    var b1 := Apply(EmptyBook(), TopUp(1));
    assert LendsLess() == [TopUp(1)] + [Lends("x", -5)] && [Lends("x", -5)] == [Lends("x", -5)] + [];
    RunCons(EmptyBook(), TopUp(1), [Lends("x", -5)]);
    RunCons(b1, Lends("x", -5), []);
    TopUpStep(1);
    assert [] + [Row("x", -5, 0)] == [Row("x", -5, 0)];
  }

  /** The loan raises the balance to 6, leaves an approval out of range, and a log that cannot be summed. */
  lemma NegativeLoanBreaksRange()
    ensures var b := Run(EmptyBook(), LendsLess());
            Balance(b, "p") == 6 && !WellFormed(b) && !Reconciled(b, "p")
  {
    LendsLessShows();
    var b := Run(EmptyBook(), LendsLess());
    assert Row("x", -5, 0) in b.active && !SoundRow(Row("x", -5, 0));
    assert LendsLess() == [TopUp(1)] + [Lends("x", -5)];
    assert [TopUp(1)] + [] == [TopUp(1)];
    RunCons(EmptyBook(), TopUp(1), []);
    TopUpStep(1);
    GarbledAtEnd([TopUp(1)], Lends("x", -5), "p");
  }

  lemma SpendsAllShows(b: Book)
    requires b.users == map["p" := 6] && b.active == [Row("x", -5, 0)] && b.inactive == []
    ensures var e := Apply(b, SpendsAll()); e.users == map["p" := 0] && e.active == b.active && e.inactive == b.inactive
  {
    var part := Part("p", 6, []);
    var c := Allocation.Charge("p", 6, Upload, "d");
    assert [part][1..] == [] && [part][0] == part;
    assert Dedupe([]) == [];
    assert ApplyParts(b, [part], c) == ApplyPart(b, part, c);
  }

  /** Spending all of it and taking the loan back leaves the account below zero: the revoke pays back -5. */
  lemma RevokeOverdraws()
    ensures var ops := LendsLess() + [SpendsAll(), TakesBack()];
            (forall op :: op in ops ==> Proper(op)) && Balance(Run(EmptyBook(), ops), "p") == -5
  {
    var b := Run(EmptyBook(), LendsLess());
    var spent := Apply(b, SpendsAll());
    LendsLessShows();
    SpendsAllShows(b);
    RunAppend(EmptyBook(), LendsLess(), [SpendsAll(), TakesBack()]);
    assert [SpendsAll(), TakesBack()] == [SpendsAll()] + [TakesBack()] && [TakesBack()] == [TakesBack()] + [];
    RunCons(b, SpendsAll(), [TakesBack()]);
    RunCons(spent, TakesBack(), []);
    AllPicked(spent.active);
    PickOne(Row("x", -5, 0), Link());
    ProperAppend(LendsLess(), [SpendsAll(), TakesBack()]);
  }

  /** "p" lends the signer -5, "q" lends it `w`. */
  function TwoLenders(w: nat): seq<Op> {
    [TopUp(0), Lends("x", -5)] + [Credit("q", w, AccountCreation, Payment, "t"), Lend("y", "q", "s", w, None)]
  }

  function FromQ(w: nat): Approval { Approval("y", "q", "s", w, 0, None) }

  ghost predicate ShowsTwo(b: Book, w: nat) {
    b.users == map["p" := 5, "q" := 0] && b.active == [Row("x", -5, 0), FromQ(w)] && b.inactive == []
  }

  lemma FirstLends(b: Book)
    requires b == EmptyBook()
    ensures var e := Run(b, [TopUp(0), Lends("x", -5)]);
            e.users == map["p" := 5] && e.active == [Row("x", -5, 0)] && e.inactive == []
  {
    assert [TopUp(0), Lends("x", -5)] == [TopUp(0)] + [Lends("x", -5)] && [Lends("x", -5)] == [Lends("x", -5)] + [];
    RunCons(b, TopUp(0), [Lends("x", -5)]);
    RunCons(Apply(b, TopUp(0)), Lends("x", -5), []);
    TopUpStep(0);
    assert [] + [Row("x", -5, 0)] == [Row("x", -5, 0)];
  }

  lemma CreditStep(b: Book, u: Addr, amount: int)
    ensures var e := Apply(b, Credit(u, amount, AccountCreation, Payment, "t"));
            e.users == b.users[u := Balance(b, u) + amount] && e.active == b.active && e.inactive == b.inactive
  {
  }

  lemma AnyLendStep(b: Book, row: Approval)
    requires row.payer in b.users && b.users[row.payer] >= row.approved && row.used == 0 && !HasId(b.active, b.inactive, row.id)
    ensures var e := Apply(b, Lend(row.id, row.payer, row.spender, row.approved, row.expires));
            && e.users == b.users[row.payer := b.users[row.payer] - row.approved]
            && e.active == b.active + [row] && e.inactive == b.inactive
  {
  }

  lemma SecondCredited(b: Book, w: nat)
    requires b.users == map["p" := 5] && b.active == [Row("x", -5, 0)] && b.inactive == []
    ensures var e := Apply(b, Credit("q", w, AccountCreation, Payment, "t"));
            e.users == map["p" := 5, "q" := w] && e.active == b.active && e.inactive == b.inactive
  {
    CreditStep(b, "q", w);
  }

  lemma SecondLent(b: Book, w: nat)
    requires b.users == map["p" := 5, "q" := w] && b.active == [Row("x", -5, 0)] && b.inactive == []
    ensures ShowsTwo(Apply(b, Lend("y", "q", "s", w, None)), w)
  {
    AnyLendStep(b, FromQ(w));
    assert [Row("x", -5, 0)] + [FromQ(w)] == [Row("x", -5, 0), FromQ(w)];
  }

  lemma SecondLends(b: Book, w: nat)
    requires b.users == map["p" := 5] && b.active == [Row("x", -5, 0)] && b.inactive == []
    ensures ShowsTwo(Run(b, [Credit("q", w, AccountCreation, Payment, "t"), Lend("y", "q", "s", w, None)]), w)
  {
    var credit, lend := Credit("q", w, AccountCreation, Payment, "t"), Lend("y", "q", "s", w, None);
    assert [credit, lend] == [credit] + [lend] && [lend] == [lend] + [];
    RunCons(b, credit, [lend]);
    RunCons(Apply(b, credit), lend, []);
    SecondCredited(b, w);
    SecondLent(Apply(b, credit), w);
  }

  lemma TwoLendersShow(b: Book, w: nat)
    requires b == EmptyBook()
    ensures ShowsTwo(Run(b, TwoLenders(w)), w)
  {
    FirstLends(b);
    SecondLends(Run(b, [TopUp(0), Lends("x", -5)]), w);
    RunAppend(b, [TopUp(0), Lends("x", -5)], [Credit("q", w, AccountCreation, Payment, "t"), Lend("y", "q", "s", w, None)]);
  }

  lemma PickBoth(x: Approval, y: Approval, link: Ledger.Link)
    ensures Pick([x, y], link) == (if Matches(link, x) then [x] else []) + (if Matches(link, y) then [y] else [])
    ensures SumLeft(Pick([x, y], link)) == (if Matches(link, x) then Left(x) else 0) + (if Matches(link, y) then Left(y) else 0)
  {
    assert [x, y] == [x] + [y];
    PickAppend([x], [y], link);
    PickTotals([x], [y], link);
    PickOne(x, link);
    PickOne(y, link);
  }

  lemma TwoCapacities(b: Book, w: nat)
    requires ShowsTwo(b, w)
    ensures Keyed(b) && Balance(b, "s") == 0
    ensures Capacity(b, "s", "p") == -5 && Capacity(b, "s", "q") == w
    ensures Pick(b.active, Between("q", "s")) == [FromQ(w)]
  {
    PickBoth(Row("x", -5, 0), FromQ(w), Between("p", "s"));
    PickBoth(Row("x", -5, 0), FromQ(w), Between("q", "s"));
  }

  lemma DedupePQ()
    ensures Dedupe(["p", "q"]) == ["p", "q"] && Dedupe(["q", "p"]) == ["q", "p"]
    ensures ["p", "q"][1..] == ["q"] && ["q", "p"][1..] == ["p"] && ["p"][1..] == [] && ["q"][1..] == []
  {
    DedupeTwo("p", "q");
    DedupeTwo("q", "p");
  }

  /** With "q" lending 10, a charge of 5 on both takes 10 from "q" and nothing from anybody else: more than it is for. */
  lemma ShortPayerTakesMore()
    ensures TakesTen(Run(EmptyBook(), TwoLenders(10)))
  {
    TwoLendersShow(EmptyBook(), 10);
    ShortTakes(Run(EmptyBook(), TwoLenders(10)));
  }

  ghost predicate TakesTen(b: Book) {
    var r := Spend(b, "s", 5, ["p", "q"], ListOnly, Upload, "d");
    && r.Ok?
    && Controlled(r.value.book, "q") == Controlled(b, "q") - 10
    && Controlled(r.value.book, "p") == Controlled(b, "p") && Controlled(r.value.book, "s") == Controlled(b, "s")
  }

  lemma ShortServed(b: Book) returns (parts: seq<Part>)
    requires ShowsTwo(b, 10)
    ensures Spend(b, "s", 5, ["p", "q"], ListOnly, Upload, "d").Ok?
    ensures PlanSpend(b, "s", 5, Dedupe(["p", "q"]), ListOnly) == Ok(parts)
    ensures Taken(parts, "s", "p") == 0 && Taken(parts, "s", "q") == 10 && Taken(parts, "s", "s") == 0
  {
    TwoCapacities(b, 10);
    ShortPlan(b);
    DedupePQ();
    parts := PlanSpend(b, "s", 5, ["p", "q"], ListOnly).value;
    SpendReady(b, "s", 5, ["p", "q"], ListOnly, Upload, "d");
    ShortFits(b, parts);
    ShortShares(parts[0], parts[1]);
    assert parts == [parts[0], parts[1]];
  }

  lemma ShortTakes(b: Book)
    requires ShowsTwo(b, 10)
    ensures TakesTen(b)
  {
    TwoCapacities(b, 10);
    var parts := ShortServed(b);
    SpendTakes(b, "s", 5, ["p", "q"], ListOnly, Upload, "d");
  }

  lemma ShortShares(first: Part, second: Part)
    requires first.payer == "p" && second.payer == "q"
    ensures ShareOf([first, second], "p") == first.winc && ShareOf([first, second], "q") == second.winc
    ensures ShareOf([first, second], "s") == 0
  {
    assert [first, second][1..] == [second] && [second][1..] == [];
    assert ShareOf([second], "q") == second.winc && ShareOf([second], "s") == 0;
  }

  lemma ShortPlan(b: Book)
    requires ShowsTwo(b, 10)
    ensures PlanSpend(b, "s", 5, ["p", "q"], ListOnly)
            == Ok([Part("p", -5, Pick(b.active, Between("p", "s"))), Part("q", 10, [FromQ(10)])])
  {
    TwoCapacities(b, 10);
    DedupePQ();
    var rows := Pick(b.active, Between("p", "s"));
    var first := Planning([Part("p", -5, rows)], 10, false);
    assert SumLeft([]) == 0 && rows != [];
    assert [] + [Part("p", -5, rows)] == [Part("p", -5, rows)];
    assert PlanPayer(b, "s", "p", Planning([], 5, false)) == first;
    assert [Part("p", -5, rows)] + [Part("q", 10, [FromQ(10)])] == [Part("p", -5, rows), Part("q", 10, [FromQ(10)])];
    assert PlanPayer(b, "s", "q", first) == Planning([Part("p", -5, rows), Part("q", 10, [FromQ(10)])], 0, false);
    assert PlanList(b, "s", ["p", "q"], Planning([], 5, false)) == PlanList(b, "s", ["q"], first);
  }

  lemma ShortFits(b: Book, parts: seq<Part>)
    requires ShowsTwo(b, 10) && parts == [Part("p", -5, Pick(b.active, Between("p", "s"))), Part("q", 10, [FromQ(10)])]
    ensures PlanFits(b, "s", parts)
  {
    TwoCapacities(b, 10);
  }

  /** With "q" lending 5, a charge of 5 is served with "q" first and refused with "p" first; the signer is not in debt. */
  lemma ShortPayerMakesOrderMatter()
    ensures OrderDecides(Run(EmptyBook(), TwoLenders(5)))
  {
    TwoLendersShow(EmptyBook(), 5);
    ShortOrders(Run(EmptyBook(), TwoLenders(5)));
  }

  ghost predicate OrderDecides(b: Book) {
    && Balance(b, "s") == 0
    && Spend(b, "s", 5, ["q", "p"], ListOnly, Upload, "d").Ok?
    && Spend(b, "s", 5, ["p", "q"], ListOnly, Upload, "d").Err?
  }

  lemma ShortOrders(b: Book)
    requires ShowsTwo(b, 5)
    ensures OrderDecides(b)
  {
    TwoCapacities(b, 5);
    DedupePQ();
    SpendComplete(b, "s", 5, ["q", "p"], ListOnly, Upload, "d");
    SpendComplete(b, "s", 5, ["p", "q"], ListOnly, Upload, "d");
    OfferIsFunds(b, "s", ["p", "q"]);
    assert Offer(b, "s", ["q"]) == Capacity(b, "s", "q") + Offer(b, "s", []);
    assert Offer(b, "s", ["p", "q"]) == Capacity(b, "s", "p") + Offer(b, "s", ["q"]);
    assert Met(b, "s", ["p"], 0) && !Met(b, "s", [], 5) && !Met(b, "s", ["q"], 10);
    assert ["p", "q"][0] in Payers(["p", "q"]);
  }
}
