/** Polling a gateway for a transaction with capped exponential back-off. */
module Polling {
  import opened Wrappers

  function Pow2(n: nat): nat { if n == 0 then 1 else 2 * Pow2(n - 1) }

  function Smaller(a: nat, b: nat): nat { if a <= b then a else b }

  /** computePollingDelayMs, in whole milliseconds. */
  function Delay(base: nat, attempt: nat, cap: nat): nat { Smaller(base * Pow2(attempt), cap) }

  /** What one look-up answers: a transaction, nothing, a passing error, or an error that ends the polling. */
  datatype Answer<T> = Found(tx: T) | Missing | Passing | Fatal

  datatype Outcome<T> = Tx(tx: T) | Threw(attempt: nat) | NotFound

  /** The waits before look-up `n`. */
  function Waited(base: nat, cap: nat, n: nat): nat {
    if n == 0 then 0 else Waited(base, cap, n - 1) + Delay(base, n - 1, cap)
  }

  predicate Ends<T>(a: Answer<T>) { a.Found? || a.Fatal? }

  /** pollGatewayForTx: `answers` are what the look-ups would return, one for each allowed attempt. */
  method Poll<T>(answers: seq<Answer<T>>, base: nat, cap: nat) returns (r: Outcome<T>, lookups: nat, waited: nat)
    ensures lookups <= |answers|
    ensures forall k :: 0 <= k < lookups - 1 ==> !Ends(answers[k])
    ensures r.Tx? ==> lookups > 0 && answers[lookups - 1] == Found(r.tx)
    ensures r.Threw? ==> lookups > 0 && answers[lookups - 1].Fatal? && r.attempt == lookups - 1
    ensures r.NotFound? <==> forall k :: 0 <= k < |answers| ==> !Ends(answers[k])
    ensures r.NotFound? ==> lookups == |answers|
    ensures waited == Waited(base, cap, if lookups == 0 then 0 else lookups - 1)
  {
    lookups, waited := 0, 0;
    var i := 0;
    while i < |answers|
      invariant i <= |answers| && lookups == i
      invariant forall k :: 0 <= k < i ==> !Ends(answers[k])
      invariant waited == Waited(base, cap, if i == |answers| && i > 0 then i - 1 else i)
    {
      var a := answers[i];
      lookups := lookups + 1;
      if a.Found? { return Tx(a.tx), lookups, waited; }
      if a.Fatal? { return Threw(i), lookups, waited; }
      if i == |answers| - 1 { return NotFound, lookups, waited; }
      waited := waited + Delay(base, i, cap);
      i := i + 1;
    }
    return NotFound, lookups, waited;
  }

  lemma Twice(base: nat, p: nat)
    ensures base * (2 * p) == 2 * (base * p)
  {
  }

  lemma OneMore(n: nat, cap: nat)
    ensures (n + 1) * cap == n * cap + cap
  {
  }

  lemma Doubled(base: nat, p: nat)
    ensures base * (2 * p - 1) == base * (p - 1) + base * p
  {
  }

  /** Total waiting before look-up `n` is within both bounds: the cap for each wait, and the uncapped geometric sum. */
  lemma {:induction false} WaitedBound(base: nat, cap: nat, n: nat)
    ensures Waited(base, cap, n) <= n * cap
    ensures Waited(base, cap, n) <= base * (Pow2(n) - 1)
  {
    if n > 0 {
      WaitedBound(base, cap, n - 1);
      OneMore(n - 1, cap);
      Doubled(base, Pow2(n - 1));
      assert Delay(base, n - 1, cap) <= cap && Delay(base, n - 1, cap) <= base * Pow2(n - 1);
    }
  }

  /** Once the back-off has reached the cap it stays there: the total grows by exactly the cap for each further wait. */
  lemma {:induction false} CappedGrowth(base: nat, cap: nat, m: nat, n: nat)
    requires base * Pow2(m) >= cap && m <= n
    ensures Waited(base, cap, n) == Waited(base, cap, m) + (n - m) * cap
  {
    if n > m {
      CappedGrowth(base, cap, m, n - 1);
      PowMonotone(base, m, n - 1);
      OneMore(n - 1 - m, cap);
    }
  }

  lemma {:induction false} PowMonotone(base: nat, m: nat, n: nat)
    requires m <= n
    ensures base * Pow2(m) <= base * Pow2(n)
  {
    if m < n {
      PowMonotone(base, m, n - 1);
      Twice(base, Pow2(n - 1));
    }
  }

  /** While no wait reaches the cap, the waits are the exact geometric series. */
  lemma {:induction false} UncappedExact(base: nat, cap: nat, n: nat)
    requires n > 0 ==> base * Pow2(n - 1) <= cap
    ensures Waited(base, cap, n) == base * (Pow2(n) - 1)
  {
    if n > 0 {
      if n > 1 { PowMonotone(base, n - 2, n - 1); }
      UncappedExact(base, cap, n - 1);
      Doubled(base, Pow2(n - 1));
    }
  }
}
