/** Broadcasting one chunk: the node list is shuffled, nodes are tried in turn until one accepts. */
module Failover {
  import opened Wrappers

  type Url = string

  /** Fisher-Yates on a copy. `picks[i]` is the random index drawn when position `i` is filled. */
  method Shuffled<T>(arr: array<T>, picks: seq<nat>) returns (a: array<T>)
    requires |picks| == arr.Length && forall i :: 0 < i < arr.Length ==> picks[i] <= i
    ensures fresh(a) && a.Length == arr.Length
    ensures a[..] == ShuffleDown(arr[..], picks, arr.Length - 1)
    ensures arr[..] == old(arr[..])
  {
    a := new T[arr.Length](i requires 0 <= i < arr.Length reads arr => arr[i]);
    assert a[..] == arr[..];
    var i := a.Length - 1;
    while i > 0
      invariant i < a.Length && fresh(a) && arr[..] == old(arr[..])
      invariant ShuffleDown(a[..], picks, i) == ShuffleDown(arr[..], picks, arr.Length - 1)
    {
      var j := picks[i];
      ghost var before := a[..];
      a[i], a[j] := a[j], a[i];
      assert a[..] == before[i := before[j]][j := before[i]];
      i := i - 1;
    }
  }

  function ShuffleDown<T>(a: seq<T>, picks: seq<nat>, i: int): (r: seq<T>)
    requires i < |a| == |picks| && forall k :: 0 < k < |a| ==> picks[k] <= k
    decreases i
  {
    if i <= 0 then a else ShuffleDown(a[i := a[picks[i]]][picks[i] := a[i]], picks, i - 1)
  }

  /** For every random choice the result is a permutation of the list. */
  lemma {:induction false} ShufflePermutes<T>(a: seq<T>, picks: seq<nat>, i: int)
    requires i < |a| == |picks| && forall k :: 0 < k < |a| ==> picks[k] <= k
    ensures multiset(ShuffleDown(a, picks, i)) == multiset(a) && |ShuffleDown(a, picks, i)| == |a|
    decreases i
  {
    if i > 0 {
      SwapKeeps(a, i, picks[i]);
      ShufflePermutes(a[i := a[picks[i]]][picks[i] := a[i]], picks, i - 1);
    }
  }

  lemma SwapKeeps<T>(a: seq<T>, i: nat, j: nat)
    requires i < |a| && j < |a|
    ensures multiset(a[i := a[j]][j := a[i]]) == multiset(a)
  {
  }

  /**
   Every permutation is a possible outcome: for each target there are picks that produce it, so no node order is
   excluded by the shuffle itself.
   */
  lemma {:induction false} ShuffleReaches<T>(a: seq<T>, target: seq<T>, i: int) returns (picks: seq<nat>)
    requires -1 <= i < |a| == |target| && multiset(a) == multiset(target)
    requires i >= 0 || a == target
    requires forall k :: i < k < |a| ==> a[k] == target[k]
    ensures |picks| == |a| && (forall k :: 0 < k < |a| ==> picks[k] <= k)
    ensures ShuffleDown(a, picks, i) == target
    decreases i
  {
    if i <= 0 {
      picks := seq(|a|, _ => 0);
      if i == 0 { LastMatches(a, target); }
    } else {
      var j := FindFront(a, target, i);
      var b := a[i := a[j]][j := a[i]];
      SwapKeeps(a, i, j);
      var rest := ShuffleReaches(b, target, i - 1);
      picks := rest[i := j];
      PickFirst(a, target, rest, i, j);
    }
  }

  /** Putting the first pick before the picks of the remaining positions. */
  lemma PickFirst<T>(a: seq<T>, target: seq<T>, rest: seq<nat>, i: nat, j: nat)
    requires 0 < i < |a| == |rest| && j <= i && (forall k :: 0 < k < |a| ==> rest[k] <= k)
    requires ShuffleDown(a[i := a[j]][j := a[i]], rest, i - 1) == target
    ensures ShuffleDown(a, rest[i := j], i) == target
  {
    PicksBelow(a[i := a[j]][j := a[i]], rest, rest[i := j], i - 1);
  }

  lemma {:induction false} PicksBelow<T>(a: seq<T>, p: seq<nat>, q: seq<nat>, i: int)
    requires i < |a| == |p| == |q| && (forall k :: 0 < k < |a| ==> p[k] <= k && q[k] <= k)
    requires forall k :: 0 < k <= i ==> p[k] == q[k]
    ensures ShuffleDown(a, p, i) == ShuffleDown(a, q, i)
    decreases i
  {
    if i > 0 { PicksBelow(a[i := a[p[i]]][p[i] := a[i]], p, q, i - 1); }
  }

  lemma PrefixBag<T>(a: seq<T>, b: seq<T>, k: nat)
    requires k <= |a| == |b| && multiset(a) == multiset(b) && a[k..] == b[k..]
    ensures multiset(a[..k]) == multiset(b[..k])
  {
    assert a == a[..k] + a[k..] && b == b[..k] + b[k..];
    assert multiset(a) == multiset(a[..k]) + multiset(a[k..]);
    assert multiset(b) == multiset(b[..k]) + multiset(a[k..]);
    assert multiset(a[..k]) == multiset(a) - multiset(a[k..]);
  }

  lemma LastMatches<T>(a: seq<T>, target: seq<T>)
    requires |a| == |target| > 0 && multiset(a) == multiset(target) && forall k :: 0 < k < |a| ==> a[k] == target[k]
    ensures a == target
  {
    PrefixBag(a, target, 1);
    assert a[0] in multiset(a[..1]);
    assert a[0] in target[..1];
  }

  /** The element wanted at `i` is still among the first `i + 1`. */
  lemma FindFront<T>(a: seq<T>, target: seq<T>, i: nat) returns (j: nat)
    requires i < |a| == |target| && multiset(a) == multiset(target) && forall k :: i < k < |a| ==> a[k] == target[k]
    ensures j <= i && a[j] == target[i]
  {
    PrefixBag(a, target, i + 1);
    assert target[..i + 1][i] == target[i];
    assert target[i] in multiset(target[..i + 1]);
    assert target[i] in a[..i + 1];
    j :| 0 <= j < |a[..i + 1]| && a[..i + 1][j] == target[i];
  }

  // ---------- The failover loop ----------

  datatype Outcome = Accepted(url: Url) | NoNodes | AllRejected

  /** Posts to the nodes in order; `accepts[n]` says whether the n-th post succeeds. `tried` is how many were posted to. */
  method TryNodes(order: array<Url>, accepts: seq<bool>) returns (found: bool, tried: nat)
    requires |accepts| == order.Length
    ensures tried <= order.Length
    ensures found <==> exists n :: 0 <= n < |accepts| && accepts[n]
    ensures found ==> 0 < tried && accepts[tried - 1] && forall n :: 0 <= n < tried - 1 ==> !accepts[n]
    ensures !found ==> tried == order.Length
  {
    tried := 0;
    while tried < order.Length
      invariant tried <= order.Length
      invariant forall k :: 0 <= k < tried ==> !accepts[k]
    {
      tried := tried + 1;
      if accepts[tried - 1] { return true, tried; }
    }
    return false, tried;
  }

  /**
   broadcastChunkToArioNode. `posted` lists the nodes posted to, a prefix of the shuffled list: the node returned is
   the first that accepted; the call throws exactly when there is no node or every node rejects.
   */
  method BroadcastChunk(urls: array<Url>, picks: seq<nat>, accepts: seq<bool>) returns (r: Outcome, posted: seq<Url>)
    requires |picks| == urls.Length == |accepts| && forall i :: 0 < i < urls.Length ==> picks[i] <= i
    ensures posted <= ShuffleDown(urls[..], picks, urls.Length - 1)
    ensures multiset(posted) <= multiset(urls[..]) && urls[..] == old(urls[..])
    ensures r.NoNodes? <==> urls.Length == 0
    ensures r.AllRejected? <==> urls.Length > 0 && forall n :: 0 <= n < |accepts| ==> !accepts[n]
    ensures r.AllRejected? ==> |posted| == urls.Length
    ensures r.Accepted? ==>
              && 0 < |posted| <= urls.Length && r.url == posted[|posted| - 1] && accepts[|posted| - 1]
              && forall n :: 0 <= n < |posted| - 1 ==> !accepts[n]
  {
    if urls.Length == 0 { return NoNodes, []; }
    var order := Shuffled(urls, picks);
    var found, tried := TryNodes(order, accepts);
    posted := order[..tried];
    assert posted == order[..][..tried];
    ShuffledPrefix(urls[..], picks, tried);
    r := if found then Accepted(order[tried - 1]) else AllRejected;
  }

  lemma ShuffledPrefix<T>(a: seq<T>, picks: seq<nat>, n: nat)
    requires n <= |a| == |picks| && forall k :: 0 < k < |a| ==> picks[k] <= k
    ensures n <= |ShuffleDown(a, picks, |a| - 1)|
    ensures multiset(ShuffleDown(a, picks, |a| - 1)[..n]) <= multiset(a)
  {
    ShufflePermutes(a, picks, |a| - 1);
    PrefixWithin(ShuffleDown(a, picks, |a| - 1), n);
  }

  lemma PrefixWithin<T>(s: seq<T>, n: nat)
    requires n <= |s|
    ensures multiset(s[..n]) <= multiset(s)
  {
    assert s == s[..n] + s[n..];
  }

  /** Distinct nodes are posted to at most once each. */
  lemma PostedOnce(urls: seq<Url>, posted: seq<Url>)
    requires multiset(posted) <= multiset(urls) && forall i, j :: 0 <= i < j < |urls| ==> urls[i] != urls[j]
    ensures forall i, j :: 0 <= i < j < |posted| ==> posted[i] != posted[j]
  {
    forall i, j | 0 <= i < j < |posted| ensures posted[i] != posted[j] {
      if posted[i] == posted[j] {
        assert posted == posted[..j] + [posted[j]] + posted[j + 1..];
        assert posted[..j][i] == posted[j];
        assert multiset(posted)[posted[j]] >= 2;
        DistinctOnce(urls, posted[j]);
      }
    }
  }

  lemma {:induction false} DistinctOnce<T>(s: seq<T>, x: T)
    requires forall i, j :: 0 <= i < j < |s| ==> s[i] != s[j]
    ensures multiset(s)[x] <= 1
  {
    if s != [] {
      DistinctOnce(s[1..], x);
      assert s == [s[0]] + s[1..];
    }
  }
}
