/** The per-address login lockout of the admin service. */
module Lockout {
  type Ip = string

  datatype Entry = Entry(count: int, lockUntil: int)

  datatype LockStatus = LockStatus(locked: bool, retryAfterSec: int)

  /** A positive time in milliseconds as seconds, rounded up. */
  function CeilSeconds(ms: int): int { (ms + 999) / 1000 }

  /** One login request of an address at a time: whether the credentials were right. */
  datatype Login = Login(ip: Ip, at: int, right: bool)

  function EntryOf(failures: map<Ip, Entry>, ip: Ip): Entry {
    if ip in failures then failures[ip] else Entry(0, 0)
  }

  /** A zero lockUntil is "never locked". */
  predicate LockedAt(failures: map<Ip, Entry>, ip: Ip, now: int) {
    ip in failures && failures[ip].lockUntil != 0 && now < failures[ip].lockUntil
  }

  function Recorded(failures: map<Ip, Entry>, ip: Ip, now: int, maximum: int, lockoutMs: int): map<Ip, Entry> {
    var e := EntryOf(failures, ip);
    failures[ip := if e.count + 1 >= maximum then Entry(0, now + lockoutMs) else Entry(e.count + 1, e.lockUntil)]
  }

  class SessionGuard {
    const maximum: int
    const lockoutMs: int
    var failuresByIp: map<Ip, Entry>

    constructor (maximum: int, lockoutMs: int)
      ensures this.maximum == maximum && this.lockoutMs == lockoutMs && failuresByIp == map[]
    {
      this.maximum, this.lockoutMs, failuresByIp := maximum, lockoutMs, map[];
    }

    method StatusOf(ip: Ip, now: int) returns (r: LockStatus)
      ensures r.locked <==> LockedAt(failuresByIp, ip, now)
      ensures r.locked ==> now + 1000 * (r.retryAfterSec - 1) < failuresByIp[ip].lockUntil <= now + 1000 * r.retryAfterSec
      ensures !r.locked ==> r.retryAfterSec == 0
    {
      if ip in failuresByIp && failuresByIp[ip].lockUntil != 0 && now < failuresByIp[ip].lockUntil {
        return LockStatus(true, CeilSeconds(failuresByIp[ip].lockUntil - now));
      }
      return LockStatus(false, 0);
    }

    method RecordFailure(ip: Ip, now: int)
      modifies this
      ensures failuresByIp == Recorded(old(failuresByIp), ip, now, maximum, lockoutMs)
    {
      var entry := if ip in failuresByIp then failuresByIp[ip] else Entry(0, 0);
      entry := entry.(count := entry.count + 1);
      if entry.count >= maximum {
        entry := entry.(lockUntil := now + lockoutMs);
        entry := entry.(count := 0);
      }
      failuresByIp := failuresByIp[ip := entry];
    }

    method ClearFailures(ip: Ip)
      modifies this
      ensures failuresByIp == old(failuresByIp) - {ip}
    {
      failuresByIp := failuresByIp - {ip};
    }

    /** The login route: refused while locked, else checked, recorded or cleared. */
    method HandleLogin(l: Login) returns (refused: bool)
      modifies this
      ensures refused <==> LockedAt(old(failuresByIp), l.ip, l.at)
      ensures failuresByIp == Handle(old(failuresByIp), l, maximum, lockoutMs)
    {
      var status := StatusOf(l.ip, l.at);
      if status.locked { return true; }
      if l.right { ClearFailures(l.ip); } else { RecordFailure(l.ip, l.at); }
      return false;
    }
  }

  // ---------- Whole runs of logins ----------

  function Handle(failures: map<Ip, Entry>, l: Login, maximum: int, lockoutMs: int): map<Ip, Entry> {
    if LockedAt(failures, l.ip, l.at) then failures
    else if l.right then failures - {l.ip}
    else Recorded(failures, l.ip, l.at, maximum, lockoutMs)
  }

  function Run(failures: map<Ip, Entry>, logins: seq<Login>, maximum: int, lockoutMs: int): map<Ip, Entry> {
    if logins == [] then failures
    else Handle(Run(failures, logins[..|logins| - 1], maximum, lockoutMs), logins[|logins| - 1], maximum, lockoutMs)
  }

  /** The times of the failures recorded for an address since its last success, in order. */
  function Streak(logins: seq<Login>, ip: Ip, maximum: int, lockoutMs: int): seq<int> {
    if logins == [] then []
    else
      var before, l := logins[..|logins| - 1], logins[|logins| - 1];
      var streak := Streak(before, ip, maximum, lockoutMs);
      if l.ip != ip || LockedAt(Run(map[], before, maximum, lockoutMs), ip, l.at) then streak
      else if l.right then []
      else streak + [l.at]
  }

  /** Request times do not go back and are positive, as the clock's are. */
  ghost predicate Clocked(logins: seq<Login>) {
    && (forall i :: 0 <= i < |logins| ==> logins[i].at > 0)
    && (forall i, j :: 0 <= i < j < |logins| ==> logins[i].at <= logins[j].at)
  }

  /** Failures counted since the last full batch: the streak's length modulo the maximum. */
  function Phase(n: nat, maximum: nat): (p: nat)
    requires maximum >= 1
    ensures p < maximum && p <= n
  {
    if n == 0 then 0
    else if Phase(n - 1, maximum) + 1 == maximum then 0
    else Phase(n - 1, maximum) + 1
  }

  /** Failure `k` of a streak fills a batch and starts a lock. */
  predicate Completes(k: nat, maximum: nat)
    requires maximum >= 1
  {
    Phase(k + 1, maximum) == 0
  }

  /** The entry of an address tells the length of its streak and when its last lock ends. */
  ghost predicate Tells(e: Entry, streak: seq<int>, maximum: nat, lockoutMs: nat)
    requires maximum >= 1
  {
    && e.count == Phase(|streak|, maximum)
    && (|streak| == Phase(|streak|, maximum) ==> e.lockUntil == 0)
    && (|streak| > Phase(|streak|, maximum) ==> e.lockUntil == streak[|streak| - Phase(|streak|, maximum) - 1] + lockoutMs)
  }

  /** After a failure that filled a batch, the next one recorded is at least the lockout later. */
  ghost predicate Spaced(streak: seq<int>, maximum: nat, lockoutMs: nat)
    requires maximum >= 1
  {
    forall k: nat :: k + 1 < |streak| && Completes(k, maximum) ==> streak[k + 1] >= streak[k] + lockoutMs
  }

  lemma {:induction false} PhaseAhead(i: nat, d: nat, maximum: nat)
    requires maximum >= 1 && Phase(i, maximum) + d < maximum
    ensures Phase(i + d, maximum) == Phase(i, maximum) + d
  {
    if d > 0 { PhaseAhead(i, d - 1, maximum); }
  }

  ghost predicate Ordered(streak: seq<int>, last: int) {
    && (forall i, j :: 0 <= i < j < |streak| ==> streak[i] <= streak[j])
    && (forall i :: 0 <= i < |streak| ==> 0 < streak[i] <= last)
  }

  /** One more recorded failure. */
  lemma FailureKeeps(e: Entry, streak: seq<int>, at: int, maximum: nat, lockoutMs: nat, last: int)
    requires maximum >= 1 && Tells(e, streak, maximum, lockoutMs) && Spaced(streak, maximum, lockoutMs) && Ordered(streak, last)
    requires 0 < at && last <= at && !(e.lockUntil != 0 && at < e.lockUntil)
    ensures var next := if e.count + 1 >= maximum then Entry(0, at + lockoutMs) else Entry(e.count + 1, e.lockUntil);
            && Tells(next, streak + [at], maximum, lockoutMs)
            && Spaced(streak + [at], maximum, lockoutMs)
            && Ordered(streak + [at], at)
  {
    var after := streak + [at];
    forall k: nat | k + 1 < |after| && Completes(k, maximum) ensures after[k + 1] >= after[k] + lockoutMs {
      if k + 1 == |streak| { assert e.lockUntil == streak[k] + lockoutMs; }
    }
  }

  function LastTime(logins: seq<Login>): int { if logins == [] then 0 else logins[|logins| - 1].at }

  /** Over every run of logins, the stored entry tells the address's streak, and locked gaps are kept. */
  lemma {:induction false} RunTells(logins: seq<Login>, ip: Ip, maximum: nat, lockoutMs: nat)
    requires maximum >= 1 && Clocked(logins)
    ensures var streak := Streak(logins, ip, maximum, lockoutMs);
            && Tells(EntryOf(Run(map[], logins, maximum, lockoutMs), ip), streak, maximum, lockoutMs)
            && Spaced(streak, maximum, lockoutMs)
            && Ordered(streak, LastTime(logins))
  {
    if logins != [] {
      var before, l := logins[..|logins| - 1], logins[|logins| - 1];
      RunTells(before, ip, maximum, lockoutMs);
      assert LastTime(before) <= l.at;
      LoginKeeps(Run(map[], before, maximum, lockoutMs), l, ip, Streak(before, ip, maximum, lockoutMs), maximum, lockoutMs,
        LastTime(before));
    }
  }

  /** One login, seen from one address. */
  lemma LoginKeeps(failures: map<Ip, Entry>, l: Login, ip: Ip, streak: seq<int>, maximum: nat, lockoutMs: nat, last: int)
    requires maximum >= 1 && Tells(EntryOf(failures, ip), streak, maximum, lockoutMs)
    requires Spaced(streak, maximum, lockoutMs) && Ordered(streak, last) && 0 < l.at && last <= l.at
    ensures var after := if l.ip != ip || LockedAt(failures, ip, l.at) then streak else if l.right then [] else streak + [l.at];
            && Tells(EntryOf(Handle(failures, l, maximum, lockoutMs), ip), after, maximum, lockoutMs)
            && Spaced(after, maximum, lockoutMs)
            && Ordered(after, l.at)
  {
    if l.ip == ip && !LockedAt(failures, ip, l.at) && !l.right {
      FailureKeeps(EntryOf(failures, ip), streak, l.at, maximum, lockoutMs, last);
    }
  }

  /** The stored count is always below the maximum. */
  lemma CountBelowMaximum(logins: seq<Login>, ip: Ip, maximum: nat, lockoutMs: nat)
    requires maximum >= 1 && Clocked(logins)
    ensures 0 <= EntryOf(Run(map[], logins, maximum, lockoutMs), ip).count < maximum
  {
    RunTells(logins, ip, maximum, lockoutMs);
  }

  /**
   The lockout: any maximum + 1 consecutive recorded failures of an address, with no success between them, span at
   least the lockout time.
   */
  lemma FailuresAreSpread(logins: seq<Login>, ip: Ip, maximum: nat, lockoutMs: nat, i: nat)
    requires maximum >= 1 && Clocked(logins) && i + maximum < |Streak(logins, ip, maximum, lockoutMs)|
    ensures var streak := Streak(logins, ip, maximum, lockoutMs);
            streak[i + maximum] - streak[i] >= lockoutMs
  {
    var streak := Streak(logins, ip, maximum, lockoutMs);
    RunTells(logins, ip, maximum, lockoutMs);
    var d: nat := maximum - 1 - Phase(i, maximum);
    PhaseAhead(i, d, maximum);
    var k := i + d;
    assert Completes(k, maximum);
    assert k + 1 <= i + maximum;
    assert streak[i] <= streak[k] && streak[k + 1] <= streak[i + maximum];
  }

  /** An address is locked exactly while its last full batch of failures is less than the lockout time old. */
  lemma LockedIffBatchRecent(logins: seq<Login>, ip: Ip, maximum: nat, lockoutMs: nat, now: int)
    requires maximum >= 1 && Clocked(logins)
    ensures var streak := Streak(logins, ip, maximum, lockoutMs);
            var full := |streak| - Phase(|streak|, maximum);
            LockedAt(Run(map[], logins, maximum, lockoutMs), ip, now) <==> full > 0 && now < streak[full - 1] + lockoutMs
  {
    RunTells(logins, ip, maximum, lockoutMs);
    var streak := Streak(logins, ip, maximum, lockoutMs);
    var full := |streak| - Phase(|streak|, maximum);
    if full > 0 { assert streak[full - 1] > 0; }
  }
}
