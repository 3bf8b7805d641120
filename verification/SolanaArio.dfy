/**
 The gateway to the name registry: the ordered effects of one purchase, the read that confirms it, and the check
 of a write that threw. The registry itself is the `chain` field; whether a call throws or lands is an argument.
 */
module SolanaArio {
  import opened Wrappers
  import opened Ledger

  type Name = string

  /** A name's record; only a lease has an end. */
  datatype Record = Record(ant: Id, permabuy: bool, end: Option<int>, limit: int)

  datatype Intent = BuyName | BuyRecord | UpgradeName | ExtendLease | IncreaseUndernameLimit | Unknown

  datatype Purchase = Purchase(name: Name, intent: Intent, lease: bool, process: Option<Id>, years: Option<nat>, increaseQty: Option<nat>)

  /** Calls that reached the outside, in order. A buy says whether its ANT was spawned for it. */
  datatype Call = Spawned(ant: Id) | Persisted(ant: Id) | Submitted(write: Write, spawned: bool)

  datatype Write =
    | Buy(name: Name, ant: Id, lease: bool, years: nat)
    | Upgrade(name: Name)
    | Extend(name: Name, years: nat)
    | Increase(name: Name, count: nat)

  /** What the outside answers: the spawned ANT (None: it throws), and whether persisting and the write succeed. */
  datatype Answers = Answers(spawn: Option<Id>, persists: bool, lands: bool, replies: bool)

  datatype Problem = BadRequest | Threw

  function Lookup(chain: map<Name, Record>, name: Name): Option<Record> { if name in chain then Some(chain[name]) else None }

  /** The registry's own terms: its clock, the undernames a new name starts with, the length of a year. */
  datatype Terms = Terms(now: int, undernames: int, yearMs: nat)

  /** The registry refuses a write that makes no sense; a refused write cannot land. */
  predicate Accepts(chain: map<Name, Record>, w: Write) {
    match w
    case Buy(name, _, _, _) => name !in chain
    case Upgrade(name) => name in chain && !chain[name].permabuy
    case Extend(name, years) => name in chain && chain[name].end.Some? && years >= 1
    case Increase(name, count) => name in chain && count >= 1
  }

  function Landed(chain: map<Name, Record>, w: Write, t: Terms): map<Name, Record>
    requires Accepts(chain, w)
  {
    match w
    case Buy(name, ant, lease, years) =>
      var end := if lease then Some(t.now + years * t.yearMs) else None;
      chain[name := Record(ant, !lease, end, t.undernames)]
    case Upgrade(name) => chain[name := chain[name].(permabuy := true, end := None)]
    case Extend(name, years) => chain[name := chain[name].(end := Some(chain[name].end.value + years * t.yearMs))]
    case Increase(name, count) => chain[name := chain[name].(limit := chain[name].limit + count)]
  }

  /** The write a purchase asks for, once its ANT is known; a missing quantity is refused before anything is sent. */
  function WriteOf(p: Purchase, ant: Id): Result<Write, Problem> {
    match p.intent
    case BuyName => Ok(Buy(p.name, ant, p.lease, if p.years.Some? then p.years.value else 0))
    case BuyRecord => Ok(Buy(p.name, ant, p.lease, if p.years.Some? then p.years.value else 0))
    case UpgradeName => Ok(Upgrade(p.name))
    case ExtendLease => if p.years.Some? then Ok(Extend(p.name, p.years.value)) else Err(BadRequest)
    case IncreaseUndernameLimit => if p.increaseQty.Some? then Ok(Increase(p.name, p.increaseQty.value)) else Err(BadRequest)
    case Unknown => Err(BadRequest)
  }

  predicate Buys(i: Intent) { i.BuyName? || i.BuyRecord? }

  /** A buy for a spawned ANT comes right after that ANT was persisted. */
  ghost predicate PersistFirst(calls: seq<Call>) {
    forall j :: 0 <= j < |calls| && calls[j].Submitted? && calls[j].spawned ==>
      calls[j].write.Buy? && 0 < j && calls[j - 1] == Persisted(calls[j].write.ant)
  }

  predicate Spawns(p: Purchase) { Buys(p.intent) && p.process.None? }

  /** The ANT a purchase names on chain; a buy has none if its spawn or its persist throws. */
  function AntFor(p: Purchase, a: Answers): Option<Id> {
    if p.process.Some? then p.process
    else if !Buys(p.intent) then Some("")
    else if a.persists then a.spawn
    else None
  }

  predicate CanLand(chain: map<Name, Record>, p: Purchase, a: Answers) {
    a.lands && AntFor(p, a).Some? && WriteOf(p, AntFor(p, a).value).Ok? && Accepts(chain, WriteOf(p, AntFor(p, a).value).value)
  }

  // ---------- What an order asks for, in its own terms ----------

  /** The order is complete, has an ANT where it needs one, and the registry accepts it as things stand. */
  predicate Orderable(chain: map<Name, Record>, p: Purchase, a: Answers) {
    match p.intent
    case BuyName => p.name !in chain && (p.process != None || (a.spawn != None && a.persists))
    case BuyRecord => p.name !in chain && (p.process != None || (a.spawn != None && a.persists))
    case UpgradeName => p.name in chain && !chain[p.name].permabuy
    case ExtendLease => p.name in chain && chain[p.name].end != None && p.years != None && p.years.value > 0
    case IncreaseUndernameLimit => p.name in chain && p.increaseQty != None && p.increaseQty.value > 0
    case Unknown => false
  }

  /** A name was bought as ordered: for the ANT supplied or else spawned, for good or for the years of the lease. */
  ghost predicate Bought(p: Purchase, a: Answers, r: Record, t: Terms) {
    && r.ant == (if p.process != None then p.process.value else if a.spawn != None then a.spawn.value else "")
    && (r.permabuy <==> !p.lease) && (r.end == None <==> !p.lease)
    && (p.lease && p.years != None ==> r.end == Some(t.now + p.years.value * t.yearMs))
    && r.limit == t.undernames
  }

  /** What a landed order leaves on chain: its own name changed as ordered, every other name as it was. */
  ghost predicate Delivered(p: Purchase, a: Answers, before: map<Name, Record>, after: map<Name, Record>, t: Terms) {
    && after.Keys == before.Keys + {p.name}
    && (forall n :: n in before && n != p.name ==> after[n] == before[n])
    && (match p.intent
        case BuyName => p.name !in before && Bought(p, a, after[p.name], t)
        case BuyRecord => p.name !in before && Bought(p, a, after[p.name], t)
        case UpgradeName =>
          p.name in before && after[p.name] == Record(before[p.name].ant, true, None, before[p.name].limit)
        case ExtendLease =>
          && p.name in before && p.years != None && before[p.name].end != None
          && after[p.name] == before[p.name].(end := Some(before[p.name].end.value + p.years.value * t.yearMs))
        case IncreaseUndernameLimit =>
          && p.name in before && p.increaseQty != None
          && after[p.name] == before[p.name].(limit := before[p.name].limit + p.increaseQty.value)
        case Unknown => false)
  }

  /** The write a purchase asks for is accepted exactly when it is orderable, and delivers what was ordered. */
  lemma Orders(chain: map<Name, Record>, p: Purchase, a: Answers, t: Terms)
    ensures CanLand(chain, p, a) <==> Orderable(chain, p, a) && a.lands
    ensures CanLand(chain, p, a) ==> Delivered(p, a, chain, Landed(chain, WriteOf(p, AntFor(p, a).value).value, t), t)
  {
  }

  class Gateway {
    var chain: map<Name, Record>
    var recordCache: map<Name, Option<Record>>
    var calls: seq<Call>

    constructor (chain: map<Name, Record>)
      ensures this.chain == chain && recordCache == map[] && calls == []
    {
      this.chain, recordCache, calls := chain, map[], [];
    }

    /** The read of the price check: served from the cache while it holds an entry. */
    method CachedRecord(name: Name) returns (r: Option<Record>)
      modifies `recordCache
      ensures r == if name in old(recordCache) then old(recordCache)[name] else Lookup(chain, name)
      ensures recordCache == old(recordCache)[name := r]
    {
      if name !in recordCache { recordCache := recordCache[name := Lookup(chain, name)]; }
      r := recordCache[name];
    }

    /** getArNSRecord: whatever the cache holds, the answer is what the chain holds now. */
    method GetArNSRecord(name: Name) returns (r: Option<Record>)
      modifies `recordCache
      ensures r == Lookup(chain, name)
      ensures recordCache == old(recordCache)[name := r]
    {
      recordCache := recordCache - {name};
      r := CachedRecord(name);
    }

    /** One write: it can land although the call throws, and cannot return without having landed. */
    method Submit(w: Write, spawned: bool, a: Answers, t: Terms) returns (ok: bool)
      requires PersistFirst(calls)
      requires spawned ==> w.Buy? && calls != [] && calls[|calls| - 1] == Persisted(w.ant)
      modifies `chain, `calls
      ensures calls == old(calls) + [Submitted(w, spawned)] && PersistFirst(calls)
      ensures chain == if Accepts(old(chain), w) && a.lands then Landed(old(chain), w, t) else old(chain)
      ensures ok <==> Accepts(old(chain), w) && a.lands && a.replies
    {
      calls := calls + [Submitted(w, spawned)];
      if !Accepts(chain, w) || !a.lands { return false; }
      chain := Landed(chain, w, t);
      return a.replies;
    }

    /** The ANT of a purchase: supplied, or for a buy spawned and then persisted. */
    method ProvideAnt(p: Purchase, a: Answers) returns (ant: Option<Id>, spawned: bool)
      requires PersistFirst(calls)
      modifies `calls
      ensures PersistFirst(calls) && old(calls) <= calls && forall c :: c in calls[|old(calls)|..] ==> !c.Submitted?
      ensures ant == AntFor(p, a)
      ensures spawned <==> Spawns(p) && ant.Some?
      ensures spawned ==> calls == old(calls) + [Spawned(ant.value), Persisted(ant.value)]
      ensures !Spawns(p) ==> calls == old(calls)
    {
      if p.process.Some? { return p.process, false; }
      if !Buys(p.intent) { return Some(""), false; }
      if a.spawn.None? { return None, false; }
      calls := calls + [Spawned(a.spawn.value)];
      if !a.persists { return None, false; }
      calls := calls + [Persisted(a.spawn.value)];
      return a.spawn, true;
    }

    /**
     initiateArNSPurchase. A buy without an ANT spawns one and persists its id before it submits the buy; if either
     throws, nothing is submitted. Success means that the write landed, and drops the name from the cache; after a
     throw the cache is as before, so it may be stale.
     */
    method InitiateArNSPurchase(p: Purchase, a: Answers, t: Terms) returns (r: Result<Option<Id>, Problem>)
      requires PersistFirst(calls)
      modifies this
      ensures PersistFirst(calls) && old(calls) <= calls
      ensures r.Ok? ==> recordCache == old(recordCache) - {p.name}
      ensures r.Err? ==> recordCache == old(recordCache)
      ensures chain == if CanLand(old(chain), p, a) then Landed(old(chain), WriteOf(p, AntFor(p, a).value).value, t) else old(chain)
      ensures r.Ok? <==> CanLand(old(chain), p, a) && a.replies
      ensures r.Ok? ==> r.value == if Spawns(p) then AntFor(p, a) else None
      ensures r.Ok? <==> Orderable(old(chain), p, a) && a.lands && a.replies
      ensures chain == old(chain) || (Orderable(old(chain), p, a) && a.lands && Delivered(p, a, old(chain), chain, t))
      ensures r.Ok? ==> Delivered(p, a, old(chain), chain, t)
      ensures r.Ok? && p.process == None && (p.intent == BuyName || p.intent == BuyRecord) ==>
                && r.value == a.spawn && a.spawn != None && |calls| > 0 && calls[|calls| - 1].Submitted?
                && calls[..|calls| - 1] == old(calls) + [Spawned(a.spawn.value), Persisted(a.spawn.value)]
      ensures r.Ok? && !(p.process == None && (p.intent == BuyName || p.intent == BuyRecord)) ==>
                r.value == None && |calls| > 0 && calls[|calls| - 1].Submitted? && calls[..|calls| - 1] == old(calls)
      ensures AntFor(p, a).None? ==> r == Err(Threw) && forall c :: c in calls[|old(calls)|..] ==> !c.Submitted?
    {
      Orders(chain, p, a, t);
      var ant, spawned := ProvideAnt(p, a);
      if ant.None? { return Err(Threw); }
      var w := WriteOf(p, ant.value);
      if w.Err? { return Err(w.error); }
      var ok := Submit(w.value, spawned, a, t);
      if !ok { return Err(Threw); }
      recordCache := recordCache - {p.name};
      return Ok(if spawned then ant else None);
    }

    /** confirmArNSWriteLanded: up to `|readable|` reads; `readable[k]` says whether read k answers. */
    method ConfirmWriteLanded(p: Purchase, ant: Option<Id>, before: Before, readable: seq<bool>) returns (landed: bool)
      modifies `recordCache
      ensures landed <==> true in readable && Confirms(p.intent, ant, before, Lookup(chain, p.name))
    {
      var k := 0;
      while k < |readable|
        invariant k <= |readable| && true !in readable[..k]
      {
        if readable[k] {
          var record := GetArNSRecord(p.name);
          return Confirms(p.intent, ant, before, record);
        }
        k := k + 1;
      }
      assert readable[..k] == readable;
      return false;
    }
  }

  // ---------- Confirming a write that threw ----------

  /** What was read before the write; None where the read failed or there was nothing to read. */
  datatype Before = Before(end: Option<int>, limit: Option<int>)

  predicate Confirms(i: Intent, ant: Option<Id>, before: Before, record: Option<Record>) {
    match i
    case BuyName => ant.Some? && record.Some? && record.value.ant == ant.value
    case BuyRecord => ant.Some? && record.Some? && record.value.ant == ant.value
    case UpgradeName => record.Some? && record.value.permabuy
    case ExtendLease => before.end.Some? && record.Some? && record.value.end.Some? && record.value.end.value > before.end.value
    case IncreaseUndernameLimit => before.limit.Some? && record.Some? && record.value.limit > before.limit.value
    case Unknown => false
  }

  function BeforeOf(chain: map<Name, Record>, name: Name): Before {
    if name in chain then Before(chain[name].end, Some(chain[name].limit)) else Before(None, None)
  }

  /**
   Where nobody else writes the name meanwhile and the record was read before, the check is exact: an accepted
   write is confirmed if and only if it landed.
   */
  lemma ConfirmExact(chain: map<Name, Record>, p: Purchase, ant: Id, lands: bool, t: Terms)
    requires WriteOf(p, ant).Ok? && Accepts(chain, WriteOf(p, ant).value) && t.yearMs >= 1
    ensures var after := if lands then Landed(chain, WriteOf(p, ant).value, t) else chain;
            Confirms(p.intent, Some(ant), BeforeOf(chain, p.name), Lookup(after, p.name)) <==> lands
  {
    var w := WriteOf(p, ant).value;
    if w.Extend? { GrowsByYears(w.years, t.yearMs); }
  }

  /** The tables after accepted writes, in order, by whoever sent them; None if one of them is refused. */
  function LandAll(chain: map<Name, Record>, writes: seq<Write>, t: Terms): Option<map<Name, Record>> {
    if writes == [] then Some(chain) else
      var last := |writes| - 1;
      var before := LandAll(chain, writes[..last], t);
      if before.Some? && Accepts(before.value, writes[last]) then Some(Landed(before.value, writes[last], t)) else None
  }

  /** A write that has the effect `w` is confirmed by: the same kind on the same name, and for a buy the same ANT. */
  predicate Competes(w: Write, v: Write) {
    v.name == w.name && match w
                        case Buy(_, ant, _, _) => v.Buy? && v.ant == ant
                        case Upgrade(_) => v.Upgrade?
                        case Extend(_, _) => v.Extend?
                        case Increase(_, _) => v.Increase?
  }

  predicate Shows(w: Write, writes: seq<Write>) {
    (exists v :: v in writes && Competes(w, v)) && (w.Extend? ==> Upgrade(w.name) !in writes)
  }

  /**
   With any writes between the two reads, by anybody, a write is confirmed if and only if one of its kind is among
   them and, for an extension, no upgrade is. So a "yes" is wrong exactly when only others' writes compete, and a
   "no" exactly when an upgrade took the end of an extended lease away.
   */
  lemma ConfirmedExactly(chain: map<Name, Record>, p: Purchase, ant: Id, writes: seq<Write>, t: Terms)
    requires WriteOf(p, ant).Ok? && Accepts(chain, WriteOf(p, ant).value) && t.yearMs >= 1
    requires LandAll(chain, writes, t).Some?
    ensures Confirms(p.intent, Some(ant), BeforeOf(chain, p.name), Lookup(LandAll(chain, writes, t).value, p.name))
       <==> Shows(WriteOf(p, ant).value, writes)
  {
    var w := WriteOf(p, ant).value;
    if w.Buy? { BuyTells(chain, w.name, ant, writes, t); } else { RecordTells(chain, w.name, writes, t); }
  }

  /** A free name is bought at most once, for good. */
  lemma {:induction false} BuyTells(chain: map<Name, Record>, name: Name, ant: Id, writes: seq<Write>, t: Terms)
    requires name !in chain && LandAll(chain, writes, t).Some?
    ensures var after := LandAll(chain, writes, t).value;
            (name in after <==> exists v :: v in writes && v.Buy? && v.name == name) &&
            (name in after && after[name].ant == ant <==> exists v :: v in writes && v.Buy? && v.name == name && v.ant == ant)
  {
    if writes != [] {
      var last := |writes| - 1;
      BuyTells(chain, name, ant, writes[..last], t);
      assert writes == writes[..last] + [writes[last]];
    }
  }

  /** What writes leave of the record of a name that was taken before. */
  lemma {:induction false} RecordTells(chain: map<Name, Record>, name: Name, writes: seq<Write>, t: Terms)
    requires name in chain && t.yearMs >= 1 && LandAll(chain, writes, t).Some?
    ensures var after := LandAll(chain, writes, t).value;
            name in after &&
            (after[name].permabuy <==> chain[name].permabuy || Upgrade(name) in writes) &&
            after[name].limit >= chain[name].limit &&
            (after[name].limit > chain[name].limit <==> exists v :: v in writes && v.Increase? && v.name == name) &&
            (chain[name].end.Some? && Upgrade(name) !in writes ==>
               after[name].end.Some? && after[name].end.value >= chain[name].end.value &&
               (after[name].end.value > chain[name].end.value <==> exists v :: v in writes && v.Extend? && v.name == name)) &&
            (Upgrade(name) in writes ==> after[name].end.None?)
  {
    if writes != [] {
      var last := |writes| - 1;
      RecordTells(chain, name, writes[..last], t);
      assert writes == writes[..last] + [writes[last]];
      if writes[last].Extend? && writes[last].name == name {
        assert Accepts(LandAll(chain, writes[..last], t).value, writes[last]);
        GrowsByYears(writes[last].years, t.yearMs);
      }
    }
  }

  lemma GrowsByYears(years: nat, yearMs: nat)
    requires years >= 1 && yearMs >= 1
    ensures years * yearMs >= 1
  {
  }

  /** If that first read failed, a landed extension or increase is never confirmed, so it is refunded. */
  lemma UnreadBeforeNeverConfirms(chain: map<Name, Record>, p: Purchase, ant: Id, t: Terms)
    requires (p.intent.ExtendLease? || p.intent.IncreaseUndernameLimit?)
    requires WriteOf(p, ant).Ok? && Accepts(chain, WriteOf(p, ant).value)
    ensures !Confirms(p.intent, Some(ant), Before(None, None), Lookup(Landed(chain, WriteOf(p, ant).value, t), p.name))
  {
  }

  /** Only what the registry shows of a known intent confirms it; a missing record confirms nothing. */
  lemma ConfirmsKnown(p: Purchase, ant: Option<Id>, before: Before, record: Option<Record>)
    requires Confirms(p.intent, ant, before, record)
    ensures p.intent != Unknown && record.Some?
    ensures p.intent == BuyName || p.intent == BuyRecord ==> ant == Some(record.value.ant)
    ensures p.intent == UpgradeName ==> record.value.permabuy
  {
  }

  /** Why the confirming read evicts: after a price check, the cached read denies a buy that landed and threw. */
  method CachedReadDenies(g: Gateway, p: Purchase, ant: Id, t: Terms) returns (cached: Option<Record>, evicted: Option<Record>)
    requires Buys(p.intent) && p.process == Some(ant) && p.name !in g.chain && p.name !in g.recordCache && PersistFirst(g.calls)
    modifies g
    ensures !Confirms(p.intent, Some(ant), Before(None, None), cached)
    ensures Confirms(p.intent, Some(ant), Before(None, None), evicted)
  {
    var price := g.CachedRecord(p.name);
    var threw := g.InitiateArNSPurchase(p, Answers(None, false, true, false), t);
    assert threw.Err?;
    cached := g.CachedRecord(p.name);
    evicted := g.GetArNSRecord(p.name);
  }
}
