/** The health alerter: debounce, fire, remind and resolve, one state per issue key. */
module Alerter {
  import opened Wrappers

  type Key = string

  datatype Severity = Critical | Warning

  datatype Issue = Issue(severity: Severity, title: string, minConsecutive: nat)

  datatype Kind = Fire | Remind | Resolve

  datatype Tone = Alarm(severity: Severity) | Recovered

  datatype Note = Note(key: Key, kind: Kind, at: int, tone: Tone)

  datatype State = State(hits: nat, firing: bool, firstFiredAt: int, lastNotified: int, issue: Issue)

  /** Quiet hours from `start` up to `end`, server-local. */
  datatype Quiet = Quiet(start: int, end: int)

  datatype Config = Config(reminderMs: int, warningReminderMs: int, quiet: Option<Quiet>)

  // ---------- Quiet hours ----------

  predicate InQuietHours(config: Config, hour: int) {
    if config.quiet.None? then false
    else
      var Quiet(start, end) := config.quiet.value;
      if start <= end then start <= hour < end else hour >= start || hour < end
  }

  /** The window is the (end - start) mod 24 hours that follow `start` around the clock; without one no hour is quiet. */
  lemma QuietWindow(config: Config, hour: int)
    requires config.quiet.Some? ==> 0 <= config.quiet.value.start < 24 && 0 <= config.quiet.value.end < 24
    requires 0 <= hour < 24
    ensures InQuietHours(config, hour) <==>
            config.quiet.Some? && (var Quiet(start, end) := config.quiet.value; (hour - start) % 24 < (end - start) % 24)
  {
  }

  // ---------- One key, one check ----------

  /** What a check sees of a key: the issue, if present, the time, and whether warnings are deferred. */
  datatype Sight = Sight(issue: Option<Issue>, at: int, quiet: bool)

  function Needed(i: Issue): nat { if i.minConsecutive == 0 then 1 else i.minConsecutive }

  function Cadence(config: Config, i: Issue): int { if i.severity.Critical? then config.reminderMs else config.warningReminderMs }

  predicate Deferred(s: Sight) { s.issue.Some? && s.issue.value.severity.Warning? && s.quiet }

  /** The key's state after a check, and the notification sent for it, if any. */
  function CheckKey(config: Config, st: Option<State>, s: Sight): (Option<State>, Option<Kind>) {
    if s.issue.None? then (None, if st.Some? && st.value.firing then Some(Resolve) else None)
    else
      var i := s.issue.value;
      var seen := if st.Some? then st.value.(hits := st.value.hits + 1, issue := i) else State(1, false, 0, 0, i);
      if !seen.firing then
        if seen.hits >= Needed(i) && !Deferred(s) then
          (Some(seen.(firing := true, firstFiredAt := s.at, lastNotified := s.at)), Some(Fire))
        else (Some(seen), None)
      else if Cadence(config, i) > 0 && s.at - seen.lastNotified >= Cadence(config, i) && !Deferred(s) then
        (Some(seen.(lastNotified := s.at)), Some(Remind))
      else (Some(seen), None)
  }

  // ---------- One key over a run ----------

  function StateAfter(config: Config, sights: seq<Sight>): Option<State> {
    if sights == [] then None
    else CheckKey(config, StateAfter(config, sights[..|sights| - 1]), sights[|sights| - 1]).0
  }

  /** The notification of the last check of a run. */
  function Last(config: Config, sights: seq<Sight>): Option<Kind>
    requires sights != []
  {
    CheckKey(config, StateAfter(config, sights[..|sights| - 1]), sights[|sights| - 1]).1
  }

  /** All notifications of a run, in order. */
  function Sent(config: Config, sights: seq<Sight>): seq<Kind> {
    if sights == [] then []
    else if Last(config, sights).Some? then Sent(config, sights[..|sights| - 1]) + [Last(config, sights).value]
    else Sent(config, sights[..|sights| - 1])
  }

  // ---------- Reference definitions, from the sightings alone ----------

  /** Consecutive checks, up to now, that saw the issue. */
  function Sightings(sights: seq<Sight>): nat {
    if sights == [] || sights[|sights| - 1].issue.None? then 0 else 1 + Sightings(sights[..|sights| - 1])
  }

  /** Some check of these consecutive sightings had seen it often enough, and it was not a warning in quiet hours. */
  predicate Announced(sights: seq<Sight>) {
    sights != [] && sights[|sights| - 1].issue.Some?
    && (Announced(sights[..|sights| - 1])
        || (Sightings(sights) >= Needed(sights[|sights| - 1].issue.value) && !Deferred(sights[|sights| - 1])))
  }

  /** The last check is a note: the first to announce, or one whose cadence has passed since the note before it. */
  predicate NoteDue(config: Config, sights: seq<Sight>)
    requires sights != []
    decreases |sights|, 1
  {
    var past, s := sights[..|sights| - 1], sights[|sights| - 1];
    s.issue.Some? && !Deferred(s)
    && (if Announced(past) then Cadence(config, s.issue.value) > 0 && s.at - LastNoteAt(config, past) >= Cadence(config, s.issue.value)
        else Sightings(sights) >= Needed(s.issue.value))
  }

  /** When it was last announced or reminded of. */
  function LastNoteAt(config: Config, sights: seq<Sight>): int
    decreases |sights|, 2
  {
    if sights == [] then 0
    else if NoteDue(config, sights) then sights[|sights| - 1].at
    else LastNoteAt(config, sights[..|sights| - 1])
  }

  /** The tracked state says just this much about the past. */
  lemma {:induction false} StateTells(config: Config, sights: seq<Sight>)
    ensures var st := StateAfter(config, sights);
            && (st.Some? <==> Sightings(sights) > 0)
            && (st.Some? ==> st.value.hits == Sightings(sights) && st.value.issue == sights[|sights| - 1].issue.value)
            && (Announced(sights) <==> st.Some? && st.value.firing)
            && (Announced(sights) ==> st.value.lastNotified == LastNoteAt(config, sights))
  {
    if sights != [] { StateTells(config, sights[..|sights| - 1]); }
  }

  /**
   When notifications are sent, for every run of checks. A fire: at least the needed number of consecutive
   sightings, not yet announced, not a warning in quiet hours. A reminder: already announced, the cadence has
   passed since the last note, not a warning in quiet hours. A resolve: at the first absence after an announcement.
   */
  lemma WhenNotified(config: Config, past: seq<Sight>, s: Sight)
    ensures var sights := past + [s];
            && (Last(config, sights) == Some(Fire) <==>
                  s.issue.Some? && !Announced(past) && Sightings(sights) >= Needed(s.issue.value) && !Deferred(s))
            && (Last(config, sights) == Some(Remind) <==>
                  && s.issue.Some? && Announced(past) && !Deferred(s)
                  && Cadence(config, s.issue.value) > 0 && s.at - LastNoteAt(config, past) >= Cadence(config, s.issue.value))
            && (Last(config, sights) == Some(Resolve) <==> s.issue.None? && Announced(past))
  {
    var sights := past + [s];
    assert sights[..|sights| - 1] == past;
    StateTells(config, past);
  }

  /** Where (fire, remind*, resolve)* stands: None if the notes do not have that form, else whether one is open. */
  function Grammar(notes: seq<Kind>): Option<bool> {
    if notes == [] then Some(false)
    else
      var before := Grammar(notes[..|notes| - 1]);
      match notes[|notes| - 1]
      case Fire => if before == Some(false) then Some(true) else None
      case Remind => if before == Some(true) then Some(true) else None
      case Resolve => if before == Some(true) then Some(false) else None
  }

  lemma GrammarAppend(notes: seq<Kind>, k: Kind)
    ensures Grammar(notes + [k]) ==
            var before := Grammar(notes);
            match k
            case Fire => if before == Some(false) then Some(true) else None
            case Remind => if before == Some(true) then Some(true) else None
            case Resolve => if before == Some(true) then Some(false) else None
  {
    assert (notes + [k])[..|notes|] == notes;
  }

  /** An announcement starts with a fire and ends with the sightings. */
  lemma AnnouncedStep(config: Config, past: seq<Sight>, s: Sight)
    ensures Announced(past + [s]) <==> s.issue.Some? && (Announced(past) || Last(config, past + [s]) == Some(Fire))
  {
    WhenNotified(config, past, s);
    assert (past + [s])[..|past|] == past;
  }

  lemma SentStep(config: Config, past: seq<Sight>, s: Sight)
    ensures Sent(config, past + [s]) == Sent(config, past) + AsSeq(Last(config, past + [s]))
  {
    assert (past + [s])[..|past|] == past;
  }

  lemma NotesStep(config: Config, past: seq<Sight>, s: Sight)
    requires Grammar(Sent(config, past)) == Some(Announced(past))
    ensures Grammar(Sent(config, past + [s])) == Some(Announced(past + [s]))
  {
    WhenNotified(config, past, s);
    AnnouncedStep(config, past, s);
    SentStep(config, past, s);
    match Last(config, past + [s])
    case Some(k) => GrammarAppend(Sent(config, past), k);
    case None =>
  }

  /** Over every run, a key's notifications have the form (fire, remind*, resolve)*, and one is open while it is announced. */
  lemma {:induction false} NotesWellFormed(config: Config, sights: seq<Sight>)
    ensures Grammar(Sent(config, sights)) == Some(Announced(sights))
  {
    if sights != [] {
      var past, s := sights[..|sights| - 1], sights[|sights| - 1];
      assert sights == past + [s];
      NotesWellFormed(config, past);
      NotesStep(config, past, s);
    }
  }

  /** A fire is preceded by the needed number of sightings in a row. */
  lemma FireNeedsSightings(config: Config, sights: seq<Sight>)
    requires sights != [] && Last(config, sights) == Some(Fire)
    ensures var n := Needed(sights[|sights| - 1].issue.value);
            n <= |sights| && forall k :: |sights| - n <= k < |sights| ==> sights[k].issue.Some?
  {
    var past, s := sights[..|sights| - 1], sights[|sights| - 1];
    assert sights == past + [s];
    WhenNotified(config, past, s);
    SightingsAre(sights);
  }

  lemma {:induction false} SightingsAre(sights: seq<Sight>)
    ensures Sightings(sights) <= |sights|
    ensures forall k :: |sights| - Sightings(sights) <= k < |sights| ==> sights[k].issue.Some?
    ensures Sightings(sights) < |sights| ==> sights[|sights| - Sightings(sights) - 1].issue.None?
  {
    if sights != [] { SightingsAre(sights[..|sights| - 1]); }
  }

  ghost predicate Clocked(sights: seq<Sight>) { forall i, j :: 0 <= i < j < |sights| ==> sights[i].at <= sights[j].at }

  /** With a clock that does not go back, a reminder follows every earlier note of its announcement by its cadence. */
  lemma {:induction false} NotesSpaced(config: Config, past: seq<Sight>, s: Sight, k: nat)
    requires Clocked(past) && k < |past| && Last(config, past + [s]) == Some(Remind)
    requires Last(config, past[..k + 1]) == Some(Fire) || Last(config, past[..k + 1]) == Some(Remind)
    ensures s.at - past[k].at >= Cadence(config, s.issue.value)
  {
    WhenNotified(config, past, s);
    NoteBefore(config, past, k);
  }

  lemma {:induction false} NoteBefore(config: Config, sights: seq<Sight>, k: nat)
    requires Clocked(sights) && k < |sights|
    requires Last(config, sights[..k + 1]) == Some(Fire) || Last(config, sights[..k + 1]) == Some(Remind)
    ensures sights[k].at <= LastNoteAt(config, sights)
  {
    var past := sights[..|sights| - 1];
    assert sights == past + [sights[|sights| - 1]];
    WhenNotified(config, past, sights[|sights| - 1]);
    if k == |sights| - 1 {
      assert sights[..k + 1] == sights;
    } else {
      assert past[..k + 1] == sights[..k + 1];
      NoteBefore(config, past, k);
    }
  }

  // ---------- evaluate ----------

  datatype Entry = Entry(key: Key, issue: Issue)

  function Lookup(current: seq<Entry>, key: Key): Option<Issue> {
    if current == [] then None else if current[0].key == key then Some(current[0].issue) else Lookup(current[1..], key)
  }

  ghost predicate DistinctKeys(current: seq<Entry>) { forall i, j :: 0 <= i < j < |current| ==> current[i].key != current[j].key }

  function Get(tracked: map<Key, State>, key: Key): Option<State> { if key in tracked then Some(tracked[key]) else None }

  function KindsFor(notes: seq<Note>, key: Key): seq<Kind> {
    if notes == [] then []
    else KindsFor(notes[..|notes| - 1], key) + (if notes[|notes| - 1].key == key then [notes[|notes| - 1].kind] else [])
  }

  function AsSeq(k: Option<Kind>): seq<Kind> { if k.Some? then [k.value] else [] }

  lemma {:induction false} LookupNew(done: seq<Entry>, e: Entry)
    requires DistinctKeys(done + [e])
    ensures Lookup(done, e.key).None?
  {
    if done != [] {
      assert (done + [e])[0] == done[0] && (done + [e])[|done|] == e;
      assert (done + [e])[1..] == done[1..] + [e];
      LookupNew(done[1..], e);
    }
  }

  lemma {:induction false} LookupAppend(done: seq<Entry>, e: Entry, key: Key)
    ensures Lookup(done + [e], key) == if Lookup(done, key).None? && key == e.key then Some(e.issue) else Lookup(done, key)
  {
    if done != [] {
      assert (done + [e])[1..] == done[1..] + [e];
      LookupAppend(done[1..], e, key);
    }
  }

  /** One call of evaluate. */
  datatype Check = Check(current: seq<Entry>, at: int, hour: int)

  function SightOf(config: Config, c: Check, key: Key): Sight {
    Sight(Lookup(c.current, key), c.at, InQuietHours(config, c.hour))
  }

  /** What a run of checks saw of a key. */
  function SightsOf(config: Config, history: seq<Check>, key: Key): seq<Sight> {
    if history == [] then [] else SightsOf(config, history[..|history| - 1], key) + [SightOf(config, history[|history| - 1], key)]
  }

  // ---------- When a note is sent, on severity, hour and the notes before ----------

  lemma {:induction false} SightsAre(config: Config, history: seq<Check>, key: Key)
    ensures |SightsOf(config, history, key)| == |history|
    ensures forall i :: 0 <= i < |history| ==> SightsOf(config, history, key)[i] == SightOf(config, history[i], key)
  {
    if history != [] { SightsAre(config, history[..|history| - 1], key); }
  }

  /** The last `n` checks all saw the issue. */
  ghost predicate SeenInARow(history: seq<Check>, key: Key, n: nat) {
    n <= |history| && forall i :: |history| - n <= i < |history| ==> Lookup(history[i].current, key).Some?
  }

  lemma SeenIsSightings(config: Config, history: seq<Check>, key: Key, n: nat)
    ensures SeenInARow(history, key, n) <==> Sightings(SightsOf(config, history, key)) >= n
  {
    SightsAre(config, history, key);
    var sights := SightsOf(config, history, key);
    SightingsAre(sights);
    var streak := Sightings(sights);
    if streak < n <= |history| { assert sights[|history| - streak - 1] == SightOf(config, history[|history| - streak - 1], key); }
  }

  /** The last note sent, if any, is no resolve. */
  predicate Open(notes: seq<Kind>) { notes != [] && notes[|notes| - 1] != Resolve }

  lemma OpenIsAnnounced(config: Config, sights: seq<Sight>)
    ensures Announced(sights) <==> Open(Sent(config, sights))
  {
    NotesWellFormed(config, sights);
  }

  /**
   When an issue fires: it has been seen as often in a row as it asks for, once at least, its last note, if any, is a
   resolve, and it is critical or the hour is not quiet. No warning fires in quiet hours, and no hour holds back a
   critical issue.
   */
  lemma FiresExactly(config: Config, history: seq<Check>, c: Check, key: Key)
    ensures var issue := Lookup(c.current, key);
            Last(config, SightsOf(config, history, key) + [SightOf(config, c, key)]) == Some(Fire) <==>
              && issue.Some?
              && SeenInARow(history + [c], key, if issue.value.minConsecutive > 1 then issue.value.minConsecutive else 1)
              && !Open(Sent(config, SightsOf(config, history, key)))
              && (issue.value.severity == Critical || !InQuietHours(config, c.hour))
  {
    var past := SightsOf(config, history, key);
    OneMoreCheck(config, history, c, key);
    WhenNotified(config, past, SightOf(config, c, key));
    OpenIsAnnounced(config, past);
    var issue := Lookup(c.current, key);
    if issue.Some? { SeenIsSightings(config, history + [c], key, Needed(issue.value)); }
  }

  /** The notification of check `k` of a run. */
  function NoteOf(config: Config, sights: seq<Sight>, k: nat): Option<Kind>
    requires k < |sights|
  {
    Last(config, sights[..k + 1])
  }

  /** Check `k` sent the last note of a run. */
  ghost predicate LastNote(config: Config, sights: seq<Sight>, k: nat) {
    && k < |sights| && NoteOf(config, sights, k).Some?
    && (forall m: nat :: k < m < |sights| ==> NoteOf(config, sights, m).None?)
  }

  lemma LastNoteStep(config: Config, past: seq<Sight>, s: Sight, k: nat)
    requires LastNote(config, past + [s], k)
    ensures k == |past| ==> NoteOf(config, past + [s], k) == Last(config, past + [s])
    ensures k < |past| ==>
              && LastNote(config, past, k) && NoteOf(config, past + [s], k) == NoteOf(config, past, k)
              && Last(config, past + [s]).None?
  {
    var sights := past + [s];
    assert sights[..|past| + 1] == sights;
    if k < |past| {
      assert NoteOf(config, sights, |past|).None?;
      assert sights[..k + 1] == past[..k + 1];
      forall m: nat | k < m < |past| ensures NoteOf(config, past, m).None? {
        assert sights[..m + 1] == past[..m + 1];
        assert NoteOf(config, sights, m).None?;
      }
    }
  }

  lemma {:induction false} LastNoteTells(config: Config, sights: seq<Sight>, k: nat)
    requires LastNote(config, sights, k)
    ensures Sent(config, sights) != [] && Some(Sent(config, sights)[|Sent(config, sights)| - 1]) == NoteOf(config, sights, k)
    ensures NoteOf(config, sights, k) != Some(Resolve) ==> LastNoteAt(config, sights) == sights[k].at
  {
    var past, s := sights[..|sights| - 1], sights[|sights| - 1];
    assert past + [s] == sights;
    WhenNotified(config, past, s);
    LastNoteStep(config, past, s, k);
    if k < |past| { LastNoteTells(config, past, k); }
  }

  /**
   When an issue is reminded of: its last note is no resolve and is as long ago as its severity's interval, which is
   not switched off, and it is critical or the hour is not quiet.
   */
  lemma RemindsExactly(config: Config, history: seq<Check>, c: Check, key: Key, k: nat)
    requires LastNote(config, SightsOf(config, history, key), k)
    ensures var issue := Lookup(c.current, key);
            var past := SightsOf(config, history, key);
            |past| == |history| && (
              Last(config, past + [SightOf(config, c, key)]) == Some(Remind) <==>
                && issue.Some? && NoteOf(config, past, k) != Some(Resolve)
                && (match issue.value.severity
                    case Critical => config.reminderMs > 0 && c.at - history[k].at >= config.reminderMs
                    case Warning =>
                      && config.warningReminderMs > 0 && c.at - history[k].at >= config.warningReminderMs
                      && !InQuietHours(config, c.hour)))
  {
    var past := SightsOf(config, history, key);
    SightsAre(config, history, key);
    WhenNotified(config, past, SightOf(config, c, key));
    OpenIsAnnounced(config, past);
    LastNoteTells(config, past, k);
  }

  /** Before any note there is nothing to remind of; a resolve is sent when an issue with an open note is gone. */
  lemma ResolvesExactly(config: Config, history: seq<Check>, c: Check, key: Key)
    ensures var sent := Sent(config, SightsOf(config, history, key));
            var last := Last(config, SightsOf(config, history, key) + [SightOf(config, c, key)]);
            (sent == [] ==> last != Some(Remind)) && (last == Some(Resolve) <==> Open(sent) && Lookup(c.current, key).None?)
  {
    var past := SightsOf(config, history, key);
    WhenNotified(config, past, SightOf(config, c, key));
    OpenIsAnnounced(config, past);
  }

  lemma OneMoreCheck(config: Config, history: seq<Check>, c: Check, key: Key)
    ensures var past := SightsOf(config, history, key);
            var sights := SightsOf(config, history + [c], key);
            var r := CheckKey(config, StateAfter(config, past), SightOf(config, c, key));
            sights == past + [SightOf(config, c, key)] && StateAfter(config, sights) == r.0 &&
              Sent(config, sights) == Sent(config, past) + AsSeq(r.1)
  {
    assert (history + [c])[..|history|] == history;
    var past := SightsOf(config, history, key);
    assert (past + [SightOf(config, c, key)])[..|past|] == past;
  }

  class HealthAlerter {
    const config: Config
    var tracked: map<Key, State>
    var sent: seq<Note>
    ghost var history: seq<Check>

    /** For every key, the tracked state and the notifications are those its sightings lead to. */
    ghost predicate Valid()
      reads this
    {
      forall k ::
        && Get(tracked, k) == StateAfter(config, SightsOf(config, history, k))
        && KindsFor(sent, k) == Sent(config, SightsOf(config, history, k))
    }

    constructor (config: Config)
      ensures this.config == config && tracked == map[] && sent == [] && history == [] && Valid()
    {
      this.config, tracked, sent, history := config, map[], [], [];
    }

    /** One notification more. */
    method Send(key: Key, kind: Kind, at: int, tone: Tone)
      modifies `sent
      ensures sent == old(sent) + [Note(key, kind, at, tone)]
      ensures forall k :: KindsFor(sent, k) == KindsFor(old(sent), k) + (if k == key then [kind] else [])
    {
      var after := sent + [Note(key, kind, at, tone)];
      assert after[..|sent|] == sent;
      sent := after;
    }

    /** A present issue: count the hit, fire once confirmed, then remind. */
    method SeePresent(key: Key, iss: Issue, t: int, quiet: bool)
      modifies `tracked, `sent
      ensures var r := CheckKey(config, Get(old(tracked), key), Sight(Some(iss), t, quiet));
              && r.0.Some? && tracked == old(tracked)[key := r.0.value]
              && sent == old(sent) + (if r.1.Some? then [Note(key, r.1.value, t, Alarm(iss.severity))] else [])
              && (forall k :: KindsFor(sent, k) == KindsFor(old(sent), k) + (if k == key then AsSeq(r.1) else []))
    {
      var st := if key in tracked then tracked[key] else State(0, false, 0, 0, iss);
      st := st.(hits := st.hits + 1, issue := iss);
      var quietWarning := iss.severity != Critical && quiet;
      if !st.firing {
        if st.hits >= (if iss.minConsecutive == 0 then 1 else iss.minConsecutive) && !quietWarning {
          st := st.(firing := true, firstFiredAt := t, lastNotified := t);
          Send(key, Fire, t, Alarm(iss.severity));
        }
        tracked := tracked[key := st];
        return;
      }
      var remindEvery := if iss.severity == Critical then config.reminderMs else config.warningReminderMs;
      if remindEvery > 0 && t - st.lastNotified >= remindEvery && !quietWarning {
        st := st.(lastNotified := t);
        Send(key, Remind, t, Alarm(iss.severity));
      }
      tracked := tracked[key := st];
    }

    /** An absent key: resolve it if it had fired, then drop it. */
    method DropAbsent(key: Key, t: int, quiet: bool)
      requires key in tracked
      modifies `tracked, `sent
      ensures tracked == old(tracked) - {key}
      ensures var r := CheckKey(config, Get(old(tracked), key), Sight(None, t, quiet));
              && r.0.None?
              && sent == old(sent) + (if r.1.Some? then [Note(key, r.1.value, t, Recovered)] else [])
              && (forall k :: KindsFor(sent, k) == KindsFor(old(sent), k) + (if k == key then AsSeq(r.1) else []))
    {
      var st := tracked[key];
      if st.firing { Send(key, Resolve, t, Recovered); }
      tracked := tracked - {key};
    }

    /** What evaluate must have done for one key. */
    ghost predicate Checked(key: Key, before: map<Key, State>, sentBefore: seq<Note>, s: Sight)
      reads `tracked, `sent
    {
      var r := CheckKey(config, Get(before, key), s);
      Get(tracked, key) == r.0 && KindsFor(sent, key) == KindsFor(sentBefore, key) + AsSeq(r.1)
    }

    /** Nothing was done for a key so far. */
    ghost predicate Unchecked(key: Key, before: map<Key, State>, sentBefore: seq<Note>)
      reads `tracked, `sent
    {
      Get(tracked, key) == Get(before, key) && KindsFor(sent, key) == KindsFor(sentBefore, key)
    }

    /** The issues handled so far are done, every other key is untouched. */
    ghost predicate SeenUpTo(done: seq<Entry>, before: map<Key, State>, sentBefore: seq<Note>, t: int, quiet: bool)
      reads `tracked, `sent
    {
      forall k ::
        if Lookup(done, k).Some? then Checked(k, before, sentBefore, Sight(Lookup(done, k), t, quiet))
        else Unchecked(k, before, sentBefore)
    }

    /** First loop of evaluate: the present issues. */
    method SeeAllPresent(current: seq<Entry>, t: int, quiet: bool)
      requires DistinctKeys(current)
      modifies `tracked, `sent
      ensures SeenUpTo(current, old(tracked), old(sent), t, quiet)
    {
      ghost var before, sentBefore := tracked, sent;
      var n := 0;
      while n < |current|
        invariant n <= |current|
        invariant SeenUpTo(current[..n], before, sentBefore, t, quiet)
      {
        SeeNext(current[..n], current[n], before, sentBefore, t, quiet);
        assert current[..n] + [current[n]] == current[..n + 1];
        n := n + 1;
      }
      assert current[..n] == current;
    }

    /** One round of that loop. */
    method SeeNext(ghost done: seq<Entry>, e: Entry, ghost before: map<Key, State>, ghost sentBefore: seq<Note>, t: int, quiet: bool)
      requires DistinctKeys(done + [e]) && SeenUpTo(done, before, sentBefore, t, quiet)
      modifies `tracked, `sent
      ensures SeenUpTo(done + [e], before, sentBefore, t, quiet)
    {
      LookupNew(done, e);
      assert Unchecked(e.key, before, sentBefore);
      SeePresent(e.key, e.issue, t, quiet);
      forall k ensures if Lookup(done + [e], k).Some? then Checked(k, before, sentBefore, Sight(Lookup(done + [e], k), t, quiet))
                       else Unchecked(k, before, sentBefore)
      {
        LookupAppend(done, e, k);
        if k != e.key {
          assert KindsFor(sent, k) == KindsFor(old(sent), k);
          assert Get(tracked, k) == Get(old(tracked), k);
        }
      }
    }

    /** The absent keys outside `left` are done, every other key is untouched. */
    ghost predicate DroppedBut(left: set<Key>, current: seq<Entry>, before: map<Key, State>, sentBefore: seq<Note>, t: int, quiet: bool)
      reads `tracked, `sent
    {
      forall k ::
        if Lookup(current, k).None? && k !in left then Checked(k, before, sentBefore, Sight(None, t, quiet))
        else Unchecked(k, before, sentBefore)
    }

    /** Second loop: the tracked keys that are no longer present, in any order. */
    method DropAllAbsent(current: seq<Entry>, t: int, quiet: bool)
      modifies `tracked, `sent
      ensures DroppedBut({}, current, old(tracked), old(sent), t, quiet)
    {
      ghost var before, sentBefore := tracked, sent;
      var absent := set k | k in tracked && Lookup(current, k).None?;
      while absent != {}
        invariant forall k :: k in absent ==> k in tracked && Lookup(current, k).None?
        invariant DroppedBut(absent, current, before, sentBefore, t, quiet)
        decreases absent
      {
        var key :| key in absent;
        DropNext(key, absent, current, before, sentBefore, t, quiet);
        absent := absent - {key};
      }
    }

    /** One round of that loop. */
    method DropNext(key: Key, ghost absent: set<Key>, ghost current: seq<Entry>, ghost before: map<Key, State>, ghost sentBefore: seq<Note>,
                    t: int, quiet: bool)
      requires key in absent && key in tracked && Lookup(current, key).None?
      requires DroppedBut(absent, current, before, sentBefore, t, quiet)
      modifies `tracked, `sent
      ensures DroppedBut(absent - {key}, current, before, sentBefore, t, quiet)
      ensures tracked == old(tracked) - {key}
    {
      assert Unchecked(key, before, sentBefore);
      DropAbsent(key, t, quiet);
      forall k ensures if Lookup(current, k).None? && k !in absent - {key} then Checked(k, before, sentBefore, Sight(None, t, quiet))
                       else Unchecked(k, before, sentBefore)
      {
        if k != key {
          assert KindsFor(sent, k) == KindsFor(old(sent), k);
          assert Get(tracked, k) == Get(old(tracked), k);
        }
      }
    }

    /**
     evaluate. Over every run of calls, each key's tracked state and notifications are those of its own sightings,
     whatever the other keys do; the tracked keys are then exactly the present ones.
     */
    method Evaluate(current: seq<Entry>, t: int, hour: int)
      requires Valid() && DistinctKeys(current)
      modifies this
      ensures Valid() && history == old(history) + [Check(current, t, hour)]
      ensures forall k :: k in tracked <==> Lookup(current, k).Some?
    {
      EvaluateKeys(current, t, hour);
      ghost var c := Check(current, t, hour);
      forall k ensures Get(tracked, k) == StateAfter(config, SightsOf(config, history + [c], k))
               ensures KindsFor(sent, k) == Sent(config, SightsOf(config, history + [c], k))
      {
        OneMoreCheck(config, history, c, k);
        assert Checked(k, old(tracked), old(sent), SightOf(config, c, k));
      }
      history := history + [c];
    }

    /** The two loops. */
    method EvaluateKeys(current: seq<Entry>, t: int, hour: int)
      requires DistinctKeys(current)
      modifies `tracked, `sent
      ensures forall k :: Checked(k, old(tracked), old(sent), Sight(Lookup(current, k), t, InQuietHours(config, hour)))
      ensures forall k :: k in tracked <==> Lookup(current, k).Some?
    {
      ghost var before, sentBefore := tracked, sent;
      var quiet := InQuietHours(config, hour);
      SeeAllPresent(current, t, quiet);
      ghost var middle, sentMiddle := tracked, sent;
      DropAllAbsent(current, t, quiet);
      forall k ensures Checked(k, before, sentBefore, Sight(Lookup(current, k), t, quiet))
               ensures k in tracked <==> Lookup(current, k).Some?
      {
        if Lookup(current, k).Some? {
          assert Unchecked(k, middle, sentMiddle);
        } else {
          assert Checked(k, middle, sentMiddle, Sight(None, t, quiet));
        }
      }
    }
  }
}
