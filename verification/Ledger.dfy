/**
 * The challenge ledger: which challenges against this provider are open, as far as its event feed has said.
 * Events may be dropped, repeated or replayed from deployment; a full replay repairs whatever was missed and
 * forgets nothing that was answered. What the ledger file holds after a failed write is a separate matter.
 */
module Ledger {
  import opened Data

  datatype OpenChallenge = OpenChallenge(
    id: nat, indices: seq<nat>, pinnedRoot: Hash, pinnedLeafCount: nat, deadline: nat, respondedTx: Option<nat>)

  datatype Event =
    | Opened(provider: nat, challenge: OpenChallenge)
    | Resolved(id: nat, timedOut: bool)

  type Entries = map<nat, OpenChallenge>

  // ---- Replay ----

  /** What the daemon's intake does with one event. */
  function Apply(ours: nat, entries: Entries, e: Event): Entries {
    match e
    case Opened(provider, c) =>
      if provider != ours || c.id in entries then entries else entries[c.id := c]
    case Resolved(id, _) => entries - {id}
  }

  function Replay(ours: nat, entries: Entries, events: seq<Event>): Entries {
    if events == [] then entries
    else Apply(ours, Replay(ours, entries, events[..|events| - 1]), events[|events| - 1])
  }

  predicate OpensOurs(ours: nat, e: Event, id: nat) {
    e.Opened? && e.provider == ours && e.challenge.id == id
  }

  ghost predicate OpenedIn(ours: nat, events: seq<Event>, id: nat) {
    exists i :: 0 <= i < |events| && OpensOurs(ours, events[i], id)
  }

  ghost predicate ResolvedIn(events: seq<Event>, id: nat) {
    exists i :: 0 <= i < |events| && events[i].Resolved? && events[i].id == id
  }

  predicate Resolves(open: Event, e: Event) {
    open.Opened? && e.Resolved? && open.challenge.id == e.id
  }

  /** The contract's history: an id is opened once, unanswered, and resolved only afterwards. */
  ghost predicate History(events: seq<Event>) {
    (forall i :: 0 <= i < |events| && events[i].Opened? ==> events[i].challenge.respondedTx == None) &&
    (forall i, j :: 0 <= i < j < |events| && events[i].Opened? && events[j].Opened? ==>
      events[i].challenge.id != events[j].challenge.id) &&
    (forall i, j :: 0 <= i < |events| && 0 <= j < |events| && Resolves(events[i], events[j]) ==> i < j)
  }

  /** Who is in the ledger after a replay, whatever it started from. */
  lemma {:induction false} ReplayMembership(ours: nat, start: Entries, events: seq<Event>, id: nat)
    requires History(events)
    ensures id in Replay(ours, start, events) <==>
      (id in start || OpenedIn(ours, events, id)) && !ResolvedIn(events, id)
  {
    if events != [] {
      var n := |events| - 1;
      var before, last := events[..n], events[n];
      ReplayMembership(ours, start, before, id);
      assert OpenedIn(ours, before, id) || OpensOurs(ours, last, id) <==> OpenedIn(ours, events, id);
      assert ResolvedIn(before, id) || (last.Resolved? && last.id == id) <==> ResolvedIn(events, id);
    }
  }

  /** What a replay leaves of a challenge it does not resolve: the entry held before, or the event's. */
  lemma {:induction false} ReplayEntry(ours: nat, start: Entries, events: seq<Event>, id: nat)
    requires History(events) && !ResolvedIn(events, id)
    ensures id in start ==> id in Replay(ours, start, events) && Replay(ours, start, events)[id] == start[id]
    ensures forall i :: 0 <= i < |events| && OpensOurs(ours, events[i], id) && id !in start ==>
      id in Replay(ours, start, events) && Replay(ours, start, events)[id] == events[i].challenge
  {
    if events != [] {
      var n := |events| - 1;
      var before := events[..n];
      assert ResolvedIn(before, id) ==> ResolvedIn(events, id);
      ReplayEntry(ours, start, before, id);
      ReplayMembership(ours, start, before, id);
    }
  }

  ghost predicate Recorded(ours: nat, events: seq<Event>, id: nat, entry: OpenChallenge) {
    exists i :: 0 <= i < |events| && OpensOurs(ours, events[i], id) &&
      entry == events[i].challenge.(respondedTx := entry.respondedTx)
  }

  /** An entry is what some event of the history opened, perhaps answered since. */
  ghost predicate FromHistory(ours: nat, events: seq<Event>, entries: Entries) {
    forall id :: id in entries ==> Recorded(ours, events, id, entries[id])
  }

  /** Everything that can happen to a ledger, in any order and number, with any events dropped. */
  datatype Happening =
    | Intake(e: Event)
    | Answered(id: nat, tx: nat)
    | Lost(ids: set<nat>)

  function After(ours: nat, entries: Entries, h: Happening): Entries {
    match h
    case Intake(e) => Apply(ours, entries, e)
    case Answered(id, tx) => if id in entries then entries[id := entries[id].(respondedTx := Some(tx))] else entries
    case Lost(ids) => entries - ids
  }

  function AfterAll(ours: nat, hs: seq<Happening>): Entries {
    if hs == [] then map[] else After(ours, AfterAll(ours, hs[..|hs| - 1]), hs[|hs| - 1])
  }

  ghost predicate Feeds(events: seq<Event>, hs: seq<Happening>) {
    forall i :: 0 <= i < |hs| && hs[i].Intake? ==> hs[i].e in events
  }

  lemma {:induction false} ReachedFromHistory(ours: nat, events: seq<Event>, hs: seq<Happening>)
    requires History(events) && Feeds(events, hs)
    ensures FromHistory(ours, events, AfterAll(ours, hs))
  {
    if hs != [] {
      var n := |hs| - 1;
      ReachedFromHistory(ours, events, hs[..n]);
      var before, after := AfterAll(ours, hs[..n]), AfterAll(ours, hs);
      forall id | id in after ensures Recorded(ours, events, id, after[id]) {
        if id in before {
          assert Recorded(ours, events, id, before[id]);
        } else {
          var i :| 0 <= i < |events| && events[i] == hs[n].e;
          assert OpensOurs(ours, events[i], id);
        }
      }
    }
  }

  /**
   * Convergence. From a ledger reached in any way, with any events dropped, a replay of the whole finalized
   * history leaves exactly the challenges opened against this provider and not resolved; keeps what it held
   * of those, answers included; takes the rest from their events; and a second replay changes nothing.
   */
  lemma ReplayConverges(ours: nat, events: seq<Event>, hs: seq<Happening>)
    requires History(events) && Feeds(events, hs)
    ensures var start := AfterAll(ours, hs); var done := Replay(ours, start, events);
      && (forall id :: id in done <==> OpenedIn(ours, events, id) && !ResolvedIn(events, id))
      && (forall id :: id in done && id in start ==> done[id] == start[id])
      && (forall i, id :: 0 <= i < |events| && OpensOurs(ours, events[i], id) && id in done && id !in start ==>
        done[id] == events[i].challenge)
      && Replay(ours, done, events) == done
  {
    var start := AfterAll(ours, hs);
    var done := Replay(ours, start, events);
    ReachedFromHistory(ours, events, hs);
    forall id: nat ensures id in done <==> OpenedIn(ours, events, id) && !ResolvedIn(events, id) {
      ReplayMembership(ours, start, events, id);
      if id in start { assert Recorded(ours, events, id, start[id]); }
    }
    forall id | id in done && id in start ensures done[id] == start[id] { ReplayEntry(ours, start, events, id); }
    forall i, id | 0 <= i < |events| && OpensOurs(ours, events[i], id) && id in done && id !in start
      ensures done[id] == events[i].challenge
    {
      ReplayEntry(ours, start, events, id);
    }
    var again := Replay(ours, done, events);
    forall id: nat ensures id in again <==> id in done { ReplayMembership(ours, done, events, id); }
    forall id | id in done ensures again[id] == done[id] { ReplayEntry(ours, done, events, id); }
  }

  // ---- The ledger and its file ----

  /** How an attempt to replace the file ended: in place and reported, in place unreported, or not in place. */
  datatype Write = Done | Unreported | Failed

  function FileAfter(entries: Entries, file: Entries, w: Write): Entries {
    if w.Failed? then file else entries
  }

  /** Memory, file and verdict after recording an opened challenge. */
  function Inserted(entries: Entries, file: Entries, c: OpenChallenge, w: Write): (Entries, Entries, bool) {
    if c.id in entries then (entries, file, true)
    else (entries[c.id := c], FileAfter(entries[c.id := c], file, w), w.Done?)
  }

  /**
   * Accepting an event should mean its obligation is in the file. Whatever the disk does, that holds exactly
   * when the entry is new to memory or already in the file: an event redelivered after a failed write is
   * accepted without being written.
   */
  lemma AcceptedIsDurable(entries: Entries, file: Entries, c: OpenChallenge)
    ensures (c.id !in entries || c.id in file) <==>
      forall w :: Inserted(entries, file, c, w).2 ==> c.id in Inserted(entries, file, c, w).1
  {
    assert Inserted(entries, file, c, Done).2;
  }

  /** A redelivery is accepted without a write, and changes nothing. */
  lemma RedeliveryWritesNothing(entries: Entries, file: Entries, c: OpenChallenge, w: Write)
    requires c.id in entries
    ensures Inserted(entries, file, c, w) == (entries, file, true)
  {
  }

  /** One open, one failed write, one redelivery: accepted, and a restart forgets the challenge. */
  lemma RedeliveryIsNotDurable(c: OpenChallenge)
    ensures var (entries, file, first) := Inserted(map[], map[], c, Failed);
      var (_, file', second) := Inserted(entries, file, c, Done);
      !first && second && c.id !in file'
  {
  }

  /** Entries in memory, and the file a restart reads back. */
  class Ledger {
    var entries: Entries
    var file: Entries

    constructor (file: Entries)
      ensures this.file == file && entries == file
    {
      this.file, entries := file, file;
    }

    method Persist() returns (w: Write)
      modifies `file
      ensures file == FileAfter(entries, old(file), w)
    {
      w := *;
      if !w.Failed? { file := entries; }
    }

    /** Record an opened challenge; a replayed one keeps its entry, and is not written again. */
    method Insert(c: OpenChallenge, ghost ours: nat) returns (ok: bool, ghost w: Write)
      modifies this
      ensures entries == Apply(ours, old(entries), Opened(ours, c))
      ensures (entries, file, ok) == Inserted(old(entries), old(file), c, w)
      ensures ok && old(file == entries) ==> file == entries
    {
      w := Done;
      if c.id in entries { return true, w; }
      entries := entries[c.id := c];
      var written := Persist();
      ok, w := written.Done?, written;
    }

    /** Drop a resolved challenge; only one of ours that timed out is worth an alarm. */
    method Remove(id: nat, timedOut: bool, ghost ours: nat) returns (ok: bool, slashedAlarm: bool)
      modifies this
      ensures entries == Apply(ours, old(entries), Resolved(id, timedOut))
      ensures file == entries || file == old(file)
      ensures id !in old(entries) ==> ok && file == old(file)
      ensures ok ==> (id !in file <==> id in old(entries) || id !in old(file))
      ensures ok && old(file == entries) ==> file == entries
      ensures slashedAlarm <==> ok && timedOut && id in old(entries)
    {
      var known := id in entries;
      entries := entries - {id};
      ok := true;
      if known {
        var written := Persist();
        ok := written.Done?;
      }
      slashedAlarm := ok && known && timedOut;
    }

    /** Take in one event; other providers' openings are not recorded. */
    method Intake(ours: nat, e: Event) returns (ok: bool)
      modifies this
      ensures entries == Apply(ours, old(entries), e)
      ensures ok && old(file == entries) ==> file == entries
    {
      ok := true;
      match e {
        case Opened(provider, c) =>
          if provider == ours {
            ghost var w;
            ok, w := Insert(c, ours);
          }
        case Resolved(id, timedOut) =>
          var slashedAlarm;
          ok, slashedAlarm := Remove(id, timedOut, ours);
      }
    }

    /** Take in events until one cannot be written; memory already has it, the file may not. */
    method TakeIn(ours: nat, events: seq<Event>) returns (ok: bool, taken: nat)
      modifies this
      ensures taken <= |events| && (ok ==> taken == |events|)
      ensures entries == Replay(ours, old(entries), events[..taken])
      ensures ok && old(file == entries) ==> file == entries
    {
      ok, taken := true, 0;
      assert events[..0] == [];
      while ok && taken < |events|
        invariant taken <= |events| && entries == Replay(ours, old(entries), events[..taken])
        invariant ok && old(file == entries) ==> file == entries
      {
        ok := Intake(ours, events[taken]);
        assert events[..taken + 1][..taken] == events[..taken];
        taken := taken + 1;
      }
    }

    method MarkResponded(id: nat, tx: nat, ghost ours: nat) returns (ok: bool)
      modifies this
      ensures entries == After(ours, old(entries), Answered(id, tx))
      ensures ok && old(file == entries) ==> file == entries
    {
      if id !in entries { return true; }
      entries := entries[id := entries[id].(respondedTx := Some(tx))];
      var written := Persist();
      ok := written.Done?;
    }
  }

  // ---- Detecting missed events ----

  function Unresponded(entries: Entries): set<nat> {
    set id | id in entries && entries[id].respondedTx == None
  }

  /** Who counts as unanswered after one more happening. */
  lemma UnrespondedStep(ours: nat, entries: Entries, h: Happening, id: nat)
    ensures id in Unresponded(After(ours, entries, h)) <==>
      match h
      case Intake(Opened(provider, c)) =>
        if provider == ours && c.id == id && id !in entries then c.respondedTx == None else id in Unresponded(entries)
      case Intake(Resolved(resolved, _)) => resolved != id && id in Unresponded(entries)
      case Answered(answered, _) => answered != id && id in Unresponded(entries)
      case Lost(ids) => id !in ids && id in Unresponded(entries)
  {
  }

  /** Open on chain, with no unanswered entry. */
  function Unrecorded(entries: Entries, onChain: set<nat>): set<nat> {
    onChain - Unresponded(entries)
  }

  /** Unanswered in the ledger, no longer open on chain. */
  function Stale(entries: Entries, onChain: set<nat>): set<nat> {
    Unresponded(entries) - onChain
  }

  /** The comparison of counts the daemon makes: a deficit shows exactly when more are missing than stale. */
  lemma DeficitExactly(entries: Entries, onChain: set<nat>)
    ensures |onChain| > |Unresponded(entries)| <==> |Unrecorded(entries, onChain)| > |Stale(entries, onChain)|
  {
    var u := Unresponded(entries);
    var both := u * onChain;
    assert u == both + (u - onChain) && both !! (u - onChain);
    assert onChain == both + (onChain - u) && both !! (onChain - u);
  }

  /**
   * So a deficit reports a missing challenge, and detection is exact, in both directions, precisely when
   * nothing is missing or more is missing than stale.
   */
  lemma DeficitMeansMissing(entries: Entries, onChain: set<nat>)
    ensures |onChain| > |Unresponded(entries)| ==> Unrecorded(entries, onChain) != {}
    ensures (|onChain| > |Unresponded(entries)| <==> Unrecorded(entries, onChain) != {}) <==>
      Unrecorded(entries, onChain) == {} || |Unrecorded(entries, onChain)| > |Stale(entries, onChain)|
  {
    DeficitExactly(entries, onChain);
  }

  /**
   * The failing input: challenge `a` is opened and resolved, then `b` is opened, and of these the feed delivers
   * only the first. The stale entry hides the missing challenge.
   */
  lemma StaleHidesMissing(ours: nat, a: OpenChallenge, b: OpenChallenge, timedOut: bool)
    requires a.respondedTx == None && b.respondedTx == None && a.id != b.id
    ensures var events := [Opened(ours, a), Resolved(a.id, timedOut), Opened(ours, b)];
      var happened := [Intake(Opened(ours, a))];
      var entries, onChain := AfterAll(ours, happened), {b.id};
      History(events) && Feeds(events, happened) &&
      (forall id :: id in onChain <==> OpenedIn(ours, events, id) && !ResolvedIn(events, id)) &&
      Unrecorded(entries, onChain) == {b.id} && Stale(entries, onChain) == {a.id} &&
      !(|onChain| > |Unresponded(entries)|)
  {
    var events := [Opened(ours, a), Resolved(a.id, timedOut), Opened(ours, b)];
    var happened := [Intake(Opened(ours, a))];
    assert happened[..0] == [] && happened[0].e == events[0];
    assert AfterAll(ours, happened) == map[a.id := a];
    assert Unresponded(map[a.id := a]) == {a.id};
    assert OpensOurs(ours, events[0], a.id) && OpensOurs(ours, events[2], b.id);
    assert events[1].Resolved? && events[1].id == a.id;
  }

  /** How many of the last ticks in a row saw a deficit. */
  function Trailing(ticks: seq<bool>): nat {
    if ticks == [] || !ticks[|ticks| - 1] then 0 else Trailing(ticks[..|ticks| - 1]) + 1
  }

  /** At least `n` in a row: the last `n` ticks all saw one. */
  lemma {:induction false} TrailingExactly(ticks: seq<bool>, n: nat)
    ensures Trailing(ticks) >= n <==> n <= |ticks| && forall k :: |ticks| - n <= k < |ticks| ==> ticks[k]
  {
    if n > 0 && ticks != [] {
      var last := |ticks| - 1;
      TrailingExactly(ticks[..last], n - 1);
      assert forall k :: 0 <= k < last ==> ticks[..last][k] == ticks[k];
    }
  }

  const PATIENCE: nat := 5

  /** The rescan trigger of the enforcement loop. */
  class IntakeWatch {
    var streak: nat
    var rescanRequested: bool
    ghost var ticks: seq<bool>

    ghost predicate Valid()
      reads this
    {
      streak == Trailing(ticks) % PATIENCE
    }

    constructor ()
      ensures Valid() && ticks == [] && !rescanRequested
    {
      streak, rescanRequested, ticks := 0, false, [];
    }

    /** A rescan is requested at every fifth deficit in a row and at no other tick. */
    method Tick(openOnChain: nat, unresponded: nat)
      requires Valid()
      modifies this
      ensures Valid() && ticks == old(ticks) + [openOnChain > unresponded]
      ensures rescanRequested <==> old(rescanRequested) || (Trailing(ticks) > 0 && Trailing(ticks) % 5 == 0)
    {
      ticks := ticks + [openOnChain > unresponded];
      if openOnChain > unresponded {
        streak := streak + 1;
        if streak >= PATIENCE { rescanRequested, streak := true, 0; }
      } else {
        streak := 0;
      }
    }

    method TakeRescanRequest() returns (requested: bool)
      requires Valid()
      modifies this
      ensures Valid() && requested == old(rescanRequested) && !rescanRequested && ticks == old(ticks)
    {
      requested, rescanRequested := rescanRequested, false;
    }
  }
}
