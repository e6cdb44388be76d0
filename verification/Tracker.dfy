/**
 Turning samples of "who is speaking now" into speaker turns.

 `State` is the tracker's fields as a value, and `Observe`, `Drain`, `Finish` what its methods make of
 them; the class at the end does it in place. TrackerProofs.dfy says what comes out over a whole run.
 */
module Tracker {
  import opened Text

  const MIN_TURN_MS: int := 600

  /** One person as the page shows them in one sample. */
  datatype Seen = Seen(id: string, displayName: string, speaking: bool, isLocal: bool)

  /** A sample of the page; `None` for an unreadable page. */
  type Sample = Option<seq<Seen>>

  datatype Turn = Turn(participant: string, start_ms: int, end_ms: int)

  datatype Batch = Batch(participants: seq<(string, string)>, turns: seq<Turn>, localParticipantId: Option<string>)

  // ---------------------------------------------------------------- insertion-ordered maps

  /** A JavaScript `Map`: its entries in insertion order. */
  type Table<T> = seq<(string, T)>

  function Lookup<T>(m: Table<T>, key: string): Option<T> {
    if m == [] then None else if m[0].0 == key then Some(m[0].1) else Lookup(m[1..], key)
  }

  function Set<T>(m: Table<T>, key: string, value: T): Table<T> {
    if m == [] then [(key, value)]
    else if m[0].0 == key then [(key, value)] + m[1..]
    else [m[0]] + Set(m[1..], key, value)
  }

  function Remove<T>(m: Table<T>, key: string): Table<T> {
    if m == [] then []
    else (if m[0].0 == key then [] else [m[0]]) + Remove(m[1..], key)
  }

  function Keys<T>(m: Table<T>): (r: seq<string>)
    ensures |r| == |m| && forall i :: 0 <= i < |r| ==> r[i] == m[i].0
  {
    seq(|m|, i requires 0 <= i < |m| => m[i].0)
  }

  lemma {:induction false} LookupSet<T>(m: Table<T>, key: string, value: T, other: string)
    ensures Lookup(Set(m, key, value), other) == if other == key then Some(value) else Lookup(m, other)
  {
    if m != [] && m[0].0 != key { LookupSet(m[1..], key, value, other); }
  }

  lemma {:induction false} LookupRemove<T>(m: Table<T>, key: string, other: string)
    ensures Lookup(Remove(m, key), other) == if other == key then None else Lookup(m, other)
  {
    if m != [] {
      LookupRemove(m[1..], key, other);
      var rest := Remove(m[1..], key);
      assert if m[0].0 == key then Remove(m, key) == rest else Remove(m, key) == [m[0]] + rest;
      assert ([m[0]] + rest)[1..] == rest;
    }
  }

  lemma {:induction false} LookupIsKey<T>(m: Table<T>, key: string)
    ensures Lookup(m, key).Some? <==> key in Keys(m)
  {
    if m != [] {
      LookupIsKey(m[1..], key);
      assert Keys(m) == [m[0].0] + Keys(m[1..]);
    }
  }

  // ---------------------------------------------------------------- the clock

  /** `Math.round`. */
  function Round(x: real): int {
    (x + 0.5).Floor
  }

  /** A clock reading as a stamp: rounded, and zero before the origin. */
  function Elapsed(now: real, origin: real): (ms: int)
    ensures ms >= 0
  {
    if Round(now - origin) < 0 then 0 else Round(now - origin)
  }

  /** `now` relative to the start: zero when the start is not known or is still to come. */
  function ElapsedSince(startedAt: Option<real>, now: real): (ms: real)
    ensures ms >= 0.0
  {
    match startedAt
    case None => 0.0
    case Some(at) => if now - at < 0.0 then 0.0 else now - at
  }

  // ---------------------------------------------------------------- what the methods do

  datatype State = State(
    participants: Table<string>,
    open: Table<int>,
    closed: seq<Turn>,
    localId: Option<string>,
    blindSamples: nat)

  const START := State([], [], [], None, 0)

  /** End one open turn, keeping it if it lasted long enough. */
  function Close(s: State, id: string, at: int): State {
    match Lookup(s.open, id)
    case None => s
    case Some(start) =>
      s.(open := Remove(s.open, id),
         closed := if at - start < MIN_TURN_MS then s.closed else s.closed + [Turn(id, start, at)])
  }

  /** End the turns of those among `ids` who are not in `speaking`. */
  function CloseAbsent(s: State, ids: seq<string>, speaking: seq<string>, at: int): State
    decreases |ids|
  {
    if ids == [] then s
    else CloseAbsent(if ids[0] in speaking then s else Close(s, ids[0], at), ids[1..], speaking, at)
  }

  /** Start a turn for those among `ids` who have none open. */
  function OpenNew(s: State, ids: seq<string>, at: int): State
    decreases |ids|
  {
    if ids == [] then s
    else OpenNew(if Lookup(s.open, ids[0]).Some? then s else s.(open := Set(s.open, ids[0], at)), ids[1..], at)
  }

  /** The names and the local participant, as this sample updates them. */
  function Enroll(s: State, seen: seq<Seen>): State
    decreases |seen|
  {
    if seen == [] then s
    else
      var person := seen[0];
      Enroll(s.(participants := Set(s.participants, person.id, person.displayName),
                localId := if person.isLocal then Some(person.id) else s.localId), seen[1..])
  }

  /** Ids speaking in the sample, each once, in the order they first appear. */
  function SpeakingNow(seen: seq<Seen>): seq<string> {
    if seen == [] then []
    else
      var before := SpeakingNow(seen[..|seen| - 1]);
      var person := seen[|seen| - 1];
      if person.speaking && person.id !in before then before + [person.id] else before
  }

  function Observe(s: State, at: int, sample: Sample): State {
    match sample
    case None => CloseAbsent(s.(blindSamples := s.blindSamples + 1), Keys(s.open), [], at)
    case Some(seen) =>
      var enrolled := Enroll(s, seen);
      var speaking := SpeakingNow(seen);
      OpenNew(CloseAbsent(enrolled, Keys(enrolled.open), speaking, at), speaking, at)
  }

  function BatchOf(s: State): Option<Batch> {
    if s.closed == [] then None else Some(Batch(s.participants, s.closed, s.localId))
  }

  function Drained(s: State): State {
    s.(closed := [])
  }

  function Finished(s: State, at: int): State {
    CloseAbsent(s, Keys(s.open), [], at)
  }

  // ---------------------------------------------------------------- the class

  class SpeakerTracker {
    const origin: real
    var participants: Table<string>
    var open: Table<int>
    var closed: seq<Turn>
    var localId: Option<string>
    var blindSamples: nat

    function Snapshot(): State
      reads this
    {
      State(participants, open, closed, localId, blindSamples)
    }

    constructor (now: real, startOffsetMs: real)
      ensures origin == now - startOffsetMs && Snapshot() == START
    {
      origin := now - startOffsetMs;
      participants, open, closed, localId, blindSamples := [], [], [], None, 0;
    }

    method CloseTurn(id: string, at: int)
      modifies this
      ensures Snapshot() == Close(old(Snapshot()), id, at)
    {
      var start := Lookup(open, id);
      open := Remove(open, id);
      if start.None? {
        RemoveAbsent(old(open), id);
        return;
      }
      if at - start.value < MIN_TURN_MS { return; }
      closed := closed + [Turn(id, start.value, at)];
    }

    /** Close everyone who is not in `speaking`. */
    method CloseOthers(speaking: seq<string>, at: int)
      modifies this
      ensures Snapshot() == CloseAbsent(old(Snapshot()), Keys(old(open)), speaking, at)
    {
      var ids := Keys(open);
      ghost var before := Snapshot();
      assert ids[0..] == ids;
      for i := 0 to |ids|
        invariant CloseAbsent(Snapshot(), ids[i..], speaking, at) == CloseAbsent(before, ids, speaking, at)
      {
        assert ids[i..][1..] == ids[i + 1..];
        if ids[i] !in speaking { CloseTurn(ids[i], at); }
      }
    }

    method OpenTurns(speaking: seq<string>, at: int)
      modifies this
      ensures Snapshot() == OpenNew(old(Snapshot()), speaking, at)
    {
      ghost var before := Snapshot();
      assert speaking[0..] == speaking;
      for i := 0 to |speaking|
        invariant OpenNew(Snapshot(), speaking[i..], at) == OpenNew(before, speaking, at)
      {
        assert speaking[i..][1..] == speaking[i + 1..];
        if Lookup(open, speaking[i]).None? { open := Set(open, speaking[i], at); }
      }
    }

    method EnrollSeen(seen: seq<Seen>) returns (speakingNow: seq<string>)
      modifies this
      ensures Snapshot() == Enroll(old(Snapshot()), seen) && speakingNow == SpeakingNow(seen)
    {
      ghost var before := Snapshot();
      speakingNow := [];
      assert seen[0..] == seen;
      for i := 0 to |seen|
        invariant Enroll(Snapshot(), seen[i..]) == Enroll(before, seen)
        invariant speakingNow == SpeakingNow(seen[..i])
      {
        var person := seen[i];
        assert seen[i..][1..] == seen[i + 1..];
        assert seen[..i + 1][..i] == seen[..i];
        participants := Set(participants, person.id, person.displayName);
        if person.isLocal { localId := Some(person.id); }
        if person.speaking && person.id !in speakingNow { speakingNow := speakingNow + [person.id]; }
      }
      assert seen[..|seen|] == seen;
    }

    /** One sample: enrol who is shown, close who stopped, open who started. */
    method ObserveSample(now: real, sample: Sample)
      modifies this
      ensures Snapshot() == Observe(old(Snapshot()), Elapsed(now, origin), sample)
    {
      var at := Elapsed(now, origin);
      match sample
      case None =>
        blindSamples := blindSamples + 1;
        CloseOthers([], at);
      case Some(seen) =>
        var speakingNow := EnrollSeen(seen);
        CloseOthers(speakingNow, at);
        OpenTurns(speakingNow, at);
    }

    /** Hands out `closed` as a batch, if there is any, and forgets it. */
    method Drain() returns (batch: Option<Batch>)
      modifies this
      ensures batch == BatchOf(old(Snapshot())) && Snapshot() == Drained(old(Snapshot()))
    {
      if closed == [] { return None; }
      var turns := closed;
      closed := [];
      batch := Some(Batch(participants, turns, localId));
    }

    /** Closes every open turn at `now` and drains. */
    method Finish(now: real) returns (batch: Option<Batch>)
      modifies this
      ensures batch == BatchOf(Finished(old(Snapshot()), Elapsed(now, origin)))
      ensures Snapshot() == Drained(Finished(old(Snapshot()), Elapsed(now, origin)))
    {
      CloseOthers([], Elapsed(now, origin));
      batch := Drain();
    }
  }

  lemma {:induction false} RemoveAbsent<T>(m: Table<T>, key: string)
    requires Lookup(m, key).None?
    ensures Remove(m, key) == m
  {
    if m != [] { RemoveAbsent(m[1..], key); }
  }
}
