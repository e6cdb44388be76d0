/**
 What the tracker hands out over a whole run: for each participant, exactly the maximal runs of
 samples in which they were speaking, whenever it is drained.
 */
module TrackerProofs {
  import opened Text
  import opened Tracker

  datatype Obs = Obs(at: int, sample: Sample)

  predicate Speaks(sample: Sample, p: string) {
    sample.Some? && exists i :: 0 <= i < |sample.value| && sample.value[i].id == p && sample.value[i].speaking
  }

  /** The turns of one participant, in order. */
  function TurnsOf(turns: seq<Turn>, p: string): seq<Turn> {
    if turns == [] then []
    else TurnsOf(turns[..|turns| - 1], p) + (if turns[|turns| - 1].participant == p then [turns[|turns| - 1]] else [])
  }

  lemma TurnsOfOne(a: seq<Turn>, t: Turn, p: string)
    ensures TurnsOf(a + [t], p) == TurnsOf(a, p) + if t.participant == p then [t] else []
  {
    assert (a + [t])[..|a|] == a;
  }

  // ---------------------------------------------------------------- one observation, one participant

  /** The turn, unless it was too short to report. */
  function Kept(t: Turn): seq<Turn> {
    if t.end_ms - t.start_ms < 600 then [] else [t]
  }

  function Closing(open: Option<int>, p: string, at: int): seq<Turn> {
    match open case None => [] case Some(start) => Kept(Turn(p, start, at))
  }

  lemma CloseFor(s: State, id: string, at: int, p: string)
    ensures Lookup(Close(s, id, at).open, p) == if id == p then None else Lookup(s.open, p)
    ensures TurnsOf(Close(s, id, at).closed, p)
         == TurnsOf(s.closed, p) + if id == p then Closing(Lookup(s.open, p), p, at) else []
  {
    LookupRemove(s.open, id, p);
    if Lookup(s.open, id).Some? {
      TurnsOfOne(s.closed, Turn(id, Lookup(s.open, id).value, at), p);
    }
  }

  lemma {:induction false} CloseAbsentFor(s: State, ids: seq<string>, speaking: seq<string>, at: int, p: string)
    ensures var closes := p in ids && p !in speaking;
            var r := CloseAbsent(s, ids, speaking, at);
            Lookup(r.open, p) == (if closes then None else Lookup(s.open, p)) &&
            TurnsOf(r.closed, p) == TurnsOf(s.closed, p) + if closes then Closing(Lookup(s.open, p), p, at) else []
    decreases |ids|
  {
    if ids != [] {
      var next := if ids[0] in speaking then s else Close(s, ids[0], at);
      CloseFor(s, ids[0], at, p);
      CloseAbsentFor(next, ids[1..], speaking, at, p);
    }
  }

  lemma {:induction false} OpenNewFor(s: State, ids: seq<string>, at: int, p: string)
    ensures var r := OpenNew(s, ids, at);
            Lookup(r.open, p) == (if p in ids && Lookup(s.open, p).None? then Some(at) else Lookup(s.open, p)) &&
            r.closed == s.closed
    decreases |ids|
  {
    if ids != [] {
      var next := if Lookup(s.open, ids[0]).Some? then s else s.(open := Set(s.open, ids[0], at));
      LookupSet(s.open, ids[0], at, p);
      OpenNewFor(next, ids[1..], at, p);
    }
  }

  lemma {:induction false} EnrollKeeps(s: State, seen: seq<Seen>)
    ensures Enroll(s, seen).open == s.open && Enroll(s, seen).closed == s.closed
    decreases |seen|
  {
    if seen != [] {
      var person := seen[0];
      EnrollKeeps(s.(participants := Set(s.participants, person.id, person.displayName),
                     localId := if person.isLocal then Some(person.id) else s.localId), seen[1..]);
    }
  }

  lemma {:induction false} SpeakingNowIs(seen: seq<Seen>, p: string)
    ensures p in SpeakingNow(seen) <==> Speaks(Some(seen), p)
  {
    if seen != [] {
      var last := |seen| - 1;
      SpeakingNowIs(seen[..last], p);
      if p in SpeakingNow(seen[..last]) {
        var i :| 0 <= i < last && seen[..last][i].id == p && seen[..last][i].speaking;
        assert seen[i].id == p && seen[i].speaking;
      }
      if Speaks(Some(seen), p) {
        var i :| 0 <= i < |seen| && seen[i].id == p && seen[i].speaking;
        if i < last { assert seen[..last][i] == seen[i]; }
      }
    }
  }

  /** What one observation does to one participant. */
  lemma ObserveFor(s: State, at: int, sample: Sample, p: string)
    ensures Lookup(Observe(s, at, sample).open, p) ==
              if !Speaks(sample, p) then None
              else if Lookup(s.open, p).Some? then Lookup(s.open, p) else Some(at)
    ensures TurnsOf(Observe(s, at, sample).closed, p) ==
              TurnsOf(s.closed, p) + if Speaks(sample, p) then [] else Closing(Lookup(s.open, p), p, at)
  {
    LookupIsKey(s.open, p);
    match sample
    case None => CloseAbsentFor(s.(blindSamples := s.blindSamples + 1), Keys(s.open), [], at, p);
    case Some(seen) =>
      var enrolled, speaking := Enroll(s, seen), SpeakingNow(seen);
      EnrollKeeps(s, seen);
      SpeakingNowIs(seen, p);
      CloseAbsentFor(enrolled, Keys(enrolled.open), speaking, at, p);
      OpenNewFor(CloseAbsent(enrolled, Keys(enrolled.open), speaking, at), speaking, at, p);
  }

  lemma FinishedFor(s: State, at: int, p: string)
    ensures TurnsOf(Finished(s, at).closed, p) == TurnsOf(s.closed, p) + Closing(Lookup(s.open, p), p, at)
  {
    LookupIsKey(s.open, p);
    CloseAbsentFor(s, Keys(s.open), [], at, p);
  }

  // ---------------------------------------------------------------- runs of speaking

  predicate SpeakingAt(obs: seq<Obs>, i: int, p: string) {
    0 <= i < |obs| && Speaks(obs[i].sample, p)
  }

  /** The tracker after the first `n` observations, never drained. */
  function After(obs: seq<Obs>, n: nat): State
    requires n <= |obs|
  {
    if n == 0 then START else Observe(After(obs, n - 1), obs[n - 1].at, obs[n - 1].sample)
  }

  /** The first sample of the run of speaking that sample `n - 1` belongs to. */
  function RunStart(obs: seq<Obs>, n: nat, p: string): (a: nat)
    requires SpeakingAt(obs, n - 1, p)
    ensures a < n && (forall i :: a <= i < n ==> SpeakingAt(obs, i, p)) && !SpeakingAt(obs, a - 1, p)
  {
    if SpeakingAt(obs, n - 2, p) then RunStart(obs, n - 1, p) else n - 1
  }

  /** When a run that ends before sample `b` ended: at that sample, or at the finish. */
  function EndTime(obs: seq<Obs>, finish: int, b: nat): int {
    if b < |obs| then obs[b].at else finish
  }

  predicate EndsBefore(obs: seq<Obs>, b: nat, p: string) {
    SpeakingAt(obs, b - 1, p) && !SpeakingAt(obs, b, p)
  }

  function RunTurn(obs: seq<Obs>, finish: int, b: nat, p: string): Turn
    requires EndsBefore(obs, b, p)
  {
    Turn(p, obs[RunStart(obs, b, p)].at, EndTime(obs, finish, b))
  }

  /** The turns of the runs of speaking that end before sample `n` or earlier, in order. */
  function Runs(obs: seq<Obs>, finish: int, n: nat, p: string): seq<Turn>
    requires n <= |obs|
  {
    if n == 0 then []
    else Runs(obs, finish, n - 1, p) + if EndsBefore(obs, n, p) then Kept(RunTurn(obs, finish, n, p)) else []
  }

  /** Since when `p` has been speaking at the end of the first `n` samples. */
  function SpeakingSince(obs: seq<Obs>, n: nat, p: string): Option<int>
    requires n <= |obs|
  {
    if SpeakingAt(obs, n - 1, p) then Some(obs[RunStart(obs, n, p)].at) else None
  }

  lemma SpeakingSinceStep(obs: seq<Obs>, n: nat, p: string)
    requires 0 < n <= |obs|
    ensures SpeakingSince(obs, n, p) ==
              if !Speaks(obs[n - 1].sample, p) then None
              else if SpeakingSince(obs, n - 1, p).Some? then SpeakingSince(obs, n - 1, p) else Some(obs[n - 1].at)
  {
  }

  lemma OpenStep(obs: seq<Obs>, n: nat, p: string, s: State)
    requires 0 < n <= |obs| && Lookup(s.open, p) == SpeakingSince(obs, n - 1, p)
    ensures Lookup(Observe(s, obs[n - 1].at, obs[n - 1].sample).open, p) == SpeakingSince(obs, n, p)
  {
    SpeakingSinceStep(obs, n, p);
    ObserveFor(s, obs[n - 1].at, obs[n - 1].sample, p);
  }

  lemma {:induction false} OpenIsRunStart(obs: seq<Obs>, n: nat, p: string)
    requires n <= |obs|
    ensures Lookup(After(obs, n).open, p) == SpeakingSince(obs, n, p)
    decreases n
  {
    if n > 0 {
      OpenIsRunStart(obs, n - 1, p);
      OpenStep(obs, n, p, After(obs, n - 1));
      AfterStep(obs, n);
    }
  }

  lemma AfterStep(obs: seq<Obs>, n: nat)
    requires 0 < n <= |obs|
    ensures After(obs, n) == Observe(After(obs, n - 1), obs[n - 1].at, obs[n - 1].sample)
  {
  }

  /** What closes at sample `m`, for a participant whose open turn is the run before it. */
  lemma ClosingIsRun(obs: seq<Obs>, finish: int, m: nat, p: string)
    requires 0 < m < |obs|
    ensures (if SpeakingAt(obs, m, p) then [] else Closing(Lookup(After(obs, m).open, p), p, obs[m].at))
         == if EndsBefore(obs, m, p) then Kept(RunTurn(obs, finish, m, p)) else []
  {
    OpenIsRunStart(obs, m, p);
  }

  lemma ClosedStep(obs: seq<Obs>, m: nat, p: string)
    requires m < |obs|
    ensures TurnsOf(After(obs, m + 1).closed, p) == TurnsOf(After(obs, m).closed, p) +
              if SpeakingAt(obs, m, p) then [] else Closing(Lookup(After(obs, m).open, p), p, obs[m].at)
  {
    ObserveFor(After(obs, m), obs[m].at, obs[m].sample, p);
  }

  /** What sample `m` closes, for one participant. */
  function ClosedAt(obs: seq<Obs>, finish: int, m: nat, p: string): seq<Turn> {
    if EndsBefore(obs, m, p) then Kept(RunTurn(obs, finish, m, p)) else []
  }

  lemma ClosedMore(obs: seq<Obs>, finish: int, m: nat, p: string, before: seq<Turn>)
    requires 0 < m < |obs| && TurnsOf(After(obs, m).closed, p) == before
    ensures TurnsOf(After(obs, m + 1).closed, p) == before + ClosedAt(obs, finish, m, p)
  {
    ClosedStep(obs, m, p);
    ClosingIsRun(obs, finish, m, p);
  }

  lemma RunsMore(obs: seq<Obs>, finish: int, m: nat, p: string)
    requires 0 < m <= |obs|
    ensures Runs(obs, finish, m, p) == Runs(obs, finish, m - 1, p) + ClosedAt(obs, finish, m, p)
  {
  }

  lemma NothingClosedYet(obs: seq<Obs>, p: string)
    requires obs != []
    ensures TurnsOf(After(obs, 1).closed, p) == []
  {
    ClosedStep(obs, 0, p);
    assert After(obs, 0) == START;
  }

  /** Before the last sample, what is closed is the runs that ended before it. */
  lemma {:induction false} ClosedAreRuns(obs: seq<Obs>, finish: int, m: nat, p: string)
    requires m < |obs|
    ensures TurnsOf(After(obs, m + 1).closed, p) == Runs(obs, finish, m, p)
  {
    if m == 0 {
      NothingClosedYet(obs, p);
    } else {
      ClosedAreRuns(obs, finish, m - 1, p);
      ClosedMore(obs, finish, m, p, Runs(obs, finish, m - 1, p));
      RunsMore(obs, finish, m, p);
    }
  }

  // ---------------------------------------------------------------- draining

  /** What happens to a tracker between its start and its finish. */
  datatype Event = Sampled(obs: Obs) | DrainNow

  function Observations(events: seq<Event>): seq<Obs> {
    if events == [] then []
    else
      var last := events[|events| - 1];
      Observations(events[..|events| - 1]) + if last.Sampled? then [last.obs] else []
  }

  function StateAfter(events: seq<Event>): State {
    if events == [] then START
    else
      var s := StateAfter(events[..|events| - 1]);
      match events[|events| - 1]
      case Sampled(o) => Observe(s, o.at, o.sample)
      case DrainNow => Drained(s)
  }

  function TurnsIn(batch: Option<Batch>): seq<Turn> {
    match batch case None => [] case Some(b) => b.turns
  }

  /** Every turn handed out by the drains so far, in order. */
  function HandedOut(events: seq<Event>): seq<Turn> {
    if events == [] then []
    else
      var before := events[..|events| - 1];
      HandedOut(before) + if events[|events| - 1].DrainNow? then TurnsIn(BatchOf(StateAfter(before))) else []
  }

  /** Every turn of the run: those drained along the way and those of the final batch. */
  function AllTurns(events: seq<Event>, finish: int): seq<Turn> {
    HandedOut(events) + TurnsIn(BatchOf(Finished(StateAfter(events), finish)))
  }

  function Earlier(s: State, turns: seq<Turn>): State {
    s.(closed := turns + s.closed)
  }

  lemma CloseEarlier(s: State, id: string, at: int, turns: seq<Turn>)
    ensures Close(Earlier(s, turns), id, at) == Earlier(Close(s, id, at), turns)
  {
    if Lookup(s.open, id).Some? {
      var t := Turn(id, Lookup(s.open, id).value, at);
      assert turns + s.closed + [t] == turns + (s.closed + [t]);
    }
  }

  lemma {:induction false} CloseAbsentEarlier(s: State, ids: seq<string>, speaking: seq<string>, at: int,
                                              turns: seq<Turn>)
    ensures CloseAbsent(Earlier(s, turns), ids, speaking, at) == Earlier(CloseAbsent(s, ids, speaking, at), turns)
    decreases |ids|
  {
    if ids != [] {
      CloseEarlier(s, ids[0], at, turns);
      CloseAbsentEarlier(if ids[0] in speaking then s else Close(s, ids[0], at), ids[1..], speaking, at, turns);
    }
  }

  lemma {:induction false} OpenNewEarlier(s: State, ids: seq<string>, at: int, turns: seq<Turn>)
    ensures OpenNew(Earlier(s, turns), ids, at) == Earlier(OpenNew(s, ids, at), turns)
    decreases |ids|
  {
    if ids != [] {
      var next := if Lookup(s.open, ids[0]).Some? then s else s.(open := Set(s.open, ids[0], at));
      OpenNewEarlier(next, ids[1..], at, turns);
    }
  }

  lemma {:induction false} EnrollEarlier(s: State, seen: seq<Seen>, turns: seq<Turn>)
    ensures Enroll(Earlier(s, turns), seen) == Earlier(Enroll(s, seen), turns)
    decreases |seen|
  {
    if seen != [] {
      var person := seen[0];
      EnrollEarlier(s.(participants := Set(s.participants, person.id, person.displayName),
                       localId := if person.isLocal then Some(person.id) else s.localId), seen[1..], turns);
    }
  }

  /** Turns already closed make no difference to what an observation does. */
  lemma ObserveEarlier(s: State, at: int, sample: Sample, turns: seq<Turn>)
    ensures Observe(Earlier(s, turns), at, sample) == Earlier(Observe(s, at, sample), turns)
  {
    match sample
    case None => CloseAbsentEarlier(s.(blindSamples := s.blindSamples + 1), Keys(s.open), [], at, turns);
    case Some(seen) =>
      var enrolled, speaking := Enroll(s, seen), SpeakingNow(seen);
      EnrollEarlier(s, seen, turns);
      CloseAbsentEarlier(enrolled, Keys(enrolled.open), speaking, at, turns);
      OpenNewEarlier(CloseAbsent(enrolled, Keys(enrolled.open), speaking, at), speaking, at, turns);
  }

  lemma {:induction false} AfterPrefix(a: seq<Obs>, b: seq<Obs>, n: nat)
    requires n <= |a|
    ensures After(a + b, n) == After(a, n)
  {
    if n > 0 { AfterPrefix(a, b, n - 1); }
  }

  lemma AfterOne(obs: seq<Obs>, o: Obs)
    ensures After(obs + [o], |obs| + 1) == Observe(After(obs, |obs|), o.at, o.sample)
  {
    AfterPrefix(obs, [o], |obs|);
  }

  lemma DrainEarlier(s: State, turns: seq<Turn>)
    ensures Earlier(Drained(s), turns + TurnsIn(BatchOf(s))) == Earlier(s, turns)
  {
    assert TurnsIn(BatchOf(s)) == s.closed;
  }

  lemma EventStep(events: seq<Event>)
    requires events != []
    ensures var before, last := events[..|events| - 1], events[|events| - 1];
            Observations(events) ==
              (if last.Sampled? then Observations(before) + [last.obs] else Observations(before)) &&
            HandedOut(events) == HandedOut(before) + if last.DrainNow? then TurnsIn(BatchOf(StateAfter(before))) else []
  {
  }

  /** Nothing is lost or doubled by draining: handed out plus still held is what a silent run holds. */
  lemma {:induction false} DrainsLoseNothing(events: seq<Event>)
    ensures Earlier(StateAfter(events), HandedOut(events)) == After(Observations(events), |Observations(events)|)
  {
    if events != [] {
      var before := events[..|events| - 1];
      DrainsLoseNothing(before);
      EventStep(events);
      match events[|events| - 1]
      case Sampled(o) => SampleLosesNothing(StateAfter(before), HandedOut(before), Observations(before), o);
      case DrainNow => DrainEarlier(StateAfter(before), HandedOut(before));
    }
  }

  lemma SampleLosesNothing(s: State, handed: seq<Turn>, obs: seq<Obs>, o: Obs)
    requires Earlier(s, handed) == After(obs, |obs|)
    ensures Earlier(Observe(s, o.at, o.sample), handed) == After(obs + [o], |obs| + 1)
  {
    ObserveEarlier(s, o.at, o.sample, handed);
    AfterOne(obs, o);
  }

  lemma AllTurnsAreFinished(events: seq<Event>, finish: int)
    ensures var obs := Observations(events);
            AllTurns(events, finish) == Finished(After(obs, |obs|), finish).closed
  {
    DrainsLoseNothing(events);
    CloseAbsentEarlier(StateAfter(events), Keys(StateAfter(events).open), [], finish, HandedOut(events));
  }

  // ---------------------------------------------------------------- the run as a whole

  /**
   Over a whole run, however it is drained, the turns handed out for a participant are, in order, the
   runs of samples in which they spoke, cut off at the first sample where they did not or at the
   finish, and long enough to report.
   */
  lemma TurnsAreRuns(events: seq<Event>, finish: int, p: string)
    ensures var obs := Observations(events);
            TurnsOf(AllTurns(events, finish), p) == Runs(obs, finish, |obs|, p)
  {
    AllTurnsAreFinished(events, finish);
    FinishedAreRuns(Observations(events), finish, p);
  }

  lemma FinishedAreRuns(obs: seq<Obs>, finish: int, p: string)
    ensures TurnsOf(Finished(After(obs, |obs|), finish).closed, p) == Runs(obs, finish, |obs|, p)
  {
    if obs == [] {
      FinishedFor(START, finish, p);
    } else {
      OpenIsRunStart(obs, |obs|, p);
      ClosedAreRuns(obs, finish, |obs| - 1, p);
      RunsMore(obs, finish, |obs|, p);
      LastRunCloses(obs, finish, p);
      FinishedFrom(After(obs, |obs|), SpeakingSince(obs, |obs|, p), Runs(obs, finish, |obs| - 1, p), finish, p);
    }
  }

  lemma FinishedFrom(s: State, since: Option<int>, earlier: seq<Turn>, finish: int, p: string)
    requires Lookup(s.open, p) == since && TurnsOf(s.closed, p) == earlier
    ensures TurnsOf(Finished(s, finish).closed, p) == earlier + Closing(since, p, finish)
  {
    FinishedFor(s, finish, p);
  }

  lemma LastRunCloses(obs: seq<Obs>, finish: int, p: string)
    requires obs != []
    ensures Closing(SpeakingSince(obs, |obs|, p), p, finish) == ClosedAt(obs, finish, |obs|, p)
  {
  }

  /** Samples `a` to `b - 1` all show `p` speaking, and the samples on either side do not. */
  predicate MaximalRun(obs: seq<Obs>, p: string, a: nat, b: nat) {
    a < b <= |obs| && (forall i :: a <= i < b ==> SpeakingAt(obs, i, p)) &&
    !SpeakingAt(obs, a - 1, p) && !SpeakingAt(obs, b, p)
  }

  ghost predicate IsRunTurn(obs: seq<Obs>, finish: int, n: nat, p: string, t: Turn) {
    exists a: nat, b: nat :: b <= n && MaximalRun(obs, p, a, b) &&
      t == Turn(p, obs[a].at, EndTime(obs, finish, b)) && t.end_ms - t.start_ms >= 600
  }

  lemma MaximalRunStart(obs: seq<Obs>, p: string, a: nat, b: nat)
    requires MaximalRun(obs, p, a, b)
    ensures EndsBefore(obs, b, p) && RunStart(obs, b, p) == a
  {
    assert SpeakingAt(obs, b - 1, p);
    assert !SpeakingAt(obs, RunStart(obs, b, p) - 1, p);
  }

  lemma {:induction false} RunsAreMaximal(obs: seq<Obs>, finish: int, n: nat, p: string, t: Turn)
    requires n <= |obs|
    ensures t in Runs(obs, finish, n, p) <==> IsRunTurn(obs, finish, n, p, t)
  {
    if n > 0 {
      RunsAreMaximal(obs, finish, n - 1, p, t);
      if EndsBefore(obs, n, p) && t in Kept(RunTurn(obs, finish, n, p)) {
        assert MaximalRun(obs, p, RunStart(obs, n, p), n);
      }
      if IsRunTurn(obs, finish, n, p, t) {
        var a: nat, b: nat :| b <= n && MaximalRun(obs, p, a, b) &&
          t == Turn(p, obs[a].at, EndTime(obs, finish, b)) && t.end_ms - t.start_ms >= 600;
        MaximalRunStart(obs, p, a, b);
      }
    }
  }

  /** A turn is handed out exactly when it is a maximal run of speaking that lasted long enough. */
  lemma TurnHandedOutIff(events: seq<Event>, finish: int, t: Turn)
    ensures var obs := Observations(events);
            t in AllTurns(events, finish) <==> IsRunTurn(obs, finish, |obs|, t.participant, t)
  {
    var obs := Observations(events);
    TurnsAreRuns(events, finish, t.participant);
    RunsAreMaximal(obs, finish, |obs|, t.participant, t);
    TurnsOfMember(AllTurns(events, finish), t);
  }

  lemma {:induction false} TurnsOfMember(turns: seq<Turn>, t: Turn)
    ensures t in turns <==> t in TurnsOf(turns, t.participant)
  {
    if turns != [] {
      TurnsOfMember(turns[..|turns| - 1], t);
      assert turns == turns[..|turns| - 1] + [turns[|turns| - 1]];
    }
  }

  // ---------------------------------------------------------------- a monotone clock

  predicate Monotone(obs: seq<Obs>, finish: int) {
    (forall i, j :: 0 <= i < j < |obs| ==> obs[i].at <= obs[j].at) &&
    forall i :: 0 <= i < |obs| ==> 0 <= obs[i].at <= finish
  }

  predicate Ordered(turns: seq<Turn>) {
    (forall i :: 0 <= i < |turns| ==> 0 <= turns[i].start_ms && turns[i].end_ms - turns[i].start_ms >= 600) &&
    forall i, j :: 0 <= i < j < |turns| ==> turns[i].end_ms <= turns[j].start_ms
  }

  lemma EarlierRunEndsFirst(obs: seq<Obs>, finish: int, n: nat, p: string, t: Turn)
    requires 0 < n <= |obs| && Monotone(obs, finish) && EndsBefore(obs, n, p)
    requires t in Runs(obs, finish, n - 1, p)
    ensures t.end_ms <= obs[RunStart(obs, n, p)].at
  {
    RunsAreMaximal(obs, finish, n - 1, p, t);
    var a: nat, b: nat :| b <= n - 1 && MaximalRun(obs, p, a, b) &&
      t == Turn(p, obs[a].at, EndTime(obs, finish, b)) && t.end_ms - t.start_ms >= 600;
    var start := RunStart(obs, n, p);
    assert !SpeakingAt(obs, b, p);
    assert b < start;
  }

  lemma {:induction false} RunsAreOrdered(obs: seq<Obs>, finish: int, n: nat, p: string)
    requires n <= |obs| && Monotone(obs, finish)
    ensures Ordered(Runs(obs, finish, n, p))
  {
    if n > 0 {
      RunsAreOrdered(obs, finish, n - 1, p);
      var before := Runs(obs, finish, n - 1, p);
      if EndsBefore(obs, n, p) {
        forall i | 0 <= i < |before| ensures before[i].end_ms <= obs[RunStart(obs, n, p)].at {
          EarlierRunEndsFirst(obs, finish, n, p, before[i]);
        }
      }
    }
  }

  /** With a clock that does not run backwards, a participant's turns never overlap and come in order. */
  lemma TurnsAreOrdered(events: seq<Event>, finish: int, p: string)
    requires Monotone(Observations(events), finish)
    ensures Ordered(TurnsOf(AllTurns(events, finish), p))
  {
    var obs := Observations(events);
    TurnsAreRuns(events, finish, p);
    RunsAreOrdered(obs, finish, |obs|, p);
  }

  // ---------------------------------------------------------------- the recording's clock

  /** A sample with the page's own clock reading. */
  datatype Reading = Reading(now: real, sample: Sample)

  function Timed(readings: seq<Reading>, origin: real): (obs: seq<Obs>)
    ensures |obs| == |readings|
    ensures forall i :: 0 <= i < |obs| ==> obs[i] == Obs(Elapsed(readings[i].now, origin), readings[i].sample)
  {
    seq(|readings|, i requires 0 <= i < |readings| => Obs(Elapsed(readings[i].now, origin), readings[i].sample))
  }

  lemma ElapsedMonotone(a: real, b: real, origin: real)
    requires a <= b
    ensures Elapsed(a, origin) <= Elapsed(b, origin)
  {
  }

  lemma RoundShift(x: real, d: int)
    ensures Round(x + d as real) == Round(x) + d
  {
    var n := (x + 0.5).Floor;
    assert n as real + d as real <= x + 0.5 + d as real < n as real + d as real + 1.0;
    assert (n + d) as real == n as real + d as real;
  }

  /** Starting the same page clock `d` milliseconds later in the recording adds `d` to every reading. */
  lemma ElapsedShift(now: real, start: real, offset: real, d: nat)
    requires now >= start && offset >= 0.0
    ensures Elapsed(now, start - (offset + d as real)) == Elapsed(now, start - offset) + d
  {
    var x := now - (start - offset);
    RoundShift(x, d);
    assert now - (start - (offset + d as real)) == x + d as real;
  }

  function Later(t: Turn, d: int): Turn {
    Turn(t.participant, t.start_ms + d, t.end_ms + d)
  }

  function AllLater(turns: seq<Turn>, d: int): (r: seq<Turn>)
    ensures |r| == |turns| && forall i :: 0 <= i < |r| ==> r[i] == Later(turns[i], d)
  {
    seq(|turns|, i requires 0 <= i < |turns| => Later(turns[i], d))
  }

  /** The same samples, each read `d` later. */
  predicate SameLater(a: seq<Obs>, b: seq<Obs>, d: int) {
    |a| == |b| && forall i :: 0 <= i < |a| ==> b[i].sample == a[i].sample && b[i].at == a[i].at + d
  }

  lemma {:induction false} RunStartLater(a: seq<Obs>, b: seq<Obs>, d: int, n: nat, p: string)
    requires SameLater(a, b, d) && SpeakingAt(a, n - 1, p)
    ensures SpeakingAt(b, n - 1, p) && RunStart(b, n, p) == RunStart(a, n, p)
  {
    if SpeakingAt(a, n - 2, p) { RunStartLater(a, b, d, n - 1, p); }
  }

  lemma {:induction false} RunsLater(a: seq<Obs>, b: seq<Obs>, finish: int, d: int, n: nat, p: string)
    requires SameLater(a, b, d) && n <= |a|
    ensures Runs(b, finish + d, n, p) == AllLater(Runs(a, finish, n, p), d)
  {
    if n > 0 {
      RunsLater(a, b, finish, d, n - 1, p);
      if SpeakingAt(a, n - 1, p) { RunStartLater(a, b, d, n, p); }
    }
  }

  function Samples(obs: seq<Obs>): (events: seq<Event>)
    ensures |events| == |obs| && forall i :: 0 <= i < |events| ==> events[i] == Sampled(obs[i])
  {
    seq(|obs|, i requires 0 <= i < |obs| => Sampled(obs[i]))
  }

  lemma {:induction false} SamplesAreObservations(obs: seq<Obs>)
    ensures Observations(Samples(obs)) == obs
  {
    if obs != [] {
      var before := obs[..|obs| - 1];
      SamplesAreObservations(before);
      assert Samples(obs)[..|obs| - 1] == Samples(before);
    }
  }

  lemma TimedLater(readings: seq<Reading>, start: real, offset: real, d: nat)
    requires offset >= 0.0 && forall i :: 0 <= i < |readings| ==> start <= readings[i].now
    ensures SameLater(Timed(readings, start - offset), Timed(readings, start - (offset + d as real)), d)
  {
    forall i | 0 <= i < |readings|
      ensures Elapsed(readings[i].now, start - (offset + d as real)) == Elapsed(readings[i].now, start - offset) + d {
      ElapsedShift(readings[i].now, start, offset, d);
    }
  }

  /** Everything one participant is given turns for over a run. */
  function TurnsGiven(events: seq<Event>, finish: int, p: string): seq<Turn> {
    TurnsOf(AllTurns(events, finish), p)
  }

  /** The same, when tracking began `offset` into the recording. */
  function TurnsFrom(readings: seq<Reading>, start: real, end: real, offset: real, p: string): seq<Turn> {
    var origin := start - offset;
    TurnsGiven(Samples(Timed(readings, origin)), Elapsed(end, origin), p)
  }

  function AllRuns(obs: seq<Obs>, finish: int, p: string): seq<Turn> {
    Runs(obs, finish, |obs|, p)
  }

  /** Tracking that starts `d` whole milliseconds further into the recording puts every turn exactly `d` later. */
  lemma OffsetShiftsTurns(readings: seq<Reading>, start: real, end: real, offset: real, d: nat, p: string)
    requires offset >= 0.0 && start <= end && forall i :: 0 <= i < |readings| ==> start <= readings[i].now
    ensures LaterBy(TurnsFrom(readings, start, end, offset, p),
                    TurnsFrom(readings, start, end, offset + d as real, p), d)
  {
    var a, b := Timed(readings, start - offset), Timed(readings, start - (offset + d as real));
    TimedLater(readings, start, offset, d);
    ElapsedShift(end, start, offset, d);
    LaterSamplesLaterTurns(a, b, Elapsed(end, start - offset), d, p);
  }

  lemma SampledAreRuns(obs: seq<Obs>, finish: int, p: string)
    ensures TurnsGiven(Samples(obs), finish, p) == AllRuns(obs, finish, p)
  {
    SamplesAreObservations(obs);
    TurnsAreRuns(Samples(obs), finish, p);
  }

  predicate LaterBy(turns: seq<Turn>, later: seq<Turn>, d: int) {
    later == AllLater(turns, d)
  }

  lemma AllRunsLater(a: seq<Obs>, b: seq<Obs>, finish: int, d: int, p: string)
    requires SameLater(a, b, d)
    ensures LaterBy(AllRuns(a, finish, p), AllRuns(b, finish + d, p), d)
  {
    RunsLater(a, b, finish, d, |a|, p);
  }

  /** The same samples read later give the same turns later. */
  lemma LaterSamplesLaterTurns(a: seq<Obs>, b: seq<Obs>, finish: int, d: int, p: string)
    requires SameLater(a, b, d)
    ensures LaterBy(TurnsGiven(Samples(a), finish, p), TurnsGiven(Samples(b), finish + d, p), d)
  {
    SampledAreRuns(a, finish, p);
    RunsBecomeLaterTurns(a, b, finish, d, p);
  }

  lemma RunsBecomeLaterTurns(a: seq<Obs>, b: seq<Obs>, finish: int, d: int, p: string)
    requires SameLater(a, b, d)
    ensures LaterBy(AllRuns(a, finish, p), TurnsGiven(Samples(b), finish + d, p), d)
  {
    SampledAreRuns(b, finish + d, p);
    AllRunsLater(a, b, finish, d, p);
  }

  /** A clock that does not run backwards gives readings that do not either. */
  lemma TimedIsMonotone(readings: seq<Reading>, origin: real, end: real)
    requires forall i, j :: 0 <= i < j < |readings| ==> readings[i].now <= readings[j].now
    requires forall i :: 0 <= i < |readings| ==> readings[i].now <= end
    ensures Monotone(Timed(readings, origin), Elapsed(end, origin))
  {
    forall i, j | 0 <= i < j < |readings|
      ensures Elapsed(readings[i].now, origin) <= Elapsed(readings[j].now, origin) {
      ElapsedMonotone(readings[i].now, readings[j].now, origin);
    }
    forall i | 0 <= i < |readings| ensures Elapsed(readings[i].now, origin) <= Elapsed(end, origin) {
      ElapsedMonotone(readings[i].now, end, origin);
    }
  }

  // ---------------------------------------------------------------- names

  /** Everyone with a turn, open or closed, has a name. */
  ghost predicate Named(s: State) {
    (forall p: string :: Lookup(s.open, p).Some? ==> Lookup(s.participants, p).Some?) &&
    forall i :: 0 <= i < |s.closed| ==> Lookup(s.participants, s.closed[i].participant).Some?
  }

  lemma {:induction false} EnrollNames(s: State, seen: seq<Seen>, p: string)
    ensures Lookup(Enroll(s, seen).participants, p).Some? <==>
              (Lookup(s.participants, p).Some? || exists i :: 0 <= i < |seen| && seen[i].id == p)
    decreases |seen|
  {
    if seen != [] {
      var person := seen[0];
      var next := s.(participants := Set(s.participants, person.id, person.displayName),
                     localId := if person.isLocal then Some(person.id) else s.localId);
      LookupSet(s.participants, person.id, person.displayName, p);
      EnrollNames(next, seen[1..], p);
      if i :| 0 <= i < |seen| && seen[i].id == p {
        if i > 0 { assert seen[1..][i - 1].id == p; }
      }
    }
  }

  lemma {:induction false} CloseAbsentNamed(s: State, ids: seq<string>, speaking: seq<string>, at: int)
    requires Named(s)
    ensures Named(CloseAbsent(s, ids, speaking, at))
    ensures CloseAbsent(s, ids, speaking, at).participants == s.participants
    decreases |ids|
  {
    if ids != [] {
      var next := if ids[0] in speaking then s else Close(s, ids[0], at);
      forall p: string | Lookup(next.open, p).Some? ensures Lookup(s.open, p).Some? {
        LookupRemove(s.open, ids[0], p);
      }
      CloseAbsentNamed(next, ids[1..], speaking, at);
    }
  }

  lemma {:induction false} OpenNewNamed(s: State, ids: seq<string>, at: int)
    requires Named(s) && forall i :: 0 <= i < |ids| ==> Lookup(s.participants, ids[i]).Some?
    ensures Named(OpenNew(s, ids, at))
    decreases |ids|
  {
    if ids != [] {
      var next := if Lookup(s.open, ids[0]).Some? then s else s.(open := Set(s.open, ids[0], at));
      forall p: string ensures Lookup(next.open, p).Some? ==> Lookup(s.open, p).Some? || p == ids[0] {
        LookupSet(s.open, ids[0], at, p);
      }
      OpenNewNamed(next, ids[1..], at);
    }
  }

  lemma ObserveNamed(s: State, at: int, sample: Sample)
    requires Named(s)
    ensures Named(Observe(s, at, sample))
  {
    match sample
    case None => CloseAbsentNamed(s.(blindSamples := s.blindSamples + 1), Keys(s.open), [], at);
    case Some(seen) =>
      var enrolled, speaking := Enroll(s, seen), SpeakingNow(seen);
      EnrollKeeps(s, seen);
      forall p: string ensures Lookup(enrolled.participants, p).Some? <==>
        (Lookup(s.participants, p).Some? || exists i :: 0 <= i < |seen| && seen[i].id == p) {
        EnrollNames(s, seen, p);
      }
      CloseAbsentNamed(enrolled, Keys(enrolled.open), speaking, at);
      forall i | 0 <= i < |speaking| ensures Lookup(enrolled.participants, speaking[i]).Some? {
        SpeakingNowIs(seen, speaking[i]);
      }
      OpenNewNamed(CloseAbsent(enrolled, Keys(enrolled.open), speaking, at), speaking, at);
  }

  lemma {:induction false} AlwaysNamed(events: seq<Event>)
    ensures Named(StateAfter(events))
  {
    if events != [] {
      var before := events[..|events| - 1];
      AlwaysNamed(before);
      match events[|events| - 1]
      case Sampled(o) => ObserveNamed(StateAfter(before), o.at, o.sample);
      case DrainNow =>
    }
  }

  predicate NamesItsSpeakers(batch: Option<Batch>) {
    batch.Some? ==>
      batch.value.turns != [] &&
      forall i :: 0 <= i < |batch.value.turns| ==>
        Lookup(batch.value.participants, batch.value.turns[i].participant).Some?
  }

  /** Every batch, drained or final, is worth sending and names everyone who has a turn in it. */
  lemma BatchesNameTheirSpeakers(events: seq<Event>, finish: int)
    ensures NamesItsSpeakers(BatchOf(StateAfter(events)))
    ensures NamesItsSpeakers(BatchOf(Finished(StateAfter(events), finish)))
  {
    AlwaysNamed(events);
    CloseAbsentNamed(StateAfter(events), Keys(StateAfter(events).open), [], finish);
  }

  // ---------------------------------------------------------------- who is known

  function SeenIn(sample: Sample): seq<Seen> {
    match sample case None => [] case Some(seen) => seen
  }

  function Latest<T>(newer: Option<T>, older: Option<T>): Option<T> {
    if newer.Some? then newer else older
  }

  /** The last name the sample gives `p`. */
  function NameIn(seen: seq<Seen>, p: string): Option<string> {
    if seen == [] then None
    else Latest(NameIn(seen[1..], p), if seen[0].id == p then Some(seen[0].displayName) else None)
  }

  /** The last person the sample marks as the local one. */
  function LocalIn(seen: seq<Seen>): Option<string> {
    if seen == [] then None
    else Latest(LocalIn(seen[1..]), if seen[0].isLocal then Some(seen[0].id) else None)
  }

  /** The name `p` was last shown under in the first `n` samples. */
  function LatestName(obs: seq<Obs>, n: nat, p: string): Option<string>
    requires n <= |obs|
  {
    if n == 0 then None else Latest(NameIn(SeenIn(obs[n - 1].sample), p), LatestName(obs, n - 1, p))
  }

  function LatestLocal(obs: seq<Obs>, n: nat): Option<string>
    requires n <= |obs|
  {
    if n == 0 then None else Latest(LocalIn(SeenIn(obs[n - 1].sample)), LatestLocal(obs, n - 1))
  }

  /** How many of the first `n` samples could not be read. */
  function Unreadable(obs: seq<Obs>, n: nat): nat
    requires n <= |obs|
  {
    if n == 0 then 0 else Unreadable(obs, n - 1) + if obs[n - 1].sample.None? then 1 else 0
  }

  lemma {:induction false} EnrollLatest(s: State, seen: seq<Seen>, p: string)
    ensures Lookup(Enroll(s, seen).participants, p) == Latest(NameIn(seen, p), Lookup(s.participants, p))
    ensures Enroll(s, seen).localId == Latest(LocalIn(seen), s.localId)
    ensures Enroll(s, seen).blindSamples == s.blindSamples
    decreases |seen|
  {
    if seen != [] {
      var person := seen[0];
      LookupSet(s.participants, person.id, person.displayName, p);
      EnrollLatest(s.(participants := Set(s.participants, person.id, person.displayName),
                      localId := if person.isLocal then Some(person.id) else s.localId), seen[1..], p);
    }
  }

  predicate SamePeople(a: State, b: State) {
    a.participants == b.participants && a.localId == b.localId && a.blindSamples == b.blindSamples
  }

  lemma {:induction false} CloseAbsentKeepsPeople(s: State, ids: seq<string>, speaking: seq<string>, at: int)
    ensures SamePeople(CloseAbsent(s, ids, speaking, at), s)
    decreases |ids|
  {
    if ids != [] {
      CloseAbsentKeepsPeople(if ids[0] in speaking then s else Close(s, ids[0], at), ids[1..], speaking, at);
    }
  }

  lemma {:induction false} OpenNewKeepsPeople(s: State, ids: seq<string>, at: int)
    ensures SamePeople(OpenNew(s, ids, at), s)
    decreases |ids|
  {
    if ids != [] {
      OpenNewKeepsPeople(if Lookup(s.open, ids[0]).Some? then s else s.(open := Set(s.open, ids[0], at)), ids[1..], at);
    }
  }

  lemma ObservePeople(s: State, at: int, sample: Sample, p: string)
    ensures var r := Observe(s, at, sample);
            Lookup(r.participants, p) == Latest(NameIn(SeenIn(sample), p), Lookup(s.participants, p)) &&
            r.localId == Latest(LocalIn(SeenIn(sample)), s.localId) &&
            r.blindSamples == s.blindSamples + if sample.None? then 1 else 0
  {
    match sample
    case None => CloseAbsentKeepsPeople(s.(blindSamples := s.blindSamples + 1), Keys(s.open), [], at);
    case Some(seen) =>
      var enrolled, speaking := Enroll(s, seen), SpeakingNow(seen);
      EnrollLatest(s, seen, p);
      CloseAbsentKeepsPeople(enrolled, Keys(enrolled.open), speaking, at);
      OpenNewKeepsPeople(CloseAbsent(enrolled, Keys(enrolled.open), speaking, at), speaking, at);
  }

  lemma {:induction false} AfterPeople(obs: seq<Obs>, n: nat, p: string)
    requires n <= |obs|
    ensures Lookup(After(obs, n).participants, p) == LatestName(obs, n, p)
    ensures After(obs, n).localId == LatestLocal(obs, n)
    ensures After(obs, n).blindSamples == Unreadable(obs, n)
  {
    if n > 0 {
      AfterPeople(obs, n - 1, p);
      ObservePeople(After(obs, n - 1), obs[n - 1].at, obs[n - 1].sample, p);
    }
  }

  /**
   However it is drained, a tracker knows everyone it ever saw by the name it saw last, the local
   participant it saw last, and how many samples it could not read in all.
   */
  lemma PeopleAreLatest(events: seq<Event>, p: string)
    ensures var obs, s := Observations(events), StateAfter(events);
            Lookup(s.participants, p) == LatestName(obs, |obs|, p) &&
            s.localId == LatestLocal(obs, |obs|) &&
            s.blindSamples == Unreadable(obs, |obs|)
  {
    var obs := Observations(events);
    DrainsLoseNothing(events);
    AfterPeople(obs, |obs|, p);
  }

  /**
   A tracker created when the page clock reads `begin` and the wall clock reads `wall` stamps a later
   moment with the time since the recording started, to the nearest millisecond.
   */
  lemma StampIsSinceStart(startedAt: real, wall: real, begin: real, now: real)
    requires startedAt <= wall && begin <= now
    ensures Elapsed(now, begin - ElapsedSince(Some(startedAt), wall)) == Round((now - begin) + (wall - startedAt))
  {
    assert now - (begin - (wall - startedAt)) == (now - begin) + (wall - startedAt);
  }
}
