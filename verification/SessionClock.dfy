/**
 What the samples of a session are stamped with, and when its turns reach the engine.
 */
module SessionClock {
  import opened Text
  import opened Tracker
  import opened Session
  import P = TrackerProofs

  lemma RoundIsNearest(x: real)
    ensures x - 0.5 < Round(x) as real <= x + 0.5
  {
  }

  // ---------------------------------------------------------------- clocks stay, sessions do not return

  lemma StopKeepsClocks(page: Page, now: real, i: nat)
    requires i < |page.trackers|
    ensures |Stop(page, now).trackers| == |page.trackers| && Stop(page, now).trackers[i].clock == page.trackers[i].clock
  {
  }

  lemma PollKeepsClocks(page: Page, found: Option<Found>, wall: real, now: real, i: nat)
    requires i < |page.trackers|
    ensures i < |Poll(page, found, wall, now).trackers|
    ensures Poll(page, found, wall, now).trackers[i].clock == page.trackers[i].clock
  {
    StopKeepsClocks(page.(lastPoll := Recording(found)), now, i);
  }

  lemma SampleKeepsClocks(page: Page, t: nat, now: real, sample: Sample, i: nat)
    requires i < |page.trackers|
    ensures i < |SampleOnce(page, t, now, sample).trackers|
    ensures SampleOnce(page, t, now, sample).trackers[i].clock == page.trackers[i].clock
  {
  }

  /** A tracker's clock is set when it is made. */
  lemma StepKeepsClocks(page: Page, e: Event, i: nat)
    requires i < |page.trackers|
    ensures i < |Step(page, e).trackers| && Step(page, e).trackers[i].clock == page.trackers[i].clock
  {
    match e
    case PollReply(found, wall, now) => PollKeepsClocks(page, found, wall, now, i);
    case SampleTick(t, now, sample) =>
      if t in page.timers && page.timers[t].SampleTimer? {
        SampleKeepsClocks(page, page.timers[t].tracker, now, sample, i);
      }
    case FlushTick(_) =>
    case PageHide(now) => StopKeepsClocks(page, now, i);
  }

  lemma StopLeavesTrackers(page: Page, now: real)
    ensures |Stop(page, now).trackers| == |page.trackers|
    ensures Stop(page, now).session.None? || Stop(page, now) == page
  {
  }

  /** A step keeps the session, ends it, or starts one on a tracker it makes. */
  lemma SessionsDoNotReturn(page: Page, e: Event)
    ensures var next := Step(page, e);
            next.session.Some? ==> next.session == page.session || next.session.value.tracker == |page.trackers|
  {
    match e
    case PollReply(found, wall, now) => StopLeavesTrackers(page.(lastPoll := Recording(found)), now);
    case _ =>
  }

  // ---------------------------------------------------------------- the start

  /** The poll finds a recording that the page is not tracking yet. */
  predicate Starts(page: Page, f: Found) {
    f.meetingId != "" && (page.session.None? || page.session.value.meetingId != f.meetingId)
  }

  /** Milliseconds into the recording: since the starting poll, and from the recording's start to that poll. */
  function SinceStart(f: Found, wall: real, begin: real, now: real): real {
    (now - begin) + match f.startedAt case Some(at) => (if at <= wall then wall - at else 0.0) case None => 0.0
  }

  /** To the nearest millisecond. */
  function Stamp(f: Found, wall: real, begin: real, now: real): int {
    Round(SinceStart(f, wall, begin, now))
  }

  lemma ClockStamps(f: Found, wall: real, begin: real, now: real)
    requires begin <= now
    ensures Elapsed(now, begin - ElapsedSince(f.startedAt, wall)) == Stamp(f, wall, begin, now)
  {
    assert now - (begin - ElapsedSince(f.startedAt, wall)) == SinceStart(f, wall, begin, now);
  }

  /** The session's two intervals and its place among the trackers. */
  ghost predicate Ticking(page: Page, t: nat, timer: nat) {
    page.session.Some? && page.session.value.tracker == t && page.session.value.timer == timer &&
    page.session.value.flush != timer && t < |page.trackers| && t < |page.lives| &&
    page.timers == map[timer := SampleTimer(t), page.session.value.flush := FlushTimer]
  }

  /** The page tracks the meeting on its tracker `t`, whose clock the starting poll set. */
  ghost predicate Follows(page: Page, t: nat, timer: nat, f: Found, wall: real, begin: real) {
    Ticking(page, t, timer) && page.session.value.meetingId == f.meetingId &&
    page.trackers[t].clock == begin - ElapsedSince(f.startedAt, wall)
  }

  ghost predicate Tracks(page: Page, t: nat, timer: nat, f: Found, wall: real, begin: real) {
    Inv(page) && Follows(page, t, timer, f, wall, begin)
  }

  lemma SessionTicks(page: Page)
    requires OneSession(page) && LivesHold(page) && page.session.Some?
    ensures Ticking(page, page.session.value.tracker, page.session.value.timer)
  {
  }

  lemma PollStarts(page: Page, f: Found, wall: real, begin: real)
    requires Inv(page) && Starts(page, f)
    ensures var next := Poll(page, Some(f), wall, begin);
            Tracks(next, |page.trackers|, page.nextTimer, f, wall, begin) && next.lives[|page.trackers|].events == []
  {
    PollKeeps(page, Some(f), wall, begin);
    StartedHere(page, f, wall, begin);
    SessionTicks(Poll(page, Some(f), wall, begin));
  }

  lemma StopLeavesCounts(page: Page, now: real)
    ensures var next := Stop(page, now);
            |next.trackers| == |page.trackers| && |next.lives| == |page.lives| && next.nextTimer == page.nextTimer
  {
  }

  lemma StartsOn(rest: Page, f: Found, wall: real, begin: real)
    requires |rest.lives| == |rest.trackers|
    ensures var next, t := Start(rest, f, wall, begin), |rest.trackers|;
            next.session == Some(Live(t, f.meetingId, f.engine, rest.nextTimer, rest.nextTimer + 1)) &&
            |next.lives| == |next.trackers| == t + 1 && next.lives[t].events == [] &&
            next.trackers[t].clock == begin - ElapsedSince(f.startedAt, wall)
  {
  }

  lemma StartedHere(page: Page, f: Found, wall: real, begin: real)
    requires |page.lives| == |page.trackers| && Starts(page, f)
    ensures var next, t := Poll(page, Some(f), wall, begin), |page.trackers|;
            next.session == Some(Live(t, f.meetingId, f.engine, page.nextTimer, page.nextTimer + 1)) &&
            |next.lives| == |next.trackers| == t + 1 && next.lives[t].events == [] &&
            next.trackers[t].clock == begin - ElapsedSince(f.startedAt, wall)
  {
    var seen := page.(lastPoll := Recording(Some(f)));
    StopLeavesCounts(seen, begin);
    StartsOn(if page.session.None? then seen else Stop(seen, begin), f, wall, begin);
  }

  // ---------------------------------------------------------------- one tick

  lemma SampleIsAdded(page: Page, t: nat, timer: nat, now: real, sample: Sample)
    requires Ticking(page, t, timer)
    ensures var next := Step(page, SampleTick(timer, now, sample));
            t < |next.lives| &&
            next.lives[t].events ==
              page.lives[t].events + [P.Sampled(P.Obs(Elapsed(now, page.trackers[t].clock), sample))]
  {
  }

  /** A tick of the session's sample timer adds that sample to the tracker's history, with its stamp. */
  lemma TickIsStamped(page: Page, t: nat, timer: nat, f: Found, wall: real, begin: real, now: real, sample: Sample)
    requires Follows(page, t, timer, f, wall, begin) && begin <= now
    ensures var next := Step(page, SampleTick(timer, now, sample));
            t < |page.lives| && t < |next.lives| &&
            next.lives[t].events == page.lives[t].events + [P.Sampled(P.Obs(Stamp(f, wall, begin, now), sample))]
  {
    ClockStamps(f, wall, begin, now);
    SampleIsAdded(page, t, timer, now, sample);
  }

  lemma ObservedMore(events: seq<P.Event>, e: P.Event)
    ensures P.Observations(events + [e]) == P.Observations(events) + if e.Sampled? then [e.obs] else []
  {
    assert (events + [e])[..|events|] == events;
  }

  // ---------------------------------------------------------------- the session so far

  /** No sample is taken before the session began. */
  predicate NotBefore(more: seq<Event>, begin: real) {
    forall i :: 0 <= i < |more| && more[i].SampleTick? ==> begin <= more[i].now
  }

  /** The ticks of one sample timer, stamped. */
  function Stamped(more: seq<Event>, timer: nat, f: Found, wall: real, begin: real): seq<P.Obs> {
    if more == [] then []
    else
      var e := more[|more| - 1];
      Stamped(more[..|more| - 1], timer, f, wall, begin) +
      if e.SampleTick? && e.timer == timer then [P.Obs(Stamp(f, wall, begin, e.now), e.sample)] else []
  }

  ghost predicate Recorded(page: Page, t: nat, obs: seq<P.Obs>) {
    t < |page.lives| && P.Observations(page.lives[t].events) == obs
  }

  lemma OtherTicksAddNothing(page: Page, e: Event, t: nat, timer: nat)
    requires Ticking(page, t, timer) && e.SampleTick? && e.timer != timer
    ensures Step(page, e) == page
  {
  }

  lemma FlushAddsNothing(page: Page, e: Event, t: nat, timer: nat)
    requires Ticking(page, t, timer) && e.FlushTick?
    ensures t < |Step(page, e).lives|
    ensures P.Observations(Step(page, e).lives[t].events) == P.Observations(page.lives[t].events)
  {
    ObservedMore(page.lives[t].events, P.DrainNow);
  }

  lemma StopEnds(page: Page, now: real, t: nat, timer: nat)
    requires Ticking(page, t, timer)
    ensures Stop(page, now).session.None? && |Stop(page, now).trackers| == |page.trackers|
  {
  }

  lemma OtherAnswersAddNothing(page: Page, e: Event, t: nat, timer: nat)
    requires Ticking(page, t, timer) && (e.PollReply? || e.PageHide?) && Step(page, e).session == page.session
    ensures Step(page, e).lives == page.lives
  {
    match e
    case PollReply(found, wall, now) => StopEnds(page.(lastPoll := Recording(found)), now, t, timer);
    case PageHide(now) => StopEnds(page, now, t, timer);
  }

  lemma OtherStepsAddNothing(page: Page, e: Event, t: nat, timer: nat)
    requires Ticking(page, t, timer) && Step(page, e).session == page.session
    requires !(e.SampleTick? && e.timer == timer)
    ensures t < |Step(page, e).lives|
    ensures P.Observations(Step(page, e).lives[t].events) == P.Observations(page.lives[t].events)
  {
    match e
    case SampleTick(_, _, _) => OtherTicksAddNothing(page, e, t, timer);
    case FlushTick(_) => FlushAddsNothing(page, e, t, timer);
    case _ => OtherAnswersAddNothing(page, e, t, timer);
  }

  lemma StepTracks(page: Page, e: Event, t: nat, timer: nat, f: Found, wall: real, begin: real)
    requires Tracks(page, t, timer, f, wall, begin) && Step(page, e).session == page.session
    ensures Tracks(Step(page, e), t, timer, f, wall, begin)
  {
    StepKeeps(page, e);
    StepKeepsClocks(page, e, t);
    SessionTicks(Step(page, e));
  }

  lemma StepRecords(page: Page, e: Event, t: nat, timer: nat, f: Found, wall: real, begin: real, obs: seq<P.Obs>)
    requires Follows(page, t, timer, f, wall, begin) && Step(page, e).session == page.session && Recorded(page, t, obs)
    requires e.SampleTick? ==> begin <= e.now
    ensures Recorded(Step(page, e), t,
                     obs + if e.SampleTick? && e.timer == timer
                           then [P.Obs(Stamp(f, wall, begin, e.now), e.sample)] else [])
  {
    if e.SampleTick? && e.timer == timer {
      TickIsStamped(page, t, timer, f, wall, begin, e.now, e.sample);
      ObservedMore(page.lives[t].events, P.Sampled(P.Obs(Stamp(f, wall, begin, e.now), e.sample)));
    } else {
      OtherStepsAddNothing(page, e, t, timer);
    }
  }

  lemma LastOfAll<T>(start: seq<T>, more: seq<T>)
    requires more != []
    ensures start + more == (start + more[..|more| - 1]) + [more[|more| - 1]]
  {
  }

  lemma RunGrows(start: seq<Event>, more: seq<Event>)
    requires more != []
    ensures Run(start + more) == Step(Run(start + more[..|more| - 1]), more[|more| - 1])
  {
    LastOfAll(start, more);
    RunOne(start + more[..|more| - 1], more[|more| - 1]);
  }

  lemma {:induction false} TrackersOnlyGrow(start: seq<Event>, more: seq<Event>)
    ensures |Run(start).trackers| <= |Run(start + more).trackers|
  {
    if more == [] {
      assert start + more == start;
    } else {
      TrackersOnlyGrow(start, more[..|more| - 1]);
      RunGrows(start, more);
      var page := Run(start + more[..|more| - 1]);
      if page.trackers != [] { StepKeepsClocks(page, more[|more| - 1], |page.trackers| - 1); }
    }
  }

  ghost predicate InSession(page: Page, t: nat) {
    page.session.Some? && page.session.value.tracker == t
  }

  /** `start` is a run whose last poll started a session, on tracker `t` with sample timer `timer`. */
  ghost predicate Started(before: seq<Event>, start: seq<Event>, t: nat, timer: nat, f: Found, wall: real,
                          begin: real) {
    Starts(Run(before), f) && start == before + [PollReply(Some(f), wall, begin)] &&
    t == |Run(before).trackers| && timer == Run(before).nextTimer
  }

  lemma StartTracks(before: seq<Event>, start: seq<Event>, t: nat, timer: nat, f: Found, wall: real, begin: real)
    requires Started(before, start, t, timer, f, wall, begin)
    ensures Tracks(Run(start), t, timer, f, wall, begin) && Recorded(Run(start), t, []) && |Run(start).trackers| > t
  {
    RunKeeps(before);
    RunOne(before, PollReply(Some(f), wall, begin));
    PollStarts(Run(before), f, wall, begin);
  }

  lemma StillInSession(page: Page, e: Event, t: nat)
    requires InSession(Step(page, e), t) && t < |page.trackers|
    ensures Step(page, e).session == page.session && InSession(page, t)
  {
    SessionsDoNotReturn(page, e);
  }

  /**
   As long as the session lasts, its history is the ticks of its own sample timer since the poll that
   started it, in order, each stamped with the time since the recording began.
   */
  lemma {:induction false} SessionHistoryIs(before: seq<Event>, start: seq<Event>, more: seq<Event>, t: nat, timer: nat,
                                            f: Found, wall: real, begin: real)
    requires Started(before, start, t, timer, f, wall, begin) && NotBefore(more, begin)
    requires InSession(Run(start + more), t)
    ensures Tracks(Run(start + more), t, timer, f, wall, begin)
    ensures Recorded(Run(start + more), t, Stamped(more, timer, f, wall, begin))
    decreases |more|
  {
    StartTracks(before, start, t, timer, f, wall, begin);
    if more == [] {
      assert start + more == start;
    } else {
      var earlier, e := more[..|more| - 1], more[|more| - 1];
      var page := Run(start + earlier);
      RunGrows(start, more);
      TrackersOnlyGrow(start, earlier);
      StillInSession(page, e, t);
      SessionHistoryIs(before, start, earlier, t, timer, f, wall, begin);
      StepTracks(page, e, t, timer, f, wall, begin);
      StepRecords(page, e, t, timer, f, wall, begin, Stamped(earlier, timer, f, wall, begin));
    }
  }

  // ---------------------------------------------------------------- the end

  /** The event ends tracking the meeting at `now`: the page goes, or a poll finds it is not being recorded. */
  predicate EndsSession(e: Event, meetingId: string, now: real) {
    e == PageHide(now) || (e.PollReply? && e.now == now && Recording(e.found) != Some(meetingId))
  }

  lemma StopFinishes(page: Page, now: real, t: nat, timer: nat)
    requires Ticking(page, t, timer)
    ensures |Stop(page, now).lives| == |page.lives|
    ensures Stop(page, now).lives[t] == page.lives[t].(finish := Some(Elapsed(now, page.trackers[t].clock)))
  {
  }

  lemma EndFinishes(page: Page, e: Event, t: nat, timer: nat, now: real)
    requires Ticking(page, t, timer) && EndsSession(e, page.session.value.meetingId, now)
    ensures t < |Step(page, e).lives|
    ensures Step(page, e).lives[t] == page.lives[t].(finish := Some(Elapsed(now, page.trackers[t].clock)))
  {
    match e
    case PollReply(found, _, _) => StopFinishes(page.(lastPoll := Recording(found)), now, t, timer);
    case _ => StopFinishes(page, now, t, timer);
  }

  lemma EndIsStamped(page: Page, e: Event, t: nat, timer: nat, f: Found, wall: real, begin: real, now: real)
    requires Follows(page, t, timer, f, wall, begin) && begin <= now && EndsSession(e, f.meetingId, now)
    ensures t < |page.lives| && t < |Step(page, e).lives|
    ensures Step(page, e).lives[t] == page.lives[t].(finish := Some(Stamp(f, wall, begin, now)))
  {
    ClockStamps(f, wall, begin, now);
    EndFinishes(page, e, t, timer, now);
  }

  /**
   What a whole session posts for a participant: the runs of samples in which they spoke, from the
   first to the last, on the recording's clock.
   */
  lemma SessionPostsOnRecordingClock(before: seq<Event>, start: seq<Event>, more: seq<Event>, e: Event, t: nat,
                                     timer: nat, f: Found, wall: real, begin: real, now: real, p: string)
    requires Started(before, start, t, timer, f, wall, begin) && NotBefore(more, begin) && begin <= now
    requires InSession(Run(start + more), t) && EndsSession(e, f.meetingId, now)
    ensures var obs := Stamped(more, timer, f, wall, begin);
            P.TurnsOf(PostedBy(Run(start + more + [e]).posted, t), p)
            == P.Runs(obs, Stamp(f, wall, begin, now), |obs|, p)
  {
    SessionHistoryIs(before, start, more, t, timer, f, wall, begin);
    RunOne(start + more, e);
    EndIsStamped(Run(start + more), e, t, timer, f, wall, begin, now);
    SessionPostsItsRuns(start + more + [e], t, p);
  }

  // ---------------------------------------------------------------- flushing, and polls that change nothing

  lemma FlushSends(page: Page, live: Live)
    requires Inv(page) && page.session == Some(live)
    ensures var next, state := Flush(page), page.trackers[live.tracker].state;
            next.session == page.session &&
            PostedBy(next.posted, live.tracker) == PostedBy(page.posted, live.tracker) + state.closed
  {
    var cell, life := page.trackers[live.tracker], page.lives[live.tracker];
    var told := SetTracker(page, live.tracker, Drained(cell.state), life.(events := life.events + [P.DrainNow]));
    SendPosts(told, live, BatchOf(cell.state), live.tracker);
  }

  /** Once the flushing timer has fired, every turn that the samples so far have closed has been posted. */
  lemma FlushPostsAllClosed(events: seq<Event>)
    requires Run(events).session.Some?
    ensures var page := Run(events);
            var live, obs := page.session.value, P.Observations(History(page));
            var next := Run(events + [FlushTick(live.flush)]);
            next.session == page.session && PostedBy(next.posted, live.tracker) == P.After(obs, |obs|).closed
  {
    var page := Run(events);
    var live := page.session.value;
    RunKeeps(events);
    RunOne(events, FlushTick(live.flush));
    FlushSends(page, live);
    var life := page.lives[live.tracker];
    assert LifeHolds(page.trackers[live.tracker], life, PostedBy(page.posted, live.tracker));
    P.DrainsLoseNothing(life.events);
  }

  lemma ClosedBeforeLast(obs: seq<P.Obs>, closed: seq<Turn>, p: string)
    requires obs != [] && closed == P.After(obs, |obs|).closed
    ensures P.TurnsOf(closed, p) == P.Runs(obs, 0, |obs| - 1, p)
  {
    P.ClosedAreRuns(obs, 0, |obs| - 1, p);
  }

  /** For each participant: the runs of speaking that ended before the last sample. */
  lemma FlushPostsEndedRuns(events: seq<Event>, page: Page, next: Page, obs: seq<P.Obs>, p: string)
    requires page == Run(events) && page.session.Some? && obs == P.Observations(History(page)) && obs != []
    requires next == Run(events + [FlushTick(page.session.value.flush)])
    ensures P.TurnsOf(PostedBy(next.posted, page.session.value.tracker), p) == P.Runs(obs, 0, |obs| - 1, p)
  {
    FlushPostsAllClosed(events);
    ClosedBeforeLast(obs, PostedBy(next.posted, page.session.value.tracker), p);
  }

  /** A poll that finds the meeting being tracked changes nothing but the answer it remembers. */
  lemma SamePollChangesNothing(events: seq<Event>, found: Option<Found>, wall: real, now: real)
    requires Run(events).session.Some? && Recording(found) == Some(Run(events).session.value.meetingId)
    ensures Run(events + [PollReply(found, wall, now)]) == Run(events).(lastPoll := Recording(found))
  {
    RunOne(events, PollReply(found, wall, now));
  }

  /** When the page goes, the session is over and no interval is left. */
  lemma PageHideEnds(events: seq<Event>, now: real)
    ensures var next := Run(events + [PageHide(now)]); next.session.None? && next.timers == map[]
  {
    RunKeeps(events + [PageHide(now)]);
    RunOne(events, PageHide(now));
    RunKeeps(events);
    StopKeeps(Run(events), now);
  }
}
