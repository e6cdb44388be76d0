/**
 The content script's module state and the callbacks that change it in place.
 */
module ContentScript {
  import opened Text
  import opened Tracker
  import opened Session
  import P = TrackerProofs

  class MeetingPage {
    var session: Option<Live>
    var timers: map<nat, Timer>
    var nextTimer: nat
    /** Every tracker the page has made; `session` and the timers refer to them by place. */
    var trackers: seq<SpeakerTracker>
    /** What has been sent to the engine. */
    var posted: seq<Post>
    ghost var lives: seq<Life>
    ghost var lastPoll: Option<string>

    ghost predicate Valid()
      reads this
    {
      |trackers| == |lives| &&
      (forall i, j :: 0 <= i < j < |trackers| ==> trackers[i] != trackers[j]) &&
      (session.Some? ==> session.value.tracker < |trackers| && session.value.meetingId != "") &&
      forall t :: t in timers && timers[t].SampleTimer? ==> timers[t].tracker < |trackers|
    }

    ghost function Cells(): (cells: seq<Cell>)
      reads this, trackers
      ensures |cells| == |trackers|
      ensures forall i :: 0 <= i < |cells| ==> cells[i] == Cell(trackers[i].Snapshot(), trackers[i].origin)
    {
      seq(|trackers|, i requires 0 <= i < |trackers| reads this, trackers =>
        Cell(trackers[i].Snapshot(), trackers[i].origin))
    }

    ghost function View(): Page
      reads this, trackers
    {
      Page(session, timers, nextTimer, posted, Cells(), lives, lastPoll)
    }

    constructor ()
      ensures Valid() && View() == BLANK
    {
      session, timers, nextTimer, trackers, posted := None, map[], 0, [], [];
      lives, lastPoll := [], None;
    }

    method PostEvents(live: Live, batch: Option<Batch>)
      requires Valid()
      modifies this`posted
      ensures Valid() && View() == Send(old(View()), live, batch)
    {
      if batch.Some? {
        posted := posted + [Post(live.meetingId, live.engine, batch.value, live.tracker)];
      }
    }

    method StopTracking(now: real)
      requires Valid()
      modifies this, trackers
      ensures Valid() && trackers == old(trackers) && View() == Stop(old(View()), now)
    {
      if session.None? { return; }
      var live := session.value;
      ghost var before := View();
      timers := timers - {live.timer, live.flush};
      ghost var at := Elapsed(now, trackers[live.tracker].origin);
      var final := trackers[live.tracker].Finish(now);
      lives := lives[live.tracker := lives[live.tracker].(finish := Some(at))];
      session := None;
      assert Cells() == before.trackers[live.tracker := before.trackers[live.tracker].(
        state := Drained(Finished(before.trackers[live.tracker].state, at)))];
      PostEvents(live, final);
    }

    method StartTracking(found: Found, wall: real, now: real)
      requires Valid() && found.meetingId != ""
      modifies this
      ensures Valid() && View() == Start(old(View()), found, wall, now)
      ensures exists t: SpeakerTracker :: fresh(t) && trackers == old(trackers) + [t]
    {
      ghost var before := View();
      var tracker := new SpeakerTracker(now, ElapsedSince(found.startedAt, wall));
      var i, timer := |trackers|, nextTimer;
      timers := timers[timer := SampleTimer(i)][timer + 1 := FlushTimer];
      nextTimer := timer + 2;
      trackers := trackers + [tracker];
      lives := lives + [Life(found.meetingId, found.engine, tracker.origin, [], None)];
      session := Some(Live(i, found.meetingId, found.engine, timer, timer + 1));
      assert Cells() == before.trackers + [Cell(START, tracker.origin)];
    }

    /** A poll of the engine has answered. */
    method OnPoll(found: Option<Found>, wall: real, now: real)
      requires Valid()
      modifies this, trackers
      ensures Valid() && View() == Step(old(View()), PollReply(found, wall, now))
    {
      var meetingId := match found case Some(f) => f.meetingId case None => "";
      lastPoll := Recording(found);
      assert Cells() == old(Cells());
      ghost var seen := View();
      assert seen == old(View()).(lastPoll := Recording(found));
      if meetingId != "" && session.None? {
        StartTracking(found.value, wall, now);
      } else if session.Some? && meetingId != session.value.meetingId {
        StopTracking(now);
        assert View() == Stop(seen, now);
        if meetingId != "" { StartTracking(found.value, wall, now); }
      }
    }

    /** The sampling interval has fired. */
    method OnSample(timer: nat, now: real, sample: Sample)
      requires Valid() && timer in timers && timers[timer].SampleTimer?
      modifies this, trackers
      ensures Valid() && View() == Step(old(View()), SampleTick(timer, now, sample))
    {
      if session.None? { return; }
      var i := timers[timer].tracker;
      ghost var before := View();
      ghost var at := Elapsed(now, trackers[i].origin);
      trackers[i].ObserveSample(now, sample);
      lives := lives[i := lives[i].(events := lives[i].events + [P.Sampled(P.Obs(at, sample))])];
      ghost var state := Observe(before.trackers[i].state, at, sample);
      assert Cells() == before.trackers[i := before.trackers[i].(state := state)];
      if trackers[i].blindSamples > BLIND_SAMPLE_LIMIT { StopTracking(now); }
    }

    /** The flush interval has fired. */
    method OnFlush(timer: nat)
      requires Valid() && timer in timers && timers[timer].FlushTimer?
      modifies this, trackers
      ensures Valid() && View() == Step(old(View()), FlushTick(timer))
    {
      if session.None? { return; }
      var live := session.value;
      ghost var before := View();
      var batch := trackers[live.tracker].Drain();
      lives := lives[live.tracker := lives[live.tracker].(events := lives[live.tracker].events + [P.DrainNow])];
      assert Cells() == before.trackers[live.tracker := before.trackers[live.tracker].(
        state := Drained(before.trackers[live.tracker].state))];
      PostEvents(live, batch);
    }

    /** The tab is closing. */
    method OnPageHide(now: real)
      requires Valid()
      modifies this, trackers
      ensures Valid() && View() == Step(old(View()), PageHide(now))
    {
      StopTracking(now);
    }
  }
}
