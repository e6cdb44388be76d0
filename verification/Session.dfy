/**
 The content script's tracking session: polling the engine, starting and stopping a tracker with the
 recording, sampling, flushing, and giving up on an unreadable page.

 JavaScript runs each callback, and each stretch of code after an `await`, to its end before anything
 else. `Step` is one such stretch. What the engine and the page answer is part of the event.
 */
module Session {
  import opened Text
  import opened Tracker
  import P = TrackerProofs

  const BLIND_SAMPLE_LIMIT: nat := 120

  /** What `activeRecording` found: the meeting, the engine that has it, and when it began. */
  datatype Found = Found(meetingId: string, engine: string, startedAt: Option<real>)

  /** A tracker is referred to by its place among all the page has made. */
  datatype Live = Live(tracker: nat, meetingId: string, engine: string, timer: nat, flush: nat)

  /** A live interval and what its callback closes over. */
  datatype Timer = SampleTimer(tracker: nat) | FlushTimer

  /** A batch sent to the engine, and the tracker it came from. */
  datatype Post = Post(meetingId: string, engine: string, batch: Batch, tracker: nat)

  datatype Cell = Cell(state: State, clock: real)

  /** The history of one tracker: what it was for, what happened to it, and when it was finished. */
  datatype Life = Life(meetingId: string, engine: string, clock: real, events: seq<P.Event>, finish: Option<int>)

  datatype Page = Page(
    session: Option<Live>,
    timers: map<nat, Timer>,
    nextTimer: nat,
    posted: seq<Post>,
    trackers: seq<Cell>,
    lives: seq<Life>,
    lastPoll: Option<string>)

  const BLANK := Page(None, map[], 0, [], [], [], None)

  datatype Event =
    | PollReply(found: Option<Found>, wall: real, now: real)
    | SampleTick(timer: nat, now: real, sample: Sample)
    | FlushTick(timer: nat)
    | PageHide(now: real)

  // ---------------------------------------------------------------- one step

  function Send(page: Page, live: Live, batch: Option<Batch>): Page {
    match batch
    case None => page
    case Some(b) => page.(posted := page.posted + [Post(live.meetingId, live.engine, b, live.tracker)])
  }

  function SetTracker(page: Page, i: nat, state: State, life: Life): Page {
    if i < |page.trackers| && i < |page.lives| then
      page.(trackers := page.trackers[i := page.trackers[i].(state := state)], lives := page.lives[i := life])
    else page
  }

  function Stop(page: Page, now: real): Page {
    match page.session
    case None => page
    case Some(live) =>
      if live.tracker < |page.trackers| && live.tracker < |page.lives| then
        var cell, life := page.trackers[live.tracker], page.lives[live.tracker];
        var at := Elapsed(now, cell.clock);
        var finished := Finished(cell.state, at);
        var stopped := SetTracker(page, live.tracker, Drained(finished), life.(finish := Some(at)));
        Send(stopped.(session := None, timers := page.timers - {live.timer, live.flush}), live, BatchOf(finished))
      else page
  }

  function Start(page: Page, found: Found, wall: real, now: real): Page {
    var clock := now - ElapsedSince(found.startedAt, wall);
    var i, timer := |page.trackers|, page.nextTimer;
    page.(session := Some(Live(i, found.meetingId, found.engine, timer, timer + 1)),
          timers := page.timers[timer := SampleTimer(i)][timer + 1 := FlushTimer],
          nextTimer := timer + 2,
          trackers := page.trackers + [Cell(START, clock)],
          lives := page.lives + [Life(found.meetingId, found.engine, clock, [], None)])
  }

  /** A missing meeting id and an empty one both mean that nothing is recording. */
  function Recording(found: Option<Found>): Option<string> {
    match found
    case None => None
    case Some(f) => if f.meetingId == "" then None else Some(f.meetingId)
  }

  function Poll(page: Page, found: Option<Found>, wall: real, now: real): Page {
    var seen := page.(lastPoll := Recording(found));
    match (Recording(found), page.session)
    case (Some(_), None) => Start(seen, found.value, wall, now)
    case (None, Some(_)) => Stop(seen, now)
    case (Some(id), Some(live)) =>
      if id == live.meetingId then seen else Start(Stop(seen, now), found.value, wall, now)
    case (None, None) => seen
  }

  function SampleOnce(page: Page, i: nat, now: real, sample: Sample): Page {
    if page.session.None? || i >= |page.trackers| || i >= |page.lives| then page
    else
      var cell, life := page.trackers[i], page.lives[i];
      var at := Elapsed(now, cell.clock);
      var state := Observe(cell.state, at, sample);
      var seen := SetTracker(page, i, state, life.(events := life.events + [P.Sampled(P.Obs(at, sample))]));
      if state.blindSamples > BLIND_SAMPLE_LIMIT then Stop(seen, now) else seen
  }

  function Flush(page: Page): Page {
    match page.session
    case None => page
    case Some(live) =>
      if live.tracker < |page.trackers| && live.tracker < |page.lives| then
        var cell, life := page.trackers[live.tracker], page.lives[live.tracker];
        Send(SetTracker(page, live.tracker, Drained(cell.state), life.(events := life.events + [P.DrainNow])),
             live, BatchOf(cell.state))
      else page
  }

  /** One callback. A cleared timer's callback does not run. */
  function Step(page: Page, e: Event): Page {
    match e
    case PollReply(found, wall, now) => Poll(page, found, wall, now)
    case SampleTick(t, now, sample) =>
      if t in page.timers && page.timers[t].SampleTimer? then SampleOnce(page, page.timers[t].tracker, now, sample)
      else page
    case FlushTick(t) => if t in page.timers && page.timers[t].FlushTimer? then Flush(page) else page
    case PageHide(now) => Stop(page, now)
  }

  function Run(events: seq<Event>): Page {
    if events == [] then BLANK else Step(Run(events[..|events| - 1]), events[|events| - 1])
  }

  // ---------------------------------------------------------------- the invariant

  /** Turns posted from one tracker, in the order they were posted. */
  function PostedBy(posted: seq<Post>, i: nat): seq<Turn> {
    if posted == [] then []
    else
      var last := posted[|posted| - 1];
      PostedBy(posted[..|posted| - 1], i) + if last.tracker == i then last.batch.turns else []
  }

  /** No session and no live timer, or one session with its own two timers, on its own tracker. */
  ghost predicate OneSession(page: Page) {
    match page.session
    case None => page.timers == map[]
    case Some(live) =>
      live.timer != live.flush &&
      page.timers == map[live.timer := SampleTimer(live.tracker), live.flush := FlushTimer] &&
      live.timer < page.nextTimer && live.flush < page.nextTimer &&
      live.tracker < |page.lives| && live.meetingId == page.lives[live.tracker].meetingId &&
      live.engine == page.lives[live.tracker].engine && live.meetingId != "" &&
      page.lastPoll == Some(live.meetingId)
  }

  /** What has been posted from a tracker is what its history says it handed out. */
  ghost predicate LifeHolds(cell: Cell, life: Life, posted: seq<Turn>) {
    cell.clock == life.clock &&
    (match life.finish
     case None => cell.state == P.StateAfter(life.events) && posted == P.HandedOut(life.events)
     case Some(at) => posted == P.AllTurns(life.events, at))
  }

  ghost predicate PostFits(page: Page, post: Post) {
    post.tracker < |page.lives| && post.meetingId == page.lives[post.tracker].meetingId &&
    post.engine == page.lives[post.tracker].engine && P.NamesItsSpeakers(Some(post.batch))
  }

  /** Every history holds, and only the session's own tracker is unfinished. */
  ghost predicate LivesHold(page: Page) {
    |page.lives| == |page.trackers| &&
    (forall i :: 0 <= i < |page.lives| ==>
       LifeHolds(page.trackers[i], page.lives[i], PostedBy(page.posted, i))) &&
    forall i :: 0 <= i < |page.lives| ==>
      (page.lives[i].finish.None? <==> page.session.Some? && page.session.value.tracker == i)
  }

  ghost predicate PostsFit(page: Page) {
    forall k :: 0 <= k < |page.posted| ==> PostFits(page, page.posted[k])
  }

  ghost predicate Sound(page: Page) {
    OneSession(page) && LivesHold(page) && PostsFit(page)
  }

  ghost predicate Inv(page: Page) {
    Sound(page) &&
    (page.session.Some? ==> page.trackers[page.session.value.tracker].state.blindSamples <= BLIND_SAMPLE_LIMIT)
  }

  lemma PostedByOne(posted: seq<Post>, post: Post, i: nat)
    ensures PostedBy(posted + [post], i) == PostedBy(posted, i) + if post.tracker == i then post.batch.turns else []
  {
    assert (posted + [post])[..|posted|] == posted;
  }

  lemma {:induction false} PostedByNone(posted: seq<Post>, i: nat)
    requires forall k :: 0 <= k < |posted| ==> posted[k].tracker != i
    ensures PostedBy(posted, i) == []
  {
    if posted != [] { PostedByNone(posted[..|posted| - 1], i); }
  }

  /** Sending a batch adds its turns to its own tracker's and no other's. */
  lemma SendPosts(page: Page, live: Live, batch: Option<Batch>, i: nat)
    ensures PostedBy(Send(page, live, batch).posted, i)
         == PostedBy(page.posted, i) + if live.tracker == i then P.TurnsIn(batch) else []
  {
    if batch.Some? {
      PostedByOne(page.posted, Post(live.meetingId, live.engine, batch.value, live.tracker), i);
    }
  }

  lemma EventAppended(events: seq<P.Event>, e: P.Event)
    ensures P.StateAfter(events + [e]) ==
              match e case Sampled(o) => Observe(P.StateAfter(events), o.at, o.sample)
                      case DrainNow => Drained(P.StateAfter(events))
    ensures P.HandedOut(events + [e]) ==
              P.HandedOut(events) + if e.DrainNow? then P.TurnsIn(BatchOf(P.StateAfter(events))) else []
  {
    assert (events + [e])[..|events|] == events;
  }

  /** The page with one tracker finished and its last batch sent. */
  lemma StopKeeps(page: Page, now: real)
    requires Sound(page)
    ensures Inv(Stop(page, now)) && Stop(page, now).session.None?
    ensures Stop(page, now).lastPoll == page.lastPoll
  {
    if page.session.Some? {
      var live := page.session.value;
      var cell, life := page.trackers[live.tracker], page.lives[live.tracker];
      var at := Elapsed(now, cell.clock);
      assert LifeHolds(cell, life, PostedBy(page.posted, live.tracker));
      P.BatchesNameTheirSpeakers(life.events, at);
      StopKeepsLives(page, now);
      StopKeepsPosts(page, now);
      assert Stop(page, now).timers == map[];
    }
  }

  /** Finishing a tracker hands out the rest of its turns. */
  lemma FinishedLife(cell: Cell, life: Life, posted: seq<Turn>, at: int)
    requires LifeHolds(cell, life, posted) && life.finish.None?
    ensures posted + P.TurnsIn(BatchOf(Finished(cell.state, at))) == P.AllTurns(life.events, at)
  {
  }

  lemma StopKeepsLives(page: Page, now: real)
    requires Sound(page)
    ensures LivesHold(Stop(page, now))
  {
    var next := Stop(page, now);
    if page.session.Some? {
      var live := page.session.value;
      var cell := page.trackers[live.tracker];
      var at := Elapsed(now, cell.clock);
      var batch := BatchOf(Finished(cell.state, at));
      forall i | 0 <= i < |next.lives|
        ensures LifeHolds(next.trackers[i], next.lives[i], PostedBy(next.posted, i)) {
        SendPosts(page, live, batch, i);
        var before := PostedBy(page.posted, i);
        assert LifeHolds(page.trackers[i], page.lives[i], before);
        if i == live.tracker { FinishedLife(cell, page.lives[i], before, at); }
      }
    }
  }

  lemma StopKeepsPosts(page: Page, now: real)
    requires Sound(page)
    requires page.session.Some? ==>
               var cell := page.trackers[page.session.value.tracker];
               P.NamesItsSpeakers(BatchOf(Finished(cell.state, Elapsed(now, cell.clock))))
    ensures PostsFit(Stop(page, now))
  {
    var next := Stop(page, now);
    forall k | 0 <= k < |next.posted| ensures PostFits(next, next.posted[k]) {
      if k < |page.posted| { assert PostFits(page, page.posted[k]); }
    }
  }

  lemma NothingPostedAhead(page: Page)
    requires PostsFit(page)
    ensures PostedBy(page.posted, |page.lives|) == []
  {
    forall k | 0 <= k < |page.posted| ensures page.posted[k].tracker != |page.lives| {
      assert PostFits(page, page.posted[k]);
    }
    PostedByNone(page.posted, |page.lives|);
  }

  lemma NewLifeHolds(found: Found, clock: real)
    ensures LifeHolds(Cell(START, clock), Life(found.meetingId, found.engine, clock, [], None), [])
  {
  }

  lemma OldLifeHolds(page: Page, next: Page, i: nat)
    requires i < |page.trackers| && i < |page.lives| && i < |next.trackers| && i < |next.lives|
    requires next.trackers[i] == page.trackers[i] && next.lives[i] == page.lives[i] && next.posted == page.posted
    requires LifeHolds(page.trackers[i], page.lives[i], PostedBy(page.posted, i))
    ensures LifeHolds(next.trackers[i], next.lives[i], PostedBy(next.posted, i))
  {
  }

  lemma StartKeepsFinishes(page: Page, found: Found, wall: real, now: real, i: nat)
    requires LivesHold(page) && page.session.None? && i <= |page.lives|
    ensures var next := Start(page, found, wall, now);
            |next.trackers| == |next.lives| == |page.lives| + 1 && next.session.Some? &&
            (next.lives[i].finish.None? <==> next.session.value.tracker == i)
  {
  }

  lemma NewLifeAt(page: Page, found: Found, wall: real, now: real)
    requires LivesHold(page) && PostsFit(page)
    ensures var next, i := Start(page, found, wall, now), |page.lives|;
            |next.trackers| == |next.lives| == i + 1 &&
            LifeHolds(next.trackers[i], next.lives[i], PostedBy(next.posted, i))
  {
    NothingPostedAhead(page);
    NewLifeHolds(found, now - ElapsedSince(found.startedAt, wall));
  }

  lemma StartKeepsLives(page: Page, found: Found, wall: real, now: real)
    requires LivesHold(page) && PostsFit(page) && page.session.None?
    ensures LivesHold(Start(page, found, wall, now))
  {
    var next := Start(page, found, wall, now);
    NewLifeAt(page, found, wall, now);
    forall i | 0 <= i < |page.lives|
      ensures LifeHolds(next.trackers[i], next.lives[i], PostedBy(next.posted, i)) {
      OldLifeHolds(page, next, i);
    }
    forall i | 0 <= i < |next.lives|
      ensures next.lives[i].finish.None? <==> next.session.Some? && next.session.value.tracker == i {
      StartKeepsFinishes(page, found, wall, now, i);
    }
  }

  lemma StartKeepsPosts(page: Page, found: Found, wall: real, now: real)
    requires PostsFit(page)
    ensures PostsFit(Start(page, found, wall, now))
  {
    var next := Start(page, found, wall, now);
    forall k | 0 <= k < |next.posted| ensures PostFits(next, next.posted[k]) {
      assert PostFits(page, page.posted[k]);
    }
  }

  lemma StartKeeps(page: Page, found: Found, wall: real, now: real)
    requires Inv(page) && page.session.None? && found.meetingId != "" && page.lastPoll == Some(found.meetingId)
    ensures Inv(Start(page, found, wall, now))
  {
    StartKeepsLives(page, found, wall, now);
    StartKeepsPosts(page, found, wall, now);
  }

  lemma SeenKeeps(page: Page, polled: Option<string>)
    requires Inv(page) && (page.session.Some? ==> polled == Some(page.session.value.meetingId))
    ensures Inv(page.(lastPoll := polled))
  {
    var next := page.(lastPoll := polled);
    forall k | 0 <= k < |next.posted| ensures PostFits(next, next.posted[k]) {
      assert PostFits(page, page.posted[k]);
    }
  }

  /** Only what the poll answered differs, so stopping does the same before and after it is noted. */
  lemma StopIgnoresPoll(page: Page, polled: Option<string>, now: real)
    ensures Stop(page.(lastPoll := polled), now) == Stop(page, now).(lastPoll := polled)
  {
  }

  lemma PollKeeps(page: Page, found: Option<Found>, wall: real, now: real)
    requires Inv(page)
    ensures Inv(Poll(page, found, wall, now))
  {
    var polled := Recording(found);
    if page.session.Some? && polled == Some(page.session.value.meetingId) {
      SeenKeeps(page, polled);
    } else {
      StopKeeps(page, now);
      StopIgnoresPoll(page, polled, now);
      SeenKeeps(Stop(page, now), polled);
      if polled.Some? { StartKeeps(Stop(page, now).(lastPoll := polled), found.value, wall, now); }
    }
  }

  /** The page once `e` happened to the session's tracker and what it makes was sent. */
  function Told(page: Page, live: Live, life: Life, e: P.Event): Page
    requires live.tracker < |page.trackers| && live.tracker < |page.lives|
  {
    var events := life.events + [e];
    Send(SetTracker(page, live.tracker, P.StateAfter(events), life.(events := events)), live, Emitted(life, e))
  }

  /** The batch an event makes a tracker send. */
  function Emitted(life: Life, e: P.Event): Option<Batch> {
    if e.DrainNow? then BatchOf(P.StateAfter(life.events)) else None
  }

  lemma LongerLife(cell: Cell, life: Life, posted: seq<Turn>, e: P.Event)
    requires LifeHolds(cell, life, posted) && life.finish.None?
    ensures var events := life.events + [e];
            LifeHolds(cell.(state := P.StateAfter(events)), life.(events := events),
                      posted + P.TurnsIn(Emitted(life, e)))
  {
    EventAppended(life.events, e);
  }

  /** What one more event of the session's tracker does to the life of tracker `i`. */
  lemma EventKeepsLife(page: Page, live: Live, life: Life, e: P.Event, i: nat)
    requires LivesHold(page) && page.session == Some(live) && i < |page.lives|
    requires live.tracker < |page.lives| && page.lives[live.tracker] == life
    ensures var next := Told(page, live, life, e);
            |next.lives| == |next.trackers| == |page.lives| &&
            LifeHolds(next.trackers[i], next.lives[i], PostedBy(next.posted, i))
  {
    var events := life.events + [e];
    var told := SetTracker(page, live.tracker, P.StateAfter(events), life.(events := events));
    var posted := PostedBy(page.posted, i);
    SendPosts(told, live, Emitted(life, e), i);
    assert LifeHolds(page.trackers[i], page.lives[i], posted);
    if i == live.tracker { LongerLife(page.trackers[i], life, posted, e); } else { assert posted + [] == posted; }
  }

  lemma EventKeepsLives(page: Page, live: Live, life: Life, e: P.Event)
    requires LivesHold(page) && page.session == Some(live)
    requires live.tracker < |page.lives| && page.lives[live.tracker] == life
    ensures LivesHold(Told(page, live, life, e))
  {
    var next := Told(page, live, life, e);
    forall i | 0 <= i < |page.lives|
      ensures LifeHolds(next.trackers[i], next.lives[i], PostedBy(next.posted, i)) {
      EventKeepsLife(page, live, life, e, i);
    }
  }

  lemma EventKeepsPosts(page: Page, live: Live, life: Life, e: P.Event)
    requires PostsFit(page) && live.tracker < |page.trackers|
    requires live.tracker < |page.lives| && page.lives[live.tracker] == life
    requires life.meetingId == live.meetingId && life.engine == live.engine
    ensures PostsFit(Told(page, live, life, e))
  {
    var next := Told(page, live, life, e);
    P.BatchesNameTheirSpeakers(life.events, 0);
    forall k | 0 <= k < |next.posted| ensures PostFits(next, next.posted[k]) {
      if k < |page.posted| { assert PostFits(page, page.posted[k]); }
    }
  }

  /** One more event in the life of the session's tracker, with the batch it sends, if any. */
  lemma EventKeeps(page: Page, live: Live, life: Life, e: P.Event)
    requires Sound(page) && page.session == Some(live) && page.lives[live.tracker] == life
    ensures Sound(Told(page, live, life, e))
  {
    EventKeepsLives(page, live, life, e);
    EventKeepsPosts(page, live, life, e);
  }

  lemma SampleKeeps(page: Page, now: real, sample: Sample)
    requires Inv(page) && page.session.Some?
    ensures Inv(SampleOnce(page, page.session.value.tracker, now, sample))
  {
    var live := page.session.value;
    var cell, life := page.trackers[live.tracker], page.lives[live.tracker];
    var e := P.Sampled(P.Obs(Elapsed(now, cell.clock), sample));
    assert LifeHolds(cell, life, PostedBy(page.posted, live.tracker));
    EventAppended(life.events, e);
    EventKeeps(page, live, life, e);
    if P.StateAfter(life.events + [e]).blindSamples > BLIND_SAMPLE_LIMIT { StopKeeps(Told(page, live, life, e), now); }
  }

  lemma FlushKeeps(page: Page)
    requires Inv(page)
    ensures Inv(Flush(page))
  {
    if page.session.Some? {
      var live := page.session.value;
      var life := page.lives[live.tracker];
      assert LifeHolds(page.trackers[live.tracker], life, PostedBy(page.posted, live.tracker));
      EventAppended(life.events, P.DrainNow);
      EventKeeps(page, live, life, P.DrainNow);
    }
  }

  /** Every callback, in any order, keeps the session's invariant. */
  lemma StepKeeps(page: Page, e: Event)
    requires Inv(page)
    ensures Inv(Step(page, e))
  {
    match e
    case PollReply(found, wall, now) => PollKeeps(page, found, wall, now);
    case SampleTick(t, now, sample) =>
      if t in page.timers && page.timers[t].SampleTimer? { SampleKeeps(page, now, sample); }
    case FlushTick(t) => FlushKeeps(page);
    case PageHide(now) => StopKeeps(page, now);
  }

  lemma {:induction false} RunKeeps(events: seq<Event>)
    ensures Inv(Run(events))
  {
    if events != [] {
      RunKeeps(events[..|events| - 1]);
      StepKeeps(Run(events[..|events| - 1]), events[|events| - 1]);
    }
  }

  // ---------------------------------------------------------------- what a run guarantees

  /** A page that is not tracking has no interval left that could read the page. */
  lemma InertUnlessRecording(events: seq<Event>)
    ensures Run(events).session.None? ==> Run(events).timers == map[]
    ensures Run(events).session.Some? ==> Run(events).lastPoll == Some(Run(events).session.value.meetingId)
    ensures Run(events).session.Some? ==> |Run(events).timers| == 2
  {
    RunKeeps(events);
  }

  /** A batch goes to the engine and the meeting its tracker was started for, and names its speakers. */
  lemma PostsGoWhereTheyBelong(events: seq<Event>, k: nat)
    requires k < |Run(events).posted|
    ensures var page := Run(events);
            var post := page.posted[k];
            post.tracker < |page.lives| && post.meetingId == page.lives[post.tracker].meetingId &&
            post.engine == page.lives[post.tracker].engine && P.NamesItsSpeakers(Some(post.batch))
  {
    RunKeeps(events);
    assert PostFits(Run(events), Run(events).posted[k]);
  }

  /**
   Once a session is over, what was posted from it is every turn of its samples, once: for each
   participant, the runs in which they were seen speaking.
   */
  lemma SessionPostsItsRuns(events: seq<Event>, i: nat, p: string)
    requires i < |Run(events).lives| && Run(events).lives[i].finish.Some?
    ensures var page := Run(events);
            var life := page.lives[i];
            var obs := P.Observations(life.events);
            P.TurnsOf(PostedBy(page.posted, i), p) == P.Runs(obs, life.finish.value, |obs|, p)
  {
    var page := Run(events);
    RunKeeps(events);
    assert LifeHolds(page.trackers[i], page.lives[i], PostedBy(page.posted, i));
    P.TurnsAreRuns(page.lives[i].events, page.lives[i].finish.value, p);
  }

  /** A session ends with the recording, and giving up on a page lasts until the next poll. */
  lemma PollDecides(events: seq<Event>, found: Option<Found>, wall: real, now: real)
    ensures var next := Run(events + [PollReply(found, wall, now)]);
            match Recording(found)
            case None => next.session.None?
            case Some(id) => next.session.Some? && next.session.value.meetingId == id
  {
    RunKeeps(events);
    RunOne(events, PollReply(found, wall, now));
    PollDecidesHere(Run(events), found, wall, now);
  }

  lemma PollDecidesHere(page: Page, found: Option<Found>, wall: real, now: real)
    requires Inv(page)
    ensures var next := Poll(page, found, wall, now);
            match Recording(found)
            case None => next.session.None?
            case Some(id) => next.session.Some? && next.session.value.meetingId == id
  {
    StopKeeps(page, now);
    StopIgnoresPoll(page, Recording(found), now);
  }

  // ---------------------------------------------------------------- giving up

  /** What has happened to the session's tracker so far. */
  function History(page: Page): seq<P.Event> {
    match page.session
    case None => []
    case Some(live) => if live.tracker < |page.lives| then page.lives[live.tracker].events else []
  }

  /** The samples of a history that could not be read. */
  function Unread(history: seq<P.Event>): nat {
    P.Unreadable(P.Observations(history), |P.Observations(history)|)
  }

  lemma RunOne(events: seq<Event>, e: Event)
    ensures Run(events + [e]) == Step(Run(events), e)
  {
    assert (events + [e])[..|events|] == events;
  }

  lemma SampleGivesUpIff(page: Page, live: Live, now: real, sample: Sample)
    requires Inv(page) && page.session == Some(live)
    ensures var next := SampleOnce(page, live.tracker, now, sample);
            next.session == (if Unread(History(page)) + (if sample.None? then 1 else 0) > BLIND_SAMPLE_LIMIT
                             then None else Some(live))
    ensures page.trackers[live.tracker].state.blindSamples == Unread(History(page))
  {
    var cell, life := page.trackers[live.tracker], page.lives[live.tracker];
    assert LifeHolds(cell, life, PostedBy(page.posted, live.tracker));
    P.PeopleAreLatest(life.events, "");
    P.ObservePeople(cell.state, Elapsed(now, cell.clock), sample, "");
  }

  /** A sample ends the session exactly when the unreadable samples of its whole history now exceed the limit. */
  lemma GivesUpIff(events: seq<Event>, now: real, sample: Sample)
    requires Run(events).session.Some?
    ensures var page := Run(events);
            var next := Run(events + [SampleTick(page.session.value.timer, now, sample)]);
            next.session.None? <==>
              Unread(History(page)) + (if sample.None? then 1 else 0) > 120
  {
    RunKeeps(events);
    var page := Run(events);
    RunOne(events, SampleTick(page.session.value.timer, now, sample));
    SampleGivesUpIff(page, page.session.value, now, sample);
  }

  /** A recording is found, and then `n` samples of its page cannot be read. */
  function BlindRun(found: Found, wall: real, now: real, n: nat): seq<Event> {
    if n == 0 then [PollReply(Some(found), wall, now)]
    else BlindRun(found, wall, now, n - 1) + [SampleTick(0, now, None)]
  }

  /** The first session of the page, its tracker having met `n` unreadable samples. */
  ghost predicate Watching(page: Page, found: Found, n: nat) {
    Inv(page) && page.session == Some(Live(0, found.meetingId, found.engine, 0, 1)) &&
    page.trackers[0].state.blindSamples == n
  }

  lemma FirstPollWatches(found: Found, wall: real, now: real)
    requires found.meetingId != ""
    ensures Watching(Run([PollReply(Some(found), wall, now)]), found, 0)
  {
    var none: seq<Event> := [];
    assert none + [PollReply(Some(found), wall, now)] == [PollReply(Some(found), wall, now)];
    RunOne(none, PollReply(Some(found), wall, now));
    RunKeeps([PollReply(Some(found), wall, now)]);
  }

  lemma BlindStepWatches(page: Page, found: Found, now: real, n: nat)
    requires Watching(page, found, n) && n < BLIND_SAMPLE_LIMIT
    ensures Watching(Step(page, SampleTick(0, now, None)), found, n + 1)
  {
    StepKeeps(page, SampleTick(0, now, None));
    SampleGivesUpIff(page, page.session.value, now, None);
    P.ObservePeople(page.trackers[0].state, Elapsed(now, page.trackers[0].clock), None, "");
  }

  lemma BlindSampleWatches(events: seq<Event>, more: seq<Event>, found: Found, now: real, n: nat)
    requires Watching(Run(events), found, n) && n < BLIND_SAMPLE_LIMIT
    requires more == events + [SampleTick(0, now, None)]
    ensures Watching(Run(more), found, n + 1)
  {
    RunOne(events, SampleTick(0, now, None));
    BlindStepWatches(Run(events), found, now, n);
  }

  ghost predicate WatchesAfter(found: Found, wall: real, now: real, n: nat) {
    forall events | events == BlindRun(found, wall, now, n) :: Watching(Run(events), found, n)
  }

  lemma WatchesAtFirst(found: Found, wall: real, now: real)
    requires found.meetingId != ""
    ensures WatchesAfter(found, wall, now, 0)
  {
    assert BlindRun(found, wall, now, 0) == [PollReply(Some(found), wall, now)];
    FirstPollWatches(found, wall, now);
  }

  lemma WatchesOneMore(found: Found, wall: real, now: real, n: nat)
    requires n < BLIND_SAMPLE_LIMIT && WatchesAfter(found, wall, now, n)
    ensures WatchesAfter(found, wall, now, n + 1)
  {
    var events := BlindRun(found, wall, now, n);
    assert Watching(Run(events), found, n);
    BlindSampleWatches(events, BlindRun(found, wall, now, n + 1), found, now, n);
  }

  /** Up to the limit the session goes on. */
  lemma BlindRunGoesOn(found: Found, wall: real, now: real, n: nat)
    requires found.meetingId != "" && n <= BLIND_SAMPLE_LIMIT
    ensures WatchesAfter(found, wall, now, n)
  {
    var k := 0;
    WatchesAtFirst(found, wall, now);
    while k < n
      invariant k <= n && WatchesAfter(found, wall, now, k)
    {
      WatchesOneMore(found, wall, now, k);
      k := k + 1;
    }
  }

  /** One unreadable sample later it is given up, and the next poll that finds the recording starts it again. */
  lemma GivenUpIsRestarted(found: Found, wall: real, now: real)
    requires found.meetingId != ""
    ensures var events := BlindRun(found, wall, now, 121);
            var again := Run(events + [PollReply(Some(found), wall, now)]);
            Run(events).session.None? && again.session.Some? && again.session.value.meetingId == found.meetingId
  {
    var n := BLIND_SAMPLE_LIMIT;
    BlindRunGoesOn(found, wall, now, n);
    assert Watching(Run(BlindRun(found, wall, now, n)), found, n);
    var page := Run(BlindRun(found, wall, now, n));
    RunOne(BlindRun(found, wall, now, n), SampleTick(0, now, None));
    SampleGivesUpIff(page, page.session.value, now, None);
    PollDecides(BlindRun(found, wall, now, n + 1), Some(found), wall, now);
  }
}
