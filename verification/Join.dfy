/**
 Telling the engine that a meeting started, at most a few times.

 A tick runs to its `await`, and the rest of it when the engine has answered; other ticks may run in
 between. `Tick` and `Answer` are those two halves.
 */
module Join {
  import opened Text

  /** A post on its way: the meeting it announces and the stay it was sent in. */
  datatype Post = Post(key: string, stay: nat)

  /** `stays` counts how often the page has come to a meeting or left one; `sent` is every post made. */
  datatype State = State(key: Option<string>, attempts: nat, accepted: bool, stays: nat, sent: seq<Post>)

  const START := State(None, 0, false, 0, [])

  datatype Outcome = Announced | Retrying | Settled | GaveUp | Idle | Posting

  function Reset(s: State): State {
    State(None, 0, false, s.stays + 1, s.sent)
  }

  /** The state once the tick knows which meeting it is for. */
  function Arrive(s: State, key: string): State {
    if s.key == Some(key) then s else State(Some(key), 0, false, s.stays + 1, s.sent)
  }

  function Tick(s: State, meeting: Option<string>, maxAttempts: nat): (State, Outcome) {
    match meeting
    case None => (Reset(s), Idle)
    case Some(key) =>
      var here := Arrive(s, key);
      if here.accepted then (here, Settled)
      else if here.attempts >= maxAttempts then (here, GaveUp)
      else (here.(attempts := here.attempts + 1, sent := here.sent + [Post(key, here.stays)]), Posting)
  }

  function Answer(s: State, ok: bool, maxAttempts: nat): (State, Outcome) {
    if ok then (s.(accepted := true), Announced)
    else (s, if s.attempts >= maxAttempts then GaveUp else Retrying)
  }

  class JoinAnnouncer {
    const maxAttempts: nat
    /** The meeting being announced, as `platform:id`. */
    var key: Option<string>
    var attempts: nat
    var accepted: bool
    ghost var stays: nat
    ghost var sent: seq<Post>

    ghost function View(): State
      reads this
    {
      State(key, attempts, accepted, stays, sent)
    }

    constructor (maxAttempts: nat)
      ensures View() == START && this.maxAttempts == maxAttempts
    {
      this.maxAttempts := maxAttempts;
      key, attempts, accepted := None, 0, false;
      stays, sent := 0, [];
    }

    method DoReset()
      modifies this
      ensures View() == Reset(old(View()))
    {
      key, attempts, accepted := None, 0, false;
      stays := stays + 1;
    }

    /** A tick up to its `await`. */
    method BeginTick(meeting: Option<string>) returns (outcome: Outcome)
      modifies this
      ensures (View(), outcome) == Tick(old(View()), meeting, maxAttempts)
    {
      if meeting.None? {
        DoReset();
        return Idle;
      }
      if meeting != key {
        key, attempts, accepted := meeting, 0, false;
        stays := stays + 1;
      }
      if accepted { return Settled; }
      if attempts >= maxAttempts { return GaveUp; }
      attempts := attempts + 1;
      sent := sent + [Post(meeting.value, stays)];
      outcome := Posting;
    }

    /** The rest of the tick, once the engine has answered or failed to. */
    method EndTick(ok: bool) returns (outcome: Outcome)
      modifies this
      ensures (View(), outcome) == Answer(old(View()), ok, maxAttempts)
    {
      if ok {
        accepted := true;
        return Announced;
      }
      outcome := if attempts >= maxAttempts then GaveUp else Retrying;
    }
  }

  /** Without a meeting all is forgotten; for an accepted or given-up one nothing changes; else one post is made. */
  lemma TickOutcomes(s: State, key: string, maxAttempts: nat)
    ensures var (left, idle) := Tick(s, None, maxAttempts);
            idle == Idle && left.key == None && left.attempts == 0 && !left.accepted && left.sent == s.sent
    ensures s.key == Some(key) && s.accepted ==> Tick(s, Some(key), maxAttempts) == (s, Settled)
    ensures s.key == Some(key) && !s.accepted && s.attempts >= maxAttempts ==>
              Tick(s, Some(key), maxAttempts) == (s, GaveUp)
    ensures maxAttempts > 0 && (s.key != Some(key) || (!s.accepted && s.attempts < maxAttempts)) ==>
              var (next, outcome) := Tick(s, Some(key), maxAttempts);
              outcome == Posting && next.key == Some(key) && !next.accepted &&
              next.attempts == (if s.key == Some(key) then s.attempts else 0) + 1 &&
              |next.sent| == |s.sent| + 1 && next.sent[..|s.sent|] == s.sent && next.sent[|s.sent|].key == key
  {
  }

  /** An acceptance settles the stay; a failure leaves it as it is, and is the last when the limit is reached. */
  lemma AnswerOutcomes(s: State, maxAttempts: nat)
    ensures Answer(s, true, maxAttempts) == (s.(accepted := true), Announced)
    ensures s.attempts < maxAttempts ==> Answer(s, false, maxAttempts) == (s, Retrying)
    ensures s.attempts >= maxAttempts ==> Answer(s, false, maxAttempts) == (s, GaveUp)
  {
  }

  // ---------------------------------------------------------------- runs

  /** `Answered(n, ok)`: the answer to the `n`th post made. */
  datatype Event = Ticked(meeting: Option<string>) | Answered(post: nat, ok: bool)

  function Step(s: State, e: Event, maxAttempts: nat): State {
    match e
    case Ticked(meeting) => Tick(s, meeting, maxAttempts).0
    case Answered(_, ok) => Answer(s, ok, maxAttempts).0
  }

  function Run(events: seq<Event>, maxAttempts: nat): State {
    if events == [] then START
    else Step(Run(events[..|events| - 1], maxAttempts), events[|events| - 1], maxAttempts)
  }

  /** Posts made in one stay. */
  function SentIn(sent: seq<Post>, stay: nat): nat {
    if sent == [] then 0
    else SentIn(sent[..|sent| - 1], stay) + if sent[|sent| - 1].stay == stay then 1 else 0
  }

  lemma SentInOne(sent: seq<Post>, post: Post, stay: nat)
    ensures SentIn(sent + [post], stay) == SentIn(sent, stay) + if post.stay == stay then 1 else 0
  {
    assert (sent + [post])[..|sent|] == sent;
  }

  lemma {:induction false} SentInNone(sent: seq<Post>, stay: nat)
    requires forall k :: 0 <= k < |sent| ==> sent[k].stay != stay
    ensures SentIn(sent, stay) == 0
  {
    if sent != [] { SentInNone(sent[..|sent| - 1], stay); }
  }

  ghost predicate Inv(s: State, maxAttempts: nat) {
    s.attempts <= maxAttempts && SentIn(s.sent, s.stays) == s.attempts &&
    (forall k :: 0 <= k < |s.sent| ==> s.sent[k].stay <= s.stays) &&
    (forall k :: 0 <= k < |s.sent| && s.sent[k].stay == s.stays ==> s.key == Some(s.sent[k].key)) &&
    forall stay: nat :: SentIn(s.sent, stay) <= maxAttempts
  }

  /** A new stay starts with nothing posted. */
  lemma NewStayKeeps(s: State, key: Option<string>, maxAttempts: nat)
    requires Inv(s, maxAttempts)
    ensures Inv(State(key, 0, false, s.stays + 1, s.sent), maxAttempts)
  {
    SentInNone(s.sent, s.stays + 1);
  }

  lemma PostKeeps(s: State, key: string, maxAttempts: nat)
    requires Inv(s, maxAttempts) && s.key == Some(key) && s.attempts < maxAttempts
    ensures Inv(s.(attempts := s.attempts + 1, sent := s.sent + [Post(key, s.stays)]), maxAttempts)
  {
    var post := Post(key, s.stays);
    SentInOne(s.sent, post, s.stays);
    forall stay: nat ensures SentIn(s.sent + [post], stay) <= maxAttempts {
      SentInOne(s.sent, post, stay);
    }
  }

  lemma TickKeeps(s: State, key: string, maxAttempts: nat)
    requires Inv(s, maxAttempts)
    ensures Inv(Tick(s, Some(key), maxAttempts).0, maxAttempts)
  {
    NewStayKeeps(s, Some(key), maxAttempts);
    var here := Arrive(s, key);
    if !here.accepted && here.attempts < maxAttempts { PostKeeps(here, key, maxAttempts); }
  }

  lemma StepKeeps(s: State, e: Event, maxAttempts: nat)
    requires Inv(s, maxAttempts)
    ensures Inv(Step(s, e, maxAttempts), maxAttempts)
  {
    match e
    case Ticked(None) => NewStayKeeps(s, None, maxAttempts);
    case Ticked(Some(key)) => TickKeeps(s, key, maxAttempts);
    case Answered(_, _) =>
  }

  /** However ticks and answers interleave, a stay on a meeting is announced at most `maxAttempts` times. */
  lemma {:induction false} AttemptsAreBounded(events: seq<Event>, maxAttempts: nat)
    ensures Inv(Run(events, maxAttempts), maxAttempts)
  {
    if events != [] {
      AttemptsAreBounded(events[..|events| - 1], maxAttempts);
      StepKeeps(Run(events[..|events| - 1], maxAttempts), events[|events| - 1], maxAttempts);
    }
  }

  // ---------------------------------------------------------------- answers in order

  /** Every post is answered before the next tick. */
  predicate OneAtATime(events: seq<Event>, maxAttempts: nat) {
    events == [] ||
    var before := events[..|events| - 1];
    OneAtATime(before, maxAttempts) &&
    match events[|events| - 1]
    case Ticked(_) => Answers(before) == |Run(before, maxAttempts).sent|
    case Answered(n, _) => n == Answers(before) && n + 1 == |Run(before, maxAttempts).sent|
  }

  function Answers(events: seq<Event>): nat {
    if events == [] then 0 else Answers(events[..|events| - 1]) + if events[|events| - 1].Answered? then 1 else 0
  }

  /** Accepted posts of one stay. */
  function AcceptedIn(events: seq<Event>, maxAttempts: nat, stay: nat): nat {
    if events == [] then 0
    else
      var before := events[..|events| - 1];
      AcceptedIn(before, maxAttempts, stay) +
      match events[|events| - 1]
      case Ticked(_) => 0
      case Answered(n, ok) =>
        var sent := Run(before, maxAttempts).sent;
        if ok && n < |sent| && sent[n].stay == stay then 1 else 0
  }

  /** The post still to be answered, if there is one, is the last and belongs to the current stay. */
  ghost predicate InOrder(events: seq<Event>, maxAttempts: nat) {
    var s := Run(events, maxAttempts);
    Inv(s, maxAttempts) &&
    (Answers(events) == |s.sent| ||
     (Answers(events) + 1 == |s.sent| && s.sent[Answers(events)].stay == s.stays && !s.accepted)) &&
    AcceptedIn(events, maxAttempts, s.stays) == (if s.accepted then 1 else 0) &&
    (forall stay: nat :: stay > s.stays ==> AcceptedIn(events, maxAttempts, stay) == 0) &&
    forall stay: nat :: AcceptedIn(events, maxAttempts, stay) <= 1
  }

  /**
   When ticks do not overlap, a stay has at most one accepted announcement, the announcer knows of it
   exactly when there was one, and nothing more is posted for that stay.
   */
  lemma {:induction false} AcceptedOnce(events: seq<Event>, maxAttempts: nat)
    requires OneAtATime(events, maxAttempts)
    ensures InOrder(events, maxAttempts)
  {
    AttemptsAreBounded(events, maxAttempts);
    if events != [] {
      var before := events[..|events| - 1];
      AcceptedOnce(before, maxAttempts);
      assert forall stay: nat :: stay > Run(before, maxAttempts).stays ==> AcceptedIn(before, maxAttempts, stay) == 0;
      match events[|events| - 1]
      case Ticked(meeting) =>
        forall stay: nat ensures AcceptedIn(events, maxAttempts, stay) == AcceptedIn(before, maxAttempts, stay) {}
      case Answered(n, ok) =>
        var s := Run(before, maxAttempts);
        forall stay: nat ensures AcceptedIn(events, maxAttempts, stay) ==
          AcceptedIn(before, maxAttempts, stay) + if ok && stay == s.stays then 1 else 0 {}
    }
  }

  // ---------------------------------------------------------------- answers in any order

  /** Answers are to posts already made. */
  predicate AnswersPosts(events: seq<Event>, maxAttempts: nat) {
    events == [] ||
    var before := events[..|events| - 1];
    AnswersPosts(before, maxAttempts) &&
    (events[|events| - 1].Answered? ==> events[|events| - 1].post < |Run(before, maxAttempts).sent|)
  }

  /** The answer does not mark the current stay on the strength of another stay's post. */
  predicate Timely(s: State, e: Event) {
    e.Answered? && e.ok ==> s.accepted || (e.post < |s.sent| && s.sent[e.post].stay == s.stays)
  }

  predicate AllTimely(events: seq<Event>, maxAttempts: nat) {
    events == [] ||
    var before := events[..|events| - 1];
    AllTimely(before, maxAttempts) && Timely(Run(before, maxAttempts), events[|events| - 1])
  }

  /** The announcer takes the current stay for accepted exactly when a post of that stay was. */
  predicate Knows(events: seq<Event>, maxAttempts: nat) {
    var s := Run(events, maxAttempts);
    s.accepted <==> AcceptedIn(events, maxAttempts, s.stays) >= 1
  }

  predicate AlwaysKnows(events: seq<Event>, maxAttempts: nat) {
    forall n :: 0 <= n <= |events| ==> Knows(events[..n], maxAttempts)
  }

  /** Nothing is accepted for a stay still to come. */
  lemma {:induction false} NoneAcceptedAhead(events: seq<Event>, maxAttempts: nat, stay: nat)
    requires stay > Run(events, maxAttempts).stays
    ensures AcceptedIn(events, maxAttempts, stay) == 0
  {
    if events != [] {
      var before := events[..|events| - 1];
      NoneAcceptedAhead(before, maxAttempts, stay);
      AttemptsAreBounded(before, maxAttempts);
    }
  }

  lemma KnowsNext(events: seq<Event>, maxAttempts: nat)
    requires events != [] && AnswersPosts(events, maxAttempts)
    requires Knows(events[..|events| - 1], maxAttempts)
    ensures Knows(events, maxAttempts) <==> Timely(Run(events[..|events| - 1], maxAttempts), events[|events| - 1])
  {
    var before := events[..|events| - 1];
    NoneAcceptedAhead(before, maxAttempts, Run(before, maxAttempts).stays + 1);
  }

  lemma PrefixesKnow(events: seq<Event>, maxAttempts: nat)
    requires events != []
    ensures AlwaysKnows(events, maxAttempts) <==>
              (AlwaysKnows(events[..|events| - 1], maxAttempts) && Knows(events, maxAttempts))
  {
    var before := events[..|events| - 1];
    assert events[..|events|] == events;
    assert forall n :: 0 <= n <= |before| ==> before[..n] == events[..n];
    if AlwaysKnows(events, maxAttempts) {
      assert Knows(events[..|events|], maxAttempts);
      forall n | 0 <= n <= |before| ensures Knows(before[..n], maxAttempts) {
        assert Knows(events[..n], maxAttempts);
      }
    } else if AlwaysKnows(before, maxAttempts) && Knows(events, maxAttempts) {
      forall n | 0 <= n <= |events| ensures Knows(events[..n], maxAttempts) {
        if n < |events| { assert Knows(before[..n], maxAttempts); }
      }
    }
  }

  /**
   However ticks and answers overlap, the announcer knows all along whether the current stay was
   accepted exactly when no acceptance of another stay's post marks a stay that was not.
   */
  lemma {:induction false} AlwaysKnowsIff(events: seq<Event>, maxAttempts: nat)
    requires AnswersPosts(events, maxAttempts)
    ensures AlwaysKnows(events, maxAttempts) <==> AllTimely(events, maxAttempts)
  {
    if events == [] {
      assert Knows([], maxAttempts);
    } else {
      var before := events[..|events| - 1];
      AlwaysKnowsIff(before, maxAttempts);
      PrefixesKnow(events, maxAttempts);
      if AlwaysKnows(before, maxAttempts) {
        assert before[..|before|] == before;
        KnowsNext(events, maxAttempts);
      }
    }
  }

  /**
   When they do overlap, an answer can come after the page has moved to another meeting, and then
   settles that one: it is never announced, however long the page stays on it.
   */
  lemma LateAnswerSettlesAnother(a: string, b: string, maxAttempts: nat)
    requires a != b && maxAttempts >= 1
    ensures var events := [Ticked(Some(a)), Ticked(Some(b)), Answered(0, true), Answered(1, false)];
            var s := Run(events, maxAttempts);
            s.key == Some(b) && s.accepted && AcceptedIn(events, maxAttempts, s.stays) == 0 &&
            Tick(s, Some(b), maxAttempts).1 == Settled
  {
    var e0 := [Ticked(Some(a))];
    var e1 := e0 + [Ticked(Some(b))];
    var e2 := e1 + [Answered(0, true)];
    var e3 := e2 + [Answered(1, false)];
    assert e0[..0] == [] && e1[..1] == e0 && e2[..2] == e1 && e3[..3] == e2;
    assert e3 == [Ticked(Some(a)), Ticked(Some(b)), Answered(0, true), Answered(1, false)];
    var none: seq<Post> := [];
    assert none + [Post(a, 1)] == [Post(a, 1)] && [Post(a, 1)] + [Post(b, 2)] == [Post(a, 1), Post(b, 2)];
    assert Run(e0[..0], maxAttempts) == START;
    var s0 := Run(e0, maxAttempts);
    assert s0 == State(Some(a), 1, false, 1, [Post(a, 1)]);
    var s1 := Run(e1, maxAttempts);
    assert s1 == State(Some(b), 1, false, 2, [Post(a, 1), Post(b, 2)]);
    assert Run(e2, maxAttempts) == s1.(accepted := true);
    assert Run(e3, maxAttempts) == s1.(accepted := true);
    assert AcceptedIn([], maxAttempts, 2) == 0;
    assert AcceptedIn(e0, maxAttempts, 2) == 0;
    assert AcceptedIn(e1, maxAttempts, 2) == 0;
    assert AcceptedIn(e2, maxAttempts, 2) == 0;
  }

  // ---------------------------------------------------------------- coming back to a meeting

  /** Posts made for one meeting, in all stays on it. */
  function SentFor(sent: seq<Post>, key: string): nat {
    if sent == [] then 0
    else SentFor(sent[..|sent| - 1], key) + if sent[|sent| - 1].key == key then 1 else 0
  }

  /** How often the page has come to the meeting. */
  function Arrivals(events: seq<Event>, maxAttempts: nat, key: string): nat {
    if events == [] then 0
    else
      var before := events[..|events| - 1];
      var arrives := events[|events| - 1] == Ticked(Some(key)) && Run(before, maxAttempts).key != Some(key);
      Arrivals(before, maxAttempts, key) + if arrives then 1 else 0
  }

  /** Posts the current stay may still make for the meeting. */
  function Spare(s: State, maxAttempts: nat, key: string): int {
    if s.key == Some(key) then maxAttempts - s.attempts else 0
  }

  lemma SentForOne(sent: seq<Post>, post: Post, key: string)
    ensures SentFor(sent + [post], key) == SentFor(sent, key) + if post.key == key then 1 else 0
  {
    assert (sent + [post])[..|sent|] == sent;
  }

  /** One step posts for the meeting only out of what the current stay has left, or by coming to it. */
  lemma StepSpends(s: State, e: Event, maxAttempts: nat, key: string)
    requires Inv(s, maxAttempts)
    ensures var t := Step(s, e, maxAttempts);
            var arrives := e == Ticked(Some(key)) && s.key != Some(key);
            SentFor(t.sent, key) + Spare(t, maxAttempts, key) <=
              SentFor(s.sent, key) + Spare(s, maxAttempts, key) + if arrives then maxAttempts else 0
  {
    match e
    case Ticked(Some(other)) => SentForOne(s.sent, Post(other, Arrive(s, other).stays), key);
    case _ =>
  }

  lemma {:induction false} SentWithinArrivals(events: seq<Event>, maxAttempts: nat, key: string)
    ensures var s := Run(events, maxAttempts);
            SentFor(s.sent, key) + Spare(s, maxAttempts, key) <= maxAttempts * Arrivals(events, maxAttempts, key)
  {
    if events != [] {
      var before, e := events[..|events| - 1], events[|events| - 1];
      SentWithinArrivals(before, maxAttempts, key);
      AttemptsAreBounded(before, maxAttempts);
      StepSpends(Run(before, maxAttempts), e, maxAttempts, key);
      OneMore(maxAttempts, Arrivals(before, maxAttempts, key));
    }
  }

  lemma OneMore(m: nat, n: nat)
    ensures m * (n + 1) == m * n + m
  {
  }

  /** Over a whole run a meeting is announced at most `maxAttempts` times for each time the page came to it. */
  lemma MeetingIsBounded(events: seq<Event>, maxAttempts: nat, key: string)
    ensures SentFor(Run(events, maxAttempts).sent, key) <= maxAttempts * Arrivals(events, maxAttempts, key)
  {
    SentWithinArrivals(events, maxAttempts, key);
    AttemptsAreBounded(events, maxAttempts);
  }

  /** `n` ticks on a meeting, each answered with a failure. */
  function Failing(key: string, n: nat): seq<Event> {
    if n == 0 then [] else Failing(key, n - 1) + [Ticked(Some(key)), Answered(n - 1, false)]
  }

  lemma RunTwo(events: seq<Event>, a: Event, b: Event, maxAttempts: nat)
    ensures Run(events + [a, b], maxAttempts) == Step(Step(Run(events, maxAttempts), a, maxAttempts), b, maxAttempts)
  {
    var one, two := events + [a], events + [a, b];
    assert two[..|two| - 1] == one && one[..|one| - 1] == events;
  }

  /** A stay on the meeting that has posted `n` times in vain; before the first, nothing has happened. */
  predicate Tried(s: State, key: string, n: nat) {
    SentFor(s.sent, key) == n && !s.accepted && s.attempts == n && (n > 0 ==> s.key == Some(key)) &&
    (n == 0 ==> s == START)
  }

  lemma TryOnceMore(s: State, key: string, n: nat, maxAttempts: nat)
    requires Tried(s, key, n) && n < maxAttempts
    ensures Tried(Step(Step(s, Ticked(Some(key)), maxAttempts), Answered(n, false), maxAttempts), key, n + 1)
  {
    SentForOne(s.sent, Post(key, Arrive(s, key).stays), key);
  }

  lemma FailingOnce(key: string, n: nat, events: seq<Event>, more: seq<Event>, maxAttempts: nat)
    requires Tried(Run(events, maxAttempts), key, n) && n < maxAttempts
    requires more == events + [Ticked(Some(key)), Answered(n, false)]
    ensures Tried(Run(more, maxAttempts), key, n + 1)
  {
    RunTwo(events, Ticked(Some(key)), Answered(n, false), maxAttempts);
    TryOnceMore(Run(events, maxAttempts), key, n, maxAttempts);
  }

  ghost predicate TriedAfter(key: string, n: nat, maxAttempts: nat) {
    forall events | events == Failing(key, n) :: Tried(Run(events, maxAttempts), key, n)
  }

  lemma TriedOneMore(key: string, n: nat, maxAttempts: nat)
    requires n < maxAttempts && TriedAfter(key, n, maxAttempts)
    ensures TriedAfter(key, n + 1, maxAttempts)
  {
    var events := Failing(key, n);
    assert Tried(Run(events, maxAttempts), key, n);
    FailingOnce(key, n, events, Failing(key, n + 1), maxAttempts);
  }

  lemma {:induction false} FailingRun(key: string, n: nat, maxAttempts: nat)
    requires n <= maxAttempts
    ensures TriedAfter(key, n, maxAttempts)
    decreases n
  {
    if n == 0 {
      assert Tried(Run([], maxAttempts), key, 0);
    } else {
      FailingRun(key, n - 1, maxAttempts);
      TriedOneMore(key, n - 1, maxAttempts);
    }
  }

  lemma PostsPastTheLimit(s: State, key: string, maxAttempts: nat)
    requires maxAttempts >= 1 && Tried(s, key, maxAttempts)
    ensures Tick(s, Some(key), maxAttempts).1 == GaveUp
    ensures var left := Step(s, Ticked(None), maxAttempts);
            SentFor(Step(left, Ticked(Some(key)), maxAttempts).sent, key) == maxAttempts + 1
  {
    SentForOne(s.sent, Post(key, s.stays + 2), key);
  }

  /** Leaving a meeting given up on and coming back announces it again, past the limit. */
  lemma ComingBackStartsOver(key: string, maxAttempts: nat)
    requires maxAttempts >= 1
    ensures var events := Failing(key, maxAttempts) + [Ticked(None), Ticked(Some(key))];
            Tick(Run(Failing(key, maxAttempts), maxAttempts), Some(key), maxAttempts).1 == GaveUp &&
            SentFor(Run(events, maxAttempts).sent, key) == maxAttempts + 1
  {
    var tried := Failing(key, maxAttempts);
    FailingRun(key, maxAttempts, maxAttempts);
    assert Tried(Run(tried, maxAttempts), key, maxAttempts);
    RunTwo(tried, Ticked(None), Ticked(Some(key)), maxAttempts);
    PostsPastTheLimit(Run(tried, maxAttempts), key, maxAttempts);
  }
}
