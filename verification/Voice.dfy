/**
 Asking out loud: a box that listens through the engine's dictation, with requests in flight.

 The words and the interface calls happen between requests and their answers; `Step` is one of them.
 */
module Voice {
  import opened Text

  datatype Phase = Idle | Starting | Listening | Finishing

  /**
   `heard` and `error` are what the box shows. The counters are the requests in flight and, as a
   history, what became of every microphone the engine opened.
   */
  datatype State = State(
    live: Phase,
    mounted: bool,
    heard: string,
    error: Option<string>,
    delivered: seq<string>,
    startsPending: nat,
    stopsPending: nat,
    opens: nat,
    stopsSent: nat,
    cancelsSent: nat,
    endedElsewhere: nat,
    abandoned: nat)

  const BLANK := State(Idle, true, "", None, [], 0, 0, 0, 0, 0, 0, 0)

  /** The two trimmed texts with one space between, or the only one that is not empty. */
  function JoinHeard(committed: string, interim: string): string {
    var a, b := Trim(committed), Trim(interim);
    if a == "" then b else if b == "" then a else a + " " + b
  }

  function SpaceBefore(draft: string): string {
    if draft == "" || IsSpace(draft[|draft| - 1]) then "" else " "
  }

  /** The draft with the trimmed words after it, set off by whitespace; the draft alone if there are none. */
  function AppendSpoken(draft: string, spoken: string): string {
    var words := Trim(spoken);
    if words == "" then draft else draft + SpaceBefore(draft) + words
  }

  /** The draft stays in front, and what is added is the words, after whitespace if anything came before. */
  lemma SpeakingKeepsTyping(draft: string, spoken: string)
    ensures var r := AppendSpoken(draft, spoken);
            draft <= r && Trim(r[|draft|..]) == Trim(spoken) &&
            (r != draft && draft != "" ==> IsSpace(draft[|draft| - 1]) || IsSpace(r[|draft|]))
  {
    var a, b := TrimSplits(spoken);
    if Trim(spoken) == "" {
      assert draft[|draft|..] == "";
    } else {
      WordsSetOff(draft, SpaceBefore(draft), Trim(spoken), AppendSpoken(draft, spoken));
    }
  }

  lemma WordsSetOff(draft: string, pad: string, words: string, r: string)
    requires words != "" && Trimmed(words) && r == draft + pad + words
    requires pad == if draft == "" || IsSpace(draft[|draft| - 1]) then "" else " "
    ensures draft <= r && Trim(r[|draft|..]) == words
    ensures draft != "" ==> IsSpace(draft[|draft| - 1]) || IsSpace(r[|draft|])
  {
    Regroup(draft, pad, words);
    assert r[|draft|..] == pad + words;
    TrimPadded(pad, words, "");
    assert pad + words + "" == pad + words;
  }

  // ---------------------------------------------------------------- steps

  /** What the engine answers to a stop: the words, or why there are none. */
  datatype Dictated = Dictated(text: string, note: Option<string>)

  datatype Event =
    | Toggle
    | Cancel
    | StartReply(failure: Option<string>)
    | StopReply(dictated: Option<Dictated>, reason: string)
    | PollReply(session: nat, listening: bool, committed: string, interim: string)
    | Unmount

  function DoToggle(s: State): State {
    match s.live
    case Idle => s.(live := Starting, heard := "", error := None, startsPending := s.startsPending + 1)
    case Listening => s.(live := Finishing, stopsPending := s.stopsPending + 1, stopsSent := s.stopsSent + 1)
    case _ => s
  }

  function DoCancel(s: State): State {
    if s.live.Listening? then s.(live := Idle, heard := "", cancelsSent := s.cancelsSent + 1) else s
  }

  function DoStartReply(s: State, failure: Option<string>): State {
    if s.startsPending == 0 then s
    else
      var t := s.(startsPending := s.startsPending - 1);
      match failure
      case None =>
        var u := t.(opens := t.opens + 1);
        // The box is gone: the new microphone is cancelled at once.
        if !u.mounted then u.(cancelsSent := u.cancelsSent + 1) else u.(live := Listening)
      case Some(message) => if !t.mounted then t else t.(live := Idle, error := Some(message))
  }

  function DoStopReply(s: State, dictated: Option<Dictated>, failure: string): State {
    if s.stopsPending == 0 then s
    else
      var t := s.(stopsPending := s.stopsPending - 1);
      if !t.mounted then t
      else
        var u := match dictated
          case Some(d) =>
            var words := Trim(d.text);
            if words != "" then t.(delivered := t.delivered + [words])
            else t.(error := Some(match d.note case Some(n) => n case None => "Nothing was heard."))
          case None => t.(error := Some(failure));
        u.(heard := "", live := Idle)
  }

  /** A poll that was sent while session number `session` was listening has answered. */
  function DoPollReply(s: State, session: nat, listening: bool, committed: string, interim: string): State {
    if !s.mounted || !s.live.Listening? then s
    else if !listening then
      var idle := s.(live := Idle, heard := "", error := Some("Stopped listening."));
      if session == s.opens then idle.(endedElsewhere := s.endedElsewhere + 1)
      else idle.(abandoned := s.abandoned + 1)
    else s.(heard := JoinHeard(committed, interim))
  }

  function DoUnmount(s: State): State {
    if !s.mounted then s
    else s.(mounted := false, cancelsSent := s.cancelsSent + if s.live.Listening? then 1 else 0)
  }

  /** The interface calls only while the box is there; answers come whenever they come. */
  predicate Possible(s: State, e: Event) {
    match e
    case Toggle | Cancel => s.mounted
    case StartReply(_) => s.startsPending > 0
    case StopReply(_, _) => s.stopsPending > 0
    case PollReply(session, _, _, _) => 1 <= session <= s.opens
    case Unmount => s.mounted
  }

  function Step(s: State, e: Event): State {
    match e
    case Toggle => DoToggle(s)
    case Cancel => DoCancel(s)
    case StartReply(failure) => DoStartReply(s, failure)
    case StopReply(dictated, failure) => DoStopReply(s, dictated, failure)
    case PollReply(session, listening, committed, interim) => DoPollReply(s, session, listening, committed, interim)
    case Unmount => DoUnmount(s)
  }

  ghost predicate Run(s: State, events: seq<Event>, t: State)
    decreases |events|
  {
    if events == [] then s == t
    else Possible(s, events[0]) && Run(Step(s, events[0]), events[1..], t)
  }

  // ---------------------------------------------------------------- the invariant

  function One(b: bool): nat { if b then 1 else 0 }

  /** The phase says which request is in flight, and every microphone opened is accounted for. */
  predicate Inv(s: State) {
    s.startsPending + s.stopsPending <= 1 &&
    (s.mounted ==> s.startsPending == One(s.live.Starting?) && s.stopsPending == One(s.live.Finishing?)) &&
    (!s.mounted ==> s.startsPending <= One(s.live.Starting?) && s.stopsPending <= One(s.live.Finishing?)) &&
    s.opens == s.stopsSent + s.cancelsSent + s.endedElsewhere + s.abandoned + One(s.mounted && s.live.Listening?) &&
    |s.delivered| + s.stopsPending <= s.stopsSent
  }

  lemma StepKeeps(s: State, e: Event)
    requires Inv(s) && Possible(s, e)
    ensures Inv(Step(s, e))
    ensures !s.mounted ==> !Step(s, e).mounted && Step(s, e).delivered == s.delivered
    ensures |Step(s, e).delivered| <= |s.delivered| + 1 && s.delivered <= Step(s, e).delivered
  {
  }

  lemma {:induction false} RunKeeps(s: State, events: seq<Event>, t: State)
    requires Inv(s) && Run(s, events, t)
    ensures Inv(t) && (!s.mounted ==> !t.mounted && t.delivered == s.delivered)
    decreases |events|
  {
    if events != [] {
      StepKeeps(s, events[0]);
      RunKeeps(Step(s, events[0]), events[1..], t);
    }
  }

  /**
   From opening the box on: never two requests in flight, at most one delivery for each microphone
   opened, and each microphone stopped, cancelled or ended elsewhere unless it is open now or its
   session was dropped on another session's answer.
   */
  lemma EveryMicrophoneIsAccountedFor(events: seq<Event>, t: State)
    requires Run(BLANK, events, t)
    ensures t.startsPending + t.stopsPending <= 1
    ensures |t.delivered| <= t.stopsSent <= t.opens
    ensures !t.mounted ==> t.opens == t.stopsSent + t.cancelsSent + t.endedElsewhere + t.abandoned
  {
    FromBlank(events, t);
  }

  lemma FromBlank(events: seq<Event>, t: State)
    requires Run(BLANK, events, t)
    ensures Inv(t)
  {
    RunKeeps(BLANK, events, t);
  }

  /** Nothing is handed over once the box is gone. */
  lemma NothingAfterUnmount(events: seq<Event>, s: State, more: seq<Event>, t: State)
    requires Run(BLANK, events, s) && !s.mounted && Run(s, more, t)
    ensures t.delivered == s.delivered && !t.mounted
  {
    FromBlank(events, s);
    RunKeeps(s, more, t);
  }

  /** The words a step hands over: those of an answered stop in an open box, trimmed, when there are any. */
  function Words(s: State, e: Event): seq<string> {
    match e
    case StopReply(Some(Dictated(text, _)), _) =>
      if s.mounted && s.stopsPending > 0 && !AllSpace(text) then [Trim(text)] else []
    case _ => []
  }

  /** Every step hands over exactly those. */
  lemma StepHandsOver(s: State, e: Event)
    ensures Step(s, e).delivered == s.delivered + Words(s, e)
  {
    match e
    case StopReply(Some(d), _) => BlankIff(d.text);
    case _ =>
  }

  /** What is said between two presses is handed over once, trimmed, and the box is idle and empty again. */
  lemma SpokenIsHandedOver(text: string, note: Option<string>)
    requires !AllSpace(text)
    ensures var listening := Step(Step(BLANK, Toggle), StartReply(None));
            var done := Step(Step(listening, Toggle), StopReply(Some(Dictated(text, note)), ""));
            listening.live.Listening? && done.delivered == [Trim(text)] && done.live.Idle? && done.heard == "" &&
            done.error == None
  {
    BlankIff(text);
  }

  /** While listening, an answered poll shows what is kept and what is guessed, one space between them. */
  lemma HeardIsShown(s: State, session: nat, committed: string, interim: string)
    requires s.mounted && s.live.Listening? && Trimmed(committed) && Trimmed(interim)
    ensures Step(s, PollReply(session, true, committed, interim)).heard ==
              if committed == "" then interim else if interim == "" then committed else committed + " " + interim
  {
  }

  /** What an open box says when it got no words: the note, the failure, or that there was nothing. */
  lemma SilenceIsExplained(s: State, dictated: Dictated, failure: string)
    requires s.mounted && s.stopsPending > 0
    ensures AllSpace(dictated.text) ==>
              var t := Step(s, StopReply(Some(dictated), failure));
              t.live.Idle? && t.heard == "" && t.error == Some(if dictated.note.Some? then dictated.note.value
                                                               else "Nothing was heard.")
    ensures var t := Step(s, StopReply(None, failure)); t.live.Idle? && t.heard == "" && t.error == Some(failure)
  {
    BlankIff(dictated.text);
  }

  /** A microphone that does not open leaves the box idle, with the reason. */
  lemma FailedStartIsIdle(s: State, message: string)
    requires s.mounted && s.live.Idle?
    ensures var t := Step(Step(s, Toggle), StartReply(Some(message)));
            Step(s, Toggle).live.Starting? && Step(s, Toggle).error == None && Step(s, Toggle).heard == "" &&
            t.live.Idle? && t.error == Some(message)
  {
  }

  /** While listening, a cancel drops what was heard and asks for the microphone to be closed; else it does nothing. */
  lemma CancelThrowsAway(s: State)
    ensures s.live.Listening? ==>
              var t := Step(s, Cancel);
              t.live.Idle? && t.heard == "" && t.delivered == s.delivered && t.cancelsSent == s.cancelsSent + 1
    ensures !s.live.Listening? ==> Step(s, Cancel) == s
  {
  }

  // ---------------------------------------------------------------- polls that answer late

  /** The answer tells an open microphone that it is closed, but was asked for about an earlier one. */
  predicate Drops(s: State, e: Event) {
    e.PollReply? && s.mounted && s.live.Listening? && !e.listening && e.session != s.opens
  }

  ghost predicate DropsNone(s: State, events: seq<Event>)
    decreases |events|
  {
    events == [] || (!Drops(s, events[0]) && DropsNone(Step(s, events[0]), events[1..]))
  }

  lemma {:induction false} AbandonedIff(s: State, events: seq<Event>, t: State)
    requires Run(s, events, t)
    ensures t.abandoned >= s.abandoned
    ensures t.abandoned == s.abandoned <==> DropsNone(s, events)
    decreases |events|
  {
    if events != [] {
      var next := Step(s, events[0]);
      assert next.abandoned == s.abandoned + One(Drops(s, events[0]));
      AbandonedIff(next, events[1..], t);
    }
  }

  /** A closed box leaves no microphone open exactly when no answer about an earlier one dropped a later one. */
  lemma ClosedBoxIsSilentIff(events: seq<Event>, t: State)
    requires Run(BLANK, events, t) && !t.mounted
    ensures t.opens == t.stopsSent + t.cancelsSent + t.endedElsewhere <==> DropsNone(BLANK, events)
  {
    FromBlank(events, t);
    AbandonedIff(BLANK, events, t);
  }

  /** Such an answer is possible: it drops the second session, whose microphone nothing then closes. */
  lemma LatePollAbandonsNext()
    ensures var s1 := Step(Step(BLANK, Toggle), StartReply(None));
            var s2 := Step(Step(Step(s1, Cancel), Toggle), StartReply(None));
            var s3 := Step(s2, PollReply(1, false, "", ""));
            Possible(s2, PollReply(1, false, "", "")) && s2.live.Listening? && s3.live.Idle? &&
            s3.opens == 2 && s3.stopsSent + s3.cancelsSent + s3.endedElsewhere == 1
  {
  }

  // ---------------------------------------------------------------- the hook

  /** The hook's refs and state, changed in place by its callbacks. */
  class VoiceInput {
    var live: Phase
    var mounted: bool
    var heard: string
    var error: Option<string>
    var delivered: seq<string>
    ghost var startsPending: nat
    ghost var stopsPending: nat
    ghost var opens: nat
    ghost var stopsSent: nat
    ghost var cancelsSent: nat
    ghost var endedElsewhere: nat
    ghost var abandoned: nat

    ghost function View(): State
      reads this
    {
      State(live, mounted, heard, error, delivered, startsPending, stopsPending, opens, stopsSent, cancelsSent,
            endedElsewhere, abandoned)
    }

    constructor ()
      ensures View() == BLANK
    {
      live, mounted, heard, error, delivered := Idle, true, "", None, [];
      startsPending, stopsPending, opens, stopsSent, cancelsSent := 0, 0, 0, 0, 0;
      endedElsewhere, abandoned := 0, 0;
    }

    method OnToggle()
      modifies this
      ensures View() == Step(old(View()), Toggle)
    {
      if live.Idle? {
        error, heard, live := None, "", Starting;
        startsPending := startsPending + 1;
      } else if live.Listening? {
        live := Finishing;
        stopsPending, stopsSent := stopsPending + 1, stopsSent + 1;
      }
    }

    method OnCancel()
      modifies this
      ensures View() == Step(old(View()), Cancel)
    {
      if !live.Listening? { return; }
      live, heard := Idle, "";
      cancelsSent := cancelsSent + 1;
    }

    /** The start request has answered. */
    method OnStartReply(failure: Option<string>)
      requires startsPending > 0
      modifies this
      ensures View() == Step(old(View()), StartReply(failure))
    {
      startsPending := startsPending - 1;
      if failure.None? {
        opens := opens + 1;
        if !mounted {
          cancelsSent := cancelsSent + 1;
          return;
        }
        live := Listening;
      } else {
        if !mounted { return; }
        live, error := Idle, failure;
      }
    }

    /** The stop request has answered. */
    method OnStopReply(dictated: Option<Dictated>, failure: string)
      requires stopsPending > 0
      modifies this
      ensures View() == Step(old(View()), StopReply(dictated, failure))
    {
      stopsPending := stopsPending - 1;
      if !mounted { return; }
      if dictated.Some? {
        var words := Trim(dictated.value.text);
        if words != "" {
          delivered := delivered + [words];
        } else {
          error := Some(if dictated.value.note.Some? then dictated.value.note.value else "Nothing was heard.");
        }
      } else {
        error := Some(failure);
      }
      heard, live := "", Idle;
    }

    /** A poll of the status has answered; `session` is the one it was sent in. */
    method OnPollReply(ghost session: nat, listening: bool, committed: string, interim: string)
      modifies this
      ensures View() == Step(old(View()), PollReply(session, listening, committed, interim))
    {
      if !mounted || !live.Listening? { return; }
      if !listening {
        live, heard, error := Idle, "", Some("Stopped listening.");
        if session == opens { endedElsewhere := endedElsewhere + 1; } else { abandoned := abandoned + 1; }
        return;
      }
      heard := JoinHeard(committed, interim);
    }

    /** The box is closed. */
    method OnUnmount()
      requires mounted
      modifies this
      ensures View() == Step(old(View()), Unmount)
    {
      mounted := false;
      if live.Listening? { cancelsSent := cancelsSent + 1; }
    }
  }
}
