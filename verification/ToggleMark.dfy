/**
 Applying or removing a mark over a selection.
 */
module ToggleMark {
  import opened Text
  import opened Markdown
  import opened Inline
  import opened InlineProofs

  datatype Selection = Selection(text: string, start: nat, end: nat)

  /** A selection a text field can report. */
  predicate InRange(s: Selection) {
    s.start <= s.end <= |s.text|
  }

  /** The delimiter a mark is written with. */
  function DelimiterFor(mark: Mark): Delimiter {
    match mark case Bold => Stars case Italic => Star case CodeMark => Tick case Strike => Tildes
  }

  function Marker(mark: Mark): string {
    Sign(DelimiterFor(mark))
  }

  function Before(s: Selection): string requires InRange(s) { s.text[..s.start] }

  function Selected(s: Selection): string requires InRange(s) { s.text[s.start..s.end] }

  function After(s: Selection): string requires InRange(s) { s.text[s.end..] }

  /** The selection of `mid` in `before + mid + after`. */
  function Select(before: string, mid: string, after: string): (s: Selection)
    ensures InRange(s) && Before(s) == before && Selected(s) == mid && After(s) == after
  {
    Selection(before + mid + after, |before|, |before| + |mid|)
  }

  lemma SelectParts(s: Selection)
    requires InRange(s)
    ensures Select(Before(s), Selected(s), After(s)) == s
  {
    assert Before(s) + Selected(s) + After(s) == s.text;
  }

  // ---------------------------------------------------------------- runs of a symbol

  /** How many `c` the text ends with. */
  function RunAtEnd(text: string, c: char): (n: nat)
    ensures n <= |text|
  {
    if text != "" && text[|text| - 1] == c then 1 + RunAtEnd(text[..|text| - 1], c) else 0
  }

  /** How many `c` the text starts with. */
  function RunAtStart(text: string, c: char): (n: nat)
    ensures n <= |text|
  {
    if text != "" && text[0] == c then 1 + RunAtStart(text[1..], c) else 0
  }

  /** The run of `c` met when walking from `from` by `step`. */
  function RunFrom(text: string, from: int, step: int, c: char): nat
    requires step == 1 || step == -1
    decreases if step == 1 then |text| - from else from + 1
  {
    if 0 <= from < |text| && text[from] == c then 1 + RunFrom(text, from + step, step, c) else 0
  }

  lemma {:induction false} RunFromEnd(text: string, i: nat, c: char)
    requires i <= |text|
    ensures RunFrom(text, i - 1, -1, c) == RunAtEnd(text[..i], c)
  {
    if i > 0 && text[i - 1] == c {
      RunFromEnd(text, i - 1, c);
      assert text[..i][..i - 1] == text[..i - 1];
    }
  }

  lemma {:induction false} RunFromStart(text: string, i: nat, c: char)
    requires i <= |text|
    ensures RunFrom(text, i, 1, c) == RunAtStart(text[i..], c)
    decreases |text| - i
  {
    if i < |text| && text[i] == c {
      RunFromStart(text, i + 1, c);
      assert text[i..][1..] == text[i + 1..];
    }
  }

  /** Counts a run in a loop, as `RunFrom` defines it. */
  method RunLength(text: string, from: int, step: int, symbol: char) returns (count: nat)
    requires step == 1 || step == -1
    ensures count == RunFrom(text, from, step, symbol)
  {
    count := 0;
    var index := from;
    while index >= 0 && index < |text| && text[index] == symbol
      invariant count + RunFrom(text, index, step, symbol) == RunFrom(text, from, step, symbol)
      decreases if step == 1 then |text| - index else index + 1
    {
      count := count + 1;
      index := index + step;
    }
  }

  // ---------------------------------------------------------------- the toggle

  /** The marker stands at both ends of `s`, without overlap. */
  predicate WrappedInside(s: string, marker: string) {
    |s| >= |marker| * 2 && marker <= s && s[|s| - |marker|..] == marker
  }

  /** The marker's symbol runs for exactly the marker's length on either side. */
  predicate WrappedOutside(before: string, after: string, marker: string)
    requires marker != ""
  {
    RunAtEnd(before, marker[0]) == |marker| && RunAtStart(after, marker[0]) == |marker|
  }

  function ToggledParts(before: string, mid: string, after: string, mark: Mark): Selection {
    var marker := Marker(mark);
    if WrappedInside(mid, marker) then Select(before, mid[|marker|..|mid| - |marker|], after)
    else if WrappedOutside(before, after, marker) then
      Select(before[..|before| - |marker|], mid, after[|marker|..])
    else Select(before + marker, mid, marker + after)
  }

  function Toggled(s: Selection, mark: Mark): Selection
    requires InRange(s)
  {
    ToggledParts(Before(s), Selected(s), After(s), mark)
  }

  /** Whether the runs on both sides of the selection are exactly as long as the marker. */
  method RunsMatch(s: Selection, marker: string) returns (outside: bool)
    requires InRange(s) && marker != ""
    ensures outside == WrappedOutside(Before(s), After(s), marker)
  {
    var left := RunLength(s.text, s.start - 1, -1, marker[0]);
    var right := RunLength(s.text, s.end, 1, marker[0]);
    RunFromEnd(s.text, s.start, marker[0]);
    RunFromStart(s.text, s.end, marker[0]);
    outside := left == |marker| && right == |marker|;
  }

  method UnwrapInside(s: Selection, n: nat) returns (r: Selection)
    requires InRange(s) && 2 * n <= |Selected(s)|
    ensures r == Select(Before(s), Selected(s)[n..|Selected(s)| - n], After(s))
  {
    var inner := s.text[s.start..s.end][n..s.end - s.start - n];
    r := Selection(s.text[..s.start] + inner + s.text[s.end..], s.start, s.start + |inner|);
  }

  method UnwrapOutside(s: Selection, n: nat) returns (r: Selection)
    requires InRange(s) && n <= s.start && s.end + n <= |s.text|
    ensures r == Select(Before(s)[..|Before(s)| - n], Selected(s), After(s)[n..])
  {
    SliceOfSlice(s.text, 0, s.start, 0, s.start - n);
    TailOfTail(s.text, s.end, n);
    r := Selection(s.text[..s.start - n] + s.text[s.start..s.end] + s.text[s.end + n..], s.start - n, s.end - n);
  }

  method WrapAround(s: Selection, marker: string) returns (r: Selection)
    requires InRange(s)
    ensures r == Select(Before(s) + marker, Selected(s), marker + After(s))
  {
    var Selection(text, start, end) := s;
    assert Before(s) + marker + Selected(s) + (marker + After(s)) ==
           Before(s) + marker + Selected(s) + marker + After(s);
    r := Selection(text[..start] + marker + text[start..end] + marker + text[end..],
                   start + |marker|, end + |marker|);
  }

  /** The toggle, case by case: unwrap inside, unwrap outside, or wrap. */
  method Toggle(s: Selection, mark: Mark) returns (r: Selection)
    requires InRange(s)
    ensures r == Toggled(s, mark)
  {
    var marker := Marker(mark);
    if WrappedInside(s.text[s.start..s.end], marker) {
      r := UnwrapInside(s, |marker|);
    } else {
      var outside := RunsMatch(s, marker);
      if outside {
        r := UnwrapOutside(s, |marker|);
      } else {
        r := WrapAround(s, marker);
      }
    }
  }

  // ---------------------------------------------------------------- what it changes

  /** The same words with a marker on either side, and the words still selected. */
  function Wrap(s: Selection, mark: Mark): Selection
    requires InRange(s)
  {
    Select(Before(s) + Marker(mark), Selected(s), Marker(mark) + After(s))
  }

  /** The wrapped words selected together with their markers. */
  function WrapAndCover(s: Selection, mark: Mark): Selection
    requires InRange(s)
  {
    Select(Before(s), Marker(mark) + Selected(s) + Marker(mark), After(s))
  }

  lemma {:induction false} RunSplitsEnd(text: string, c: char, n: nat)
    requires RunAtEnd(text, c) == n
    ensures AllSame(text[|text| - n..], c) && RunAtEnd(text[..|text| - n], c) == 0
  {
    if n > 0 {
      RunSplitsEnd(text[..|text| - 1], c, n - 1);
      assert text[..|text| - 1][..|text| - n] == text[..|text| - n];
      assert text[|text| - n..] == text[..|text| - 1][|text| - n..] + [c];
    }
  }

  lemma {:induction false} RunSplitsStart(text: string, c: char, n: nat)
    requires RunAtStart(text, c) == n
    ensures AllSame(text[..n], c) && RunAtStart(text[n..], c) == 0
  {
    if n > 0 {
      RunSplitsStart(text[1..], c, n - 1);
      assert text[1..][n - 1..] == text[n..];
      assert text[..n] == [c] + text[1..][..n - 1];
    }
  }

  /** An outside unwrap takes away exactly the marker on each side. */
  lemma OutsideParts(before: string, after: string, mark: Mark)
    requires WrappedOutside(before, after, Marker(mark))
    ensures var m := Marker(mark);
            before == before[..|before| - |m|] + m && after == m + after[|m|..] &&
            RunAtEnd(before[..|before| - |m|], m[0]) == 0 && RunAtStart(after[|m|..], m[0]) == 0
  {
    var m := Marker(mark);
    RunSplitsEnd(before, m[0], |m|);
    RunSplitsStart(after, m[0], |m|);
    assert before == before[..|before| - |m|] + before[|before| - |m|..];
    assert after == after[..|m|] + after[|m|..];
  }

  lemma InsideParts(mid: string, m: string)
    requires WrappedInside(mid, m)
    ensures mid == m + mid[|m|..|mid| - |m|] + m
  {
    assert mid == mid[..|m|] + mid[|m|..|mid| - |m|] + mid[|mid| - |m|..];
  }

  /**
   A toggle adds a marker on each side of the selected words or takes one away from each side, keeps
   the words themselves selected, and changes nothing else.
   */
  lemma ToggleOnlyMovesMarkers(s: Selection, mark: Mark)
    requires InRange(s)
    ensures var r := Toggled(s, mark);
            InRange(r) &&
            (if WrappedInside(Selected(s), Marker(mark)) then s == WrapAndCover(r, mark)
             else if WrappedOutside(Before(s), After(s), Marker(mark)) then s == Wrap(r, mark)
             else r == Wrap(s, mark))
  {
    SelectParts(s);
    if WrappedInside(Selected(s), Marker(mark)) {
      InsideParts(Selected(s), Marker(mark));
    } else if WrappedOutside(Before(s), After(s), Marker(mark)) {
      OutsideParts(Before(s), After(s), mark);
    }
  }

  // ---------------------------------------------------------------- toggling twice

  lemma {:induction false} RunAppendEnd(text: string, run: string, c: char)
    requires AllSame(run, c)
    ensures RunAtEnd(text + run, c) == RunAtEnd(text, c) + |run|
  {
    if run == "" {
      assert text + run == text;
    } else {
      assert (text + run)[..|text + run| - 1] == text + run[..|run| - 1];
      RunAppendEnd(text, run[..|run| - 1], c);
    }
  }

  lemma {:induction false} RunAppendStart(run: string, text: string, c: char)
    requires AllSame(run, c)
    ensures RunAtStart(run + text, c) == |run| + RunAtStart(text, c)
  {
    if run == "" {
      assert run + text == text;
    } else {
      assert (run + text)[1..] == run[1..] + text;
      RunAppendStart(run[1..], text, c);
    }
  }

  /** Neither neighbour of the selection is the marker's symbol. */
  predicate Bare(s: Selection, mark: Mark)
    requires InRange(s)
  {
    RunAtEnd(Before(s), Marker(mark)[0]) == 0 && RunAtStart(After(s), Marker(mark)[0]) == 0
  }

  /** What the runs around the words are once they are wrapped. */
  lemma WrappedRuns(before: string, after: string, m: string, c: char)
    requires AllSame(m, c)
    ensures RunAtEnd(before + m, c) == RunAtEnd(before, c) + |m|
    ensures RunAtStart(m + after, c) == RunAtStart(after, c) + |m|
    ensures (before + m)[..|before|] == before && (m + after)[|m|..] == after
  {
    RunAppendEnd(before, m, c);
    RunAppendStart(m, after, c);
  }

  lemma ToggleTwiceBare(before: string, mid: string, after: string, mark: Mark)
    requires !WrappedInside(mid, Marker(mark))
    requires RunAtEnd(before, Marker(mark)[0]) == 0 && RunAtStart(after, Marker(mark)[0]) == 0
    ensures ToggledParts(before + Marker(mark), mid, Marker(mark) + after, mark) == Select(before, mid, after)
  {
    WrappedRuns(before, after, Marker(mark), Marker(mark)[0]);
  }

  lemma ToggleTwiceBeside(before: string, mid: string, after: string, mark: Mark)
    requires !WrappedInside(mid, Marker(mark))
    requires RunAtEnd(before, Marker(mark)[0]) != 0 || RunAtStart(after, Marker(mark)[0]) != 0
    ensures |ToggledParts(before + Marker(mark), mid, Marker(mark) + after, mark).text| > |before| + |mid| + |after|
  {
    WrappedRuns(before, after, Marker(mark), Marker(mark)[0]);
  }

  lemma ToggleTwiceAfterWrap(s: Selection, mark: Mark)
    requires InRange(s) && !WrappedInside(Selected(s), Marker(mark))
    requires !WrappedOutside(Before(s), After(s), Marker(mark))
    ensures Toggled(Toggled(s, mark), mark) == s <==> Bare(s, mark)
    ensures Toggled(Toggled(s, mark), mark).text == s.text <==> Bare(s, mark)
  {
    SelectParts(s);
    if Bare(s, mark) {
      ToggleTwiceBare(Before(s), Selected(s), After(s), mark);
    } else {
      ToggleTwiceBeside(Before(s), Selected(s), After(s), mark);
    }
  }

  lemma ToggleTwiceAfterOutside(s: Selection, mark: Mark)
    requires InRange(s) && !WrappedInside(Selected(s), Marker(mark))
    requires WrappedOutside(Before(s), After(s), Marker(mark))
    ensures Toggled(Toggled(s, mark), mark) == s
  {
    OutsideParts(Before(s), After(s), mark);
    SelectParts(s);
  }

  /** Whether what an inside unwrap leaves is itself still wrapped, one way or the other. */
  predicate StillWrapped(s: Selection, mark: Mark)
    requires InRange(s) && WrappedInside(Selected(s), Marker(mark))
  {
    var m := Marker(mark);
    WrappedInside(Selected(s)[|m|..|Selected(s)| - |m|], m) || WrappedOutside(Before(s), After(s), m)
  }

  lemma WrapParts(before: string, m: string, mid: string, after: string)
    ensures before + m + mid + (m + after) == before + ((m + mid + m) + after)
    ensures before + m + mid + (m + after) == before + (m + mid + m) + after
  {
    Regroup(before + m + mid, m, after);
    Regroup(before, m, mid);
    Regroup(before, m + mid, m);
    Regroup(before, m + mid + m, after);
  }

  lemma PartsLength(before: string, mid: string, after: string, mark: Mark)
    ensures var r, m := ToggledParts(before, mid, after, mark), Marker(mark);
            if WrappedInside(mid, m) || WrappedOutside(before, after, m)
            then |r.text| + 2 * |m| == |before| + |mid| + |after|
            else r.text == before + (m + mid + m) + after
  {
    WrapParts(before, Marker(mark), mid, after);
  }

  lemma ToggleTwiceAfterInside(s: Selection, mark: Mark)
    requires InRange(s) && WrappedInside(Selected(s), Marker(mark))
    ensures Toggled(Toggled(s, mark), mark) != s
    ensures Toggled(Toggled(s, mark), mark).text == s.text <==> !StillWrapped(s, mark)
  {
    var m, mid := Marker(mark), Selected(s);
    var inner := mid[|m|..|mid| - |m|];
    InsideParts(mid, m);
    SelectParts(s);
    assert Toggled(s, mark) == Select(Before(s), inner, After(s));
    PartsLength(Before(s), inner, After(s), mark);
  }

  /**
   Toggling a mark twice gives back the text and the selection exactly when the first toggle removed
   markers from around the selection, or added markers where no neighbour was the marker's symbol.
   */
  lemma ToggleTwiceIff(s: Selection, mark: Mark)
    requires InRange(s)
    ensures Toggled(Toggled(s, mark), mark) == s <==>
              (!WrappedInside(Selected(s), Marker(mark)) &&
               (WrappedOutside(Before(s), After(s), Marker(mark)) || Bare(s, mark)))
  {
    if WrappedInside(Selected(s), Marker(mark)) {
      ToggleTwiceAfterInside(s, mark);
    } else if WrappedOutside(Before(s), After(s), Marker(mark)) {
      ToggleTwiceAfterOutside(s, mark);
    } else {
      ToggleTwiceAfterWrap(s, mark);
    }
  }

  /** Only the text: an inside unwrap comes back too, with the selection inside the markers. */
  lemma ToggleTwiceRestoresTextIff(s: Selection, mark: Mark)
    requires InRange(s)
    ensures Toggled(Toggled(s, mark), mark).text == s.text <==>
              (if WrappedInside(Selected(s), Marker(mark)) then !StillWrapped(s, mark)
               else WrappedOutside(Before(s), After(s), Marker(mark)) || Bare(s, mark))
  {
    if WrappedInside(Selected(s), Marker(mark)) {
      ToggleTwiceAfterInside(s, mark);
    } else if WrappedOutside(Before(s), After(s), Marker(mark)) {
      ToggleTwiceAfterOutside(s, mark);
    } else {
      ToggleTwiceAfterWrap(s, mark);
    }
  }
}
