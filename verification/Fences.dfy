/**
 Code in a file, told by its characters: what opens it, what closes it, and what is read between.
 */
module Fences {
  import opened Text
  import opened Markdown
  import opened RoundTrip
  import Dialect

  /** After its leading whitespace the line goes on with three backticks; anything may follow them. */
  predicate Backticked(line: string) {
    var t := TrimStart(line);
    |t| >= 3 && t[0] == '`' && t[1] == '`' && t[2] == '`'
  }

  /** Such as ` ```python`. */
  lemma InfoMayFollow(pad: string, info: string)
    requires AllSpace(pad)
    ensures Backticked(pad + ("```" + info))
  {
    TrimStartPadded(pad, "```" + info);
  }

  lemma FenceIsBackticked(line: string)
    ensures IsFence(line) <==> Backticked(line)
  {
    var t := TrimStart(line);
    TrimEndSplits(t);
    if Backticked(line) {
      assert !IsSpace('`');
      KeepsTicks(t, Trim(line));
    }
  }

  lemma KeepsTicks(t: string, kept: string)
    requires |t| >= 3 && t[0] == '`' && t[1] == '`' && t[2] == '`'
    requires |kept| <= |t| && t[..|kept|] == kept && AllSpace(t[|kept|..])
    ensures "```" <= kept
  {
    forall k | |kept| <= k < |t| ensures IsSpace(t[k]) { assert t[|kept|..][k - |kept|] == t[k]; }
  }

  // ---------------------------------------------------------------- reading goes on

  lemma TurnNeedsCeiling(lines: seq<string>, p: Option<Item>, q: Option<Item>)
    requires lines != [] && Ceiling(p) == Ceiling(q)
    ensures ReadBlock(lines, p) == ReadBlock(lines, q)
  {
  }

  /** Reading needs to know of the block before only how deep the next may be. */
  lemma {:induction false} ReadingNeedsCeiling(lines: seq<string>, p: Option<Item>, q: Option<Item>)
    requires Ceiling(p) == Ceiling(q)
    ensures ReadLines(lines, p) == ReadLines(lines, q)
    decreases |lines|
  {
    if lines != [] {
      TurnNeedsCeiling(lines, p, q);
      var r := ReadBlock(lines, p);
      if r.found.None? { ReadingNeedsCeiling(lines[r.used..], p, q); }
    }
  }

  predicate Blank(lines: seq<string>) {
    forall i :: 0 <= i < |lines| ==> AllSpace(lines[i])
  }

  lemma BlankLineIsNothing(line: string, prev: Option<Item>)
    requires AllSpace(line)
    ensures !IsFence(line) && !IsPipeLine(line) && ReadLine(line, prev).None?
  {
    BlankIff(line);
    BlankHasNothingVisible(line);
  }

  lemma OtherLineIsSomething(line: string, prev: Option<Item>)
    requires !AllSpace(line)
    ensures ReadLine(line, prev).Some?
  {
    BlankIff(line);
  }

  /** Only blank lines read as nothing. */
  lemma {:induction false} NothingReadIff(lines: seq<string>, prev: Option<Item>)
    ensures ReadLines(lines, prev) == [] <==> Blank(lines)
    decreases |lines|
  {
    if lines != [] {
      if AllSpace(lines[0]) {
        BlankLineIsNothing(lines[0], prev);
        NothingReadIff(lines[1..], prev);
        BlankFromFirst(lines);
      } else {
        OtherLineIsSomething(lines[0], prev);
      }
    }
  }

  lemma BlankFromFirst(lines: seq<string>)
    requires lines != [] && AllSpace(lines[0])
    ensures Blank(lines) <==> Blank(lines[1..])
  {
    if Blank(lines[1..]) {
      forall i | 0 <= i < |lines| ensures AllSpace(lines[i]) {
        if i > 0 { assert lines[i] == lines[1..][i - 1]; }
      }
    }
  }

  lemma {:induction false} JoinBlankIff(lines: seq<string>)
    ensures AllSpace(Join(lines)) <==> Blank(lines)
  {
    if |lines| > 1 {
      var later := Join(lines[1..]);
      JoinBlankIff(lines[1..]);
      assert Join(lines) == lines[0] + "\n" + later;
      AllSpaceInTwo(lines[0], later);
      if AllSpace(lines[0]) { BlankFromFirst(lines); }
    }
  }

  lemma AllSpaceInTwo(a: string, b: string)
    ensures AllSpace(a + "\n" + b) <==> AllSpace(a) && AllSpace(b)
  {
    var s := a + "\n" + b;
    if AllSpace(s) {
      forall i | 0 <= i < |a| ensures IsSpace(a[i]) { assert s[i] == a[i]; }
      forall i | 0 <= i < |b| ensures IsSpace(b[i]) { assert s[|a| + 1 + i] == b[i]; }
    }
  }

  /** What lines read as on their own: nothing when they are blank, the blocks of their text otherwise. */
  function Alone(lines: seq<string>): seq<Item> {
    if Trim(Join(lines)) == "" then [] else Parse(Join(lines))
  }

  lemma TextOfLines(lines: seq<string>)
    requires AllOneLine(lines) && Trim(Join(lines)) != ""
    ensures Parse(Join(lines)) == ReadLines(lines, None)
  {
    assert lines != [];
    SplitJoinLines(lines);
    NormalizeWithoutReturns(Join(lines));
    BlankIff(Join(lines));
    JoinBlankIff(lines);
    NothingReadIff(lines, None);
  }

  lemma ReadAlone(lines: seq<string>)
    requires AllOneLine(lines)
    ensures ReadLines(lines, None) == Alone(lines)
  {
    BlankIff(Join(lines));
    JoinBlankIff(lines);
    NothingReadIff(lines, None);
    if Trim(Join(lines)) != "" { TextOfLines(lines); }
  }

  // ---------------------------------------------------------------- code, closed and unclosed

  lemma {:induction false} BodyEnds(body: seq<string>, rest: seq<string>)
    requires forall i :: 0 <= i < |body| ==> !Backticked(body[i])
    requires rest != [] ==> Backticked(rest[0])
    ensures BodyLength(body + rest) == |body|
  {
    if body == [] {
      assert body + rest == rest;
      if rest != [] { FenceIsBackticked(rest[0]); }
    } else {
      FenceIsBackticked(body[0]);
      assert (body + rest)[1..] == body[1..] + rest;
      BodyEnds(body[1..], rest);
    }
  }

  lemma AfterFirst(open: string, after: seq<string>, n: nat)
    requires n <= |after|
    ensures ([open] + after)[1..] == after && ([open] + after)[1..1 + n] == after[..n]
  {
  }

  lemma FencedTurn(lines: seq<string>, body: seq<string>, prev: Option<Item>)
    requires lines != [] && IsFence(lines[0])
    requires BodyLength(lines[1..]) == |body| && lines[1..1 + |body|] == body
    ensures ReadBlock(lines, prev) == Reading(Min(|body| + 2, |lines|), Some(Item(Code, Join(body), false, 0)))
  {
  }

  lemma OpenTurn(lines: seq<string>, open: string, after: seq<string>, body: seq<string>, prev: Option<Item>)
    requires lines == [open] + after && Backticked(open)
    requires BodyLength(after) == |body| && body == after[..|body|]
    ensures ReadBlock(lines, prev) == Reading(Min(|body| + 2, |lines|), Some(Item(Code, Join(body), false, 0)))
  {
    FenceIsBackticked(open);
    AfterFirst(open, after, |body|);
    FencedTurn(lines, body, prev);
  }

  lemma AfterCode(code: Item, later: seq<string>)
    requires code.kind.Code?
    ensures ReadLines(later, Some(code)) == ReadLines(later, None)
  {
    ReadingNeedsCeiling(later, Some(code), None);
  }

  lemma FoundFirst(lines: seq<string>, used: nat, code: Item, later: seq<string>, prev: Option<Item>)
    requires lines != [] && code.kind.Code? && used <= |lines| && later == lines[used..]
    requires ReadBlock(lines, prev) == Reading(used, Some(code))
    ensures ReadLines(lines, prev) == [code] + ReadLines(later, None)
  {
    AfterCode(code, later);
  }

  lemma OpenReads(lines: seq<string>, open: string, after: seq<string>, body: seq<string>, later: seq<string>,
                  prev: Option<Item>)
    requires lines == [open] + after && Backticked(open)
    requires BodyLength(after) == |body| && body == after[..|body|]
    requires later == lines[Min(|body| + 2, |lines|)..]
    ensures ReadLines(lines, prev) == [Item(Code, Join(body), false, 0)] + ReadLines(later, None)
  {
    OpenTurn(lines, open, after, body, prev);
    FoundFirst(lines, Min(|body| + 2, |lines|), Item(Code, Join(body), false, 0), later, prev);
  }

  /** Lines between two backticked lines are one code block, whatever came before, and reading goes on after them. */
  lemma CodeLinesRead(open: string, body: seq<string>, close: string, rest: seq<string>, prev: Option<Item>)
    requires Backticked(open) && Backticked(close) && forall i :: 0 <= i < |body| ==> !Backticked(body[i])
    ensures ReadLines([open] + (body + ([close] + rest)), prev) ==
              [Item(Code, Join(body), false, 0)] + ReadLines(rest, None)
  {
    var after := body + ([close] + rest);
    var lines := [open] + after;
    BodyEnds(body, [close] + rest);
    assert after[..|body|] == body && lines[|body| + 2..] == rest;
    OpenReads(lines, open, after, body, rest, prev);
  }

  lemma NotBlankText(line: string, later: seq<string>)
    requires Backticked(line)
    ensures Trim(Join([line] + later)) != ""
  {
    BlankIff(Join([line] + later));
    JoinBlankIff([line] + later);
    if AllSpace(line) { AllSpaceTrimsAway(line); }
    assert ([line] + later)[0] == line;
  }

  /** A file that starts with a closed code block: that block, and then what the lines after it are on their own. */
  lemma CodeReadsBack(open: string, body: seq<string>, close: string, rest: seq<string>)
    requires OneLine(open) && OneLine(close) && AllOneLine(body) && AllOneLine(rest)
    requires Backticked(open) && Backticked(close) && forall i :: 0 <= i < |body| ==> !Backticked(body[i])
    ensures Parse(Join([open] + (body + ([close] + rest)))) == [Item(Code, Join(body), false, 0)] + Alone(rest)
  {
    NotBlankText(open, body + ([close] + rest));
    TextOfLines([open] + (body + ([close] + rest)));
    CodeLinesRead(open, body, close, rest, None);
    ReadAlone(rest);
  }

  lemma UnclosedLinesRead(open: string, body: seq<string>, prev: Option<Item>)
    requires Backticked(open) && forall i :: 0 <= i < |body| ==> !Backticked(body[i])
    ensures ReadLines([open] + body, prev) == [Item(Code, Join(body), false, 0)]
  {
    var none: seq<string> := [];
    assert body + none == body && body[..|body|] == body;
    BodyEnds(body, none);
    OpenReads([open] + body, open, body, body, none, prev);
    assert ReadLines(none, None) == [];
  }

  lemma AddOneLine(line: string, lines: seq<string>)
    requires OneLine(line) && AllOneLine(lines)
    ensures AllOneLine([line] + lines)
  {
  }

  lemma TextReadsAs(lines: seq<string>, items: seq<Item>)
    requires AllOneLine(lines) && Trim(Join(lines)) != "" && ReadLines(lines, None) == items
    ensures Parse(Join(lines)) == items
  {
    TextOfLines(lines);
  }

  /** Code that nothing closes runs to the end of the file. */
  lemma UnclosedCodeReads(open: string, body: seq<string>)
    requires OneLine(open) && AllOneLine(body)
    requires Backticked(open) && forall i :: 0 <= i < |body| ==> !Backticked(body[i])
    ensures Parse(Join([open] + body)) == [Item(Code, Join(body), false, 0)]
  {
    AddOneLine(open, body);
    NotBlankText(open, body);
    UnclosedLinesRead(open, body, None);
    TextReadsAs([open] + body, [Item(Code, Join(body), false, 0)]);
  }

  // ---------------------------------------------------------------- nothing else opens code

  predicate HasCode(items: seq<Item>) {
    exists i :: 0 <= i < |items| && items[i].kind.Code?
  }

  predicate HasBackticks(lines: seq<string>) {
    exists i :: 0 <= i < |lines| && Backticked(lines[i])
  }

  lemma OtherLineIsNoCode(line: string, prev: Option<Item>)
    ensures ReadLine(line, prev).Some? ==> !ReadLine(line, prev).value.kind.Code?
  {
    RuleShape(line);
  }

  /** A turn at another line finds no code and passes over no backticks. */
  lemma OtherTurn(lines: seq<string>, prev: Option<Item>)
    requires lines != [] && !Backticked(lines[0])
    ensures var r := ReadBlock(lines, prev);
            (r.found.Some? ==> !r.found.value.kind.Code?) &&
            (HasBackticks(lines) <==> HasBackticks(lines[r.used..]))
  {
    var r := ReadBlock(lines, prev);
    FenceIsBackticked(lines[0]);
    OtherLineIsNoCode(lines[0], prev);
    forall i | 0 <= i < r.used ensures !Backticked(lines[i]) {
      if OpensTable(lines) {
        PipesAreNoTicks(lines, i);
      }
    }
    BackticksAfter(lines, r.used);
  }

  lemma {:induction false} PipesAreNoTicks(lines: seq<string>, i: nat)
    requires i < PipeLength(lines)
    ensures !Backticked(lines[i])
  {
    if i > 0 {
      PipesAreNoTicks(lines[1..], i - 1);
    } else {
      FenceIsBackticked(lines[0]);
      assert Trim(lines[0])[0] == '|';
    }
  }

  lemma BackticksAfter(lines: seq<string>, n: nat)
    requires n <= |lines| && forall i :: 0 <= i < n ==> !Backticked(lines[i])
    ensures HasBackticks(lines) <==> HasBackticks(lines[n..])
  {
    if i :| 0 <= i < |lines| && Backticked(lines[i]) { assert lines[n..][i - n] == lines[i]; }
    if i :| 0 <= i < |lines[n..]| && Backticked(lines[n..][i]) { assert lines[n + i] == lines[n..][i]; }
  }

  lemma {:induction false} CodeInLinesIff(lines: seq<string>, prev: Option<Item>)
    ensures HasCode(ReadLines(lines, prev)) <==> HasBackticks(lines)
    decreases |lines|
  {
    if lines != [] {
      var r := ReadBlock(lines, prev);
      if Backticked(lines[0]) {
        FenceIsBackticked(lines[0]);
        assert ReadLines(lines, prev)[0].kind.Code?;
      } else {
        OtherTurn(lines, prev);
        CodeInLinesIff(lines[r.used..], if r.found.Some? then r.found else prev);
        if r.found.Some? { CodeAfterFirst(r.found.value, ReadLines(lines[r.used..], r.found)); }
      }
    }
  }

  lemma CodeAfterFirst(first: Item, later: seq<Item>)
    requires !first.kind.Code?
    ensures HasCode([first] + later) <==> HasCode(later)
  {
    var all := [first] + later;
    if i :| 0 <= i < |all| && all[i].kind.Code? { assert later[i - 1] == all[i]; }
    if i :| 0 <= i < |later| && later[i].kind.Code? { assert all[i + 1] == later[i]; }
  }

  /** A text has code exactly when one of its lines is backticked. */
  lemma HasCodeIff(text: string)
    ensures HasCode(Parse(text)) <==> HasBackticks(Split(Normalize(text)))
  {
    var lines := Split(Normalize(text));
    if Trim(text) == "" {
      BlankIff(text);
      BlankTextHasNoTicks(text);
    } else {
      CodeInLinesIff(lines, None);
      if ReadLines(lines, None) == [] { assert Parse(text) == [EMPTY_PARAGRAPH]; }
    }
  }

  lemma BlankTextHasNoTicks(text: string)
    requires AllSpace(text)
    ensures !HasBackticks(Split(Normalize(text)))
  {
    Dialect.NormalizeBlankIff(text);
    JoinSplit(Normalize(text));
    JoinBlankIff(Split(Normalize(text)));
    forall i | 0 <= i < |Split(Normalize(text))| ensures !Backticked(Split(Normalize(text))[i]) {
      AllSpaceTrimsAway(Split(Normalize(text))[i]);
    }
  }
}
