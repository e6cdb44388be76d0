/**
 Lines of a hand-written file, by their characters: the forms that are read although none is ever written.
 */
module Dialect {
  import opened Text
  import opened Markdown
  import opened RoundTrip

  // ---------------------------------------------------------------- indentation and gaps

  predicate Blanks(pad: string) {
    forall i :: 0 <= i < |pad| ==> pad[i] == ' ' || pad[i] == '\t'
  }

  /** A tab is as wide as two spaces. */
  function Columns(pad: string): nat {
    if pad == "" then 0 else (if pad[0] == '\t' then 2 else 1) + Columns(pad[1..])
  }

  /** Whitespace of any kind, and some of it. */
  predicate Gap(s: string) {
    s != "" && AllSpace(s)
  }

  /** What can stand behind a marker: one line, starting with something visible. */
  predicate Content(text: string) {
    FlushLeft(text) && DotSafe(text)
  }

  lemma {:induction false} BlanksAreSkipped(pad: string, s: string)
    requires Blanks(pad) && s != "" && s[0] != ' ' && s[0] != '\t'
    ensures SkipIndent(pad + s) == s && LeadWidth(pad + s) == Columns(pad)
  {
    if pad == "" {
      assert pad + s == s;
    } else {
      assert (pad + s)[1..] == pad[1..] + s;
      BlanksAreSkipped(pad[1..], s);
    }
  }

  /** Levels are two columns wide; five is the deepest, and none is skipped below the block before. */
  function Level(pad: string, prev: Option<Item>): nat {
    var room := if prev.Some? && IsList(prev.value.kind) then prev.value.depth + 1 else 0;
    Min(Min(Columns(pad) / 2, 5), room)
  }

  lemma LevelIs(pad: string, s: string, prev: Option<Item>)
    requires Blanks(pad) && s != "" && s[0] != ' ' && s[0] != '\t'
    ensures Min(IndentOf(pad + s), Ceiling(prev)) == Level(pad, prev)
  {
    BlanksAreSkipped(pad, s);
  }

  lemma BlanksAreSpace(pad: string)
    requires Blanks(pad)
    ensures AllSpace(pad)
  {
  }

  lemma GapIsSkipped(gap: string, text: string)
    requires AllSpace(gap) && Content(text)
    ensures TrimStart(gap + text) == text
  {
    TrimStartPadded(gap, text);
  }

  // ---------------------------------------------------------------- headings and quotes

  lemma HashesRead(hashes: string, gap: string, text: string, line: string)
    requires hashes in ["#", "##", "###"] && Gap(gap) && Content(text) && line == hashes + (gap + text)
    ensures MatchHeading(line, hashes) == Some(text)
    ensures hashes == "#" ==> MatchHeading(line, "##").None? && MatchHeading(line, "###").None?
    ensures hashes == "##" ==> MatchHeading(line, "###").None?
  {
    assert line[|hashes|..] == gap + text;
    assert line[|hashes|] == gap[0];
    GapIsSkipped(gap, text);
  }

  /** One, two or three hashes, whitespace and a text are a heading. */
  lemma HeadingLineReads(hashes: string, gap: string, text: string, prev: Option<Item>)
    requires hashes in ["#", "##", "###"] && Gap(gap) && Content(text)
    ensures ReadLine(hashes + (gap + text), prev) ==
              Some(Item(if |hashes| == 1 then Heading1 else if |hashes| == 2 then Heading2 else Heading3,
                        text, false, 0))
  {
    var line := hashes + (gap + text);
    HashesRead(hashes, gap, text, line);
    VisibleFirst(line);
    NotDivider(line, 0);
  }

  lemma QuoteMatchesLine(line: string, text: string)
    requires line != "" && line[0] == '>' && MatchQuote(line) == Some(text)
    ensures MatchRule(line) == Some((Quote, text))
  {
    assert SkipIndent(line) == line && SkipDigits(line) == line;
    assert AfterDash(line).None? && MatchNumbered(line).None?;
    assert MatchListRule(line) == Some((Quote, text));
  }

  lemma QuoteLineOf(line: string, text: string, prev: Option<Item>)
    requires line != "" && line[0] == '>' && MatchQuote(line) == Some(text)
    ensures ReadLine(line, prev) == Some(Item(Quote, text, false, 0))
  {
    QuoteMatchesLine(line, text);
    VisibleFirst(line);
    NotDivider(line, 0);
  }

  /** A quote needs no space after its sign; one is skipped, and further ones belong to the text. */
  lemma QuoteLineReads(space: char, text: string, prev: Option<Item>)
    requires IsSpace(space) && DotSafe(text)
    ensures ReadLine(">" + ([space] + text), prev) == Some(Item(Quote, text, false, 0))
    ensures FlushLeft(text) ==> ReadLine(">" + text, prev) == Some(Item(Quote, text, false, 0))
  {
    var spaced, bare := ">" + ([space] + text), ">" + text;
    assert spaced[1..] == [space] + text && spaced[1..][1..] == text;
    QuoteLineOf(spaced, text, prev);
    if FlushLeft(text) {
      assert bare[1..] == text;
      QuoteLineOf(bare, text, prev);
    }
  }

  // ---------------------------------------------------------------- bullets and to-dos

  /** A list line: indentation, a sign, whitespace and what is behind it. */
  function DashLine(pad: string, sign: char, gap: string, rest: string): string {
    pad + ([sign] + (gap + rest))
  }

  lemma DashIsFound(pad: string, sign: char, gap: string, rest: string)
    requires Blanks(pad) && sign in "-*" && Gap(gap) && FlushLeft(rest)
    ensures AfterDash(DashLine(pad, sign, gap, rest)) == Some(rest)
  {
    var s := [sign] + (gap + rest);
    BlanksAreSkipped(pad, s);
    assert s[1..] == gap + rest && s[1] == gap[0];
    TrimStartPadded(gap, rest);
  }

  /** Nothing else is tried on such a line, but for a rule. */
  lemma ListLineIsPlain(pad: string, s: string)
    requires Blanks(pad) && s != "" && !IsSpace(s[0]) && s[0] !in "#`!|"
    ensures var line := pad + s;
            !IsFence(line) && !IsPipeLine(line) && !IsImage(Trim(line)) && Trim(line) != "" &&
            MatchHeading(line, "#").None? && MatchHeading(line, "##").None? && MatchHeading(line, "###").None?
  {
    var line := pad + s;
    BlanksAreSpace(pad);
    StartsVisiblyWith(pad, s);
    assert line[0] == if pad == "" then s[0] else pad[0];
  }

  lemma ListItemReads(line: string, kind: Kind, text: string, prev: Option<Item>)
    requires !IsImage(Trim(line)) && Trim(line) != "" && !IsDivider(line)
    requires MatchRule(line) == Some((kind, text)) && IsList(kind)
    ensures ReadLine(line, prev) ==
              Some(Item(kind, text, kind.Todo? && IsChecked(line), Min(IndentOf(line), Ceiling(prev))))
  {
  }

  /** A dash or an asterisk is a bullet, unless a box follows it or the line is a rule. */
  lemma BulletLineReads(pad: string, sign: char, gap: string, text: string, prev: Option<Item>)
    requires Blanks(pad) && sign in "-*" && Gap(gap) && Content(text) && !StartsWithBox(text)
    requires !IsDivider(DashLine(pad, sign, gap, text))
    ensures ReadLine(DashLine(pad, sign, gap, text), prev) == Some(Item(Bullet, text, false, Level(pad, prev)))
  {
    var s := [sign] + (gap + text);
    var line := pad + s;
    DashIsFound(pad, sign, gap, text);
    ListLineIsPlain(pad, s);
    LevelIs(pad, s, prev);
    assert MatchListRule(line) == Some((Bullet, text));
    ListItemReads(line, Bullet, text, prev);
  }

  /** The boxes of a to-do: an `x` of either case ticks it, and a space or nothing at all does not. */
  predicate Box(box: string, ticked: bool) {
    if ticked then box == "[x]" || box == "[X]"
    else box == "[]" || (|box| == 3 && box[0] == '[' && IsSpace(box[1]) && box[2] == ']')
  }

  lemma BehindBox(box: string, gap: string, text: string, t: string)
    requires AllSpace(gap) && Content(text) && t == box + (gap + text)
    ensures AfterOptionalSpaces(t[|box|..]) == Some(text)
    ensures forall i :: 0 <= i < |box| ==> t[i] == box[i]
  {
    GapIsSkipped(gap, text);
    assert t[|box|..] == gap + text;
  }

  lemma BoxIsFound(box: string, ticked: bool, gap: string, text: string)
    requires Box(box, ticked) && AllSpace(gap) && Content(text)
    ensures var t := box + (gap + text);
            FlushLeft(t) && CheckedBox(t) == ticked &&
            (if ticked then AfterOptionalSpaces(t[3..]) == Some(text)
             else OpenBox(t) && AfterOptionalSpaces(t[if "[]" <= t then 2 else 3..]) == Some(text))
  {
    var t := box + (gap + text);
    BehindBox(box, gap, text, t);
    assert t[0] == '[' && t[1] == box[1];
    assert |box| == if "[]" <= t then 2 else 3;
  }

  lemma TodoMatchesLine(line: string, t: string, ticked: bool, text: string)
    requires AfterDash(line) == Some(t) && CheckedBox(t) == ticked
    requires if ticked then AfterOptionalSpaces(t[3..]) == Some(text)
             else OpenBox(t) && AfterOptionalSpaces(t[if "[]" <= t then 2 else 3..]) == Some(text)
    ensures MatchListRule(line) == Some((Todo, text)) && IsChecked(line) == ticked
  {
  }

  /** A bullet with a box is a to-do, with or without whitespace between the box and its text. */
  lemma TodoLineReads(pad: string, sign: char, gap: string, box: string, ticked: bool, behind: string, text: string,
                      prev: Option<Item>)
    requires Blanks(pad) && sign in "-*" && Gap(gap) && Box(box, ticked) && AllSpace(behind) && Content(text)
    ensures ReadLine(DashLine(pad, sign, gap, box + (behind + text)), prev) ==
              Some(Item(Todo, text, ticked, Level(pad, prev)))
  {
    var t := box + (behind + text);
    var s := [sign] + (gap + t);
    var line := pad + s;
    BoxIsFound(box, ticked, behind, text);
    DashIsFound(pad, sign, gap, t);
    TodoMatchesLine(line, t, ticked, text);
    ListLineIsPlain(pad, s);
    LevelIs(pad, s, prev);
    BracketIsNoRule(pad, [sign] + gap, t);
    assert pad + ([sign] + gap) + t == line;
    ListItemReads(line, Todo, text, prev);
  }

  lemma BracketIsNoRule(pad: string, marker: string, t: string)
    requires t != "" && t[0] == '['
    ensures !IsDivider(pad + marker + t)
  {
    NotDivider(pad + marker + t, |pad| + |marker|);
  }

  // ---------------------------------------------------------------- numbers

  lemma NumberIsFound(line: string, s: string, digits: string, sign: char, gap: string, text: string)
    requires SkipIndent(line) == s && s == digits + ([sign] + (gap + text))
    requires digits != "" && (forall i :: 0 <= i < |digits| ==> IsDigit(digits[i]))
    requires sign in ".)" && Gap(gap) && Content(text)
    ensures AfterDash(line).None? && MatchNumbered(line) == Some(text)
  {
    var tail := [sign] + (gap + text);
    assert s[0] == digits[0];
    SkipDigitsStops(digits, tail);
    assert tail[1..] == gap + text;
    GapIsSkipped(gap, text);
    assert |tail| < |s|;
  }

  /** Digits with a period or a parenthesis are a numbered item, whatever the number. */
  lemma NumberedLineReads(pad: string, digits: string, sign: char, gap: string, text: string, prev: Option<Item>)
    requires Blanks(pad) && digits != "" && (forall i :: 0 <= i < |digits| ==> '0' <= digits[i] <= '9')
    requires sign in ".)" && Gap(gap) && Content(text)
    ensures ReadLine(pad + (digits + ([sign] + (gap + text))), prev) ==
              Some(Item(Numbered, text, false, Level(pad, prev)))
  {
    var s := digits + ([sign] + (gap + text));
    var line := pad + s;
    assert s[0] == digits[0];
    BlanksAreSkipped(pad, s);
    NumberIsFound(line, s, digits, sign, gap, text);
    ListLineIsPlain(pad, s);
    LevelIs(pad, s, prev);
    NotDivider(line, |pad|);
    assert MatchListRule(line) == Some((Numbered, text));
    ListItemReads(line, Numbered, text, prev);
  }

  // ---------------------------------------------------------------- rules

  function CountOf(s: string, c: char): nat {
    if s == "" then 0 else (if s[0] == c then 1 else 0) + CountOf(s[1..], c)
  }

  lemma {:induction false} VisibleOf(line: string, c: char)
    requires !IsSpace(c)
    ensures AllSame(Visible(line), c) <==> forall i :: 0 <= i < |line| ==> line[i] == c || IsSpace(line[i])
    ensures AllSame(Visible(line), c) ==> |Visible(line)| == CountOf(line, c)
  {
    if line != "" {
      VisibleOf(line[1..], c);
      FirstAndLater(line, c);
      if !IsSpace(line[0]) {
        SameFirst(line[0], Visible(line[1..]), c);
        assert Visible(line) == [line[0]] + Visible(line[1..]);
      } else {
        assert Visible(line) == Visible(line[1..]);
      }
    }
  }

  lemma FirstAndLater(line: string, c: char)
    requires line != ""
    ensures (forall i :: 0 <= i < |line| ==> line[i] == c || IsSpace(line[i])) <==>
              ((line[0] == c || IsSpace(line[0])) &&
               forall i :: 0 <= i < |line[1..]| ==> line[1..][i] == c || IsSpace(line[1..][i]))
  {
    if (line[0] == c || IsSpace(line[0])) &&
       forall i :: 0 <= i < |line[1..]| ==> line[1..][i] == c || IsSpace(line[1..][i]) {
      forall i | 0 <= i < |line| ensures line[i] == c || IsSpace(line[i]) {
        if i > 0 { assert line[1..][i - 1] == line[i]; }
      }
    }
  }

  lemma SameFirst(first: char, later: string, c: char)
    ensures AllSame([first] + later, c) <==> first == c && AllSame(later, c)
  {
    if AllSame([first] + later, c) {
      forall i | 0 <= i < |later| ensures later[i] == c { assert ([first] + later)[i + 1] == later[i]; }
      assert ([first] + later)[0] == first;
    }
  }

  /** One of the three signs at least three times, and otherwise only whitespace. */
  predicate RuledWith(line: string, c: char) {
    c in "-*_" && (forall i :: 0 <= i < |line| ==> line[i] == c || IsSpace(line[i])) && CountOf(line, c) >= 3
  }

  lemma RuledIsDivider(line: string, c: char)
    requires RuledWith(line, c)
    ensures IsDivider(line)
  {
    VisibleOf(line, c);
    assert Visible(line)[0] == c;
  }

  /** Exactly such lines are rules, spaced in any way. */
  lemma RuleIff(line: string)
    ensures IsDivider(line) <==> (RuledWith(line, '-') || RuledWith(line, '*') || RuledWith(line, '_'))
  {
    if IsDivider(line) { VisibleOf(line, Visible(line)[0]); }
    if RuledWith(line, '-') { RuledIsDivider(line, '-'); }
    if RuledWith(line, '*') { RuledIsDivider(line, '*'); }
    if RuledWith(line, '_') { RuledIsDivider(line, '_'); }
  }

  lemma TrimHas(line: string, i: nat) returns (k: nat)
    requires i < |Trim(line)|
    ensures k < |line| && line[k] == Trim(line)[i]
  {
    var a, b := TrimSplits(line);
    k := a + i;
  }

  lemma RuleLineReads(line: string, c: char, prev: Option<Item>)
    requires RuledWith(line, c)
    ensures !IsFence(line) && !IsPipeLine(line) && ReadLine(line, prev) == Some(Item(Divider, "", false, 0))
  {
    RuledIsDivider(line, c);
    if Trim(line) != "" { var k := TrimHas(line, 0); }
  }

  // ---------------------------------------------------------------- tables

  /** Three dashes or more, with a colon at either end, at both or at neither. */
  function Aligning(left: bool, dashes: string, right: bool): string {
    (if left then ":" else "") + dashes + (if right then ":" else "")
  }

  lemma WithoutLeft(open: string, left: bool)
    requires open != "" && open[0] == '-'
    ensures var cell := (if left then ":" else "") + open;
            (":" <= cell <==> left) && (left ==> cell[1..] == open) && (!left ==> cell == open)
  {
    var cell := (if left then ":" else "") + open;
    if !left {
      assert cell == open;
      assert cell[0] == '-';
    }
  }

  lemma WithoutRight(dashes: string, right: bool)
    requires dashes != "" && dashes[|dashes| - 1] == '-'
    ensures var open := dashes + (if right then ":" else "");
            open != "" && open[0] == dashes[0] && (open[|open| - 1] == ':' <==> right) &&
            (right ==> open[..|open| - 1] == dashes) && (!right ==> open == dashes)
  {
    if !right { assert dashes + "" == dashes; }
  }

  lemma AligningIsAlignment(left: bool, dashes: string, right: bool)
    requires |dashes| >= 3 && AllSame(dashes, '-')
    ensures IsAlignment(Aligning(left, dashes, right))
  {
    var open := dashes + (if right then ":" else "");
    WithoutRight(dashes, right);
    WithoutLeft(open, left);
    Regroup(if left then ":" else "", dashes, if right then ":" else "");
    assert Aligning(left, dashes, right) == (if left then ":" else "") + open;
  }

  /** Cells closed by pipes. */
  function Piped(cells: seq<string>): string {
    if cells == [] then "" else cells[0] + ("|" + Piped(cells[1..]))
  }

  ghost predicate AlignmentCell(cell: string) {
    '|' !in cell &&
    exists left: bool, dashes: string, right: bool ::
      Trim(cell) == Aligning(left, dashes, right) && |dashes| >= 3 && AllSame(dashes, '-')
  }

  lemma PipedFirst(first: string, later: string, s: string)
    requires s == first + ("|" + later) && '|' !in first
    ensures Find(s, '|') == |first| < |s| && s[..|first|] == first && s[|first| + 1..] == later
  {
    FindBefore(first, '|', "|" + later);
  }

  lemma AlignmentCellAligns(cell: string)
    requires AlignmentCell(cell)
    ensures IsAlignment(Trim(cell)) && '|' !in cell
  {
    var left: bool, dashes: string, right: bool :|
      Trim(cell) == Aligning(left, dashes, right) && |dashes| >= 3 && AllSame(dashes, '-');
    AligningIsAlignment(left, dashes, right);
  }

  lemma {:induction false} PipedAligns(cells: seq<string>)
    requires cells != [] && forall i :: 0 <= i < |cells| ==> AlignmentCell(cells[i])
    ensures AlignmentCells(Piped(cells))
  {
    AlignmentCellAligns(cells[0]);
    PipedFirst(cells[0], Piped(cells[1..]), Piped(cells));
    if |cells| > 1 { PipedAligns(cells[1..]); }
  }

  /** A pipe and such cells, each closed by a pipe and spaced in any way, are the line under a table's header. */
  lemma AlignmentLineReads(cells: seq<string>)
    requires cells != [] && forall i :: 0 <= i < |cells| ==> AlignmentCell(cells[i])
    ensures IsAlignmentRow("|" + Piped(cells))
  {
    assert ("|" + Piped(cells))[1..] == Piped(cells);
    PipedAligns(cells);
  }

  lemma {:induction false} PipesEnd(rows: seq<string>, rest: seq<string>)
    requires forall i :: 0 <= i < |rows| ==> "|" <= Trim(rows[i])
    requires rest != [] ==> !("|" <= Trim(rest[0]))
    ensures PipeLength(rows + rest) == |rows|
  {
    if rows == [] {
      assert rows + rest == rest;
    } else {
      assert (rows + rest)[1..] == rows[1..] + rest;
      PipesEnd(rows[1..], rest);
    }
  }

  lemma TableTurnReads(rows: seq<string>, rest: seq<string>, lines: seq<string>, prev: Option<Item>)
    requires |rows| >= 2 && IsAlignmentRow(Trim(rows[1])) && lines == rows + rest
    requires forall i :: 0 <= i < |rows| ==> "|" <= Trim(rows[i])
    requires rest != [] ==> !("|" <= Trim(rest[0]))
    ensures ReadBlock(lines, prev) == Reading(|rows|, Some(Item(Table, Join(TrimAll(rows)), false, 0)))
  {
    PipesEnd(rows, rest);
    assert lines[0] == rows[0] && lines[1] == rows[1] && lines[..|rows|] == rows;
    assert Trim(lines[0])[0] == '|';
  }

  /** A pipe line, an alignment line and the pipe lines after them are one table, each line trimmed. */
  lemma TableLinesRead(rows: seq<string>, rest: seq<string>, prev: Option<Item>)
    requires |rows| >= 2 && IsAlignmentRow(Trim(rows[1]))
    requires forall i :: 0 <= i < |rows| ==> "|" <= Trim(rows[i])
    requires rest != [] ==> !("|" <= Trim(rest[0]))
    ensures ReadLines(rows + rest, prev) ==
              [Item(Table, Join(TrimAll(rows)), false, 0)] +
              ReadLines(rest, Some(Item(Table, Join(TrimAll(rows)), false, 0)))
  {
    TableTurnReads(rows, rest, rows + rest, prev);
    assert (rows + rest)[|rows|..] == rest;
  }

  // ---------------------------------------------------------------- the file

  /** A line that opens no code and no table is read by itself, and reading goes on behind it. */
  lemma LineByLine(line: string, rest: seq<string>, prev: Option<Item>)
    requires !IsFence(line) && !OpensTable([line] + rest)
    ensures ReadLines([line] + rest, prev) ==
              match ReadLine(line, prev)
              case Some(item) => [item] + ReadLines(rest, Some(item))
              case None => ReadLines(rest, prev)
  {
    var lines := [line] + rest;
    assert lines[1..] == rest;
  }

  /** A file of whitespace is one empty paragraph. */
  lemma BlankFileReads(text: string)
    requires AllSpace(text)
    ensures Parse(text) == [Item(Paragraph, "", false, 0)]
  {
    BlankIff(text);
  }

  /** Lines put together with one of the three line ends. */
  function JoinWith(lines: seq<string>, end: string): string {
    if lines == [] then ""
    else if |lines| == 1 then lines[0]
    else lines[0] + (end + JoinWith(lines[1..], end))
  }

  lemma {:induction false} NormalizeLine(line: string, later: string)
    requires OneLine(line)
    ensures Normalize(line + later) == line + Normalize(later)
  {
    if line == "" {
      assert line + later == later;
    } else {
      assert (line + later)[1..] == line[1..] + later;
      NormalizeLine(line[1..], later);
    }
  }

  lemma ReturnPairIsOne(later: string)
    ensures Normalize("\r\n" + later) == "\n" + Normalize(later)
  {
    var s := "\r\n" + later;
    assert s[2..] == later && s[0] == '\r' && s[1] == '\n';
  }

  lemma ReturnIsOne(later: string)
    requires later != "" ==> later[0] != '\n'
    ensures Normalize("\r" + later) == "\n" + Normalize(later)
  {
    var s := "\r" + later;
    assert s[1..] == later && s[0] == '\r';
    assert later != "" ==> s[1] == later[0];
  }

  lemma NewlineIsOne(later: string)
    ensures Normalize("\n" + later) == "\n" + Normalize(later)
  {
    var s := "\n" + later;
    assert s[1..] == later && s[0] == '\n';
  }

  lemma NormalizeEnd(end: string, later: string)
    requires end in ["\n", "\r\n", "\r"] && (end == "\r" && later != "" ==> later[0] != '\n')
    ensures Normalize(end + later) == "\n" + Normalize(later)
  {
    if end == "\r\n" { ReturnPairIsOne(later); }
    if end == "\r" { ReturnIsOne(later); }
    if end == "\n" { NewlineIsOne(later); }
  }

  lemma {:induction false} LaterStart(lines: seq<string>, end: string)
    requires end == "\r" && forall i :: 0 <= i < |lines| ==> OneLine(lines[i])
    ensures JoinWith(lines, end) != "" ==> JoinWith(lines, end)[0] != '\n'
  {
    if lines != [] { assert OneLine(lines[0]); }
  }

  lemma {:induction false} EndsAreNormalized(lines: seq<string>, end: string)
    requires end in ["\n", "\r\n", "\r"] && forall i :: 0 <= i < |lines| ==> OneLine(lines[i])
    ensures Normalize(JoinWith(lines, end)) == Join(lines)
  {
    if |lines| == 1 {
      NormalizeLine(lines[0], "");
      assert lines[0] + "" == lines[0];
    } else if |lines| > 1 {
      var later := JoinWith(lines[1..], end);
      EndsAreNormalized(lines[1..], end);
      if end == "\r" { LaterStart(lines[1..], end); }
      NormalizeEnd(end, later);
      NormalizeLine(lines[0], end + later);
      Regroup(lines[0], "\n", Join(lines[1..]));
    }
  }

  lemma BlankFirst(c: char, later: string)
    ensures AllSpace([c] + later) <==> IsSpace(c) && AllSpace(later)
  {
    var s := [c] + later;
    assert s[0] == c;
    if AllSpace(s) {
      forall i | 0 <= i < |later| ensures IsSpace(later[i]) { assert s[i + 1] == later[i]; }
    }
  }

  lemma {:induction false} NormalizeBlankIff(s: string)
    ensures AllSpace(Normalize(s)) <==> AllSpace(s)
    decreases |s|
  {
    if s == "" {
      assert Normalize(s) == "";
    } else if s[0] == '\r' && |s| > 1 && s[1] == '\n' {
      NormalizeBlankIff(s[2..]);
      BlankFirst('\n', Normalize(s[2..]));
      BlankFirst('\n', s[2..]);
      BlankFirst('\r', s[1..]);
      assert s == ['\r'] + s[1..] && s[1..] == ['\n'] + s[2..];
    } else {
      var c := if s[0] == '\r' then '\n' else s[0];
      NormalizeBlankIff(s[1..]);
      BlankFirst(c, Normalize(s[1..]));
      BlankFirst(s[0], s[1..]);
      assert s == [s[0]] + s[1..] && Normalize(s) == [c] + Normalize(s[1..]);
    }
  }

  /** It makes no difference to what is read which line end a file uses. */
  lemma LineEndsAreOne(lines: seq<string>, end: string)
    requires end in ["\n", "\r\n", "\r"] && forall i :: 0 <= i < |lines| ==> OneLine(lines[i])
    ensures Parse(JoinWith(lines, end)) == Parse(Join(lines))
  {
    var written, plain := JoinWith(lines, end), Join(lines);
    EndsAreNormalized(lines, end);
    PlainIsNormal(lines);
    NormalizeBlankIff(written);
    BlankIff(written);
    BlankIff(plain);
  }

  lemma PlainIsNormal(lines: seq<string>)
    requires forall i :: 0 <= i < |lines| ==> OneLine(lines[i])
    ensures Normalize(Join(lines)) == Join(lines)
  {
    JoinChars(lines, '\r');
    NormalizeWithoutReturns(Join(lines));
  }
}
