/**
 The other direction: a line that is read as something has the form for it, character by character.
 */
module Forms {
  import opened Text
  import opened Markdown
  import opened RoundTrip
  import opened Dialect

  // ---------------------------------------------------------------- taking lines apart

  lemma {:induction false} IndentSplits(line: string) returns (pad: string)
    ensures line == pad + SkipIndent(line) && Blanks(pad)
  {
    if line != "" && (line[0] == ' ' || line[0] == '\t') {
      var later := IndentSplits(line[1..]);
      pad := [line[0]] + later;
      assert line == [line[0]] + line[1..];
      Regroup([line[0]], later, SkipIndent(line));
    } else {
      pad := "";
      assert line == "" + line;
    }
  }

  lemma {:induction false} DigitsSplit(s: string) returns (digits: string)
    ensures s == digits + SkipDigits(s) && forall i :: 0 <= i < |digits| ==> '0' <= digits[i] <= '9'
  {
    if s != "" && IsDigit(s[0]) {
      var later := DigitsSplit(s[1..]);
      digits := [s[0]] + later;
      assert s == [s[0]] + s[1..];
      Regroup([s[0]], later, SkipDigits(s));
    } else {
      digits := "";
      assert s == "" + s;
    }
  }

  lemma GapSplits(s: string) returns (gap: string)
    ensures s == gap + TrimStart(s) && AllSpace(gap)
    ensures s != "" && IsSpace(s[0]) ==> gap != ""
    ensures FlushLeft(TrimStart(s))
  {
    var n := |s| - |TrimStart(s)|;
    TrimStartSplits(s);
    gap := s[..n];
    assert s == s[..n] + s[n..];
    if gap == "" { assert s == TrimStart(s); }
  }

  // ---------------------------------------------------------------- the forms

  ghost predicate HeadingForm(line: string, hashes: string, text: string) {
    exists gap: string :: Gap(gap) && Content(text) && line == hashes + (gap + text)
  }

  ghost predicate DashForm(line: string, rest: string) {
    exists pad: string, sign: char, gap: string ::
      Blanks(pad) && sign in "-*" && Gap(gap) && FlushLeft(rest) && line == DashLine(pad, sign, gap, rest)
  }

  ghost predicate BoxForm(rest: string, ticked: bool, text: string) {
    exists box: string, behind: string ::
      Box(box, ticked) && AllSpace(behind) && Content(text) && rest == box + (behind + text)
  }

  ghost predicate NumberForm(line: string, text: string) {
    exists pad: string, digits: string, sign: char, gap: string ::
      Blanks(pad) && digits != "" && (forall i :: 0 <= i < |digits| ==> '0' <= digits[i] <= '9') &&
      sign in ".)" && Gap(gap) && Content(text) && line == pad + (digits + ([sign] + (gap + text)))
  }

  ghost predicate QuoteForm(line: string, text: string) {
    DotSafe(text) && ((FlushLeft(text) && line == ">" + text) ||
                      exists space: char :: IsSpace(space) && line == ">" + ([space] + text))
  }

  lemma HeadingHasForm(line: string, hashes: string)
    requires MatchHeading(line, hashes).Some?
    ensures HeadingForm(line, hashes, MatchHeading(line, hashes).value)
  {
    var s := line[|hashes|..];
    var gap := GapSplits(s);
    assert line == hashes + s;
  }

  lemma DashHasForm(line: string)
    requires AfterDash(line).Some?
    ensures DashForm(line, AfterDash(line).value)
  {
    var t, rest := SkipIndent(line), AfterDash(line).value;
    var pad := IndentSplits(line);
    var gap := GapSplits(t[1..]);
    assert t == [t[0]] + t[1..];
    assert line == DashLine(pad, t[0], gap, rest);
  }

  lemma TickedHasForm(rest: string)
    requires CheckedBox(rest) && AfterOptionalSpaces(rest[3..]).Some?
    ensures BoxForm(rest, true, AfterOptionalSpaces(rest[3..]).value)
  {
    var behind := GapSplits(rest[3..]);
    var box := rest[..3];
    assert rest == box + rest[3..];
    assert box[0] == '[' && box[1] in "xX" && box[2] == ']';
    assert Box(box, true);
  }

  lemma UntickedHasForm(rest: string, n: nat)
    requires OpenBox(rest) && n == (if "[]" <= rest then 2 else 3) && AfterOptionalSpaces(rest[n..]).Some?
    ensures BoxForm(rest, false, AfterOptionalSpaces(rest[n..]).value)
  {
    var behind := GapSplits(rest[n..]);
    var box := rest[..n];
    assert rest == box + rest[n..];
    assert Box(box, false);
  }

  lemma NumberHasForm(line: string)
    requires MatchNumbered(line).Some?
    ensures NumberForm(line, MatchNumbered(line).value)
  {
    var t := SkipIndent(line);
    var u := SkipDigits(t);
    var pad := IndentSplits(line);
    var digits := DigitsSplit(t);
    var gap := GapSplits(u[1..]);
    assert digits == "" ==> t == u;
    assert u == [u[0]] + u[1..];
    assert line == pad + (digits + ([u[0]] + (gap + TrimStart(u[1..]))));
  }

  lemma QuoteHasForm(line: string)
    requires MatchQuote(line).Some?
    ensures QuoteForm(line, MatchQuote(line).value)
  {
    var t, text := line[1..], MatchQuote(line).value;
    assert line == ">" + t;
    if t != "" && IsSpace(t[0]) { assert t == [t[0]] + text; }
  }

  /** What each rule captures is what the form of its line says. */
  ghost predicate HasForm(line: string, kind: Kind, text: string) {
    match kind
    case Heading1 => HeadingForm(line, "#", text)
    case Heading2 => HeadingForm(line, "##", text)
    case Heading3 => HeadingForm(line, "###", text)
    case Bullet => DashForm(line, text) && Content(text)
    case Todo => exists rest: string :: DashForm(line, rest) && BoxForm(rest, IsChecked(line), text)
    case Numbered => NumberForm(line, text)
    case Quote => QuoteForm(line, text)
    case _ => false
  }

  lemma TodoHasForm(line: string)
    requires MatchCheckedTodo(line).Some? || MatchOpenTodo(line).Some?
    ensures HasForm(line, Todo, if MatchCheckedTodo(line).Some? then MatchCheckedTodo(line).value
                                else MatchOpenTodo(line).value)
  {
    var rest := AfterDash(line).value;
    DashHasForm(line);
    if MatchCheckedTodo(line).Some? {
      TickedHasForm(rest);
    } else {
      UntickedHasForm(rest, if "[]" <= rest then 2 else 3);
    }
  }

  lemma ListRuleHasForm(line: string)
    requires MatchListRule(line).Some?
    ensures HasForm(line, MatchListRule(line).value.0, MatchListRule(line).value.1)
  {
    if MatchCheckedTodo(line).Some? || MatchOpenTodo(line).Some? {
      TodoHasForm(line);
    } else if MatchBullet(line).Some? {
      DashHasForm(line);
    } else if MatchNumbered(line).Some? {
      NumberHasForm(line);
    } else {
      QuoteHasForm(line);
    }
  }

  lemma RuleHasForm(line: string)
    requires MatchRule(line).Some?
    ensures HasForm(line, MatchRule(line).value.0, MatchRule(line).value.1)
  {
    if MatchHeading(line, "###").Some? {
      HeadingHasForm(line, "###");
    } else if MatchHeading(line, "##").Some? {
      HeadingHasForm(line, "##");
    } else if MatchHeading(line, "#").Some? {
      HeadingHasForm(line, "#");
    } else {
      ListRuleHasForm(line);
    }
  }

  // ---------------------------------------------------------------- images, rules and the rest

  ghost predicate ImageForm(s: string) {
    exists alt: string, src: string :: ']' !in alt && ')' !in src && s == "![" + (alt + ("](" + (src + ")")))
  }

  /** Where the parts of an image's text are. */
  lemma ImageIsCut(s: string, t: string, k: nat, u: string, n: nat)
    requires IsImage(s) && t == s[2..] && k == Find(t, ']') && u == t[k + 2..] && n == |u| - 1
    ensures s[..2] == "![" && k + 2 <= |t| && t[k..k + 2] == "](" && n < |u| && u[n..n + 1] == ")"
    ensures ']' !in t[..k] && ')' !in u[..n]
  {
    assert t[k..][..2] == t[k..k + 2];
  }

  lemma ImageTextIs(s: string, t: string, k: nat, u: string, n: nat)
    requires |s| >= 2 && t == s[2..] && k + 2 <= |t| && u == t[k + 2..] && n + 1 == |u|
    requires s[..2] == "![" && t[k..k + 2] == "](" && u[n..n + 1] == ")"
    ensures s == "![" + (t[..k] + ("](" + (u[..n] + ")")))
  {
    CutAtMark(u, n, ")", "");
    assert ")" + "" == ")";
    CutAtMark(t, k, "](", u);
    assert s == s[..2] + s[2..];
  }

  lemma ImageHasForm(s: string)
    requires IsImage(s)
    ensures ImageForm(s)
  {
    var t := s[2..];
    var k := Find(t, ']');
    var u := t[k + 2..];
    var n := |u| - 1;
    ImageIsCut(s, t, k, u, n);
    ImageTextIs(s, t, k, u, n);
    ImageFormOf(s, t[..k], u[..n]);
  }

  lemma ImageFormOf(s: string, alt: string, src: string)
    requires ']' !in alt && ')' !in src && s == "![" + (alt + ("](" + (src + ")")))
    ensures ImageForm(s)
  {
  }

  /**
   Every line that is something is one of these: an image, a rule, a heading, a list item or a quote of
   the form for it, or a paragraph of the line itself.
   */
  lemma LineHasForm(line: string, prev: Option<Item>)
    requires ReadLine(line, prev).Some?
    ensures var item := ReadLine(line, prev).value;
            match item.kind
            case Image => ImageForm(Trim(line)) && item.text == Trim(line)
            case Divider => (RuledWith(line, '-') || RuledWith(line, '*') || RuledWith(line, '_')) && item.text == ""
            case Paragraph => item.text == line && !AllSpace(line) && MatchRule(line).None?
            case _ => HasForm(line, item.kind, item.text)
  {
    BlankIff(line);
    RuleIff(line);
    if IsImage(Trim(line)) { ImageHasForm(Trim(line)); }
    if MatchRule(line).Some? { RuleHasForm(line); }
  }

  // ---------------------------------------------------------------- alignment lines

  lemma WithLeft(cell: string) returns (left: bool, open: string)
    ensures left == (":" <= cell) && open == (if left then cell[1..] else cell)
    ensures cell == (if left then ":" else "") + open
  {
    left := ":" <= cell;
    open := if left then cell[1..] else cell;
    if left { assert cell == cell[..1] + cell[1..]; }
  }

  lemma WithRight(open: string) returns (right: bool, dashes: string)
    ensures right == (open != "" && open[|open| - 1] == ':')
    ensures dashes == (if right then open[..|open| - 1] else open)
    ensures open == dashes + (if right then ":" else "")
  {
    right := open != "" && open[|open| - 1] == ':';
    dashes := if right then open[..|open| - 1] else open;
    if right { assert open == open[..|open| - 1] + [open[|open| - 1]]; } else { assert open + "" == open; }
  }

  lemma AlignmentHasForm(cell: string) returns (left: bool, dashes: string, right: bool)
    requires IsAlignment(cell)
    ensures cell == Aligning(left, dashes, right) && |dashes| >= 3 && AllSame(dashes, '-')
  {
    var open;
    left, open := WithLeft(cell);
    right, dashes := WithRight(open);
    Regroup(if left then ":" else "", dashes, if right then ":" else "");
  }

  lemma PipedMore(first: string, rest: string, later: seq<string>, s: string)
    requires s == first + ("|" + rest) && rest == Piped(later)
    ensures s == Piped([first] + later)
  {
    assert ([first] + later)[1..] == later;
  }

  lemma CellHasForm(cell: string)
    requires IsAlignment(Trim(cell)) && '|' !in cell
    ensures AlignmentCell(cell)
  {
    var left, dashes, right := AlignmentHasForm(Trim(cell));
  }

  lemma CellsUnfold(s: string, k: nat)
    requires AlignmentCells(s) && k == Find(s, '|')
    ensures k < |s| && s[k] == '|' && IsAlignment(Trim(s[..k])) && '|' !in s[..k]
    ensures s[k + 1..] == "" || AlignmentCells(s[k + 1..])
  {
  }

  lemma FirstCell(s: string, k: nat)
    requires AlignmentCells(s) && k == Find(s, '|')
    ensures k < |s| && AlignmentCell(s[..k]) && s == s[..k] + ("|" + s[k + 1..])
    ensures s[k + 1..] == "" || AlignmentCells(s[k + 1..])
  {
    CellsUnfold(s, k);
    CellHasForm(s[..k]);
    CutAtPipe(s, k);
  }

  lemma CutAtPipe(s: string, k: nat)
    requires k < |s| && s[k] == '|'
    ensures s == s[..k] + ("|" + s[k + 1..])
  {
  }

  lemma {:induction false} AlignmentCellsHaveForm(s: string) returns (cells: seq<string>)
    requires AlignmentCells(s)
    ensures cells != [] && s == Piped(cells) && forall i :: 0 <= i < |cells| ==> AlignmentCell(cells[i])
    decreases |s|
  {
    var k := Find(s, '|');
    FirstCell(s, k);
    var later: seq<string> := [];
    if s[k + 1..] != "" { later := AlignmentCellsHaveForm(s[k + 1..]); }
    cells := [s[..k]] + later;
    PipedMore(s[..k], s[k + 1..], later, s);
  }

  /** The line under a table's header is exactly a pipe and one or more alignment cells, each closed by a pipe. */
  lemma AlignmentLineIff(s: string)
    ensures IsAlignmentRow(s) <==>
              exists cells: seq<string> :: cells != [] && s == "|" + Piped(cells) &&
                                           forall i :: 0 <= i < |cells| ==> AlignmentCell(cells[i])
  {
    if IsAlignmentRow(s) {
      var cells := AlignmentCellsHaveForm(s[1..]);
      assert s == "|" + s[1..];
    }
    if cells: seq<string> :| cells != [] && s == "|" + Piped(cells) &&
                             forall i :: 0 <= i < |cells| ==> AlignmentCell(cells[i]) {
      AlignmentLineReads(cells);
    }
  }
}
