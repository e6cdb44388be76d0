/**
 What survives a save and a reload.

 `Reread` says what the reader makes of any document whose blocks the format can hold. The round
 trip, its exact condition, and the stability of `canonical` all follow from it.
 */
module RoundTrip {
  import opened Text
  import opened Markdown

  // ---------------------------------------------------------------- the condition

  /** The text of a to-do box: a bullet starting like this is a to-do. */
  predicate StartsWithBox(text: string) {
    CheckedBox(text) || OpenBox(text)
  }

  predicate LegibleParagraph(text: string) {
    OneLine(text) && Trim(text) != "" && !IsFence(text) && !IsImage(Trim(text)) &&
    !IsDivider(text) && MatchRule(text).None?
  }

  predicate LegibleCode(text: string) {
    '\r' !in text && forall i :: 0 <= i < |Split(text)| ==> !IsFence(Split(text)[i])
  }

  predicate LegibleTable(text: string) {
    var lines := Split(text);
    '\r' !in text && |lines| >= 2 && IsAlignmentRow(lines[1]) &&
    forall i :: 0 <= i < |lines| ==> Trim(lines[i]) == lines[i] && "|" <= lines[i]
  }

  /** A block the line format can hold, leaving aside what kind of list it stands in. */
  predicate Legible(item: Item) {
    (match item.kind
     case Paragraph => LegibleParagraph(item.text)
     case Heading1 | Heading2 | Heading3 | Numbered | Todo =>
       FlushLeft(item.text) && DotSafe(item.text)
     case Bullet => FlushLeft(item.text) && DotSafe(item.text) && !StartsWithBox(item.text)
     case Quote => DotSafe(item.text)
     case Code => LegibleCode(item.text)
     case Divider => item.text == ""
     case Table => LegibleTable(item.text)
     case Image => OneLine(item.text) && IsImage(item.text)) &&
    (item.checked ==> item.kind.Todo?) &&
    item.depth <= (if IsList(item.kind) then MAX_DEPTH else 0)
  }

  /** A bullet whose own line is a horizontal rule, such as `- - -`. */
  predicate Dashy(item: Item) {
    item.kind.Bullet? && IsDivider("- " + item.text)
  }

  predicate Writable(item: Item) {
    Legible(item) && !Dashy(item)
  }

  predicate AllLegible(items: seq<Item>) {
    forall i :: 0 <= i < |items| ==> Legible(items[i])
  }

  predicate NoneDashy(items: seq<Item>) {
    forall i :: 0 <= i < |items| ==> !Dashy(items[i])
  }

  /** No block is nested more than one level below the block before it. */
  predicate WellNestedAfter(prev: Option<Item>, items: seq<Item>)
    decreases |items|
  {
    items == [] ||
    ((IsList(items[0].kind) ==> items[0].depth <= Ceiling(prev)) &&
     WellNestedAfter(Some(items[0]), items[1..]))
  }

  predicate WellNested(items: seq<Item>) {
    WellNestedAfter(None, items)
  }

  // ---------------------------------------------------------------- what is read back

  function RereadItem(item: Item, prev: Option<Item>): Item {
    if Dashy(item) then Item(Divider, "", false, 0)
    else if IsList(item.kind) then item.(depth := Min(item.depth, Ceiling(prev)))
    else item
  }

  /** A document after a save and a reload: dashy bullets become rules, skipped levels close up. */
  function Reread(items: seq<Item>, prev: Option<Item>): seq<Item> {
    if items == [] then []
    else
      var first := RereadItem(items[0], prev);
      [first] + Reread(items[1..], Some(first))
  }

  // ---------------------------------------------------------------- reading one written block

  function ItemLines(item: Item, ordinal: nat): seq<string> {
    Split(Chunk(item, ordinal))
  }

  /** Where a string's first visible character is, trimming keeps everything before its last one. */
  lemma VisibleStart(pad: string, s: string)
    requires AllSpace(pad) && s != "" && !IsSpace(s[0])
    ensures TrimStart(pad + s) == s
    ensures Trim(pad + s) != "" && Trim(pad + s)[0] == s[0]
  {
    TrimStartPadded(pad, s);
    TrimEndSplits(s);
  }

  lemma {:induction false} PadIsSpaces(n: nat)
    ensures forall i :: 0 <= i < |Pad(n)| ==> Pad(n)[i] == ' '
    ensures AllSpace(Pad(n))
  {
    if n > 0 { PadIsSpaces(n - 1); }
  }

  lemma {:induction false} SkipPad(pad: string, s: string)
    requires forall i :: 0 <= i < |pad| ==> pad[i] == ' '
    requires s != "" && s[0] != ' ' && s[0] != '\t'
    ensures SkipIndent(pad + s) == s
    ensures LeadWidth(pad + s) == |pad|
  {
    if pad == "" {
      assert pad + s == s;
    } else {
      assert (pad + s)[1..] == pad[1..] + s;
      SkipPad(pad[1..], s);
    }
  }

  lemma {:induction false} SkipDigitsStops(digits: string, s: string)
    requires forall i :: 0 <= i < |digits| ==> IsDigit(digits[i])
    requires s != "" && !IsDigit(s[0])
    ensures SkipDigits(digits + s) == s
  {
    if digits == "" {
      assert digits + s == s;
    } else {
      assert (digits + s)[1..] == digits[1..] + s;
      SkipDigitsStops(digits[1..], s);
    }
  }

  lemma {:induction false} VisibleHas(s: string, i: nat)
    requires i < |s| && !IsSpace(s[i])
    ensures s[i] in Visible(s)
  {
    if i > 0 { VisibleHas(s[1..], i - 1); }
  }

  lemma {:induction false} VisiblePadded(pad: string, s: string)
    requires AllSpace(pad)
    ensures Visible(pad + s) == Visible(s)
  {
    if pad == "" {
      assert pad + s == s;
    } else {
      assert (pad + s)[1..] == pad[1..] + s;
      VisiblePadded(pad[1..], s);
    }
  }

  /** A line holding something other than `-`, `*`, `_` and whitespace is no rule. */
  lemma NotDivider(line: string, i: nat)
    requires i < |line| && !IsSpace(line[i]) && line[i] !in "-*_"
    ensures !IsDivider(line)
  {
    VisibleHas(line, i);
  }

  /** A line whose first visible character is `c` is none of the shapes that start otherwise. */
  lemma StartsVisiblyWith(pad: string, s: string)
    requires AllSpace(pad) && s != "" && !IsSpace(s[0])
    ensures s[0] != '`' ==> !IsFence(pad + s)
    ensures s[0] != '|' ==> !IsPipeLine(pad + s)
    ensures s[0] != '!' ==> !IsImage(Trim(pad + s))
    ensures Trim(pad + s) != ""
  {
    VisibleStart(pad, s);
  }

  lemma VisibleFirst(line: string)
    requires line != "" && !IsSpace(line[0])
    ensures line[0] != '`' ==> !IsFence(line)
    ensures line[0] != '|' ==> !IsPipeLine(line)
    ensures line[0] != '!' ==> !IsImage(Trim(line))
    ensures Trim(line) != ""
  {
    assert "" + line == line;
    StartsVisiblyWith("", line);
  }

  ghost predicate ReadsAs(line: string, prev: Option<Item>, item: Item) {
    !IsFence(line) && ReadLine(line, prev) == Some(item)
  }

  lemma HeadingMatches(hashes: string, text: string)
    requires hashes in ["#", "##", "###"] && FlushLeft(text) && DotSafe(text)
    ensures MatchRule(hashes + " " + text) ==
              Some((if hashes == "#" then Heading1 else if hashes == "##" then Heading2 else Heading3, text))
  {
    var line := hashes + " " + text;
    assert line[|hashes|..] == " " + text;
    TrimStartPadded(" ", text);
    assert MatchHeading(line, hashes) == Some(text);
    if hashes == "#" {
      assert MatchHeading(line, "##").None?;
      assert MatchHeading(line, "###").None?;
    } else if hashes == "##" {
      assert MatchHeading(line, "###").None?;
    }
  }

  lemma HeadingReads(hashes: string, item: Item, prev: Option<Item>)
    requires hashes in ["#", "##", "###"] && FlushLeft(item.text) && DotSafe(item.text)
    requires !item.checked && item.depth == 0
    requires item.kind == if hashes == "#" then Heading1 else if hashes == "##" then Heading2 else Heading3
    ensures ReadsAs(hashes + " " + item.text, prev, item)
    ensures OneLine(hashes + " " + item.text)
  {
    var line := hashes + " " + item.text;
    VisibleFirst(line);
    NotDivider(line, 0);
    HeadingMatches(hashes, item.text);
  }

  lemma QuoteMatches(text: string)
    requires DotSafe(text)
    ensures MatchRule("> " + text) == Some((Quote, text))
  {
    var line := "> " + text;
    assert line[1..] == " " + text;
    assert line[1..][1..] == text;
    assert SkipIndent(line) == line;
    assert AfterDash(line).None?;
    assert SkipDigits(line) == line;
    assert MatchNumbered(line).None?;
    assert MatchQuote(line) == Some(text);
    assert MatchListRule(line) == Some((Quote, text));
    assert MatchHeading(line, "#").None?;
    assert MatchHeading(line, "##").None?;
    assert MatchHeading(line, "###").None?;
  }

  lemma QuoteReads(item: Item, prev: Option<Item>)
    requires item.kind.Quote? && DotSafe(item.text) && !item.checked && item.depth == 0
    ensures ReadsAs("> " + item.text, prev, item)
    ensures OneLine("> " + item.text)
  {
    var line := "> " + item.text;
    VisibleFirst(line);
    NotDivider(line, 0);
    QuoteMatches(item.text);
  }

  /** The dash of a written bullet or to-do is found, with everything after it. */
  lemma DashReads(depth: nat, rest: string)
    requires FlushLeft(rest)
    ensures AfterDash(Pad(depth) + "- " + rest) == Some(rest)
    ensures LeadWidth(Pad(depth) + "- " + rest) == |INDENT| * depth
    ensures var line := Pad(depth) + "- " + rest;
            !IsFence(line) && !IsImage(Trim(line)) && Trim(line) != "" &&
            MatchHeading(line, "#").None? && MatchHeading(line, "##").None? && MatchHeading(line, "###").None?
    ensures IsDivider(Pad(depth) + "- " + rest) == IsDivider("- " + rest)
  {
    var s := "- " + rest;
    var line := Pad(depth) + "- " + rest;
    assert line == Pad(depth) + s;
    PadIsSpaces(depth);
    SkipPad(Pad(depth), s);
    StartsVisiblyWith(Pad(depth), s);
    VisiblePadded(Pad(depth), s);
    assert s[1..] == " " + rest;
    TrimStartPadded(" ", rest);
    assert line[0] == ' ' || line[0] == '-';
  }

  lemma PadOneLine(depth: nat, s: string)
    requires DotSafe(s)
    ensures OneLine(Pad(depth) + s)
  {
    PadIsSpaces(depth);
  }

  lemma BulletRule(depth: nat, text: string)
    requires FlushLeft(text) && DotSafe(text) && !StartsWithBox(text)
    ensures MatchRule(Pad(depth) + "- " + text) == Some((Bullet, text))
  {
    DashReads(depth, text);
    assert MatchListRule(Pad(depth) + "- " + text) == Some((Bullet, text));
  }

  lemma BulletReads(item: Item, prev: Option<Item>)
    requires item.kind.Bullet? && FlushLeft(item.text) && DotSafe(item.text) && !StartsWithBox(item.text)
    requires !item.checked && item.depth <= MAX_DEPTH
    ensures ReadsAs(Pad(item.depth) + "- " + item.text, prev, RereadItem(item, prev))
  {
    DashReads(item.depth, item.text);
    BulletRule(item.depth, item.text);
  }

  lemma BulletOneLine(item: Item)
    requires item.kind.Bullet? && DotSafe(item.text)
    ensures OneLine(Pad(item.depth) + "- " + item.text)
  {
    assert Pad(item.depth) + "- " + item.text == Pad(item.depth) + ("- " + item.text);
    PadOneLine(item.depth, "- " + item.text);
  }

  lemma TodoMatches(checked: bool, text: string)
    requires FlushLeft(text) && DotSafe(text)
    ensures var t := (if checked then "[x]" else "[ ]") + " " + text;
            CheckedBox(t) == checked && DotSafe(t) &&
            (checked ==> AfterOptionalSpaces(t[3..]) == Some(text)) &&
            (!checked ==> !("[]" <= t) && OpenBox(t) && AfterOptionalSpaces(t[3..]) == Some(text))
  {
    var t := (if checked then "[x]" else "[ ]") + " " + text;
    assert t[3..] == " " + text;
    TrimStartPadded(" ", text);
  }

  lemma TodoRule(item: Item)
    requires item.kind.Todo? && FlushLeft(item.text) && DotSafe(item.text)
    ensures var line := Chunk(item, 0);
            MatchRule(line) == Some((Todo, item.text)) && IsChecked(line) == item.checked &&
            LeadWidth(line) == |INDENT| * item.depth &&
            !IsFence(line) && !IsImage(Trim(line)) && Trim(line) != "" &&
            IsDivider(line) == IsDivider("- " + TodoRest(item))
  {
    var line := Pad(item.depth) + "- " + TodoRest(item);
    assert Chunk(item, 0) == line;
    TodoMatches(item.checked, item.text);
    DashReads(item.depth, TodoRest(item));
    assert MatchListRule(line) == Some((Todo, item.text));
  }

  function TodoRest(item: Item): string {
    (if item.checked then "[x]" else "[ ]") + " " + item.text
  }

  lemma TodoReads(item: Item, prev: Option<Item>)
    requires item.kind.Todo? && FlushLeft(item.text) && DotSafe(item.text) && item.depth <= MAX_DEPTH
    ensures ReadsAs(Chunk(item, 0), prev, RereadItem(item, prev))
  {
    TodoRule(item);
    NotDivider("- " + TodoRest(item), 2);
    ListLineReads(Chunk(item, 0), item, prev);
  }

  lemma TodoOneLine(item: Item)
    requires item.kind.Todo? && DotSafe(item.text)
    ensures OneLine(Chunk(item, 0))
  {
    assert Chunk(item, 0) == Pad(item.depth) + ("- " + TodoRest(item));
    PadOneLine(item.depth, "- " + TodoRest(item));
  }

  lemma NumberedMatches(item: Item, ordinal: nat)
    requires item.kind.Numbered? && FlushLeft(item.text) && DotSafe(item.text)
    ensures MatchRule(Chunk(item, ordinal)) == Some((Numbered, item.text))
    ensures LeadWidth(Chunk(item, ordinal)) == |INDENT| * item.depth
  {
    var tail := ". " + item.text;
    var s := Decimal(ordinal) + tail;
    var line := Pad(item.depth) + s;
    assert Chunk(item, ordinal) == line;
    PadIsSpaces(item.depth);
    SkipPad(Pad(item.depth), s);
    SkipDigitsStops(Decimal(ordinal), tail);
    assert line[0] == ' ' || IsDigit(line[0]);
    DigitsMatch(line, s, tail, item.text);
  }

  lemma DigitsMatch(line: string, s: string, tail: string, text: string)
    requires line != "" && (line[0] == ' ' || IsDigit(line[0]))
    requires SkipIndent(line) == s && s != "" && IsDigit(s[0])
    requires SkipDigits(s) == tail && tail == ". " + text
    requires FlushLeft(text) && DotSafe(text)
    ensures MatchRule(line) == Some((Numbered, text))
  {
    assert tail[1..] == " " + text;
    TrimStartPadded(" ", text);
    assert AfterDash(line).None?;
    assert s != tail;
    assert MatchNumbered(line) == Some(text);
    assert MatchListRule(line) == Some((Numbered, text));
  }

  lemma NumberedShape(depth: nat, rest: string)
    requires rest != "" && IsDigit(rest[0])
    ensures var line := Pad(depth) + rest;
            !IsFence(line) && !IsImage(Trim(line)) && Trim(line) != "" && !IsDivider(line)
  {
    var line := Pad(depth) + rest;
    PadIsSpaces(depth);
    StartsVisiblyWith(Pad(depth), rest);
    NotDivider(line, |Pad(depth)|);
  }

  /** A list line that a rule matches reads as the item it was written for, its depth clamped. */
  lemma ListLineReads(line: string, item: Item, prev: Option<Item>)
    requires !IsFence(line) && !IsImage(Trim(line)) && Trim(line) != "" && !IsDivider(line)
    requires MatchRule(line) == Some((item.kind, item.text)) && IsList(item.kind)
    requires LeadWidth(line) == |INDENT| * item.depth && item.depth <= MAX_DEPTH
    requires item.checked == (item.kind.Todo? && IsChecked(line))
    ensures ReadsAs(line, prev, item.(depth := Min(item.depth, Ceiling(prev))))
  {
    assert IndentOf(line) == item.depth;
  }

  lemma NumberedReads(item: Item, ordinal: nat, prev: Option<Item>)
    requires item.kind.Numbered? && FlushLeft(item.text) && DotSafe(item.text)
    requires !item.checked && item.depth <= MAX_DEPTH
    ensures ReadsAs(Chunk(item, ordinal), prev, RereadItem(item, prev))
  {
    NumberedChunk(item, ordinal);
    NumberedMatches(item, ordinal);
    ListLineReads(Chunk(item, ordinal), item, prev);
  }

  lemma NumberedChunk(item: Item, ordinal: nat)
    requires item.kind.Numbered?
    ensures var line := Chunk(item, ordinal);
            !IsFence(line) && !IsImage(Trim(line)) && Trim(line) != "" && !IsDivider(line)
  {
    var rest := Decimal(ordinal) + ". " + item.text;
    assert Chunk(item, ordinal) == Pad(item.depth) + rest;
    NumberedShape(item.depth, rest);
  }

  lemma NumberedOneLine(item: Item, ordinal: nat)
    requires item.kind.Numbered? && DotSafe(item.text)
    ensures OneLine(Chunk(item, ordinal))
  {
    var rest := Decimal(ordinal) + ". " + item.text;
    assert Chunk(item, ordinal) == Pad(item.depth) + rest;
    PadOneLine(item.depth, rest);
  }

  lemma ImageReads(item: Item, prev: Option<Item>)
    requires item.kind.Image? && Legible(item)
    ensures ReadsAs(item.text, prev, item) && Trimmed(item.text)
    ensures !IsPipeLine(item.text)
  {
    var s := item.text;
    assert s[|s| - 1] == s[2..][|s| - 3];
    TrimmedTrimsToItself(s);
  }

  lemma DividerReads(prev: Option<Item>)
    ensures ReadsAs("---", prev, Item(Divider, "", false, 0))
  {
    TrimmedTrimsToItself("---");
    assert Visible("---") == "---" by {
      assert "---"[1..] == "--" && "--"[1..] == "-" && "-"[1..] == "";
    }
  }

  // ---------------------------------------------------------------- blocks of several lines

  lemma {:induction false} BodyLengthOf(body: seq<string>, rest: seq<string>)
    requires forall i :: 0 <= i < |body| ==> !IsFence(body[i])
    requires rest != [] && IsFence(rest[0])
    ensures BodyLength(body + rest) == |body|
  {
    if body == [] {
      assert body + rest == rest;
    } else {
      assert (body + rest)[1..] == body[1..] + rest;
      BodyLengthOf(body[1..], rest);
    }
  }

  lemma {:induction false} PipeLengthOf(body: seq<string>, rest: seq<string>)
    requires forall i :: 0 <= i < |body| ==> IsPipeLine(body[i])
    requires rest != [] && !IsPipeLine(rest[0])
    ensures PipeLength(body + rest) == |body|
  {
    if body == [] {
      assert body + rest == rest;
    } else {
      assert (body + rest)[1..] == body[1..] + rest;
      PipeLengthOf(body[1..], rest);
    }
  }

  lemma CodeLines(item: Item, ordinal: nat)
    requires item.kind.Code?
    ensures ItemLines(item, ordinal) == ["```"] + Split(item.text) + ["```"]
  {
    SplitAppend("```" + "\n" + item.text, "```");
    SplitAppend("```", item.text);
    SplitOneLine("```");
  }

  lemma FenceReads(lines: seq<string>, body: seq<string>, prev: Option<Item>)
    requires lines != [] && IsFence(lines[0])
    requires |body| + 2 <= |lines| && lines[1..1 + |body|] == body && BodyLength(lines[1..]) == |body|
    ensures ReadBlock(lines, prev) == Reading(|body| + 2, Some(Item(Code, Join(body), false, 0)))
  {
  }

  lemma FencedBody(lines: seq<string>, fence: string, body: seq<string>, rest: seq<string>)
    requires IsFence(fence) && forall i :: 0 <= i < |body| ==> !IsFence(body[i])
    requires lines == [fence] + (body + ([fence] + rest))
    ensures lines[1..1 + |body|] == body && BodyLength(lines[1..]) == |body|
  {
    BodyLengthOf(body, [fence] + rest);
    assert lines[1..] == body + ([fence] + rest);
  }

  lemma CodeReads(lines: seq<string>, fence: string, body: seq<string>, rest: seq<string>, prev: Option<Item>)
    requires IsFence(fence) && forall i :: 0 <= i < |body| ==> !IsFence(body[i])
    requires lines == [fence] + (body + ([fence] + rest))
    ensures ReadBlock(lines, prev) == Reading(|body| + 2, Some(Item(Code, Join(body), false, 0)))
  {
    FencedBody(lines, fence, body, rest);
    FenceReads(lines, body, prev);
  }

  lemma TableOpens(lines: seq<string>, body: seq<string>, rest: seq<string>)
    requires lines == body + rest && |body| >= 2 && IsAlignmentRow(Trim(body[1])) && IsPipeLine(body[0])
    ensures |lines| >= 2 && OpensTable(lines) && !IsFence(lines[0]) && lines[..|body|] == body
  {
    assert lines[0] == body[0] && lines[1] == body[1];
    assert Trim(lines[0])[0] == '|';
  }

  lemma TableTurn(lines: seq<string>, n: nat, prev: Option<Item>)
    requires lines != [] && OpensTable(lines) && !IsFence(lines[0]) && PipeLength(lines) == n
    ensures n <= |lines| && ReadBlock(lines, prev) == Reading(n, Some(Item(Table, Join(TrimAll(lines[..n])), false, 0)))
  {
  }

  lemma TableBody(text: string, body: seq<string>)
    requires LegibleTable(text) && body == Split(text)
    ensures |body| >= 2 && IsAlignmentRow(Trim(body[1])) && TrimAll(body) == body && Join(body) == text
    ensures forall i :: 0 <= i < |body| ==> IsPipeLine(body[i])
  {
    JoinSplit(text);
  }

  lemma TableLinesRead(text: string, body: seq<string>, rest: seq<string>, prev: Option<Item>)
    requires LegibleTable(text) && body == Split(text) && rest != [] && rest[0] == ""
    ensures ReadBlock(body + rest, prev) == Reading(|body|, Some(Item(Table, text, false, 0)))
  {
    TableBody(text, body);
    TableOpens(body + rest, body, rest);
    PipeLengthOf(body, rest);
    TableTurn(body + rest, |body|, prev);
  }

  lemma TableReads(item: Item, ordinal: nat, rest: seq<string>, prev: Option<Item>)
    requires item.kind.Table? && LegibleTable(item.text) && !item.checked && item.depth == 0
    requires rest != [] && rest[0] == ""
    ensures ReadBlock(ItemLines(item, ordinal) + rest, prev) == Reading(|ItemLines(item, ordinal)|, Some(item))
  {
    assert ItemLines(item, ordinal) == Split(item.text);
    TableLinesRead(item.text, Split(item.text), rest, prev);
  }

  // ---------------------------------------------------------------- one written block

  /**
   A written block is read back from its own lines, whatever follows, provided a blank line does
   when the block is not a list item.
   */
  lemma ItemReads(item: Item, ordinal: nat, rest: seq<string>, prev: Option<Item>)
    requires Legible(item)
    requires rest != [] && (!IsList(item.kind) ==> rest[0] == "")
    ensures ReadBlock(ItemLines(item, ordinal) + rest, prev)
         == Reading(|ItemLines(item, ordinal)|, Some(RereadItem(item, prev)))
  {
    match item.kind
    case Code => CodeItemReads(item, ordinal, rest, prev);
    case Table => TableReads(item, ordinal, rest, prev);
    case _ => OneLineItemReads(item, ordinal, rest, prev);
  }

  lemma CodeItemReads(item: Item, ordinal: nat, rest: seq<string>, prev: Option<Item>)
    requires item.kind.Code? && LegibleCode(item.text) && !item.checked && item.depth == 0
    ensures ReadBlock(ItemLines(item, ordinal) + rest, prev) == Reading(|ItemLines(item, ordinal)|, Some(item))
  {
    var body := Split(item.text);
    CodeLines(item, ordinal);
    FenceIsFence();
    RegroupFenced("```", body, rest);
    CodeReads(ItemLines(item, ordinal) + rest, "```", body, rest, prev);
    JoinSplit(item.text);
  }

  lemma FenceIsFence()
    ensures IsFence("```")
  {
    TrimmedTrimsToItself("```");
  }

  lemma RegroupFenced(fence: string, body: seq<string>, rest: seq<string>)
    ensures [fence] + body + [fence] + rest == [fence] + (body + ([fence] + rest))
  {
  }

  lemma OneLineReads(line: string, rest: seq<string>, prev: Option<Item>, item: Item)
    requires ReadsAs(line, prev, item) && rest != [] && (IsPipeLine(line) ==> rest[0] == "")
    ensures ReadBlock([line] + rest, prev) == Reading(1, Some(item))
  {
    assert ([line] + rest)[1] == rest[0];
  }

  lemma OneLineItemReads(item: Item, ordinal: nat, rest: seq<string>, prev: Option<Item>)
    requires Legible(item) && !item.kind.Code? && !item.kind.Table?
    requires rest != [] && (!IsList(item.kind) ==> rest[0] == "")
    ensures ReadBlock(ItemLines(item, ordinal) + rest, prev)
         == Reading(|ItemLines(item, ordinal)|, Some(RereadItem(item, prev)))
  {
    var line := Chunk(item, ordinal);
    OneLineItemText(item, ordinal, prev);
    SplitOneLine(line);
    OneLineReads(line, rest, prev, RereadItem(item, prev));
  }

  /** The one line of a block that has one, and what it reads as. */
  ghost predicate LineOf(item: Item, ordinal: nat, prev: Option<Item>) {
    var line := Chunk(item, ordinal);
    OneLine(line) && ReadsAs(line, prev, RereadItem(item, prev)) && (IsList(item.kind) ==> !IsPipeLine(line))
  }

  lemma ParagraphLineOf(item: Item, ordinal: nat, prev: Option<Item>)
    requires item.kind.Paragraph? && LegibleParagraph(item.text) && !item.checked && item.depth == 0
    ensures LineOf(item, ordinal, prev)
  {
    assert Chunk(item, ordinal) == item.text;
  }

  lemma ImageLineOf(item: Item, ordinal: nat, prev: Option<Item>)
    requires item.kind.Image? && Legible(item)
    ensures LineOf(item, ordinal, prev)
  {
    assert Chunk(item, ordinal) == item.text;
    ImageReads(item, prev);
  }

  lemma QuoteLineOf(item: Item, ordinal: nat, prev: Option<Item>)
    requires item.kind.Quote? && DotSafe(item.text) && !item.checked && item.depth == 0
    ensures LineOf(item, ordinal, prev)
  {
    assert Chunk(item, ordinal) == "> " + item.text;
    QuoteReads(item, prev);
  }

  lemma DividerLineOf(item: Item, ordinal: nat, prev: Option<Item>)
    requires item == Item(Divider, "", false, 0)
    ensures LineOf(item, ordinal, prev)
  {
    DividerReads(prev);
  }

  lemma OneLineItemText(item: Item, ordinal: nat, prev: Option<Item>)
    requires Legible(item) && !item.kind.Code? && !item.kind.Table?
    ensures LineOf(item, ordinal, prev)
  {
    match item.kind
    case Heading1 | Heading2 | Heading3 => HeadingLineOf(item, ordinal, prev);
    case Bullet | Todo | Numbered => ListLineOf(item, ordinal, prev);
    case Quote => QuoteLineOf(item, ordinal, prev);
    case Divider => DividerLineOf(item, ordinal, prev);
    case Image => ImageLineOf(item, ordinal, prev);
    case Paragraph => ParagraphLineOf(item, ordinal, prev);
  }

  lemma HeadingLineOf(item: Item, ordinal: nat, prev: Option<Item>)
    requires item.kind in [Heading1, Heading2, Heading3] && FlushLeft(item.text) && DotSafe(item.text)
    requires !item.checked && item.depth == 0
    ensures LineOf(item, ordinal, prev)
  {
    var hashes := if item.kind.Heading1? then "#" else if item.kind.Heading2? then "##" else "###";
    assert Chunk(item, ordinal) == hashes + " " + item.text;
    HeadingReads(hashes, item, prev);
  }

  lemma ListLineOf(item: Item, ordinal: nat, prev: Option<Item>)
    requires IsList(item.kind) && FlushLeft(item.text) && DotSafe(item.text) && item.depth <= MAX_DEPTH
    requires (item.checked ==> item.kind.Todo?) && (item.kind.Bullet? ==> !StartsWithBox(item.text))
    ensures LineOf(item, ordinal, prev)
  {
    ListItemIsNoPipeLine(item, ordinal);
    match item.kind
    case Bullet =>
      BulletReads(item, prev);
      BulletOneLine(item);
    case Todo =>
      TodoReads(item, prev);
      TodoOneLine(item);
    case Numbered =>
      NumberedReads(item, ordinal, prev);
      NumberedOneLine(item, ordinal);
  }

  lemma ListItemIsNoPipeLine(item: Item, ordinal: nat)
    requires IsList(item.kind)
    ensures !IsPipeLine(Chunk(item, ordinal))
  {
    var pad := Pad(item.depth);
    PadIsSpaces(item.depth);
    var line := Chunk(item, ordinal);
    var s := line[|pad|..];
    assert line == pad + s;
    StartsVisiblyWith(pad, s);
  }

  // ---------------------------------------------------------------- a whole document

  function LinesFrom(items: seq<Item>, i: nat): seq<string>
    requires i <= |items|
  {
    Explode(ChunksFrom(items, i))
  }

  lemma LinesUnroll(items: seq<Item>, i: nat)
    requires i < |items|
    ensures LinesFrom(items, i)
         == ItemLines(items[i], Ordinal(items, i)) + Separator(items, i) + LinesFrom(items, i + 1)
  {
    var chunk := Chunk(items[i], Ordinal(items, i));
    var rest := ChunksFrom(items, i + 1);
    var sep := Separator(items, i);
    assert ([chunk] + sep + rest)[1..] == sep + rest;
    if sep == [] {
      assert sep + rest == rest;
      assert Split(chunk) + sep == Split(chunk);
    } else {
      assert sep == [""];
      assert (sep + rest)[1..] == rest;
      SplitOneLine("");
      assert Explode(sep + rest) == sep + Explode(rest);
    }
  }

  lemma SeparatorReads(sep: seq<string>, rest: seq<string>, prev: Option<Item>)
    requires sep == [] || sep == [""]
    ensures ReadLines(sep + rest, prev) == ReadLines(rest, prev)
  {
    if sep == [] {
      assert sep + rest == rest;
    } else {
      BlankLineReads(sep + rest, prev);
      assert (sep + rest)[1..] == rest;
    }
  }

  /** After a block that is not a list item there is always a blank line. */
  lemma BlankAfter(items: seq<Item>, i: nat)
    requires i < |items|
    ensures var rest := Separator(items, i) + (LinesFrom(items, i + 1) + [""]);
            !IsList(items[i].kind) ==> rest[0] == ""
  {
    if i + 1 == |items| {
      assert LinesFrom(items, i + 1) == [];
    }
  }

  lemma BlockThenLater(lines: seq<string>, own: seq<string>, sep: seq<string>, later: seq<string>,
                       prev: Option<Item>, next: Item)
    requires lines == own + (sep + later) && own != [] && (sep == [] || sep == [""])
    requires ReadBlock(lines, prev) == Reading(|own|, Some(next))
    ensures ReadLines(lines, prev) == [next] + ReadLines(later, Some(next))
  {
    assert lines[|own|..] == sep + later;
    SeparatorReads(sep, later, Some(next));
  }

  lemma ItemThenLater(lines: seq<string>, item: Item, ordinal: nat, sep: seq<string>, later: seq<string>,
                      prev: Option<Item>)
    requires Legible(item) && later != [] && (sep == [] || sep == [""])
    requires lines == ItemLines(item, ordinal) + (sep + later)
    requires !IsList(item.kind) ==> (sep + later)[0] == ""
    ensures var next := RereadItem(item, prev);
            ReadLines(lines, prev) == [next] + ReadLines(later, Some(next))
  {
    ItemReads(item, ordinal, sep + later, prev);
    BlockThenLater(lines, ItemLines(item, ordinal), sep, later, prev, RereadItem(item, prev));
  }

  /** The lines of the file from block `i` on, the last one being what follows the final newline. */
  function FileLines(items: seq<Item>, i: nat): seq<string>
    requires i <= |items|
  {
    LinesFrom(items, i) + [""]
  }

  lemma RegroupLines(own: seq<string>, sep: seq<string>, later: seq<string>)
    ensures own + sep + later + [""] == own + (sep + (later + [""]))
  {
  }

  lemma FileLinesUnroll(items: seq<Item>, i: nat)
    requires i < |items|
    ensures var later := FileLines(items, i + 1);
            FileLines(items, i) == ItemLines(items[i], Ordinal(items, i)) + (Separator(items, i) + later) &&
            later != [] && (!IsList(items[i].kind) ==> (Separator(items, i) + later)[0] == "")
  {
    LinesUnroll(items, i);
    RegroupLines(ItemLines(items[i], Ordinal(items, i)), Separator(items, i), LinesFrom(items, i + 1));
    BlankAfter(items, i);
  }

  lemma FirstBlockReads(items: seq<Item>, i: nat, prev: Option<Item>)
    requires i < |items| && Legible(items[i])
    ensures var next := RereadItem(items[i], prev);
            ReadLines(FileLines(items, i), prev) == [next] + ReadLines(FileLines(items, i + 1), Some(next))
  {
    FileLinesUnroll(items, i);
    ItemThenLater(FileLines(items, i), items[i], Ordinal(items, i), Separator(items, i),
                  FileLines(items, i + 1), prev);
  }

  lemma NothingLeftReads(items: seq<Item>, prev: Option<Item>)
    ensures ReadsBackAt(items, |items|, prev)
  {
    assert FileLines(items, |items|) == [""];
    BlankLineReads([""], prev);
  }

  lemma RereadUnroll(items: seq<Item>, i: nat, prev: Option<Item>)
    requires i < |items|
    ensures var next := RereadItem(items[i], prev);
            Reread(items[i..], prev) == [next] + Reread(items[i + 1..], Some(next))
  {
    assert items[i..][1..] == items[i + 1..];
  }

  ghost predicate ReadsBackAt(items: seq<Item>, i: nat, prev: Option<Item>)
    requires i <= |items|
  {
    ReadLines(FileLines(items, i), prev) == Reread(items[i..], prev)
  }

  lemma ReadsBackOneMore(items: seq<Item>, i: nat, prev: Option<Item>)
    requires i < |items| && AllLegible(items) && ReadsBackFrom(items, i + 1)
    ensures ReadsBackAt(items, i, prev)
  {
    assert ReadsBackAt(items, i + 1, Some(RereadItem(items[i], prev)));
    FirstBlockReads(items, i, prev);
    RereadUnroll(items, i, prev);
  }

  /** Reading what was written from block `i` on gives `Reread`, whatever block came before. */
  ghost predicate ReadsBackFrom(items: seq<Item>, i: nat)
    requires i <= |items|
  {
    forall prev :: ReadsBackAt(items, i, prev)
  }

  lemma {:induction false} ReadsBack(items: seq<Item>, i: nat)
    requires i <= |items| && AllLegible(items)
    ensures ReadsBackFrom(items, i)
    decreases |items| - i
  {
    if i == |items| {
      forall prev ensures ReadsBackAt(items, i, prev) { NothingLeftReads(items, prev); }
    } else {
      ReadsBack(items, i + 1);
      forall prev ensures ReadsBackAt(items, i, prev) { ReadsBackOneMore(items, i, prev); }
    }
  }

  lemma BlankLineReads(lines: seq<string>, prev: Option<Item>)
    requires lines != [] && lines[0] == ""
    ensures ReadLines(lines, prev) == ReadLines(lines[1..], prev)
  {
    assert Visible("") == "";
    assert ReadBlock(lines, prev) == Reading(1, None);
  }

  // ---------------------------------------------------------------- the file around the lines

  ghost predicate GoodChunk(chunk: string) {
    chunk != "" && chunk[|chunk| - 1] != '\n' && '\r' !in chunk && !AllSpace(chunk)
  }

  lemma TableChunk(text: string)
    requires LegibleTable(text)
    ensures GoodChunk(text)
  {
    var lines := Split(text);
    LastLineEmptyIff(text);
    JoinSplit(text);
    JoinChars(lines, '|');
    assert lines[0][0] == '|';
  }

  lemma OneLineChunk(item: Item, ordinal: nat)
    requires Legible(item) && !item.kind.Code? && !item.kind.Table?
    ensures GoodChunk(Chunk(item, ordinal))
  {
    var line := Chunk(item, ordinal);
    OneLineItemText(item, ordinal, None);
    BlankIff(line);
    if AllSpace(line) { BlankHasNothingVisible(line); }
    assert line != "" && line[|line| - 1] in line;
  }

  lemma {:induction false} BlankHasNothingVisible(s: string)
    requires AllSpace(s)
    ensures Visible(s) == ""
  {
    if s != "" { BlankHasNothingVisible(s[1..]); }
  }

  lemma ChunkIsGood(item: Item, ordinal: nat)
    requires Legible(item)
    ensures GoodChunk(Chunk(item, ordinal))
  {
    match item.kind
    case Code => assert Chunk(item, ordinal)[0] == '`';
    case Table => TableChunk(item.text);
    case _ => OneLineChunk(item, ordinal);
  }

  ghost predicate GoodEnds(chunks: seq<string>) {
    chunks != [] && GoodChunk(chunks[0]) && GoodChunk(chunks[|chunks| - 1]) &&
    forall k :: 0 <= k < |chunks| ==> '\r' !in chunks[k]
  }

  lemma GoodEndsMore(chunk: string, sep: seq<string>, later: seq<string>)
    requires GoodChunk(chunk) && (sep == [] || sep == [""])
    requires if later == [] then sep == [] else GoodEnds(later)
    ensures GoodEnds([chunk] + sep + later)
  {
    var all := [chunk] + sep + later;
    assert all[|all| - 1] == if later == [] then chunk else later[|later| - 1];
  }

  lemma {:induction false} ChunksAreGood(items: seq<Item>, i: nat)
    requires i < |items| && AllLegible(items)
    ensures GoodEnds(ChunksFrom(items, i))
    decreases |items| - i
  {
    ChunkIsGood(items[i], Ordinal(items, i));
    if i + 1 < |items| { ChunksAreGood(items, i + 1); }
    GoodEndsMore(Chunk(items[i], Ordinal(items, i)), Separator(items, i), ChunksFrom(items, i + 1));
  }

  lemma GoodChunksJoin(chunks: seq<string>)
    requires GoodEnds(chunks)
    ensures DropNewlines(Join(chunks)) == Join(chunks)
    ensures '\r' !in Join(chunks)
    ensures Trim(Join(chunks) + "\n") != ""
  {
    JoinEnd(chunks);
    JoinChars(chunks, '\r');
    VisibleSurvivesJoin(chunks);
    BlankIff(Join(chunks) + "\n");
  }

  lemma SerializeIsJoin(items: seq<Item>)
    requires items != [] && AllLegible(items)
    ensures Serialize(items) == Join(ChunksFrom(items, 0)) + "\n"
    ensures '\r' !in Join(ChunksFrom(items, 0))
    ensures Trim(Serialize(items)) != ""
  {
    ChunksAreGood(items, 0);
    GoodChunksJoin(ChunksFrom(items, 0));
  }

  lemma SplitWithFinalNewline(body: string)
    ensures Split(body + "\n") == Split(body) + [""]
  {
    assert body + "\n" == body + "\n" + "";
    SplitAppend(body, "");
  }

  /** The file is its lines: nothing is trimmed from what is joined, and nothing normalised. */
  lemma FileText(items: seq<Item>)
    requires items != [] && AllLegible(items)
    ensures Split(Normalize(Serialize(items))) == FileLines(items, 0)
    ensures Trim(Serialize(items)) != ""
  {
    var chunks := ChunksFrom(items, 0);
    SerializeIsJoin(items);
    NormalizeWithoutReturns(Serialize(items));
    ChunksAreGood(items, 0);
    SplitJoin(chunks);
    SplitWithFinalNewline(Join(chunks));
  }

  lemma VisibleSurvivesJoin(lines: seq<string>)
    requires lines != [] && !AllSpace(lines[0])
    ensures !AllSpace(Join(lines) + "\n")
  {
    var k :| 0 <= k < |lines[0]| && !IsSpace(lines[0][k]);
    assert (Join(lines) + "\n")[k] == lines[0][k];
  }

  /**
   Saving and reloading any document the format can hold changes exactly two things: bullets that
   spell a horizontal rule become one, and skipped levels close up.
   */
  lemma SaveAndReload(items: seq<Item>)
    requires items != [] && AllLegible(items)
    ensures Parse(Serialize(items)) == Reread(items, None)
  {
    FileText(items);
    ReadsBack(items, 0);
    assert ReadsBackAt(items, 0, None);
    assert items[0..] == items;
  }

  lemma EmptyParagraphSurvives()
    ensures Serialize([EMPTY_PARAGRAPH]) == "\n" && Parse("\n") == [EMPTY_PARAGRAPH]
  {
    var items := [EMPTY_PARAGRAPH];
    assert ChunksFrom(items, 1) == [];
    assert ChunksFrom(items, 0) == [""];
    BlankIff("\n");
  }

  // ---------------------------------------------------------------- what the reader can produce

  lemma {:induction false} BodyIsFenceFree(lines: seq<string>)
    ensures forall i :: 0 <= i < BodyLength(lines) ==> !IsFence(lines[i])
  {
    if lines != [] && !IsFence(lines[0]) {
      BodyIsFenceFree(lines[1..]);
      forall i | 0 <= i < BodyLength(lines) ensures !IsFence(lines[i]) {
        if i > 0 { assert lines[i] == lines[1..][i - 1]; }
      }
    }
  }

  lemma {:induction false} PipeRun(lines: seq<string>)
    ensures forall i :: 0 <= i < PipeLength(lines) ==> IsPipeLine(lines[i])
  {
    if lines != [] && IsPipeLine(lines[0]) {
      PipeRun(lines[1..]);
      forall i | 0 <= i < PipeLength(lines) ensures IsPipeLine(lines[i]) {
        if i > 0 { assert lines[i] == lines[1..][i - 1]; }
      }
    }
  }

  ghost predicate AllOneLine(lines: seq<string>) {
    forall i :: 0 <= i < |lines| ==> OneLine(lines[i])
  }

  lemma SplitJoinLines(lines: seq<string>)
    requires lines != [] && AllOneLine(lines)
    ensures Split(Join(lines)) == lines && '\r' !in Join(lines)
  {
    forall l | l in lines ensures '\n' !in l {
      var i :| 0 <= i < |lines| && lines[i] == l;
    }
    SplitJoin(lines);
    ExplodeOneLines(lines);
    JoinChars(lines, '\r');
  }

  lemma CodeIsLegible(lines: seq<string>)
    requires AllOneLine(lines)
    ensures LegibleCode(Join(lines[..BodyLength(lines)]))
  {
    var body := lines[..BodyLength(lines)];
    BodyIsFenceFree(lines);
    if body == [] {
      SplitOneLine("");
    } else {
      SplitJoinLines(body);
    }
  }

  lemma TrimOneLine(line: string)
    requires OneLine(line)
    ensures OneLine(Trim(line)) && Trim(Trim(line)) == Trim(line)
  {
    var a, b := TrimSplits(line);
    TrimmedTrimsToItself(Trim(line));
  }

  lemma TableIsLegible(lines: seq<string>)
    requires AllOneLine(lines) && OpensTable(lines)
    ensures LegibleTable(Join(TrimAll(lines[..PipeLength(lines)])))
  {
    var n := PipeLength(lines);
    var body := TrimAll(lines[..n]);
    PipeRun(lines);
    assert IsPipeLine(lines[1]);
    assert n == 1 + PipeLength(lines[1..]) && PipeLength(lines[1..]) >= 1;
    forall i | 0 <= i < n ensures OneLine(body[i]) && Trim(body[i]) == body[i] && "|" <= body[i] {
      TrimOneLine(lines[i]);
    }
    SplitJoinLines(body);
  }

  lemma AfterSpacesShape(s: string)
    ensures AfterSpaces(s).Some? ==> FlushLeft(AfterSpaces(s).value) && DotSafe(AfterSpaces(s).value)
    ensures AfterOptionalSpaces(s).Some? ==>
              FlushLeft(AfterOptionalSpaces(s).value) && DotSafe(AfterOptionalSpaces(s).value)
  {
    TrimStartSplits(s);
  }

  lemma AfterDashShape(line: string)
    ensures AfterDash(line).Some? ==> FlushLeft(AfterDash(line).value)
  {
    var t := SkipIndent(line);
    if t != "" { TrimStartSplits(t[1..]); }
  }

  lemma TrimStartDotSafe(s: string)
    requires DotSafe(s)
    ensures AfterOptionalSpaces(s).Some?
  {
    TrimStartSplits(s);
  }

  lemma BulletIsNoTodo(line: string, text: string)
    requires MatchCheckedTodo(line).None? && MatchOpenTodo(line).None? && MatchBullet(line) == Some(text)
    ensures !StartsWithBox(text)
  {
    if CheckedBox(text) { TrimStartDotSafe(text[3..]); }
    if "[]" <= text { TrimStartDotSafe(text[2..]); }
    else if OpenBox(text) { TrimStartDotSafe(text[3..]); }
  }

  lemma ListRuleShape(line: string)
    ensures MatchListRule(line).Some? ==>
              var (kind, text) := MatchListRule(line).value;
              DotSafe(text) && (IsList(kind) || kind.Quote?) && (!kind.Quote? ==> FlushLeft(text)) &&
              (kind.Bullet? ==> !StartsWithBox(text))
  {
    AfterDashShape(line);
    if MatchCheckedTodo(line).Some? {
      AfterSpacesShape(AfterDash(line).value[3..]);
    } else if MatchOpenTodo(line).Some? {
      var t := AfterDash(line).value;
      AfterSpacesShape(if "[]" <= t then t[2..] else t[3..]);
    } else if MatchBullet(line).Some? {
      BulletIsNoTodo(line, MatchBullet(line).value);
    } else if MatchNumbered(line).Some? {
      AfterSpacesShape(SkipDigits(SkipIndent(line))[1..]);
    }
  }

  lemma RuleShape(line: string)
    ensures MatchRule(line).Some? ==>
              var (kind, text) := MatchRule(line).value;
              DotSafe(text) && (!kind.Quote? ==> FlushLeft(text)) &&
              (IsList(kind) || kind in [Quote, Heading1, Heading2, Heading3]) &&
              (kind.Bullet? ==> !StartsWithBox(text))
  {
    ListRuleShape(line);
    if |line| >= 1 { AfterSpacesShape(line[1..]); }
    if |line| >= 2 { AfterSpacesShape(line[2..]); }
    if |line| >= 3 { AfterSpacesShape(line[3..]); }
  }

  /** Whatever the reader finds is a block the format can hold, no deeper than it may be. */
  ghost predicate Fits(item: Item, prev: Option<Item>) {
    Legible(item) && (IsList(item.kind) ==> item.depth <= Ceiling(prev))
  }

  lemma RuleFits(line: string, kind: Kind, text: string, prev: Option<Item>)
    requires MatchRule(line) == Some((kind, text))
    ensures Fits(ReadRule(line, kind, text, prev), prev)
  {
    RuleShape(line);
  }

  lemma ImageFits(line: string, prev: Option<Item>)
    requires OneLine(line) && IsImage(Trim(line))
    ensures Fits(Item(Image, Trim(line), false, 0), prev)
  {
    TrimOneLine(line);
  }

  lemma LineFits(line: string, prev: Option<Item>)
    requires OneLine(line) && !IsFence(line)
    ensures ReadLine(line, prev).Some? ==> Fits(ReadLine(line, prev).value, prev)
  {
    if IsImage(Trim(line)) {
      ImageFits(line, prev);
    } else {
      match MatchRule(line)
      case Some((kind, text)) => RuleFits(line, kind, text, prev);
      case None => TrimOneLine(line);
    }
  }

  lemma BlockFits(lines: seq<string>, prev: Option<Item>)
    requires lines != [] && AllOneLine(lines)
    ensures var found := ReadBlock(lines, prev).found;
            found.Some? ==> Fits(found.value, prev)
  {
    if IsFence(lines[0]) {
      CodeIsLegible(lines[1..]);
      assert lines[1..][..BodyLength(lines[1..])] == lines[1..1 + BodyLength(lines[1..])];
    } else if OpensTable(lines) {
      TableIsLegible(lines);
    } else {
      LineFits(lines[0], prev);
    }
  }

  lemma {:induction false} ReadLinesFit(lines: seq<string>, prev: Option<Item>)
    requires AllOneLine(lines)
    ensures AllLegible(ReadLines(lines, prev)) && WellNestedAfter(prev, ReadLines(lines, prev))
    decreases |lines|
  {
    if lines != [] {
      var r := ReadBlock(lines, prev);
      BlockFits(lines, prev);
      if r.found.Some? {
        ReadLinesFit(lines[r.used..], r.found);
        assert ReadLines(lines, prev)[1..] == ReadLines(lines[r.used..], r.found);
      } else {
        ReadLinesFit(lines[r.used..], prev);
      }
    }
  }

  /** A document the reader can produce. */
  ghost predicate Producible(items: seq<Item>) {
    items == [EMPTY_PARAGRAPH] || (items != [] && AllLegible(items) && WellNested(items))
  }

  /** Every text, however it is written, is read as blocks the format can hold, properly nested. */
  lemma ParseIsProducible(markdown: string)
    ensures Producible(Parse(markdown))
  {
    var lines := Split(Normalize(markdown));
    NormalizeRemovesReturns(markdown);
    SplitChars(Normalize(markdown));
    forall i | 0 <= i < |lines| ensures OneLine(lines[i]) {
      forall j | 0 <= j < |lines[i]| ensures lines[i][j] != '\n' && lines[i][j] != '\r' {}
    }
    ReadLinesFit(lines, None);
  }

  // ---------------------------------------------------------------- the round trip

  lemma {:induction false} RereadFixedIff(items: seq<Item>, prev: Option<Item>)
    ensures Reread(items, prev) == items <==> NoneDashy(items) && WellNestedAfter(prev, items)
  {
    if items != [] {
      var first := RereadItem(items[0], prev);
      RereadFixedIff(items[1..], Some(first));
      assert items == [items[0]] + items[1..];
      assert Reread(items, prev)[1..] == Reread(items[1..], Some(first));
      assert (forall i :: 0 <= i < |items| ==> !Dashy(items[i])) <==>
             (!Dashy(items[0]) && forall i :: 0 <= i < |items[1..]| ==> !Dashy(items[1..][i])) by {
        if !Dashy(items[0]) && forall i :: 0 <= i < |items[1..]| ==> !Dashy(items[1..][i]) {
          forall i | 0 <= i < |items| ensures !Dashy(items[i]) {
            if i > 0 { assert items[i] == items[1..][i - 1]; }
          }
        }
        if forall i :: 0 <= i < |items| ==> !Dashy(items[i]) {
          forall i | 0 <= i < |items[1..]| ensures !Dashy(items[1..][i]) {
            assert items[1..][i] == items[i + 1];
          }
        }
      }
    }
  }

  /** What a document must be for a save and a reload to give it back. */
  predicate Saveable(items: seq<Item>) {
    items == [EMPTY_PARAGRAPH] ||
    (items != [] && (forall i :: 0 <= i < |items| ==> Writable(items[i])) && WellNested(items))
  }

  /** The round trip holds for exactly the saveable documents. */
  lemma RoundTripIff(items: seq<Item>)
    ensures Parse(Serialize(items)) == items <==> Saveable(items)
  {
    if items == [EMPTY_PARAGRAPH] {
      EmptyParagraphSurvives();
    } else {
      ParseIsProducible(Serialize(items));
      if items != [] && AllLegible(items) {
        SaveAndReload(items);
        RereadFixedIff(items, None);
      }
    }
  }

  lemma OneBlockSurvives(item: Item)
    requires Writable(item) && item.depth == 0
    ensures Parse(Serialize([item])) == [item]
  {
    assert [item][1..] == [];
    assert WellNestedAfter(Some(item), []);
    assert Saveable([item]);
    RoundTripIff([item]);
  }

  // ---------------------------------------------------------------- writing twice

  lemma RereadItemIsWritable(item: Item, prev: Option<Item>)
    requires Legible(item)
    ensures var first := RereadItem(item, prev);
            Legible(first) && !Dashy(first) && (IsList(first.kind) ==> first.depth <= Ceiling(prev))
  {
  }

  lemma {:induction false} RereadIsSaveable(items: seq<Item>, prev: Option<Item>)
    requires AllLegible(items)
    ensures |Reread(items, prev)| == |items|
    ensures AllLegible(Reread(items, prev)) && NoneDashy(Reread(items, prev))
    ensures WellNestedAfter(prev, Reread(items, prev))
  {
    if items != [] {
      var first := RereadItem(items[0], prev);
      RereadItemIsWritable(items[0], prev);
      RereadIsSaveable(items[1..], Some(first));
      assert Reread(items, prev)[1..] == Reread(items[1..], Some(first));
    }
  }

  lemma {:induction false} RereadPrefix(items: seq<Item>, prev: Option<Item>, n: nat)
    requires n <= |items| && AllLegible(items) && WellNestedAfter(prev, items)
    requires forall i :: 0 <= i < n ==> !Dashy(items[i])
    ensures |Reread(items, prev)| == |items| && Reread(items, prev)[..n] == items[..n]
    ensures n < |items| && Dashy(items[n]) ==> Reread(items, prev)[n] == Item(Divider, "", false, 0)
  {
    RereadIsSaveable(items, prev);
    if n > 0 {
      var later := Reread(items[1..], Some(items[0]));
      RereadPrefix(items[1..], Some(items[0]), n - 1);
      assert Reread(items, prev) == [items[0]] + later;
      OneMoreInPrefix(items[0], items[1..], later, n - 1);
      assert [items[0]] + items[1..] == items;
    }
  }

  lemma OneMoreInPrefix(first: Item, a: seq<Item>, b: seq<Item>, n: nat)
    requires n <= |a| && n <= |b| && a[..n] == b[..n]
    ensures ([first] + a)[..n + 1] == ([first] + b)[..n + 1]
  {
    assert ([first] + a)[..n + 1] == [first] + a[..n];
    assert ([first] + b)[..n + 1] == [first] + b[..n];
  }

  lemma {:induction false} NearestSamePrefix(a: seq<Item>, b: seq<Item>, i: nat, d: nat)
    requires i <= |a| && i <= |b| && a[..i] == b[..i]
    ensures NearestNotDeeper(a, i, d) == NearestNotDeeper(b, i, d)
  {
    if i > 0 {
      assert a[i - 1] == a[..i][i - 1] && b[i - 1] == b[..i][i - 1];
      assert a[..i - 1] == a[..i][..i - 1] && b[..i - 1] == b[..i][..i - 1];
      NearestSamePrefix(a, b, i - 1, d);
    }
  }

  /** Numbers depend only on what comes before. */
  lemma {:induction false} OrdinalSamePrefix(a: seq<Item>, b: seq<Item>, i: nat)
    requires i < |a| && i < |b| && a[..i + 1] == b[..i + 1]
    ensures Ordinal(a, i) == Ordinal(b, i)
    decreases i
  {
    assert a[i] == a[..i + 1][i] && b[i] == b[..i + 1][i];
    assert a[..i] == a[..i + 1][..i] && b[..i] == b[..i + 1][..i];
    NearestSamePrefix(a, b, i, a[i].depth);
    var j := NearestNotDeeper(a, i, a[i].depth);
    if j >= 0 {
      assert a[j] == a[..i + 1][j] && b[j] == b[..i + 1][j];
      assert a[..j + 1] == a[..i + 1][..j + 1] && b[..j + 1] == b[..i + 1][..j + 1];
      OrdinalSamePrefix(a, b, j);
    }
  }

  lemma DashyLine(item: Item, ordinal: nat)
    requires Dashy(item) && Legible(item)
    ensures ItemLines(item, ordinal) == [Chunk(item, ordinal)]
    ensures Chunk(item, ordinal) != "" && Chunk(item, ordinal) != "---"
  {
    var line := Chunk(item, ordinal);
    BulletOneLine(item);
    SplitOneLine(line);
    PadIsSpaces(item.depth);
    assert line[|Pad(item.depth)| + 1] == ' ';
  }

  /** Two files agree up to a block and then one has a dashy bullet and the other a rule: they differ. */
  lemma {:induction false} FilesDiffer(a: seq<Item>, b: seq<Item>, i: nat, j: nat)
    requires i <= j < |a| && j < |b| && a[..j] == b[..j]
    requires Dashy(a[j]) && Legible(a[j]) && b[j].kind.Divider?
    ensures FileLines(a, i) != FileLines(b, i)
    decreases j - i
  {
    FileLinesUnroll(a, i);
    FileLinesUnroll(b, i);
    var own := ItemLines(a[i], Ordinal(a, i));
    var restA := Separator(a, i) + FileLines(a, i + 1);
    var restB := Separator(b, i) + FileLines(b, i + 1);
    if i == j {
      DashyLine(a[j], Ordinal(a, j));
      SplitOneLine("---");
      assert FileLines(a, i)[0] != FileLines(b, i)[0];
    } else {
      SamePrefixSameOwnLines(a, b, i, j);
      RestsDiffer(a, b, i, j);
      StillDiffer(own, restA, restB);
    }
  }

  lemma SamePrefixSameOwnLines(a: seq<Item>, b: seq<Item>, i: nat, j: nat)
    requires i < j < |a| && j < |b| && a[..j] == b[..j]
    ensures a[i] == b[i] && Ordinal(a, i) == Ordinal(b, i)
  {
    assert a[i] == a[..j][i] && b[i] == b[..j][i];
    assert a[..i + 1] == a[..j][..i + 1] && b[..i + 1] == b[..j][..i + 1];
    OrdinalSamePrefix(a, b, i);
  }

  lemma RestsDiffer(a: seq<Item>, b: seq<Item>, i: nat, j: nat)
    requires i < j < |a| && j < |b| && a[..j] == b[..j]
    requires Dashy(a[j]) && Legible(a[j]) && b[j].kind.Divider?
    ensures Separator(a, i) + FileLines(a, i + 1) != Separator(b, i) + FileLines(b, i + 1)
    decreases j - i, 0
  {
    SeparatorsAlike(a, b, i, j);
    if Separator(a, i) == Separator(b, i) {
      FilesDiffer(a, b, i + 1, j);
      StillDiffer(Separator(a, i), FileLines(a, i + 1), FileLines(b, i + 1));
    } else {
      FirstLineOfDashy(a, j);
      NotBlankFirst(FileLines(a, j), FileLines(b, j));
    }
  }

  lemma StillDiffer(s: seq<string>, x: seq<string>, y: seq<string>)
    requires x != y
    ensures s + x != s + y
  {
    assert (s + x)[|s|..] == x && (s + y)[|s|..] == y;
  }

  lemma NotBlankFirst(x: seq<string>, y: seq<string>)
    requires x != [] && x[0] != ""
    ensures [] + x != [""] + y
  {
    assert ([] + x)[0] == x[0] && ([""] + y)[0] == "";
  }

  lemma SeparatorsAlike(a: seq<Item>, b: seq<Item>, i: nat, j: nat)
    requires i < j < |a| && j < |b| && a[..j] == b[..j] && b[j].kind.Divider?
    ensures Separator(a, i) == Separator(b, i) ||
            (i + 1 == j && Separator(a, i) == [] && Separator(b, i) == [""])
  {
    assert a[i] == a[..j][i] && b[i] == b[..j][i];
    if i + 1 < j { assert a[i + 1] == a[..j][i + 1] && b[i + 1] == b[..j][i + 1]; }
  }

  lemma FirstLineOfDashy(items: seq<Item>, i: nat)
    requires i < |items| && Dashy(items[i]) && Legible(items[i])
    ensures FileLines(items, i) != [] && FileLines(items, i)[0] != ""
  {
    DashyLine(items[i], Ordinal(items, i));
    FileLinesUnroll(items, i);
  }

  lemma FirstDashy(items: seq<Item>) returns (n: nat)
    requires !NoneDashy(items)
    ensures n < |items| && Dashy(items[n]) && forall i :: 0 <= i < n ==> !Dashy(items[i])
  {
    n := 0;
    while !Dashy(items[n])
      invariant n < |items| && forall i :: 0 <= i < n ==> !Dashy(items[i])
      decreases |items| - n
    {
      n := n + 1;
    }
  }

  /** Writing a document with a dashy bullet is not yet stable: a second save changes the file. */
  lemma DashyIsUnstable(items: seq<Item>)
    requires items != [] && AllLegible(items) && WellNested(items) && !NoneDashy(items)
    ensures Canonical(Serialize(items)) != Serialize(items)
  {
    var again := Reread(items, None);
    var n := FirstDashy(items);
    RereadPrefix(items, None, n);
    RereadIsSaveable(items, None);
    SaveAndReload(items);
    FileText(items);
    FileText(again);
    FilesDiffer(items, again, 0, n);
  }

  /** `canonical` has settled after one application exactly when no bullet spells a rule. */
  lemma CanonicalIdempotentIff(markdown: string)
    ensures Canonical(Canonical(markdown)) == Canonical(markdown) <==> NoneDashy(Parse(markdown))
  {
    var items := Parse(markdown);
    ParseIsProducible(markdown);
    if NoneDashy(items) {
      RoundTripIff(items);
    } else {
      DashyIsUnstable(items);
    }
  }

  /** And it has always settled after two. */
  lemma CanonicalSettlesInTwo(markdown: string)
    ensures Canonical(Canonical(Canonical(markdown))) == Canonical(Canonical(markdown))
  {
    var items := Parse(markdown);
    ParseIsProducible(markdown);
    if items == [EMPTY_PARAGRAPH] {
      EmptyParagraphSurvives();
    } else {
      SaveAndReload(items);
      RereadIsSaveable(items, None);
      RoundTripIff(Reread(items, None));
    }
  }

  /** A dashy bullet in the terms a writer would check: dashes and whitespace, at least two dashes. */
  lemma DashyIff(text: string)
    ensures IsDivider("- " + text) <==> (AllSame(Visible(text), '-') && |Visible(text)| >= 2)
  {
    assert "- " + text == ['-'] + " " + text;
    VisibleAfterMarker('-', text);
    DashFirst(Visible(text));
  }

  lemma VisibleAfterMarker(c: char, text: string)
    requires !IsSpace(c)
    ensures Visible([c] + " " + text) == [c] + Visible(text)
  {
    var line := [c] + " " + text;
    assert line[1..] == " " + text;
    assert line[1..][1..] == text;
    assert Visible(line[1..]) == Visible(text);
  }

  lemma DashFirst(v: string)
    ensures AllSame(['-'] + v, '-') <==> AllSame(v, '-')
  {
    if AllSame(['-'] + v, '-') {
      forall i | 0 <= i < |v| ensures v[i] == '-' { assert (['-'] + v)[i + 1] == v[i]; }
    }
  }
}
