/**
 Documents the file does not hold: for each way a block can fail to be writable, a whole family of
 blocks an editor can build that a save and a reload change.
 */
module RoundTripLimits {
  import opened Text
  import opened Markdown
  import opened RoundTrip

  lemma NotWritableIsLost(before: seq<Item>, item: Item, after: seq<Item>)
    requires !Writable(item) && before + [item] + after != [EMPTY_PARAGRAPH]
    ensures Parse(Serialize(before + [item] + after)) != before + [item] + after
  {
    var items := before + [item] + after;
    RoundTripIff(items);
    assert !Writable(items[|before|]);
  }

  /** Paragraphs that hold no visible text disappear between blocks. */
  lemma BlankParagraphIsLost(before: seq<Item>, text: string, after: seq<Item>)
    requires AllSpace(text) && before + [Item(Paragraph, text, false, 0)] + after != [EMPTY_PARAGRAPH]
    ensures var items := before + [Item(Paragraph, text, false, 0)] + after;
            Parse(Serialize(items)) != items
  {
    BlankIff(text);
    NotWritableIsLost(before, Item(Paragraph, text, false, 0), after);
  }

  /** A line break inside anything but code and tables does not survive. */
  lemma LineBreakIsLost(before: seq<Item>, item: Item, after: seq<Item>)
    requires '\n' in item.text && !item.kind.Code? && !item.kind.Table?
    ensures Parse(Serialize(before + [item] + after)) != before + [item] + after
  {
    assert (before + [item] + after)[|before|] == item;
    NotWritableIsLost(before, item, after);
  }

  /** Neither do leading spaces, where the reader skips them. */
  lemma LeadingSpaceIsLost(before: seq<Item>, item: Item, after: seq<Item>)
    requires IsList(item.kind) || item.kind in [Heading1, Heading2, Heading3]
    requires item.text != "" && IsSpace(item.text[0])
    ensures Parse(Serialize(before + [item] + after)) != before + [item] + after
  {
    assert (before + [item] + after)[|before|] == item;
    NotWritableIsLost(before, item, after);
  }

  /** A paragraph that reads as a marker becomes what it reads as. */
  lemma MarkerTextIsLost(before: seq<Item>, text: string, after: seq<Item>)
    requires MatchRule(text).Some? && Trim(text) != ""
    ensures var items := before + [Item(Paragraph, text, false, 0)] + after;
            Parse(Serialize(items)) != items
  {
    var item := Item(Paragraph, text, false, 0);
    assert (before + [item] + after)[|before|] == item;
    assert Trim("") == "";
    NotWritableIsLost(before, item, after);
  }

  /** Code with a line that opens a fence is cut there. */
  lemma FenceInCodeIsLost(before: seq<Item>, text: string, i: nat, after: seq<Item>)
    requires i < |Split(text)| && IsFence(Split(text)[i])
    ensures var items := before + [Item(Code, text, false, 0)] + after;
            Parse(Serialize(items)) != items
  {
    var item := Item(Code, text, false, 0);
    assert (before + [item] + after)[|before|] == item;
    NotWritableIsLost(before, item, after);
  }

  /** An item two or more levels below the block before it is lifted. */
  lemma SkippedLevelIsLost(items: seq<Item>, i: nat)
    requires i < |items| && IsList(items[i].kind)
    requires items[i].depth > Ceiling(if i == 0 then None else Some(items[i - 1]))
    ensures Parse(Serialize(items)) != items
  {
    RoundTripIff(items);
    SkipIsNotNested(items, None, i);
  }

  lemma {:induction false} SkipIsNotNested(items: seq<Item>, prev: Option<Item>, i: nat)
    requires i < |items| && IsList(items[i].kind)
    requires items[i].depth > Ceiling(if i == 0 then prev else Some(items[i - 1]))
    ensures !WellNestedAfter(prev, items)
  {
    if i > 0 { SkipIsNotNested(items[1..], Some(items[0]), i - 1); }
  }

  // ---------------------------------------------------------------- a starred bullet of dashes

  lemma DashesStart(text: string)
    requires FlushLeft(text) && IsDivider("- " + text)
    ensures AllSame(Visible(text), '-') && |Visible(text)| >= 2
    ensures text != "" && text[0] == '-'
  {
    DashyIff(text);
    assert Visible(text)[0] == text[0];
  }

  lemma StarIsNoDivider(text: string, line: string)
    requires line == "* " + text && AllSame(Visible(text), '-') && |Visible(text)| >= 2
    ensures !IsDivider(line)
  {
    assert line == ['*'] + " " + text;
    VisibleAfterMarker('*', text);
    assert Visible(line)[1] == '-';
  }

  lemma StarMatches(text: string, line: string)
    requires line == "* " + text && text != "" && text[0] == '-' && DotSafe(text)
    ensures MatchRule(line) == Some((Bullet, text))
  {
    assert SkipIndent(line) == line;
    assert line[1..] == " " + text;
    TrimStartPadded(" ", text);
    assert AfterDash(line) == Some(text);
    assert MatchListRule(line) == Some((Bullet, text));
  }

  lemma StarReads(text: string, line: string)
    requires line == "* " + text && FlushLeft(text) && DotSafe(text) && IsDivider("- " + text)
    ensures !IsFence(line) && ReadLine(line, None) == Some(Item(Bullet, text, false, 0))
  {
    DashesStart(text);
    StarIsNoDivider(text, line);
    StarMatches(text, line);
    VisibleFirst(line);
    assert AfterDash(line).value == text by {
      assert SkipIndent(line) == line;
      assert line[1..] == " " + text;
      TrimStartPadded(" ", text);
    }
  }

  lemma OneLineParse(line: string, item: Item)
    requires OneLine(line) && Trim(line) != "" && !IsFence(line) && ReadLine(line, None) == Some(item)
    ensures Parse(line) == [item]
  {
    NormalizeWithoutReturns(line);
    SplitOneLine(line);
    var lines := [line];
    assert ReadBlock(lines, None) == Reading(1, Some(item));
    assert lines[1..] == [];
    assert ReadLines(lines, None) == [item] + ReadLines([], Some(item));
  }

  /** A hand-written `* - -` opens as a bullet, is saved as a rule, and changes again at the next save. */
  lemma StarredDashesAreUnstable(text: string)
    requires FlushLeft(text) && DotSafe(text) && IsDivider("- " + text)
    ensures Parse("* " + text) == [Item(Bullet, text, false, 0)]
    ensures Canonical(Canonical("* " + text)) != Canonical("* " + text)
  {
    var line, item := "* " + text, Item(Bullet, text, false, 0);
    StarReads(text, line);
    VisibleFirst(line);
    OneLineParse(line, item);
    assert Dashy([item][0]);
    CanonicalIdempotentIff(line);
  }
}
