/**
 What a written document looks like, line by line: the text of each block, the numbers, the blank lines.
 */
module WrittenFiles {
  import opened Text
  import opened Markdown
  import opened Blocks
  import RoundTrip

  /** Neighbours written without a blank line between them: items of one kind, or of different levels. */
  predicate OneList(a: Item, b: Item) {
    IsList(a.kind) && IsList(b.kind) && (a.kind == b.kind || a.depth != b.depth)
  }

  /** Where block `i` is written, when each block and each blank line between two takes one place. */
  function PlaceOf(items: seq<Item>, i: nat): nat
    requires i < |items|
  {
    if i == 0 then 0 else PlaceOf(items, i - 1) + if OneList(items[i - 1], items[i]) then 1 else 2
  }

  lemma NextPlace(items: seq<Item>, i: nat, before: seq<string>)
    requires i + 1 < |items| && |before| == PlaceOf(items, i)
    requires ChunksFrom(items, 0) == before + ChunksFrom(items, i)
    ensures var more := before + [Chunk(items[i], Ordinal(items, i))] + Separator(items, i);
            |more| == PlaceOf(items, i + 1) && ChunksFrom(items, 0) == more + ChunksFrom(items, i + 1)
  {
    var chunk, sep, later := Chunk(items[i], Ordinal(items, i)), Separator(items, i), ChunksFrom(items, i + 1);
    Regroup(before, [chunk] + sep, later);
    Regroup(before, [chunk], sep);
  }

  /** Everything written before block `i`. */
  lemma {:induction false} WrittenBefore(items: seq<Item>, i: nat) returns (before: seq<string>)
    requires i < |items|
    ensures |before| == PlaceOf(items, i) && ChunksFrom(items, 0) == before + ChunksFrom(items, i)
    decreases i
  {
    if i == 0 {
      before := [];
      assert ChunksFrom(items, 0) == before + ChunksFrom(items, 0);
    } else {
      var earlier := WrittenBefore(items, i - 1);
      NextPlace(items, i - 1, earlier);
      before := earlier + [Chunk(items[i - 1], Ordinal(items, i - 1))] + Separator(items, i - 1);
    }
  }

  lemma PlaceHolds(items: seq<Item>, i: nat)
    requires i < |items|
    ensures PlaceOf(items, i) < |ChunksFrom(items, 0)|
    ensures ChunksFrom(items, 0)[PlaceOf(items, i)] == Chunk(items[i], Ordinal(items, i))
  {
    var before := WrittenBefore(items, i);
    assert ChunksFrom(items, i)[0] == Chunk(items[i], Ordinal(items, i));
  }

  // ---------------------------------------------------------------- blank lines

  /**
   Between two blocks there is exactly one blank line, except between neighbouring items of one list,
   which are written one right after the other; nothing comes after the last block.
   */
  lemma BlankLinesAre(items: seq<Item>, i: nat)
    requires i < |items|
    ensures var lines := ChunksFrom(items, 0);
            if i + 1 == |items| then |lines| == PlaceOf(items, i) + 1
            else if IsList(items[i].kind) && IsList(items[i + 1].kind) &&
                    (items[i].kind == items[i + 1].kind || items[i].depth != items[i + 1].depth)
            then PlaceOf(items, i + 1) == PlaceOf(items, i) + 1 < |lines|
            else PlaceOf(items, i + 1) == PlaceOf(items, i) + 2 < |lines| && lines[PlaceOf(items, i) + 1] == ""
  {
    var before := WrittenBefore(items, i);
    if i + 1 < |items| {
      PlaceHolds(items, i + 1);
      assert OneList(items[i], items[i + 1]) || ChunksFrom(items, i)[1] == "";
    } else {
      assert ChunksFrom(items, i) == [Chunk(items[i], Ordinal(items, i))];
    }
  }

  // ---------------------------------------------------------------- what is written of a block

  predicate Spaces(pad: string, n: nat) {
    |pad| == n && forall i :: 0 <= i < n ==> pad[i] == ' '
  }

  /** The usual way to write `n`: digits that spell it, without a zero in front. */
  predicate Spells(digits: string, n: nat) {
    digits != "" && (forall i :: 0 <= i < |digits| ==> '0' <= digits[i] <= '9') &&
    DecimalValue(digits) == n && (n > 0 ==> digits[0] != '0')
  }

  lemma {:induction false} DecimalStart(n: nat)
    requires n > 0
    ensures Decimal(n)[0] != '0'
  {
    if n >= 10 { DecimalStart(n / 10); }
  }

  lemma DecimalSpells(n: nat)
    ensures Spells(Decimal(n), n)
  {
    DecimalReadsBack(n);
    if n > 0 { DecimalStart(n); }
  }

  lemma PadIsIndent(depth: nat)
    ensures Spaces(Pad(depth), 2 * depth)
  {
    RoundTrip.PadIsSpaces(depth);
  }

  /**
   A numbered item is written as two spaces for each level, its number, a period and a space, and its
   text. The number is one more than the numbered siblings since block `k`, where the list began.
   */
  lemma NumberedLineIs(items: seq<Item>, k: nat, i: nat) returns (pad: string, digits: string)
    requires k <= i < |items| && items[i].kind.Numbered?
    requires forall j :: k <= j < i ==> KeepsRun(items[j], items[i].depth)
    requires k == 0 || !KeepsRun(items[k - 1], items[i].depth)
    ensures PlaceOf(items, i) < |ChunksFrom(items, 0)|
    ensures ChunksFrom(items, 0)[PlaceOf(items, i)] == pad + digits + ". " + items[i].text
    ensures Spaces(pad, 2 * items[i].depth)
    ensures Spells(digits, 1 + CountNumbered(items[k..i], items[i].depth))
  {
    pad, digits := Pad(items[i].depth), Decimal(Ordinal(items, i));
    PlaceHolds(items, i);
    PadIsIndent(items[i].depth);
    DecimalSpells(Ordinal(items, i));
    OrdinalIsPosition(items, k, i);
  }

  /** How the other blocks are written. */
  lemma BlockLineIs(items: seq<Item>, i: nat) returns (pad: string)
    requires i < |items| && !items[i].kind.Numbered?
    ensures PlaceOf(items, i) < |ChunksFrom(items, 0)| && Spaces(pad, 2 * items[i].depth)
    ensures var text := items[i].text;
            ChunksFrom(items, 0)[PlaceOf(items, i)] ==
              match items[i].kind
              case Heading1 => "# " + text
              case Heading2 => "## " + text
              case Heading3 => "### " + text
              case Bullet => pad + "- " + text
              case Todo => pad + (if items[i].checked then "- [x] " else "- [ ] ") + text
              case Quote => "> " + text
              case Code => "```\n" + text + "\n```"
              case Divider => "---"
              case _ => text
  {
    pad := Pad(items[i].depth);
    PlaceHolds(items, i);
    PadIsIndent(items[i].depth);
    if items[i].kind.Code? { assert "```" + "\n" + items[i].text + "\n" + "```" == "```\n" + items[i].text + "\n```"; }
  }

  // ---------------------------------------------------------------- the end of the file

  lemma {:induction false} DropsOnlyNewlines(s: string)
    ensures var kept := DropNewlines(s);
            kept <= s && (kept == "" || kept[|kept| - 1] != '\n') && forall i :: |kept| <= i < |s| ==> s[i] == '\n'
  {
    if s != "" && s[|s| - 1] == '\n' { DropsOnlyNewlines(s[..|s| - 1]); }
  }

  /** A file is what was pushed, joined by newlines, with whatever newlines it ends in made one. */
  lemma FileEndsInOneNewline(items: seq<Item>)
    ensures var file, pushed := Markdown.Serialize(items), Join(ChunksFrom(items, 0));
            var n := |file| - 1;
            file != "" && file[n] == '\n' && (n > 0 ==> file[n - 1] != '\n') && file[..n] <= pushed &&
            forall i :: n <= i < |pushed| ==> pushed[i] == '\n'
  {
    DropsOnlyNewlines(Join(ChunksFrom(items, 0)));
  }

  // ---------------------------------------------------------------- a numbered list in a file

  function NumberedItems(texts: seq<string>): (items: seq<Item>)
    ensures |items| == |texts| && forall i :: 0 <= i < |items| ==> items[i] == Item(Numbered, texts[i], false, 0)
  {
    seq(|texts|, i requires 0 <= i < |texts| => Item(Numbered, texts[i], false, 0))
  }

  lemma {:induction false} CountAll(items: seq<Item>)
    requires forall i :: 0 <= i < |items| ==> items[i].kind.Numbered? && items[i].depth == 0
    ensures CountNumbered(items, 0) == |items|
  {
    if items != [] { CountAll(items[..|items| - 1]); }
  }

  lemma {:induction false} ListPlaces(texts: seq<string>, i: nat)
    requires i < |texts|
    ensures PlaceOf(NumberedItems(texts), i) == i
  {
    if i > 0 { ListPlaces(texts, i - 1); }
  }

  lemma ListLineIs(texts: seq<string>, i: nat) returns (digits: string)
    requires i < |texts|
    ensures i < |ChunksFrom(NumberedItems(texts), 0)|
    ensures ChunksFrom(NumberedItems(texts), 0)[i] == digits + ". " + texts[i] && Spells(digits, i + 1)
  {
    var items := NumberedItems(texts);
    var pad;
    pad, digits := NumberedLineIs(items, 0, i);
    ListPlaces(texts, i);
    CountAll(items[0..i]);
    assert pad + digits == digits;
  }

  lemma ListLength(texts: seq<string>)
    requires texts != []
    ensures |ChunksFrom(NumberedItems(texts), 0)| == |texts|
  {
    ListPlaces(texts, |texts| - 1);
    BlankLinesAre(NumberedItems(texts), |texts| - 1);
  }

  ghost predicate IsNumbered(line: string, n: nat, text: string) {
    exists digits: string :: Spells(digits, n) && line == digits + ". " + text
  }

  /** A top-level list of numbered items is saved as `1.`, `2.` and so on to the last, one line each. */
  lemma NumberedListIsSaved(texts: seq<string>)
    requires texts != [] && forall i :: 0 <= i < |texts| ==> '\n' !in texts[i]
    ensures var lines := Split(Markdown.Serialize(NumberedItems(texts)));
            |lines| == |texts| + 1 && lines[|texts|] == "" &&
            forall i :: 0 <= i < |texts| ==> IsNumbered(lines[i], i + 1, texts[i])
  {
    var chunks := ChunksFrom(NumberedItems(texts), 0);
    ListLength(texts);
    forall i | 0 <= i < |texts|
      ensures IsNumbered(chunks[i], i + 1, texts[i]) && '\n' !in chunks[i] && chunks[i] != "" {
      var digits := ListLineIs(texts, i);
    }
    ListTextIs(chunks);
  }

  /** Lines that are not empty are saved as they are. */
  lemma ListTextIs(chunks: seq<string>)
    requires chunks != [] && forall i :: 0 <= i < |chunks| ==> '\n' !in chunks[i] && chunks[i] != ""
    ensures Split(DropNewlines(Join(chunks)) + "\n") == chunks + [""]
  {
    forall l | l in chunks ensures '\n' !in l {}
    JoinEnd(chunks);
    var last := chunks[|chunks| - 1];
    assert last[|last| - 1] in last;
    SplitJoin(chunks);
    ExplodeOneLines(chunks);
    RoundTrip.SplitWithFinalNewline(Join(chunks));
  }
}
