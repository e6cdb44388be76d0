/**
 The editor's blocks, and the loops that read them from Markdown and write them back.

 An id `b17` is the number 17: the prefix carries no information.
 */
module Blocks {
  import opened Text
  import opened Markdown

  datatype Block = Block(id: nat, kind: Kind, text: string, checked: Option<bool>, depth: Option<int>)

  function Clamp(n: int): nat {
    if n < 0 then 0 else if n > MAX_DEPTH then MAX_DEPTH else n
  }

  /** How deep a block stands: zero outside lists, and within `0..MAX_DEPTH` whatever its field holds. */
  function DepthOf(block: Block): (d: nat)
    ensures d <= MAX_DEPTH
  {
    if !IsList(block.kind) then 0
    else match block.depth case Some(d) => Clamp(d) case None => 0
  }

  /** What the file can know of a block: not its id, and a tick only on a to-do. */
  function View(block: Block): Item {
    Item(block.kind, block.text, block.kind.Todo? && block.checked == Some(true), DepthOf(block))
  }

  function Views(blocks: seq<Block>): (items: seq<Item>)
    ensures |items| == |blocks|
    ensures forall i :: 0 <= i < |items| ==> items[i] == View(blocks[i])
  {
    seq(|blocks|, i requires 0 <= i < |blocks| => View(blocks[i]))
  }

  function NewBlock(id: nat, kind: Kind, text: string): Block {
    Block(id, kind, text, if kind.Todo? then Some(false) else None, None)
  }

  /** The field for a level: absent at the top. */
  function DepthField(depth: nat): Option<int> {
    if depth > 0 then Some(depth) else None
  }

  /** The block made for a line that says `item`. */
  function Fresh(id: nat, item: Item): Block {
    Block(id, item.kind, item.text, if item.kind.Todo? then Some(item.checked) else None, DepthField(item.depth))
  }

  function LastView(blocks: seq<Block>): Option<Item> {
    if blocks == [] then None else Some(View(blocks[|blocks| - 1]))
  }

  /** Blocks with ids handed out in order after `base`, carrying no field that says nothing. */
  predicate Made(blocks: seq<Block>, base: nat) {
    forall i :: 0 <= i < |blocks| ==> blocks[i] == Fresh(base + 1 + i, View(blocks[i]))
  }

  // ---------------------------------------------------------------- the numbering stack

  function CountAt(ordinals: seq<nat>, depth: nat): nat {
    if depth < |ordinals| then ordinals[depth] else 0
  }

  /** `ordinals.slice(0, n)`. */
  function Keep(ordinals: seq<nat>, n: nat): seq<nat> {
    if n <= |ordinals| then ordinals[..n] else ordinals
  }

  /** `ordinals[depth] = value`; an unset entry reads as zero. */
  function Put(ordinals: seq<nat>, depth: nat, value: nat): seq<nat> {
    if depth < |ordinals| then ordinals[depth := value]
    else ordinals + seq(depth - |ordinals|, _ => 0) + [value]
  }

  /** How far the numbering at level `d` has come before block `i`. */
  function Running(items: seq<Item>, i: nat, d: nat): nat
    requires i <= |items|
  {
    var j := NearestNotDeeper(items, i, d);
    if j >= 0 && items[j].kind.Numbered? && items[j].depth == d then Ordinal(items, j) else 0
  }

  ghost predicate StackHolds(ordinals: seq<nat>, items: seq<Item>, i: nat)
    requires i <= |items|
  {
    forall d: nat :: CountAt(ordinals, d) == Running(items, i, d)
  }

  function Advance(ordinals: seq<nat>, item: Item): seq<nat> {
    if item.kind.Numbered? then
      var kept := Keep(ordinals, item.depth + 1);
      Put(kept, item.depth, CountAt(kept, item.depth) + 1)
    else if IsList(item.kind) then Keep(ordinals, item.depth)
    else []
  }

  /** The stack holds the running number of every level at once, whatever levels are skipped. */
  lemma StackAdvances(ordinals: seq<nat>, items: seq<Item>, i: nat)
    requires i < |items| && StackHolds(ordinals, items, i)
    ensures StackHolds(Advance(ordinals, items[i]), items, i + 1)
    ensures items[i].kind.Numbered? ==>
              CountAt(Advance(ordinals, items[i]), items[i].depth) == Ordinal(items, i)
  {
    var item := items[i];
    assert CountAt(ordinals, item.depth) == Running(items, i, item.depth);
    forall d: nat ensures CountAt(Advance(ordinals, item), d) == Running(items, i + 1, d) {
      assert CountAt(ordinals, d) == Running(items, i, d);
      if IsList(item.kind) && item.depth > d {
        assert NearestNotDeeper(items, i + 1, d) == NearestNotDeeper(items, i, d);
      } else {
        assert NearestNotDeeper(items, i + 1, d) == i;
      }
    }
  }

  // ---------------------------------------------------------------- numbering, counted

  /** An item that leaves the numbering at level `d` running. */
  predicate KeepsRun(item: Item, d: nat) {
    IsList(item.kind) && (item.depth > d || (item.kind.Numbered? && item.depth == d))
  }

  function CountNumbered(items: seq<Item>, d: nat): nat {
    if items == [] then 0
    else
      var last := items[|items| - 1];
      CountNumbered(items[..|items| - 1], d) + if last.kind.Numbered? && last.depth == d then 1 else 0
  }

  lemma CountStep(items: seq<Item>, k: nat, i: nat, d: nat)
    requires k <= i < |items|
    ensures CountNumbered(items[k..i + 1], d) ==
              CountNumbered(items[k..i], d) + if items[i].kind.Numbered? && items[i].depth == d then 1 else 0
  {
    assert items[k..i + 1][..i - k] == items[k..i];
  }

  lemma {:induction false} RunningIsCount(items: seq<Item>, k: nat, i: nat, d: nat)
    requires k <= i <= |items|
    requires forall j :: k <= j < i ==> KeepsRun(items[j], d)
    requires k == 0 || !KeepsRun(items[k - 1], d)
    ensures Running(items, i, d) == CountNumbered(items[k..i], d)
    decreases i
  {
    if k < i {
      RunningIsCount(items, k, i - 1, d);
      CountStep(items, k, i - 1, d);
    } else {
      assert items[k..i] == [];
    }
  }

  /**
   A numbered item's number is its position in its own list: one more than the numbered siblings
   since the nearest block that is neither a sibling nor nested below one. Its digits spell that number.
   */
  lemma OrdinalIsPosition(items: seq<Item>, k: nat, i: nat)
    requires k <= i < |items|
    requires forall j :: k <= j < i ==> KeepsRun(items[j], items[i].depth)
    requires k == 0 || !KeepsRun(items[k - 1], items[i].depth)
    ensures Ordinal(items, i) == 1 + CountNumbered(items[k..i], items[i].depth)
    ensures DecimalValue(Decimal(Ordinal(items, i))) == Ordinal(items, i)
  {
    DecimalReadsBack(Ordinal(items, i));
    RunningIsCount(items, k, i, items[i].depth);
    assert Ordinal(items, i) == 1 + Running(items, i, items[i].depth);
  }

  // ---------------------------------------------------------------- writing

  /** `marker`, for everything but numbered items. */
  function Marker(block: Block): string {
    Chunk(View(block), 0)
  }

  lemma ChunkIgnoresOrdinal(item: Item, ordinal: nat)
    requires !item.kind.Numbered?
    ensures Chunk(item, ordinal) == Chunk(item, 0)
  {
  }

  /** One block's text, and the stack as it is after it. */
  method WriteBlock(block: Block, before: seq<nat>) returns (text: string, ordinals: seq<nat>)
    ensures ordinals == Advance(before, View(block))
    ensures text == Chunk(View(block), CountAt(ordinals, DepthOf(block)))
  {
    var depth := DepthOf(block);
    ordinals := before;
    if block.kind.Numbered? {
      ordinals := Keep(ordinals, depth + 1);
      ordinals := Put(ordinals, depth, CountAt(ordinals, depth) + 1);
      text := Pad(depth) + Decimal(CountAt(ordinals, depth)) + ". " + block.text;
    } else {
      ordinals := if IsList(block.kind) then Keep(ordinals, depth) else [];
      text := Marker(block);
      ChunkIgnoresOrdinal(View(block), CountAt(ordinals, depth));
    }
  }

  lemma ChunkWritten(ordinals: seq<nat>, items: seq<Item>, i: nat)
    requires i < |items| && StackHolds(ordinals, items, i)
    ensures var after := Advance(ordinals, items[i]);
            StackHolds(after, items, i + 1) &&
            Chunk(items[i], CountAt(after, items[i].depth)) == Chunk(items[i], Ordinal(items, i))
  {
    var after := Advance(ordinals, items[i]);
    StackAdvances(ordinals, items, i);
    if !items[i].kind.Numbered? {
      ChunkIgnoresOrdinal(items[i], CountAt(after, items[i].depth));
      ChunkIgnoresOrdinal(items[i], Ordinal(items, i));
    }
  }

  lemma ChunksUnroll(items: seq<Item>, i: nat, lines: seq<string>, text: string, sep: seq<string>)
    requires i < |items| && text == Chunk(items[i], Ordinal(items, i)) && sep == Separator(items, i)
    ensures lines + [text] + sep + ChunksFrom(items, i + 1) == lines + ChunksFrom(items, i)
  {
    assert lines + [text] + sep + ChunksFrom(items, i + 1) == lines + ([text] + sep + ChunksFrom(items, i + 1));
  }

  /** The blank line after a block, where one is due. */
  method SeparatorAfter(blocks: seq<Block>, index: nat) returns (separator: seq<string>)
    requires index < |blocks|
    ensures separator == Separator(Views(blocks), index)
  {
    if index + 1 >= |blocks| { return []; }
    var block, next := blocks[index], blocks[index + 1];
    var continuesList := IsList(block.kind) && IsList(next.kind) &&
                         (block.kind == next.kind || DepthOf(next) != DepthOf(block));
    separator := if continuesList then [] else [""];
  }

  /** What `lines` holds once all blocks are pushed. */
  method WriteLines(blocks: seq<Block>) returns (lines: seq<string>)
    ensures lines == ChunksFrom(Views(blocks), 0)
  {
    ghost var items := Views(blocks);
    var ordinals: seq<nat> := [];
    lines := [];
    for index := 0 to |blocks|
      invariant StackHolds(ordinals, items, index)
      invariant lines + ChunksFrom(items, index) == ChunksFrom(items, 0)
    {
      var block := blocks[index];
      ChunkWritten(ordinals, items, index);
      var text;
      text, ordinals := WriteBlock(block, ordinals);
      var separator := SeparatorAfter(blocks, index);
      ChunksUnroll(items, index, lines, text, separator);
      lines := lines + [text] + separator;
    }
  }

  /** The whole file: the lines pushed, joined, with exactly one newline at the end. */
  method Serialize(blocks: seq<Block>) returns (markdown: string)
    ensures markdown == Markdown.Serialize(Views(blocks))
  {
    var lines := WriteLines(blocks);
    markdown := DropNewlines(Join(lines)) + "\n";
  }

  // ---------------------------------------------------------------- reading

  /** The lines still to be read; the last fence may leave the index one past the end. */
  function Ahead(lines: seq<string>, index: nat): seq<string> {
    if index <= |lines| then lines[index..] else []
  }

  /** The parser's position: what is read so far and what is still to come make the whole document. */
  ghost predicate Progress(blocks: seq<Block>, lines: seq<string>, index: nat) {
    Views(blocks) + ReadLines(Ahead(lines, index), LastView(blocks)) == ReadLines(lines, None)
  }

  /** The next turn of the parser from here finds `item` and goes on at `after`. */
  ghost predicate Finds(lines: seq<string>, index: nat, prev: Option<Item>, item: Item, after: nat) {
    index < |lines| && index < after &&
    ReadBlock(lines[index..], prev).found == Some(item) &&
    lines[index..][ReadBlock(lines[index..], prev).used..] == Ahead(lines, after)
  }

  lemma FindsReads(lines: seq<string>, index: nat, prev: Option<Item>, item: Item, after: nat)
    requires Finds(lines, index, prev, item, after)
    ensures ReadLines(Ahead(lines, index), prev) == [item] + ReadLines(Ahead(lines, after), Some(item))
  {
  }

  lemma ViewsAppend(blocks: seq<Block>, block: Block)
    ensures Views(blocks + [block]) == Views(blocks) + [View(block)]
    ensures LastView(blocks + [block]) == Some(View(block))
  {
  }

  lemma ProgressFound(blocks: seq<Block>, lines: seq<string>, index: nat, block: Block, after: nat)
    requires Progress(blocks, lines, index)
    requires Finds(lines, index, LastView(blocks), View(block), after)
    ensures Progress(blocks + [block], lines, after)
  {
    FindsReads(lines, index, LastView(blocks), View(block), after);
    ViewsAppend(blocks, block);
    Regroup(Views(blocks), [View(block)], ReadLines(Ahead(lines, after), Some(View(block))));
  }

  lemma FenceTurn(ahead: seq<string>, body: seq<string>, prev: Option<Item>)
    requires ahead != [] && IsFence(ahead[0])
    requires BodyLength(ahead[1..]) == |body| && ahead[1..1 + |body|] == body
    ensures ReadBlock(ahead, prev) == Reading(Min(|body| + 2, |ahead|), Some(Item(Code, Join(body), false, 0)))
  {
  }

  lemma AheadAfter(lines: seq<string>, index: nat, used: nat, after: nat)
    requires used <= |lines| - index && index <= |lines|
    requires after == index + used || (used == |lines| - index && after > |lines|)
    ensures lines[index..][used..] == Ahead(lines, after)
  {
    TailOfTail(lines, index, used);
  }

  lemma FoundAt(lines: seq<string>, index: nat, prev: Option<Item>, item: Item, used: nat, after: nat)
    requires index < |lines| && index < after && used <= |lines| - index
    requires ReadBlock(lines[index..], prev) == Reading(used, Some(item))
    requires after == index + used || (used == |lines| - index && after > |lines|)
    ensures Finds(lines, index, prev, item, after)
  {
    AheadAfter(lines, index, used, after);
  }

  lemma FenceAhead(lines: seq<string>, index: nat, ahead: seq<string>, n: nat)
    requires index + 1 + n <= |lines| && ahead == lines[index..]
    ensures ahead[1..] == lines[index + 1..] && ahead[1..1 + n] == lines[index + 1..index + 1 + n]
  {
  }

  lemma FenceTurnAt(lines: seq<string>, index: nat, ahead: seq<string>, prev: Option<Item>, body: seq<string>)
    requires index + 1 + |body| <= |lines| && IsFence(lines[index]) && ahead == lines[index..]
    requires body == lines[index + 1..index + 1 + |body|] && BodyLength(lines[index + 1..]) == |body|
    ensures ReadBlock(ahead, prev) == Reading(Min(|body| + 2, |ahead|), Some(Item(Code, Join(body), false, 0)))
  {
    FenceAhead(lines, index, ahead, |body|);
    FenceTurn(ahead, body, prev);
  }

  lemma FindsCode(lines: seq<string>, index: nat, prev: Option<Item>, body: seq<string>)
    requires index + 1 + |body| <= |lines| && IsFence(lines[index])
    requires body == lines[index + 1..index + 1 + |body|] && BodyLength(lines[index + 1..]) == |body|
    ensures Finds(lines, index, prev, Item(Code, Join(body), false, 0), index + |body| + 2)
  {
    var used := Min(|body| + 2, |lines| - index);
    FenceTurnAt(lines, index, lines[index..], prev, body);
    FoundAt(lines, index, prev, Item(Code, Join(body), false, 0), used, index + |body| + 2);
  }

  lemma FindsTable(lines: seq<string>, index: nat, prev: Option<Item>, after: nat)
    requires index + 1 < |lines| && !IsFence(lines[index])
    requires IsPipeLine(lines[index]) && IsAlignmentRow(Trim(lines[index + 1]))
    requires after == index + PipeLength(lines[index..])
    ensures Finds(lines, index, prev, Item(Table, Join(TrimAll(lines[index..after])), false, 0), after)
  {
    var ahead := lines[index..];
    assert ahead[0] == lines[index] && ahead[1] == lines[index + 1];
    assert ahead[..after - index] == lines[index..after];
    assert ahead[after - index..] == lines[after..];
  }

  /** The module's counter, from which every block takes its id. */
  class BlockIds {
    var counter: nat

    constructor ()
      ensures counter == 0
    {
      counter := 0;
    }

    method BlockId() returns (id: nat)
      modifies this
      ensures counter == old(counter) + 1 && id == counter
    {
      counter := counter + 1;
      id := counter;
    }

    method EmptyDocument() returns (blocks: seq<Block>)
      modifies this
      ensures counter == old(counter) + 1
      ensures blocks == [NewBlock(counter, Paragraph, "")]
    {
      var id := BlockId();
      blocks := [NewBlock(id, Paragraph, "")];
    }

    /** Lines up to the closing fence, or to the end. */
    method TakeFenced(lines: seq<string>, start: nat) returns (body: seq<string>, index: nat)
      requires start <= |lines|
      ensures index == start + BodyLength(lines[start..]) && body == lines[start..index]
    {
      body, index := [], start;
      while index < |lines| && !IsFence(lines[index])
        invariant start <= index <= |lines| && body == lines[start..index]
        invariant BodyLength(lines[start..]) == index - start + BodyLength(lines[index..])
      {
        body := body + [lines[index]];
        index := index + 1;
      }
    }

    /** The trimmed lines of the table starting here. */
    method TakeTable(lines: seq<string>, start: nat) returns (body: seq<string>, index: nat)
      requires start <= |lines|
      ensures index == start + PipeLength(lines[start..]) && body == TrimAll(lines[start..index])
    {
      body, index := [], start;
      while index < |lines| && IsPipeLine(lines[index])
        invariant start <= index <= |lines| && body == TrimAll(lines[start..index])
        invariant PipeLength(lines[start..]) == index - start + PipeLength(lines[index..])
      {
        body := body + [Trim(lines[index])];
        index := index + 1;
      }
    }

    /** The block a single line makes, or none for a blank one. */
    method ReadOneLine(line: string, blocks: seq<Block>) returns (found: Option<Block>)
      modifies this
      ensures found.Some? <==> ReadLine(line, LastView(blocks)).Some?
      ensures found.None? ==> counter == old(counter)
      ensures found.Some? ==> counter == old(counter) + 1
      ensures found.Some? ==> found.value == Fresh(counter, ReadLine(line, LastView(blocks)).value)
      ensures found.Some? ==> View(found.value) == ReadLine(line, LastView(blocks)).value
    {
      if IsImage(Trim(line)) {
        var id := BlockId();
        return Some(Block(id, Image, Trim(line), None, None));
      }
      if IsDivider(line) {
        var id := BlockId();
        return Some(Block(id, Divider, "", None, None));
      }
      if Trim(line) == "" { return None; }
      var rule := MatchRule(line);
      match rule
      case Some((kind, text)) =>
        var ceiling := if blocks != [] && IsList(blocks[|blocks| - 1].kind)
                       then DepthOf(blocks[|blocks| - 1]) + 1 else 0;
        var depth := if IsList(kind) then Min(IndentOf(line), ceiling) else 0;
        var id := BlockId();
        return Some(Block(id, kind, text, if kind.Todo? then Some(IsChecked(line)) else None, DepthField(depth)));
      case None =>
        var id := BlockId();
        return Some(Block(id, Paragraph, line, None, None));
    }

    /** One turn of the parser's loop: the block found at `start`, if any, and where to go on. */
    method Turn(lines: seq<string>, start: nat, blocks: seq<Block>) returns (found: Option<Block>, index: nat)
      requires start < |lines|
      modifies this
      ensures start < index
      ensures found.None? ==> counter == old(counter) && index == start + 1
      ensures found.None? ==> ReadBlock(lines[start..], LastView(blocks)) == Reading(1, None)
      ensures found.Some? ==> counter == old(counter) + 1 && found.value == Fresh(counter, View(found.value))
      ensures found.Some? ==> Finds(lines, start, LastView(blocks), View(found.value), index)
    {
      var line := lines[start];
      ghost var prev := LastView(blocks);
      if IsFence(line) {
        var body;
        body, index := TakeFenced(lines, start + 1);
        index := index + 1; // past the fence; at the end of the lines this goes one too far
        var id := BlockId();
        FindsCode(lines, start, prev, body);
        return Some(Block(id, Code, Join(body), None, None)), index;
      }
      if IsPipeLine(line) && start + 1 < |lines| && IsAlignmentRow(Trim(lines[start + 1])) {
        var body;
        body, index := TakeTable(lines, start);
        var id := BlockId();
        FindsTable(lines, start, prev, index);
        return Some(Block(id, Table, Join(body), None, None)), index;
      }
      found := ReadOneLine(line, blocks);
      index := start + 1;
    }

    /** The blocks of a file, with the ids after `old(counter)`, whose views are what the format reads. */
    method Parse(markdown: string) returns (blocks: seq<Block>)
      modifies this
      ensures Views(blocks) == Markdown.Parse(markdown)
      ensures counter == old(counter) + |blocks| && Made(blocks, old(counter))
    {
      if Trim(markdown) == "" {
        blocks := EmptyDocument();
        return;
      }
      var lines := Split(Normalize(markdown));
      blocks := [];
      var index := 0;
      while index < |lines|
        invariant Progress(blocks, lines, index)
        invariant counter == old(counter) + |blocks| && Made(blocks, old(counter))
        decreases |lines| - index
      {
        ghost var start := index;
        var found;
        found, index := Turn(lines, index, blocks);
        if found.Some? {
          ProgressFound(blocks, lines, start, found.value, index);
          blocks := blocks + [found.value];
        }
      }
      if blocks == [] {
        blocks := EmptyDocument();
      }
    }
  }

}
