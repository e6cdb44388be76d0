/**
 The block editor's structural edits: each takes the document, the id counter and where the caret is
 to go next, and gives the new ones.

 `Apply` is one edit as a value; the class in BlockEditor.dfy performs it in place. React renders between two
 edits and consumes the recorded caret, so every edit starts with none recorded.
 */
module Editor {
  import opened Text
  import opened Markdown
  import opened Blocks
  import opened Nesting
  import Inline
  import ToggleMark
  import Tables
  import Images
  import RoundTrip

  /** Where the caret, or the selection, goes after the next render. */
  datatype Focus = Caret(id: nat, offset: nat) | CaretAtEnd(id: nat) | Range(id: nat, start: nat, end: nat)

  datatype Doc = Doc(blocks: seq<Block>, focus: Option<Focus>, counter: nat)

  datatype Edit =
    | SetText(index: nat, text: string)
    | Convert(index: nat, kind: Kind)
    | SplitAt(index: nat, caret: nat)
    | BackspaceAtStart(index: nat)
    | DeleteAtEnd(index: nat)
    | Move(index: nat, delta: int)
    | Tab(index: nat, shift: bool, caret: nat)
    | ToggleTick(index: nat)
    | ApplyMark(index: nat, start: nat, end: nat, mark: Inline.Mark)

  predicate IsStructural(kind: Kind) {
    kind.Divider? || kind.Table? || kind.Image?
  }

  // ---------------------------------------------------------------- typing a marker

  predicate OneSpace(s: string) {
    |s| == 1 && IsSpace(s[0])
  }

  predicate MarkerAndSpace(text: string, marker: string) {
    marker <= text && OneSpace(text[|marker|..])
  }

  predicate NumberAndSpace(text: string) {
    var t := SkipDigits(text);
    t != text && t != "" && t[0] in ".)" && OneSpace(t[1..])
  }

  /** The kind a paragraph becomes when its whole text is one of the markers. */
  function ShortcutFor(text: string): Option<Kind> {
    if MarkerAndSpace(text, "###") then Some(Heading3)
    else if MarkerAndSpace(text, "##") then Some(Heading2)
    else if MarkerAndSpace(text, "#") then Some(Heading1)
    else if MarkerAndSpace(text, "[]") then Some(Todo)
    else if |text| == 4 && text[0] == '[' && IsSpace(text[1]) && text[2] == ']' && IsSpace(text[3]) then Some(Todo)
    else if MarkerAndSpace(text, "-") || MarkerAndSpace(text, "*") then Some(Bullet)
    else if NumberAndSpace(text) then Some(Numbered)
    else if MarkerAndSpace(text, ">") then Some(Quote)
    else if text == "```" then Some(Code)
    else if text == "---" then Some(Divider)
    else None
  }

  // ---------------------------------------------------------------- one edit

  /** `splice(index, remove, ...insert)`. */
  function Splice(blocks: seq<Block>, index: nat, remove: nat, insert: seq<Block>): seq<Block>
    requires index + remove <= |blocks|
  {
    blocks[..index] + insert + blocks[index + remove..]
  }

  /** The block Enter adds: another item of the same list at the same level, or a paragraph. */
  function BlockAfter(block: Block, id: nat): Block {
    if IsList(block.kind) && Trim(block.text) != "" then
      NewBlock(id, block.kind, "").(depth := DepthField(DepthOf(block)))
    else NewBlock(id, Paragraph, "")
  }

  /** A block with its type and text changed; a to-do gets a tick box. */
  function Retyped(block: Block, kind: Kind, text: string, ticked: Option<bool>): Block {
    block.(kind := kind, text := text, checked := if kind.Todo? then ticked else block.checked)
  }

  /** A block swapped for one that holds no caret, with an empty paragraph after it for the caret. */
  function InsertWhole(d: Doc, index: nat, made: Block, ids: nat): Doc
    requires index < |d.blocks|
  {
    var added := NewBlock(d.counter + ids + 1, Paragraph, "");
    Doc(Splice(d.blocks, index, 1, [made, added]), Some(Caret(added.id, 0)), d.counter + ids + 1)
  }

  function DoSetText(d: Doc, index: nat, text: string): Doc
    requires index < |d.blocks|
  {
    var block := d.blocks[index];
    match if block.kind.Paragraph? then ShortcutFor(text) else None
    case Some(kind) =>
      if kind.Divider? then InsertWhole(d, index, block.(kind := Divider, text := ""), 0)
      else d.(blocks := d.blocks[index := Retyped(block, kind, "", Some(false))], focus := Some(Caret(block.id, 0)))
    case None => d.(blocks := d.blocks[index := block.(text := text)], focus := None)
  }

  const NEW_TABLE := Tables.TableText([["", ""], ["", ""]])
  const NEW_IMAGE := Images.ImageText("", "")

  function DoConvert(d: Doc, index: nat, kind: Kind): Doc
    requires index < |d.blocks|
  {
    var block := d.blocks[index];
    match kind
    case Table => InsertWhole(d, index, Block(block.id, Table, NEW_TABLE, None, None), 1)
    case Image => InsertWhole(d, index, Block(block.id, Image, NEW_IMAGE, None, None), 1)
    case Divider => InsertWhole(d, index, block.(kind := Divider, text := ""), 0)
    case _ =>
      var text := if "/" <= block.text then "" else block.text;
      var ticked := if block.checked.Some? then block.checked else Some(false);
      d.(blocks := d.blocks[index := Retyped(block, kind, text, ticked)], focus := Some(CaretAtEnd(block.id)))
  }

  predicate BlankListItem(block: Block) {
    IsList(block.kind) && Trim(block.text) == ""
  }

  function DoSplit(d: Doc, index: nat, caret: nat): Doc
    requires index < |d.blocks| && caret <= |d.blocks[index].text|
  {
    var block := d.blocks[index];
    if BlankListItem(block) then
      d.(blocks := d.blocks[index := block.(kind := Paragraph, text := "")], focus := Some(Caret(block.id, 0)))
    else
      var added := BlockAfter(block, d.counter + 1).(text := block.text[caret..]);
      Doc(Splice(d.blocks, index, 1, [block.(text := block.text[..caret]), added]),
          Some(Caret(added.id, 0)), d.counter + 1)
  }

  function DoBackspace(d: Doc, index: nat): Doc
    requires index < |d.blocks|
  {
    var block := d.blocks[index];
    if !block.kind.Paragraph? then
      d.(blocks := d.blocks[index := block.(kind := Paragraph)], focus := Some(Caret(block.id, 0)))
    else if index == 0 then d.(focus := None)
    else
      var previous := d.blocks[index - 1];
      if previous.kind.Divider? then
        d.(blocks := Splice(d.blocks, index - 1, 1, []), focus := Some(Caret(block.id, 0)))
      else
        d.(blocks := Splice(d.blocks, index - 1, 2, [previous.(text := previous.text + block.text)]),
           focus := Some(Caret(previous.id, |previous.text|)))
  }

  function DoDelete(d: Doc, index: nat): Doc
    requires index < |d.blocks|
  {
    var block := d.blocks[index];
    if index + 1 >= |d.blocks| then d.(focus := None)
    else
      var following := d.blocks[index + 1];
      d.(blocks := if following.kind.Divider? then Splice(d.blocks, index + 1, 1, [])
                   else Splice(d.blocks, index, 2, [block.(text := block.text + following.text)]),
         focus := Some(Caret(block.id, |block.text|)))
  }

  function DoMove(d: Doc, index: nat, delta: int): Doc {
    var target := index + delta;
    if 0 <= target < |d.blocks| then
      var id := d.blocks[target].id;
      d.(focus := Some(if delta == -1 then CaretAtEnd(id) else Caret(id, 0)))
    else d.(focus := None)
  }

  function DoTab(d: Doc, index: nat, shift: bool, caret: nat): Doc
    requires index < |d.blocks|
  {
    var moves := if shift then CanOutdent(d.blocks, index) else CanIndent(d.blocks, index);
    if moves then
      d.(blocks := if shift then Outdented(d.blocks, index) else Indented(d.blocks, index),
         focus := Some(Caret(d.blocks[index].id, caret)))
    else d.(focus := None)
  }

  function DoToggleTick(d: Doc, index: nat): Doc
    requires index < |d.blocks|
  {
    var block := d.blocks[index];
    d.(blocks := d.blocks[index := block.(checked := Some(block.checked != Some(true)))], focus := None)
  }

  function DoApplyMark(d: Doc, index: nat, start: nat, end: nat, mark: Inline.Mark): Doc
    requires index < |d.blocks| && start <= end <= |d.blocks[index].text|
  {
    var block := d.blocks[index];
    var r := ToggleMark.Toggled(ToggleMark.Selection(block.text, start, end), mark);
    d.(blocks := d.blocks[index := block.(text := r.text)], focus := Some(Range(block.id, r.start, r.end)))
  }

  /** The edit is one the page offers: on a block that is there, with the caret inside its text. */
  predicate Offered(d: Doc, e: Edit) {
    e.index < |d.blocks| &&
    var block := d.blocks[e.index];
    match e
    case SetText(_, _) => !block.kind.Divider?
    case Convert(_, _) | BackspaceAtStart(_) | DeleteAtEnd(_) => !IsStructural(block.kind)
    case SplitAt(_, caret) => !IsStructural(block.kind) && !block.kind.Code? && caret <= |block.text|
    case Move(_, delta) => !IsStructural(block.kind) && (delta == 1 || delta == -1)
    case Tab(_, _, caret) => IsList(block.kind) && caret <= |block.text|
    case ToggleTick(_) => block.kind.Todo?
    case ApplyMark(_, start, end, _) =>
      !IsStructural(block.kind) && start <= end <= |block.text|
  }

  function Apply(d: Doc, e: Edit): Doc
    requires Offered(d, e)
  {
    match e
    case SetText(i, text) => DoSetText(d, i, text)
    case Convert(i, kind) => DoConvert(d, i, kind)
    case SplitAt(i, caret) => DoSplit(d, i, caret)
    case BackspaceAtStart(i) => DoBackspace(d, i)
    case DeleteAtEnd(i) => DoDelete(d, i)
    case Move(i, delta) => DoMove(d, i, delta)
    case Tab(i, shift, caret) => DoTab(d, i, shift, caret)
    case ToggleTick(i) => DoToggleTick(d, i)
    case ApplyMark(i, start, end, mark) => DoApplyMark(d, i, start, end, mark)
  }

  // ---------------------------------------------------------------- the invariant

  predicate DistinctIds(blocks: seq<Block>) {
    forall i, j :: 0 <= i < j < |blocks| ==> blocks[i].id != blocks[j].id
  }

  predicate IdsWithin(blocks: seq<Block>, counter: nat) {
    forall i :: 0 <= i < |blocks| ==> blocks[i].id <= counter
  }

  /** A rule holds no text, so removing one loses nothing. */
  predicate RulesAreEmpty(blocks: seq<Block>) {
    forall i :: 0 <= i < |blocks| && blocks[i].kind.Divider? ==> blocks[i].text == ""
  }

  predicate FocusFits(block: Block, f: Focus) {
    block.id == f.id &&
    match f
    case Caret(_, offset) => offset <= |block.text|
    case CaretAtEnd(_) => true
    case Range(_, start, end) => start <= end <= |block.text|
  }

  predicate FocusIsIn(blocks: seq<Block>, f: Focus) {
    exists i :: 0 <= i < |blocks| && FocusFits(blocks[i], f)
  }

  /** Never empty, ids distinct and handed out, and the caret inside the text of a block that is there. */
  ghost predicate Inv(d: Doc) {
    d.blocks != [] && DistinctIds(d.blocks) && IdsWithin(d.blocks, d.counter) && RulesAreEmpty(d.blocks) &&
    (d.focus.Some? ==> FocusIsIn(d.blocks, d.focus.value))
  }

  /** One block replaced by another with the same id. */
  lemma ReplaceKeeps(d: Doc, index: nat, block: Block, focus: Option<Focus>)
    requires Inv(d) && index < |d.blocks| && block.id == d.blocks[index].id
    requires block.kind.Divider? ==> block.text == ""
    requires focus.Some? ==> FocusFits(block, focus.value)
    ensures Inv(d.(blocks := d.blocks[index := block], focus := focus))
  {
    var next := d.blocks[index := block];
    if focus.Some? { assert FocusFits(next[index], focus.value); }
  }

  /** One block replaced by two, the second with a new id. */
  lemma InsertKeeps(d: Doc, index: nat, block: Block, added: Block)
    requires Inv(d) && index < |d.blocks| && block.id == d.blocks[index].id && added.id > d.counter
    requires (block.kind.Divider? ==> block.text == "") && !added.kind.Divider?
    ensures Inv(Doc(Splice(d.blocks, index, 1, [block, added]), Some(Caret(added.id, 0)), added.id))
  {
    var next := Splice(d.blocks, index, 1, [block, added]);
    assert next[index + 1] == added;
    assert FocusFits(next[index + 1], Caret(added.id, 0));
    forall k | 0 <= k < |next|
      ensures next[k] == if k < index then d.blocks[k] else if k == index then block
                         else if k == index + 1 then added else d.blocks[k - 1] {
    }
  }

  /** Two neighbours replaced by one that keeps an id of theirs, or one block removed. */
  lemma MergeKeeps(d: Doc, index: nat, block: Block, focus: Focus)
    requires Inv(d) && index + 1 < |d.blocks|
    requires block.id == d.blocks[index].id || block.id == d.blocks[index + 1].id
    requires (block.kind.Divider? ==> block.text == "") && FocusFits(block, focus)
    ensures Inv(d.(blocks := Splice(d.blocks, index, 2, [block]), focus := Some(focus)))
  {
    var next := Splice(d.blocks, index, 2, [block]);
    assert FocusFits(next[index], focus);
    forall k | 0 <= k < |next|
      ensures next[k] == if k < index then d.blocks[k] else if k == index then block else d.blocks[k + 1] {
    }
  }

  lemma RemoveIsMerge(blocks: seq<Block>, index: nat)
    requires index + 1 < |blocks|
    ensures Splice(blocks, index, 1, []) == Splice(blocks, index, 2, [blocks[index + 1]])
    ensures Splice(blocks, index + 1, 1, []) == Splice(blocks, index, 2, [blocks[index]])
  {
  }

  lemma FocusMoves(d: Doc, i: nat, focus: Option<Focus>)
    requires Inv(d) && i < |d.blocks| && (focus.Some? ==> FocusFits(d.blocks[i], focus.value))
    ensures Inv(d.(focus := focus))
  {
  }

  lemma TabKeeps(d: Doc, index: nat, shift: bool, caret: nat)
    requires Inv(d) && index < |d.blocks| && caret <= |d.blocks[index].text|
    ensures Inv(DoTab(d, index, shift, caret))
  {
    var next := DoTab(d, index, shift, caret);
    MovesTouchOnlyDepths(d.blocks, index);
    forall i | 0 <= i < |next.blocks|
      ensures next.blocks[i].id == d.blocks[i].id && next.blocks[i].text == d.blocks[i].text &&
              next.blocks[i].kind == d.blocks[i].kind {
    }
    if next.focus.Some? { assert FocusFits(next.blocks[index], next.focus.value); }
  }

  lemma MarkKeeps(d: Doc, index: nat, start: nat, end: nat, mark: Inline.Mark)
    requires Inv(d) && Offered(d, ApplyMark(index, start, end, mark))
    ensures Inv(DoApplyMark(d, index, start, end, mark))
  {
    var block := d.blocks[index];
    var s := ToggleMark.Selection(block.text, start, end);
    var r := ToggleMark.Toggled(s, mark);
    ToggleMark.ToggleOnlyMovesMarkers(s, mark);
    ReplaceKeeps(d, index, block.(text := r.text), Some(Range(block.id, r.start, r.end)));
  }

  lemma InsertWholeKeeps(d: Doc, index: nat, made: Block, ids: nat)
    requires Inv(d) && index < |d.blocks| && made.id == d.blocks[index].id
    requires made.kind.Divider? ==> made.text == ""
    ensures Inv(InsertWhole(d, index, made, ids))
  {
    var added := NewBlock(d.counter + ids + 1, Paragraph, "");
    InsertKeeps(d, index, made, added);
    assert InsertWhole(d, index, made, ids) ==
           Doc(Splice(d.blocks, index, 1, [made, added]), Some(Caret(added.id, 0)), added.id);
  }

  lemma SetTextKeeps(d: Doc, index: nat, text: string)
    requires Inv(d) && Offered(d, SetText(index, text))
    ensures Inv(DoSetText(d, index, text))
  {
    var block := d.blocks[index];
    match if block.kind.Paragraph? then ShortcutFor(text) else None
    case Some(kind) =>
      if kind.Divider? {
        InsertWholeKeeps(d, index, block.(kind := Divider, text := ""), 0);
      } else {
        ReplaceKeeps(d, index, Retyped(block, kind, "", Some(false)), Some(Caret(block.id, 0)));
      }
    case None => ReplaceKeeps(d, index, block.(text := text), None);
  }

  lemma RetypeKeeps(d: Doc, index: nat, kind: Kind)
    requires Inv(d) && index < |d.blocks| && !IsStructural(kind)
    ensures Inv(DoConvert(d, index, kind))
  {
    var block := d.blocks[index];
    var text := if "/" <= block.text then "" else block.text;
    var ticked := if block.checked.Some? then block.checked else Some(false);
    ReplaceKeeps(d, index, Retyped(block, kind, text, ticked), Some(CaretAtEnd(block.id)));
  }

  lemma ConvertKeeps(d: Doc, index: nat, kind: Kind)
    requires Inv(d) && Offered(d, Convert(index, kind))
    ensures Inv(DoConvert(d, index, kind))
  {
    var block := d.blocks[index];
    match kind
    case Table => InsertWholeKeeps(d, index, Block(block.id, Table, NEW_TABLE, None, None), 1);
    case Image => InsertWholeKeeps(d, index, Block(block.id, Image, NEW_IMAGE, None, None), 1);
    case Divider => InsertWholeKeeps(d, index, block.(kind := Divider, text := ""), 0);
    case _ => RetypeKeeps(d, index, kind);
  }

  lemma SplitKeeps(d: Doc, index: nat, caret: nat)
    requires Inv(d) && Offered(d, SplitAt(index, caret))
    ensures Inv(DoSplit(d, index, caret))
  {
    var block := d.blocks[index];
    if BlankListItem(block) {
      ReplaceKeeps(d, index, block.(kind := Paragraph, text := ""), Some(Caret(block.id, 0)));
    } else {
      InsertKeeps(d, index, block.(text := block.text[..caret]),
                  BlockAfter(block, d.counter + 1).(text := block.text[caret..]));
    }
  }

  lemma BackspaceKeeps(d: Doc, index: nat)
    requires Inv(d) && Offered(d, BackspaceAtStart(index))
    ensures Inv(DoBackspace(d, index))
  {
    var block := d.blocks[index];
    if !block.kind.Paragraph? {
      ReplaceKeeps(d, index, block.(kind := Paragraph), Some(Caret(block.id, 0)));
    } else if index > 0 {
      var previous := d.blocks[index - 1];
      if previous.kind.Divider? {
        RemoveIsMerge(d.blocks, index - 1);
        MergeKeeps(d, index - 1, block, Caret(block.id, 0));
      } else {
        MergeKeeps(d, index - 1, previous.(text := previous.text + block.text), Caret(previous.id, |previous.text|));
      }
    }
  }

  lemma DeleteKeeps(d: Doc, index: nat)
    requires Inv(d) && Offered(d, DeleteAtEnd(index))
    ensures Inv(DoDelete(d, index))
  {
    var block := d.blocks[index];
    if index + 1 < |d.blocks| {
      var following := d.blocks[index + 1];
      if following.kind.Divider? {
        RemoveIsMerge(d.blocks, index);
        MergeKeeps(d, index, block, Caret(block.id, |block.text|));
      } else {
        MergeKeeps(d, index, block.(text := block.text + following.text), Caret(block.id, |block.text|));
      }
    }
  }

  lemma MoveKeeps(d: Doc, index: nat, delta: int)
    requires Inv(d)
    ensures Inv(DoMove(d, index, delta))
  {
    var target := index + delta;
    if 0 <= target < |d.blocks| {
      FocusMoves(d, target, DoMove(d, index, delta).focus);
    } else {
      FocusMoves(d, 0, None);
    }
  }

  /** Every edit the page offers keeps the editor's invariant. */
  lemma ApplyKeeps(d: Doc, e: Edit)
    requires Inv(d) && Offered(d, e)
    ensures Inv(Apply(d, e))
  {
    match e
    case SetText(i, text) => SetTextKeeps(d, i, text);
    case Convert(i, kind) => ConvertKeeps(d, i, kind);
    case SplitAt(i, caret) => SplitKeeps(d, i, caret);
    case BackspaceAtStart(i) => BackspaceKeeps(d, i);
    case DeleteAtEnd(i) => DeleteKeeps(d, i);
    case Move(i, delta) => MoveKeeps(d, i, delta);
    case Tab(i, shift, caret) => TabKeeps(d, i, shift, caret);
    case ToggleTick(i) =>
      ReplaceKeeps(d, i, d.blocks[i].(checked := Some(d.blocks[i].checked != Some(true))), None);
    case ApplyMark(i, start, end, mark) => MarkKeeps(d, i, start, end, mark);
  }

  /** A sequence of edits, each offered when it is made. */
  ghost predicate AllOffered(d: Doc, edits: seq<Edit>)
    decreases |edits|
  {
    edits == [] || (Offered(d, edits[0]) && AllOffered(Apply(d, edits[0]), edits[1..]))
  }

  ghost function ApplyAll(d: Doc, edits: seq<Edit>): Doc
    requires AllOffered(d, edits)
    decreases |edits|
  {
    if edits == [] then d else ApplyAll(Apply(d, edits[0]), edits[1..])
  }

  lemma {:induction false} EditsKeep(d: Doc, edits: seq<Edit>)
    requires Inv(d) && AllOffered(d, edits)
    ensures Inv(ApplyAll(d, edits))
    decreases |edits|
  {
    if edits != [] {
      ApplyKeeps(d, edits[0]);
      EditsKeep(Apply(d, edits[0]), edits[1..]);
    }
  }

  /** A document just read from Markdown is one to start from. */
  lemma ReadDocumentIsReady(blocks: seq<Block>, base: nat, markdown: string)
    requires Views(blocks) == Markdown.Parse(markdown) && Made(blocks, base)
    ensures Inv(Doc(blocks, None, base + |blocks|))
  {
    RoundTrip.ParseIsProducible(markdown);
    assert |blocks| == |Markdown.Parse(markdown)|;
    forall i | 0 <= i < |blocks| && blocks[i].kind.Divider? ensures blocks[i].text == "" {
      assert Views(blocks)[i] == View(blocks[i]);
      if Markdown.Parse(markdown) != [EMPTY_PARAGRAPH] { assert RoundTrip.Legible(Views(blocks)[i]); }
    }
  }

  // ---------------------------------------------------------------- edits that undo and mirror each other

  lemma SplitApart(blocks: seq<Block>, index: nat, a: Block, b: Block, c: Block)
    requires index < |blocks|
    ensures var two := Splice(blocks, index, 1, [a, b]);
            |two| == |blocks| + 1 && two[index] == a && two[index + 1] == b &&
            two[index + 1 := c] == Splice(blocks, index, 1, [a, c]) &&
            Splice(two, index, 2, [c]) == blocks[index := c]
  {
    var two := Splice(blocks, index, 1, [a, b]);
    assert two[..index] == blocks[..index] && two[index + 2..] == blocks[index + 1..];
    assert blocks[index := c] == blocks[..index] + [c] + blocks[index + 1..];
  }

  /**
   Backspace undoes Enter: once for text that does not continue, twice for a list item, whose new
   item loses its marker first. The caret ends where the line was split.
   */
  lemma BackspaceUndoesSplit(d: Doc, index: nat, caret: nat)
    requires Offered(d, SplitAt(index, caret)) && !BlankListItem(d.blocks[index])
    ensures var block := d.blocks[index];
            var once := DoBackspace(DoSplit(d, index, caret), index + 1);
            var undone := if IsList(block.kind) then DoBackspace(once, index + 1) else once;
            undone.blocks == d.blocks && undone.focus == Some(Caret(block.id, caret))
  {
    var block := d.blocks[index];
    var before := block.(text := block.text[..caret]);
    var added := BlockAfter(block, d.counter + 1).(text := block.text[caret..]);
    assert block.text[..caret] + block.text[caret..] == block.text;
    var plain := added.(kind := Paragraph);
    SplitApart(d.blocks, index, before, added, plain);
    SplitApart(d.blocks, index, before, plain, block);
    SplitApart(d.blocks, index, before, added, block);
    assert d.blocks[index := block] == d.blocks;
  }

  /** Delete at a block's end equals Backspace at the next one's start exactly when that is a paragraph. */
  lemma DeleteMirrorsBackspaceIff(d: Doc, index: nat)
    requires index + 1 < |d.blocks| && !IsStructural(d.blocks[index].kind)
    ensures DoDelete(d, index) == DoBackspace(d, index + 1) <==> d.blocks[index + 1].kind.Paragraph?
  {
    assert |DoDelete(d, index).blocks| == |d.blocks| - 1;
  }

  // ---------------------------------------------------------------- no text is lost

  function AllText(blocks: seq<Block>): string {
    if blocks == [] then "" else blocks[0].text + AllText(blocks[1..])
  }

  lemma {:induction false} AllTextAppend(a: seq<Block>, b: seq<Block>)
    ensures AllText(a + b) == AllText(a) + AllText(b)
  {
    if a == [] {
      assert a + b == b;
    } else {
      assert (a + b)[1..] == a[1..] + b;
      AllTextAppend(a[1..], b);
    }
  }

  /** Replacing blocks by others with the same text between them changes no text. */
  lemma SpliceKeepsText(blocks: seq<Block>, index: nat, remove: nat, insert: seq<Block>)
    requires index + remove <= |blocks| && AllText(insert) == AllText(blocks[index..index + remove])
    ensures AllText(Splice(blocks, index, remove, insert)) == AllText(blocks)
  {
    assert blocks == blocks[..index] + blocks[index..index + remove] + blocks[index + remove..];
    AllTextAppend(blocks[..index] + insert, blocks[index + remove..]);
    AllTextAppend(blocks[..index], insert);
    AllTextAppend(blocks[..index] + blocks[index..index + remove], blocks[index + remove..]);
    AllTextAppend(blocks[..index], blocks[index..index + remove]);
  }

  lemma TextOfOne(a: Block)
    ensures AllText([a]) == a.text
  {
    assert [a][1..] == [];
    assert a.text + "" == a.text;
  }

  lemma TextOfTwo(a: Block, b: Block)
    ensures AllText([a, b]) == a.text + b.text
  {
    assert [a, b][1..] == [b];
    TextOfOne(b);
  }

  /** Enter loses text exactly when it ends a list on an item holding only spaces. */
  lemma SplitKeepsTextIff(d: Doc, index: nat, caret: nat)
    requires Offered(d, SplitAt(index, caret))
    ensures AllText(DoSplit(d, index, caret).blocks) == AllText(d.blocks) <==>
              !(BlankListItem(d.blocks[index]) && d.blocks[index].text != "")
  {
    var block := d.blocks[index];
    if BlankListItem(block) {
      LengthAfterReplace(d.blocks, index, block.(kind := Paragraph, text := ""));
      if block.text == "" { ReplaceKeepsText(d.blocks, index, block.(kind := Paragraph, text := "")); }
    } else {
      SplitKeepsText(d, index, caret);
    }
  }

  lemma {:induction false} LengthAfterReplace(blocks: seq<Block>, index: nat, block: Block)
    requires index < |blocks|
    ensures |AllText(blocks[index := block])| == |AllText(blocks)| - |blocks[index].text| + |block.text|
  {
    var next := blocks[index := block];
    if index == 0 {
      assert next[1..] == blocks[1..];
    } else {
      assert next[1..] == blocks[1..][index - 1 := block];
      LengthAfterReplace(blocks[1..], index - 1, block);
    }
  }

  lemma SplitKeepsText(d: Doc, index: nat, caret: nat)
    requires Offered(d, SplitAt(index, caret)) && !BlankListItem(d.blocks[index])
    ensures AllText(DoSplit(d, index, caret).blocks) == AllText(d.blocks)
  {
    var block := d.blocks[index];
    var before := block.(text := block.text[..caret]);
    var added := BlockAfter(block, d.counter + 1).(text := block.text[caret..]);
    assert d.blocks[index..index + 1] == [block];
    assert block.text[..caret] + block.text[caret..] == block.text;
    TextOfOne(block);
    TextOfTwo(before, added);
    SpliceKeepsText(d.blocks, index, 1, [before, added]);
  }

  lemma MergeKeepsText(blocks: seq<Block>, index: nat, block: Block)
    requires index + 1 < |blocks| && block.text == blocks[index].text + blocks[index + 1].text
    ensures AllText(Splice(blocks, index, 2, [block])) == AllText(blocks)
  {
    assert blocks[index..index + 2] == [blocks[index], blocks[index + 1]];
    TextOfTwo(blocks[index], blocks[index + 1]);
    TextOfOne(block);
    SpliceKeepsText(blocks, index, 2, [block]);
  }

  lemma ReplaceKeepsText(blocks: seq<Block>, index: nat, block: Block)
    requires index < |blocks| && block.text == blocks[index].text
    ensures AllText(blocks[index := block]) == AllText(blocks)
  {
    assert blocks[index := block] == Splice(blocks, index, 1, [block]);
    assert blocks[index..index + 1] == [blocks[index]];
    TextOfOne(blocks[index]);
    TextOfOne(block);
    SpliceKeepsText(blocks, index, 1, [block]);
  }

  /** Backspace and Delete at the edge of a block move text between blocks and lose none. */
  lemma MergesKeepText(d: Doc, index: nat)
    requires RulesAreEmpty(d.blocks) && index < |d.blocks| && !IsStructural(d.blocks[index].kind)
    ensures AllText(DoBackspace(d, index).blocks) == AllText(d.blocks)
    ensures AllText(DoDelete(d, index).blocks) == AllText(d.blocks)
  {
    var block := d.blocks[index];
    if !block.kind.Paragraph? {
      ReplaceKeepsText(d.blocks, index, block.(kind := Paragraph));
    } else if index > 0 {
      var previous := d.blocks[index - 1];
      RemoveIsMerge(d.blocks, index - 1);
      MergeKeepsText(d.blocks, index - 1,
                     if previous.kind.Divider? then block else previous.(text := previous.text + block.text));
    }
    if index + 1 < |d.blocks| {
      var following := d.blocks[index + 1];
      RemoveIsMerge(d.blocks, index);
      MergeKeepsText(d.blocks, index,
                     if following.kind.Divider? then block else block.(text := block.text + following.text));
    }
  }

  // ---------------------------------------------------------------- nesting

  /** How deep the block right after this one may be. */
  function RoomUnder(block: Block): nat {
    if IsList(block.kind) then DepthOf(block) + 1 else 0
  }

  function RoomAt(blocks: seq<Block>, i: nat): nat
    requires i <= |blocks|
  {
    if i == 0 then 0 else RoomUnder(blocks[i - 1])
  }

  /** Block `i`, if there is one, is no deeper than `room`. */
  predicate FitsIn(blocks: seq<Block>, i: nat, room: nat) {
    i < |blocks| ==> DepthOf(blocks[i]) <= room
  }

  lemma ReplaceNestsIff(blocks: seq<Block>, index: nat, block: Block)
    requires StepsByOne(blocks) && index < |blocks|
    ensures StepsByOne(blocks[index := block]) <==>
              (DepthOf(block) <= RoomAt(blocks, index) && FitsIn(blocks, index + 1, RoomUnder(block)))
  {
    var next := blocks[index := block];
    forall i | 0 <= i < |next| && i != index && i != index + 1 ensures StepsAt(next, i) {
      assert StepsAt(blocks, i);
    }
    assert StepsAt(next, index) <==> DepthOf(block) <= RoomAt(blocks, index);
    assert index + 1 < |next| ==> (StepsAt(next, index + 1) <==> FitsIn(blocks, index + 1, RoomUnder(block)));
  }

  lemma InsertNestsIff(blocks: seq<Block>, index: nat, block: Block, added: Block)
    requires StepsByOne(blocks) && index < |blocks|
    ensures StepsByOne(Splice(blocks, index, 1, [block, added])) <==>
              (DepthOf(block) <= RoomAt(blocks, index) && DepthOf(added) <= RoomUnder(block) &&
               FitsIn(blocks, index + 1, RoomUnder(added)))
  {
    var next := Splice(blocks, index, 1, [block, added]);
    forall i | 0 <= i < |next| && !(index <= i <= index + 2) ensures StepsAt(next, i) {
      assert StepsAt(blocks, if i < index then i else i - 1);
    }
    assert StepsAt(next, index) <==> DepthOf(block) <= RoomAt(blocks, index);
    assert StepsAt(next, index + 1) <==> DepthOf(added) <= RoomUnder(block);
    assert index + 2 < |next| ==> (StepsAt(next, index + 2) <==> FitsIn(blocks, index + 1, RoomUnder(added)));
  }

  lemma MergeNestsIff(blocks: seq<Block>, index: nat, block: Block)
    requires StepsByOne(blocks) && index + 1 < |blocks|
    ensures StepsByOne(Splice(blocks, index, 2, [block])) <==>
              (DepthOf(block) <= RoomAt(blocks, index) && FitsIn(blocks, index + 2, RoomUnder(block)))
  {
    var next := Splice(blocks, index, 2, [block]);
    forall i | 0 <= i < |next| && i != index && i != index + 1 ensures StepsAt(next, i) {
      assert StepsAt(blocks, if i < index then i else i + 1);
    }
    assert StepsAt(next, index) <==> DepthOf(block) <= RoomAt(blocks, index);
    assert index + 1 < |next| ==> (StepsAt(next, index + 1) <==> FitsIn(blocks, index + 2, RoomUnder(block)));
  }

  /** Whether block `index` may become a `kind` where it stands: a plain block still has the depth it had in a list. */
  predicate MayBecome(blocks: seq<Block>, index: nat, kind: Kind)
    requires index < |blocks|
  {
    var block := blocks[index].(kind := kind);
    DepthOf(block) <= RoomAt(blocks, index) && FitsIn(blocks, index + 1, RoomUnder(block))
  }

  /** The edits that leave a properly nested document properly nested. */
  predicate KeepsNesting(d: Doc, e: Edit)
    requires Offered(d, e)
  {
    var blocks, block := d.blocks, d.blocks[e.index];
    match e
    case SetText(i, text) =>
      !block.kind.Paragraph? || ShortcutFor(text).None? || MayBecome(blocks, i, ShortcutFor(text).value)
    case Convert(i, kind) => MayBecome(blocks, i, kind)
    case SplitAt(i, _) => BlankListItem(block) ==> MayBecome(blocks, i, Paragraph)
    case BackspaceAtStart(i) => MayBecome(blocks, i, Paragraph)
    case DeleteAtEnd(i) =>
      i + 1 < |blocks| && !blocks[i + 1].kind.Divider? ==> FitsIn(blocks, i + 2, RoomUnder(block))
    case Move(_, _) | Tab(_, _, _) | ToggleTick(_) | ApplyMark(_, _, _, _) => true
  }

  lemma NestedAt(blocks: seq<Block>, i: nat)
    requires StepsByOne(blocks) && i < |blocks|
    ensures DepthOf(blocks[i]) <= RoomAt(blocks, i) && FitsIn(blocks, i + 1, RoomUnder(blocks[i]))
  {
    assert StepsAt(blocks, i);
    if i + 1 < |blocks| { assert StepsAt(blocks, i + 1); }
  }

  lemma SetTextNestsIff(d: Doc, index: nat, text: string)
    requires StepsByOne(d.blocks) && Offered(d, SetText(index, text))
    ensures StepsByOne(DoSetText(d, index, text).blocks) <==> KeepsNesting(d, SetText(index, text))
  {
    var block := d.blocks[index];
    NestedAt(d.blocks, index);
    match if block.kind.Paragraph? then ShortcutFor(text) else None
    case Some(kind) =>
      if kind.Divider? {
        InsertNestsIff(d.blocks, index, block.(kind := Divider, text := ""), NewBlock(d.counter + 1, Paragraph, ""));
      } else {
        ReplaceNestsIff(d.blocks, index, Retyped(block, kind, "", Some(false)));
      }
    case None => ReplaceNestsIff(d.blocks, index, block.(text := text));
  }

  lemma InsertWholeNestsIff(d: Doc, index: nat, made: Block, ids: nat)
    requires StepsByOne(d.blocks) && index < |d.blocks| && !IsList(made.kind)
    ensures StepsByOne(InsertWhole(d, index, made, ids).blocks) <==> FitsIn(d.blocks, index + 1, 0)
  {
    InsertNestsIff(d.blocks, index, made, NewBlock(d.counter + ids + 1, Paragraph, ""));
  }

  lemma RetypeNestsIff(d: Doc, index: nat, kind: Kind)
    requires StepsByOne(d.blocks) && index < |d.blocks| && !IsStructural(kind)
    ensures StepsByOne(DoConvert(d, index, kind).blocks) <==> MayBecome(d.blocks, index, kind)
  {
    var block := d.blocks[index];
    var text := if "/" <= block.text then "" else block.text;
    var ticked := if block.checked.Some? then block.checked else Some(false);
    ReplaceNestsIff(d.blocks, index, Retyped(block, kind, text, ticked));
  }

  lemma ConvertNestsIff(d: Doc, index: nat, kind: Kind)
    requires StepsByOne(d.blocks) && Offered(d, Convert(index, kind))
    ensures StepsByOne(DoConvert(d, index, kind).blocks) <==> KeepsNesting(d, Convert(index, kind))
  {
    var block := d.blocks[index];
    match kind
    case Table => InsertWholeNestsIff(d, index, Block(block.id, Table, NEW_TABLE, None, None), 1);
    case Image => InsertWholeNestsIff(d, index, Block(block.id, Image, NEW_IMAGE, None, None), 1);
    case Divider => InsertWholeNestsIff(d, index, block.(kind := Divider, text := ""), 0);
    case _ => RetypeNestsIff(d, index, kind);
  }

  lemma SplitNestsIff(d: Doc, index: nat, caret: nat)
    requires StepsByOne(d.blocks) && Offered(d, SplitAt(index, caret))
    ensures StepsByOne(DoSplit(d, index, caret).blocks) <==> KeepsNesting(d, SplitAt(index, caret))
  {
    var block := d.blocks[index];
    NestedAt(d.blocks, index);
    if BlankListItem(block) {
      ReplaceNestsIff(d.blocks, index, block.(kind := Paragraph, text := ""));
    } else {
      var added := BlockAfter(block, d.counter + 1).(text := block.text[caret..]);
      InsertNestsIff(d.blocks, index, block.(text := block.text[..caret]), added);
    }
  }

  lemma BackspaceNestsIff(d: Doc, index: nat)
    requires StepsByOne(d.blocks) && Offered(d, BackspaceAtStart(index))
    ensures StepsByOne(DoBackspace(d, index).blocks) <==> KeepsNesting(d, BackspaceAtStart(index))
  {
    var block := d.blocks[index];
    NestedAt(d.blocks, index);
    if !block.kind.Paragraph? {
      ReplaceNestsIff(d.blocks, index, block.(kind := Paragraph));
    } else if index > 0 {
      var previous := d.blocks[index - 1];
      NestedAt(d.blocks, index - 1);
      RemoveIsMerge(d.blocks, index - 1);
      MergeNestsIff(d.blocks, index - 1,
                    if previous.kind.Divider? then block else previous.(text := previous.text + block.text));
    }
  }

  lemma DeleteNestsIff(d: Doc, index: nat)
    requires StepsByOne(d.blocks) && Offered(d, DeleteAtEnd(index))
    ensures StepsByOne(DoDelete(d, index).blocks) <==> KeepsNesting(d, DeleteAtEnd(index))
  {
    var block := d.blocks[index];
    NestedAt(d.blocks, index);
    if index + 1 < |d.blocks| {
      var following := d.blocks[index + 1];
      NestedAt(d.blocks, index + 1);
      RemoveIsMerge(d.blocks, index);
      MergeNestsIff(d.blocks, index,
                    if following.kind.Divider? then block else block.(text := block.text + following.text));
    }
  }

  /** An edit keeps a document properly nested exactly when `KeepsNesting` says so before it is made. */
  lemma EditNestsIff(d: Doc, e: Edit)
    requires StepsByOne(d.blocks) && Offered(d, e)
    ensures StepsByOne(Apply(d, e).blocks) <==> KeepsNesting(d, e)
  {
    NestedAt(d.blocks, e.index);
    match e
    case SetText(i, text) => SetTextNestsIff(d, i, text);
    case Convert(i, kind) => ConvertNestsIff(d, i, kind);
    case SplitAt(i, caret) => SplitNestsIff(d, i, caret);
    case BackspaceAtStart(i) => BackspaceNestsIff(d, i);
    case DeleteAtEnd(i) => DeleteNestsIff(d, i);
    case Move(_, _) =>
    case Tab(i, shift, _) => if shift { OutdentKeepsNesting(d.blocks, i); } else { IndentKeepsNesting(d.blocks, i); }
    case ToggleTick(i) => ReplaceNestsIff(d.blocks, i, Apply(d, e).blocks[i]);
    case ApplyMark(i, _, _, _) => ReplaceNestsIff(d.blocks, i, Apply(d, e).blocks[i]);
  }

  /** The edit is offered on a properly nested document and skips a level. */
  ghost predicate SkipsLevel(d: Doc, e: Edit) {
    Inv(d) && StepsByOne(d.blocks) && Offered(d, e) && !StepsByOne(Apply(d, e).blocks)
  }

  /** Backspace on the parent of a nested item. */
  lemma PlainParentSkipsLevel(a: string, b: string)
    ensures SkipsLevel(Doc([Block(1, Bullet, a, None, None), Block(2, Bullet, b, None, Some(1))], None, 2),
                       BackspaceAtStart(0))
  {
    var d := Doc([Block(1, Bullet, a, None, None), Block(2, Bullet, b, None, Some(1))], None, 2);
    EditNestsIff(d, BackspaceAtStart(0));
  }

  /** Delete at the end of plain text, before an item with a nested one. */
  lemma PulledUpParentSkipsLevel(p: string, a: string, b: string)
    ensures SkipsLevel(Doc([Block(1, Paragraph, p, None, None), Block(2, Bullet, a, None, None),
                            Block(3, Bullet, b, None, Some(1))], None, 3),
                       DeleteAtEnd(0))
  {
    var d := Doc([Block(1, Paragraph, p, None, None), Block(2, Bullet, a, None, None),
                  Block(3, Bullet, b, None, Some(1))], None, 3);
    EditNestsIff(d, DeleteAtEnd(0));
  }

  /** A marker typed in plain text that was a nested item once. */
  lemma RememberedLevelSkipsLevel(a: string)
    ensures SkipsLevel(Doc([Block(1, Paragraph, a, None, None), Block(2, Paragraph, "", None, Some(1))], None, 2),
                       SetText(1, "- "))
  {
    var d := Doc([Block(1, Paragraph, a, None, None), Block(2, Paragraph, "", None, Some(1))], None, 2);
    assert "- "[1..] == " ";
    DashOrQuoteMatches("- ");
    EditNestsIff(d, SetText(1, "- "));
  }

  // ---------------------------------------------------------------- typing and reading agree

  lemma AllSpaceAfter(text: string, marker: string)
    requires MarkerAndSpace(text, marker)
    ensures TrimStart(text[|marker|..]) == ""
  {
    AllSpaceTrimsAway(text[|marker|..]);
  }

  lemma {:induction false} VisibleAtMost(s: string)
    ensures |Visible(s)| <= |s|
  {
    if s != "" { VisibleAtMost(s[1..]); }
  }

  lemma ShortLineIsPlain(text: string)
    requires text != "" && !IsSpace(text[0]) && text[0] !in "`!"
    requires text[0] !in "-*_" || (|text| == 2 && IsSpace(text[1]))
    ensures !IsFence(text) && !IsImage(Trim(text)) && !IsDivider(text) && Trim(text) != ""
  {
    RoundTrip.VisibleFirst(text);
    if text[0] !in "-*_" { RoundTrip.NotDivider(text, 0); } else { VisibleAtMost(text); }
  }

  lemma HashesMatch(text: string)
    requires MarkerAndSpace(text, "###") || MarkerAndSpace(text, "##") || MarkerAndSpace(text, "#")
    ensures ShortcutFor(text).Some? && MatchRule(text) == Some((ShortcutFor(text).value, ""))
  {
    if MarkerAndSpace(text, "###") { AllSpaceAfter(text, "###"); }
    else if MarkerAndSpace(text, "##") { AllSpaceAfter(text, "##"); }
    else { AllSpaceAfter(text, "#"); }
  }

  lemma DashOrQuoteMatches(text: string)
    requires MarkerAndSpace(text, "-") || MarkerAndSpace(text, "*") || MarkerAndSpace(text, ">")
    ensures MatchRule(text) == Some((if text[0] == '>' then Quote else Bullet, "")) && !IsChecked(text)
    ensures ShortcutFor(text) == Some(if text[0] == '>' then Quote else Bullet)
  {
    AllSpaceTrimsAway(text[1..]);
    assert text[1..][1..] == "";
    assert SkipIndent(text) == text && SkipDigits(text) == text;
  }

  lemma {:induction false} SkipDigitsShrinks(s: string)
    ensures SkipDigits(s) != s ==> s != "" && IsDigit(s[0])
    ensures |SkipDigits(s)| <= |s|
  {
    if s != "" && IsDigit(s[0]) { SkipDigitsShrinks(s[1..]); }
  }

  lemma NumberMatches(text: string)
    requires NumberAndSpace(text)
    ensures MatchRule(text) == Some((Numbered, "")) && ShortcutFor(text) == Some(Numbered)
    ensures text != "" && IsDigit(text[0])
  {
    SkipDigitsShrinks(text);
    var t := SkipDigits(text);
    AllSpaceTrimsAway(t[1..]);
    assert SkipIndent(text) == text;
  }

  lemma TodoBoxReads(text: string)
    requires ShortcutFor(text) == Some(Todo)
    ensures ReadLine("- " + text, None) == Some(Item(Todo, "", false, 0)) && !IsFence(text)
  {
    RoundTrip.VisibleFirst(text);
    var n := if "[]" <= text then 2 else 3;
    assert OneSpace(text[n..]) && OpenBox(text) && !CheckedBox(text);
    AllSpaceTrimsAway(text[n..]);
    RoundTrip.DashReads(0, text);
    assert Pad(0) + "- " + text == "- " + text;
    RoundTrip.NotDivider("- " + text, 2);
    assert MatchListRule("- " + text) == Some((Todo, ""));
  }

  lemma MarkerReads(text: string)
    requires ShortcutFor(text).Some? && ShortcutFor(text).value !in [Todo, Code]
    ensures !IsFence(text) && ReadLine(text, None) == Some(Item(ShortcutFor(text).value, "", false, 0))
  {
    if text == "---" {
      RoundTrip.DividerReads(None);
    } else {
      if NumberAndSpace(text) {
        NumberMatches(text);
      } else if MarkerAndSpace(text, "-") || MarkerAndSpace(text, "*") || MarkerAndSpace(text, ">") {
        DashOrQuoteMatches(text);
      } else {
        HashesMatch(text);
      }
      ShortLineIsPlain(text);
    }
  }

  /**
   A marker typed at the start of a line makes the block that the line opens in a file: the fence for
   code, the line itself otherwise, after the dash that only the file writes for a to-do.
   */
  lemma ShortcutIsWhatIsRead(text: string)
    requires ShortcutFor(text).Some?
    ensures ShortcutFor(text).value.Code? <==> IsFence(text)
    ensures ShortcutFor(text).value.Todo? ==> ReadLine("- " + text, None) == Some(Item(Todo, "", false, 0))
    ensures ShortcutFor(text).value !in [Todo, Code] ==>
              ReadLine(text, None) == Some(Item(ShortcutFor(text).value, "", false, 0))
  {
    match ShortcutFor(text).value
    case Code => RoundTrip.FenceIsFence();
    case Todo => TodoBoxReads(text);
    case _ => MarkerReads(text);
  }
}
