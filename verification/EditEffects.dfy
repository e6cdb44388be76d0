/**
 What each edit does to the document, told on its blocks: which change, and into what.
 */
module EditEffects {
  import opened Text
  import opened Markdown
  import opened Blocks
  import opened Nesting
  import opened Editor
  import Inline
  import ToggleMark
  import Tables
  import Images
  import Signs

  /** Block `i` may differ; every other is as it was. */
  predicate OnlyAt(blocks: seq<Block>, next: seq<Block>, i: nat) {
    |next| == |blocks| && forall j :: 0 <= j < |next| && j != i ==> next[j] == blocks[j]
  }

  /** Block `i` may differ and one more follows it; every other is as it was. */
  predicate OneMoreAfter(blocks: seq<Block>, next: seq<Block>, i: nat) {
    i < |blocks| && |next| == |blocks| + 1 && (forall j :: 0 <= j < i ==> next[j] == blocks[j]) &&
    forall j :: 0 <= j < |next| && j > i + 1 ==> next[j] == blocks[j - 1]
  }

  /** Blocks `i` and `i + 1` made way for one at `i`; every other is as it was. */
  predicate OneForTwo(blocks: seq<Block>, next: seq<Block>, i: nat) {
    i < |next| && |next| == |blocks| - 1 && (forall j :: 0 <= j < i ==> next[j] == blocks[j]) &&
    forall j :: 0 <= j < |next| && j > i ==> next[j] == blocks[j + 1]
  }

  /** How deep a block stands: not at all outside a list, and in a list at least zero and at most five levels. */
  lemma DepthIs(block: Block)
    ensures !IsList(block.kind) || block.depth.None? ==> DepthOf(block) == 0
    ensures IsList(block.kind) && block.depth.Some? ==>
              DepthOf(block) ==
                if block.depth.value < 0 then 0 else if block.depth.value > 5 then 5 else block.depth.value
  {
  }

  // ---------------------------------------------------------------- typing

  /** Typing replaces the text of its block and nothing else, unless a marker is typed in a paragraph. */
  lemma TypingReplacesText(d: Doc, i: nat, text: string)
    requires Offered(d, SetText(i, text))
    requires !d.blocks[i].kind.Paragraph? || ShortcutFor(text).None?
    ensures var next := Apply(d, SetText(i, text)).blocks;
            OnlyAt(d.blocks, next, i) && next[i].text == text && next[i] == d.blocks[i].(text := next[i].text)
  {
  }

  /** A marker other than a rule's makes the paragraph a block of its kind, empty, with the caret in it. */
  lemma MarkerMakesKind(d: Doc, i: nat, text: string)
    requires Offered(d, SetText(i, text)) && d.blocks[i].kind.Paragraph?
    requires ShortcutFor(text).Some? && !ShortcutFor(text).value.Divider?
    ensures var next := Apply(d, SetText(i, text));
            OnlyAt(d.blocks, next.blocks, i) && next.blocks[i].id == d.blocks[i].id &&
            next.blocks[i].kind == ShortcutFor(text).value && next.blocks[i].text == "" &&
            (next.blocks[i].kind.Todo? ==> next.blocks[i].checked == Some(false)) &&
            next.focus == Some(Caret(next.blocks[i].id, 0))
  {
  }

  /** The block after one that holds no caret: a new empty paragraph, with the caret in it. */
  predicate ParagraphFollows(next: Doc, i: nat) {
    i + 1 < |next.blocks| && next.blocks[i + 1].kind.Paragraph? && next.blocks[i + 1].text == "" &&
    next.focus == Some(Caret(next.blocks[i + 1].id, 0))
  }

  lemma RuleMakesTwo(d: Doc, i: nat, text: string)
    requires Offered(d, SetText(i, text)) && d.blocks[i].kind.Paragraph? && ShortcutFor(text) == Some(Divider)
    ensures var next := Apply(d, SetText(i, text));
            OneMoreAfter(d.blocks, next.blocks, i) && ParagraphFollows(next, i) &&
            next.blocks[i].id == d.blocks[i].id && next.blocks[i].kind.Divider? && next.blocks[i].text == ""
  {
  }

  lemma AfterMarker(marker: string, space: char)
    requires IsSpace(space)
    ensures MarkerAndSpace(marker + [space], marker)
  {
    assert (marker + [space])[|marker|..] == [space];
  }

  /** The markers for headings, */
  lemma HeadingMarkersAre(space: char)
    requires IsSpace(space)
    ensures ShortcutFor("#" + [space]) == Some(Heading1)
    ensures ShortcutFor("##" + [space]) == Some(Heading2)
    ensures ShortcutFor("###" + [space]) == Some(Heading3)
  {
    AfterMarker("#", space);
    AfterMarker("##", space);
    AfterMarker("###", space);
  }

  lemma BoxMarkersAre(space: char)
    requires IsSpace(space)
    ensures ShortcutFor("[]" + [space]) == Some(Todo)
    ensures ShortcutFor("[ ]" + [space]) == Some(Todo)
  {
    var short, long := "[]" + [space], "[ ]" + [space];
    AfterMarker("[]", space);
    assert short[0] == '[' && long[0] == '[';
    assert |long| == 4 && long[1] == ' ' && long[2] == ']' && long[3] == space;
    assert !("[]" <= long) by { assert long[1] != ']'; }
  }

  lemma SignMarkersAre(space: char)
    requires IsSpace(space)
    ensures ShortcutFor("-" + [space]) == Some(Bullet)
    ensures ShortcutFor("*" + [space]) == Some(Bullet)
    ensures ShortcutFor(">" + [space]) == Some(Quote)
  {
    AfterMarker("-", space);
    AfterMarker("*", space);
    AfterMarker(">", space);
    assert ("-" + [space])[0] == '-' && ("*" + [space])[0] == '*' && (">" + [space])[0] == '>';
  }

  /** for bullets, to-dos and quotes, */
  lemma ListMarkersAre(space: char)
    requires IsSpace(space)
    ensures ShortcutFor("-" + [space]) == ShortcutFor("*" + [space]) == Some(Bullet)
    ensures ShortcutFor("[]" + [space]) == ShortcutFor("[ ]" + [space]) == Some(Todo)
    ensures ShortcutFor(">" + [space]) == Some(Quote)
  {
    SignMarkersAre(space);
    BoxMarkersAre(space);
  }

  /** for code and rules. */
  lemma WholeMarkersAre()
    ensures ShortcutFor("```") == Some(Code) && ShortcutFor("---") == Some(Divider)
  {
  }

  /** And any number, with a period or a parenthesis. */
  lemma NumberMarkerIs(digits: string, sign: char, space: char)
    requires digits != "" && (forall i :: 0 <= i < |digits| ==> '0' <= digits[i] <= '9')
    requires sign in ".)" && IsSpace(space)
    ensures ShortcutFor(digits + [sign, space]) == Some(Numbered)
  {
    var text := digits + [sign, space];
    SkipTo(digits, [sign, space]);
    assert text[0] == digits[0];
    assert [sign, space][1..] == [space];
  }

  lemma {:induction false} SkipTo(digits: string, s: string)
    requires forall i :: 0 <= i < |digits| ==> '0' <= digits[i] <= '9'
    requires s != "" && !IsDigit(s[0])
    ensures SkipDigits(digits + s) == s
  {
    if digits == "" {
      assert digits + s == s;
    } else {
      assert (digits + s)[1..] == digits[1..] + s;
      SkipTo(digits[1..], s);
    }
  }

  // ---------------------------------------------------------------- the menu

  /** Turning a block into another kind of text keeps its text, but for the `/` command that asked for it. */
  lemma ConvertChangesKind(d: Doc, i: nat, kind: Kind)
    requires Offered(d, Convert(i, kind)) && !IsStructural(kind)
    ensures var block, next := d.blocks[i], Apply(d, Convert(i, kind));
            OnlyAt(d.blocks, next.blocks, i) && next.blocks[i].id == block.id && next.blocks[i].kind == kind &&
            next.blocks[i].text == (if block.text != "" && block.text[0] == '/' then "" else block.text) &&
            next.blocks[i].depth == block.depth && next.focus == Some(CaretAtEnd(block.id)) &&
            (kind.Todo? ==> (next.blocks[i].checked == Some(true) <==> block.checked == Some(true)))
  {
  }

  /** Something new and empty of the kind: a rule, a table of four empty cells, an image without address. */
  predicate NewWhole(block: Block) {
    match block.kind
    case Divider => block.text == ""
    case Table => Tables.TableRows(block.text) == [["", ""], ["", ""]]
    case Image => IsImage(block.text) && Images.ImageParts(block.text) == ("", "")
    case _ => false
  }

  lemma InsertedWhole(d: Doc, i: nat, made: Block, ids: nat)
    requires i < |d.blocks|
    ensures var next := InsertWhole(d, i, made, ids);
            OneMoreAfter(d.blocks, next.blocks, i) && ParagraphFollows(next, i) && next.blocks[i] == made
  {
  }

  lemma MadeWhole(id: nat, block: Block)
    ensures NewWhole(Block(id, Table, NEW_TABLE, None, None)) && NewWhole(Block(id, Image, NEW_IMAGE, None, None))
    ensures NewWhole(block.(kind := Divider, text := ""))
  {
    NewTableIsEmpty();
    NewImageIsEmpty();
  }

  /** Turning a block into a rule, a table or an image puts a new one in its place, with a paragraph after it. */
  lemma ConvertInsertsWhole(d: Doc, i: nat, kind: Kind)
    requires Offered(d, Convert(i, kind)) && IsStructural(kind)
    ensures var next := Apply(d, Convert(i, kind));
            OneMoreAfter(d.blocks, next.blocks, i) && ParagraphFollows(next, i) &&
            next.blocks[i].id == d.blocks[i].id && next.blocks[i].kind == kind && NewWhole(next.blocks[i])
  {
    var block := d.blocks[i];
    MadeWhole(block.id, block);
    match kind
    case Table => InsertedWhole(d, i, Block(block.id, Table, NEW_TABLE, None, None), 1);
    case Image => InsertedWhole(d, i, Block(block.id, Image, NEW_IMAGE, None, None), 1);
    case Divider => InsertedWhole(d, i, block.(kind := Divider, text := ""), 0);
  }

  lemma NewTableIsEmpty()
    ensures Tables.TableRows(NEW_TABLE) == [["", ""], ["", ""]]
  {
    var rows: seq<Tables.Row> := [["", ""], ["", ""]];
    assert rows[1..] == [["", ""]] && rows[1..][1..] == [];
    assert Tables.Widest(rows) == 2;
    assert Tables.Rectangle(rows) == rows;
    forall i | 0 <= i < |rows| ensures Tables.Keepable(Tables.Rectangle(rows)[i]) {
      Tables.NotAlignment(rows[i], 0);
    }
    Tables.TableRoundTripIff(rows);
  }

  lemma NewImageIsEmpty()
    ensures IsImage(NEW_IMAGE) && Images.ImageParts(NEW_IMAGE) == ("", "")
  {
    assert Trim("") == "";
    Images.ImageRoundTripIff("", "");
    Images.IsImageIff(NEW_IMAGE, "", "");
  }

  // ---------------------------------------------------------------- Enter, Backspace and Delete

  /** Enter cuts the text at the caret; what comes after it starts another item of the list, or a paragraph. */
  lemma EnterCutsText(d: Doc, i: nat, caret: nat)
    requires Offered(d, SplitAt(i, caret)) && !BlankListItem(d.blocks[i])
    ensures var block, next := d.blocks[i], Apply(d, SplitAt(i, caret));
            OneMoreAfter(d.blocks, next.blocks, i) && next.blocks[i] == block.(text := block.text[..caret]) &&
            var added := next.blocks[i + 1];
            added.text == block.text[caret..] && next.focus == Some(Caret(added.id, 0)) &&
            added.id == d.counter + 1 && added.checked != Some(true) &&
            added.kind == (if IsList(block.kind) && Trim(block.text) != "" then block.kind else Paragraph) &&
            DepthOf(added) == DepthOf(block)
  {
  }

  /** On a blank list item it ends the list there. */
  lemma EnterEndsList(d: Doc, i: nat, caret: nat)
    requires Offered(d, SplitAt(i, caret)) && IsList(d.blocks[i].kind) && AllSpace(d.blocks[i].text)
    ensures var next := Apply(d, SplitAt(i, caret));
            OnlyAt(d.blocks, next.blocks, i) && next.blocks[i].id == d.blocks[i].id &&
            next.blocks[i].kind.Paragraph? && next.blocks[i].text == "" &&
            next.focus == Some(Caret(d.blocks[i].id, 0))
  {
    BlankIff(d.blocks[i].text);
  }

  /** Backspace at the start of anything but a paragraph makes it one and keeps its text. */
  lemma BackspaceMakesPlain(d: Doc, i: nat)
    requires Offered(d, BackspaceAtStart(i)) && !d.blocks[i].kind.Paragraph?
    ensures var next := Apply(d, BackspaceAtStart(i));
            OnlyAt(d.blocks, next.blocks, i) && next.blocks[i] == d.blocks[i].(kind := Paragraph) &&
            next.focus == Some(Caret(d.blocks[i].id, 0))
  {
  }

  /** At the start of a paragraph it puts its text behind that of the block above, or takes a rule away. */
  lemma BackspaceJoins(d: Doc, i: nat)
    requires Offered(d, BackspaceAtStart(i)) && d.blocks[i].kind.Paragraph?
    ensures var next := Apply(d, BackspaceAtStart(i));
            if i == 0 then next.blocks == d.blocks
            else
              var above := d.blocks[i - 1];
              OneForTwo(d.blocks, next.blocks, i - 1) &&
              if above.kind.Divider?
              then next.blocks[i - 1] == d.blocks[i] && next.focus == Some(Caret(d.blocks[i].id, 0))
              else next.blocks[i - 1] == above.(text := above.text + d.blocks[i].text) &&
                   next.focus == Some(Caret(above.id, |above.text|))
  {
  }

  /** Delete at the end of a block puts the text of the one below behind its own, or takes a rule away. */
  lemma DeleteJoins(d: Doc, i: nat)
    requires Offered(d, DeleteAtEnd(i))
    ensures var block, next := d.blocks[i], Apply(d, DeleteAtEnd(i));
            if i + 1 == |d.blocks| then next.blocks == d.blocks
            else
              OneForTwo(d.blocks, next.blocks, i) && next.focus == Some(Caret(block.id, |block.text|)) &&
              next.blocks[i] == block.(text := if d.blocks[i + 1].kind.Divider? then block.text
                                               else block.text + d.blocks[i + 1].text)
  {
  }

  // ---------------------------------------------------------------- arrows, Tab, ticks and marks

  /** An arrow changes no block: up goes to the end of the block above, down to the start of the one below. */
  lemma ArrowsMoveTheCaret(d: Doc, i: nat)
    requires Offered(d, Move(i, 1))
    ensures Apply(d, Move(i, 1)).blocks == Apply(d, Move(i, -1)).blocks == d.blocks
    ensures Apply(d, Move(i, -1)).focus == if i > 0 then Some(CaretAtEnd(d.blocks[i - 1].id)) else None
    ensures Apply(d, Move(i, 1)).focus == if i + 1 < |d.blocks| then Some(Caret(d.blocks[i + 1].id, 0)) else None
  {
  }

  /** Tab puts an item one level deeper and Shift+Tab lifts it by one, where that is allowed; else nothing happens. */
  lemma TabMovesTheItem(d: Doc, i: nat, shift: bool, caret: nat)
    requires Offered(d, Edit.Tab(i, shift, caret))
    ensures var next := Apply(d, Edit.Tab(i, shift, caret));
            if (if shift then CanOutdent(d.blocks, i) else CanIndent(d.blocks, i))
            then DepthOf(next.blocks[i]) == DepthOf(d.blocks[i]) + (if shift then -1 else 1) &&
                 OnlyDepthsIn(next.blocks, d.blocks, i) && next.focus == Some(Caret(d.blocks[i].id, caret))
            else next.blocks == d.blocks && next.focus == None
  {
    MovesTouchOnlyDepths(d.blocks, i);
  }

  /** A click on the box of a to-do ticks it or clears it, and changes nothing else. */
  lemma TickFlips(d: Doc, i: nat)
    requires Offered(d, ToggleTick(i))
    ensures var next := Apply(d, ToggleTick(i)).blocks;
            OnlyAt(d.blocks, next, i) && next[i] == d.blocks[i].(checked := next[i].checked) &&
            next[i].checked == Some(if d.blocks[i].checked == Some(true) then false else true)
  {
  }

  /** A mark asked for on bare words is written around them, in that block alone, and they stay selected. */
  lemma MarkIsWritten(d: Doc, i: nat, before: string, words: string, after: string, mark: Inline.Mark)
    requires i < |d.blocks| && d.blocks[i].text == before + words + after && !IsStructural(d.blocks[i].kind)
    requires forall k :: 0 <= k < |words| ==> words[k] !in "*_~`["
    requires var c := Signs.Symbols(mark)[0]; !Signs.EndsWith(before, c) || !Signs.StartsWith(after, c)
    ensures var edit := ApplyMark(i, |before|, |before| + |words|, mark);
            var n := |Signs.Symbols(mark)|;
            Offered(d, edit) &&
            var next := Apply(d, edit);
            OnlyAt(d.blocks, next.blocks, i) &&
            next.blocks[i] ==
              d.blocks[i].(text := before + Signs.Symbols(mark) + words + (Signs.Symbols(mark) + after)) &&
            next.focus == Some(Range(d.blocks[i].id, |before| + n, |before| + n + |words|))
  {
    Signs.ToggleWraps(before, words, after, mark);
    assert ToggleMark.Select(before, words, after) ==
           ToggleMark.Selection(d.blocks[i].text, |before|, |before| + |words|);
  }
}
