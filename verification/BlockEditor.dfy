/**
 The editor's handlers, which change the document in place. Each does what `Editor.Apply` says.
 */
module BlockEditor {
  import opened Text
  import opened Markdown
  import opened Blocks
  import opened Editor
  import N = Nesting
  import Inline
  import ToggleMark

  class BlockEditor {
    var blocks: seq<Block>
    /** Where the caret goes after the next render; the render before an edit has consumed the last one. */
    var pending: Option<Focus>
    const ids: BlockIds

    function State(): Doc
      reads this, ids
    {
      Doc(blocks, pending, ids.counter)
    }

    constructor (blocks: seq<Block>, ids: BlockIds)
      ensures this.ids == ids && State() == Doc(blocks, None, ids.counter)
    {
      this.blocks, this.pending, this.ids := blocks, None, ids;
    }

    method Replace(index: nat, block: Block)
      requires index < |blocks|
      modifies this`blocks
      ensures blocks == old(blocks)[index := block]
    {
      blocks := blocks[index := block];
    }

    /** A fresh empty paragraph after a block that holds no caret. */
    method FollowWithParagraph(index: nat, made: Block)
      requires index < |blocks|
      modifies this, ids
      ensures State() == InsertWhole(old(State()), index, made, 0)
    {
      var id := ids.BlockId();
      var added := NewBlock(id, Paragraph, "");
      blocks := blocks[..index] + [made, added] + blocks[index + 1..];
      pending := Some(Caret(added.id, 0));
    }

    method SetText(index: nat, text: string)
      requires Offered(State(), Edit.SetText(index, text))
      modifies this, ids
      ensures State() == Apply(old(State()), Edit.SetText(index, text))
    {
      var block := blocks[index];
      pending := None;
      if block.kind.Paragraph? {
        var shortcut := ShortcutFor(text);
        if shortcut.Some? {
          if shortcut.value.Divider? {
            FollowWithParagraph(index, block.(kind := Divider, text := ""));
            return;
          }
          pending := Some(Caret(block.id, 0));
          Replace(index, block.(kind := shortcut.value, text := "",
                                checked := if shortcut.value.Todo? then Some(false) else block.checked));
          return;
        }
      }
      Replace(index, block.(text := text));
    }

    /** A rule, a table or an image in place of the block. */
    method InsertStructural(index: nat, kind: Kind)
      requires index < |blocks| && IsStructural(kind)
      modifies this, ids
      ensures State() == DoConvert(old(State()), index, kind)
    {
      var block := blocks[index];
      if kind.Divider? {
        FollowWithParagraph(index, block.(kind := Divider, text := ""));
      } else {
        // The new table or image takes an id of its own before it is given the block's.
        var unused := ids.BlockId();
        FollowWithParagraph(index, Block(block.id, kind, if kind.Table? then NEW_TABLE else NEW_IMAGE, None, None));
      }
    }

    method Convert(index: nat, kind: Kind)
      requires Offered(State(), Edit.Convert(index, kind))
      modifies this, ids
      ensures State() == Apply(old(State()), Edit.Convert(index, kind))
    {
      var block := blocks[index];
      if IsStructural(kind) {
        InsertStructural(index, kind);
        return;
      }
      var text := if "/" <= block.text then "" else block.text;
      pending := Some(CaretAtEnd(block.id));
      var checked := if kind.Todo? && block.checked.None? then Some(false) else block.checked;
      Replace(index, block.(kind := kind, text := text, checked := checked));
    }

    method SplitAt(index: nat, caret: nat)
      requires Offered(State(), Edit.SplitAt(index, caret))
      modifies this, ids
      ensures State() == Apply(old(State()), Edit.SplitAt(index, caret))
    {
      var block := blocks[index];
      var before, after := block.text[..caret], block.text[caret..];
      if IsList(block.kind) && Trim(block.text) == "" {
        pending := Some(Caret(block.id, 0));
        Replace(index, block.(kind := Paragraph, text := ""));
        return;
      }
      var id := ids.BlockId();
      var added := BlockAfter(block, id).(text := after);
      blocks := blocks[..index] + [block.(text := before), added] + blocks[index + 1..];
      pending := Some(Caret(added.id, 0));
    }

    method BackspaceAtStart(index: nat)
      requires Offered(State(), Edit.BackspaceAtStart(index))
      modifies this
      ensures State() == Apply(old(State()), Edit.BackspaceAtStart(index))
    {
      var block := blocks[index];
      if !block.kind.Paragraph? {
        pending := Some(Caret(block.id, 0));
        Replace(index, block.(kind := Paragraph));
        return;
      }
      pending := None;
      if index == 0 { return; }
      var previous := blocks[index - 1];
      if previous.kind.Divider? {
        blocks := blocks[..index - 1] + [] + blocks[index..];
        pending := Some(Caret(block.id, 0));
        return;
      }
      blocks := blocks[..index - 1] + [previous.(text := previous.text + block.text)] + blocks[index + 1..];
      pending := Some(Caret(previous.id, |previous.text|));
    }

    method DeleteAtEnd(index: nat)
      requires Offered(State(), Edit.DeleteAtEnd(index))
      modifies this
      ensures State() == Apply(old(State()), Edit.DeleteAtEnd(index))
    {
      var block := blocks[index];
      pending := None;
      if index + 1 >= |blocks| { return; }
      var following := blocks[index + 1];
      if following.kind.Divider? {
        blocks := blocks[..index + 1] + [] + blocks[index + 2..];
      } else {
        blocks := blocks[..index] + [block.(text := block.text + following.text)] + blocks[index + 2..];
      }
      pending := Some(Caret(block.id, |block.text|));
    }

    method Move(index: nat, delta: int)
      requires Offered(State(), Edit.Move(index, delta))
      modifies this`pending
      ensures State() == Apply(old(State()), Edit.Move(index, delta))
    {
      pending := None;
      if index + delta < 0 || index + delta >= |blocks| { return; }
      var id := blocks[index + delta].id;
      pending := Some(if delta == -1 then CaretAtEnd(id) else Caret(id, 0));
    }

    method Tab(index: nat, shift: bool, caret: nat)
      requires Offered(State(), Edit.Tab(index, shift, caret))
      modifies this
      ensures State() == Apply(old(State()), Edit.Tab(index, shift, caret))
    {
      var id := blocks[index].id;
      pending := None;
      // An illegal move gives the same document back, and Tab falls through to the browser.
      var legal := if shift then N.CanOutdent(blocks, index) else N.CanIndent(blocks, index);
      if !legal { return; }
      if shift {
        blocks := N.Outdent(blocks, index);
      } else {
        blocks := N.Indent(blocks, index);
      }
      pending := Some(Caret(id, caret));
    }

    method ToggleTick(index: nat)
      requires Offered(State(), Edit.ToggleTick(index))
      modifies this
      ensures State() == Apply(old(State()), Edit.ToggleTick(index))
    {
      pending := None;
      Replace(index, blocks[index].(checked := Some(blocks[index].checked != Some(true))));
    }

    method ApplyMark(index: nat, start: nat, end: nat, mark: Inline.Mark)
      requires Offered(State(), Edit.ApplyMark(index, start, end, mark))
      modifies this
      ensures State() == Apply(old(State()), Edit.ApplyMark(index, start, end, mark))
    {
      var block := blocks[index];
      var next := ToggleMark.Toggle(ToggleMark.Selection(block.text, start, end), mark);
      pending := Some(Range(block.id, next.start, next.end));
      Replace(index, block.(text := next.text));
    }
  }
}
