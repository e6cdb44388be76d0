/**
 Moving list items in and out: `indent`, `outdent` and the loop that shifts a subtree.
 */
module Nesting {
  import opened Text
  import opened Markdown
  import opened Blocks
  import RoundTrip

  predicate ListAt(blocks: seq<Block>, i: int) {
    0 <= i < |blocks| && IsList(blocks[i].kind)
  }

  /** A list item below the limit, right after a list item that is at least as deep. */
  predicate CanIndent(blocks: seq<Block>, index: int) {
    ListAt(blocks, index) && DepthOf(blocks[index]) < MAX_DEPTH &&
    ListAt(blocks, index - 1) && DepthOf(blocks[index - 1]) >= DepthOf(blocks[index])
  }

  predicate CanOutdent(blocks: seq<Block>, index: int) {
    ListAt(blocks, index) && DepthOf(blocks[index]) > 0
  }

  /** A block that belongs under an item at level `base`. */
  predicate Under(block: Block, base: nat) {
    IsList(block.kind) && DepthOf(block) > base
  }

  /** The end of the run of blocks from `i` that belong under level `base`. */
  function RunEnd(blocks: seq<Block>, i: nat, base: nat): (e: nat)
    requires i <= |blocks|
    ensures i <= e <= |blocks|
    ensures forall k :: i <= k < e ==> Under(blocks[k], base)
    ensures e < |blocks| ==> !Under(blocks[e], base)
    decreases |blocks| - i
  {
    if i == |blocks| || !Under(blocks[i], base) then i else RunEnd(blocks, i + 1, base)
  }

  /** One past the last block of the subtree at `index`. */
  function SubtreeEnd(blocks: seq<Block>, index: nat): (e: nat)
    requires index < |blocks|
    ensures index < e <= |blocks|
  {
    RunEnd(blocks, index + 1, DepthOf(blocks[index]))
  }

  function Moved(block: Block, levels: int): Block {
    block.(depth := Some(Clamp(DepthOf(block) + levels)))
  }

  /** The document with the subtree at `index` moved by some levels, and nothing else changed. */
  function Shifted(blocks: seq<Block>, index: nat, levels: int): (r: seq<Block>)
    requires index < |blocks|
    ensures |r| == |blocks|
    ensures forall i :: 0 <= i < |r| ==>
              r[i] == if index <= i < SubtreeEnd(blocks, index) then Moved(blocks[i], levels) else blocks[i]
  {
    seq(|blocks|, i requires 0 <= i < |blocks| =>
      if index <= i < SubtreeEnd(blocks, index) then Moved(blocks[i], levels) else blocks[i])
  }

  lemma RunEndIs(blocks: seq<Block>, i: nat, base: nat, e: nat)
    requires i <= e <= |blocks|
    requires forall k :: i <= k < e ==> Under(blocks[k], base)
    requires e < |blocks| ==> !Under(blocks[e], base)
    ensures RunEnd(blocks, i, base) == e
  {
    var f := RunEnd(blocks, i, base);
    assert f < |blocks| ==> !Under(blocks[f], base);
  }

  /** The loop that moves the subtree at `index`: it stops where `SubtreeEnd` says. */
  method Shift(blocks: seq<Block>, index: nat, levels: int) returns (next: seq<Block>)
    requires index < |blocks|
    ensures next == Shifted(blocks, index, levels)
  {
    var base := DepthOf(blocks[index]);
    next := blocks;
    var i := index;
    while i < |next|
      invariant index <= i <= |next| == |blocks|
      invariant forall k :: index < k < i ==> Under(blocks[k], base)
      invariant forall k :: 0 <= k < |next| ==>
                  next[k] == if index <= k < i then Moved(blocks[k], levels) else blocks[k]
    {
      var block := next[i];
      if i > index && (!IsList(block.kind) || DepthOf(block) <= base) { break; }
      next := next[i := block.(depth := Some(Clamp(DepthOf(block) + levels)))];
      i := i + 1;
    }
    RunEndIs(blocks, index + 1, base, i);
  }

  function Indented(blocks: seq<Block>, index: int): seq<Block> {
    if CanIndent(blocks, index) then Shifted(blocks, index, 1) else blocks
  }

  function Outdented(blocks: seq<Block>, index: int): seq<Block> {
    if CanOutdent(blocks, index) then Shifted(blocks, index, -1) else blocks
  }

  method Indent(blocks: seq<Block>, index: int) returns (next: seq<Block>)
    ensures next == Indented(blocks, index)
  {
    if !CanIndent(blocks, index) { return blocks; }
    next := Shift(blocks, index, 1);
  }

  method Outdent(blocks: seq<Block>, index: int) returns (next: seq<Block>)
    ensures next == Outdented(blocks, index)
  {
    if !CanOutdent(blocks, index) { return blocks; }
    next := Shift(blocks, index, -1);
  }

  // ---------------------------------------------------------------- nesting is kept

  /** Block `i` is at most one level below the list item before it, and at the top if there is none. */
  predicate StepsAt(blocks: seq<Block>, i: nat)
    requires i < |blocks|
  {
    DepthOf(blocks[i]) <= if ListAt(blocks, i - 1) then DepthOf(blocks[i - 1]) + 1 else 0
  }

  /** The nesting of a document, stated block by block. */
  predicate StepsByOne(blocks: seq<Block>) {
    forall i :: 0 <= i < |blocks| ==> StepsAt(blocks, i)
  }

  lemma {:induction false} StepsByOneFrom(blocks: seq<Block>, i: nat)
    requires i <= |blocks|
    ensures RoundTrip.WellNestedAfter(if i == 0 then None else Some(View(blocks[i - 1])), Views(blocks)[i..]) <==>
            forall k :: i <= k < |blocks| ==> StepsAt(blocks, k)
    decreases |blocks| - i
  {
    if i < |blocks| {
      StepsByOneFrom(blocks, i + 1);
      assert Views(blocks)[i..][1..] == Views(blocks)[i + 1..];
      assert Views(blocks)[i..][0] == View(blocks[i]);
      var prev := if i == 0 then None else Some(View(blocks[i - 1]));
      assert StepsAt(blocks, i) <==> (IsList(blocks[i].kind) ==> DepthOf(blocks[i]) <= Ceiling(prev));
    }
  }

  /** It is the nesting the file format can hold. */
  lemma StepsByOneIsWellNested(blocks: seq<Block>)
    ensures StepsByOne(blocks) <==> RoundTrip.WellNested(Views(blocks))
  {
    StepsByOneFrom(blocks, 0);
    assert Views(blocks)[0..] == Views(blocks);
  }

  lemma IndentKeepsNesting(blocks: seq<Block>, index: int)
    requires StepsByOne(blocks)
    ensures StepsByOne(Indented(blocks, index))
  {
    if CanIndent(blocks, index) {
      var next := Shifted(blocks, index, 1);
      var e := SubtreeEnd(blocks, index);
      forall i | 0 <= i < |next| ensures StepsAt(next, i) {
        assert StepsAt(blocks, i);
        if index <= i < e { assert IsList(blocks[i].kind); }
        if i > 0 && index <= i - 1 < e { assert IsList(blocks[i - 1].kind); }
      }
    }
  }

  lemma OutdentKeepsNesting(blocks: seq<Block>, index: int)
    requires StepsByOne(blocks)
    ensures StepsByOne(Outdented(blocks, index))
  {
    if CanOutdent(blocks, index) {
      var next := Shifted(blocks, index, -1);
      var e := SubtreeEnd(blocks, index);
      forall i | 0 <= i < |next| ensures StepsAt(next, i) {
        assert StepsAt(blocks, i);
        if index <= i < e { assert IsList(blocks[i].kind); }
        if i > 0 && index <= i - 1 < e { assert IsList(blocks[i - 1].kind); }
      }
    }
  }

  /** Indenting is allowed exactly when it deepens the item and leaves a properly nested document. */
  lemma CanIndentIff(blocks: seq<Block>, index: nat)
    requires StepsByOne(blocks) && ListAt(blocks, index)
    ensures var next := Shifted(blocks, index, 1);
            CanIndent(blocks, index) <==> (DepthOf(next[index]) == DepthOf(blocks[index]) + 1 && StepsByOne(next))
  {
    var next := Shifted(blocks, index, 1);
    if CanIndent(blocks, index) {
      IndentKeepsNesting(blocks, index);
    } else if StepsByOne(next) {
      assert StepsAt(next, index);
    }
  }

  /** Outdenting is allowed exactly when it lifts the item, and it always leaves a properly nested document. */
  lemma CanOutdentIff(blocks: seq<Block>, index: nat)
    requires StepsByOne(blocks) && ListAt(blocks, index)
    ensures var next := Shifted(blocks, index, -1);
            CanOutdent(blocks, index) <==> (DepthOf(next[index]) == DepthOf(blocks[index]) - 1 && StepsByOne(next))
  {
    if CanOutdent(blocks, index) { OutdentKeepsNesting(blocks, index); }
  }

  /** `next` differs from `blocks` in depths only, and only within the subtree at `index`. */
  predicate OnlyDepthsIn(next: seq<Block>, blocks: seq<Block>, index: int) {
    |next| == |blocks| &&
    forall i :: 0 <= i < |next| ==>
      (0 <= index <= i < |blocks| && i < SubtreeEnd(blocks, index) && next[i] == blocks[i].(depth := next[i].depth)) ||
      next[i] == blocks[i]
  }

  lemma MovesTouchOnlyDepths(blocks: seq<Block>, index: int)
    ensures OnlyDepthsIn(Indented(blocks, index), blocks, index)
    ensures OnlyDepthsIn(Outdented(blocks, index), blocks, index)
  {
  }

  // ---------------------------------------------------------------- moving there and back

  predicate SameDepths(a: seq<Block>, b: seq<Block>) {
    |a| == |b| && forall i :: 0 <= i < |a| ==> DepthOf(a[i]) == DepthOf(b[i])
  }

  lemma IndentedDepth(blocks: seq<Block>, index: nat, i: nat)
    requires CanIndent(blocks, index) && i < |blocks|
    ensures DepthOf(Indented(blocks, index)[i]) ==
              if index <= i < SubtreeEnd(blocks, index) then Min(DepthOf(blocks[i]) + 1, MAX_DEPTH)
              else DepthOf(blocks[i])
  {
    if index < i < SubtreeEnd(blocks, index) { assert Under(blocks[i], DepthOf(blocks[index])); }
  }

  /** Below the last level an indent does not change which blocks belong to the subtree. */
  lemma IndentKeepsExtent(blocks: seq<Block>, index: nat)
    requires CanIndent(blocks, index) && DepthOf(blocks[index]) < MAX_DEPTH - 1
    ensures SubtreeEnd(Indented(blocks, index), index) == SubtreeEnd(blocks, index)
  {
    var next := Indented(blocks, index);
    var base, e := DepthOf(blocks[index]), SubtreeEnd(blocks, index);
    forall k | index < k < e ensures Under(next[k], base + 1) {
      assert Under(blocks[k], base);
      IndentedDepth(blocks, index, k);
    }
    IndentedDepth(blocks, index, index);
    if e < |blocks| {
      assert !Under(blocks[e], base);
      IndentedDepth(blocks, index, e);
    }
    RunEndIs(next, index + 1, base + 1, e);
  }

  predicate NoneAtLimit(blocks: seq<Block>, index: nat)
    requires index < |blocks|
  {
    forall i :: index <= i < SubtreeEnd(blocks, index) ==> DepthOf(blocks[i]) < MAX_DEPTH
  }

  /**
   Outdenting what was just indented restores every depth exactly when nothing in the subtree was
   already at the limit, or the item itself was one level short of it, when only the item moves.
   */
  lemma OutdentUndoesIndentIff(blocks: seq<Block>, index: nat)
    requires CanIndent(blocks, index)
    ensures SameDepths(Outdented(Indented(blocks, index), index), blocks) <==>
              (NoneAtLimit(blocks, index) || DepthOf(blocks[index]) == MAX_DEPTH - 1)
  {
    var next := Indented(blocks, index);
    var back := Outdented(next, index);
    var base, e := DepthOf(blocks[index]), SubtreeEnd(blocks, index);
    forall i | 0 <= i < |blocks| ensures DepthOf(next[i]) ==
      if index <= i < e then Min(DepthOf(blocks[i]) + 1, MAX_DEPTH) else DepthOf(blocks[i]) {
      IndentedDepth(blocks, index, i);
    }
    assert CanOutdent(next, index);
    if base < MAX_DEPTH - 1 {
      IndentKeepsExtent(blocks, index);
      forall i | 0 <= i < |blocks| ensures DepthOf(back[i]) ==
        if index <= i < e then Min(DepthOf(blocks[i]) + 1, MAX_DEPTH) - 1 else DepthOf(blocks[i]) {
        if index <= i < e { assert IsList(blocks[i].kind); }
      }
    } else {
      if index + 1 < |blocks| { IndentedDepth(blocks, index, index + 1); }
      RunEndIs(next, index + 1, MAX_DEPTH, index + 1);
      assert SubtreeEnd(next, index) == index + 1;
    }
  }

  lemma OutdentedDepth(blocks: seq<Block>, index: nat, i: nat)
    requires CanOutdent(blocks, index) && i < |blocks|
    ensures DepthOf(Outdented(blocks, index)[i]) ==
              if index <= i < SubtreeEnd(blocks, index) then DepthOf(blocks[i]) - 1 else DepthOf(blocks[i])
  {
    if index < i < SubtreeEnd(blocks, index) { assert Under(blocks[i], DepthOf(blocks[index])); }
  }

  /** A sibling right after the subtree, which an outdent turns into a child. */
  predicate SiblingFollows(blocks: seq<Block>, index: nat)
    requires index < |blocks|
  {
    var e := SubtreeEnd(blocks, index);
    ListAt(blocks, e) && DepthOf(blocks[e]) == DepthOf(blocks[index])
  }

  lemma OutdentedExtent(blocks: seq<Block>, index: nat)
    requires CanOutdent(blocks, index)
    ensures var f := SubtreeEnd(Outdented(blocks, index), index);
            f >= SubtreeEnd(blocks, index) && (f > SubtreeEnd(blocks, index) <==> SiblingFollows(blocks, index))
  {
    var next := Outdented(blocks, index);
    var base, e := DepthOf(blocks[index]), SubtreeEnd(blocks, index);
    var f := SubtreeEnd(next, index);
    OutdentedDepth(blocks, index, index);
    forall k | index < k < e ensures Under(next[k], base - 1) {
      assert Under(blocks[k], base);
      OutdentedDepth(blocks, index, k);
    }
    assert f < |blocks| ==> !Under(next[f], base - 1);
    if e < |blocks| {
      assert !Under(blocks[e], base);
      OutdentedDepth(blocks, index, e);
      if f > e { assert Under(next[e], base - 1); }
    }
  }

  /**
   Indenting what was just outdented restores every depth exactly when no sibling followed the
   subtree to be swept along, or the item was at the limit, where a sweep moves nothing.
   */
  lemma IndentUndoesOutdentIff(blocks: seq<Block>, index: nat)
    requires StepsByOne(blocks) && CanOutdent(blocks, index)
    ensures SameDepths(Indented(Outdented(blocks, index), index), blocks) <==>
              (!SiblingFollows(blocks, index) || DepthOf(blocks[index]) == MAX_DEPTH)
  {
    var next := Outdented(blocks, index);
    var back := Indented(next, index);
    var base, e := DepthOf(blocks[index]), SubtreeEnd(blocks, index);
    var f := SubtreeEnd(next, index);
    forall i | 0 <= i < |blocks|
      ensures DepthOf(next[i]) == if index <= i < e then DepthOf(blocks[i]) - 1 else DepthOf(blocks[i]) {
      OutdentedDepth(blocks, index, i);
    }
    OutdentedExtent(blocks, index);
    assert StepsAt(blocks, index);
    assert CanIndent(next, index);
    forall i | 0 <= i < |blocks| ensures DepthOf(back[i]) ==
      if index <= i < e then DepthOf(blocks[i])
      else if e <= i < f then Min(DepthOf(blocks[i]) + 1, MAX_DEPTH) else DepthOf(blocks[i]) {
      IndentedDepth(next, index, i);
    }
    if SiblingFollows(blocks, index) && base == MAX_DEPTH {
      forall i | e <= i < f ensures DepthOf(blocks[i]) == MAX_DEPTH {
        assert Under(next[i], base - 1);
      }
    }
  }
}
