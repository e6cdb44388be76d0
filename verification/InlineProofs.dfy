/**
 What the inline scanner guarantees for every line: how deep marks nest, that no text is invented or
 empty, when a line is plain, and that marks written around text are read back as those marks.
 */
module InlineProofs {
  import opened Text
  import opened Markdown
  import opened Inline

  // ---------------------------------------------------------------- nesting is bounded

  predicate OccursAt(s: string, sign: string, k: nat) {
    k + |sign| <= |s| && s[k..k + |sign|] == sign
  }

  ghost predicate Contains(s: string, sign: string) {
    exists k: nat :: OccursAt(s, sign, k)
  }

  lemma OccursShifted(s: string, sign: string, j: nat)
    requires s != ""
    ensures OccursAt(s, sign, j + 1) <==> OccursAt(s[1..], sign, j)
  {
    if j + 1 + |sign| <= |s| { SliceOfSlice(s, 1, |s|, j, j + |sign|); }
  }

  ghost predicate FirstAt(s: string, sign: string, k: nat) {
    OccursAt(s, sign, k) && forall j: nat :: j < k ==> !OccursAt(s, sign, j)
  }

  lemma {:induction false} IndexOfIsFirst(s: string, sign: string)
    requires sign != ""
    ensures match IndexOf(s, sign) case Some(k) => FirstAt(s, sign, k) case None => !Contains(s, sign)
  {
    if sign <= s {
    } else if s != "" {
      IndexOfIsFirst(s[1..], sign);
      forall j: nat ensures OccursAt(s, sign, j) <==> (j >= 1 && OccursAt(s[1..], sign, j - 1)) {
        if j >= 1 { OccursShifted(s, sign, j - 1); }
      }
    }
  }

  lemma PartContainsNoMore(s: string, a: nat, b: nat, sign: string)
    requires a <= b <= |s| && Contains(s[a..b], sign)
    ensures Contains(s, sign)
  {
    var k: nat :| OccursAt(s[a..b], sign, k);
    SliceOfSlice(s, a, b, k, k + |sign|);
    assert OccursAt(s, sign, a + k);
  }

  lemma BeforeFirst(s: string, sign: string, k: nat)
    requires sign != "" && IndexOf(s, sign) == Some(k)
    ensures !Contains(s[..k], sign)
  {
    IndexOfIsFirst(s, sign);
    forall j: nat ensures !OccursAt(s[..k], sign, j) {
      if j + |sign| <= k {
        SliceOfSlice(s, 0, k, j, j + |sign|);
        assert !OccursAt(s, sign, j);
      }
    }
  }

  lemma InnerIsBeforeFirst(rest: string, sign: string)
    requires sign != "" && sign <= rest && InnerAt(rest, sign).Some?
    ensures var inner := InnerAt(rest, sign).value;
            !Contains(inner, sign) && inner == rest[|sign|..|sign| + |inner|]
  {
    BeforeFirst(rest[|sign|..], sign, |InnerAt(rest, sign).value|);
  }

  /** The text inside a mark does not contain the mark's own delimiter. */
  lemma InnerAvoidsItsSign(rest: string)
    requires MarkedAt(rest).Some?
    ensures var (d, inner) := MarkedAt(rest).value;
            Contains(rest, Sign(d)) && !Contains(inner, Sign(d)) &&
            inner == rest[|Sign(d)|..|Sign(d)| + |inner|]
  {
    var (d, inner) := MarkedAt(rest).value;
    assert OccursAt(rest, Sign(d), 0);
    InnerIsBeforeFirst(rest, Sign(d));
  }

  /** No delimiter of `used` occurs in the text. */
  ghost predicate Avoids(text: string, used: set<Delimiter>) {
    forall d :: d in used ==> !Contains(text, Sign(d))
  }

  lemma PartAvoids(s: string, a: nat, b: nat, used: set<Delimiter>)
    requires a <= b <= |s| && Avoids(s, used)
    ensures Avoids(s[a..b], used)
  {
    forall d | d in used ensures !Contains(s[a..b], Sign(d)) {
      if Contains(s[a..b], Sign(d)) { PartContainsNoMore(s, a, b, Sign(d)); }
    }
  }

  ghost predicate PieceNests(p: Piece, used: set<Delimiter>) {
    p.MarkPiece? ==> p.delimiter !in used && Avoids(p.inner, used + {p.delimiter})
  }

  lemma AvoidsMore(text: string, used: set<Delimiter>, d: Delimiter)
    requires Avoids(text, used) && !Contains(text, Sign(d))
    ensures Avoids(text, used + {d})
  {
  }

  lemma SliceNests(rest: string, a: nat, b: nat, used: set<Delimiter>, d: Delimiter)
    requires a <= b <= |rest| && Avoids(rest, used)
    requires Contains(rest, Sign(d)) && !Contains(rest[a..b], Sign(d))
    ensures d !in used && Avoids(rest[a..b], used + {d})
  {
    PartAvoids(rest, a, b, used);
    AvoidsMore(rest[a..b], used, d);
  }

  lemma MarkNests(rest: string, used: set<Delimiter>, d: Delimiter, inner: string)
    requires Avoids(rest, used) && MarkedAt(rest) == Some((d, inner))
    ensures d !in used && Avoids(inner, used + {d})
  {
    InnerAvoidsItsSign(rest);
    SliceNests(rest, |Sign(d)|, |Sign(d)| + |inner|, used, d);
  }

  lemma PieceAtNests(rest: string, used: set<Delimiter>)
    requires rest != "" && Avoids(rest, used)
    ensures PieceNests(PieceAt(rest), used)
  {
    if LinkAt(rest).None? && MarkedAt(rest).Some? {
      var (d, inner) := MarkedAt(rest).value;
      MarkNests(rest, used, d, inner);
    }
  }

  lemma {:induction false} PiecesNest(rest: string, used: set<Delimiter>)
    requires Avoids(rest, used)
    ensures forall i :: 0 <= i < |Pieces(rest)| ==> PieceNests(Pieces(rest)[i], used)
  {
    if rest != "" {
      var n := |Write(PieceAt(rest))|;
      PieceAtNests(rest, used);
      PartAvoids(rest, n, |rest|, used);
      assert rest[n..|rest|] == rest[n..];
      PiecesNest(rest[n..], used);
    }
  }

  /** Along any chain of marks no delimiter repeats, and code holds plain text only. */
  ghost predicate Nests(nodes: seq<Node>, used: set<Delimiter>)
    decreases nodes
  {
    nodes == [] || (NodeNests(nodes[0], used) && Nests(nodes[1..], used))
  }

  ghost predicate NodeNests(node: Node, used: set<Delimiter>)
    decreases node
  {
    node.Marked? ==>
      node.mark !in used &&
      (node.mark.Tick? ==> |node.children| == 1 && node.children[0].Plain?) &&
      Nests(node.children, used + {node.mark})
  }

  lemma {:induction false} NestsAppend(a: seq<Node>, b: seq<Node>, used: set<Delimiter>)
    requires Nests(a, used) && Nests(b, used)
    ensures Nests(a + b, used)
  {
    if a == [] {
      assert a + b == b;
    } else {
      assert (a + b)[1..] == a[1..] + b;
      NestsAppend(a[1..], b, used);
    }
  }

  lemma {:induction false} NodeOfNests(p: Piece, bound: nat, used: set<Delimiter>)
    requires !p.Literal? && (p.MarkPiece? ==> |p.inner| < bound) && PieceNests(p, used)
    ensures NodeNests(NodeOf(p, bound), used)
    decreases bound, 0, 0
  {
    if p.MarkPiece? {
      if p.delimiter.Tick? {
        assert Nests([Plain(p.inner)], used + {Tick}) by { assert [Plain(p.inner)][1..] == []; }
      } else {
        TreeNests(p.inner, used + {p.delimiter});
      }
    }
  }

  lemma OnePlainNests(plain: string, used: set<Delimiter>)
    ensures Nests([Plain(plain)], used)
  {
    var one := [Plain(plain)];
    assert one[1..] == [];
    assert NodeNests(one[0], used);
  }

  lemma FlushedNests(plain: string, node: Node, later: seq<Node>, used: set<Delimiter>)
    requires NodeNests(node, used) && Nests(later, used)
    ensures Nests(Flush(plain) + [node] + later, used) && Nests(Flush(plain), used)
  {
    assert Nests([node], used) by { assert [node][1..] == []; }
    if plain != "" { OnePlainNests(plain, used); }
    NestsAppend(Flush(plain), [node], used);
    NestsAppend(Flush(plain) + [node], later, used);
  }

  lemma {:induction false} BuildNests(pieces: seq<Piece>, plain: string, bound: nat, used: set<Delimiter>)
    requires Within(pieces, bound) && forall i :: 0 <= i < |pieces| ==> PieceNests(pieces[i], used)
    ensures Nests(Build(pieces, plain, bound), used)
    decreases bound, 0, |pieces|
  {
    if pieces == [] {
      FlushedNests(plain, Plain(""), [], used);
    } else if pieces[0].Literal? {
      BuildNests(pieces[1..], plain + [pieces[0].c], bound, used);
    } else {
      NodeOfNests(pieces[0], bound, used);
      BuildNests(pieces[1..], "", bound, used);
      FlushedNests(plain, NodeOf(pieces[0], bound), Build(pieces[1..], "", bound), used);
    }
  }

  lemma {:induction false} TreeNests(text: string, used: set<Delimiter>)
    requires Avoids(text, used)
    ensures Nests(Tree(text), used)
    decreases |text|, 1, 0
  {
    PiecesNest(text, used);
    BuildNests(Pieces(text), "", |text|, used);
  }

  function Count(marks: seq<Mark>, m: Mark): nat {
    if marks == [] then 0 else Count(marks[..|marks| - 1], m) + if marks[|marks| - 1] == m then 1 else 0
  }

  lemma CountAppend(marks: seq<Mark>, mark: Mark, m: Mark)
    ensures Count(marks + [mark], m) == Count(marks, m) + if mark == m then 1 else 0
  {
    assert (marks + [mark])[..|marks|] == marks;
  }

  lemma {:induction false} CountsAddUp(marks: seq<Mark>)
    ensures |marks| == Count(marks, Bold) + Count(marks, Italic) + Count(marks, CodeMark) + Count(marks, Strike)
  {
    if marks != [] { CountsAddUp(marks[..|marks| - 1]); }
  }

  function One(b: bool): nat { if b then 1 else 0 }

  /** The marks given so far are those of the delimiters used so far. */
  ghost predicate Carries(marks: seq<Mark>, used: set<Delimiter>) {
    Count(marks, Bold) == One(Stars in used) && Count(marks, Strike) == One(Tildes in used) &&
    Count(marks, CodeMark) == One(Tick in used) &&
    Count(marks, Italic) == One(Star in used) + One(Underscore in used)
  }

  lemma CarriesMore(marks: seq<Mark>, used: set<Delimiter>, d: Delimiter)
    requires Carries(marks, used) && d !in used
    ensures Carries(marks + [MarkOf(d)], used + {d})
  {
    forall m ensures Count(marks + [MarkOf(d)], m) == Count(marks, m) + if MarkOf(d) == m then 1 else 0 {
      CountAppend(marks, MarkOf(d), m);
    }
  }

  /** Bold, strike and code at most once each, italic at most twice (`*` and `_`), code innermost. */
  ghost predicate BoundedMarks(marks: seq<Mark>) {
    Count(marks, Bold) <= 1 && Count(marks, Strike) <= 1 && Count(marks, CodeMark) <= 1 && Count(marks, Italic) <= 2 &&
    |marks| <= 5 && forall i :: 0 <= i < |marks| - 1 ==> marks[i] != CodeMark
  }

  lemma {:induction false} CountOfAbsent(marks: seq<Mark>, m: Mark)
    requires Count(marks, m) == 0
    ensures m !in marks
  {
    if marks != [] {
      CountOfAbsent(marks[..|marks| - 1], m);
      assert marks == marks[..|marks| - 1] + [marks[|marks| - 1]];
    }
  }

  lemma CarriedIsBounded(marks: seq<Mark>, used: set<Delimiter>)
    requires Carries(marks, used) && (Tick in used ==> marks != [] && Count(marks[..|marks| - 1], CodeMark) == 0)
    ensures BoundedMarks(marks)
  {
    CountsAddUp(marks);
    if Tick in used { CountOfAbsent(marks[..|marks| - 1], CodeMark); } else { CountOfAbsent(marks, CodeMark); }
    forall i | 0 <= i < |marks| - 1 ensures marks[i] != CodeMark {
      if Tick in used { assert marks[i] == marks[..|marks| - 1][i]; }
    }
  }

  ghost predicate AllBounded(spans: seq<Span>) {
    forall i :: 0 <= i < |spans| ==> BoundedMarks(spans[i].marks)
  }

  lemma {:induction false} FlattenBounded(nodes: seq<Node>, marks: seq<Mark>, used: set<Delimiter>)
    requires Nests(nodes, used) && Carries(marks, used) && Tick !in used
    ensures AllBounded(Flatten(nodes, marks))
    decreases nodes, 1
  {
    if nodes != [] {
      FlattenNodeBounded(nodes[0], marks, used);
      FlattenBounded(nodes[1..], marks, used);
    }
  }

  lemma CodeBounded(text: string, marks: seq<Mark>, used: set<Delimiter>)
    requires Carries(marks, used) && Tick !in used
    ensures AllBounded(Flatten([Plain(text)], marks + [CodeMark]))
  {
    CarriesMore(marks, used, Tick);
    assert (marks + [CodeMark])[..|marks|] == marks;
    CarriedIsBounded(marks + [CodeMark], used + {Tick});
    assert [Plain(text)][1..] == [];
  }

  lemma {:induction false} FlattenNodeBounded(node: Node, marks: seq<Mark>, used: set<Delimiter>)
    requires NodeNests(node, used) && Carries(marks, used) && Tick !in used
    ensures AllBounded(FlattenNode(node, marks))
    decreases node, 0
  {
    match node
    case Marked(d, children) =>
      if d.Tick? {
        CodeBounded(children[0].text, marks, used);
        assert children == [Plain(children[0].text)];
      } else {
        CarriesMore(marks, used, d);
        FlattenBounded(children, marks + [MarkOf(d)], used + {d});
      }
    case _ => CarriedIsBounded(marks, used);
  }

  /** No span of any line carries more than five marks, and code is only ever the last of them. */
  lemma MarksAreBounded(text: string)
    ensures AllBounded(Spans(text))
  {
    TreeNests(text, {});
    FlattenBounded(Tree(text), [], {});
  }

  // ---------------------------------------------------------------- no span is empty

  ghost predicate Solid(nodes: seq<Node>)
    decreases nodes
  {
    nodes == [] || (SolidNode(nodes[0]) && Solid(nodes[1..]))
  }

  ghost predicate SolidNode(node: Node)
    decreases node
  {
    match node
    case Plain(text) => text != ""
    case Link(caption, href) => href != ""
    case Marked(_, children) => children != [] && Solid(children)
  }

  lemma {:induction false} SolidAppend(a: seq<Node>, b: seq<Node>)
    requires Solid(a) && Solid(b)
    ensures Solid(a + b)
  {
    if a == [] {
      assert a + b == b;
    } else {
      assert (a + b)[1..] == a[1..] + b;
      SolidAppend(a[1..], b);
    }
  }

  predicate SolidPiece(p: Piece) {
    match p
    case Literal(_) => true
    case LinkPiece(_, href) => href != ""
    case MarkPiece(_, inner) => inner != ""
  }

  lemma {:induction false} PiecesAreSolid(rest: string)
    ensures forall i :: 0 <= i < |Pieces(rest)| ==> SolidPiece(Pieces(rest)[i])
  {
    if rest != "" { PiecesAreSolid(rest[|Write(PieceAt(rest))|..]); }
  }

  lemma {:induction false} NodeOfIsSolid(p: Piece, bound: nat)
    requires !p.Literal? && (p.MarkPiece? ==> |p.inner| < bound) && SolidPiece(p)
    ensures SolidNode(NodeOf(p, bound))
    decreases bound, 0, 0
  {
    if p.MarkPiece? {
      if p.delimiter.Tick? {
        assert [Plain(p.inner)][1..] == [];
      } else {
        TreeIsSolid(p.inner);
      }
    }
  }

  lemma OnePlainIsSolid(plain: string)
    requires plain != ""
    ensures Solid([Plain(plain)])
  {
    var one := [Plain(plain)];
    assert one[1..] == [];
    assert SolidNode(one[0]);
  }

  lemma FlushedSolid(plain: string, node: Node, later: seq<Node>)
    requires SolidNode(node) && Solid(later)
    ensures Solid(Flush(plain) + [node] + later) && Solid(Flush(plain))
  {
    assert Solid([node]) by { assert [node][1..] == []; }
    if plain != "" { OnePlainIsSolid(plain); }
    SolidAppend(Flush(plain), [node]);
    SolidAppend(Flush(plain) + [node], later);
  }

  lemma {:induction false} BuildIsSolid(pieces: seq<Piece>, plain: string, bound: nat)
    requires Within(pieces, bound) && forall i :: 0 <= i < |pieces| ==> SolidPiece(pieces[i])
    ensures Solid(Build(pieces, plain, bound))
    decreases bound, 0, |pieces|
  {
    if pieces == [] {
      FlushedSolid(plain, Plain("-"), []);
    } else if pieces[0].Literal? {
      BuildIsSolid(pieces[1..], plain + [pieces[0].c], bound);
    } else {
      NodeOfIsSolid(pieces[0], bound);
      BuildIsSolid(pieces[1..], "", bound);
      FlushedSolid(plain, NodeOf(pieces[0], bound), Build(pieces[1..], "", bound));
    }
  }

  lemma {:induction false} TreeIsSolid(text: string)
    ensures Solid(Tree(text)) && (text != "" ==> Tree(text) != [])
    decreases |text|, 1, 0
  {
    PiecesAreSolid(text);
    BuildIsSolid(Pieces(text), "", |text|);
    ParseIsLossless(text);
  }

  ghost predicate NoneEmpty(spans: seq<Span>) {
    forall i :: 0 <= i < |spans| ==> spans[i].text != ""
  }

  lemma {:induction false} FlattenSolid(nodes: seq<Node>, marks: seq<Mark>)
    requires Solid(nodes)
    ensures NoneEmpty(Flatten(nodes, marks)) && (nodes != [] ==> Flatten(nodes, marks) != [])
    decreases nodes, 1
  {
    if nodes != [] {
      FlattenNodeSolid(nodes[0], marks);
      FlattenSolid(nodes[1..], marks);
    }
  }

  lemma {:induction false} FlattenNodeSolid(node: Node, marks: seq<Mark>)
    requires SolidNode(node)
    ensures NoneEmpty(FlattenNode(node, marks)) && FlattenNode(node, marks) != []
    decreases node, 0
  {
    if node.Marked? { FlattenSolid(node.children, marks + [MarkOf(node.mark)]); }
  }

  /** A line gives no spans exactly when it is empty, and no span it gives is empty. */
  lemma SpansAreSolid(text: string)
    ensures NoneEmpty(Spans(text)) && (Spans(text) == [] <==> text == "")
  {
    TreeIsSolid(text);
    FlattenSolid(Tree(text), []);
    if text == "" { assert Pieces(text) == []; }
  }

  // ---------------------------------------------------------------- plain lines

  predicate Formatted(span: Span) {
    span.marks != [] || span.href.Some?
  }

  /** Some span has a mark or an address. */
  predicate HasFormatting(text: string) {
    exists i :: 0 <= i < |Spans(text)| && Formatted(Spans(text)[i])
  }

  ghost predicate SomeFormatted(spans: seq<Span>) {
    exists i :: 0 <= i < |spans| && Formatted(spans[i])
  }

  predicate AllLiteral(pieces: seq<Piece>) {
    forall i :: 0 <= i < |pieces| ==> pieces[i].Literal?
  }

  lemma {:induction false} LiteralsRunTogether(pieces: seq<Piece>, plain: string, bound: nat)
    requires Within(pieces, bound) && AllLiteral(pieces)
    ensures Build(pieces, plain, bound) == Flush(plain + WriteAll(pieces))
    decreases |pieces|
  {
    if pieces == [] {
      assert plain + "" == plain;
    } else {
      LiteralsRunTogether(pieces[1..], plain + [pieces[0].c], bound);
      assert plain + [pieces[0].c] + WriteAll(pieces[1..]) == plain + ([pieces[0].c] + WriteAll(pieces[1..]));
    }
  }

  lemma NodeIsFormatted(p: Piece, bound: nat)
    requires !p.Literal? && (p.MarkPiece? ==> |p.inner| < bound) && SolidPiece(p)
    ensures SomeFormatted(FlattenNode(NodeOf(p, bound), []))
  {
    var spans := FlattenNode(NodeOf(p, bound), []);
    NodeOfIsSolid(p, bound);
    FlattenNodeSolid(NodeOf(p, bound), []);
    if p.MarkPiece? {
      var node := NodeOf(p, bound);
      UnderMark(node.children, node.mark);
      assert Formatted(spans[0]);
    }
    assert Formatted(spans[0]);
  }

  lemma FormattedPart(a: seq<Span>, b: seq<Span>, c: seq<Span>)
    requires SomeFormatted(b) || SomeFormatted(c)
    ensures SomeFormatted(a + b + c)
  {
    if SomeFormatted(b) {
      var i :| 0 <= i < |b| && Formatted(b[i]);
      assert (a + b + c)[|a| + i] == b[i];
    } else {
      var i :| 0 <= i < |c| && Formatted(c[i]);
      assert (a + b + c)[|a| + |b| + i] == c[i];
    }
  }

  lemma {:induction false} MarksShow(pieces: seq<Piece>, plain: string, bound: nat)
    requires Within(pieces, bound) && !AllLiteral(pieces)
    requires forall i :: 0 <= i < |pieces| ==> SolidPiece(pieces[i])
    ensures SomeFormatted(Flatten(Build(pieces, plain, bound), []))
    decreases |pieces|
  {
    if pieces[0].Literal? {
      MarksShow(pieces[1..], plain + [pieces[0].c], bound);
    } else {
      var node, later := NodeOf(pieces[0], bound), Build(pieces[1..], "", bound);
      NodeIsFormatted(pieces[0], bound);
      PieceSpans(plain, node, later);
      FormattedPart(Flatten(Flush(plain), []), FlattenNode(node, []), Flatten(later, []));
    }
  }

  /** A line has no formatting exactly when it is one plain span of itself. */
  lemma PlainIff(text: string)
    requires text != ""
    ensures !HasFormatting(text) <==> Spans(text) == [Span(text, [], None)]
  {
    PiecesAreSolid(text);
    PiecesAreLossless(text);
    if AllLiteral(Pieces(text)) {
      LiteralsRunTogether(Pieces(text), "", |text|);
      assert "" + text == text;
      assert Tree(text) == [Plain(text)];
      FlattenOne(Plain(text));
    } else {
      MarksShow(Pieces(text), "", |text|);
    }
  }

  // ---------------------------------------------------------------- nothing is invented

  predicate Subsequence(a: string, b: string) {
    a == "" ||
    (b != "" && ((a[0] == b[0] && Subsequence(a[1..], b[1..])) || Subsequence(a, b[1..])))
  }

  lemma {:induction false} SubsequenceAfter(a: string, skipped: string, b: string)
    requires Subsequence(a, b)
    ensures Subsequence(a, skipped + b)
  {
    if skipped == "" {
      assert skipped + b == b;
    } else {
      assert (skipped + b)[1..] == skipped[1..] + b;
      SubsequenceAfter(a, skipped[1..], b);
    }
  }

  lemma {:induction false} SubsequenceAppend(a: string, b: string, c: string, d: string)
    requires Subsequence(a, b) && Subsequence(c, d)
    ensures Subsequence(a + c, b + d)
    decreases |b|
  {
    if a == "" {
      assert a + c == c;
      SubsequenceAfter(c, b, d);
    } else {
      assert (b + d)[1..] == b[1..] + d;
      if a[0] == b[0] && Subsequence(a[1..], b[1..]) {
        assert (a + c)[1..] == a[1..] + c;
        SubsequenceAppend(a[1..], b[1..], c, d);
      } else {
        SubsequenceAppend(a, b[1..], c, d);
      }
    }
  }

  lemma {:induction false} SubsequenceSelf(a: string)
    ensures Subsequence(a, a)
  {
    if a != "" { SubsequenceSelf(a[1..]); }
  }

  /** Text between two other texts. */
  lemma SubsequenceWithin(a: string, before: string, b: string, after: string)
    requires Subsequence(a, b)
    ensures Subsequence(a, before + b + after)
  {
    SubsequenceAfter(a, before, b);
    SubsequenceAppend(a, before + b, "", after);
    assert a + "" == a;
  }

  function Shown(spans: seq<Span>): string {
    if spans == [] then "" else spans[0].text + Shown(spans[1..])
  }

  lemma {:induction false} ShownAppend(a: seq<Span>, b: seq<Span>)
    ensures Shown(a + b) == Shown(a) + Shown(b)
  {
    if a == [] {
      assert a + b == b;
    } else {
      assert (a + b)[1..] == a[1..] + b;
      ShownAppend(a[1..], b);
    }
  }

  lemma {:induction false} ShownIsPrinted(nodes: seq<Node>, marks: seq<Mark>)
    ensures Subsequence(Shown(Flatten(nodes, marks)), Print(nodes))
    decreases nodes, 1
  {
    if nodes != [] {
      NodeShownIsPrinted(nodes[0], marks);
      ShownIsPrinted(nodes[1..], marks);
      ShownAppend(FlattenNode(nodes[0], marks), Flatten(nodes[1..], marks));
      SubsequenceAppend(Shown(FlattenNode(nodes[0], marks)), PrintNode(nodes[0]),
                        Shown(Flatten(nodes[1..], marks)), Print(nodes[1..]));
    }
  }

  lemma ShownOne(span: Span)
    ensures Shown([span]) == span.text
  {
    assert [span][1..] == [];
    assert span.text + "" == span.text;
  }

  lemma {:induction false} NodeShownIsPrinted(node: Node, marks: seq<Mark>)
    ensures Subsequence(Shown(FlattenNode(node, marks)), PrintNode(node))
    decreases node, 0
  {
    match node
    case Plain(text) =>
      ShownOne(Span(text, marks, None));
      SubsequenceSelf(text);
    case Link(caption, href) =>
      var text := if caption != "" then caption else href;
      ShownOne(Span(text, marks, Some(href)));
      SubsequenceSelf(text);
      assert PrintNode(node) == "[" + caption + ("](" + href + ")");
      assert PrintNode(node) == ("[" + caption + "](") + href + ")";
      if caption != "" { SubsequenceWithin(text, "[", caption, "](" + href + ")"); }
      else { SubsequenceWithin(text, "[" + caption + "](", href, ")"); }
    case Marked(d, children) =>
      ShownIsPrinted(children, marks + [MarkOf(d)]);
      SubsequenceWithin(Shown(FlattenNode(node, marks)), Sign(d), Print(children), Sign(d));
  }

  /** What is shown is what was typed with characters left out, in order: nothing is invented. */
  lemma NothingIsInvented(text: string)
    ensures Subsequence(Shown(Spans(text)), text)
  {
    ParseIsLossless(text);
    ShownIsPrinted(Tree(text), []);
  }

  // ---------------------------------------------------------------- marks are read back

  predicate PlainChar(c: char) {
    c !in "*_~`["
  }

  /** A node the editor writes on purpose: its own delimiter first comes back at its end. */
  ghost predicate CleanNode(node: Node)
    decreases node
  {
    match node
    case Plain(text) => text != "" && forall i :: 0 <= i < |text| ==> PlainChar(text[i])
    case Link(caption, href) => ']' !in caption && href != "" && AddressEnd(href) == |href|
    case Marked(d, children) =>
      Print(children) != "" &&
      IndexOf(Print(children) + Sign(d), Sign(d)) == Some(|Print(children)|) &&
      (d.Star? ==> Print(children)[0] != '*') &&
      (if d.Tick? then |children| == 1 && children[0].Plain? else Clean(children))
  }

  /** Clean nodes, with no two runs of plain text side by side. */
  ghost predicate Clean(nodes: seq<Node>)
    decreases nodes
  {
    nodes == [] ||
    (CleanNode(nodes[0]) && Clean(nodes[1..]) && (nodes[0].Plain? && |nodes| > 1 ==> !nodes[1].Plain?))
  }

  function Literals(text: string): (r: seq<Piece>)
    ensures |r| == |text| && forall i :: 0 <= i < |r| ==> r[i] == Literal(text[i])
  {
    seq(|text|, i requires 0 <= i < |text| => Literal(text[i]))
  }

  function CutNode(node: Node): seq<Piece> {
    match node
    case Plain(text) => Literals(text)
    case Link(caption, href) => [LinkPiece(caption, href)]
    case Marked(d, children) => [MarkPiece(d, Print(children))]
  }

  function Cut(nodes: seq<Node>): seq<Piece> {
    if nodes == [] then [] else CutNode(nodes[0]) + Cut(nodes[1..])
  }

  lemma {:induction false} IndexOfExtends(s: string, sign: string, more: string)
    requires sign != "" && IndexOf(s, sign).Some?
    ensures IndexOf(s + more, sign) == IndexOf(s, sign)
  {
    PrefixExtends(s, sign, more);
    if !(sign <= s) {
      IndexOfExtends(s[1..], sign, more);
      assert (s + more)[1..] == s[1..] + more;
    }
  }

  lemma PrefixExtends(s: string, sign: string, more: string)
    requires |sign| <= |s|
    ensures sign <= s + more <==> sign <= s
  {
    assert (s + more)[..|sign|] == s[..|sign|];
  }

  lemma LiteralAt(s: string)
    requires s != "" && PlainChar(s[0])
    ensures PieceAt(s) == Literal(s[0])
  {
    forall d: Delimiter ensures !Opens(d, s) {
      assert Sign(d)[0] in "*_~`";
    }
    assert FirstDelimiter(s).None?;
  }

  lemma LiteralFirst(c: char, rest: string)
    requires PlainChar(c)
    ensures Pieces([c] + rest) == [Literal(c)] + Pieces(rest)
  {
    LiteralAt([c] + rest);
    PieceFirst(Literal(c), rest, [c] + rest);
  }

  lemma LiteralsFirst(c: char, tail: string)
    ensures Literals([c] + tail) == [Literal(c)] + Literals(tail)
  {
  }

  lemma LiteralBefore(c: char, s: string, own: seq<Piece>, later: seq<Piece>)
    requires PlainChar(c) && Pieces(s) == own + later
    ensures Pieces([c] + s) == [Literal(c)] + own + later
  {
    LiteralFirst(c, s);
  }

  lemma {:induction false} LiteralsCut(text: string, rest: string)
    requires forall i :: 0 <= i < |text| ==> PlainChar(text[i])
    ensures Pieces(text + rest) == Literals(text) + Pieces(rest)
  {
    if text == "" {
      assert text + rest == rest;
    } else {
      LiteralsCut(text[1..], rest);
      LiteralBefore(text[0], text[1..] + rest, Literals(text[1..]), Pieces(rest));
      LiteralsFirst(text[0], text[1..]);
      SplitFirstChar(text, rest);
    }
  }

  lemma SplitFirstChar(text: string, rest: string)
    requires text != ""
    ensures [text[0]] + text[1..] == text
    ensures [text[0]] + (text[1..] + rest) == text + rest
  {
  }

  lemma {:induction false} AddressEndStops(href: string, rest: string)
    requires AddressEnd(href) == |href|
    ensures AddressEnd(href + (")" + rest)) == |href|
  {
    if href == "" {
      assert href + (")" + rest) == ")" + rest;
    } else {
      assert (href + (")" + rest))[1..] == href[1..] + (")" + rest);
      AddressEndStops(href[1..], rest);
    }
  }

  lemma LinkParts(s: string, t: string, u: string, caption: string, href: string)
    requires s == "[" + t && |caption| + 2 <= |t| && t[..|caption|] == caption
    requires Find(t, ']') == |caption| && t[|caption|..][..2] == "](" && t[|caption| + 2..] == u
    requires AddressEnd(u) == |href| && href != "" && |href| < |u| && u[..|href|] == href && u[|href|] == ')'
    ensures LinkAt(s) == Some((caption, href))
  {
    assert s[1..] == t;
    assert "](" <= t[|caption|..];
  }

  lemma AddressParts(u: string, href: string, rest: string)
    requires u == href + (")" + rest) && href != "" && AddressEnd(href) == |href|
    ensures AddressEnd(u) == |href| && |href| < |u| && u[..|href|] == href && u[|href|] == ')'
  {
    AddressEndStops(href, rest);
  }

  lemma CaptionParts(t: string, caption: string, u: string)
    requires t == caption + ("](" + u) && ']' !in caption
    ensures Find(t, ']') == |caption| && |caption| + 2 <= |t| && t[..|caption|] == caption
    ensures t[|caption|..][..2] == "](" && t[|caption| + 2..] == u
  {
    FindBefore(caption, ']', "](" + u);
    assert t[|caption|..] == "](" + u;
  }

  lemma LinkReads(caption: string, href: string, rest: string)
    requires ']' !in caption && href != "" && AddressEnd(href) == |href|
    ensures LinkAt("[" + (caption + ("](" + (href + (")" + rest))))) == Some((caption, href))
  {
    var u := href + (")" + rest);
    var t := caption + ("](" + u);
    AddressParts(u, href, rest);
    CaptionParts(t, caption, u);
    LinkParts("[" + t, t, u, caption, href);
  }

  lemma PieceFirst(p: Piece, rest: string, s: string)
    requires s == Write(p) + rest && PieceAt(s) == p
    ensures Pieces(s) == [p] + Pieces(rest)
  {
    assert s[|Write(p)|..] == rest;
  }

  lemma LinkCut(caption: string, href: string, rest: string)
    requires CleanNode(Link(caption, href))
    ensures Pieces(Write(LinkPiece(caption, href)) + rest) == [LinkPiece(caption, href)] + Pieces(rest)
  {
    var s := Write(LinkPiece(caption, href)) + rest;
    assert s == "[" + (caption + ("](" + (href + (")" + rest))));
    LinkReads(caption, href, rest);
    PieceFirst(LinkPiece(caption, href), rest, s);
  }

  /** The delimiter at the start of a written mark is the one that is taken. */
  lemma SignOpens(d: Delimiter, inner: string, rest: string)
    requires inner != "" && (d.Star? ==> inner[0] != '*')
    ensures FirstDelimiter(Sign(d) + (inner + rest)) == Some(d)
    ensures LinkAt(Sign(d) + (inner + rest)).None?
  {
    var s := Sign(d) + (inner + rest);
    assert s[0] == Sign(d)[0];
    assert Sign(d) <= s;
    if d.Star? { assert s[1] == inner[0]; }
  }

  lemma AfterSign(s: string, sign: string, inner: string, rest: string)
    requires s == sign + (inner + (sign + rest))
    ensures sign <= s && s[|sign|..] == inner + sign + rest
  {
    assert inner + (sign + rest) == inner + sign + rest;
  }

  lemma InnerReads(s: string, sign: string, inner: string, rest: string)
    requires sign != "" && inner != "" && IndexOf(inner + sign, sign) == Some(|inner|)
    requires sign <= s && s[|sign|..] == inner + sign + rest
    ensures InnerAt(s, sign) == Some(inner)
  {
    IndexOfExtends(inner + sign, sign, rest);
    assert s[|sign|..][..|inner|] == inner;
  }

  lemma MarkReads(d: Delimiter, inner: string, rest: string)
    requires inner != "" && (d.Star? ==> inner[0] != '*')
    requires IndexOf(inner + Sign(d), Sign(d)) == Some(|inner|)
    ensures PieceAt(Sign(d) + (inner + (Sign(d) + rest))) == MarkPiece(d, inner)
  {
    var s := Sign(d) + (inner + (Sign(d) + rest));
    SignOpens(d, inner, Sign(d) + rest);
    AfterSign(s, Sign(d), inner, rest);
    InnerReads(s, Sign(d), inner, rest);
  }

  lemma WriteMark(d: Delimiter, inner: string, rest: string)
    ensures Write(MarkPiece(d, inner)) + rest == Sign(d) + (inner + (Sign(d) + rest))
  {
  }

  lemma MarkCut(d: Delimiter, inner: string, rest: string)
    requires inner != "" && (d.Star? ==> inner[0] != '*')
    requires IndexOf(inner + Sign(d), Sign(d)) == Some(|inner|)
    ensures Pieces(Write(MarkPiece(d, inner)) + rest) == [MarkPiece(d, inner)] + Pieces(rest)
  {
    WriteMark(d, inner, rest);
    MarkReads(d, inner, rest);
    PieceFirst(MarkPiece(d, inner), rest, Write(MarkPiece(d, inner)) + rest);
  }

  lemma NodeCut(node: Node, rest: string)
    requires CleanNode(node)
    ensures Pieces(PrintNode(node) + rest) == CutNode(node) + Pieces(rest)
  {
    match node
    case Plain(text) => LiteralsCut(text, rest);
    case Link(caption, href) => LinkCut(caption, href, rest);
    case Marked(d, children) => MarkCut(d, Print(children), rest);
  }

  lemma {:induction false} PrintIsCut(nodes: seq<Node>)
    requires Clean(nodes)
    ensures Pieces(Print(nodes)) == Cut(nodes)
  {
    if nodes != [] {
      NodeCut(nodes[0], Print(nodes[1..]));
      PrintIsCut(nodes[1..]);
    }
  }

  lemma {:induction false} BuildLiterals(text: string, later: seq<Piece>, plain: string, bound: nat)
    requires Within(later, bound)
    ensures Within(Literals(text) + later, bound)
    ensures Build(Literals(text) + later, plain, bound) == Build(later, plain + text, bound)
    decreases |text|
  {
    var all := Literals(text) + later;
    if text == "" {
      assert all == later && plain + text == plain;
    } else {
      assert all[1..] == Literals(text[1..]) + later;
      BuildLiterals(text[1..], later, plain + [text[0]], bound);
      assert plain + [text[0]] + text[1..] == plain + text;
    }
  }

  lemma BuildFlushes(pieces: seq<Piece>, plain: string, bound: nat)
    requires Within(pieces, bound) && plain != "" && (pieces != [] ==> !pieces[0].Literal?)
    ensures Build(pieces, plain, bound) == [Plain(plain)] + Build(pieces, "", bound)
  {
    if pieces != [] {
      var node, later := NodeOf(pieces[0], bound), Build(pieces[1..], "", bound);
      assert [Plain(plain)] + [node] + later == [Plain(plain)] + ([] + [node] + later);
    }
  }

  lemma CutStart(nodes: seq<Node>)
    requires Clean(nodes) && nodes != []
    ensures Cut(nodes) != [] && (Cut(nodes)[0].Literal? <==> nodes[0].Plain?)
  {
  }

  lemma {:induction false} CutBuilds(nodes: seq<Node>, bound: nat)
    requires Clean(nodes) && Within(Cut(nodes), bound)
    ensures Build(Cut(nodes), "", bound) == nodes
    decreases bound, 0, |nodes|
  {
    if nodes != [] {
      var later := Cut(nodes[1..]);
      WithinLater(CutNode(nodes[0]), later, bound);
      CutBuilds(nodes[1..], bound);
      if |nodes| > 1 { CutStart(nodes[1..]); }
      match nodes[0]
      case Plain(text) =>
        PlainBuilds(text, later, bound);
      case Link(caption, href) => FirstPieceBuilds(LinkPiece(caption, href), later, bound);
      case Marked(d, children) =>
        FirstPieceBuilds(MarkPiece(d, Print(children)), later, bound);
        MarkedBuilds(d, children, bound);
    }
  }

  lemma PlainBuilds(text: string, later: seq<Piece>, bound: nat)
    requires Within(later, bound) && text != "" && (later != [] ==> !later[0].Literal?)
    ensures Within(Literals(text) + later, bound)
    ensures Build(Literals(text) + later, "", bound) == [Plain(text)] + Build(later, "", bound)
  {
    BuildLiterals(text, later, "", bound);
    assert "" + text == text;
    BuildFlushes(later, text, bound);
  }

  lemma WithinLater(first: seq<Piece>, later: seq<Piece>, bound: nat)
    requires Within(first + later, bound)
    ensures Within(later, bound) && Within(first, bound)
  {
    forall i | 0 <= i < |later| && later[i].MarkPiece? ensures |later[i].inner| < bound {
      assert (first + later)[|first| + i] == later[i];
    }
    forall i | 0 <= i < |first| && first[i].MarkPiece? ensures |first[i].inner| < bound {
      assert (first + later)[i] == first[i];
    }
  }

  lemma FirstPieceBuilds(p: Piece, later: seq<Piece>, bound: nat)
    requires Within([p] + later, bound) && Within(later, bound) && !p.Literal?
    ensures p.MarkPiece? ==> |p.inner| < bound
    ensures Build([p] + later, "", bound) == [NodeOf(p, bound)] + Build(later, "", bound)
  {
    var all := [p] + later;
    assert all[0] == p && all[1..] == later;
  }

  lemma {:induction false} MarkedBuilds(d: Delimiter, children: seq<Node>, bound: nat)
    requires CleanNode(Marked(d, children)) && |Print(children)| < bound
    ensures NodeOf(MarkPiece(d, Print(children)), bound) == Marked(d, children)
    decreases bound, 0, 0
  {
    if d.Tick? {
      PrintOne(children[0]);
      assert children == [children[0]];
    } else {
      MarksReadBack(children);
    }
  }

  /** Marks and links written around plain text are read back as exactly those marks and links. */
  lemma {:induction false} MarksReadBack(nodes: seq<Node>)
    requires Clean(nodes)
    ensures Tree(Print(nodes)) == nodes
    decreases |Print(nodes)|, 1, 0
  {
    PrintIsCut(nodes);
    CutBuilds(nodes, |Print(nodes)|);
  }
}
