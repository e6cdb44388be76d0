/**
 The scanner for marks and links in one line, and the spans it gives.

 The scanner is specified by the tree of marks it sees in a line (`Tree`); the spans are that tree
 flattened. Printing the tree gives the line back, which is what makes the scanner lossless.
 */
module Inline {
  import opened Text
  import opened Markdown

  datatype Mark = Bold | Italic | CodeMark | Strike

  datatype Span = Span(text: string, marks: seq<Mark>, href: Option<string>)

  /** The five delimiters. Each opens and closes with the same sign. */
  datatype Delimiter = Stars | Tildes | Tick | Star | Underscore

  function Sign(d: Delimiter): (s: string)
    ensures 1 <= |s| <= 2
  {
    match d case Stars => "**" case Tildes => "~~" case Tick => "`" case Star => "*" case Underscore => "_"
  }

  function MarkOf(d: Delimiter): Mark {
    match d case Stars => Bold case Tildes => Strike case Tick => CodeMark case Star | Underscore => Italic
  }

  /** One step of the scanner: a link, a mark around some text, or a literal character. */
  datatype Piece =
    | Literal(c: char)
    | LinkPiece(caption: string, href: string)
    | MarkPiece(delimiter: Delimiter, inner: string)

  datatype Node =
    | Plain(text: string)
    | Link(caption: string, href: string)
    | Marked(mark: Delimiter, children: seq<Node>)

  // ---------------------------------------------------------------- what a position opens

  /** `s.indexOf(sign)`. */
  function IndexOf(s: string, sign: string): (r: Option<nat>)
    requires sign != ""
    ensures r.Some? ==> r.value + |sign| <= |s| && s[r.value..r.value + |sign|] == sign
  {
    if sign <= s then Some(0)
    else if s == "" then None
    else match IndexOf(s[1..], sign) case Some(k) => Some(k + 1) case None => None
  }

  predicate Opens(d: Delimiter, rest: string) {
    Sign(d) <= rest && |rest| > |Sign(d)|
  }

  /** The first delimiter of the table that opens here: longest first. */
  function FirstDelimiter(rest: string): (r: Option<Delimiter>)
    ensures r.Some? ==> Opens(r.value, rest)
  {
    if Opens(Stars, rest) then Some(Stars)
    else if Opens(Tildes, rest) then Some(Tildes)
    else if Opens(Tick, rest) then Some(Tick)
    else if Opens(Star, rest) then Some(Star)
    else if Opens(Underscore, rest) then Some(Underscore)
    else None
  }

  lemma Wrapped(rest: string, sign: string, k: nat)
    requires sign <= rest && |sign| + k + |sign| <= |rest|
    requires rest[|sign|..][k..k + |sign|] == sign
    ensures rest[..|sign| * 2 + k] == sign + rest[|sign|..][..k] + sign
  {
  }

  /** What `sign`, opening here, closes around, if that is anything. */
  function InnerAt(rest: string, sign: string): (r: Option<string>)
    requires sign != "" && sign <= rest
    ensures r.Some? ==> r.value != "" && |sign| * 2 + |r.value| <= |rest|
  {
    match IndexOf(rest[|sign|..], sign)
    case None => None
    case Some(k) => if k == 0 then None else Some(rest[|sign|..][..k])
  }

  /** A delimiter that opens here and closes later around something. */
  function MarkedAt(rest: string): (r: Option<(Delimiter, string)>)
    ensures r.Some? ==> r.value.1 != "" && |Sign(r.value.0)| * 2 + |r.value.1| <= |rest|
  {
    match FirstDelimiter(rest)
    case None => None
    case Some(d) =>
      match InnerAt(rest, Sign(d))
      case None => None
      case Some(inner) => Some((d, inner))
  }

  lemma MarkedText(rest: string)
    requires MarkedAt(rest).Some?
    ensures var (d, inner) := MarkedAt(rest).value;
            rest[..|Sign(d)| * 2 + |inner|] == Sign(d) + inner + Sign(d)
  {
    var (d, inner) := MarkedAt(rest).value;
    Wrapped(rest, Sign(d), |inner|);
  }

  /** Index of the first character that ends a link's address, or the length. */
  function AddressEnd(s: string): (k: nat)
    ensures k <= |s|
    ensures forall i :: 0 <= i < k ==> s[i] != ')' && !IsSpace(s[i])
    ensures k < |s| ==> s[k] == ')' || IsSpace(s[k])
  {
    if s == "" || s[0] == ')' || IsSpace(s[0]) then 0 else 1 + AddressEnd(s[1..])
  }

  /** `[caption](href)` at the start of `rest`. */
  function LinkAt(rest: string): (r: Option<(string, string)>)
    ensures r.Some? ==> r.value.1 != "" && |r.value.0| + |r.value.1| + 4 <= |rest|
  {
    if !("[" <= rest) then None
    else
      var t := rest[1..];
      var k := Find(t, ']');
      if !("](" <= t[k..]) then None
      else
        var u := t[k + 2..];
        var e := AddressEnd(u);
        if e == 0 || e == |u| || u[e] != ')' then None else Some((t[..k], u[..e]))
  }

  lemma LinkText(rest: string)
    requires LinkAt(rest).Some?
    ensures var (caption, href) := LinkAt(rest).value;
            rest[..|caption| + |href| + 4] == "[" + caption + "](" + href + ")"
  {
    var t := rest[1..];
    var k := Find(t, ']');
    var u := t[k + 2..];
    var e := AddressEnd(u);
    assert t[k..k + 2] == t[k..][..2] == "](";
    assert rest[..k + e + 4] == [rest[0]] + t[..k] + t[k..k + 2] + u[..e] + [u[e]];
  }

  // ---------------------------------------------------------------- the pieces of a line

  /** How a piece is written in the line. */
  function Write(p: Piece): (s: string)
    ensures s != "" && (p.MarkPiece? ==> |p.inner| < |s|)
  {
    match p
    case Literal(c) => [c]
    case LinkPiece(caption, href) => "[" + caption + "](" + href + ")"
    case MarkPiece(d, inner) => Sign(d) + inner + Sign(d)
  }

  function PieceAt(rest: string): (p: Piece)
    requires rest != ""
    ensures |Write(p)| <= |rest|
  {
    match LinkAt(rest)
    case Some((caption, href)) => LinkPiece(caption, href)
    case None =>
      match MarkedAt(rest)
      case Some((d, inner)) => MarkPiece(d, inner)
      case None => Literal(rest[0])
  }

  lemma PieceText(rest: string)
    requires rest != ""
    ensures rest[..|Write(PieceAt(rest))|] == Write(PieceAt(rest))
  {
    if LinkAt(rest).Some? { LinkText(rest); } else if MarkedAt(rest).Some? { MarkedText(rest); }
  }

  predicate Within(pieces: seq<Piece>, bound: nat) {
    forall i :: 0 <= i < |pieces| && pieces[i].MarkPiece? ==> |pieces[i].inner| < bound
  }

  /** The line, cut into pieces from the left. */
  function Pieces(rest: string): (r: seq<Piece>)
    ensures Within(r, |rest|)
  {
    if rest == "" then []
    else
      var p := PieceAt(rest);
      [p] + Pieces(rest[|Write(p)|..])
  }

  function WriteAll(pieces: seq<Piece>): string {
    if pieces == [] then "" else Write(pieces[0]) + WriteAll(pieces[1..])
  }

  lemma WriteAllFirst(p: Piece, later: seq<Piece>)
    ensures WriteAll([p] + later) == Write(p) + WriteAll(later)
  {
    assert ([p] + later)[1..] == later;
  }

  lemma PiecesUnroll(rest: string)
    requires rest != ""
    ensures var n := |Write(PieceAt(rest))|;
            Pieces(rest) == [PieceAt(rest)] + Pieces(rest[n..]) && rest == Write(PieceAt(rest)) + rest[n..]
  {
    PieceText(rest);
    assert rest == rest[..|Write(PieceAt(rest))|] + rest[|Write(PieceAt(rest))|..];
  }

  /** Cutting loses nothing: the pieces, written one after another, are the line. */
  lemma {:induction false} PiecesAreLossless(rest: string)
    ensures WriteAll(Pieces(rest)) == rest
  {
    if rest != "" {
      var later := rest[|Write(PieceAt(rest))|..];
      PiecesUnroll(rest);
      PiecesAreLossless(later);
      WriteAllFirst(PieceAt(rest), Pieces(later));
    }
  }

  // ---------------------------------------------------------------- the tree of a line

  function Flush(plain: string): seq<Node> {
    if plain == "" then [] else [Plain(plain)]
  }

  /**
   Pieces put together: literal characters run together, and what a mark encloses is read in turn.
   `plain` is the run of literal characters still to be given out.
   */
  function Build(pieces: seq<Piece>, plain: string, ghost bound: nat): seq<Node>
    requires Within(pieces, bound)
    decreases bound, 0, |pieces|
  {
    if pieces == [] then Flush(plain)
    else if pieces[0].Literal? then Build(pieces[1..], plain + [pieces[0].c], bound)
    else Flush(plain) + [NodeOf(pieces[0], bound)] + Build(pieces[1..], "", bound)
  }

  /** Code is opaque; any other mark holds marks of its own. */
  function NodeOf(p: Piece, ghost bound: nat): Node
    requires !p.Literal? && (p.MarkPiece? ==> |p.inner| < bound)
    decreases bound, 0, 0
  {
    if p.LinkPiece? then Link(p.caption, p.href)
    else if p.delimiter.Tick? then Marked(Tick, [Plain(p.inner)])
    else Marked(p.delimiter, Tree(p.inner))
  }

  function Tree(text: string): seq<Node>
    decreases |text|, 1, 0
  {
    Build(Pieces(text), "", |text|)
  }

  function Flatten(nodes: seq<Node>, marks: seq<Mark>): seq<Span>
    decreases nodes
  {
    if nodes == [] then []
    else FlattenNode(nodes[0], marks) + Flatten(nodes[1..], marks)
  }

  function FlattenNode(node: Node, marks: seq<Mark>): seq<Span>
    decreases node
  {
    match node
    case Plain(text) => [Span(text, marks, None)]
    case Link(caption, href) => [Span(if caption != "" then caption else href, marks, Some(href))]
    case Marked(d, children) => Flatten(children, marks + [MarkOf(d)])
  }

  function Spans(text: string): seq<Span> {
    Flatten(Tree(text), [])
  }

  // ---------------------------------------------------------------- the scanner

  function Prefixed(mark: Mark, spans: seq<Span>): (r: seq<Span>)
    ensures |r| == |spans|
    ensures forall i :: 0 <= i < |r| ==> r[i] == spans[i].(marks := [mark] + spans[i].marks)
  {
    seq(|spans|, i requires 0 <= i < |spans| => spans[i].(marks := [mark] + spans[i].marks))
  }

  lemma {:induction false} FlattenAppend(a: seq<Node>, b: seq<Node>, marks: seq<Mark>)
    ensures Flatten(a + b, marks) == Flatten(a, marks) + Flatten(b, marks)
  {
    if a == [] {
      assert a + b == b;
    } else {
      assert (a + b)[1..] == a[1..] + b;
      FlattenAppend(a[1..], b, marks);
    }
  }

  lemma {:induction false} FlattenUnder(nodes: seq<Node>, mark: Mark, marks: seq<Mark>)
    ensures Flatten(nodes, [mark] + marks) == Prefixed(mark, Flatten(nodes, marks))
    decreases nodes, 1
  {
    if nodes != [] {
      FlattenNodeUnder(nodes[0], mark, marks);
      FlattenUnder(nodes[1..], mark, marks);
    }
  }

  lemma {:induction false} FlattenNodeUnder(node: Node, mark: Mark, marks: seq<Mark>)
    ensures FlattenNode(node, [mark] + marks) == Prefixed(mark, FlattenNode(node, marks))
    decreases node, 0
  {
    if node.Marked? {
      assert [mark] + marks + [MarkOf(node.mark)] == [mark] + (marks + [MarkOf(node.mark)]);
      FlattenUnder(node.children, mark, marks + [MarkOf(node.mark)]);
    }
  }

  lemma FlattenOne(node: Node)
    ensures Flatten([node], []) == FlattenNode(node, [])
  {
  }

  /** What one recognised piece adds, given that the literal run before it is handed out first. */
  lemma PieceSpans(plain: string, node: Node, later: seq<Node>)
    ensures Flatten(Flush(plain) + [node] + later, []) ==
              Flatten(Flush(plain), []) + FlattenNode(node, []) + Flatten(later, [])
  {
    FlattenAppend(Flush(plain) + [node], later, []);
    FlattenAppend(Flush(plain), [node], []);
    FlattenOne(node);
  }

  lemma UnderMark(nodes: seq<Node>, d: Delimiter)
    ensures FlattenNode(Marked(d, nodes), []) == Prefixed(MarkOf(d), Flatten(nodes, []))
  {
    var none: seq<Mark> := [];
    FlattenUnder(nodes, MarkOf(d), none);
    assert none + [MarkOf(d)] == [MarkOf(d)] + none;
  }

  lemma CodeSpans(inner: string)
    ensures FlattenNode(Marked(Tick, [Plain(inner)]), []) == [Span(inner, [CodeMark], None)]
  {
    var children := [Plain(inner)];
    assert children[1..] == [];
    assert Flatten(children, [CodeMark]) == FlattenNode(Plain(inner), [CodeMark]);
    var none: seq<Mark> := [];
    assert none + [CodeMark] == [CodeMark];
  }

  method FlushPlain(spans: seq<Span>, plain: string) returns (next: seq<Span>)
    ensures next == spans + Flatten(Flush(plain), [])
  {
    next := if plain != "" then spans + [Span(plain, [], None)] else spans;
    assert plain != "" ==> Flush(plain)[1..] == [];
  }

  /** The spans a link or a mark makes. */
  method PieceToSpans(p: Piece, ghost bound: nat) returns (spans: seq<Span>)
    requires !p.Literal? && (p.MarkPiece? ==> |p.inner| < bound)
    ensures spans == FlattenNode(NodeOf(p, bound), [])
    decreases bound, 0
  {
    match p
    case LinkPiece(caption, href) =>
      spans := [Span(if caption != "" then caption else href, [], Some(href))];
    case MarkPiece(d, inner) =>
      if d.Tick? {
        // Code is one plain span; its inside is not scanned.
        spans := [Span(inner, [CodeMark], None)];
        CodeSpans(inner);
      } else {
        var nested := ParseInline(inner);
        spans := Prefixed(MarkOf(d), nested);
        UnderMark(Tree(inner), d);
      }
  }

  /** The scanner's position: spans given out, literal characters held back, and what is to come. */
  ghost predicate Scanned(spans: seq<Span>, plain: string, pieces: seq<Piece>, text: string) {
    Within(pieces, |text|) && spans + Flatten(Build(pieces, plain, |text|), []) == Spans(text)
  }

  lemma TookPiece(spans: seq<Span>, plain: seq<Span>, piece: seq<Span>, later: seq<Span>)
    ensures spans + (plain + piece + later) == spans + plain + piece + later
  {
  }

  lemma ScannedPiece(spans: seq<Span>, plain: string, pieces: seq<Piece>, text: string)
    requires Scanned(spans, plain, pieces, text) && pieces != [] && !pieces[0].Literal?
    ensures Scanned(spans + Flatten(Flush(plain), []) + FlattenNode(NodeOf(pieces[0], |text|), []), "",
                    pieces[1..], text)
  {
    var node, later := NodeOf(pieces[0], |text|), Build(pieces[1..], "", |text|);
    PieceSpans(plain, node, later);
    TookPiece(spans, Flatten(Flush(plain), []), FlattenNode(node, []), Flatten(later, []));
  }

  lemma ScannedLiteral(spans: seq<Span>, plain: string, pieces: seq<Piece>, text: string)
    requires Scanned(spans, plain, pieces, text) && pieces != [] && pieces[0].Literal?
    ensures Scanned(spans, plain + [pieces[0].c], pieces[1..], text)
  {
  }

  /** What is given out so far and what is still to be read make the line's spans. */
  ghost predicate ScannedTo(spans: seq<Span>, plain: string, rest: string, text: string) {
    |rest| <= |text| && Scanned(spans, plain, Pieces(rest), text)
  }

  lemma NextPieces(rest: string, p: Piece, later: string)
    requires rest != "" && p == PieceAt(rest) && later == rest[|Write(p)|..]
    ensures Pieces(rest) == [p] + Pieces(later)
  {
  }

  lemma ScannedStart(text: string)
    ensures ScannedTo([], "", text, text)
  {
    assert [] + Flatten(Tree(text), []) == Spans(text);
  }

  lemma LiteralScanned(spans: seq<Span>, plain: string, rest: string, p: Piece, later: string, text: string)
    requires ScannedTo(spans, plain, rest, text) && rest != "" && p == PieceAt(rest) && later == rest[|Write(p)|..]
    requires p.Literal?
    ensures ScannedTo(spans, plain + [p.c], later, text)
  {
    NextPieces(rest, p, later);
    FirstLiteral(spans, plain, p, Pieces(later), text);
  }

  lemma FirstLiteral(spans: seq<Span>, plain: string, p: Piece, later: seq<Piece>, text: string)
    requires Scanned(spans, plain, [p] + later, text) && p.Literal?
    ensures Scanned(spans, plain + [p.c], later, text)
  {
    assert ([p] + later)[1..] == later;
    ScannedLiteral(spans, plain, [p] + later, text);
  }

  lemma PieceScanned(spans: seq<Span>, plain: string, next: seq<Span>, rest: string, p: Piece, later: string,
                     text: string)
    requires ScannedTo(spans, plain, rest, text) && rest != "" && p == PieceAt(rest) && later == rest[|Write(p)|..]
    requires !p.Literal? && (p.MarkPiece? ==> |p.inner| < |text|)
    requires next == spans + Flatten(Flush(plain), []) + FlattenNode(NodeOf(p, |text|), [])
    ensures ScannedTo(next, "", later, text)
  {
    NextPieces(rest, p, later);
    FirstPiece(spans, plain, next, p, Pieces(later), text);
  }

  lemma FirstPiece(spans: seq<Span>, plain: string, next: seq<Span>, p: Piece, later: seq<Piece>, text: string)
    requires Scanned(spans, plain, [p] + later, text)
    requires !p.Literal? && (p.MarkPiece? ==> |p.inner| < |text|)
    requires next == spans + Flatten(Flush(plain), []) + FlattenNode(NodeOf(p, |text|), [])
    ensures Scanned(next, "", later, text)
  {
    assert ([p] + later)[1..] == later;
    ScannedPiece(spans, plain, [p] + later, text);
  }

  lemma ScannedEnd(spans: seq<Span>, plain: string, text: string)
    requires ScannedTo(spans, plain, "", text)
    ensures spans + Flatten(Flush(plain), []) == Spans(text)
  {
  }

  /** The literal run held back, and then what the piece makes. */
  method GiveOut(before: seq<Span>, plain: string, p: Piece, ghost bound: nat) returns (spans: seq<Span>)
    requires !p.Literal? && (p.MarkPiece? ==> |p.inner| < bound)
    ensures spans == before + Flatten(Flush(plain), []) + FlattenNode(NodeOf(p, bound), [])
    decreases bound, 1
  {
    var flushed := FlushPlain(before, plain);
    var more := PieceToSpans(p, bound);
    spans := flushed + more;
  }

  /** The scanner: it gives the spans of the line's tree, for every line. */
  method ParseInline(text: string) returns (spans: seq<Span>)
    ensures spans == Spans(text)
    decreases |text|, 2
  {
    spans := [];
    var plain, index, rest := "", 0, text;
    ScannedStart(text);
    while index < |text|
      invariant index <= |text| && |rest| == |text| - index && ScannedTo(spans, plain, rest, text)
      decreases |text| - index
    {
      var p := PieceAt(rest);
      var later := rest[|Write(p)|..];
      if p.Literal? {
        LiteralScanned(spans, plain, rest, p, later, text);
        plain := plain + [p.c];
      } else {
        var next := GiveOut(spans, plain, p, |text|);
        PieceScanned(spans, plain, next, rest, p, later, text);
        spans, plain := next, "";
      }
      index, rest := index + |Write(p)|, later;
    }
    assert rest == "";
    ScannedEnd(spans, plain, text);
    spans := FlushPlain(spans, plain);
  }

  // ---------------------------------------------------------------- nothing is lost

  function Print(nodes: seq<Node>): string
    decreases nodes
  {
    if nodes == [] then "" else PrintNode(nodes[0]) + Print(nodes[1..])
  }

  function PrintNode(node: Node): string
    decreases node
  {
    match node
    case Plain(text) => text
    case Link(caption, href) => Write(LinkPiece(caption, href))
    case Marked(d, children) => Write(MarkPiece(d, Print(children)))
  }

  lemma PrintOne(node: Node)
    ensures Print([node]) == PrintNode(node)
  {
    assert [node][1..] == [];
  }

  lemma {:induction false} PrintAppend(a: seq<Node>, b: seq<Node>)
    ensures Print(a + b) == Print(a) + Print(b)
  {
    if a == [] {
      assert a + b == b;
    } else {
      assert (a + b)[1..] == a[1..] + b;
      PrintAppend(a[1..], b);
    }
  }

  lemma PrintFlushed(plain: string, node: Node, later: seq<Node>)
    ensures Print(Flush(plain) + [node] + later) == plain + PrintNode(node) + Print(later)
    ensures Print(Flush(plain)) == plain
  {
    PrintAppend(Flush(plain) + [node], later);
    PrintAppend(Flush(plain), [node]);
    PrintOne(node);
    if plain != "" { PrintOne(Plain(plain)); }
  }

  lemma {:induction false} NodePrints(p: Piece, bound: nat)
    requires !p.Literal? && (p.MarkPiece? ==> |p.inner| < bound)
    ensures PrintNode(NodeOf(p, bound)) == Write(p)
    decreases bound, 0, 0
  {
    if p.MarkPiece? {
      if p.delimiter.Tick? { PrintOne(Plain(p.inner)); } else { ParseIsLossless(p.inner); }
    }
  }

  lemma Glue(a: string, b: string, c: string)
    ensures a + b + ("" + c) == a + (b + c)
  {
  }

  lemma {:induction false} BuildPrints(pieces: seq<Piece>, plain: string, bound: nat)
    requires Within(pieces, bound)
    ensures Print(Build(pieces, plain, bound)) == plain + WriteAll(pieces)
    decreases bound, 0, |pieces|
  {
    if pieces == [] {
      PrintFlushed(plain, Plain(""), []);
    } else if pieces[0].Literal? {
      BuildPrints(pieces[1..], plain + [pieces[0].c], bound);
      assert plain + [pieces[0].c] + WriteAll(pieces[1..]) == plain + ([pieces[0].c] + WriteAll(pieces[1..]));
    } else {
      NodePrints(pieces[0], bound);
      BuildPrints(pieces[1..], "", bound);
      PrintFlushed(plain, NodeOf(pieces[0], bound), Build(pieces[1..], "", bound));
      Glue(plain, Write(pieces[0]), WriteAll(pieces[1..]));
    }
  }

  /** Writing the marks of a line back around their contents gives the line, character for character. */
  lemma {:induction false} ParseIsLossless(text: string)
    ensures Print(Tree(text)) == text
    decreases |text|, 1, 0
  {
    PiecesAreLossless(text);
    BuildPrints(Pieces(text), "", |text|);
  }
}
