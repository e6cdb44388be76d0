/**
 What a line shows once words in it are marked.
 */
module MarkedLines {
  import opened Text
  import opened Markdown
  import opened Inline
  import opened InlineProofs
  import opened ToggleMark

  /** Nothing in the text is left open: what is literal in it could not begin a mark or a link. */
  predicate Closed(text: string) {
    forall i :: 0 <= i < |Pieces(text)| && Pieces(text)[i].Literal? ==> PlainChar(Pieces(text)[i].c)
  }

  lemma {:induction false} AddressEndsAt(u: string, e: nat)
    requires e == AddressEnd(u)
    ensures AddressEnd(u[..e]) == e
  {
    if e > 0 {
      AddressEndsAt(u[1..], e - 1);
      assert u[..e][1..] == u[1..][..e - 1];
    }
  }

  lemma LinkShape(text: string)
    requires LinkAt(text).Some?
    ensures var (caption, href) := LinkAt(text).value; CleanNode(Link(caption, href))
  {
    var t := text[1..];
    var u := t[Find(t, ']') + 2..];
    AddressEndsAt(u, AddressEnd(u));
  }

  lemma CutAt(text: string, n: nat, more: string)
    requires n <= |text|
    ensures text + more == text[..n] + (text[n..] + more) && (text + more)[n..] == text[n..] + more
  {
  }

  lemma PieceIsFirst(text: string, p: Piece, later: seq<Piece>)
    requires text != "" && Pieces(text) == [p] + later
    ensures PieceAt(text) == p
  {
    assert Pieces(text)[0] == PieceAt(text);
  }

  lemma LinkExtends(text: string, more: string)
    requires LinkAt(text).Some?
    ensures PieceAt(text + more) == PieceAt(text)
  {
    var (caption, href) := LinkAt(text).value;
    var p := LinkPiece(caption, href);
    var rest := text[|Write(p)|..] + more;
    LinkShape(text);
    PieceText(text);
    CutAt(text, |Write(p)|, more);
    LinkCut(caption, href, rest);
    PieceIsFirst(text + more, p, Pieces(rest));
  }

  lemma OpensExtends(d: Delimiter, text: string, more: string)
    requires |text| >= 3
    ensures Opens(d, text + more) <==> Opens(d, text)
  {
    PrefixExtends(text, Sign(d), more);
  }

  lemma FirstExtends(text: string, more: string)
    requires |text| >= 3
    ensures FirstDelimiter(text + more) == FirstDelimiter(text)
  {
    forall d: Delimiter ensures Opens(d, text + more) <==> Opens(d, text) { OpensExtends(d, text, more); }
  }

  lemma InnerExtends(text: string, sign: string, more: string)
    requires sign != "" && sign <= text && InnerAt(text, sign).Some?
    ensures sign <= text + more && InnerAt(text + more, sign) == InnerAt(text, sign)
  {
    var after := text[|sign|..];
    PrefixExtends(text, sign, more);
    CutAt(text, |sign|, more);
    IndexOfExtends(after, sign, more);
    var k := IndexOf(after, sign).value;
    assert (after + more)[..k] == after[..k];
  }

  lemma NoLinkAtSign(text: string, d: Delimiter)
    requires Sign(d) <= text
    ensures LinkAt(text).None?
  {
    assert text[0] == Sign(d)[0];
  }

  lemma MarkedFrom(text: string, d: Delimiter, inner: string)
    requires FirstDelimiter(text) == Some(d) && InnerAt(text, Sign(d)) == Some(inner)
    ensures PieceAt(text) == MarkPiece(d, inner)
  {
    NoLinkAtSign(text, d);
  }

  lemma MarkExtends(text: string, more: string)
    requires MarkedAt(text).Some?
    ensures PieceAt(text + more) == PieceAt(text)
  {
    var (d, inner) := MarkedAt(text).value;
    FirstExtends(text, more);
    InnerExtends(text, Sign(d), more);
    MarkedFrom(text, d, inner);
    MarkedFrom(text + more, d, inner);
  }

  lemma ClosedPieceExtends(text: string, more: string)
    requires text != "" && Closed(text)
    ensures PieceAt(text + more) == PieceAt(text)
  {
    assert Pieces(text)[0] == PieceAt(text);
    if LinkAt(text).Some? {
      LinkExtends(text, more);
    } else if MarkedAt(text).Some? {
      MarkExtends(text, more);
    } else {
      assert (text + more)[0] == text[0];
      LiteralAt(text + more);
    }
  }

  lemma ClosedLater(text: string)
    requires text != "" && Closed(text)
    ensures Closed(text[|Write(PieceAt(text))|..])
  {
    TailIsPlain(PieceAt(text), Pieces(text[|Write(PieceAt(text))|..]), Pieces(text));
  }

  lemma TailIsPlain(p: Piece, later: seq<Piece>, all: seq<Piece>)
    requires all == [p] + later
    requires forall i :: 0 <= i < |all| && all[i].Literal? ==> PlainChar(all[i].c)
    ensures forall i :: 0 <= i < |later| && later[i].Literal? ==> PlainChar(later[i].c)
  {
    forall i | 0 <= i < |later| && later[i].Literal? ensures PlainChar(later[i].c) {
      assert all[i + 1] == later[i];
    }
  }

  /** What follows the text is read on its own. */
  ghost predicate ReadsApart(text: string) {
    forall more :: ReadsApartFrom(text, more)
  }

  ghost predicate ReadsApartFrom(text: string, more: string) {
    Pieces(text + more) == Pieces(text) + Pieces(more)
  }

  lemma FirstReadsApart(text: string, more: string)
    requires text != "" && Closed(text) && ReadsApart(text[|Write(PieceAt(text))|..])
    ensures ReadsApartFrom(text, more)
  {
    var later := text[|Write(PieceAt(text))|..];
    assert ReadsApartFrom(later, more);
    ClosedFirst(text, later, more);
    Regroup([PieceAt(text)], Pieces(later), Pieces(more));
  }

  lemma {:induction false} ClosedCut(text: string)
    requires Closed(text)
    ensures ReadsApart(text)
    decreases |text|
  {
    if text == "" {
      forall more ensures ReadsApartFrom(text, more) { assert text + more == more; }
    } else {
      ClosedLater(text);
      ClosedCut(text[|Write(PieceAt(text))|..]);
      forall more ensures ReadsApartFrom(text, more) { FirstReadsApart(text, more); }
    }
  }

  lemma ClosedFirst(text: string, later: string, more: string)
    requires text != "" && Closed(text) && later == text[|Write(PieceAt(text))|..]
    ensures Pieces(text) == [PieceAt(text)] + Pieces(later)
    ensures Pieces(text + more) == [PieceAt(text)] + Pieces(later + more)
  {
    ClosedPieceExtends(text, more);
    CutAt(text, |Write(PieceAt(text))|, more);
  }

  /** The bound only says why reading ends. */
  lemma {:induction false} BuildIgnoresBound(pieces: seq<Piece>, plain: string, b: nat, c: nat)
    requires Within(pieces, b) && Within(pieces, c)
    ensures Build(pieces, plain, b) == Build(pieces, plain, c)
    decreases |pieces|
  {
    if pieces != [] {
      BuildIgnoresBound(pieces[1..], if pieces[0].Literal? then plain + [pieces[0].c] else "", b, c);
    }
  }

  /** A mark ends the plain text before it, and what comes after it is put together on its own. */
  lemma {:induction false} BuildAround(before: seq<Piece>, p: Piece, after: seq<Piece>, plain: string, bound: nat)
    requires !p.Literal? && (p.MarkPiece? ==> |p.inner| < bound) && Within(before, bound) && Within(after, bound)
    ensures Within(before + ([p] + after), bound)
    ensures Build(before + ([p] + after), plain, bound)
         == Build(before, plain, bound) + ([NodeOf(p, bound)] + Build(after, "", bound))
    decreases |before|
  {
    var all := before + ([p] + after);
    if before == [] {
      assert all == [p] + after && all[1..] == after;
    } else {
      assert all[1..] == before[1..] + ([p] + after);
      BuildAround(before[1..], p, after, if before[0].Literal? then plain + [before[0].c] else "", bound);
    }
  }

  /** How a mark around `words` is read when its own delimiter comes back only after them. */
  function MarkNode(d: Delimiter, words: string): Node {
    Marked(d, if d.Tick? then [Plain(words)] else Tree(words))
  }

  predicate Markable(d: Delimiter, words: string) {
    words != "" && (d.Star? ==> words[0] != '*') && IndexOf(words + Sign(d), Sign(d)) == Some(|words|)
  }

  lemma MarkableIsBare(d: Delimiter, words: string)
    requires Markable(d, words)
    ensures !WrappedInside(words, Sign(d))
  {
    if |Sign(d)| <= |words| { PrefixExtends(words, Sign(d), Sign(d)); }
  }

  /** A text put around words with their delimiter is read in three parts. */
  lemma MarkedBetween(before: string, d: Delimiter, words: string, after: string, text: string)
    requires Closed(before) && Markable(d, words)
    requires text == before + (Write(MarkPiece(d, words)) + after)
    ensures Tree(text) == Tree(before) + ([MarkNode(d, words)] + Tree(after))
  {
    var p := MarkPiece(d, words);
    ClosedCut(before);
    assert ReadsApartFrom(before, Write(p) + after);
    MarkCut(d, words, after);
    BuildAround(Pieces(before), p, Pieces(after), "", |text|);
    BuildIgnoresBound(Pieces(before), "", |text|, |before|);
    BuildIgnoresBound(Pieces(after), "", |text|, |after|);
  }

  lemma WrapText(s: Selection, mark: Mark)
    requires InRange(s)
    ensures Wrap(s, mark).text == Before(s) + (Write(MarkPiece(DelimiterFor(mark), Selected(s))) + After(s))
  {
    WrapParts(Before(s), Marker(mark), Selected(s), After(s));
  }

  /**
   Marking words shows exactly those words with that mark around whatever they already had, and the
   line on either side as it was: where nothing is left open before them, the mark's delimiter does
   not occur in them, and they are not marked so already.
   */
  lemma ToggleShows(s: Selection, mark: Mark)
    requires InRange(s) && Closed(Before(s)) && Markable(DelimiterFor(mark), Selected(s))
    requires !WrappedOutside(Before(s), After(s), Marker(mark))
    ensures Tree(Toggled(s, mark).text)
         == Tree(Before(s)) + ([MarkNode(DelimiterFor(mark), Selected(s))] + Tree(After(s)))
  {
    MarkableIsBare(DelimiterFor(mark), Selected(s));
    WrapText(s, mark);
    MarkedBetween(Before(s), DelimiterFor(mark), Selected(s), After(s), Toggled(s, mark).text);
  }

  /** In the spans shown, the marked words have the mark in front of their own. */
  lemma ToggleShowsSpans(s: Selection, mark: Mark)
    requires InRange(s) && Closed(Before(s)) && Markable(DelimiterFor(mark), Selected(s))
    requires !WrappedOutside(Before(s), After(s), Marker(mark))
    ensures Spans(Toggled(s, mark).text) ==
              Spans(Before(s)) +
              (if mark.CodeMark? then [Span(Selected(s), [CodeMark], None)] else Prefixed(mark, Spans(Selected(s)))) +
              Spans(After(s))
  {
    var d, words := DelimiterFor(mark), Selected(s);
    ToggleShows(s, mark);
    FlattenThree(Tree(Before(s)), MarkNode(d, words), Tree(After(s)));
    MarkNodeSpans(d, words);
  }

  lemma FlattenThree(a: seq<Node>, node: Node, b: seq<Node>)
    ensures Flatten(a + ([node] + b), []) == Flatten(a, []) + FlattenNode(node, []) + Flatten(b, [])
  {
    FlattenAppend(a, [node] + b, []);
    FlattenAppend([node], b, []);
    FlattenOne(node);
  }

  lemma MarkNodeSpans(d: Delimiter, words: string)
    ensures FlattenNode(MarkNode(d, words), []) ==
              if d.Tick? then [Span(words, [CodeMark], None)] else Prefixed(MarkOf(d), Spans(words))
  {
    if d.Tick? { CodeSpans(words); } else { UnderMark(Tree(words), d); }
  }
}
