/**
 Marks and links by their characters: which signs give which mark, and what the toggle writes.
 */
module Signs {
  import opened Text
  import opened Markdown
  import opened Inline
  import opened InlineProofs
  import opened ToggleMark
  import opened MarkedLines

  /** The signs themselves, on both sides of the words. */
  function Signed(d: Delimiter, words: string): string {
    match d
    case Stars => "**" + words + "**"
    case Tildes => "~~" + words + "~~"
    case Tick => "`" + words + "`"
    case Star => "*" + words + "*"
    case Underscore => "_" + words + "_"
  }

  /** No character of the words could begin a mark or a link. */
  predicate Words(s: string) {
    s != "" && forall i :: 0 <= i < |s| ==> s[i] !in "*_~`["
  }

  lemma {:induction false} SignAtEnd(s: string, sign: string)
    requires sign != "" && sign[0] in "*_~`" && forall i :: 0 <= i < |s| ==> s[i] !in "*_~`["
    ensures IndexOf(s + sign, sign) == Some(|s|)
  {
    if s == "" {
      assert s + sign == sign;
    } else {
      assert (s + sign)[0] == s[0];
      assert (s + sign)[1..] == s[1..] + sign;
      SignAtEnd(s[1..], sign);
    }
  }

  lemma WordsAreMarkable(d: Delimiter, words: string)
    requires Words(words)
    ensures Markable(d, words)
  {
    SignAtEnd(words, Sign(d));
  }

  lemma WordsArePlain(words: string)
    requires Words(words)
    ensures Spans(words) == [Span(words, [], None)]
  {
    assert words + "" == words;
    LiteralsCut(words, "");
    BuildLiterals(words, [], "", |words|);
    assert Literals(words) + [] == Literals(words) && "" + words == words;
    assert Tree(words) == [Plain(words)];
    FlattenOne(Plain(words));
  }

  // ---------------------------------------------------------------- marks

  lemma SignedIsWritten(d: Delimiter, words: string)
    ensures Signed(d, words) == Write(MarkPiece(d, words))
  {
  }

  lemma SpansBetween(before: string, node: Node, after: string, text: string)
    requires Tree(text) == Tree(before) + ([node] + Tree(after))
    ensures Spans(text) == Spans(before) + FlattenNode(node, []) + Spans(after)
  {
    FlattenThree(Tree(before), node, Tree(after));
  }

  lemma PrefixedOne(mark: Mark, words: string)
    ensures Prefixed(mark, [Span(words, [], None)]) == [Span(words, [mark], None)]
  {
    var none: seq<Mark> := [];
    assert [mark] + none == [mark];
  }

  lemma MarkNodeShows(d: Delimiter, words: string)
    requires Words(words)
    ensures FlattenNode(MarkNode(d, words), []) == [Span(words, [MarkOf(d)], None)]
  {
    MarkNodeSpans(d, words);
    WordsArePlain(words);
    PrefixedOne(MarkOf(d), words);
  }

  /** Between the two texts, and changing neither, `signed` shows the words with the mark. */
  ghost predicate ShowsAs(before: string, signed: string, after: string, words: string, mark: Mark) {
    Spans(before + (signed + after)) == Spans(before) + [Span(words, [mark], None)] + Spans(after)
  }

  lemma WrittenShows(before: string, d: Delimiter, words: string, after: string, text: string)
    requires Closed(before) && Words(words) && text == before + (Write(MarkPiece(d, words)) + after)
    ensures Spans(text) == Spans(before) + [Span(words, [MarkOf(d)], None)] + Spans(after)
  {
    WordsAreMarkable(d, words);
    MarkedBetween(before, d, words, after, text);
    SpansBetween(before, MarkNode(d, words), after, text);
    MarkNodeShows(d, words);
  }

  lemma SignedShows(before: string, d: Delimiter, words: string, after: string, signed: string)
    requires Closed(before) && Words(words) && signed == Signed(d, words)
    ensures ShowsAs(before, signed, after, words, MarkOf(d))
  {
    SignedIsWritten(d, words);
    WrittenShows(before, d, words, after, before + (signed + after));
  }

  // Between any text that leaves nothing open and any text at all, and changing neither:

  /** Words in two asterisks show in bold. */
  lemma BoldShows(before: string, words: string, after: string)
    requires Closed(before) && Words(words)
    ensures ShowsAs(before, "**" + words + "**", after, words, Bold)
  {
    SignedShows(before, Stars, words, after, "**" + words + "**");
  }

  /** Words in two tildes show struck. */
  lemma StruckShows(before: string, words: string, after: string)
    requires Closed(before) && Words(words)
    ensures ShowsAs(before, "~~" + words + "~~", after, words, Strike)
  {
    SignedShows(before, Tildes, words, after, "~~" + words + "~~");
  }

  /** Words in backticks show as code. */
  lemma CodeShows(before: string, words: string, after: string)
    requires Closed(before) && Words(words)
    ensures ShowsAs(before, "`" + words + "`", after, words, CodeMark)
  {
    SignedShows(before, Tick, words, after, "`" + words + "`");
  }

  /** Words in one asterisk show in italics. */
  lemma StarredShows(before: string, words: string, after: string)
    requires Closed(before) && Words(words)
    ensures ShowsAs(before, "*" + words + "*", after, words, Italic)
  {
    SignedShows(before, Star, words, after, "*" + words + "*");
  }

  /** So do words in underscores. */
  lemma UnderscoredShows(before: string, words: string, after: string)
    requires Closed(before) && Words(words)
    ensures ShowsAs(before, "_" + words + "_", after, words, Italic)
  {
    SignedShows(before, Underscore, words, after, "_" + words + "_");
  }

  lemma NothingAround(signed: string, words: string, mark: Mark)
    requires ShowsAs("", signed, "", words, mark)
    ensures Spans(signed) == [Span(words, [mark], None)]
  {
    assert "" + (signed + "") == signed;
    assert Spans("") == [];
  }

  /** The five marks, each as the whole line. */
  lemma MarkAloneShows(words: string)
    requires Words(words)
    ensures Spans("**" + words + "**") == [Span(words, [Bold], None)]
    ensures Spans("~~" + words + "~~") == [Span(words, [Strike], None)]
    ensures Spans("`" + words + "`") == [Span(words, [CodeMark], None)]
    ensures Spans("*" + words + "*") == [Span(words, [Italic], None)]
    ensures Spans("_" + words + "_") == [Span(words, [Italic], None)]
  {
    assert Closed("");
    BoldShows("", words, "");
    StruckShows("", words, "");
    CodeShows("", words, "");
    StarredShows("", words, "");
    UnderscoredShows("", words, "");
    NothingAround("**" + words + "**", words, Bold);
    NothingAround("~~" + words + "~~", words, Strike);
    NothingAround("`" + words + "`", words, CodeMark);
    NothingAround("*" + words + "*", words, Italic);
    NothingAround("_" + words + "_", words, Italic);
  }

  /** Code may hold anything but a backtick, and none of it is read as marks. */
  lemma CodeShowsAsItIs(before: string, code: string, after: string)
    requires Closed(before) && code != "" && '`' !in code
    ensures ShowsAs(before, "`" + code + "`", after, code, CodeMark)
  {
    var text := before + (Signed(Tick, code) + after);
    SignedIsWritten(Tick, code);
    TickAtEnd(code);
    MarkedBetween(before, Tick, code, after, text);
    SpansBetween(before, MarkNode(Tick, code), after, text);
    MarkNodeSpans(Tick, code);
  }

  lemma {:induction false} TickAtEnd(s: string)
    requires '`' !in s
    ensures IndexOf(s + "`", "`") == Some(|s|)
  {
    if s == "" {
      assert s + "`" == "`";
    } else {
      assert (s + "`")[0] == s[0];
      assert (s + "`")[1..] == s[1..] + "`";
      TickAtEnd(s[1..]);
    }
  }

  // ---------------------------------------------------------------- signs that nothing closes

  lemma {:induction false} NoSignIn(words: string, sign: string)
    requires sign != "" && sign[0] in "*_~`" && forall i :: 0 <= i < |words| ==> words[i] !in "*_~`["
    ensures IndexOf(words, sign) == None
  {
    if words != "" { NoSignIn(words[1..], sign); }
  }

  lemma OneSignOpens(c: char, words: string, text: string)
    requires c in "*_`~" && Words(words) && text == [c] + words
    ensures FirstDelimiter(text) ==
              if c == '~' then None else Some(if c == '*' then Star else if c == '_' then Underscore else Tick)
    ensures LinkAt(text).None?
  {
    assert text[1..] == words && text[1] == words[0];
    assert text[0] == c;
  }

  lemma UnclosedIsLiteral(text: string, d: Delimiter)
    requires text != "" && FirstDelimiter(text) == Some(d) && LinkAt(text).None?
    requires IndexOf(text[|Sign(d)|..], Sign(d)) == None
    ensures PieceAt(text) == Literal(text[0])
  {
  }

  lemma OpenSignIsLiteral(c: char, words: string, text: string)
    requires c in "*_`~" && Words(words) && text == [c] + words
    ensures PieceAt(text) == Literal(c)
  {
    OneSignOpens(c, words, text);
    assert text[1..] == words;
    NoSignIn(words, [c]);
    if c != '~' { UnclosedIsLiteral(text, FirstDelimiter(text).value); }
  }

  lemma OpenPairIsLiteral(c: char, words: string, text: string)
    requires c in "*~" && Words(words) && text == [c, c] + words
    ensures PieceAt(text) == Literal(c)
  {
    assert text[2..] == words;
    NoSignIn(words, [c, c]);
  }

  lemma AllLiterals(text: string, pieces: seq<Piece>)
    requires text != "" && pieces == Literals(text) && Pieces(text) == pieces
    ensures Spans(text) == [Span(text, [], None)]
  {
    BuildLiterals(text, [], "", |text|);
    assert Literals(text) + [] == Literals(text) && "" + text == text;
    assert Tree(text) == [Plain(text)];
    FlattenOne(Plain(text));
  }

  lemma WordPieces(words: string)
    requires Words(words)
    ensures Pieces(words) == Literals(words)
  {
    assert words + "" == words;
    LiteralsCut(words, "");
  }

  lemma OneSignPieces(c: char, words: string, text: string)
    requires c in "*_`~" && Words(words) && text == [c] + words
    ensures Pieces(text) == Literals(text)
  {
    OpenSignIsLiteral(c, words, text);
    WordPieces(words);
    NextPieces(text, Literal(c), words);
    LiteralsFirst(c, words);
  }

  /** A sign that nothing closes is shown as the character it is. */
  lemma OpenSignShows(c: char, words: string)
    requires c in "*_`~" && Words(words)
    ensures Spans([c] + words) == [Span([c] + words, [], None)]
  {
    OneSignPieces(c, words, [c] + words);
    AllLiterals([c] + words, Literals([c] + words));
  }

  /** So are two of them. */
  lemma OpenPairShows(c: char, words: string)
    requires c in "*~" && Words(words)
    ensures Spans([c, c] + words) == [Span([c, c] + words, [], None)]
  {
    var text, later := [c, c] + words, [c] + words;
    assert text[1..] == later && text == [c] + later;
    OpenPairIsLiteral(c, words, text);
    OneSignPieces(c, words, later);
    NextPieces(text, Literal(c), later);
    LiteralsFirst(c, later);
    AllLiterals(text, Literals(text));
  }

  // ---------------------------------------------------------------- links

  lemma {:induction false} WholeAddress(href: string)
    requires forall i :: 0 <= i < |href| ==> href[i] != ')' && !IsSpace(href[i])
    ensures AddressEnd(href) == |href|
  {
    if href != "" { WholeAddress(href[1..]); }
  }

  lemma LinkBetween(before: string, caption: string, href: string, after: string, text: string)
    requires Closed(before) && CleanNode(Link(caption, href))
    requires text == before + (Write(LinkPiece(caption, href)) + after)
    ensures Tree(text) == Tree(before) + ([Link(caption, href)] + Tree(after))
  {
    var p := LinkPiece(caption, href);
    ClosedCut(before);
    assert ReadsApartFrom(before, Write(p) + after);
    LinkCut(caption, href, after);
    BuildAround(Pieces(before), p, Pieces(after), "", |text|);
    BuildIgnoresBound(Pieces(before), "", |text|, |before|);
    BuildIgnoresBound(Pieces(after), "", |text|, |after|);
  }

  /** A caption in brackets and an address in parentheses show as a link; without a caption the address is shown. */
  lemma LinkShows(before: string, caption: string, href: string, after: string)
    requires Closed(before) && ']' !in caption && href != ""
    requires forall i :: 0 <= i < |href| ==> href[i] != ')' && !IsSpace(href[i])
    ensures Spans(before + ("[" + caption + "](" + href + ")" + after)) ==
              Spans(before) + [Span(if caption == "" then href else caption, [], Some(href))] + Spans(after)
  {
    var text := before + (Write(LinkPiece(caption, href)) + after);
    WholeAddress(href);
    LinkBetween(before, caption, href, after, text);
    SpansBetween(before, Link(caption, href), after, text);
  }

  ghost predicate LinkForm(s: string, caption: string, href: string) {
    ']' !in caption && href != "" && (forall i :: 0 <= i < |href| ==> href[i] != ')' && !IsSpace(href[i])) &&
    exists rest: string :: s == "[" + (caption + ("](" + (href + (")" + rest))))
  }

  lemma AddressIsCut(u: string, e: nat)
    requires e == AddressEnd(u) && 0 < e < |u| && u[e] == ')'
    ensures u[e..e + 1] == ")" && forall i :: 0 <= i < e ==> u[..e][i] != ')' && !IsSpace(u[..e][i])
  {
  }

  lemma CaptionIsCut(t: string, k: nat)
    requires k == Find(t, ']') && "](" <= t[k..]
    ensures k + 2 <= |t| && t[k..k + 2] == "](" && ']' !in t[..k]
  {
    assert t[k..][..2] == t[k..k + 2];
  }

  lemma LinkUnfolds(s: string, t: string, k: nat, u: string, e: nat)
    requires LinkAt(s).Some? && s != "" && t == s[1..] && k == Find(t, ']')
    requires k + 2 <= |t| && u == t[k + 2..] && e == AddressEnd(u)
    ensures LinkAt(s) == Some((t[..k], u[..e])) && 0 < e < |u| && u[e] == ')'
  {
  }

  lemma LinkStarts(s: string)
    requires LinkAt(s).Some?
    ensures s != "" && s[..1] == "[" && "](" <= s[1..][Find(s[1..], ']')..]
  {
  }

  lemma LinkTextIs(s: string, t: string, k: nat, u: string, e: nat)
    requires s != "" && t == s[1..] && k + 2 <= |t| && u == t[k + 2..] && e < |u|
    requires s[..1] == "[" && t[k..k + 2] == "](" && u[e..e + 1] == ")"
    ensures s == "[" + (t[..k] + ("](" + (u[..e] + (")" + u[e + 1..]))))
  {
    CutAtMark(u, e, ")", u[e + 1..]);
    CutAtMark(t, k, "](", u);
    assert s == s[..1] + s[1..];
  }

  lemma LinkFormOf(s: string, caption: string, href: string, rest: string)
    requires ']' !in caption && href != "" && (forall i :: 0 <= i < |href| ==> href[i] != ')' && !IsSpace(href[i]))
    requires s == "[" + (caption + ("](" + (href + (")" + rest))))
    ensures LinkForm(s, caption, href)
  {
  }

  lemma LinkHasForm(s: string)
    requires LinkAt(s).Some?
    ensures LinkForm(s, LinkAt(s).value.0, LinkAt(s).value.1)
  {
    LinkStarts(s);
    var t := s[1..];
    var k := Find(t, ']');
    CaptionIsCut(t, k);
    var u := t[k + 2..];
    var e := AddressEnd(u);
    LinkUnfolds(s, t, k, u, e);
    AddressIsCut(u, e);
    LinkTextIs(s, t, k, u, e);
    LinkFormOf(s, t[..k], u[..e], u[e + 1..]);
  }

  /** A link starts here exactly when the characters from here on are those of one. */
  lemma LinkIff(s: string, caption: string, href: string)
    ensures LinkAt(s) == Some((caption, href)) <==> LinkForm(s, caption, href)
  {
    if LinkAt(s).Some? { LinkHasForm(s); }
    if LinkForm(s, caption, href) {
      var rest: string :| s == "[" + (caption + ("](" + (href + (")" + rest))));
      WholeAddress(href);
      LinkReads(caption, href, rest);
    }
  }

  // ---------------------------------------------------------------- what the toggle writes

  predicate EndsWith(s: string, c: char) { s != "" && s[|s| - 1] == c }

  predicate StartsWith(s: string, c: char) { s != "" && s[0] == c }

  /** The marker of each mark. */
  function Symbols(mark: Mark): string {
    match mark case Bold => "**" case Italic => "*" case CodeMark => "`" case Strike => "~~"
  }

  lemma SymbolsAreMarker(mark: Mark)
    ensures Symbols(mark) == Marker(mark)
  {
  }

  lemma PlainIsNotWrapped(words: string, mark: Mark)
    requires forall i :: 0 <= i < |words| ==> words[i] !in "*_~`["
    ensures !WrappedInside(words, Marker(mark))
  {
    assert Marker(mark)[0] in "*_~`";
  }

  lemma ToggleWraps(before: string, words: string, after: string, mark: Mark)
    requires forall i :: 0 <= i < |words| ==> words[i] !in "*_~`["
    requires !EndsWith(before, Symbols(mark)[0]) || !StartsWith(after, Symbols(mark)[0])
    ensures Toggled(Select(before, words, after), mark) == Select(before + Symbols(mark), words, Symbols(mark) + after)
  {
    SymbolsAreMarker(mark);
    PlainIsNotWrapped(words, mark);
  }

  /** Toggling a bare selection, or a bare caret, writes the mark's signs on both sides and keeps the selection. */
  lemma ToggleWrites(before: string, words: string, after: string)
    requires forall i :: 0 <= i < |words| ==> words[i] !in "*_~`["
    ensures !EndsWith(before, '*') || !StartsWith(after, '*') ==>
              Toggled(Select(before, words, after), Bold) == Select(before + "**", words, "**" + after) &&
              Toggled(Select(before, words, after), Italic) == Select(before + "*", words, "*" + after)
    ensures !EndsWith(before, '`') || !StartsWith(after, '`') ==>
              Toggled(Select(before, words, after), CodeMark) == Select(before + "`", words, "`" + after)
    ensures !EndsWith(before, '~') || !StartsWith(after, '~') ==>
              Toggled(Select(before, words, after), Strike) == Select(before + "~~", words, "~~" + after)
  {
    if !EndsWith(before, '*') || !StartsWith(after, '*') {
      ToggleWraps(before, words, after, Bold);
      ToggleWraps(before, words, after, Italic);
    }
    if !EndsWith(before, '`') || !StartsWith(after, '`') { ToggleWraps(before, words, after, CodeMark); }
    if !EndsWith(before, '~') || !StartsWith(after, '~') { ToggleWraps(before, words, after, Strike); }
  }
}
