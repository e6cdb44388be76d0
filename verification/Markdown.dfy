/**
 The note's line format: which lines open which blocks, and how a list of lines is read as a
 document and a document written as a list of lines.

 This is the meaning of `parse` and `serialize`: blocks are taken as values (`Item`), without the
 ids that only the editor uses. The loops that compute it are in Blocks.dfy.
 */
module Markdown {
  import opened Text

  datatype Kind =
    | Paragraph | Heading1 | Heading2 | Heading3
    | Bullet | Numbered | Todo
    | Quote | Code | Divider | Table | Image

  /** What a block says, as far as the file is concerned. `depth` is what `depthOf` answers. */
  datatype Item = Item(kind: Kind, text: string, checked: bool, depth: nat)

  const MAX_DEPTH: nat := 5
  const INDENT := "  "

  const EMPTY_PARAGRAPH := Item(Paragraph, "", false, 0)

  predicate IsList(kind: Kind) {
    kind.Bullet? || kind.Numbered? || kind.Todo?
  }

  function Min(a: int, b: int): int {
    if a <= b then a else b
  }

  // ---------------------------------------------------------------- line recognisers

  /** A line that opens or closes a code fence. */
  predicate IsFence(line: string) {
    "```" <= Trim(line)
  }

  /** The visible characters of a line, in order. */
  function Visible(s: string): string {
    if s == "" then ""
    else (if IsSpace(s[0]) then "" else [s[0]]) + Visible(s[1..])
  }

  predicate AllSame(s: string, c: char) {
    forall i :: 0 <= i < |s| ==> s[i] == c
  }

  /** Three or more of one of `-`, `*`, `_`, and otherwise only whitespace. */
  predicate IsDivider(line: string) {
    var v := Visible(line);
    |v| >= 3 && v[0] in "-*_" && AllSame(v, v[0])
  }

  /** Index of the first `c` in `s`, or `|s|`. */
  function Find(s: string, c: char): (k: nat)
    ensures k <= |s| && c !in s[..k]
    ensures k < |s| ==> s[k] == c
  {
    if s == "" || s[0] == c then 0 else 1 + Find(s[1..], c)
  }

  lemma {:induction false} FindBefore(a: string, c: char, rest: string)
    requires c !in a && rest != "" && rest[0] == c
    ensures Find(a + rest, c) == |a|
  {
    if a == "" {
      assert a + rest == rest;
    } else {
      assert (a + rest)[1..] == a[1..] + rest;
      FindBefore(a[1..], c, rest);
    }
  }

  /** `![alt](src)` and nothing else. */
  predicate IsImage(s: string) {
    "![" <= s &&
    var t := s[2..];
    var k := Find(t, ']');
    "](" <= t[k..] &&
    var src := t[k + 2..];
    src != "" && Find(src, ')') == |src| - 1
  }

  /** Three or more dashes, optionally with a colon at either end. */
  predicate IsAlignment(cell: string) {
    var open := if ":" <= cell then cell[1..] else cell;
    var dashes := if open != "" && open[|open| - 1] == ':' then open[..|open| - 1] else open;
    |dashes| >= 3 && AllSame(dashes, '-')
  }

  /** One or more alignment cells, each closed by a pipe. */
  predicate AlignmentCells(s: string)
    decreases |s|
  {
    var k := Find(s, '|');
    k < |s| && IsAlignment(Trim(s[..k])) && (k + 1 == |s| || AlignmentCells(s[k + 1..]))
  }

  /** The line under a table's header. */
  predicate IsAlignmentRow(s: string) {
    "|" <= s && AlignmentCells(s[1..])
  }

  // ---------------------------------------------------------------- line markers

  /** What `\s+(.*)$` captures. */
  function AfterSpaces(s: string): Option<string> {
    if s != "" && IsSpace(s[0]) && DotSafe(TrimStart(s)) then Some(TrimStart(s)) else None
  }

  /** What `\s*(.*)$` captures. */
  function AfterOptionalSpaces(s: string): Option<string> {
    if DotSafe(TrimStart(s)) then Some(TrimStart(s)) else None
  }

  function SkipIndent(line: string): string {
    if line != "" && (line[0] == ' ' || line[0] == '\t') then SkipIndent(line[1..]) else line
  }

  /** What follows `[ \t]*[-*]\s+`. */
  function AfterDash(line: string): Option<string> {
    var t := SkipIndent(line);
    if |t| >= 2 && t[0] in "-*" && IsSpace(t[1]) then Some(TrimStart(t[1..])) else None
  }

  predicate CheckedBox(s: string) {
    |s| >= 3 && s[0] == '[' && s[1] in "xX" && s[2] == ']'
  }

  predicate OpenBox(s: string) {
    "[]" <= s || (|s| >= 3 && s[0] == '[' && IsSpace(s[1]) && s[2] == ']')
  }

  function MatchHeading(line: string, hashes: string): Option<string> {
    if hashes <= line then AfterSpaces(line[|hashes|..]) else None
  }

  function MatchCheckedTodo(line: string): Option<string> {
    match AfterDash(line)
    case Some(t) => if CheckedBox(t) then AfterOptionalSpaces(t[3..]) else None
    case None => None
  }

  function MatchOpenTodo(line: string): Option<string> {
    match AfterDash(line)
    case Some(t) =>
      if "[]" <= t then AfterOptionalSpaces(t[2..])
      else if OpenBox(t) then AfterOptionalSpaces(t[3..])
      else None
    case None => None
  }

  function MatchBullet(line: string): Option<string> {
    match AfterDash(line)
    case Some(t) => if DotSafe(t) then Some(t) else None
    case None => None
  }

  function SkipDigits(s: string): string {
    if s != "" && IsDigit(s[0]) then SkipDigits(s[1..]) else s
  }

  function MatchNumbered(line: string): Option<string> {
    var t := SkipIndent(line);
    var u := SkipDigits(t);
    if u != t && u != "" && u[0] in ".)" then AfterSpaces(u[1..]) else None
  }

  function MatchQuote(line: string): Option<string> {
    if !(">" <= line) then None
    else
      var t := line[1..];
      var text := if t != "" && IsSpace(t[0]) then t[1..] else t;
      if DotSafe(text) then Some(text) else None
  }

  /** The first rule of the table that matches, and the text it captures. */
  function MatchRule(line: string): Option<(Kind, string)> {
    match MatchHeading(line, "###")
    case Some(t) => Some((Heading3, t))
    case None =>
      match MatchHeading(line, "##")
      case Some(t) => Some((Heading2, t))
      case None =>
        match MatchHeading(line, "#")
        case Some(t) => Some((Heading1, t))
        case None => MatchListRule(line)
  }

  function MatchListRule(line: string): Option<(Kind, string)> {
    match MatchCheckedTodo(line)
    case Some(t) => Some((Todo, t))
    case None =>
      match MatchOpenTodo(line)
      case Some(t) => Some((Todo, t))
      case None =>
        match MatchBullet(line)
        case Some(t) => Some((Bullet, t))
        case None =>
          match MatchNumbered(line)
          case Some(t) => Some((Numbered, t))
          case None =>
            match MatchQuote(line)
            case Some(t) => Some((Quote, t))
            case None => None
  }

  /** Whether a to-do line's box is ticked. */
  predicate IsChecked(line: string) {
    AfterDash(line).Some? && CheckedBox(AfterDash(line).value)
  }

  /** Width of the blanks a line starts with, where a tab is as wide as `INDENT`. */
  function LeadWidth(line: string): nat {
    if line == "" then 0
    else if line[0] == '\t' then |INDENT| + LeadWidth(line[1..])
    else if line[0] == ' ' then 1 + LeadWidth(line[1..])
    else 0
  }

  function IndentOf(line: string): nat {
    Min(LeadWidth(line) / |INDENT|, MAX_DEPTH)
  }

  // ---------------------------------------------------------------- reading

  /** The deepest level the block after `prev` may take. */
  function Ceiling(prev: Option<Item>): nat {
    if prev.Some? && IsList(prev.value.kind) then prev.value.depth + 1 else 0
  }

  /** How many lines come before the next fence. */
  function BodyLength(lines: seq<string>): (n: nat)
    ensures n <= |lines|
  {
    if lines == [] || IsFence(lines[0]) then 0 else 1 + BodyLength(lines[1..])
  }

  predicate IsPipeLine(line: string) {
    "|" <= Trim(line)
  }

  /** How many pipe lines follow one another from here. */
  function PipeLength(lines: seq<string>): (n: nat)
    ensures n <= |lines|
  {
    if lines == [] || !IsPipeLine(lines[0]) then 0 else 1 + PipeLength(lines[1..])
  }

  function TrimAll(lines: seq<string>): (r: seq<string>)
    ensures |r| == |lines|
    ensures forall i :: 0 <= i < |r| ==> r[i] == Trim(lines[i])
  {
    seq(|lines|, i requires 0 <= i < |lines| => Trim(lines[i]))
  }

  predicate OpensTable(lines: seq<string>) {
    |lines| >= 2 && IsPipeLine(lines[0]) && IsAlignmentRow(Trim(lines[1]))
  }

  /** One turn of the parser: how many lines it takes and the block it finds, if any. */
  datatype Reading = Reading(used: nat, found: Option<Item>)

  function ReadRule(line: string, kind: Kind, text: string, prev: Option<Item>): Item {
    Item(kind, text, kind.Todo? && IsChecked(line),
         if IsList(kind) then Min(IndentOf(line), Ceiling(prev)) else 0)
  }

  function ReadLine(line: string, prev: Option<Item>): Option<Item> {
    if IsImage(Trim(line)) then Some(Item(Image, Trim(line), false, 0))
    else if IsDivider(line) then Some(Item(Divider, "", false, 0))
    else if Trim(line) == "" then None
    else
      match MatchRule(line)
      case Some((kind, text)) => Some(ReadRule(line, kind, text, prev))
      case None => Some(Item(Paragraph, line, false, 0))
  }

  function ReadBlock(lines: seq<string>, prev: Option<Item>): (r: Reading)
    requires lines != []
    ensures 1 <= r.used <= |lines|
  {
    if IsFence(lines[0]) then
      var n := BodyLength(lines[1..]);
      Reading(Min(n + 2, |lines|), Some(Item(Code, Join(lines[1..1 + n]), false, 0)))
    else if OpensTable(lines) then
      var n := PipeLength(lines);
      Reading(n, Some(Item(Table, Join(TrimAll(lines[..n])), false, 0)))
    else
      Reading(1, ReadLine(lines[0], prev))
  }

  /** Read lines until there are none. `prev` is the block read last. */
  function ReadLines(lines: seq<string>, prev: Option<Item>): seq<Item>
    decreases |lines|
  {
    if lines == [] then []
    else
      var r := ReadBlock(lines, prev);
      match r.found
      case Some(item) => [item] + ReadLines(lines[r.used..], Some(item))
      case None => ReadLines(lines[r.used..], prev)
  }

  function OrEmptyParagraph(items: seq<Item>): seq<Item> {
    if items == [] then [EMPTY_PARAGRAPH] else items
  }

  function Parse(markdown: string): seq<Item> {
    if Trim(markdown) == "" then [EMPTY_PARAGRAPH]
    else OrEmptyParagraph(ReadLines(Split(Normalize(markdown)), None))
  }

  // ---------------------------------------------------------------- numbering

  /**
   The nearest block before `i` that is not a list item deeper than `d`, or `-1`.
   Deeper items belong to a sub-list and do not interrupt the numbering around them.
   */
  function NearestNotDeeper(items: seq<Item>, i: nat, d: nat): (j: int)
    requires i <= |items|
    ensures -1 <= j < i
    ensures forall k :: j < k < i ==> IsList(items[k].kind) && items[k].depth > d
    ensures j >= 0 ==> !(IsList(items[j].kind) && items[j].depth > d)
  {
    if i == 0 then -1
    else if IsList(items[i - 1].kind) && items[i - 1].depth > d then NearestNotDeeper(items, i - 1, d)
    else i - 1
  }

  /** The number a numbered item prints. */
  function Ordinal(items: seq<Item>, i: nat): (n: nat)
    requires i < |items|
    ensures n >= 1
    decreases i
  {
    var j := NearestNotDeeper(items, i, items[i].depth);
    if j >= 0 && items[j].kind.Numbered? && items[j].depth == items[i].depth
    then 1 + Ordinal(items, j) else 1
  }

  // ---------------------------------------------------------------- writing

  function Pad(depth: nat): string {
    Repeat(INDENT, depth)
  }

  /** The text of one block in the file. `ordinal` is used by numbered items alone. */
  function Chunk(item: Item, ordinal: nat): string {
    match item.kind
    case Heading1 => "# " + item.text
    case Heading2 => "## " + item.text
    case Heading3 => "### " + item.text
    case Bullet => Pad(item.depth) + "- " + item.text
    case Todo => Pad(item.depth) + (if item.checked then "- [x] " else "- [ ] ") + item.text
    case Numbered => Pad(item.depth) + Decimal(ordinal) + ". " + item.text
    case Quote => "> " + item.text
    case Code => "```" + "\n" + item.text + "\n" + "```"
    case Divider => "---"
    case Paragraph | Table | Image => item.text
  }

  /** Whether two neighbours are written without a blank line between them. */
  predicate ContinuesList(a: Item, b: Item) {
    IsList(a.kind) && IsList(b.kind) && (a.kind == b.kind || a.depth != b.depth)
  }

  function Separator(items: seq<Item>, i: nat): seq<string>
    requires i < |items|
  {
    if i + 1 < |items| && !ContinuesList(items[i], items[i + 1]) then [""] else []
  }

  /** What is pushed for the blocks from `i` on. */
  function ChunksFrom(items: seq<Item>, i: nat): seq<string>
    requires i <= |items|
    decreases |items| - i
  {
    if i == |items| then []
    else [Chunk(items[i], Ordinal(items, i))] + Separator(items, i) + ChunksFrom(items, i + 1)
  }

  function Serialize(items: seq<Item>): string {
    DropNewlines(Join(ChunksFrom(items, 0))) + "\n"
  }

  function Canonical(markdown: string): string {
    Serialize(Parse(markdown))
  }
}
