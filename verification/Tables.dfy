/**
 The table codec: a grid of cells kept as a Markdown table in a block's text.
 */
module Tables {
  import opened Text
  import opened Markdown

  type Row = seq<string>

  function Escape(cell: string): string {
    if cell == "" then ""
    else (if cell[0] == '|' then "\\|" else [cell[0]]) + Escape(cell[1..])
  }

  function Unescape(cell: string): string {
    if cell == "" then ""
    else if "\\|" <= cell then "|" + Unescape(cell[2..])
    else [cell[0]] + Unescape(cell[1..])
  }

  // ---------------------------------------------------------------- reading a grid

  /** `.split(/(?<!\\)\|/)`: cut at every pipe that no backslash precedes. */
  function SplitPipes(s: string, escaped: bool): (r: seq<string>)
    ensures |r| >= 1
  {
    if s == "" then [""]
    else
      var r := SplitPipes(s[1..], s[0] == '\\');
      if s[0] == '|' && !escaped then [""] + r else [[s[0]] + r[0]] + r[1..]
  }

  function DropFirstPipe(s: string): string {
    if "|" <= s then s[1..] else s
  }

  function DropLastPipe(s: string): string {
    if s != "" && s[|s| - 1] == '|' && (|s| == 1 || s[|s| - 2] != '\\') then s[..|s| - 1] else s
  }

  function ReadCell(piece: string): string {
    Unescape(Trim(piece))
  }

  function MapCells(pieces: seq<string>): (r: Row)
    ensures |r| == |pieces| && forall i :: 0 <= i < |r| ==> r[i] == ReadCell(pieces[i])
  {
    seq(|pieces|, i requires 0 <= i < |pieces| => ReadCell(pieces[i]))
  }

  function ReadRow(line: string): Row {
    MapCells(SplitPipes(DropLastPipe(DropFirstPipe(line)), false))
  }

  /** The rows of data among the lines: pipe lines that are not an alignment row. */
  function ReadRows(lines: seq<string>): seq<Row> {
    if lines == [] then []
    else
      var line := Trim(lines[0]);
      (if "|" <= line && !IsAlignmentRow(line) then [ReadRow(line)] else []) + ReadRows(lines[1..])
  }

  function Widest(rows: seq<Row>): nat {
    if rows == [] then 0
    else
      var rest := Widest(rows[1..]);
      if |rows[0]| > rest then |rows[0]| else rest
  }

  function PadRow(row: Row, width: nat): (r: Row)
    ensures |row| <= width ==> |r| == width
    ensures forall i :: 0 <= i < |r| ==> r[i] == if i < |row| then row[i] else ""
    decreases width - |row|
  {
    if |row| >= width then row else PadRow(row + [""], width)
  }

  function PadRows(rows: seq<Row>, width: nat): (r: seq<Row>)
    ensures |r| == |rows| && forall i :: 0 <= i < |r| ==> r[i] == PadRow(rows[i], width)
  {
    seq(|rows|, i requires 0 <= i < |rows| => PadRow(rows[i], width))
  }

  const NO_ROWS: seq<Row> := [["", ""], ["", ""]]

  function TableRows(text: string): seq<Row> {
    var rows := ReadRows(Split(text));
    if rows == [] then NO_ROWS else PadRows(rows, Widest(rows))
  }

  // ---------------------------------------------------------------- writing a grid

  function JoinCells(cells: Row): string {
    if cells == [] then ""
    else if |cells| == 1 then cells[0]
    else cells[0] + " | " + JoinCells(cells[1..])
  }

  function EscapeAll(cells: Row): (r: Row)
    ensures |r| == |cells| && forall i :: 0 <= i < |r| ==> r[i] == Escape(cells[i])
  {
    seq(|cells|, i requires 0 <= i < |cells| => Escape(cells[i]))
  }

  function RowLine(cells: Row): string {
    "| " + JoinCells(EscapeAll(cells)) + " |"
  }

  function Width(rows: seq<Row>): (w: nat)
    ensures w >= 1
  {
    if Widest(rows) >= 1 then Widest(rows) else 1
  }

  function RowLines(rows: seq<Row>, width: nat): seq<string> {
    if rows == [] then [] else [RowLine(PadRow(rows[0], width))] + RowLines(rows[1..], width)
  }

  function AlignmentLine(width: nat): string {
    "|" + Repeat(" --- |", width)
  }

  function TableLines(rows: seq<Row>): seq<string> {
    var width := Width(rows);
    var header := if rows == [] then [] else rows[0];
    var body := if rows == [] then [] else rows[1..];
    [RowLine(PadRow(header, width)), AlignmentLine(width)] + RowLines(body, width)
  }

  function TableText(rows: seq<Row>): string {
    Join(TableLines(rows))
  }

  /** The grid as a rectangle, every row as wide as the widest and at least one cell wide. */
  function Rectangle(rows: seq<Row>): seq<Row> {
    PadRows(rows, Width(rows))
  }

  // ---------------------------------------------------------------- the condition

  predicate GoodCell(cell: string) {
    Trimmed(cell) && '\n' !in cell
  }

  predicate GoodRow(row: Row) {
    forall j :: 0 <= j < |row| ==> GoodCell(row[j])
  }

  predicate AlignmentOnly(row: Row) {
    forall j :: 0 <= j < |row| ==> IsAlignment(row[j])
  }

  /** A row that comes back: cells are trimmed single lines, and they do not all read as alignment. */
  predicate Keepable(row: Row) {
    GoodRow(row) && !AlignmentOnly(row)
  }

  // ---------------------------------------------------------------- cells

  lemma {:induction false} UnescapeEscape(cell: string)
    ensures Unescape(Escape(cell)) == cell
  {
    if cell != "" {
      var rest := Escape(cell[1..]);
      UnescapeEscape(cell[1..]);
      assert cell == [cell[0]] + cell[1..];
      if cell[0] == '|' {
        assert Escape(cell)[2..] == rest;
      } else {
        assert Escape(cell)[1..] == rest;
        EscapeStart(cell[1..]);
      }
    }
  }

  lemma EscapeStart(cell: string)
    ensures cell != "" ==> Escape(cell) != "" && Escape(cell)[0] == if cell[0] == '|' then '\\' else cell[0]
    ensures cell == "" ==> Escape(cell) == ""
  {
  }

  lemma {:induction false} EscapeEnd(cell: string)
    requires cell != ""
    ensures Escape(cell) != "" && Escape(cell)[|Escape(cell)| - 1] == cell[|cell| - 1]
  {
    if |cell| > 1 { EscapeEnd(cell[1..]); } else { assert Escape(cell[1..]) == ""; }
  }

  lemma EscapeTrimmed(cell: string)
    requires Trimmed(cell)
    ensures Trimmed(Escape(cell))
  {
    EscapeStart(cell);
    if cell != "" { EscapeEnd(cell); }
  }

  lemma ReadCellBack(cell: string)
    requires Trimmed(cell)
    ensures ReadCell(" " + Escape(cell) + " ") == cell
  {
    EscapeTrimmed(cell);
    TrimPadded(" ", Escape(cell), " ");
    UnescapeEscape(cell);
  }

  // ---------------------------------------------------------------- one row

  /** A row's line after its first pipe. */
  function RowBody(cells: Row): string {
    if cells == [] then "" else " " + Escape(cells[0]) + " |" + RowBody(cells[1..])
  }

  lemma BodyRegroups(first: string, later: string, body: string)
    requires " " + later + " |" == body
    ensures " " + (first + " | " + later) + " |" == " " + first + " |" + body
  {
    assert " " + (first + " | " + later) + " |" == (" " + first + " |") + (" " + later + " |");
  }

  lemma {:induction false} JoinIsBody(cells: Row)
    requires cells != []
    ensures " " + JoinCells(EscapeAll(cells)) + " |" == RowBody(cells)
  {
    var all := EscapeAll(cells);
    if |cells| > 1 {
      JoinIsBody(cells[1..]);
      assert EscapeAll(cells[1..]) == all[1..];
      BodyRegroups(all[0], JoinCells(all[1..]), RowBody(cells[1..]));
    } else {
      assert RowBody(cells[1..]) == "";
    }
  }

  lemma RowLineIsBody(cells: Row)
    requires cells != []
    ensures RowLine(cells) == "|" + RowBody(cells)
  {
    JoinIsBody(cells);
  }

  /** An escaped pipe does not cut. */
  lemma SplitEscapedPipe(s: string, escaped: bool)
    ensures var r := SplitPipes(s, false);
            SplitPipes("\\|" + s, escaped) == ["\\|" + r[0]] + r[1..]
  {
    var r := SplitPipes(s, false);
    assert ("\\|" + s)[1..] == "|" + s;
    assert ("|" + s)[1..] == s;
    assert SplitPipes("|" + s, true) == ["|" + r[0]] + r[1..];
    assert "\\|" + r[0] == ['\\'] + ("|" + r[0]);
  }

  lemma SplitPlainFirst(c: char, s: string, escaped: bool)
    requires c != '|'
    ensures var r := SplitPipes(s, c == '\\');
            SplitPipes([c] + s, escaped) == [[c] + r[0]] + r[1..]
  {
    assert ([c] + s)[1..] == s;
  }

  lemma SplitPipeFirst(s: string)
    ensures SplitPipes("|" + s, false) == [""] + SplitPipes(s, false)
  {
    assert ("|" + s)[1..] == s;
  }

  lemma SplitCellEnd(rest: string, escaped: bool)
    ensures SplitPipes(" |" + rest, escaped) == [" "] + SplitPipes(rest, false)
  {
    assert " |" + rest == [' '] + ("|" + rest);
    SplitPlainFirst(' ', "|" + rest, escaped);
    SplitPipeFirst(rest);
    var r := [""] + SplitPipes(rest, false);
    assert r[1..] == SplitPipes(rest, false) && [' '] + r[0] == " ";
  }

  lemma EscapeFirst(cell: string, tail: string)
    requires cell != ""
    ensures Escape(cell) + tail == (if cell[0] == '|' then "\\|" else [cell[0]]) + (Escape(cell[1..]) + tail)
  {
    Regroup(if cell[0] == '|' then "\\|" else [cell[0]], Escape(cell[1..]), tail);
  }

  lemma {:induction false} SplitCell(cell: string, rest: string, escaped: bool)
    ensures SplitPipes(Escape(cell) + (" |" + rest), escaped) == [Escape(cell) + " "] + SplitPipes(rest, false)
    decreases |cell|
  {
    var tail := " |" + rest;
    if cell == "" {
      assert Escape(cell) + tail == tail && Escape(cell) + " " == " ";
      SplitCellEnd(rest, escaped);
    } else {
      EscapeFirst(cell, tail);
      EscapeFirst(cell, " ");
      SplitCell(cell[1..], rest, cell[0] == '\\');
      if cell[0] == '|' {
        SplitEscapedPipe(Escape(cell[1..]) + tail, escaped);
      } else {
        SplitPlainFirst(cell[0], Escape(cell[1..]) + tail, escaped);
      }
    }
  }

  /** The last cell has no pipe after it once the closing one is dropped. */
  lemma {:induction false} SplitLastCell(cell: string, escaped: bool)
    ensures SplitPipes(Escape(cell) + " ", escaped) == [Escape(cell) + " "]
  {
    if cell == "" {
      assert Escape(cell) + " " == " ";
      assert " "[1..] == "";
      var r := SplitPipes("", false);
      assert SplitPipes(" ", escaped) == [" " + r[0]] + r[1..];
      assert " " + r[0] == Escape(cell) + " " && r[1..] == [];
    } else {
      var s := Escape(cell[1..]) + " ";
      if cell[0] == '|' {
        SplitLastCell(cell[1..], false);
        assert Escape(cell) + " " == "\\|" + s;
        SplitEscapedPipe(s, escaped);
      } else {
        SplitLastCell(cell[1..], cell[0] == '\\');
        assert (Escape(cell) + " ")[1..] == s;
        assert Escape(cell) + " " == [cell[0]] + s;
      }
    }
  }

  function Pieces(cells: Row): (r: seq<string>)
    ensures |r| == |cells| && forall i :: 0 <= i < |r| ==> r[i] == " " + Escape(cells[i]) + " "
  {
    seq(|cells|, i requires 0 <= i < |cells| => " " + Escape(cells[i]) + " ")
  }

  lemma SplitSpacedCell(s: string, r: seq<string>)
    requires s != "" && SplitPipes(s, false) == r
    ensures SplitPipes(" " + s, false) == [" " + r[0]] + r[1..]
  {
    assert (" " + s)[1..] == s;
  }

  lemma PiecesUnroll(cells: Row)
    requires cells != []
    ensures Pieces(cells) == [" " + (Escape(cells[0]) + " ")] + Pieces(cells[1..])
  {
    assert " " + (Escape(cells[0]) + " ") == " " + Escape(cells[0]) + " ";
  }

  lemma SplitFirst(cell: string, rest: string, pieces: seq<string>)
    requires SplitPipes(rest, false) == pieces
    ensures SplitPipes(" " + (Escape(cell) + (" |" + rest)), false) == [" " + (Escape(cell) + " ")] + pieces
  {
    SplitCell(cell, rest, false);
    SplitSpacedCell(Escape(cell) + (" |" + rest), [Escape(cell) + " "] + pieces);
  }

  lemma SplitOnly(cell: string)
    ensures SplitPipes(" " + (Escape(cell) + " "), false) == [" " + (Escape(cell) + " ")]
  {
    SplitLastCell(cell, false);
    SplitSpacedCell(Escape(cell) + " ", [Escape(cell) + " "]);
  }

  /** A row's line without its first and last pipe. */
  function RowInner(cells: Row): string
    requires cells != []
  {
    if |cells| == 1 then " " + (Escape(cells[0]) + " ")
    else " " + (Escape(cells[0]) + (" |" + RowInner(cells[1..])))
  }

  lemma {:induction false} SplitInner(cells: Row)
    requires cells != []
    ensures SplitPipes(RowInner(cells), false) == Pieces(cells)
    ensures RowInner(cells) != "" && RowInner(cells)[|RowInner(cells)| - 1] == ' '
  {
    PiecesUnroll(cells);
    if |cells| == 1 {
      SplitOnly(cells[0]);
      assert Pieces(cells[1..]) == [];
    } else {
      SplitInner(cells[1..]);
      SplitFirst(cells[0], RowInner(cells[1..]), Pieces(cells[1..]));
    }
  }

  lemma {:induction false} BodyIsInner(cells: Row)
    requires cells != []
    ensures RowBody(cells) == RowInner(cells) + "|"
  {
    if |cells| == 1 {
      assert RowBody(cells[1..]) == "";
    } else {
      BodyIsInner(cells[1..]);
    }
  }

  lemma ReadRowBack(cells: Row)
    requires cells != [] && GoodRow(cells)
    ensures ReadRow(RowLine(cells)) == cells
  {
    var body := RowBody(cells);
    RowLineIsBody(cells);
    BodyIsInner(cells);
    SplitInner(cells);
    assert DropFirstPipe(RowLine(cells)) == body;
    assert DropLastPipe(body) == RowInner(cells);
    forall i | 0 <= i < |cells| ensures ReadCell(Pieces(cells)[i]) == cells[i] {
      ReadCellBack(cells[i]);
    }
    assert MapCells(Pieces(cells)) == cells;
  }

  // ---------------------------------------------------------------- alignment rows

  lemma {:induction false} FindIn(s: string, c: char, rest: string)
    requires c !in s
    ensures Find(s + [c] + rest, c) == |s|
  {
    if s == "" {
      assert s + [c] + rest == [c] + rest;
    } else {
      assert (s + [c] + rest)[1..] == s[1..] + [c] + rest;
      FindIn(s[1..], c, rest);
    }
  }

  lemma {:induction false} EscapeWithoutPipes(cell: string)
    requires '|' !in cell
    ensures Escape(cell) == cell
  {
    if cell != "" {
      EscapeWithoutPipes(cell[1..]);
      assert cell == [cell[0]] + cell[1..];
    }
  }

  lemma AlignmentHasNoPipe(cell: string)
    requires IsAlignment(cell)
    ensures '|' !in cell && '\\' !in cell && Trimmed(cell)
  {
    var open := if ":" <= cell then cell[1..] else cell;
    var dashes := if open != "" && open[|open| - 1] == ':' then open[..|open| - 1] else open;
    assert forall i :: 0 <= i < |open| ==> open[i] == '-' || open[i] == ':' by {
      forall i | 0 <= i < |open| ensures open[i] == '-' || open[i] == ':' {
        if i < |dashes| { assert open[i] == dashes[i]; }
      }
    }
    forall i | 0 <= i < |cell| ensures cell[i] == '-' || cell[i] == ':' {
      if ":" <= cell && i > 0 { assert cell[i] == open[i - 1]; }
    }
  }

  /** Cut at a raw pipe, an escaped cell that holds one shows its backslash. */
  lemma {:induction false} EscapedPipeShows(cell: string, rest: string)
    requires '|' in cell
    ensures var k := Find(Escape(cell) + rest, '|');
            1 <= k < |Escape(cell)| && Escape(cell)[k - 1] == '\\'
  {
    var s := Escape(cell) + rest;
    if cell[0] == '|' {
      assert s[1..][0] == '|';
    } else {
      assert cell == [cell[0]] + cell[1..];
      assert s[1..] == Escape(cell[1..]) + rest;
      EscapedPipeShows(cell[1..], rest);
    }
  }

  lemma AlignmentPiece(cell: string, rest: string)
    requires Trimmed(cell)
    ensures var s := " " + Escape(cell) + " |" + rest;
            var k := Find(s, '|');
            k < |s| && (IsAlignment(Trim(s[..k])) <==> IsAlignment(cell)) &&
            (IsAlignment(cell) ==> s[k + 1..] == rest)
  {
    var s := " " + Escape(cell) + " |" + rest;
    if '|' in cell {
      assert s == " " + (Escape(cell) + (" |" + rest));
      assert s[1..] == Escape(cell) + (" |" + rest);
      EscapedPipeShows(cell, " |" + rest);
      var k := Find(s, '|');
      assert s[k - 1] == '\\';
      BackslashStays(s[..k]);
      if IsAlignment(Trim(s[..k])) { AlignmentHasNoPipe(Trim(s[..k])); }
      if IsAlignment(cell) { AlignmentHasNoPipe(cell); }
    } else {
      EscapeWithoutPipes(cell);
      assert s == (" " + cell + " ") + ['|'] + rest;
      FindIn(" " + cell + " ", '|', rest);
      TrimPadded(" ", cell, " ");
      assert s[..|cell| + 2] == " " + cell + " ";
    }
  }

  lemma BackslashStays(s: string)
    requires s != "" && s[|s| - 1] == '\\'
    ensures '\\' in Trim(s)
  {
    var a, b := TrimSplits(s);
    assert s == s[..a] + Trim(s) + s[b..];
  }

  lemma {:induction false} BodyIsAlignmentIff(cells: Row)
    requires cells != [] && GoodRow(cells)
    ensures AlignmentCells(RowBody(cells)) <==> AlignmentOnly(cells)
  {
    var rest := RowBody(cells[1..]);
    AlignmentPiece(cells[0], rest);
    assert AlignmentOnly(cells) <==> IsAlignment(cells[0]) && AlignmentOnly(cells[1..]) by {
      if IsAlignment(cells[0]) && AlignmentOnly(cells[1..]) {
        forall j | 0 <= j < |cells| ensures IsAlignment(cells[j]) {
          if j > 0 { assert cells[j] == cells[1..][j - 1]; }
        }
      }
    }
    if |cells| > 1 {
      BodyIsAlignmentIff(cells[1..]);
      assert rest != "";
    } else {
      assert rest == "";
    }
  }

  lemma RowLineShape(cells: Row)
    requires cells != []
    ensures Trim(RowLine(cells)) == RowLine(cells) && "|" <= RowLine(cells)
    ensures GoodRow(cells) ==> (IsAlignmentRow(RowLine(cells)) <==> AlignmentOnly(cells))
  {
    RowLineIsBody(cells);
    assert RowLine(cells)[1..] == RowBody(cells);
    TrimmedTrimsToItself(RowLine(cells));
    if GoodRow(cells) { BodyIsAlignmentIff(cells); }
  }

  lemma AlignmentFromFirst(s: string, k: nat, rest: string)
    requires k < |s| && Find(s, '|') == k && IsAlignment(Trim(s[..k])) && s[k + 1..] == rest
    ensures AlignmentCells(s) <==> rest == "" || AlignmentCells(rest)
  {
  }

  lemma AlignmentCellFirst(cell: string, rest: string)
    requires IsAlignment(cell)
    ensures AlignmentCells(" " + cell + " |" + rest) <==> rest == "" || AlignmentCells(rest)
  {
    var padded := " " + cell + " ";
    var s := padded + ['|'] + rest;
    AlignmentHasNoPipe(cell);
    assert " " + cell + " |" + rest == s;
    FindIn(padded, '|', rest);
    TrimPadded(" ", cell, " ");
    assert s[..|padded|] == padded && s[|padded| + 1..] == rest;
    AlignmentFromFirst(s, |padded|, rest);
  }

  lemma {:induction false} RepeatedCellAligns(cell: string, width: nat)
    requires width >= 1 && IsAlignment(cell)
    ensures AlignmentCells(Repeat(" " + cell + " |", width))
  {
    var rest := Repeat(" " + cell + " |", width - 1);
    AlignmentCellFirst(cell, rest);
    if width > 1 { RepeatedCellAligns(cell, width - 1); }
  }

  lemma {:induction false} RepeatChars(s: string, n: nat)
    requires s != ""
    ensures forall c :: c in Repeat(s, n) ==> c in s
    ensures n >= 1 ==> Repeat(s, n) != "" && Repeat(s, n)[|Repeat(s, n)| - 1] == s[|s| - 1]
  {
    if n > 0 { RepeatChars(s, n - 1); }
  }

  lemma DashesAlign()
    ensures IsAlignment("---")
  {
    var s := "---";
    assert s[0] == '-' && s[2] == '-' && |s| == 3;
    assert IsAlignment(s);
  }

  lemma DashesRepeat(width: nat)
    requires width >= 1
    ensures AlignmentCells(Repeat(" --- |", width))
  {
    DashesAlign();
    RepeatedCellAligns("---", width);
    assert " --- |" == " " + "---" + " |";
  }

  lemma AlignmentLineShape(width: nat)
    requires width >= 1
    ensures AlignmentCells(Repeat(" --- |", width))
    ensures var s := Repeat(" --- |", width); s != "" && s[|s| - 1] == '|' && '\n' !in s && '\r' !in s
  {
    DashesRepeat(width);
    RepeatChars(" --- |", width);
  }

  lemma AlignmentLineIsRow(width: nat)
    requires width >= 1
    ensures var s := AlignmentLine(width); IsAlignmentRow(s) && Trim(s) == s && OneLine(s)
  {
    var s := AlignmentLine(width);
    AlignmentLineShape(width);
    assert s[1..] == Repeat(" --- |", width);
    TrimmedTrimsToItself(s);
  }

  // ---------------------------------------------------------------- the whole grid

  lemma {:induction false} EscapeChars(cell: string)
    ensures forall i :: 0 <= i < |Escape(cell)| ==> Escape(cell)[i] == '\\' || Escape(cell)[i] in cell
  {
    if cell != "" { EscapeChars(cell[1..]); }
  }

  lemma {:induction false} BodyOneLine(cells: Row, c: char)
    requires c == '\n' || c == '\r'
    requires forall j :: 0 <= j < |cells| ==> c !in cells[j]
    ensures c !in RowBody(cells)
  {
    if cells != [] {
      EscapeChars(cells[0]);
      assert cells[0] == cells[0] && c !in cells[0];
      BodyOneLine(cells[1..], c);
    }
  }

  lemma RowLineWithout(cells: Row, c: char)
    requires cells != [] && (c == '\n' || c == '\r')
    requires forall j :: 0 <= j < |cells| ==> c !in cells[j]
    ensures c !in RowLine(cells)
  {
    RowLineIsBody(cells);
    BodyOneLine(cells, c);
  }

  /** The grid with the rows that read as alignment left out. */
  function DropAlignment(rows: seq<Row>): seq<Row> {
    if rows == [] then []
    else (if AlignmentOnly(rows[0]) then [] else [rows[0]]) + DropAlignment(rows[1..])
  }

  predicate GoodGrid(rows: seq<Row>) {
    forall i :: 0 <= i < |rows| ==> GoodRow(rows[i])
  }

  lemma RowReadsBack(row: Row, later: seq<string>, rest: seq<Row>)
    requires row != [] && GoodRow(row) && ReadRows(later) == DropAlignment(rest)
    ensures ReadRows([RowLine(row)] + later) == DropAlignment([row] + rest)
  {
    RowLineShape(row);
    ReadRowBack(row);
    assert ([RowLine(row)] + later)[1..] == later;
    assert ([row] + rest)[1..] == rest;
  }

  lemma {:induction false} RowLinesReadBack(rows: seq<Row>, width: nat)
    requires width >= 1 && GoodGrid(rows) && Widest(rows) <= width
    ensures ReadRows(RowLines(rows, width)) == DropAlignment(PadRows(rows, width))
    ensures forall l :: l in RowLines(rows, width) ==> '\n' !in l
  {
    if rows != [] {
      var row := PadRow(rows[0], width);
      RowLinesReadBack(rows[1..], width);
      assert GoodRow(rows[0]);
      RowLineWithout(row, '\n');
      assert PadRows(rows, width) == [row] + PadRows(rows[1..], width);
      RowReadsBack(row, RowLines(rows[1..], width), PadRows(rows[1..], width));
    }
  }

  lemma AlignmentIsNoRow(alignment: string, later: seq<string>)
    requires IsAlignmentRow(Trim(alignment))
    ensures ReadRows([alignment] + later) == ReadRows(later)
  {
    assert ([alignment] + later)[1..] == later;
  }

  lemma SameRowsAfter(first: string, a: seq<string>, b: seq<string>)
    requires ReadRows(a) == ReadRows(b)
    ensures ReadRows([first] + a) == ReadRows([first] + b)
  {
    assert ([first] + a)[1..] == a && ([first] + b)[1..] == b;
  }

  lemma ReadRowsSkipAlignment(first: string, alignment: string, later: seq<string>)
    requires IsAlignmentRow(Trim(alignment))
    ensures ReadRows([first] + ([alignment] + later)) == ReadRows([first] + later)
  {
    AlignmentIsNoRow(alignment, later);
    SameRowsAfter(first, [alignment] + later, later);
  }

  lemma LinesSplit(rows: seq<Row>, table: seq<string>, first: string, later: seq<string>)
    requires table == TableLines(rows) && table == [first, AlignmentLine(Width(rows))] + later
    requires forall l :: l in [first] + later ==> '\n' !in l
    ensures Split(TableText(rows)) == table
  {
    AlignmentLineIsRow(Width(rows));
    forall l | l in table ensures '\n' !in l {
      if l != AlignmentLine(Width(rows)) { assert l in [first] + later; }
    }
    SplitJoin(table);
    ExplodeOneLines(table);
  }

  lemma TableLinesReadBack(rows: seq<Row>)
    requires rows != [] && GoodGrid(rows)
    ensures ReadRows(Split(TableText(rows))) == DropAlignment(Rectangle(rows))
  {
    var width := Width(rows);
    var lines := RowLines(rows, width);
    RowLinesReadBack(rows, width);
    AlignmentLineIsRow(width);
    assert lines == [lines[0]] + lines[1..];
    LinesSplit(rows, TableLines(rows), lines[0], lines[1..]);
    ReadRowsSkipAlignment(lines[0], AlignmentLine(width), lines[1..]);
    assert TableLines(rows) == [lines[0]] + ([AlignmentLine(width)] + lines[1..]);
  }

  lemma {:induction false} DropsNone(rows: seq<Row>)
    requires forall i :: 0 <= i < |rows| ==> !AlignmentOnly(rows[i])
    ensures DropAlignment(rows) == rows
  {
    if rows != [] {
      forall i | 0 <= i < |rows[1..]| ensures !AlignmentOnly(rows[1..][i]) { assert rows[1..][i] == rows[i + 1]; }
      DropsNone(rows[1..]);
      assert rows == [rows[0]] + rows[1..];
    }
  }

  lemma {:induction false} DropsSome(rows: seq<Row>, i: nat)
    requires i < |rows| && AlignmentOnly(rows[i])
    ensures |DropAlignment(rows)| < |rows|
  {
    if i > 0 {
      DropsSome(rows[1..], i - 1);
    } else {
      DropsAtMost(rows[1..]);
    }
  }

  lemma {:induction false} DropsAtMost(rows: seq<Row>)
    ensures |DropAlignment(rows)| <= |rows|
  {
    if rows != [] { DropsAtMost(rows[1..]); }
  }

  lemma DropAlignmentShape(rows: seq<Row>)
    ensures |DropAlignment(rows)| <= |rows|
    ensures |DropAlignment(rows)| == |rows| <==> forall i :: 0 <= i < |rows| ==> !AlignmentOnly(rows[i])
    ensures |DropAlignment(rows)| == |rows| ==> DropAlignment(rows) == rows
  {
    DropsAtMost(rows);
    if i :| 0 <= i < |rows| && AlignmentOnly(rows[i]) { DropsSome(rows, i); } else { DropsNone(rows); }
  }

  lemma RectangleShape(rows: seq<Row>)
    ensures GoodGrid(Rectangle(rows)) <==> GoodGrid(rows)
    ensures forall i :: 0 <= i < |rows| ==> |Rectangle(rows)[i]| == Width(rows)
  {
    WidestBounds(rows);
    if GoodGrid(Rectangle(rows)) {
      forall i | 0 <= i < |rows| ensures GoodRow(rows[i]) {
        assert GoodRow(Rectangle(rows)[i]);
        forall j | 0 <= j < |rows[i]| ensures GoodCell(rows[i][j]) {
          assert Rectangle(rows)[i][j] == rows[i][j];
        }
      }
    }
    if GoodGrid(rows) {
      forall i | 0 <= i < |rows| ensures GoodRow(Rectangle(rows)[i]) {
        assert GoodRow(rows[i]);
      }
    }
  }

  lemma {:induction false} WidestBounds(rows: seq<Row>)
    ensures forall i :: 0 <= i < |rows| ==> |rows[i]| <= Widest(rows)
    ensures rows != [] ==> exists i :: 0 <= i < |rows| && |rows[i]| == Widest(rows)
  {
    if rows != [] {
      WidestBounds(rows[1..]);
      forall i | 0 <= i < |rows| ensures |rows[i]| <= Widest(rows) {
        if i > 0 { assert rows[i] == rows[1..][i - 1]; }
      }
      if |rows[0]| == Widest(rows) {
      } else {
        var i :| 0 <= i < |rows[1..]| && |rows[1..][i]| == Widest(rows[1..]);
        assert rows[i + 1] == rows[1..][i];
      }
    }
  }

  /** Rows that are already all one width are not padded any further. */
  lemma PadRowsFixed(rows: seq<Row>, width: nat)
    requires rows != [] && forall i :: 0 <= i < |rows| ==> |rows[i]| == width
    ensures Widest(rows) == width && PadRows(rows, width) == rows
  {
    WidestBounds(rows);
  }

  // ---------------------------------------------------------------- what reading can produce

  lemma {:induction false} UnescapeShape(s: string)
    ensures s != "" ==> Unescape(s) != "" && Unescape(s)[|Unescape(s)| - 1] == s[|s| - 1]
    ensures s != "" ==> Unescape(s)[0] == s[0] || Unescape(s)[0] == '|'
    ensures '\n' !in s ==> '\n' !in Unescape(s)
  {
    if "\\|" <= s {
      UnescapeShape(s[2..]);
      if |s| > 2 { assert s[2..][|s| - 3] == s[|s| - 1]; }
    } else if s != "" {
      UnescapeShape(s[1..]);
      if |s| > 1 { assert s[1..][|s| - 2] == s[|s| - 1]; }
    }
  }

  lemma {:induction false} SplitPipesChars(s: string, escaped: bool, c: char)
    requires c !in s
    ensures forall i :: 0 <= i < |SplitPipes(s, escaped)| ==> c !in SplitPipes(s, escaped)[i]
  {
    if s != "" { SplitPipesChars(s[1..], s[0] == '\\', c); }
  }

  lemma ReadCellIsGood(piece: string)
    requires '\n' !in piece
    ensures GoodCell(ReadCell(piece))
  {
    var a, b := TrimSplits(piece);
    UnescapeShape(Trim(piece));
  }

  lemma ReadRowIsGood(line: string)
    requires '\n' !in line
    ensures GoodRow(ReadRow(line)) && |ReadRow(line)| >= 1
  {
    var s := DropLastPipe(DropFirstPipe(line));
    SplitPipesChars(s, false, '\n');
    forall i | 0 <= i < |ReadRow(line)| ensures GoodCell(ReadRow(line)[i]) {
      ReadCellIsGood(SplitPipes(s, false)[i]);
    }
  }

  lemma {:induction false} ReadRowsAreGood(lines: seq<string>)
    requires forall i :: 0 <= i < |lines| ==> '\n' !in lines[i]
    ensures GoodGrid(ReadRows(lines))
    ensures forall i :: 0 <= i < |ReadRows(lines)| ==> |ReadRows(lines)[i]| >= 1
  {
    if lines != [] {
      ReadRowsAreGood(lines[1..]);
      var a, b := TrimSplits(lines[0]);
      ReadRowIsGood(Trim(lines[0]));
    }
  }

  /** What the editor can rely on: rows, all one width, of trimmed single-line cells. */
  ghost predicate Grid(rows: seq<Row>) {
    rows != [] && GoodGrid(rows) && forall i :: 0 <= i < |rows| ==> |rows[i]| == Width(rows)
  }

  lemma NoRowsIsGrid()
    ensures Grid(NO_ROWS)
  {
    assert NO_ROWS[1..][1..] == [];
    assert Widest(NO_ROWS[1..]) == 2;
    assert Widest(NO_ROWS) == 2;
  }

  lemma RectangleIsGrid(rows: seq<Row>)
    requires rows != [] && GoodGrid(rows)
    ensures Grid(Rectangle(rows))
  {
    RectangleShape(rows);
    PadRowsFixed(Rectangle(rows), Width(rows));
  }

  lemma TableRowsIsGrid(text: string)
    ensures Grid(TableRows(text))
  {
    var rows := ReadRows(Split(text));
    SplitChars(text);
    ReadRowsAreGood(Split(text));
    if rows == [] {
      NoRowsIsGrid();
    } else {
      WidestBounds(rows);
      assert |rows[0]| >= 1;
      RectangleIsGrid(rows);
    }
  }

  // ---------------------------------------------------------------- the round trip

  lemma NotAlignment(row: Row, j: nat)
    requires j < |row| && row[j] == ""
    ensures !AlignmentOnly(row)
  {
    assert !IsAlignment(row[j]);
  }

  /**
   A grid written as Markdown and read back is the same grid, squared off, exactly when it has rows,
   its cells are trimmed single lines, and none of its rows consists of nothing but dashes that read
   as the alignment row. Pipes and backslashes in cells are always safe.
   */
  /** What a table of good cells reads back as. */
  lemma GoodTableReads(rows: seq<Row>, grid: seq<Row>, back: seq<Row>)
    requires rows != [] && GoodGrid(rows) && grid == Rectangle(rows) && back == DropAlignment(grid)
    ensures TableRows(TableText(rows)) == if back == [] then NO_ROWS else PadRows(back, Widest(back))
  {
    TableLinesReadBack(rows);
  }

  lemma GoodTableRoundTripIff(rows: seq<Row>, grid: seq<Row>)
    requires rows != [] && GoodGrid(rows) && grid == Rectangle(rows)
    ensures TableRows(TableText(rows)) == grid <==> forall i :: 0 <= i < |grid| ==> !AlignmentOnly(grid[i])
  {
    var back := DropAlignment(grid);
    GoodTableReads(rows, grid, back);
    DropAlignmentShape(grid);
    RectangleShape(rows);
    if |back| == |grid| {
      PadRowsFixed(grid, Width(rows));
    } else if back == [] {
      AlignmentOnlyIsLost(grid);
    }
  }

  lemma KeepableIff(rows: seq<Row>, grid: seq<Row>)
    requires grid == Rectangle(rows)
    ensures (forall i :: 0 <= i < |grid| ==> Keepable(grid[i])) <==>
              (GoodGrid(rows) && forall i :: 0 <= i < |grid| ==> !AlignmentOnly(grid[i]))
  {
    RectangleShape(rows);
  }

  lemma TableRoundTripIff(rows: seq<Row>)
    ensures TableRows(TableText(rows)) == Rectangle(rows) <==>
              (rows != [] && forall i :: 0 <= i < |rows| ==> Keepable(Rectangle(rows)[i]))
  {
    TableRowsIsGrid(TableText(rows));
    RectangleShape(rows);
    KeepableIff(rows, Rectangle(rows));
    if rows != [] && GoodGrid(rows) { GoodTableRoundTripIff(rows, Rectangle(rows)); }
  }

  lemma AlignmentOnlyIsLost(grid: seq<Row>)
    requires grid != [] && DropAlignment(grid) == []
    ensures grid != NO_ROWS
  {
    assert AlignmentOnly(grid[0]);
    if grid == NO_ROWS { NotAlignment(grid[0], 0); }
  }

  /** The failing family is real: a one-column table cannot hold a cell of dashes. */
  lemma OneCell(cell: string)
    ensures Rectangle([[cell]]) == [[cell]]
  {
    var rows: seq<Row> := [[cell]];
    assert rows[1..] == [];
    assert Widest(rows) == 1;
  }

  lemma DashesAreLost(dashes: string)
    requires IsAlignment(dashes)
    ensures TableRows(TableText([[dashes]])) != Rectangle([[dashes]])
  {
    OneCell(dashes);
    TableRoundTripIff([[dashes]]);
    assert AlignmentOnly(Rectangle([[dashes]])[0]);
  }
}
