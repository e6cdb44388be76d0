/**
 Which tables survive a save: those whose cells are single lines.
 */
module TableSaves {
  import opened Text
  import opened Markdown
  import opened Tables
  import RoundTrip

  predicate SingleLines(rows: seq<Row>) {
    forall i, j :: 0 <= i < |rows| && 0 <= j < |rows[i]| ==> OneLine(rows[i][j])
  }

  lemma {:induction false} RowLinesLegible(rows: seq<Row>, width: nat)
    requires width >= 1 && Widest(rows) <= width
    requires SingleLines(rows)
    ensures forall l :: l in RowLines(rows, width) ==> OneLine(l) && Trim(l) == l && "|" <= l
  {
    if rows != [] {
      var row := PadRow(rows[0], width);
      RowLineShape(row);
      RowLineWithout(row, '\n');
      RowLineWithout(row, '\r');
      RowLinesLegible(rows[1..], width);
    }
  }

  ghost predicate TableLine(line: string) {
    OneLine(line) && Trim(line) == line && "|" <= line
  }

  lemma TableLinesShape(rows: seq<Row>)
    requires SingleLines(rows)
    ensures var lines := TableLines(rows);
            |lines| >= 2 && IsAlignmentRow(lines[1]) && forall i :: 0 <= i < |lines| ==> TableLine(lines[i])
  {
    var width := Width(rows);
    var padded: seq<Row> := if rows == [] then [[]] else rows;
    var written := RowLines(padded, width);
    var bare: seq<Row> := [[]];
    assert Widest(bare) == 0 by { assert bare[1..] == []; }
    RowLinesLegible(padded, width);
    AlignmentLineIsRow(width);
    assert RowLines(padded, width)[1..] == RowLines(padded[1..], width);
    assert TableLines(rows) == [written[0], AlignmentLine(width)] + written[1..];
    forall i | 0 <= i < |TableLines(rows)| ensures TableLine(TableLines(rows)[i]) {
      if i > 1 { assert TableLines(rows)[i] in written; }
    }
  }

  /** Every grid of single-line cells, written by the table editor, is a block that survives a save. */
  lemma TableTextIsLegible(rows: seq<Row>)
    requires SingleLines(rows)
    ensures RoundTrip.LegibleTable(TableText(rows))
  {
    TableLinesShape(rows);
    RoundTrip.SplitJoinLines(TableLines(rows));
  }

  // ---------------------------------------------------------------- a line break in a cell

  /** Some line break is not followed by a pipe. */
  predicate Breaks(s: string) {
    s != "" && ((|s| > 1 && s[0] == '\n' && s[1] != '|') || Breaks(s[1..]))
  }

  lemma {:induction false} BreaksWithin(x: string, s: string, y: string)
    requires Breaks(s)
    ensures Breaks(x + s + y)
  {
    if x != "" {
      assert (x + s + y)[1..] == x[1..] + s + y;
      BreaksWithin(x[1..], s, y);
    } else if !(|s| > 1 && s[0] == '\n' && s[1] != '|') {
      assert (x + s + y)[1..] == "" + s[1..] + y;
      BreaksWithin("", s[1..], y);
    } else {
      assert (x + s + y)[0] == s[0] && (x + s + y)[1] == s[1];
    }
  }

  /** Escaping leaves no pipe at the start of what follows a line break in a cell. */
  lemma {:induction false} CellBreaks(cell: string)
    requires '\n' in cell
    ensures Breaks(Escape(cell) + " ")
  {
    var first := if cell[0] == '|' then "\\|" else [cell[0]];
    var rest := Escape(cell[1..]) + " ";
    assert Escape(cell) + " " == first + rest;
    if cell[0] == '\n' {
      assert rest[0] != '|';
      assert (first + rest)[1] == rest[0];
    } else {
      CellBreaks(cell[1..]);
      BreaksWithin(first, rest, "");
      assert first + rest + "" == first + rest;
    }
  }

  lemma LineStart(s: string)
    requires Split(s)[0] != ""
    ensures s != "" && Split(s)[0][0] == s[0]
  {
  }

  /** A text whose lines all start with a pipe has no such break. */
  lemma {:induction false} PipeLinesDoNotBreak(s: string)
    requires forall i :: 1 <= i < |Split(s)| ==> "|" <= Split(s)[i]
    ensures !Breaks(s)
  {
    if s != "" {
      var r := Split(s[1..]);
      if s[0] == '\n' {
        assert forall i :: 0 <= i < |r| ==> r[i] == Split(s)[i + 1];
        assert "|" <= r[0];
        LineStart(s[1..]);
      } else {
        assert forall i :: 1 <= i < |r| ==> r[i] == Split(s)[i];
      }
      PipeLinesDoNotBreak(s[1..]);
    }
  }

  // ---------------------------------------------------------------- where a cell is written

  lemma {:induction false} JoinHolds(lines: seq<string>, i: nat) returns (x: string, y: string)
    requires i < |lines|
    ensures Join(lines) == x + lines[i] + y
  {
    if |lines| == 1 {
      x, y := "", "";
    } else if i == 0 {
      x, y := "", "\n" + Join(lines[1..]);
    } else {
      var u, v := JoinHolds(lines[1..], i - 1);
      x, y := lines[0] + "\n" + u, v;
      assert lines[0] + "\n" + (u + lines[i] + v) == x + lines[i] + y;
    }
  }

  lemma {:induction false} BodyHolds(cells: Row, j: nat) returns (x: string, y: string)
    requires j < |cells|
    ensures RowBody(cells) == x + (Escape(cells[j]) + " ") + y
  {
    if j == 0 {
      x, y := " ", "|" + RowBody(cells[1..]);
      assert RowBody(cells) == x + (Escape(cells[0]) + " ") + y;
    } else {
      var u, v := BodyHolds(cells[1..], j - 1);
      x, y := " " + Escape(cells[0]) + " |" + u, v;
      assert RowBody(cells) == " " + Escape(cells[0]) + " |" + RowBody(cells[1..]);
    }
  }

  lemma {:induction false} RowLinesAt(rows: seq<Row>, width: nat, i: nat)
    requires i < |rows|
    ensures |RowLines(rows, width)| == |rows| && RowLines(rows, width)[i] == RowLine(PadRow(rows[i], width))
  {
    if i > 0 {
      RowLinesAt(rows[1..], width, i - 1);
    } else if |rows| > 1 {
      RowLinesAt(rows[1..], width, 0);
    } else {
      assert RowLines(rows[1..], width) == [];
    }
  }

  /** The line a row of the grid is written on. */
  lemma RowIsWritten(rows: seq<Row>, i: nat) returns (k: nat)
    requires i < |rows|
    ensures k < |TableLines(rows)| && TableLines(rows)[k] == RowLine(PadRow(rows[i], Width(rows)))
  {
    if i == 0 {
      k := 0;
    } else {
      RowLinesAt(rows[1..], Width(rows), i - 1);
      k := i + 1;
    }
  }

  lemma RegroupText(a: string, pipe: string, u: string, cell: string, v: string, b: string)
    ensures a + (pipe + (u + cell + v)) + b == (a + pipe + u) + cell + (v + b)
  {
    Regroup(pipe, u + cell, v);
    Regroup(pipe, u, cell);
    Regroup(a, pipe + u + cell, v);
    Regroup(a, pipe + u, cell);
    Regroup(a, pipe, u);
    Regroup(a + pipe + u + cell, v, b);
  }

  lemma TextHolds(rows: seq<Row>, i: nat, j: nat) returns (x: string, y: string)
    requires i < |rows| && j < |rows[i]|
    ensures TableText(rows) == x + (Escape(rows[i][j]) + " ") + y
  {
    var k := RowIsWritten(rows, i);
    WidestBounds(rows);
    var row := PadRow(rows[i], Width(rows));
    var a, b := JoinHolds(TableLines(rows), k);
    var u, v := BodyHolds(row, j);
    RowLineIsBody(row);
    x, y := a + "|" + u, v + b;
    RegroupText(a, "|", u, Escape(row[j]) + " ", v, b);
  }

  lemma {:induction false} EscapeHas(cell: string, c: char)
    requires c in cell
    ensures c in Escape(cell)
  {
    if cell[0] != c { EscapeHas(cell[1..], c); }
  }

  // ---------------------------------------------------------------- what survives

  lemma LegibleHasSingleLines(rows: seq<Row>)
    requires RoundTrip.LegibleTable(TableText(rows))
    ensures SingleLines(rows)
  {
    forall i, j | 0 <= i < |rows| && 0 <= j < |rows[i]| ensures OneLine(rows[i][j]) {
      var cell := rows[i][j];
      var x, y := TextHolds(rows, i, j);
      PipeLinesDoNotBreak(TableText(rows));
      if '\n' in cell {
        CellBreaks(cell);
        BreaksWithin(x, Escape(cell) + " ", y);
      }
      if '\r' in cell { EscapeHas(cell, '\r'); }
    }
  }

  /** The file can hold a written table exactly when its cells are single lines, whatever else they hold. */
  lemma TableIsWritableIff(rows: seq<Row>)
    ensures RoundTrip.Writable(Item(Table, TableText(rows), false, 0)) <==> SingleLines(rows)
  {
    if SingleLines(rows) { TableTextIsLegible(rows); }
    if RoundTrip.LegibleTable(TableText(rows)) { LegibleHasSingleLines(rows); }
  }

  /** Wherever it stands in a document that is otherwise one to save, a save keeps the document exactly then. */
  lemma TableSurvivesIff(items: seq<Item>, k: nat, rows: seq<Row>)
    requires k < |items| && items[k] == Item(Table, TableText(rows), false, 0)
    requires RoundTrip.WellNested(items) && forall i :: 0 <= i < |items| && i != k ==> RoundTrip.Writable(items[i])
    ensures Markdown.Parse(Markdown.Serialize(items)) == items <==> SingleLines(rows)
  {
    RoundTrip.RoundTripIff(items);
    TableIsWritableIff(rows);
    assert items[k] != EMPTY_PARAGRAPH;
    assert items != [EMPTY_PARAGRAPH];
    if RoundTrip.Saveable(items) { assert RoundTrip.Writable(items[k]); }
  }
}
