/**
 Tables as people write them: spaced or not, closed at the end or not, and ragged.
 */
module HandTables {
  import opened Text
  import opened Markdown
  import opened Tables

  /** Characters that mean only themselves in a row. */
  predicate Bare(cell: string) {
    '|' !in cell && '\\' !in cell
  }

  /** Cells with a pipe between every two. */
  function Between(cells: seq<string>): string {
    if cells == [] then "" else if |cells| == 1 then cells[0] else cells[0] + ("|" + Between(cells[1..]))
  }

  lemma {:induction false} BareIsOnePiece(cell: string, s: string)
    requires Bare(cell)
    ensures var r := SplitPipes(s, false); SplitPipes(cell + s, false) == [cell + r[0]] + r[1..]
  {
    var r := SplitPipes(s, false);
    if cell == "" {
      assert cell + s == s && cell + r[0] == r[0];
      assert r == [r[0]] + r[1..];
    } else {
      assert (cell + s)[1..] == cell[1..] + s;
      BareIsOnePiece(cell[1..], s);
      assert cell + r[0] == [cell[0]] + (cell[1..] + r[0]);
    }
  }

  lemma PieceThenPipe(cell: string, later: string)
    requires Bare(cell)
    ensures SplitPipes(cell + ("|" + later), false) == [cell] + SplitPipes(later, false)
  {
    BareIsOnePiece(cell, "|" + later);
    SplitPipeFirst(later);
    var r := [""] + SplitPipes(later, false);
    assert r[1..] == SplitPipes(later, false) && cell + r[0] == cell;
  }

  lemma LastPiece(cell: string)
    requires Bare(cell)
    ensures SplitPipes(cell, false) == [cell]
  {
    BareIsOnePiece(cell, "");
    assert cell + "" == cell;
    assert SplitPipes("", false) == [""];
  }

  lemma {:induction false} CellsAreSplit(cells: seq<string>)
    requires cells != [] && forall i :: 0 <= i < |cells| ==> Bare(cells[i])
    ensures SplitPipes(Between(cells), false) == cells
  {
    if |cells| == 1 {
      LastPiece(cells[0]);
    } else {
      CellsAreSplit(cells[1..]);
      PieceThenPipe(cells[0], Between(cells[1..]));
      assert cells == [cells[0]] + cells[1..];
    }
  }

  lemma BetweenMore(first: string, later: string, s: string)
    requires s == first + ("|" + later) && '\\' !in first && '\\' !in later
    ensures '\\' !in s
    ensures later != "" ==> s != "" && s[|s| - 1] == later[|later| - 1]
  {
  }

  lemma LastOfOne(cell: string)
    requires Bare(cell) && cell != ""
    ensures cell[|cell| - 1] != '|'
  {
    assert cell[|cell| - 1] in cell;
  }

  lemma {:induction false} BetweenEnd(cells: seq<string>)
    requires cells != [] && forall i :: 0 <= i < |cells| ==> Bare(cells[i])
    ensures '\\' !in Between(cells)
    ensures cells[|cells| - 1] != "" ==> Between(cells) != "" && Between(cells)[|Between(cells)| - 1] != '|'
    decreases |cells|
  {
    if |cells| == 1 {
      if cells[0] != "" { LastOfOne(cells[0]); }
    } else {
      BetweenEnd(cells[1..]);
      assert Between(cells) == cells[0] + ("|" + Between(cells[1..]));
      BetweenMore(cells[0], Between(cells[1..]), Between(cells));
    }
  }

  lemma {:induction false} BareIsUnescaped(cell: string)
    requires '\\' !in cell
    ensures Unescape(cell) == cell
  {
    if cell != "" {
      BareIsUnescaped(cell[1..]);
      assert cell == [cell[0]] + cell[1..];
    }
  }

  lemma CellIsTrimmed(cell: string)
    requires Bare(cell)
    ensures ReadCell(cell) == Trim(cell)
  {
    var a, b := TrimSplits(cell);
    BareIsUnescaped(Trim(cell));
  }

  lemma PipesAreDropped(s: string, closed: bool)
    requires '\\' !in s && (closed || (s != "" && s[|s| - 1] != '|'))
    ensures DropLastPipe(DropFirstPipe("|" + (s + (if closed then "|" else "")))) == s
  {
    var t := s + (if closed then "|" else "");
    assert ("|" + t)[1..] == t;
    if closed { assert t[..|t| - 1] == s; } else { assert t == s; }
  }

  /**
   A row of bare cells is read as those cells, trimmed, whatever the spacing, and whether or not a pipe
   closes it, as long as the last cell is not left out with its pipe.
   */
  lemma HandRowReads(cells: seq<string>, closed: bool)
    requires cells != [] && (forall i :: 0 <= i < |cells| ==> Bare(cells[i]))
    requires closed || cells[|cells| - 1] != ""
    ensures var row := ReadRow("|" + (Between(cells) + (if closed then "|" else "")));
            |row| == |cells| && forall i :: 0 <= i < |cells| ==> row[i] == Trim(cells[i])
  {
    BetweenEnd(cells);
    PipesAreDropped(Between(cells), closed);
    CellsAreSplit(cells);
    forall i | 0 <= i < |cells| ensures ReadCell(cells[i]) == Trim(cells[i]) { CellIsTrimmed(cells[i]); }
  }

  /** Rows that are shorter than the widest are filled up with empty cells. */
  lemma RowsAreFilled(text: string)
    requires ReadRows(Split(text)) != []
    ensures var rows, grid := ReadRows(Split(text)), TableRows(text);
            |grid| == |rows| &&
            (forall i :: 0 <= i < |rows| ==> |rows[i]| <= |grid[i]| == |grid[0]|) &&
            (exists i :: 0 <= i < |rows| && |rows[i]| == |grid[0]|) &&
            forall i, j :: 0 <= i < |rows| && 0 <= j < |grid[i]| ==>
              grid[i][j] == if j < |rows[i]| then rows[i][j] else ""
  {
    var rows := ReadRows(Split(text));
    WidestBounds(rows);
    WidestIsOne(rows);
  }

  lemma {:induction false} WidestIsOne(rows: seq<Row>)
    requires rows != []
    ensures exists i :: 0 <= i < |rows| && |rows[i]| == Widest(rows)
  {
    if |rows| > 1 {
      WidestIsOne(rows[1..]);
      var i :| 0 <= i < |rows[1..]| && |rows[1..][i]| == Widest(rows[1..]);
      assert |rows[i + 1]| == Widest(rows[1..]);
    }
    assert Widest(rows) == |rows[0]| || |rows| > 1;
  }
}
