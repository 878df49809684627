/** Greedy wrapping of one line into display rows. A row is the half-open range of the characters it
    shows; the source's loop over cells is proved against a recursive description of the rows, and the
    rows are characterised by what a greedy wrap must satisfy. */
module Wrap {
  import opened Characters

  import opened Options

  datatype Cell = Cell(rendered: string, width: nat)

  /** How one character is shown: tabs as four blanks, controls and cells too wide for a row as one
      replacement character. */
  function CellOf(table: CharacterTable, width: nat, c: char): (cell: Cell)
    requires width > 0
    ensures cell.width <= width
  {
    var cell := if c == '\t' then Cell("    ", 4)
                else if IsControl(c) then Cell([REPLACEMENT], 1)
                else Cell([c], table.width(c));
    if cell.width > width then Cell([REPLACEMENT], 1) else cell
  }

  function CellsOf(table: CharacterTable, width: nat, text: string): (cells: seq<Cell>)
    requires width > 0
    ensures |cells| == |text| && forall i :: 0 <= i < |cells| ==> cells[i].width <= width
  {
    seq(|text|, i requires 0 <= i < |text| => CellOf(table, width, text[i]))
  }

  /** The columns used by the cells [from, to). */
  function Used(cells: seq<Cell>, from: nat, to: nat): nat
    requires from <= to <= |cells|
  {
    if from == to then 0 else Used(cells, from, to - 1) + cells[to - 1].width
  }

  /** The text shown by the cells [from, to). */
  function Rendered(cells: seq<Cell>, from: nat, to: nat): string
    requires from <= to <= |cells|
  {
    if from == to then "" else Rendered(cells, from, to - 1) + cells[to - 1].rendered
  }

  /** The next cell does not fit a row that shows [from, at) already. */
  predicate Breaks(width: nat, cells: seq<Cell>, from: nat, at: nat)
    requires from <= at < |cells|
  {
    Used(cells, from, at) > 0 && Used(cells, from, at) + cells[at].width > width
  }

  datatype Row = Row(from: nat, to: nat)

  /** The rows from the open row [from, at) on. */
  function RowsFrom(width: nat, cells: seq<Cell>, from: nat, at: nat): (rows: seq<Row>)
    requires from <= at <= |cells|
    ensures |rows| > 0
    ensures forall i :: 0 <= i < |rows| ==> rows[i].from <= rows[i].to <= |cells|
    decreases |cells| - at
  {
    if at == |cells| then [Row(from, at)]
    else if Breaks(width, cells, from, at) then [Row(from, at)] + RowsFrom(width, cells, at, at + 1)
    else RowsFrom(width, cells, from, at + 1)
  }

  /** A greedy wrap of the cells from `from` on: each row fits, the rows follow each other to the last
      cell, and a row ends early only where the next cell does not fit. */
  predicate Greedy(width: nat, cells: seq<Cell>, from: nat, rows: seq<Row>)
    decreases |rows|
  {
    && |rows| > 0
    && rows[0].from == from <= rows[0].to <= |cells|
    && Used(cells, from, rows[0].to) <= width
    && if |rows| == 1 then rows[0].to == |cells|
       else && rows[0].to < |cells| && Breaks(width, cells, from, rows[0].to)
            && Greedy(width, cells, rows[0].to, rows[1..])
  }

  lemma {:induction false} UsedMonotone(cells: seq<Cell>, from: nat, a: nat, b: nat)
    requires from <= a <= b <= |cells|
    ensures Used(cells, from, a) <= Used(cells, from, b)
    decreases b
  {
    if a < b {
      UsedMonotone(cells, from, a, b - 1);
    }
  }

  /** The loop's rows are a greedy wrap. */
  lemma {:induction false} RowsGreedy(width: nat, cells: seq<Cell>, from: nat, at: nat)
    requires from <= at <= |cells| && Used(cells, from, at) <= width
    requires forall i :: 0 <= i < |cells| ==> cells[i].width <= width
    ensures Greedy(width, cells, from, RowsFrom(width, cells, from, at))
    decreases |cells| - at
  {
    if at < |cells| {
      if Breaks(width, cells, from, at) {
        assert Used(cells, at, at + 1) == Used(cells, at, at) + cells[at].width;
        RowsGreedy(width, cells, at, at + 1);
        assert RowsFrom(width, cells, from, at)[1..] == RowsFrom(width, cells, at, at + 1);
      } else {
        assert Used(cells, from, at + 1) == Used(cells, from, at) + cells[at].width;
        RowsGreedy(width, cells, from, at + 1);
      }
    }
  }

  /** There is only one greedy wrap. */
  lemma {:induction false} GreedyUnique(width: nat, cells: seq<Cell>, from: nat, r1: seq<Row>, r2: seq<Row>)
    requires Greedy(width, cells, from, r1) && Greedy(width, cells, from, r2)
    ensures r1 == r2
    decreases |r1|
  {
    var a, b := r1[0].to, r2[0].to;
    if a < b {
      UsedMonotone(cells, from, a + 1, b);
    } else if b < a {
      UsedMonotone(cells, from, b + 1, a);
    } else if |r1| > 1 {
      GreedyUnique(width, cells, a, r1[1..], r2[1..]);
      assert r1 == [r1[0]] + r1[1..] && r2 == [r2[0]] + r2[1..];
    }
  }

  /** The text of each row. */
  function Shown(cells: seq<Cell>, rows: seq<Row>): (lines: seq<string>)
    requires forall i :: 0 <= i < |rows| ==> rows[i].from <= rows[i].to <= |cells|
    ensures |lines| == |rows|
  {
    seq(|rows|, i requires 0 <= i < |rows| => Rendered(cells, rows[i].from, rows[i].to))
  }

  function Concat(lines: seq<string>): string {
    if lines == [] then "" else lines[0] + Concat(lines[1..])
  }

  lemma {:induction false} RenderedAppend(cells: seq<Cell>, a: nat, b: nat, c: nat)
    requires a <= b <= c <= |cells|
    ensures Rendered(cells, a, c) == Rendered(cells, a, b) + Rendered(cells, b, c)
    decreases c
  {
    if b < c {
      RenderedAppend(cells, a, b, c - 1);
    }
  }

  lemma {:induction false} GreedyFits(width: nat, cells: seq<Cell>, from: nat, rows: seq<Row>)
    requires Greedy(width, cells, from, rows)
    ensures forall i :: 0 <= i < |rows| ==>
              rows[i].from <= rows[i].to <= |cells| && Used(cells, rows[i].from, rows[i].to) <= width
    decreases |rows|
  {
    if |rows| > 1 {
      GreedyFits(width, cells, rows[0].to, rows[1..]);
      assert forall i :: 1 <= i < |rows| ==> rows[i] == rows[1..][i - 1];
    }
  }

  /** A greedy wrap loses nothing: together its rows show every cell in order. */
  lemma {:induction false} RowsLoseNothing(width: nat, cells: seq<Cell>, from: nat, rows: seq<Row>)
    requires Greedy(width, cells, from, rows)
    requires forall i :: 0 <= i < |rows| ==> rows[i].from <= rows[i].to <= |cells|
    ensures Concat(Shown(cells, rows)) == Rendered(cells, from, |cells|)
    decreases |rows|
  {
    var lines := Shown(cells, rows);
    if |rows| > 1 {
      var rest := rows[1..];
      GreedyFits(width, cells, rows[0].to, rest);
      RowsLoseNothing(width, cells, rows[0].to, rest);
      assert lines[1..] == Shown(cells, rest);
      RenderedAppend(cells, from, rows[0].to, |cells|);
    } else {
      assert lines[1..] == [];
    }
  }

  datatype Place = Place(row: nat, column: nat)

  /** Where the loop meets the cursor: row and display column of cell `c`, or the end of the last row. */
  function CursorFrom(width: nat, cells: seq<Cell>, from: nat, at: nat, c: nat): Place
    requires from <= at <= c <= |cells|
    decreases |cells| - at
  {
    if at < |cells| && Breaks(width, cells, from, at) then
      var p := if at == c then Place(0, 0) else CursorFrom(width, cells, at, at + 1, c);
      Place(p.row + 1, p.column)
    else if at == c then Place(0, Used(cells, from, at))
    else CursorFrom(width, cells, from, at + 1, c)
  }

  /** The cursor is in the row that shows its cell, behind the cells before it; at the end of the line it
      is behind the last row. */
  lemma {:induction false} CursorInRow(width: nat, cells: seq<Cell>, from: nat, at: nat, c: nat)
    requires from <= at <= c <= |cells| && Used(cells, from, at) <= width
    requires forall i :: 0 <= i < |cells| ==> cells[i].width <= width
    ensures var p, rows := CursorFrom(width, cells, from, at, c), RowsFrom(width, cells, from, at);
            && p.row < |rows|
            && rows[p.row].from <= c <= rows[p.row].to <= |cells|
            && (if c < |cells| then c < rows[p.row].to else p.row == |rows| - 1)
            && p.column == Used(cells, rows[p.row].from, c) <= width
    decreases |cells| - at
  {
    if at < |cells| {
      assert Used(cells, at, at + 1) == Used(cells, at, at) + cells[at].width;
      assert Used(cells, from, at + 1) == Used(cells, from, at) + cells[at].width;
      if Breaks(width, cells, from, at) {
        assert RowsFrom(width, cells, from, at)[1..] == RowsFrom(width, cells, at, at + 1);
        if at < c {
          CursorInRow(width, cells, at, at + 1, c);
        } else {
          FirstRow(width, cells, at, at + 1);
        }
      } else if at < c {
        CursorInRow(width, cells, from, at + 1, c);
      } else {
        FirstRow(width, cells, from, at + 1);
      }
    }
  }

  lemma {:induction false} FirstRow(width: nat, cells: seq<Cell>, from: nat, at: nat)
    requires from <= at <= |cells|
    ensures var row := RowsFrom(width, cells, from, at)[0]; row.from == from && at <= row.to <= |cells|
    decreases |cells| - at
  {
    if at < |cells| && !Breaks(width, cells, from, at) {
      FirstRow(width, cells, from, at + 1);
    }
  }

  /** All that one wrapped line promises: the greedy rows, their text, and the place of the cursor. */
  ghost predicate Wrapped(table: CharacterTable, width: nat, text: string, rows: seq<Row>, lines: seq<string>)
    requires width > 0
  {
    var cells := CellsOf(table, width, text);
    && Greedy(width, cells, 0, rows)
    && (forall i :: 0 <= i < |rows| ==>
          rows[i].from <= rows[i].to <= |cells| && Used(cells, rows[i].from, rows[i].to) <= width)
    && lines == Shown(cells, rows)
    && Concat(lines) == Rendered(cells, 0, |cells|)
  }

  /** One line of the buffer on the display. */
  function LineRows(table: CharacterTable, width: nat, line: string): (shown: seq<string>)
    requires width > 0
    ensures |shown| > 0
  {
    var cells := CellsOf(table, width, line);
    Shown(cells, RowsFrom(width, cells, 0, 0))
  }

  function LineCursor(table: CharacterTable, width: nat, line: string, column: nat): (p: Place)
    requires width > 0 && column <= |line|
    ensures p.row < |LineRows(table, width, line)| && p.column <= width
  {
    var cells := CellsOf(table, width, line);
    CursorInRow(width, cells, 0, 0, column);
    CursorFrom(width, cells, 0, 0, column)
  }

  /** A character that the display shows as it is. */
  predicate ShownAsIs(table: CharacterTable, width: nat, c: char) {
    !IsControl(c) && table.width(c) <= width
  }

  lemma {:induction false} PlainCells(table: CharacterTable, width: nat, text: string, n: nat)
    requires width > 0 && n <= |text| && forall c <- text :: ShownAsIs(table, width, c)
    ensures Rendered(CellsOf(table, width, text), 0, n) == text[..n]
  {
    if n > 0 {
      PlainCells(table, width, text, n - 1);
      assert ShownAsIs(table, width, text[n - 1]);
    }
  }

  /** A line of such characters reads across its rows as it is written. */
  lemma PlainLineShown(table: CharacterTable, width: nat, text: string)
    requires width > 0 && forall c <- text :: ShownAsIs(table, width, c)
    ensures Concat(LineRows(table, width, text)) == text
  {
    var cells := CellsOf(table, width, text);
    RowsGreedy(width, cells, 0, 0);
    RowsLoseNothing(width, cells, 0, RowsFrom(width, cells, 0, 0));
    PlainCells(table, width, text, |text|);
    assert text[..|text|] == text;
  }

  /** A tab takes four blanks where there is room; any other control character, and what is too wide for a row,
      one replacement character. */
  lemma OtherCellsShown(table: CharacterTable, width: nat, c: char)
    requires width > 0 && !ShownAsIs(table, width, c)
    ensures LineRows(table, width, [c]) == [if c == '\t' && width >= 4 then "    " else [REPLACEMENT]]
  {
    var cells := CellsOf(table, width, [c]);
    assert Used(cells, 0, 0) == 0 && Rendered(cells, 0, 0) == "";
    assert !Breaks(width, cells, 0, 0);
    assert RowsFrom(width, cells, 0, 0) == RowsFrom(width, cells, 0, 1) == [Row(0, 1)];
    assert Rendered(cells, 0, 1) == "" + cells[0].rendered == cells[0].rendered;
  }

  /** All lines of the buffer on the display, one after the other. */
  function Visual(table: CharacterTable, width: nat, lines: seq<string>): seq<string>
    requires width > 0
  {
    if lines == [] then []
    else Visual(table, width, lines[..|lines| - 1]) + LineRows(table, width, lines[|lines| - 1])
  }

  /** The text shows cells of one of the lines, and no more of them than fit the width. */
  ghost predicate FittingRow(table: CharacterTable, width: nat, lines: seq<string>, shown: string)
    requires width > 0
  {
    exists r, from, to ::
      && 0 <= r < |lines| && 0 <= from <= to <= |lines[r]|
      && FitsAs(CellsOf(table, width, lines[r]), width, from, to, shown)
  }

  predicate FitsAs(cells: seq<Cell>, width: nat, from: nat, to: nat, shown: string)
    requires from <= to <= |cells|
  {
    shown == Rendered(cells, from, to) && Used(cells, from, to) <= width
  }

  /** Every display row is at most as wide as the display. */
  lemma {:induction false} VisualFits(table: CharacterTable, width: nat, lines: seq<string>, i: nat)
    requires width > 0 && i < |Visual(table, width, lines)|
    ensures FittingRow(table, width, lines, Visual(table, width, lines)[i])
  {
    var n := |lines| - 1;
    var before, own := Visual(table, width, lines[..n]), LineRows(table, width, lines[n]);
    if i < |before| {
      VisualFits(table, width, lines[..n], i);
      var r, from, to :| 0 <= r < n && 0 <= from <= to <= |lines[r]|
                         && FitsAs(CellsOf(table, width, lines[..n][r]), width, from, to, before[i]);
      assert FitsAs(CellsOf(table, width, lines[r]), width, from, to, before[i]);
    } else {
      var cells := CellsOf(table, width, lines[n]);
      var rows := RowsFrom(width, cells, 0, 0);
      RowsGreedy(width, cells, 0, 0);
      GreedyFits(width, cells, 0, rows);
      var row := rows[i - |before|];
      assert FitsAs(cells, width, row.from, row.to, own[i - |before|]);
    }
  }

  lemma {:induction false} VisualPrefix(table: CharacterTable, width: nat, lines: seq<string>, n: nat)
    requires width > 0 && n <= |lines|
    ensures |Visual(table, width, lines[..n])| <= |Visual(table, width, lines)|
    ensures Visual(table, width, lines)[..|Visual(table, width, lines[..n])|] == Visual(table, width, lines[..n])
    decreases |lines|
  {
    if n < |lines| {
      var shorter := lines[..|lines| - 1];
      VisualPrefix(table, width, shorter, n);
      assert shorter[..n] == lines[..n];
    } else {
      assert lines[..n] == lines;
    }
  }

  /** The source's loop over the characters of a line. */
  method WrapDisplayLine(table: CharacterTable, text: string, width: nat, cursorColumn: Option<nat>)
    returns (lines: seq<string>, cursor: Option<Place>)
    requires width > 0
    ensures Wrapped(table, width, text, RowsFrom(width, CellsOf(table, width, text), 0, 0), lines)
    ensures lines == LineRows(table, width, text)
    ensures cursor == if cursorColumn.Some? && cursorColumn.value <= |text|
                      then Some(LineCursor(table, width, text, cursorColumn.value))
                      else None
  {
    ghost var cells := CellsOf(table, width, text);
    ghost var c := if cursorColumn.Some? then cursorColumn.value else |text| + 1;
    lines, cursor := [], None;
    var line, displayColumn := "", 0;
    ghost var from := 0;
    for i := 0 to |text|
      invariant Progress(width, cells, c, from, i, lines, cursor)
      invariant line == Rendered(cells, from, i) && displayColumn == Used(cells, from, i)
    {
      var cell := CellOf(table, width, text[i]);
      if Breaks(width, cells, from, i) {
        ProgressBreak(width, cells, c, from, i, lines, cursor);
      } else {
        ProgressExtend(width, cells, c, from, i, lines, cursor);
      }
      if displayColumn > 0 && displayColumn + cell.width > width {
        lines := lines + [line];
        line, displayColumn := "", 0;
        from := i;
      }
      if cursorColumn == Some(i) {
        cursor := Some(Place(|lines|, displayColumn));
      }
      line := line + cell.rendered;
      displayColumn := displayColumn + cell.width;
    }
    ProgressEnd(table, width, text, c, from, lines, cursor);
    if cursorColumn == Some(|text|) {
      cursor := Some(Place(|lines|, displayColumn));
    }
    lines := lines + [line];
  }

  /** What the loop knows after `i` cells: the rows closed so far with their text, the rows still to
      come, and the cursor once it was met. */
  ghost predicate Progress(width: nat, cells: seq<Cell>, c: nat, from: nat, i: nat, lines: seq<string>,
                           cursor: Option<Place>)
  {
    var rows := RowsFrom(width, cells, 0, 0);
    && from <= i <= |cells|
    && |lines| <= |rows|
    && rows[|lines|..] == RowsFrom(width, cells, from, i)
    && lines == Shown(cells, rows)[..|lines|]
    && CursorSeen(width, cells, c, from, i, |lines|, cursor)
  }

  ghost predicate CursorSeen(width: nat, cells: seq<Cell>, c: nat, from: nat, i: nat, done: nat, cursor: Option<Place>)
    requires from <= i <= |cells|
  {
    if c < i then cursor == Some(CursorFrom(width, cells, 0, 0, c))
    else if c <= |cells| then
      var here := CursorFrom(width, cells, from, i, c);
      cursor == None && CursorFrom(width, cells, 0, 0, c) == Place(done + here.row, here.column)
    else cursor == None
  }

  /** One more cell on a new row. */
  lemma ProgressBreak(width: nat, cells: seq<Cell>, c: nat, from: nat, i: nat, lines: seq<string>,
                      cursor: Option<Place>)
    requires i < |cells| && Progress(width, cells, c, from, i, lines, cursor) && Breaks(width, cells, from, i)
    ensures Progress(width, cells, c, i, i + 1, lines + [Rendered(cells, from, i)],
                     if c == i then Some(Place(|lines| + 1, 0)) else cursor)
  {
    var rows, n := RowsFrom(width, cells, 0, 0), |lines|;
    assert RowsFrom(width, cells, from, i)[1..] == RowsFrom(width, cells, i, i + 1);
    NextRow(cells, rows, n, Row(from, i), RowsFrom(width, cells, i, i + 1));
  }

  lemma NextRow(cells: seq<Cell>, rows: seq<Row>, n: nat, row: Row, rest: seq<Row>)
    requires forall i :: 0 <= i < |rows| ==> rows[i].from <= rows[i].to <= |cells|
    requires n <= |rows| && rows[n..] == [row] + rest
    ensures n < |rows| && rows[n + 1..] == rest && row.from <= row.to <= |cells|
    ensures Shown(cells, rows)[..n] + [Rendered(cells, row.from, row.to)] == Shown(cells, rows)[..n + 1]
  {
    assert rows[n] == rows[n..][0];
    assert rows[n + 1..] == rows[n..][1..];
  }

  /** One more cell on the open row. */
  lemma ProgressExtend(width: nat, cells: seq<Cell>, c: nat, from: nat, i: nat, lines: seq<string>,
                       cursor: Option<Place>)
    requires i < |cells| && Progress(width, cells, c, from, i, lines, cursor) && !Breaks(width, cells, from, i)
    ensures Progress(width, cells, c, from, i + 1, lines,
                     if c == i then Some(Place(|lines|, Used(cells, from, i))) else cursor)
  {
  }

  lemma ProgressEnd(table: CharacterTable, width: nat, text: string, c: nat, from: nat,
                    lines: seq<string>, cursor: Option<Place>)
    requires width > 0
    requires Progress(width, CellsOf(table, width, text), c, from, |text|, lines, cursor)
    ensures var cells := CellsOf(table, width, text);
            && Wrapped(table, width, text, RowsFrom(width, cells, 0, 0), lines + [Rendered(cells, from, |cells|)])
            && (c == |cells| ==> CursorFrom(width, cells, 0, 0, c) == Place(|lines|, Used(cells, from, |cells|)))
  {
    var cells := CellsOf(table, width, text);
    var rows, n := RowsFrom(width, cells, 0, 0), |lines|;
    RowsGreedy(width, cells, 0, 0);
    GreedyFits(width, cells, 0, rows);
    RowsLoseNothing(width, cells, 0, rows);
    assert rows[n..] == [Row(from, |text|)];
    assert rows[n] == rows[n..][0] && |rows| == n + 1;
    assert lines + [Rendered(cells, from, |cells|)] == Shown(cells, rows);
  }
}
