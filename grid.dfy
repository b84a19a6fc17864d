/**
 * The layout of a month's day texts on a week grid of 3-character cells:
 * cell k sits in week row k / 7 and weekday column k % 7 (Sunday first)
 * and holds the text of day k - offset + 1, where offset is the weekday
 * column of the 1st. The lemmas here hold for any day texts.
 */
module Grid {

  import opened Text

  /** Grid cell k: the text of its day, or two spaces before the 1st and after the last day. */
  function Cell(days: seq<string>, offset: nat, k: nat): string {
    if offset <= k < offset + |days| then days[k - offset] else "  "
  }

  /** A cell and the space that separates it from the next column. */
  function Block(days: seq<string>, offset: nat, k: nat): string {
    Cell(days, offset, k) + " "
  }

  /** The cells lo..hi-1 side by side, each followed by a space. */
  function Cells(days: seq<string>, offset: nat, lo: nat, hi: nat): string
    decreases hi
  {
    if hi <= lo then "" else Cells(days, offset, lo, hi - 1) + Block(days, offset, hi - 1)
  }

  /** Week row r: its seven cells and one more space. */
  function Row(days: seq<string>, offset: nat, r: nat): string {
    Cells(days, offset, 7 * r, 7 * r + 7) + " "
  }

  /** The lines `head` followed by the first n week rows. */
  function Rows(head: seq<string>, days: seq<string>, offset: nat, n: nat): (rows: seq<string>)
    ensures |rows| == |head| + n
  {
    if n == 0 then head else Rows(head, days, offset, n - 1) + [Row(days, offset, n - 1)]
  }

  /** The number of week rows the days occupy. */
  function RowCount(offset: nat, count: nat): nat {
    (offset + count + 6) / 7
  }

  /** The lines `head` followed by every week row. */
  function Layout(head: seq<string>, days: seq<string>, offset: nat): (lines: seq<string>)
    ensures |lines| == |head| + RowCount(offset, |days|)
  {
    Rows(head, days, offset, RowCount(offset, |days|))
  }

  /**
   * The state of a renderer that has appended the first n days one by one,
   * each followed by a space, closing the line with one more space after
   * the Saturday column: the closed lines and the open line.
   */
  ghost function Fill(head: seq<string>, days: seq<string>, offset: nat, n: nat): (seq<string>, string)
    requires n <= |days|
  {
    if n == 0 then (head, Spaces(3 * offset))
    else
      var prev := Fill(head, days, offset, n - 1);
      var line := prev.1 + days[n - 1] + " ";
      if (offset + n) % 7 == 0 then (prev.0 + [line + " "], "") else (prev.0, line)
  }

  lemma FillStep(head: seq<string>, days: seq<string>, offset: nat, n: nat)
    requires 1 <= n <= |days|
    ensures var prev := Fill(head, days, offset, n - 1);
      var line := prev.1 + days[n - 1] + " ";
      Fill(head, days, offset, n) == if (offset + n) % 7 == 0 then (prev.0 + [line + " "], "") else (prev.0, line)
  {
  }

  /** One step of the renderer from a known state, with the day's text s. */
  lemma FillNext(head: seq<string>, days: seq<string>, offset: nat, n: nat, lines: seq<string>, line: string, s: string)
    requires 1 <= n <= |days|
    requires (lines, line) == Fill(head, days, offset, n - 1) && s == days[n - 1]
    ensures Fill(head, days, offset, n)
      == if (offset + n) % 7 == 0 then (lines + [line + s + " " + " "], "") else (lines, line + s + " ")
  {
    FillStep(head, days, offset, n);
  }

  lemma AppendAssoc(a: string, b: string, c: string)
    ensures (a + b) + c == a + (b + c)
  {
  }

  lemma AppendEmpty(a: string)
    ensures a + "" == a
  {
  }

  /** Within week row `row`, cell index k ends a week exactly at the row's start. */
  lemma WeekEnd(k: nat, row: nat)
    requires 7 * row <= k < 7 * row + 7
    ensures k % 7 == 0 <==> k == 7 * row
  {
  }

  lemma CellsLast(days: seq<string>, offset: nat, lo: nat, hi: nat)
    requires lo < hi
    ensures Cells(days, offset, lo, hi) == Cells(days, offset, lo, hi - 1) + Block(days, offset, hi - 1)
  {
  }

  lemma CellsSnoc(days: seq<string>, offset: nat, lo: nat, k: nat, hi: nat)
    requires lo <= k && k + 1 == hi
    ensures Cells(days, offset, lo, hi) == Cells(days, offset, lo, k) + Block(days, offset, k)
  {
  }

  lemma RowsSnoc(head: seq<string>, days: seq<string>, offset: nat, above: nat, row: nat)
    requires above + 1 == row
    ensures Rows(head, days, offset, row) == Rows(head, days, offset, above) + [Row(days, offset, above)]
  {
  }

  /** Cell k holds day j + 1. */
  lemma DayBlock(days: seq<string>, offset: nat, j: nat, k: nat)
    requires j < |days| && k == offset + j
    ensures Block(days, offset, k) == days[j] + " "
  {
    assert k - offset == j;
  }

  /** The step from day prev to day n = prev + 1, whose cell is k. */
  lemma FillAt(head: seq<string>, days: seq<string>, offset: nat, prev: nat, n: nat, k: nat)
    requires prev + 1 == n <= |days| && k == offset + prev
    ensures var p := Fill(head, days, offset, prev);
      var line := p.1 + days[prev] + " ";
      Fill(head, days, offset, n) == if (k + 1) % 7 == 0 then (p.0 + [line + " "], "") else (p.0, line)
    ensures Block(days, offset, k) == days[prev] + " "
  {
    assert k - offset == prev;
  }

  /** Appending day n, in cell k of week row `row` but not its last column, keeps the line open. */
  lemma StepOpen(head: seq<string>, days: seq<string>, offset: nat, prev: nat, n: nat, row: nat, k: nat)
    requires prev + 1 == n <= |days| && k == offset + prev && 7 * row <= k && k + 1 < 7 * row + 7
    requires Fill(head, days, offset, prev).0 == Rows(head, days, offset, row)
    requires Fill(head, days, offset, prev).1 == Cells(days, offset, 7 * row, k)
    ensures Fill(head, days, offset, n).0 == Rows(head, days, offset, row)
    ensures Fill(head, days, offset, n).1 == Cells(days, offset, 7 * row, k + 1)
  {
    WeekEnd(k + 1, row);
    FillAt(head, days, offset, prev, n, k);
    CellsSnoc(days, offset, 7 * row, k, k + 1);
    AppendAssoc(Fill(head, days, offset, prev).1, days[prev], " ");
  }

  /** Appending the Saturday of week row `above`, in cell k, closes that row. */
  lemma StepClose(head: seq<string>, days: seq<string>, offset: nat, prev: nat, n: nat, above: nat, row: nat, k: nat)
    requires prev + 1 == n <= |days| && k == offset + prev && above + 1 == row && k + 1 == 7 * row
    requires Fill(head, days, offset, prev).0 == Rows(head, days, offset, above)
    requires Fill(head, days, offset, prev).1 == Cells(days, offset, 7 * above, k)
    ensures Fill(head, days, offset, n).0 == Rows(head, days, offset, row)
    ensures Fill(head, days, offset, n).1 == Cells(days, offset, 7 * row, k + 1)
  {
    WeekEnd(k + 1, row);
    FillAt(head, days, offset, prev, n, k);
    CellsSnoc(days, offset, 7 * above, k, k + 1);
    AppendAssoc(Fill(head, days, offset, prev).1, days[prev], " ");
    RowsSnoc(head, days, offset, above, row);
    assert 7 * above + 7 == k + 1;
  }

  /** Cells before the 1st or after the last day are blank. */
  lemma {:induction false} BlankCells(days: seq<string>, offset: nat, lo: nat, hi: nat)
    requires lo <= hi && (hi <= offset || offset + |days| <= lo)
    ensures Cells(days, offset, lo, hi) == Spaces(3 * (hi - lo))
    decreases hi
  {
    if hi > lo {
      BlankCells(days, offset, lo, hi - 1);
      CellsLast(days, offset, lo, hi);
      assert Block(days, offset, hi - 1) == Spaces(3);
      SpacesAdd(3 * (hi - 1 - lo), 3);
      assert 3 * (hi - 1 - lo) + 3 == 3 * (hi - lo);
    } else {
      assert Spaces(0) == "";
    }
  }

  lemma {:induction false} CellsSplit(days: seq<string>, offset: nat, lo: nat, mid: nat, hi: nat)
    requires lo <= mid <= hi
    ensures Cells(days, offset, lo, hi) == Cells(days, offset, lo, mid) + Cells(days, offset, mid, hi)
    decreases hi
  {
    if hi > mid {
      CellsSplit(days, offset, lo, mid, hi - 1);
      CellsLast(days, offset, lo, hi);
      CellsLast(days, offset, mid, hi);
      AppendAssoc(Cells(days, offset, lo, mid), Cells(days, offset, mid, hi - 1), Block(days, offset, hi - 1));
    } else {
      AppendEmpty(Cells(days, offset, lo, mid));
    }
  }

  /** The renderer's state after n days, for day n's week row `row`: the rows above it, and its cells so far. */
  lemma {:induction false} FillGrid(head: seq<string>, days: seq<string>, offset: nat, n: nat, row: nat)
    requires offset < 7 && n <= |days| && 7 * row <= offset + n < 7 * row + 7
    ensures Fill(head, days, offset, n).0 == Rows(head, days, offset, row)
    ensures Fill(head, days, offset, n).1 == Cells(days, offset, 7 * row, offset + n)
    decreases n
  {
    if n == 0 {
      assert row == 0;
      BlankCells(days, offset, 0, offset);
      assert 7 * row == 0 && offset + n == offset;
    } else {
      var prev, k := n - 1, offset + n - 1;
      if 7 * row <= k {
        FillGrid(head, days, offset, prev, row);
        StepOpen(head, days, offset, prev, n, row, k);
      } else {
        var above := row - 1;
        FillGrid(head, days, offset, prev, above);
        StepClose(head, days, offset, prev, n, above, row, k);
      }
    }
  }

  /** The number of rows of a grid whose last cell is in week row `row`. */
  lemma RowCountOf(offset: nat, count: nat, row: nat)
    requires 7 * row <= offset + count < 7 * row + 7
    ensures RowCount(offset, count) == if offset + count == 7 * row then row else row + 1
  {
  }

  /** A month that ends on a Saturday: its rows are complete. */
  lemma CloseFull(head: seq<string>, days: seq<string>, offset: nat, row: nat, lines: seq<string>)
    requires offset + |days| == 7 * row
    requires lines == Rows(head, days, offset, row)
    ensures lines == Layout(head, days, offset)
  {
    RowCountOf(offset, |days|, row);
  }

  /**
   * A month that does not end on a Saturday: the open line is closed with
   * w blank cells, up to the Saturday column, and one more space.
   */
  lemma ClosePartial(head: seq<string>, days: seq<string>, offset: nat, row: nat, w: nat,
                     lines: seq<string>, line: string)
    requires 7 * row < offset + |days| < 7 * row + 7 && w == 7 * row + 7 - (offset + |days|)
    requires lines == Rows(head, days, offset, row)
    requires line == Cells(days, offset, 7 * row, offset + |days|)
    ensures lines + [line + Spaces(3 * w) + " "] == Layout(head, days, offset)
  {
    RowCountOf(offset, |days|, row);
    RowsSnoc(head, days, offset, row, row + 1);
    ClosedRow(days, offset, row, w, 7 * row, offset + |days|, 7 * row + 7);
  }

  /** The last, partial week row: its day cells, then w blank cells. */
  lemma ClosedRow(days: seq<string>, offset: nat, row: nat, w: nat, lo: nat, k: nat, hi: nat)
    requires lo == 7 * row && hi == 7 * row + 7 && k == offset + |days| && lo < k < hi && w == hi - k
    ensures Row(days, offset, row) == Cells(days, offset, lo, k) + Spaces(3 * w) + " "
  {
    RowCells(days, offset, row, lo, hi);
    BlankCells(days, offset, k, hi);
    CellsSplit(days, offset, lo, k, hi);
  }

  /** The renderer's lines once every day of a month ending on a Saturday has been appended. */
  lemma FillFull(head: seq<string>, days: seq<string>, offset: nat)
    requires offset < 7 && (offset + |days|) % 7 == 0
    ensures Fill(head, days, offset, |days|).0 == Layout(head, days, offset)
  {
    var row := (offset + |days|) / 7;
    FillGrid(head, days, offset, |days|, row);
    WeekEnd(offset + |days|, row);
    CloseFull(head, days, offset, row, Fill(head, days, offset, |days|).0);
  }

  /**
   * The renderer's lines once every day of a month not ending on a
   * Saturday has been appended and the open line closed with w blank cells.
   */
  lemma FillPartial(head: seq<string>, days: seq<string>, offset: nat, w: nat)
    requires offset < 7 && (offset + |days|) % 7 != 0 && w == 7 - (offset + |days|) % 7
    ensures var f := Fill(head, days, offset, |days|);
      f.0 + [f.1 + Spaces(3 * w) + " "] == Layout(head, days, offset)
  {
    var row := (offset + |days|) / 7;
    FillGrid(head, days, offset, |days|, row);
    WeekEnd(offset + |days|, row);
    var f := Fill(head, days, offset, |days|);
    ClosePartial(head, days, offset, row, w, f.0, f.1);
  }

  // ---------------------------------------------------------------------
  // What a line of the layout holds

  /** Every day text is two characters wide. */
  predicate TwoWide(days: seq<string>) {
    forall i :: 0 <= i < |days| ==> |days[i]| == 2
  }

  /** With two-character day texts every cell takes three characters. */
  lemma {:induction false} CellsWidth(days: seq<string>, offset: nat, lo: nat, hi: nat)
    requires lo <= hi && TwoWide(days)
    ensures |Cells(days, offset, lo, hi)| == 3 * (hi - lo)
    decreases hi
  {
    if hi > lo {
      CellsWidth(days, offset, lo, hi - 1);
      CellsLast(days, offset, lo, hi);
    }
  }

  lemma CellsOne(days: seq<string>, offset: nat, k: nat)
    ensures Cells(days, offset, k, k + 1) == Block(days, offset, k)
  {
    CellsLast(days, offset, k, k + 1);
  }

  /** A week row of two-character day texts is 22 characters and ends with a space. */
  lemma RowWidth(days: seq<string>, offset: nat, r: nat)
    requires TwoWide(days)
    ensures |Row(days, offset, r)| == 22 && Row(days, offset, r)[21] == ' '
  {
    CellsWidth(days, offset, 7 * r, 7 * r + 7);
  }

  lemma SliceMiddle(a: string, b: string, d: string, i: nat, j: nat)
    requires i == |a| && j == |a| + |b|
    ensures (a + (b + d) + " ")[i .. j] == b
  {
  }

  /** Cells lo..hi-1 cut around cell k: those before it, its block, and those after it. */
  lemma CellsParts(days: seq<string>, offset: nat, lo: nat, k: nat, hi: nat)
    requires lo <= k < hi
    ensures Cells(days, offset, lo, hi) == Cells(days, offset, lo, k) + (Block(days, offset, k) + Cells(days, offset, k + 1, hi))
  {
    CellsSplit(days, offset, lo, k, hi);
    CellsSplit(days, offset, k, k + 1, hi);
    CellsOne(days, offset, k);
  }

  /** A week row cut around its cell k: the cells before it, its block, and the rest. */
  lemma RowParts(days: seq<string>, offset: nat, r: nat, lo: nat, k: nat, hi: nat)
    requires lo == 7 * r && lo <= k < hi && hi == 7 * r + 7
    ensures Row(days, offset, r) == Cells(days, offset, lo, k) + (Block(days, offset, k) + Cells(days, offset, k + 1, hi)) + " "
  {
    CellsParts(days, offset, lo, k, hi);
    RowCells(days, offset, r, lo, hi);
  }

  /** The same cut, with the widths of two-character day texts. */
  lemma RowSplit(days: seq<string>, offset: nat, r: nat, c: nat) returns (a: string, b: string, d: string)
    requires TwoWide(days) && c < 7
    ensures Row(days, offset, r) == a + (b + d) + " "
    ensures a == Cells(days, offset, 7 * r, 7 * r + c) && d == Cells(days, offset, 7 * r + c + 1, 7 * r + 7)
    ensures |a| == 3 * c && b == Block(days, offset, 7 * r + c) && |b| == 3
  {
    var lo, k, hi := 7 * r, 7 * r + c, 7 * r + 7;
    RowParts(days, offset, r, lo, k, hi);
    CellsWidth(days, offset, lo, k);
    a, b, d := Cells(days, offset, lo, k), Block(days, offset, k), Cells(days, offset, k + 1, hi);
    assert 3 * (k - lo) == 3 * c;
  }

  /** Column c of a week row of two-character day texts is at 3 * c: its cell and a space. */
  lemma RowCell(days: seq<string>, offset: nat, r: nat, c: nat)
    requires TwoWide(days) && c < 7
    ensures |Row(days, offset, r)| == 22
    ensures Row(days, offset, r)[3 * c .. 3 * c + 3] == Block(days, offset, 7 * r + c)
  {
    RowWidth(days, offset, r);
    var a, b, d := RowSplit(days, offset, r, c);
    SliceMiddle(a, b, d, 3 * c, 3 * c + 3);
  }

  /** Line i of the first n rows: a head line, or week row i - |head|. */
  lemma {:induction false} RowsAt(head: seq<string>, days: seq<string>, offset: nat, n: nat, i: nat)
    requires i < |head| + n
    ensures Rows(head, days, offset, n)[i] == if i < |head| then head[i] else Row(days, offset, i - |head|)
    decreases n
  {
    if n > 0 && i < |head| + n - 1 {
      RowsAt(head, days, offset, n - 1, i);
    }
  }

  /** A character that is not a space and is in no day text is in no cell. */
  lemma {:induction false} CellsLack(days: seq<string>, offset: nat, lo: nat, hi: nat, ch: char)
    requires ch != ' ' && forall i :: 0 <= i < |days| ==> ch !in days[i]
    ensures ch !in Cells(days, offset, lo, hi)
    decreases hi
  {
    if hi > lo {
      CellsLack(days, offset, lo, hi - 1, ch);
      var k := hi - 1;
      if offset <= k < offset + |days| {
        assert ch !in days[k - offset];
      }
    }
  }

  /** A character that is not a space and is in no head line and no day text is in no line. */
  lemma LayoutLacks(head: seq<string>, days: seq<string>, offset: nat, ch: char)
    requires ch != ' '
    requires forall i :: 0 <= i < |head| ==> ch !in head[i]
    requires forall i :: 0 <= i < |days| ==> ch !in days[i]
    ensures forall i :: 0 <= i < |Layout(head, days, offset)| ==> ch !in Layout(head, days, offset)[i]
  {
    var n := RowCount(offset, |days|);
    forall i | 0 <= i < |head| + n
      ensures ch !in Rows(head, days, offset, n)[i]
    {
      RowsAt(head, days, offset, n, i);
      if i >= |head| {
        CellsLack(days, offset, 7 * (i - |head|), 7 * (i - |head|) + 7, ch);
      }
    }
  }

  // ---------------------------------------------------------------------
  // Changing the text of one day

  /** Cells that do not hold day j + 1 do not depend on its text. */
  lemma {:induction false} CellsReplaceOutside(days: seq<string>, offset: nat, j: nat, x: string, lo: nat, hi: nat)
    requires j < |days| && (hi <= offset + j || offset + j < lo)
    ensures Cells(days[j := x], offset, lo, hi) == Cells(days, offset, lo, hi)
    decreases hi
  {
    if hi > lo {
      CellsReplaceOutside(days, offset, j, x, lo, hi - 1);
      CellsLast(days[j := x], offset, lo, hi);
      CellsLast(days, offset, lo, hi);
    }
  }

  /** A week row without the cell of day j + 1 does not depend on its text. */
  lemma RowReplaceOther(days: seq<string>, changed: seq<string>, offset: nat, j: nat, x: string, r: nat)
    requires j < |days| && changed == days[j := x] && !(7 * r <= offset + j < 7 * r + 7)
    ensures Row(changed, offset, r) == Row(days, offset, r)
  {
    CellsReplaceOutside(days, offset, j, x, 7 * r, 7 * r + 7);
  }

  /** A line a + (y + " ") + d + " " with the two characters of y, at |a|, replaced by x. */
  lemma Splice(line: string, moved: string, a: string, y: string, d: string, x: string, i: nat)
    requires line == a + ((y + " ") + d) + " " && i == |a| && |y| == 2
    requires moved == a + ((x + " ") + d) + " "
    ensures moved == line[..i] + x + line[i + 2..]
  {
    assert line[..i] == a;
    assert line[i + 2..] == " " + d + " ";
  }

  /** The week row that holds day j + 1, with the text of that day replaced by x. */
  lemma MovedCells(days: seq<string>, offset: nat, j: nat, x: string, lo: nat, k: nat, hi: nat)
    requires j < |days| && lo <= k < hi && k == offset + j
    ensures Cells(days[j := x], offset, lo, hi)
      == Cells(days, offset, lo, k) + ((x + " ") + Cells(days, offset, k + 1, hi))
  {
    var moved := days[j := x];
    CellsParts(moved, offset, lo, k, hi);
    CellsReplaceOutside(days, offset, j, x, lo, k);
    CellsReplaceOutside(days, offset, j, x, k + 1, hi);
    assert k - offset == j;
    assert Block(moved, offset, k) == x + " ";
  }

  lemma MovedRow(days: seq<string>, offset: nat, j: nat, x: string, r: nat, lo: nat, k: nat, hi: nat)
    requires j < |days| && lo == 7 * r && lo <= k < hi && hi == 7 * r + 7 && k == offset + j
    ensures Row(days[j := x], offset, r)
      == Cells(days, offset, lo, k) + ((x + " ") + Cells(days, offset, k + 1, hi)) + " "
  {
    MovedCells(days, offset, j, x, lo, k, hi);
    RowCells(days[j := x], offset, r, lo, hi);
  }

  lemma RowCells(days: seq<string>, offset: nat, r: nat, lo: nat, hi: nat)
    requires lo == 7 * r && hi == 7 * r + 7
    ensures Row(days, offset, r) == Cells(days, offset, lo, hi) + " "
  {
  }

  /** The week row that holds day j + 1, in column c, cut around that day's text. */
  lemma DayRowSplit(days: seq<string>, offset: nat, j: nat, r: nat, c: nat) returns (a: string, d: string)
    requires TwoWide(days) && j < |days| && c < 7 && 7 * r + c == offset + j
    ensures Row(days, offset, r) == a + ((days[j] + " ") + d) + " " && |a| == 3 * c
    ensures a == Cells(days, offset, 7 * r, 7 * r + c) && d == Cells(days, offset, 7 * r + c + 1, 7 * r + 7)
  {
    var b;
    a, b, d := RowSplit(days, offset, r, c);
    DayBlock(days, offset, j, 7 * r + c);
  }

  /**
   * In the week row that holds day j + 1, in column c, the day's text is
   * replaced by x and the rest of the row is kept.
   */
  lemma RowReplaceAt(days: seq<string>, offset: nat, j: nat, x: string, r: nat, c: nat)
    requires TwoWide(days) && j < |days| && c < 7 && 7 * r + c == offset + j
    ensures |Row(days, offset, r)| == 22
    ensures Row(days[j := x], offset, r) == Row(days, offset, r)[..3 * c] + x + Row(days, offset, r)[3 * c + 2..]
  {
    RowWidth(days, offset, r);
    var a, d := DayRowSplit(days, offset, j, r, c);
    MovedRow(days, offset, j, x, r, 7 * r, 7 * r + c, 7 * r + 7);
    Splice(Row(days, offset, r), Row(days[j := x], offset, r), a, days[j], d, x, 3 * c);
  }
}
