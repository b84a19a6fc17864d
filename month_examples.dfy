/**
 * The three months of the `format_month` unit test: February 2024 with
 * its year and May 2024 without it, each rendered on a date outside it,
 * and April 2024 rendered on its 1st.
 */
module MonthExamples {

  import opened Dates
  import opened Text
  import opened Page
  import opened Calendar
  import opened Grid

  const FebruaryTitle: string := "      2月 2024         "
  const MayTitle: string := "         5月           "
  const AprilTitle: string := "      4月 2024         "
  const BlankLine: string := "                      "

  lemma YearText(year: int)
    requires year == 2024
    ensures IntString(year) == "2024"
  {
  }

  /** The header of each test month, its length and the column of its 1st. */
  lemma FebruaryMonth(year: int, today: Date)
    requires year == 2024 && today.year != 2024
    ensures Header(year, 2, true) == FebruaryTitle && DaysInMonth(year, 2) == 29 && FirstOffset(year, 2) == 4
    ensures TodayMark(year, 2, today) == 0
  {
    YearText(year);
    WeekdayExamples();
  }

  lemma MayMonth(year: int, today: Date)
    requires year == 2024 && today.year != 2024
    ensures Header(year, 5, false) == MayTitle && DaysInMonth(year, 5) == 31 && FirstOffset(year, 5) == 3
    ensures TodayMark(year, 5, today) == 0
  {
    WeekdayExamples();
  }

  lemma AprilMonth(year: int, today: Date)
    requires year == 2024 && today == Date(2024, 4, 1)
    ensures Header(year, 4, true) == AprilTitle && DaysInMonth(year, 4) == 30 && FirstOffset(year, 4) == 1
    ensures TodayMark(year, 4, today) == 1
  {
    YearText(year);
    WeekdayExamples();
  }

  lemma HighlightedOne()
    ensures Highlight(DayText(1)) == "\U{1b}[7m 1\U{1b}[0m"
  {
  }

  lemma BlankLineText()
    ensures Spaces(22) == BlankLine
  {
  }

  /** The cell of day d followed by its separating space; blank outside 1..last. */
  function Slot(d: int, last: nat): string {
    (if 1 <= d <= last then DayText(d) else "  ") + " "
  }

  /** The week row whose first cell is day k: seven slots and the closing space. */
  function Week(k: int, last: nat): string {
    Slot(k, last) + Slot(k + 1, last) + Slot(k + 2, last) + Slot(k + 3, last)
    + Slot(k + 4, last) + Slot(k + 5, last) + Slot(k + 6, last) + " "
  }

  lemma SliceJoin(s: string, a: nat, b: nat, c: nat)
    requires a <= b <= c <= |s|
    ensures s[a..b] + s[b..c] == s[a..c]
  {
  }

  /** A 22-character line ending in a space is its seven 3-character blocks and that space. */
  lemma {:induction false} JoinRow(line: string, b0: string, b1: string, b2: string, b3: string, b4: string, b5: string, b6: string)
    requires |line| == 22 && line[21] == ' '
    requires line[0..3] == b0 && line[3..6] == b1 && line[6..9] == b2 && line[9..12] == b3
    requires line[12..15] == b4 && line[15..18] == b5 && line[18..21] == b6
    ensures line == b0 + b1 + b2 + b3 + b4 + b5 + b6 + " "
  {
    SliceJoin(line, 0, 3, 6);
    SliceJoin(line, 0, 6, 9);
    SliceJoin(line, 0, 9, 12);
    SliceJoin(line, 0, 12, 15);
    SliceJoin(line, 0, 15, 18);
    SliceJoin(line, 0, 18, 21);
    SliceJoin(line, 0, 21, 22);
    assert line[21..22] == " ";
    assert line[0..22] == line;
  }

  /** The cell in column c of week row r of an unmarked page, characters lo..lo + 3, is the slot of day d. */
  lemma CellSlot(title: string, last: nat, offset: nat, r: nat, c: nat, d: int, lo: nat, hi: nat)
    requires offset < 7 && last <= 31 && r < RowCount(offset, last) && c < 7 && d == 7 * r + c - offset + 1
    requires lo == 3 * c && hi == lo + 3
    ensures var line := MonthPage(title, last, 0, offset)[2 + r];
      |line| == 22 && line[lo..hi] == Slot(d, last)
  {
    PageGrid(title, last, 0, offset, r, c);
  }

  /** Week row r of an unmarked page, whose first cell is day k. */
  lemma PlainRow(title: string, last: nat, offset: nat, r: nat, k: int)
    requires offset < 7 && last <= 31 && r < RowCount(offset, last) && k == 7 * r - offset + 1
    ensures MonthPage(title, last, 0, offset)[2 + r] == Week(k, last)
  {
    PageShape(title, last, 0, offset);
    CellSlot(title, last, offset, r, 0, k, 0, 3);
    CellSlot(title, last, offset, r, 1, k + 1, 3, 6);
    CellSlot(title, last, offset, r, 2, k + 2, 6, 9);
    CellSlot(title, last, offset, r, 3, k + 3, 9, 12);
    CellSlot(title, last, offset, r, 4, k + 4, 12, 15);
    CellSlot(title, last, offset, r, 5, k + 5, 15, 18);
    CellSlot(title, last, offset, r, 6, k + 6, 18, 21);
    JoinRow(MonthPage(title, last, 0, offset)[2 + r], Slot(k, last), Slot(k + 1, last), Slot(k + 2, last),
      Slot(k + 3, last), Slot(k + 4, last), Slot(k + 5, last), Slot(k + 6, last));
  }

  /** The five week rows of the 29-day test month, written out. */
  lemma FebruaryWeek1(k: int, last: nat)
    requires k == -3 && last == 29
    ensures Week(k, last) == "             1  2  3  "
  {
  }

  lemma FebruaryWeek2(k: int, last: nat)
    requires k == 4 && last == 29
    ensures Week(k, last) == " 4  5  6  7  8  9 10  "
  {
  }

  lemma FebruaryWeek3(k: int, last: nat)
    requires k == 11 && last == 29
    ensures Week(k, last) == "11 12 13 14 15 16 17  "
  {
  }

  lemma FebruaryWeek4(k: int, last: nat)
    requires k == 18 && last == 29
    ensures Week(k, last) == "18 19 20 21 22 23 24  "
  {
  }

  lemma FebruaryWeek5(k: int, last: nat)
    requires k == 25 && last == 29
    ensures Week(k, last) == "25 26 27 28 29        "
  {
  }

  /** The five week rows of the 31-day test month, written out. */
  lemma MayWeek1(k: int, last: nat)
    requires k == -2 && last == 31
    ensures Week(k, last) == "          1  2  3  4  "
  {
  }

  lemma MayWeek2(k: int, last: nat)
    requires k == 5 && last == 31
    ensures Week(k, last) == " 5  6  7  8  9 10 11  "
  {
  }

  lemma MayWeek3(k: int, last: nat)
    requires k == 12 && last == 31
    ensures Week(k, last) == "12 13 14 15 16 17 18  "
  {
  }

  lemma MayWeek4(k: int, last: nat)
    requires k == 19 && last == 31
    ensures Week(k, last) == "19 20 21 22 23 24 25  "
  {
  }

  lemma MayWeek5(k: int, last: nat)
    requires k == 26 && last == 31
    ensures Week(k, last) == "26 27 28 29 30 31     "
  {
  }

  /** The five week rows of the 30-day test month, written out. */
  lemma AprilWeek1(k: int, last: nat)
    requires k == 0 && last == 30
    ensures Week(k, last) == "    1  2  3  4  5  6  "
  {
  }

  lemma AprilWeek2(k: int, last: nat)
    requires k == 7 && last == 30
    ensures Week(k, last) == " 7  8  9 10 11 12 13  "
  {
  }

  lemma AprilWeek3(k: int, last: nat)
    requires k == 14 && last == 30
    ensures Week(k, last) == "14 15 16 17 18 19 20  "
  {
  }

  lemma AprilWeek4(k: int, last: nat)
    requires k == 21 && last == 30
    ensures Week(k, last) == "21 22 23 24 25 26 27  "
  {
  }

  lemma AprilWeek5(k: int, last: nat)
    requires k == 28 && last == 30
    ensures Week(k, last) == "28 29 30              "
  {
  }

  /** The head and the blank last line of an unmarked page with five week rows. */
  lemma FiveRowFrame(title: string, last: nat, offset: nat)
    requires offset < 7 && last <= 31 && RowCount(offset, last) == 5
    ensures var lines := MonthPage(title, last, 0, offset);
      lines[0] == title && lines[1] == "日 月 火 水 木 金 土  " && lines[7] == BlankLine
  {
    PageShape(title, last, 0, offset);
    PageBlankTail(title, last, 0, offset);
    BlankLineText();
  }

  /** A 29-day month starting on a Thursday. */
  lemma FebruaryPage(title: string, last: nat, offset: nat)
    requires last == 29 && offset == 4
    ensures MonthPage(title, last, 0, offset) == [
      title,
      "日 月 火 水 木 金 土  ",
      "             1  2  3  ",
      " 4  5  6  7  8  9 10  ",
      "11 12 13 14 15 16 17  ",
      "18 19 20 21 22 23 24  ",
      "25 26 27 28 29        ",
      BlankLine]
  {
    FiveRowFrame(title, last, offset);
    PlainRow(title, last, offset, 0, -3);
    PlainRow(title, last, offset, 1, 4);
    PlainRow(title, last, offset, 2, 11);
    PlainRow(title, last, offset, 3, 18);
    PlainRow(title, last, offset, 4, 25);
    FebruaryWeek1(-3, last);
    FebruaryWeek2(4, last);
    FebruaryWeek3(11, last);
    FebruaryWeek4(18, last);
    FebruaryWeek5(25, last);
  }

  /** A 31-day month starting on a Wednesday. */
  lemma MayPage(title: string, last: nat, offset: nat)
    requires last == 31 && offset == 3
    ensures MonthPage(title, last, 0, offset) == [
      title,
      "日 月 火 水 木 金 土  ",
      "          1  2  3  4  ",
      " 5  6  7  8  9 10 11  ",
      "12 13 14 15 16 17 18  ",
      "19 20 21 22 23 24 25  ",
      "26 27 28 29 30 31     ",
      BlankLine]
  {
    FiveRowFrame(title, last, offset);
    PlainRow(title, last, offset, 0, -2);
    PlainRow(title, last, offset, 1, 5);
    PlainRow(title, last, offset, 2, 12);
    PlainRow(title, last, offset, 3, 19);
    PlainRow(title, last, offset, 4, 26);
    MayWeek1(-2, last);
    MayWeek2(5, last);
    MayWeek3(12, last);
    MayWeek4(19, last);
    MayWeek5(26, last);
  }

  /** A 30-day month starting on a Monday, unmarked. */
  lemma AprilPlainPage(title: string, last: nat, offset: nat)
    requires last == 30 && offset == 1
    ensures MonthPage(title, last, 0, offset) == [
      title,
      "日 月 火 水 木 金 土  ",
      "    1  2  3  4  5  6  ",
      " 7  8  9 10 11 12 13  ",
      "14 15 16 17 18 19 20  ",
      "21 22 23 24 25 26 27  ",
      "28 29 30              ",
      BlankLine]
  {
    FiveRowFrame(title, last, offset);
    PlainRow(title, last, offset, 0, 0);
    PlainRow(title, last, offset, 1, 7);
    PlainRow(title, last, offset, 2, 14);
    PlainRow(title, last, offset, 3, 21);
    PlainRow(title, last, offset, 4, 28);
    AprilWeek1(0, last);
    AprilWeek2(7, last);
    AprilWeek3(14, last);
    AprilWeek4(21, last);
    AprilWeek5(28, last);
  }

  lemma Splice(a: string, x: string, rest: string)
    requires |a| == 3 && |x| == 2
    ensures (a + x + rest)[..3] == a && (a + x + rest)[5..] == rest
  {
  }

  /** A page that differs from another only in line i. */
  lemma OnlyLine(lines: seq<string>, plain: seq<string>, i: nat)
    requires |lines| == 8 && |plain| == 8 && i < 8
    requires forall j :: 0 <= j < 8 && j != i ==> lines[j] == plain[j]
    ensures lines == plain[i := lines[i]]
  {
  }

  /** Marking day `mark`, in column c of week row r, changes only that row, which is line i. */
  lemma MarkedRow(title: string, last: nat, mark: int, offset: nat, r: nat, c: nat, a: nat, b: nat, i: nat)
    requires offset < 7 && last <= 31 && 1 <= mark <= last && c < 7 && 7 * r + c == offset + mark - 1
    requires a == 3 * c && b == 3 * c + 2 && i == 2 + r
    ensures var plain := MonthPage(title, last, 0, offset);
      i < 8 && |plain[i]| == 22 && a <= b <= 22
      && MonthPage(title, last, mark, offset) == plain[i := plain[i][..a] + Highlight(DayText(mark)) + plain[i][b..]]
  {
    PageHighlight(title, last, mark, offset, r, c);
    OnlyLine(MonthPage(title, last, mark, offset), MonthPage(title, last, 0, offset), i);
  }

  /** The first week row of the test April, line i, with its Monday cell replaced by h. */
  lemma AprilMarkedRow(lines: seq<string>, plain: seq<string>, h: string, i: nat)
    requires |plain| == 8 && i < 8 && |plain[i]| == 22 && lines == plain[i := plain[i][..3] + h + plain[i][5..]]
    requires plain[i] == "    1  2  3  4  5  6  "
    ensures lines == plain[i := "   " + h + "  2  3  4  5  6  "]
  {
    assert plain[i] == "   " + " 1" + "  2  3  4  5  6  ";
    Splice("   ", " 1", "  2  3  4  5  6  ");
  }

  /** The first week row of the test April, unmarked. */
  lemma AprilFirstWeek(title: string, last: nat, offset: nat, r: nat)
    requires last == 30 && offset == 1 && r == 0
    ensures MonthPage(title, last, 0, offset)[2 + r] == "    1  2  3  4  5  6  "
  {
    PlainRow(title, last, offset, r, 0);
    AprilWeek1(0, last);
  }

  /** The test April with day 1 marked differs from the unmarked one in its first week row, line i. */
  lemma AprilMarkedPage(title: string, last: nat, mark: int, offset: nat, i: nat)
    requires last == 30 && mark == 1 && offset == 1 && i == 2
    ensures MonthPage(title, last, mark, offset)
      == MonthPage(title, last, 0, offset)[i := "   " + Highlight(DayText(mark)) + "  2  3  4  5  6  "]
  {
    MarkedRow(title, last, mark, offset, 0, 1, 3, 5, i);
    AprilFirstWeek(title, last, offset, 0);
    AprilMarkedRow(MonthPage(title, last, mark, offset), MonthPage(title, last, 0, offset), Highlight(DayText(mark)), i);
  }

  /** Day 1 in reverse video within the first week row. */
  lemma MarkedOne(h: string, mark: int)
    requires mark == 1 && h == Highlight(DayText(mark))
    ensures "   " + h + "  2  3  4  5  6  " == "   \U{1b}[7m 1\U{1b}[0m  2  3  4  5  6  "
  {
    HighlightedOne();
  }

  /** Replacing line 2 of a page given line by line. */
  lemma ReplaceLineTwo(plain: seq<string>, l0: string, l1: string, l2: string, l3: string,
                       l4: string, l5: string, l6: string, l7: string, x: string)
    requires plain == [l0, l1, l2, l3, l4, l5, l6, l7]
    ensures plain[2 := x] == [l0, l1, x, l3, l4, l5, l6, l7]
  {
  }

  /** The same month with day 1 marked: day 1 of the first week row is wrapped in the reverse-video escapes. */
  lemma AprilPage(title: string, last: nat, mark: int, offset: nat)
    requires last == 30 && mark == 1 && offset == 1
    ensures MonthPage(title, last, mark, offset) == [
      title,
      "日 月 火 水 木 金 土  ",
      "   \U{1b}[7m 1\U{1b}[0m  2  3  4  5  6  ",
      " 7  8  9 10 11 12 13  ",
      "14 15 16 17 18 19 20  ",
      "21 22 23 24 25 26 27  ",
      "28 29 30              ",
      BlankLine]
  {
    var h := Highlight(DayText(mark));
    AprilMarkedPage(title, last, mark, offset, 2);
    AprilPlainPage(title, last, offset);
    MarkedOne(h, mark);
    ReplaceLineTwo(MonthPage(title, last, 0, offset), title, "日 月 火 水 木 金 土  ", "    1  2  3  4  5  6  ",
      " 7  8  9 10 11 12 13  ", "14 15 16 17 18 19 20  ", "21 22 23 24 25 26 27  ", "28 29 30              ",
      BlankLine, "   " + h + "  2  3  4  5  6  ");
  }

  /** February 2024 with its year, rendered on a date outside 2024 (the test uses 0000-01-01). */
  lemma LeapFebruary(year: int, today: Date)
    requires year == 2024 && today.year != 2024
    ensures MonthLines(year, 2, true, TodayMark(year, 2, today)) == [
      "      2月 2024         ",
      "日 月 火 水 木 金 土  ",
      "             1  2  3  ",
      " 4  5  6  7  8  9 10  ",
      "11 12 13 14 15 16 17  ",
      "18 19 20 21 22 23 24  ",
      "25 26 27 28 29        ",
      "                      "]
  {
    FebruaryMonth(year, today);
    FebruaryPage(Header(year, 2, true), DaysInMonth(year, 2), FirstOffset(year, 2));
  }

  /** May 2024 without its year, rendered on a date outside 2024. */
  lemma MayWithoutYear(year: int, today: Date)
    requires year == 2024 && today.year != 2024
    ensures MonthLines(year, 5, false, TodayMark(year, 5, today)) == [
      "         5月           ",
      "日 月 火 水 木 金 土  ",
      "          1  2  3  4  ",
      " 5  6  7  8  9 10 11  ",
      "12 13 14 15 16 17 18  ",
      "19 20 21 22 23 24 25  ",
      "26 27 28 29 30 31     ",
      "                      "]
  {
    MayMonth(year, today);
    MayPage(Header(year, 5, false), DaysInMonth(year, 5), FirstOffset(year, 5));
  }

  /** April 2024 with its year, rendered on 2024-04-01: day 1 is highlighted. */
  lemma AprilFirst(year: int, today: Date)
    requires year == 2024 && today == Date(2024, 4, 1)
    ensures MonthLines(year, 4, true, TodayMark(year, 4, today)) == [
      "      4月 2024         ",
      "日 月 火 水 木 金 土  ",
      "   \U{1b}[7m 1\U{1b}[0m  2  3  4  5  6  ",
      " 7  8  9 10 11 12 13  ",
      "14 15 16 17 18 19 20  ",
      "21 22 23 24 25 26 27  ",
      "28 29 30              ",
      "                      "]
  {
    AprilMonth(year, today);
    AprilPage(Header(year, 4, true), DaysInMonth(year, 4), TodayMark(year, 4, today), FirstOffset(year, 4));
  }
}
