/**
 * The page of one month as the renderer lays it out, given its title
 * line: the title, the weekday line, the week rows of the day texts, and
 * blank lines of 22 spaces up to 8 lines. Day texts are right-aligned in
 * two characters; the marked day (today) is wrapped in the reverse-video
 * style codes.
 */
module Page {

  import opened Text
  import opened Grid

  const Escape: char := '\U{1b}'

  /** The reverse-video style: ESC[7m before the text and ESC[0m after it. */
  const ReverseOn: string := "\U{1b}[7m"
  const StyleReset: string := "\U{1b}[0m"

  function Highlight(s: string): (r: string)
    ensures |r| == |s| + 8
  {
    ReverseOn + s + StyleReset
  }

  /** The text carries no escape character, so it shows no highlight. */
  predicate Plain(s: string) {
    Escape !in s
  }

  /** The text is a single line. */
  predicate NoNewline(s: string) {
    '\n' !in s
  }

  const WeekdayHeader: string := "日 月 火 水 木 金 土  "

  /** A day number right-aligned in a 2-character field, as `{:>2}`. */
  function DayText(d: nat): (text: string)
    ensures d <= 99 ==> |text| == 2
  {
    if d < 10 then [' ', DigitChar(d)]
    else if d < 100 then [DigitChar(d / 10), DigitChar(d % 10)]
    else PadLeft(DecimalString(d), 2)
  }

  /** The text of day d: highlighted when it is the marked day. */
  function MarkedDay(d: nat, mark: int): string {
    if d == mark then Highlight(DayText(d)) else DayText(d)
  }

  /** The texts of days 1 through last, in order. */
  function DayTexts(last: nat, mark: int): (days: seq<string>)
    ensures |days| == last
  {
    if last == 0 then [] else DayTexts(last - 1, mark) + [MarkedDay(last, mark)]
  }

  /** Entry d - 1 of the day texts is the text of day d. */
  lemma {:induction false} DayTextsAt(last: nat, mark: int, d: nat)
    requires 1 <= d <= last
    ensures DayTexts(last, mark)[d - 1] == MarkedDay(d, mark)
    decreases last
  {
    if d < last {
      DayTextsAt(last - 1, mark, d);
    }
  }

  /** Entry d - 1 of `days` is the text of day d, for every day. */
  predicate MarkedDays(days: seq<string>, mark: int) {
    forall d {:trigger MarkedDay(d, mark)} :: 1 <= d <= |days| ==> days[d - 1] == MarkedDay(d, mark)
  }

  /** The day texts of a month, as a value characterised by MarkedDays. */
  lemma MarkedDayTexts(last: nat, mark: int) returns (days: seq<string>)
    ensures |days| == last && MarkedDays(days, mark)
  {
    days := DayTexts(last, mark);
    forall d | 1 <= d <= last
      ensures days[d - 1] == MarkedDay(d, mark)
    {
      DayTextsAt(last, mark, d);
    }
  }

  /** MarkedDays determines the sequence: it is DayTexts. */
  lemma MarkedDaysAreDayTexts(days: seq<string>, mark: int)
    requires MarkedDays(days, mark)
    ensures days == DayTexts(|days|, mark)
  {
    forall i | 0 <= i < |days|
      ensures days[i] == DayTexts(|days|, mark)[i]
    {
      DayTextsAt(|days|, mark, i + 1);
      assert days[i] == MarkedDay(i + 1, mark);
    }
  }

  /** The lines followed by n blank lines of 22 spaces. */
  function Padded(lines: seq<string>, n: nat): (r: seq<string>)
    ensures |r| == |lines| + n
  {
    if n == 0 then lines else Padded(lines, n - 1) + [Spaces(22)]
  }

  /**
   * The page of a month of `last` days whose 1st is in weekday column
   * `offset` (Sunday = 0), with day `mark` highlighted (no day is when
   * `mark` is not a day of the month): always 8 lines.
   */
  function MonthPage(title: string, last: nat, mark: int, offset: nat): (lines: seq<string>)
    requires offset < 7 && last <= 31
    ensures |lines| == 8
  {
    var body := Layout([title, WeekdayHeader], DayTexts(last, mark), offset);
    Padded(body, 8 - |body|)
  }

  // ---------------------------------------------------------------------
  // Day texts

  /** `{:>2}` of a day number of one or two digits: two characters. */
  lemma DayTextPadded(d: nat)
    requires 1 <= d <= 99
    ensures DayText(d) == PadLeft(DecimalString(d), 2) && |DayText(d)| == 2
  {
    if d < 10 {
      assert DecimalString(d) == [DigitChar(d)];
      assert Spaces(1) == [' '];
    } else {
      assert DecimalString(d / 10) == [DigitChar(d / 10)];
      assert DecimalString(d) == [DigitChar(d / 10), DigitChar(d % 10)];
    }
  }

  /** A day's text holds only spaces and digits. */
  lemma DayTextLacks(d: nat, ch: char)
    requires ch != ' ' && !IsDigit(ch)
    ensures ch !in DayText(d)
  {
    if d >= 100 {
      PaddingLacks(DecimalString(d), 2, ch);
    }
  }

  /** The style codes hold no newline, and the highlighted text starts with an escape. */
  lemma HighlightChars(s: string)
    ensures NoNewline(s) ==> NoNewline(Highlight(s))
    ensures Escape in Highlight(s)
  {
    assert ReverseOn == [Escape, '[', '7', 'm'];
    assert StyleReset == [Escape, '[', '0', 'm'];
    assert Highlight(s)[0] == Escape;
  }

  /** No day text holds a newline, and only the marked day holds an escape. */
  lemma MarkedDayLacks(d: nat, mark: int)
    ensures NoNewline(MarkedDay(d, mark))
    ensures d != mark ==> Plain(MarkedDay(d, mark))
  {
    DayTextLacks(d, '\n');
    DayTextLacks(d, Escape);
    HighlightChars(DayText(d));
  }

  /** A newline is in no day text, and an escape only in the marked one. */
  lemma DayTextsLack(last: nat, mark: int, ch: char)
    requires ch == '\n' || (ch == Escape && !(1 <= mark <= last))
    ensures forall i :: 0 <= i < last ==> ch !in DayTexts(last, mark)[i]
  {
    forall i | 0 <= i < last
      ensures ch !in DayTexts(last, mark)[i]
    {
      DayTextsAt(last, mark, i + 1);
      MarkedDayLacks(i + 1, mark);
    }
  }

  /** The day texts of a month with no marked day are the plain two-character texts. */
  lemma PlainDayTexts(last: nat, mark: int)
    requires last <= 99 && !(1 <= mark <= last)
    ensures TwoWide(DayTexts(last, mark))
    ensures forall i :: 0 <= i < last ==> DayTexts(last, mark)[i] == DayText(i + 1)
  {
    forall i | 0 <= i < last
      ensures DayTexts(last, mark)[i] == DayText(i + 1) && |DayTexts(last, mark)[i]| == 2
    {
      DayTextsAt(last, mark, i + 1);
      DayTextPadded(i + 1);
    }
  }

  /** Marking a day replaces its text by the highlighted text and keeps every other day. */
  lemma HighlightedDayTexts(last: nat, mark: int)
    requires 1 <= mark <= last
    ensures DayTexts(last, mark) == DayTexts(last, 0)[mark - 1 := Highlight(DayText(mark))]
  {
    var marked, plain := DayTexts(last, mark), DayTexts(last, 0)[mark - 1 := Highlight(DayText(mark))];
    forall i | 0 <= i < last
      ensures marked[i] == plain[i]
    {
      DayTextsAt(last, mark, i + 1);
      DayTextsAt(last, 0, i + 1);
    }
  }

  // ---------------------------------------------------------------------
  // The lines of a page

  /** Line i of the padded lines: one of the lines, or a blank line of 22 spaces. */
  lemma {:induction false} PaddedAt(lines: seq<string>, n: nat, i: nat)
    requires i < |lines| + n
    ensures Padded(lines, n)[i] == if i < |lines| then lines[i] else Spaces(22)
    decreases n
  {
    if n > 0 && i < |lines| + n - 1 {
      PaddedAt(lines, n - 1, i);
    }
  }

  /**
   * Line i of a page: the title, the weekday line, a week row of the day
   * texts, or a blank line of 22 spaces.
   */
  lemma PageLineAt(title: string, last: nat, mark: int, offset: nat, i: nat)
    requires offset < 7 && last <= 31 && i < 8
    ensures MonthPage(title, last, mark, offset)[i]
      == if i == 0 then title
         else if i == 1 then WeekdayHeader
         else if i < 2 + RowCount(offset, last) then Row(DayTexts(last, mark), offset, i - 2)
         else Spaces(22)
  {
    var head, days := [title, WeekdayHeader], DayTexts(last, mark);
    var body := Layout(head, days, offset);
    PaddedAt(body, 8 - |body|, i);
    if i < |body| {
      RowsAt(head, days, offset, RowCount(offset, |days|), i);
    }
  }

  /**
   * With no day highlighted, every line of a page but the first two is
   * 22 characters and ends with a space; the second is the weekday line,
   * 15 characters (each of its seven labels is one character).
   */
  lemma PageShape(title: string, last: nat, mark: int, offset: nat)
    requires offset < 7 && last <= 31 && !(1 <= mark <= last)
    ensures var lines := MonthPage(title, last, mark, offset);
      lines[0] == title && lines[1] == WeekdayHeader && |lines[1]| == 15
      && forall i :: 2 <= i < 8 ==> |lines[i]| == 22 && lines[i][21] == ' '
  {
    var lines := MonthPage(title, last, mark, offset);
    PageLineAt(title, last, mark, offset, 0);
    PageLineAt(title, last, mark, offset, 1);
    PlainDayTexts(last, mark);
    forall i | 2 <= i < 8
      ensures |lines[i]| == 22 && lines[i][21] == ' '
    {
      PageLineAt(title, last, mark, offset, i);
      if i < 2 + RowCount(offset, last) {
        RowWidth(DayTexts(last, mark), offset, i - 2);
      }
    }
  }

  /**
   * With no day highlighted, week row r holds in column c (Sunday = 0) the
   * day 7 * r + c - offset + 1 right-aligned in two characters, or two
   * spaces when there is no such day, followed by a space: the days of the
   * month in order, blank cells before the 1st and after the last day.
   */
  lemma PageGrid(title: string, last: nat, mark: int, offset: nat, r: nat, c: nat)
    requires offset < 7 && last <= 31 && !(1 <= mark <= last)
    requires r < RowCount(offset, last) && c < 7
    ensures var d := 7 * r + c - offset + 1;
      var line := MonthPage(title, last, mark, offset)[2 + r];
      |line| == 22
      && line[3 * c .. 3 * c + 3] == (if 1 <= d <= last then DayText(d) else "  ") + " "
  {
    PlainDayTexts(last, mark);
    PageLineAt(title, last, mark, offset, 2 + r);
    RowCell(DayTexts(last, mark), offset, r, c);
  }

  /** The lines after the last week row are blank lines of 22 spaces. */
  lemma PageBlankTail(title: string, last: nat, mark: int, offset: nat)
    requires offset < 7 && last <= 31
    ensures forall i :: 2 + RowCount(offset, last) <= i < 8 ==> MonthPage(title, last, mark, offset)[i] == Spaces(22)
  {
    forall i | 2 + RowCount(offset, last) <= i < 8
      ensures MonthPage(title, last, mark, offset)[i] == Spaces(22)
    {
      PageLineAt(title, last, mark, offset, i);
    }
  }

  /** A month of 28 to 31 days occupies four to six week rows. */
  lemma WeekRows(offset: nat, last: nat)
    requires offset < 7 && 28 <= last <= 31
    ensures 4 <= RowCount(offset, last) <= 6
  {
  }

  lemma SliceFront(line: string, i: nat, t: string, u: string)
    requires i + |t| + |u| <= |line| && line[i .. i + |t| + |u|] == t + u
    ensures line[i .. i + |t|] == t
  {
    assert line[i .. i + |t|] == line[i .. i + |t| + |u|][..|t|];
  }

  /**
   * With no day highlighted, day d sits in week row r and column c
   * (Sunday = 0) whenever 7 * r + c, with c < 7, is the number of cells
   * before it.
   */
  lemma PageDayPosition(title: string, last: nat, mark: int, offset: nat, d: int, r: nat, c: nat, i: nat, at: nat)
    requires offset < 7 && last <= 31 && !(1 <= mark <= last) && 1 <= d <= last
    requires c < 7 && 7 * r + c == offset + d - 1 && i == 2 + r && at == 3 * c
    ensures i < 8 && |MonthPage(title, last, mark, offset)[i]| == 22
    ensures MonthPage(title, last, mark, offset)[i][at .. at + 2] == DayText(d)
  {
    assert 7 * r + c - offset + 1 == d;
    PageGrid(title, last, mark, offset, r, c);
    DayTextPadded(d);
    SliceFront(MonthPage(title, last, mark, offset)[2 + r], 3 * c, DayText(d), " ");
  }

  /**
   * A newline, and when no day is marked an escape, is in no line of a
   * page whose title lacks it.
   */
  lemma PageLacks(title: string, last: nat, mark: int, offset: nat, ch: char)
    requires offset < 7 && last <= 31 && ch !in title
    requires ch == '\n' || (ch == Escape && !(1 <= mark <= last))
    ensures forall i :: 0 <= i < 8 ==> ch !in MonthPage(title, last, mark, offset)[i]
  {
    var head, days := [title, WeekdayHeader], DayTexts(last, mark);
    DayTextsLack(last, mark, ch);
    LayoutLacks(head, days, offset, ch);
    SpacesLack(22, ch);
    forall i | 0 <= i < 8
      ensures ch !in MonthPage(title, last, mark, offset)[i]
    {
      PageLineAt(title, last, mark, offset, i);
      if 2 <= i < 2 + RowCount(offset, last) {
        RowsAt(head, days, offset, RowCount(offset, last), i);
      }
    }
  }

  /**
   * Highlighting day `mark` changes only the week row r that holds it, in
   * column c (7 * r + c cells precede it): the day's two characters are
   * replaced by their highlighted form.
   */
  lemma PageHighlight(title: string, last: nat, mark: int, offset: nat, r: nat, c: nat)
    requires offset < 7 && last <= 31 && 1 <= mark <= last
    requires c < 7 && 7 * r + c == offset + mark - 1
    ensures 2 + r < 8 && |MonthPage(title, last, 0, offset)[2 + r]| == 22
    ensures MonthPage(title, last, mark, offset)[2 + r]
      == MonthPage(title, last, 0, offset)[2 + r][..3 * c] + Highlight(DayText(mark))
         + MonthPage(title, last, 0, offset)[2 + r][3 * c + 2..]
    ensures forall i :: 0 <= i < 8 && i != 2 + r ==> MonthPage(title, last, mark, offset)[i] == MonthPage(title, last, 0, offset)[i]
  {
    HighlightedDayTexts(last, mark);
    PlainDayTexts(last, 0);
    var plainDays := DayTexts(last, 0);
    var x := Highlight(DayText(mark));
    HighlightedRow(title, last, mark, offset, r, c, plainDays, x);
    UnmarkedRows(title, last, mark, offset, r, plainDays, x);
  }

  /** The row that holds the marked day, in terms of the same row without the mark. */
  lemma HighlightedRow(title: string, last: nat, mark: int, offset: nat, r: nat, c: nat,
                       plainDays: seq<string>, x: string)
    requires offset < 7 && last <= 31 && 1 <= mark <= last && c < 7 && 7 * r + c == offset + (mark - 1)
    requires plainDays == DayTexts(last, 0) && TwoWide(plainDays)
    requires DayTexts(last, mark) == plainDays[mark - 1 := x]
    ensures 2 + r < 8 && |MonthPage(title, last, 0, offset)[2 + r]| == 22
    ensures MonthPage(title, last, mark, offset)[2 + r]
      == MonthPage(title, last, 0, offset)[2 + r][..3 * c] + x + MonthPage(title, last, 0, offset)[2 + r][3 * c + 2..]
  {
    CellRow(offset, last, offset + (mark - 1), r, c);
    PageRowLine(title, last, mark, offset, 2 + r);
    PageRowLine(title, last, 0, offset, 2 + r);
    RowReplaceAt(plainDays, offset, mark - 1, x, r, c);
  }

  /** The week row holding cell k of a month, one that is drawn on the page. */
  lemma CellRow(offset: nat, last: nat, k: nat, r: nat, c: nat)
    requires offset < 7 && last <= 31 && c < 7 && 7 * r + c == k < offset + last
    ensures r < RowCount(offset, last) && 2 + r < 8
  {
  }

  /** Every line but the row of the marked day is the same without the mark. */
  lemma UnmarkedRows(title: string, last: nat, mark: int, offset: nat, r: nat, plainDays: seq<string>, x: string)
    requires offset < 7 && last <= 31 && 1 <= mark <= last && 7 * r <= offset + (mark - 1) < 7 * r + 7
    requires plainDays == DayTexts(last, 0) && DayTexts(last, mark) == plainDays[mark - 1 := x]
    ensures forall i :: 0 <= i < 8 && i != 2 + r ==> MonthPage(title, last, mark, offset)[i] == MonthPage(title, last, 0, offset)[i]
  {
    forall i | 0 <= i < 8 && i != 2 + r
      ensures MonthPage(title, last, mark, offset)[i] == MonthPage(title, last, 0, offset)[i]
    {
      UnmarkedRow(title, last, mark, offset, r, plainDays, x, i);
    }
  }

  lemma UnmarkedRow(title: string, last: nat, mark: int, offset: nat, r: nat, plainDays: seq<string>, x: string, i: nat)
    requires offset < 7 && last <= 31 && 1 <= mark <= last && 7 * r <= offset + (mark - 1) < 7 * r + 7
    requires plainDays == DayTexts(last, 0) && DayTexts(last, mark) == plainDays[mark - 1 := x]
    requires i < 8 && i != 2 + r
    ensures MonthPage(title, last, mark, offset)[i] == MonthPage(title, last, 0, offset)[i]
  {
    if 2 <= i < 2 + RowCount(offset, last) {
      OtherWeekLine(title, last, mark, offset, r, plainDays, x, i, i - 2);
    } else {
      PageFixedLine(title, last, mark, offset, i);
    }
  }

  /** A week row w other than the marked day's row r is the same line without the mark. */
  lemma OtherWeekLine(title: string, last: nat, mark: int, offset: nat, r: nat, plainDays: seq<string>, x: string, i: nat, w: nat)
    requires offset < 7 && last <= 31 && 1 <= mark <= last && 7 * r <= offset + (mark - 1) < 7 * r + 7
    requires plainDays == DayTexts(last, 0) && DayTexts(last, mark) == plainDays[mark - 1 := x]
    requires i < 8 && i == 2 + w && w != r && i < 2 + RowCount(offset, last)
    ensures MonthPage(title, last, mark, offset)[i] == MonthPage(title, last, 0, offset)[i]
  {
    OtherWeek(r, w, offset + (mark - 1));
    RowReplaceOther(plainDays, DayTexts(last, mark), offset, mark - 1, x, w);
    SameRowLine(title, last, mark, offset, i);
  }

  /** Cell k lies in week row r only. */
  lemma OtherWeek(r: nat, w: nat, k: int)
    requires 7 * r <= k < 7 * r + 7 && w != r
    ensures !(7 * w <= k < 7 * w + 7)
  {
  }

  /** Line i of a page, when it is a week row, is that row of the day texts. */
  lemma PageRowLine(title: string, last: nat, mark: int, offset: nat, i: nat)
    requires offset < 7 && last <= 31 && 2 <= i < 2 + RowCount(offset, last) && i < 8
    ensures MonthPage(title, last, mark, offset)[i] == Row(DayTexts(last, mark), offset, i - 2)
  {
    PageLineAt(title, last, mark, offset, i);
  }

  /** A week row that reads the same with and without the mark is the same line of the page. */
  lemma SameRowLine(title: string, last: nat, mark: int, offset: nat, i: nat)
    requires offset < 7 && last <= 31 && 2 <= i < 2 + RowCount(offset, last) && i < 8
    requires Row(DayTexts(last, mark), offset, i - 2) == Row(DayTexts(last, 0), offset, i - 2)
    ensures MonthPage(title, last, mark, offset)[i] == MonthPage(title, last, 0, offset)[i]
  {
    PageRowLine(title, last, mark, offset, i);
    PageRowLine(title, last, 0, offset, i);
  }

  /** The lines of a page that are not week rows do not depend on the marked day. */
  lemma PageFixedLine(title: string, last: nat, mark: int, offset: nat, i: nat)
    requires offset < 7 && last <= 31 && !(2 <= i < 2 + RowCount(offset, last)) && i < 8
    ensures MonthPage(title, last, mark, offset)[i] == MonthPage(title, last, 0, offset)[i]
  {
    PageLineAt(title, last, mark, offset, i);
    PageLineAt(title, last, 0, offset, i);
  }

  /**
   * A line of a page with a plain title holds an escape exactly when the
   * marked day is a day of the month and the line is the week row r that
   * holds it (7 * r to 7 * r + 6 cells precede it).
   */
  lemma PageEscape(title: string, last: nat, mark: int, offset: nat)
    requires offset < 7 && last <= 31 && Plain(title)
    ensures forall i :: 0 <= i < 8 ==>
      (Escape in MonthPage(title, last, mark, offset)[i]
       <==> 1 <= mark <= last && 2 <= i && 7 * (i - 2) <= offset + mark - 1 < 7 * (i - 2) + 7)
  {
    if 1 <= mark <= last {
      var k := offset + mark - 1;
      var r, c := k / 7, k % 7;
      forall i | 0 <= i < 8
        ensures (Escape in MonthPage(title, last, mark, offset)[i]) <==> 7 * (i - 2) <= k < 7 * (i - 2) + 7
      {
        MarkedLineEscape(title, last, mark, offset, r, c, i);
        RowOfCell(k, r, c, i);
      }
    } else {
      PageLacks(title, last, mark, offset, Escape);
    }
  }

  /** With day `mark` in column c of week row r, only line 2 + r holds an escape. */
  lemma MarkedLineEscape(title: string, last: nat, mark: int, offset: nat, r: nat, c: nat, i: nat)
    requires offset < 7 && last <= 31 && Plain(title) && 1 <= mark <= last
    requires c < 7 && 7 * r + c == offset + mark - 1 && i < 8
    ensures Escape in MonthPage(title, last, mark, offset)[i] <==> i == 2 + r
  {
    PageLacks(title, last, 0, offset, Escape);
    PageHighlight(title, last, mark, offset, r, c);
    if i == 2 + r {
      HighlightChars(DayText(mark));
      var plain := MonthPage(title, last, 0, offset)[2 + r];
      EscapeInside(plain[..3 * c], Highlight(DayText(mark)), plain[3 * c + 2..]);
    }
  }

  /** Cell k is in row r exactly when 7 * r <= k < 7 * r + 7. */
  lemma RowOfCell(k: nat, r: nat, c: nat, i: int)
    requires c < 7 && 7 * r + c == k
    ensures 7 * (i - 2) <= k < 7 * (i - 2) + 7 <==> i == 2 + r
  {
  }

  lemma EscapeInside(a: string, b: string, d: string)
    requires Escape in b
    ensures Escape in a + b + d
  {
    var i :| 0 <= i < |b| && b[i] == Escape;
    assert (a + b + d)[|a| + i] == Escape;
  }
}
