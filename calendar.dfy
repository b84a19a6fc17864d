/**
 * The calendar renderer: one month as 8 text lines, a whole year as four
 * quarter rows of three months side by side, and the choice between the
 * two from already-validated arguments.
 */
module Calendar {

  import opened Wrappers
  import opened Dates
  import opened Text
  import opened Months
  import opened Grid
  import opened Page

  /** The years a chrono `NaiveDate` can hold. */
  const MinYear: int := -262144
  const MaxYear: int := 262143

  /**
   * The month can be rendered without a failing date construction: its
   * 1st and the 1st of the following month are both representable.
   */
  predicate Renderable(year: int, month: int) {
    1 <= month <= 12 && MinYear <= year <= MaxYear && (year < MaxYear || month < 12)
  }

  /**
   * The month header: the Japanese label right-aligned in 8 characters, a
   * space and the year left-aligned in 13 characters; or, without the
   * year, the label centred in 20 characters and two spaces.
   */
  function Header(year: int, month: int, printYear: bool): (header: string)
    requires 1 <= month <= 12
    ensures |header| == if printYear then 9 + Max(|IntString(year)|, 13) else 22
    ensures printYear ==> IntString(year) <= header[9..]
  {
    JapaneseLabels(month);
    var ja := MonthNames[month - 1].ja;
    if printYear then PadLeft(ja, 8) + " " + PadRight(IntString(year), 13)
    else Center(ja, 20) + "  "
  }

  /** The weekday column of the 1st: 0 for Sunday through 6 for Saturday. */
  function FirstOffset(year: int, month: int): (offset: nat)
    requires 1 <= month <= 12
    ensures offset < 7
  {
    NumberFromSunday(Date(year, month, 1)) - 1
  }

  /**
   * The rendering of a month with day `mark` highlighted (no day is
   * highlighted when `mark` is not a day of the month): the page with the
   * month's title, length and weekday of the 1st.
   */
  function MonthLines(year: int, month: int, printYear: bool, mark: int): (lines: seq<string>)
    requires 1 <= month <= 12
    ensures |lines| == 8
  {
    MonthPage(Header(year, month, printYear), DaysInMonth(year, month), mark, FirstOffset(year, month))
  }

  /** The day of the month that is `today`, or 0 when today is in another month. */
  function TodayMark(year: int, month: int, today: Date): (mark: int)
    ensures mark != 0 ==> today.year == year && today.month == month && mark == today.day
  {
    if today.year == year && today.month == month then today.day else 0
  }

  /**
   * The 1st of a renderable month exists, the last day is day DaysInMonth,
   * and the last day's weekday number is 7 exactly when the cells fill
   * whole weeks, and otherwise the number of cells of the last row.
   */
  lemma MonthEnds(year: int, month: int)
    requires Renderable(year, month)
    ensures FromYmd(year, month, 1) == Some(Date(year, month, 1))
    ensures NumberFromSunday(Date(year, month, 1)) == FirstOffset(year, month) + 1
    ensures LastDayInMonth(year, month) == Date(year, month, DaysInMonth(year, month))
    ensures NumberFromSunday(LastDayInMonth(year, month))
      == (NumberFromSunday(Date(year, month, 1)) - 1 + DaysInMonth(year, month) - 1) % 7 + 1
  {
    LastDayInMonthIsMonthEnd(year, month);
    WeekdayInMonth(year, month, DaysInMonth(year, month));
  }

  /**
   * Renders one month: the header lines, the week rows, and blank lines
   * that bring the month to 8 lines.
   */
  method FormatMonth(year: int, month: int, printYear: bool, today: Date) returns (lines: seq<string>)
    requires Renderable(year, month)
    ensures lines == MonthLines(year, month, printYear, TodayMark(year, month, today))
  {
    var firstDayOfWeek, lastDay, lastDayOfWeek := MonthFrame(year, month);
    lines := MonthHeader(year, month, printYear);
    ghost var head := lines;
    ghost var mark := TodayMark(year, month, today);
    ghost var days := MarkedDayTexts(lastDay, mark);
    var line;
    lines, line := WeekLines(lines, days, year, month, today, firstDayOfWeek, lastDay);
    CloseRows(head, days, firstDayOfWeek - 1, lastDay, firstDayOfWeek - 1, lastDay, lines, line, lastDayOfWeek);
    if lastDayOfWeek != 7 {
      line := line + Spaces(3 * (7 - lastDayOfWeek));
      line := line + " ";
      lines := lines + [line];
    }
    ghost var body := lines;
    lines := PadMonth(lines);
    MonthAssembled(year, month, printYear, mark, head, days, body, lines);
  }

  /**
   * The dates a month's rendering starts from: the weekday number of the
   * 1st (Sunday = 1), the day number of the last day, and the weekday
   * number of the last day.
   */
  method MonthFrame(year: int, month: int) returns (firstDayOfWeek: int, lastDay: int, lastDayOfWeek: int)
    requires Renderable(year, month)
    ensures firstDayOfWeek == FirstOffset(year, month) + 1
    ensures lastDay == DaysInMonth(year, month)
    ensures lastDayOfWeek == (firstDayOfWeek - 1 + lastDay - 1) % 7 + 1
  {
    var firstDay := FromYmd(year, month, 1).value;
    var last := LastDayInMonth(year, month);
    firstDayOfWeek := NumberFromSunday(firstDay);
    lastDayOfWeek := NumberFromSunday(last);
    lastDay := last.day;
    MonthEnds(year, month);
  }

  /** The month-name line, with or without the year, and the weekday line. */
  method MonthHeader(year: int, month: int, printYear: bool) returns (lines: seq<string>)
    requires 1 <= month <= 12
    ensures lines == [Header(year, month, printYear), WeekdayHeader]
  {
    var monthName := MonthNames[month - 1];
    lines := [];
    if printYear {
      lines := lines + [PadLeft(monthName.ja, 8) + " " + PadRight(IntString(year), 13)];
    } else {
      lines := lines + [Center(monthName.ja, 20) + "  "];
    }
    lines := lines + [WeekdayHeader];
  }

  lemma MonthAssembled(year: int, month: int, printYear: bool, mark: int, head: seq<string>, days: seq<string>,
                       body: seq<string>, lines: seq<string>)
    requires 1 <= month <= 12
    requires head == [Header(year, month, printYear), WeekdayHeader]
    requires |days| == DaysInMonth(year, month) && MarkedDays(days, mark)
    requires body == Layout(head, days, FirstOffset(year, month))
    requires |body| <= 8 && lines == Padded(body, 8 - |body|)
    ensures lines == MonthLines(year, month, printYear, mark)
  {
    MarkedDaysAreDayTexts(days, mark);
  }

  /** Appends blank lines of 22 spaces until there are 8 lines. */
  method PadMonth(body: seq<string>) returns (lines: seq<string>)
    requires |body| <= 8
    ensures lines == Padded(body, 8 - |body|)
  {
    lines := body;
    var padding := 8 - |lines|;
    var i := 1;
    while i <= padding
      invariant 1 <= i <= padding + 1
      invariant lines == Padded(body, i - 1)
    {
      lines := lines + [Spaces(22)];
      i := i + 1;
    }
  }

  /** The text of one day: highlighted when it is today. */
  method DayString(ghost days: seq<string>, year: int, month: int, today: Date, day: int) returns (dayStr: string)
    requires 1 <= day <= |days| && MarkedDays(days, TodayMark(year, month, today))
    ensures dayStr == days[day - 1]
  {
    dayStr := if today.day == day && today.month == month && today.year == year
      then Highlight(DayText(day)) else DayText(day);
    assert days[day - 1] == MarkedDay(day, TodayMark(year, month, today));
  }

  /**
   * The day loop of a month of `lastDay` days whose 1st has weekday number
   * `firstDayOfWeek` (Sunday = 1): each day's text is appended to the
   * current line, and the line is closed after the Saturday column. Returns
   * the closed lines and the open line, as the renderer state after the
   * last day.
   */
  method WeekLines(head: seq<string>, ghost days: seq<string>, year: int, month: int, today: Date,
                   firstDayOfWeek: int, lastDay: int) returns (lines: seq<string>, line: string)
    requires 1 <= firstDayOfWeek <= 7 && lastDay == |days|
    requires MarkedDays(days, TodayMark(year, month, today))
    ensures (lines, line) == Fill(head, days, firstDayOfWeek - 1, lastDay)
  {
    lines := head;
    line := Spaces(3 * (firstDayOfWeek - 1));
    var day := 1;
    while day <= lastDay
      invariant 1 <= day <= lastDay + 1
      invariant (lines, line) == Fill(head, days, firstDayOfWeek - 1, day - 1)
    {
      var dayStr := DayString(days, year, month, today, day);
      FillNext(head, days, firstDayOfWeek - 1, day, lines, line, dayStr);
      line := line + dayStr;
      line := line + " ";
      if (firstDayOfWeek - 1 + day) % 7 == 0 {
        line := line + " ";
        lines := lines + [line];
        line := "";
      }
      day := day + 1;
    }
  }

  /** Closing the last partial week completes the grid exactly when the last day is not a Saturday. */
  lemma CloseRows(head: seq<string>, days: seq<string>, offset: nat, n: nat, first: int, m: int,
                  lines: seq<string>, line: string, lastDayOfWeek: int)
    requires offset < 7 && n == |days| && first == offset && m == n
    requires lines == Fill(head, days, offset, n).0 && line == Fill(head, days, offset, n).1
    requires lastDayOfWeek == (first + m - 1) % 7 + 1
    ensures lastDayOfWeek == 7 ==> lines == Layout(head, days, offset)
    ensures lastDayOfWeek != 7 ==> lines + [line + Spaces(3 * (7 - lastDayOfWeek)) + " "] == Layout(head, days, offset)
  {
    LastWeekday(lastDayOfWeek, offset + |days|);
    if lastDayOfWeek == 7 {
      FillFull(head, days, offset);
    } else {
      FillPartial(head, days, offset, 7 - lastDayOfWeek);
    }
  }

  /** The weekday number of the last cell k - 1 of the grid, counted from Sunday = 1. */
  lemma LastWeekday(w: int, k: int)
    requires w == (k - 1) % 7 + 1
    ensures w == 7 <==> k % 7 == 0
    ensures w != 7 ==> 7 - w == 7 - k % 7
  {
  }

  // ---------------------------------------------------------------------
  // What the lines of a month hold

  /** The month-name line is 22 characters for any year of at most 13 characters. */
  lemma HeaderWidth(year: int, month: int, printYear: bool)
    requires 1 <= month <= 12 && |IntString(year)| <= 13
    ensures |Header(year, month, printYear)| == 22
  {
    JapaneseLabels(month);
  }

  /** The month-name line holds neither an escape nor a newline. */
  lemma HeaderLacks(year: int, month: int, printYear: bool, ch: char)
    requires 1 <= month <= 12 && (ch == Escape || ch == '\n')
    ensures ch !in Header(year, month, printYear)
  {
    JapaneseLabels(month);
    var ja := MonthNames[month - 1].ja;
    assert ch !in DecimalString(month);
    assert ch !in ja;
    PaddingLacks(ja, 8, ch);
    PaddingLacks(ja, 20, ch);
    IntStringLacks(year, ch);
    PaddingLacks(IntString(year), 13, ch);
  }

  /**
   * With no day highlighted, a month of a representable year is 8 lines
   * of 22 characters, except the weekday line, which is 15 characters;
   * every line after it ends with a space.
   */
  lemma MonthShape(year: int, month: int, printYear: bool, mark: int)
    requires 1 <= month <= 12 && MinYear <= year <= MaxYear && !(1 <= mark <= DaysInMonth(year, month))
    ensures var lines := MonthLines(year, month, printYear, mark);
      |lines| == 8 && |lines[0]| == 22 && lines[1] == WeekdayHeader && |lines[1]| == 15
      && forall i :: 2 <= i < 8 ==> |lines[i]| == 22 && lines[i][21] == ' '
  {
    IntStringLength(year);
    HeaderWidth(year, month, printYear);
    PageShape(Header(year, month, printYear), DaysInMonth(year, month), mark, FirstOffset(year, month));
  }

  /** The marked day is a day of the month exactly when today is in that month. */
  lemma TodayMarkOf(year: int, month: int, today: Date)
    requires 1 <= month <= 12 && ValidDate(today)
    ensures (1 <= TodayMark(year, month, today) <= DaysInMonth(year, month))
      <==> today.year == year && today.month == month
  {
  }

  /**
   * A line of the month holds the highlight escape exactly when today is
   * in the month and the line is the week row of today's date (7 * r to
   * 7 * r + 6 cells precede today in week row r).
   */
  lemma TodayHighlight(year: int, month: int, printYear: bool, today: Date)
    requires 1 <= month <= 12 && ValidDate(today)
    ensures forall i :: 0 <= i < 8 ==>
      (Escape in MonthLines(year, month, printYear, TodayMark(year, month, today))[i]
       <==> today.year == year && today.month == month
            && 2 <= i && 7 * (i - 2) <= FirstOffset(year, month) + today.day - 1 < 7 * (i - 2) + 7)
  {
    HeaderLacks(year, month, printYear, Escape);
    TodayMarkOf(year, month, today);
    PageEscape(Header(year, month, printYear), DaysInMonth(year, month), TodayMark(year, month, today), FirstOffset(year, month));
  }

  /** No line of a month holds a newline. */
  lemma MonthNoNewline(year: int, month: int, printYear: bool, mark: int)
    requires 1 <= month <= 12
    ensures forall i :: 0 <= i < 8 ==> NoNewline(MonthLines(year, month, printYear, mark)[i])
  {
    HeaderLacks(year, month, printYear, '\n');
    PageLacks(Header(year, month, printYear), DaysInMonth(year, month), mark, FirstOffset(year, month), '\n');
  }
}
