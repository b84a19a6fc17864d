/**
 * The year view: the year right-aligned in 32 characters, then four
 * quarters, each the three months of the quarter side by side line by
 * line, with an empty line after each of the first three quarters.
 */
module Year {

  import opened Dates
  import opened Text
  import opened Page
  import opened Calendar

  /**
   * The lines `izip!` yields over three sequences, up to the n-th: line i
   * joins the i-th element of each.
   */
  function Zipped(a: seq<string>, b: seq<string>, c: seq<string>, n: nat): (r: seq<string>)
    requires n <= |a| && n <= |b| && n <= |c|
    ensures |r| == n
    ensures forall i :: 0 <= i < n ==> r[i] == a[i] + b[i] + c[i]
  {
    if n == 0 then [] else Zipped(a, b, c, n - 1) + [a[n - 1] + b[n - 1] + c[n - 1]]
  }

  function MinLength(a: seq<string>, b: seq<string>, c: seq<string>): (n: nat)
    ensures n <= |a| && n <= |b| && n <= |c|
    ensures n == |a| || n == |b| || n == |c|
  {
    if |a| <= |b| && |a| <= |c| then |a| else if |b| <= |c| then |b| else |c|
  }

  /** `izip!` stops at the end of the shortest of the three. */
  function Zip3(a: seq<string>, b: seq<string>, c: seq<string>): (r: seq<string>)
  {
    Zipped(a, b, c, MinLength(a, b, c))
  }

  /** The 12 months of the year, rendered without the year and with today marked. */
  function YearMonths(year: int, today: Date): (months: seq<seq<string>>)
    ensures MonthShaped(months)
  {
    seq(12, m requires 0 <= m < 12 => MonthLines(year, m + 1, false, TodayMark(year, m + 1, today)))
  }

  lemma YearMonthAt(year: int, today: Date, month: int)
    requires 1 <= month <= 12
    ensures YearMonths(year, today)[month - 1] == MonthLines(year, month, false, TodayMark(year, month, today))
  {
  }

  /** Each of the 12 months has 8 lines. */
  predicate MonthShaped(months: seq<seq<string>>) {
    |months| == 12 && forall m :: 0 <= m < 12 ==> |months[m]| == 8
  }

  /** Quarter q (from 0) zips its three months line by line. */
  function Quarters(months: seq<seq<string>>): (quarters: seq<seq<string>>)
    requires MonthShaped(months)
    ensures QuarterShaped(quarters)
    ensures forall q, i :: 0 <= q < 4 && 0 <= i < 8 ==>
      quarters[q][i] == months[3 * q][i] + months[3 * q + 1][i] + months[3 * q + 2][i]
  {
    seq(4, q requires 0 <= q < 4 => Zip3(months[3 * q], months[3 * q + 1], months[3 * q + 2]))
  }

  lemma QuarterAt(months: seq<seq<string>>, q: int)
    requires MonthShaped(months) && 1 <= q <= 4
    ensures Quarters(months)[q - 1] == Zip3(months[(q - 1) * 3], months[(q - 1) * 3 + 1], months[(q - 1) * 3 + 2])
  {
    assert 3 * (q - 1) == (q - 1) * 3;
  }

  /** The year right-aligned over the three months, as `{:>32}`. */
  function YearTitle(year: int): (title: string)
    ensures |title| == Max(|IntString(year)|, 32)
    ensures IntString(year) <= title[|title| - |IntString(year)|..]
    ensures title[..|title| - |IntString(year)|] == Spaces(|title| - |IntString(year)|)
  {
    PadLeft(IntString(year), 32)
  }

  /** Each of the four quarters has 8 lines. */
  predicate QuarterShaped(quarters: seq<seq<string>>) {
    |quarters| == 4 && forall q :: 0 <= q < 4 ==> |quarters[q]| == 8
  }

  /** The title and the first n quarters, each but the fourth followed by an empty line. */
  function Stacked(title: string, quarters: seq<seq<string>>, n: nat): (lines: seq<string>)
    requires n <= 4 && QuarterShaped(quarters)
    ensures |lines| == if n == 4 then 36 else 1 + 9 * n
  {
    if n == 0 then [title]
    else Stacked(title, quarters, n - 1) + quarters[n - 1] + (if n != 4 then [""] else [])
  }

  function YearLines(year: int, today: Date): (lines: seq<string>)
    ensures |lines| == 36
  {
    Stacked(YearTitle(year), Quarters(YearMonths(year, today)), 4)
  }

  /**
   * `format_months_of_year`: the title, then for each quarter the three
   * months zipped line by line, and an empty line after quarters 1 to 3.
   */
  method FormatMonthsOfYear(year: int, today: Date) returns (lines: seq<string>)
    requires Renderable(year, 12)
    ensures lines == YearLines(year, today)
  {
    ghost var quarters := Quarters(YearMonths(year, today));
    lines := [PadLeft(IntString(year), 32)];
    for quater := 1 to 5
      invariant lines == Stacked(YearTitle(year), quarters, quater - 1)
    {
      lines := PushQuarter(lines, year, quater, today);
      if quater != 4 {
        lines := lines + [""];
      }
    }
  }

  /** The loop body for one quarter: its three months, zipped onto the lines so far. */
  method PushQuarter(lines: seq<string>, year: int, quater: int, today: Date) returns (r: seq<string>)
    requires Renderable(year, 12) && 1 <= quater <= 4
    ensures r == lines + Quarters(YearMonths(year, today))[quater - 1]
  {
    ghost var months := YearMonths(year, today);
    var ms1 := FormatMonth(year, (quater - 1) * 3 + 1, false, today);
    var ms2 := FormatMonth(year, (quater - 1) * 3 + 2, false, today);
    var ms3 := FormatMonth(year, (quater - 1) * 3 + 3, false, today);
    YearMonthAt(year, today, (quater - 1) * 3 + 1);
    YearMonthAt(year, today, (quater - 1) * 3 + 2);
    YearMonthAt(year, today, (quater - 1) * 3 + 3);
    QuarterAt(months, quater);
    r := PushZipped(lines, ms1, ms2, ms3);
  }

  /** Appends, one by one, the lines `izip!` yields over the three sequences. */
  method PushZipped(lines: seq<string>, a: seq<string>, b: seq<string>, c: seq<string>) returns (r: seq<string>)
    ensures r == lines + Zip3(a, b, c)
  {
    r := lines;
    var n := MinLength(a, b, c);
    for i := 0 to n
      invariant r == lines + Zipped(a, b, c, i)
    {
      r := r + [a[i] + b[i] + c[i]];
    }
  }

  // ---------------------------------------------------------------------
  // Properties of the year view

  /** Fewer quarters give a prefix of the lines of more quarters. */
  lemma {:induction false} StackedGrows(title: string, quarters: seq<seq<string>>, m: nat, n: nat)
    requires m <= n <= 4 && QuarterShaped(quarters)
    ensures Stacked(title, quarters, m) <= Stacked(title, quarters, n)
    decreases n
  {
    if m < n {
      StackedGrows(title, quarters, m, n - 1);
    }
  }

  /**
   * The layout of the 36 lines: the title first; line i of quarter q is
   * line 9 * (q - 1) + 1 + i; an empty line follows each of the first
   * three quarters.
   */
  lemma StackedAt(title: string, quarters: seq<seq<string>>, q: int, i: int)
    requires QuarterShaped(quarters) && 1 <= q <= 4 && 0 <= i < 8
    ensures Stacked(title, quarters, 4)[0] == title
    ensures Stacked(title, quarters, 4)[9 * (q - 1) + 1 + i] == quarters[q - 1][i]
    ensures q < 4 ==> Stacked(title, quarters, 4)[9 * q] == ""
  {
    StackedGrows(title, quarters, 0, 4);
    StackedGrows(title, quarters, q, 4);
    assert |Stacked(title, quarters, q - 1)| == 9 * (q - 1) + 1;
  }

  /** Line i of quarter q joins line i of its three months, numbered m1, m2 and m3 from 1. */
  lemma StackedMonths(title: string, months: seq<seq<string>>, q: int, i: int, m1: int, m2: int, m3: int)
    requires MonthShaped(months) && 1 <= q <= 4 && 0 <= i < 8
    requires m1 == 3 * q - 2 && m2 == 3 * q - 1 && m3 == 3 * q
    ensures Stacked(title, Quarters(months), 4)[9 * (q - 1) + 1 + i]
      == months[m1 - 1][i] + months[m2 - 1][i] + months[m3 - 1][i]
  {
    StackedAt(title, Quarters(months), q, i);
    assert 3 * (q - 1) == m1 - 1 && 3 * (q - 1) + 1 == m2 - 1 && 3 * (q - 1) + 2 == m3 - 1;
  }

  /**
   * The year view line by line: the year right-aligned in 32 characters;
   * line 9 * (q - 1) + 1 + i joins line i of the three months of quarter
   * q; an empty line after each of the first three quarters.
   */
  lemma YearLayout(year: int, today: Date, q: int, i: int)
    requires 1 <= q <= 4 && 0 <= i < 8
    ensures YearLines(year, today)[0] == PadLeft(IntString(year), 32)
    ensures YearLines(year, today)[9 * (q - 1) + 1 + i]
      == MonthLines(year, 3 * q - 2, false, TodayMark(year, 3 * q - 2, today))[i]
         + MonthLines(year, 3 * q - 1, false, TodayMark(year, 3 * q - 1, today))[i]
         + MonthLines(year, 3 * q, false, TodayMark(year, 3 * q, today))[i]
    ensures q < 4 ==> YearLines(year, today)[9 * q] == ""
  {
    var months := YearMonths(year, today);
    var m1, m2, m3 := 3 * q - 2, 3 * q - 1, 3 * q;
    StackedAt(YearTitle(year), Quarters(months), q, i);
    StackedMonths(YearTitle(year), months, q, i, m1, m2, m3);
    YearMonthAt(year, today, m1);
    YearMonthAt(year, today, m2);
    YearMonthAt(year, today, m3);
  }

  /** The year view holds a character only if the title or one of the months holds it. */
  lemma StackedLacks(title: string, months: seq<seq<string>>, ch: char)
    requires MonthShaped(months) && ch !in title
    requires forall m, i :: 0 <= m < 12 && 0 <= i < 8 ==> ch !in months[m][i]
    ensures forall j :: 0 <= j < 36 ==> ch !in Stacked(title, Quarters(months), 4)[j]
  {
    forall j | 0 <= j < 36
      ensures ch !in Stacked(title, Quarters(months), 4)[j]
    {
      if j == 0 {
        StackedAt(title, Quarters(months), 1, 0);
      } else {
        var q, i := (j - 1) / 9 + 1, (j - 1) % 9;
        if i == 8 {
          assert j == 9 * q;
          StackedAt(title, Quarters(months), q, 0);
        } else {
          assert j == 9 * (q - 1) + 1 + i;
          StackedMonths(title, months, q, i, 3 * q - 2, 3 * q - 1, 3 * q);
        }
      }
    }
  }

  /** No line of any month of the year holds a newline. */
  lemma YearMonthsNoNewline(year: int, today: Date)
    ensures forall m, i :: 0 <= m < 12 && 0 <= i < 8 ==> '\n' !in YearMonths(year, today)[m][i]
  {
    forall m, i | 0 <= m < 12 && 0 <= i < 8
      ensures '\n' !in YearMonths(year, today)[m][i]
    {
      YearMonthAt(year, today, m + 1);
      MonthNoNewline(year, m + 1, false, TodayMark(year, m + 1, today));
    }
  }

  /** No line of the year view holds a newline. */
  lemma YearNoNewline(year: int, today: Date)
    ensures forall j :: 0 <= j < 36 ==> NoNewline(YearLines(year, today)[j])
  {
    IntStringLacks(year, '\n');
    PaddingLacks(IntString(year), 32, '\n');
    YearMonthsNoNewline(year, today);
    StackedLacks(YearTitle(year), YearMonths(year, today), '\n');
  }

  /** Line i of quarter q holds a character exactly when line i of one of its three months does. */
  lemma StackedHolds(title: string, months: seq<seq<string>>, ch: char, q: int, i: int)
    requires MonthShaped(months) && 1 <= q <= 4 && 0 <= i < 8
    ensures ch in Stacked(title, Quarters(months), 4)[9 * (q - 1) + 1 + i]
      <==> ch in months[3 * q - 3][i] || ch in months[3 * q - 2][i] || ch in months[3 * q - 1][i]
  {
    StackedMonths(title, months, q, i, 3 * q - 2, 3 * q - 1, 3 * q);
  }

  /** Line i of quarter q is as wide as line i of its three months together. */
  lemma StackedWidth(title: string, months: seq<seq<string>>, q: int, i: int)
    requires MonthShaped(months) && 1 <= q <= 4 && 0 <= i < 8
    ensures |Stacked(title, Quarters(months), 4)[9 * (q - 1) + 1 + i]|
      == |months[3 * q - 3][i]| + |months[3 * q - 2][i]| + |months[3 * q - 1][i]|
  {
    StackedMonths(title, months, q, i, 3 * q - 2, 3 * q - 1, 3 * q);
  }

  /** Today's cell is line i of month m: today is in that month of the year and i is its week row. */
  predicate TodayRow(year: int, today: Date, month: int, i: int)
    requires 1 <= month <= 12
  {
    today.year == year && today.month == month
    && 2 <= i && 7 * (i - 2) <= FirstOffset(year, month) + today.day - 1 < 7 * (i - 2) + 7
  }

  lemma YearMonthsHighlight(year: int, today: Date)
    requires ValidDate(today)
    ensures forall m, i :: 0 <= m < 12 && 0 <= i < 8 ==>
      (Escape in YearMonths(year, today)[m][i] <==> TodayRow(year, today, m + 1, i))
  {
    forall m, i | 0 <= m < 12 && 0 <= i < 8
      ensures Escape in YearMonths(year, today)[m][i] <==> TodayRow(year, today, m + 1, i)
    {
      MonthHighlight(year, today, m, m + 1, i);
    }
  }

  lemma MonthHighlight(year: int, today: Date, m: nat, month: int, i: nat)
    requires ValidDate(today) && m < 12 && month == m + 1 && i < 8
    ensures Escape in YearMonths(year, today)[m][i] <==> TodayRow(year, today, month, i)
  {
    YearMonthAt(year, today, month);
    TodayHighlight(year, month, false, today);
  }

  /**
   * Only today is highlighted in the year view: the title and the empty
   * lines hold no escape, and line i of quarter q holds one exactly when
   * today is in that quarter of the year and line i is the week row of
   * today in its month.
   */
  lemma YearHighlight(year: int, today: Date, q: int, i: int)
    requires ValidDate(today) && 1 <= q <= 4 && 0 <= i < 8
    ensures Escape !in YearLines(year, today)[0]
    ensures q < 4 ==> Escape !in YearLines(year, today)[9 * q]
    ensures Escape in YearLines(year, today)[9 * (q - 1) + 1 + i]
      <==> today.year == year && 3 * q - 2 <= today.month <= 3 * q
           && 2 <= i && 7 * (i - 2) <= FirstOffset(year, today.month) + today.day - 1 < 7 * (i - 2) + 7
  {
    var months := YearMonths(year, today);
    StackedAt(YearTitle(year), Quarters(months), q, i);
    IntStringLacks(year, Escape);
    PaddingLacks(IntString(year), 32, Escape);
    QuarterHighlight(year, today, q, i);
    TodayInQuarter(year, today, q, i);
  }

  lemma QuarterHighlight(year: int, today: Date, q: int, i: int)
    requires ValidDate(today) && 1 <= q <= 4 && 0 <= i < 8
    ensures Escape in YearLines(year, today)[9 * (q - 1) + 1 + i]
      <==> TodayRow(year, today, 3 * q - 2, i) || TodayRow(year, today, 3 * q - 1, i) || TodayRow(year, today, 3 * q, i)
  {
    var months := YearMonths(year, today);
    YearMonthsHighlight(year, today);
    StackedHolds(YearTitle(year), months, Escape, q, i);
    assert 3 * q - 3 + 1 == 3 * q - 2 && 3 * q - 2 + 1 == 3 * q - 1 && 3 * q - 1 + 1 == 3 * q;
  }

  /** Today's cell is in line i of one of the quarter's months exactly when today is in the quarter and i is its row. */
  lemma TodayInQuarter(year: int, today: Date, q: int, i: int)
    requires ValidDate(today) && 1 <= q <= 4
    ensures TodayRow(year, today, 3 * q - 2, i) || TodayRow(year, today, 3 * q - 1, i) || TodayRow(year, today, 3 * q, i)
      <==> today.year == year && 3 * q - 2 <= today.month <= 3 * q
           && 2 <= i && 7 * (i - 2) <= FirstOffset(year, today.month) + today.day - 1 < 7 * (i - 2) + 7
  {
  }

  lemma YearMonthsWidth(year: int, today: Date)
    requires MinYear <= year <= MaxYear && ValidDate(today) && today.year != year
    ensures forall m, i :: 0 <= m < 12 && 0 <= i < 8 ==>
      |YearMonths(year, today)[m][i]| == if i == 1 then 15 else 22
  {
    forall m | 0 <= m < 12
      ensures forall i :: 0 <= i < 8 ==> |YearMonths(year, today)[m][i]| == if i == 1 then 15 else 22
    {
      YearMonthAt(year, today, m + 1);
      UnmarkedMonthWidth(year, today, m + 1);
    }
  }

  lemma UnmarkedMonthWidth(year: int, today: Date, month: int)
    requires MinYear <= year <= MaxYear && ValidDate(today) && today.year != year && 1 <= month <= 12
    ensures forall i :: 0 <= i < 8 ==>
      |MonthLines(year, month, false, TodayMark(year, month, today))[i]| == if i == 1 then 15 else 22
  {
    var mark := TodayMark(year, month, today);
    assert mark == 0;
    MonthShape(year, month, false, mark);
    LineWidths(MonthLines(year, month, false, mark));
  }

  /** The widths of an unmarked month, line by line. */
  lemma LineWidths(lines: seq<string>)
    requires |lines| == 8 && |lines[0]| == 22 && |lines[1]| == 15
    requires forall i :: 2 <= i < 8 ==> |lines[i]| == 22
    ensures forall i :: 0 <= i < 8 ==> |lines[i]| == if i == 1 then 15 else 22
  {
  }

  /**
   * When today is not in the year, the title is 32 characters, the
   * weekday line of a quarter 45 and its other lines 66.
   */
  lemma YearWidths(year: int, today: Date, q: int, i: int)
    requires MinYear <= year <= MaxYear && ValidDate(today) && today.year != year
    requires 1 <= q <= 4 && 0 <= i < 8
    ensures |YearLines(year, today)[0]| == 32
    ensures |YearLines(year, today)[9 * (q - 1) + 1 + i]| == if i == 1 then 45 else 66
  {
    var months := YearMonths(year, today);
    StackedAt(YearTitle(year), Quarters(months), q, i);
    IntStringLength(year);
    YearMonthsWidth(year, today);
    StackedWidth(YearTitle(year), months, q, i);
  }
}
