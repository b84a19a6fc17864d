/**
 * The command: which view the arguments select, the lines it prints, and
 * what the printed text looks like once split on '\n', as the
 * command-line tests read it.
 */
module Command {

  import opened Wrappers
  import opened Dates
  import opened Text
  import opened Page
  import opened Calendar
  import opened Year

  /**
   * The parsed arguments: the month as `parse_month` returns it, the year
   * as `parse_year` returns it, and the flag for the current year.
   */
  datatype Args = Args(month: Option<int>, year: Option<int>, showCurrentYear: bool)

  /** The values the argument parsers can produce. */
  predicate ValidArgs(args: Args) {
    (args.month.Some? ==> 1 <= args.month.value <= 12)
    && (args.year.Some? ==> 1 <= args.year.value <= 9999)
  }

  datatype View = MonthView(year: int, month: int) | YearView(year: int)

  /** The view `run` renders for the arguments, with today's date filling what is not given. */
  function Selected(args: Args, today: Date): (view: View)
    ensures view.YearView? <==> args.showCurrentYear || (args.month.None? && args.year.Some?)
    ensures view.year == if !args.showCurrentYear && args.year.Some? then args.year.value else today.year
    ensures view.MonthView? ==> view.month == if args.month.Some? then args.month.value else today.month
  {
    if args.showCurrentYear then YearView(today.year)
    else
      match args.month
      case Some(month) => MonthView(args.year.GetOr(today.year), month)
      case None =>
        match args.year
        case Some(year) => YearView(year)
        case None => MonthView(today.year, today.month)
  }

  predicate Drawable(view: View) {
    match view
    case MonthView(year, month) => Renderable(year, month)
    case YearView(year) => Renderable(year, 12)
  }

  /** A single month is printed with its year; a year view marks today in its month. */
  function Render(view: View, today: Date): (lines: seq<string>)
    requires Drawable(view)
    ensures |lines| == if view.YearView? then 36 else 8
  {
    match view
    case MonthView(year, month) => MonthLines(year, month, true, TodayMark(year, month, today))
    case YearView(year) => YearLines(year, today)
  }

  /** Each line followed by a newline, as `println!` writes them. */
  function Printed(lines: seq<string>): (out: string)
  {
    if lines == [] then "" else lines[0] + "\n" + Printed(lines[1..])
  }

  /** The pieces `str::split('\n')` yields: the text between newlines, an empty piece after a final one. */
  function Split(s: string): (pieces: seq<string>)
    ensures |pieces| >= 1
    decreases |s|
  {
    if |s| == 0 then [""]
    else
      var rest := Split(s[1..]);
      if s[0] == '\n' then [""] + rest else [[s[0]] + rest[0]] + rest[1..]
  }

  /**
   * `run` with the clock's date passed in: it renders the selected view
   * and prints its lines one by one.
   */
  method Run(args: Args, today: Date) returns (out: string)
    requires ValidArgs(args) && ValidDate(today) && MinYear <= today.year < MaxYear
    ensures Drawable(Selected(args, today))
    ensures out == Printed(Render(Selected(args, today), today))
  {
    var lines := SelectLines(args, today);
    out := PrintLines(lines);
  }

  /** The `let lines = ...` of `run`: the flag, then the month, then the year decide the view. */
  method SelectLines(args: Args, today: Date) returns (lines: seq<string>)
    requires ValidArgs(args) && ValidDate(today) && MinYear <= today.year < MaxYear
    ensures Drawable(Selected(args, today))
    ensures lines == Render(Selected(args, today), today)
  {
    if args.showCurrentYear {
      var year := today.year;
      lines := FormatMonthsOfYear(year, today);
    } else {
      match args.month {
        case Some(month) =>
          var year := match args.year {
            case Some(year) => year
            case None => today.year
          };
          lines := FormatMonth(year, month, true, today);
        case None =>
          if args.year.Some? {
            lines := FormatMonthsOfYear(args.year.value, today);
          } else {
            lines := FormatMonth(today.year, today.month, true, today);
          }
      }
    }
  }

  /** The printing loop of `run`: each line and a newline. */
  method PrintLines(lines: seq<string>) returns (out: string)
    ensures out == Printed(lines)
  {
    out := "";
    for i := 0 to |lines|
      invariant out == Printed(lines[..i])
    {
      PrintedSnoc(lines[..i], lines[i]);
      assert lines[..i + 1] == lines[..i] + [lines[i]];
      out := out + lines[i] + "\n";
    }
    assert lines[..|lines|] == lines;
  }

  // ---------------------------------------------------------------------
  // Which view the arguments select

  /** Valid arguments and a date before the last representable year always select a view that can be rendered. */
  lemma SelectedDrawable(args: Args, today: Date)
    requires ValidArgs(args) && ValidDate(today) && MinYear <= today.year < MaxYear
    ensures Drawable(Selected(args, today))
  {
  }

  // ---------------------------------------------------------------------
  // The printed text, split on newlines

  lemma {:induction false} PrintedSnoc(lines: seq<string>, line: string)
    ensures Printed(lines + [line]) == Printed(lines) + line + "\n"
    decreases |lines|
  {
    if lines != [] {
      assert (lines + [line])[1..] == lines[1..] + [line];
      PrintedSnoc(lines[1..], line);
    }
  }

  /** A line without a newline, then a newline, is split off as one piece. */
  lemma {:induction false} SplitLine(line: string, rest: string)
    requires NoNewline(line)
    ensures Split(line + "\n" + rest) == [line] + Split(rest)
    decreases |line|
  {
    if line == [] {
      assert line + "\n" + rest == "\n" + rest;
      assert ("\n" + rest)[1..] == rest;
    } else {
      var s := line + "\n" + rest;
      assert s[0] == line[0] && s[1..] == line[1..] + "\n" + rest;
      SplitLine(line[1..], rest);
      assert [line[0]] + line[1..] == line;
    }
  }

  /** Splitting printed lines that hold no newline gives them back, and an empty piece after the last newline. */
  lemma {:induction false} SplitPrinted(lines: seq<string>)
    requires forall i :: 0 <= i < |lines| ==> NoNewline(lines[i])
    ensures Split(Printed(lines)) == lines + [""]
    decreases |lines|
  {
    if lines != [] {
      SplitLine(lines[0], Printed(lines[1..]));
      SplitPrinted(lines[1..]);
      assert [lines[0]] + (lines[1..] + [""]) == lines + [""];
    }
  }

  /**
   * With no arguments, the output splits into 9 pieces (8 lines and the
   * empty piece after the last newline), and the first is 22 characters.
   */
  lemma DefaultOutput(today: Date)
    requires ValidDate(today) && MinYear <= today.year < MaxYear
    ensures var view := Selected(Args(None, None, false), today);
      Drawable(view)
      && var pieces := Split(Printed(Render(view, today)));
      |pieces| == 9 && |pieces[0]| == 22 && pieces[8] == ""
  {
    var year, month := today.year, today.month;
    var lines := MonthLines(year, month, true, TodayMark(year, month, today));
    MonthNoNewline(year, month, true, TodayMark(year, month, today));
    SplitPrinted(lines);
    FirstLine(year, month, TodayMark(year, month, today));
  }

  /** The first line of a month printed with its year is its 22-character header. */
  lemma FirstLine(year: int, month: int, mark: int)
    requires 1 <= month <= 12 && MinYear <= year <= MaxYear
    ensures MonthLines(year, month, true, mark)[0] == Header(year, month, true)
    ensures |Header(year, month, true)| == 22
  {
    IntStringLength(year);
    HeaderWidth(year, month, true);
    PageLineAt(Header(year, month, true), DaysInMonth(year, month), mark, FirstOffset(year, month), 0);
  }

  /** With the year flag, the output splits into 37 pieces: 36 lines and the empty piece after the last newline. */
  lemma YearOutput(today: Date)
    requires ValidDate(today) && MinYear <= today.year < MaxYear
    ensures var view := Selected(Args(None, None, true), today);
      Drawable(view)
      && var pieces := Split(Printed(Render(view, today)));
      |pieces| == 37 && pieces[36] == ""
  {
    YearNoNewline(today.year, today);
    SplitPrinted(YearLines(today.year, today));
  }

  // ---------------------------------------------------------------------
  // Bytes and characters of the header

  /** The number of bytes a character takes in UTF-8. */
  function Utf8Width(c: char): (n: nat)
    ensures 1 <= n <= 4
    ensures (c as int < 0x80) <==> n == 1
  {
    if c as int < 0x80 then 1 else if c as int < 0x800 then 2 else if c as int < 0x10000 then 3 else 4
  }

  /** The length in bytes of the UTF-8 encoding of s, which is what `str::len` returns. */
  function Utf8Length(s: string): (n: nat)
  {
    if s == [] then 0 else Utf8Length(s[..|s| - 1]) + Utf8Width(s[|s| - 1])
  }

  lemma {:induction false} Utf8Append(a: string, b: string)
    ensures Utf8Length(a + b) == Utf8Length(a) + Utf8Length(b)
    decreases |b|
  {
    if b == [] {
      assert a + b == a;
    } else {
      assert (a + b)[..|a + b| - 1] == a + b[..|b| - 1];
      assert (a + b)[|a + b| - 1] == b[|b| - 1];
      Utf8Append(a, b[..|b| - 1]);
    }
  }

  predicate Ascii(s: string) {
    forall i :: 0 <= i < |s| ==> s[i] as int < 0x80
  }

  /** An ASCII text takes one byte per character. */
  lemma {:induction false} Utf8Ascii(s: string)
    requires Ascii(s)
    ensures Utf8Length(s) == |s|
    decreases |s|
  {
    if s != [] {
      Utf8Ascii(s[..|s| - 1]);
    }
  }

  /** Padding an ASCII text adds one byte per space. */
  lemma PaddedAscii(s: string, w: nat)
    requires Ascii(s)
    ensures Utf8Length(PadLeft(s, w)) == |PadLeft(s, w)| && Utf8Length(PadRight(s, w)) == |PadRight(s, w)|
  {
    Utf8Ascii(PadLeft(s, w));
    Utf8Ascii(PadRight(s, w));
  }

  /** A month label, one or two digits and 月, right-aligned in 8 characters, takes 10 bytes. */
  lemma LabelBytes(digits: string)
    requires AllDigits(digits) && 1 <= |digits| <= 2
    ensures Utf8Length(PadLeft(digits + "月", 8)) == 10
  {
    var ja := digits + "月";
    var pad := Spaces(8 - |ja|);
    assert PadLeft(ja, 8) == pad + ja;
    Utf8Append(pad, ja);
    Utf8Append(digits, "月");
    assert Utf8Length("月") == 3;
    Utf8Ascii(pad);
    Utf8Ascii(digits);
  }

  /** The header with the year is the padded label, a space and the padded year, which takes 13 characters. */
  lemma HeaderPieces(year: int, month: int)
    requires 1 <= month <= 12 && MinYear <= year <= MaxYear
    ensures Header(year, month, true) == PadLeft(DecimalString(month) + "月", 8) + " " + PadRight(IntString(year), 13)
    ensures |Header(year, month, true)| == 22 && |PadRight(IntString(year), 13)| == 13
  {
    Months.JapaneseLabels(month);
    IntStringLength(year);
    HeaderWidth(year, month, true);
  }

  /** A label of 10 bytes, a space and 13 ASCII characters take 24 bytes. */
  lemma JoinedBytes(header: string, monthText: string, yearText: string)
    requires header == monthText + " " + yearText
    requires Utf8Length(monthText) == 10 && Utf8Length(yearText) == |yearText| == 13
    ensures Utf8Length(header) == 24
  {
    Utf8Append(monthText, " ");
    Utf8Append(monthText + " ", yearText);
    Utf8Ascii(" ");
  }

  /** The header of a month printed with its year takes 24 bytes: its 22 characters, 月 taking 3 bytes. */
  lemma HeaderBytes(year: int, month: int)
    requires 1 <= month <= 12 && MinYear <= year <= MaxYear
    ensures |Header(year, month, true)| == 22
    ensures Utf8Length(Header(year, month, true)) == 24
  {
    HeaderPieces(year, month);
    LabelTextBytes(month);
    YearTextBytes(year);
    JoinedBytes(Header(year, month, true), PadLeft(DecimalString(month) + "月", 8), PadRight(IntString(year), 13));
  }

  lemma LabelTextBytes(month: int)
    requires 1 <= month <= 12
    ensures Utf8Length(PadLeft(DecimalString(month) + "月", 8)) == 10
  {
    Months.JapaneseLabels(month);
    LabelBytes(DecimalString(month));
  }

  lemma YearTextBytes(year: int)
    ensures Utf8Length(PadRight(IntString(year), 13)) == |PadRight(IntString(year), 13)|
  {
    assert Ascii(IntString(year));
    PaddedAscii(IntString(year), 13);
  }

  /**
   * The default output's first piece is 22 characters but 24 bytes, so a
   * check of its byte length against 22 does not hold for any date.
   */
  lemma DefaultHeaderBytes(today: Date)
    requires ValidDate(today) && MinYear <= today.year < MaxYear
    ensures var view := Selected(Args(None, None, false), today);
      Drawable(view)
      && var pieces := Split(Printed(Render(view, today)));
      |pieces[0]| == 22 && Utf8Length(pieces[0]) == 24
  {
    var year, month := today.year, today.month;
    var lines := MonthLines(year, month, true, TodayMark(year, month, today));
    MonthNoNewline(year, month, true, TodayMark(year, month, today));
    SplitPrinted(lines);
    FirstLine(year, month, TodayMark(year, month, today));
    HeaderBytes(year, month);
  }
}
