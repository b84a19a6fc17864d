# calr, modelled in Dafny

`calr` is a small Rust clone of `cal`. It prints one month, or a whole year, as a grid of
days with Japanese month labels (`1月` … `12月`) and weekday names (`日 月 火 水 木 金 土`). It
shows today's date in reverse video. This project models the core of `src/lib.rs` and proves
properties of that model:
- the month table;
- the year and month argument parsers;
- the last day of a month;
- the rendering of one month and of a year;
- the choice between the two in `run`.

The model follows the code line by line where the code works step by step:
- `format_month` and `format_months_of_year` are methods with the source's loops.
- Each is proved equal to a declarative definition of the page.
- The page's properties are proved as lemmas about that definition.

Files, one module each:
- `wrappers.dfy`: `Option` and `Result`.
- `text.dfy`: Rust's `{:>w}`, `{:<w}` and `{:^w}` padding, counted in characters. Also the
  `Display` form of integers, `from_str` for `i32` and `u32`, and ASCII lowercasing.
- `months.dfy`: `MONTH_NAMES`, `parse_year` and `parse_month`, with the unit-test and
  command-line-test examples.
- `dates.dfy`: proleptic Gregorian dates, as chrono counts them. It covers month lengths, a
  linear day number, the weekday counted from Sunday, the previous day, and
  `last_day_in_month`.
- `grid.dfy`: laying out any sequence of day texts on a 7-column grid of 3-character cells. It
  relates the renderer's append-by-append state (`Fill`) to the grid's rows (`Layout`).
- `page.dfy`: the 8-line page of a month: the title, the weekday line, the week rows and the
  blank lines. It covers widths, cell positions and where the highlight escape appears.
- `calendar.dfy`: `format_month` (`FormatMonth`) and its specification `MonthLines`.
- `year.dfy`: `format_months_of_year` (`FormatMonthsOfYear`) and its specification
  `YearLines`.
- `command.dfy`: `run`, i.e. the choice of the view, printing with `println!`, and the
  output split on `'\n'` as the command-line tests read it.
- `month_examples.dfy`: the three months of the `format_month` unit test.

Four facts about the code's output:
- **Year view length.** `format_months_of_year` returns 36 lines, not 37. The command-line
  test counts 37 pieces because splitting the printed text on `'\n'` leaves an empty piece
  after the last newline (`Command.YearOutput`, `Command.SplitPrinted`).
- **Weekday line width.** The weekday line `"日 月 火 水 木 金 土  "` is 15 characters. With no
  day highlighted, every other line of a month is 22 characters (`Calendar.MonthShape`);
  today's week row is 8 characters longer (`Page.Highlight`, `Page.PageHighlight`). The weekday line is 22
  display columns only because the kanji are double-width.
- **Header width.** The header with the year is `{:>8}`, a space, then `{:<13}`: 22
  characters (`Calendar.HeaderWidth`).
- **Year range.** The rendering functions accept any year chrono can represent, not only 1
  through 9999. Today's year comes from the clock and is not range-checked. The model uses
  chrono's range of −262144 through 262143 (`Calendar.Renderable`), the bound
  `i32::MIN >> 13` through `i32::MAX >> 13` of the chrono 0.4 releases that define it so.

## Model

| member | source | states |
|---|---|---|
| `Months.JapaneseLabels` | src/lib.rs:13-62 | the table has 12 entries; the Japanese label of month m is the decimal m followed by 月, 2 or 3 characters |
| `Months.LowerNamesTable` | src/lib.rs:13-62 | the lowercased English names of the table, in order |
| `Months.ParseYear` | src/lib.rs:64-75 | accepted exactly when `i32::from_str` gives a value in 1..=9999, and then that value; an out-of-range i32 is reported with its value; a text that is no i32 is reported as invalid with the text |
| `Months.ParseYearNumber` | src/lib.rs:64-75 | every year 1..=9999 in decimal is accepted as itself |
| `Months.ParseYearExamples` | tests/cli.rs:9-37 | "0" and "10000" are out of range; "foo" is not a year |
| `Months.Message` | src/lib.rs:70-101 | the four error messages: each starts with what was rejected and quotes the rejected text or value; the exact texts for the tested inputs are `Months.YearMessages`, `Months.ZeroMessage`, `Months.ThirteenMessage` and `Months.FooMessage` |
| `Months.YearMessages` | src/lib.rs:70-73 | the messages for those three rejections |
| `Months.MatchingMonths` | src/lib.rs:88-98 | the months after `from` whose lowercased name starts with the prefix: strictly increasing, and each month is in it exactly when its name matches |
| `Months.ParseMonth` | src/lib.rs:77-107 | a u32 in 1..=12 is that month, any other u32 is out of range; otherwise the lowercased text is accepted exactly when one month's name starts with it, and then is that month; else it is invalid, reported with the lowercased text |
| `Months.ParseMonthByName` | src/lib.rs:86-105 | a non-numeric text is month m exactly when the lowercased text starts m's name and no other month's name |
| `Months.ParseMonthNumber` | src/lib.rs:78-85 | every month number 1..=12 in decimal is accepted as itself |
| `Months.ParseMonthOutOfRange` | src/lib.rs:80-84 | 0 and every u32 above 12 are rejected as out of range with their value |
| `Months.ParseMonthIgnoresCase` | src/lib.rs:87-92 | lowercasing the argument first never changes the result |
| `Months.MatchingMonthsByTable` | src/lib.rs:88-98 | the matches are those read from the lowercased name table |
| `Months.ParseMonthOfName` | src/lib.rs:86-105 | a text starting with neither a digit nor a sign is looked up by name: one match is that month, any other count is invalid |
| `Months.UniqueName` | src/lib.rs:100-104 | a lowercase prefix of exactly one month's name is that month |
| `Months.ParseMonthNumericExamples` | src/lib.rs:251-257 | "1" is 1 and "12" is 12 |
| `Months.ParseMonthJanExample` | src/lib.rs:259-261 | "jan" is January |
| `Months.ParseMonthZeroExample` | src/lib.rs:263-264 | "0" is out of range |
| `Months.ZeroMessage` | src/lib.rs:265-268 | its message |
| `Months.ParseMonthThirteenExample` | src/lib.rs:270-271 | "13" is out of range |
| `Months.ThirteenMessage` | src/lib.rs:272-275 | its message |
| `Months.ParseMonthFooExample` | src/lib.rs:277-278 | "foo" is invalid |
| `Months.FooMessage` | src/lib.rs:279 | its message |
| `Months.AmbiguousJExample` | src/lib.rs:100-102 | "j" starts January, June and July, so it is rejected |
| `Months.AmbiguousMaExample` | src/lib.rs:100-102 | "ma" starts March and May, so it is rejected |
| `Months.CapitalisedNameExample` | src/lib.rs:87-92 | "April" is April: case is ignored |
| `Months.PartialNames` | tests/cli.rs:118-143 | each of ja, f, mar, ap, may, jun, jul, au, s, o, n, d is the month the test expects |
| `Text.PadLeft` | src/lib.rs:150 | `{:>w}`: width max(len, w), the text at the end, spaces before it |
| `Text.PadRight` | src/lib.rs:150 | `{:<w}`: width max(len, w), the text first, spaces after it |
| `Text.Center` | src/lib.rs:152 | `{:^w}`: width max(len, w), the text after half the padding rounded down, spaces around it |
| `Text.ReadInteger` | src/lib.rs:65-78 | the integer `from_str` reads: only from a text starting with a digit or a sign, with '-' only for a signed type, so an unsigned reading is never negative |
| `Text.FromStrI32` | src/lib.rs:65 | a value only in the i32 range |
| `Text.FromStrU32` | src/lib.rs:78 | a value only in the u32 range |
| `Text.FromStrI32OfIntString` | src/lib.rs:65 | reading back a printed i32 gives it again |
| `Text.FromStrU32OfDecimal` | src/lib.rs:78 | reading back a printed u32 gives it again |
| `Text.NotAnInteger` | src/lib.rs:78-86 | a text starting with neither a digit nor a sign is never an integer |
| `Text.ReadNegative` | src/lib.rs:65 | a '-' followed by digits is read as the negated digits |
| `Text.Lower` | src/lib.rs:87 | same length; each character lowercased |
| `Text.LowerIdempotent` | src/lib.rs:87-92 | lowercasing twice is lowercasing once |
| `Text.ReadIntegerIgnoresCase` | src/lib.rs:78-87 | lowercasing never changes what `from_str` reads |
| `Text.PaddingLacks` | src/lib.rs:150-152 | padding adds only spaces |
| `Text.IntStringLength` | src/lib.rs:150 | a year printed with `{}` in chrono's range fits the 13-character field |
| `Dates.IsLeapYear` | src/lib.rs:131-138 | chrono's Gregorian leap years: every multiple of 400 and every multiple of 4 that is not a century; no year that 4 does not divide; no other century |
| `Dates.DayNumber` | src/lib.rs:144-145 | chrono's linear day count: 0001-01-01 is day 0, dates from year 1 on have numbers of at least 0 and dates before it negative ones |
| `Dates.DaysInMonth` | src/lib.rs:131-138 | 28 to 31 days; February has 29 exactly in leap years |
| `Dates.FromYmd` | src/lib.rs:142 | `from_ymd_opt` gives a date exactly when the month and day form a date of the calendar, and then that date; chrono's year bound is not part of it (see Left out) |
| `Dates.NumberFromSunday` | src/lib.rs:144-145 | `number_from_sunday`: 1 to 7, advancing by one per day of the linear day count |
| `Dates.FirstOfNextMonth` | src/lib.rs:132-135 | the 1st of month m + 1, or 1 January of the next year after December |
| `Dates.Pred` | src/lib.rs:137 | `pred_opt` of a valid date is a valid date |
| `Dates.PredIsPreviousDay` | src/lib.rs:137 | `pred_opt` is the day before in the linear day count |
| `Dates.LastDayInMonth` | src/lib.rs:131-138 | the day before the 1st of the next month is a valid date |
| `Dates.LastDayInMonthIsMonthEnd` | src/lib.rs:131-138 | it is day DaysInMonth of the same month, and directly precedes the 1st of the next month |
| `Dates.FebruaryLength` | src/lib.rs:131-138 | the last day of February is the 29th in a leap year and the 28th otherwise |
| `Dates.WeekdayInMonth` | src/lib.rs:144-145 | within a month, day d's weekday is the 1st's weekday advanced by d - 1 modulo 7 |
| `Dates.LastDayExamples` | src/lib.rs:324-337 | January 2024 ends on the 31st, February 2024 on the 29th, April 2024 on the 30th |
| `Dates.WeekdayExamples` | src/lib.rs:284-320 | 2024-02-01 is a Thursday, 2024-05-01 a Wednesday, 2024-04-01 a Monday |
| `Grid.FillGrid` | src/lib.rs:159-175 | after n days the renderer has closed exactly the full week rows before the current one and holds that row's cells so far |
| `Grid.FillFull` | src/lib.rs:170-176 | a month ending on a Saturday leaves exactly the rows of its grid |
| `Grid.FillPartial` | src/lib.rs:176-180 | otherwise closing the open line with 3 × (7 − last weekday) spaces and one more gives the grid's last row |
| `Grid.BlankCells` | src/lib.rs:176-177 | cells before the 1st and after the last day are blank |
| `Grid.RowWidth` | src/lib.rs:165-171 | a week row of two-character day texts is 22 characters and ends with a space |
| `Grid.RowCell` | src/lib.rs:159-171 | column c of week row r is at characters 3c to 3c + 2: the day of cell 7r + c and a space |
| `Grid.RowReplaceAt` | src/lib.rs:161-166 | changing one day's text changes only its two characters in its own row |
| `Grid.RowReplaceOther` | src/lib.rs:161-166 | and leaves every other row unchanged |
| `Grid.LayoutLacks` | src/lib.rs:147-180 | the layout holds a non-space character only if a head line or a day text does |
| `Page.Highlight` | src/lib.rs:162-163 | the reverse-video escapes around the text add 8 characters |
| `Page.DayTexts` | src/lib.rs:160-166 | one text per day of the month |
| `Page.DayTextsAt` | src/lib.rs:161-166 | day d's text is highlighted exactly when d is the marked day |
| `Page.DayText` | src/lib.rs:165 | `{:>2}` of the day: two characters for every day up to 99; `Page.DayTextPadded` states that it is the day's decimal right-aligned in 2 |
| `Page.DayTextPadded` | src/lib.rs:165 | a day text is the day right-aligned in 2 characters |
| `Page.HighlightedDayTexts` | src/lib.rs:161-166 | marking a day changes only that day's text, to its highlighted form |
| `Page.MonthPage` | src/lib.rs:147-186 | a month page has 8 lines |
| `Page.PageShape` | src/lib.rs:147-184 | with no day marked: title, weekday line of 15 characters, then 6 lines of 22 characters ending in a space |
| `Page.PageGrid` | src/lib.rs:158-180 | column c of week row r holds day 7r + c − offset + 1 right-aligned in 2, or 2 spaces when there is no such day, then a space: the days in order |
| `Page.PageBlankTail` | src/lib.rs:182-184 | the lines after the last week row are 22 spaces |
| `Page.WeekRows` | src/lib.rs:159-184 | a month takes 4 to 6 week rows, so 8 lines always suffice |
| `Page.PageDayPosition` | src/lib.rs:159-175 | day d sits in line 2 + r at characters 3c and 3c + 1 |
| `Page.PageLacks` | src/lib.rs:147-186 | no line holds a newline; without a marked day no line holds an escape |
| `Page.PageHighlight` | src/lib.rs:161-166 | marking a day changes only its week row, where its two characters become the highlighted day |
| `Page.PageEscape` | src/lib.rs:161-166 | a line holds the escape exactly when a day is marked and the line is that day's week row |
| `Calendar.MonthLines` | src/lib.rs:140-187 | the page of a month: 8 lines, whose content `Calendar.MonthShape`, `Page.PageGrid` and `Calendar.TodayHighlight` state |
| `Calendar.FormatMonth` | src/lib.rs:140-187 | the method's lines are MonthLines with today's day marked |
| `Calendar.MonthFrame` | src/lib.rs:141-145 | the weekday of the 1st, the number of days, and the weekday of the last day |
| `Calendar.MonthEnds` | src/lib.rs:142-145 | a renderable month's 1st exists, and its last day is DaysInMonth with the weekday the grid needs |
| `Calendar.MonthHeader` | src/lib.rs:148-156 | the header and the weekday line |
| `Calendar.WeekLines` | src/lib.rs:159-175 | the day loop ends in the renderer state after all days |
| `Calendar.DayString` | src/lib.rs:161-166 | the text of one day, highlighted only on today |
| `Calendar.CloseRows` | src/lib.rs:176-180 | closing the last line only when the month does not end on a Saturday gives the full grid |
| `Calendar.PadMonth` | src/lib.rs:182-184 | the lines padded with blank lines up to 8 |
| `Calendar.MonthAssembled` | src/lib.rs:147-186 | the assembled pieces are the month's page |
| `Calendar.Header` | src/lib.rs:149-153 | the header is 9 characters plus the year's field of at least 13 with the year, or 22 without it; the year, when printed, starts at character 9 |
| `Calendar.HeaderWidth` | src/lib.rs:149-153 | both header forms are 22 characters |
| `Calendar.HeaderLacks` | src/lib.rs:149-153 | the header holds neither an escape nor a newline |
| `Calendar.TodayMark` | src/lib.rs:161 | a day is marked only when today is in this month, and then it is today's day |
| `Calendar.TodayMarkOf` | src/lib.rs:161 | the mark is a day of the month exactly when today is in the month |
| `Calendar.MonthShape` | src/lib.rs:147-186 | with no day marked: 8 lines; the header is 22 characters, the weekday line 15, every other line 22 ending in a space |
| `Calendar.TodayHighlight` | src/lib.rs:161-166 | a line holds the escape exactly when today is in the month and the line is today's week row |
| `Calendar.MonthNoNewline` | src/lib.rs:147-186 | no line of a month holds a newline |
| `MonthExamples.LeapFebruary` | src/lib.rs:284-295 | February 2024 with its year, rendered on a date outside 2024: all eight lines of the test's vector |
| `MonthExamples.MayWithoutYear` | src/lib.rs:297-307 | May 2024 without its year, rendered on a date outside 2024: all eight lines of the test's vector |
| `MonthExamples.AprilFirst` | src/lib.rs:309-320 | April 2024 rendered on 2024-04-01: all eight lines of the test's vector, with day 1 in reverse video |
| `Year.Zipped` | src/lib.rs:194-200 | line i joins line i of the three months |
| `Year.MinLength` | src/lib.rs:194-198 | `izip!` stops at the shortest of the three |
| `Year.YearMonths` | src/lib.rs:195-197 | twelve months of 8 lines, rendered without the year |
| `Year.YearMonthAt` | src/lib.rs:195-197 | month m of the year is MonthLines without the year, today marked |
| `Year.Quarters` | src/lib.rs:193-200 | quarter q's line i joins line i of months 3q − 2, 3q − 1 and 3q |
| `Year.Stacked` | src/lib.rs:190-205 | the title, then 9 lines per quarter, with no empty line after the fourth: 36 lines |
| `Year.YearTitle` | src/lib.rs:192 | `{:>32}` of the year: at least 32 characters, the year at the end and spaces before it |
| `Year.YearLines` | src/lib.rs:189-207 | the year view has 36 lines |
| `Year.FormatMonthsOfYear` | src/lib.rs:189-207 | the method's lines are YearLines |
| `Year.PushQuarter` | src/lib.rs:193-200 | one quarter's zipped lines appended |
| `Year.PushZipped` | src/lib.rs:194-200 | the `izip!` loop appends the zipped lines |
| `Year.StackedGrows` | src/lib.rs:193-205 | each quarter only appends to the lines so far |
| `Year.YearLayout` | src/lib.rs:189-207 | line 0 is the year in `{:>32}`; line 9(q − 1) + 1 + i joins line i of the quarter's three months; line 9q is empty for q < 4 |
| `Year.YearNoNewline` | src/lib.rs:189-207 | no line of the year view holds a newline |
| `Year.YearHighlight` | src/lib.rs:192-203 | the title and the empty lines hold no escape; a quarter line holds one exactly when today is in that quarter and the line is today's week row |
| `Year.YearWidths` | src/lib.rs:192-199 | with today in another year, the title is 32 characters and each quarter line 66, the weekday line 45 |
| `Command.Selected` | src/lib.rs:214-234 | the view `run` chooses: the year view exactly with the year flag, or with a year and no month; the year given as argument unless the flag is set or none was given, then today's; the month given as argument, else today's |
| `Command.SelectedDrawable` | src/lib.rs:210-234 | every view the parsed arguments and today's date select can be rendered |
| `Command.Render` | src/lib.rs:214-234 | a month view is 8 lines with the year in the header; a year view is 36 |
| `Command.SelectLines` | src/lib.rs:214-234 | the lines `run` computes are the selected view's rendering |
| `Command.PrintLines` | src/lib.rs:236-238 | the text `println!` writes for the lines |
| `Command.PrintedSnoc` | src/lib.rs:236-238 | printing one more line appends it and a newline |
| `Command.Run` | src/lib.rs:210-241 | the output is the selected view, printed line by line |
| `Command.SplitLine` | tests/cli.rs:160 | splitting on '\n' takes off one line without a newline |
| `Command.SplitPrinted` | tests/cli.rs:190 | printed lines without newlines split back into the lines and one empty piece |
| `Command.FirstLine` | src/lib.rs:150 | the first line of a month with its year is the 22-character header |
| `Command.DefaultOutput` | tests/cli.rs:155-164 | with no arguments the output splits into 9 pieces, the first 22 characters and the last empty |
| `Command.YearOutput` | tests/cli.rs:186-193 | with the year flag the output splits into 37 pieces, the last empty |
| `Command.Utf8Append` | tests/cli.rs:162 | the UTF-8 length of a concatenation is the sum |
| `Command.HeaderBytes` | src/lib.rs:150 | the header with the year is 22 characters but 24 UTF-8 bytes |
| `Command.DefaultHeaderBytes` | tests/cli.rs:162 | the first piece of the default output is 24 bytes for every date |

## Left out

- Argument parsing by clap is not modelled: option names, `conflicts_with_all`, help and version text, and exit codes. `Command.Args` holds what the value parsers return, and `Command.ValidArgs` holds the ranges they guarantee.
- The command-line tests of error output (tests/cli.rs:9-89) are not modelled as they run: clap wraps the parsers' messages. `Months.Message` gives the code's wording, `invalid year "foo"` and `invalid month "foo"`, not the tests' `Invalid integer "foo"` and `Invalid month "foo"`.
- The clock: `chrono::Local::now()` becomes the `today` parameter of `Command.Run`.
- `println!` and standard output: `Command.Printed` is the text written, and I/O errors are not modelled.
- `ansi_term`: the reverse-video style is its two escape sequences written out (`Page.Highlight`). Their emission does not depend on the terminal.
- chrono's internal date representation: only the values it computes are modelled (existence of a date, `pred_opt`, `number_from_sunday`, `day`).
- The expected-output files under tests/expected/ are not part of this model, so the whole-output tests (tests/cli.rs:166-184) are not restated.
- Months.ParseMonth: lowercasing is ASCII only, while Rust's `to_lowercase` is Unicode. Non-ASCII letters never start an English month name, so only the text in the `invalid month` message can differ.
- Months.ParseYear: `from_str` is modelled by its result: an optional sign, then decimal digits, within the type's range. Its error kinds are not modelled.
- Calendar.FormatMonth: requires a month whose 1st and whose following month's 1st chrono can represent (`Calendar.Renderable`). December of the last chrono year makes the source's `unwrap` panic, and that panic is not modelled.
- Year.FormatMonthsOfYear: requires `Renderable(year, 12)` for the same reason.
- Command.Run: requires today's year below chrono's last year, so that the views today selects can be rendered.
- Dates.FromYmd: has no year bound, while chrono's `from_ymd_opt` gives no date outside the years −262144 through 262143. The bound is applied by `Calendar.Renderable` instead, which keeps every date the renderer builds inside chrono's range.
- The exact chrono year range: which version of chrono the crate builds with is not part of this model. Later chrono 0.4 releases narrow the range by one year at each end, so `MinYear` and `MaxYear` follow the earlier releases' `i32::MIN >> 13` and `i32::MAX >> 13`.
- Dates.Pred: for the same reason it has no first date, while chrono's `pred_opt` gives no date before its first day. `Calendar.Renderable` keeps the renderer's calls away from that date.
- Year.YearWidths: states widths only when today is in another year. With the highlight the line is 8 characters longer, which `Page.Highlight` states.

## Findings

| source | as written | input that shows it | evidently intended | confidence | as-written member | corrected member |
|---|---|---|---|---|---|---|
| tests/cli.rs:162 | `lines[0].len() == 22` compares the byte length of the header with 22 | any date: the header, e.g. `"      1月 2024         "`, is 22 characters but 24 UTF-8 bytes, since 月 takes 3 bytes | the first line is 22 characters wide, i.e. `chars().count()` | not executed | `Command.DefaultHeaderBytes` | `Command.DefaultOutput` |
