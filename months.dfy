/**
 * The month-name table and the validators of the command-line values:
 * a year must be an integer from 1 through 9999; a month is a number from
 * 1 through 12 or a case-insensitive prefix of exactly one English month name.
 */
module Months {

  import opened Wrappers
  import opened Text

  /** One entry of the month table: the English name and the Japanese label. */
  datatype MonthName = MonthName(en: string, ja: string)

  const MonthNames: seq<MonthName> := [
    MonthName("January", "1月"),
    MonthName("February", "2月"),
    MonthName("March", "3月"),
    MonthName("April", "4月"),
    MonthName("May", "5月"),
    MonthName("June", "6月"),
    MonthName("July", "7月"),
    MonthName("August", "8月"),
    MonthName("September", "9月"),
    MonthName("October", "10月"),
    MonthName("November", "11月"),
    MonthName("December", "12月")
  ]

  /** The Japanese label of month m is its number followed by 月, so it is at most 3 characters. */
  lemma JapaneseLabels(m: int)
    requires 1 <= m <= 12
    ensures |MonthNames| == 12
    ensures MonthNames[m - 1].ja == DecimalString(m) + "月"
    ensures 2 <= |MonthNames[m - 1].ja| <= 3
  {
  }

  /** The validation failures, each with the value or the text that was rejected. */
  datatype ParseError =
    | InvalidYear(text: string)
    | YearOutOfRange(value: int)
    | InvalidMonth(text: string)
    | MonthOutOfRange(value: int)

  /** The error message shown to the user: it names what was rejected and quotes the text or the value. */
  function Message(e: ParseError): (msg: string)
    ensures e.InvalidYear? ==> "invalid year \"" + e.text + "\"" <= msg
    ensures e.InvalidMonth? ==> "invalid month \"" + e.text + "\"" <= msg
    ensures e.YearOutOfRange? ==> "year \"" + IntString(e.value) + "\"" <= msg
    ensures e.MonthOutOfRange? ==> "month \"" + IntString(e.value) + "\"" <= msg
  {
    match e
    case InvalidYear(t) => "invalid year \"" + t + "\""
    case YearOutOfRange(v) => "year \"" + IntString(v) + "\" not in the range 1 through 9999"
    case InvalidMonth(t) => "invalid month \"" + t + "\""
    case MonthOutOfRange(v) => "month \"" + IntString(v) + "\" not in the range 1 through 12"
  }

  /** The year argument: an i32 from 1 through 9999. */
  function ParseYear(s: string): (r: Result<int, ParseError>)
    ensures r.Ok? <==> FromStrI32(s).Some? && 1 <= FromStrI32(s).value <= 9999
    ensures r.Ok? ==> r.value == FromStrI32(s).value
    ensures r.Err? && FromStrI32(s).Some? ==> r.error == YearOutOfRange(FromStrI32(s).value)
    ensures FromStrI32(s).None? ==> r == Err(InvalidYear(s))
  {
    match FromStrI32(s)
    case Some(v) => if 1 <= v <= 9999 then Ok(v) else Err(YearOutOfRange(v))
    case None => Err(InvalidYear(s))
  }

  /** The lowercased English name of month m starts with `prefix`. */
  predicate NameStartsWith(m: int, prefix: string) {
    1 <= m <= 12 && prefix <= Lower(MonthNames[m - 1].en)
  }

  /**
   * The numbers of the months, from `from` + 1 to 12 in ascending order,
   * whose lowercased English name starts with `prefix`.
   */
  function MatchingMonths(prefix: string, from: nat): (r: seq<int>)
    requires from <= 12
    ensures forall i :: 0 <= i < |r| ==> from < r[i] <= 12
    ensures forall i, j :: 0 <= i < j < |r| ==> r[i] < r[j]
    ensures forall m :: m in r <==> from < m && NameStartsWith(m, prefix)
    decreases 12 - from
  {
    if from == 12 then []
    else
      var rest := MatchingMonths(prefix, from + 1);
      if NameStartsWith(from + 1, prefix) then [from + 1] + rest else rest
  }

  /**
   * The month argument: a u32 from 1 through 12, or else a text that,
   * lowercased, is a prefix of exactly one lowercased English month name.
   */
  function ParseMonth(s: string): (r: Result<int, ParseError>)
    ensures r.Ok? ==> 1 <= r.value <= 12
    ensures FromStrU32(s).Some? ==>
      r == if 1 <= FromStrU32(s).value <= 12 then Ok(FromStrU32(s).value)
           else Err(MonthOutOfRange(FromStrU32(s).value))
    ensures FromStrU32(s).None? ==>
      (r.Ok? <==> |MatchingMonths(Lower(s), 0)| == 1)
      && (r.Ok? ==> MatchingMonths(Lower(s), 0) == [r.value])
      && (r.Err? ==> r.error == InvalidMonth(Lower(s)))
  {
    match FromStrU32(s)
    case Some(v) => if 1 <= v <= 12 then Ok(v) else Err(MonthOutOfRange(v))
    case None =>
      var month := Lower(s);
      var targets := MatchingMonths(month, 0);
      if |targets| != 1 then Err(InvalidMonth(month)) else Ok(targets[0])
  }

  /**
   * A month name is accepted exactly when it is a prefix of the month's
   * name and of no other month's name, ignoring case.
   */
  lemma {:induction false} ParseMonthByName(s: string, m: int)
    requires FromStrU32(s).None? && 1 <= m <= 12
    ensures ParseMonth(s) == Ok(m) <==>
      NameStartsWith(m, Lower(s)) && forall k :: k != m ==> !NameStartsWith(k, Lower(s))
  {
    var r := MatchingMonths(Lower(s), 0);
    if NameStartsWith(m, Lower(s)) && forall k :: k != m ==> !NameStartsWith(k, Lower(s)) {
      assert m in r;
      if |r| != 1 {
        var other := if r[0] == m then r[1] else r[0];
        assert other in r && other != m;
      }
    }
  }

  /** Every number from 1 through 12 is accepted as itself. */
  lemma ParseMonthNumber(m: int)
    requires 1 <= m <= 12
    ensures ParseMonth(DecimalString(m)) == Ok(m)
  {
    FromStrU32OfDecimal(m);
  }

  /** Every year from 1 through 9999 is accepted in its decimal form. */
  lemma ParseYearNumber(y: int)
    requires 1 <= y <= 9999
    ensures ParseYear(IntString(y)) == Ok(y)
  {
    FromStrI32OfIntString(y);
  }

  /** Month parsing does not depend on letter case. */
  lemma {:induction false} ParseMonthIgnoresCase(s: string)
    ensures ParseMonth(Lower(s)) == ParseMonth(s)
  {
    ReadIntegerIgnoresCase(s, false);
    LowerIdempotent(s);
  }

  /** The table's English names, lowercased. */
  const LowerNames: seq<string> := [
    "january", "february", "march", "april", "may", "june",
    "july", "august", "september", "october", "november", "december"
  ]

  lemma LowerNamesTable()
    ensures |LowerNames| == 12
    ensures forall i | 0 <= i < 12 :: Lower(MonthNames[i].en) == LowerNames[i]
  {
    LowerNamesFirst();
    LowerNamesSecond();
    LowerNamesThird();
  }

  lemma LowerNamesFirst()
    ensures forall i | 0 <= i < 4 :: Lower(MonthNames[i].en) == LowerNames[i]
  {
    assert Lower(MonthNames[0].en) == LowerNames[0];
    assert Lower(MonthNames[1].en) == LowerNames[1];
    assert Lower(MonthNames[2].en) == LowerNames[2];
    assert Lower(MonthNames[3].en) == LowerNames[3];
  }

  lemma LowerNamesSecond()
    ensures forall i | 4 <= i < 8 :: Lower(MonthNames[i].en) == LowerNames[i]
  {
    assert Lower(MonthNames[4].en) == LowerNames[4];
    assert Lower(MonthNames[5].en) == LowerNames[5];
    assert Lower(MonthNames[6].en) == LowerNames[6];
    assert Lower(MonthNames[7].en) == LowerNames[7];
  }

  lemma LowerNamesThird()
    ensures forall i | 8 <= i < 12 :: Lower(MonthNames[i].en) == LowerNames[i]
  {
    assert Lower(MonthNames[8].en) == LowerNames[8];
    assert Lower(MonthNames[9].en) == LowerNames[9];
    assert Lower(MonthNames[10].en) == LowerNames[10];
    assert Lower(MonthNames[11].en) == LowerNames[11];
  }

  /** The first and second letters of the lowercased names, in table order. */
  const Initials: string := "jfmamjjasond"
  const SecondLetters: string := "aeapauuuecoe"
  const ThirdLetters: string := "nbrrynlgptvc"

  lemma Spelling()
    ensures |LowerNames| == 12
    ensures forall k | 0 <= k < 12 ::
      |LowerNames[k]| >= 3 && LowerNames[k][0] == Initials[k] && LowerNames[k][1] == SecondLetters[k]
      && LowerNames[k][2] == ThirdLetters[k]
  {
  }

  /** The months after `from` whose name starts with the prefix, read from the lowercased table. */
  function TableMatches(prefix: string, from: nat): seq<int>
    requires from <= 12
    decreases 12 - from
  {
    if from == 12 then []
    else if prefix <= LowerNames[from] then [from + 1] + TableMatches(prefix, from + 1)
    else TableMatches(prefix, from + 1)
  }

  lemma {:induction false} MatchingMonthsByTable(prefix: string, from: nat)
    requires from <= 12
    ensures MatchingMonths(prefix, from) == TableMatches(prefix, from)
    decreases 12 - from
  {
    if from < 12 {
      LowerNamesTable();
      MatchingMonthsByTable(prefix, from + 1);
    }
  }

  /** The table lookup from month `from` on, for a prefix of month m's name only. */
  lemma {:induction false} UniqueTableMatchFrom(prefix: string, m: int, from: nat)
    requires 1 <= m <= 12 && from <= 12 && prefix <= LowerNames[m - 1]
    requires forall k :: 0 <= k < 12 && k != m - 1 ==> !(prefix <= LowerNames[k])
    ensures TableMatches(prefix, from) == if from < m then [m] else []
    decreases 12 - from
  {
    if from < 12 {
      UniqueTableMatchFrom(prefix, m, from + 1);
    }
  }

  /** A lowercase name that is a prefix of month m's name and of no other is month m. */
  lemma UniqueName(s: string, m: int)
    requires 1 <= m <= 12 && |s| >= 1 && 'a' <= s[0] <= 'z' && Lower(s) == s
    requires s <= LowerNames[m - 1]
    requires forall k :: 0 <= k < 12 && k != m - 1 ==> !(s <= LowerNames[k])
    ensures ParseMonth(s) == Ok(m)
  {
    UniqueTableMatchFrom(s, m, 0);
    ParseMonthOfName(s, [m]);
  }

  /** A text that starts with neither a digit nor a sign is looked up by name. */
  lemma ParseMonthOfName(s: string, matches: seq<int>)
    requires |s| >= 1 && !IsDigit(s[0]) && s[0] != '+' && s[0] != '-'
    requires TableMatches(Lower(s), 0) == matches
    ensures ParseMonth(s) == if |matches| == 1 then Ok(matches[0]) else Err(InvalidMonth(Lower(s)))
  {
    NotAnInteger(s, false);
    MatchingMonthsByTable(Lower(s), 0);
  }

  /** Numbers outside 1 through 12 are rejected as out of range. */
  lemma ParseMonthOutOfRange(n: nat)
    requires (n == 0 || 12 < n) && n <= U32Max
    ensures ParseMonth(DecimalString(n)) == Err(MonthOutOfRange(n))
  {
    FromStrU32OfDecimal(n);
  }

  /** The unit tests: "1" and "12" are accepted. */
  lemma ParseMonthNumericExamples()
    ensures ParseMonth("1") == Ok(1) && ParseMonth("12") == Ok(12)
  {
    assert DecimalString(1) == "1";
    ParseMonthNumber(1);
    assert DecimalString(12) == "12";
    ParseMonthNumber(12);
  }

  /** The unit test: "0" is rejected with its message. */
  lemma ParseMonthZeroExample()
    ensures ParseMonth("0") == Err(MonthOutOfRange(0))
  {
    assert DecimalString(0) == "0";
    ParseMonthOutOfRange(0);
  }

  lemma ZeroMessage()
    ensures Message(MonthOutOfRange(0)) == "month \"" + "0" + "\" not in the range 1 through 12"
  {
    assert IntString(0) == "0";
  }

  /** The unit test: "13" is rejected with its message. */
  lemma ParseMonthThirteenExample()
    ensures ParseMonth("13") == Err(MonthOutOfRange(13))
  {
    DecimalThirteen();
    ParseMonthOutOfRange(13);
  }

  lemma DecimalThirteen()
    ensures DecimalString(13) == "13"
  {
  }

  /** The unit test's message for "13". */
  lemma ThirteenMessage()
    ensures Message(MonthOutOfRange(13)) == "month \"" + "13" + "\" not in the range 1 through 12"
  {
    DecimalThirteen();
  }

  /** The unit test's message for "foo". */
  lemma FooMessage()
    ensures Message(InvalidMonth("foo")) == "invalid month \"" + "foo" + "\""
  {
  }

  /** The years of the command-line tests: "0" and "10000" are out of range, "foo" is no number. */
  lemma ParseYearExamples()
    ensures ParseYear("0") == Err(YearOutOfRange(0))
    ensures ParseYear("10000") == Err(YearOutOfRange(10000))
    ensures ParseYear("foo") == Err(InvalidYear("foo"))
  {
    ReadDigits("0", true);
    ReadDigits("10000", true);
    assert DigitsValue("10000") == 10000 by {
      assert "10000"[..4] == "1000" && "1000"[..3] == "100" && "100"[..2] == "10" && "10"[..1] == "1";
    }
    NotAnInteger("foo", true);
  }

  /** The messages for those years. */
  lemma YearMessages()
    ensures Message(YearOutOfRange(0)) == "year \"" + "0" + "\" not in the range 1 through 9999"
    ensures Message(YearOutOfRange(10000)) == "year \"" + "10000" + "\" not in the range 1 through 9999"
    ensures Message(InvalidYear("foo")) == "invalid year \"" + "foo" + "\""
  {
    assert IntString(0) == "0";
    DecimalTenThousand();
  }

  lemma DecimalTenThousand()
    ensures IntString(10000) == "10000"
  {
    assert DecimalString(1) == "1";
    assert DecimalString(10) == DecimalString(1) + "0";
    assert DecimalString(100) == DecimalString(10) + "0";
    assert DecimalString(1000) == DecimalString(100) + "0";
    assert DecimalString(10000) == DecimalString(1000) + "0";
  }

  lemma LowerExample(s: string)
    requires s == "jan" || s == "foo" || s == "j" || s == "ma" || s == "April"
    ensures Lower(s) == if s == "April" then "april" else s
  {
  }

  lemma ParseMonthJanTable()
    ensures TableMatches("jan", 0) == [1]
  {
    Spelling();
    assert "jan"[0] == 'j' && "jan"[1] == 'a';
    assert TableMatches("jan", 1) == [];
    assert "jan" <= LowerNames[0];
  }

  /** The unit test: "jan" is January. */
  lemma ParseMonthJanExample()
    ensures ParseMonth("jan") == Ok(1)
  {
    ParseMonthJanTable();
    LowerExample("jan");
    ParseMonthOfName("jan", [1]);
  }

  lemma ParseMonthFooTable()
    ensures TableMatches("foo", 0) == []
  {
    Spelling();
    assert "foo"[0] == 'f' && "foo"[1] == 'o';
    assert TableMatches("foo", 2) == [];
    assert TableMatches("foo", 1) == [];
  }

  /** The unit test: "foo" is rejected. */
  lemma ParseMonthFooExample()
    ensures ParseMonth("foo") == Err(InvalidMonth("foo"))
  {
    ParseMonthFooTable();
    LowerExample("foo");
    ParseMonthOfName("foo", []);
  }

  lemma AmbiguousJTable()
    ensures TableMatches("j", 0) == [1, 6, 7]
  {
    Spelling();
    assert "j"[0] == 'j';
    assert TableMatches("j", 7) == [];
    assert TableMatches("j", 6) == [7];
    assert TableMatches("j", 5) == [6, 7];
    assert TableMatches("j", 1) == [6, 7];
  }

  /** "j" fits January, June and July: it is rejected. */
  lemma AmbiguousJExample()
    ensures ParseMonth("j") == Err(InvalidMonth("j"))
  {
    AmbiguousJTable();
    LowerExample("j");
    ParseMonthOfName("j", [1, 6, 7]);
  }

  lemma AmbiguousMaTable()
    ensures TableMatches("ma", 0) == [3, 5]
  {
    Spelling();
    assert "ma"[0] == 'm' && "ma"[1] == 'a';
    assert TableMatches("ma", 5) == [];
    assert TableMatches("ma", 4) == [5];
    assert TableMatches("ma", 3) == [5];
    assert TableMatches("ma", 2) == [3, 5];
  }

  /** "ma" fits March and May: it is rejected. */
  lemma AmbiguousMaExample()
    ensures ParseMonth("ma") == Err(InvalidMonth("ma"))
  {
    AmbiguousMaTable();
    LowerExample("ma");
    ParseMonthOfName("ma", [3, 5]);
  }

  lemma CapitalisedNameTable()
    ensures TableMatches("april", 0) == [4]
  {
    Spelling();
    assert "april"[0] == 'a' && "april"[1] == 'p';
    assert LowerNames[3] == "april";
    assert TableMatches("april", 8) == [];
    assert TableMatches("april", 4) == [];
    assert TableMatches("april", 3) == [4];
  }

  /** A capitalised full name: "April" is April. */
  lemma CapitalisedNameExample()
    ensures ParseMonth("April") == Ok(4)
  {
    CapitalisedNameTable();
    LowerExample("April");
    ParseMonthOfName("April", [4]);
  }

  /** s differs from month k + 1's lowercased name in one of its first three letters. */
  predicate Differs(s: string, k: int)
    requires 0 <= k < 12
  {
    (|s| >= 1 && s[0] != Initials[k]) || (|s| >= 2 && s[1] != SecondLetters[k]) || (|s| >= 3 && s[2] != ThirdLetters[k])
  }

  lemma NotPrefix(s: string, k: int)
    requires 0 <= k < 12 && Differs(s, k)
    ensures !(s <= LowerNames[k])
  {
    Spelling();
  }

  /** A lowercase name that starts month m's name and differs early from every other. */
  lemma PrefixOfOne(s: string, m: int)
    requires 1 <= m <= 12 && |s| >= 1 && 'a' <= s[0] <= 'z' && Lower(s) == s && s <= LowerNames[m - 1]
    requires forall k :: 0 <= k < 12 && k != m - 1 ==> Differs(s, k)
    ensures ParseMonth(s) == Ok(m)
  {
    forall k | 0 <= k < 12 && k != m - 1
      ensures !(s <= LowerNames[k])
    {
      NotPrefix(s, k);
    }
    UniqueName(s, m);
  }

  /** The partial names of the command-line test, each the start of exactly one month's name. */
  lemma PartialNames()
    ensures ParseMonth("ja") == Ok(1) && ParseMonth("f") == Ok(2) && ParseMonth("mar") == Ok(3)
    ensures ParseMonth("ap") == Ok(4) && ParseMonth("may") == Ok(5) && ParseMonth("jun") == Ok(6)
    ensures ParseMonth("jul") == Ok(7) && ParseMonth("au") == Ok(8) && ParseMonth("s") == Ok(9)
    ensures ParseMonth("o") == Ok(10) && ParseMonth("n") == Ok(11) && ParseMonth("d") == Ok(12)
  {
    PartialJanuary();
    PartialFebruary();
    PartialMarch();
    PartialApril();
    PartialMay();
    PartialJune();
    PartialJuly();
    PartialAugust();
    PartialSeptember();
    PartialOctober();
    PartialNovember();
    PartialDecember();
  }

  lemma PartialJanuary()
    ensures ParseMonth("ja") == Ok(1)
  {
    PrefixOfOne("ja", 1);
  }

  lemma PartialFebruary()
    ensures ParseMonth("f") == Ok(2)
  {
    PrefixOfOne("f", 2);
  }

  lemma PartialMarch()
    ensures ParseMonth("mar") == Ok(3)
  {
    PrefixOfOne("mar", 3);
  }

  lemma PartialApril()
    ensures ParseMonth("ap") == Ok(4)
  {
    PrefixOfOne("ap", 4);
  }

  lemma PartialMay()
    ensures ParseMonth("may") == Ok(5)
  {
    PrefixOfOne("may", 5);
  }

  lemma PartialJune()
    ensures ParseMonth("jun") == Ok(6)
  {
    PrefixOfOne("jun", 6);
  }

  lemma PartialJuly()
    ensures ParseMonth("jul") == Ok(7)
  {
    PrefixOfOne("jul", 7);
  }

  lemma PartialAugust()
    ensures ParseMonth("au") == Ok(8)
  {
    PrefixOfOne("au", 8);
  }

  lemma PartialSeptember()
    ensures ParseMonth("s") == Ok(9)
  {
    PrefixOfOne("s", 9);
  }

  lemma PartialOctober()
    ensures ParseMonth("o") == Ok(10)
  {
    PrefixOfOne("o", 10);
  }

  lemma PartialNovember()
    ensures ParseMonth("n") == Ok(11)
  {
    PrefixOfOne("n", 11);
  }

  lemma PartialDecember()
    ensures ParseMonth("d") == Ok(12)
  {
    PrefixOfOne("d", 12);
  }
}
