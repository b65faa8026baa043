/**
  * Calendar dates as `datetime.strptime` reads them and `strftime('%d/%m/%Y')`
  * writes them, for the six formats the date cleaners try.
  */
module Dates {
  import opened Wrappers
  import opened Text

  datatype Date = Date(day: nat, month: nat, year: nat)

  predicate IsLeap(y: nat) {
    y % 4 == 0 && (y % 100 != 0 || y % 400 == 0)
  }

  function DaysInMonth(m: nat, y: nat): (n: nat)
    requires 1 <= m <= 12
    ensures 28 <= n <= 31
  {
    if m == 2 then (if IsLeap(y) then 29 else 28)
    else if m == 4 || m == 6 || m == 9 || m == 11 then 30
    else 31
  }

  /** The dates `datetime` accepts: years 1 to 9999, real days of real months. */
  predicate Valid(d: Date) {
    1 <= d.year <= 9999 && 1 <= d.month <= 12 && 1 <= d.day <= DaysInMonth(d.month, d.year)
  }

  // ---------------------------------------------------------------- strptime

  /** `%d` reads `3[01]|[12]\d|0[1-9]|[1-9]| [1-9]`: a day from 1 to 31, maybe space-padded. */
  function DayToken(t: string): (r: Option<nat>)
    ensures r.Some? ==> 1 <= r.value <= 31
  {
    if |t| == 1 && IsDigit(t[0]) && t[0] != '0' then Some(DigitValue(t[0]))
    else if |t| == 2 && t[0] == ' ' && IsDigit(t[1]) && t[1] != '0' then Some(DigitValue(t[1]))
    else if |t| == 2 && AllDigits(t) && 1 <= DigitsValue(t) <= 31 then Some(DigitsValue(t))
    else None
  }

  /** `%m` reads `1[0-2]|0[1-9]|[1-9]`: a month from 1 to 12. */
  function MonthToken(t: string): (r: Option<nat>)
    ensures r.Some? ==> 1 <= r.value <= 12
  {
    if |t| == 1 && IsDigit(t[0]) && t[0] != '0' then Some(DigitValue(t[0]))
    else if |t| == 2 && AllDigits(t) && 1 <= DigitsValue(t) <= 12 then Some(DigitsValue(t))
    else None
  }

  /**
    * `%Y` reads exactly four digits; `%y` reads two, and puts 00-68 in the
    * 2000s and 69-99 in the 1900s.
    */
  function YearToken(t: string, twoDigits: bool): (r: Option<nat>)
    ensures r.Some? && twoDigits ==> 1969 <= r.value <= 2068
    ensures r.Some? && !twoDigits ==> r.value <= 9999
  {
    if twoDigits then
      if |t| == 2 && AllDigits(t) then
        var v := DigitsValue(t);
        DigitsValueBound(t);
        Some(if v <= 68 then 2000 + v else 1900 + v)
      else None
    else if |t| == 4 && AllDigits(t) then Some(FourDigitsBound(t); DigitsValue(t))
    else None
  }

  /**
    * One strptime format of the list: the separator, whether the year comes
    * first (`%Y/%m/%d`) or last (`%d/%m/%Y`), and whether it is `%y`.
    */
  datatype Format = Format(sep: char, yearFirst: bool, twoDigitYear: bool)

  /** The formats in the order the cleaners try them. */
  const Formats: seq<Format> := [
    Format('/', false, false),   // %d/%m/%Y
    Format('-', false, false),   // %d-%m-%Y
    Format('/', true, false),    // %Y/%m/%d
    Format('-', true, false),    // %Y-%m-%d
    Format('/', false, true),    // %d/%m/%y
    Format('-', false, true)     // %d-%m-%y
  ]

  /**
    * `datetime.strptime(t, f)`, `None` where it raises `ValueError`. The three
    * fields are separated by the separator, which no field can contain, so the
    * regex strptime builds matches the whole string exactly when the string
    * splits into three pieces that each read as their field; then the date
    * must exist.
    */
  function Parse(f: Format, t: string): (r: Option<Date>)
    ensures r.Some? ==> Valid(r.value)
  {
    var parts := Split(t, f.sep);
    if |parts| != 3 then None
    else
      var dayText := if f.yearFirst then parts[2] else parts[0];
      var yearText := if f.yearFirst then parts[0] else parts[2];
      match (DayToken(dayText), MonthToken(parts[1]), YearToken(yearText, f.twoDigitYear))
      case (Some(d), Some(m), Some(y)) =>
        if Valid(Date(d, m, y)) then Some(Date(d, m, y)) else None
      case _ => None
  }

  /** The first format of `fs` that parses `t`, and its date. */
  function FirstParse(fs: seq<Format>, t: string): (r: Option<Date>)
    ensures r.Some? ==> Valid(r.value)
  {
    if fs == [] then None
    else match Parse(fs[0], t)
      case Some(d) => Some(d)
      case None => FirstParse(fs[1..], t)
  }

  // ---------------------------------------------------------------- strftime

  function Pad2(n: nat): (r: string)
    requires n < 100
    ensures |r| == 2 && AllDigits(r) && DigitsValue(r) == n
  {
    var r := [DigitChar(n / 10), DigitChar(n % 10)];
    assert r[..1] == [DigitChar(n / 10)] && r[..1][..0] == [];
    assert DigitsValue(r[..1]) == n / 10;
    assert DigitsValue(r) == DigitsValue(r[..1]) * 10 + n % 10;
    r
  }

  function Pad4(n: nat): (r: string)
    requires n < 10000
    ensures |r| == 4 && AllDigits(r) && DigitsValue(r) == n
  {
    var r := Pad2(n / 100) + Pad2(n % 100);
    assert r[..3][..2] == Pad2(n / 100);
    assert r[..3] == Pad2(n / 100) + [r[2]];
    assert r[..2] == Pad2(n / 100);
    r
  }

  /** `strftime('%d/%m/%Y')`: zero-padded day and month, four-digit year. */
  function FormatDate(d: Date): (r: string)
    requires Valid(d)
    ensures |r| == 10 && r[2] == '/' && r[5] == '/'
  {
    Pad2(d.day) + "/" + Pad2(d.month) + "/" + Pad4(d.year)
  }

  // ---------------------------------------------------------------- lemmas

  lemma FourDigitsBound(t: string)
    requires |t| == 4 && AllDigits(t)
    ensures DigitsValue(t) <= 9999
  {
    DigitsValueBound(t);
  }

  /** Reading back a written date with `%d/%m/%Y` gives the same date. */
  lemma FormatParseRoundTrip(d: Date)
    requires Valid(d)
    ensures Parse(Formats[0], FormatDate(d)) == Some(d)
  {
    var dd, mm, yyyy := Pad2(d.day), Pad2(d.month), Pad4(d.year);
    assert FormatDate(d) == dd + ['/'] + (mm + ['/'] + yyyy);
    SplitAfterSep(dd, '/', mm + ['/'] + yyyy);
    SplitAfterSep(mm, '/', yyyy);
    SplitNoSep(yyyy, '/');
    assert Split(FormatDate(d), '/') == [dd, mm, yyyy];
    assert DayToken(dd) == Some(d.day);
    assert MonthToken(mm) == Some(d.month);
  }

  /** Writing a date is injective on valid dates. */
  lemma FormatDateInjective(d1: Date, d2: Date)
    requires Valid(d1) && Valid(d2) && FormatDate(d1) == FormatDate(d2)
    ensures d1 == d2
  {
    FormatParseRoundTrip(d1);
    FormatParseRoundTrip(d2);
  }

  /** The formats before position `k` all fail on `t`. */
  predicate FailBefore(fs: seq<Format>, k: nat, t: string)
    requires k <= |fs|
  {
    forall j :: 0 <= j < k ==> Parse(fs[j], t).None?
  }

  /**
    * The first success wins: `FirstParse` gives `d` exactly when some format
    * reads `d` and every format before it fails.
    */
  lemma FirstParseIsFirstSuccess(fs: seq<Format>, t: string, d: Date)
    ensures FirstParse(fs, t) == Some(d) <==>
            exists k :: 0 <= k < |fs| && Parse(fs[k], t) == Some(d) && FailBefore(fs, k, t)
  {
    if FirstParse(fs, t) == Some(d) {
      var k := FirstParseWitness(fs, t, d);
    }
    if exists k :: 0 <= k < |fs| && Parse(fs[k], t) == Some(d) && FailBefore(fs, k, t) {
      var k :| 0 <= k < |fs| && Parse(fs[k], t) == Some(d) && FailBefore(fs, k, t);
      FirstSuccessParses(fs, t, d, k);
    }
  }

  lemma {:induction false} FirstParseWitness(fs: seq<Format>, t: string, d: Date) returns (k: nat)
    requires FirstParse(fs, t) == Some(d)
    ensures k < |fs| && Parse(fs[k], t) == Some(d) && FailBefore(fs, k, t)
  {
    if Parse(fs[0], t).Some? {
      k := 0;
    } else {
      var k' := FirstParseWitness(fs[1..], t, d);
      k := k' + 1;
      forall j | 0 <= j < k ensures Parse(fs[j], t).None? {
        if j > 0 { assert fs[j] == fs[1..][j - 1]; }
      }
    }
  }

  lemma {:induction false} FirstSuccessParses(fs: seq<Format>, t: string, d: Date, k: nat)
    requires k < |fs| && Parse(fs[k], t) == Some(d) && FailBefore(fs, k, t)
    ensures FirstParse(fs, t) == Some(d)
  {
    if k > 0 {
      assert Parse(fs[0], t).None?;
      forall j | 0 <= j < k - 1 ensures Parse(fs[1..][j], t).None? {
        assert fs[1..][j] == fs[j + 1];
      }
      FirstSuccessParses(fs[1..], t, d, k - 1);
    }
  }

  /** Three separator-free fields joined by the separator split back into those fields. */
  lemma SplitThree(a: string, sep: char, b: string, c: string)
    requires sep !in a && sep !in b && sep !in c
    ensures Split(a + [sep] + b + [sep] + c, sep) == [a, b, c]
  {
    assert a + [sep] + b + [sep] + c == a + [sep] + (b + [sep] + c);
    SplitAfterSep(a, sep, b + [sep] + c);
    SplitAfterSep(b, sep, c);
    SplitNoSep(c, sep);
  }

  lemma PaddedTokens(d: Date)
    requires Valid(d)
    ensures DayToken(Pad2(d.day)) == Some(d.day)
    ensures MonthToken(Pad2(d.month)) == Some(d.month)
    ensures YearToken(Pad4(d.year), false) == Some(d.year)
    ensures DayToken(Pad4(d.year)).None? && MonthToken(Pad4(d.year)).None?
    ensures YearToken(Pad2(d.day), false).None?
  {
  }

  /** `YYYY-MM-DD` text is read by `%Y-%m-%d`, the fourth format, after the first three fail. */
  lemma FirstParseIso(d: Date)
    requires Valid(d)
    ensures FirstParse(Formats, Pad4(d.year) + ['-'] + Pad2(d.month) + ['-'] + Pad2(d.day)) == Some(d)
  {
    var y, m, dd := Pad4(d.year), Pad2(d.month), Pad2(d.day);
    var t := y + ['-'] + m + ['-'] + dd;
    PaddedTokens(d);
    SplitThree(y, '-', m, dd);
    assert '/' !in t by { assert forall i :: 0 <= i < |t| ==> t[i] != '/'; }
    SplitNoSep(t, '/');
    assert Parse(Formats[0], t).None? && Parse(Formats[1], t).None? && Parse(Formats[2], t).None?;
    assert Parse(Formats[3], t) == Some(d);
    FirstSuccessParses(Formats, t, d, 3);
  }

  /** The `%y` reading of the last two digits of a year between 1969 and 2068 gives the year back. */
  lemma ShortYearToken(year: nat)
    requires 1969 <= year <= 2068
    ensures YearToken(Pad2(year % 100), true) == Some(year)
  {
  }

  /** `DD/MM/YY` text is read by `%d/%m/%y`, the fifth format, after the first four fail. */
  lemma FirstParseShortYear(d: Date)
    requires Valid(d) && 1969 <= d.year <= 2068
    ensures FirstParse(Formats, Pad2(d.day) + ['/'] + Pad2(d.month) + ['/'] + Pad2(d.year % 100)) == Some(d)
  {
    var dd, m, yy := Pad2(d.day), Pad2(d.month), Pad2(d.year % 100);
    var t := dd + ['/'] + m + ['/'] + yy;
    PaddedTokens(d);
    ShortYearToken(d.year);
    SplitThree(dd, '/', m, yy);
    assert '-' !in t by { assert forall i :: 0 <= i < |t| ==> t[i] != '-'; }
    SplitNoSep(t, '-');
    assert Parse(Formats[0], t).None? && Parse(Formats[1], t).None?;
    assert Parse(Formats[2], t).None? && Parse(Formats[3], t).None?;
    assert Parse(Formats[4], t) == Some(d);
    FirstSuccessParses(Formats, t, d, 4);
  }
  lemma {:induction false} FirstParseAllFail(fs: seq<Format>, t: string)
    requires forall k :: 0 <= k < |fs| ==> Parse(fs[k], t).None?
    ensures FirstParse(fs, t).None?
  {
    if fs != [] {
      assert forall k :: 0 <= k < |fs[1..]| ==> fs[1..][k] == fs[k + 1];
      FirstParseAllFail(fs[1..], t);
    }
  }

  /** A written date reads back with the first format. */
  lemma FirstParseFormatted(d: Date)
    requires Valid(d)
    ensures FirstParse(Formats, FormatDate(d)) == Some(d)
  {
    FormatParseRoundTrip(d);
    FirstSuccessParses(Formats, FormatDate(d), d, 0);
  }

  /**
    * A written date with a non-digit label in front and no separators around
    * it does not parse as a whole with any format.
    */
  lemma FirstParseAfterPrefix(x: string, d: Date, y: string)
    requires Valid(d) && x != [] && !IsDigit(x[0])
    requires '/' !in x && '-' !in x && '/' !in y && '-' !in y
    ensures FirstParse(Formats, x + FormatDate(d) + y).None?
  {
    var dd, mm, yyyy := Pad2(d.day), Pad2(d.month), Pad4(d.year);
    var t := x + FormatDate(d) + y;
    assert t == (x + dd) + ['/'] + mm + ['/'] + (yyyy + y);
    assert '/' !in dd && '/' !in mm && '/' !in yyyy;
    assert '/' !in x + dd && '/' !in yyyy + y;
    SplitThree(x + dd, '/', mm, yyyy + y);
    assert '-' !in FormatDate(d);
    assert '-' !in t;
    assert !AllDigits(x + dd) by { assert (x + dd)[0] == x[0]; }
    forall k | 0 <= k < |Formats| ensures Parse(Formats[k], t).None? {
      if Formats[k].sep == '/' {
        ParseLongFirstField(Formats[k], t, x + dd, mm, yyyy + y);
      } else {
        ParseWithoutSep(Formats[k], t);
      }
    }
    FirstParseAllFail(Formats, t);
  }

  /** A first field too long for a day and not all digits fails every format of its separator. */
  lemma ParseLongFirstField(f: Format, t: string, a: string, b: string, c: string)
    requires Split(t, f.sep) == [a, b, c] && |a| >= 3 && !AllDigits(a)
    ensures Parse(f, t).None?
  {
  }

  /** Text without the separator is a single field and fails the format. */
  lemma ParseWithoutSep(f: Format, t: string)
    requires f.sep !in t
    ensures Parse(f, t).None?
  {
    SplitNoSep(t, f.sep);
  }
}
