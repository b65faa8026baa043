/**
  * The pure rules of `PDFOrganizer`: how dates are normalised, which quarter
  * a date belongs to, the month and provider folders, file names on
  * collision, and the operation log line.
  */
module OrganizerRules {
  import opened Wrappers
  import opened Text
  import Dates

  // ---------------------------------------------------------------- dates and quarters

  /**
    * `_normalizar_fecha`: "" stays ""; a date whose first `-` field has four
    * characters is taken as `YYYY-MM-DD` and kept; three `/` fields are read
    * as day, month and year and rewritten year first, month and day padded
    * to two; anything else is kept.
    */
  function NormalizeDate(date: string): string {
    if date == [] then []
    else if '-' in date && |Split(date, '-')[0]| == 4 then date
    else if '/' in date && |Split(date, '/')| == 3 then
      var parts := Split(date, '/');
      parts[2] + "-" + ZFill(parts[1], 2) + "-" + ZFill(parts[0], 2)
    else date
  }

  /** The quarter label of a month number; months past 9, or out of range, fall in 4T. */
  function QuarterName(month: int): string {
    if month <= 3 then "1T" else if month <= 6 then "2T" else if month <= 9 then "3T" else "4T"
  }

  /**
    * `calcular_trimestre_real_para_indices`: the quarter and the year of the
    * normalised date, or `("", "")` when it is empty, does not have three
    * `-` fields, or its month field is not an integer.
    */
  function RealQuarter(date: string): (string, string) {
    var n := NormalizeDate(date);
    if n == [] then ("", "")
    else
      var parts := Split(n, '-');
      if |parts| != 3 then ("", "")
      else match PyInt(parts[1])
        case None => ("", "")
        case Some(m) => (QuarterName(m), parts[0])
  }

  /**
    * `_extraer_mes_de_fecha`: the middle of three `/` fields, else the middle
    * of three `-` fields, padded to two; "00" otherwise.
    */
  function MonthOf(date: string): string {
    if date == [] then "00"
    else if '/' in date && |Split(date, '/')| == 3 then ZFill(Split(date, '/')[1], 2)
    else if '-' in date && |Split(date, '-')| == 3 then ZFill(Split(date, '-')[1], 2)
    else "00"
  }

  // ---------------------------------------------------------------- folder names

  /** The characters a provider folder keeps. */
  predicate FolderChar(c: char) {
    IsAsciiAlnum(c) || c == '_' || c == '-'
  }

  /** `''.join(c for c in s if c in caracteres_permitidos)`. */
  function KeepFolderChars(s: string): (r: string)
    ensures |r| <= |s|
  {
    if s == [] then [] else KeepFolderChars(s[..|s| - 1]) + (if FolderChar(s[|s| - 1]) then [s[|s| - 1]] else [])
  }

  const UnknownProvider: string := "Desconocido"

  /**
    * `_normalizar_nombre_proveedor`: spaces become `_`, other characters
    * outside `[A-Za-z0-9_-]` are dropped; a blank or emptied name gives
    * `Desconocido`.
    */
  function Slug(name: string): string {
    if Strip(name) == [] then UnknownProvider
    else
      var kept := KeepFolderChars(ReplaceChar(name, ' ', '_'));
      if kept == [] then UnknownProvider else kept
  }

  // ---------------------------------------------------------------- paths

  /** `Path(dir) / part` as a string: an empty part adds nothing. */
  function JoinPath(dir: string, part: string): string {
    if part == [] then dir else if dir == [] then part else dir + "/" + part
  }

  /** Where `Path.suffix` starts: the last dot, if it is neither the first nor the last character. */
  predicate HasSuffix(name: string) {
    0 < RFind(name, '.') < |name| - 1
  }

  /** `Path(name).stem`. */
  function PathStem(name: string): string {
    if HasSuffix(name) then name[..RFind(name, '.')] else name
  }

  /** `Path(name).suffix`. */
  function PathSuffix(name: string): string {
    if HasSuffix(name) then name[RFind(name, '.')..] else ""
  }

  /** The `k`-th name `mover_pdf` tries when `name` is taken in `dir`: `stem_k.ext`. */
  function Candidate(dir: string, name: string, k: nat): string {
    JoinPath(dir, PathStem(name) + "_" + NatToString(k) + PathSuffix(name))
  }

  // ---------------------------------------------------------------- the operation log

  /** `registrar_operacion`'s line: `fecha | tipo | archivo | origen → destino[ | detalles]`. */
  function LogLine(now: string, kind: string, name: string, origin: string, dest: string, details: string): string {
    now + " | " + kind + " | " + name + " | " + origin + " → " + dest
    + (if details != [] then " | " + details else "") + "\n"
  }

  // ---------------------------------------------------------------- lemmas

  /** Padding never introduces a character other than '0'. */
  lemma ZFillKeepsOut(s: string, width: nat, c: char)
    requires c != '0' && c !in s
    ensures c !in ZFill(s, width)
  {
    var r := ZFill(s, width);
    if |s| < width {
      var z := Zeros(width - |s|);
      assert c !in z;
      if |s| > 0 && (s[0] == '+' || s[0] == '-') {
        assert r == [s[0]] + z + s[1..];
        assert c !in s[1..];
      } else {
        assert r == z + s;
      }
    }
  }

  /** A normalised day-first date has no `/` left. */
  lemma NormalizedNoSlash(date: string)
    requires date != [] && !('-' in date && |Split(date, '-')[0]| == 4)
    requires '/' in date && |Split(date, '/')| == 3
    ensures '/' !in NormalizeDate(date)
  {
    var parts := Split(date, '/');
    SplitPartsLackSep(date, '/');
    assert '/' !in parts[0] && '/' !in parts[1] && '/' !in parts[2];
    ZFillKeepsOut(parts[1], 2, '/');
    ZFillKeepsOut(parts[0], 2, '/');
  }

  /** Normalising twice changes nothing more: a normalised date is a fixed point. */
  lemma NormalizeDateIdempotent(date: string)
    ensures NormalizeDate(NormalizeDate(date)) == NormalizeDate(date)
  {
    var n := NormalizeDate(date);
    if date != [] && !('-' in date && |Split(date, '-')[0]| == 4) && '/' in date && |Split(date, '/')| == 3 {
      NormalizedNoSlash(date);
      var parts := Split(date, '/');
      assert n == parts[2] + "-" + ZFill(parts[1], 2) + "-" + ZFill(parts[0], 2);
      assert n[|parts[2]|] == '-';
    }
  }

  /** `D/M/YYYY` becomes `YYYY-MM-DD`, month and day padded to two digits. */
  lemma NormalizeDayFirst(d: string, m: string, y: string)
    requires '/' !in d && '/' !in m && '/' !in y
    requires '-' !in d && '-' !in m && '-' !in y
    ensures NormalizeDate(d + "/" + m + "/" + y) == y + "-" + ZFill(m, 2) + "-" + ZFill(d, 2)
  {
    var date := d + "/" + m + "/" + y;
    Dates.SplitThree(d, '/', m, y);
    assert date[|d|] == '/';
    assert '-' !in date by {
      assert forall i :: 0 <= i < |date| ==> date[i] in d || date[i] == '/' || date[i] in m || date[i] in y;
    }
  }

  /** A date whose first `-` field has four characters is already normal. */
  lemma NormalizeIso(date: string)
    requires '-' in date && |Split(date, '-')[0]| == 4
    ensures NormalizeDate(date) == date
  {
  }

  /** Python's `int()` of a run of ASCII digits is its decimal value. */
  lemma PyIntDigits(s: string)
    requires s != [] && AllDigits(s)
    ensures PyInt(s) == Some(DigitsValue(s))
  {
    DigitsStrip(s);
    DigitsAreGroups(s);
    DigitsOfDigits(s);
    assert s[0] != '+' && s[0] != '-';
  }

  lemma DigitsStrip(s: string)
    requires AllDigits(s)
    ensures Strip(s) == s
  {
    assert forall i :: 0 <= i < |s| ==> !IsSpace(s[i]);
    StripNoSpace(s);
  }

  lemma DigitsAreGroups(s: string)
    requires s != [] && AllDigits(s)
    ensures IsDigitGroups(s)
  {
  }

  lemma {:induction false} DigitsOfDigits(s: string)
    requires AllDigits(s)
    ensures DigitsOf(s) == s
  {
    if s != [] {
      DigitsOfDigits(s[1..]);
      assert [s[0]] + s[1..] == s;
    }
  }

  /** Months 1 to 12 fall in quarter `(m + 2) / 3`. */
  lemma QuarterOfMonth(m: int)
    requires 1 <= m <= 12
    ensures QuarterName(m) == [DigitChar((m + 2) / 3)] + "T"
  {
  }

  /** `YYYY-MM-DD` with a numeric month: the quarter of the month, and the year field as it is. */
  lemma RealQuarterIso(y: string, m: string, d: string)
    requires |y| == 4 && '-' !in y && '-' !in m && '-' !in d
    requires m != [] && AllDigits(m)
    ensures RealQuarter(y + "-" + m + "-" + d) == (QuarterName(DigitsValue(m)), y)
  {
    var date := y + "-" + m + "-" + d;
    Dates.SplitThree(y, '-', m, d);
    assert date[|y|] == '-';
    assert NormalizeDate(date) == date by {
      NormalizeIso(date);
    }
    PyIntDigits(m);
  }

  /** `DD/MM/YYYY` with a numeric month: the quarter of the month, and the year field as it is. */
  lemma RealQuarterDayFirst(d: string, m: string, y: string)
    requires '/' !in d && '/' !in m && '/' !in y
    requires '-' !in d && '-' !in m && '-' !in y
    requires m != [] && AllDigits(m)
    ensures RealQuarter(d + "/" + m + "/" + y) == (QuarterName(DigitsValue(m)), y)
  {
    NormalizeDayFirst(d, m, y);
    var zm, zd := ZFill(m, 2), ZFill(d, 2);
    ZFillKeepsOut(m, 2, '-');
    ZFillKeepsOut(d, 2, '-');
    Dates.SplitThree(y, '-', zm, zd);
    ZFillDigits(m, 2);
    PyIntDigits(zm);
  }

  /** Left-padding digits with zeros keeps their value. */
  lemma ZFillDigits(s: string, width: nat)
    requires s != [] && AllDigits(s)
    ensures AllDigits(ZFill(s, width)) && DigitsValue(ZFill(s, width)) == DigitsValue(s)
  {
    if |s| < width {
      var z := Zeros(width - |s|);
      assert ZFill(s, width) == z + s;
      LeadingZeros(z, s);
    }
  }

  lemma {:induction false} LeadingZeros(z: string, s: string)
    requires forall i :: 0 <= i < |z| ==> z[i] == '0'
    requires AllDigits(s)
    ensures AllDigits(z + s) && DigitsValue(z + s) == DigitsValue(s)
    decreases |s|
  {
    if s == [] {
      assert z + s == z;
      AllZeros(z);
    } else {
      LeadingZeros(z, s[..|s| - 1]);
      assert (z + s)[..|z + s| - 1] == z + s[..|s| - 1];
    }
  }

  lemma {:induction false} AllZeros(z: string)
    requires forall i :: 0 <= i < |z| ==> z[i] == '0'
    ensures AllDigits(z) && DigitsValue(z) == 0
  {
    if z != [] {
      AllZeros(z[..|z| - 1]);
    }
  }

  /** The real quarter depends only on the normalised date. */
  lemma RealQuarterNormalized(date: string)
    ensures RealQuarter(NormalizeDate(date)) == RealQuarter(date)
  {
    NormalizeDateIdempotent(date);
  }

  /** The quarter is one of the four labels, or "" with an empty year. */
  lemma RealQuarterLabels(date: string)
    ensures RealQuarter(date).0 in {"", "1T", "2T", "3T", "4T"}
    ensures RealQuarter(date).0 == "" ==> RealQuarter(date).1 == ""
  {
  }

  /** The month folder always has at least two characters; "00" when no month can be read. */
  lemma MonthOfShape(date: string)
    ensures |MonthOf(date)| >= 2
    ensures date == [] ==> MonthOf(date) == "00"
  {
  }

  /** The month folder of `DD/MM/YYYY` and of its normal form `YYYY-MM-DD` agree: the month, padded. */
  lemma MonthOfDayFirst(d: string, m: string, y: string)
    requires '/' !in d && '/' !in m && '/' !in y
    requires '-' !in d && '-' !in m && '-' !in y
    ensures MonthOf(d + "/" + m + "/" + y) == ZFill(m, 2)
    ensures MonthOf(NormalizeDate(d + "/" + m + "/" + y)) == ZFill(m, 2)
  {
    Dates.SplitThree(d, '/', m, y);
    assert (d + "/" + m + "/" + y)[|d|] == '/';
    NormalizeDayFirst(d, m, y);
    var zm, zd := ZFill(m, 2), ZFill(d, 2);
    ZFillKeepsOut(m, 2, '-');
    ZFillKeepsOut(d, 2, '-');
    ZFillKeepsOut(m, 2, '/');
    ZFillKeepsOut(d, 2, '/');
    var n := y + "-" + zm + "-" + zd;
    assert '/' !in n by {
      assert forall i :: 0 <= i < |n| ==> n[i] in y || n[i] == '-' || n[i] in zm || n[i] in zd;
    }
    Dates.SplitThree(y, '-', zm, zd);
    assert n[|y|] == '-';
  }

  lemma {:induction false} KeepFolderCharsAllowed(s: string)
    ensures forall i :: 0 <= i < |KeepFolderChars(s)| ==> FolderChar(KeepFolderChars(s)[i])
  {
    if s != [] {
      KeepFolderCharsAllowed(s[..|s| - 1]);
    }
  }

  lemma {:induction false} KeepFolderCharsAll(s: string)
    requires forall i :: 0 <= i < |s| ==> FolderChar(s[i])
    ensures KeepFolderChars(s) == s
  {
    if s != [] {
      KeepFolderCharsAll(s[..|s| - 1]);
    }
  }

  /** A provider folder is never empty and holds only `[A-Za-z0-9_-]`. */
  lemma SlugShape(name: string)
    ensures Slug(name) != []
    ensures forall i :: 0 <= i < |Slug(name)| ==> FolderChar(Slug(name)[i])
  {
    KeepFolderCharsAllowed(ReplaceChar(name, ' ', '_'));
  }

  /** A name made only of allowed characters is its own folder name. */
  lemma SlugKeeps(name: string)
    requires name != [] && forall i :: 0 <= i < |name| ==> FolderChar(name[i])
    ensures Slug(name) == name
  {
    StripTrimmed(name);
    var r := ReplaceChar(name, ' ', '_');
    assert r == name by {
      assert forall i :: 0 <= i < |name| ==> name[i] != ' ' && r[i] == name[i];
    }
    KeepFolderCharsAll(name);
  }

  /** Normalising a folder name twice changes nothing more. */
  lemma SlugIdempotent(name: string)
    ensures Slug(Slug(name)) == Slug(name)
  {
    SlugShape(name);
    SlugKeeps(Slug(name));
  }

  /** Spaces between allowed characters become underscores. */
  lemma SlugSpaces(a: string, b: string)
    requires a != [] && forall i :: 0 <= i < |a| ==> FolderChar(a[i])
    requires forall i :: 0 <= i < |b| ==> FolderChar(b[i])
    ensures Slug(a + " " + b) == a + "_" + b
  {
    var name := a + " " + b;
    assert !IsSpace(name[0]);
    assert Strip(name) != [] by {
      StripKeepsNonSpace(name);
    }
    var r := ReplaceChar(name, ' ', '_');
    assert r == a + "_" + b by {
      assert forall i :: 0 <= i < |a| ==> name[i] == a[i] && a[i] != ' ';
      assert forall i :: 0 <= i < |b| ==> name[|a| + 1 + i] == b[i] && b[i] != ' ';
    }
    KeepFolderCharsAll(a + "_" + b);
  }

  /** A string that starts with a non-space character does not strip to nothing. */
  lemma StripKeepsNonSpace(s: string)
    requires s != [] && !IsSpace(s[0])
    ensures Strip(s) != []
  {
    assert TrimStart(s) == s;
  }

  /** Stem and suffix put the file name back together. */
  lemma StemSuffix(name: string)
    ensures PathStem(name) + PathSuffix(name) == name
  {
  }

  /** A numbered name is never the plain name: for a name with a suffix, it differs before it. */
  lemma CandidateNamesDiffer(dir: string, name: string, j: nat, k: nat)
    requires Candidate(dir, name, j) == Candidate(dir, name, k)
    ensures j == k
  {
    var stem, suffix := PathStem(name), PathSuffix(name);
    var nj, nk := stem + "_" + NatToString(j) + suffix, stem + "_" + NatToString(k) + suffix;
    assert nj != [] && nk != [];
    if dir != [] {
      assert dir + "/" + nj == dir + "/" + nk;
      assert nj == (dir + "/" + nj)[|dir| + 1..];
      assert nk == (dir + "/" + nk)[|dir| + 1..];
    }
    assert nj == nk;
    assert |NatToString(j)| == |NatToString(k)|;
    var lo := |stem| + 1;
    assert NatToString(j) == nj[lo..lo + |NatToString(j)|];
    assert NatToString(k) == nk[lo..lo + |NatToString(k)|];
    NatToStringInjective(j, k);
  }

  /** A long enough number prints with more than `m` digits. */
  lemma NatToStringLength(k: nat, m: nat)
    requires k >= Pow10(m)
    ensures |NatToString(k)| > m
  {
    NatToStringRoundTrip(k);
    DigitsValueBound(NatToString(k));
    if |NatToString(k)| <= m {
      Pow10Monotone(|NatToString(k)|, m);
    }
  }

  lemma {:induction false} Pow10Monotone(a: nat, b: nat)
    requires a <= b
    ensures Pow10(a) <= Pow10(b)
    decreases b
  {
    if a < b {
      Pow10Monotone(a, b - 1);
    }
  }

  /** The line ends in a newline, and its fields, free of `|`, read back as four or five `|` fields. */
  lemma LogLineFields(now: string, kind: string, name: string, origin: string, dest: string, details: string)
    requires '|' !in now && '|' !in kind && '|' !in name && '|' !in origin && '|' !in dest && '|' !in details
    ensures var line := LogLine(now, kind, name, origin, dest, details);
      line[|line| - 1] == '\n'
      && |Split(line[..|line| - 1], '|')| == if details == [] then 4 else 5
  {
    var tail := if details != [] then " | " + details else "";
    var body := now + " | " + kind + " | " + name + " | " + origin + " → " + dest + tail;
    var line := LogLine(now, kind, name, origin, dest, details);
    assert line[..|line| - 1] == body by {
      assert line == body + "\n";
    }
    assert Occurrences(body, '|') == if details == [] then 3 else 4 by {
      LogLineSeparators(now, kind, name, origin, dest, tail);
      if details != [] {
        OccurrencesAppend(" | ", details, '|');
      }
    }
    SplitCount(body, '|');
  }

  lemma LogLineSeparators(now: string, kind: string, name: string, origin: string, dest: string, tail: string)
    requires '|' !in now && '|' !in kind && '|' !in name && '|' !in origin && '|' !in dest
    ensures Occurrences(now + " | " + kind + " | " + name + " | " + origin + " → " + dest + tail, '|')
      == 3 + Occurrences(tail, '|')
  {
    var a := now + " | " + kind;
    var b := a + " | " + name;
    var c := b + " | " + origin + " → " + dest;
    assert Occurrences(" | ", '|') == 1 && Occurrences(" → ", '|') == 0;
    OccurrencesAppend(now, " | ", '|');
    OccurrencesAppend(now + " | ", kind, '|');
    OccurrencesAppend(a, " | ", '|');
    OccurrencesAppend(a + " | ", name, '|');
    OccurrencesAppend(b, " | ", '|');
    OccurrencesAppend(b + " | ", origin, '|');
    OccurrencesAppend(b + " | " + origin, " → ", '|');
    OccurrencesAppend(b + " | " + origin + " → ", dest, '|');
    OccurrencesAppend(c, tail, '|');
  }
}
