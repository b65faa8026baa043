/**
  * `DataCleaner` (src/utils/data_cleaners.py): the three field normalisers,
  * `clean_text`, `clean_date` and `clean_numeric`.
  */
module DataCleaners {
  import opened Wrappers
  import opened Text
  import opened Dates
  import Pattern

  // ---------------------------------------------------------------- clean_text

  /** `[\x00-\x08\x0b-\x1f\x7f-\x9f]`: the control characters `clean_text` deletes. */
  predicate IsControl(c: char) {
    c <= '\U{8}' || '\U{b}' <= c <= '\U{1f}' || '\U{7f}' <= c <= '\U{9f}'
  }

  /** No two spaces in a row. */
  ghost predicate SingleSpaced(s: string) {
    forall i, j :: 0 <= i < j < |s| && j == i + 1 ==> s[i] != ' ' || s[j] != ' '
  }

  /** `re.sub(r'\s+', ' ', s)`: every maximal whitespace run becomes one space. */
  function CollapseSpaces(s: string): (r: string)
    ensures |r| <= |s| && (r == [] <==> s == [])
    ensures s != [] ==> (r[0] == ' ' <==> IsSpace(s[0])) && (!IsSpace(s[0]) ==> r[0] == s[0])
    ensures forall i :: 0 <= i < |r| && IsSpace(r[i]) ==> r[i] == ' '
    ensures SingleSpaced(r)
  {
    if s == [] then []
    else if IsSpace(s[0]) then
      // a whitespace character followed by another is part of the same run
      if |s| > 1 && IsSpace(s[1]) then CollapseSpaces(s[1..])
      else ConsSingleSpaced(' ', CollapseSpaces(s[1..])); [' '] + CollapseSpaces(s[1..])
    else ConsSingleSpaced(s[0], CollapseSpaces(s[1..])); [s[0]] + CollapseSpaces(s[1..])
  }

  lemma ConsSingleSpaced(c: char, t: string)
    requires SingleSpaced(t) && (c == ' ' ==> t == [] || t[0] != ' ')
    ensures SingleSpaced([c] + t)
  {
    var r := [c] + t;
    forall i, j | 0 <= i < j < |r| && j == i + 1 ensures r[i] != ' ' || r[j] != ' ' {
      if i > 0 { assert r[i] == t[i - 1] && r[j] == t[j - 1]; }
    }
  }

  /** `re.sub(r'[\x00-\x08\x0b-\x1f\x7f-\x9f]', '', s)`. */
  function DropControl(s: string): (r: string)
    ensures |r| <= |s|
    ensures forall i :: 0 <= i < |r| ==> !IsControl(r[i])
  {
    if s == [] then [] else (if IsControl(s[0]) then [] else [s[0]]) + DropControl(s[1..])
  }

  /** `clean_text`: collapse whitespace runs to one space, then delete control characters, then strip. */
  function CleanText(s: string): (r: string)
    ensures forall i :: 0 <= i < |r| ==> !IsControl(r[i])
    ensures forall i :: 0 <= i < |r| && IsSpace(r[i]) ==> r[i] == ' '
    ensures r == [] || (r[0] != ' ' && r[|r| - 1] != ' ')
  {
    if s == [] then []
    else
      var r := Strip(DropControl(CollapseSpaces(s)));
      DropControlKeepsSpaces(CollapseSpaces(s));
      StripSlice(DropControl(CollapseSpaces(s)));
      r
  }

  /** The characters a reader sees: neither whitespace nor control characters. */
  predicate IsVisible(c: char) { !IsSpace(c) && !IsControl(c) }

  function Visible(s: string): (r: string)
    ensures forall i :: 0 <= i < |r| ==> IsVisible(r[i])
  {
    if s == [] then [] else (if IsVisible(s[0]) then [s[0]] else []) + Visible(s[1..])
  }

  /** Text as `clean_text` leaves it when no control character sat between two whitespace runs. */
  ghost predicate IsTidy(s: string) {
    && (forall i :: 0 <= i < |s| ==> !IsControl(s[i]) && (IsSpace(s[i]) ==> s[i] == ' '))
    && SingleSpaced(s)
    && (s == [] || (s[0] != ' ' && s[|s| - 1] != ' '))
  }

  // ---------------------------------------------------------------- clean_date

  /**
    * The date the formats or the fallback patterns find in a cleaned text:
    * first the whole stripped text against each format in turn; then the
    * leftmost `\d{1,2}[/-]\d{1,2}[/-]\d{4}` match against each format; then
    * the leftmost `\d{4}[/-]\d{1,2}[/-]\d{1,2}` match.
    */
  function FindDate(t: string): (r: Option<Date>)
    ensures r.Some? ==> Valid(r.value)
  {
    match FirstParse(Formats, Strip(t))
    case Some(d) => Some(d)
    case None => SearchDate([Pattern.DayFirst, Pattern.YearFirst], t)
  }

  /** Each pattern in turn: its leftmost match, parsed with the first format that reads it. */
  function SearchDate(patterns: seq<Pattern.Regex>, t: string): (r: Option<Date>)
    ensures r.Some? ==> Valid(r.value)
  {
    if patterns == [] then None
    else match Pattern.Search(patterns[0], t, 0)
      case Some((i, e)) =>
        (match FirstParse(Formats, t[i..e])
         case Some(d) => Some(d)
         case None => SearchDate(patterns[1..], t))
      case None => SearchDate(patterns[1..], t)
  }

  /** A `DD/MM/YYYY` rendering of a real date. */
  ghost predicate IsCanonicalDate(r: string) {
    exists d :: Valid(d) && r == FormatDate(d)
  }

  /** `clean_date`: "" for empty cleaned text, else `DD/MM/YYYY` for a date found, else the cleaned text. */
  function CleanDate(raw: string): (r: string)
    ensures r == [] <==> CleanText(raw) == []
    ensures r == CleanText(raw) || IsCanonicalDate(r)
  {
    var t := CleanText(raw);
    if t == [] then []
    else match FindDate(t)
      case Some(d) => FormatDate(d)
      case None => t
  }

  // ---------------------------------------------------------------- clean_numeric

  /** `[\d.,+-]`: what `clean_numeric` keeps. */
  predicate IsNumericChar(c: char) { IsDigit(c) || c == '.' || c == ',' || c == '+' || c == '-' }

  function KeepNumeric(s: string): (r: string)
    ensures forall i :: 0 <= i < |r| ==> IsNumericChar(r[i])
  {
    if s == [] then [] else (if IsNumericChar(s[0]) then [s[0]] else []) + KeepNumeric(s[1..])
  }

  /**
    * Decides which of `.` and `,` is the decimal separator: with both, the
    * one that occurs last; with commas only, a single comma followed by at
    * most two characters; the other separator is deleted.
    */
  function NormalizeSeparators(t: string): string {
    if ',' in t && '.' in t then
      if RFind(t, ',') > RFind(t, '.') then ReplaceChar(RemoveChar(t, '.'), ',', '.')
      else RemoveChar(t, ',')
    else if ',' in t then
      var parts := Split(t, ',');
      if |parts| == 2 && |parts[1]| <= 2 then ReplaceChar(t, ',', '.') else RemoveChar(t, ',')
    else t
  }

  /**
    * What `float()` accepts once only digits, `.`, `+` and `-` remain: an
    * optional sign, then digits with at most one point and at least one digit.
    */
  predicate IsFloatLiteral(u: string) {
    var body := if |u| > 0 && (u[0] == '+' || u[0] == '-') then u[1..] else u;
    var k := RFind(body, '.');
    if k < 0 then |body| > 0 && AllDigits(body)
    else |body| > 1 && AllDigits(body[..k]) && AllDigits(body[k + 1..])
  }

  /** `clean_numeric`: "" for "", else the normalised number, else the stripped input. */
  function CleanNumeric(s: string): (r: string)
  {
    if s == [] then []
    else
      var t := KeepNumeric(s);
      if t == [] then Strip(s)
      else
        var u := NormalizeSeparators(t);
        if IsFloatLiteral(u) then u else Strip(s)
  }

  /** The separator `clean_numeric` reads as the decimal point: the last `,` or `.` of the number text. */
  function LastSeparator(t: string): (k: int)
    ensures -1 <= k < |t|
    ensures k >= 0 ==> t[k] == ',' || t[k] == '.'
    ensures forall i :: k < i < |t| ==> t[i] != ',' && t[i] != '.'
  {
    if RFind(t, ',') > RFind(t, '.') then RFind(t, ',') else RFind(t, '.')
  }

  /** The branch of `clean_numeric` that returns the normalised number rather than the input. */
  predicate IsNumberText(s: string) {
    s != [] && KeepNumeric(s) != [] && IsFloatLiteral(NormalizeSeparators(KeepNumeric(s)))
  }

  // ---------------------------------------------------------------- clean_text lemmas

  lemma {:induction false} VisibleAppend(a: string, b: string)
    ensures Visible(a + b) == Visible(a) + Visible(b)
  {
    if a == [] {
      assert a + b == b;
    } else {
      assert (a + b)[0] == a[0] && (a + b)[1..] == a[1..] + b;
      VisibleAppend(a[1..], b);
    }
  }

  lemma {:induction false} VisibleOfSpaces(s: string)
    requires forall i :: 0 <= i < |s| ==> IsSpace(s[i])
    ensures Visible(s) == []
  {
    if s != [] {
      VisibleOfSpaces(s[1..]);
    }
  }

  lemma {:induction false} VisibleCollapse(s: string)
    ensures Visible(CollapseSpaces(s)) == Visible(s)
  {
    if s != [] {
      VisibleCollapse(s[1..]);
      if !IsSpace(s[0]) || |s| == 1 || !IsSpace(s[1]) {
        VisibleAppend([if IsSpace(s[0]) then ' ' else s[0]], CollapseSpaces(s[1..]));
      }
    }
  }

  lemma {:induction false} VisibleDropControl(s: string)
    ensures Visible(DropControl(s)) == Visible(s)
  {
    if s != [] {
      VisibleDropControl(s[1..]);
      VisibleAppend(if IsControl(s[0]) then [] else [s[0]], DropControl(s[1..]));
    }
  }

  lemma VisibleTrimStart(s: string)
    ensures Visible(TrimStart(s)) == Visible(s)
  {
    var t := TrimStart(s);
    var pre := s[..|s| - |t|];
    assert s == pre + t;
    assert forall i :: 0 <= i < |pre| ==> IsSpace(pre[i]);
    VisibleAppend(pre, t);
    VisibleOfSpaces(pre);
  }

  lemma VisibleTrimEnd(s: string)
    ensures Visible(TrimEnd(s)) == Visible(s)
  {
    var r := TrimEnd(s);
    var post := s[|r|..];
    assert s == r + post;
    assert forall i :: 0 <= i < |post| ==> IsSpace(post[i]);
    VisibleAppend(r, post);
    VisibleOfSpaces(post);
  }

  /**
    * `clean_text` loses no visible character and invents none: what is left
    * once whitespace and control characters are set aside is the same, in
    * the same order, before and after.
    */
  lemma CleanTextKeepsVisible(s: string)
    ensures Visible(CleanText(s)) == Visible(s)
  {
    if s != [] {
      VisibleCollapse(s);
      VisibleDropControl(CollapseSpaces(s));
      VisibleTrimStart(DropControl(CollapseSpaces(s)));
      VisibleTrimEnd(TrimStart(DropControl(CollapseSpaces(s))));
    }
  }

  lemma {:induction false} CollapseSingleSpaced(s: string)
    requires forall i :: 0 <= i < |s| && IsSpace(s[i]) ==> s[i] == ' '
    requires SingleSpaced(s)
    ensures CollapseSpaces(s) == s
  {
    if s != [] {
      if |s| > 1 && s[0] == ' ' {
        assert s[1] != ' ';
      }
      assert SingleSpaced(s[1..]) by {
        forall i, j | 0 <= i < j < |s[1..]| && j == i + 1 ensures s[1..][i] != ' ' || s[1..][j] != ' ' {
          assert s[i + 1] != ' ' || s[j + 1] != ' ';
        }
      }
      CollapseSingleSpaced(s[1..]);
      assert s == [s[0]] + s[1..];
    }
  }

  lemma {:induction false} DropControlNone(s: string)
    requires forall i :: 0 <= i < |s| ==> !IsControl(s[i])
    ensures DropControl(s) == s
  {
    if s != [] {
      DropControlNone(s[1..]);
      assert s == [s[0]] + s[1..];
    }
  }

  lemma {:induction false} DropControlAppend(a: string, b: string)
    ensures DropControl(a + b) == DropControl(a) + DropControl(b)
  {
    if a == [] {
      assert a + b == b;
    } else {
      assert (a + b)[0] == a[0] && (a + b)[1..] == a[1..] + b;
      DropControlAppend(a[1..], b);
    }
  }

  /** Tidy text is left exactly as it is. */
  lemma CleanTextFixpoint(s: string)
    requires IsTidy(s)
    ensures CleanText(s) == s
  {
    if s != [] {
      CollapseSingleSpaced(s);
      DropControlNone(s);
      StripTrimmed(s);
    }
  }

  /**
    * Collapsing comes before deleting, so a control character between two
    * whitespace runs leaves two spaces behind: `clean_text` is not idempotent.
    */
  lemma CleanTextKeepsDoubleSpace()
    ensures CleanText("a \U{0} b") == "a  b"
    ensures CleanText(CleanText("a \U{0} b")) == "a b"
  {
    DoubleSpaceCollapse();
    DoubleSpaceDrop();
    StripTrimmed("a  b");
    DoubleSpaceSecondPass();
  }

  lemma DoubleSpaceCollapse()
    ensures CollapseSpaces("a \U{0} b") == "a \U{0} b"
  {
    CollapseSpaceStep(" b");
    CollapseNoSpacePrefix("b", []);
    assert "b" + [] == "b";
    CollapseNoSpacePrefix("\U{0}", " b");
    assert "\U{0}" + " b" == "\U{0} b";
    CollapseSpaceStep(" \U{0} b");
    assert " \U{0} b"[1..] == "\U{0} b";
    CollapseNoSpacePrefix("a", " \U{0} b");
    assert "a" + " \U{0} b" == "a \U{0} b";
  }

  lemma DoubleSpaceDrop()
    ensures DropControl("a \U{0} b") == "a  b"
  {
    assert "a \U{0} b" == "a " + ("\U{0}" + " b");
    DropControlAppend("a ", "\U{0}" + " b");
    DropControlAppend("\U{0}", " b");
    DropControlNone("a ");
    DropControlNone(" b");
  }

  lemma DoubleSpaceSecondPass()
    ensures CleanText("a  b") == "a b"
  {
    CollapseSpaceStep(" b");
    CollapseNoSpacePrefix("b", []);
    assert "b" + [] == "b";
    CollapseSpaceRun("  b");
    assert "  b"[1..] == " b";
    CollapseNoSpacePrefix("a", "  b");
    assert "a" + "  b" == "a  b";
    DropControlNone("a b");
    StripTrimmed("a b");
  }

  /**
    * The case of the project's tests, for any words: `\x1f` is whitespace
    * and becomes a space, `\x00` and `\x7f` are deleted without one.
    */
  lemma CleanTextControlWords(w1: string, w2: string, w3: string, w4: string)
    requires AllVisible(w1) && AllVisible(w2) && AllVisible(w3) && AllVisible(w4)
    requires w1 != [] && w3 + w4 != []
    ensures CleanText(w1 + ['\U{0}'] + w2 + ['\U{1f}'] + w3 + ['\U{7f}'] + w4) == w1 + w2 + [' '] + w3 + w4
  {
    ControlWordsCollapse(w1, w2, w3, w4);
    ControlWordsDrop(w1, w2, w3, w4);
    ControlWordsTrimmed(w1, w2, w3, w4);
    StripTrimmed(w1 + w2 + [' '] + w3 + w4);
  }

  predicate AllVisible(s: string) {
    forall i :: 0 <= i < |s| ==> IsVisible(s[i])
  }

  lemma ControlWordsCollapse(w1: string, w2: string, w3: string, w4: string)
    requires AllVisible(w1) && AllVisible(w2) && AllVisible(w3) && AllVisible(w4)
    requires w3 + w4 != []
    ensures CollapseSpaces(w1 + ['\U{0}'] + w2 + ['\U{1f}'] + w3 + ['\U{7f}'] + w4)
         == w1 + ['\U{0}'] + w2 + [' '] + w3 + ['\U{7f}'] + w4
  {
    NoSpaceJoin(w1, '\U{0}', w2);
    NoSpaceJoin(w3, '\U{7f}', w4);
    CollapseOneSpace(w1 + ['\U{0}'] + w2, '\U{1f}', w3 + ['\U{7f}'] + w4);
    Regroup7(w1, ['\U{0}'], w2, ['\U{1f}'], w3, ['\U{7f}'], w4);
    Regroup7(w1, ['\U{0}'], w2, [' '], w3, ['\U{7f}'], w4);
  }

  lemma NoSpaceJoin(u: string, c: char, v: string)
    requires AllVisible(u) && AllVisible(v) && !IsSpace(c)
    ensures forall i :: 0 <= i < |u + [c] + v| ==> !IsSpace((u + [c] + v)[i])
  {
    var r := u + [c] + v;
    forall i | 0 <= i < |r| ensures !IsSpace(r[i]) {
      if i < |u| { assert r[i] == u[i]; }
      else if i > |u| { assert r[i] == v[i - |u| - 1]; }
    }
  }

  lemma NoControlJoin(u: string, c: char, v: string)
    requires AllVisible(u) && AllVisible(v) && !IsControl(c)
    ensures forall i :: 0 <= i < |u + [c] + v| ==> !IsControl((u + [c] + v)[i])
  {
    var r := u + [c] + v;
    forall i | 0 <= i < |r| ensures !IsControl(r[i]) {
      if i < |u| { assert r[i] == u[i]; }
      else if i > |u| { assert r[i] == v[i - |u| - 1]; }
    }
  }

  lemma Regroup7(x1: string, x2: string, x3: string, x4: string, x5: string, x6: string, x7: string)
    ensures x1 + x2 + x3 + x4 + x5 + x6 + x7 == (x1 + x2 + x3) + x4 + (x5 + x6 + x7)
    ensures x1 + x2 + x3 + x4 + x5 + x6 + x7 == x1 + x2 + (x3 + x4 + x5 + x6 + x7)
  {
  }

  lemma Regroup5(x1: string, x2: string, x3: string, x4: string, x5: string)
    ensures x1 + (x2 + x3 + x4 + x5) == x1 + x2 + x3 + x4 + x5
    ensures x1 + x2 + x3 + x4 + x5 == (x1 + x2 + x3) + x4 + x5
    ensures x1 + x2 + x3 + x4 + x5 == x1 + x2 + (x3 + x4 + x5)
    ensures x1 + (x3 + x4 + x5) == x1 + x3 + x4 + x5
  {
  }

  lemma ControlWordsDrop(w1: string, w2: string, w3: string, w4: string)
    requires AllVisible(w1) && AllVisible(w2) && AllVisible(w3) && AllVisible(w4)
    ensures DropControl(w1 + ['\U{0}'] + w2 + [' '] + w3 + ['\U{7f}'] + w4) == w1 + w2 + [' '] + w3 + w4
  {
    ControlWordsDropTail(w2, w3, w4);
    Regroup7(w1, ['\U{0}'], w2, [' '], w3, ['\U{7f}'], w4);
    DropOneControl(w1, '\U{0}', w2 + [' '] + w3 + ['\U{7f}'] + w4);
    Regroup5(w1, w2, [' '], w3, w4);
  }

  lemma ControlWordsDropTail(w2: string, w3: string, w4: string)
    requires AllVisible(w2) && AllVisible(w3) && AllVisible(w4)
    ensures DropControl(w2 + [' '] + w3 + ['\U{7f}'] + w4) == w2 + [' '] + w3 + w4
  {
    NoControlJoin(w2, ' ', w3);
    DropOneControl(w2 + [' '] + w3, '\U{7f}', w4);
    DropControlNone(w4);
  }

  lemma ControlWordsTrimmed(w1: string, w2: string, w3: string, w4: string)
    requires AllVisible(w1) && AllVisible(w3) && AllVisible(w4)
    requires w1 != [] && w3 + w4 != []
    ensures var r := w1 + w2 + [' '] + w3 + w4; r != [] && !IsSpace(r[0]) && !IsSpace(r[|r| - 1])
  {
    var r := w1 + w2 + [' '] + w3 + w4;
    assert r[0] == w1[0];
    if w4 != [] { assert r[|r| - 1] == w4[|w4| - 1]; } else { assert r[|r| - 1] == w3[|w3| - 1]; }
  }

  /** The test case with the words of the project's tests. */
  lemma CleanTextExample()
    ensures CleanText("texto\U{0}con\U{1f}caracteres\U{7f}control") == "textocon caracterescontrol"
  {
    CleanTextControlWords("texto", "con", "caracteres", "control");
    ExampleWords();
  }

  lemma ExampleWords()
    ensures "texto" + ['\U{0}'] + "con" + ['\U{1f}'] + "caracteres" + ['\U{7f}'] + "control" == "texto\U{0}con\U{1f}caracteres\U{7f}control"
    ensures "texto" + "con" + [' '] + "caracteres" + "control" == "textocon caracterescontrol"
  {
  }

  /** A control character inside control-free text just disappears. */
  lemma DropOneControl(a: string, c: char, b: string)
    requires forall i :: 0 <= i < |a| ==> !IsControl(a[i])
    requires IsControl(c)
    ensures DropControl(a + [c] + b) == a + DropControl(b)
  {
    var cb := [c] + b;
    assert a + [c] + b == a + cb;
    DropControlAppend(a, cb);
    DropControlNone(a);
    DropControlHead(c, b);
  }

  lemma DropControlHead(c: char, b: string)
    requires IsControl(c)
    ensures DropControl([c] + b) == DropControl(b)
  {
    assert ([c] + b)[0] == c;
    assert ([c] + b)[1..] == b;
  }

  /** One whitespace character between two whitespace-free texts becomes one space. */
  lemma CollapseOneSpace(a: string, c: char, b: string)
    requires forall i :: 0 <= i < |a| ==> !IsSpace(a[i])
    requires forall i :: 0 <= i < |b| ==> !IsSpace(b[i])
    requires IsSpace(c) && b != []
    ensures CollapseSpaces(a + [c] + b) == a + [' '] + b
  {
    CollapseOneSpaceGrouped(a, c, b);
    Regroup3(a, [c], b);
    Regroup3(a, [' '], b);
  }

  lemma CollapseOneSpaceGrouped(a: string, c: char, b: string)
    requires forall i :: 0 <= i < |a| ==> !IsSpace(a[i])
    requires forall i :: 0 <= i < |b| ==> !IsSpace(b[i])
    requires IsSpace(c) && b != []
    ensures CollapseSpaces(a + ([c] + b)) == a + ([' '] + b)
  {
    CollapseNoSpacePrefix(a, [c] + b);
    CollapseSpaceThenWord(c, b);
  }

  lemma CollapseSpaceThenWord(c: char, b: string)
    requires forall i :: 0 <= i < |b| ==> !IsSpace(b[i])
    requires IsSpace(c) && b != []
    ensures CollapseSpaces([c] + b) == [' '] + b
  {
    CollapseSpaceHead(c, b);
    CollapseNoSpacePrefix(b, []);
    assert b + [] == b;
  }

  lemma Regroup3(x: string, y: string, z: string)
    ensures x + y + z == x + (y + z)
  {
  }

  lemma CollapseSpaceHead(c: char, b: string)
    requires IsSpace(c) && b != [] && !IsSpace(b[0])
    ensures CollapseSpaces([c] + b) == [' '] + CollapseSpaces(b)
  {
    var cb := [c] + b;
    assert cb[0] == c && cb[1] == b[0];
    CollapseSpaceStep(cb);
    assert cb[1..] == b;
  }

  lemma {:induction false} DropControlKeepsSpaces(s: string)
    requires forall i :: 0 <= i < |s| && IsSpace(s[i]) ==> s[i] == ' '
    ensures forall i :: 0 <= i < |DropControl(s)| && IsSpace(DropControl(s)[i]) ==> DropControl(s)[i] == ' '
  {
    if s != [] {
      DropControlKeepsSpaces(s[1..]);
    }
  }

  /** A whitespace character followed by a visible one collapses to a single space. */
  lemma CollapseSpaceStep(s: string)
    requires |s| >= 2 && IsSpace(s[0]) && !IsSpace(s[1])
    ensures CollapseSpaces(s) == [' '] + CollapseSpaces(s[1..])
  {
  }

  /** A whitespace character followed by another adds nothing to the run. */
  lemma CollapseSpaceRun(s: string)
    requires |s| >= 2 && IsSpace(s[0]) && IsSpace(s[1])
    ensures CollapseSpaces(s) == CollapseSpaces(s[1..])
  {
  }

  lemma {:induction false} CollapseNoSpacePrefix(a: string, b: string)
    requires forall i :: 0 <= i < |a| ==> !IsSpace(a[i])
    ensures CollapseSpaces(a + b) == a + CollapseSpaces(b)
  {
    if a == [] {
      assert a + b == b;
    } else {
      assert (a + b)[0] == a[0] && (a + b)[1..] == a[1..] + b;
      CollapseNoSpacePrefix(a[1..], b);
    }
  }

  // ---------------------------------------------------------------- clean_numeric lemmas

  lemma {:induction false} KeepNumericAppend(a: string, b: string)
    ensures KeepNumeric(a + b) == KeepNumeric(a) + KeepNumeric(b)
  {
    if a == [] {
      assert a + b == b;
    } else {
      assert (a + b)[0] == a[0] && (a + b)[1..] == a[1..] + b;
      KeepNumericAppend(a[1..], b);
    }
  }

  lemma {:induction false} KeepNumericAll(s: string)
    requires forall i :: 0 <= i < |s| ==> IsNumericChar(s[i])
    ensures KeepNumeric(s) == s
  {
    if s != [] {
      KeepNumericAll(s[1..]);
      assert s == [s[0]] + s[1..];
    }
  }

  lemma {:induction false} KeepNumericNone(s: string)
    requires forall i :: 0 <= i < |s| ==> !IsNumericChar(s[i])
    ensures KeepNumeric(s) == []
  {
    if s != [] {
      KeepNumericNone(s[1..]);
    }
  }

  /** Deleting everything but `[\d.,+-]` deletes no digit. */
  lemma {:induction false} KeepNumericDigits(s: string)
    ensures DigitsOf(KeepNumeric(s)) == DigitsOf(s)
  {
    if s != [] {
      KeepNumericDigits(s[1..]);
      DigitsOfAppend(if IsNumericChar(s[0]) then [s[0]] else [], KeepNumeric(s[1..]));
    }
  }

  /** Deciding the separators keeps every digit in order and leaves no comma. */
  lemma NormalizeKeepsDigits(t: string)
    ensures DigitsOf(NormalizeSeparators(t)) == DigitsOf(t)
    ensures ',' !in NormalizeSeparators(t)
  {
    var u := NormalizeSeparators(t);
    if ',' in t && '.' in t {
      if RFind(t, ',') > RFind(t, '.') {
        assert u == ReplaceChar(RemoveChar(t, '.'), ',', '.');
        DigitsOfRemoveChar(t, '.');
        DigitsOfReplaceChar(RemoveChar(t, '.'), ',', '.');
      } else {
        assert u == RemoveChar(t, ',');
        DigitsOfRemoveChar(t, ',');
      }
    } else if ',' in t {
      if |Split(t, ',')| == 2 && |Split(t, ',')[1]| <= 2 {
        assert u == ReplaceChar(t, ',', '.');
        DigitsOfReplaceChar(t, ',', '.');
      } else {
        assert u == RemoveChar(t, ',');
        DigitsOfRemoveChar(t, ',');
      }
    }
  }

  /**
    * `clean_numeric` either returns a number `float()` accepts, without
    * commas and with exactly the digits of its input in their order, or
    * gives up and returns the stripped input; the first happens exactly on
    * number texts.
    */
  lemma CleanNumericCases(s: string)
    ensures var r := CleanNumeric(s);
      if IsNumberText(s) then IsFloatLiteral(r) && ',' !in r && DigitsOf(r) == DigitsOf(s)
      else r == Strip(s)
  {
    if IsNumberText(s) {
      NormalizeKeepsDigits(KeepNumeric(s));
      KeepNumericDigits(s);
    }
  }

  /**
    * The point of `r`, if it has one, stands for the last separator of `t`:
    * the digits before it and after it are those before and after that
    * separator.
    */
  ghost predicate PointAtLastSeparator(r: string, t: string) {
    var p, k := RFind(r, '.'), LastSeparator(t);
    p >= 0 ==> k >= 0 && DigitsOf(r[..p]) == DigitsOf(t[..k]) && DigitsOf(r[p + 1..]) == DigitsOf(t[k + 1..])
  }

  /** The decimal point of the result stands where the last separator of the number text stood. */
  lemma CleanNumericDecimalPoint(s: string)
    requires IsNumberText(s)
    ensures PointAtLastSeparator(CleanNumeric(s), KeepNumeric(s))
  {
    NumberTextNormalized(s);
    NormalizedPoint(KeepNumeric(s));
  }

  /** On number texts `clean_numeric` returns the number text with its separators settled. */
  lemma NumberTextNormalized(s: string)
    requires IsNumberText(s)
    ensures CleanNumeric(s) == NormalizeSeparators(KeepNumeric(s))
  {
  }

  /** Where the settled number has a point, it stands for the last separator. */
  lemma NormalizedPoint(t: string)
    ensures PointAtLastSeparator(NormalizeSeparators(t), t)
  {
    if RFind(NormalizeSeparators(t), '.') >= 0 {
      NormalizePoint(t);
    }
  }

  lemma NormalizePoint(t: string)
    requires RFind(NormalizeSeparators(t), '.') >= 0
    ensures var u, k := NormalizeSeparators(t), LastSeparator(t);
      var p := RFind(u, '.');
      k >= 0 && DigitsOf(u[..p]) == DigitsOf(t[..k]) && DigitsOf(u[p + 1..]) == DigitsOf(t[k + 1..])
  {
    SeparatorPresent(t);
    var a := NormalizedShape(t);
    var k := LastSeparator(t);
    PointAt(NormalizeSeparators(t), a, t[k + 1..]);
  }

  /** The settled number is the digits before the last separator, a point, and the rest as it was. */
  lemma NormalizedShape(t: string) returns (a: string)
    requires LastSeparator(t) >= 0 && RFind(NormalizeSeparators(t), '.') >= 0
    ensures var k := LastSeparator(t);
      NormalizeSeparators(t) == a + ['.'] + t[k + 1..] && '.' !in t[k + 1..] && DigitsOf(a) == DigitsOf(t[..k])
  {
    var k := LastSeparator(t);
    assert '.' !in t[k + 1..];
    if ',' in t && '.' in t {
      a := BothShape(t);
    } else if ',' in t {
      a := CommaShape(t);
    } else {
      assert t == t[..k] + ['.'] + t[k + 1..];
      a := t[..k];
    }
  }

  /** With both separators, the last one becomes the point and the other kind is deleted. */
  lemma BothShape(t: string) returns (a: string)
    requires ',' in t && '.' in t
    ensures var k := LastSeparator(t);
      k >= 0 && NormalizeSeparators(t) == a + ['.'] + t[k + 1..] && DigitsOf(a) == DigitsOf(t[..k])
  {
    var k := LastSeparator(t);
    var pre, post := t[..k], t[k + 1..];
    assert t == pre + [t[k]] + post;
    assert '.' !in post && ',' !in post;
    if RFind(t, ',') > RFind(t, '.') {
      a := PointEuropean(pre, post);
    } else {
      a := PointAmerican(pre, post);
    }
  }

  /** With commas only, a point in the result means the single comma was read as one. */
  lemma CommaShape(t: string) returns (a: string)
    requires ',' in t && '.' !in t && RFind(NormalizeSeparators(t), '.') >= 0
    ensures var k := LastSeparator(t);
      k >= 0 && NormalizeSeparators(t) == a + ['.'] + t[k + 1..] && DigitsOf(a) == DigitsOf(t[..k])
  {
    var k := LastSeparator(t);
    var pre, post := t[..k], t[k + 1..];
    assert t == pre + [','] + post;
    if |Split(t, ',')| == 2 && |Split(t, ',')[1]| <= 2 {
      a := PointComma(pre, post);
    } else {
      RemoveCharKeepsAbsent(t, ',', '.');
      assert false;
    }
  }

  /** A normalised number with a point came from a text with a separator. */
  lemma SeparatorPresent(t: string)
    requires RFind(NormalizeSeparators(t), '.') >= 0
    ensures LastSeparator(t) >= 0
  {
  }

  /** `1.234,56`: points deleted, the last comma becomes the point. */
  lemma PointEuropean(pre: string, post: string) returns (a: string)
    requires '.' !in post && ',' !in post
    ensures ReplaceChar(RemoveChar(pre + [','] + post, '.'), ',', '.') == a + ['.'] + post
    ensures DigitsOf(a) == DigitsOf(pre)
  {
    a := ReplaceChar(RemoveChar(pre, '.'), ',', '.');
    RemoveCharAbsent(post, '.');
    ReplaceCharAbsent(post, ',', '.');
    RemoveCharAround(pre, ',', post, '.');
    ReplaceCharAround(RemoveChar(pre, '.'), ',', post, ',', '.');
    DigitsOfRemoveChar(pre, '.');
    DigitsOfReplaceChar(RemoveChar(pre, '.'), ',', '.');
  }

  /** `1,234.56`: commas deleted, the last point stays. */
  lemma PointAmerican(pre: string, post: string) returns (a: string)
    requires '.' !in post && ',' !in post
    ensures RemoveChar(pre + ['.'] + post, ',') == a + ['.'] + post
    ensures DigitsOf(a) == DigitsOf(pre)
  {
    a := RemoveChar(pre, ',');
    RemoveCharAbsent(post, ',');
    RemoveCharAround(pre, '.', post, ',');
    DigitsOfRemoveChar(pre, ',');
  }

  /** `123,45`: the comma becomes the point. */
  lemma PointComma(pre: string, post: string) returns (a: string)
    requires ',' !in post
    ensures ReplaceChar(pre + [','] + post, ',', '.') == a + ['.'] + post
    ensures DigitsOf(a) == DigitsOf(pre)
  {
    a := ReplaceChar(pre, ',', '.');
    ReplaceCharAbsent(post, ',', '.');
    ReplaceCharAround(pre, ',', post, ',', '.');
    DigitsOfReplaceChar(pre, ',', '.');
  }

  lemma PointAt(u: string, a: string, post: string)
    requires u == a + ['.'] + post && '.' !in post
    ensures RFind(u, '.') == |a| && u[..|a|] == a && u[|a| + 1..] == post
  {
    RFindAround(a, '.', post);
  }

  /** `replace(c, "")` brings in no character that was not there. */
  lemma {:induction false} RemoveCharKeepsAbsent(s: string, c: char, d: char)
    requires d !in s
    ensures d !in RemoveChar(s, c)
  {
    if s != [] {
      RemoveCharKeepsAbsent(s[1..], c, d);
    }
  }

  // The four shapes of number the tests exercise, for any digit strings.

  /** Currency symbols and other text around a number are ignored. */
  lemma CleanNumericIgnoresText(x: string, n: string, y: string)
    requires forall i :: 0 <= i < |x| ==> !IsNumericChar(x[i])
    requires forall i :: 0 <= i < |y| ==> !IsNumericChar(y[i])
    requires n != [] && forall i :: 0 <= i < |n| ==> IsNumericChar(n[i])
    requires IsFloatLiteral(NormalizeSeparators(n))
    ensures CleanNumeric(x + n + y) == CleanNumeric(n)
  {
    KeepNumericAppend(x + n, y);
    KeepNumericAppend(x, n);
    KeepNumericNone(x);
    KeepNumericNone(y);
    KeepNumericAll(n);
    assert [] + n + [] == n;
  }

  /** Digits, dots, commas and signs only: the number text is its own numeric part. */
  lemma NumericChars(a: string, sep1: char, b: string, sep2: char, c: string)
    requires AllDigits(a) && AllDigits(b) && AllDigits(c)
    requires sep1 in ",." && sep2 in ",."
    ensures forall i :: 0 <= i < |a + [sep1] + b + [sep2] + c| ==> IsNumericChar((a + [sep1] + b + [sep2] + c)[i])
  {
  }

  /** European `1.234,56`: the thousands point goes, the comma becomes the decimal point. */
  lemma CleanNumericEuropean(a: string, b: string, c: string)
    requires AllDigits(a) && AllDigits(b) && AllDigits(c) && a != []
    ensures CleanNumeric(a + ['.'] + b + [','] + c) == a + b + ['.'] + c
    ensures IsFloatLiteral(NormalizeSeparators(a + ['.'] + b + [','] + c))
  {
    var n := a + ['.'] + b + [','] + c;
    NumericChars(a, '.', b, ',', c);
    KeepNumericAll(n);
    NormalizeEuropean(a, b, c);
    FloatWithPoint(a + b, c);
  }

  lemma NormalizeEuropean(a: string, b: string, c: string)
    requires AllDigits(a) && AllDigits(b) && AllDigits(c)
    ensures NormalizeSeparators(a + ['.'] + b + [','] + c) == a + b + ['.'] + c
  {
    var n := a + ['.'] + b + [','] + c;
    SeparatorPositions(a, '.', b, ',', c);
    EuropeanValue(a, b, c);
  }

  /** Where the two separators of `a?b?c` stand, for digit strings. */
  lemma SeparatorPositions(a: string, sep1: char, b: string, sep2: char, c: string)
    requires AllDigits(a) && AllDigits(b) && AllDigits(c) && !IsDigit(sep1) && !IsDigit(sep2) && sep1 != sep2
    ensures var n := a + [sep1] + b + [sep2] + c;
      && sep1 in n && sep2 in n
      && RFind(n, sep1) == |a| && RFind(n, sep2) == |a| + 1 + |b|
  {
    var n := a + [sep1] + b + [sep2] + c;
    assert n[|a|] == sep1 && n[|a| + 1 + |b|] == sep2;
    RFindAround(a + [sep1] + b, sep2, c);
    assert n == a + [sep1] + (b + [sep2] + c);
    RFindAround(a, sep1, b + [sep2] + c);
  }

  lemma EuropeanValue(a: string, b: string, c: string)
    requires AllDigits(a) && AllDigits(b) && AllDigits(c)
    ensures ReplaceChar(RemoveChar(a + ['.'] + b + [','] + c, '.'), ',', '.') == a + b + ['.'] + c
  {
    RemoveFirstSeparator(a, b, c, '.', ',');
    assert AllDigits(a + b);
    CommaDecimalValue(a + b, c);
  }

  /** Removing the first of two separators between digit runs keeps the runs and the second separator. */
  lemma RemoveFirstSeparator(a: string, b: string, c: string, x: char, y: char)
    requires AllDigits(a) && AllDigits(b) && AllDigits(c)
    requires !IsDigit(x) && x != y
    ensures RemoveChar(a + [x] + b + [y] + c, x) == a + b + [y] + c
  {
    Regroup5(a, [x], b, [y], c);
    RemoveCharAround(a, x, b + [y] + c, x);
    RemoveCharAround(b, y, c, x);
    RemoveCharAbsent(a, x);
    RemoveCharAbsent(b, x);
    RemoveCharAbsent(c, x);
  }

  /** American `1,234.56`: the thousands comma goes. */
  lemma CleanNumericAmerican(a: string, b: string, c: string)
    requires AllDigits(a) && AllDigits(b) && AllDigits(c) && a != []
    ensures CleanNumeric(a + [','] + b + ['.'] + c) == a + b + ['.'] + c
    ensures IsFloatLiteral(NormalizeSeparators(a + [','] + b + ['.'] + c))
  {
    var n := a + [','] + b + ['.'] + c;
    NumericChars(a, ',', b, '.', c);
    KeepNumericAll(n);
    NormalizeAmerican(a, b, c);
    FloatWithPoint(a + b, c);
  }

  lemma NormalizeAmerican(a: string, b: string, c: string)
    requires AllDigits(a) && AllDigits(b) && AllDigits(c)
    ensures NormalizeSeparators(a + [','] + b + ['.'] + c) == a + b + ['.'] + c
  {
    SeparatorPositions(a, ',', b, '.', c);
    RemoveFirstSeparator(a, b, c, ',', '.');
  }

  /** A single comma followed by at most two digits is the decimal point: `123,45`. */
  lemma CleanNumericCommaDecimal(a: string, c: string)
    requires AllDigits(a) && AllDigits(c) && a != [] && |c| <= 2
    ensures CleanNumeric(a + [','] + c) == a + ['.'] + c
  {
    OneComma(a, c);
    CommaDecimalValue(a, c);
    FloatWithPoint(a, c);
  }

  lemma CommaDecimalValue(a: string, c: string)
    requires AllDigits(a) && AllDigits(c)
    ensures ReplaceChar(a + [','] + c, ',', '.') == a + ['.'] + c
  {
    ReplaceCharAround(a, ',', c, ',', '.');
    ReplaceCharAbsent(a, ',', '.');
    ReplaceCharAbsent(c, ',', '.');
  }

  /** `a,c` for digit strings: its own numeric part, one comma, no point, two parts. */
  lemma OneComma(a: string, c: string)
    requires AllDigits(a) && AllDigits(c)
    ensures var n := a + [','] + c;
      && KeepNumeric(n) == n && ',' in n && '.' !in n && Split(n, ',') == [a, c]
  {
    var n := a + [','] + c;
    assert n[|a|] == ',';
    assert forall i :: 0 <= i < |n| ==> IsNumericChar(n[i]);
    KeepNumericAll(n);
    SplitAfterSep(a, ',', c);
    SplitNoSep(c, ',');
  }

  /** A single comma followed by three or more digits separates thousands: `1,234`. */
  lemma CleanNumericCommaThousands(a: string, c: string)
    requires AllDigits(a) && AllDigits(c) && a != [] && |c| > 2
    ensures CleanNumeric(a + [','] + c) == a + c
  {
    OneComma(a, c);
    CommaThousandsValue(a, c);
    FloatDigits(a + c);
  }

  lemma CommaThousandsValue(a: string, c: string)
    requires AllDigits(a) && AllDigits(c)
    ensures RemoveChar(a + [','] + c, ',') == a + c
  {
    RemoveCharAround(a, ',', c, ',');
    RemoveCharAbsent(a, ',');
    RemoveCharAbsent(c, ',');
  }

  lemma FloatWithPoint(a: string, c: string)
    requires AllDigits(a) && AllDigits(c) && a != []
    ensures IsFloatLiteral(a + ['.'] + c)
  {
    var u := a + ['.'] + c;
    assert u[0] == a[0];
    RFindAround(a, '.', c);
    assert u[..|a|] == a && u[|a| + 1..] == c;
  }

  lemma FloatDigits(a: string)
    requires AllDigits(a) && a != []
    ensures IsFloatLiteral(a)
  {
  }

  /** A number with a point and no comma is kept as it is: `-123.45`, `1234`. */
  lemma CleanNumericPlain(n: string)
    requires n != [] && forall i :: 0 <= i < |n| ==> IsNumericChar(n[i])
    requires ',' !in n && IsFloatLiteral(n)
    ensures CleanNumeric(n) == n
  {
    KeepNumericAll(n);
  }

  /** Text with no digit, sign or separator comes back stripped and otherwise unchanged. */
  lemma CleanNumericNoNumber(s: string)
    requires s != [] && forall i :: 0 <= i < |s| ==> !IsNumericChar(s[i])
    ensures CleanNumeric(s) == Strip(s)
  {
    KeepNumericNone(s);
  }

  /** The cases of the project's tests, one lemma each. */
  lemma CleanNumericSeparatorExamples()
    ensures CleanNumeric("1.234,56") == "1234.56"
    ensures CleanNumeric("1,234.56") == "1234.56"
  {
    NumberPieces();
    CleanNumericEuropean("1", "234", "56");
    CleanNumericAmerican("1", "234", "56");
  }

  lemma CleanNumericCommaExamples()
    ensures CleanNumeric("123,45") == "123.45"
    ensures CleanNumeric("1,234") == "1234"
  {
    NumberPieces();
    CleanNumericCommaDecimal("123", "45");
    CleanNumericCommaThousands("1", "234");
  }

  lemma CleanNumericNegativeExample(s: string)
    requires s == "-123.45"
    ensures CleanNumeric(s) == s
  {
    NegativeLiteral(s);
    CleanNumericPlain(s);
  }

  lemma NegativeLiteral(s: string)
    requires s == "-123.45"
    ensures IsFloatLiteral(s)
  {
    assert s[1..] == "123" + ['.'] + "45";
    FloatWithPoint("123", "45");
  }

  lemma CleanNumericTextExample(s: string)
    requires s == "No es un n\U{fa}mero"
    ensures CleanNumeric(s) == s
  {
    TextExampleFacts(s);
    NoNumberStripped(s);
  }

  lemma TextExampleFacts(s: string)
    requires s == "No es un n\U{fa}mero"
    ensures s != [] && KeepNumeric(s) == [] && Strip(s) == s
  {
    KeepNumericNone(s);
    StripTrimmed(s);
  }

  /** With nothing numeric kept, `clean_numeric` returns the stripped input. */
  lemma NoNumberStripped(s: string)
    requires s != [] && KeepNumeric(s) == []
    ensures CleanNumeric(s) == Strip(s)
  {
  }

  lemma NumberPieces()
    ensures "1" + ['.'] + "234" + [','] + "56" == "1.234,56"
    ensures "1" + [','] + "234" + ['.'] + "56" == "1,234.56"
    ensures "1" + "234" + ['.'] + "56" == "1234.56"
    ensures "123" + [','] + "45" == "123,45" && "123" + ['.'] + "45" == "123.45"
    ensures "1" + [','] + "234" == "1,234" && "1" + "234" == "1234"
  {
  }

  // ---------------------------------------------------------------- clean_date lemmas

  /** Text made of digits and the two date separators only. */
  predicate DateChars(t: string) {
    forall i :: 0 <= i < |t| ==> IsDigit(t[i]) || t[i] == '/' || t[i] == '-'
  }

  lemma DateCharsTidy(t: string)
    requires DateChars(t)
    ensures IsTidy(t)
  {
  }

  lemma DateCharsJoin(a: string, sep1: char, b: string, sep2: char, c: string)
    requires AllDigits(a) && AllDigits(b) && AllDigits(c) && sep1 in "/-" && sep2 in "/-"
    ensures DateChars(a + [sep1] + b + [sep2] + c)
  {
  }

  lemma FormatDateChars(d: Date)
    requires Valid(d)
    ensures DateChars(FormatDate(d))
  {
    DateCharsJoin(Pad2(d.day), '/', Pad2(d.month), '/', Pad4(d.year));
    assert FormatDate(d) == Pad2(d.day) + ['/'] + Pad2(d.month) + ['/'] + Pad4(d.year);
  }

  /** Text of digits and separators passes through `clean_text` untouched. */
  lemma CleanTextDateChars(t: string)
    requires DateChars(t)
    ensures CleanText(t) == t && Strip(t) == t
  {
    DateCharsTidy(t);
    CleanTextFixpoint(t);
    if t != [] {
      StripTrimmed(t);
    }
  }

  /** A date `clean_date` writes reads back as itself: its output is a fixpoint. */
  lemma CleanDateRoundTrip(d: Date)
    requires Valid(d)
    ensures CleanDate(FormatDate(d)) == FormatDate(d)
  {
    var t := FormatDate(d);
    FormatDateChars(d);
    CleanTextDateChars(t);
    FormatParseRoundTrip(d);
    assert FirstParse(Formats, t) == Some(d);
  }

  /** `YYYY-MM-DD` becomes `DD/MM/YYYY`. */
  lemma CleanDateIso(d: Date)
    requires Valid(d)
    ensures CleanDate(Pad4(d.year) + ['-'] + Pad2(d.month) + ['-'] + Pad2(d.day)) == FormatDate(d)
  {
    var t := Pad4(d.year) + ['-'] + Pad2(d.month) + ['-'] + Pad2(d.day);
    DateCharsJoin(Pad4(d.year), '-', Pad2(d.month), '-', Pad2(d.day));
    CleanTextDateChars(t);
    FirstParseIso(d);
  }

  /** `DD/MM/YY` becomes `DD/MM/YYYY`, the century chosen as `%y` chooses it. */
  lemma CleanDateShortYear(d: Date)
    requires Valid(d) && 1969 <= d.year <= 2068
    ensures CleanDate(Pad2(d.day) + ['/'] + Pad2(d.month) + ['/'] + Pad2(d.year % 100)) == FormatDate(d)
  {
    var t := Pad2(d.day) + ['/'] + Pad2(d.month) + ['/'] + Pad2(d.year % 100);
    DateCharsJoin(Pad2(d.day), '/', Pad2(d.month), '/', Pad2(d.year % 100));
    CleanTextDateChars(t);
    FirstParseShortYear(d);
  }

  /** The cases of the project's tests. */
  lemma CleanDateIsoExample(s: string)
    requires s == "2024-01-15"
    ensures CleanDate(s) == "15/01/2024"
  {
    DatePieces();
    CleanDateIso(Date(15, 1, 2024));
  }

  lemma CleanDateShortYearExample(s: string)
    requires s == "15/01/24"
    ensures CleanDate(s) == "15/01/2024"
  {
    DatePieces();
    CleanDateShortYear(Date(15, 1, 2024));
  }

  /** The labelled example: `clean_date("Fecha: 15/01/2024 (vencimiento)")` is `"15/01/2024"`. */
  lemma CleanDateLabelExample(s: string)
    requires s == "Fecha: 15/01/2024 (vencimiento)"
    ensures CleanDate(s) == "15/01/2024"
  {
    var x, y := "Fecha: ", " (vencimiento)";
    DatePieces();
    LabelPieces(s, x, y);
    LabelTidy(s);
    CleanDateEmbedded(x, Date(15, 1, 2024), y);
  }

  lemma LabelPieces(s: string, x: string, y: string)
    requires s == "Fecha: 15/01/2024 (vencimiento)" && x == "Fecha: " && y == " (vencimiento)"
    ensures s == x + "15/01/2024" + y
    ensures x != [] && NoDigits(x) && '/' !in x && '-' !in x && '/' !in y && '-' !in y
  {
  }

  lemma LabelTidy(s: string)
    requires s == "Fecha: 15/01/2024 (vencimiento)"
    ensures IsTidy(s)
  {
  }

  /** Text without a date is returned as it is: "No hay fecha aquí". */
  lemma CleanDateNoDateExample(s: string)
    requires s == "No hay fecha aqu\U{ed}"
    ensures CleanDate(s) == s
  {
    NoDateFacts(s);
    CleanDateNoDigits(s);
    CleanTextFixpoint(s);
  }

  lemma NoDateFacts(s: string)
    requires s == "No hay fecha aqu\U{ed}"
    ensures NoDigits(s) && IsTidy(s)
  {
  }

  lemma DatePieces()
    ensures Valid(Date(15, 1, 2024))
    ensures Pad4(2024) + ['-'] + Pad2(1) + ['-'] + Pad2(15) == "2024-01-15"
    ensures Pad2(15) + ['/'] + Pad2(1) + ['/'] + Pad2(2024 % 100) == "15/01/24"
    ensures FormatDate(Date(15, 1, 2024)) == "15/01/2024"
  {
    PadPieces();
  }

  lemma PadPieces()
    ensures Pad4(2024) == "2024" && Pad2(1) == "01" && Pad2(15) == "15" && Pad2(24) == "24"
  {
    assert Pad2(20) == "20";
  }

  lemma {:induction false} CollapseNoDigits(s: string)
    requires NoDigits(s)
    ensures NoDigits(CollapseSpaces(s))
  {
    if s != [] {
      CollapseNoDigits(s[1..]);
    }
  }

  lemma {:induction false} DropControlNoDigits(s: string)
    requires NoDigits(s)
    ensures NoDigits(DropControl(s))
  {
    if s != [] {
      DropControlNoDigits(s[1..]);
    }
  }

  /** `clean_text` brings in no digit. */
  lemma CleanTextNoDigits(s: string)
    requires NoDigits(s)
    ensures NoDigits(CleanText(s))
  {
    if s != [] {
      CollapseNoDigits(s);
      DropControlNoDigits(CollapseSpaces(s));
      StripSlice(DropControl(CollapseSpaces(s)));
    }
  }

  /** Every strptime field needs a digit, so digit-free text parses with no format. */
  lemma ParseNeedsDigits(f: Format, t: string)
    requires NoDigits(t)
    ensures Parse(f, t).None?
  {
    SplitNoDigits(t, f.sep);
  }

  lemma FirstParseNoDigits(t: string)
    requires NoDigits(t)
    ensures FirstParse(Formats, t).None?
  {
    forall k | 0 <= k < |Formats| ensures Parse(Formats[k], t).None? {
      ParseNeedsDigits(Formats[k], t);
    }
    FirstParseAllFail(Formats, t);
  }

  lemma SearchDateNoDigits(t: string)
    requires NoDigits(t)
    ensures SearchDate([Pattern.DayFirst, Pattern.YearFirst], t).None?
  {
    Pattern.SearchNoDigit(Pattern.DayFirst, t, 0);
    Pattern.SearchNoDigit(Pattern.YearFirst, t, 0);
    var ps := [Pattern.DayFirst, Pattern.YearFirst];
    assert ps[1..] == [Pattern.YearFirst] && ps[1..][1..] == [];
    assert SearchDate(ps[1..][1..], t) == None;
    assert SearchDate(ps[1..], t) == SearchDate(ps[1..][1..], t);
    assert SearchDate(ps, t) == SearchDate(ps[1..], t);
  }

  lemma FindDateNoDigits(t: string)
    requires NoDigits(t)
    ensures FindDate(t).None?
  {
    StripSlice(t);
    FirstParseNoDigits(Strip(t));
    SearchDateNoDigits(t);
  }

  /** Text without a digit holds no date: `clean_date` returns it cleaned. */
  lemma CleanDateNoDigits(raw: string)
    requires NoDigits(raw)
    ensures CleanDate(raw) == CleanText(raw)
  {
    CleanTextNoDigits(raw);
    FindDateNoDigits(CleanText(raw));
  }

  /** `DD/MM/YYYY` anywhere in the text is matched by the day-first pattern, two digits per field. */
  lemma DayFirstFindsDate(s: string, i: nat, d: Date)
    requires Valid(d) && i + 10 <= |s| && s[i..i + 10] == FormatDate(d)
    ensures Pattern.MatchAt(Pattern.DayFirst, s, i) == Some(i + 10)
  {
    var w := FormatDate(d);
    var dd, mm := Pad2(d.day), Pad2(d.month);
    assert w == (dd + ['/'] + mm + ['/']) + Pad4(d.year);
    assert s[i..i + 2] == w[..2] == dd;
    assert w[3] == mm[0] && w[4] == mm[1];
    assert s[i + 3..i + 5] == w[3..5] == mm;
    assert s[i + 6..i + 10] == w[6..] == Pad4(d.year);
    assert s[i + 2..i + 3] == ['/'] && s[i + 5..i + 6] == ['/'];
    Pattern.DayFirstMatch(s, i);
  }

  /** The fallback search finds a written date after a digit-free prefix. */
  lemma SearchDateAfterPrefix(x: string, d: Date, y: string)
    requires Valid(d) && NoDigits(x)
    ensures SearchDate([Pattern.DayFirst, Pattern.YearFirst], x + FormatDate(d) + y) == Some(d)
  {
    var t := x + FormatDate(d) + y;
    forall j | 0 <= j < |x| ensures Pattern.MatchAt(Pattern.DayFirst, t, j).None? {
      assert t[j] == x[j];
      Pattern.MatchAtNonDigit(Pattern.DayFirst, t, j);
    }
    Pattern.SearchSkip(Pattern.DayFirst, t, 0, |x|);
    assert t[|x|..|x| + 10] == FormatDate(d);
    DayFirstFindsDate(t, |x|, d);
    assert Pattern.Search(Pattern.DayFirst, t, 0) == Some((|x|, |x| + 10));
    FirstParseFormatted(d);
  }

  /**
    * "Fecha: 15/01/2024 (vencimiento)": a written date inside tidy text, after
    * a label without digits and with no date separators around it, is what
    * `clean_date` returns. The whole text fails every format, so the regex
    * fallback finds it.
    */
  lemma CleanDateEmbedded(x: string, d: Date, y: string)
    requires Valid(d) && x != [] && NoDigits(x)
    requires '/' !in x && '-' !in x && '/' !in y && '-' !in y
    requires IsTidy(x + FormatDate(d) + y)
    ensures CleanDate(x + FormatDate(d) + y) == FormatDate(d)
  {
    var t := x + FormatDate(d) + y;
    CleanTextFixpoint(t);
    StripTrimmed(t);
    FirstParseAfterPrefix(x, d, y);
    SearchDateAfterPrefix(x, d, y);
  }
}
