/**
  * How `PDFExtractor` cleans one extracted field (src/pdf_extractor.py):
  * `procesar_campo` and its three cleaners `limpiar_texto`, `limpiar_fecha`
  * and `limpiar_numerico`. They repeat `DataCleaner`'s normalisers with one
  * difference: `limpiar_texto` deletes every control character, tab and
  * newline included, BEFORE it collapses whitespace.
  */
module FieldProcessing {
  import opened Wrappers
  import opened Text
  import opened Dates
  import opened Json
  import DataCleaners

  /** `[\x00-\x1f\x7f-\x9f]`: unlike `clean_text`'s class, this one holds tab and newline. */
  predicate IsControlChar(c: char) {
    c <= '\U{1f}' || '\U{7f}' <= c <= '\U{9f}'
  }

  /** `re.sub(r'[\x00-\x1f\x7f-\x9f]', '', s)`. */
  function DropControls(s: string): (r: string)
    ensures |r| <= |s|
    ensures forall i :: 0 <= i < |r| ==> !IsControlChar(r[i])
  {
    if s == [] then [] else (if IsControlChar(s[0]) then [] else [s[0]]) + DropControls(s[1..])
  }

  /** `limpiar_texto`: delete control characters, collapse whitespace runs to one space, strip. */
  function CleanFieldText(t: string): string {
    Strip(DataCleaners.CollapseSpaces(DropControls(t)))
  }

  /**
    * `limpiar_fecha`: the text cleaned as above, then `DD/MM/YYYY` for the
    * date the formats or the fallback patterns find in it, else the cleaned
    * text. Unlike `clean_date` it does not return early on empty text, which
    * changes nothing: empty text holds no date.
    */
  function CleanFieldDate(t: string): string {
    var u := CleanFieldText(t);
    match DataCleaners.FindDate(u)
    case Some(d) => FormatDate(d)
    case None => u
  }

  /**
    * `limpiar_numerico`: keep `[\d.,+-]`, settle the decimal separator, and
    * return that if `float()` reads it, else the stripped input. It has no
    * guard for empty input; `float('')` fails and the stripped input is "".
    */
  function CleanFieldNumber(t: string): string {
    var u := DataCleaners.NormalizeSeparators(DataCleaners.KeepNumeric(t));
    if DataCleaners.IsFloatLiteral(u) then u else Strip(t)
  }

  /**
    * `procesar_campo(texto_crudo, tipo_campo)`: "" when the crop gave no text
    * or empty text; otherwise the stripped text through the cleaner its type
    * names, `"numerico"`, `"fecha"`, or text for any other value.
    */
  function ProcessField(raw: Option<string>, kind: Json): string {
    if raw.None? || raw.value == [] then "" else CleanAs(Strip(raw.value), kind)
  }

  /** The cleaner a field type names: `"numerico"`, `"fecha"`, or text for any other value. */
  function CleanAs(t: string, kind: Json): string {
    if kind == JStr("numerico") then CleanFieldNumber(t)
    else if kind == JStr("fecha") then CleanFieldDate(t)
    else CleanFieldText(t)
  }

  /** Text as `limpiar_texto` leaves it. */
  ghost predicate IsCleanField(s: string) {
    && (forall i :: 0 <= i < |s| ==> !IsControlChar(s[i]) && (IsSpace(s[i]) ==> s[i] == ' '))
    && DataCleaners.SingleSpaced(s)
    && (s == [] || (s[0] != ' ' && s[|s| - 1] != ' '))
  }

  // ---------------------------------------------------------------- lemmas

  lemma {:induction false} DropControlsNone(s: string)
    requires forall i :: 0 <= i < |s| ==> !IsControlChar(s[i])
    ensures DropControls(s) == s
  {
    if s != [] {
      DropControlsNone(s[1..]);
      assert s == [s[0]] + s[1..];
    }
  }

  lemma {:induction false} DropControlsAppend(a: string, b: string)
    ensures DropControls(a + b) == DropControls(a) + DropControls(b)
  {
    if a == [] {
      assert a + b == b;
    } else {
      assert (a + b)[0] == a[0] && (a + b)[1..] == a[1..] + b;
      DropControlsAppend(a[1..], b);
    }
  }

  /** Collapsing whitespace brings in only spaces, which are not control characters. */
  lemma {:induction false} CollapseKeepsNoControls(s: string)
    requires forall i :: 0 <= i < |s| ==> !IsControlChar(s[i])
    ensures forall i :: 0 <= i < |DataCleaners.CollapseSpaces(s)| ==> !IsControlChar(DataCleaners.CollapseSpaces(s)[i])
  {
    if s != [] {
      CollapseKeepsNoControls(s[1..]);
    }
  }

  /** A slice of single-spaced text is single-spaced. */
  lemma SliceSingleSpaced(s: string, i: int, j: int)
    requires 0 <= i <= j <= |s| && DataCleaners.SingleSpaced(s)
    ensures DataCleaners.SingleSpaced(s[i..j])
  {
    var r := s[i..j];
    forall a, b | 0 <= a < b < |r| && b == a + 1 ensures r[a] != ' ' || r[b] != ' ' {
      assert r[a] == s[i + a] && r[b] == s[i + b];
    }
  }

  /**
    * `limpiar_texto` leaves no control character, tab or newline, only
    * single spaces between words, and nothing to strip.
    */
  lemma CleanFieldTextShape(t: string)
    ensures IsCleanField(CleanFieldText(t))
  {
    var c := DataCleaners.CollapseSpaces(DropControls(t));
    CollapseKeepsNoControls(DropControls(t));
    assert forall i :: 0 <= i < |c| ==> CleanChar(c[i]);
    StripCleanField(c);
  }

  /** What `limpiar_texto` lets through: no control character, and no whitespace but the space. */
  predicate CleanChar(c: char) {
    !IsControlChar(c) && (IsSpace(c) ==> c == ' ')
  }

  lemma StripCleanField(c: string)
    requires forall i :: 0 <= i < |c| ==> CleanChar(c[i])
    requires DataCleaners.SingleSpaced(c)
    ensures IsCleanField(Strip(c))
  {
    StripKeepsCleanChars(c);
    StripKeepsSingleSpaced(c);
  }

  lemma StripKeepsCleanChars(c: string)
    requires forall i :: 0 <= i < |c| ==> CleanChar(c[i])
    ensures forall i :: 0 <= i < |Strip(c)| ==> CleanChar(Strip(c)[i])
  {
    StripSlice(c);
  }

  lemma StripKeepsSingleSpaced(c: string)
    requires DataCleaners.SingleSpaced(c)
    ensures DataCleaners.SingleSpaced(Strip(c))
  {
    StripSlice(c);
    var i, j :| 0 <= i <= j <= |c| && Strip(c) == c[i..j];
    SliceSingleSpaced(c, i, j);
  }

  /** Cleaned text is left exactly as it is. */
  lemma CleanFieldTextFixpoint(s: string)
    requires IsCleanField(s)
    ensures CleanFieldText(s) == s
  {
    DropControlsNone(s);
    DataCleaners.CollapseSingleSpaced(s);
    StripTrimmed(s);
  }

  /** Cleaning twice is cleaning once. */
  lemma CleanFieldTextIdempotent(t: string)
    ensures CleanFieldText(CleanFieldText(t)) == CleanFieldText(t)
  {
    CleanFieldTextShape(t);
    CleanFieldTextFixpoint(CleanFieldText(t));
  }

  /**
    * A newline between two words disappears here, where `clean_text` turns it
    * into a space: deleting comes before collapsing.
    */
  lemma NewlineJoinsWords(w1: string, w2: string)
    requires DataCleaners.AllVisible(w1) && DataCleaners.AllVisible(w2) && w1 != [] && w2 != []
    ensures CleanFieldText(w1 + ['\n'] + w2) == w1 + w2
    ensures DataCleaners.CleanText(w1 + ['\n'] + w2) == w1 + [' '] + w2
  {
    NewlineDropped(w1, w2);
    NewlineCollapsed(w1, w2);
  }

  lemma NewlineDropped(w1: string, w2: string)
    requires DataCleaners.AllVisible(w1) && DataCleaners.AllVisible(w2) && w1 != [] && w2 != []
    ensures CleanFieldText(w1 + ['\n'] + w2) == w1 + w2
  {
    var w := w1 + w2;
    NewlineDeleted(w1, w2);
    VisibleJoin(w1, w2);
    DataCleaners.CollapseNoSpacePrefix(w, []);
    assert w + [] == w;
    StripNoSpace(w);
  }

  lemma NewlineDeleted(w1: string, w2: string)
    requires DataCleaners.AllVisible(w1) && DataCleaners.AllVisible(w2)
    ensures DropControls(w1 + ['\n'] + w2) == w1 + w2
  {
    var nw := ['\n'] + w2;
    assert w1 + ['\n'] + w2 == w1 + nw;
    DropControlsAppend(w1, nw);
    DropControlsHead(w2);
    DropControlsNone(w1);
    DropControlsNone(w2);
  }

  lemma DropControlsHead(w: string)
    ensures DropControls(['\n'] + w) == DropControls(w)
  {
    var nw := ['\n'] + w;
    assert nw[0] == '\n' && nw[1..] == w;
  }

  lemma VisibleJoin(w1: string, w2: string)
    requires DataCleaners.AllVisible(w1) && DataCleaners.AllVisible(w2)
    ensures forall i :: 0 <= i < |w1 + w2| ==> !IsSpace((w1 + w2)[i])
  {
    var w := w1 + w2;
    forall i | 0 <= i < |w| ensures !IsSpace(w[i]) {
      if i < |w1| { assert w[i] == w1[i]; } else { assert w[i] == w2[i - |w1|]; }
    }
  }

  lemma NewlineCollapsed(w1: string, w2: string)
    requires DataCleaners.AllVisible(w1) && DataCleaners.AllVisible(w2) && w1 != [] && w2 != []
    ensures DataCleaners.CleanText(w1 + ['\n'] + w2) == w1 + [' '] + w2
  {
    var w := w1 + [' '] + w2;
    DataCleaners.CollapseOneSpace(w1, '\n', w2);
    DataCleaners.NoControlJoin(w1, ' ', w2);
    DataCleaners.DropControlNone(w);
    assert w[0] == w1[0] && w[|w| - 1] == w2[|w2| - 1];
    StripTrimmed(w);
  }

  /** `limpiar_numerico` and `clean_numeric` agree on every input, the empty one included. */
  lemma CleanFieldNumberAgrees(t: string)
    ensures CleanFieldNumber(t) == DataCleaners.CleanNumeric(t)
  {
    if t != [] && DataCleaners.KeepNumeric(t) == [] {
      assert !DataCleaners.IsFloatLiteral([]);
    }
  }

  /** `limpiar_fecha` returns a `DD/MM/YYYY` date or the text as `limpiar_texto` cleans it. */
  lemma CleanFieldDateCases(t: string)
    ensures CleanFieldDate(t) == CleanFieldText(t) || DataCleaners.IsCanonicalDate(CleanFieldDate(t))
  {
    var found := DataCleaners.FindDate(CleanFieldText(t));
    if found.Some? {
      assert Valid(found.value) && CleanFieldDate(t) == FormatDate(found.value);
    }
  }

  /** Whitespace alone is an empty field, whatever its type. */
  lemma ProcessFieldBlank(raw: string, kind: Json)
    requires forall i :: 0 <= i < |raw| ==> IsSpace(raw[i])
    ensures ProcessField(Some(raw), kind) == ""
  {
    if raw != [] {
      assert Strip(raw) == [] by {
        assert TrimStart(raw) == [];
      }
      CleanAsEmpty(kind);
    }
  }

  /** Each cleaner maps empty text to empty text. */
  lemma CleanAsEmpty(kind: Json)
    ensures CleanAs([], kind) == []
  {
    if kind == JStr("numerico") {
      assert DataCleaners.KeepNumeric([]) == [];
      assert !DataCleaners.IsFloatLiteral([]);
    } else if kind == JStr("fecha") {
      assert CleanFieldText([]) == [];
      assert DataCleaners.FindDate([]) == None by {
        DataCleaners.FindDateNoDigits([]);
      }
    } else {
      assert CleanFieldText([]) == [];
    }
  }

  /** A field the crop gave no text for, or empty text, is "". */
  lemma ProcessFieldEmpty(raw: Option<string>, kind: Json)
    requires raw.None? || raw == Some("")
    ensures ProcessField(raw, kind) == ""
  {
  }

  /**
    * A `numerico` field is the stripped text through `clean_numeric`: a
    * number `float()` reads, or the stripped text itself.
    */
  lemma ProcessFieldNumber(raw: string)
    requires raw != []
    ensures var r := ProcessField(Some(raw), JStr("numerico"));
      r == DataCleaners.CleanNumeric(Strip(raw)) && (r == Strip(raw) || DataCleaners.IsFloatLiteral(r))
  {
    var t := Strip(raw);
    assert CleanAs(t, JStr("numerico")) == CleanFieldNumber(t);
    CleanFieldNumberAgrees(t);
    DataCleaners.CleanNumericCases(t);
  }

  /** A `fecha` field is a `DD/MM/YYYY` date or the cleaned text. */
  lemma ProcessFieldDate(raw: string)
    requires raw != []
    ensures var r := ProcessField(Some(raw), JStr("fecha"));
      r == CleanFieldText(Strip(raw)) || DataCleaners.IsCanonicalDate(r)
  {
    assert ProcessField(Some(raw), JStr("fecha")) == CleanAs(Strip(raw), JStr("fecha"));
    CleanAsDate(Strip(raw));
  }

  lemma CleanAsDate(t: string)
    ensures CleanAs(t, JStr("fecha")) == CleanFieldText(t) || DataCleaners.IsCanonicalDate(CleanAs(t, JStr("fecha")))
  {
    assert CleanAs(t, JStr("fecha")) == CleanFieldDate(t) by {
      assert JStr("fecha") != JStr("numerico");
    }
    CleanFieldDateCases(t);
  }

  /** A field of any other type is cleaned text. */
  lemma ProcessFieldText(raw: string, kind: Json)
    requires raw != [] && kind != JStr("numerico") && kind != JStr("fecha")
    ensures ProcessField(Some(raw), kind) == CleanFieldText(Strip(raw))
    ensures IsCleanField(ProcessField(Some(raw), kind))
  {
    ProcessFieldStripped(raw, kind);
    CleanAsText(Strip(raw), kind);
    CleanFieldTextShape(Strip(raw));
  }

  /** Text that is not empty is stripped and handed to the cleaner of its type. */
  lemma ProcessFieldStripped(raw: string, kind: Json)
    requires raw != []
    ensures ProcessField(Some(raw), kind) == CleanAs(Strip(raw), kind)
  {
  }

  lemma CleanAsText(t: string, kind: Json)
    requires kind != JStr("numerico") && kind != JStr("fecha")
    ensures CleanAs(t, kind) == CleanFieldText(t)
  {
  }
}
