/**
  * The CIF value object: a Spanish tax id kept as its sanitised value, which
  * holds only uppercase ASCII letters and digits. Validity is a format check
  * on that value, and equality, `str` and hashing all go through it.
  */
module CifValue {
  import opened Wrappers
  import opened Text

  /** A CIF is nothing but its sanitised value; build one with `MakeCif`. */
  datatype Cif = Cif(value: string)

  predicate IsCifChar(c: char) { IsUpper(c) || IsDigit(c) }

  predicate IsSanitised(v: string) { forall i :: 0 <= i < |v| ==> IsCifChar(v[i]) }

  /** `re.sub(r'[^A-Za-z0-9]', '', s)`: the ASCII letters and digits of `s`, in order. */
  function KeepAlnum(s: string): (r: string)
    ensures |r| <= |s|
    ensures forall i :: 0 <= i < |r| ==> IsAsciiAlnum(r[i])
  {
    if s == [] then [] else (if IsAsciiAlnum(s[0]) then [s[0]] else []) + KeepAlnum(s[1..])
  }

  /**
    * `_sanitize`: `None` becomes the empty value; otherwise the text is
    * stripped, everything but ASCII letters and digits is deleted, and the
    * rest is uppercased.
    */
  function Sanitize(raw: Option<string>): (r: string)
    ensures raw.None? ==> r == []
    ensures IsSanitised(r)
    ensures raw.Some? ==> |r| <= |raw.value|
  {
    match raw
    case None => []
    case Some(s) => Upper(KeepAlnum(Strip(s)))
  }

  /** `CIF(valor)`. */
  function MakeCif(raw: Option<string>): Cif {
    Cif(Sanitize(raw))
  }

  /** `^[A-Z]\d{8}$`. */
  predicate LetterThenDigits(v: string) {
    |v| == 9 && IsUpper(v[0]) && AllDigits(v[1..])
  }

  /** `^\d{8}[A-Z]$`. */
  predicate DigitsThenLetter(v: string) {
    |v| == 9 && AllDigits(v[..8]) && IsUpper(v[8])
  }

  /** `is_valid`: nine characters, and one of the two shapes. */
  predicate IsValid(c: Cif) {
    c.value != [] && |c.value| == 9 && (LetterThenDigits(c.value) || DigitsThenLetter(c.value))
  }

  /** The right-hand side of `==`: another CIF, a plain string, or anything else. */
  datatype Operand = CifOperand(cif: Cif) | StrOperand(text: string) | OtherOperand

  /** `__eq__`: a string operand is sanitised first; any other type is unequal. */
  function Eq(c: Cif, other: Operand): bool {
    match other
    case CifOperand(d) => c.value == d.value
    case StrOperand(s) => c.value == MakeCif(Some(s)).value
    case OtherOperand => false
  }

  /** `__ne__`. */
  function Ne(c: Cif, other: Operand): bool {
    !Eq(c, other)
  }

  /** `__str__`. */
  function ToString(c: Cif): string {
    c.value
  }

  /** `__hash__`: Python's string hash of the value, which the model takes as a parameter. */
  function Hash(c: Cif, strHash: string -> int): int {
    strHash(c.value)
  }

  // ---------------------------------------------------------------- lemmas

  lemma {:induction false} KeepAlnumAppend(a: string, b: string)
    ensures KeepAlnum(a + b) == KeepAlnum(a) + KeepAlnum(b)
    decreases |a|
  {
    if a == [] {
      assert a + b == b;
    } else {
      assert (a + b)[0] == a[0];
      assert (a + b)[1..] == a[1..] + b;
      KeepAlnumAppend(a[1..], b);
    }
  }

  lemma {:induction false} KeepAlnumNone(s: string)
    requires forall i :: 0 <= i < |s| ==> !IsAsciiAlnum(s[i])
    ensures KeepAlnum(s) == []
    decreases |s|
  {
    if s != [] {
      KeepAlnumNone(s[1..]);
    }
  }

  lemma {:induction false} KeepAlnumAll(s: string)
    requires forall i :: 0 <= i < |s| ==> IsAsciiAlnum(s[i])
    ensures KeepAlnum(s) == s
    decreases |s|
  {
    if s != [] {
      KeepAlnumAll(s[1..]);
    }
  }

  lemma {:induction false} KeepAlnumTrimStart(s: string)
    ensures KeepAlnum(TrimStart(s)) == KeepAlnum(s)
    decreases |s|
  {
    if |s| > 0 && IsSpace(s[0]) {
      KeepAlnumTrimStart(s[1..]);
    }
  }

  lemma {:induction false} KeepAlnumTrimEnd(s: string)
    ensures KeepAlnum(TrimEnd(s)) == KeepAlnum(s)
    decreases |s|
  {
    if |s| > 0 && IsSpace(s[|s| - 1]) {
      var n := |s| - 1;
      KeepAlnumTrimEnd(s[..n]);
      assert s == s[..n] + [s[n]];
      KeepAlnumAppend(s[..n], [s[n]]);
    }
  }

  /** Whitespace is not alphanumeric, so the `strip()` before the filter changes nothing. */
  lemma KeepAlnumStrip(s: string)
    ensures KeepAlnum(Strip(s)) == KeepAlnum(s)
  {
    KeepAlnumTrimEnd(TrimStart(s));
    KeepAlnumTrimStart(s);
  }

  /** Sanitising works character by character: it only deletes and uppercases, keeping order. */
  lemma SanitizeAppend(a: string, b: string)
    ensures Sanitize(Some(a + b)) == Sanitize(Some(a)) + Sanitize(Some(b))
  {
    KeepAlnumStrip(a + b);
    KeepAlnumStrip(a);
    KeepAlnumStrip(b);
    KeepAlnumAppend(a, b);
    UpperAppend(KeepAlnum(a), KeepAlnum(b));
    assert Sanitize(Some(a + b)) == Upper(KeepAlnum(a + b));
  }

  /** Characters other than ASCII letters and digits vanish. */
  lemma SanitizeDropsOthers(s: string)
    requires forall i :: 0 <= i < |s| ==> !IsAsciiAlnum(s[i])
    ensures Sanitize(Some(s)) == []
  {
    KeepAlnumStrip(s);
    KeepAlnumNone(s);
  }

  /** Letters and digits are kept, in order, uppercased. */
  lemma SanitizeAlnum(s: string)
    requires forall i :: 0 <= i < |s| ==> IsAsciiAlnum(s[i])
    ensures Sanitize(Some(s)) == Upper(s)
  {
    KeepAlnumStrip(s);
    KeepAlnumAll(s);
  }

  /** A sanitised value sanitises to itself. */
  lemma SanitizeFixpoint(v: string)
    requires IsSanitised(v)
    ensures Sanitize(Some(v)) == v
  {
    SanitizeAlnum(v);
  }

  /** Sanitising twice is sanitising once. */
  lemma SanitizeIdempotent(raw: Option<string>)
    ensures Sanitize(Some(Sanitize(raw))) == Sanitize(raw)
  {
    SanitizeFixpoint(Sanitize(raw));
  }

  /** `CIF(str(c))` is `c` again. */
  lemma ToStringRoundTrip(raw: Option<string>)
    ensures MakeCif(Some(ToString(MakeCif(raw)))) == MakeCif(raw)
  {
    SanitizeIdempotent(raw);
  }

  /** `is_valid` holds exactly for an uppercase letter and eight digits, in either order. */
  lemma IsValidShape(c: Cif)
    ensures IsValid(c) <==>
            exists l: char, ds: string :: IsUpper(l) && |ds| == 8 && AllDigits(ds) &&
                                          (c.value == [l] + ds || c.value == ds + [l])
  {
    var v := c.value;
    if IsValid(c) {
      if LetterThenDigits(v) {
        assert v == [v[0]] + v[1..];
      } else {
        assert v == v[..8] + [v[8]];
      }
    }
    if exists l: char, ds: string :: IsUpper(l) && |ds| == 8 && AllDigits(ds) && (v == [l] + ds || v == ds + [l]) {
      var l: char, ds: string :| IsUpper(l) && |ds| == 8 && AllDigits(ds) && (v == [l] + ds || v == ds + [l]);
      if v == [l] + ds {
        assert v[1..] == ds;
        assert LetterThenDigits(v);
      } else {
        assert v[..8] == ds;
        assert DigitsThenLetter(v);
      }
    }
  }

  /** The two shapes never overlap: a valid CIF has exactly one letter, at one end. */
  lemma ValidShapesExclusive(c: Cif)
    requires IsValid(c)
    ensures LetterThenDigits(c.value) != DigitsThenLetter(c.value)
  {
    var v := c.value;
    if LetterThenDigits(v) {
      assert IsDigit(v[1..][7]);
    }
  }

  /** Comparing with a string is comparing with the CIF built from that string. */
  lemma EqStringIsEqCif(c: Cif, s: string)
    ensures Eq(c, StrOperand(s)) <==> Eq(c, CifOperand(MakeCif(Some(s))))
    ensures Eq(c, StrOperand(s)) <==> c == MakeCif(Some(s))
  {
  }

  /** `==` between CIFs is an equivalence, and `!=` is its negation. */
  lemma EqIsEquivalence(a: Cif, b: Cif, c: Cif)
    ensures Eq(a, CifOperand(a))
    ensures Eq(a, CifOperand(b)) ==> Eq(b, CifOperand(a))
    ensures Eq(a, CifOperand(b)) && Eq(b, CifOperand(c)) ==> Eq(a, CifOperand(c))
    ensures Ne(a, CifOperand(b)) <==> !Eq(a, CifOperand(b))
  {
  }

  /** Equal CIFs hash alike, whatever the string hash. */
  lemma EqualHashes(a: Cif, b: Cif, strHash: string -> int)
    requires Eq(a, CifOperand(b))
    ensures Hash(a, strHash) == Hash(b, strHash)
  {
  }

  /** Two raw ids are equal as CIFs exactly when their letters and digits agree up to case. */
  lemma EqRawIffSameSanitised(x: string, y: string)
    ensures Eq(MakeCif(Some(x)), StrOperand(y)) <==> Sanitize(Some(x)) == Sanitize(Some(y))
    ensures Eq(MakeCif(Some(x)), StrOperand(y)) <==> Eq(MakeCif(Some(y)), StrOperand(x))
  {
  }

  // ---------------------------------------------------------------- examples

  /** A character that is not a letter or digit disappears from between two pieces. */
  lemma KeepAlnumAround(x: string, c: char, y: string)
    requires !IsAsciiAlnum(c)
    ensures KeepAlnum(x + [c] + y) == KeepAlnum(x) + KeepAlnum(y)
  {
    KeepAlnumAppend(x + [c], y);
    KeepAlnumAppend(x, [c]);
    assert KeepAlnum([c]) == [] + KeepAlnum([c][1..]);
  }

  /** Letters and digits broken up and surrounded by separators come out joined and uppercased. */
  lemma SanitizeDecorated(c0: char, x: string, c1: char, y: string, c2: char, z: string, c3: char)
    requires !IsAsciiAlnum(c0) && !IsAsciiAlnum(c1) && !IsAsciiAlnum(c2) && !IsAsciiAlnum(c3)
    requires forall i :: 0 <= i < |x| ==> IsAsciiAlnum(x[i])
    requires forall i :: 0 <= i < |y| ==> IsAsciiAlnum(y[i])
    requires forall i :: 0 <= i < |z| ==> IsAsciiAlnum(z[i])
    ensures Sanitize(Some([c0] + x + [c1] + y + [c2] + z + [c3])) == Upper(x + y + z)
  {
    var w := x + [c1] + y + [c2] + z;
    var s := [c0] + x + [c1] + y + [c2] + z + [c3];
    assert s == [] + [c0] + (w + [c3]);
    KeepAlnumAround([], c0, w + [c3]);
    assert w + [c3] == w + [c3] + [];
    KeepAlnumAround(w, c3, []);
    assert w == (x + [c1] + y) + [c2] + z;
    KeepAlnumAround(x + [c1] + y, c2, z);
    KeepAlnumAround(x, c1, y);
    KeepAlnumAll(x);
    KeepAlnumAll(y);
    KeepAlnumAll(z);
    assert KeepAlnum(s) == x + y + z;
    KeepAlnumStrip(s);
  }

  /** `CIF(" E-98530/876 ").value` is `"E98530876"`. */
  lemma SanitizeMixedExample(s: string)
    requires s == " E-98530/876 "
    ensures Sanitize(Some(s)) == "E98530876"
  {
    var e, a, b := "E", "98530", "876";
    MixedPieces(s, e, a, b);
    SanitizeDecorated(' ', e, '-', a, '/', b, ' ');
  }

  lemma MixedPieces(s: string, e: string, a: string, b: string)
    requires s == " E-98530/876 " && e == "E" && a == "98530" && b == "876"
    ensures s == [' '] + e + ['-'] + a + ['/'] + b + [' ']
    ensures Upper(e + a + b) == "E98530876"
    ensures forall i :: 0 <= i < |e| ==> IsAsciiAlnum(e[i])
    ensures forall i :: 0 <= i < |a| ==> IsAsciiAlnum(a[i])
    ensures forall i :: 0 <= i < |b| ==> IsAsciiAlnum(b[i])
  {
  }

  /** `"123456789"`, `"ABCDEFGHI"`, `"E123"` and `""` are not valid; `"E98530876"` and `"12345678Z"` are. */
  lemma IsValidExamples()
    ensures !IsValid(Cif("123456789")) && !IsValid(Cif("ABCDEFGHI"))
    ensures !IsValid(Cif("E123")) && !IsValid(Cif(""))
    ensures IsValid(Cif("E98530876")) && IsValid(Cif("12345678Z"))
  {
    NineDigitsInvalid();
    NineLettersInvalid();
    ValidExamples();
  }

  lemma NineDigitsInvalid()
    ensures !IsValid(Cif("123456789"))
  {
    assert !IsUpper("123456789"[0]) && !IsUpper("123456789"[8]);
  }

  lemma NineLettersInvalid()
    ensures !IsValid(Cif("ABCDEFGHI"))
  {
    assert !IsDigit("ABCDEFGHI"[1..][0]) && !IsDigit("ABCDEFGHI"[..8][0]);
  }

  lemma ValidExamples()
    ensures IsValid(Cif("E98530876")) && IsValid(Cif("12345678Z"))
  {
  }
}
