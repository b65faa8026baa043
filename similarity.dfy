/**
  * `_calcular_similitud`: how alike two provider names are, as the share of
  * positions where their normalised spellings agree, measured against the
  * longer one. Identification accepts a name at 85 % or more.
  */
module Similarity {
  import opened Text
  import DataCleaners

  /** The punctuation `normalizar` deletes: `.,;:!?¿¡()[]{}"'-`. */
  predicate IsPunctuation(c: char) {
    c in {'.', ',', ';', ':', '!', '?', '\U{bf}', '\U{a1}', '(', ')', '[', ']', '{', '}', '"', '\'', '-'}
  }

  function DropPunctuation(s: string): (r: string)
    ensures |r| <= |s|
    ensures forall i :: 0 <= i < |r| ==> !IsPunctuation(r[i])
  {
    if s == [] then [] else (if IsPunctuation(s[0]) then [] else [s[0]]) + DropPunctuation(s[1..])
  }

  /** `normalizar`: lowercase and strip, delete punctuation, collapse whitespace runs, strip again. */
  function Normalize(t: string): string {
    Strip(Collapsed(t))
  }

  /** `normalizar` before its final strip. */
  function Collapsed(t: string): string {
    DataCleaners.CollapseSpaces(DropPunctuation(Strip(Lower(Strip(t)))))
  }

  /** The number of positions, below the shorter length, where the two strings agree. */
  function SamePositions(a: string, b: string): (n: nat)
    ensures n <= |a| && n <= |b|
  {
    if a == [] || b == [] then 0
    else (if a[0] == b[0] then 1 else 0) + SamePositions(a[1..], b[1..])
  }

  /** A percentage kept as the exact fraction `100 * num / den`. */
  datatype Ratio = Ratio(num: nat, den: nat)

  /**
    * `_calcular_similitud(a, b)`: 100 for equal normalised names, otherwise
    * 100 times the agreeing positions over the longer length.
    */
  function Score(a: string, b: string): (r: Ratio)
    ensures r.den > 0
  {
    var t1, t2 := Normalize(a), Normalize(b);
    if t1 == t2 then Ratio(1, 1)
    else
      // `max_len == 0` cannot happen here: two empty names are equal
      Ratio(SamePositions(t1, t2), if |t1| >= |t2| then |t1| else |t2|)
  }

  /** `coincidencia >= 85.0`, compared exactly. */
  predicate NameMatches(a: string, b: string) {
    var r := Score(a, b);
    100 * r.num >= 85 * r.den
  }

  // ---------------------------------------------------------------- lemmas

  lemma {:induction false} DropPunctuationKeeps(s: string)
    requires forall i :: 0 <= i < |s| ==> !IsUpper(s[i])
    ensures forall i :: 0 <= i < |DropPunctuation(s)| ==> !IsUpper(DropPunctuation(s)[i])
  {
    if s != [] {
      DropPunctuationKeeps(s[1..]);
    }
  }

  /** Collapsing whitespace brings in only spaces. */
  lemma {:induction false} CollapseKeeps(s: string)
    requires forall i :: 0 <= i < |s| ==> !IsUpper(s[i]) && !IsPunctuation(s[i])
    ensures forall i :: 0 <= i < |DataCleaners.CollapseSpaces(s)| ==>
                        !IsUpper(DataCleaners.CollapseSpaces(s)[i]) && !IsPunctuation(DataCleaners.CollapseSpaces(s)[i])
  {
    if s != [] {
      CollapseKeeps(s[1..]);
    }
  }

  lemma LowerStripKeeps(t: string)
    ensures forall i :: 0 <= i < |Strip(Lower(Strip(t)))| ==> !IsUpper(Strip(Lower(Strip(t)))[i])
  {
    var l := Lower(Strip(t));
    assert forall i :: 0 <= i < |l| ==> !IsUpper(l[i]);
    StripSlice(l);
  }

  /** The characters of a stripped string all come from the string. */
  lemma StripKeeps(s: string, ok: char -> bool)
    requires forall i :: 0 <= i < |s| ==> ok(s[i])
    ensures forall i :: 0 <= i < |Strip(s)| ==> ok(Strip(s)[i])
  {
    StripSlice(s);
  }

  /** The whitespace-collapsed text before the final strip: no uppercase, no punctuation, only ' ' as whitespace. */
  lemma CollapsedShape(t: string)
    ensures forall i :: 0 <= i < |Collapsed(t)| ==> NormalChar(Collapsed(t)[i])
  {
    var s := Strip(Lower(Strip(t)));
    LowerStripKeeps(t);
    DropPunctuationKeeps(s);
    CollapseKeeps(DropPunctuation(s));
  }

  predicate NormalChar(c: char) {
    !IsPunctuation(c) && !IsUpper(c) && (IsSpace(c) ==> c == ' ')
  }

  /**
    * A normal form has no uppercase ASCII letter and no punctuation, its only
    * whitespace is single spaces, and it neither starts nor ends with one.
    */
  lemma NormalizeShape(t: string)
    ensures forall i :: 0 <= i < |Normalize(t)| ==> NormalChar(Normalize(t)[i])
    ensures Normalize(t) == [] || (!IsSpace(Normalize(t)[0]) && !IsSpace(Normalize(t)[|Normalize(t)| - 1]))
  {
    CollapsedShape(t);
    StripKeeps(Collapsed(t), NormalChar);
  }

  /** The score lies between 0 and 100 %. */
  lemma ScoreBounds(a: string, b: string)
    ensures Score(a, b).num <= Score(a, b).den
  {
  }

  lemma {:induction false} SamePositionsSymmetric(a: string, b: string)
    ensures SamePositions(a, b) == SamePositions(b, a)
  {
    if a != [] && b != [] {
      SamePositionsSymmetric(a[1..], b[1..]);
    }
  }

  /** The score does not depend on the order of the two names. */
  lemma ScoreSymmetric(a: string, b: string)
    ensures Score(a, b) == Score(b, a)
  {
    SamePositionsSymmetric(Normalize(a), Normalize(b));
  }

  /** Full agreement at every position of two strings of the same length makes them equal. */
  lemma {:induction false} AllSameIsEqual(a: string, b: string)
    requires |a| == |b| && SamePositions(a, b) == |a|
    ensures a == b
  {
    if a != [] {
      AllSameIsEqual(a[1..], b[1..]);
    }
  }

  /** The score is 100 % exactly when the normalised names are equal. */
  lemma ScoreFullIff(a: string, b: string)
    ensures Score(a, b).num == Score(a, b).den <==> Normalize(a) == Normalize(b)
  {
    var t1, t2 := Normalize(a), Normalize(b);
    if t1 != t2 && |t1| == |t2| && SamePositions(t1, t2) == |t1| {
      AllSameIsEqual(t1, t2);
    }
  }

  /** Names that differ only in case, punctuation and spacing match. */
  lemma EqualNormalFormsMatch(a: string, b: string)
    requires Normalize(a) == Normalize(b)
    ensures NameMatches(a, b)
  {
  }
}
