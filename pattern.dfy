/**
  * The part of Python's `re.search` that the date fallback uses: a pattern is
  * a sequence of greedy counted repetitions `atom{lo,hi}` (`\d{1,2}`, `[/-]`,
  * `\d{4}`), tried at each start position from the left, backtracking from the
  * longest repetition count to the shortest, exactly as the backtracking
  * engine does for such patterns.
  */
module Pattern {
  import opened Wrappers
  import opened Text

  /** The two character classes of the date patterns: `\d` and `[/-]`. */
  datatype Atom = Digit | DateSep

  predicate AtomMatches(a: Atom, c: char) {
    match a
    case Digit => IsDigit(c)
    case DateSep => c == '/' || c == '-'
  }

  /** `atom{lo,hi}`, greedy. */
  datatype Item = Item(atom: Atom, lo: nat, hi: nat)

  type Regex = seq<Item>

  /** `\d{1,2}[/-]\d{1,2}[/-]\d{4}`: a day-first date. */
  const DayFirst: Regex := [Item(Digit, 1, 2), Item(DateSep, 1, 1), Item(Digit, 1, 2), Item(DateSep, 1, 1), Item(Digit, 4, 4)]

  /** `\d{4}[/-]\d{1,2}[/-]\d{1,2}`: a year-first date. */
  const YearFirst: Regex := [Item(Digit, 4, 4), Item(DateSep, 1, 1), Item(Digit, 1, 2), Item(DateSep, 1, 1), Item(Digit, 1, 2)]

  /** What a regex denotes: `t` is, in full, one of the strings the pattern describes. */
  predicate Matches(p: Regex, t: string)
    decreases |p|
  {
    if p == [] then t == []
    else exists n :: p[0].lo <= n <= p[0].hi && n <= |t| && AllMatch(p[0].atom, t[..n]) && Matches(p[1..], t[n..])
  }

  predicate AllMatch(a: Atom, t: string) {
    forall k :: 0 <= k < |t| ==> AtomMatches(a, t[k])
  }

  lemma AllMatchSlice(a: Atom, t: string, lo: nat, hi: nat)
    requires lo <= hi <= |t| && AllMatch(a, t)
    ensures AllMatch(a, t[lo..hi])
  {
    assert forall k :: 0 <= k < hi - lo ==> t[lo..hi][k] == t[lo + k];
  }

  /** How many characters from `i` on the atom can take, at most `hi`: the greedy first try. */
  function Run(a: Atom, s: string, i: nat, hi: nat): (n: nat)
    requires i <= |s|
    ensures n <= hi && i + n <= |s|
    ensures AllMatch(a, s[i..i + n])
    ensures n < hi && i + n < |s| ==> !AtomMatches(a, s[i + n])
    decreases hi
  {
    if hi == 0 || i == |s| || !AtomMatches(a, s[i]) then 0
    else
      var m := Run(a, s, i + 1, hi - 1);
      AllMatchCons(a, s, i, m);
      1 + m
  }

  lemma AllMatchCons(a: Atom, s: string, i: nat, m: nat)
    requires i + 1 + m <= |s| && AtomMatches(a, s[i]) && AllMatch(a, s[i + 1..i + 1 + m])
    ensures AllMatch(a, s[i..i + 1 + m])
  {
    var t, u := s[i..i + 1 + m], s[i + 1..i + 1 + m];
    forall k | 0 <= k < |t|
      ensures AtomMatches(a, t[k])
    {
      if k > 0 {
        assert t[k] == u[k - 1];
      }
    }
  }

  /** The end of the match the engine reports for `p` anchored at `i`, or `None`. */
  function MatchAt(p: Regex, s: string, i: nat): (r: Option<nat>)
    requires i <= |s|
    ensures r.Some? ==> i <= r.value <= |s|
    decreases |p|, 1, 0
  {
    if p == [] then Some(i) else Backtrack(p, s, i, Run(p[0].atom, s, i, p[0].hi))
  }

  /** Tries `n`, `n-1`, … repetitions of the first item, down to its minimum. */
  function Backtrack(p: Regex, s: string, i: nat, n: nat): (r: Option<nat>)
    requires p != [] && i + n <= |s|
    ensures r.Some? ==> i <= r.value <= |s|
    decreases |p|, 0, n
  {
    if n < p[0].lo then None
    else match MatchAt(p[1..], s, i + n) {
      case Some(e) => Some(e)
      case None => if n == 0 then None else Backtrack(p, s, i, n - 1)
    }
  }

  /** `re.search(p, s)` from position `from`: the span of the leftmost match. */
  function Search(p: Regex, s: string, from: nat): (r: Option<(nat, nat)>)
    requires from <= |s|
    ensures r.Some? ==> from <= r.value.0 <= r.value.1 <= |s|
    decreases |s| - from
  {
    match MatchAt(p, s, from)
    case Some(e) => Some((from, e))
    case None => if from == |s| then None else Search(p, s, from + 1)
  }

  // ---------------------------------------------------------------- lemmas

  /** Whatever the engine reports is a match of the pattern. */
  lemma {:induction false} MatchAtSound(p: Regex, s: string, i: nat)
    requires i <= |s| && MatchAt(p, s, i).Some?
    ensures Matches(p, s[i..MatchAt(p, s, i).value])
    decreases |p|, 1, 0
  {
    if p != [] {
      BacktrackSound(p, s, i, Run(p[0].atom, s, i, p[0].hi));
    }
  }

  lemma {:induction false} BacktrackSound(p: Regex, s: string, i: nat, n: nat)
    requires p != [] && i + n <= |s| && n <= p[0].hi && AllMatch(p[0].atom, s[i..i + n])
    requires Backtrack(p, s, i, n).Some?
    ensures Matches(p, s[i..Backtrack(p, s, i, n).value])
    decreases |p|, 0, n
  {
    match MatchAt(p[1..], s, i + n) {
      case Some(e) =>
        MatchAtSound(p[1..], s, i + n);
        MatchesCons(p, s, i, n, e);
      case None =>
        AllMatchShorter(p[0].atom, s, i, n);
        BacktrackSound(p, s, i, n - 1);
    }
  }

  /** `n` repetitions of the first item followed by a match of the rest match the whole pattern. */
  lemma MatchesCons(p: Regex, s: string, i: nat, n: nat, e: nat)
    requires p != [] && p[0].lo <= n <= p[0].hi && i + n <= e <= |s|
    requires AllMatch(p[0].atom, s[i..i + n]) && Matches(p[1..], s[i + n..e])
    ensures Matches(p, s[i..e])
  {
    var t := s[i..e];
    assert t[..n] == s[i..i + n];
    assert t[n..] == s[i + n..e];
  }

  lemma AllMatchShorter(a: Atom, s: string, i: nat, n: nat)
    requires 0 < n && i + n <= |s| && AllMatch(a, s[i..i + n])
    ensures AllMatch(a, s[i..i + (n - 1)])
  {
    assert s[i..i + (n - 1)] == s[i..i + n][..n - 1];
    AllMatchSlice(a, s[i..i + n], 0, n - 1);
  }

  /** The engine misses no match: if some `s[i..e]` matches, it reports one at `i`. */
  lemma {:induction false} MatchAtComplete(p: Regex, s: string, i: nat, e: nat)
    requires i <= e <= |s| && Matches(p, s[i..e])
    ensures MatchAt(p, s, i).Some?
    decreases |p|, 1, 0
  {
    if p != [] {
      var t := s[i..e];
      var n :| p[0].lo <= n <= p[0].hi && n <= |t| && AllMatch(p[0].atom, t[..n]) && Matches(p[1..], t[n..]);
      assert t[n..] == s[i + n..e];
      assert t[..n] == s[i..i + n];
      RunIsLongest(p[0].atom, s, i, p[0].hi, n);
      BacktrackComplete(p, s, i, Run(p[0].atom, s, i, p[0].hi), n, e);
    }
  }

  lemma {:induction false} BacktrackComplete(p: Regex, s: string, i: nat, m: nat, n: nat, e: nat)
    requires p != [] && i + m <= |s| && p[0].lo <= n <= m && i + n <= e <= |s|
    requires Matches(p[1..], s[i + n..e])
    ensures Backtrack(p, s, i, m).Some?
    decreases |p|, 0, m
  {
    if MatchAt(p[1..], s, i + m).None? {
      if m == n {
        MatchAtComplete(p[1..], s, i + n, e);
      } else {
        BacktrackComplete(p, s, i, m - 1, n, e);
      }
    }
  }

  /** Any number of repetitions that fits is at most the greedy count. */
  lemma {:induction false} RunIsLongest(a: Atom, s: string, i: nat, hi: nat, n: nat)
    requires i + n <= |s| && n <= hi && AllMatch(a, s[i..i + n])
    ensures n <= Run(a, s, i, hi)
    decreases hi
  {
    if n > 0 {
      assert s[i..i + n][0] == s[i];
      assert s[i + 1..i + 1 + (n - 1)] == s[i..i + n][1..n];
      AllMatchSlice(a, s[i..i + n], 1, n);
      RunIsLongest(a, s, i + 1, hi - 1, n - 1);
    }
  }

  /**
    * `re.search` reports the leftmost match: the reported span matches the
    * pattern, and no start position before it begins any match at all.
    */
  lemma {:induction false} SearchLeftmost(p: Regex, s: string, from: nat)
    requires from <= |s|
    ensures match Search(p, s, from)
      case Some((i, e)) =>
        && from <= i <= e <= |s| && Matches(p, s[i..e])
        && forall j, e' :: from <= j < i && j <= e' <= |s| ==> !Matches(p, s[j..e'])
      case None =>
        forall j, e' :: from <= j <= e' <= |s| ==> !Matches(p, s[j..e'])
    decreases |s| - from
  {
    match MatchAt(p, s, from) {
      case Some(e) =>
        MatchAtSound(p, s, from);
      case None =>
        forall e' | from <= e' <= |s| ensures !Matches(p, s[from..e']) {
          if Matches(p, s[from..e']) {
            MatchAtComplete(p, s, from, e');
          }
        }
        if from < |s| {
          SearchLeftmost(p, s, from + 1);
        }
    }
  }

  /** When `hi` matching characters follow `i`, the greedy run takes all of them. */
  lemma RunFull(a: Atom, s: string, i: nat, hi: nat)
    requires i + hi <= |s| && AllMatch(a, s[i..i + hi])
    ensures Run(a, s, i, hi) == hi
  {
    RunIsLongest(a, s, i, hi, hi);
  }

  /** The engine's first try succeeds when the greedy run is long enough and the rest matches after it. */
  lemma MatchAtFirstTry(p: Regex, s: string, i: nat, n: nat, e: nat)
    requires p != [] && i + n <= |s| && Run(p[0].atom, s, i, p[0].hi) == n && p[0].lo <= n
    requires MatchAt(p[1..], s, i + n) == Some(e)
    ensures MatchAt(p, s, i) == Some(e)
  {
  }

  /** A pattern that starts with at least one digit matches nowhere a digit is missing. */
  lemma MatchAtNonDigit(p: Regex, s: string, i: nat)
    requires p != [] && p[0].atom == Digit && p[0].lo >= 1
    requires i <= |s| && (i < |s| ==> !IsDigit(s[i]))
    ensures MatchAt(p, s, i).None?
  {
    assert Run(p[0].atom, s, i, p[0].hi) == 0;
  }

  /** Start positions where nothing matches are skipped. */
  lemma {:induction false} SearchSkip(p: Regex, s: string, from: nat, until: nat)
    requires from <= until <= |s|
    requires forall j :: from <= j < until ==> MatchAt(p, s, j).None?
    ensures Search(p, s, from) == Search(p, s, until)
    decreases until - from
  {
    if from < until {
      SearchSkip(p, s, from + 1, until);
    }
  }

  /** A digit-led pattern finds nothing in text without digits. */
  lemma {:induction false} SearchNoDigit(p: Regex, s: string, from: nat)
    requires p != [] && p[0].atom == Digit && p[0].lo >= 1 && from <= |s|
    requires forall j :: 0 <= j < |s| ==> !IsDigit(s[j])
    ensures Search(p, s, from).None?
    decreases |s| - from
  {
    MatchAtNonDigit(p, s, from);
    if from < |s| {
      SearchNoDigit(p, s, from + 1);
    }
  }

  /** `\d{1,2}[/-]\d{1,2}[/-]\d{4}` matches `DD/MM/YYYY` in full, taking two digits for each field. */
  lemma DayFirstMatch(s: string, i: nat)
    requires i + 10 <= |s|
    requires AllMatch(Digit, s[i..i + 2]) && AllMatch(DateSep, s[i + 2..i + 3])
    requires AllMatch(Digit, s[i + 3..i + 5]) && AllMatch(DateSep, s[i + 5..i + 6])
    requires AllMatch(Digit, s[i + 6..i + 10])
    ensures MatchAt(DayFirst, s, i) == Some(i + 10)
  {
    var p := DayFirst;
    assert p[1..][1..][1..][1..][1..] == [];
    RunFull(Digit, s, i + 6, 4);
    MatchAtFirstTry(p[1..][1..][1..][1..], s, i + 6, 4, i + 10);
    RunFull(DateSep, s, i + 5, 1);
    MatchAtFirstTry(p[1..][1..][1..], s, i + 5, 1, i + 10);
    RunFull(Digit, s, i + 3, 2);
    MatchAtFirstTry(p[1..][1..], s, i + 3, 2, i + 10);
    RunFull(DateSep, s, i + 2, 1);
    MatchAtFirstTry(p[1..], s, i + 2, 1, i + 10);
    RunFull(Digit, s, i, 2);
    MatchAtFirstTry(p, s, i, 2, i + 10);
  }
}
