/**
  * `obtener_estadisticas`: counts over the records of the last run, overall
  * and per provider id.
  */
module Statistics {
  import opened Wrappers
  import opened Json
  import opened Extraction
  import Directory

  /** `{'total', 'exitosos', 'errores'}` for one provider id. */
  datatype ProviderCounts = ProviderCounts(total: nat, ok: nat, errors: nat)

  /**
    * The statistics dictionary without `tasa_exito`. `successes` is an `int`:
    * as written it can be negative (see `NegativeSuccesses`).
    */
  datatype Stats = Stats(total: nat, successes: int, duplicates: nat, errors: nat,
                         providers: map<Json, ProviderCounts>, templates: nat)

  /** `'_Error' in r`. */
  predicate HasError(r: Record) { "_Error" in r }

  /** `r.get('_Duplicado', False)`, as a truth value. */
  predicate IsDuplicate(r: Record) { Truthy(Get(r, "_Duplicado", JBool(false))) }

  /** `r.get('_Proveedor_ID', 'DESCONOCIDO')`. */
  function ProviderOf(r: Record): Json { Get(r, "_Proveedor_ID", JStr("DESCONOCIDO")) }

  function CountErrors(rs: seq<Record>): (n: nat)
    ensures n <= |rs|
    decreases |rs|
  {
    if rs == [] then 0 else CountErrors(rs[..|rs| - 1]) + (if HasError(rs[|rs| - 1]) then 1 else 0)
  }

  function CountDuplicates(rs: seq<Record>): (n: nat)
    ensures n <= |rs|
    decreases |rs|
  {
    if rs == [] then 0 else CountDuplicates(rs[..|rs| - 1]) + (if IsDuplicate(rs[|rs| - 1]) then 1 else 0)
  }

  /** The per-provider counts after one more record. */
  function Bump(tally: map<Json, ProviderCounts>, r: Record): map<Json, ProviderCounts> {
    var p := ProviderOf(r);
    var c := if p in tally then tally[p] else ProviderCounts(0, 0, 0);
    tally[p := if HasError(r) then ProviderCounts(c.total + 1, c.ok, c.errors + 1)
                else ProviderCounts(c.total + 1, c.ok + 1, c.errors)]
  }

  /** `proveedores` after the records `rs`. */
  function Tally(rs: seq<Record>): map<Json, ProviderCounts>
    decreases |rs|
  {
    if rs == [] then map[] else Bump(Tally(rs[..|rs| - 1]), rs[|rs| - 1])
  }

  /**
    * `obtener_estadisticas()` as written: `None` for `{}` when there are no
    * results; successes are the total minus the errors minus the duplicates.
    */
  function Summarize(rs: seq<Record>, templates: nat): Option<Stats> {
    if rs == [] then None
    else
      var e, d := CountErrors(rs), CountDuplicates(rs);
      Some(Stats(|rs|, |rs| - e - d, d, e, Tally(rs), templates))
  }

  // ---------------------------------------------------------------- the corrected count

  /** The records that are neither errors nor duplicates: what `facturas_exitosas` means. */
  function CountClean(rs: seq<Record>): (n: nat)
    ensures n <= |rs|
    decreases |rs|
  {
    if rs == [] then 0
    else CountClean(rs[..|rs| - 1]) + (if !HasError(rs[|rs| - 1]) && !IsDuplicate(rs[|rs| - 1]) then 1 else 0)
  }

  /** Records counted both as errors and as duplicates. */
  function CountBoth(rs: seq<Record>): (n: nat)
    ensures n <= |rs|
    decreases |rs|
  {
    if rs == [] then 0
    else CountBoth(rs[..|rs| - 1]) + (if HasError(rs[|rs| - 1]) && IsDuplicate(rs[|rs| - 1]) then 1 else 0)
  }

  /** The statistics with successes counted as the records that are neither errors nor duplicates. */
  function SummarizeCorrected(rs: seq<Record>, templates: nat): Option<Stats> {
    if rs == [] then None
    else Some(Stats(|rs|, CountClean(rs), CountDuplicates(rs), CountErrors(rs), Tally(rs), templates))
  }

  // ---------------------------------------------------------------- lemmas

  /** Every record is clean, an error, a duplicate, or both: the four counts partition the total. */
  lemma {:induction false} CountPartition(rs: seq<Record>)
    ensures CountClean(rs) + CountErrors(rs) + CountDuplicates(rs) == |rs| + CountBoth(rs)
    decreases |rs|
  {
    if rs != [] {
      CountPartition(rs[..|rs| - 1]);
    }
  }

  /**
    * The corrected successes are never negative, and they are what is left
    * of the total once errors and duplicates are taken out, each record once.
    */
  lemma CorrectedSuccesses(rs: seq<Record>, templates: nat)
    requires rs != []
    ensures var s := SummarizeCorrected(rs, templates).value;
      s.successes >= 0 && s.successes + s.errors + s.duplicates - CountBoth(rs) == s.total
  {
    CountPartition(rs);
  }

  /** The formula as written gives the intended count exactly when no record is both an error and a duplicate. */
  lemma AsWrittenAgreesIff(rs: seq<Record>, templates: nat)
    requires rs != []
    ensures Summarize(rs, templates) == SummarizeCorrected(rs, templates) <==> CountBoth(rs) == 0
  {
    CountPartition(rs);
  }

  /**
    * Two failed extractions of the same provider share a duplicate key; the
    * second is then counted as an error and as a duplicate, and the
    * successes as written come out negative.
    */
  lemma NegativeSuccesses(r1: Record, r2: Record)
    requires r1 == map["_Error" := JStr("fallo"), "_Duplicado" := JBool(false)]
    requires r2 == map["_Error" := JStr("fallo"), "_Duplicado" := JBool(true)]
    ensures Summarize([r1, r2], 1).value.successes == -1
    ensures SummarizeCorrected([r1, r2], 1).value.successes == 0
  {
    var rs := [r1, r2];
    assert rs[..1] == [r1] && [r1][..0] == [];
    assert HasError(r1) && HasError(r2) && !IsDuplicate(r1) && IsDuplicate(r2);
    assert CountErrors([r1]) == 1 && CountDuplicates([r1]) == 0 && CountClean([r1]) == 0;
    assert CountErrors(rs) == 2 && CountDuplicates(rs) == 1 && CountClean(rs) == 0;
  }

  /**
    * The run itself produces such records: an invoice extracted with an error
    * whose key an earlier extracted invoice already had is kept with its
    * error and marked as a duplicate.
    */
  lemma FailedDuplicateCountsTwice(s: Directory.Setup, names: seq<string>, exs: seq<Directory.Examined>, i: int, j: int)
    requires |names| == |exs| && 0 <= j < i < |exs|
    requires exs[i].Extracted? && exs[j].Extracted? && Directory.KeyOf(exs[j].rec) == Directory.KeyOf(exs[i].rec)
    requires HasError(exs[i].rec)
    ensures |Directory.Results(s, names, exs)| == |exs|
    ensures HasError(Directory.Results(s, names, exs)[i]) && IsDuplicate(Directory.Results(s, names, exs)[i])
  {
    Directory.ResultsDuplicateIff(s, names, exs, i);
    Directory.ExtractedKept(s, names, exs, i, "_Error");
  }

  /** Each provider's successes and errors add up to its total, and only providers of some record appear. */
  lemma {:induction false} TallyConsistent(rs: seq<Record>)
    ensures forall p :: p in Tally(rs) ==> Tally(rs)[p].ok + Tally(rs)[p].errors == Tally(rs)[p].total
    ensures forall p :: p in Tally(rs) <==> exists i :: 0 <= i < |rs| && ProviderOf(rs[i]) == p
    decreases |rs|
  {
    if rs != [] {
      var init := rs[..|rs| - 1];
      TallyConsistent(init);
      forall p ensures p in Tally(rs) <==> exists i :: 0 <= i < |rs| && ProviderOf(rs[i]) == p {
        if exists i :: 0 <= i < |init| && ProviderOf(init[i]) == p {
          var i :| 0 <= i < |init| && ProviderOf(init[i]) == p;
          assert rs[i] == init[i];
        }
        if exists i :: 0 <= i < |rs| && ProviderOf(rs[i]) == p {
          var i :| 0 <= i < |rs| && ProviderOf(rs[i]) == p;
          if i < |init| {
            assert init[i] == rs[i];
          }
        }
      }
    }
  }

  /** A provider's total is the number of its records, and its errors the number of those with `_Error`. */
  lemma {:induction false} TallyCounts(rs: seq<Record>, p: Json)
    ensures p in Tally(rs) ==> Tally(rs)[p].total == CountFor(rs, p) && Tally(rs)[p].errors == CountErrorsFor(rs, p)
    ensures p !in Tally(rs) ==> CountFor(rs, p) == 0 && CountErrorsFor(rs, p) == 0
    decreases |rs|
  {
    if rs != [] {
      var init, r := rs[..|rs| - 1], rs[|rs| - 1];
      TallyCounts(init, p);
      assert ProviderOf(r) in Tally(rs);
      if ProviderOf(r) != p {
        assert p in Tally(rs) <==> p in Tally(init);
        assert p in Tally(rs) ==> Tally(rs)[p] == Tally(init)[p];
      }
    }
  }

  function CountFor(rs: seq<Record>, p: Json): nat
    decreases |rs|
  {
    if rs == [] then 0 else CountFor(rs[..|rs| - 1], p) + (if ProviderOf(rs[|rs| - 1]) == p then 1 else 0)
  }

  function CountErrorsFor(rs: seq<Record>, p: Json): nat
    decreases |rs|
  {
    if rs == [] then 0
    else CountErrorsFor(rs[..|rs| - 1], p) + (if ProviderOf(rs[|rs| - 1]) == p && HasError(rs[|rs| - 1]) then 1 else 0)
  }
}
