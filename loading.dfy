/**
  * `cargar_plantillas`: which files of the template directory end up in the
  * table, and under which id.
  */
module TemplateLoading {
  import opened Wrappers
  import opened Json
  import opened Templates

  /**
    * One file of the template directory, in listing order: its name, and what
    * `json.load` made of it (`None` when opening or parsing raised).
    */
  type Entry = (string, Option<Json>)

  /** A `.json` file that parsed and passed `validar_plantilla`. */
  predicate Loadable(e: Entry) {
    IsJsonName(e.0) && e.1.Some? && ValidateTemplate(e.1.value) == Some(true)
  }

  /** The table after the loop has gone through `es`, starting from `ts`. */
  function LoadAll(ts: TemplateTable, es: seq<Entry>): TemplateTable
    decreases |es|
  {
    if es == [] then ts
    else
      var prev := LoadAll(ts, es[..|es| - 1]);
      var e := es[|es| - 1];
      if Loadable(e) then Put(prev, Stem(e.0), e.1.value) else prev
  }

  /** `plantillas_encontradas`: how many files were stored, repeated ids counted each time. */
  function LoadedCount(es: seq<Entry>): nat
    decreases |es|
  {
    if es == [] then 0
    else LoadedCount(es[..|es| - 1]) + (if Loadable(es[|es| - 1]) then 1 else 0)
  }

  /** The template of the last loadable file whose stem is `id`: what the table ends up holding for it. */
  function LastWithStem(es: seq<Entry>, id: string): (r: Option<Json>)
    decreases |es|
  {
    if es == [] then None
    else
      var e := es[|es| - 1];
      if Loadable(e) && Stem(e.0) == id then Some(e.1.value) else LastWithStem(es[..|es| - 1], id)
  }

  // ---------------------------------------------------------------- lemmas

  /**
    * Templates are keyed by file stem: an id holds the template of the last
    * loadable file with that stem, or what it held before when there is none;
    * files that are not `.json`, do not parse or fail validation change nothing.
    */
  lemma {:induction false} LoadAllLookup(ts: TemplateTable, es: seq<Entry>, id: string)
    ensures Lookup(LoadAll(ts, es), id) == if LastWithStem(es, id).Some? then LastWithStem(es, id) else Lookup(ts, id)
    decreases |es|
  {
    if es != [] {
      var init, e := es[..|es| - 1], es[|es| - 1];
      LoadAllLookup(ts, init, id);
      if Loadable(e) {
        PutLookup(LoadAll(ts, init), Stem(e.0), e.1.value, id);
      }
    }
  }

  /** Loading keeps ids unique and stores only templates that satisfy the schema. */
  lemma {:induction false} LoadAllKeepsTable(ts: TemplateTable, es: seq<Entry>)
    requires UniqueIds(ts) && WellFormedTable(ts)
    ensures UniqueIds(LoadAll(ts, es)) && WellFormedTable(LoadAll(ts, es))
    decreases |es|
  {
    if es != [] {
      var init, e := es[..|es| - 1], es[|es| - 1];
      LoadAllKeepsTable(ts, init);
      if Loadable(e) {
        ValidateTemplateIff(e.1.value);
        PutKeepsTable(LoadAll(ts, init), Stem(e.0), e.1.value);
      }
    }
  }

  /** `cargar_plantillas` reports success exactly when some file was loadable. */
  lemma {:induction false} LoadedCountPositive(es: seq<Entry>)
    ensures LoadedCount(es) > 0 <==> exists i :: 0 <= i < |es| && Loadable(es[i])
    decreases |es|
  {
    if es != [] {
      var init := es[..|es| - 1];
      LoadedCountPositive(init);
      if LoadedCount(init) > 0 {
        var i :| 0 <= i < |init| && Loadable(init[i]);
        assert es[i] == init[i];
      }
      if exists i :: 0 <= i < |es| && Loadable(es[i]) {
        var i :| 0 <= i < |es| && Loadable(es[i]);
        if i < |init| {
          assert init[i] == es[i];
        }
      }
    }
  }

  /** With no loadable file the table is left as it was. */
  lemma {:induction false} LoadAllSkips(ts: TemplateTable, es: seq<Entry>)
    requires forall i :: 0 <= i < |es| ==> !Loadable(es[i])
    ensures LoadAll(ts, es) == ts
    decreases |es|
  {
    if es != [] {
      LoadAllSkips(ts, es[..|es| - 1]);
    }
  }

  /** `proveedor.json` with a valid template is found under `proveedor`, whatever else the directory holds before it. */
  lemma LoadedUnderStem(ts: TemplateTable, es: seq<Entry>, root: string, t: Json)
    requires !OnlyDots(root) && WellFormedTemplate(t)
    ensures Lookup(LoadAll(ts, es + [(root + ".json", Some(t))]), root) == Some(t)
  {
    var e: Entry := (root + ".json", Some(t));
    StemOfJsonName(root);
    ValidateTemplateIff(t);
    assert (es + [e])[..|es + [e]| - 1] == es;
    PutLookup(LoadAll(ts, es), root, t, root);
  }
}
