/**
  * Invoice templates: the nine standard columns, the legacy field-name map,
  * the schema check a template must pass to be loaded, and the file-name stem
  * a template is keyed by.
  */
module Templates {
  import opened Wrappers
  import opened Text
  import opened Json

  /** The nine columns every extracted record carries, in the order the record is built. */
  const StandardColumns: seq<string> :=
    ["CIF", "FechaFactura", "Trimestre", "A\U{f1}o", "FechaVto", "NumFactura", "FechaPago", "Base", "ComPaypal"]

  /** `MAPEO_CAMPOS`: template field names, old spellings included, to standard columns. */
  const FieldNameMap: map<string, string> := map[
    "FechaFactura" := "FechaFactura",
    "FechaVto" := "FechaVto",
    "NumFactura" := "NumFactura",
    "Base" := "Base",
    "num-factura" := "NumFactura",
    "numero-factura" := "NumFactura",
    "fecha-factura" := "FechaFactura",
    "fecha" := "FechaFactura",
    "fecha-vto" := "FechaVto",
    "fecha-vencimiento" := "FechaVto",
    "base" := "Base",
    "base-imponible" := "Base"
  ]

  /** `MAPEO_CAMPOS.get(name, name)`. */
  function MapFieldName(name: string): string {
    if name in FieldNameMap then FieldNameMap[name] else name
  }

  // ---------------------------------------------------------------- validar_plantilla

  /** One entry of `campos`: a dictionary with `nombre`, `coordenadas` and `tipo`, four coordinates. */
  predicate FieldValid(f: Json) {
    && f.JObj?
    && "nombre" in f.fields && "coordenadas" in f.fields && "tipo" in f.fields
    && f.fields["coordenadas"].JArr? && |f.fields["coordenadas"].items| == 4
  }

  /** The loop over `campos`, returning at the first bad entry. */
  function FieldsValid(fs: seq<Json>): (ok: bool)
    ensures ok ==> forall i :: 0 <= i < |fs| ==> FieldValid(fs[i])
  {
    if fs == [] then true
    else if !FieldValid(fs[0]) then false
    else FieldsValid(fs[1..])
  }

  /**
    * `validar_plantilla`: `Some(true)` or `Some(false)` as it returns, `None`
    * where it raises `TypeError` because the document is not a dictionary
    * (`in` on a number, `None` or a boolean; indexing a string or a list that
    * passed the `in` tests).
    */
  function ValidateTemplate(t: Json): Option<bool> {
    match t
    case JObj(m) =>
      if "nombre_proveedor" !in m || "campos" !in m then Some(false)
      else if !m["campos"].JArr? then Some(false)
      else Some(FieldsValid(m["campos"].items))
    case JStr(s) =>
      if Contains(s, "nombre_proveedor") && Contains(s, "campos") then None else Some(false)
    case JArr(items) =>
      if JStr("nombre_proveedor") in items && JStr("campos") in items then None else Some(false)
    case _ => None
  }

  /** The schema, stated on its own: what `validar_plantilla` accepts. */
  predicate WellFormedTemplate(t: Json) {
    && t.JObj?
    && "nombre_proveedor" in t.fields && "campos" in t.fields
    && t.fields["campos"].JArr?
    && forall i :: 0 <= i < |t.fields["campos"].items| ==> FieldValid(t.fields["campos"].items[i])
  }

  /** The template's provider name, and its CIF when it has one, are strings. */
  predicate IdentityIsText(t: Json) {
    && t.JObj? && "nombre_proveedor" in t.fields && t.fields["nombre_proveedor"].JStr?
    && ("cif_proveedor" in t.fields ==> t.fields["cif_proveedor"].JStr?)
  }

  /** The template's `campos` list. */
  function TemplateFields(t: Json): seq<Json>
    requires WellFormedTemplate(t)
  {
    t.fields["campos"].items
  }

  // ---------------------------------------------------------------- file names

  /**
    * `os.path.splitext` on a bare file name: the extension starts at the last
    * dot, unless only dots come before it (`.json` has no extension).
    */
  function SplitExt(name: string): (r: (string, string)) {
    var dot := RFind(name, '.');
    if dot >= 0 && !OnlyDots(name[..dot]) then (name[..dot], name[dot..]) else (name, "")
  }

  predicate OnlyDots(s: string) {
    forall i :: 0 <= i < |s| ==> s[i] == '.'
  }

  /** `os.path.splitext(name)[0]`: the id a template is loaded under. */
  function Stem(name: string): string {
    SplitExt(name).0
  }

  /** `archivo.endswith('.json')`. */
  predicate IsJsonName(name: string) {
    EndsWith(name, ".json")
  }

  // ---------------------------------------------------------------- the loaded table

  /**
    * `plantillas_cargadas`: provider ids with their templates, in the order a
    * Python dictionary keeps them (first insertion).
    */
  type TemplateTable = seq<(string, Json)>

  function Ids(ts: TemplateTable): (ids: seq<string>)
    ensures |ids| == |ts| && forall k :: 0 <= k < |ts| ==> ids[k] == ts[k].0
  {
    if ts == [] then [] else [ts[0].0] + Ids(ts[1..])
  }

  predicate UniqueIds(ts: TemplateTable) {
    forall i, j :: 0 <= i < j < |ts| ==> ts[i].0 != ts[j].0
  }

  predicate WellFormedTable(ts: TemplateTable) {
    forall k :: 0 <= k < |ts| ==> WellFormedTemplate(ts[k].1)
  }

  /** `plantillas_cargadas.get(id)`. */
  function Lookup(ts: TemplateTable, id: string): (r: Option<Json>)
    ensures r.Some? <==> id in Ids(ts)
    ensures r.Some? ==> exists k :: 0 <= k < |ts| && ts[k] == (id, r.value)
    ensures r.Some? && WellFormedTable(ts) ==> WellFormedTemplate(r.value)
  {
    if ts == [] then None
    else if ts[0].0 == id then Some(ts[0].1)
    else
      var r := Lookup(ts[1..], id);
      assert Ids(ts) == [ts[0].0] + Ids(ts[1..]);
      if r.Some? then
        ghost var k :| 0 <= k < |ts[1..]| && ts[1..][k] == (id, r.value);
        assert ts[k + 1] == (id, r.value);
        r
      else r
  }

  /**
    * `plantillas_cargadas[id] = t`: a new id goes at the end, a known one
    * keeps its place and takes the new template.
    */
  function Put(ts: TemplateTable, id: string, t: Json): TemplateTable {
    if ts == [] then [(id, t)]
    else if ts[0].0 == id then [(id, t)] + ts[1..]
    else [ts[0]] + Put(ts[1..], id, t)
  }

  // ---------------------------------------------------------------- lemmas

  /** Every mapped name lands on a standard column; any other name stays as it is. */
  lemma MapFieldNameLands(name: string)
    ensures name in FieldNameMap ==> MapFieldName(name) in StandardColumns
    ensures name !in FieldNameMap ==> MapFieldName(name) == name
  {
    if name in FieldNameMap {
      assert FieldNameMap.Values <= {"FechaFactura", "FechaVto", "NumFactura", "Base"};
    }
  }

  /** The map's targets map to themselves, so mapping twice is mapping once. */
  lemma MapFieldNameIdempotent(name: string)
    ensures MapFieldName(MapFieldName(name)) == MapFieldName(name)
  {
    if name in FieldNameMap {
      var v := FieldNameMap[name];
      assert v in FieldNameMap.Values;
      assert FieldNameMap.Values <= {"FechaFactura", "FechaVto", "NumFactura", "Base"};
      assert v in FieldNameMap && FieldNameMap[v] == v;
    }
  }

  /** The legacy spellings go to their standard columns. */
  lemma LegacyNames()
    ensures MapFieldName("num-factura") == "NumFactura" && MapFieldName("numero-factura") == "NumFactura"
    ensures MapFieldName("fecha") == "FechaFactura" && MapFieldName("fecha-factura") == "FechaFactura"
    ensures MapFieldName("fecha-vto") == "FechaVto" && MapFieldName("fecha-vencimiento") == "FechaVto"
    ensures MapFieldName("base") == "Base" && MapFieldName("base-imponible") == "Base"
  {
  }

  lemma {:induction false} FieldsValidIff(fs: seq<Json>)
    ensures FieldsValid(fs) <==> forall i :: 0 <= i < |fs| ==> FieldValid(fs[i])
  {
    if fs != [] && FieldValid(fs[0]) {
      FieldsValidIff(fs[1..]);
      assert forall i :: 1 <= i < |fs| ==> fs[i] == fs[1..][i - 1];
    }
  }

  /** `validar_plantilla` returns true exactly on the schema; an empty `campos` list passes. */
  lemma ValidateTemplateIff(t: Json)
    ensures ValidateTemplate(t) == Some(true) <==> WellFormedTemplate(t)
    ensures t.JObj? ==> ValidateTemplate(t).Some?
  {
    if t.JObj? && "nombre_proveedor" in t.fields && "campos" in t.fields && t.fields["campos"].JArr? {
      FieldsValidIff(t.fields["campos"].items);
    }
  }

  /** Splitting off the extension loses nothing. */
  lemma SplitExtJoin(name: string)
    ensures SplitExt(name).0 + SplitExt(name).1 == name
  {
    var dot := RFind(name, '.');
    if dot >= 0 && !OnlyDots(name[..dot]) {
      assert name[..dot] + name[dot..] == name;
    }
  }

  /** `proveedor.json` is loaded as `proveedor`. */
  lemma StemOfJsonName(root: string)
    requires !OnlyDots(root)
    ensures Stem(root + ".json") == root
    ensures IsJsonName(root + ".json")
  {
    var name := root + ".json";
    assert name == root + ['.'] + "json";
    RFindAround(root, '.', "json");
    assert name[..|root|] == root;
  }

  /** Two `.json` files with different names get different ids. */
  lemma StemInjective(r1: string, r2: string)
    requires !OnlyDots(r1) && !OnlyDots(r2) && r1 != r2
    ensures Stem(r1 + ".json") != Stem(r2 + ".json")
  {
    StemOfJsonName(r1);
    StemOfJsonName(r2);
  }

  /** Storing a template makes it the one found under its id and leaves every other id's template alone. */
  lemma {:induction false} PutLookup(ts: TemplateTable, id: string, t: Json, other: string)
    ensures Lookup(Put(ts, id, t), id) == Some(t)
    ensures other != id ==> Lookup(Put(ts, id, t), other) == Lookup(ts, other)
  {
    if ts != [] && ts[0].0 != id {
      PutLookup(ts[1..], id, t, other);
      assert Put(ts, id, t)[1..] == Put(ts[1..], id, t);
    } else if ts != [] {
      assert Put(ts, id, t)[1..] == ts[1..];
    }
  }

  /** A known id keeps its place; a new one is appended. */
  lemma {:induction false} PutIds(ts: TemplateTable, id: string, t: Json)
    ensures Ids(Put(ts, id, t)) == if id in Ids(ts) then Ids(ts) else Ids(ts) + [id]
  {
    if ts != [] {
      assert Ids(ts) == [ts[0].0] + Ids(ts[1..]);
      if ts[0].0 != id {
        PutIds(ts[1..], id, t);
        assert Put(ts, id, t) == [ts[0]] + Put(ts[1..], id, t);
        assert Ids(Put(ts, id, t)) == [ts[0].0] + Ids(Put(ts[1..], id, t));
      } else {
        assert Ids(Put(ts, id, t)) == [id] + Ids(ts[1..]);
      }
    }
  }

  /** Ids stay unique, and only well-formed templates are stored into a well-formed table. */
  lemma PutKeepsTable(ts: TemplateTable, id: string, t: Json)
    requires UniqueIds(ts)
    ensures UniqueIds(Put(ts, id, t))
    ensures WellFormedTable(ts) && WellFormedTemplate(t) ==> WellFormedTable(Put(ts, id, t))
  {
    var r := Put(ts, id, t);
    PutIds(ts, id, t);
    var ids := Ids(r);
    forall i, j | 0 <= i < j < |r| ensures r[i].0 != r[j].0 {
      assert ids[i] == r[i].0 && ids[j] == r[j].0;
      if id !in Ids(ts) && j == |ts| {
        assert ids[i] == Ids(ts)[i];
      } else {
        assert ids[i] == Ids(ts)[i] && ids[j] == Ids(ts)[j];
        assert Ids(ts)[i] == ts[i].0 && Ids(ts)[j] == ts[j].0;
      }
    }
    if WellFormedTable(ts) && WellFormedTemplate(t) {
      PutEntries(ts, id, t);
    }
  }

  /** Every entry of the new table is the stored one or an old entry. */
  lemma {:induction false} PutEntries(ts: TemplateTable, id: string, t: Json)
    ensures forall k :: 0 <= k < |Put(ts, id, t)| ==> Put(ts, id, t)[k] == (id, t) || Put(ts, id, t)[k] in ts
  {
    if ts != [] && ts[0].0 != id {
      PutEntries(ts[1..], id, t);
      var r := Put(ts, id, t);
      forall k | 0 <= k < |r| ensures r[k] == (id, t) || r[k] in ts {
        if k > 0 {
          assert r[k] == Put(ts[1..], id, t)[k - 1];
        }
      }
    } else if ts != [] {
      var r := Put(ts, id, t);
      forall k | 0 <= k < |r| ensures r[k] == (id, t) || r[k] in ts {
        if k > 0 {
          assert r[k] == ts[k];
        }
      }
    }
  }
}
