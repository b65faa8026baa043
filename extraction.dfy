/**
  * `extraer_datos_factura`: the record one invoice yields under its
  * template. Every template field is cropped from the first page, cleaned,
  * and stored under its standard column, or under `_` and its own name.
  */
module Extraction {
  import opened Wrappers
  import opened Json
  import opened Pdf
  import opened Templates
  import FieldProcessing

  /** One extracted invoice: column or metadata name to value. */
  type Record = map<string, Json>

  const NoPagesMessage: string := "PDF sin p\U{e1}ginas"
  const NoFieldMessage: string :=
    "No se pudo extraer ning\U{fa}n campo v\U{e1}lido - posible error en plantilla o PDF no compatible"
  const ErrorValue: string := "ERROR"

  function UnknownTemplateMessage(id: string): string {
    "Plantilla no encontrada para proveedor: " + id
  }

  /**
    * The record before any field is read: the nine standard columns, the CIF
    * from the template, the quarter and year the extractor was given, and the
    * file name, provider name and processing time as metadata.
    */
  function InitialRecord(t: Json, quarter: string, year: string, fileName: string, now: string): Record
    requires t.JObj?
  {
    map[
      "CIF" := Get(t.fields, "cif_proveedor", JStr("")),
      "FechaFactura" := JStr(""),
      "Trimestre" := JStr(quarter),
      "A\U{f1}o" := JStr(year),
      "FechaVto" := JStr(""),
      "NumFactura" := JStr(""),
      "FechaPago" := JStr(""),
      "Base" := JStr(""),
      "ComPaypal" := JStr(""),
      "_Archivo" := JStr(fileName),
      "_Proveedor_Nombre" := Get(t.fields, "nombre_proveedor", JStr("")),
      "_Fecha_Procesamiento" := JStr(now)
    ]
  }

  /**
    * The state of the field loop: the record so far and
    * `campos_extraidos_exitosamente`, or the record as it stood when an
    * exception escaped the loop, with the exception's text.
    */
  datatype Progress = Progress(rec: Record, successes: nat) | Aborted(rec: Record, message: string)

  /** The text handed to `procesar_campo`: `None` when the crop has no text. */
  function CropRaw(e: Extract): Option<string>
    requires !e.Raises?
  {
    if e.NoText? then None else Some(e.text)
  }

  /** `f'_{nombre}'`: where a field that is not a column of the record is kept. */
  function AuxKey(name: Json): string
    requires Hashable(name)
  {
    "_" + ScalarText(name)
  }

  /** The field's column, `MAPEO_CAMPOS.get(nombre, nombre)`, when the record already has it. */
  predicate HasColumn(rec: Record, name: Json) {
    name.JStr? && MapFieldName(name.s) in rec
  }

  /**
    * One pass of the field loop. A name that cannot be a dictionary key
    * raises in the handler too, which ends the loop. A crop that raises sets
    * an existing column to `ERROR`. Otherwise the cleaned value replaces an
    * existing column only when it is not empty, and that counts as a
    * success; a field without a column is stored under `_` and its name.
    */
  function FieldStep(rec: Record, successes: nat, f: Json, page: Page): Progress
    requires FieldValid(f)
  {
    var name := f.fields["nombre"];
    if !Hashable(name) then Aborted(rec, UnhashableMessage(name))
    else
      var e := page.crop(f.fields["coordenadas"].items);
      if e.Raises? then
        if HasColumn(rec, name) then Progress(rec[MapFieldName(name.s) := JStr(ErrorValue)], successes)
        else Progress(rec, successes)
      else
        var v := FieldProcessing.ProcessField(CropRaw(e), f.fields["tipo"]);
        if HasColumn(rec, name) then
          if v != [] then Progress(rec[MapFieldName(name.s) := JStr(v)], successes + 1)
          else Progress(rec, successes)
        else Progress(rec[AuxKey(name) := JStr(v)], successes)
  }

  /** The field loop over `fs`, starting from `start`. */
  function RunFields(start: Record, fs: seq<Json>, page: Page): Progress
    requires forall k :: 0 <= k < |fs| ==> FieldValid(fs[k])
    decreases |fs|
  {
    if fs == [] then Progress(start, 0)
    else match RunFields(start, fs[..|fs| - 1], page)
      case Aborted(r, m) => Aborted(r, m)
      case Progress(r, n) => FieldStep(r, n, fs[|fs| - 1], page)
  }

  /**
    * `extraer_datos_factura(ruta_pdf, proveedor_id)`: an error for an id with
    * no template; otherwise the record, with `_Error` set when the PDF cannot
    * be opened, has no page, the field loop raises, or no field succeeded.
    */
  function ExtractInvoice(ts: TemplateTable, quarter: string, year: string, id: string, fileName: string,
                   doc: Document, now: string): Result<Record>
    requires WellFormedTable(ts)
  {
    match Lookup(ts, id)
    case None => Err(UnknownTemplateMessage(id))
    case Some(t) =>
      LookupWellFormed(ts, id);
      Ok(ExtractWith(t, InitialRecord(t, quarter, year, fileName, now), doc))
  }

  /** What extraction makes of the initial record `rec` under template `t`. */
  function ExtractWith(t: Json, rec: Record, doc: Document): Record
    requires WellFormedTemplate(t)
  {
    if doc.Unreadable? then rec["_Error" := JStr(doc.message)]
    else if doc.pages == [] then rec["_Error" := JStr(NoPagesMessage)]
    else match RunFields(rec, TemplateFields(t), doc.pages[0])
      case Aborted(r, m) => r["_Error" := JStr(m)]
      case Progress(r, n) => if n == 0 then r["_Error" := JStr(NoFieldMessage)] else r
  }

  // ---------------------------------------------------------------- lemmas

  lemma LookupWellFormed(ts: TemplateTable, id: string)
    requires WellFormedTable(ts)
    ensures Lookup(ts, id).Some? ==> WellFormedTemplate(Lookup(ts, id).value)
  {
  }

  /** A key that does not start with `_` is never the key of a field stored as metadata. */
  predicate IsColumnName(k: string) {
    k == [] || k[0] != '_'
  }

  /** Some field of `fs` has a string name that maps to `k`. */
  predicate Targets(fs: seq<Json>, k: string)
    requires forall i :: 0 <= i < |fs| ==> FieldValid(fs[i])
  {
    exists i :: 0 <= i < |fs| && FieldValid(fs[i]) && fs[i].fields["nombre"].JStr? && MapFieldName(fs[i].fields["nombre"].s) == k
  }

  /** The loop keeps every key of the record it started from. */
  lemma {:induction false} RunFieldsKeepsKeys(start: Record, fs: seq<Json>, page: Page)
    requires forall k :: 0 <= k < |fs| ==> FieldValid(fs[k])
    ensures start.Keys <= RunFields(start, fs, page).rec.Keys
    decreases |fs|
  {
    if fs != [] {
      var init := fs[..|fs| - 1];
      RunFieldsKeepsKeys(start, init, page);
      match RunFields(start, init, page)
      case Aborted(_, _) =>
      case Progress(r, n) => FieldStepKeepsKeys(r, n, fs[|fs| - 1], page);
    }
  }

  lemma FieldStepKeepsKeys(rec: Record, n: nat, f: Json, page: Page)
    requires FieldValid(f)
    ensures rec.Keys <= FieldStep(rec, n, f, page).rec.Keys
  {
  }

  /**
    * A column the record started with is only ever replaced by a non-empty
    * value (`ERROR` included): no field blanks it.
    */
  lemma {:induction false} RunFieldsNeverBlanks(start: Record, fs: seq<Json>, page: Page, k: string)
    requires forall i :: 0 <= i < |fs| ==> FieldValid(fs[i])
    requires k in start && IsColumnName(k)
    ensures var r := RunFields(start, fs, page).rec;
      k in r && (r[k] == start[k] || (r[k].JStr? && r[k].s != []))
    decreases |fs|
  {
    RunFieldsKeepsKeys(start, fs, page);
    if fs != [] {
      RunFieldsNeverBlanks(start, fs[..|fs| - 1], page, k);
      var p := RunFields(start, fs[..|fs| - 1], page);
      var name := fs[|fs| - 1].fields["nombre"];
      if p.Progress? && Hashable(name) {
        AuxKeyIsMetadata(name);
      }
    }
  }

  lemma AuxKeyIsMetadata(name: Json)
    requires Hashable(name)
    ensures !IsColumnName(AuxKey(name))
  {
  }

  /** A column no field maps to keeps the value it started with. */
  lemma {:induction false} RunFieldsUntouched(start: Record, fs: seq<Json>, page: Page, k: string)
    requires forall i :: 0 <= i < |fs| ==> FieldValid(fs[i])
    requires k in start && IsColumnName(k) && !Targets(fs, k)
    ensures var r := RunFields(start, fs, page).rec; k in r && r[k] == start[k]
    decreases |fs|
  {
    RunFieldsKeepsKeys(start, fs, page);
    if fs != [] {
      var init := fs[..|fs| - 1];
      assert !Targets(init, k) by {
        forall i | 0 <= i < |init| ensures !(FieldValid(init[i]) && init[i].fields["nombre"].JStr? && MapFieldName(init[i].fields["nombre"].s) == k) {
          assert init[i] == fs[i];
        }
      }
      RunFieldsUntouched(start, init, page, k);
      var name := fs[|fs| - 1].fields["nombre"];
      if Hashable(name) {
        AuxKeyIsMetadata(name);
      }
    }
  }

  /** The loop counts at most one success per field. */
  lemma {:induction false} RunFieldsSuccessBound(start: Record, fs: seq<Json>, page: Page)
    requires forall i :: 0 <= i < |fs| ==> FieldValid(fs[i])
    ensures RunFields(start, fs, page).Progress? ==> RunFields(start, fs, page).successes <= |fs|
    decreases |fs|
  {
    if fs != [] {
      RunFieldsSuccessBound(start, fs[..|fs| - 1], page);
    }
  }

  /** Once a field raises out of the loop, the fields after it are never looked at. */
  lemma {:induction false} RunFieldsAborted(start: Record, fs: seq<Json>, j: int, page: Page)
    requires forall i :: 0 <= i < |fs| ==> FieldValid(fs[i])
    requires 0 <= j <= |fs| && RunFields(start, fs[..j], page).Aborted?
    ensures RunFields(start, fs, page) == RunFields(start, fs[..j], page)
    decreases |fs|
  {
    if j == |fs| {
      assert fs[..j] == fs;
    } else {
      var init := fs[..|fs| - 1];
      assert init[..j] == fs[..j];
      RunFieldsAborted(start, init, j, page);
    }
  }

  /** Every value of the record is a string. */
  predicate TextValued(rec: Record) {
    forall k :: k in rec ==> rec[k].JStr?
  }

  lemma InitialRecordText(t: Json, quarter: string, year: string, fileName: string, now: string)
    requires IdentityIsText(t)
    ensures TextValued(InitialRecord(t, quarter, year, fileName, now))
  {
  }

  lemma FieldStepText(rec: Record, n: nat, f: Json, page: Page)
    requires FieldValid(f) && TextValued(rec)
    ensures TextValued(FieldStep(rec, n, f, page).rec)
  {
  }

  /** The field loop only ever stores strings. */
  lemma {:induction false} RunFieldsText(start: Record, fs: seq<Json>, page: Page)
    requires forall k :: 0 <= k < |fs| ==> FieldValid(fs[k])
    requires TextValued(start)
    ensures TextValued(RunFields(start, fs, page).rec)
    decreases |fs|
  {
    if fs != [] {
      var init := fs[..|fs| - 1];
      RunFieldsText(start, init, page);
      match RunFields(start, init, page)
      case Aborted(_, _) =>
      case Progress(r, n) => FieldStepText(r, n, fs[|fs| - 1], page);
    }
  }

  /**
    * Under a template whose CIF and provider name are strings, every value
    * of the extracted record is a string, `_Error` included.
    */
  lemma ExtractInvoiceText(ts: TemplateTable, quarter: string, year: string, id: string, fileName: string, doc: Document, now: string)
    requires WellFormedTable(ts)
    requires Lookup(ts, id).Some? ==> IdentityIsText(Lookup(ts, id).value)
    ensures ExtractInvoice(ts, quarter, year, id, fileName, doc, now).Ok? ==>
      TextValued(ExtractInvoice(ts, quarter, year, id, fileName, doc, now).value)
  {
    if Lookup(ts, id).Some? {
      var t := Lookup(ts, id).value;
      var rec := InitialRecord(t, quarter, year, fileName, now);
      InitialRecordText(t, quarter, year, fileName, now);
      if !doc.Unreadable? && doc.pages != [] {
        RunFieldsText(rec, TemplateFields(t), doc.pages[0]);
      }
    }
  }

  /** `extraer_datos_factura` raises exactly for an id with no loaded template. */
  lemma ExtractUnknownIff(ts: TemplateTable, quarter: string, year: string, id: string, fileName: string, doc: Document, now: string)
    requires WellFormedTable(ts)
    ensures ExtractInvoice(ts, quarter, year, id, fileName, doc, now).Err? <==> id !in Ids(ts)
    ensures id !in Ids(ts) ==> ExtractInvoice(ts, quarter, year, id, fileName, doc, now) == Err(UnknownTemplateMessage(id))
  {
  }

  /** The initial record holds the nine standard columns, the template's CIF, and the quarter and year. */
  lemma InitialRecordColumns(t: Json, quarter: string, year: string, fileName: string, now: string)
    requires t.JObj?
    ensures var rec := InitialRecord(t, quarter, year, fileName, now);
      && (forall c :: c in StandardColumns ==> c in rec)
      && rec["CIF"] == Get(t.fields, "cif_proveedor", JStr(""))
      && rec["Trimestre"] == JStr(quarter) && rec["A\U{f1}o"] == JStr(year)
      && "_Error" !in rec
  {
  }

  /** Extraction keeps every key of the initial record, and a column no field maps to keeps its value. */
  lemma ExtractWithKeeps(t: Json, rec: Record, doc: Document, k: string)
    requires WellFormedTemplate(t)
    ensures rec.Keys <= ExtractWith(t, rec, doc).Keys
    ensures k in rec && IsColumnName(k) && !Targets(TemplateFields(t), k) ==> ExtractWith(t, rec, doc)[k] == rec[k]
  {
    if doc.Document? && doc.pages != [] {
      RunFieldsKeepsKeys(rec, TemplateFields(t), doc.pages[0]);
      if k in rec && IsColumnName(k) && !Targets(TemplateFields(t), k) {
        RunFieldsUntouched(rec, TemplateFields(t), doc.pages[0], k);
      }
    }
  }

  /**
    * The record has the nine standard columns; the CIF is the template's and
    * the quarter and year are the extractor's unless a template field maps
    * onto them.
    */
  lemma ExtractColumns(ts: TemplateTable, quarter: string, year: string, id: string, fileName: string, doc: Document, now: string)
    requires WellFormedTable(ts) && id in Ids(ts)
    ensures var r := ExtractInvoice(ts, quarter, year, id, fileName, doc, now);
      var t := Lookup(ts, id).value;
      && r.Ok? && t.JObj?
      && (forall c :: c in StandardColumns ==> c in r.value)
      && (!Targets(TemplateFields(t), "CIF") ==> Get(r.value, "CIF", JNull) == Get(t.fields, "cif_proveedor", JStr("")))
      && (!Targets(TemplateFields(t), "Trimestre") ==> Get(r.value, "Trimestre", JNull) == JStr(quarter))
      && (!Targets(TemplateFields(t), "A\U{f1}o") ==> Get(r.value, "A\U{f1}o", JNull) == JStr(year))
  {
    var t := Lookup(ts, id).value;
    LookupWellFormed(ts, id);
    var rec := InitialRecord(t, quarter, year, fileName, now);
    InitialRecordColumns(t, quarter, year, fileName, now);
    ExtractWithKeeps(t, rec, doc, "CIF");
    ExtractWithKeeps(t, rec, doc, "Trimestre");
    ExtractWithKeeps(t, rec, doc, "A\U{f1}o");
  }

  /** A template with an empty `campos` list passes validation, but extraction with it always records an error. */
  lemma ExtractWithoutFields(t: Json, rec: Record, doc: Document)
    requires WellFormedTemplate(t) && TemplateFields(t) == []
    ensures "_Error" in ExtractWith(t, rec, doc)
  {
  }

  /** A field with a column of the record and a non-empty cleaned value stores it there and counts a success. */
  lemma FieldStepStores(rec: Record, n: nat, f: Json, page: Page)
    requires FieldValid(f) && f.fields["nombre"].JStr? && MapFieldName(f.fields["nombre"].s) in rec
    requires !page.crop(f.fields["coordenadas"].items).Raises?
    requires FieldProcessing.ProcessField(CropRaw(page.crop(f.fields["coordenadas"].items)), f.fields["tipo"]) != []
    ensures FieldStep(rec, n, f, page)
         == Progress(rec[MapFieldName(f.fields["nombre"].s)
                         := JStr(FieldProcessing.ProcessField(CropRaw(page.crop(f.fields["coordenadas"].items)), f.fields["tipo"]))], n + 1)
  {
  }

  /**
    * One field whose crop reads as a non-empty value for a column of the
    * record is enough: the column takes the cleaned value, nothing else
    * changes, and no error is recorded.
    */
  lemma ExtractOneField(t: Json, rec: Record, p: Page, more: seq<Page>, f: Json)
    requires WellFormedTemplate(t) && TemplateFields(t) == [f]
    requires FieldValid(f) && f.fields["nombre"].JStr? && MapFieldName(f.fields["nombre"].s) in rec
    requires !p.crop(f.fields["coordenadas"].items).Raises?
    requires FieldProcessing.ProcessField(CropRaw(p.crop(f.fields["coordenadas"].items)), f.fields["tipo"]) != []
    ensures ExtractWith(t, rec, Document([p] + more))
         == rec[MapFieldName(f.fields["nombre"].s)
                := JStr(FieldProcessing.ProcessField(CropRaw(p.crop(f.fields["coordenadas"].items)), f.fields["tipo"]))]
  {
    var fs: seq<Json> := [f];
    assert fs[..0] == [];
    assert ([p] + more)[0] == p;
    FieldStepStores(rec, 0, f, p);
    assert RunFields(rec, fs, p) == FieldStep(rec, 0, f, p);
  }
}
