/**
  * The `PDFExtractor` object: the table of loaded templates and the records
  * of the last run, updated in place by its methods. Each loop of the class
  * is a method proved to compute what the functions of the modules
  * `TemplateLoading`, `Identification`, `Extraction`, `Directory` and
  * `Statistics` specify.
  */
module Extractor {
  import opened Wrappers
  import opened Json
  import opened Pdf
  import opened Templates
  import opened TemplateLoading
  import Identification
  import opened Extraction
  import Directory
  import Statistics

  class PdfExtractor {
    /** `plantillas_cargadas`. */
    var templates: TemplateTable
    /** `resultados`. */
    var results: seq<Record>
    /** `trimestre` and `año`, written into every record. */
    const quarter: string
    const year: string

    /** Ids are unique and every stored template satisfies the schema. */
    ghost predicate Valid()
      reads this
    {
      UniqueIds(templates) && WellFormedTable(templates)
    }

    constructor (quarter: string, year: string)
      ensures Valid() && templates == [] && results == []
      ensures this.quarter == quarter && this.year == year
    {
      templates := [];
      results := [];
      this.quarter := quarter;
      this.year := year;
    }

    /**
      * `cargar_plantillas()`: `listing` is the template directory, `None`
      * when it does not exist. Returns whether some file was loaded.
      */
    method LoadTemplates(listing: Option<seq<Entry>>) returns (ok: bool)
      requires Valid()
      modifies this
      ensures Valid() && results == old(results)
      ensures listing.None? ==> !ok && templates == old(templates)
      ensures listing.Some? ==> templates == LoadAll(old(templates), listing.value)
      ensures listing.Some? ==> (ok <==> LoadedCount(listing.value) > 0)
    {
      if listing.None? {
        return false;
      }
      var es := listing.value;
      var count := 0;
      var i := 0;
      while i < |es|
        invariant 0 <= i <= |es|
        invariant templates == LoadAll(old(templates), es[..i])
        invariant count == LoadedCount(es[..i])
        invariant Valid() && results == old(results)
      {
        assert es[..i + 1][..i] == es[..i];
        var (name, parsed) := es[i];
        if IsJsonName(name) && parsed.Some? && ValidateTemplate(parsed.value) == Some(true) {
          ValidateTemplateIff(parsed.value);
          PutKeepsTable(templates, Stem(name), parsed.value);
          templates := Put(templates, Stem(name), parsed.value);
          count := count + 1;
        }
        i := i + 1;
      }
      assert es[..|es|] == es;
      ok := count > 0;
    }

    /**
      * The inner loop of `identificar_proveedor`: the CIF and the name read
      * from the identification fields `fs` of one template.
      */
    method ReadIdentification(fs: seq<Json>, page: Page) returns (read: Identification.IdTexts)
      requires forall k :: 0 <= k < |fs| ==> FieldValid(fs[k])
      ensures read == Identification.ReadIdFields(fs, page)
    {
      var cif: Option<string> := None;
      var name: Option<string> := None;
      var j := 0;
      while j < |fs|
        invariant 0 <= j <= |fs|
        invariant Identification.IdTexts(cif, name) == Identification.ReadIdFields(fs[..j], page)
      {
        assert fs[..j + 1][..j] == fs[..j];
        var f := fs[j];
        if Truthy(Get(f.fields, "es_identificacion", JBool(false))) {
          var text := Identification.CropText(page, f.fields["coordenadas"].items);
          if text.Some? {
            if f.fields["nombre"] == JStr("CIF_Identificacion") {
              cif := text;
            } else if f.fields["nombre"] == JStr("Nombre_Identificacion") {
              name := text;
            }
          }
        }
        j := j + 1;
      }
      assert fs[..|fs|] == fs;
      read := Identification.IdTexts(cif, name);
    }

    /** `identificar_proveedor(ruta_pdf)`. */
    method Identify(doc: Document) returns (id: Option<string>)
      requires Valid()
      ensures id == Identification.Identify(templates, doc)
    {
      if doc.Unreadable? || doc.pages == [] {
        return None;
      }
      var page := doc.pages[0];
      ghost var vs := Identification.Verdicts(templates, page);
      var i := 0;
      while i < |templates|
        invariant 0 <= i <= |templates|
        invariant Identification.FirstOf(templates, vs) == Identification.FirstOf(templates[i..], vs[i..])
      {
        var (pid, t) := templates[i];
        var read := ReadIdentification(TemplateFields(t), page);
        var verdict := Identification.Judge(t, read);
        assert verdict == vs[i];
        assert templates[i..][1..] == templates[i + 1..] && vs[i..][1..] == vs[i + 1..];
        match verdict
        case Match => return Some(pid);
        case Abort => return None;
        case NoMatch =>
        i := i + 1;
      }
      return None;
    }

    /**
      * The field loop of `extraer_datos_factura` on `page`, from the initial
      * record `start`: the record and the success count, or where an
      * exception left the loop.
      */
    method RunFieldLoop(start: Record, fs: seq<Json>, page: Page) returns (p: Progress)
      requires forall k :: 0 <= k < |fs| ==> FieldValid(fs[k])
      ensures p == RunFields(start, fs, page)
    {
      var rec := start;
      var successes := 0;
      var i := 0;
      while i < |fs|
        invariant 0 <= i <= |fs|
        invariant RunFields(start, fs[..i], page) == Progress(rec, successes)
      {
        assert fs[..i + 1][..i] == fs[..i];
        var f := fs[i];
        var name := f.fields["nombre"];
        if !Hashable(name) {
          RunFieldsAborted(start, fs, i + 1, page);
          return Aborted(rec, UnhashableMessage(name));
        }
        var e := page.crop(f.fields["coordenadas"].items);
        if e.Raises? {
          if HasColumn(rec, name) {
            rec := rec[MapFieldName(name.s) := JStr(ErrorValue)];
          }
        } else {
          var v := FieldProcessing.ProcessField(CropRaw(e), f.fields["tipo"]);
          if HasColumn(rec, name) {
            if v != [] {
              rec := rec[MapFieldName(name.s) := JStr(v)];
              successes := successes + 1;
            }
          } else {
            rec := rec[AuxKey(name) := JStr(v)];
          }
        }
        i := i + 1;
      }
      assert fs[..|fs|] == fs;
      return Progress(rec, successes);
    }

    /**
      * `extraer_datos_factura(ruta_pdf, proveedor_id)`: `Err` where it raises
      * `ValueError`; `now` is the processing timestamp.
      */
    method ExtractInvoice(id: string, fileName: string, doc: Document, now: string) returns (r: Result<Record>)
      requires Valid()
      ensures r == Extraction.ExtractInvoice(templates, quarter, year, id, fileName, doc, now)
    {
      var found := Lookup(templates, id);
      if found.None? {
        return Err(UnknownTemplateMessage(id));
      }
      var t := found.value;
      var start := InitialRecord(t, quarter, year, fileName, now);
      if doc.Unreadable? {
        return Ok(start["_Error" := JStr(doc.message)]);
      }
      if doc.pages == [] {
        return Ok(start["_Error" := JStr(NoPagesMessage)]);
      }
      var p := RunFieldLoop(start, TemplateFields(t), doc.pages[0]);
      match p
      case Aborted(rec, m) =>
        return Ok(rec["_Error" := JStr(m)]);
      case Progress(rec, successes) =>
        if successes == 0 {
          return Ok(rec["_Error" := JStr(NoFieldMessage)]);
        }
        return Ok(rec);
    }

    /**
      * Identification and extraction of one file in `procesar_directorio_facturas`,
      * with the exceptions caught by its handler: extraction raising, or the
      * duplicate key failing to hash.
      */
    method ExamineFile(file: Directory.PdfFile, now: string) returns (e: Directory.Examined)
      requires Valid()
      ensures e == Directory.Examine(Directory.Setup(templates, quarter, year, now), file)
    {
      var pid := Identify(file.1);
      if pid.None? {
        return Directory.Unidentified;
      }
      var extracted := ExtractInvoice(pid.value, file.0, file.1, now);
      if extracted.Err? {
        return Directory.Failed(pid.value, extracted.message);
      }
      var key := Directory.KeyOf(extracted.value);
      if !Directory.KeyHashable(key) {
        return Directory.Failed(pid.value, Directory.KeyMessage(key));
      }
      return Directory.Extracted(pid.value, extracted.value);
    }

    /**
      * One file of `procesar_directorio_facturas`: the record appended for
      * it, and the set of duplicate keys after it.
      */
    method ProcessFile(file: Directory.PdfFile, now: string, seen: set<Directory.Key>)
      returns (rec: Record, seenAfter: set<Directory.Key>)
      requires Valid()
      ensures var s := Directory.Setup(templates, quarter, year, now);
        var e := Directory.Examine(s, file);
        rec == Directory.Finish(s, file.0, e, seen)
        && seenAfter == seen + (if e.Extracted? then {Directory.KeyOf(e.rec)} else {})
    {
      var s := Directory.Setup(templates, quarter, year, now);
      var e := ExamineFile(file, now);
      rec := Directory.Finish(s, file.0, e, seen);
      seenAfter := seen;
      if e.Extracted? && Directory.KeyOf(e.rec) !in seen {
        seenAfter := seen + {Directory.KeyOf(e.rec)};
      }
    }

    /**
      * `procesar_directorio_facturas()`: `listing` is the invoice directory,
      * `None` when it does not exist. With no directory or no PDF it returns
      * `[]` and leaves the results alone; otherwise the results become the
      * records of the PDF files.
      */
    method ProcessDirectory(listing: Option<seq<Directory.PdfFile>>, now: string) returns (rs: seq<Record>)
      requires Valid()
      modifies this
      ensures Valid() && templates == old(templates)
      ensures var p := Directory.ProcessDirectory(Directory.Setup(templates, quarter, year, now), listing);
        (p.None? ==> rs == [] && results == old(results)) && (p.Some? ==> rs == p.value && results == rs)
    {
      if listing.None? {
        return [];
      }
      var files := Directory.PdfFiles(listing.value);
      if files == [] {
        return [];
      }
      ghost var s := Directory.Setup(templates, quarter, year, now);
      ghost var names := Directory.Names(files);
      ghost var exs := Directory.Examinations(s, files);
      var seen: set<Directory.Key> := {};
      rs := [];
      var i := 0;
      while i < |files|
        invariant 0 <= i <= |files|
        invariant Valid() && templates == old(templates) && results == old(results)
        invariant rs == Directory.Results(s, names[..i], exs[..i])
        invariant seen == Directory.Seen(exs[..i])
      {
        Directory.ResultsStep(s, names, exs, i);
        var rec;
        rec, seen := ProcessFile(files[i], now, seen);
        rs := rs + [rec];
        i := i + 1;
      }
      assert names[..|files|] == names && exs[..|files|] == exs;
      results := rs;
    }

    /**
      * `obtener_estadisticas()`: `None` for `{}` when there are no results;
      * the error and duplicate counts are the two sums, the per-provider
      * counts the loop. Successes are the records that are neither errors
      * nor duplicates (`Statistics.AsWrittenAgreesIff` says when this is the
      * source's difference).
      */
    method Summary() returns (st: Option<Statistics.Stats>)
      ensures st == Statistics.SummarizeCorrected(results, |templates|)
    {
      if results == [] {
        return None;
      }
      var total := |results|;
      var errors := Statistics.CountErrors(results);
      var duplicates := Statistics.CountDuplicates(results);
      var clean := Statistics.CountClean(results);
      var tally: map<Json, Statistics.ProviderCounts> := map[];
      var i := 0;
      while i < total
        invariant 0 <= i <= total
        invariant tally == Statistics.Tally(results[..i])
      {
        assert results[..i + 1][..i] == results[..i];
        var r := results[i];
        var p := Statistics.ProviderOf(r);
        ghost var before := tally;
        if p !in tally {
          tally := tally[p := Statistics.ProviderCounts(0, 0, 0)];
        }
        var c := tally[p];
        if Statistics.HasError(r) {
          tally := tally[p := Statistics.ProviderCounts(c.total + 1, c.ok, c.errors + 1)];
        } else {
          tally := tally[p := Statistics.ProviderCounts(c.total + 1, c.ok + 1, c.errors)];
        }
        assert tally == Statistics.Bump(before, r);
        i := i + 1;
      }
      assert results[..total] == results;
      return Some(Statistics.Stats(total, clean, duplicates, errors, tally, |templates|));
    }
  }
}
