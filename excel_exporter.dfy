/**
  * `ExcelExporter`: the records handed to it, filtered of their metadata
  * columns, and the paths its exports are written to. Rendering of the
  * workbooks and files is not modelled; each export is the path it writes,
  * or the `ValueError` it raises when there is nothing to export.
  */
module Export {
  import opened Wrappers
  import opened Text
  import opened Json
  import Extraction

  /** The message of the `ValueError` every export raises on an empty list. */
  const NoDataMessage: string := "No hay datos para exportar"

  /** A metadata column: its key starts with `_`. */
  predicate IsMetadata(key: string) {
    StartsWith(key, "_")
  }

  /** The dict comprehension of `_filtrar_columnas_estandar`: the keys that do not start with `_`. */
  function StandardColumns(r: Extraction.Record): Extraction.Record {
    map k | k in r && !IsMetadata(k) :: r[k]
  }

  /** The metadata columns of a record. */
  function MetadataColumns(r: Extraction.Record): Extraction.Record {
    map k | k in r && IsMetadata(k) :: r[k]
  }

  /** `_filtrar_columnas_estandar(datos)`: one filtered record per record, in order. */
  function Filtered(rs: seq<Extraction.Record>): (out: seq<Extraction.Record>)
    ensures |out| == |rs|
    ensures forall i :: 0 <= i < |rs| ==> out[i] == StandardColumns(rs[i])
  {
    seq(|rs|, i requires 0 <= i < |rs| => StandardColumns(rs[i]))
  }

  /** The kinds of export. */
  datatype Format = BasicExcel | FullExcel | FormattedExcel | Csv | JsonFile

  /** The file name each export uses when none is given. */
  function DefaultName(f: Format, stamp: string): string {
    match f
    case BasicExcel => "facturas_extraidas_" + stamp + ".xlsx"
    case FullExcel => "facturas_completo_debug_" + stamp + ".xlsx"
    case FormattedExcel => "facturas_formateadas_" + stamp + ".xlsx"
    case Csv => "facturas_extraidas_" + stamp + ".csv"
    case JsonFile => "facturas_extraidas_" + stamp + ".json"
  }

  /** POSIX `os.path.join(a, b)`: an absolute `b` replaces `a`; a separator is added unless `a` is empty or ends in one. */
  function OsJoin(a: string, b: string): (r: string)
    ensures EndsWith(r, b)
    ensures StartsWith(b, "/") ==> r == b
    ensures !StartsWith(b, "/") && a != [] && a[|a| - 1] != '/' ==> r == a + "/" + b
  {
    if StartsWith(b, "/") then b
    else if a == [] || a[|a| - 1] == '/' then a + b
    else a + "/" + b
  }

  /** The `metadata` object of the JSON export (`version` is `"1.0"`). */
  datatype Metadata = Metadata(exportedAt: string, total: nat, version: string)

  /** The document `exportar_json` writes: `{metadata, facturas}`. */
  datatype JsonExport = JsonExport(metadata: Metadata, invoices: seq<Extraction.Record>)

  // ---------------------------------------------------------------- lemmas

  /** No filtered record has a metadata column; every other column is kept with its value. */
  lemma FilteredColumns(rs: seq<Extraction.Record>, i: int, k: string)
    requires 0 <= i < |rs|
    ensures k in Filtered(rs)[i] <==> k in rs[i] && !IsMetadata(k)
    ensures k in Filtered(rs)[i] ==> Filtered(rs)[i][k] == rs[i][k]
  {
  }

  /** A record is its standard columns and its metadata columns, which share no key. */
  lemma ColumnsPartition(r: Extraction.Record)
    ensures StandardColumns(r).Keys !! MetadataColumns(r).Keys
    ensures StandardColumns(r) + MetadataColumns(r) == r
  {
    var both := StandardColumns(r) + MetadataColumns(r);
    assert forall k :: k in both <==> k in r;
    assert forall k :: k in r ==> both[k] == r[k];
  }

  /** Filtering twice is filtering once. */
  lemma FilteredIdempotent(rs: seq<Extraction.Record>)
    ensures Filtered(Filtered(rs)) == Filtered(rs)
  {
    forall i | 0 <= i < |rs|
      ensures StandardColumns(StandardColumns(rs[i])) == StandardColumns(rs[i])
    {
      var r := StandardColumns(rs[i]);
      assert forall k :: k in StandardColumns(r) <==> k in r;
    }
  }

  /** Records without metadata columns pass through unchanged. */
  lemma FilteredNoMetadata(rs: seq<Extraction.Record>)
    requires forall i, k :: 0 <= i < |rs| && k in rs[i] ==> !IsMetadata(k)
    ensures Filtered(rs) == rs
  {
    forall i | 0 <= i < |rs|
      ensures StandardColumns(rs[i]) == rs[i]
    {
      assert forall k :: k in StandardColumns(rs[i]) <==> k in rs[i];
    }
  }

  /** Filtering commutes with concatenation: each record is filtered on its own. */
  lemma FilteredAppend(a: seq<Extraction.Record>, b: seq<Extraction.Record>)
    ensures Filtered(a + b) == Filtered(a) + Filtered(b)
  {
  }

  class ExcelExporter {
    /** `datos`, never reassigned. */
    const data: seq<Extraction.Record>
    /** `directorio_salida`. */
    const outDir: string
    /** `timestamp`, `%Y%m%d_%H%M%S` at construction. */
    const stamp: string

    constructor (data: seq<Extraction.Record>, outDir: string, stamp: string)
      ensures this.data == data && this.outDir == outDir && this.stamp == stamp
    {
      this.data := data;
      this.outDir := outDir;
      this.stamp := stamp;
    }

    /**
      * `_filtrar_columnas_estandar(datos)`: builds a new list of new
      * records; `rs` itself is a value and stays as it was.
      */
    method FilterStandard(rs: seq<Extraction.Record>) returns (out: seq<Extraction.Record>)
      ensures out == Filtered(rs)
    {
      out := [];
      var i := 0;
      while i < |rs|
        invariant 0 <= i <= |rs|
        invariant out == Filtered(rs[..i])
      {
        out := out + [StandardColumns(rs[i])];
        i := i + 1;
      }
      assert rs[..|rs|] == rs;
    }

    /**
      * The common part of every `exportar_*` method: `Err` when there are no
      * records, otherwise the path `os.path.join(directorio_salida, nombre)`,
      * with the format's default name when none is given.
      */
    method ExportPath(f: Format, name: Option<string>) returns (r: Result<string>)
      ensures data == [] <==> r.Err?
      ensures r.Err? ==> r.message == NoDataMessage
      ensures r.Ok? ==> r.value == OsJoin(outDir, if name.Some? then name.value else DefaultName(f, stamp))
    {
      if data == [] {
        return Err(NoDataMessage);
      }
      var fileName := if name.Some? then name.value else DefaultName(f, stamp);
      return Ok(OsJoin(outDir, fileName));
    }

    /**
      * What one export writes: the filtered records for every format but
      * the full debug workbook, which writes them as they are.
      */
    method ExportRows(f: Format) returns (r: Result<seq<Extraction.Record>>)
      ensures data == [] <==> r.Err?
      ensures r.Err? ==> r.message == NoDataMessage
      ensures r.Ok? ==> |r.value| == |data|
      ensures r.Ok? && f.FullExcel? ==> r.value == data
      ensures r.Ok? && !f.FullExcel? ==> r.value == Filtered(data)
    {
      if data == [] {
        return Err(NoDataMessage);
      }
      if f.FullExcel? {
        return Ok(data);
      }
      var rows := FilterStandard(data);
      return Ok(rows);
    }

    /**
      * `exportar_json`: the document written, `Err` on an empty list; the
      * count in its metadata is the number of invoices it holds.
      */
    method ExportJson(now: string) returns (r: Result<JsonExport>)
      ensures data == [] <==> r.Err?
      ensures r.Err? ==> r.message == NoDataMessage
      ensures r.Ok? ==> r.value.invoices == Filtered(data)
      ensures r.Ok? ==> r.value.metadata.total == |r.value.invoices| == |data|
      ensures r.Ok? ==> r.value.metadata.exportedAt == now && r.value.metadata.version == "1.0"
    {
      if data == [] {
        return Err(NoDataMessage);
      }
      var rows := FilterStandard(data);
      return Ok(JsonExport(Metadata(now, |rows|, "1.0"), rows));
    }

    /**
      * `exportar_todo(prefijo)`: every export that does not raise adds its
      * path under its key; an empty or missing prefix is `facturas_<stamp>`.
      * `failed` names the keys of the exports whose writing raises (an I/O
      * error, a cell value the workbook library refuses): the source catches
      * the exception and leaves that key out.
      */
    method ExportAll(prefix: Option<string>, failed: set<string>) returns (paths: map<string, string>)
      ensures data == [] ==> paths == map[]
      ensures data != [] ==> paths.Keys == {"excel_basico", "excel_formateado", "csv", "json"} - failed
      ensures
        var p := if prefix.Some? && prefix.value != [] then prefix.value else "facturas_" + stamp;
        && ("excel_basico" in paths ==> paths["excel_basico"] == OsJoin(outDir, p + "_basico.xlsx"))
        && ("excel_formateado" in paths ==> paths["excel_formateado"] == OsJoin(outDir, p + "_formateado.xlsx"))
        && ("csv" in paths ==> paths["csv"] == OsJoin(outDir, p + ".csv"))
        && ("json" in paths ==> paths["json"] == OsJoin(outDir, p + ".json"))
    {
      paths := map[];
      var p := if prefix.Some? && prefix.value != [] then prefix.value else "facturas_" + stamp;
      var basic := ExportPath(BasicExcel, Some(p + "_basico.xlsx"));
      if basic.Ok? && "excel_basico" !in failed {
        paths := paths["excel_basico" := basic.value];
      }
      assert paths.Keys == if data == [] then {} else {"excel_basico"} - failed;
      assert "excel_basico" in paths ==> paths["excel_basico"] == OsJoin(outDir, p + "_basico.xlsx");
      var formatted := ExportPath(FormattedExcel, Some(p + "_formateado.xlsx"));
      if formatted.Ok? && "excel_formateado" !in failed {
        paths := paths["excel_formateado" := formatted.value];
      }
      assert paths.Keys == if data == [] then {} else {"excel_basico", "excel_formateado"} - failed;
      assert "excel_formateado" in paths ==> paths["excel_formateado"] == OsJoin(outDir, p + "_formateado.xlsx");
      var csv := ExportPath(Csv, Some(p + ".csv"));
      if csv.Ok? && "csv" !in failed {
        paths := paths["csv" := csv.value];
      }
      assert paths.Keys == if data == [] then {} else {"excel_basico", "excel_formateado", "csv"} - failed;
      assert "csv" in paths ==> paths["csv"] == OsJoin(outDir, p + ".csv");
      var json := ExportPath(JsonFile, Some(p + ".json"));
      if json.Ok? && "json" !in failed {
        paths := paths["json" := json.value];
      }
    }
  }
}
