/**
  * `PDFOrganizer`: moves each processed PDF into the folder its outcome calls
  * for, keeps a per-quarter index of the invoices filed, and logs each move.
  * The filesystem is the set of paths that exist; index files are a map from
  * (year, quarter) to what the file holds.
  */
module Organizer {
  import opened Wrappers
  import opened Text
  import opened Json
  import opened Pdf
  import opened OrganizerRules
  import Extraction
  import Templates
  import Directory

  // ---------------------------------------------------------------- content analysis

  /** `PALABRAS_FACTURA`. */
  const Keywords: seq<string> := [
    "factura", "invoice", "bill", "receipt",
    "cif", "nif", "vat", "tax",
    "iva", "base imponible", "total", "subtotal",
    "fecha factura", "n\U{fa}mero factura", "numero factura",
    "proveedor", "cliente", "supplier", "customer",
    "importe", "amount", "precio", "price"
  ]

  /** `UMBRAL_PALABRAS_FACTURA`. */
  const Threshold: nat := 3

  /** Pages looked at: `pdf.pages[:5]`. */
  const PagesScanned: nat := 5

  /** How many of the keywords `ks` occur in the lowercased text `lowered`. */
  function KeywordCount(ks: seq<string>, lowered: string): (n: nat)
    ensures n <= |ks|
    decreases |ks|
  {
    if ks == [] then 0
    else KeywordCount(ks[..|ks| - 1], lowered) + (if Contains(lowered, Lower(ks[|ks| - 1])) then 1 else 0)
  }

  /** The page loop's state: keywords counted, and whether it has stopped (threshold reached or a page raised). */
  datatype Scan = Scan(count: nat, stopped: bool)

  /** The page loop of `analizar_contenido_pdf` over `ps`. */
  function ScanPages(ps: seq<Page>): Scan
    decreases |ps|
  {
    if ps == [] then Scan(0, false)
    else
      var s := ScanPages(ps[..|ps| - 1]);
      if s.stopped then s
      else match ps[|ps| - 1].whole
        case Raises => Scan(s.count, true)
        case NoText => s
        case Text(t) =>
          if t == [] then s
          else
            var c := s.count + KeywordCount(Keywords, Lower(t));
            Scan(c, c >= Threshold)
  }

  function FirstPages(ps: seq<Page>): seq<Page> {
    if |ps| <= PagesScanned then ps else ps[..PagesScanned]
  }

  /** `analizar_contenido_pdf`: whether the PDF looks like an invoice, and the keyword count. */
  function Analyse(doc: Document): (bool, nat) {
    if doc.Unreadable? then (false, 0)
    else
      var n := ScanPages(FirstPages(doc.pages)).count;
      (n >= Threshold, n)
  }

  // ---------------------------------------------------------------- the index

  /** One entry of `facturas` in a quarter's index (the MD5 digest is not modelled). */
  datatype Entry = Entry(cif: string, date: string, number: string, fileName: string, path: string, processedAt: string)

  /** `{trimestre, año, facturas}`. */
  datatype Index = Index(quarter: string, year: int, entries: seq<Entry>)

  /** `_crear_indice_vacio`. */
  function EmptyIndex(year: int, quarter: string): (r: Index)
    ensures r.entries == [] && r.year == year && r.quarter == quarter
  {
    Index(quarter, year, [])
  }

  /** The duplicate test of `es_duplicado` on one entry. */
  predicate SameInvoice(e: Entry, cif: string, date: string, number: string) {
    e.cif == cif && NormalizeDate(e.date) == NormalizeDate(date) && e.number == number
  }

  /** The loop of `es_duplicado`: the first entry for the same invoice. */
  function FirstDuplicate(es: seq<Entry>, cif: string, date: string, number: string): Option<Entry> {
    if es == [] then None
    else if SameInvoice(es[0], cif, date, number) then Some(es[0])
    else FirstDuplicate(es[1..], cif, date, number)
  }

  // ---------------------------------------------------------------- records and plans

  /** A field the organizer reads is a string, or absent. */
  predicate TextOrAbsent(rec: Extraction.Record, key: string) {
    key !in rec || rec[key].JStr?
  }

  /** The fields read when filing an invoice are strings. */
  predicate TextFields(rec: Extraction.Record) {
    && TextOrAbsent(rec, "CIF") && TextOrAbsent(rec, "FechaFactura") && TextOrAbsent(rec, "NumFactura")
    && TextOrAbsent(rec, "_Proveedor_Nombre") && TextOrAbsent(rec, "_NombreProveedor")
    && TextOrAbsent(rec, "Trimestre") && TextOrAbsent(rec, "A\U{f1}o")
  }

  /**
    * The fields read when filing are strings, or absent, in every record the
    * extractor's directory run produces, so `Organize` can be given any of them.
    */
  lemma RecordsAreReadable(s: Directory.Setup, fs: seq<Directory.PdfFile>, i: int)
    requires Templates.WellFormedTable(s.templates) && 0 <= i < |fs|
    ensures |Directory.Records(s, fs)| == |fs| && TextFields(Directory.Records(s, fs)[i])
  {
    Directory.RecordsText(s, fs, i);
  }

  /** `rec.get(key, default)` for a string field. */
  function TextOf(rec: Extraction.Record, key: string, default: string): string
    requires TextOrAbsent(rec, key)
  {
    if key in rec then rec[key].s else default
  }

  /** `organizar_pdf`'s test: a record, not empty, with no truthy `_Error`. */
  predicate Succeeded(rec: Option<Extraction.Record>) {
    rec.Some? && |rec.value| > 0 && !Truthy(Get(rec.value, "_Error", JNull))
  }

  /** The quarter and year an invoice is indexed under: the real ones, or the record's when either is missing. */
  function IndexQuarter(rec: Extraction.Record): (r: (string, string))
    requires TextFields(rec)
  {
    var (q, y) := RealQuarter(TextOf(rec, "FechaFactura", ""));
    if q == [] || y == [] then (TextOf(rec, "Trimestre", ""), TextOf(rec, "A\U{f1}o", "")) else (q, y)
  }

  /** `int(año) if año else 0`, with 0 where `int` raises. */
  function YearNumber(year: string): int {
    if year == [] then 0 else match PyInt(year) case Some(v) => v case None => 0
  }

  /** What `_organizar_factura_exitosa` decides before moving anything. */
  datatype Plan = Plan(duplicate: bool, dir: string, year: int, quarter: string, kind: string, details: string)

  /** The index entry filed for a new invoice, its date normalised. */
  function NewEntry(rec: Extraction.Record, name: string, path: string, now: string): Entry
    requires TextFields(rec)
  {
    Entry(TextOf(rec, "CIF", ""), NormalizeDate(TextOf(rec, "FechaFactura", "")), TextOf(rec, "NumFactura", ""), name, path, now)
  }

  // ---------------------------------------------------------------- the file system

  /**
    * Where `mover_pdf` puts a file named `name` in `dir`, given the paths
    * `fs` that exist: the plain name when free, otherwise the first
    * `stem_k.ext`, `k >= 2`, that is free.
    */
  ghost predicate FreeChoice(fs: set<string>, dir: string, name: string, p: string) {
    if JoinPath(dir, name) !in fs then p == JoinPath(dir, name)
    else exists k :: k >= 2 && p == Candidate(dir, name, k) && p !in fs
                     && forall j :: 2 <= j < k ==> Candidate(dir, name, j) in fs
  }

  // ---------------------------------------------------------------- lemmas

  /** `FirstDuplicate` finds the first entry for the same invoice, and nothing when there is none. */
  lemma {:induction false} FirstDuplicateIff(es: seq<Entry>, cif: string, date: string, number: string)
    ensures FirstDuplicate(es, cif, date, number).Some? <==> exists k :: 0 <= k < |es| && SameInvoice(es[k], cif, date, number)
    ensures FirstDuplicate(es, cif, date, number).Some? ==>
      exists k :: 0 <= k < |es| && es[k] == FirstDuplicate(es, cif, date, number).value && SameInvoice(es[k], cif, date, number)
                  && forall j :: 0 <= j < k ==> !SameInvoice(es[j], cif, date, number)
  {
    if es != [] && !SameInvoice(es[0], cif, date, number) {
      var rest := es[1..];
      FirstDuplicateIff(rest, cif, date, number);
      if exists k :: 0 <= k < |es| && SameInvoice(es[k], cif, date, number) {
        var k :| 0 <= k < |es| && SameInvoice(es[k], cif, date, number);
        assert rest[k - 1] == es[k];
      }
      if FirstDuplicate(rest, cif, date, number).Some? {
        var k :| 0 <= k < |rest| && rest[k] == FirstDuplicate(rest, cif, date, number).value && SameInvoice(rest[k], cif, date, number)
                 && forall j :: 0 <= j < k ==> !SameInvoice(rest[j], cif, date, number);
        assert es[k + 1] == rest[k];
        assert forall j :: 1 <= j < k + 1 ==> es[j] == rest[j - 1];
      }
    }
  }

  /** An invoice once filed is found as a duplicate: its entry keeps the date in normal form. */
  lemma FiledIsDuplicate(es: seq<Entry>, e: Entry, cif: string, date: string, number: string)
    requires e.cif == cif && e.date == NormalizeDate(date) && e.number == number
    ensures FirstDuplicate(es + [e], cif, date, number).Some?
  {
    NormalizeDateIdempotent(date);
    FirstDuplicateIff(es + [e], cif, date, number);
    assert (es + [e])[|es|] == e;
  }

  /** Entries appended after a match do not change which entry is found. */
  lemma {:induction false} FirstDuplicateAppend(es: seq<Entry>, more: seq<Entry>, cif: string, date: string, number: string)
    requires FirstDuplicate(es, cif, date, number).Some?
    ensures FirstDuplicate(es + more, cif, date, number) == FirstDuplicate(es, cif, date, number)
  {
    if !SameInvoice(es[0], cif, date, number) {
      assert (es + more)[1..] == es[1..] + more;
      FirstDuplicateAppend(es[1..], more, cif, date, number);
    }
  }

  /** Two paths that both satisfy `FreeChoice` are the same path. */
  lemma FreeChoiceUnique(fs: set<string>, dir: string, name: string, p1: string, p2: string)
    requires FreeChoice(fs, dir, name, p1) && FreeChoice(fs, dir, name, p2)
    ensures p1 == p2
  {
    if JoinPath(dir, name) in fs {
      var k1 :| k1 >= 2 && p1 == Candidate(dir, name, k1) && p1 !in fs && forall j :: 2 <= j < k1 ==> Candidate(dir, name, j) in fs;
      var k2 :| k2 >= 2 && p2 == Candidate(dir, name, k2) && p2 !in fs && forall j :: 2 <= j < k2 ==> Candidate(dir, name, j) in fs;
    }
  }

  /**
    * When the destination name is taken, the file goes elsewhere: the
    * requested path still names the file that was there before.
    */
  lemma TakenNameMovesAside(fs: set<string>, dir: string, name: string, p: string)
    requires JoinPath(dir, name) in fs && FreeChoice(fs, dir, name, p)
    ensures p != JoinPath(dir, name) && p !in fs
  {
  }

  /** Every finite set of paths has a length bound. */
  lemma LengthBound(fs: set<string>) returns (b: nat)
    ensures b >= 1 && forall f :: f in fs ==> |f| < b
    decreases fs
  {
    if fs == {} {
      return 1;
    }
    var x :| x in fs;
    var b0 := LengthBound(fs - {x});
    b := if b0 > |x| + 1 then b0 else |x| + 1;
  }

  /** From `10^b` on, every numbered name is longer than `b`: numbering gets past any finite set of paths. */
  lemma CandidateLength(dir: string, name: string, k: nat, b: nat)
    ensures k >= Pow10(b) ==> |Candidate(dir, name, k)| > b
  {
    if k >= Pow10(b) {
      NatToStringLength(k, b);
    }
  }

  /** Only the first five pages are read. */
  lemma AnalyseFirstFive(ps: seq<Page>, more: seq<Page>)
    requires |ps| == PagesScanned
    ensures Analyse(Document(ps + more)) == Analyse(Document(ps))
  {
    assert (ps + more)[..PagesScanned] == ps;
    assert FirstPages(ps + more) == ps == FirstPages(ps);
  }

  /** Once the loop has stopped, later pages change nothing. */
  lemma {:induction false} ScanStopped(ps: seq<Page>, i: int)
    requires 0 <= i <= |ps| && ScanPages(ps[..i]).stopped
    ensures ScanPages(ps) == ScanPages(ps[..i])
    decreases |ps|
  {
    if i < |ps| {
      var init := ps[..|ps| - 1];
      assert init[..i] == ps[..i];
      ScanStopped(init, i);
    } else {
      assert ps[..i] == ps;
    }
  }

  /** At most one count per keyword per page. */
  lemma {:induction false} ScanBound(ps: seq<Page>)
    ensures ScanPages(ps).count <= |Keywords| * |ps|
    decreases |ps|
  {
    if ps != [] {
      ScanBound(ps[..|ps| - 1]);
    }
  }

  /** The keyword count is at most 23 keywords times 5 pages. */
  lemma AnalyseBound(doc: Document)
    ensures Analyse(doc).1 <= |Keywords| * PagesScanned
  {
    if doc.Document? {
      ScanBound(FirstPages(doc.pages));
    }
  }

  /** The loop stops only at the threshold or where a page raised. */
  lemma {:induction false} ScanStopsAtThreshold(ps: seq<Page>)
    ensures ScanPages(ps).stopped && ScanPages(ps).count < Threshold ==> exists i :: 0 <= i < |ps| && ps[i].whole.Raises?
    decreases |ps|
  {
    if ps != [] {
      var init := ps[..|ps| - 1];
      ScanStopsAtThreshold(init);
      if ScanPages(init).stopped && ScanPages(init).count < Threshold {
        var i :| 0 <= i < |init| && init[i].whole.Raises?;
        assert ps[i] == init[i];
      }
    }
  }

  // ---------------------------------------------------------------- the organizer

  class PdfOrganizer {
    /** `procesados/facturas`, `procesados/duplicados` and `procesados/errores` under the base directory. */
    const invoicesDir: string
    const duplicatesDir: string
    const errorsDir: string
    /** The paths that exist. */
    var files: set<string>
    /** The index files: `None` for one that exists but cannot be read. */
    var indices: map<(int, string), Option<Index>>
    /** The lines appended to the operation log. */
    var log: seq<string>

    constructor (base: string, existing: set<string>, stored: map<(int, string), Option<Index>>)
      ensures invoicesDir == JoinPath(JoinPath(base, "procesados"), "facturas")
      ensures duplicatesDir == JoinPath(JoinPath(base, "procesados"), "duplicados")
      ensures errorsDir == JoinPath(JoinPath(base, "procesados"), "errores")
      ensures files == existing && indices == stored && log == []
    {
      var processed := JoinPath(base, "procesados");
      invoicesDir := JoinPath(processed, "facturas");
      duplicatesDir := JoinPath(processed, "duplicados");
      errorsDir := JoinPath(processed, "errores");
      files := existing;
      indices := stored;
      log := [];
    }

    /** `cargar_indice(año, trimestre)`: a missing or unreadable index is an empty one. */
    function LoadIndex(year: int, quarter: string): (r: Index)
      reads this
      ensures (year, quarter) !in indices || indices[(year, quarter)].None? ==> r == EmptyIndex(year, quarter)
      ensures (year, quarter) in indices && indices[(year, quarter)].Some? ==> r == indices[(year, quarter)].value
    {
      if (year, quarter) in indices && indices[(year, quarter)].Some? then indices[(year, quarter)].value
      else EmptyIndex(year, quarter)
    }

    /** `es_duplicado`: the first entry of the quarter's index for the same invoice. */
    function FindDuplicate(cif: string, date: string, number: string, year: int, quarter: string): (r: Option<Entry>)
      reads this
      ensures r.Some? ==> r.value in LoadIndex(year, quarter).entries && SameInvoice(r.value, cif, date, number)
    {
      var es := LoadIndex(year, quarter).entries;
      FirstDuplicateIff(es, cif, date, number);
      FirstDuplicate(es, cif, date, number)
    }

    /** The decisions of `_organizar_factura_exitosa`, given the record and the index. */
    function SuccessPlan(rec: Extraction.Record): Plan
      reads this
      requires TextFields(rec)
    {
      var cif, date, number := TextOf(rec, "CIF", ""), TextOf(rec, "FechaFactura", ""), TextOf(rec, "NumFactura", "");
      var supplier := TextOf(rec, "_Proveedor_Nombre", TextOf(rec, "_NombreProveedor", UnknownProvider));
      var (quarter, year) := IndexQuarter(rec);
      var y := YearNumber(year);
      if FindDuplicate(cif, date, number, y, quarter).Some? then
        Plan(true, JoinPath(JoinPath(duplicatesDir, year), quarter), y, quarter, "DUPLICADO",
             "CIF: " + cif + ", Fecha: " + date + ", NumFactura: " + number)
      else
        Plan(false, JoinPath(JoinPath(JoinPath(invoicesDir, year), MonthOf(date)), Slug(supplier)), y, quarter, "EXITO",
             "Proveedor: " + supplier + ", CIF: " + cif)
    }

    /** `agregar_al_indice`: one entry appended to the quarter's index; every other index as it was. */
    method AddToIndex(year: int, quarter: string, e: Entry)
      modifies this
      ensures LoadIndex(year, quarter).entries == old(LoadIndex(year, quarter).entries) + [e]
      ensures forall y, q :: (y, q) != (year, quarter) ==> LoadIndex(y, q) == old(LoadIndex(y, q))
      ensures files == old(files) && log == old(log)
    {
      var idx := LoadIndex(year, quarter);
      indices := indices[(year, quarter) := Some(Index(idx.quarter, idx.year, idx.entries + [e]))];
    }

    /**
      * `mover_pdf(origen, destino)` with `destino` = `dir/name`: when the
      * source exists, it moves to the first free path and `ok` is true;
      * otherwise nothing changes. No existing path is overwritten.
      */
    method MovePdf(source: string, dir: string, name: string) returns (ok: bool, placed: string)
      modifies this
      ensures ok <==> source in old(files)
      ensures ok ==> FreeChoice(old(files), dir, name, placed) && placed !in old(files)
      ensures ok ==> files == old(files) - {source} + {placed}
      ensures !ok ==> files == old(files)
      ensures indices == old(indices) && log == old(log)
    {
      placed := JoinPath(dir, name);
      if placed in files {
        ghost var bound := LengthBound(files);
        var counter := 2;
        while placed in files
          invariant files == old(files) && indices == old(indices) && log == old(log)
          invariant counter >= 2 && JoinPath(dir, name) in files
          invariant counter == 2 ==> placed == JoinPath(dir, name)
          invariant counter > 2 ==> placed == Candidate(dir, name, counter - 1)
          invariant forall j :: 2 <= j < counter - 1 ==> Candidate(dir, name, j) in files
          invariant counter <= Pow10(bound) + 1
          decreases Pow10(bound) + 1 - counter
        {
          if counter > 2 {
            CandidateLength(dir, name, counter - 1, bound);
          } else {
            Pow10Monotone(1, bound);
          }
          placed := Candidate(dir, name, counter);
          counter := counter + 1;
        }
        assert FreeChoice(files, dir, name, placed) by {
          assert counter - 1 >= 2 && placed == Candidate(dir, name, counter - 1);
        }
      }
      if source !in files {
        return false, placed;
      }
      files := files - {source} + {placed};
      ok := true;
    }

    /** The keyword loop of `analizar_contenido_pdf` on one page's lowercased text. */
    method CountKeywords(lowered: string) returns (found: nat)
      ensures found == KeywordCount(Keywords, lowered)
    {
      found := 0;
      var j := 0;
      while j < |Keywords|
        invariant 0 <= j <= |Keywords|
        invariant found == KeywordCount(Keywords[..j], lowered)
      {
        assert Keywords[..j + 1][..j] == Keywords[..j];
        if Contains(lowered, Lower(Keywords[j])) {
          found := found + 1;
        }
        j := j + 1;
      }
      assert Keywords[..|Keywords|] == Keywords;
    }

    /** `analizar_contenido_pdf`: the page loop with its early exits. */
    method AnalyseContent(doc: Document) returns (likely: bool, count: nat)
      ensures (likely, count) == Analyse(doc)
    {
      count := 0;
      if doc.Unreadable? {
        return false, 0;
      }
      var pages := FirstPages(doc.pages);
      var i := 0;
      while i < |pages|
        invariant 0 <= i <= |pages|
        invariant ScanPages(pages[..i]) == Scan(count, false)
      {
        assert pages[..i + 1][..i] == pages[..i];
        match pages[i].whole {
          case Raises =>
            ScanStopped(pages, i + 1);
            return count >= Threshold, count;
          case NoText =>
          case Text(t) =>
            if t != [] {
              var found := CountKeywords(Lower(t));
              count := count + found;
              if count >= Threshold {
                ScanStopped(pages, i + 1);
                return true, count;
              }
            }
        }
        i := i + 1;
      }
      assert pages[..|pages|] == pages;
      likely := count >= Threshold;
    }

    /** `registrar_operacion`: one line appended to the log. */
    method LogOperation(now: string, kind: string, name: string, origin: string, dest: string, details: string)
      modifies this
      ensures log == old(log) + [LogLine(now, kind, name, origin, dest, details)]
      ensures files == old(files) && indices == old(indices)
    {
      log := log + [LogLine(now, kind, name, origin, dest, details)];
    }

    /**
      * `_organizar_factura_exitosa` as written: after a successful move it
      * reports, and indexes, the requested path `dir/name`, even when the
      * file went to `stem_k.ext` because that name was taken.
      */
    method OrganizeSuccess(folder: string, name: string, rec: Extraction.Record, now: string)
      returns (path: string, ghost placed: string)
      requires TextFields(rec)
      modifies this
      ensures var plan := old(SuccessPlan(rec));
        var source := JoinPath(folder, name);
        && (source !in old(files) ==> path == source && files == old(files) && indices == old(indices) && log == old(log))
        && (source in old(files) ==>
              && path == JoinPath(plan.dir, name)
              && FreeChoice(old(files), plan.dir, name, placed)
              && files == old(files) - {source} + {placed}
              && (forall y, q :: (y, q) != (plan.year, plan.quarter) ==> LoadIndex(y, q) == old(LoadIndex(y, q)))
              && log == old(log) + [LogLine(now, plan.kind, name, folder, plan.dir, plan.details)]
              && (plan.duplicate ==> indices == old(indices))
              && (!plan.duplicate ==>
                    LoadIndex(plan.year, plan.quarter).entries == old(LoadIndex(plan.year, plan.quarter).entries) + [NewEntry(rec, name, path, now)]))
      ensures JoinPath(folder, name) in old(files) && JoinPath(old(SuccessPlan(rec)).dir, name) in old(files) ==> path in old(files)
    {
      var plan := SuccessPlan(rec);
      var source := JoinPath(folder, name);
      var requested := JoinPath(plan.dir, name);
      var moved;
      moved, placed := MovePdf(source, plan.dir, name);
      if !moved {
        return source, placed;
      }
      if !plan.duplicate {
        AddToIndex(plan.year, plan.quarter, NewEntry(rec, name, requested, now));
      }
      LogOperation(now, plan.kind, name, folder, plan.dir, plan.details);
      return requested, placed;
    }

    /**
      * `_organizar_factura_exitosa` reporting where the file went: the path
      * returned, and the one indexed, is the file moved, and the same
      * invoice is a duplicate from then on.
      */
    method FileInvoice(folder: string, name: string, rec: Extraction.Record, now: string) returns (path: string)
      requires TextFields(rec)
      modifies this
      ensures var plan := old(SuccessPlan(rec));
        var source := JoinPath(folder, name);
        && (source !in old(files) ==> path == source && files == old(files) && indices == old(indices) && log == old(log))
        && (source in old(files) ==>
              && FreeChoice(old(files), plan.dir, name, path)
              && path in files && path !in old(files)
              && files == old(files) - {source} + {path}
              && log == old(log) + [LogLine(now, plan.kind, name, folder, plan.dir, plan.details)]
              && (plan.duplicate ==> indices == old(indices))
              && (forall y, q :: (y, q) != (plan.year, plan.quarter) ==> LoadIndex(y, q) == old(LoadIndex(y, q)))
              && (!plan.duplicate ==>
                    LoadIndex(plan.year, plan.quarter).entries == old(LoadIndex(plan.year, plan.quarter).entries) + [NewEntry(rec, name, path, now)])
              && SuccessPlan(rec).duplicate)
    {
      var plan := SuccessPlan(rec);
      var source := JoinPath(folder, name);
      var moved, placed := MovePdf(source, plan.dir, name);
      if !moved {
        return source;
      }
      if !plan.duplicate {
        ghost var before := LoadIndex(plan.year, plan.quarter).entries;
        AddToIndex(plan.year, plan.quarter, NewEntry(rec, name, placed, now));
        FiledIsDuplicate(before, NewEntry(rec, name, placed, now),
                         TextOf(rec, "CIF", ""), TextOf(rec, "FechaFactura", ""), TextOf(rec, "NumFactura", ""));
      }
      LogOperation(now, plan.kind, name, folder, plan.dir, plan.details);
      return placed;
    }

    /** The folder and log line `_organizar_pdf_error` uses for an analysis result. */
    function ErrorRoute(likely: bool, count: nat): (r: (string, string, string))
      reads this
      ensures r.0 == if likely then JoinPath(errorsDir, "sin_plantilla_posible_factura") else JoinPath(errorsDir, "probablemente_no_factura")
    {
      if likely then (JoinPath(errorsDir, "sin_plantilla_posible_factura"), "ERROR_POSIBLE_FACTURA",
                      IntToString(count) + " palabras clave detectadas")
      else (JoinPath(errorsDir, "probablemente_no_factura"), "ERROR_NO_FACTURA",
            "Solo " + IntToString(count) + " palabras clave encontradas")
    }

    /**
      * `_organizar_pdf_error` as written: the folder is chosen by the content
      * analysis; after a move it reports the requested path `dir/name`.
      */
    method OrganizeError(folder: string, name: string, doc: Document, now: string)
      returns (path: string, ghost placed: string)
      modifies this
      ensures var route := ErrorRoute(Analyse(doc).0, Analyse(doc).1);
        var source := JoinPath(folder, name);
        && indices == old(indices)
        && (source !in old(files) ==> path == source && files == old(files) && log == old(log))
        && (source in old(files) ==>
              && path == JoinPath(route.0, name)
              && FreeChoice(old(files), route.0, name, placed)
              && files == old(files) - {source} + {placed}
              && log == old(log) + [LogLine(now, route.1, name, folder, route.0, route.2)])
    {
      var likely, count := AnalyseContent(doc);
      var route := ErrorRoute(likely, count);
      var moved;
      moved, placed := MovePdf(JoinPath(folder, name), route.0, name);
      if !moved {
        return JoinPath(folder, name), placed;
      }
      LogOperation(now, route.1, name, folder, route.0, route.2);
      return JoinPath(route.0, name), placed;
    }

    /** `_organizar_pdf_error` reporting where the file went. */
    method FileError(folder: string, name: string, doc: Document, now: string) returns (path: string)
      modifies this
      ensures var route := ErrorRoute(Analyse(doc).0, Analyse(doc).1);
        var source := JoinPath(folder, name);
        && indices == old(indices)
        && (source !in old(files) ==> path == source && files == old(files) && log == old(log))
        && (source in old(files) ==>
              && FreeChoice(old(files), route.0, name, path)
              && path in files && path !in old(files)
              && files == old(files) - {source} + {path}
              && log == old(log) + [LogLine(now, route.1, name, folder, route.0, route.2)])
    {
      var likely, count := AnalyseContent(doc);
      var route := ErrorRoute(likely, count);
      var moved, placed := MovePdf(JoinPath(folder, name), route.0, name);
      if !moved {
        return JoinPath(folder, name);
      }
      LogOperation(now, route.1, name, folder, route.0, route.2);
      return placed;
    }

    /**
      * `organizar_pdf`: a record without a truthy `_Error` is filed as an
      * invoice, anything else as an error.
      */
    method Organize(folder: string, name: string, rec: Option<Extraction.Record>, doc: Document, now: string)
      returns (path: string)
      requires Succeeded(rec) ==> TextFields(rec.value)
      modifies this
      ensures JoinPath(folder, name) !in old(files) ==>
        path == JoinPath(folder, name) && files == old(files) && log == old(log) && indices == old(indices)
      ensures JoinPath(folder, name) in old(files) ==>
        path !in old(files) && files == old(files) - {JoinPath(folder, name)} + {path}
      ensures Succeeded(rec) && JoinPath(folder, name) in old(files) ==>
        var plan := old(SuccessPlan(rec.value));
        && FreeChoice(old(files), plan.dir, name, path)
        && log == old(log) + [LogLine(now, plan.kind, name, folder, plan.dir, plan.details)]
        && (plan.duplicate ==> indices == old(indices))
        && (!plan.duplicate ==>
              LoadIndex(plan.year, plan.quarter).entries == old(LoadIndex(plan.year, plan.quarter).entries) + [NewEntry(rec.value, name, path, now)])
        && (forall y, q :: (y, q) != (plan.year, plan.quarter) ==> LoadIndex(y, q) == old(LoadIndex(y, q)))
        && SuccessPlan(rec.value).duplicate
      ensures !Succeeded(rec) && JoinPath(folder, name) in old(files) ==>
        var route := ErrorRoute(Analyse(doc).0, Analyse(doc).1);
        && FreeChoice(old(files), route.0, name, path)
        && log == old(log) + [LogLine(now, route.1, name, folder, route.0, route.2)]
      ensures !Succeeded(rec) ==> indices == old(indices)
    {
      if Succeeded(rec) {
        path := FileInvoice(folder, name, rec.value, now);
      } else {
        path := FileError(folder, name, doc, now);
      }
    }
  }
}
