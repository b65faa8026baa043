/**
  * `procesar_directorio_facturas`: one record per PDF of the invoice
  * directory, in listing order, with invoices that repeat an earlier
  * (CIF, NumFactura, FechaFactura) marked as duplicates.
  */
module Directory {
  import opened Wrappers
  import opened Text
  import opened Json
  import opened Pdf
  import opened Templates
  import opened Extraction
  import Identification

  /** What a run works with: the loaded templates, the quarter and year, and the clock reading. */
  datatype Setup = Setup(templates: TemplateTable, quarter: string, year: string, now: string)

  /** A PDF of the directory: its file name and what opening it gives. */
  type PdfFile = (string, Document)

  /** `(CIF, NumFactura, FechaFactura)`, as `datos.get` reads them. */
  type Key = (Json, Json, Json)

  const NotIdentified: string := "NO_IDENTIFICADO"
  const NotIdentifiedMessage: string := "Proveedor no identificado"
  const DuplicateReason: string := "Ya existe factura con mismo CIF, NumFactura y FechaFactura"

  /** `f.lower().endswith('.pdf')`. */
  predicate IsPdfName(name: string) {
    EndsWith(Lower(name), ".pdf")
  }

  /** `archivos_pdf`: the directory's PDF files, in listing order. */
  function PdfFiles(listing: seq<PdfFile>): (r: seq<PdfFile>)
    ensures forall i :: 0 <= i < |r| ==> IsPdfName(r[i].0)
    decreases |listing|
  {
    if listing == [] then []
    else
      var rest := PdfFiles(listing[..|listing| - 1]);
      var f := listing[|listing| - 1];
      if IsPdfName(f.0) then rest + [f] else rest
  }

  function KeyOf(rec: Record): Key {
    (Get(rec, "CIF", JStr("")), Get(rec, "NumFactura", JStr("")), Get(rec, "FechaFactura", JStr("")))
  }

  predicate KeyHashable(k: Key) {
    Hashable(k.0) && Hashable(k.1) && Hashable(k.2)
  }

  /** Hashing the key tuple raises on its first list or dictionary. */
  function KeyMessage(k: Key): string
    requires !KeyHashable(k)
  {
    if !Hashable(k.0) then UnhashableMessage(k.0)
    else if !Hashable(k.1) then UnhashableMessage(k.1)
    else UnhashableMessage(k.2)
  }

  /** One file before the duplicate check: not identified, failed with an exception, or extracted. */
  datatype Examined = Unidentified | Failed(pid: string, message: string) | Extracted(pid: string, rec: Record)

  /**
    * Identification, then extraction under the template found. An exception
    * from extraction, or from hashing the duplicate key, turns into an error
    * record.
    */
  function Examine(s: Setup, f: PdfFile): (e: Examined)
    requires WellFormedTable(s.templates)
    ensures e.Extracted? ==> KeyHashable(KeyOf(e.rec))
  {
    match Identification.Identify(s.templates, f.1)
    case None => Unidentified
    case Some(pid) =>
      match ExtractInvoice(s.templates, s.quarter, s.year, pid, f.0, f.1, s.now)
      case Err(m) => Failed(pid, m)
      case Ok(r) => if KeyHashable(KeyOf(r)) then Extracted(pid, r) else Failed(pid, KeyMessage(KeyOf(r)))
  }

  /** The record kept for a file that failed: empty standard columns and the error's metadata. */
  function ErrorRecord(s: Setup, fileName: string, pid: string, message: string): Record {
    map[
      "CIF" := JStr(""),
      "FechaFactura" := JStr(""),
      "Trimestre" := JStr(s.quarter),
      "A\U{f1}o" := JStr(s.year),
      "FechaVto" := JStr(""),
      "NumFactura" := JStr(""),
      "FechaPago" := JStr(""),
      "Base" := JStr(""),
      "ComPaypal" := JStr(""),
      "_Archivo" := JStr(fileName),
      "_Proveedor_ID" := JStr(pid),
      "_Error" := JStr(message),
      "_Fecha_Procesamiento" := JStr(s.now)
    ]
  }

  /** The record appended for one file, given the keys of the invoices extracted before it. */
  function Finish(s: Setup, fileName: string, e: Examined, seen: set<Key>): Record {
    match e
    case Unidentified => ErrorRecord(s, fileName, NotIdentified, NotIdentifiedMessage)
    case Failed(pid, m) => ErrorRecord(s, fileName, pid, m)
    case Extracted(_, r) =>
      if KeyOf(r) in seen then r["_Duplicado" := JBool(true)]["_Motivo_Duplicado" := JStr(DuplicateReason)]
      else r["_Duplicado" := JBool(false)]
  }

  /** What every file gives, in order. */
  function Examinations(s: Setup, fs: seq<PdfFile>): (exs: seq<Examined>)
    requires WellFormedTable(s.templates)
    ensures |exs| == |fs| && forall i :: 0 <= i < |fs| ==> exs[i] == Examine(s, fs[i])
  {
    seq(|fs|, i requires 0 <= i < |fs| => Examine(s, fs[i]))
  }

  function Names(fs: seq<PdfFile>): (names: seq<string>)
    ensures |names| == |fs| && forall i :: 0 <= i < |fs| ==> names[i] == fs[i].0
  {
    seq(|fs|, i requires 0 <= i < |fs| => fs[i].0)
  }

  /** `facturas_procesadas` after the files examined as `exs`. */
  function Seen(exs: seq<Examined>): set<Key>
    decreases |exs|
  {
    if exs == [] then {}
    else
      var e := exs[|exs| - 1];
      Seen(exs[..|exs| - 1]) + (if e.Extracted? then {KeyOf(e.rec)} else {})
  }

  /** `resultados` after the files named `names` and examined as `exs`. */
  function Results(s: Setup, names: seq<string>, exs: seq<Examined>): seq<Record>
    requires |names| == |exs|
    decreases |exs|
  {
    if exs == [] then []
    else
      var n := |exs| - 1;
      Results(s, names[..n], exs[..n]) + [Finish(s, names[n], exs[n], Seen(exs[..n]))]
  }

  /** `resultados` after the files `fs`. */
  function Records(s: Setup, fs: seq<PdfFile>): seq<Record>
    requires WellFormedTable(s.templates)
  {
    Results(s, Names(fs), Examinations(s, fs))
  }

  /**
    * `procesar_directorio_facturas()`: `None` when it returns early, with no
    * directory or no PDF in it, leaving `self.resultados` alone; otherwise
    * the records of the PDF files.
    */
  function ProcessDirectory(s: Setup, listing: Option<seq<PdfFile>>): Option<seq<Record>>
    requires WellFormedTable(s.templates)
  {
    if listing.None? || PdfFiles(listing.value) == [] then None
    else Some(Records(s, PdfFiles(listing.value)))
  }

  // ---------------------------------------------------------------- lemmas

  /** An earlier file examined as an extracted invoice with key `k`. */
  predicate ExtractedBefore(exs: seq<Examined>, i: int, k: Key)
    requires 0 <= i <= |exs|
  {
    exists j :: 0 <= j < i && exs[j].Extracted? && KeyOf(exs[j].rec) == k
  }

  /** The key set holds exactly the keys of the invoices extracted so far. */
  lemma {:induction false} SeenIff(exs: seq<Examined>, k: Key)
    ensures k in Seen(exs) <==> ExtractedBefore(exs, |exs|, k)
    decreases |exs|
  {
    if exs != [] {
      var init := exs[..|exs| - 1];
      SeenIff(init, k);
      if ExtractedBefore(exs, |exs|, k) {
        var j :| 0 <= j < |exs| && exs[j].Extracted? && KeyOf(exs[j].rec) == k;
        if j < |init| {
          assert init[j] == exs[j];
        }
      }
      if ExtractedBefore(init, |init|, k) {
        var j :| 0 <= j < |init| && init[j].Extracted? && KeyOf(init[j].rec) == k;
        assert exs[j] == init[j];
      }
    }
  }

  /** One more file appends its record, judged against the keys seen so far, and adds its key when extracted. */
  lemma ResultsStep(s: Setup, names: seq<string>, exs: seq<Examined>, i: int)
    requires |names| == |exs| && 0 <= i < |exs|
    ensures Results(s, names[..i + 1], exs[..i + 1]) == Results(s, names[..i], exs[..i]) + [Finish(s, names[i], exs[i], Seen(exs[..i]))]
    ensures Seen(exs[..i + 1]) == Seen(exs[..i]) + (if exs[i].Extracted? then {KeyOf(exs[i].rec)} else {})
  {
    assert names[..i + 1][..i] == names[..i] && exs[..i + 1][..i] == exs[..i];
  }

  /** One record per file, in order; each is its file's, judged against the files before it. */
  lemma {:induction false} ResultsAt(s: Setup, names: seq<string>, exs: seq<Examined>)
    requires |names| == |exs|
    ensures |Results(s, names, exs)| == |exs|
    ensures forall i :: 0 <= i < |exs| ==> Results(s, names, exs)[i] == Finish(s, names[i], exs[i], Seen(exs[..i]))
    decreases |exs|
  {
    if exs != [] {
      var n := |exs| - 1;
      ResultsAt(s, names[..n], exs[..n]);
      forall i | 0 <= i < |exs|
        ensures Results(s, names, exs)[i] == Finish(s, names[i], exs[i], Seen(exs[..i]))
      {
        if i < n {
          assert names[i] == names[..n][i] && exs[i] == exs[..n][i] && exs[..i] == exs[..n][..i];
        }
      }
    }
  }

  /**
    * An extracted invoice is marked as a duplicate exactly when an invoice
    * with the same (CIF, NumFactura, FechaFactura) was extracted from an
    * earlier file; a duplicate also carries the reason.
    */
  lemma ResultsDuplicateIff(s: Setup, names: seq<string>, exs: seq<Examined>, i: int)
    requires |names| == |exs| && 0 <= i < |exs| && exs[i].Extracted?
    ensures |Results(s, names, exs)| == |exs|
    ensures var r, k := Results(s, names, exs)[i], KeyOf(exs[i].rec);
      && "_Duplicado" in r && r["_Duplicado"] == JBool(ExtractedBefore(exs, i, k))
      && (ExtractedBefore(exs, i, k) ==> "_Motivo_Duplicado" in r && r["_Motivo_Duplicado"] == JStr(DuplicateReason))
  {
    ResultsAt(s, names, exs);
    var k := KeyOf(exs[i].rec);
    SeenIff(exs[..i], k);
    if ExtractedBefore(exs, i, k) {
      var j :| 0 <= j < i && exs[j].Extracted? && KeyOf(exs[j].rec) == k;
      assert exs[..i][j] == exs[j];
    }
    if ExtractedBefore(exs[..i], i, k) {
      var j :| 0 <= j < i && exs[..i][j].Extracted? && KeyOf(exs[..i][j].rec) == k;
      assert exs[..i][j] == exs[j];
    }
  }

  /**
    * The first invoice with a given key is recorded as not a duplicate and
    * every later one as a duplicate with its reason.
    */
  lemma DuplicateIff(s: Setup, fs: seq<PdfFile>, i: int)
    requires WellFormedTable(s.templates) && 0 <= i < |fs| && Examine(s, fs[i]).Extracted?
    ensures |Records(s, fs)| == |fs|
    ensures var r, k := Records(s, fs)[i], KeyOf(Examine(s, fs[i]).rec);
      var earlier := exists j :: 0 <= j < i && Examine(s, fs[j]).Extracted? && KeyOf(Examine(s, fs[j]).rec) == k;
      && "_Duplicado" in r && r["_Duplicado"] == JBool(earlier)
      && (earlier ==> "_Motivo_Duplicado" in r && r["_Motivo_Duplicado"] == JStr(DuplicateReason))
  {
    var exs := Examinations(s, fs);
    ResultsDuplicateIff(s, Names(fs), exs, i);
  }

  /** Apart from the duplicate marks, an extracted invoice's record is the one extraction produced. */
  lemma ExtractedKept(s: Setup, names: seq<string>, exs: seq<Examined>, i: int, c: string)
    requires |names| == |exs| && 0 <= i < |exs| && exs[i].Extracted?
    requires c != "_Duplicado" && c != "_Motivo_Duplicado"
    ensures |Results(s, names, exs)| == |exs|
    ensures var r, x := Results(s, names, exs)[i], exs[i].rec;
      (c in r <==> c in x) && (c in x ==> r[c] == x[c])
  {
    ResultsAt(s, names, exs);
  }

  /**
    * A file no template identifies leaves a record with empty standard
    * columns but the quarter and year, `NO_IDENTIFICADO` as provider, and
    * the reason as error.
    */
  lemma UnidentifiedRecord(s: Setup, fs: seq<PdfFile>, i: int)
    requires WellFormedTable(s.templates) && 0 <= i < |fs|
    requires Identification.Identify(s.templates, fs[i].1) == None
    ensures |Records(s, fs)| == |fs|
    ensures var r := Records(s, fs)[i];
      && r == ErrorRecord(s, fs[i].0, NotIdentified, NotIdentifiedMessage)
      && r["_Proveedor_ID"] == JStr(NotIdentified) && r["_Error"] == JStr(NotIdentifiedMessage)
      && r["_Archivo"] == JStr(fs[i].0)
      && (forall c :: c in StandardColumns && c != "Trimestre" && c != "A\U{f1}o" ==> r[c] == JStr(""))
  {
    ResultsAt(s, Names(fs), Examinations(s, fs));
    ErrorRecordShape(s, fs[i].0, NotIdentified, NotIdentifiedMessage);
  }

  lemma ErrorRecordShape(s: Setup, fileName: string, pid: string, message: string)
    ensures var r := ErrorRecord(s, fileName, pid, message);
      && (forall c :: c in StandardColumns ==> c in r)
      && (forall c :: c in StandardColumns && c != "Trimestre" && c != "A\U{f1}o" ==> r[c] == JStr(""))
      && r["Trimestre"] == JStr(s.quarter) && r["A\U{f1}o"] == JStr(s.year)
      && r["_Proveedor_ID"] == JStr(pid) && r["_Error"] == JStr(message) && r["_Archivo"] == JStr(fileName)
  {
    var r := ErrorRecord(s, fileName, pid, message);
    forall k | 0 <= k < |StandardColumns|
      ensures StandardColumns[k] in r
      ensures StandardColumns[k] != "Trimestre" && StandardColumns[k] != "A\U{f1}o" ==> r[StandardColumns[k]] == JStr("")
    {
    }
  }

  /** Every file that is not an extracted invoice yields a record with `_Error`. */
  lemma FailuresCarryError(s: Setup, names: seq<string>, exs: seq<Examined>, i: int)
    requires |names| == |exs| && 0 <= i < |exs| && !exs[i].Extracted?
    ensures |Results(s, names, exs)| == |exs|
    ensures "_Error" in Results(s, names, exs)[i]
  {
    ResultsAt(s, names, exs);
  }

  /** Every value but the `_Duplicado` flag is a string. */
  predicate TextBesidesFlag(rec: Record) {
    forall k :: k in rec && k != "_Duplicado" ==> rec[k].JStr?
  }

  lemma ExamineText(s: Setup, f: PdfFile)
    requires WellFormedTable(s.templates)
    ensures Examine(s, f).Extracted? ==> TextValued(Examine(s, f).rec)
  {
    match Identification.Identify(s.templates, f.1)
    case None =>
    case Some(pid) =>
      Identification.IdentifyIdentityText(s.templates, f.1);
      ExtractInvoiceText(s.templates, s.quarter, s.year, pid, f.0, f.1, s.now);
  }

  /** Every record of the run holds strings, apart from the boolean `_Duplicado`. */
  lemma RecordsText(s: Setup, fs: seq<PdfFile>, i: int)
    requires WellFormedTable(s.templates) && 0 <= i < |fs|
    ensures |Records(s, fs)| == |fs| && TextBesidesFlag(Records(s, fs)[i])
  {
    var exs := Examinations(s, fs);
    ResultsAt(s, Names(fs), exs);
    assert Records(s, fs)[i] == Finish(s, fs[i].0, exs[i], Seen(exs[..i]));
    ExamineText(s, fs[i]);
    FinishText(s, fs[i].0, exs[i], Seen(exs[..i]));
  }

  lemma FinishText(s: Setup, fileName: string, e: Examined, seen: set<Key>)
    requires e.Extracted? ==> TextValued(e.rec)
    ensures TextBesidesFlag(Finish(s, fileName, e, seen))
  {
  }

  /** Only `.pdf` files, any case, are processed: a file is kept iff it is listed and has a PDF name. */
  lemma {:induction false} PdfFilesIff(listing: seq<PdfFile>)
    ensures forall f :: f in PdfFiles(listing) <==> f in listing && IsPdfName(f.0)
    decreases |listing|
  {
    if listing != [] {
      var init := listing[..|listing| - 1];
      PdfFilesIff(init);
      assert listing == init + [listing[|listing| - 1]];
    }
  }

  /**
    * The PDF files keep their listing order: those of an earlier part of the
    * listing come first, each part filtered on its own.
    */
  lemma {:induction false} PdfFilesAppend(a: seq<PdfFile>, b: seq<PdfFile>)
    ensures PdfFiles(a + b) == PdfFiles(a) + PdfFiles(b)
    decreases |b|
  {
    if b == [] {
      assert a + b == a;
    } else {
      var init := b[..|b| - 1];
      PdfFilesAppend(a, init);
      assert (a + b)[..|a + b| - 1] == a + init;
      assert (a + b)[|a + b| - 1] == b[|b| - 1];
    }
  }
}
