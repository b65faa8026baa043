/**
  * `identificar_proveedor`: which loaded template a PDF belongs to, judged on
  * its first page by the template's identification fields.
  */
module Identification {
  import opened Wrappers
  import opened Text
  import opened Json
  import opened Pdf
  import opened Templates
  import Similarity

  /** What trying one template gives: it matches, it does not, or it raises and ends identification. */
  datatype Trial = Match | NoMatch | Abort

  /** The CIF and the name read so far from identification fields; `None` until one is read. */
  datatype IdTexts = IdTexts(cif: Option<string>, name: Option<string>)

  /**
    * `texto.strip().lower()` of a crop: no text counts as "", and a crop that
    * raises yields nothing (the field is skipped).
    */
  function CropText(page: Page, coords: seq<Json>): Option<string> {
    match page.crop(coords)
    case Raises => None
    case NoText => Some("")
    case Text(s) => Some(Lower(Strip(s)))
  }

  /**
    * One entry of `campos` in the identification loop: only a field whose
    * `es_identificacion` is truthy is read, and it sets the CIF or the name
    * when it is called `CIF_Identificacion` or `Nombre_Identificacion`.
    */
  function ReadIdField(acc: IdTexts, f: Json, page: Page): IdTexts
    requires FieldValid(f)
  {
    if !Truthy(Get(f.fields, "es_identificacion", JBool(false))) then acc
    else match CropText(page, f.fields["coordenadas"].items)
      case None => acc
      case Some(t) =>
        if f.fields["nombre"] == JStr("CIF_Identificacion") then IdTexts(Some(t), acc.name)
        else if f.fields["nombre"] == JStr("Nombre_Identificacion") then IdTexts(acc.cif, Some(t))
        else acc
  }

  /** The loop over the first `|fs|` fields: the last field read of each kind wins. */
  function ReadIdFields(fs: seq<Json>, page: Page): IdTexts
    requires forall k :: 0 <= k < |fs| ==> FieldValid(fs[k])
    decreases |fs|
  {
    if fs == [] then IdTexts(None, None)
    else ReadIdField(ReadIdFields(fs[..|fs| - 1], page), fs[|fs| - 1], page)
  }

  /** Python's truth value of a text read from the page: read, and not empty. */
  predicate Present(t: Option<string>) {
    t.Some? && t.value != []
  }

  /**
    * The verdict on one template once its fields are read: a template CIF or
    * name that is present but not a string raises; then an exact CIF match,
    * then a name match at 85 %, compare both sides stripped and lowercased.
    */
  function Judge(t: Json, read: IdTexts): Trial
    requires WellFormedTemplate(t)
  {
    var cifT := Get(t.fields, "cif_proveedor", JStr(""));
    var nameT := t.fields["nombre_proveedor"];
    if !cifT.JStr? || !nameT.JStr? then Abort
    else
      var cp, np := Lower(Strip(cifT.s)), Lower(Strip(nameT.s));
      if Present(read.cif) && cp != [] && read.cif.value == cp then Match
      else if Present(read.name) && np != [] && Similarity.NameMatches(read.name.value, np) then Match
      else NoMatch
  }

  function TryTemplate(t: Json, page: Page): Trial
    requires WellFormedTemplate(t)
  {
    Judge(t, ReadIdFields(TemplateFields(t), page))
  }

  /** The verdict on each loaded template, in load order. */
  function Verdicts(ts: TemplateTable, page: Page): (vs: seq<Trial>)
    requires WellFormedTable(ts)
    ensures |vs| == |ts| && forall k :: 0 <= k < |ts| ==> vs[k] == TryTemplate(ts[k].1, page)
  {
    seq(|ts|, k requires 0 <= k < |ts| => TryTemplate(ts[k].1, page))
  }

  /** The id of the first template whose verdict is a match; `None` as soon as one raises, or when none matches. */
  function FirstOf(ts: TemplateTable, vs: seq<Trial>): Option<string>
    requires |vs| == |ts|
  {
    if ts == [] then None
    else match vs[0]
      case Match => Some(ts[0].0)
      case Abort => None
      case NoMatch => FirstOf(ts[1..], vs[1..])
  }

  /** The loop over `plantillas_cargadas.items()` on one page. */
  function FirstMatch(ts: TemplateTable, page: Page): Option<string>
    requires WellFormedTable(ts)
  {
    FirstOf(ts, Verdicts(ts, page))
  }

  /** `identificar_proveedor(ruta_pdf)`: only the first page is read; no PDF or no page gives `None`. */
  function Identify(ts: TemplateTable, doc: Document): Option<string>
    requires WellFormedTable(ts)
  {
    if doc.Unreadable? || doc.pages == [] then None
    else FirstMatch(ts, doc.pages[0])
  }

  // ---------------------------------------------------------------- lemmas

  /**
    * `FirstOf` names a template exactly when its verdict is a match and every
    * template before it was tried without matching or raising.
    */
  lemma {:induction false} FirstOfIff(ts: TemplateTable, vs: seq<Trial>, id: string)
    requires |vs| == |ts| && UniqueIds(ts)
    ensures FirstOf(ts, vs) == Some(id) <==>
      exists k :: 0 <= k < |ts| && ts[k].0 == id && vs[k] == Match && forall j :: 0 <= j < k ==> vs[j] == NoMatch
  {
    if ts != [] {
      var rest, vr := ts[1..], vs[1..];
      assert UniqueIds(rest) by {
        forall i, j | 0 <= i < j < |rest| ensures rest[i].0 != rest[j].0 { assert rest[i] == ts[i + 1] && rest[j] == ts[j + 1]; }
      }
      FirstOfIff(rest, vr, id);
      if FirstOf(ts, vs) == Some(id) && vs[0] == NoMatch {
        var k :| 0 <= k < |rest| && rest[k].0 == id && vr[k] == Match && forall j :: 0 <= j < k ==> vr[j] == NoMatch;
        assert ts[k + 1] == rest[k] && vs[k + 1] == vr[k];
        assert forall j :: 1 <= j < k + 1 ==> vs[j] == vr[j - 1];
      }
      if exists k :: 0 <= k < |ts| && ts[k].0 == id && vs[k] == Match && forall j :: 0 <= j < k ==> vs[j] == NoMatch {
        var k :| 0 <= k < |ts| && ts[k].0 == id && vs[k] == Match && forall j :: 0 <= j < k ==> vs[j] == NoMatch;
        if k > 0 {
          assert rest[k - 1] == ts[k] && vr[k - 1] == vs[k];
          assert forall j :: 0 <= j < k - 1 ==> vr[j] == vs[j + 1];
        }
      }
    }
  }

  /** `FirstOf` only ever names a template whose verdict is a match. */
  lemma {:induction false} FirstOfLoaded(ts: TemplateTable, vs: seq<Trial>)
    requires |vs| == |ts|
    ensures FirstOf(ts, vs).Some? ==> exists k :: 0 <= k < |ts| && ts[k].0 == FirstOf(ts, vs).value && vs[k] == Match
  {
    if ts != [] && vs[0] == NoMatch {
      FirstOfLoaded(ts[1..], vs[1..]);
      if FirstOf(ts[1..], vs[1..]).Some? {
        var k :| 0 <= k < |ts[1..]| && ts[1..][k].0 == FirstOf(ts[1..], vs[1..]).value && vs[1..][k] == Match;
        assert ts[k + 1] == ts[1..][k] && vs[k + 1] == vs[1..][k];
      }
    }
  }

  /**
    * The template identification names has a string CIF (or none) and a
    * string provider name: every template up to it was judged without raising.
    */
  lemma {:induction false} FirstOfIdentityText(ts: TemplateTable, vs: seq<Trial>, id: string)
    requires |vs| == |ts| && forall k :: 0 <= k < |ts| && vs[k] != Abort ==> IdentityIsText(ts[k].1)
    requires FirstOf(ts, vs) == Some(id)
    ensures Lookup(ts, id).Some? && IdentityIsText(Lookup(ts, id).value)
    decreases |ts|
  {
    FirstOfHead(ts, vs, id);
    if ts[0].0 != id {
      var rest, vr := ts[1..], vs[1..];
      forall k | 0 <= k < |rest| && vr[k] != Abort ensures IdentityIsText(rest[k].1) {
        assert rest[k] == ts[k + 1] && vr[k] == vs[k + 1];
      }
      FirstOfIdentityText(rest, vr, id);
    }
  }

  /** Where `FirstOf` names `id`, the first verdict did not raise, and either names `id` or passes on to the rest. */
  lemma FirstOfHead(ts: TemplateTable, vs: seq<Trial>, id: string)
    requires |vs| == |ts| && FirstOf(ts, vs) == Some(id)
    ensures ts != [] && vs[0] != Abort
    ensures ts[0].0 == id ==> Lookup(ts, id) == Some(ts[0].1)
    ensures ts[0].0 != id ==> FirstOf(ts[1..], vs[1..]) == Some(id) && Lookup(ts, id) == Lookup(ts[1..], id)
  {
  }

  /** A template judged without raising has a string CIF (or none) and a string provider name. */
  lemma JudgedIdentityText(t: Json, page: Page)
    requires WellFormedTemplate(t) && TryTemplate(t, page) != Abort
    ensures IdentityIsText(t)
  {
  }

  /** A template that `Identify` names has a string CIF (or none) and a string provider name. */
  lemma IdentifyIdentityText(ts: TemplateTable, doc: Document)
    requires WellFormedTable(ts) && Identify(ts, doc).Some?
    ensures Lookup(ts, Identify(ts, doc).value).Some? && IdentityIsText(Lookup(ts, Identify(ts, doc).value).value)
  {
    var page := doc.pages[0];
    var vs := Verdicts(ts, page);
    forall k | 0 <= k < |ts| && vs[k] != Abort ensures IdentityIsText(ts[k].1) {
      JudgedIdentityText(ts[k].1, page);
    }
    FirstOfIdentityText(ts, vs, Identify(ts, doc).value);
  }

  /**
    * Identification names a template exactly when it matches the page and
    * every template loaded before it was tried without matching or raising.
    */
  lemma FirstMatchIff(ts: TemplateTable, page: Page, id: string)
    requires WellFormedTable(ts) && UniqueIds(ts)
    ensures FirstMatch(ts, page) == Some(id) <==>
      exists k :: 0 <= k < |ts| && ts[k].0 == id && TryTemplate(ts[k].1, page) == Match
                  && forall j :: 0 <= j < k ==> TryTemplate(ts[j].1, page) == NoMatch
  {
    FirstOfIff(ts, Verdicts(ts, page), id);
  }

  /** Identification only ever names a loaded template, and one that matches the page. */
  lemma FirstMatchLoaded(ts: TemplateTable, page: Page)
    requires WellFormedTable(ts)
    ensures FirstMatch(ts, page).Some? ==>
      exists k :: 0 <= k < |ts| && ts[k].0 == FirstMatch(ts, page).value && TryTemplate(ts[k].1, page) == Match
  {
    FirstOfLoaded(ts, Verdicts(ts, page));
  }

  /** A PDF that cannot be opened, or has no page, is never identified. */
  lemma IdentifyNeedsPage(ts: TemplateTable, doc: Document)
    requires WellFormedTable(ts)
    ensures doc.Unreadable? || doc.pages == [] ==> Identify(ts, doc) == None
    ensures Identify(ts, doc).Some? ==> doc.Document? && doc.pages != [] && Identify(ts, doc).value in Ids(ts)
  {
    if Identify(ts, doc).Some? {
      FirstMatchLoaded(ts, doc.pages[0]);
    }
  }

  /** Only the first page counts: documents with the same first page are identified alike. */
  lemma IdentifyFirstPageOnly(ts: TemplateTable, p: Page, more1: seq<Page>, more2: seq<Page>)
    requires WellFormedTable(ts)
    ensures Identify(ts, Document([p] + more1)) == Identify(ts, Document([p] + more2))
  {
    assert ([p] + more1)[0] == p && ([p] + more2)[0] == p;
  }

  /**
    * A template matches whenever the CIF read from the page equals its own
    * CIF, stripped and lowercased, provided its CIF and name are strings.
    */
  lemma JudgeByCif(t: Json, read: IdTexts)
    requires WellFormedTemplate(t)
    requires Get(t.fields, "cif_proveedor", JStr("")).JStr? && t.fields["nombre_proveedor"].JStr?
    requires Present(read.cif) && read.cif.value == Lower(Strip(Get(t.fields, "cif_proveedor", JStr("")).s))
    ensures Judge(t, read) == Match
  {
  }

  /**
    * A name read from the page that normalises like the template's name
    * identifies it, whatever the case, punctuation and spacing.
    */
  lemma JudgeByName(t: Json, read: IdTexts)
    requires WellFormedTemplate(t)
    requires Get(t.fields, "cif_proveedor", JStr("")).JStr? && t.fields["nombre_proveedor"].JStr?
    requires Present(read.name) && Lower(Strip(t.fields["nombre_proveedor"].s)) != []
    requires Similarity.Normalize(read.name.value) == Similarity.Normalize(Lower(Strip(t.fields["nombre_proveedor"].s)))
    ensures Judge(t, read) == Match
  {
    Similarity.EqualNormalFormsMatch(read.name.value, Lower(Strip(t.fields["nombre_proveedor"].s)));
  }

  /** With nothing read from the page a template is never matched: no CIF and no name, no identification. */
  lemma JudgeNothingRead(t: Json)
    requires WellFormedTemplate(t)
    ensures Judge(t, IdTexts(None, None)) != Match
  {
  }

  /** A template without identification fields never matches. */
  lemma {:induction false} NoIdentificationFields(fs: seq<Json>, page: Page)
    requires forall k :: 0 <= k < |fs| ==> FieldValid(fs[k]) && !Truthy(Get(fs[k].fields, "es_identificacion", JBool(false)))
    ensures ReadIdFields(fs, page) == IdTexts(None, None)
    decreases |fs|
  {
    if fs != [] {
      NoIdentificationFields(fs[..|fs| - 1], page);
    }
  }
}
