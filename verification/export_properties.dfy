/**
 * What the export promises: the names of the two files, the manifest's
 * defaults and its independence from page changes, which rotations end up in
 * the document, which pages get balloons, and when the export is refused or
 * fails.
 */
module ExportProperties {
  import opened Wrappers
  import opened Text
  import opened Domain
  import opened NumberParser
  import opened PageDict
  import opened PageState
  import opened Session
  import opened SessionProperties
  import opened Export

  // ---------------------------------------------------------------------------
  // Output names

  /** The PDF path ends in `.pdf`, starts with the chosen path, and is left alone when already suffixed. */
  lemma PdfPathShape(chosen: string)
    ensures EndsWithPdf(PdfPath(chosen))
    ensures PdfPath(chosen)[..|chosen|] == chosen
    ensures PdfPath(PdfPath(chosen)) == PdfPath(chosen)
    ensures EndsWithPdf(chosen) <==> PdfPath(chosen) == chosen
  {
    if !EndsWithPdf(chosen) {
      var p := chosen + ".pdf";
      assert p[|p| - 4..] == ".pdf";
    }
  }

  /** Upper and lower case are both accepted: `plan.PDF` is kept as it is. */
  lemma PdfSuffixIgnoresCase(base: string)
    ensures PdfPath(base + ".PDF") == base + ".PDF"
    ensures PdfPath(base + ".Pdf") == base + ".Pdf"
  {
    var p := base + ".PDF";
    var q := base + ".Pdf";
    assert p[|p| - 4..] == ".PDF";
    assert q[|q| - 4..] == ".Pdf";
  }

  /** `LastIndexOf` finds `c`, and no `c` comes after what it finds. */
  lemma {:induction false} LastIndexOfSpec(s: string, c: char)
    ensures LastIndexOf(s, c) >= 0 ==> s[LastIndexOf(s, c)] == c
    ensures forall j :: LastIndexOf(s, c) < j < |s| ==> s[j] != c
    decreases |s|
  {
    if s != [] && s[|s| - 1] != c {
      var t := s[..|s| - 1];
      LastIndexOfSpec(t, c);
      assert forall j :: 0 <= j < |t| ==> t[j] == s[j];
    }
  }

  /** Conversely, a position holding `c` (or -1) with no `c` after it is what `LastIndexOf` returns. */
  lemma {:induction false} LastIndexOfIs(s: string, c: char, i: int)
    requires -1 <= i < |s|
    requires i >= 0 ==> s[i] == c
    requires forall j :: i < j < |s| ==> s[j] != c
    ensures LastIndexOf(s, c) == i
    decreases |s|
  {
    if s != [] && i < |s| - 1 {
      var t := s[..|s| - 1];
      assert forall j :: 0 <= j < |t| ==> t[j] == s[j];
      LastIndexOfIs(t, c, i);
    }
  }

  /** The name of a path holds no `/` and the path is its parent followed by its name. */
  lemma NameSplit(p: string)
    ensures Parent(p) + Name(p) == p
    ensures forall j :: 0 <= j < |Name(p)| ==> Name(p)[j] != '/'
  {
    var k := LastIndexOf(p, '/');
    LastIndexOfSpec(p, '/');
    assert p[..k + 1] + p[k + 1..] == p;
    forall j | 0 <= j < |Name(p)| ensures Name(p)[j] != '/' {
      assert Name(p)[j] == p[k + 1 + j];
    }
  }

  /** The four characters of a `.pdf` suffix, in any case: a dot, then three that are neither `.` nor `/`. */
  lemma PdfSuffixChars(p: string)
    requires EndsWithPdf(p)
    ensures p[|p| - 4] == '.'
    ensures forall j :: |p| - 4 < j < |p| ==> p[j] != '.' && p[j] != '/'
  {
  }

  /**
   * The manifest is written beside the PDF: the PDF path with its last four
   * characters (`.pdf` in some case) replaced by `.json`; a PDF named only
   * `.pdf` has no suffix for `with_suffix`, and gets `.json` appended.
   */
  lemma JsonBesidePdf(pdfPath: string)
    requires EndsWithPdf(pdfPath)
    ensures |Name(pdfPath)| > 4 ==> JsonPath(pdfPath) == pdfPath[..|pdfPath| - 4] + ".json"
    ensures |Name(pdfPath)| <= 4 ==> JsonPath(pdfPath) == pdfPath + ".json"
  {
    var p := pdfPath;
    var k := LastIndexOf(p, '/');
    assert k < |p| - 4 by {
      PdfSuffixChars(p);
      LastIndexOfSpec(p, '/');
    }
    var name := p[k + 1..];
    var n := |name|;
    assert LastIndexOf(name, '.') == n - 4 by {
      PdfSuffixChars(p);
      assert forall j :: n - 4 <= j < n ==> name[j] == p[k + 1 + j];
      LastIndexOfIs(name, '.', n - 4);
    }
    if n > 4 {
      assert Stem(name) == name[..n - 4];
      assert p[..k + 1] + name[..n - 4] == p[..|p| - 4];
    } else {
      assert Stem(name) == name;
      assert p[..k + 1] + name == p;
    }
  }

  /** The proposed name drops the directory and the `.pdf` of the open file. */
  lemma DefaultOutputNameOfPdf(dir: string, base: string)
    requires base != [] && forall j :: 0 <= j < |base| ==> base[j] != '/' && base[j] != '.'
    ensures DefaultOutputName(dir + "/" + base + ".pdf") == base + "_baloneado"
  {
    var p := dir + "/" + base + ".pdf";
    var k := |dir|;
    forall j | k < j < |p| ensures p[j] != '/' {
      if j < k + 1 + |base| { assert p[j] == base[j - k - 1]; }
    }
    LastIndexOfIs(p, '/', k);
    var name := Name(p);
    assert name == base + ".pdf";
    forall j | |base| < j < |name| ensures name[j] != '.' {
    }
    LastIndexOfIs(name, '.', |base|);
    assert Stem(name) == base;
  }

  // ---------------------------------------------------------------------------
  // The manifest

  lemma ParseZero()
    ensures ParseFractionOrDecimal("0") == 0.0
    ensures ParseFractionOrDecimal("0.0") == 0.0
  {
    ParseInteger(0);
    assert IntToString(0) == "0";
    ParseDecimalText("0", "0");
    assert "0" + "." + "0" == "0.0";
  }

  /** A numeric cell is read as its text, `0` when it is missing. */
  lemma CellNumberParsesDefault(cell: Option<string>)
    ensures CellNumber(cell) == ParseFractionOrDecimal(cell.GetOr("0"))
  {
    if cell.None? {
      ParseZero();
    }
  }

  /** A row without cells exports as `D{i+1}`, zeros, Vernier, mm and no notes. */
  lemma DimensionDefaults(i: nat)
    ensures DimensionOf(i, Row(None, None, None, None, None, None, None))
         == Dimension(DefaultName(i + 1), 0.0, 0.0, 0.0, "Vernier", "mm", "")
  {
  }

  /** A complete row exports its texts verbatim and its three numbers parsed. */
  lemma DimensionOfCompleteRow(i: nat, r: Row)
    requires r.Complete()
    ensures var d := DimensionOf(i, r);
      && d.name == r.name.value && d.instrument == r.instrument.value
      && d.unit == r.unit.value && d.notes == r.notes.value
      && d.nominal == ParseFractionOrDecimal(r.nominal.value)
      && d.tolPlus == ParseFractionOrDecimal(r.tolPlus.value)
      && d.tolMinus == ParseFractionOrDecimal(r.tolMinus.value)
  {
  }

  /**
   * Saving a row and putting it back does not change what it exports, even
   * when cells are missing: the save writes `0.0` where the export reads `0`,
   * and both parse to zero. Only an instrument the combo box does not offer
   * would change.
   */
  lemma DimensionSurvivesSave(i: nat, r: Row)
    requires r.instrument.None? || r.instrument.value in Instruments
    ensures DimensionOf(i, RowOf(RecordOf(i, r))) == DimensionOf(i, r)
  {
    NumberSurvivesSave(r.nominal);
    NumberSurvivesSave(r.tolPlus);
    NumberSurvivesSave(r.tolMinus);
  }

  /** A numeric cell saved as its text, or `0.0` when missing, reads as before. */
  lemma NumberSurvivesSave(cell: Option<string>)
    ensures CellNumber(Some(cell.GetOr("0.0"))) == CellNumber(cell)
  {
    if cell.None? {
      ParseZero();
    }
  }

  /** The manifest has one dimension per row of the table on screen, in order, and version 1. */
  lemma ManifestShape(rows: seq<Row>)
    ensures |ManifestOf(rows).dimensions| == |rows|
    ensures ManifestOf(rows).version == 1
    ensures forall i :: 0 <= i < |rows| ==> ManifestOf(rows).dimensions[i] == DimensionOf(i, rows[i])
  {
  }

  /** Leaving a page and coming back to it does not change the manifest it exports. */
  lemma ManifestSurvivesPageChange(s: Session)
    requires Valid(s) && s.page + 1 < |s.doc|
    ensures ManifestOf(PrevPage(NextPage(s)).live.rows) == ManifestOf(s.live.rows)
  {
    NextPrevRoundTrip(s);
  }

  // ---------------------------------------------------------------------------
  // Rotations written into the document

  /** The rotations are all written exactly when every non-zero one belongs to a page of the document. */
  lemma {:induction false} ApplyRotationsOk(doc: seq<Page>, rotations: seq<Entry<int>>)
    ensures ApplyRotations(doc, rotations).ok
        <==> forall i :: 0 <= i < |rotations| && rotations[i].value != 0 ==> rotations[i].key < |doc|
    decreases |rotations|
  {
    if rotations != [] {
      var e := rotations[0];
      var next := if e.value != 0 && e.key < |doc| then doc[e.key := doc[e.key].(rotation := e.value)] else doc;
      ApplyRotationsOk(next, rotations[1..]);
      assert forall i :: 1 <= i < |rotations| ==> rotations[i] == rotations[1..][i - 1];
    }
  }

  /** Page `k` after the rotations: its stored non-zero rotation, if any. */
  function RotatedPage(p: Page, stored: Option<int>): Page {
    if stored.Some? && stored.value != 0 then p.(rotation := stored.value) else p
  }

  /** When the rotations are all written, each page carries its stored non-zero rotation. */
  lemma {:induction false} ApplyRotationsPages(doc: seq<Page>, rotations: seq<Entry<int>>)
    requires Distinct(rotations)
    requires ApplyRotations(doc, rotations).ok
    ensures forall k :: 0 <= k < |doc| ==>
      ApplyRotations(doc, rotations).pages[k] == RotatedPage(doc[k], Get(rotations, k))
    decreases |rotations|
  {
    if rotations != [] {
      var e := rotations[0];
      var rest := rotations[1..];
      var next := if e.value != 0 then doc[e.key := doc[e.key].(rotation := e.value)] else doc;
      ApplyRotationsPages(next, rest);
      forall k | 0 <= k < |doc|
        ensures ApplyRotations(doc, rotations).pages[k] == RotatedPage(doc[k], Get(rotations, k))
      {
        if k == e.key {
          GetKeys(rest, k);
        }
      }
    }
  }

  // ---------------------------------------------------------------------------
  // Pages that get balloons

  lemma DrawnPagesCons(d: PageDraw, rest: seq<PageDraw>)
    ensures DrawnPages([d] + rest) == [d.page] + DrawnPages(rest)
  {
  }

  /** A page gets balloons drawn exactly when it exists and its stored snapshot has balloons. */
  lemma {:induction false} PageDrawnIff(pages: seq<Page>, store: seq<Entry<PageSnapshot>>, textWidth: (string, real) -> real, p: nat)
    requires Distinct(store)
    ensures p in DrawnPages(PageDraws(pages, store, textWidth))
        <==> p < |pages| && Get(store, p).Some? && |Get(store, p).value.balloons| > 0
    decreases |store|
  {
    if store != [] {
      var e := store[0];
      var rest := store[1..];
      PageDrawnIff(pages, rest, textWidth, p);
      var tail := PageDraws(pages, rest, textWidth);
      if !(e.key >= |pages| || |e.value.balloons| == 0) {
        DrawnPagesCons(PageDraw(e.key, DrawPage(pages[e.key], e.value.balloons, textWidth)), tail);
      }
      if p == e.key {
        GetKeys(rest, p);
      }
    }
  }

  /** Each drawn page gets one drawing per balloon of its stored snapshot, in order. */
  lemma {:induction false} PageDrawContent(pages: seq<Page>, store: seq<Entry<PageSnapshot>>, textWidth: (string, real) -> real, d: PageDraw)
    requires Distinct(store)
    requires d in PageDraws(pages, store, textWidth)
    ensures d.page < |pages| && Get(store, d.page).Some?
    ensures d.balloons == DrawPage(pages[d.page], Get(store, d.page).value.balloons, textWidth)
    decreases |store|
  {
    var e := store[0];
    var rest := store[1..];
    var tail := PageDraws(pages, rest, textWidth);
    if d in tail {
      PageDrawContent(pages, rest, textWidth, d);
      GetKeys(rest, d.page);
    }
  }

  // ---------------------------------------------------------------------------
  // The export

  /** The export is refused without rows, then without a document, and does nothing when cancelled. */
  lemma ExportRefusals(s: Session, chosen: string, textWidth: (string, real) -> real)
    ensures |s.live.rows| == 0 ==> ExportPdf(s, chosen, textWidth) == (s, NoDimensions)
    ensures |s.live.rows| > 0 && (s.path == [] || |s.doc| == 0) ==> ExportPdf(s, chosen, textWidth) == (s, NoDocument)
    ensures |s.live.rows| > 0 && s.path != [] && |s.doc| > 0 && chosen == [] ==> ExportPdf(s, chosen, textWidth) == (s, Cancelled)
  {
  }

  /**
   * A successful export names a `.pdf` file and the `.json` beside it, takes
   * the manifest from the table on screen, and has saved the page on screen
   * first: its balloons, if it has any, are among the drawn pages.
   */
  lemma ExportedShape(s: Session, chosen: string, textWidth: (string, real) -> real)
    requires Valid(s)
    requires ExportPdf(s, chosen, textWidth).1.Exported?
    ensures var (t, out) := ExportPdf(s, chosen, textWidth);
      && out.pdfPath == PdfPath(chosen) && EndsWithPdf(out.pdfPath)
      && out.jsonPath == JsonPath(out.pdfPath)
      && out.manifest == ManifestOf(s.live.rows)
      && Get(t.store.balloonsByPage, s.page) == Some(Snapshot(s.live))
      && (|s.live.balloons| > 0 <==> s.page in DrawnPages(out.draws))
  {
    PdfPathShape(chosen);
    SaveKeepsStoreValid(s);
    var saved := SaveCurrent(s);
    PageDrawnIff(ApplyRotations(saved.doc, saved.store.rotationByPage).pages, saved.store.balloonsByPage, textWidth, s.page);
  }

  /** A non-zero rotation stored for a page the document does not have makes the generation fail. */
  lemma ExportFailsOnStaleRotation(s: Session, chosen: string, textWidth: (string, real) -> real, j: nat)
    requires Valid(s) && |s.live.rows| > 0 && s.path != [] && |s.doc| > 0 && chosen != []
    requires j < |s.store.rotationByPage|
    requires s.store.rotationByPage[j].key >= |s.doc| && s.store.rotationByPage[j].value != 0
    ensures ExportPdf(s, chosen, textWidth).1 == GenerationFailed
  {
    var e := s.store.rotationByPage[j];
    var rs := Put(s.store.rotationByPage, s.page, s.rotation);
    PutKeepsOther(s.store.rotationByPage, s.page, s.rotation, j);
    var i :| 0 <= i < |rs| && rs[i] == e;
    ApplyRotationsOk(s.doc, rs);
  }

  /** An entry under another key survives an assignment. */
  lemma {:induction false} PutKeepsOther<V>(d: seq<Entry<V>>, k: nat, v: V, j: nat)
    requires j < |d| && d[j].key != k
    ensures exists i :: 0 <= i < |Put(d, k, v)| && Put(d, k, v)[i] == d[j]
  {
    if d[0].key == k {
      assert Put(d, k, v)[j] == d[j];
    } else if j == 0 {
      assert Put(d, k, v)[0] == d[0];
    } else {
      PutKeepsOther(d[1..], k, v, j - 1);
      var i :| 0 <= i < |Put(d[1..], k, v)| && Put(d[1..], k, v)[i] == d[1..][j - 1];
      assert Put(d, k, v)[i + 1] == d[j];
    }
  }

  /** The export keeps the invariant, whatever its outcome. */
  lemma ExportKeepsValid(s: Session, chosen: string, textWidth: (string, real) -> real)
    requires Valid(s)
    ensures Valid(ExportPdf(s, chosen, textWidth).0)
  {
    SaveKeepsStoreValid(s);
  }
}
