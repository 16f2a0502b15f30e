/**
 * The export button: the checks made before anything is written, the names
 * of the two output files, the dimensions manifest built from the table on
 * screen, and the PDF generation, which saves the page on screen, writes the
 * stored rotations into the document and draws the balloons of every stored
 * page that exists and has balloons, in the order the pages were first saved.
 *
 * Paths are `/`-separated strings as the save dialog returns them.
 */
module Export {
  import opened Wrappers
  import opened Text
  import opened Domain
  import opened NumberParser
  import opened Projection
  import opened PageDict
  import opened PageState
  import opened Session

  // ---------------------------------------------------------------------------
  // Output names

  /** `s.rfind(c)`: the last position of `c`, or -1. */
  function LastIndexOf(s: string, c: char): (i: int)
    ensures -1 <= i < |s|
  {
    if s == [] then -1
    else if s[|s| - 1] == c then |s| - 1
    else LastIndexOf(s[..|s| - 1], c)
  }

  /** The directory part of a path, up to and including its last `/`. */
  function Parent(p: string): string {
    p[..LastIndexOf(p, '/') + 1]
  }

  /** `PurePath.name`: what follows the last `/`. */
  function Name(p: string): string {
    p[LastIndexOf(p, '/') + 1..]
  }

  /** Where `PurePath.suffix` starts: at the last dot, unless it is the first or the last character. */
  function SuffixStart(name: string): (k: nat)
    ensures k <= |name|
  {
    var i := LastIndexOf(name, '.');
    if 0 < i < |name| - 1 then i else |name|
  }

  /** `PurePath.stem`. */
  function Stem(name: string): string {
    name[..SuffixStart(name)]
  }

  /** `PurePath.suffix`. */
  function Suffix(name: string): string {
    name[SuffixStart(name)..]
  }

  /** `PurePath.with_suffix(suffix)` for a path whose name is not empty. */
  function WithSuffix(p: string, suffix: string): string {
    Parent(p) + Stem(Name(p)) + suffix
  }

  /** The name proposed by the save dialog: the stem of the open PDF and `_baloneado`. */
  function DefaultOutputName(pdfPath: string): string {
    Stem(Name(pdfPath)) + "_baloneado"
  }

  /** ASCII upper-case letters to lower case, as `str.lower()` does for them. */
  function LowerChar(c: char): char {
    if 'A' <= c <= 'Z' then (c as int + 32) as char else c
  }

  /** `p.lower().endswith('.pdf')`. */
  predicate EndsWithPdf(p: string) {
    |p| >= 4 && LowerChar(p[|p| - 4]) == '.' && LowerChar(p[|p| - 3]) == 'p'
    && LowerChar(p[|p| - 2]) == 'd' && LowerChar(p[|p| - 1]) == 'f'
  }

  /** The chosen path, with `.pdf` appended unless it already ends in it, in any case. */
  function PdfPath(chosen: string): string {
    if EndsWithPdf(chosen) then chosen else chosen + ".pdf"
  }

  /** `Path(pdf_path).with_suffix('.json')`. */
  function JsonPath(pdfPath: string): string {
    WithSuffix(pdfPath, ".json")
  }

  // ---------------------------------------------------------------------------
  // The manifest

  /** One entry of `dimensiones`. */
  datatype Dimension = Dimension(
    name: string,
    nominal: real,
    tolPlus: real,
    tolMinus: real,
    instrument: string,
    unit: string,
    notes: string)

  /** The JSON object written next to the PDF, without its creation date. */
  datatype Manifest = Manifest(dimensions: seq<Dimension>, version: int)

  const ManifestVersion: int := 1

  /**
   * The value of a numeric cell: its text parsed, or zero for a missing cell,
   * which is what the default text `0` parses to.
   */
  function CellNumber(cell: Option<string>): real {
    if cell.Some? then ParseFractionOrDecimal(cell.value) else 0.0
  }

  /** Row `i` of the table as `generate_dimensions_json` reads it, a missing cell read as its default. */
  function DimensionOf(i: nat, r: Row): Dimension {
    Dimension(
      r.name.GetOr(DefaultName(i + 1)),
      CellNumber(r.nominal),
      CellNumber(r.tolPlus),
      CellNumber(r.tolMinus),
      r.instrument.GetOr("Vernier"),
      r.unit.GetOr("mm"),
      r.notes.GetOr(""))
  }

  /** The dimensions of the table, one per row and in row order. */
  function Dimensions(rows: seq<Row>): seq<Dimension> {
    seq(|rows|, i requires 0 <= i < |rows| => DimensionOf(i, rows[i]))
  }

  function ManifestOf(rows: seq<Row>): Manifest {
    Manifest(Dimensions(rows), ManifestVersion)
  }

  // ---------------------------------------------------------------------------
  // PDF generation

  /** The document after the stored rotations were written, and whether every write succeeded. */
  datatype Rotated = Rotated(pages: seq<Page>, ok: bool)

  /**
   * The loop over `rotation_by_page.items()`: each non-zero rotation is set on
   * its page. A key that is not a page of the document raises, which ends the
   * loop; the pages already rotated stay rotated.
   */
  function ApplyRotations(doc: seq<Page>, rotations: seq<Entry<int>>): (r: Rotated)
    ensures |r.pages| == |doc|
    decreases |rotations|
  {
    if rotations == [] then Rotated(doc, true)
    else
      var e := rotations[0];
      if e.value == 0 then ApplyRotations(doc, rotations[1..])
      else if e.key < |doc| then ApplyRotations(doc[e.key := doc[e.key].(rotation := e.value)], rotations[1..])
      else Rotated(doc, false)
  }

  /** What is drawn on one page: its index and one drawing per balloon. */
  datatype PageDraw = PageDraw(page: nat, balloons: seq<BalloonDraw>)

  /**
   * The drawing of balloon `b` on `page`; `textWidth` stands for
   * `fitz.get_text_length`, the width of a text in Helvetica at a font size.
   */
  function DrawOn(page: Page, b: Balloon, textWidth: (string, real) -> real): BalloonDraw {
    var (w, h) := PageRect(page);
    DrawBalloon(b, page.rotation, w, h, textWidth(IntToString(b.number), FontSize(PageRadius(b.size))))
  }

  /** `draw_balloons_on_page(page, balloons, page_num)`. */
  function DrawPage(page: Page, balloons: seq<Balloon>, textWidth: (string, real) -> real): seq<BalloonDraw> {
    seq(|balloons|, i requires 0 <= i < |balloons| => DrawOn(page, balloons[i], textWidth))
  }

  /**
   * The loop over `balloons_by_page.items()`: a key past the last page and a
   * page without balloons are skipped.
   */
  function PageDraws(pages: seq<Page>, store: seq<Entry<PageSnapshot>>, textWidth: (string, real) -> real): seq<PageDraw>
    decreases |store|
  {
    if store == [] then []
    else
      var e := store[0];
      var rest := PageDraws(pages, store[1..], textWidth);
      if e.key >= |pages| || |e.value.balloons| == 0 then rest
      else [PageDraw(e.key, DrawPage(pages[e.key], e.value.balloons, textWidth))] + rest
  }

  /** The pages that get balloons drawn, in order. */
  function DrawnPages(draws: seq<PageDraw>): seq<nat> {
    seq(|draws|, i requires 0 <= i < |draws| => draws[i].page)
  }

  /** What the export button ends with. */
  datatype ExportOutcome =
    | NoDimensions
    | NoDocument
    | Cancelled
    | GenerationFailed
    | Exported(pdfPath: string, jsonPath: string, draws: seq<PageDraw>, manifest: Manifest)

  /**
   * `export_pdf_with_balloons()` with `chosen` the path returned by the save
   * dialog (empty when cancelled): the state afterwards and the outcome. The
   * generation saves the page on screen first and writes the stored rotations
   * into the open document, so both stay even when it fails.
   */
  function ExportPdf(s: Session, chosen: string, textWidth: (string, real) -> real): (Session, ExportOutcome) {
    if |s.live.rows| == 0 then (s, NoDimensions)
    else if s.path == [] || |s.doc| == 0 then (s, NoDocument)
    else if chosen == [] then (s, Cancelled)
    else
      var saved := SaveCurrent(s);
      var rotated := ApplyRotations(saved.doc, saved.store.rotationByPage);
      var after := saved.(doc := rotated.pages);
      if !rotated.ok then (after, GenerationFailed)
      else
        var pdfPath := PdfPath(chosen);
        (after, Exported(pdfPath, JsonPath(pdfPath),
                         PageDraws(rotated.pages, saved.store.balloonsByPage, textWidth),
                         ManifestOf(s.live.rows)))
  }
}
