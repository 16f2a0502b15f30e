/**
 * The main window as an object: the fields it updates in place and the
 * handlers of its buttons, mouse events and table edits. Each handler is
 * proved to change `State()`, the window read as a `Session` value, exactly as
 * the corresponding function of `Session` or `Export` does, so every property
 * proved about those functions holds of the window.
 */
module App {
  import opened Wrappers
  import opened Text
  import opened Domain
  import opened NumberParser
  import opened Projection
  import opened PageDict
  import opened PageState
  import opened Session
  import opened Export
  import opened ExportProperties
  import opened SessionProperties
  import opened GraphicsView
  import Sessions = Session

  /** The size of `page.get_pixmap(matrix=Matrix(2, 2))`: the displayed page rectangle at zoom 2. */
  function RenderSize(p: Page): ImageSize {
    var (w, h) := PageRect(p);
    ImageSize(w * RenderZoom, h * RenderZoom)
  }

  /** A pixmap turned by `QTransform().rotate(r)`: width and height swap for a quarter turn. */
  function Turned(image: ImageSize, r: int): ImageSize {
    if r == 90 || r == 270 then ImageSize(image.height, image.width) else image
  }

  class BaloneaApp {
    /** `graphics_view`, which holds the balloons of the page on screen. */
    const view: BalloonView
    /** `current_pdf_path`, empty for none. */
    var path: string
    /** The pages of `pdf_document`, empty for none. */
    var doc: seq<Page>
    /** `current_page`. */
    var page: nat
    /** `current_rotation`. */
    var rotation: int
    /** The rows of `table`. */
    var rows: seq<Row>
    /** `balloon_counter`. */
    var counter: int
    /** `unidad_global`. */
    var unit: string
    var balloonsByPage: seq<Entry<PageSnapshot>>
    var rotationByPage: seq<Entry<int>>
    /** The size of `original_pixmap`, the page image before the window turned it. */
    var original: Option<ImageSize>

    /** The page on screen. */
    function LiveState(): Live
      reads this, view
    {
      Live(view.balloons, rows, counter)
    }

    /** The window as a `Session` value. */
    function State(): Session
      reads this, view
    {
      Session(path, doc, page, rotation, LiveState(), Store(balloonsByPage, rotationByPage), unit)
    }

    /** The session invariant, the view's own, and an image on screen whenever a document is open. */
    predicate Valid()
      reads this, view
    {
      && Sessions.Valid(State())
      && view.Valid()
      && (|doc| > 0 ==> view.image.Some?)
    }

    /**
     * The view as `show_current_page` leaves it: the current page rendered at
     * zoom 2 and turned by the window's rotation, the unturned size kept when
     * it is turned, the zoom reset and no balloon dragged.
     */
    predicate ShowsPage()
      reads this, view
    {
      && page < |doc|
      && view.image == Some(Turned(RenderSize(doc[page]), rotation))
      && original == (if rotation != 0 then Some(RenderSize(doc[page])) else None)
      && view.zoomFactor == 1.0
      && view.dragging == None
    }

    constructor ()
      ensures Valid()
      ensures State() == Initial && original == None
      ensures fresh(view)
      ensures view.image == None && view.zoomFactor == 1.0 && view.dragging == None && !view.panning
    {
      view := new BalloonView();
      path := "";
      doc := [];
      page := 0;
      rotation := 0;
      rows := [];
      counter := 0;
      unit := "mm";
      balloonsByPage := [];
      rotationByPage := [];
      original := None;
    }

    // -------------------------------------------------------------------------
    // Pages

    /** `save_balloons_for_current_page()`. */
    method SaveCurrentPage()
      modifies this
      ensures State() == SaveCurrent(old(State()))
      ensures original == old(original)
    {
      var saved := CopyBalloons(view.balloons);
      var table := RecordRows(rows);
      balloonsByPage := Put(balloonsByPage, page, PageSnapshot(saved, table, counter));
      rotationByPage := Put(rotationByPage, page, rotation);
    }

    /** `restore_balloons_for_current_page()`: the saved balloons and rows of the page, or none. */
    method RestoreCurrentPage()
      modifies this, view
      requires view.Valid()
      ensures view.Valid()
      ensures LiveState() == Restore(Get(balloonsByPage, page), rotation)
      ensures path == old(path) && doc == old(doc) && page == old(page) && rotation == old(rotation)
      ensures unit == old(unit) && balloonsByPage == old(balloonsByPage) && rotationByPage == old(rotationByPage)
      ensures original == old(original) && view.image == old(view.image)
      ensures view.zoomFactor == old(view.zoomFactor) && view.panning == old(view.panning)
      ensures view.dragging == None && view.dragOffset == old(view.dragOffset)
    {
      view.ClearBalloons();
      rows := [];
      var saved := Get(balloonsByPage, page);
      if saved.Some? {
        var snap := saved.value;
        var i := 0;
        while i < |snap.balloons|
          modifies view
          invariant 0 <= i <= |snap.balloons|
          invariant view.Valid() && view.image == old(view.image)
          invariant view.zoomFactor == old(view.zoomFactor) && view.panning == old(view.panning)
          invariant view.dragging == None && view.dragOffset == old(view.dragOffset)
          invariant |view.balloons| == i
          invariant forall j :: 0 <= j < i ==> view.balloons[j] == snap.balloons[j].(rotation := rotation)
        {
          var b := snap.balloons[i];
          view.AddBalloon(b.x, b.y, b.number, b.size, rotation);
          i := i + 1;
        }
        rows := RestoreRows(snap.table);
        counter := snap.counter;
      } else {
        counter := 0;
      }
    }

    /** `show_current_page()`: the page's image, its saved rotation, then its saved balloons and rows. */
    method ShowCurrentPage()
      modifies this, view
      requires Sessions.Valid(State()) && view.Valid()
      ensures Valid()
      ensures State() == Show(old(State()))
      ensures |doc| > 0 ==> ShowsPage() && view.panning == old(view.panning) && view.dragOffset == old(view.dragOffset)
      ensures |doc| == 0 ==> unchanged(view) && original == old(original)
    {
      if |doc| == 0 {
        return;
      }
      ghost var s0 := State();
      var size := RenderSize(doc[page]);
      view.LoadImage(size);
      var stored := Get(rotationByPage, page);
      rotation := if stored.Some? then stored.value else 0;
      original := None;
      if rotation != 0 {
        original := Some(size);
        view.SetImage(Turned(size, rotation));
      }
      RestoreCurrentPage();
      ShowKeepsValid(s0);
      assert State() == Show(s0);
    }

    /** `next_page()`: the page on screen is saved before the next one is shown. */
    method NextPage()
      modifies this, view
      requires Valid()
      ensures Valid()
      ensures State() == Sessions.NextPage(old(State()))
      ensures old(page + 1 < |doc|) ==> ShowsPage() && view.panning == old(view.panning) && view.dragOffset == old(view.dragOffset)
      ensures old(page + 1 >= |doc|) ==> unchanged(view) && original == old(original)
    {
      ghost var s0 := State();
      if page + 1 < |doc| {
        SaveCurrentPage();
        SaveKeepsStoreValid(s0);
        page := page + 1;
        ShowCurrentPage();
      }
    }

    /** `prev_page()`. */
    method PrevPage()
      modifies this, view
      requires Valid()
      ensures Valid()
      ensures State() == Sessions.PrevPage(old(State()))
      ensures old(page > 0 && |doc| > 0) ==> ShowsPage() && view.panning == old(view.panning) && view.dragOffset == old(view.dragOffset)
      ensures old(page == 0 || |doc| == 0) ==> unchanged(view) && original == old(original)
    {
      ghost var s0 := State();
      if page > 0 {
        SaveCurrentPage();
        SaveKeepsStoreValid(s0);
        page := page - 1;
        ShowCurrentPage();
      }
    }

    /**
     * `load_pdf()` with the path chosen in the dialog (empty when cancelled)
     * and the pages `fitz.open` read (`None` when it raised).
     */
    method LoadPdf(chosen: string, loaded: Option<seq<Page>>)
      modifies this, view
      requires Valid()
      ensures Valid()
      ensures State() == Sessions.LoadPdf(old(State()), chosen, loaded)
      ensures chosen != [] && loaded.Some? && |loaded.value| > 0 ==>
        ShowsPage() && view.panning == old(view.panning) && view.dragOffset == old(view.dragOffset)
      ensures chosen != [] && loaded.Some? && |loaded.value| == 0 ==> unchanged(view) && original == None
      ensures !(chosen != [] && loaded.Some?) ==> unchanged(view) && original == old(original)
    {
      if chosen != [] && loaded.Some? {
        doc := loaded.value;
        path := chosen;
        page := 0;
        rotation := 0;
        original := None;
        ShowCurrentPage();
      }
    }

    /** `rotate_pdf()`: the image on screen turns a quarter further, and so does the page of the document. */
    method RotatePdf()
      modifies this, view
      requires Valid()
      ensures Valid()
      ensures State() == Sessions.RotatePdf(old(State()))
      ensures old(|doc| == 0 || view.image.None?) ==> unchanged(view) && original == old(original)
      ensures old(|doc| > 0 && view.image.Some?) ==>
        && original == Some(if old(original).Some? then old(original).value else old(view.image).value)
        && view.image == Some(Turned(original.value, rotation))
        && view.zoomFactor == old(view.zoomFactor) && view.panning == old(view.panning)
        && view.dragging == old(view.dragging) && view.dragOffset == old(view.dragOffset)
    {
      if |doc| == 0 || view.image.None? {
        return;
      }
      if original.None? {
        original := view.image;
      }
      rotation := (rotation + 90) % 360;
      view.SetImage(Turned(original.value, rotation));
      doc := doc[page := doc[page].(rotation := rotation)];
    }

    // -------------------------------------------------------------------------
    // Balloons and rows

    /** `add_dimension_row(n)`. */
    method AddDimensionRow(n: int)
      modifies this
      ensures rows == old(rows) + [NewRow(n, unit)]
      ensures path == old(path) && doc == old(doc) && page == old(page) && rotation == old(rotation)
      ensures counter == old(counter) && unit == old(unit) && original == old(original)
      ensures balloonsByPage == old(balloonsByPage) && rotationByPage == old(rotationByPage)
    {
      rows := rows + [NewRow(n, unit)];
    }

    /** `on_image_click(x, y)`. */
    method OnImageClick(x: real, y: real)
      modifies this, view
      requires Valid()
      ensures Valid()
      ensures State() == Step(old(State()), Sessions.ImageClick(x, y))
      ensures view.dragging == old(view.dragging) && view.dragOffset == old(view.dragOffset)
      ensures view.panning == old(view.panning) && view.zoomFactor == old(view.zoomFactor)
      ensures view.image == old(view.image) && original == old(original)
    {
      ghost var s0 := State();
      counter := counter + 1;
      view.AddBalloon(x, y, counter, DefaultBalloonSize, rotation);
      AddDimensionRow(counter);
      StepKeepsValid(s0, Sessions.ImageClick(x, y));
    }

    /** `remove_last_balloon()`. */
    method RemoveLastBalloon()
      modifies this, view
      requires Valid()
      ensures Valid()
      ensures State() == Step(old(State()), Sessions.RemoveLastBalloon)
      ensures view.image == old(view.image) && view.zoomFactor == old(view.zoomFactor) && view.panning == old(view.panning)
      ensures view.dragging == if old(counter) > 0 then DragAfterRemove(old(view.dragging), old(counter) - 1, |old(view.balloons)|)
                               else old(view.dragging)
      ensures view.dragOffset == old(view.dragOffset) && original == old(original)
    {
      ghost var s0 := State();
      if counter > 0 {
        view.RemoveBalloon(counter - 1);
        if |rows| > 0 {
          rows := rows[..|rows| - 1];
        }
        counter := counter - 1;
      }
      StepKeepsValid(s0, Sessions.RemoveLastBalloon);
    }

    /** `delete_dimension_row()` with `sel` the table's current row (-1 for none) and the dialog's answer. */
    method DeleteDimensionRow(sel: int, confirmed: bool)
      modifies this, view
      requires Valid()
      ensures Valid()
      ensures State() == Step(old(State()), Sessions.DeleteDimensionRow(sel, confirmed))
      ensures view.image == old(view.image) && view.zoomFactor == old(view.zoomFactor) && view.panning == old(view.panning)
      ensures view.dragging == if sel >= 0 && confirmed then DragAfterRemove(old(view.dragging), sel, |old(view.balloons)|)
                               else old(view.dragging)
      ensures view.dragOffset == old(view.dragOffset) && original == old(original)
    {
      ghost var s0 := State();
      if sel >= 0 && confirmed {
        if sel < |rows| {
          rows := RemoveAt(rows, sel);
        }
        if sel < |view.balloons| {
          view.RemoveBalloon(sel);
          counter := counter - 1;
        }
      }
      StepKeepsValid(s0, Sessions.DeleteDimensionRow(sel, confirmed));
    }

    /** `clear_balloons()` of the window. */
    method ClearBalloons(confirmed: bool)
      modifies this, view
      requires Valid()
      ensures Valid()
      ensures State() == Step(old(State()), ClearAllBalloons(confirmed))
      ensures view.image == old(view.image) && view.zoomFactor == old(view.zoomFactor) && view.panning == old(view.panning)
      ensures view.dragging == if old(counter) != 0 && confirmed then None else old(view.dragging)
      ensures view.dragOffset == old(view.dragOffset) && original == old(original)
    {
      ghost var s0 := State();
      if counter == 0 {
        return;
      }
      if confirmed {
        view.ClearBalloons();
        rows := [];
        counter := 0;
      }
      StepKeepsValid(s0, ClearAllBalloons(confirmed));
    }

    /** `clear_table()`. */
    method ClearTable(confirmed: bool)
      modifies this, view
      requires Valid()
      ensures Valid()
      ensures State() == Step(old(State()), ClearDimensionTable(confirmed))
      ensures view.image == old(view.image) && view.zoomFactor == old(view.zoomFactor) && view.panning == old(view.panning)
      ensures view.dragging == if old(|rows|) != 0 && confirmed then None else old(view.dragging)
      ensures view.dragOffset == old(view.dragOffset) && original == old(original)
    {
      ghost var s0 := State();
      if |rows| == 0 {
        return;
      }
      if confirmed {
        rows := [];
        view.ClearBalloons();
        counter := 0;
      }
      StepKeepsValid(s0, ClearDimensionTable(confirmed));
    }

    /** `update_global_unit(u)`: the unit cell of every row on screen is rewritten. */
    method UpdateGlobalUnit(u: string)
      modifies this
      requires Valid()
      ensures Valid()
      ensures State() == Step(old(State()), ChangeUnit(u))
      ensures original == old(original)
    {
      ghost var s0 := State();
      unit := u;
      var updated := rows;
      var i := 0;
      while i < |updated|
        invariant 0 <= i <= |updated| && |updated| == |rows|
        invariant forall j :: 0 <= j < i ==> updated[j] == WithUnit(rows[j], u)
        invariant forall j :: i <= j < |updated| ==> updated[j] == rows[j]
      {
        if updated[i].unit.Some? {
          updated := updated[i := updated[i].(unit := Some(u))];
        }
        i := i + 1;
      }
      rows := updated;
      StepKeepsValid(s0, ChangeUnit(u));
    }

    /** The user types `text` into a cell of row `i`. */
    method EditCell(i: int, c: Column, text: string)
      modifies this
      requires Valid()
      ensures Valid()
      ensures State() == Step(old(State()), TypeCell(i, c, text))
      ensures original == old(original)
    {
      ghost var s0 := State();
      if 0 <= i < |rows| {
        rows := rows[i := WithCell(rows[i], c, text)];
      }
      StepKeepsValid(s0, TypeCell(i, c, text));
    }

    /** The user picks choice `k` of the instrument combo box of row `i`. */
    method SelectInstrument(i: int, k: int)
      modifies this
      requires Valid()
      ensures Valid()
      ensures State() == Step(old(State()), PickInstrument(i, k))
      ensures original == old(original)
    {
      ghost var s0 := State();
      if 0 <= i < |rows| && 0 <= k < |Instruments| {
        rows := rows[i := rows[i].(instrument := Some(Instruments[k]))];
      }
      StepKeepsValid(s0, PickInstrument(i, k));
    }

    // -------------------------------------------------------------------------
    // Mouse

    /** A press in the view: a plain click on the image adds a balloon and its row. */
    method MousePress(left: bool, mods: Modifiers, x: real, y: real)
      modifies this, view
      requires Valid()
      ensures Valid()
      ensures State() == if PressOf(old(view.balloons), old(view.image), left, mods, Point(x, y)).ImageClick?
                         then Step(old(State()), Sessions.ImageClick(x, y))
                         else old(State())
      ensures var r := PressOf(old(view.balloons), old(view.image), left, mods, Point(x, y));
        && view.dragging == (if r.Drag? then Some(r.index) else old(view.dragging))
        && view.dragOffset == (if r.Drag? then r.offset else old(view.dragOffset))
        && view.panning == (old(view.panning) || r.Pan?)
        && view.zoomFactor == old(view.zoomFactor)
      ensures view.image == old(view.image) && original == old(original)
    {
      var r := view.Press(left, mods, x, y);
      if r.ImageClick? {
        OnImageClick(x, y);
      }
    }

    /** A mouse move in the view: a dragged balloon follows the mouse. */
    method MouseMove(x: real, y: real)
      modifies view
      requires Valid()
      ensures Valid()
      ensures State() == if old(view.dragging).Some?
                         then Step(old(State()), DragBalloon(old(view.dragging).value, x - view.dragOffset.x, y - view.dragOffset.y))
                         else old(State())
      ensures view.dragging == old(view.dragging) && view.dragOffset == old(view.dragOffset)
      ensures view.panning == old(view.panning) && view.zoomFactor == old(view.zoomFactor)
      ensures view.image == old(view.image)
    {
      ghost var s0 := State();
      var moved := view.Move(x, y);
      if moved {
        StepKeepsValid(s0, DragBalloon(view.dragging.value, x - view.dragOffset.x, y - view.dragOffset.y));
      }
    }

    /** A release in the view: the left button ends a drag, or else a pan; the page stays as it is. */
    method MouseRelease(left: bool)
      modifies view
      requires Valid()
      ensures Valid()
      ensures State() == old(State())
      ensures view.dragging == if left then None else old(view.dragging)
      ensures view.panning == if left && old(view.dragging).None? then false else old(view.panning)
      ensures view.zoomFactor == old(view.zoomFactor)
      ensures view.image == old(view.image) && view.dragOffset == old(view.dragOffset)
    {
      view.Release(left);
    }

    /** A turn of the wheel zooms the view; the balloons and the page stay as they are. */
    method Wheel(up: bool) returns (applied: Option<real>)
      modifies view
      requires Valid()
      ensures Valid()
      ensures State() == old(State())
      ensures view.zoomFactor == WheelZoom(old(view.zoomFactor), up).factor
      ensures applied == WheelZoom(old(view.zoomFactor), up).applied
      ensures view.dragging == old(view.dragging) && view.dragOffset == old(view.dragOffset)
      ensures view.panning == old(view.panning) && view.image == old(view.image)
    {
      applied := view.Wheel(up);
    }

    // -------------------------------------------------------------------------
    // Export

    /** `generate_dimensions_json()`: the manifest of the rows on screen, without its JSON text and date. */
    method GenerateDimensions() returns (m: Manifest)
      ensures m == ManifestOf(rows)
    {
      var dims: seq<Dimension> := [];
      var i := 0;
      while i < |rows|
        invariant 0 <= i <= |rows| && |dims| == i
        invariant forall j :: 0 <= j < i ==> dims[j] == DimensionOf(j, rows[j])
      {
        dims := dims + [DimensionOf(i, rows[i])];
        i := i + 1;
      }
      assert dims == Dimensions(rows);
      m := Manifest(dims, 1);
    }

    /**
     * `generate_pdf_with_balloons()`: without a document it fails at once;
     * otherwise the page on screen is saved, the stored rotations are written
     * into the document, and the balloons of every stored page are drawn. `ok`
     * is false when a stored rotation names a page the document does not have;
     * the rotations written before it stay.
     */
    method GeneratePdf(textWidth: (string, real) -> real) returns (ok: bool, draws: seq<PageDraw>)
      modifies this
      ensures old(|doc|) == 0 ==> !ok && draws == [] && State() == old(State())
      ensures old(|doc|) > 0 ==> var saved := SaveCurrent(old(State()));
        var rotated := ApplyRotations(saved.doc, saved.store.rotationByPage);
        && ok == rotated.ok
        && State() == saved.(doc := rotated.pages)
        && (ok ==> draws == PageDraws(rotated.pages, saved.store.balloonsByPage, textWidth))
      ensures !ok ==> draws == []
      ensures original == old(original)
    {
      if |doc| == 0 {
        return false, [];
      }
      SaveCurrentPage();
      var pages;
      pages, ok := SetRotations(doc, rotationByPage);
      doc := pages;
      if !ok {
        return false, [];
      }
      draws := DrawStoredPages(pages, balloonsByPage, textWidth);
    }

    /**
     * `export_pdf_with_balloons()` with `chosen` the path returned by the save
     * dialog (empty when cancelled).
     */
    method ExportPdfWithBalloons(chosen: string, textWidth: (string, real) -> real) returns (out: ExportOutcome)
      modifies this
      requires Valid()
      ensures Valid()
      ensures State() == ExportPdf(old(State()), chosen, textWidth).0
      ensures out == ExportPdf(old(State()), chosen, textWidth).1
      ensures original == old(original)
    {
      ghost var s0 := State();
      if |rows| == 0 {
        return NoDimensions;
      }
      if path == [] || |doc| == 0 {
        return NoDocument;
      }
      if chosen == [] {
        return Cancelled;
      }
      var pdfPath := chosen;
      if !EndsWithPdf(chosen) {
        pdfPath := chosen + ".pdf";
      }
      var ok, draws := GeneratePdf(textWidth);
      ExportKeepsValid(s0, chosen, textWidth);
      if !ok {
        return GenerationFailed;
      }
      var jsonPath := WithSuffix(pdfPath, ".json");
      var manifest := GenerateDimensions();
      out := Exported(pdfPath, jsonPath, draws, manifest);
    }
  }

  /** The first loop of `save_balloons_for_current_page`: each balloon copied field by field. */
  method CopyBalloons(balloons: seq<Balloon>) returns (saved: seq<Balloon>)
    ensures saved == balloons
  {
    saved := [];
    var i := 0;
    while i < |balloons|
      invariant 0 <= i <= |balloons|
      invariant saved == balloons[..i]
    {
      var b := balloons[i];
      saved := saved + [Balloon(b.x, b.y, b.number, b.size, b.rotation)];
      i := i + 1;
    }
  }

  /** The table loop of `restore_balloons_for_current_page`: each record becomes a row again, an unknown instrument as the first choice. */
  method RestoreRows(table: seq<RowRecord>) returns (restored: seq<Row>)
    ensures |restored| == |table|
    ensures forall j :: 0 <= j < |table| ==> restored[j] == RowOf(table[j])
  {
    restored := [];
    var i := 0;
    while i < |table|
      invariant 0 <= i <= |table|
      invariant |restored| == i
      invariant forall j :: 0 <= j < i ==> restored[j] == RowOf(table[j])
    {
      restored := restored + [RowOf(table[i])];
      i := i + 1;
    }
  }

  /** The second loop of `save_balloons_for_current_page`: each row recorded, a missing cell as its default. */
  method RecordRows(rows: seq<Row>) returns (table: seq<RowRecord>)
    ensures table == Records(rows)
  {
    table := [];
    var i := 0;
    while i < |rows|
      invariant 0 <= i <= |rows|
      invariant |table| == i
      invariant forall j :: 0 <= j < i ==> table[j] == RecordOf(j, rows[j])
    {
      table := table + [RecordOf(i, rows[i])];
      i := i + 1;
    }
  }

  /**
   * The loop over `rotation_by_page.items()`: each non-zero rotation is set
   * on its page. A key past the last page raises, which ends the loop with
   * the pages rotated so far.
   */
  method SetRotations(doc: seq<Page>, rotations: seq<Entry<int>>) returns (pages: seq<Page>, ok: bool)
    ensures Rotated(pages, ok) == ApplyRotations(doc, rotations)
  {
    pages := doc;
    ok := true;
    var i := 0;
    while i < |rotations| && ok
      invariant 0 <= i <= |rotations|
      invariant ok ==> ApplyRotations(pages, rotations[i..]) == ApplyRotations(doc, rotations)
      invariant !ok ==> ApplyRotations(doc, rotations) == Rotated(pages, false)
    {
      var e := rotations[i];
      assert rotations[i..][0] == e && rotations[i..][1..] == rotations[i + 1..];
      if e.value != 0 {
        if e.key >= |pages| {
          ok := false;
        } else {
          pages := pages[e.key := pages[e.key].(rotation := e.value)];
        }
      }
      i := i + 1;
    }
    if ok {
      assert rotations[i..] == [];
    }
  }

  /**
   * The loop over `balloons_by_page.items()`: the balloons of each stored
   * page are drawn, skipping a key past the last page and a page without
   * balloons.
   */
  method DrawStoredPages(pages: seq<Page>, store: seq<Entry<PageSnapshot>>, textWidth: (string, real) -> real) returns (draws: seq<PageDraw>)
    ensures draws == PageDraws(pages, store, textWidth)
  {
    draws := [];
    var k := 0;
    while k < |store|
      invariant 0 <= k <= |store|
      invariant draws + PageDraws(pages, store[k..], textWidth) == PageDraws(pages, store, textWidth)
    {
      var e := store[k];
      assert store[k..][0] == e && store[k..][1..] == store[k + 1..];
      if e.key < |pages| && |e.value.balloons| > 0 {
        var drawn := DrawBalloonsOnPage(pages[e.key], e.value.balloons, textWidth);
        draws := draws + [PageDraw(e.key, drawn)];
      }
      k := k + 1;
    }
    assert store[k..] == [];
    assert draws + [] == draws;
  }

  /** `draw_balloons_on_page(page, balloons, page_num)`: one circle and one label per balloon, in order. */
  method DrawBalloonsOnPage(page: Page, balloons: seq<Balloon>, textWidth: (string, real) -> real) returns (drawn: seq<BalloonDraw>)
    ensures drawn == DrawPage(page, balloons, textWidth)
  {
    var (w, h) := PageRect(page);
    drawn := [];
    var i := 0;
    while i < |balloons|
      invariant 0 <= i <= |balloons| && |drawn| == i
      invariant forall j :: 0 <= j < i ==> drawn[j] == DrawOn(page, balloons[j], textWidth)
    {
      var b := balloons[i];
      var caption := IntToString(b.number);
      drawn := drawn + [DrawBalloon(b, page.rotation, w, h, textWidth(caption, FontSize(PageRadius(b.size))))];
      i := i + 1;
    }
  }
}
