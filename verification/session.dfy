/**
 * The state of the application window as a value: the open document, the
 * page on screen and its rotation, the live page, the per-page store
 * (`balloons_by_page`, `rotation_by_page`) and the global unit; and the user
 * actions that change it: opening a PDF, moving between pages, rotating, and
 * the balloon and table operations of the live page.
 */
module Session {
  import opened Wrappers
  import opened Text
  import opened Domain
  import opened PageDict
  import opened PageState

  /** A page of the PDF: the size of its unrotated media box and its `/Rotate` attribute. */
  datatype Page = Page(width: real, height: real, rotation: int)

  /** Width and height of `page.rect`, the page as displayed, swapped for a quarter turn. */
  function PageRect(p: Page): (real, real) {
    if p.rotation == 90 || p.rotation == 270 then (p.height, p.width) else (p.width, p.height)
  }

  /** `balloons_by_page` and `rotation_by_page`. */
  datatype Store = Store(balloonsByPage: seq<Entry<PageSnapshot>>, rotationByPage: seq<Entry<int>>)

  const EmptyStore: Store := Store([], [])

  /**
   * `path` is `current_pdf_path` and `doc` the pages of `pdf_document`; an
   * empty `doc` stands for no document (a document without pages is false in
   * Python as well).
   */
  datatype Session = Session(
    path: string,
    doc: seq<Page>,
    page: nat,
    rotation: int,
    live: Live,
    store: Store,
    unit: string)

  /** The window as it opens: no document, an empty page, unit `mm`. */
  const Initial: Session := Session("", [], 0, 0, Empty, EmptyStore, "mm")

  /** One of the four orientations. */
  predicate Quarter(r: int) {
    r == 0 || r == 90 || r == 180 || r == 270
  }

  /** The rotation step of `rotate_pdf`: 0, 90, 180, 270, 0, ... */
  function RotateStep(r: int): (q: int)
    ensures 0 <= q < 360
  {
    (r + 90) % 360
  }

  /** `rotation_by_page.get(page, 0)`. */
  function RotationOf(st: Store, page: nat): int {
    Get(st.rotationByPage, page).GetOr(0)
  }

  /** What the store keeps true: distinct keys, consistent snapshots, quarter-turn rotations. */
  predicate StoreValid(st: Store) {
    && Distinct(st.balloonsByPage)
    && Distinct(st.rotationByPage)
    && AllValues(st.balloonsByPage, SnapshotConsistent)
    && AllValues(st.rotationByPage, Quarter)
  }

  predicate Valid(s: Session) {
    && Consistent(s.live)
    && StoreValid(s.store)
    && Quarter(s.rotation)
    && (|s.doc| == 0 || s.page < |s.doc|)
  }

  // ---------------------------------------------------------------------------
  // Page store and navigation

  /** The two dictionary assignments of a save. */
  function SaveTo(st: Store, page: nat, snap: PageSnapshot, rotation: int): Store {
    Store(Put(st.balloonsByPage, page, snap), Put(st.rotationByPage, page, rotation))
  }

  /** `save_balloons_for_current_page()`. */
  function SaveCurrent(s: Session): Session {
    s.(store := SaveTo(s.store, s.page, Snapshot(s.live), s.rotation))
  }

  /** `show_current_page()`: the page's saved rotation, then its saved balloons and rows. */
  function Show(s: Session): Session {
    if |s.doc| == 0 then s
    else
      var r := RotationOf(s.store, s.page);
      s.(rotation := r, live := Restore(Get(s.store.balloonsByPage, s.page), r))
  }

  /** The page on screen is saved, then page `p` is shown. */
  function GoTo(s: Session, p: nat): Session {
    Show(SaveCurrent(s).(page := p))
  }

  /** `next_page()`. */
  function NextPage(s: Session): Session {
    if s.page + 1 < |s.doc| then GoTo(s, s.page + 1) else s
  }

  /** `prev_page()`. */
  function PrevPage(s: Session): Session {
    if s.page > 0 then GoTo(s, s.page - 1) else s
  }

  /**
   * `load_pdf()` with the path chosen in the dialog (empty when cancelled) and
   * the pages `fitz.open` read (`None` when it raised). Neither dictionary is
   * cleared and the page on screen is not saved first.
   */
  function LoadPdf(s: Session, chosen: string, loaded: Option<seq<Page>>): Session {
    if chosen == [] || loaded.None? then s
    else Show(s.(path := chosen, doc := loaded.value, page := 0, rotation := 0))
  }

  /**
   * `rotate_pdf()`: the next orientation, also written to the page's
   * `/Rotate`. The balloons stay where they are; `rotation_by_page` is only
   * written when the page is saved.
   */
  function RotatePdf(s: Session): Session {
    if |s.doc| == 0 then s
    else
      var r := RotateStep(s.rotation);
      s.(rotation := r, doc := if s.page < |s.doc| then s.doc[s.page := s.doc[s.page].(rotation := r)] else s.doc)
  }

  /** `update_global_unit(unit)`: the default for new rows and the unit of the rows on screen. */
  function UpdateGlobalUnit(s: Session, unit: string): Session {
    s.(unit := unit, live := SetUnit(s.live, unit))
  }

  /** The user's actions. */
  datatype Action =
    | OpenPdf(chosen: string, loaded: Option<seq<Page>>)
    | Next
    | Prev
    | Rotate
    | ImageClick(x: real, y: real)
    | RemoveLastBalloon
    | DeleteDimensionRow(sel: int, confirmed: bool)
    | ClearAllBalloons(confirmed: bool)
    | ClearDimensionTable(confirmed: bool)
    | ChangeUnit(unit: string)
    | TypeCell(row: int, column: Column, text: string)
    | PickInstrument(row: int, choice: int)
    | DragBalloon(index: int, x: real, y: real)

  function Step(s: Session, a: Action): Session {
    match a
    case OpenPdf(chosen, loaded) => LoadPdf(s, chosen, loaded)
    case Next => NextPage(s)
    case Prev => PrevPage(s)
    case Rotate => RotatePdf(s)
    case ImageClick(x, y) => s.(live := Click(s.live, x, y, s.rotation, s.unit))
    case RemoveLastBalloon => s.(live := RemoveLast(s.live))
    case DeleteDimensionRow(sel, confirmed) => s.(live := DeleteRow(s.live, sel, confirmed))
    case ClearAllBalloons(confirmed) => s.(live := ClearBalloons(s.live, confirmed))
    case ClearDimensionTable(confirmed) => s.(live := ClearTable(s.live, confirmed))
    case ChangeUnit(unit) => UpdateGlobalUnit(s, unit)
    case TypeCell(row, column, text) => s.(live := EditCell(s.live, row, column, text))
    case PickInstrument(row, choice) => s.(live := SelectInstrument(s.live, row, choice))
    case DragBalloon(index, x, y) => s.(live := MoveBalloon(s.live, index, x, y))
  }

  /** The state after a sequence of actions. */
  function Run(s: Session, actions: seq<Action>): Session
    decreases |actions|
  {
    if actions == [] then s else Run(Step(s, actions[0]), actions[1..])
  }
}
