/**
 * The live state of the page on screen: the balloons of the graphics view,
 * the rows of the dimensions table and `balloon_counter`, with the operations
 * of the balloon and table buttons, and the snapshot a page is saved to and
 * restored from. A Yes/No dialog answer is the argument `confirmed`.
 */
module PageState {
  import opened Wrappers
  import opened Text
  import opened Domain

  datatype Live = Live(balloons: seq<Balloon>, rows: seq<Row>, counter: int)

  /** A row as the table builds it: every cell present, the instrument one of the combo box's choices. */
  predicate Listed(r: Row) {
    r.Complete() && r.instrument.value in Instruments
  }

  /** One balloon per row, and the counter is their number. */
  predicate Consistent(s: Live) {
    && |s.balloons| == |s.rows|
    && s.counter == |s.rows|
    && forall i :: 0 <= i < |s.rows| ==> Listed(s.rows[i])
  }

  /** Balloon `i` shows the number `i + 1`, as long as no interior row was deleted. */
  predicate Numbered(s: Live) {
    forall i :: 0 <= i < |s.balloons| ==> s.balloons[i].number == i + 1
  }

  const Empty: Live := Live([], [], 0)

  /** `list.pop(i)`. */
  function RemoveAt<T>(xs: seq<T>, i: nat): (r: seq<T>)
    requires i < |xs|
    ensures |r| == |xs| - 1
    ensures forall j :: 0 <= j < |r| ==> r[j] == if j < i then xs[j] else xs[j + 1]
  {
    xs[..i] + xs[i + 1..]
  }

  /** `on_image_click(x, y)`: a new balloon numbered by the incremented counter, and its row. */
  function Click(s: Live, x: real, y: real, rotation: int, unit: string): Live {
    var n := s.counter + 1;
    Live(s.balloons + [Balloon(x, y, n, DefaultBalloonSize, rotation)], s.rows + [NewRow(n, unit)], n)
  }

  /** `remove_last_balloon()`. */
  function RemoveLast(s: Live): Live {
    if s.counter > 0 then
      var i := s.counter - 1;
      Live(if i < |s.balloons| then RemoveAt(s.balloons, i) else s.balloons,
           if |s.rows| > 0 then s.rows[..|s.rows| - 1] else s.rows,
           s.counter - 1)
    else s
  }

  /** `delete_dimension_row()` with `sel` the table's current row (-1 for none). */
  function DeleteRow(s: Live, sel: int, confirmed: bool): Live {
    if sel < 0 || !confirmed then s
    else
      Live(if sel < |s.balloons| then RemoveAt(s.balloons, sel) else s.balloons,
           if sel < |s.rows| then RemoveAt(s.rows, sel) else s.rows,
           if sel < |s.balloons| then s.counter - 1 else s.counter)
  }

  /** `clear_balloons()` of the application: nothing happens while the counter is 0. */
  function ClearBalloons(s: Live, confirmed: bool): Live {
    if s.counter == 0 || !confirmed then s else Empty
  }

  /** `clear_table()`: nothing happens while the table is empty. */
  function ClearTable(s: Live, confirmed: bool): Live {
    if |s.rows| == 0 || !confirmed then s else Empty
  }

  function WithUnit(r: Row, unit: string): Row {
    if r.unit.Some? then r.(unit := Some(unit)) else r
  }

  /** The table part of `update_global_unit(unit)`: the unit cell of every row that has one. */
  function SetUnit(s: Live, unit: string): Live {
    s.(rows := seq(|s.rows|, i requires 0 <= i < |s.rows| => WithUnit(s.rows[i], unit)))
  }

  /** The cells the user can type into; the unit cell is created read-only. */
  datatype Column = NameCol | NominalCol | TolPlusCol | TolMinusCol | NotesCol

  function WithCell(r: Row, c: Column, text: string): Row {
    match c
    case NameCol => r.(name := Some(text))
    case NominalCol => r.(nominal := Some(text))
    case TolPlusCol => r.(tolPlus := Some(text))
    case TolMinusCol => r.(tolMinus := Some(text))
    case NotesCol => r.(notes := Some(text))
  }

  /** The user types `text` into a cell of row `i`. */
  function EditCell(s: Live, i: int, c: Column, text: string): Live {
    if 0 <= i < |s.rows| then s.(rows := s.rows[i := WithCell(s.rows[i], c, text)]) else s
  }

  /** The user picks choice `k` of the instrument combo box of row `i`. */
  function SelectInstrument(s: Live, i: int, k: int): Live {
    if 0 <= i < |s.rows| && 0 <= k < |Instruments| then
      s.(rows := s.rows[i := s.rows[i].(instrument := Some(Instruments[k]))])
    else s
  }

  /** A Ctrl-drag leaves balloon `i` centred at `(x, y)`; only its coordinates change. */
  function MoveBalloon(s: Live, i: int, x: real, y: real): Live {
    if 0 <= i < |s.balloons| then
      s.(balloons := s.balloons[i := s.balloons[i].(x := x, y := y)])
    else s
  }

  // ---------------------------------------------------------------------------
  // Save and restore

  /** Row `i` as `save_balloons_for_current_page` records it, a missing cell read as its default. */
  function RecordOf(i: nat, r: Row): RowRecord {
    RowRecord(
      r.name.GetOr(DefaultName(i + 1)),
      r.nominal.GetOr("0.0"),
      r.tolPlus.GetOr("0.0"),
      r.tolMinus.GetOr("0.0"),
      r.instrument.GetOr("Vernier"),
      r.unit.GetOr("mm"),
      r.notes.GetOr(""))
  }

  function Records(rows: seq<Row>): seq<RowRecord> {
    seq(|rows|, i requires 0 <= i < |rows| => RecordOf(i, rows[i]))
  }

  /** The snapshot saved for the page on screen. */
  function Snapshot(s: Live): PageSnapshot {
    PageSnapshot(s.balloons, Records(s.rows), s.counter)
  }

  /**
   * A recorded row put back in the table. The combo box keeps its first
   * choice when the recorded instrument is not one of its choices.
   */
  function RowOf(rec: RowRecord): Row {
    Row(Some(rec.name), Some(rec.nominal), Some(rec.tolPlus), Some(rec.tolMinus),
        Some(if rec.instrument in Instruments then rec.instrument else Instruments[0]),
        Some(rec.unit), Some(rec.notes))
  }

  /** The balloons re-added by `add_balloon`, which stamps each with the current rotation. */
  function WithRotation(bs: seq<Balloon>, rotation: int): seq<Balloon> {
    seq(|bs|, i requires 0 <= i < |bs| => bs[i].(rotation := rotation))
  }

  /** `restore_balloons_for_current_page()` for the saved data of the page, if any. */
  function Restore(saved: Option<PageSnapshot>, rotation: int): Live {
    match saved
    case None => Empty
    case Some(p) =>
      Live(WithRotation(p.balloons, rotation),
           seq(|p.table|, i requires 0 <= i < |p.table| => RowOf(p.table[i])),
           p.counter)
  }

  /** A snapshot with one balloon per recorded row and the counter their number. */
  predicate SnapshotConsistent(p: PageSnapshot) {
    |p.balloons| == |p.table| && p.counter == |p.table|
  }

  // ---------------------------------------------------------------------------
  // The invariant

  lemma ClickKeepsConsistent(s: Live, x: real, y: real, rotation: int, unit: string)
    requires Consistent(s)
    ensures var t := Click(s, x, y, rotation, unit);
      && Consistent(t)
      && t.counter == s.counter + 1
      && t.balloons[..|s.balloons|] == s.balloons
      && t.rows[..|s.rows|] == s.rows
      && t.balloons[|t.balloons| - 1] == Balloon(x, y, t.counter, 35.0, rotation)
      && t.rows[|t.rows| - 1].name == Some(DefaultName(t.counter))
      && t.rows[|t.rows| - 1].unit == Some(unit)
  {
    assert NewRow(s.counter + 1, unit).instrument.value == Instruments[0];
  }

  lemma RemoveLastKeepsConsistent(s: Live)
    requires Consistent(s)
    ensures var t := RemoveLast(s);
      && Consistent(t)
      && (s.counter == 0 ==> t == s)
      && (s.counter > 0 ==> t == Live(s.balloons[..s.counter - 1], s.rows[..s.counter - 1], s.counter - 1))
  {
  }

  lemma DeleteRowKeepsConsistent(s: Live, sel: int, confirmed: bool)
    requires Consistent(s)
    ensures Consistent(DeleteRow(s, sel, confirmed))
  {
    var t := DeleteRow(s, sel, confirmed);
    if 0 <= sel < |s.rows| && confirmed {
      forall j | 0 <= j < |t.rows| ensures Listed(t.rows[j]) {
        assert t.rows[j] == s.rows[if j < sel then j else j + 1];
      }
    }
  }

  /**
   * Deleting a row removes that row and that balloon only: the balloons after
   * it keep their numbers, and the counter drops by one.
   */
  lemma DeleteRowDoesNotRenumber(s: Live, sel: int)
    requires Consistent(s)
    requires 0 <= sel < s.counter
    ensures var t := DeleteRow(s, sel, true);
      && t.counter == s.counter - 1
      && |t.balloons| == |s.balloons| - 1
      && (forall j :: 0 <= j < sel ==> t.balloons[j] == s.balloons[j])
      && (forall j :: sel <= j < |t.balloons| ==> t.balloons[j] == s.balloons[j + 1])
      && |t.rows| == |s.rows| - 1
      && (forall j :: 0 <= j < sel ==> t.rows[j] == s.rows[j])
      && (forall j :: sel <= j < |t.rows| ==> t.rows[j] == s.rows[j + 1])
  {
  }

  /**
   * Because of that, deleting the first row of a numbered page and clicking
   * again gives the new balloon the number the last balloon already shows.
   */
  lemma DeleteThenClickRepeatsNumber(s: Live, x: real, y: real, rotation: int, unit: string)
    requires Consistent(s) && Numbered(s)
    requires s.counter >= 2
    ensures var t := Click(DeleteRow(s, 0, true), x, y, rotation, unit);
      && |t.balloons| == s.counter
      && t.balloons[|t.balloons| - 1].number == s.counter
      && t.balloons[|t.balloons| - 2].number == s.counter
  {
    var d := DeleteRow(s, 0, true);
    assert d.balloons[|d.balloons| - 1] == s.balloons[|s.balloons| - 1];
  }

  lemma ClickKeepsNumbered(s: Live, x: real, y: real, rotation: int, unit: string)
    requires Consistent(s) && Numbered(s)
    ensures Numbered(Click(s, x, y, rotation, unit))
  {
  }

  lemma RemoveLastKeepsNumbered(s: Live)
    requires Consistent(s) && Numbered(s)
    ensures Numbered(RemoveLast(s))
  {
  }

  lemma ClearEmpties(s: Live, confirmed: bool)
    requires Consistent(s)
    ensures ClearBalloons(s, confirmed) == ClearTable(s, confirmed)
    ensures ClearBalloons(s, confirmed) == if confirmed then Empty else s
    ensures Consistent(ClearBalloons(s, confirmed))
  {
  }

  /** The unit change rewrites the unit of every row and nothing else. */
  lemma SetUnitRewritesUnits(s: Live, unit: string)
    requires Consistent(s)
    ensures var t := SetUnit(s, unit);
      && Consistent(t)
      && t.balloons == s.balloons && t.counter == s.counter && |t.rows| == |s.rows|
      && forall i :: 0 <= i < |t.rows| ==> t.rows[i] == s.rows[i].(unit := Some(unit))
  {
  }

  lemma EditKeepsConsistent(s: Live, i: int, c: Column, text: string, k: int)
    requires Consistent(s)
    ensures Consistent(EditCell(s, i, c, text))
    ensures Consistent(SelectInstrument(s, i, k))
  {
  }

  /** A drag changes the coordinates of one balloon; its number, size and rotation stay. */
  lemma MoveKeepsConsistent(s: Live, i: int, x: real, y: real)
    requires Consistent(s)
    ensures var t := MoveBalloon(s, i, x, y);
      && Consistent(t)
      && t.rows == s.rows && t.counter == s.counter && |t.balloons| == |s.balloons|
      && forall j :: 0 <= j < |t.balloons| ==>
           && t.balloons[j].number == s.balloons[j].number
           && t.balloons[j].size == s.balloons[j].size
           && t.balloons[j].rotation == s.balloons[j].rotation
           && (j != i ==> t.balloons[j] == s.balloons[j])
  {
  }

  // ---------------------------------------------------------------------------
  // The round trip

  /** A row the table built is recorded verbatim. */
  lemma RecordOfListed(i: nat, r: Row)
    requires Listed(r)
    ensures RowOf(RecordOf(i, r)) == r
  {
  }

  /** A missing cell is recorded as its default. */
  lemma RecordOfEmptyRow(i: nat)
    ensures RecordOf(i, Row(None, None, None, None, None, None, None))
         == RowRecord(DefaultName(i + 1), "0.0", "0.0", "0.0", "Vernier", "mm", "")
  {
  }

  lemma SnapshotIsConsistent(s: Live)
    requires Consistent(s)
    ensures SnapshotConsistent(Snapshot(s))
  {
  }

  /**
   * Saving a page and restoring it gives back its balloons, its rows verbatim
   * and in order, and its counter; only the balloons' rotation is replaced by
   * the rotation current at the restore.
   */
  lemma SaveRestoreRoundTrip(s: Live, rotation: int)
    requires Consistent(s)
    ensures Restore(Some(Snapshot(s)), rotation) == s.(balloons := WithRotation(s.balloons, rotation))
  {
    var t := Restore(Some(Snapshot(s)), rotation);
    forall i | 0 <= i < |s.rows| ensures t.rows[i] == s.rows[i] {
      RecordOfListed(i, s.rows[i]);
    }
  }

  /** Each restored balloon keeps x, y, number and size, and takes the restore's rotation. */
  lemma RestoredBalloons(p: PageSnapshot, rotation: int)
    ensures var t := Restore(Some(p), rotation);
      && |t.balloons| == |p.balloons|
      && forall i :: 0 <= i < |t.balloons| ==>
           && t.balloons[i].x == p.balloons[i].x && t.balloons[i].y == p.balloons[i].y
           && t.balloons[i].number == p.balloons[i].number && t.balloons[i].size == p.balloons[i].size
           && t.balloons[i].rotation == rotation
  {
  }

  /** A page never saved restores empty. */
  lemma RestoreUnsaved(rotation: int)
    ensures Restore(None, rotation) == Empty && Consistent(Empty)
  {
  }

  /** Whatever was saved, the restored state satisfies the invariant if the snapshot does. */
  lemma RestoreIsConsistent(saved: Option<PageSnapshot>, rotation: int)
    requires saved.Some? ==> SnapshotConsistent(saved.value)
    ensures Consistent(Restore(saved, rotation))
  {
  }

  /** An instrument the combo box does not offer is restored as the first choice. */
  lemma RestoreUnlistedInstrument(p: PageSnapshot, rotation: int, i: nat)
    requires i < |p.table| && p.table[i].instrument !in Instruments
    ensures Restore(Some(p), rotation).rows[i].instrument == Some("Vernier")
  {
  }
}
