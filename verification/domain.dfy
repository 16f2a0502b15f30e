/**
 * The entities the balloon tool keeps: a balloon drawn on the rendered page,
 * a row of the dimensions table, the snapshot of a page kept when the user
 * leaves it, and the defaults the code falls back on.
 */
module Domain {
  import opened Wrappers
  import opened Text

  /** Size in scene pixels of a balloon added by a click (`add_balloon(..., size=35)`). */
  const DefaultBalloonSize: real := 35.0

  /**
   * One entry of `balloon_items`: the centre in scene coordinates of the
   * rendered (2x) page image, the number shown, the diameter, and the page
   * rotation current when the balloon was added.
   */
  datatype Balloon = Balloon(x: real, y: real, number: int, size: real, rotation: int)

  /** The choices of the instrument combo box, in order; the first is selected on creation. */
  const Instruments: seq<string> :=
    ["Vernier", "Micrómetro", "Calibrador", "Probador", "CMM", "Comparador", "Otro"]

  /**
   * One row of the dimensions table. A cell is `None` when the table holds no
   * item (or, for the instrument, no combo box) at that position; the export
   * and save code then fall back on a default.
   */
  datatype Row = Row(
    name: Option<string>,
    nominal: Option<string>,
    tolPlus: Option<string>,
    tolMinus: Option<string>,
    instrument: Option<string>,
    unit: Option<string>,
    notes: Option<string>)
  {
    /** Every cell holds an item. */
    predicate Complete() {
      name.Some? && nominal.Some? && tolPlus.Some? && tolMinus.Some?
      && instrument.Some? && unit.Some? && notes.Some?
    }
  }

  /** The texts of one row as `save_balloons_for_current_page` keeps them. */
  datatype RowRecord = RowRecord(
    name: string,
    nominal: string,
    tolPlus: string,
    tolMinus: string,
    instrument: string,
    unit: string,
    notes: string)

  /** `balloons_by_page[page]`: the balloons, the table and the counter of a page. */
  datatype PageSnapshot = PageSnapshot(balloons: seq<Balloon>, table: seq<RowRecord>, counter: int)

  /** `f'D{n}'`. */
  function DefaultName(n: int): (s: string)
    ensures |s| >= 2 && s[0] == 'D' && s[1..] == IntToString(n)
  {
    "D" + IntToString(n)
  }

  /** Different balloon numbers give different default names. */
  lemma DefaultNameInjective(n: int, m: int)
    ensures DefaultName(n) == DefaultName(m) ==> n == m
  {
    if DefaultName(n) == DefaultName(m) {
      IntToStringInjective(n, m);
    }
  }

  /** The row `add_dimension_row(n)` appends: name `D{n}`, zeros, the first instrument, the global unit. */
  function NewRow(n: int, unit: string): Row {
    Row(Some(DefaultName(n)), Some("0.0"), Some("0.0"), Some("0.0"), Some("Vernier"), Some(unit), Some(""))
  }
}
