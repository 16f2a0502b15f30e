# Balonea: a model of the balloon-annotation window

Balonea (`baloneo_simple.py`) is a desktop tool for marking up drawing PDFs for
inspection. The user opens a PDF and clicks on the rendered page. Each click
places a numbered circle (a *balloon*) and appends a row to the dimension
table: a name `D{n}`, a nominal value, two tolerances, an instrument, a unit
and notes.

Each page keeps its own balloons, rows, counter and rotation. They are saved
in two dictionaries, keyed by page index, whenever the user leaves the page.
A Ctrl-drag moves a balloon, and the mouse wheel zooms within [0.1, 10].

The export does three things:

- it writes a copy of the PDF with the balloons drawn on every page that has
  any, projected from the rotated, zoomed render onto the page's own
  coordinates;
- it writes a JSON manifest of the table;
- it parses the nominal and tolerance cells, which accept decimals, simple
  fractions and mixed numbers.

The model is written in Dafny.

## Modules

- `Wrappers`: `Option`.
- `Text`: `str.strip`, `str.split`, `str(n)` and digit strings.
- `NumberParser`: the parser for nominal and tolerance cells, over a
  restricted grammar for `float()` and `Fraction()`.
- `Domain`: balloons, table rows and the page snapshot.
- `Projection`: the mapping from render space to page space, and the circle
  and label drawn for one balloon.
- `PageDict`: the insertion-ordered `dict[int, …]` of the two per-page
  stores.
- `PageState`: the live page, with its balloons, rows and counter, and its
  transitions.
- `Session`: the whole window as a value: document, page, rotation, live page
  and store. It covers navigation, rotation, loading and a `Step` function
  over the user's actions.
- `SessionProperties`: the invariant that every action keeps, plus the
  round-trip and quirk lemmas.
- `Export`: output names, the manifest and the PDF generation as functions.
- `ExportProperties`: lemmas about them.
- `GraphicsView`: the class `BalloonView`, for the balloon list, drag state,
  zoom and mouse handling of the `QGraphicsView`.
- `App`: the class `BaloneaApp`. It holds the window's fields, and each of
  its methods is proved to perform the corresponding `Session` transition.

These invariants hold in every reachable state:

- the live page has one balloon per table row;
- the counter equals their number;
- each stored snapshot satisfies the same invariant;
- each stored rotation is a quarter turn.

`SessionProperties.RunKeepsValid` proves them for any sequence of actions.

### Behaviour worth knowing

- **Unit change.** `update_global_unit` rewrites only the rows on screen;
  saved pages keep their old unit. See
  `SessionProperties.UnitChangeSkipsSavedPages`.
- **Out-of-range page index.** The export treats the two stores
  differently:
  - a balloon entry for a missing page is skipped;
  - a non-zero rotation entry for a missing page raises, and the export
    fails (`ExportProperties.ExportFailsOnStaleRotation`).
- **Instrument and unit values.** They are free strings, and the
  instrument combo box falls back to its first choice for an unknown name.
- **Interior row deletion.** Row deletion removes an interior balloon
  without renumbering (`PageState.DeleteRowDoesNotRenumber`).

## Model

| member | source | states |
|---|---|---|
| `Text.TrimLeft` | baloneo_simple.py:322 | the result is a suffix of the text; what it drops is all white space; it does not start with white space; it is empty exactly for a blank text |
| `Text.TrimRight` | baloneo_simple.py:322 | the result is the longest prefix not ending with white space; what it drops is blank; it is empty exactly for a blank text |
| `Text.StripTrimmed` | baloneo_simple.py:322 | a text whose ends are not white space is its own strip |
| `Text.StripPadded` | baloneo_simple.py:322 | strip removes exactly the white space around a trimmed text |
| `Text.StripEmptyIffBlank` | baloneo_simple.py:319 | `value_str.strip() == ''` holds exactly when the text is all white space |
| `Text.StripIsTrimmed` | baloneo_simple.py:322 | neither end of a stripped text is white space |
| `Text.TrimLeftBlankPrefix` | baloneo_simple.py:322 | leading white space does not change lstrip |
| `Text.TrimRightBlankSuffix` | baloneo_simple.py:322 | trailing white space does not change rstrip |
| `Text.TrimLeftOfTrimmed` | baloneo_simple.py:322 | lstrip leaves a text that does not start with white space unchanged |
| `Text.TrimRightOfTrimmed` | baloneo_simple.py:322 | rstrip leaves a text that does not end with white space unchanged |
| `Text.TokenEnd` | baloneo_simple.py:329 | the first white-space position: every character before it is non-white, and the character at it is white |
| `Text.SplitPartsAreTokens` | baloneo_simple.py:329 | every part of `split()` is a non-empty run without white space |
| `Text.SplitToken` | baloneo_simple.py:329 | a token followed by white space is the first part of the split |
| `Text.TokenEndOf` | baloneo_simple.py:329 | the first token of `tok + rest` ends where `tok` ends |
| `Text.SplitBlankPrefix` | baloneo_simple.py:329 | leading white space does not change the split |
| `Text.SplitNonBlank` | baloneo_simple.py:329 | a text that is not blank has at least one part |
| `Text.SplitTrimmedWithSpace` | baloneo_simple.py:328-329 | a stripped text containing a space has at least two parts, so `parts[1]` exists |
| `Text.SplitSpaceToken` | baloneo_simple.py:329 | in `" " + tok + rest`, the token is the first part |
| `Text.SplitTwoTokens` | baloneo_simple.py:329 | `whole + " " + frac + rest` splits into `whole`, then `frac`, then the parts of `rest` |
| `Text.SplitOfTwoTokens` | baloneo_simple.py:329 | `whole + " " + frac` splits into exactly those two parts |
| `Text.DigitChar` | baloneo_simple.py:84 | the digit character of `d` is a digit, and its value is `d` |
| `Text.Pow10` | baloneo_simple.py:338 | the place value of a decimal fraction digit is at least 1 |
| `Text.NatToString` | baloneo_simple.py:84 | `str(n)` of a natural number is a non-empty digit string whose value is `n` |
| `Text.IntToString` | baloneo_simple.py:1326 | `str(n)` has no white space; it is the digits of `n`, with a leading `-` when `n` is negative |
| `Text.IntToStringInjective` | baloneo_simple.py:1326 | different integers have different `str` texts |
| `Text.DigitsHaveNoSpace` | baloneo_simple.py:1326 | a digit string has no white space |
| `NumberParser.IndexOf` | baloneo_simple.py:326 | the result is at most the length, and a position below the length holds `c` |
| `NumberParser.IndexOfFirst` | baloneo_simple.py:326 | no `c` comes before the position found, and `c` is found (the result is below the length) exactly when it occurs in the text |
| `NumberParser.IndexOfAppend` | baloneo_simple.py:326 | where `c` is first found in `a + b`: in `a` if it is there, otherwise the length of `a` plus its position in `b` |
| `NumberParser.IndexOfDigits` | baloneo_simple.py:326 | a digit string holds no non-digit character |
| `NumberParser.IntToStringShape` | baloneo_simple.py:326-328 | `str(n)` contains no `/`, `.` or space, is trimmed and is a single token |
| `NumberParser.DecimalOfIntToString` | baloneo_simple.py:338 | `float(str(n)) == n` |
| `NumberParser.TrimLeftAppend` | baloneo_simple.py:322 | lstrip of a non-blank text followed by more text only touches the first text |
| `NumberParser.StripIgnoresPadding` | baloneo_simple.py:322 | padding on both sides does not change the strip |
| `NumberParser.BlankConcat` | baloneo_simple.py:319 | blank texts concatenated stay blank |
| `NumberParser.ParseTrimmed` | baloneo_simple.py:319-322 | a trimmed text goes directly to the dispatch on `/` and space |
| `NumberParser.ParseBlank` | baloneo_simple.py:319-320 | an empty or all-white-space text gives 0.0 |
| `NumberParser.ParseIgnoresPadding` | baloneo_simple.py:322 | white space around the text does not change the value |
| `NumberParser.ParseInteger` | baloneo_simple.py:336-338 | a text written by `str(n)` reads back as `n` |
| `NumberParser.UnsignedDecimalText` | baloneo_simple.py:338 | `a.b` in digits is read as its decimal value |
| `NumberParser.DecimalTextShape` | baloneo_simple.py:326 | `a.b` in digits is trimmed, has no `/` and no sign |
| `NumberParser.StrippedDecimal` | baloneo_simple.py:336-338 | a trimmed text without `/` is read by `float()` alone, 0.0 on error |
| `NumberParser.ParseStrippedDecimal` | baloneo_simple.py:336-340 | the same, stated for the whole parser |
| `NumberParser.ParseDecimalText` | baloneo_simple.py:338 | `"0.75"`-style text reads as its decimal value |
| `NumberParser.ParseNegativeDecimalText` | baloneo_simple.py:323-338 | `"-0.75"`-style text reads as the negated decimal value |
| `NumberParser.SlashTextShape` | baloneo_simple.py:326-335 | `num/den` for two tokens is one trimmed token with its first `/` after `num` and no space |
| `NumberParser.FractionTextShape` | baloneo_simple.py:326-335 | the same for `str(n)/str(d)` |
| `NumberParser.RationalOfFractionText` | baloneo_simple.py:335 | `Fraction("n/d")` is n/d, or `ZeroDivisionError` when d is 0 |
| `NumberParser.ParseSimpleFraction` | baloneo_simple.py:333-340 | `"n/d"` reads as n/d, and a zero denominator reads as 0.0 instead of raising |
| `NumberParser.ParseStrippedRational` | baloneo_simple.py:333-335 | a trimmed text with `/` and no space is read by `Fraction()` alone |
| `NumberParser.StrippedRational` | baloneo_simple.py:333-335 | the same, after the strip |
| `NumberParser.StrippedMixed` | baloneo_simple.py:328-332 | a trimmed text with both `/` and a space has at least two parts and is read as whole plus fraction |
| `NumberParser.ParseStrippedMixed` | baloneo_simple.py:328-332 | the same, stated for the whole parser |
| `NumberParser.MixedShape` | baloneo_simple.py:326-328 | a token, a space and a tail holding `/` contain both separators |
| `NumberParser.ParseTwoTokens` | baloneo_simple.py:328-332 | `whole + " " + frac` reads as the mixed value of those two parts |
| `NumberParser.ParseMixed` | baloneo_simple.py:328-332 | `"w n/d"` reads as w + n/d, for every `d`; the fraction does not take the sign of `w`; a zero denominator makes the whole text read as 0.0 |
| `NumberParser.MixedOfInts` | baloneo_simple.py:330-332 | `float(str(w)) + Fraction(str(n)/str(d))` is w + n/d, and 0.0 (the caught `ZeroDivisionError`) when `d` is 0 |
| `NumberParser.ParseMixedIgnoresExtraParts` | baloneo_simple.py:329-332 | parts after the second are ignored |
| `NumberParser.MixedOfExtraParts` | baloneo_simple.py:329-332 | a third part does not change the mixed value |
| `NumberParser.MixedValueFirstTwo` | baloneo_simple.py:330-332 | only `parts[0]` and `parts[1]` are read |
| `NumberParser.ParseBadDenominator` | baloneo_simple.py:335-340 | a denominator that is not a digit string (`1/x`, `1/2/3`) gives 0.0 |
| `NumberParser.ParseNotANumber` | baloneo_simple.py:338-340 | a text without `/` that does not start like a number (`abc`) gives 0.0 |
| `NumberParser.ParseTwoSlashesExample` | baloneo_simple.py:335-340 | `"1/2/3"` gives 0.0 |
| `Domain.DefaultNameInjective` | baloneo_simple.py:900 | different balloon numbers give different default names `D{n}` |
| `Projection.FromPageToPage` | baloneo_simple.py:1283-1306 | inverse partner: a projected point displayed again is the clicked point, for every rotation |
| `Projection.ToPageFromPage` | baloneo_simple.py:1283-1306 | every page point is the projection of the point where it is displayed |
| `Projection.ToPageInside` | baloneo_simple.py:1242-1306 | a point inside the displayed page projects inside the unrotated page |
| `Projection.ToPageKeepsDistance` | baloneo_simple.py:1283-1306 | each rotation case is a rigid motion, so distances between balloons are kept |
| `Projection.HalfTurnIsTwoQuarterTurns` | baloneo_simple.py:1287-1297 | the 180 case is the 90 case applied twice, with width and height swapped between the two |
| `Projection.QuarterTurnsCompose` | baloneo_simple.py:1287-1303 | the 270 case is three 90 cases, and four quarter turns give the identity |
| `Projection.ToPageMovesByTurn` | baloneo_simple.py:1287-1303 | the quarter-turn cases move an offset by a turn, applied one, two or three times |
| `Projection.ProjectionExample` | baloneo_simple.py:1266-1293 | a click at (120, 80) on a page shown at 90 degrees, 400 wide, lands at (40, 340) |
| `Projection.LabelOffsetTurns` | baloneo_simple.py:1334-1352 | the label offset of a rotated page is the unrotated offset turned by the rotation |
| `Projection.LabelFollowsDisplay` | baloneo_simple.py:1325-1362 | the label anchor is the projection of the unrotated label position of the displayed balloon |
| `Projection.DrawBalloonShape` | baloneo_simple.py:1254-1364 | circle at the projected centre with radius size/4; font 1.2 times the radius; text `str(number)`; rotation of the page; anchor the projected label position |
| `Projection.DrawIgnoresBalloonRotation` | baloneo_simple.py:1261 | the rotation stored with a balloon does not affect what is drawn |
| `Projection.OtherRotationsDrawLikeZero` | baloneo_simple.py:1304-1306 | a rotation other than 90, 180 or 270 draws the circle and label as 0 does |
| `PageDict.Keys` | baloneo_simple.py:1183 | the keys in iteration order, one per entry |
| `PageDict.KeysCons` | baloneo_simple.py:1183 | the keys of an entry followed by a dict |
| `PageDict.GetKeys` | baloneo_simple.py:759 | `k in d` holds exactly when `d.get(k)` finds a value |
| `PageDict.GetFound` | baloneo_simple.py:760 | a value found is one of the stored entries |
| `PageDict.PutGet` | baloneo_simple.py:743-750 | after `d[k] = v`, `d.get(k)` is `v` |
| `PageDict.PutKeys` | baloneo_simple.py:743-750 | an existing key keeps its place in the iteration order, and a new key comes last |
| `PageDict.PutOther` | baloneo_simple.py:743-750 | assigning `k` leaves every other key's value unchanged |
| `PageDict.PutDistinct` | baloneo_simple.py:743-750 | assignment keeps the keys distinct |
| `PageDict.PutExisting` | baloneo_simple.py:743-750 | assigning the value already stored changes nothing, order included |
| `PageDict.PutPut` | baloneo_simple.py:743-750 | only the last of two assignments to a key is kept |
| `PageDict.GetAllValues` | baloneo_simple.py:760 | a value found under a key satisfies what all stored values satisfy |
| `PageDict.PutAllValues` | baloneo_simple.py:743-750 | assigning a value that satisfies a property keeps the property for all values |
| `PageState.RemoveAt` | baloneo_simple.py:123 | `list.pop(i)`: one fewer element; elements before `i` stay, elements after it shift down |
| `PageState.ClickKeepsConsistent` | baloneo_simple.py:837-849 | a click increments the counter; it appends the balloon (x, y, counter, 35, rotation) and a row named `D{counter}` in the global unit; everything before is unchanged and the invariant holds |
| `PageState.RemoveLastKeepsConsistent` | baloneo_simple.py:873-885 | with counter 0 nothing happens; otherwise the last balloon and row are dropped and the counter decremented |
| `PageState.DeleteRowKeepsConsistent` | baloneo_simple.py:931-947 | deleting the selected row keeps one balloon per row and the counter their number |
| `PageState.DeleteRowDoesNotRenumber` | baloneo_simple.py:941-946 | deleting row `sel` removes that row and balloon only: one row fewer, rows before `sel` kept, later balloons keep their numbers |
| `PageState.DeleteThenClickRepeatsNumber` | baloneo_simple.py:840-846 | after deleting the first row of a numbered page, a click reuses the number the last balloon shows |
| `PageState.ClickKeepsNumbered` | baloneo_simple.py:840-843 | clicking keeps balloon `i` numbered `i + 1` |
| `PageState.RemoveLastKeepsNumbered` | baloneo_simple.py:875-884 | removing the last balloon keeps the numbering dense |
| `PageState.ClearEmpties` | baloneo_simple.py:855-871 | both clear actions empty balloons, rows and counter when confirmed and otherwise change nothing; the two are equal |
| `PageState.SetUnitRewritesUnits` | baloneo_simple.py:966-971 | each row's unit becomes the new unit and nothing else changes |
| `PageState.EditKeepsConsistent` | baloneo_simple.py:894-929 | typing in a cell or choosing an instrument keeps the invariant |
| `PageState.MoveKeepsConsistent` | baloneo_simple.py:169-192 | a drag changes only the coordinates of one balloon; number, size, rotation, rows and counter stay |
| `PageState.RecordOfListed` | baloneo_simple.py:720-740 | a row built by the table is recorded verbatim and restored as the same row |
| `PageState.RecordOfEmptyRow` | baloneo_simple.py:723-730 | missing cells are recorded as `D{i+1}`, `0.0`, `0.0`, `0.0`, Vernier, mm and empty notes |
| `PageState.SnapshotIsConsistent` | baloneo_simple.py:707-747 | a saved snapshot has one balloon per recorded row and the counter their number |
| `PageState.SaveRestoreRoundTrip` | baloneo_simple.py:707-800 | restoring a snapshot gives back the same balloons, rows and counter, with the balloons stamped with the current rotation |
| `PageState.RestoredBalloons` | baloneo_simple.py:763-769 | restored balloons keep x, y, number and size, and take the rotation current at the restore |
| `PageState.RestoreUnsaved` | baloneo_simple.py:796-798 | a page never saved restores empty with counter 0 |
| `PageState.RestoreIsConsistent` | baloneo_simple.py:752-800 | a consistent snapshot, or none, restores a consistent page |
| `PageState.RestoreUnlistedInstrument` | baloneo_simple.py:781-783 | a recorded instrument the combo box does not offer comes back as its first choice, Vernier |
| `Session.RotateStep` | baloneo_simple.py:813 | `(r + 90) % 360` lies in [0, 360) |
| `SessionProperties.SaveToOther` | baloneo_simple.py:743-750 | saving one page leaves every other page's entries unchanged |
| `SessionProperties.SaveKeepsStoreValid` | baloneo_simple.py:707-750 | after a save, the store holds the page's snapshot and rotation and stays valid |
| `SessionProperties.ShowKeepsValid` | baloneo_simple.py:645-691 | showing a page from a valid store gives a valid window |
| `SessionProperties.GoToKeepsValid` | baloneo_simple.py:693-705 | saving and then showing another page keeps the invariant |
| `SessionProperties.NextKeepsValid` | baloneo_simple.py:700-705 | `next_page` keeps the invariant |
| `SessionProperties.PrevKeepsValid` | baloneo_simple.py:693-698 | `prev_page` keeps the invariant |
| `SessionProperties.RotateKeepsValid` | baloneo_simple.py:802-833 | `rotate_pdf` keeps the invariant |
| `SessionProperties.LoadKeepsValid` | baloneo_simple.py:613-643 | `load_pdf` keeps the invariant |
| `SessionProperties.LiveKeepsValid` | baloneo_simple.py:837-971 | a live-page change that keeps one balloon per row keeps the window valid |
| `SessionProperties.StepKeepsValid` | baloneo_simple.py:613-971 | every user action keeps the invariant |
| `SessionProperties.RunKeepsValid` | baloneo_simple.py:613-971 | after any sequence of actions, #balloons = #rows = counter |
| `SessionProperties.InitialIsValid` | baloneo_simple.py:276-287 | the opening window satisfies the invariant |
| `SessionProperties.NextPrevRoundTrip` | baloneo_simple.py:693-800 | next then previous gives back the page, its rotation, rows and balloons, the balloons stamped with that rotation |
| `SessionProperties.NextToUnsavedPage` | baloneo_simple.py:700-705 | moving to a page never saved shows it empty, unrotated, with counter 0 |
| `SessionProperties.ShowUnsaved` | baloneo_simple.py:667-669 | showing a page never saved gives an empty, unrotated page |
| `SessionProperties.NavigationAtEnds` | baloneo_simple.py:693-705 | previous on the first page and next on the last page change nothing |
| `SessionProperties.FourRotationsReturn` | baloneo_simple.py:813 | four rotations restore the orientation; balloons, rows, store and other pages do not move |
| `SessionProperties.RotateStepIsQuarter` | baloneo_simple.py:813 | a rotation step maps quarter turns to quarter turns, and four steps return to the start |
| `SessionProperties.RotateWithoutDocument` | baloneo_simple.py:804-805 | without a document, rotating does nothing |
| `SessionProperties.RotateKeepsBalloons` | baloneo_simple.py:802-833 | a rotation turns only the page on screen; balloon coordinates, rows, store and other pages stay |
| `SessionProperties.UnitChangeSkipsSavedPages` | baloneo_simple.py:966-971 | the unit change leaves the stored pages unchanged and sets the global unit |
| `SessionProperties.ReopenShowsStalePage` | baloneo_simple.py:620-640 | opening a new PDF keeps both dictionaries, so page 0's saved balloons and rotation reappear |
| `SessionProperties.LoadFailureChangesNothing` | baloneo_simple.py:620-643 | a cancelled dialog or a file that fails to open changes nothing |
| `Export.LastIndexOf` | baloneo_simple.py:1088 | the result is -1 or a position in the text |
| `Export.SuffixStart` | baloneo_simple.py:1088 | the suffix starts within the name |
| `Export.ApplyRotations` | baloneo_simple.py:1171-1174 | writing rotations keeps the page count |
| `ExportProperties.PdfPathShape` | baloneo_simple.py:1073-1074 | the path ends in `.pdf` in some case and starts with the chosen path; a path already ending so is kept; applying it twice changes nothing |
| `ExportProperties.PdfSuffixIgnoresCase` | baloneo_simple.py:1073 | `.PDF` and `.Pdf` are accepted as they are |
| `ExportProperties.LastIndexOfSpec` | baloneo_simple.py:1088 | the position found holds `c`, and no `c` comes after it |
| `ExportProperties.LastIndexOfIs` | baloneo_simple.py:1088 | conversely, the last position of `c` (or -1) is what is found |
| `ExportProperties.NameSplit` | baloneo_simple.py:1064 | a path is its parent followed by its name, and the name contains no `/` |
| `ExportProperties.PdfSuffixChars` | baloneo_simple.py:1073-1088 | a `.pdf` suffix is a dot followed by three characters that are neither `.` nor `/` |
| `ExportProperties.JsonBesidePdf` | baloneo_simple.py:1088 | the JSON path is the PDF path with `.pdf` replaced by `.json`; a file named only `.pdf` gets `.json` appended |
| `ExportProperties.DefaultOutputNameOfPdf` | baloneo_simple.py:1064 | the proposed name is the open file's stem followed by `_baloneado` |
| `ExportProperties.ParseZero` | baloneo_simple.py:1115 | the default texts `0` and `0.0` parse to 0.0 |
| `ExportProperties.CellNumberParsesDefault` | baloneo_simple.py:1114-1124 | a numeric cell is read as its text, or as `0` when missing |
| `ExportProperties.DimensionDefaults` | baloneo_simple.py:1110-1131 | a row without cells exports as `D{i+1}`, 0, 0, 0, Vernier, mm and empty notes |
| `ExportProperties.DimensionOfCompleteRow` | baloneo_simple.py:1110-1141 | a complete row exports its texts verbatim and its three numbers parsed |
| `ExportProperties.DimensionSurvivesSave` | baloneo_simple.py:720-740 | a row saved and restored exports the same dimension, as long as its instrument is one the combo box offers |
| `ExportProperties.NumberSurvivesSave` | baloneo_simple.py:724 | a numeric cell saved as its text, or `0.0` when missing, parses as before |
| `ExportProperties.ManifestShape` | baloneo_simple.py:1106-1151 | one dimension per table row, in order, and version 1 |
| `ExportProperties.ManifestSurvivesPageChange` | baloneo_simple.py:693-800 | leaving a page and coming back does not change the manifest it exports |
| `ExportProperties.ApplyRotationsOk` | baloneo_simple.py:1171-1174 | every rotation is written exactly when each non-zero one names a page of the document |
| `ExportProperties.ApplyRotationsPages` | baloneo_simple.py:1171-1174 | when all writes succeed, each page carries its stored non-zero rotation and otherwise stays as it was |
| `ExportProperties.DrawnPagesCons` | baloneo_simple.py:1183 | the drawn pages of a draw followed by more draws |
| `ExportProperties.PageDrawnIff` | baloneo_simple.py:1183-1193 | a page gets balloons drawn exactly when it exists and its stored snapshot has balloons |
| `ExportProperties.PageDrawContent` | baloneo_simple.py:1187-1193 | a drawn page gets one drawing per stored balloon, in order, on that page |
| `ExportProperties.ExportRefusals` | baloneo_simple.py:1048-1070 | no rows: refused; no PDF: refused; cancelled dialog: nothing; in each case the state is unchanged |
| `ExportProperties.ExportedShape` | baloneo_simple.py:1045-1104 | on success: PDF path suffixed, JSON beside it, manifest of the rows on screen, page on screen saved, and drawn exactly when it has balloons |
| `ExportProperties.ExportFailsOnStaleRotation` | baloneo_simple.py:1171-1174 | a non-zero rotation stored for a page the document lacks makes the generation fail |
| `ExportProperties.PutKeepsOther` | baloneo_simple.py:743 | an entry under another key survives an assignment |
| `ExportProperties.ExportKeepsValid` | baloneo_simple.py:1045-1104 | the export keeps the invariant, whatever its outcome |
| `GraphicsView.FirstHit` | baloneo_simple.py:147-154 | the result is the first balloon under the point, or none when no balloon is |
| `GraphicsView.BalloonView.constructor` | baloneo_simple.py:45-51 | no balloons, no image, zoom 1, no drag, no pan |
| `GraphicsView.BalloonView.LoadImage` | baloneo_simple.py:56-74 | clears the balloons and the drag, resets the zoom to 1, shows the new image; pan and grab offset are kept |
| `GraphicsView.BalloonView.SetImage` | baloneo_simple.py:677 | replaces the pixmap and leaves balloons, zoom and drag as they were |
| `GraphicsView.BalloonView.AddBalloon` | baloneo_simple.py:76-115 | appends exactly the balloon (x, y, number, size, rotation); nothing else changes |
| `GraphicsView.BalloonView.RemoveBalloon` | baloneo_simple.py:117-123 | an index in range pops that balloon, one out of range does nothing; the drag ends if its balloon is removed and its index follows the shift otherwise; the grab offset, image, zoom and pan are kept |
| `GraphicsView.BalloonView.ClearBalloons` | baloneo_simple.py:125-130 | no balloons and no drag remain; image, zoom, pan and grab offset stay |
| `GraphicsView.BalloonView.Press` | baloneo_simple.py:132-164 | the result is the one `PressOf` specifies; a grab records the first balloon hit and its offset; Shift-left starts a pan |
| `GraphicsView.BalloonView.Move` | baloneo_simple.py:166-192 | while dragging, only the dragged balloon moves, keeping its grab offset |
| `GraphicsView.BalloonView.Release` | baloneo_simple.py:216-233 | the left button ends a drag, or else a pan; the grab offset, balloons, image and zoom are kept |
| `GraphicsView.BalloonView.Wheel` | baloneo_simple.py:235-263 | the factor becomes the clamped product, and the view is scaled only when not clamped |
| `GraphicsView.WheelZoomLimits` | baloneo_simple.py:254-260 | after any wheel step the factor lies in [0.1, 10] |
| `GraphicsView.WheelZoomApplies` | baloneo_simple.py:245-263 | the view is scaled by the step exactly when the product stays within the limits |
| `GraphicsView.WheelInThenOut` | baloneo_simple.py:238-252 | a step in then a step out cancel when neither is clamped |
| `GraphicsView.WheelAtLimit` | baloneo_simple.py:254-260 | at a limit, another step the same way changes nothing |
| `GraphicsView.DragKeepsGrabPoint` | baloneo_simple.py:151-189 | the grabbed point stays under the mouse, and number, size and rotation are kept |
| `GraphicsView.DragMovesWithMouse` | baloneo_simple.py:171-189 | the balloon moves by exactly the mouse's movement |
| `GraphicsView.CtrlClick` | baloneo_simple.py:145-162 | Ctrl-left grabs exactly when a balloon is under the point; a miss behaves as a plain click |
| `GraphicsView.GrabbedIsFirstHit` | baloneo_simple.py:145-154 | a grab only happens with Ctrl, and grabs the first balloon under the point |
| `GraphicsView.ImageClickWhen` | baloneo_simple.py:137-162 | the window is told of a click exactly for a left click on the image, without Shift, that grabbed nothing |
| `App.BaloneaApp.constructor` | baloneo_simple.py:276-287 | the opening window: no document, page 0, unit mm, counter 0, empty stores, no turned image; the view has no image, zoom 1, no drag and no pan |
| `App.BaloneaApp.SaveCurrentPage` | baloneo_simple.py:707-750 | the store afterwards is the one the save function gives |
| `App.BaloneaApp.RestoreCurrentPage` | baloneo_simple.py:752-800 | the live page is the restore of the page's saved data, or empty; the drag ends; document, page, rotation, stores, unit, turned size, image, zoom, pan and grab offset are kept |
| `App.BaloneaApp.ShowCurrentPage` | baloneo_simple.py:645-691 | the window performs the show transition and is valid afterwards; with a document the view shows the page rendered at zoom 2 turned by its stored rotation, keeps the unturned size when turned, resets the zoom and ends the drag; without one the view is unchanged |
| `App.BaloneaApp.NextPage` | baloneo_simple.py:700-705 | the window performs the next-page transition and stays valid; when there is a next page the view shows it as the show step does, otherwise the view is unchanged |
| `App.BaloneaApp.PrevPage` | baloneo_simple.py:693-698 | the window performs the previous-page transition and stays valid; when there is a previous page the view shows it as the show step does, otherwise the view is unchanged |
| `App.BaloneaApp.LoadPdf` | baloneo_simple.py:613-643 | the window performs the load transition and stays valid; a loaded document with pages shows its first page as the show step does; a cancelled or failed load leaves the view and turned size unchanged |
| `App.BaloneaApp.RotatePdf` | baloneo_simple.py:802-833 | the window performs the rotate transition and stays valid; the image becomes the unturned image (kept from the first turn) turned by the new rotation; balloons, zoom, drag and pan are kept; without a document nothing changes |
| `App.BaloneaApp.AddDimensionRow` | baloneo_simple.py:894-929 | appends the row `D{n}`, 0.0, 0.0, 0.0, Vernier, global unit, empty notes; nothing else changes |
| `App.BaloneaApp.OnImageClick` | baloneo_simple.py:837-849 | the window performs the click step and stays valid; image, turned size, drag, pan and zoom state are untouched |
| `App.BaloneaApp.RemoveLastBalloon` | baloneo_simple.py:873-885 | the window performs the remove-last step and stays valid; image, zoom, pan, grab offset and turned size are kept; the drag follows the removal |
| `App.BaloneaApp.DeleteDimensionRow` | baloneo_simple.py:931-947 | the window performs the delete-row step and stays valid; image, zoom, pan, grab offset and turned size are kept; the drag follows the removal of balloon `sel` |
| `App.BaloneaApp.ClearBalloons` | baloneo_simple.py:855-871 | the window performs the clear-balloons step and stays valid; a confirmed clear of a non-empty page ends the drag; image, zoom, pan, grab offset and turned size are kept |
| `App.BaloneaApp.ClearTable` | baloneo_simple.py:949-964 | the window performs the clear-table step and stays valid; a confirmed clear of a non-empty table ends the drag; image, zoom, pan, grab offset and turned size are kept |
| `App.BaloneaApp.UpdateGlobalUnit` | baloneo_simple.py:966-971 | the window performs the unit-change step and stays valid; the view and the turned size are kept |
| `App.BaloneaApp.EditCell` | baloneo_simple.py:899-913 | the window performs the cell-edit step and stays valid; the view and the turned size are kept |
| `App.BaloneaApp.SelectInstrument` | baloneo_simple.py:915-919 | the window performs the instrument-choice step and stays valid; the view and the turned size are kept |
| `App.BaloneaApp.MousePress` | baloneo_simple.py:132-164 | a reported image click performs the click step; any other press leaves the page unchanged; a Shift-left press starts a pan, a Ctrl-left press on a balloon starts dragging it with the grab offset, otherwise drag and pan state are kept; image, zoom and turned size are kept |
| `App.BaloneaApp.MouseMove` | baloneo_simple.py:166-192 | while dragging, the dragged balloon moves to the mouse position minus the offset (a drag step); otherwise nothing changes; image, drag, pan and zoom state are untouched |
| `App.BaloneaApp.MouseRelease` | baloneo_simple.py:216-233 | releasing the mouse changes no balloon, row or page; the left button ends a drag, or else a pan; image, zoom and grab offset are kept |
| `App.BaloneaApp.Wheel` | baloneo_simple.py:235-263 | zooming changes no balloon, row or page; the factor is the clamped product; image, drag and pan state are kept |
| `App.BaloneaApp.GenerateDimensions` | baloneo_simple.py:1106-1151 | the manifest of the rows on screen |
| `App.BaloneaApp.GeneratePdf` | baloneo_simple.py:1153-1222 | without a document it fails at once and changes nothing; otherwise it saves the page on screen and writes the stored rotations; `ok` says whether all writes succeeded; on success, the draws of the stored pages, and none on failure |
| `App.BaloneaApp.ExportPdfWithBalloons` | baloneo_simple.py:1045-1104 | the state and outcome are those of the export function, and the window stays valid; the turned size is kept |
| `App.CopyBalloons` | baloneo_simple.py:710-718 | the balloons are copied field by field, giving the same balloons in the same order |
| `App.RestoreRows` | baloneo_simple.py:771-792 | one row per record, in order, each as `RowOf` rebuilds it, an unknown instrument falling back to the first choice |
| `App.RecordRows` | baloneo_simple.py:720-740 | one record per table row, in order, each as `RecordOf` reads it |
| `App.SetRotations` | baloneo_simple.py:1170-1174 | the loop gives the pages and success flag of the rotation function |
| `App.DrawStoredPages` | baloneo_simple.py:1182-1193 | the loop gives the draws of the stored pages, skipping missing pages and pages without balloons |
| `App.DrawBalloonsOnPage` | baloneo_simple.py:1224-1371 | one circle and one label per balloon, in order, as the projection gives them |

## Left out

- **Qt display details are not modelled.** This covers widgets, styling, the cursor, the counter label, enabling and disabling buttons, `fitInView`, the scene margin and `zoom_fit`. None of them affect balloons, rows or the stores.
- **Panning is not modelled.** `mousePressEvent` and `mouseReleaseEvent` keep the `panning` flag, but the scrolling in `mouseMoveEvent` and the wheel's re-anchoring with `translate` change only the view.
- **`mapToScene` is not modelled.** Mouse positions enter the model already in scene coordinates.
- **Dialogs and file access become parameters.** The open and save dialogs become the `chosen` parameter, empty when cancelled. The yes/no dialogs become `confirmed`. `fitz.open` becomes `loaded`, which is `None` when it raises.
- **The export's side effects are not modelled.** This covers the temporary files, `pdf_document.save`, reading the bytes back and writing the two output files, so a write error is not modelled either. The PDF result is modelled as the list of draw commands per page.
- **The manifest's text is not modelled.** That means the JSON text, its indentation and the `fecha_creacion` timestamp (a clock reading).
- **The JSON-only export is left out.** `export_json` duplicates `generate_dimensions_json` field for field, and no button in the window is wired to it.
- **Text widths are a parameter.** `fitz.get_text_length` is the `textWidth` function parameter, and `page.rect` is modelled as the page's width and height swapped for a quarter turn.
- **Arithmetic is on exact reals.** `float()` and `Fraction()` are modelled on exact reals, not IEEE doubles. Only an optional sign, ASCII digits and a decimal point are accepted: exponents, underscores, `inf`, `nan`, non-ASCII digits and whitespace around `/` are not.
- **`str.strip` and `str.split`** treat the ASCII and common Unicode space characters as white space. Other Unicode separators are not covered.
- **`str.lower()` only lowers ASCII letters.** Path handling works on `/`-separated strings, with no normalisation.
- **`GraphicsView.Hit`** approximates `QGraphicsEllipseItem.contains` by the disc of the balloon's diameter widened by half the 2-pixel outline. The exact hit test at the outline is not modelled.
- **A drag points to a balloon by index, not by the shared Python dict.** When a balloon is removed or cleared during a drag, the model shifts the index or ends the drag. In the source, the removed dict can stay referenced and keep moving off-screen.
- GraphicsView.BalloonView.Release: keeps the grab offset where `mouseReleaseEvent` sets `drag_offset` to `None`; the offset is read only while a drag is on, so no later step depends on it.
- **`load_image(None)`** (a failed render) is not modelled: the rendered pixmap is always present.
- **Image rotation is not modelled.** A rotated page's `/Rotate` may already be honoured by `get_pixmap` when it is shown again, which would be applied twice with `QTransform`. Only the image's size is modelled.
- **Two exceptions are modelled.** `fitz.open` raising in `load_pdf` is the `loaded == None` parameter, and the load then changes nothing (`SessionProperties.LoadFailureChangesNothing`). A stored non-zero rotation for a page the document does not have raises during generation and makes it fail (`ExportProperties.ExportFailsOnStaleRotation`). The exceptions `show_current_page`, `rotate_pdf` and `insert_text` catch (malformed PDFs, font errors) are not modelled; a label that fails to insert is modelled as drawn.
- **The export is not one of `Session.Step`'s actions.** It is modelled separately by `Export.ExportPdf` and `App.BaloneaApp.ExportPdfWithBalloons`, and `ExportProperties.ExportKeepsValid` connects it to the same invariant.
- **`main()` and the application start-up are not modelled.**
