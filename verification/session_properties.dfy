/**
 * What the window's state keeps true through every user action, and the
 * round trips of navigation and rotation.
 */
module SessionProperties {
  import opened Wrappers
  import opened Domain
  import opened PageDict
  import opened PageState
  import opened Session

  /** A save leaves the entries of the other pages as they were. */
  lemma SaveToOther(st: Store, page: nat, snap: PageSnapshot, rotation: int, other: nat)
    requires other != page
    ensures Get(SaveTo(st, page, snap, rotation).balloonsByPage, other) == Get(st.balloonsByPage, other)
    ensures Get(SaveTo(st, page, snap, rotation).rotationByPage, other) == Get(st.rotationByPage, other)
  {
    PutOther(st.balloonsByPage, page, snap, other);
    PutOther(st.rotationByPage, page, rotation, other);
  }

  // ---------------------------------------------------------------------------
  // The invariant

  lemma SaveKeepsStoreValid(s: Session)
    requires Valid(s)
    ensures StoreValid(SaveCurrent(s).store)
    ensures Get(SaveCurrent(s).store.balloonsByPage, s.page) == Some(Snapshot(s.live))
    ensures RotationOf(SaveCurrent(s).store, s.page) == s.rotation
  {
    PutGet(s.store.balloonsByPage, s.page, Snapshot(s.live));
    PutGet(s.store.rotationByPage, s.page, s.rotation);
    PutDistinct(s.store.balloonsByPage, s.page, Snapshot(s.live));
    PutDistinct(s.store.rotationByPage, s.page, s.rotation);
    SnapshotIsConsistent(s.live);
    PutAllValues(s.store.balloonsByPage, SnapshotConsistent, s.page, Snapshot(s.live));
    PutAllValues(s.store.rotationByPage, Quarter, s.page, s.rotation);
  }

  lemma ShowKeepsValid(s: Session)
    requires Consistent(s.live) && StoreValid(s.store) && Quarter(s.rotation)
    requires |s.doc| == 0 || s.page < |s.doc|
    ensures Valid(Show(s))
  {
    if |s.doc| > 0 {
      var saved := Get(s.store.balloonsByPage, s.page);
      if saved.Some? {
        GetAllValues(s.store.balloonsByPage, SnapshotConsistent, s.page);
      }
      if Get(s.store.rotationByPage, s.page).Some? {
        GetAllValues(s.store.rotationByPage, Quarter, s.page);
      }
      RestoreIsConsistent(saved, RotationOf(s.store, s.page));
    }
  }

  /** Saving the page on screen and showing page `p` keeps the invariant. */
  lemma GoToKeepsValid(s: Session, p: nat)
    requires Valid(s) && (|s.doc| == 0 || p < |s.doc|)
    ensures Valid(GoTo(s, p))
  {
    SaveKeepsStoreValid(s);
    ShowKeepsValid(SaveCurrent(s).(page := p));
  }

  lemma NextKeepsValid(s: Session)
    requires Valid(s)
    ensures Valid(NextPage(s))
  {
    if s.page + 1 < |s.doc| {
      GoToKeepsValid(s, s.page + 1);
    }
  }

  lemma PrevKeepsValid(s: Session)
    requires Valid(s)
    ensures Valid(PrevPage(s))
  {
    if s.page > 0 {
      GoToKeepsValid(s, s.page - 1);
    }
  }

  lemma RotateKeepsValid(s: Session)
    requires Valid(s)
    ensures Valid(RotatePdf(s))
  {
  }

  lemma LoadKeepsValid(s: Session, chosen: string, loaded: Option<seq<Page>>)
    requires Valid(s)
    ensures Valid(LoadPdf(s, chosen, loaded))
  {
    if chosen != [] && loaded.Some? {
      ShowKeepsValid(s.(path := chosen, doc := loaded.value, page := 0, rotation := 0));
    }
  }

  /** The invariant of the live page extends to the window. */
  lemma LiveKeepsValid(s: Session, l: Live)
    requires Valid(s) && Consistent(l)
    ensures Valid(s.(live := l))
  {
  }

  lemma StepKeepsValid(s: Session, a: Action)
    requires Valid(s)
    ensures Valid(Step(s, a))
  {
    match a {
      case OpenPdf(chosen, loaded) => LoadKeepsValid(s, chosen, loaded);
      case Next => NextKeepsValid(s);
      case Prev => PrevKeepsValid(s);
      case Rotate => RotateKeepsValid(s);
      case ImageClick(x, y) =>
        ClickKeepsConsistent(s.live, x, y, s.rotation, s.unit);
        LiveKeepsValid(s, Click(s.live, x, y, s.rotation, s.unit));
      case RemoveLastBalloon =>
        RemoveLastKeepsConsistent(s.live);
        LiveKeepsValid(s, RemoveLast(s.live));
      case DeleteDimensionRow(sel, confirmed) =>
        DeleteRowKeepsConsistent(s.live, sel, confirmed);
        LiveKeepsValid(s, DeleteRow(s.live, sel, confirmed));
      case ClearAllBalloons(confirmed) =>
        ClearEmpties(s.live, confirmed);
        LiveKeepsValid(s, ClearBalloons(s.live, confirmed));
      case ClearDimensionTable(confirmed) =>
        ClearEmpties(s.live, confirmed);
        LiveKeepsValid(s, ClearTable(s.live, confirmed));
      case ChangeUnit(unit) =>
        SetUnitRewritesUnits(s.live, unit);
        LiveKeepsValid(s.(unit := unit), SetUnit(s.live, unit));
      case TypeCell(row, column, text) =>
        EditKeepsConsistent(s.live, row, column, text, 0);
        LiveKeepsValid(s, EditCell(s.live, row, column, text));
      case PickInstrument(row, choice) =>
        EditKeepsConsistent(s.live, row, NameCol, "", choice);
        LiveKeepsValid(s, SelectInstrument(s.live, row, choice));
      case DragBalloon(index, x, y) =>
        MoveKeepsConsistent(s.live, index, x, y);
        LiveKeepsValid(s, MoveBalloon(s.live, index, x, y));
    }
  }

  /** From the opening window, any sequence of actions keeps one balloon per row and the counter their number. */
  lemma {:induction false} RunKeepsValid(s: Session, actions: seq<Action>)
    requires Valid(s)
    ensures Valid(Run(s, actions))
    ensures |Run(s, actions).live.balloons| == |Run(s, actions).live.rows| == Run(s, actions).live.counter
    decreases |actions|
  {
    if actions != [] {
      StepKeepsValid(s, actions[0]);
      RunKeepsValid(Step(s, actions[0]), actions[1..]);
    }
  }

  lemma InitialIsValid()
    ensures Valid(Initial)
  {
  }

  // ---------------------------------------------------------------------------
  // Navigation and rotation

  /**
   * Going to the next page and back restores the page as it was: its
   * rotation, and its balloons and rows, the balloons stamped with that
   * rotation.
   */
  lemma NextPrevRoundTrip(s: Session)
    requires Valid(s)
    requires s.page + 1 < |s.doc|
    ensures var t := PrevPage(NextPage(s));
      && t.page == s.page && t.doc == s.doc && t.rotation == s.rotation
      && t.live == s.live.(balloons := WithRotation(s.live.balloons, s.rotation))
  {
    var n := NextPage(s);
    SaveKeepsStoreValid(s);
    ShowKeepsValid(SaveCurrent(s).(page := s.page + 1));
    var m := SaveCurrent(n);
    PutOther(SaveCurrent(s).store.balloonsByPage, n.page, Snapshot(n.live), s.page);
    PutOther(SaveCurrent(s).store.rotationByPage, n.page, n.rotation, s.page);
    assert Get(m.store.balloonsByPage, s.page) == Some(Snapshot(s.live));
    assert RotationOf(m.store, s.page) == s.rotation;
    SaveRestoreRoundTrip(s.live, s.rotation);
  }

  /** A page never saved shows empty, unrotated, with the counter at 0. */
  lemma NextToUnsavedPage(s: Session)
    requires s.page + 1 < |s.doc|
    requires Get(s.store.balloonsByPage, s.page + 1) == None && Get(s.store.rotationByPage, s.page + 1) == None
    ensures NextPage(s).live == Empty && NextPage(s).rotation == 0 && NextPage(s).page == s.page + 1
  {
    var t := SaveCurrent(s).(page := s.page + 1);
    SaveToOther(s.store, s.page, Snapshot(s.live), s.rotation, s.page + 1);
    ShowUnsaved(t);
  }

  lemma ShowUnsaved(t: Session)
    requires |t.doc| > 0
    requires Get(t.store.balloonsByPage, t.page) == None && Get(t.store.rotationByPage, t.page) == None
    ensures Show(t).live == Empty && Show(t).rotation == 0 && Show(t).page == t.page
  {
  }

  /** Moving is a no-op at the ends of the document. */
  lemma NavigationAtEnds(s: Session)
    ensures s.page == 0 ==> PrevPage(s) == s
    ensures s.page + 1 >= |s.doc| ==> NextPage(s) == s
  {
  }

  /** Four rotations bring the orientation back; the balloons, rows and store never move. */
  lemma FourRotationsReturn(s: Session)
    requires Valid(s) && |s.doc| > 0
    ensures var t := RotatePdf(RotatePdf(RotatePdf(RotatePdf(s))));
      && t.rotation == s.rotation && t.live == s.live && t.store == s.store
      && |t.doc| == |s.doc| && t.doc[s.page].rotation == s.rotation
      && forall i :: 0 <= i < |s.doc| && i != s.page ==> t.doc[i] == s.doc[i]
  {
  }

  /** A rotation step stays a quarter turn and is a no-op without a document. */
  lemma RotateStepIsQuarter(r: int)
    requires Quarter(r)
    ensures Quarter(RotateStep(r))
    ensures RotateStep(RotateStep(RotateStep(RotateStep(r)))) == r
  {
  }

  lemma RotateWithoutDocument(s: Session)
    requires |s.doc| == 0
    ensures RotatePdf(s) == s
  {
  }

  /** A rotation turns the page on screen only: balloons, rows, store and the other pages stay. */
  lemma RotateKeepsBalloons(s: Session)
    requires Valid(s) && |s.doc| > 0
    ensures var t := RotatePdf(s);
      && t.live == s.live && t.store == s.store && t.page == s.page
      && t.rotation == RotateStep(s.rotation) && t.doc[s.page].rotation == t.rotation
      && |t.doc| == |s.doc| && forall i :: 0 <= i < |s.doc| && i != s.page ==> t.doc[i] == s.doc[i]
  {
  }

  /** The unit change leaves the saved pages alone: they keep the unit they were saved with. */
  lemma UnitChangeSkipsSavedPages(s: Session, unit: string)
    ensures UpdateGlobalUnit(s, unit).store == s.store
    ensures UpdateGlobalUnit(s, unit).unit == unit
  {
  }

  /**
   * Opening another PDF keeps both dictionaries: when the previous document
   * had a saved page 0, its balloons and rotation come back on the new
   * document's first page.
   */
  lemma ReopenShowsStalePage(s: Session, chosen: string, pages: seq<Page>)
    requires chosen != [] && |pages| > 0
    requires 0 in Keys(s.store.balloonsByPage)
    ensures var t := LoadPdf(s, chosen, Some(pages));
      && t.store == s.store && t.page == 0 && t.doc == pages
      && t.rotation == RotationOf(s.store, 0)
      && t.live == Restore(Get(s.store.balloonsByPage, 0), RotationOf(s.store, 0))
      && Get(s.store.balloonsByPage, 0).Some?
  {
    GetKeys(s.store.balloonsByPage, 0);
  }

  /** A cancelled dialog or a file that does not open changes nothing. */
  lemma LoadFailureChangesNothing(s: Session, chosen: string, loaded: Option<seq<Page>>)
    requires chosen == [] || loaded.None?
    ensures LoadPdf(s, chosen, loaded) == s
  {
  }

}
