/**
 * What dispatching a control function does (alfalfa/src/terminal/terminaldispatcher.cc), with the wrap that is pending
 * before and after.
 */
module ControlDispatch {
  import opened Outcomes
  import opened TerminalRenditions
  import opened Screens
  import opened ControlFunctions
  import opened ScreenEffects
  import opened ControlEffects

  /** The screen a function finds: only tabs, the stops, the private modes and the renditions leave a wrap pending. */
  function Found(s: Screen, f: Option<Fn>): Screen {
    s.(ds := s.ds.(wrapNext := s.ds.wrapNext && f in {Some(HT), Some(TBC), Some(DECSM), Some(DECRM), Some(SGR)}))
  }

  /** An unknown function cancels a pending wrap and does nothing else; a known one is performed on the screen found. */
  lemma DispatchEffect(s: Screen, f: Option<Fn>, p: seq<int>)
    requires Shaped(s)
    ensures Shaped(Found(s, f))
    ensures Dispatch(s, f, p) == if f.None? then Found(s, f) else Perform(Found(s, f), f.value, p)
  {
    hide Perform, RowsOk;
  }

  /** Erasing in the line, in the display, and so many characters. */
  lemma EraseDispatched(s: Screen, f: Fn, p: seq<int>)
    requires Shaped(s)
    ensures f == EL ==> ErasedScreen(Found(s, None), Dispatch(s, Some(f), p), Param(p, 0, 0), false)
    ensures f == ED ==> ErasedScreen(Found(s, None), Dispatch(s, Some(f), p), Param(p, 0, 0), true)
    ensures f == ECH ==> ErasedFrom(Found(s, None), Dispatch(s, Some(f), p), Count(p, 0))
  {
    hide Perform, Shaped, ErasedScreen, ErasedFrom, Param, Count, EraseInLine, EraseInDisplay, EraseCharacters;
    DispatchEffect(s, Some(f), p);
    DispatchEffect(s, None, p);
    var t := Found(s, None);
    PerformsErase(t, f, p);
    EraseLineEffect(t, Param(p, 0, 0));
    EraseDisplayEffect(t, Param(p, 0, 0));
    EraseCharactersEffect(t, Count(p, 0));
  }

  lemma PerformsErase(s: Screen, f: Fn, p: seq<int>)
    requires Shaped(s)
    ensures f == EL ==> Perform(s, f, p) == EraseInLine(s, Param(p, 0, 0))
    ensures f == ED ==> Perform(s, f, p) == EraseInDisplay(s, Param(p, 0, 0))
    ensures f == ECH ==> Perform(s, f, p) == EraseCharacters(s, Count(p, 0))
  {
    hide Shaped, Param, Count, EraseInLine, EraseInDisplay, EraseCharacters, PerformModes;
  }

  /** Setting and resetting modes: a pending wrap is cancelled by the ordinary modes, and by the private modes 3 and 6
      that take the cursor home. */
  lemma ModesDispatched(s: Screen, f: Fn, p: seq<int>)
    requires Shaped(s)
    ensures f == SM || f == RM ==>
      Dispatch(s, Some(f), p)
      == s.(ds := s.ds.(wrapNext := false, insert := ModeAfter(s.ds.insert, p, |p|, 4, f == SM)))
    ensures f == DECSM || f == DECRM ==>
      Dispatch(s, Some(f), p) == s.(
        ds := StateAfterModes(s.ds, p, |p|, f == DECSM),
        rows := if Lists(p, |p|, {3}) then BlankRows(s.ds.width, s.ds.height, s.ds.renditions.background) else s.rows)
  {
    hide Perform, Shaped, SetDecModes, SetAnsiModes, StateAfterModes, ModeAfter, Lists, BlankRows;
    DispatchEffect(s, Some(f), p);
    var t := Found(s, Some(f));
    PerformsModes(t, f, p);
    DecModesEffect(t, p, |p|, f == DECSM);
    AnsiModesEffect(t, p, |p|, f == SM);
  }

  lemma PerformsModes(s: Screen, f: Fn, p: seq<int>)
    requires Shaped(s)
    ensures f == SM || f == RM ==> Perform(s, f, p) == SetAnsiModes(s, p, |p|, f == SM)
    ensures f == DECSM || f == DECRM ==> Perform(s, f, p) == SetDecModes(s, p, |p|, f == DECSM)
  {
    hide Shaped, Param, SetDecModes, SetAnsiModes;
  }

  /** A bell is counted, a report changes nothing, and the renditions are those of the list; only the last leaves a wrap
      pending. */
  lemma OthersDispatched(s: Screen, f: Fn, p: seq<int>)
    requires Shaped(s)
    ensures f == BEL ==> Dispatch(s, Some(f), p) == s.(bells := s.bells + 1, ds := s.ds.(wrapNext := false))
    ensures f == Report ==> Dispatch(s, Some(f), p) == s.(ds := s.ds.(wrapNext := false))
    ensures f == SGR ==> Dispatch(s, Some(f), p) == s.(ds := s.ds.(renditions := ApplySgr(s.ds.renditions, p)))
  {
    hide Perform, Shaped, ApplySgr;
    DispatchEffect(s, Some(f), p);
    PerformsOthers(Found(s, Some(f)), f, p);
  }

  /** A wrap is pending afterwards only if one was before, and tabs, stops and renditions keep it, as do private modes
      that do not take the cursor home. */
  lemma PendingWrapAfter(s: Screen, f: Fn, p: seq<int>)
    requires Shaped(s)
    ensures Dispatch(s, Some(f), p).ds.wrapNext <==>
      s.ds.wrapNext && (f in {HT, TBC, SGR} || (f in {DECSM, DECRM} && !Lists(p, |p|, {3, 6})))
  {
    hide Perform, Shaped, Lists, StateAfterModes;
    DispatchEffect(s, Some(f), p);
    if f in {DECSM, DECRM} {
      ModesDispatched(s, f, p);
      WrapAfterModes(s.ds, p, f == DECSM);
    } else if f in {HT, TBC, SGR} {
      KeepsPending(s, f, p);
    } else {
      NonePends(Found(s, Some(f)), f, p);
    }
  }

  lemma WrapAfterModes(d: DrawState, p: seq<int>, on: bool)
    ensures StateAfterModes(d, p, |p|, on).wrapNext <==> d.wrapNext && !Lists(p, |p|, {3, 6})
  {
    hide Lists, ModeAfter, RowAfterModes;
  }

  lemma KeepsPending(s: Screen, f: Fn, p: seq<int>)
    requires Shaped(s) && f in {HT, TBC, SGR}
    ensures Perform(s, f, p).ds.wrapNext == s.ds.wrapNext
  {
    hide Perform, Shaped, ApplySgr, IsNextStop;
    if f == HT {
      var c := TabEffect(s, p);
    } else if f == TBC {
      ClearStopsEffect(s, f, p);
    } else {
      PerformsOthers(s, f, p);
    }
  }

  lemma PerformsOthers(s: Screen, f: Fn, p: seq<int>)
    requires Shaped(s)
    ensures f == SGR ==> Perform(s, f, p) == s.(ds := s.ds.(renditions := ApplySgr(s.ds.renditions, p)))
    ensures f == BEL ==> Perform(s, f, p) == s.(bells := s.bells + 1)
    ensures f == Report ==> Perform(s, f, p) == s
    ensures f == DECSC ==> Perform(s, f, p) == Save(s)
    ensures f == DECRC ==> Perform(s, f, p) == Restore(s)
  {
    hide Shaped, Param, ApplySgr, Save, Restore;
  }

  /** No function starts a wrap. */
  lemma NonePends(s: Screen, f: Fn, p: seq<int>)
    requires Shaped(s) && !s.ds.wrapNext && f !in {HT, TBC, SGR, DECSM, DECRM}
    ensures !Perform(s, f, p).ds.wrapNext
  {
    hide Perform, Shaped;
    if MovesCursor(f) {
      CursorEffect(s, f, p);
    } else if f in {IL, DL, SD, SU, ICH, DCH, LF, RI, NEL} {
      MovesNonePends(s, f, p);
    } else if f in {EL, ED, ECH, DECSTBM, SM, RM} {
      ParametersNonePends(s, f, p);
    } else {
      OthersNonePends(s, f, p);
    }
  }

  lemma MovesNonePends(s: Screen, f: Fn, p: seq<int>)
    requires Shaped(s) && !s.ds.wrapNext && f in {IL, DL, SD, SU, ICH, DCH, LF, RI, NEL}
    ensures !Perform(s, f, p).ds.wrapNext
  {
    hide Perform, Shaped, LinesMoved, Shifted, RowAfterScroll, RowAfterFeed, RowAfterReverse, NearestRow, Count;
    if f == IL {
      InsertingLines(s, p);
    } else if f == DL {
      DeletingLines(s, p);
    } else if f in {SD, SU} {
      ScrollEffect(s, p);
    } else if f in {ICH, DCH} {
      CharactersEffect(s, p);
    } else {
      FeedEffect(s, p);
    }
  }

  lemma ParametersNonePends(s: Screen, f: Fn, p: seq<int>)
    requires Shaped(s) && !s.ds.wrapNext && f in {EL, ED, ECH, DECSTBM, SM, RM}
    ensures !Perform(s, f, p).ds.wrapNext
  {
    hide Perform, Shaped, Param, Count, EraseInLine, EraseInDisplay, EraseCharacters, SetAnsiModes, ModeAfter;
    PerformsErase(s, f, p);
    PerformsModes(s, f, p);
    if f == EL {
      EraseLineEffect(s, Param(p, 0, 0));
    } else if f == ED {
      EraseDisplayEffect(s, Param(p, 0, 0));
    } else if f == ECH {
      EraseCharactersEffect(s, Count(p, 0));
    } else if f == DECSTBM {
      MarginsEffect(s, p);
    } else {
      AnsiModesEffect(s, p, |p|, f == SM);
    }
  }

  lemma OthersNonePends(s: Screen, f: Fn, p: seq<int>)
    requires Shaped(s) && !s.ds.wrapNext && f in {HTS, RIS, DECSTR, DECALN, DECSC, DECRC, BEL, Report}
    ensures !Perform(s, f, p).ds.wrapNext
  {
    hide Perform, RowsOk, InitialScreen, Restore;
    PerformsOthers(s, f, p);
    match f {
      case HTS => SetStopEffect(s, f, p);
      case RIS => ResetEffect(s, p);
      case DECSTR => SoftResetEffect(s, p);
      case DECALN => AlignmentEffect(s, p);
      case _ =>
    }
    RestoredNonePends(s);
  }

  lemma RestoredNonePends(s: Screen)
    requires Shaped(s) && !s.ds.wrapNext
    ensures !Restore(s).ds.wrapNext && !InitialScreen(s.ds.width, s.ds.height).ds.wrapNext
  {
    hide RowsOk, BlankRows;
  }
}
