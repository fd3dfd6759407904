/**
  The display-routing part of ImeService: whether the keyboard is shown on a secondary
  (presentation) display, which of the four display states results, the relayout that a
  change of display state triggers, and the debug label. Window, view and display objects
  are reduced to the facts these decisions read: display ids, whether a presentation is
  showing, and display metrics.
*/
module ImeDisplay {
  import opened Base
  import opened Keyboards

  /** EnvironmentSingleton.DisplayState. */
  datatype DisplayState = PrimaryPortrait | SecondaryPortrait | SecondaryLandscape | SecondaryFullscreen

  /** Display metrics in pixels. */
  datatype Metrics = Metrics(width: int, height: int)

  /** The orientation test used throughout: height <= width. */
  predicate Landscape(dm: Metrics) {
    dm.height <= dm.width
  }

  /** The first presentation display: its id and the metrics of a context created on it. */
  datatype Display = Display(displayId: int, metrics: Option<Metrics>)

  /** A KeyboardPresentation: the display it is on, whether it is showing, the metrics of
      its context, and the debug label it shows. */
  datatype Presentation = Presentation(displayId: int, showing: bool, metrics: Option<Metrics>, debugLabel: string)

  /** The InputView instances: the primary one, and the one a presentation creates. */
  datatype InputViewRef = PrimaryInputView | SecondaryInputView(displayId: int)

  const LABEL_FULL: string := "全屏"
  const LABEL_SECONDARY_LANDSCAPE: string := "副屏横屏"
  const LABEL_SECONDARY_PORTRAIT: string := "副屏竖屏"
  const LABEL_PRIMARY: string := "主屏竖屏"

  /** desiredForceFull in onStartInputView. */
  function DesiredForceFull(prefOn: bool, primaryLandscape: bool, activatedOnPrimary: bool, isFloat: bool): (b: bool)
    ensures b ==> primaryLandscape && activatedOnPrimary
    ensures b <==> prefOn && primaryLandscape && activatedOnPrimary && !isFloat
  {
    prefOn && primaryLandscape && activatedOnPrimary && !isFloat
  }

  /** shouldShowOnSecondary in onStartInputView. */
  function ShouldShowOnSecondary(activatedOnPrimary: bool, primaryLandscape: bool): (b: bool)
    ensures !b <==> activatedOnPrimary && !primaryLandscape
  {
    !activatedOnPrimary || primaryLandscape
  }

  /** Whenever full screen on the secondary display is wanted, showing there is attempted. */
  lemma ForceFullImpliesAttempt(prefOn: bool, primaryLandscape: bool, activatedOnPrimary: bool, isFloat: bool)
    ensures DesiredForceFull(prefOn, primaryLandscape, activatedOnPrimary, isFloat) ==>
              ShouldShowOnSecondary(activatedOnPrimary, primaryLandscape)
  {
  }

  /** The secondary display counts as landscape only when its metrics are known. */
  predicate SecondaryLandscapeMetrics(metrics: Option<Metrics>) {
    metrics.Some? && Landscape(metrics.value)
  }

  /** The display state chosen in onStartInputView. */
  function ChooseDisplayState(shownOnSecondary: bool, forceFull: bool, metrics: Option<Metrics>): (s: DisplayState)
    ensures s == PrimaryPortrait <==> !shownOnSecondary
    ensures s == SecondaryFullscreen <==> shownOnSecondary && forceFull
    ensures s == SecondaryLandscape <==> shownOnSecondary && !forceFull && SecondaryLandscapeMetrics(metrics)
    ensures s == SecondaryPortrait <==> shownOnSecondary && !forceFull && !SecondaryLandscapeMetrics(metrics)
  {
    if !shownOnSecondary then PrimaryPortrait
    else if forceFull then SecondaryFullscreen
    else if SecondaryLandscapeMetrics(metrics) then SecondaryLandscape
    else SecondaryPortrait
  }

  /** The label choice of refreshDebugLabel. */
  function DebugLabel(isSecondary: bool, forceFull: bool, metrics: Option<Metrics>): (text: string)
    ensures text == LABEL_PRIMARY <==> !isSecondary
    ensures text == LABEL_FULL <==> isSecondary && forceFull
    ensures text == LABEL_SECONDARY_LANDSCAPE <==> isSecondary && !forceFull && SecondaryLandscapeMetrics(metrics)
    ensures text == LABEL_SECONDARY_PORTRAIT <==> isSecondary && !forceFull && !SecondaryLandscapeMetrics(metrics)
  {
    if isSecondary then
      if forceFull then LABEL_FULL
      else if SecondaryLandscapeMetrics(metrics) then LABEL_SECONDARY_LANDSCAPE
      else LABEL_SECONDARY_PORTRAIT
    else LABEL_PRIMARY
  }

  /** The label that names a display state. */
  function StateLabel(s: DisplayState): string {
    match s
    case PrimaryPortrait => LABEL_PRIMARY
    case SecondaryPortrait => LABEL_SECONDARY_PORTRAIT
    case SecondaryLandscape => LABEL_SECONDARY_LANDSCAPE
    case SecondaryFullscreen => LABEL_FULL
  }

  /** With the same inputs, the label names the chosen display state. */
  lemma LabelNamesDisplayState(shown: bool, forceFull: bool, metrics: Option<Metrics>)
    ensures DebugLabel(shown, forceFull, metrics) == StateLabel(ChooseDisplayState(shown, forceFull, metrics))
  {
  }

  /** applyRelayoutIfDisplayChanged relays out exactly when the state differs from the last one. */
  predicate NeedsRelayout(last: Option<DisplayState>, current: DisplayState) {
    last != Some(current)
  }

  /** The first display state always relays out; afterwards only a different state does. */
  lemma RelayoutCases(last: Option<DisplayState>, current: DisplayState)
    ensures last.None? ==> NeedsRelayout(last, current)
    ensures last.Some? ==> (NeedsRelayout(last, current) <==> last.value != current)
  {
  }

  class ImeService {
    const keyboards: KeyboardManager
    var lastDisplayState: Option<DisplayState>
    var secondaryPresentation: Option<Presentation>
    var secondaryInputView: Option<InputViewRef>
    /** mInputView has been created. */
    var primaryViewInitialized: bool
    /** The text of the primary debug overlay. */
    var primaryLabel: string
    /** EnvironmentSingleton.forceFullOnSecondary and currentDisplayState. */
    var forceFullOnSecondary: bool
    var currentDisplayState: DisplayState

    constructor (keyboards: KeyboardManager)
      ensures this.keyboards == keyboards
      ensures lastDisplayState.None? && secondaryPresentation.None? && secondaryInputView.None?
      ensures !primaryViewInitialized && !forceFullOnSecondary && currentDisplayState == PrimaryPortrait
    {
      this.keyboards := keyboards;
      lastDisplayState := None;
      secondaryPresentation := None;
      secondaryInputView := None;
      primaryViewInitialized := false;
      primaryLabel := "";
      forceFullOnSecondary := false;
      currentDisplayState := PrimaryPortrait;
    }

    /** getActiveInputView(): the secondary view if there is one, else the primary one once created. */
    function GetActiveInputView(): (v: Option<InputViewRef>)
      reads this
      ensures secondaryInputView.Some? ==> v == secondaryInputView
      ensures secondaryInputView.None? ==> (v.Some? <==> primaryViewInitialized) && (v.Some? ==> v.value == PrimaryInputView)
    {
      if secondaryInputView.Some? then secondaryInputView
      else if primaryViewInitialized then Some(PrimaryInputView)
      else None
    }

    /** dismissSecondary(). */
    method DismissSecondary()
      modifies this
      ensures secondaryInputView.None? && secondaryPresentation.None?
      ensures lastDisplayState == old(lastDisplayState) && primaryViewInitialized == old(primaryViewInitialized)
      ensures primaryLabel == old(primaryLabel) && forceFullOnSecondary == old(forceFullOnSecondary)
      ensures currentDisplayState == old(currentDisplayState)
    {
      secondaryInputView := None;
      secondaryPresentation := None;
    }

    /** refreshDebugLabel(). */
    method RefreshDebugLabel()
      modifies this
      ensures var text := DebugLabel(old(secondaryInputView).Some?, old(forceFullOnSecondary),
                                      if old(secondaryPresentation).Some? then old(secondaryPresentation).value.metrics else None);
        && (old(secondaryInputView).Some? ==>
              && primaryLabel == old(primaryLabel)
              && secondaryPresentation == (if old(secondaryPresentation).Some? then Some(old(secondaryPresentation).value.(debugLabel := text)) else None))
        && (old(secondaryInputView).None? ==> primaryLabel == text && secondaryPresentation == old(secondaryPresentation))
      ensures lastDisplayState == old(lastDisplayState) && secondaryInputView == old(secondaryInputView)
      ensures primaryViewInitialized == old(primaryViewInitialized) && forceFullOnSecondary == old(forceFullOnSecondary)
      ensures currentDisplayState == old(currentDisplayState)
    {
      var isSecondary := secondaryInputView.Some?;
      var metrics := if secondaryPresentation.Some? then secondaryPresentation.value.metrics else None;
      var text := DebugLabel(isSecondary, forceFullOnSecondary, metrics);
      if isSecondary {
        if secondaryPresentation.Some? {
          secondaryPresentation := Some(secondaryPresentation.value.(debugLabel := text));
        }
      } else {
        primaryLabel := text;
      }
    }

    /** tryShowSecondary(editorInfo, restarting): `second` is the first presentation display;
        `refreshThrows` says whether refreshing an already showing presentation throws and
        `showThrows` whether showing a new one does. */
    method TryShowSecondary(second: Option<Display>, refreshThrows: bool, showThrows: bool) returns (shown: bool)
      modifies this
      ensures second.None? ==> !shown && unchanged(this)
      ensures var same := && second.Some? && old(secondaryPresentation).Some?
                          && old(secondaryPresentation).value.showing
                          && old(secondaryPresentation).value.displayId == second.value.displayId;
        // the presentation already showing on that display only has its label refreshed
        && (same && !refreshThrows ==>
              var text := DebugLabel(old(secondaryInputView).Some?, old(forceFullOnSecondary),
                                     old(secondaryPresentation).value.metrics);
              && shown
              && secondaryInputView == old(secondaryInputView)
              && (old(secondaryInputView).Some? ==>
                    && secondaryPresentation == Some(old(secondaryPresentation).value.(debugLabel := text))
                    && primaryLabel == old(primaryLabel))
              && (old(secondaryInputView).None? ==>
                    secondaryPresentation == old(secondaryPresentation) && primaryLabel == text))
        // otherwise a new presentation is shown, labelled as secondary, or both slots are cleared
        && (second.Some? && !(same && !refreshThrows) ==>
              && shown == !showThrows
              && primaryLabel == old(primaryLabel)
              && (shown ==> && secondaryPresentation ==
                                 Some(Presentation(second.value.displayId, true, second.value.metrics,
                                                   DebugLabel(true, old(forceFullOnSecondary), second.value.metrics)))
                            && secondaryInputView == Some(SecondaryInputView(second.value.displayId)))
              && (!shown ==> secondaryPresentation.None? && secondaryInputView.None?))
      ensures shown ==> secondaryPresentation.Some?
      ensures lastDisplayState == old(lastDisplayState) && primaryViewInitialized == old(primaryViewInitialized)
      ensures forceFullOnSecondary == old(forceFullOnSecondary) && currentDisplayState == old(currentDisplayState)
    {
      if second.None? {
        return false;
      }
      var display := second.value;
      var alreadyShowingSame := secondaryPresentation.Some? && secondaryPresentation.value.showing
                                && secondaryPresentation.value.displayId == display.displayId;
      if alreadyShowingSame {
        if !refreshThrows {
          RefreshDebugLabel();
          return true;
        }
        DismissSecondary();
      }
      secondaryPresentation := Some(Presentation(display.displayId, false, display.metrics, ""));
      if showThrows {
        secondaryPresentation := None;
        secondaryInputView := None;
        return false;
      }
      secondaryPresentation := Some(secondaryPresentation.value.(showing := true));
      secondaryInputView := Some(SecondaryInputView(display.displayId));
      RefreshDebugLabel();
      shown := true;
    }

    /** applyRelayoutIfDisplayChanged(): `skbLayout` and `defaultBits` are what
        forceRelayoutByToggle reads from InputModeSwitcherManager and the preferences. */
    method ApplyRelayoutIfDisplayChanged(skbLayout: int, defaultBits: int)
      requires keyboards.Valid()
      modifies this, keyboards
      ensures keyboards.Valid()
      ensures lastDisplayState == Some(currentDisplayState) && !NeedsRelayout(lastDisplayState, currentDisplayState)
      ensures !NeedsRelayout(old(lastDisplayState), currentDisplayState) ==> unchanged(keyboards)
      ensures NeedsRelayout(old(lastDisplayState), currentDisplayState) && old(keyboards.rootViewBound) ==>
                var t := LayoutToKeyboardType(skbLayout);
                && keyboards.keyboards == map[t := Container(Blueprint(t, defaultBits).0, Blueprint(t, defaultBits).1, old(keyboards.built))]
                && keyboards.currentName == Some(t)
                && keyboards.currentContainer == Some(keyboards.keyboards[t]) && keyboards.shown == Some(keyboards.keyboards[t])
      ensures NeedsRelayout(old(lastDisplayState), currentDisplayState) && !old(keyboards.rootViewBound) ==> unchanged(keyboards)
      ensures currentDisplayState == old(currentDisplayState) && secondaryPresentation == old(secondaryPresentation)
      ensures secondaryInputView == old(secondaryInputView) && primaryViewInitialized == old(primaryViewInitialized)
      ensures primaryLabel == old(primaryLabel) && forceFullOnSecondary == old(forceFullOnSecondary)
    {
      var current := currentDisplayState;
      if lastDisplayState != Some(current) {
        keyboards.ForceRelayoutByToggle(skbLayout, defaultBits);
        lastDisplayState := Some(current);
      }
    }

    /** The display decisions of onStartInputView. The inputs are what it reads: the primary
        display's metrics, whether the IME window is on the primary display, the
        dualForceFullscreenPrimary preference, keyboardModeFloat, the first presentation
        display, and the outcomes for tryShowSecondary and forceRelayoutByToggle. */
    method OnStartInputView(primary: Metrics, activatedOnPrimary: bool, prefOn: bool, isFloat: bool,
                            second: Option<Display>, refreshThrows: bool, showThrows: bool,
                            skbLayout: int, defaultBits: int)
      requires keyboards.Valid()
      modifies this, keyboards
      ensures keyboards.Valid()
      ensures forceFullOnSecondary == DesiredForceFull(prefOn, Landscape(primary), activatedOnPrimary, isFloat)
      ensures !ShouldShowOnSecondary(activatedOnPrimary, Landscape(primary)) ==>
                secondaryPresentation.None? && secondaryInputView.None? && currentDisplayState == PrimaryPortrait
      ensures currentDisplayState == ChooseDisplayState(
                secondaryInputView.Some?, forceFullOnSecondary,
                if secondaryPresentation.Some? then secondaryPresentation.value.metrics else None)
      ensures secondaryInputView.Some? <==>
                ShouldShowOnSecondary(activatedOnPrimary, Landscape(primary)) && second.Some? && !showThrows
      ensures secondaryInputView.Some? ==> secondaryPresentation.Some? && secondaryPresentation.value.metrics == second.value.metrics
      ensures secondaryInputView.Some? ==>
                && secondaryInputView == Some(SecondaryInputView(second.value.displayId))
                && secondaryPresentation.value.displayId == second.value.displayId && secondaryPresentation.value.showing
                && primaryLabel == old(primaryLabel) && primaryViewInitialized == old(primaryViewInitialized)
      ensures secondaryInputView.None? ==> secondaryPresentation.None? && primaryViewInitialized
      ensures GetActiveInputView().Some?
      ensures lastDisplayState == Some(currentDisplayState)
      ensures !NeedsRelayout(old(lastDisplayState), currentDisplayState) ==> unchanged(keyboards)
      // a changed display state rebuilds the keyboard cache for the current layout
      ensures NeedsRelayout(old(lastDisplayState), currentDisplayState) && old(keyboards.rootViewBound) ==>
                var t := LayoutToKeyboardType(skbLayout);
                && keyboards.keyboards == map[t := Container(Blueprint(t, defaultBits).0, Blueprint(t, defaultBits).1, old(keyboards.built))]
                && keyboards.currentName == Some(t)
                && keyboards.currentContainer == Some(keyboards.keyboards[t]) && keyboards.shown == Some(keyboards.keyboards[t])
      ensures NeedsRelayout(old(lastDisplayState), currentDisplayState) && !old(keyboards.rootViewBound) ==> unchanged(keyboards)
      ensures (if secondaryInputView.Some? then secondaryPresentation.value.debugLabel else primaryLabel)
              == StateLabel(currentDisplayState)
    {
      var primaryLandscape := Landscape(primary);
      var desiredForceFull := DesiredForceFull(prefOn, primaryLandscape, activatedOnPrimary, isFloat);
      forceFullOnSecondary := desiredForceFull;
      DismissSecondary();
      var shouldShow := ShouldShowOnSecondary(activatedOnPrimary, primaryLandscape);
      var shownOnSecondary := false;
      if shouldShow {
        shownOnSecondary := TryShowSecondary(second, refreshThrows, showThrows);
      }
      if shownOnSecondary {
        currentDisplayState := ChooseDisplayState(true, forceFullOnSecondary, secondaryPresentation.value.metrics);
      } else {
        currentDisplayState := PrimaryPortrait;
      }
      if !shownOnSecondary {
        primaryViewInitialized := true;
      }
      ApplyRelayoutIfDisplayChanged(skbLayout, defaultBits);
      RefreshDebugLabel();
      LabelNamesDisplayState(secondaryInputView.Some?, forceFullOnSecondary,
                             if secondaryPresentation.Some? then secondaryPresentation.value.metrics else None);
    }
  }
}
