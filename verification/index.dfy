/** The application shell (src/pages/Index.tsx): a two-screen machine that
    shows the career picker until a career is chosen, then the level
    progression screen for that career until the user goes back. */
module Index {
  import opened Wrappers
  import CareerSelector

  /** The `AppState` string union. */
  datatype Screen = CareerSelection | ProgressionScreen

  /** The shell's two state slots: the screen and the chosen career. */
  datatype App = App(screen: Screen, career: Option<CareerSelector.Career>)

  /** The shell starts on the picker with no career. */
  function InitialApp(): (a: App)
    ensures a.screen == CareerSelection && a.career.None?
  {
    App(CareerSelection, None)
  }

  /** `handleCareerSelect`: store the career and switch to the progression screen. */
  function SelectCareer(a: App, c: CareerSelector.Career): (r: App)
    ensures r.screen == ProgressionScreen
    ensures r.career == Some(c)
  {
    App(ProgressionScreen, Some(c))
  }

  /** `handleBackToCareerSelection`: return to the picker and drop the career. */
  function BackToCareerSelection(a: App): (r: App)
    ensures r.screen == CareerSelection
    ensures r.career.None?
  {
    App(CareerSelection, None)
  }

  /** The shell's invariant: the progression screen is active exactly when a
      career is stored. */
  predicate Consistent(a: App)
  {
    a.screen == ProgressionScreen <==> a.career.Some?
  }

  /** Both handlers establish the invariant, whatever state they start from. */
  lemma HandlersEstablishConsistency(a: App, c: CareerSelector.Career)
    ensures Consistent(InitialApp())
    ensures Consistent(SelectCareer(a, c))
    ensures Consistent(BackToCareerSelection(a))
  {
  }

  /** The render guard for the picker. */
  predicate ShowsSelector(a: App)
  {
    a.screen == CareerSelection
  }

  /** The render guard for the progression screen: it also needs a career. */
  predicate ShowsProgression(a: App)
  {
    a.screen == ProgressionScreen && a.career.Some?
  }

  /** The two screens are never shown together, and the progression screen is
      shown only for a stored career; in a consistent state exactly one shows. */
  lemma ScreensExclusive(a: App)
    ensures !(ShowsSelector(a) && ShowsProgression(a))
    ensures ShowsProgression(a) ==> a.career.Some?
    ensures Consistent(a) ==> (ShowsSelector(a) <==> !ShowsProgression(a))
  {
  }

  /** What a mounted child can ask the shell to do: the picker's start button
      (carrying the picker's state), or the progression screen's back button. */
  datatype AppEvent = JourneyStarted(picker: CareerSelector.Selector) | BackPressed

  /** One event. A callback fires only from the child that is on screen, and
      the picker forwards a career only when one is selected. */
  function Step(a: App, e: AppEvent): (r: App)
    ensures e.BackPressed? && ShowsProgression(a) ==> r == InitialApp()
    ensures e.JourneyStarted? && ShowsSelector(a) && e.picker.selected.Some? ==>
              r.screen == ProgressionScreen && r.career == e.picker.selected
    ensures e.JourneyStarted? && e.picker.selected.None? ==> r == a
    ensures e.BackPressed? && !ShowsProgression(a) ==> r == a
    ensures e.JourneyStarted? && !ShowsSelector(a) ==> r == a
  {
    match e
    case JourneyStarted(picker) =>
      if ShowsSelector(a) then
        match CareerSelector.StartJourney(picker)
        case Some(c) => SelectCareer(a, c)
        case None => a
      else a
    case BackPressed =>
      if ShowsProgression(a) then BackToCareerSelection(a) else a
  }

  /** The events `es`, first to last. */
  function Run(a: App, es: seq<AppEvent>): App
    decreases |es|
  {
    if |es| == 0 then a else Run(Step(a, es[0]), es[1..])
  }

  /** Every state reachable from the initial one is consistent, so exactly one
      screen is shown at any time. */
  lemma {:induction false} RunStaysConsistent(a: App, es: seq<AppEvent>)
    requires Consistent(a)
    ensures Consistent(Run(a, es))
    ensures ShowsSelector(Run(a, es)) <==> !ShowsProgression(Run(a, es))
    decreases |es|
  {
    if |es| > 0 {
      var b := Step(a, es[0]);
      assert Consistent(b) by {
        match es[0]
        case JourneyStarted(p) =>
        case BackPressed =>
      }
      RunStaysConsistent(b, es[1..]);
    }
  }
}
