/** The level progression screen (src/components/LevelProgression.tsx): a
    user profile and an optional selected level, driven by clicks on the
    level grid and by the "Complete Level" button of the detail modal.

    The grid always renders the static catalog; the status list that
    completion recomputes (LevelCatalog.UpdatedLevels) is never stored. So a
    card's status never changes, and only the first level can ever be opened
    and completed, any number of times. */
module LevelProgression {
  import opened Wrappers
  import opened LevelCatalog

  /** The `UserProfile` record. */
  datatype Profile = Profile(
    name: string,
    level: int,
    totalXP: int,
    badges: seq<string>,
    completedLevels: seq<int>)

  /** The screen's two state slots: the profile and the level shown in the modal. */
  datatype State = State(profile: Profile, selected: Option<Level>)

  /** The profile the screen mounts with. */
  function InitialProfile(): (p: Profile)
    ensures p.totalXP == 0 && p.level == 1
    ensures p.badges == [] && p.completedLevels == []
  {
    Profile("Cyber Warrior", 1, 0, [], [])
  }

  /** The screen mounts with the initial profile and no open level. */
  function InitialState(): (s: State)
    ensures s.profile == InitialProfile() && s.selected.None?
  {
    State(InitialProfile(), None)
  }

  /** `handleLevelClick`: a locked level is ignored, any other one is opened. */
  function ClickLevel(s: State, l: Level): (r: State)
    ensures r.profile == s.profile
    ensures l.status == Locked ==> r.selected == s.selected
    ensures l.status != Locked ==> r.selected == Some(l)
  {
    if l.status != Locked then s.(selected := Some(l)) else s
  }

  /** A card shows its Start/Review button only when its level is not locked. */
  predicate HasStartButton(l: Level)
  {
    l.status != Locked
  }

  /** The Start/Review button's handler opens its level unconditionally. */
  function PressStart(s: State, l: Level): (r: State)
    ensures r.profile == s.profile && r.selected == Some(l)
  {
    s.(selected := Some(l))
  }

  /** `handleStartLevel`: with no open level nothing happens; otherwise the
      open level's reward is added, its id is appended (with no duplicate
      check), every other profile field is kept, and the modal closes. */
  function CompleteLevel(s: State): (r: State)
    ensures s.selected.None? ==> r == s
    ensures s.selected.Some? ==> r.selected.None?
    ensures s.selected.Some? ==>
              r.profile.totalXP == s.profile.totalXP + s.selected.value.xp
    ensures s.selected.Some? ==>
              r.profile.completedLevels == s.profile.completedLevels + [s.selected.value.id]
    ensures r.profile.name == s.profile.name
    ensures r.profile.level == s.profile.level
    ensures r.profile.badges == s.profile.badges
  {
    match s.selected
    case None => s
    case Some(l) =>
      var p := s.profile;
      State(p.(totalXP := p.totalXP + l.xp, completedLevels := p.completedLevels + [l.id]), None)
  }

  /** Completing the same level twice (re-opening it through its card in
      between) awards its reward twice and records its id twice. */
  lemma CompletingTwiceCountsTwice(s: State, l: Level)
    requires l.status != Locked
    ensures var twice := CompleteLevel(ClickLevel(CompleteLevel(ClickLevel(s, l)), l));
            twice.profile.totalXP == s.profile.totalXP + 2 * l.xp &&
            twice.profile.completedLevels == s.profile.completedLevels + [l.id, l.id]
  {
  }

  /** The `%` of TypeScript: the remainder truncates toward zero, so it has
      the sign of the dividend. */
  function JsRemainder(a: int, m: int): (r: int)
    requires m > 0
    ensures -m < r < m
    ensures a >= 0 ==> 0 <= r
    ensures a <= 0 ==> r <= 0
    ensures a >= 0 ==> r == a % m
  {
    if a >= 0 then a % m else -((-a) % m)
  }

  /** Unlike Dafny's Euclidean `%`, the truncating remainder is odd in its
      dividend. */
  lemma JsRemainderIsOdd(a: int, m: int)
    requires m > 0
    ensures JsRemainder(-a, m) == -JsRemainder(a, m)
  {
  }

  /** The XP shown inside the current 500-XP band (`totalXP % 500`). */
  function ProgressXP(p: Profile): (xp: int)
    ensures p.totalXP >= 0 ==> 0 <= xp < 500
    ensures p.totalXP >= 0 ==> xp == p.totalXP % 500
  {
    JsRemainder(p.totalXP, 500)
  }

  /** A user intent on this screen. Cards are addressed by their position in
      the grid, which always renders the static catalog. */
  datatype Event =
    | CardClicked(index: int)
    | StartPressed(index: int)
    | ModalClosed
    | CompletePressed

  /** One intent. A click outside the grid and a press on a button that is not
      rendered change nothing; the modal's close button clears the open level. */
  function Step(s: State, e: Event): (r: State)
    ensures e.CardClicked? && 0 <= e.index < |Catalog()| ==> r == ClickLevel(s, Catalog()[e.index])
    ensures e.CardClicked? && !(0 <= e.index < |Catalog()|) ==> r == s
    ensures e.StartPressed? && 0 <= e.index < |Catalog()| && Catalog()[e.index].status != Locked ==>
              r.profile == s.profile && r.selected == Some(Catalog()[e.index])
    ensures e.StartPressed? && (!(0 <= e.index < |Catalog()|) || Catalog()[e.index].status == Locked) ==>
              r == s
    ensures e.ModalClosed? ==> r.selected.None? && r.profile == s.profile
    ensures e.CompletePressed? && s.selected.None? ==> r == s
    ensures e.CompletePressed? ==> r == CompleteLevel(s)
    ensures e.CompletePressed? && s.selected.Some? ==>
              && r.selected.None?
              && r.profile.totalXP == s.profile.totalXP + s.selected.value.xp
              && r.profile.completedLevels == s.profile.completedLevels + [s.selected.value.id]
              && r.profile.name == s.profile.name
              && r.profile.level == s.profile.level
              && r.profile.badges == s.profile.badges
  {
    match e
    case CardClicked(i) =>
      if 0 <= i < |Catalog()| then ClickLevel(s, Catalog()[i]) else s
    case StartPressed(i) =>
      if 0 <= i < |Catalog()| && HasStartButton(Catalog()[i]) then PressStart(s, Catalog()[i])
      else s
    case ModalClosed => s.(selected := None)
    case CompletePressed => CompleteLevel(s)
  }

  /** The intents `es`, first to last. */
  function Run(s: State, es: seq<Event>): State
    decreases |es|
  {
    if |es| == 0 then s else Run(Step(s, es[0]), es[1..])
  }

  /** The sum of the catalog rewards of the ids in `ids`. */
  function XpTotal(ids: seq<int>): int
    decreases |ids|
  {
    if |ids| == 0 then 0 else XpTotal(ids[..|ids| - 1]) + RewardOf(ids[|ids| - 1])
  }

  lemma XpTotalAppend(ids: seq<int>, id: int)
    ensures XpTotal(ids + [id]) == XpTotal(ids) + RewardOf(id)
  {
  }

  /** An id the user can complete: that of a catalog level that is not locked. */
  predicate Selectable(id: int)
  {
    match FindLevel(Catalog(), id)
    case Some(l) => l.status != Locked
    case None => false
  }

  /** Catalog levels are found by their own id. */
  lemma FindCatalogLevel(l: Level)
    requires l in Catalog()
    ensures FindLevel(Catalog(), l.id) == Some(l)
    ensures RewardOf(l.id) == l.xp
  {
  }

  /** Since the rendered catalog never changes, the only selectable id is 1. */
  lemma SelectableIsFirstLevel(id: int)
    ensures Selectable(id) <==> id == 1
  {
  }

  /** What every reachable state satisfies: the open level is an unlocked
      catalog level, every completed id is selectable, the XP is the sum of
      the completed levels' rewards, and the other profile fields are as
      initialised. */
  predicate Invariant(s: State)
  {
    && (s.selected.Some? ==> s.selected.value in Catalog() && s.selected.value.status != Locked)
    && (forall i :: 0 <= i < |s.profile.completedLevels| ==>
          Selectable(s.profile.completedLevels[i]))
    && s.profile.totalXP == XpTotal(s.profile.completedLevels)
    && s.profile.name == InitialProfile().name
    && s.profile.level == 1
    && s.profile.badges == []
  }

  lemma InitialInvariant()
    ensures Invariant(InitialState())
  {
  }

  lemma StepPreservesInvariant(s: State, e: Event)
    requires Invariant(s)
    ensures Invariant(Step(s, e))
    ensures Step(s, e).profile.totalXP >= s.profile.totalXP
  {
    match e
    case CardClicked(i) =>
    case StartPressed(i) =>
    case ModalClosed =>
    case CompletePressed =>
      if s.selected.Some? {
        CompletionPreservesInvariant(s);
      }
  }

  /** Completing the open level keeps the invariant and never lowers the XP. */
  lemma CompletionPreservesInvariant(s: State)
    requires Invariant(s) && s.selected.Some?
    ensures Invariant(CompleteLevel(s))
    ensures CompleteLevel(s).profile.totalXP >= s.profile.totalXP
  {
    var l := s.selected.value;
    var ids := s.profile.completedLevels;
    var r := CompleteLevel(s);
    assert r.profile.completedLevels == ids + [l.id];
    FindCatalogLevel(l);
    assert Selectable(l.id);
    XpTotalAppend(ids, l.id);
    forall i | 0 <= i < |ids + [l.id]|
      ensures Selectable((ids + [l.id])[i])
    {
      if i < |ids| {
        assert (ids + [l.id])[i] == ids[i];
      }
    }
  }

  /** Any sequence of intents keeps the invariant and never lowers the XP. */
  lemma {:induction false} RunPreservesInvariant(s: State, es: seq<Event>)
    requires Invariant(s)
    ensures Invariant(Run(s, es))
    ensures Run(s, es).profile.totalXP >= s.profile.totalXP
    decreases |es|
  {
    if |es| > 0 {
      StepPreservesInvariant(s, es[0]);
      RunPreservesInvariant(Step(s, es[0]), es[1..]);
    }
  }

  lemma {:induction false} XpTotalOfFirstLevel(ids: seq<int>)
    requires forall i :: 0 <= i < |ids| ==> ids[i] == 1
    ensures XpTotal(ids) == 100 * |ids|
    decreases |ids|
  {
    if |ids| > 0 {
      XpTotalOfFirstLevel(ids[..|ids| - 1]);
    }
  }

  /** In every reachable state the open level, if any, is the first level,
      every completed id is 1, the XP is 100 per completion, the profile's
      level is still 1, and the progress readout lies in [0, 500). */
  lemma ReachableStates(es: seq<Event>)
    ensures var s := Run(InitialState(), es);
            && (s.selected.None? || s.selected.value == Catalog()[0])
            && (forall i :: 0 <= i < |s.profile.completedLevels| ==>
                  s.profile.completedLevels[i] == 1)
            && s.profile.totalXP == 100 * |s.profile.completedLevels|
            && s.profile.level == 1
            && 0 <= ProgressXP(s.profile) < 500
  {
    var s := Run(InitialState(), es);
    InitialInvariant();
    RunPreservesInvariant(InitialState(), es);
    forall i | 0 <= i < |s.profile.completedLevels|
      ensures s.profile.completedLevels[i] == 1
    {
      SelectableIsFirstLevel(s.profile.completedLevels[i]);
    }
    XpTotalOfFirstLevel(s.profile.completedLevels);
    if s.selected.Some? {
      var l := s.selected.value;
      var i :| 0 <= i < |Catalog()| && Catalog()[i] == l;
      assert i == 0;
    }
  }

  /** Clicking a locked card and then pressing complete leaves the initial state. */
  lemma LockedCardIgnored()
    ensures Run(InitialState(), [CardClicked(1), CompletePressed]) == InitialState()
  {
  }

  /** Opening level 1 through its card, completing it, re-opening it through
      its Start button (the rendered status never turns completed, so the
      label never reads Review) and completing it again yields 200 XP with
      id 1 recorded twice. */
  lemma RepeatedCompletionScenario()
    ensures var s := Run(InitialState(),
                         [CardClicked(0), CompletePressed, StartPressed(0), CompletePressed]);
            s.profile.totalXP == 200 && s.profile.completedLevels == [1, 1] && s.selected.None?
  {
  }
}
