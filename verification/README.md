# neon-coder-quest: career picker, app shell and level progression

This project models the state logic of a gamified career-exploration web app.

1. The **career picker** (`CareerSelector`) has a catalog of six careers and a single-selection state. Its start button forwards the selected career to the shell.
2. The **application shell** (`Index`) is a two-screen machine, `career-selection` and `level-progression`, paired with an optional chosen career.
3. The **level progression screen** (`LevelCatalog`, `LevelProgression`) has a fixed catalog of five levels, a user profile (name, level, total XP, badges, completed level ids) and an optional level shown in a detail modal. Clicking a card opens its level unless it is locked. "Complete Level" adds the level's XP, appends its id and closes the modal. The progress readout is `totalXP % 500`.

Each component is a module of immutable datatypes with pure transition functions. How far each is driven:

- `Index.Run` folds the shell's events (a started journey, a back press). `Index.RunStaysConsistent` states what every reachable shell state satisfies.
- `LevelProgression.Run` folds the screen's intents: card clicks, Start presses, closing the modal and completing. `LevelProgression.ReachableStates` states what every reachable screen state satisfies.
- `CareerSelector.ClickAll` folds card clicks only. The picker has no reachable-state lemma; its start press is modelled by `CareerSelector.StartJourney` and consumed by `Index.Step`.
- `LevelCatalog` holds the catalog data, the id lookups `FindLevel` and `RewardOf`, and the pure status recomputation. It has no fold.

The model follows the code as written; in particular:

- Completion has no duplicate check. Re-opening level 1 through its card or its Start button and completing it again awards its XP again (`CompletingTwiceCountsTwice`, `RepeatedCompletionScenario`). The button never reads Review, because the rendered statuses never change.
- Locked levels never produce an error. Clicks on them are ignored.
- The profile's `level` is never recomputed from XP.
- The recomputed status list (`LevelCatalog.UpdatedLevels`) is modelled as the pure function the code defines. The code never stores it, and the grid always renders the static catalog. As a result, only the first level can ever be opened, and `LevelProgression.ReachableStates` proves this for every reachable state:
  - every completed id is 1;
  - the XP is 100 per completion;
  - the level number stays 1.

TypeScript's `%` truncates toward zero. It is modelled explicitly as `JsRemainder`, not as Dafny's Euclidean `%`.

## Model

| member | source | states |
|---|---|---|
| CareerSelector.Catalog | src/components/CareerSelector.tsx:16-65 | six careers, pairwise distinct ids, five skills each |
| CareerSelector.InitialSelector | src/components/CareerSelector.tsx:72 | the picker starts with no career selected |
| CareerSelector.ClickCareer | src/components/CareerSelector.tsx:74-76 | clicking a card makes it the selection, replacing a different earlier one |
| CareerSelector.LastClickWins | src/components/CareerSelector.tsx:74-76 | after any non-empty run of clicks the selection is the last career clicked |
| CareerSelector.StartJourney | src/components/CareerSelector.tsx:78-82 | with no selection nothing is forwarded; with one, exactly the selected career is forwarded |
| CareerSelector.StartButtonForwardsIffShown | src/components/CareerSelector.tsx:146-150 | the start button is rendered exactly when pressing it would forward a career |
| CareerSelector.AtMostOneCardMarked | src/components/CareerSelector.tsx:107-115 | because catalog ids are distinct, at most one catalog card is highlighted for any selection |
| CareerSelector.ClickMarksExactlyThatCard | src/components/CareerSelector.tsx:109-117 | after clicking catalog card k, card i is highlighted iff i = k |
| CareerSelector.SkillPreview | src/components/CareerSelector.tsx:130 | a card shows a prefix of its skills of length min(3, number of skills) |
| Index.InitialApp | src/pages/Index.tsx:18-19 | the shell starts on the career picker with no career |
| Index.SelectCareer | src/pages/Index.tsx:21-24 | choosing a career switches to the progression screen and stores exactly that career |
| Index.BackToCareerSelection | src/pages/Index.tsx:26-29 | going back switches to the picker and clears the career |
| Index.HandlersEstablishConsistency | src/pages/Index.tsx:18-29 | the initial state and both handlers' results satisfy: progression screen iff a career is stored |
| Index.ScreensExclusive | src/pages/Index.tsx:35-44 | picker and progression screen are never shown together; progression only with a career; in a consistent state exactly one shows |
| Index.Step | src/pages/Index.tsx:21-44 | back from the progression screen returns to the initial state; a started journey with a selection opens that career; one without a selection changes nothing; a callback from a child that is not on screen changes nothing |
| Index.RunStaysConsistent | src/pages/Index.tsx:18-44 | every sequence of child callbacks keeps the shell consistent, so exactly one screen is shown |
| LevelCatalog.Catalog | src/components/LevelProgression.tsx:45-116 | five levels with ids 1..5 in order and positive XP; the first available, the rest locked |
| LevelCatalog.UpdatedLevels | src/components/LevelProgression.tsx:150-158 | same length and order; the completed id's entry becomes completed, the next id's entry becomes available, every other entry is unchanged |
| LevelCatalog.CatalogUpdateUnlocksNext | src/components/LevelProgression.tsx:150-158 | on the catalog, completing level k marks entry k completed, opens entry k+1, leaves the rest as they were |
| LevelProgression.InitialProfile | src/components/LevelProgression.tsx:124-130 | the profile starts with 0 XP, level 1, no badges, no completed levels |
| LevelProgression.InitialState | src/components/LevelProgression.tsx:124-132 | the screen starts with the initial profile and no open level |
| LevelProgression.ClickLevel | src/components/LevelProgression.tsx:134-138 | clicking a locked level keeps the selection; clicking any other selects it; the profile is untouched |
| LevelProgression.PressStart | src/components/LevelProgression.tsx:319-326 | the Start/Review button opens its level and leaves the profile alone |
| LevelProgression.Step | src/components/LevelProgression.tsx:264-400 | a card click in the grid acts as `handleLevelClick` on that catalog level; a Start press opens its level only when the card is unlocked, and otherwise changes nothing; closing the modal clears the open level and keeps the profile; Complete Level is `handleStartLevel`: a no-op without an open level; otherwise it adds the open level's XP, appends its id, keeps name, level and badges, and closes the modal |
| LevelProgression.CompleteLevel | src/components/LevelProgression.tsx:140-166 | no-op without an open level; otherwise XP grows by exactly the level's XP, its id is appended, the modal closes, name/level/badges are unchanged |
| LevelProgression.CompletingTwiceCountsTwice | src/components/LevelProgression.tsx:140-161 | completing an unlocked level twice awards its XP twice and records its id twice |
| LevelProgression.JsRemainder | src/components/LevelProgression.tsx:243 | truncating remainder: magnitude below the modulus, sign of the dividend, equal to `%` for non-negative dividends |
| LevelProgression.JsRemainderIsOdd | src/components/LevelProgression.tsx:243 | the truncating remainder of -a is minus that of a |
| LevelProgression.ProgressXP | src/components/LevelProgression.tsx:239-243 | the in-band XP readout lies in [0, 500) for non-negative total XP |
| LevelProgression.InitialInvariant | src/components/LevelProgression.tsx:124-132 | the initial state satisfies the reachability invariant |
| LevelProgression.StepPreservesInvariant | src/components/LevelProgression.tsx:134-166 | each intent keeps the open level an unlocked catalog level, the XP equal to the sum of completed rewards, the fixed profile fields fixed, and never lowers XP |
| LevelProgression.CompletionPreservesInvariant | src/components/LevelProgression.tsx:140-161 | completing the open level keeps the invariant: the appended id is selectable, the XP grows by its catalog reward, and it never goes down |
| LevelProgression.RunPreservesInvariant | src/components/LevelProgression.tsx:134-166 | any sequence of intents keeps the invariant and never lowers the total XP |
| LevelProgression.SelectableIsFirstLevel | src/components/LevelProgression.tsx:264-330 | with the static grid, the only id of an unlocked catalog level is 1 |
| LevelProgression.ReachableStates | src/components/LevelProgression.tsx:134-166 | in every reachable state the open level is level 1 or none, all completed ids are 1, XP = 100 per completion, level stays 1, the readout is in [0, 500) |
| LevelProgression.LockedCardIgnored | src/components/LevelProgression.tsx:134-141 | clicking a locked card then completing leaves the initial state |
| LevelProgression.RepeatedCompletionScenario | src/components/LevelProgression.tsx:319-328 | card click, complete, Start press, complete on level 1 yields 200 XP and completed ids [1, 1] |

## Left out

- JSX layout, CSS classes, images, the icon and colour lookup switches (src/components/LevelProgression.tsx:168-195): presentational only.
- The progress-bar width `(totalXP % 500) / 500 * 100` is floating point; only the integer readout `totalXP % 500` is modelled.
- TypeScript numbers are IEEE doubles; XP and ids are modelled as unbounded integers, which agree with them below 2^53.
- `console.log` on completion, and React hook/re-render semantics. Among them: the picker and the progression screen each get fresh state when they remount, which the model represents by their separate initial states.
- The career icon component field is not modelled.
- src/pages/Recommendations.tsx and src/components/CyberBackground.tsx: static listings and a random decorative animation, with no state or transitions.
- Outside the model of each component, a child's callback reaches the shell only while that child is mounted. The shell's step function applies that gating from the render guards. The handlers themselves have no guard.
- While the level modal is open it is a full-screen overlay that covers the grid. The model still accepts card clicks and Start presses then. This only adds behaviours, so every invariant proved over them still holds of the real screen.
