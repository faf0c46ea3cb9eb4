# Langdex starter flow and pages, in Dafny

This project models the client-side core of a small "Langdex" game, in
which the player collects programming languages as if they were creatures.
It covers six parts:

- **The cutscene interpreter** (`CutscenePlayer`). It plays a scene, which
  is a list of `say`, `choice`, `set`, `call`, `goto` and `end` steps. It
  keeps a cursor, a flag store, a label index and a `busy` mark. On each
  cursor change it runs the step's effect. It renders a next button or
  option buttons.
- **The authored intro scene.** It has three lines, a three-way starter
  choice, one `set` step per starter, the `grantStarter` call, a closing
  line and an end step.
- **The starter page's `grantStarter` capability.** It looks the picked
  slug up in the catalogue, saves a level-5 capture, sets
  `starterGranted` and asks for the unlock screen.
- **The home page's derived data.** This is the languages by id, the count
  of distinct captured languages, the top-ten chips and the ring colour
  fallback.
- **The capture page.** This is the rarity-weighted spawn draw and the
  search and catch phases.
- **The Langdex page and the starter-selection component.** The Langdex
  page marks owned languages and orders them by dex number. The component
  builds the starter views, clamps its dialog, derives its phase and runs
  its confirm action.

## How it is modelled

- **React state as a record.** The interpreter is a pure state machine,
  `Player.Apply`. It works over a record that holds the React state:
  - the cursor, the flags and `busy`;
  - whether the current step's effect is still due to run;
  - the calls still in flight, each under the generation of the effect
    that started it;
  - the generation whose effect is mounted;
  - whether the component is torn down;
  - how often `onEnd` ran.
- **Events.** They are the effect running (`Enter`), the next button, an
  option click, a call settling and unmount.
- **A call's snapshot.** A call records the flags its `getFlag` closure
  sees. Flag writes land on the latest store, as `setFlags(prev => …)`
  does.
- **Asynchronous outcomes as parameters.** What a capability, a server
  request or `Math.random()` produces is an input to the model: a
  `Fetched` outcome, a `saved` flag, a draw `u`. Pages are pure functions
  from their inputs to their state, their server requests and their
  effects.

Modules: `Basics`, `KeyedIndex` (a JavaScript `Map` built by `set` in
order), `StableSort` (a stable `Array.prototype.sort`), `SceneTypes`,
`LabelIndex`, `Player`, `PlayerLaws`, `Intro`, `Catalog`, `StarterPage`,
`Home`, `CapturePage`, `Langdex`, `StarterSelection`.

## Behaviour worth knowing

- **`nextStep` without a label clamps at the last step**
  (`src/cutscene/CutscenePlayer.tsx:55`). A scene whose last step is not an
  `end` step therefore does not finish. `onEnd` runs only on entering an
  `end` step (`CutscenePlayer.tsx:103-105`), or when the cursor is past the
  last step (`CutscenePlayer.tsx:59-61`). For a non-empty scene the clamp
  never allows that; an empty scene starts past its last step and calls
  `onEnd` on mount.
- **A call step advances when the capability rejects, and when no
  capability exists** (`CutscenePlayer.tsx:87-99`). The advance sits in a
  `finally`, and a missing function only logs a warning.
- **A label equal to `"end"` has no special meaning**
  (`CutscenePlayer.tsx:48-52`). The index holds only the labels steps
  carry, so `goTo("end")` with no step labelled `"end"` does nothing. See
  the finding below.

## Model

| member | source | states |
|---|---|---|
| SceneTypes.LabelOf | src/cutscene/types.ts:10-44 | only say, choice, set and call steps carry a label; goto and end steps never do |
| SceneTypes.IndexKey | src/cutscene/CutscenePlayer.tsx:33 | a step is indexed exactly when it has a truthy (non-empty) label, under that label |
| SceneTypes.NextOf | src/cutscene/types.ts:10-40 | only say, set and call steps have a `next` |
| KeyedIndex.LastPositions | src/cutscene/CutscenePlayer.tsx:30-36 | a key is in the map exactly when some element carries it, and it maps to the last such position |
| KeyedIndex.LastByKey | src/components/StarterSelection.tsx:37-42 | a lookup in a map filled in order finds nothing exactly when no element has the key, and otherwise the last element with that key |
| KeyedIndex.UniqueKeyPosition | src/cutscene/CutscenePlayer.tsx:30-36 | a key carried by one element only maps to that element's position |
| LabelIndex.BuildLabelIndex | src/cutscene/CutscenePlayer.tsx:30-36 | the index holds exactly the truthy labels, each mapped to a step carrying it, with no later step carrying it (the last one wins) |
| LabelIndex.DistinctLabelPosition | src/cutscene/CutscenePlayer.tsx:30-36 | a label no other step repeats indexes its own step |
| LabelIndex.IndexOfDistinctLabels | src/cutscene/CutscenePlayer.tsx:30-36 | with pairwise distinct labels on a prefix and none after it, each label indexes its position and nothing else is indexed |
| Player.Init | src/cutscene/CutscenePlayer.tsx:40-42 | playback starts at step 0 with its effect due, nothing in flight, not busy, and the flags from `initFlags` or empty |
| Player.SetFlag | src/cutscene/CutscenePlayer.tsx:46 | the written key holds the new value and every other key is unchanged |
| Player.ApplyWritesFrame | src/cutscene/CutscenePlayer.tsx:46 | a sequence of writes changes only the keys written, and a written key holds its last value |
| Player.GoToLands | src/cutscene/CutscenePlayer.tsx:48-52 | a jump to an indexed label lands on a step carrying that label, and a jump to an unknown label leaves the cursor |
| Player.NextStep | src/cutscene/CutscenePlayer.tsx:53-56 | a truthy label jumps; otherwise the cursor moves one on but never past the last step |
| Player.MoveTo | src/cutscene/CutscenePlayer.tsx:58-117 | the effect becomes due again exactly when the cursor changes |
| Player.Current | src/cutscene/CutscenePlayer.tsx:119-121 | a step is rendered exactly when the cursor is on one |
| PlayerLaws.JumpTargetsAreLabelled | src/cutscene/CutscenePlayer.tsx:48-52 | a jump never lands on a goto or end step |
| PlayerLaws.NextStepInRange | src/cutscene/CutscenePlayer.tsx:53-56 | from any step, `nextStep` stays on a step |
| PlayerLaws.NextStepClampsAtLast | src/cutscene/CutscenePlayer.tsx:55 | advancing without a label from the last step stays on it |
| PlayerLaws.InitValid | src/cutscene/CutscenePlayer.tsx:40-42 | the initial state satisfies the state invariant |
| PlayerLaws.NoCallWhileEntryDue | src/cutscene/CutscenePlayer.tsx:58-117 | while mounted, nothing is in flight and nothing is busy before a step's effect has run |
| PlayerLaws.NoCallOffCallStep | src/cutscene/CutscenePlayer.tsx:85-101 | while mounted on a step other than a call, nothing is in flight and nothing is busy |
| PlayerLaws.EnterPreservesValid | src/cutscene/CutscenePlayer.tsx:58-117 | running a step's effect keeps the state invariant |
| PlayerLaws.ApplyPreservesValid | src/cutscene/CutscenePlayer.tsx:58-186 | every event keeps the state invariant |
| PlayerLaws.RunPreservesValid | src/cutscene/CutscenePlayer.tsx:58-186 | every event sequence keeps the state invariant |
| PlayerLaws.CursorAndCallsStayBounded | src/cutscene/CutscenePlayer.tsx:53-101 | from the start, the cursor stays on a step of a non-empty scene and at most one call is in flight |
| PlayerLaws.AtMostOneCallInFlight | src/cutscene/CutscenePlayer.tsx:94-115 | while mounted, a call in flight is the one of the mounted effect, and it is the only one |
| PlayerLaws.SetStepEntry | src/cutscene/CutscenePlayer.tsx:79-83 | a set step writes its flag on the latest store and moves by its `next` |
| PlayerLaws.CallStepEntry | src/cutscene/CutscenePlayer.tsx:85-90 | a call step with a known capability sets `busy` and starts the call with the flags of that moment, without moving |
| PlayerLaws.MissingCapabilityAdvances | src/cutscene/CutscenePlayer.tsx:91-99 | a call step with a missing capability advances by its `next` at once, `busy` cleared |
| PlayerLaws.SettleIgnoresOutcome | src/cutscene/CutscenePlayer.tsx:94-99 | a call that rejects has the same effect on playback as one that resolves |
| PlayerLaws.LiveSettleAdvances | src/cutscene/CutscenePlayer.tsx:94-99 | the mounted call settling applies its writes, clears `busy` and moves by its step's `next` |
| PlayerLaws.TeardownSilences | src/cutscene/CutscenePlayer.tsx:112-115 | after unmount, no event changes the flags, the cursor or the `onEnd` count |
| PlayerLaws.TornDownInert | src/cutscene/CutscenePlayer.tsx:112-115 | an unmounted player ignores every event |
| PlayerLaws.SayChoiceEntryInert | src/cutscene/CutscenePlayer.tsx:107-108 | say and choice steps do nothing on entry |
| PlayerLaws.ChoiceIgnoresNext | src/cutscene/CutscenePlayer.tsx:139-186 | a choice shows its option buttons and no next button, so the next button does nothing on it |
| PlayerLaws.ChooseFollowsOption | src/cutscene/CutscenePlayer.tsx:166-177 | clicking an option jumps to its `goto` label |
| PlayerLaws.SayMoves | src/cutscene/CutscenePlayer.tsx:130 | a say step's next button moves by its `next` and changes nothing but the cursor and the due effect |
| PlayerLaws.ChooseMoves | src/cutscene/CutscenePlayer.tsx:166-177 | an option click moves by its label and changes nothing else |
| PlayerLaws.SettleMoves | src/cutscene/CutscenePlayer.tsx:94-99 | the mounted call's settlement moves by the call step's `next` |
| PlayerLaws.CursorMovesByCurrentStep | src/cutscene/CutscenePlayer.tsx:74-166 | off an end step, the cursor only ever moves to a position the current step's rules allow |
| PlayerLaws.HostEventsNeedControls | src/cutscene/CutscenePlayer.tsx:126-186 | the next button has an effect only on a rendered say, and an option click only on a rendered choice with that option |
| PlayerLaws.EndStepEntry | src/cutscene/CutscenePlayer.tsx:103-105 | entering an end step calls `onEnd` once and keeps the cursor |
| PlayerLaws.EndSignalsOnce | src/cutscene/CutscenePlayer.tsx:103-117 | once the end step has run, no event sequence calls `onEnd` again or moves the cursor |
| PlayerLaws.SameCursorNoRerun | src/cutscene/CutscenePlayer.tsx:117 | an event that leaves the cursor where it is does not rerun the step effect |
| PlayerLaws.SelfTransitionNoRerun | src/cutscene/CutscenePlayer.tsx:117 | a step that jumps or advances onto itself does not run its effect again |
| Intro.IntroLabelsDistinct | src/cutscene/intro.ts:5-63 | the intro's nine labels are pairwise distinct and non-empty, and none is `"end"` |
| Intro.ShapedKeys | src/cutscene/intro.ts:5-63 | in a scene of the intro's structure, positions 0 to 8 are indexed under their labels and the end step under none |
| Intro.IntroIsShaped | src/cutscene/intro.ts:5-63 | the authored intro has that structure, with `"end"` after the closing line |
| Intro.CorrectedIsShaped | src/cutscene/intro.ts:52-61 | the corrected intro has the same structure, with nothing after the closing line |
| Intro.ShapedIndex | src/cutscene/intro.ts:5-63 | in such a scene each label indexes its own position and no other label is indexed |
| Intro.ShapedGoTo | src/cutscene/intro.ts:13-50 | a jump to one of the intro's labels lands on that label's position |
| Intro.ShapedGoToUnknown | src/cutscene/intro.ts:58 | a jump to any other label, `"end"` included, leaves the cursor |
| Intro.ShapedJumpsAvoidEnd | src/cutscene/intro.ts:58-61 | no jump from before the end step lands on it |
| Intro.EnterWaits | src/cutscene/intro.ts:7-59 | entering a line, the choice or the closing line waits for the player |
| Intro.SayNextAdvances | src/cutscene/intro.ts:13-29 | the next button on one of the three lines moves to the following position |
| Intro.ChooseStarter | src/cutscene/intro.ts:39-43 | option `k` moves to the set step of starter `k` |
| Intro.SetStarter | src/cutscene/intro.ts:46-48 | that set step writes starter `k`'s slug and moves to the grant call |
| Intro.GrantEnter | src/cutscene/intro.ts:50 | entering the grant call starts `grantStarter` with the flags of that moment |
| Intro.GrantSettles | src/cutscene/intro.ts:50 | the grant call settling, resolved or rejected, moves to the closing line |
| Intro.RunCons | src/cutscene/CutscenePlayer.tsx:58-186 | running one event then the rest is running the whole sequence |
| Intro.RunAppend | src/cutscene/CutscenePlayer.tsx:58-186 | running two event sequences in turn is running their concatenation |
| Intro.ReadLine | src/cutscene/intro.ts:7-30 | reading one line (its effect, then the next button) moves one position on |
| Intro.ReadAllLines | src/cutscene/intro.ts:7-30 | reading the three lines from the start reaches the choice |
| Intro.PickReachesGrant | src/cutscene/intro.ts:32-50 | from the choice, option `k` starts the grant call with starter `k`'s slug written |
| Intro.ShapedReachesGrant | src/cutscene/intro.ts:5-50 | from the start, the lines and option `k` start the grant call, with only starter `k`'s slug in the flags |
| Intro.ShapedRulesAvoidEnd | src/cutscene/intro.ts:7-59 | with a truthy `next` on the closing line, the `next` and the options of every step before the end lead to a step before the end |
| Intro.ShapedStepStaysBeforeEnd | src/cutscene/intro.ts:58 | with a truthy `next` on the closing line, no event moves a state before the end onto it |
| Intro.ShapedNeverEnds | src/cutscene/intro.ts:58 | with a truthy `next` on the closing line, no event sequence reaches the end step or calls `onEnd` |
| Intro.ShapedDoneLineStays | src/cutscene/intro.ts:58 | when the closing line's `next` names no label, its next button leaves the player as it is |
| Intro.ShapedDoneLineEnds | src/cutscene/intro.ts:52-61 | with no `next` on the closing line, its next button moves to the end step |
| Intro.ShapedIntroEnds | src/cutscene/intro.ts:5-63 | with no `next` on the closing line, playing through the grant call reaches the end step and calls `onEnd` exactly once |
| Intro.GrantCallSeesChoice | src/cutscene/intro.ts:46-50 | the grant call sees the picked slug in its snapshot, and its writes land on the flags when it settles |
| Intro.IntroNeverEnds | src/cutscene/intro.ts:58 | as authored, no event sequence reaches the end step or calls `onEnd` |
| Intro.DoneLineNextStays | src/cutscene/intro.ts:58 | as authored, the next button on the closing line does nothing |
| Intro.CorrectedIntroEnds | src/cutscene/intro.ts:52-61 | with the corrected closing line, playing through the grant call ends the intro with one `onEnd` |
| Catalog.SlugKey | src/pages/StarterPage.tsx:26 | a language's lookup key is its slug, or else its lower-cased name |
| StarterPage.FirstBySlug | src/pages/StarterPage.tsx:25-27 | `find` returns nothing exactly when no language has the key, and otherwise the first that has it |
| StarterPage.PickedSlug | src/pages/StarterPage.tsx:21 | the picked slug is read exactly when the flag holds a string |
| StarterPage.GrantStarter | src/pages/StarterPage.tsx:20-50 | an unset slug does nothing; a capture is requested exactly when the catalogue loads and a language has the key, at level 5 for the first such language; `starterGranted` and the unlock screen come exactly when the save succeeds; the capability rejects exactly when the catalogue or the save fails |
| StarterPage.IntroGrantsPickedStarter | src/pages/StarterPage.tsx:20-58 | playing the intro and picking starter `k` requests a level-5 capture of a language under that slug, and leaves the player on the closing line holding `starterGranted` exactly when it was saved |
| Home.Ring | src/pages/Home.tsx:19-233 | a chip's ring is its category's gradient, or the default gradient for an unknown category |
| Home.ChipIcon | src/pages/Home.tsx:234 | the icon is a non-empty slug, or else the name lower-cased, of the same length |
| Home.LangById | src/pages/Home.tsx:87-91 | an id is in the map exactly when some language has it, and the language it maps to has that id |
| Home.LangByIdLast | src/pages/Home.tsx:87-91 | of several languages with one id, the map keeps the last |
| Home.CapturedIds | src/pages/Home.tsx:93-96 | the set holds exactly the captured language ids |
| Home.DistinctSnoc | src/pages/Home.tsx:93-96 | one more capture keeps the ids distinct exactly when its language is new |
| Home.CapturedIdsSize | src/pages/Home.tsx:93-97 | the distinct count is at most the capture count, at least one when there are captures, and equal exactly when no language repeats |
| Home.UniqueCapturedCount | src/pages/Home.tsx:93-97 | the count shown is the number of distinct captured language ids: at most the capture count, at least one when there are captures, and equal exactly when no language repeats |
| Home.Top10 | src/pages/Home.tsx:99-125 | empty while either list is empty; otherwise one chip for each of the first `min(10, n)` captures by level |
| Home.Top10ByLevel | src/pages/Home.tsx:101-102 | the ranking is a permutation of the captures; every capture shown has a level at least that of every capture left out; levels do not increase along the list; equal levels keep their order |
| Home.MissingLanguageChip | src/pages/Home.tsx:103-113 | a capture of an unknown language becomes a `#id` placeholder with the default category, no slug and the id as its dex number |
| Home.FoundLanguageChip | src/pages/Home.tsx:115-123 | a capture of a known language is shown with that language's name, category (or the default), slug and dex number (or id) |
| Home.RankSuffixDistinct | src/pages/Home.tsx:106-116 | two keys that end in different ranks differ |
| Home.Top10KeysDistinct | src/pages/Home.tsx:106-116 | the chips' keys are pairwise distinct |
| Home.FoundChipIcon | src/pages/Home.tsx:121-234 | a known language's icon is its lookup key, except that an empty slug falls back to the lower-cased name |
| CapturePage.SpawnWeight | src/pages/Capture.tsx:7-49 | the weights are 50, 30, 15, 4 and 1 by rarity, and 1 for an unknown rarity |
| CapturePage.PrefixMonotone | src/pages/Capture.tsx:50-57 | the prefix sums of the weights do not decrease |
| CapturePage.LandingIsFirstReach | src/pages/Capture.tsx:51-57 | the loop returns the first position whose prefix sum reaches the drawn value |
| CapturePage.PickWeighted | src/pages/Capture.tsx:48-59 | an empty list gives nothing; otherwise the language returned is the one whose weight band holds the drawn value |
| CapturePage.Subtract | src/pages/Capture.tsx:51-57 | on a value below the total, the loop stops at the band holding it |
| CapturePage.DrawBelowTotal | src/pages/Capture.tsx:50-51 | a draw in [0, 1) scaled by the total stays below the total |
| CapturePage.NoFallThrough | src/pages/Capture.tsx:51-58 | a drawn value below the total never reaches the last-element fallback |
| CapturePage.LandingIffInBand | src/pages/Capture.tsx:51-57 | the loop stops at position `i` exactly when the drawn value lies in `i`'s band |
| CapturePage.DrawFor | src/pages/Capture.tsx:51 | every value in [0, total) is drawn by some `u` in [0, 1) |
| CapturePage.EveryLanguageCanSpawn | src/pages/Capture.tsx:48-59 | every language of a non-empty list is returned for some draw |
| CapturePage.StartSearch | src/pages/Capture.tsx:61-64 | a search clears the message and the encounter and enters the searching phase |
| CapturePage.SearchFires | src/pages/Capture.tsx:66-70 | the search timer meets the language of the list it closed over whose weight band holds the draw, or none for an empty list |
| CapturePage.TryCatch | src/pages/Capture.tsx:73-78 | without an encounter nothing happens; otherwise the attempt starts |
| CapturePage.CatchSettles | src/pages/Capture.tsx:80-100 | a capture for the given user at level 1 with 1 xp is requested exactly when the roll succeeds, and the page shows the matching message in the result phase |
| CapturePage.ResetEncounter | src/pages/Capture.tsx:103-107 | resetting returns to the initial page |
| CapturePage.CatchMessagesDistinct | src/pages/Capture.tsx:93-98 | an escape, a saved capture and a capture that failed to save show different messages |
| CapturePage.SearchThenCatch | src/pages/Capture.tsx:61-141 | a search from the enabled button meets the catalogue language whose weight band holds the draw, and an attempt on it ends in the result phase |
| Langdex.OwnedKeys | src/pages/Langdex.tsx:25 | the owned set holds exactly the captured ids as strings |
| Langdex.MarkOwned | src/pages/Langdex.tsx:26-30 | each language keeps its data and gets its slug as icon |
| Langdex.OwnedIffCaptured | src/pages/Langdex.tsx:25-28 | a language is marked owned exactly when some capture is of it |
| Langdex.Ordered | src/pages/Langdex.tsx:41-44 | the languages are reordered by ascending dex number, as a permutation |
| Langdex.OrderedStable | src/pages/Langdex.tsx:41-44 | equal dex numbers keep catalogue order, and an already ordered catalogue is unchanged |
| Langdex.CardOf | src/pages/Langdex.tsx:59-66 | a card shows its category only when owned, and `default` otherwise |
| Langdex.Cards | src/pages/Langdex.tsx:58-68 | one card per language, the `i`-th card being the card of the `i`-th language in dex order |
| Langdex.CardsShowOwnership | src/pages/Langdex.tsx:25-68 | every language gets one card, whose category shows exactly when the player holds that language |
| StarterSelection.BySlug | src/components/StarterSelection.tsx:37-42 | the lookup finds nothing exactly when no language has the key, and otherwise the last language with that key |
| StarterSelection.Views | src/components/StarterSelection.tsx:40-52 | one view per listed slug some language carries, in the order of the list, each the view of the language the map keeps under that slug |
| StarterSelection.FoundSlugsMembers | src/components/StarterSelection.tsx:41-52 | the slugs found are exactly the listed slugs some language carries |
| StarterSelection.FoundStarters | src/components/StarterSelection.tsx:11-52 | the starters found are javascript, python and java, in that order, each when present |
| StarterSelection.FoundStartersInOrder | src/components/StarterSelection.tsx:11-52 | the starters found keep the order of the list |
| StarterSelection.ShownIffPresent | src/components/StarterSelection.tsx:40-52 | for any slug list, a listed slug gets a view exactly when some language carries it, and every view is of a listed slug |
| StarterSelection.StartersShown | src/components/StarterSelection.tsx:11-53 | at most three starters are shown; a listed slug is shown exactly when the catalogue carries it, as the view of its language, in list order |
| StarterSelection.LoadStarters | src/components/StarterSelection.tsx:34-58 | a loaded catalogue shows the starter views (at most three) with no error; a failure shows no starters and the error's message, or the default message when it has none |
| StarterSelection.OnNext | src/components/StarterSelection.tsx:105 | the next button moves one line on but never past the line count |
| StarterSelection.PressesClamp | src/components/StarterSelection.tsx:96-105 | after `n` presses the dialog stands at `min(n, 4)`, and the dialog shows exactly while `n < 4` |
| StarterSelection.ConfirmPick | src/components/StarterSelection.tsx:76-94 | nothing without a pick; otherwise saving is shown, a level-5 capture of the pick is requested, then the host learns the pick and the page goes home on success, or the error (or the default message) shows on failure, and saving ends |
| StarterSelection.ConfirmOrdering | src/components/StarterSelection.tsx:82-93 | the host learns the pick and the page navigates exactly when the save succeeds, and saving is always cleared last |
| StarterSelection.LookupsAgreeOnUniqueKeys | src/components/StarterSelection.tsx:37-42 | when no key repeats, the component's map lookup and the capability's `find` pick the same language |
| StarterSelection.LookupsDifferOnDuplicateKeys | src/components/StarterSelection.tsx:37-42 | with two languages under one key, the map keeps the last and `find` the first |
| Basics.DecimalString | src/pages/Home.tsx:106-116 | `String(n)` of an integer is non-empty and starts with `-` exactly when negative |
| Basics.DecimalStringInjective | src/pages/Langdex.tsx:25-28 | two integers have the same decimal string exactly when they are equal |
| StableSort.SortBy | src/pages/Home.tsx:101 | the sort is a permutation ordered by key |
| StableSort.SortByStable | src/pages/Home.tsx:101 | elements with equal keys keep their order |
| StableSort.SortBySortedIdentity | src/pages/Langdex.tsx:42 | an already sorted list is left as it is |

## Left out

- Rendering: the JSX, dialog boxes, portraits, cards, layout, icons and
  CSS classes are not modelled. Only the controls the player can use are:
  the next button, the option buttons, the search button and the confirm
  button.
- Server requests (`getLanguages`, `createCapture`, `getUserCaptures`,
  `getUser`) are not modelled as I/O. Their outcome is a parameter: a
  `Fetched` value, or a `saved` flag.
- `AbortController` and the `signal` option are not modelled. An abort
  shows up only as a request outcome, and the interpreter's `mounted` flag
  is modelled by the generation counter.
- React `StrictMode`'s double effect run (`src/main.tsx:10`) is not modelled.
  It is not the same as `Teardown` followed by a fresh player: the
  simulated unmount keeps the component's state, so a call started by the
  first run of a step-0 call effect would still write its flags through
  `setFlags(prev => …)`, while `mounted = false` drops only its advance
  (`CutscenePlayer.tsx:66-70`, `CutscenePlayer.tsx:94-99`). The intro is
  unaffected: its step 0 is a `say`, whose effect does nothing.
- Player.Apply: re-renders with a new `scene` object or a new `api` are
  not modelled. The scene and the capabilities are fixed for one
  playback. A new `scene.steps` array reruns the effect at the same
  cursor without an unmount (`CutscenePlayer.tsx:117`). That is the one way
  a call can outlive its effect while the player stays mounted: its writes
  would still land, but it would not move the cursor. With a fixed scene
  every call that outlives its effect does so because of an unmount, and
  then its writes are dropped.
- `Math.random()` is a parameter `u` in [0, 1), and the weight arithmetic
  uses exact reals. Floating-point rounding of `Math.random() * total` is
  not modelled.
- CATCH_RATE and the catch roll are left out. Whether a roll succeeds is a
  parameter `caught` of `CapturePage.CatchSettles`, so the rates by rarity
  and the 0.3 default do not appear.
- Timers are not modelled. The search's 600 ms timeout is the
  `SearchFires` step, and the 700 ms wait of a catch splits `TryCatch` from
  `CatchSettles`.
- Navigation is modelled as an effect or an `Unlock` value. The unmount
  of the player that `navigate("/unlock")` causes is the separate
  `Teardown` event.
- `console.warn` for a missing capability is not modelled. Only its
  effect on playback is.
- Basics.ToLower: lower-casing covers ASCII letters only. Unicode case
  mapping is not modelled.
- The home page's user fetch and its fallback user are not modelled,
  because they do not affect the derived data above. The same goes for the
  loading and error screens of every page.
- `Langdex.Ordered`: the source sorts its state array in place; the model
  returns a new sequence. The in-place mutation changes nothing observable
  here.
- Langdex.Ordered: requires every language to carry a dex number. Without
  one, the source's comparator yields `NaN` and the order is unspecified.
- Langdex.Cards: requires every language to carry a dex number, because
  it sorts through `Langdex.Ordered`.
- Basics.DecimalString: numbers are unbounded integers, while the
  source's are JavaScript doubles. `String(n)` (`Langdex.tsx:25`,
  `Home.tsx:106-116`) is modelled as plain decimal digits, but JavaScript
  writes integers from 1e21 up in exponent form, and loses precision
  beyond 2^53.
- Home.Top10ByLevel: levels are taken to be integers. Fractional levels,
  which `(b.level ?? 0) - (a.level ?? 0)` would also order, are not
  modelled.
- Home.Ring: `ringGradients[category] || ringGradients.default`
  (`Home.tsx:233`) is modelled as a lookup in a finite map. On a plain
  JavaScript object, a key such as `"constructor"` or `"toString"` finds
  an `Object.prototype` member instead. The model gives the default
  gradient for every category the table does not list.
- CapturePage.SpawnWeight: `SPAWN_WEIFHTS[lang.rarity] ?? 1`
  (`Capture.tsx:49`) is modelled the same way. A rarity such as
  `"constructor"` would find an `Object.prototype` member; the model gives
  weight 1 for every rarity the table does not list.
- StarterSelection: the selected card and its highlight (`setPicked`) are
  not modelled, since only `confirmPick`'s use of the pick matters here.
- `USER_ID` is a parameter `userId` of `StarterPage.GrantStarter`,
  `StarterSelection.ConfirmPick` and `CapturePage.CatchSettles`. These
  files import it from `src/api/types.ts`, which does not export it, so
  its value is unknown. `Home.tsx:8` defines its own `USER_ID = 1`, but
  uses it only for the user and capture requests, whose results are
  inputs here.
- Capture.tsx and StarterSelection.tsx send `skillsUnlocked: []`. The
  request model leaves that field out.
- The source's other pages and components (`CaptureUnlock`,
  `LangDetailModal`, `Navbar`, `UserSummaryCard`, the API client, the
  mocks) are not part of this model.

## Findings

| source | as written | input that shows it | evidently intended | confidence | as-written member | corrected member |
|---|---|---|---|---|---|---|
| src/cutscene/intro.ts:58 | the closing line has `next: "end"`, but no step is labelled `"end"` (the end step has no label), so `goTo("end")` does nothing and the next button on the closing line leaves the player there; `onEnd` never runs | play the intro, pick any starter, let `grantStarter` settle without navigating (for instance, no catalogue language under the slug), then press next on the closing line | pressing next on the closing line reaches the end step and calls `onEnd`, which navigates home | not executed | Intro.IntroNeverEnds | Intro.CorrectedIntroEnds |
