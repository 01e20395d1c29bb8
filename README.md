# Medicare Adventure — a verified model of the page logic

Medicare Adventure is a single-page teaching game. It lists four Medicare
enrollment scenarios. The player opens one, picks one of its three choices,
and reads the outcome: a coloured headline plus key takeaways. From there the
player goes back to the list or moves on to the next scenario. This project
models the logic under that page in Dafny:

- `types.dfy` (module `Types`): the content records of `types.ts`. These are
  `Outcome`, `Choice` and `Scenario`, plus `Option` for TypeScript's
  `T | null`.
- `queries.dfy` (module `Queries`): the expression-only parts of `App.tsx`.
  - Looking a scenario up by id (`find` and `findIndex`).
  - The "Next Scenario" target, chosen by catalog position.
  - `String.prototype.includes`, proved equal to "occurs at some position".
  - `getResultColor`: the first marker found decides among positive,
    negative, warning and neutral.
- `catalog.dfy` (module `Catalog`): the `scenarios` constant of
  `constants.ts`. Lemmas prove its invariants: unique ids, three choices with
  ids 1, 2, 3 each, and non-empty takeaways. Further lemmas give the category
  of every authored headline.
- `viewstate.dfy` (module `ViewState`): the navigation as a pure state
  machine.
  - State: the five `App` fields, the list view's `isTransitioning`, the
    outcome view's `showTakeaways`, and a FIFO queue of pending timer
    callbacks.
  - Every click handler raises a fade flag and schedules a callback. The
    oldest callback fires on `Fire`.
  - `Enabled`, `Step` and `Run` say which buttons the rendered page offers
    and what a session of clicks and timer firings does.
- `appcontroller.dfy` (module `AppController`): the same controller as a
  `class App`. It has one field per piece of state, and its handler methods
  update the fields in place. Each method is proved to move the object's
  `Model()` as the matching `ViewState` function does. Every handler and
  `FireTimer` is also proved to keep the invariant; `LeaveOutcome`, a step
  inside `FireTimer`, is not.
- `walkthrough.dfy` (module `Walkthrough`): the navigation over the authored
  catalog. It covers where "Next Scenario" leads from each scenario, and one
  complete session.

The navigation timers are all 300 ms and none is ever cancelled, so they fire in the
order they were scheduled. The model keeps that order and nothing of real
time. A child component's flag exists only while the child is mounted. The
model keeps the flag false while the child is off the page, and a child that
is mounted again starts with it false.

## Model

| member | source | states |
|---|---|---|
| Queries.FindIndex | App.tsx:186 | the result is -1 exactly when no scenario has the id (an absent id matches none); otherwise it is the first position holding the id |
| Queries.Find | App.tsx:89-91 | a scenario is returned exactly when some scenario has the id; it has that id and is the first one in catalog order |
| Queries.Successor | App.tsx:186-187 | a successor exists exactly when the current id sits at a position before the last; it is the scenario one position after the first match |
| Queries.FindByUniqueId | App.tsx:89-91 | with unique ids, looking up the id at position i finds position i and that scenario |
| Queries.SuccessorByPosition | App.tsx:186-187 | with unique ids, the successor of position i is position i+1, and the last position has none |
| Queries.UnknownIdFindsNothing | App.tsx:89-91 | an id no scenario has yields no scenario and no successor, not a failure |
| Queries.Contains | App.tsx:190-192 | `includes`, trying each start position in turn: the empty marker is always found, and a marker longer than the headline never is; `ContainsMeansOccurs` characterises it fully |
| Queries.ResultCategory | App.tsx:189-194 | the markers tried in source order, the first found deciding; `ResultCategoryByOccurrence` states each category in both directions |
| Queries.ResultColor | App.tsx:189-194 | `getResultColor`: always one of the four accent classes; `ResultColorByCategory` and `ResultCategoryByOccurrence` say which one for which headline |
| Queries.ContainsMeansOccurs | App.tsx:190-192 | the computed `includes` is true exactly when the marker occurs at some position of the headline |
| Queries.ResultCategoryByOccurrence | App.tsx:189-194 | each of the four categories holds exactly when its marker occurs and no earlier marker does, in both directions |
| Queries.ResultColorByCategory | App.tsx:189-194 | each of the four colour classes is returned exactly for its category |
| Queries.PositiveMarkerWins | App.tsx:190 | a headline holding "Jackpot!" or the Goldilocks marker is green whatever other markers it holds |
| Queries.PositiveIsStableUnderAppend | App.tsx:190 | appending text never demotes a positive headline |
| Queries.NeutralWithoutMarkerLetters | App.tsx:189-194 | a headline with no `!` and no `R` holds no marker and is neutral |
| Queries.NeutralWithoutLetterC | App.tsx:189-194 | a headline with no `c` or `C` holds no marker and is neutral |
| Queries.NegativeWithoutPositiveLetters | App.tsx:191 | a headline with a coverage-loss marker and no `J` or `G` is negative |
| Queries.WarningWithoutEarlierMarkerLetters | App.tsx:192 | a headline with the gap marker and none of the earlier markers' key letters is a warning |
| Catalog.CatalogIds | constants.ts:6-167 | four scenarios, ids 1, 2, 3, 4 in declaration order, pairwise distinct |
| Catalog.CatalogChoices | constants.ts:13-204 | every scenario has exactly three choices with ids 1, 2, 3 in button order |
| Catalog.CatalogTakeaways | constants.ts:19-213 | every outcome of every scenario has at least one takeaway |
| Catalog.CatalogWellFormed | constants.ts:4-218 | the catalog keeps every invariant of `WellFormed`, including unique choice ids within each scenario |
| Catalog.AuthoredHeadlines | constants.ts:17-207 | the twelve headlines, in catalog and button order, are the authored strings |
| Catalog.WorkingOlderAdultOutcomes | constants.ts:17-48 | the three outcomes of scenario 1 are neutral, positive (Goldilocks) and neutral |
| Catalog.ForkInTheRoadOutcomes | constants.ts:72-102 | all three outcomes of scenario 2 are neutral |
| Catalog.PartDPanicOutcomes | constants.ts:125-154 | the outcomes of scenario 3 are negative, neutral ("Great!" holds no marker) and warning |
| Catalog.DualEligibilityMazeOutcomes | constants.ts:178-207 | the outcomes of scenario 4 are negative, positive (jackpot) and neutral |
| Catalog.ForkInTheRoadExample | constants.ts:61-115 | scenario 2 is "Fork in the Road"; its second choice has the predictability headline, four takeaways and a neutral colour; its successor is scenario 3, "Part D Panic" |
| Catalog.OnlyLastHasNoSuccessor | constants.ts:166-218 | scenario 4 has no successor, and every other scenario has one |
| ViewState.Init | App.tsx:335-339 | the initial state, at rest (nothing pending, no fade flag up) and within the invariant; `InitialState` gives every field |
| ViewState.NavigateScenarios | App.tsx:342-344 | `handleNavigateScenarios`: only the focused scenario changes, to the given id or to none, and the invariant is kept; `SettleExpand` and `SettleCollapse` say where its deferred calls leave the page |
| ViewState.Expand | App.tsx:63-70 | `handleExpand`: keeps the invariant; `SettleExpand` says where it settles |
| ViewState.Collapse | App.tsx:72-79 | `handleBack`: keeps the invariant; `SettleCollapse` says where it settles |
| ViewState.SelectChoice | App.tsx:346-354 | `handleSelectChoice`: keeps the invariant; `SettleSelectChoice` says where it settles |
| ViewState.BackToScenarios | App.tsx:356-365 | `handleBackToScenarios`: keeps the invariant; `SettleBackToScenarios` says where it settles |
| ViewState.NextScenario | App.tsx:367-376 | `handleNextScenario`: keeps the invariant; `SettleNextScenario` says where it settles |
| ViewState.TogglePresentationMode | App.tsx:380 | flips presentation mode and keeps the invariant; `TogglePresentationTwice` and `PresentationCommutesWithSettle` relate it to the rest |
| ViewState.ToggleTakeaways | App.tsx:245 | flips `showTakeaways` and keeps the invariant; `ToggleTakeawaysTwice` shows nothing else changes |
| ViewState.Leave | App.tsx:358-375 | the shared body of the two return callbacks: the list is shown focused on the target, no choice is selected, `isExiting` is lowered, the takeaways close with the unmounted outcome, the list's fade flag survives only if the list was already shown, and the invariant is kept; `SettleBackToScenarios` and `SettleNextScenario` say where the page settles |
| ViewState.Apply | App.tsx:65-68 | one callback firing: the queue and the presentation mode are untouched, every `App` callback lowers `isExiting`, and the list's flag survives only a return to a list already shown |
| ViewState.Fire | App.tsx:65-67 | the oldest callback fires and leaves the queue; an `App` callback lowers `isExiting` |
| ViewState.Settle | App.tsx:65-375 | every pending callback fires in order, each doing what its body does (App.tsx:65-68, 348-352, 358-364, 369-375): the queue ends empty and the presentation mode unchanged; `SettleIsQuiet` and `SettleLast` say more |
| ViewState.SettleExpand | App.tsx:63-70 | opening a detail settles with that scenario focused and the list's fade lowered, whatever was pending, leaving the view and the choice as the earlier callbacks left them |
| ViewState.SettleCollapse | App.tsx:72-79 | going back from a detail settles with no scenario focused and the list's fade lowered, whatever was pending, leaving the view and the choice as the earlier callbacks left them |
| ViewState.SettleIgnoresTransitioning | App.tsx:61 | the list's starting fade flag changes neither the view nor the choice the page settles on |
| ViewState.InitialState | App.tsx:335-339 | the page starts on the unfocused list with nothing selected, no flag raised, nothing pending, and satisfies the invariant |
| ViewState.FirePreservesInv | App.tsx:346-376 | firing the oldest callback keeps the invariant |
| ViewState.ScheduleKeepsPending | App.tsx:63-79 | scheduling a callback keeps every earlier one pending and makes the new one pending |
| ViewState.SettleIsQuiet | App.tsx:342-376 | once every pending callback has fired, no fade flag is up, nothing is pending and the invariant holds |
| ViewState.SettleLast | App.tsx:348 | callbacks fire in the order scheduled: settling with one more callback queued is settling and then applying it |
| ViewState.SettleIgnoresExiting | App.tsx:336-338 | the starting `isExiting` flag changes neither the focus nor the mode the page settles in |
| ViewState.SettleSelectChoice | App.tsx:346-354 | after selecting a choice the page settles on that choice's outcome with the fade lowered; the focused scenario is left as the earlier callbacks left it |
| ViewState.SettleBackToScenarios | App.tsx:356-365 | going back always settles on the unfocused list with nothing selected and the takeaways closed, never on the detail focused before |
| ViewState.SettleNextScenario | App.tsx:367-376 | going next settles on the list focused on the given id, with nothing selected |
| ViewState.ExitingLoweredEarly | App.tsx:349-352 | the first `App` callback to fire lowers `isExiting` even while a second navigation is still pending |
| ViewState.ShowOutcomeKeepsFocus | App.tsx:348-351 | the select-choice callback sets the outcome view and the choice and leaves the focused scenario unchanged |
| ViewState.TogglePresentationTwice | App.tsx:380 | toggling presentation mode changes the state, and toggling twice restores it |
| ViewState.PresentationCommutesWithSettle | App.tsx:380 | toggling presentation mode before or after the pending callbacks fire gives the same state |
| ViewState.ToggleTakeawaysTwice | App.tsx:245 | the takeaways toggle changes only `showTakeaways`, and twice restores the state |
| ViewState.TakeawaysStartClosed | App.tsx:182 | the takeaways are closed whenever the outcome view is opened from the list, and closed again when the page leaves the outcome |
| ViewState.CardsShown | App.tsx:133-145 | the summary cards are shown while the list is mounted with nothing focused, never together with the outcome; `RenderBranches` places it among the other bodies |
| ViewState.DetailShown | App.tsx:89-91 | the detail is shown exactly when the list is mounted and the focused id is one of the catalog's ids; `RenderBranches` places it among the other bodies |
| ViewState.RenderBranches | App.tsx:88-145 | within the invariant exactly one body is rendered: the cards, the detail, the outcome, or nothing for a focused id the catalog lacks |
| ViewState.Enabled | App.tsx:106-317 | the buttons the page offers: the cards, "Back to Scenario List" and the choices only on the list, "Back to Scenarios", "Next Scenario" and the takeaways only on the outcome, and "Next Scenario" exactly when the focused id sits before the last position; `NextOfferedUnlessLast` and `UnknownFocusRendersNothing` say more |
| ViewState.Step | App.tsx:106-317 | the handler an offered event runs: a click only appends to the pending callbacks, never cancelling one, a timer firing only removes the oldest, and only the header's button changes the presentation mode; `StepPreservesInv` adds the invariant |
| ViewState.Run | App.tsx:106-317 | a session of offered events: without the header's button the presentation mode is kept, and without a timer firing every pending callback stays pending; `RunPreservesInv` and `RunConcat` say more |
| ViewState.StepPreservesInv | App.tsx:342-392 | every handler and callback the page offers keeps the invariant |
| ViewState.RunPreservesInv | App.tsx:342-392 | every state reached by a session of clicks and timer firings satisfies the invariant |
| ViewState.RunConcat | App.tsx:342-392 | a session split in two runs as its first part followed by its second, stopping at the first event the page does not offer |
| ViewState.NextOfferedUnlessLast | App.tsx:290-292 | with unique ids, "Next Scenario" is offered exactly when the current scenario is not last, and it leads to the next position |
| ViewState.CardOpensDetail | App.tsx:138-141 | clicking a card of a page at rest focuses that card's scenario and shows its detail once the fade has run |
| ViewState.UnknownFocusRendersNothing | App.tsx:89-91 | a focused id that the catalog lacks renders nothing: only the header toggle and pending timers remain |
| ViewState.BackThenChoiceLosesFocus | App.tsx:72-79 | the timers are not cancelled, so clicking a choice while the detail fades back to the list shows that choice's outcome with no scenario focused, where "Next Scenario" is not offered |
| AppController.App.constructor | App.tsx:335-339 | the object starts in the initial state, which satisfies the invariant |
| AppController.App.HandleNavigateScenarios | App.tsx:342-344 | sets the focused scenario and nothing else |
| AppController.App.HandleExpand | App.tsx:63-70 | raises the list's fade flag and schedules the focus on the id, keeping the invariant |
| AppController.App.HandleBack | App.tsx:72-79 | raises the list's fade flag and schedules the unfocus, keeping the invariant |
| AppController.App.HandleSelectChoice | App.tsx:346-354 | raises `isExiting` and schedules showing the choice's outcome, keeping the invariant |
| AppController.App.HandleBackToScenarios | App.tsx:356-365 | raises `isExiting` and schedules the return to the unfocused list, keeping the invariant |
| AppController.App.HandleNextScenario | App.tsx:367-376 | raises `isExiting` and schedules the list focused on the next id, keeping the invariant |
| AppController.App.TogglePresentation | App.tsx:380 | flips presentation mode and nothing else |
| AppController.App.ToggleTakeawaysPanel | App.tsx:245 | flips the takeaways flag and nothing else |
| AppController.App.FireTimer | App.tsx:65-68 | runs the oldest callback, removes it from the queue, and keeps the invariant |
| AppController.App.LeaveOutcome | App.tsx:357-363 | clears the choice, shows the list focused on the target, lowers `isExiting` and closes the takeaways |
| Walkthrough.NextAlongTheCatalog | App.tsx:290-292 | in the authored catalog, the outcomes of scenarios 1 to 3 offer "Next Scenario" leading to scenarios 2 to 4, and scenario 4's do not |
| Walkthrough.OpenForkInTheRoad | App.tsx:138-141 | clicking the second card of the page at rest and letting the fade run shows the detail of scenario 2 and nothing else changes |
| Walkthrough.ForkInTheRoadSession | App.tsx:383-391 | opening "Fork in the Road", picking its second choice and letting both fades run shows that outcome at rest, neutral, with Next offered |

## Left out

- Scrolling is not modelled: `customSmoothScrollTo` (floating-point easing and animation frames) and every `window.scrollTo` call.
- Real time is not modelled. The 300 ms delays are kept only as the order in which callbacks fire, and the 150 ms scroll delay of the takeaways panel is dropped with the scroll.
- Presentation is not modelled: Tailwind class selection, SVG icons, the header and footer markup, and `CheckIcon`.
- The narrative prose is not modelled. Scenario intros and outcome clarifications are empty strings in `Catalog.Scenarios`, and each takeaway is its bold lead-in text without the HTML markup. No logic reads that text, and keeping the full paragraphs in one constant makes every proof about the catalog too large for the verifier.
- Ids are modelled as unbounded integers. TypeScript `number` is a double, but every id in the catalog is a small integer.
- The identity of a child component instance is not tracked. When a list-view callback fires, it lowers the flag of whichever list view is mounted. Because callbacks fire in scheduling order, a callback cannot outlive its own list view and then meet a newer one, but the model does not prove that.
- Queries.Contains: modelled on sequences of characters. The headlines and the markers are plain ASCII, so UTF-16 code units and characters coincide.
