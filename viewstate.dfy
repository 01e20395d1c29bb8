/** The page's view state as a pure state machine (App.tsx).  The `App`
    component owns the current view, the focused scenario, the selected choice
    and the two display flags; its two children keep one flag each
    (`ScenarioListView.isTransitioning`, `OutcomeView.showTakeaways`).  Every
    navigation happens in two steps: the click handler raises a fade-out flag
    and schedules a callback, and the callback applies the change and lowers
    the flag.  All callbacks use the same delay, so they fire in the order in
    which they were scheduled: the model keeps them as a FIFO queue and fires
    the head on `Fire`, without real time and without cancellation.

    A child's flag lives only while the child is on the page: the model keeps
    it false while the child is unmounted, and a child that is mounted again
    starts with it false. */
module ViewState {
  import opened Types
  import opened Queries

  /** `currentView`: the scenario list (with its optional detail) or an outcome. */
  datatype View = ScenariosView | OutcomeView

  /** A scheduled callback that has not fired yet. */
  datatype Pending =
    | Navigate(target: Option<int>)   // the list view's deferred `onNavigate(id | null)`
    | ShowOutcome(choice: Choice)      // the callback of `handleSelectChoice`
    | ReturnToList                     // the callback of `handleBackToScenarios`
    | OpenScenario(nextId: int)        // the callback of `handleNextScenario`

  /** All state the page's logic reads or writes. */
  datatype State = State(
    view: View,
    activeScenarioId: Option<int>,
    selectedChoice: Option<Choice>,
    isExiting: bool,
    isPresentationMode: bool,
    isTransitioning: bool,
    showTakeaways: bool,
    pending: seq<Pending>)

  /** The list view is rendered exactly while the current view is the list. */
  predicate ListMounted(s: State)
  {
    s.view == ScenariosView
  }

  /** The outcome view is rendered while the current view is the outcome and
      a choice is selected. */
  predicate OutcomeMounted(s: State)
  {
    s.view == OutcomeView && s.selectedChoice.Some?
  }

  /** A callback of the `App` itself (one that lowers `isExiting`). */
  predicate IsAppAction(p: Pending)
  {
    !p.Navigate?
  }

  // ---------------------------------------------------------------------------
  // Handlers
  // ---------------------------------------------------------------------------

  /** The initial state of the page: at rest, and within the invariant. */
  function Init(): (r: State)
    ensures Inv(r) && Quiet(r)
  {
    State(ScenariosView, None, None, false, false, false, false, [])
  }

  /** `handleNavigateScenarios`: focus a scenario, or unfocus with `None`. */
  function NavigateScenarios(s: State, id: Option<int>): (r: State)
    ensures r.activeScenarioId == id && r.(activeScenarioId := s.activeScenarioId) == s
    ensures Inv(s) ==> Inv(r)
  {
    s.(activeScenarioId := id)
  }

  /** `handleExpand` of the list view: start the fade-out and schedule the focus. */
  function Expand(s: State, id: int): (r: State)
    requires ListMounted(s)
    ensures Inv(s) ==> Inv(r)
  {
    ScheduleKeepsPending(s, Navigate(Some(id)));
    s.(isTransitioning := true, pending := s.pending + [Navigate(Some(id))])
  }

  /** `handleBack` of the list view: start the fade-out and schedule the unfocus. */
  function Collapse(s: State): (r: State)
    requires ListMounted(s)
    ensures Inv(s) ==> Inv(r)
  {
    ScheduleKeepsPending(s, Navigate(None));
    s.(isTransitioning := true, pending := s.pending + [Navigate(None)])
  }

  /** `handleSelectChoice`. */
  function SelectChoice(s: State, choice: Choice): (r: State)
    ensures Inv(s) ==> Inv(r)
  {
    ScheduleKeepsPending(s, ShowOutcome(choice));
    s.(isExiting := true, pending := s.pending + [ShowOutcome(choice)])
  }

  /** `handleBackToScenarios`. */
  function BackToScenarios(s: State): (r: State)
    ensures Inv(s) ==> Inv(r)
  {
    ScheduleKeepsPending(s, ReturnToList);
    s.(isExiting := true, pending := s.pending + [ReturnToList])
  }

  /** `handleNextScenario`. */
  function NextScenario(s: State, nextId: int): (r: State)
    ensures Inv(s) ==> Inv(r)
  {
    ScheduleKeepsPending(s, OpenScenario(nextId));
    s.(isExiting := true, pending := s.pending + [OpenScenario(nextId)])
  }

  /** The header's presentation-mode button; it changes no navigation. */
  function TogglePresentationMode(s: State): (r: State)
    ensures Inv(s) ==> Inv(r)
    ensures r.isPresentationMode != s.isPresentationMode
  {
    s.(isPresentationMode := !s.isPresentationMode)
  }

  /** The outcome view's "Key Takeaways" button. */
  function ToggleTakeaways(s: State): (r: State)
    requires OutcomeMounted(s)
    ensures Inv(s) ==> Inv(r)
    ensures r.showTakeaways != s.showTakeaways
  {
    s.(showTakeaways := !s.showTakeaways)
  }

  // ---------------------------------------------------------------------------
  // Callbacks
  // ---------------------------------------------------------------------------

  /** Leaving the outcome for the list, focused on `target`: the outcome view
      unmounts and loses its flag; the list view keeps its flag only if it was
      already on the page. */
  function Leave(s: State, target: Option<int>): (r: State)
    ensures r.view == ScenariosView && r.selectedChoice == None && r.activeScenarioId == target
    ensures !r.isExiting && !r.showTakeaways
    ensures r.pending == s.pending && r.isPresentationMode == s.isPresentationMode
    ensures r.isTransitioning ==> ListMounted(s) && s.isTransitioning
    ensures Inv(s) ==> Inv(r)
  {
    s.(selectedChoice := None, view := ScenariosView, activeScenarioId := target,
       isExiting := false, isTransitioning := ListMounted(s) && s.isTransitioning,
       showTakeaways := false)
  }

  /** What one callback does when it fires.  No callback touches the queue
      or the presentation mode; every `App` callback lowers `isExiting`, and
      every callback lowers the list view's flag unless it leaves the list in
      place. */
  function Apply(s: State, p: Pending): (r: State)
    ensures r.pending == s.pending && r.isPresentationMode == s.isPresentationMode
    ensures IsAppAction(p) ==> !r.isExiting
    ensures r.isTransitioning ==> ListMounted(s) && s.isTransitioning && IsAppAction(p) && !p.ShowOutcome?
  {
    match p
    case Navigate(target) => NavigateScenarios(s, target).(isTransitioning := false)
    case ShowOutcome(choice) =>
      s.(selectedChoice := Some(choice), view := OutcomeView, isExiting := false,
         isTransitioning := false, showTakeaways := OutcomeMounted(s) && s.showTakeaways)
    case ReturnToList => Leave(s, None)
    case OpenScenario(nextId) => Leave(s, Some(nextId))
  }

  /** The oldest pending callback fires and leaves the queue. */
  function Fire(s: State): (r: State)
    requires s.pending != []
    ensures r.pending == s.pending[1..]
    ensures IsAppAction(s.pending[0]) ==> !r.isExiting
  {
    Apply(s.(pending := s.pending[1..]), s.pending[0])
  }

  /** The state once every pending callback has fired, oldest first: the
      queue is empty and the presentation mode is the one it started with. */
  function Settle(s: State): (r: State)
    ensures r.pending == [] && r.isPresentationMode == s.isPresentationMode
    decreases |s.pending|
  {
    if s.pending == [] then s else Settle(Fire(s))
  }

  // ---------------------------------------------------------------------------
  // The invariant
  // ---------------------------------------------------------------------------

  /** Some list-view callback is still pending. */
  ghost predicate NavigationPending(s: State)
  {
    exists i :: 0 <= i < |s.pending| && s.pending[i].Navigate?
  }

  /** Some `App` callback is still pending. */
  ghost predicate AppActionPending(s: State)
  {
    exists i :: 0 <= i < |s.pending| && IsAppAction(s.pending[i])
  }

  /** What holds in every state the page can reach: the outcome view is the
      current view exactly when a choice is selected, each child's flag is
      false while the child is off the page, and each fade-out flag is up only
      while a callback that lowers it is pending. */
  ghost predicate Inv(s: State)
  {
    && (s.view == OutcomeView <==> s.selectedChoice.Some?)
    && (s.isTransitioning ==> ListMounted(s) && NavigationPending(s))
    && (s.showTakeaways ==> OutcomeMounted(s))
    && (s.isExiting ==> AppActionPending(s))
  }

  /** A state with nothing pending is at rest. */
  ghost predicate Quiet(s: State)
  {
    s.pending == [] && !s.isExiting && !s.isTransitioning
  }

  /** The initial state is the list, unfocused, with nothing selected, no flag
      raised and nothing pending; it satisfies the invariant. */
  lemma InitialState()
    ensures Inv(Init()) && Quiet(Init())
    ensures Init().view == ScenariosView && Init().activeScenarioId == None
    ensures Init().selectedChoice == None && !Init().isPresentationMode
    ensures !Init().showTakeaways
  {
  }

  /** Firing the oldest callback keeps the invariant. */
  lemma FirePreservesInv(s: State)
    requires Inv(s) && s.pending != []
    ensures Inv(Fire(s))
  {
    var t := Fire(s);
    if t.isTransitioning {
      var i :| 0 <= i < |s.pending| && s.pending[i].Navigate?;
      assert i != 0;
      assert t.pending[i - 1] == s.pending[i];
    }
    if t.isExiting {
      var i :| 0 <= i < |s.pending| && IsAppAction(s.pending[i]);
      assert i != 0;
      assert t.pending[i - 1] == s.pending[i];
    }
  }

  /** Scheduling one more callback keeps every pending one pending. */
  lemma ScheduleKeepsPending(s: State, p: Pending)
    ensures NavigationPending(s) ==> NavigationPending(s.(pending := s.pending + [p]))
    ensures AppActionPending(s) ==> AppActionPending(s.(pending := s.pending + [p]))
    ensures p.Navigate? ==> NavigationPending(s.(pending := s.pending + [p]))
    ensures IsAppAction(p) ==> AppActionPending(s.(pending := s.pending + [p]))
  {
    var t := s.(pending := s.pending + [p]);
    assert t.pending[|s.pending|] == p;
    if NavigationPending(s) {
      var i :| 0 <= i < |s.pending| && s.pending[i].Navigate?;
      assert t.pending[i] == s.pending[i];
    }
    if AppActionPending(s) {
      var i :| 0 <= i < |s.pending| && IsAppAction(s.pending[i]);
      assert t.pending[i] == s.pending[i];
    }
  }

  /** Once everything pending has fired, the page is at rest and the
      invariant still holds. */
  lemma {:induction false} SettleIsQuiet(s: State)
    requires Inv(s)
    ensures Inv(Settle(s)) && Quiet(Settle(s))
    decreases |s.pending|
  {
    if s.pending != [] {
      FirePreservesInv(s);
      SettleIsQuiet(Fire(s));
    }
  }

  // ---------------------------------------------------------------------------
  // Settling the navigations
  // ---------------------------------------------------------------------------

  /** The queue is first in, first out: settling a state with one more
      callback at the end is settling the state and then applying it. */
  lemma {:induction false} SettleLast(s: State, p: Pending)
    ensures Settle(s.(pending := s.pending + [p])) == Apply(Settle(s), p)
    decreases |s.pending|
  {
    var t := s.(pending := s.pending + [p]);
    if s.pending == [] {
      assert Fire(t) == Apply(s, p);
    } else {
      assert t.pending[1..] == s.pending[1..] + [p];
      assert Fire(t) == Fire(s).(pending := Fire(s).pending + [p]);
      SettleLast(Fire(s), p);
    }
  }

  /** Opening a scenario's detail ends with that scenario focused and the
      list's fade lowered, whatever was pending before. */
  lemma SettleExpand(s: State, id: int)
    requires ListMounted(s)
    ensures var t := Settle(Expand(s, id));
      && t.activeScenarioId == Some(id) && !t.isTransitioning && t.pending == []
      && t.view == Settle(s).view && t.selectedChoice == Settle(s).selectedChoice
  {
    SettleLast(s.(isTransitioning := true), Navigate(Some(id)));
    SettleIgnoresTransitioning(s, true);
  }

  /** Going back from a detail ends on no focused scenario and the list's
      fade lowered, whatever was pending before. */
  lemma SettleCollapse(s: State)
    requires ListMounted(s)
    ensures var t := Settle(Collapse(s));
      && t.activeScenarioId == None && !t.isTransitioning && t.pending == []
      && t.view == Settle(s).view && t.selectedChoice == Settle(s).selectedChoice
  {
    SettleLast(s.(isTransitioning := true), Navigate(None));
    SettleIgnoresTransitioning(s, true);
  }

  /** The list view's flag a state starts with changes neither the view nor
      the selected choice it settles on. */
  lemma {:induction false} SettleIgnoresTransitioning(s: State, b: bool)
    ensures Settle(s.(isTransitioning := b)).view == Settle(s).view
    ensures Settle(s.(isTransitioning := b)).selectedChoice == Settle(s).selectedChoice
    decreases |s.pending|
  {
    if s.pending != [] {
      var u := Fire(s.(isTransitioning := b));
      assert u == Fire(s).(isTransitioning := u.isTransitioning);
      SettleIgnoresTransitioning(Fire(s), u.isTransitioning);
    }
  }

  /** Selecting a choice ends on the outcome of that choice with the fade
      lowered, whatever was pending before; the focused scenario is the one
      the earlier callbacks left, the click itself does not change it. */
  lemma SettleSelectChoice(s: State, choice: Choice)
    ensures var t := Settle(SelectChoice(s, choice));
      && t.view == OutcomeView && t.selectedChoice == Some(choice) && !t.isExiting
      && t.activeScenarioId == Settle(s).activeScenarioId && t.pending == []
      && t.isPresentationMode == s.isPresentationMode
  {
    SettleLast(s.(isExiting := true), ShowOutcome(choice));
    SettleIgnoresExiting(s, true);
  }

  /** Going back to the scenarios always ends on the unfocused list, never on
      the detail that was focused before. */
  lemma SettleBackToScenarios(s: State)
    ensures var t := Settle(BackToScenarios(s));
      && t.view == ScenariosView && t.activeScenarioId == None && t.selectedChoice == None
      && !t.isExiting && !t.showTakeaways && t.pending == []
  {
    SettleLast(s.(isExiting := true), ReturnToList);
  }

  /** Going to the next scenario ends on the list focused on that scenario,
      skipping the unfocused list. */
  lemma SettleNextScenario(s: State, nextId: int)
    ensures var t := Settle(NextScenario(s, nextId));
      && t.view == ScenariosView && t.activeScenarioId == Some(nextId) && t.selectedChoice == None
      && !t.isExiting && !t.showTakeaways && t.pending == []
  {
    SettleLast(s.(isExiting := true), OpenScenario(nextId));
  }

  /** The `isExiting` flag a state starts with changes neither the focus nor
      the mode it settles in. */
  lemma {:induction false} SettleIgnoresExiting(s: State, b: bool)
    ensures Settle(s.(isExiting := b)).activeScenarioId == Settle(s).activeScenarioId
    ensures Settle(s.(isExiting := b)).isPresentationMode == s.isPresentationMode
    decreases |s.pending|
  {
    if s.pending != [] {
      assert Fire(s.(isExiting := b)).activeScenarioId == Fire(s).activeScenarioId;
      assert Fire(s.(isExiting := b)) == Fire(s).(isExiting := Fire(s.(isExiting := b)).isExiting);
      SettleIgnoresExiting(Fire(s), Fire(s.(isExiting := b)).isExiting);
    }
  }

  /** The fade is lowered by the first `App` callback to fire, even when a
      later click has scheduled another one that is still pending: the page
      shows no fade-out while that second navigation waits. */
  lemma ExitingLoweredEarly(s: State, first: Pending, second: Pending)
    requires s.pending == [first, second]
    requires IsAppAction(first) && IsAppAction(second)
    ensures !Fire(s).isExiting
    ensures Fire(s).pending == [second]
  {
  }

  /** Selecting a choice never changes the focused scenario when it fires. */
  lemma ShowOutcomeKeepsFocus(s: State, choice: Choice)
    ensures Apply(s, ShowOutcome(choice)).activeScenarioId == s.activeScenarioId
    ensures Apply(s, ShowOutcome(choice)).selectedChoice == Some(choice)
    ensures Apply(s, ShowOutcome(choice)).view == OutcomeView
  {
  }

  // ---------------------------------------------------------------------------
  // The two toggles
  // ---------------------------------------------------------------------------

  /** Toggling presentation mode twice restores the state. */
  lemma TogglePresentationTwice(s: State)
    ensures TogglePresentationMode(TogglePresentationMode(s)) == s
    ensures TogglePresentationMode(s) != s
    ensures TogglePresentationMode(s).(isPresentationMode := s.isPresentationMode) == s
  {
  }

  /** Presentation mode is independent of the navigation: toggling it before
      or after the pending callbacks fire gives the same state. */
  lemma {:induction false} PresentationCommutesWithSettle(s: State)
    ensures Settle(TogglePresentationMode(s)) == TogglePresentationMode(Settle(s))
    decreases |s.pending|
  {
    if s.pending != [] {
      assert Fire(TogglePresentationMode(s)) == TogglePresentationMode(Fire(s));
      PresentationCommutesWithSettle(Fire(s));
    }
  }

  /** Toggling the takeaways twice restores the state, and only that flag
      differs in between. */
  lemma ToggleTakeawaysTwice(s: State)
    requires OutcomeMounted(s)
    ensures ToggleTakeaways(ToggleTakeaways(s)) == s
    ensures ToggleTakeaways(s) != s
    ensures ToggleTakeaways(s).(showTakeaways := s.showTakeaways) == s
  {
  }

  /** The takeaways start closed every time the outcome view is opened from
      the list, and are closed again when the page leaves the outcome. */
  lemma TakeawaysStartClosed(s: State, p: Pending)
    ensures ListMounted(s) && p.ShowOutcome? ==> !Apply(s, p).showTakeaways
    ensures p.ReturnToList? || p.OpenScenario? ==> !Apply(s, p).showTakeaways
  {
  }

  // ---------------------------------------------------------------------------
  // What the user can do
  // ---------------------------------------------------------------------------

  /** One input: a click on a rendered button, or the oldest timer firing. */
  datatype Event =
    | ClickCard(index: int)        // a summary card of the list
    | ClickBackToList              // "Back to Scenario List" in the detail
    | ClickChoice(index: int)      // a choice button of the detail
    | ClickBackToScenarios         // "Back to Scenarios" in the outcome
    | ClickNext                    // "Next Scenario" in the outcome
    | ClickPresentationToggle      // the header's mode button
    | ClickTakeaways               // the takeaways accordion
    | TimerFires

  /** The list shows the summary cards: nothing is focused. */
  predicate CardsShown(s: State): (r: bool)
    ensures r ==> !OutcomeMounted(s)
  {
    ListMounted(s) && s.activeScenarioId == None
  }

  /** The list shows the detail of the focused scenario; a focused id that the
      catalog lacks renders nothing at all. */
  predicate DetailShown(catalog: seq<Scenario>, s: State): (r: bool)
    ensures r <==> ListMounted(s) && s.activeScenarioId.Some? && s.activeScenarioId.value in Ids(catalog)
  {
    ListMounted(s) && s.activeScenarioId.Some? && Find(catalog, s.activeScenarioId.value).Some?
  }

  /** The events the rendered page offers in state `s`. */
  predicate Enabled(catalog: seq<Scenario>, s: State, e: Event): (r: bool)
    ensures r && (e.ClickCard? || e.ClickBackToList? || e.ClickChoice?) ==> ListMounted(s)
    ensures r && (e.ClickBackToScenarios? || e.ClickNext? || e.ClickTakeaways?) ==> OutcomeMounted(s)
    ensures e.ClickNext? ==>
              (r <==> OutcomeMounted(s) &&
                      exists i :: 0 <= i < |catalog| - 1 && Some(catalog[i].id) == s.activeScenarioId)
  {
    match e
    case ClickCard(k) => CardsShown(s) && 0 <= k < |catalog|
    case ClickBackToList => DetailShown(catalog, s)
    case ClickChoice(k) =>
      DetailShown(catalog, s) && 0 <= k < |Find(catalog, s.activeScenarioId.value).value.choices|
    case ClickBackToScenarios => OutcomeMounted(s)
    case ClickNext => OutcomeMounted(s) && Successor(catalog, s.activeScenarioId).Some?
    case ClickPresentationToggle => true
    case ClickTakeaways => OutcomeMounted(s)
    case TimerFires => s.pending != []
  }

  /** The handler an enabled event runs.  A click only appends to the queue
      (no timer is ever cancelled), a timer firing only removes its head, and
      only the header's button changes the presentation mode. */
  function Step(catalog: seq<Scenario>, s: State, e: Event): (r: State)
    requires Enabled(catalog, s, e)
    ensures e.TimerFires? ==> r.pending == s.pending[1..]
    ensures !e.TimerFires? ==> s.pending <= r.pending && |r.pending| <= |s.pending| + 1
    ensures r.isPresentationMode != s.isPresentationMode <==> e.ClickPresentationToggle?
  {
    match e
    case ClickCard(k) => Expand(s, catalog[k].id)
    case ClickBackToList => Collapse(s)
    case ClickChoice(k) => SelectChoice(s, Find(catalog, s.activeScenarioId.value).value.choices[k])
    case ClickBackToScenarios => BackToScenarios(s)
    case ClickNext => NextScenario(s, Successor(catalog, s.activeScenarioId).value.id)
    case ClickPresentationToggle => TogglePresentationMode(s)
    case ClickTakeaways => ToggleTakeaways(s)
    case TimerFires => Fire(s)
  }

  /** A session: the events in order, or `None` at the first one the page does
      not offer.  A session without a click on the header's button keeps the
      presentation mode, and one without a timer firing keeps every pending
      callback pending. */
  function Run(catalog: seq<Scenario>, s: State, events: seq<Event>): (r: Option<State>)
    ensures r.Some? && (forall i :: 0 <= i < |events| ==> !events[i].ClickPresentationToggle?) ==>
              r.value.isPresentationMode == s.isPresentationMode
    ensures r.Some? && (forall i :: 0 <= i < |events| ==> !events[i].TimerFires?) ==>
              s.pending <= r.value.pending
    decreases |events|
  {
    if events == [] then Some(s)
    else if Enabled(catalog, s, events[0]) then Run(catalog, Step(catalog, s, events[0]), events[1..])
    else None
  }

  /** A session split in two runs as its first part followed by its second. */
  lemma {:induction false} RunConcat(catalog: seq<Scenario>, s: State, first: seq<Event>, second: seq<Event>)
    ensures Run(catalog, s, first + second) ==
            match Run(catalog, s, first)
            case None => None
            case Some(t) => Run(catalog, t, second)
    decreases |first|
  {
    if first != [] {
      assert (first + second)[0] == first[0];
      assert (first + second)[1..] == first[1..] + second;
      if Enabled(catalog, s, first[0]) {
        RunConcat(catalog, Step(catalog, s, first[0]), first[1..], second);
      }
    } else {
      assert first + second == second;
    }
  }

  /** Every handler and every callback keeps the invariant. */
  lemma StepPreservesInv(catalog: seq<Scenario>, s: State, e: Event)
    requires Inv(s) && Enabled(catalog, s, e)
    ensures Inv(Step(catalog, s, e))
  {
    match e
    case ClickCard(k) => ScheduleKeepsPending(s, Navigate(Some(catalog[k].id)));
    case ClickBackToList => ScheduleKeepsPending(s, Navigate(None));
    case ClickChoice(k) =>
      ScheduleKeepsPending(s, ShowOutcome(Find(catalog, s.activeScenarioId.value).value.choices[k]));
    case ClickBackToScenarios => ScheduleKeepsPending(s, ReturnToList);
    case ClickNext => ScheduleKeepsPending(s, OpenScenario(Successor(catalog, s.activeScenarioId).value.id));
    case ClickPresentationToggle =>
    case ClickTakeaways =>
    case TimerFires => FirePreservesInv(s);
  }

  /** Every state a session reaches from a state satisfying the invariant
      satisfies it, and so does every state a session reaches from the start. */
  lemma {:induction false} RunPreservesInv(catalog: seq<Scenario>, s: State, events: seq<Event>)
    requires Inv(s)
    ensures Run(catalog, s, events).Some? ==> Inv(Run(catalog, s, events).value)
    decreases |events|
  {
    if events != [] && Enabled(catalog, s, events[0]) {
      StepPreservesInv(catalog, s, events[0]);
      RunPreservesInv(catalog, Step(catalog, s, events[0]), events[1..]);
    }
  }

  /** With unique ids, the outcome of the scenario at position `i` offers
      "Next Scenario" exactly when `i` is not the last position, and the
      button leads to the scenario at position `i + 1`, chosen by position and
      not by id arithmetic. */
  lemma NextOfferedUnlessLast(catalog: seq<Scenario>, s: State, i: int)
    requires UniqueIds(catalog) && 0 <= i < |catalog|
    requires OutcomeMounted(s) && s.activeScenarioId == Some(catalog[i].id)
    ensures Enabled(catalog, s, ClickNext) <==> i < |catalog| - 1
    ensures Enabled(catalog, s, ClickNext) ==>
              Settle(Step(catalog, s, ClickNext)).activeScenarioId == Some(catalog[i + 1].id)
  {
    SuccessorByPosition(catalog, i);
    if i < |catalog| - 1 {
      SettleNextScenario(s, catalog[i + 1].id);
    }
  }

  /** Clicking a card of a page at rest focuses that card's scenario and shows
      its detail once the fade has run. */
  lemma CardOpensDetail(catalog: seq<Scenario>, s: State, k: int)
    requires Enabled(catalog, s, ClickCard(k)) && s.pending == []
    ensures var t := Settle(Step(catalog, s, ClickCard(k)));
      && DetailShown(catalog, t) && t.activeScenarioId == Some(catalog[k].id)
      && !t.isTransitioning && t.pending == []
  {
    var t := Step(catalog, s, ClickCard(k));
    assert Fire(t) == NavigateScenarios(s, Some(catalog[k].id)).(isTransitioning := false);
    assert Settle(t) == Fire(t);
  }

  /** A focused id that the catalog lacks renders nothing: no card, no
      detail and no outcome, so only the header's toggle and pending timers
      remain. */
  lemma UnknownFocusRendersNothing(catalog: seq<Scenario>, s: State, e: Event)
    requires ListMounted(s) && s.activeScenarioId.Some?
    requires forall i :: 0 <= i < |catalog| ==> catalog[i].id != s.activeScenarioId.value
    requires Enabled(catalog, s, e)
    ensures e == ClickPresentationToggle || e == TimerFires
  {
    UnknownIdFindsNothing(catalog, s.activeScenarioId.value);
  }

  /** Within the invariant the page renders exactly one body: the cards, the
      detail, the outcome, or nothing for a focused id the catalog lacks. */
  lemma RenderBranches(catalog: seq<Scenario>, s: State)
    requires Inv(s)
    ensures (if CardsShown(s) then 1 else 0) + (if DetailShown(catalog, s) then 1 else 0)
            + (if OutcomeMounted(s) then 1 else 0)
            + (if ListMounted(s) && s.activeScenarioId.Some? && s.activeScenarioId.value !in Ids(catalog)
               then 1 else 0) == 1
  {
  }

  /** The timers are never cancelled, so a click on a choice made while the
      detail is still fading back to the list races with it: the unfocus
      fires first and the outcome is then shown with no scenario focused,
      where "Next Scenario" is never offered. */
  lemma BackThenChoiceLosesFocus(catalog: seq<Scenario>, s: State, choice: Choice)
    requires ListMounted(s)
    ensures var t := Settle(SelectChoice(Collapse(s), choice));
      && OutcomeMounted(t) && t.selectedChoice == Some(choice) && t.activeScenarioId == None
      && !Enabled(catalog, t, ClickNext)
  {
    SettleCollapse(s);
    SettleSelectChoice(Collapse(s), choice);
  }
}
