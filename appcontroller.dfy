/** The page's controller as the mutable object it is (App.tsx:334-380, with
    the list view's handlers at 61-79 and the outcome view's flag at 182).
    Each handler updates the fields in place and schedules its callback on
    `pending`; `FireTimer` runs the oldest callback.  Every method is proved to
    move `Model()` exactly as the matching function of `ViewState` does, so the
    properties proved there hold of the object, and every handler and
    `FireTimer` keeps `Valid()`. */
module AppController {
  import opened Types
  import opened ViewState

  class App {
    var currentView: View
    var activeScenarioId: Option<int>
    var selectedChoice: Option<Choice>
    var isExiting: bool
    var isPresentationMode: bool
    /** The list view's fade flag; false while the list is off the page. */
    var isTransitioning: bool
    /** The outcome view's accordion flag; false while the outcome is off the page. */
    var showTakeaways: bool
    /** The callbacks scheduled and not yet fired, oldest first. */
    var pending: seq<Pending>

    /** The object's fields as a value. */
    function Model(): State
      reads this
    {
      State(currentView, activeScenarioId, selectedChoice, isExiting, isPresentationMode,
            isTransitioning, showTakeaways, pending)
    }

    ghost predicate Valid()
      reads this
    {
      Inv(Model())
    }

    /** The page as it first renders. */
    constructor()
      ensures Model() == Init()
      ensures Valid()
    {
      currentView := ScenariosView;
      activeScenarioId := None;
      selectedChoice := None;
      isExiting := false;
      isPresentationMode := false;
      isTransitioning := false;
      showTakeaways := false;
      pending := [];
      InitialState();
    }

    /** `handleNavigateScenarios`: set the focused scenario. */
    method HandleNavigateScenarios(id: Option<int>)
      requires Valid()
      modifies this
      ensures activeScenarioId == id
      ensures Model() == NavigateScenarios(old(Model()), id)
      ensures Valid()
    {
      activeScenarioId := id;
    }

    /** The list view's `handleExpand`. */
    method HandleExpand(id: int)
      requires Valid() && currentView == ScenariosView
      modifies this
      ensures isTransitioning && pending == old(pending) + [Navigate(Some(id))]
      ensures Model() == Expand(old(Model()), id)
      ensures Valid()
    {
      ScheduleKeepsPending(Model(), Navigate(Some(id)));
      isTransitioning := true;
      pending := pending + [Navigate(Some(id))];
    }

    /** The list view's `handleBack`. */
    method HandleBack()
      requires Valid() && currentView == ScenariosView
      modifies this
      ensures isTransitioning && pending == old(pending) + [Navigate(None)]
      ensures Model() == Collapse(old(Model()))
      ensures Valid()
    {
      ScheduleKeepsPending(Model(), Navigate(None));
      isTransitioning := true;
      pending := pending + [Navigate(None)];
    }

    /** `handleSelectChoice`: fade out, then show the outcome of `choice`. */
    method HandleSelectChoice(choice: Choice)
      requires Valid()
      modifies this
      ensures isExiting && pending == old(pending) + [ShowOutcome(choice)]
      ensures Model() == SelectChoice(old(Model()), choice)
      ensures Valid()
    {
      ScheduleKeepsPending(Model(), ShowOutcome(choice));
      isExiting := true;
      pending := pending + [ShowOutcome(choice)];
    }

    /** `handleBackToScenarios`: fade out, then return to the unfocused list. */
    method HandleBackToScenarios()
      requires Valid()
      modifies this
      ensures isExiting && pending == old(pending) + [ReturnToList]
      ensures Model() == BackToScenarios(old(Model()))
      ensures Valid()
    {
      ScheduleKeepsPending(Model(), ReturnToList);
      isExiting := true;
      pending := pending + [ReturnToList];
    }

    /** `handleNextScenario`: fade out, then show the list focused on `nextId`. */
    method HandleNextScenario(nextId: int)
      requires Valid()
      modifies this
      ensures isExiting && pending == old(pending) + [OpenScenario(nextId)]
      ensures Model() == NextScenario(old(Model()), nextId)
      ensures Valid()
    {
      ScheduleKeepsPending(Model(), OpenScenario(nextId));
      isExiting := true;
      pending := pending + [OpenScenario(nextId)];
    }

    /** The header's presentation-mode toggle. */
    method TogglePresentation()
      requires Valid()
      modifies this
      ensures isPresentationMode == !old(isPresentationMode)
      ensures Model() == TogglePresentationMode(old(Model()))
      ensures Valid()
    {
      isPresentationMode := !isPresentationMode;
    }

    /** The outcome view's takeaways toggle. */
    method ToggleTakeawaysPanel()
      requires Valid() && currentView == OutcomeView && selectedChoice.Some?
      modifies this
      ensures showTakeaways == !old(showTakeaways)
      ensures Model() == ToggleTakeaways(old(Model()))
      ensures Valid()
    {
      showTakeaways := !showTakeaways;
    }

    /** The oldest timer fires and its callback runs. */
    method FireTimer()
      requires Valid() && pending != []
      modifies this
      ensures pending == old(pending[1..])
      ensures Model() == Fire(old(Model()))
      ensures Valid()
    {
      FirePreservesInv(Model());
      var p := pending[0];
      pending := pending[1..];
      match p {
        case Navigate(target) =>
          isTransitioning := false;
          HandleNavigateScenarios(target);
        case ShowOutcome(choice) =>
          showTakeaways := currentView == OutcomeView && selectedChoice.Some? && showTakeaways;
          selectedChoice := Some(choice);
          currentView := OutcomeView;
          isExiting := false;
          isTransitioning := false;
        case ReturnToList =>
          LeaveOutcome(None);
        case OpenScenario(nextId) =>
          LeaveOutcome(Some(nextId));
      }
    }

    /** The common body of the two callbacks that return to the list. */
    method LeaveOutcome(target: Option<int>)
      modifies this
      ensures Model() == Leave(old(Model()), target)
    {
      isTransitioning := currentView == ScenariosView && isTransitioning;
      showTakeaways := false;
      selectedChoice := None;
      currentView := ScenariosView;
      activeScenarioId := target;
      isExiting := false;
    }
  }
}
