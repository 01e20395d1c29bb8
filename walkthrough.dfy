/** The page's navigation over the authored catalog: which outcomes offer
    "Next Scenario", where it leads, and one complete session. */
module Walkthrough {
  import opened Types
  import opened Queries
  import opened ViewState
  import opened Catalog

  /** The outcomes of scenarios 1, 2 and 3 offer "Next Scenario", which leads
      to scenarios 2, 3 and 4; the outcomes of scenario 4 do not offer it. */
  lemma NextAlongTheCatalog(s: State, k: int)
    requires OutcomeMounted(s) && 1 <= k <= 4 && s.activeScenarioId == Some(k)
    ensures Enabled(Scenarios, s, ClickNext) <==> k < 4
    ensures Enabled(Scenarios, s, ClickNext) ==>
              Settle(Step(Scenarios, s, ClickNext)).activeScenarioId == Some(k + 1)
  {
    CatalogIds();
    assert Scenarios[k - 1].id == k;
    NextOfferedUnlessLast(Scenarios, s, k - 1);
    if k < 4 {
      assert Scenarios[k].id == k + 1;
    }
  }

  /** The first half of the session: clicking the second card of the page at
      rest and letting the fade run shows the detail of scenario 2. */
  lemma OpenForkInTheRoad()
    ensures Run(Scenarios, Init(), [ClickCard(1), TimerFires])
            == Some(Init().(activeScenarioId := Some(2)))
  {
    CatalogIds();
    var s1 := Init().(isTransitioning := true, pending := [Navigate(Some(2))]);
    assert Step(Scenarios, Init(), ClickCard(1)) == s1;
    var s2 := Init().(activeScenarioId := Some(2));
    assert Step(Scenarios, s1, TimerFires) == s2;
    assert Run(Scenarios, s2, []) == Some(s2);
    assert Run(Scenarios, s1, [TimerFires]) == Some(s2);
  }

  /** A session: open "Fork in the Road", pick its second choice and let both
      fades run; the page shows that choice's outcome, neutral in colour, with
      the next scenario offered. */
  lemma ForkInTheRoadSession()
    ensures var r := Run(Scenarios, Init(), [ClickCard(1), TimerFires, ClickChoice(1), TimerFires]);
      && r.Some?
      && OutcomeMounted(r.value) && Quiet(r.value)
      && r.value.activeScenarioId == Some(2)
      && r.value.selectedChoice == Some(Scenarios[1].choices[1])
      && ResultCategory(r.value.selectedChoice.value.outcome.result) == Neutral
      && Enabled(Scenarios, r.value, ClickNext)
  {
    OpenForkInTheRoad();
    CatalogIds();
    FindByUniqueId(Scenarios, 1);
    var s2 := Init().(activeScenarioId := Some(2));
    var choice := Scenarios[1].choices[1];
    assert DetailShown(Scenarios, s2);
    var s3 := s2.(isExiting := true, pending := [ShowOutcome(choice)]);
    assert Step(Scenarios, s2, ClickChoice(1)) == s3;
    var s4 := s2.(view := OutcomeView, selectedChoice := Some(choice));
    assert Step(Scenarios, s3, TimerFires) == s4;
    assert Run(Scenarios, s4, []) == Some(s4);
    assert Run(Scenarios, s3, [TimerFires]) == Some(s4);
    RunConcat(Scenarios, Init(), [ClickCard(1), TimerFires], [ClickChoice(1), TimerFires]);
    ForkInTheRoadOutcomes();
    NextAlongTheCatalog(s4, 2);
  }
}
