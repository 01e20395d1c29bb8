/** The content catalog (constants.ts): four scenarios, in the order they are
    listed and played, each with three choices of one outcome each.  Ids,
    titles, subtitles, characters and headlines are kept verbatim.  The
    narrative paragraphs (intro, clarification) are left empty and each
    takeaway is represented by its bold lead-in, since no logic reads their
    wording.  The longer headlines are written as two literals joined by
    `+`, which is the same string, so that the verifier
    can inspect them letter by letter. */
module Catalog {
  import opened Types
  import opened Queries

  const Scenarios: seq<Scenario> := [
    Scenario(
      id := 1,
      title := "Working Older Adult",
      subtitle := "Turning 65",
      character := "Martha",
      intro := "",
      choices := [
        Choice(
          id := 1,
          title := "Delay Medicare Enrollment Completely",
          subtitle := "I'll stick with just my work plan.",
          outcome := Outcome(
            result := "Not bad, but you left " + "'free' on the table.",
            clarification := "",
            keyTakeaways := [
              "The >20 Rule:",
              "Part A is (Usually) Free:",
              "Special Enrollment Period (SEP):",
              "Check with HR:",
              "The <20 Danger:"
            ])),
        Choice(
          id := 2,
          title := "Enroll in Part A, Delay Part B",
          subtitle := "Take the free stuff, skip the bill.",
          outcome := Outcome(
            result := "The smart 'Goldilocks' move!",
            clarification := "",
            keyTakeaways := [
              "The >20 Rule:",
              "Special Enrollment Period (SEP):",
              "Check with HR:",
              "If <20 Employees:"
            ])),
        Choice(
          id := 3,
          title := "Enroll in Medicare Parts A & B",
          subtitle := "Isn't it required?",
          outcome := Outcome(
            result := "Safe, but you're " + "paying for redundancy.",
            clarification := "",
            keyTakeaways := [
              "Cost vs. Benefit:",
              "Special Enrollment Period (SEP):",
              "Check with HR:",
              "The <20 Rule:"
            ]))
      ]),
    Scenario(
      id := 2,
      title := "Fork in the Road",
      subtitle := "Medicare Advantage vs. Original Medicare",
      character := "Robert",
      intro := "",
      choices := [
        Choice(
          id := 1,
          title := "Choose Medicare Advantage (HMO)",
          subtitle := "Low premium, all-in-one.",
          outcome := Outcome(
            result := "Low premiums, but " + "network restrictions.",
            clarification := "",
            keyTakeaways := [
              "MA Trade-off:",
              "Original Medicare's Flexibility:",
              "No Medigap for MA:",
              "Did you know?:"
            ])),
        Choice(
          id := 2,
          title := "Choose Original Medicare + Part D",
          subtitle := "Freedom of choice.",
          outcome := Outcome(
            result := "Freedom of choice, but " + "predictability issues.",
            clarification := "",
            keyTakeaways := [
              "The 20% Risk:",
              "Flexibility:",
              "The Medigap Solution:",
              "Birthday Rule:"
            ])),
        Choice(
          id := 3,
          title := "Original Medicare + Part D + Medigap",
          subtitle := "most coverage, higher price.",
          outcome := Outcome(
            result := "Maximum flexibility & predictable " + "costs, but high monthly payment.",
            clarification := "",
            keyTakeaways := [
              "Predictability:",
              "Cost:",
              "Birthday Rule:"
            ]))
      ]),
    Scenario(
      id := 3,
      title := "Part D Panic",
      subtitle := "Rx plan is ending",
      character := "Sarah",
      intro := "",
      choices := [
        Choice(
          id := 1,
          title := "Do Nothing",
          subtitle := "It'll be fine.",
          outcome := Outcome(
            result := "Coverage loss!",
            clarification := "",
            keyTakeaways := [
              "Must Act:",
              "Special Enrollment Period (SEP):",
              "Don't Wait:",
              "Did you know?"
            ])),
        Choice(
          id := 2,
          title := "Enroll in a New Plan by Dec. 7",
          subtitle := "Rush to enroll.",
          outcome := Outcome(
            result := "Great! You're set for Jan. 1, " + "but you didn't *have* to rush.",
            clarification := "",
            keyTakeaways := [
              "Continuous Coverage:",
              "SEP Knowledge:",
              "Did you know?"
            ])),
        Choice(
          id := 3,
          title := "Deal with it in January",
          subtitle := "I'll figure it out later.",
          outcome := Outcome(
            result := "Gap in coverage!",
            clarification := "",
            keyTakeaways := [
              "Timing Matters:",
              "No Late Penalties:",
              "Best Practice:",
              "Did you know?"
            ]))
      ]),
    Scenario(
      id := 4,
      title := "Dual Eligibility Maze",
      subtitle := "Transitioning from Medicaid to Medicare",
      character := "Jack",
      intro := "",
      choices := [
        Choice(
          id := 1,
          title := "Do Nothing",
          subtitle := "Medicaid coverage will continue",
          outcome := Outcome(
            result := "Risk of losing coverage.",
            clarification := "",
            keyTakeaways := [
              "Medicare is a Must:",
              "Apply for MSP:",
              "Extra Help is Automatic with MSP:"
            ])),
        Choice(
          id := 2,
          title := "Apply for Medicare Savings Program (MSP)",
          subtitle := "Help me with premiums.",
          outcome := Outcome(
            result := "Jackpot! You get QMB *and* Extra Help!",
            clarification := "",
            keyTakeaways := [
              "Medicare Required:",
              "QMB Benefits:",
              "The 'Deemed' Status:",
              "D-SNP:"
            ])),
        Choice(
          id := 3,
          title := "Apply for Extra Help",
          subtitle := "Just help me with drugs.",
          outcome := Outcome(
            result := "Partial win, but you're losing money.",
            clarification := "",
            keyTakeaways := [
              "Missed Opportunity:",
              "Correct Order:",
              "Two Applications:"
            ]))
      ])
  ]

  // ---------------------------------------------------------------------------
  // Facts about the authored catalog
  // ---------------------------------------------------------------------------

  /** Four scenarios, with ids 1 to 4 in declaration order, so pairwise distinct. */
  lemma CatalogIds()
    ensures |Scenarios| == 4
    ensures Ids(Scenarios) == [1, 2, 3, 4]
    ensures UniqueIds(Scenarios)
  {
    assert Ids(Scenarios) == [1, 2, 3, 4];
  }

  /** Every scenario has three choices with ids 1, 2, 3 in button order; the
      same choice ids recur in every scenario. */
  lemma CatalogChoices()
    ensures forall i :: 0 <= i < |Scenarios| ==> ChoiceIds(Scenarios[i].choices) == [1, 2, 3]
  {
    forall i | 0 <= i < |Scenarios|
      ensures ChoiceIds(Scenarios[i].choices) == [1, 2, 3]
    {
      assert |Scenarios[i].choices| == 3;
      assert ChoiceIds(Scenarios[i].choices)[0] == 1;
    }
  }

  /** Every outcome of the catalog has at least one takeaway. */
  lemma CatalogTakeaways()
    ensures forall i, c | 0 <= i < |Scenarios| && 0 <= c < |Scenarios[i].choices| ::
              Scenarios[i].choices[c].outcome.keyTakeaways != []
  {
    forall i, c | 0 <= i < |Scenarios| && 0 <= c < |Scenarios[i].choices|
      ensures Scenarios[i].choices[c].outcome.keyTakeaways != []
    {
      assert |Scenarios[i].choices| == 3;
    }
  }

  /** The authored catalog keeps every invariant of `WellFormed`. */
  lemma CatalogWellFormed()
    ensures WellFormed(Scenarios)
  {
    CatalogIds();
    CatalogChoices();
    CatalogTakeaways();
    forall i | 0 <= i < |Scenarios|
      ensures UniqueChoiceIds(Scenarios[i].choices)
    {
      var ids := ChoiceIds(Scenarios[i].choices);
      assert ids == [1, 2, 3];
    }
  }

  /** The last scenario, id 4, has no successor; every other one has. */
  lemma OnlyLastHasNoSuccessor()
    ensures Successor(Scenarios, Some(4)) == None
    ensures forall i :: 0 <= i < |Scenarios| - 1 ==> Successor(Scenarios, Some(Scenarios[i].id)).Some?
  {
    CatalogIds();
    SuccessorByPosition(Scenarios, 3);
    forall i | 0 <= i < |Scenarios| - 1
      ensures Successor(Scenarios, Some(Scenarios[i].id)).Some?
    {
      SuccessorByPosition(Scenarios, i);
    }
  }

  /** The headline of choice `c` of scenario `i`, both counted from zero. */
  function Headline(i: nat, c: nat): string
    requires i < |Scenarios| && c < |Scenarios[i].choices|
  {
    Scenarios[i].choices[c].outcome.result
  }

  /** The authored headlines are exactly these, in catalog and button order. */
  lemma AuthoredHeadlines()
    ensures Headline(0, 0) == "Not bad, but you left " + "'free' on the table."
    ensures Headline(0, 1) == "The smart 'Goldilocks' move!"
    ensures Headline(0, 2) == "Safe, but you're " + "paying for redundancy."
    ensures Headline(1, 0) == "Low premiums, but " + "network restrictions."
    ensures Headline(1, 1) == "Freedom of choice, but " + "predictability issues."
    ensures Headline(1, 2) == "Maximum flexibility & predictable " + "costs, but high monthly payment."
    ensures Headline(2, 0) == "Coverage loss!"
    ensures Headline(2, 1) == "Great! You're set for Jan. 1, " + "but you didn't *have* to rush."
    ensures Headline(2, 2) == "Gap in coverage!"
    ensures Headline(3, 0) == "Risk of losing coverage."
    ensures Headline(3, 1) == "Jackpot! You get QMB *and* Extra Help!"
    ensures Headline(3, 2) == "Partial win, but you're losing money."
  {
  }

  // Each authored headline is classified by a lemma of its own over a string
  // equal to it, so that no single proof has to unfold every marker search.

  lemma LeftFreeOnTheTableIsNeutral(s: string)
    requires s == "Not bad, but you left " + "'free' on the table."
    ensures ResultCategory(s) == Neutral
  {
    NeutralWithoutMarkerLetters(s);
  }

  lemma GoldilocksMoveIsPositive(s: string)
    requires s == "The smart 'Goldilocks' move!"
    ensures ResultCategory(s) == Positive
  {
    assert s[4..] == GoldilocksMarker;
    assert OccursAt(s, GoldilocksMarker, 4);
    PositiveMarkerWins(s);
  }

  lemma PayingForRedundancyIsNeutral(s: string)
    requires s == "Safe, but you're " + "paying for redundancy."
    ensures ResultCategory(s) == Neutral
  {
    NeutralWithoutMarkerLetters(s);
  }

  lemma NetworkRestrictionsIsNeutral(s: string)
    requires s == "Low premiums, but " + "network restrictions."
    ensures ResultCategory(s) == Neutral
  {
    NeutralWithoutMarkerLetters(s);
  }

  lemma PredictabilityIssuesIsNeutral(s: string)
    requires s == "Freedom of choice, but " + "predictability issues."
    ensures ResultCategory(s) == Neutral
  {
    NeutralWithoutMarkerLetters(s);
  }

  lemma HighMonthlyPaymentIsNeutral(s: string)
    requires s == "Maximum flexibility & predictable " + "costs, but high monthly payment."
    ensures ResultCategory(s) == Neutral
  {
    NeutralWithoutMarkerLetters(s);
  }

  lemma CoverageLossIsNegative(s: string)
    requires s == "Coverage loss!"
    ensures ResultCategory(s) == Negative
  {
    FoundAt(s, CoverageLossMarker, 0);
    NegativeWithoutPositiveLetters(s);
  }

  lemma SetForJanuaryIsNeutral(s: string)
    requires s == "Great! You're set for Jan. 1, " + "but you didn't *have* to rush."
    ensures ResultCategory(s) == Neutral
  {
    NeutralWithoutLetterC(s);
  }

  lemma GapInCoverageIsWarning(s: string)
    requires s == "Gap in coverage!"
    ensures ResultCategory(s) == Warning
  {
    FoundAt(s, GapMarker, 0);
    WarningWithoutEarlierMarkerLetters(s);
  }

  lemma RiskOfLosingCoverageIsNegative(s: string)
    requires s == "Risk of losing coverage."
    ensures ResultCategory(s) == Negative
  {
    FoundAt(s, LosingCoverageMarker, 0);
    NegativeWithoutPositiveLetters(s);
  }

  lemma JackpotIsPositive(s: string)
    requires s == "Jackpot! You get QMB *and* Extra Help!"
    ensures ResultCategory(s) == Positive
  {
    assert OccursAt(s, JackpotMarker, 0);
    PositiveMarkerWins(s);
  }

  lemma LosingMoneyIsNeutral(s: string)
    requires s == "Partial win, but you're losing money."
    ensures ResultCategory(s) == Neutral
  {
    NeutralWithoutMarkerLetters(s);
  }

  /** The three outcomes of "Working Older Adult", in button order. */
  lemma WorkingOlderAdultOutcomes()
    ensures ResultCategory(Headline(0, 0)) == Neutral
    ensures ResultCategory(Headline(0, 1)) == Positive
    ensures ResultCategory(Headline(0, 2)) == Neutral
  {
    LeftFreeOnTheTableIsNeutral(Headline(0, 0));
    GoldilocksMoveIsPositive(Headline(0, 1));
    PayingForRedundancyIsNeutral(Headline(0, 2));
  }

  /** The three outcomes of "Fork in the Road", in button order. */
  lemma ForkInTheRoadOutcomes()
    ensures ResultCategory(Headline(1, 0)) == Neutral
    ensures ResultCategory(Headline(1, 1)) == Neutral
    ensures ResultCategory(Headline(1, 2)) == Neutral
  {
    NetworkRestrictionsIsNeutral(Headline(1, 0));
    PredictabilityIssuesIsNeutral(Headline(1, 1));
    HighMonthlyPaymentIsNeutral(Headline(1, 2));
  }

  /** The three outcomes of "Part D Panic", in button order. */
  lemma PartDPanicOutcomes()
    ensures ResultCategory(Headline(2, 0)) == Negative
    ensures ResultCategory(Headline(2, 1)) == Neutral
    ensures ResultCategory(Headline(2, 2)) == Warning
  {
    CoverageLossIsNegative(Headline(2, 0));
    SetForJanuaryIsNeutral(Headline(2, 1));
    GapInCoverageIsWarning(Headline(2, 2));
  }

  /** The three outcomes of "Dual Eligibility Maze", in button order. */
  lemma DualEligibilityMazeOutcomes()
    ensures ResultCategory(Headline(3, 0)) == Negative
    ensures ResultCategory(Headline(3, 1)) == Positive
    ensures ResultCategory(Headline(3, 2)) == Neutral
  {
    RiskOfLosingCoverageIsNegative(Headline(3, 0));
    JackpotIsPositive(Headline(3, 1));
    LosingMoneyIsNeutral(Headline(3, 2));
  }

  /** The worked example: scenario 2 is "Fork in the Road"; its second choice
      leads to a neutral headline with four takeaways; the scenario after it
      is scenario 3, "Part D Panic". */
  lemma ForkInTheRoadExample()
    ensures Find(Scenarios, 2).Some?
    ensures Find(Scenarios, 2).value.title == "Fork in the Road"
    ensures Find(Scenarios, 2).value.choices[1].title == "Choose Original Medicare + Part D"
    ensures Find(Scenarios, 2).value.choices[1].outcome.result
            == "Freedom of choice, but " + "predictability issues."
    ensures |Find(Scenarios, 2).value.choices[1].outcome.keyTakeaways| == 4
    ensures ResultCategory(Find(Scenarios, 2).value.choices[1].outcome.result) == Neutral
    ensures Successor(Scenarios, Some(2)) == Some(Scenarios[2])
    ensures Scenarios[2].id == 3 && Scenarios[2].title == "Part D Panic"
  {
    CatalogIds();
    FindByUniqueId(Scenarios, 1);
    SuccessorByPosition(Scenarios, 1);
    ForkInTheRoadOutcomes();
  }
}
