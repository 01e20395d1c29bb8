/** The expression-only logic of App.tsx: looking a scenario up by id, finding
    the scenario after the current one, and the colour category of an outcome's
    headline.  Every function takes the catalog as a parameter; the page passes
    the one constant catalog. */
module Queries {
  import opened Types

  // ---------------------------------------------------------------------------
  // Lookup by id (Array.prototype.findIndex and Array.prototype.find)
  // ---------------------------------------------------------------------------

  /** Position `i` holds the first scenario of `catalog` whose id is `id`. */
  ghost predicate FirstWithId(catalog: seq<Scenario>, i: int, id: Option<int>)
  {
    0 <= i < |catalog| && Some(catalog[i].id) == id
    && forall j :: 0 <= j < i ==> Some(catalog[j].id) != id
  }

  /** `catalog.findIndex(s => s.id === id)`: the first position whose id is `id`,
      or -1 when there is none.  An absent id (`null`) matches no scenario. */
  function FindIndex(catalog: seq<Scenario>, id: Option<int>): (r: int)
    ensures -1 <= r < |catalog|
    ensures r == -1 <==> forall j :: 0 <= j < |catalog| ==> Some(catalog[j].id) != id
    ensures r >= 0 ==> FirstWithId(catalog, r, id)
  {
    if catalog == [] then -1
    else if Some(catalog[0].id) == id then 0
    else
      var k := FindIndex(catalog[1..], id);
      if k == -1 then -1 else k + 1
  }

  /** `catalog.find(s => s.id === id)`: the first scenario with that id, or
      nothing, in which case the detail view renders nothing. */
  function Find(catalog: seq<Scenario>, id: int): (r: Option<Scenario>)
    ensures r.Some? <==> exists j :: 0 <= j < |catalog| && catalog[j].id == id
    ensures r.Some? ==> r.value.id == id
    ensures r.Some? ==> exists j :: FirstWithId(catalog, j, Some(id)) && r.value == catalog[j]
  {
    var i := FindIndex(catalog, Some(id));
    if i == -1 then None
    else
      assert FirstWithId(catalog, i, Some(id));
      Some(catalog[i])
  }

  /** The "Next Scenario" target of the outcome view: the scenario one catalog
      position after the first one whose id is `current`.  It is chosen by
      position, never by adding one to the id. */
  function Successor(catalog: seq<Scenario>, current: Option<int>): (r: Option<Scenario>)
    ensures r.Some? <==> exists i :: 0 <= i < |catalog| - 1 && Some(catalog[i].id) == current
    ensures r.Some? ==> exists i :: FirstWithId(catalog, i, current) && i < |catalog| - 1
                                  && r.value == catalog[i + 1]
  {
    var i := FindIndex(catalog, current);
    if i != -1 && i < |catalog| - 1 then
      assert FirstWithId(catalog, i, current);
      Some(catalog[i + 1])
    else None
  }

  // ---------------------------------------------------------------------------
  // Catalog invariants, and lookups in a catalog that keeps them
  // ---------------------------------------------------------------------------

  /** The ids of a catalog's scenarios, in catalog order. */
  function Ids(catalog: seq<Scenario>): (ids: seq<int>)
    ensures |ids| == |catalog|
    ensures forall i :: 0 <= i < |catalog| ==> ids[i] == catalog[i].id
  {
    if catalog == [] then [] else [catalog[0].id] + Ids(catalog[1..])
  }

  /** The ids of a scenario's choices, in button order. */
  function ChoiceIds(choices: seq<Choice>): (ids: seq<int>)
    ensures |ids| == |choices|
    ensures forall i :: 0 <= i < |choices| ==> ids[i] == choices[i].id
  {
    if choices == [] then [] else [choices[0].id] + ChoiceIds(choices[1..])
  }

  /** No two scenarios share an id. */
  ghost predicate UniqueIds(catalog: seq<Scenario>)
  {
    forall i, j :: 0 <= i < j < |catalog| ==> catalog[i].id != catalog[j].id
  }

  /** No two choices of one scenario share an id. */
  ghost predicate UniqueChoiceIds(choices: seq<Choice>)
  {
    forall a, b :: 0 <= a < b < |choices| ==> choices[a].id != choices[b].id
  }

  /** The invariants the page relies on: scenario ids are unique in the
      catalog, every scenario offers at least one choice, choice ids are unique
      within their scenario, and every outcome has at least one takeaway. */
  ghost predicate WellFormed(catalog: seq<Scenario>)
  {
    && UniqueIds(catalog)
    && forall i :: 0 <= i < |catalog| ==>
         && catalog[i].choices != []
         && UniqueChoiceIds(catalog[i].choices)
         && forall c :: 0 <= c < |catalog[i].choices| ==>
              catalog[i].choices[c].outcome.keyTakeaways != []
  }

  /** With unique ids, looking up the id of the scenario at position `i` finds
      exactly that scenario. */
  lemma FindByUniqueId(catalog: seq<Scenario>, i: int)
    requires UniqueIds(catalog)
    requires 0 <= i < |catalog|
    ensures FindIndex(catalog, Some(catalog[i].id)) == i
    ensures Find(catalog, catalog[i].id) == Some(catalog[i])
  {
    assert FirstWithId(catalog, i, Some(catalog[i].id));
  }

  /** With unique ids, the successor of the scenario at position `i` is the
      scenario at position `i + 1`, and the last scenario has none, whatever
      the ids are. */
  lemma SuccessorByPosition(catalog: seq<Scenario>, i: int)
    requires UniqueIds(catalog)
    requires 0 <= i < |catalog|
    ensures Successor(catalog, Some(catalog[i].id))
            == if i + 1 < |catalog| then Some(catalog[i + 1]) else None
  {
    FindByUniqueId(catalog, i);
  }

  /** An id that no scenario has is not found and has no successor; neither
      is a failure. */
  lemma UnknownIdFindsNothing(catalog: seq<Scenario>, id: int)
    requires forall i :: 0 <= i < |catalog| ==> catalog[i].id != id
    ensures Find(catalog, id) == None
    ensures Successor(catalog, Some(id)) == None
  {
  }

  // ---------------------------------------------------------------------------
  // Substring containment (String.prototype.includes)
  // ---------------------------------------------------------------------------

  /** `sub` occurs in `s` starting at position `i`. */
  ghost predicate OccursAt(s: string, sub: string, i: int)
  {
    0 <= i && i + |sub| <= |s| && s[i..i + |sub|] == sub
  }

  /** `sub` occurs somewhere in `s`: the meaning of `s.includes(sub)`. */
  ghost predicate HasSubstring(s: string, sub: string)
  {
    exists i :: OccursAt(s, sub, i)
  }

  /** `s.includes(sub)`, computed by trying each start position in turn;
      case-sensitive, and the empty string occurs everywhere. */
  function Contains(s: string, sub: string): (r: bool)
    ensures sub == [] ==> r
    ensures r ==> |sub| <= |s|
    decreases |s|
  {
    if |sub| > |s| then false
    else if s[..|sub|] == sub then true
    else Contains(s[1..], sub)
  }

  /** A slice of the tail is the slice of the whole shifted by one. */
  lemma SliceOfTail(s: string, i: int, j: int)
    requires 0 <= i <= j < |s|
    ensures s[1..][i..j] == s[i + 1..j + 1]
  {
    assert forall k :: 0 <= k < j - i ==> s[1..][i..j][k] == s[i + 1..j + 1][k];
  }

  /** The computed test agrees with the definition of an occurrence. */
  lemma {:induction false} ContainsMeansOccurs(s: string, sub: string)
    ensures Contains(s, sub) <==> HasSubstring(s, sub)
    decreases |s|
  {
    if |sub| > |s| {
      assert forall i :: !OccursAt(s, sub, i);
    } else if s[..|sub|] == sub {
      assert OccursAt(s, sub, 0);
    } else {
      ContainsMeansOccurs(s[1..], sub);
      if HasSubstring(s[1..], sub) {
        var i :| OccursAt(s[1..], sub, i);
        SliceOfTail(s, i, i + |sub|);
        assert OccursAt(s, sub, i + 1);
      }
      if HasSubstring(s, sub) {
        var i :| OccursAt(s, sub, i);
        assert i != 0;
        SliceOfTail(s, i - 1, i - 1 + |sub|);
        assert OccursAt(s[1..], sub, i - 1);
      }
    }
  }

  // ---------------------------------------------------------------------------
  // Outcome classification (getResultColor)
  // ---------------------------------------------------------------------------

  /** The four accents an outcome headline can take. */
  datatype Category = Positive | Negative | Warning | Neutral

  const JackpotMarker: string := "Jackpot!"
  const GoldilocksMarker: string := "smart 'Goldilocks' move!"
  const CoverageLossMarker: string := "Coverage loss!"
  const LosingCoverageMarker: string := "Risk of losing coverage"
  const GapMarker: string := "Gap in coverage!"

  /** The category of a headline: the markers are tried in a fixed order and
      the first one found decides. */
  function ResultCategory(result: string): Category
  {
    if Contains(result, JackpotMarker) || Contains(result, GoldilocksMarker) then Positive
    else if Contains(result, CoverageLossMarker) || Contains(result, LosingCoverageMarker) then Negative
    else if Contains(result, GapMarker) then Warning
    else Neutral
  }

  /** The text colour class each category selects. */
  function Accent(c: Category): string
  {
    match c
    case Positive => "text-green-600"
    case Negative => "text-red-600"
    case Warning => "text-amber-600"
    case Neutral => "text-[#273469]"
  }

  /** `getResultColor(result)`: always one of the four accent classes. */
  function ResultColor(result: string): (r: string)
    ensures r in {"text-green-600", "text-red-600", "text-amber-600", "text-[#273469]"}
  {
    Accent(ResultCategory(result))
  }

  /** The classification in terms of occurrences of the markers, each category
      given with both directions of its condition. */
  lemma ResultCategoryByOccurrence(result: string)
    ensures ResultCategory(result) == Positive <==>
              HasSubstring(result, JackpotMarker) || HasSubstring(result, GoldilocksMarker)
    ensures ResultCategory(result) == Negative <==>
              !HasSubstring(result, JackpotMarker) && !HasSubstring(result, GoldilocksMarker)
              && (HasSubstring(result, CoverageLossMarker) || HasSubstring(result, LosingCoverageMarker))
    ensures ResultCategory(result) == Warning <==>
              !HasSubstring(result, JackpotMarker) && !HasSubstring(result, GoldilocksMarker)
              && !HasSubstring(result, CoverageLossMarker) && !HasSubstring(result, LosingCoverageMarker)
              && HasSubstring(result, GapMarker)
    ensures ResultCategory(result) == Neutral <==>
              !HasSubstring(result, JackpotMarker) && !HasSubstring(result, GoldilocksMarker)
              && !HasSubstring(result, CoverageLossMarker) && !HasSubstring(result, LosingCoverageMarker)
              && !HasSubstring(result, GapMarker)
  {
    ContainsMeansOccurs(result, JackpotMarker);
    ContainsMeansOccurs(result, GoldilocksMarker);
    ContainsMeansOccurs(result, CoverageLossMarker);
    ContainsMeansOccurs(result, LosingCoverageMarker);
    ContainsMeansOccurs(result, GapMarker);
  }

  /** Each colour class is selected by exactly one category. */
  lemma ResultColorByCategory(result: string)
    ensures ResultColor(result) == "text-green-600" <==> ResultCategory(result) == Positive
    ensures ResultColor(result) == "text-red-600" <==> ResultCategory(result) == Negative
    ensures ResultColor(result) == "text-amber-600" <==> ResultCategory(result) == Warning
    ensures ResultColor(result) == "text-[#273469]" <==> ResultCategory(result) == Neutral
  {
    var green, red, amber, navy := "text-green-600", "text-red-600", "text-amber-600", "text-[#273469]";
    assert green[5] == 'g' && amber[5] == 'a' && navy[5] == '[';
    assert |red| == 12 && |green| == 14 && |navy| == 14;
  }

  /** First match wins: a headline holding a positive marker is positive
      whatever else it holds. */
  lemma PositiveMarkerWins(result: string)
    requires HasSubstring(result, JackpotMarker) || HasSubstring(result, GoldilocksMarker)
    ensures ResultCategory(result) == Positive
    ensures ResultColor(result) == "text-green-600"
  {
    ResultCategoryByOccurrence(result);
  }

  /** Appending text to a headline never demotes a positive one. */
  lemma {:induction false} PositiveIsStableUnderAppend(result: string, suffix: string)
    requires ResultCategory(result) == Positive
    ensures ResultCategory(result + suffix) == Positive
  {
    ResultCategoryByOccurrence(result);
    ResultCategoryByOccurrence(result + suffix);
    if HasSubstring(result, JackpotMarker) {
      var i :| OccursAt(result, JackpotMarker, i);
      assert (result + suffix)[i..i + |JackpotMarker|] == result[i..i + |JackpotMarker|];
      assert OccursAt(result + suffix, JackpotMarker, i);
    } else {
      var i :| OccursAt(result, GoldilocksMarker, i);
      assert (result + suffix)[i..i + |GoldilocksMarker|] == result[i..i + |GoldilocksMarker|];
      assert OccursAt(result + suffix, GoldilocksMarker, i);
    }
  }

  /** `sub` cannot occur in `s` when one of its letters is missing from `s`. */
  lemma MissingLetter(s: string, sub: string, k: int)
    requires 0 <= k < |sub|
    requires sub[k] !in s
    ensures !Contains(s, sub)
  {
    forall i | 0 <= i && i + |sub| <= |s|
      ensures !OccursAt(s, sub, i)
    {
      assert s[i..i + |sub|][k] == s[i + k];
    }
    ContainsMeansOccurs(s, sub);
  }

  /** `sub` is found once it is seen at position `i`. */
  lemma FoundAt(s: string, sub: string, i: int)
    requires OccursAt(s, sub, i)
    ensures Contains(s, sub)
  {
    ContainsMeansOccurs(s, sub);
  }

  /** The category follows from which markers a headline holds. */
  lemma CategoryOfMarkers(result: string, jackpot: bool, goldilocks: bool,
                          coverageLoss: bool, losingCoverage: bool, gap: bool)
    requires Contains(result, JackpotMarker) == jackpot
    requires Contains(result, GoldilocksMarker) == goldilocks
    requires Contains(result, CoverageLossMarker) == coverageLoss
    requires Contains(result, LosingCoverageMarker) == losingCoverage
    requires Contains(result, GapMarker) == gap
    ensures ResultCategory(result) ==
              if jackpot || goldilocks then Positive
              else if coverageLoss || losingCoverage then Negative
              else if gap then Warning
              else Neutral
  {
  }

  /** A headline with neither an exclamation mark nor a capital R holds no
      marker, so it is neutral. */
  lemma NeutralWithoutMarkerLetters(result: string)
    requires '!' !in result && 'R' !in result
    ensures ResultCategory(result) == Neutral
  {
    MissingLetter(result, JackpotMarker, 7);
    MissingLetter(result, GoldilocksMarker, 23);
    MissingLetter(result, CoverageLossMarker, 13);
    MissingLetter(result, LosingCoverageMarker, 0);
    MissingLetter(result, GapMarker, 15);
    CategoryOfMarkers(result, false, false, false, false, false);
  }

  /** A headline with no letter `c` in either case holds no marker: every
      marker but "Coverage loss!" has a lower-case `c`, and that one an upper-case. */
  lemma NeutralWithoutLetterC(result: string)
    requires 'c' !in result && 'C' !in result
    ensures ResultCategory(result) == Neutral
  {
    MissingLetter(result, JackpotMarker, 2);
    MissingLetter(result, GoldilocksMarker, 14);
    MissingLetter(result, CoverageLossMarker, 0);
    MissingLetter(result, LosingCoverageMarker, 15);
    MissingLetter(result, GapMarker, 7);
    CategoryOfMarkers(result, false, false, false, false, false);
  }

  /** A headline with a coverage-loss marker and neither `J` nor `G` (so no
      positive marker) is negative. */
  lemma NegativeWithoutPositiveLetters(result: string)
    requires 'J' !in result && 'G' !in result
    requires Contains(result, CoverageLossMarker) || Contains(result, LosingCoverageMarker)
    ensures ResultCategory(result) == Negative
  {
    MissingLetter(result, JackpotMarker, 0);
    MissingLetter(result, GoldilocksMarker, 7);
  }

  /** A headline with the gap marker and none of the letters that open or
      mark the four earlier markers is a warning. */
  lemma WarningWithoutEarlierMarkerLetters(result: string)
    requires 'J' !in result && '\'' !in result && 'C' !in result && 'R' !in result
    requires Contains(result, GapMarker)
    ensures ResultCategory(result) == Warning
  {
    MissingLetter(result, JackpotMarker, 0);
    MissingLetter(result, GoldilocksMarker, 6);
    MissingLetter(result, CoverageLossMarker, 0);
    MissingLetter(result, LosingCoverageMarker, 0);
  }
}
