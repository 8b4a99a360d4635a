/** The `performance_results` record of `ObjectComparer`, the step that
    `track_performance` applies to it, and the summary that
    `get_performance_summary` derives from it, as values. */
module Performance {
  import opened Fields
  import opened Comparer

  /** The four entries of `performance_results`. */
  datatype PerformanceResults = PerformanceResults(
    totalIterations: nat,
    exactMatches: nat,
    partialMatches: seq<Extracted>,
    matchPercentages: seq<real>)

  /** What `get_performance_summary` returns (without the standard deviation). */
  datatype PerformanceSummary = PerformanceSummary(
    totalIterations: nat,
    exactMatchRate: real,
    averageMatchPercentage: real)

  /** The record as `__init__` sets it up. */
  function InitialResults(): (r: PerformanceResults)
    ensures r.totalIterations == 0 && r.matchPercentages == []
    ensures forall expected :: Inv(expected, r)
  {
    PerformanceResults(0, 0, [], [])
  }

  /** One `track_performance(extracted)` applied to the record `r`: one more
      iteration and percentage, at most one more exact match, and at most the
      output itself added to the partial matches. */
  function Track(expected: FieldMapping, r: PerformanceResults, extracted: Extracted): (t: PerformanceResults)
    ensures t.totalIterations == r.totalIterations + 1
    ensures t.matchPercentages == r.matchPercentages + [CompareObjects(expected, extracted)]
    ensures t.exactMatches == r.exactMatches || t.exactMatches == r.exactMatches + 1
    ensures t.partialMatches == r.partialMatches || t.partialMatches == r.partialMatches + [extracted]
  {
    var matchPercentage := CompareObjects(expected, extracted);
    PerformanceResults(
      r.totalIterations + 1,
      if matchPercentage == 100.0 then r.exactMatches + 1 else r.exactMatches,
      if 0.0 < matchPercentage < 100.0 then r.partialMatches + [extracted] else r.partialMatches,
      r.matchPercentages + [matchPercentage])
  }

  /** What one tracking step records, in terms of the fields: the exact count
      grows exactly when every expected field was reproduced, and the output
      is kept as partial exactly when it is a dict reproducing some but not
      all expected fields. */
  lemma TrackClassifies(expected: FieldMapping, r: PerformanceResults, extracted: Extracted)
    ensures Track(expected, r, extracted).exactMatches == r.exactMatches + 1
            <==> extracted.Dict? && |expected| > 0
                 && forall k :: k in expected ==> KeyMatches(expected, extracted.fields, k)
    ensures Track(expected, r, extracted).partialMatches == r.partialMatches + [extracted]
            <==> extracted.Dict?
                 && (exists k :: k in expected && KeyMatches(expected, extracted.fields, k))
                 && (exists k :: k in expected && !KeyMatches(expected, extracted.fields, k))
  {
  }

  /** The record after tracking `history`, oldest first, from a fresh start. */
  function Replay(expected: FieldMapping, history: seq<Extracted>): PerformanceResults
  {
    if history == [] then InitialResults()
    else Track(expected, Replay(expected, history[..|history| - 1]), history[|history| - 1])
  }

  /** Tracking one more output extends the record by one step. */
  lemma ReplayAppend(expected: FieldMapping, history: seq<Extracted>, extracted: Extracted)
    ensures Replay(expected, history + [extracted]) == Track(expected, Replay(expected, history), extracted)
  {
  }

  /** How many recorded percentages are exactly 100. */
  function CountExact(ps: seq<real>): (n: nat)
    ensures n <= |ps|
  {
    if ps == [] then 0
    else CountExact(ps[..|ps| - 1]) + (if ps[|ps| - 1] == 100.0 then 1 else 0)
  }

  /** How many recorded percentages lie strictly between 0 and 100. */
  function CountPartial(ps: seq<real>): (n: nat)
    ensures n + CountExact(ps) <= |ps|
  {
    if ps == [] then 0
    else CountPartial(ps[..|ps| - 1]) + (if 0.0 < ps[|ps| - 1] < 100.0 then 1 else 0)
  }

  /** The invariant of `performance_results`: one percentage per iteration,
      each in [0, 100]; `exact_matches` counts the 100s; `partial_matches`
      holds one dict per percentage strictly between 0 and 100, each of which
      scores strictly between 0 and 100. */
  ghost predicate Inv(expected: FieldMapping, r: PerformanceResults)
  {
    && |r.matchPercentages| == r.totalIterations
    && (forall i :: 0 <= i < |r.matchPercentages| ==> 0.0 <= r.matchPercentages[i] <= 100.0)
    && r.exactMatches == CountExact(r.matchPercentages)
    && |r.partialMatches| == CountPartial(r.matchPercentages)
    && (forall x :: x in r.partialMatches ==>
          x.Dict? && 0.0 < CompareObjects(expected, x) < 100.0)
  }

  /** `track_performance` preserves the invariant. */
  lemma TrackPreservesInv(expected: FieldMapping, r: PerformanceResults, extracted: Extracted)
    requires Inv(expected, r)
    ensures Inv(expected, Track(expected, r, extracted))
  {
  }

  /** Every record reachable by tracking satisfies the invariant, and the
      iteration count is the number of outputs tracked. */
  lemma {:induction false} ReplayInv(expected: FieldMapping, history: seq<Extracted>)
    ensures Inv(expected, Replay(expected, history))
    ensures Replay(expected, history).totalIterations == |history|
  {
    if history != [] {
      ReplayInv(expected, history[..|history| - 1]);
      TrackPreservesInv(expected, Replay(expected, history[..|history| - 1]), history[|history| - 1]);
    }
  }

  /** The i-th recorded percentage is the score of the i-th tracked output. */
  lemma {:induction false} ReplayPercentages(expected: FieldMapping, history: seq<Extracted>)
    ensures |Replay(expected, history).matchPercentages| == |history|
    ensures forall i :: 0 <= i < |history| ==>
              Replay(expected, history).matchPercentages[i] == CompareObjects(expected, history[i])
  {
    if history != [] {
      ReplayPercentages(expected, history[..|history| - 1]);
    }
  }

  /** Under the invariant, exact and partial results never outnumber the
      iterations, and 0% and 100% outputs are never kept as partial. */
  lemma InvBounds(expected: FieldMapping, r: PerformanceResults)
    requires Inv(expected, r)
    ensures r.exactMatches <= r.totalIterations
    ensures r.exactMatches + |r.partialMatches| <= r.totalIterations
    ensures forall x :: x in r.partialMatches ==>
              CompareObjects(expected, x) != 0.0 && CompareObjects(expected, x) != 100.0
  {
  }

  function Sum(ps: seq<real>): real
  {
    if ps == [] then 0.0 else Sum(ps[..|ps| - 1]) + ps[|ps| - 1]
  }

  /** `np.mean` of a non-empty list. */
  function Mean(ps: seq<real>): (m: real)
    requires |ps| > 0
    ensures m * |ps| as real == Sum(ps)
  {
    Sum(ps) / |ps| as real
  }

  lemma {:induction false} SumBounds(ps: seq<real>)
    requires forall i :: 0 <= i < |ps| ==> 0.0 <= ps[i] <= 100.0
    ensures 0.0 <= Sum(ps) <= 100.0 * |ps| as real
  {
    if ps != [] {
      SumBounds(ps[..|ps| - 1]);
    }
  }

  /** A mean of percentages is a percentage. */
  lemma MeanBounds(ps: seq<real>)
    requires |ps| > 0
    requires forall i :: 0 <= i < |ps| ==> 0.0 <= ps[i] <= 100.0
    ensures 0.0 <= Mean(ps) <= 100.0
  {
    SumBounds(ps);
  }

  /** `get_performance_summary`: the rates default to 0 when nothing was tracked. */
  function Summary(r: PerformanceResults): (s: PerformanceSummary)
    ensures s.totalIterations == r.totalIterations
    ensures r.totalIterations == 0 ==> s.exactMatchRate == 0.0
    ensures r.matchPercentages == [] ==> s.averageMatchPercentage == 0.0
  {
    PerformanceSummary(
      r.totalIterations,
      if r.totalIterations > 0
      then (r.exactMatches as real / r.totalIterations as real) * 100.0 else 0.0,
      if |r.matchPercentages| > 0 then Mean(r.matchPercentages) else 0.0)
  }

  /** A fresh record summarises to zeros, with no division performed. */
  lemma SummaryOfInitial()
    ensures Summary(InitialResults()) == PerformanceSummary(0, 0.0, 0.0)
  {
  }

  /** Under the invariant both rates are percentages; the exact-match rate is
      `100 * exact / total` and the average is the mean of all percentages. */
  lemma SummaryBounds(expected: FieldMapping, r: PerformanceResults)
    requires Inv(expected, r)
    ensures 0.0 <= Summary(r).exactMatchRate <= 100.0
    ensures 0.0 <= Summary(r).averageMatchPercentage <= 100.0
    ensures r.totalIterations > 0 ==>
              Summary(r).exactMatchRate * r.totalIterations as real == 100.0 * r.exactMatches as real
    ensures r.totalIterations > 0 ==>
              Summary(r).averageMatchPercentage * r.totalIterations as real == Sum(r.matchPercentages)
  {
    if r.totalIterations > 0 {
      InvBounds(expected, r);
      RateBounds(r.exactMatches, r.totalIterations);
      MeanBounds(r.matchPercentages);
    }
  }

  /** `exact / total * 100` with `exact <= total` is a percentage. */
  lemma RateBounds(exact: nat, total: nat)
    requires 0 < total && exact <= total
    ensures 0.0 <= (exact as real / total as real) * 100.0 <= 100.0
    ensures (exact as real / total as real) * 100.0 * total as real == 100.0 * exact as real
  {
    var e, t := exact as real, total as real;
    assert e / t <= 1.0;
  }

  lemma {:induction false} CountExactAll(ps: seq<real>)
    ensures CountExact(ps) == |ps| <==> forall i :: 0 <= i < |ps| ==> ps[i] == 100.0
  {
    if ps != [] {
      var init := ps[..|ps| - 1];
      CountExactAll(init);
      assert forall i :: 0 <= i < |init| ==> init[i] == ps[i];
    }
  }

  /** A run has a 100% exact-match rate exactly when every tracked output
      reproduced every expected field. */
  lemma ExactRateFullIffAllExact(expected: FieldMapping, history: seq<Extracted>)
    requires |history| > 0
    ensures Summary(Replay(expected, history)).exactMatchRate == 100.0
            <==> forall i :: 0 <= i < |history| ==> CompareObjects(expected, history[i]) == 100.0
  {
    var r := Replay(expected, history);
    ReplayInv(expected, history);
    ReplayPercentages(expected, history);
    CountExactAll(r.matchPercentages);
    FullRateIff(r.exactMatches, r.totalIterations);
  }

  lemma FullRateIff(exact: nat, total: nat)
    requires total > 0
    ensures (exact as real / total as real) * 100.0 == 100.0 <==> exact == total
  {
  }

  /** Outputs that are not dicts (raw model text, None) score 0 every time:
      such a run records only zeros and keeps no partial matches. */
  lemma {:induction false} NonDictRunRecordsZeros(expected: FieldMapping, history: seq<Extracted>)
    requires forall i :: 0 <= i < |history| ==> history[i].NotDict?
    ensures Replay(expected, history)
            == PerformanceResults(|history|, 0, [], seq(|history|, i => 0.0))
  {
    if history != [] {
      var init, last := history[..|history| - 1], history[|history| - 1];
      assert forall i :: 0 <= i < |init| ==> init[i] == history[i];
      NonDictRunRecordsZeros(expected, init);
      assert history == init + [last];
      ReplayAppend(expected, init, last);
      TrackZero(expected, Replay(expected, init), last);
      assert seq(|init|, i => 0.0) + [0.0] == seq(|history|, i => 0.0);
    }
  }

  /** A run of non-dict outputs summarises to no exact matches and a 0 average. */
  lemma NonDictRunScoresZero(expected: FieldMapping, history: seq<Extracted>)
    requires forall i :: 0 <= i < |history| ==> history[i].NotDict?
    ensures Summary(Replay(expected, history)) == PerformanceSummary(|history|, 0.0, 0.0)
  {
    NonDictRunRecordsZeros(expected, history);
    SummaryOfZeros(|history|);
  }

  /** Tracking an output that is not a dict records a 0 and nothing else. */
  lemma TrackZero(expected: FieldMapping, r: PerformanceResults, extracted: Extracted)
    requires extracted.NotDict?
    ensures Track(expected, r, extracted)
            == PerformanceResults(r.totalIterations + 1, r.exactMatches, r.partialMatches, r.matchPercentages + [0.0])
  {
  }

  lemma SummaryOfZeros(n: nat)
    ensures Summary(PerformanceResults(n, 0, [], seq(n, i => 0.0))) == PerformanceSummary(n, 0.0, 0.0)
  {
    SumZeros(n);
    if n > 0 {
      assert Mean(seq(n, i => 0.0)) == 0.0;
    }
  }

  lemma {:induction false} SumZeros(n: nat)
    ensures Sum(seq(n, i => 0.0)) == 0.0
  {
    if n > 0 {
      assert seq(n, i => 0.0)[..n - 1] == seq(n - 1, i => 0.0);
      SumZeros(n - 1);
    }
  }

  const BenjaminFranklin: FieldMapping := map["LN" := "BENJAMIN", "FN" := "FRANKLIN"]
  const ExactOutput: Extracted := Dict(map["LN" := "BENJAMIN", "FN" := "FRANKLIN"])
  const HalfOutput: Extracted := Dict(map["LN" := "benjamin", "FN" := "WRONG"])

  lemma ScenarioScores()
    ensures CompareObjects(BenjaminFranklin, ExactOutput) == 100.0
    ensures CompareObjects(BenjaminFranklin, HalfOutput) == 50.0
  {
    assert |BenjaminFranklin| == 2 by { assert BenjaminFranklin.Keys == {"LN", "FN"}; }
    assert Upper("benjamin") == Upper("BENJAMIN");
    assert MatchingKeys(BenjaminFranklin, HalfOutput.fields) == {"LN"};
  }

  /** Five iterations scoring 100, 50, 100, 50, 50: two exact matches, a 40%
      exact-match rate and a 70% average; the three half matches are kept. */
  lemma FiveIterationScenario()
    ensures Replay(BenjaminFranklin, [ExactOutput, HalfOutput, ExactOutput, HalfOutput, HalfOutput])
            == PerformanceResults(5, 2, [HalfOutput, HalfOutput, HalfOutput], [100.0, 50.0, 100.0, 50.0, 50.0])
    ensures Summary(Replay(BenjaminFranklin, [ExactOutput, HalfOutput, ExactOutput, HalfOutput, HalfOutput]))
            == PerformanceSummary(5, 40.0, 70.0)
  {
    ScenarioScores();
    var e := BenjaminFranklin;
    var h1 := [ExactOutput];
    var h2 := h1 + [HalfOutput];
    var h3 := h2 + [ExactOutput];
    var h4 := h3 + [HalfOutput];
    var h5 := h4 + [HalfOutput];
    ReplayAppend(e, [], ExactOutput);
    ReplayAppend(e, h1, HalfOutput);
    ReplayAppend(e, h2, ExactOutput);
    ReplayAppend(e, h3, HalfOutput);
    ReplayAppend(e, h4, HalfOutput);
    assert [] + [ExactOutput] == h1;
    var r5 := PerformanceResults(5, 2, [HalfOutput, HalfOutput, HalfOutput], [100.0, 50.0, 100.0, 50.0, 50.0]);
    assert Replay(e, h5) == r5;
    assert h5 == [ExactOutput, HalfOutput, ExactOutput, HalfOutput, HalfOutput];
    SumFive(r5.matchPercentages);
  }

  lemma SumFive(ps: seq<real>)
    requires ps == [100.0, 50.0, 100.0, 50.0, 50.0]
    ensures Sum(ps) == 350.0
  {
    assert [100.0][..0] == [];
    assert Sum([100.0]) == 100.0;
    assert [100.0, 50.0][..1] == [100.0];
    assert Sum([100.0, 50.0]) == 150.0;
    assert [100.0, 50.0, 100.0][..2] == [100.0, 50.0];
    assert Sum([100.0, 50.0, 100.0]) == 250.0;
    assert [100.0, 50.0, 100.0, 50.0][..3] == [100.0, 50.0, 100.0];
    assert Sum([100.0, 50.0, 100.0, 50.0]) == 300.0;
    assert ps[..4] == [100.0, 50.0, 100.0, 50.0];
  }
}
