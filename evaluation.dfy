/** `ObjectComparer` as an object whose `performance_results` entries are
    updated in place, and the evaluation driver that feeds it. */
module Evaluation {
  import opened Fields
  import opened Comparer
  import opened Performance

  class ObjectComparer {
    /** `expected_output`: set once by the constructor, never reassigned. */
    const expectedOutput: FieldMapping

    var totalIterations: nat
    var exactMatches: nat
    var partialMatches: seq<Extracted>
    var matchPercentages: seq<real>

    /** The extracted outputs tracked so far, oldest first. */
    ghost var tracked: seq<Extracted>

    /** The `performance_results` record as a value. */
    function Results(): PerformanceResults
      reads this
    {
      PerformanceResults(totalIterations, exactMatches, partialMatches, matchPercentages)
    }

    /** The record is exactly what tracking `tracked` from scratch yields. */
    ghost predicate Valid()
      reads this
    {
      Results() == Replay(expectedOutput, tracked)
    }

    constructor (expectedOutput: FieldMapping)
      ensures Valid()
      ensures this.expectedOutput == expectedOutput && tracked == []
      ensures totalIterations == 0 && exactMatches == 0
      ensures partialMatches == [] && matchPercentages == []
    {
      this.expectedOutput := expectedOutput;
      totalIterations, exactMatches := 0, 0;
      partialMatches, matchPercentages := [], [];
      tracked := [];
    }

    /** The invariant of the record holds in every valid state. */
    lemma ResultsInv()
      requires Valid()
      ensures Inv(expectedOutput, Results())
      ensures totalIterations == |tracked| == |matchPercentages|
      ensures exactMatches <= totalIterations
    {
      ReplayInv(expectedOutput, tracked);
      InvBounds(expectedOutput, Results());
    }

    /** `track_performance(extracted)`: one more iteration, its percentage
        appended, the exact count bumped on 100, the output kept on a partial
        score; the expected output is untouched. */
    method TrackPerformance(extracted: Extracted)
      requires Valid()
      modifies this
      ensures Valid() && tracked == old(tracked) + [extracted]
      ensures Inv(expectedOutput, Results())
      ensures totalIterations == old(totalIterations) + 1
      ensures matchPercentages == old(matchPercentages) + [CompareObjects(expectedOutput, extracted)]
      ensures exactMatches == old(exactMatches)
                              + (if CompareObjects(expectedOutput, extracted) == 100.0 then 1 else 0)
      ensures partialMatches == (if 0.0 < CompareObjects(expectedOutput, extracted) < 100.0
                                 then old(partialMatches) + [extracted] else old(partialMatches))
    {
      ghost var before := Results();
      var matchPercentage := CompareObjects(expectedOutput, extracted);
      totalIterations := totalIterations + 1;
      matchPercentages := matchPercentages + [matchPercentage];
      if matchPercentage == 100.0 {
        exactMatches := exactMatches + 1;
      }
      if 0.0 < matchPercentage < 100.0 {
        partialMatches := partialMatches + [extracted];
      }
      assert Results() == Track(expectedOutput, before, extracted);
      ReplayAppend(expectedOutput, tracked, extracted);
      tracked := tracked + [extracted];
      ResultsInv();
    }

    /** `get_performance_summary()`, without the standard deviation. */
    function GetPerformanceSummary(): (s: PerformanceSummary)
      reads this
      requires Valid()
      ensures s == Summary(Replay(expectedOutput, tracked))
      ensures s.totalIterations == |tracked|
      ensures 0.0 <= s.exactMatchRate <= 100.0 && 0.0 <= s.averageMatchPercentage <= 100.0
      ensures totalIterations == 0 ==> s.exactMatchRate == 0.0 && s.averageMatchPercentage == 0.0
    {
      ResultsInv();
      SummaryBounds(expectedOutput, Results());
      Summary(Results())
    }
  }

  /** The number of extractions `run_extraction_performance_test` performs. */
  const Iterations: nat := 10

  /** What one extraction call did: returned an output, or raised. */
  datatype Attempt = Produced(output: Extracted) | Raised

  /** How `run_extraction_performance_test` ends: with the summary of all ten
      iterations, or aborted by the exception of the extraction at
      `iteration` (0-based), after tracking the ones before it. */
  datatype RunOutcome = Completed(summary: PerformanceSummary) | Aborted(iteration: nat)

  /** The first `n` outputs of the extraction, in call order. */
  ghost function Outputs(extract: nat -> Attempt, n: nat): (outputs: seq<Extracted>)
    requires forall i :: 0 <= i < n ==> extract(i).Produced?
    ensures |outputs| == n
  {
    seq(n, i requires 0 <= i < n => extract(i).output)
  }

  /** One more successful extraction extends the outputs by its result. */
  lemma OutputsAppend(extract: nat -> Attempt, n: nat)
    requires forall i :: 0 <= i <= n ==> extract(i).Produced?
    ensures Outputs(extract, n) + [extract(n).output] == Outputs(extract, n + 1)
  {
  }

  /** `run_extraction_performance_test`: a fresh comparer, ten extractions each
      tracked as it returns, then the summary. `extract(i)` is what the i-th
      extraction call did; an exception there propagates and ends the run
      with no summary. */
  method RunExtractionPerformanceTest(expected: FieldMapping, extract: nat -> Attempt)
    returns (outcome: RunOutcome)
    ensures outcome.Aborted? <==> exists i :: 0 <= i < Iterations && extract(i).Raised?
    ensures outcome.Aborted? ==>
              outcome.iteration < Iterations && extract(outcome.iteration).Raised?
              && forall j :: 0 <= j < outcome.iteration ==> extract(j).Produced?
    ensures outcome.Completed? ==>
              (forall j :: 0 <= j < Iterations ==> extract(j).Produced?)
              && outcome.summary == Summary(Replay(expected, Outputs(extract, Iterations)))
              && outcome.summary.totalIterations == Iterations
              && 0.0 <= outcome.summary.exactMatchRate <= 100.0
              && 0.0 <= outcome.summary.averageMatchPercentage <= 100.0
  {
    var comparer := new ObjectComparer(expected);
    for i := 0 to Iterations
      invariant forall j :: 0 <= j < i ==> extract(j).Produced?
      invariant comparer.Valid() && comparer.expectedOutput == expected
      invariant comparer.tracked == Outputs(extract, i)
    {
      var attempt := extract(i);
      if attempt.Raised? {
        return Aborted(i);
      }
      comparer.TrackPerformance(attempt.output);
      OutputsAppend(extract, i);
    }
    var summary := comparer.GetPerformanceSummary();
    outcome := Completed(summary);
  }
}
