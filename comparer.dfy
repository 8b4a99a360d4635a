/** The extraction scorer `ObjectComparer.compare_objects`: the percentage of
    the expected fields that an extracted output reproduces, compared as
    upper-cased strings. */
module Comparer {
  import opened Fields

  /** What an extraction produced: a field mapping, or something that is not
      a dict at all (raw text, None, a list, ...). */
  datatype Extracted = NotDict | Dict(fields: FieldMapping)

  /** Expected key `key` is reproduced by `actual`: present there, with a value
      equal to the expected one after upper-casing, that is, up to letter case. */
  predicate KeyMatches(expected: FieldMapping, actual: FieldMapping, key: string)
    ensures KeyMatches(expected, actual, key)
            <==> key in expected && key in actual && EqualIgnoringCase(actual[key], expected[key])
  {
    key in expected && key in actual
    && (UpperEqualIffEqualIgnoringCase(actual[key], expected[key]);
        Upper(actual[key]) == Upper(expected[key]))
  }

  /** The expected keys that `actual` reproduces. */
  function MatchingKeys(expected: FieldMapping, actual: FieldMapping): set<string>
  {
    set k | k in expected.Keys && KeyMatches(expected, actual, k)
  }

  lemma MatchingKeysCount(expected: FieldMapping, actual: FieldMapping)
    ensures |MatchingKeys(expected, actual)| <= |expected|
    ensures |MatchingKeys(expected, actual)| == |expected|
            <==> forall k :: k in expected ==> KeyMatches(expected, actual, k)
    ensures |MatchingKeys(expected, actual)| == 0
            <==> forall k :: k in expected ==> !KeyMatches(expected, actual, k)
  {
    var m := MatchingKeys(expected, actual);
    assert expected.Keys == m + (expected.Keys - m);
    assert |expected.Keys| == |expected|;
    if |m| == |expected| {
      assert |expected.Keys - m| == 0;
      forall k | k in expected ensures KeyMatches(expected, actual, k) {
        assert k !in expected.Keys - m;
      }
    }
    if |m| == 0 {
      forall k | k in expected ensures !KeyMatches(expected, actual, k) {
        assert k !in m;
      }
    }
    if forall k :: k in expected ==> !KeyMatches(expected, actual, k) {
      assert m == {};
    }
  }

  /** `compare_objects(extracted)` with `expected_output` as first argument. */
  function CompareObjects(expected: FieldMapping, extracted: Extracted): (score: real)
    ensures 0.0 <= score <= 100.0
    ensures extracted.NotDict? ==> score == 0.0
    ensures |expected| == 0 ==> score == 0.0
    ensures extracted.Dict? && |expected| > 0 ==>
              score * (|expected| as real) == 100.0 * (|MatchingKeys(expected, extracted.fields)| as real)
    ensures score == 100.0 <==>
              extracted.Dict? && |expected| > 0
              && forall k :: k in expected ==> KeyMatches(expected, extracted.fields, k)
    ensures score == 0.0 <==>
              extracted.NotDict?
              || forall k :: k in expected ==> !KeyMatches(expected, extracted.fields, k)
  {
    match extracted
    case NotDict => 0.0
    case Dict(actual) =>
      var totalKeys := |expected|;
      var matches := |MatchingKeys(expected, actual)|;
      MatchingKeysCount(expected, actual);
      if totalKeys > 0 then (matches as real / totalKeys as real) * 100.0 else 0.0
  }

  /** The generator `sum(1 for key, v in expected.items() if ...)`, taken over
      the expected keys in the iteration order `order`. */
  function SumMatches(expected: FieldMapping, actual: FieldMapping, order: seq<string>): (n: nat)
    ensures n <= |order|
    ensures n == 0 <==> forall i :: 0 <= i < |order| ==> !KeyMatches(expected, actual, order[i])
    ensures n == |order| <==> forall i :: 0 <= i < |order| ==> KeyMatches(expected, actual, order[i])
  {
    if order == [] then 0
    else SumMatches(expected, actual, order[..|order| - 1])
         + (if KeyMatches(expected, actual, order[|order| - 1]) then 1 else 0)
  }

  predicate Distinct(order: seq<string>)
  {
    forall i, j :: 0 <= i < j < |order| ==> order[i] != order[j]
  }

  /** Summing over a repetition-free order counts the matching keys in it. */
  lemma {:induction false} SumMatchesCounts(expected: FieldMapping, actual: FieldMapping, order: seq<string>)
    requires Distinct(order)
    ensures SumMatches(expected, actual, order)
            == |set k | k in order && KeyMatches(expected, actual, k)|
  {
    if order != [] {
      var init, last := order[..|order| - 1], order[|order| - 1];
      SumMatchesCounts(expected, actual, init);
      var before := set k | k in init && KeyMatches(expected, actual, k);
      var after := set k | k in order && KeyMatches(expected, actual, k);
      assert order == init + [last];
      assert last !in init by {
        forall i | 0 <= i < |init| ensures init[i] != last {
          assert init[i] == order[i];
        }
      }
      if KeyMatches(expected, actual, last) {
        assert after == before + {last};
      } else {
        assert after == before;
      }
    }
  }

  /** The score does not depend on the order in which the expected items are
      visited: any repetition-free enumeration of the expected keys yields
      the score `CompareObjects` computes. */
  lemma ScoreIndependentOfOrder(expected: FieldMapping, actual: FieldMapping, order: seq<string>)
    requires Distinct(order)
    requires forall k :: k in order <==> k in expected
    ensures SumMatches(expected, actual, order) == |MatchingKeys(expected, actual)|
    ensures |expected| > 0 ==>
              CompareObjects(expected, Dict(actual))
              == (SumMatches(expected, actual, order) as real / |expected| as real) * 100.0
  {
    SumMatchesCounts(expected, actual, order);
    assert (set k | k in order && KeyMatches(expected, actual, k)) == MatchingKeys(expected, actual);
  }

  /** Only the expected keys of the extracted mapping matter, and only up to
      letter case: two extractions that agree there score the same. */
  lemma OnlyExpectedKeysMatter(expected: FieldMapping, a: FieldMapping, b: FieldMapping)
    requires forall k :: k in expected ==> (k in a <==> k in b)
    requires forall k :: k in expected && k in a ==> EqualIgnoringCase(a[k], b[k])
    ensures CompareObjects(expected, Dict(a)) == CompareObjects(expected, Dict(b))
  {
    forall k | k in expected && k in a ensures Upper(a[k]) == Upper(b[k]) {
      UpperEqualIffEqualIgnoringCase(a[k], b[k]);
    }
    assert MatchingKeys(expected, a) == MatchingKeys(expected, b);
  }

  /** Keys present only in the extracted mapping do not affect the score. */
  lemma ExtraKeysIgnored(expected: FieldMapping, actual: FieldMapping, extra: FieldMapping)
    requires extra.Keys !! expected.Keys
    ensures CompareObjects(expected, Dict(actual + extra)) == CompareObjects(expected, Dict(actual))
  {
    forall k | k in expected && k in actual + extra
      ensures EqualIgnoringCase((actual + extra)[k], actual[k])
    {
      UpperEqualIffEqualIgnoringCase((actual + extra)[k], actual[k]);
    }
    OnlyExpectedKeysMatter(expected, actual + extra, actual);
  }

  /** An empty expected mapping scores 0 whatever was extracted. */
  lemma EmptyExpectedScoresZero(extracted: Extracted)
    ensures CompareObjects(map[], extracted) == 0.0
  {
  }

  /** A mismatch in letter case alone still matches. */
  lemma CaseDifferenceMatches()
    ensures CompareObjects(map["LN" := "Doe"], Dict(map["LN" := "DOE"])) == 100.0
  {
  }

  /** A missing key never matches: one of two expected fields is 50%. */
  lemma MissingKeyHalves()
    ensures CompareObjects(map["LN" := "Doe", "FN" := "John"], Dict(map["LN" := "Doe"])) == 50.0
  {
    var e := map["LN" := "Doe", "FN" := "John"];
    assert |e| == 2 by { assert e.Keys == {"LN", "FN"}; }
    assert MatchingKeys(e, map["LN" := "Doe"]) == {"LN"};
  }

  /** An extra extracted key is ignored. */
  lemma ExtraKeyStillExact()
    ensures CompareObjects(map["LN" := "Doe"], Dict(map["LN" := "Doe", "EXTRA" := "x"])) == 100.0
  {
  }
}
