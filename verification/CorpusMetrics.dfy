/** Corpus classification metrics and their micro-average over journeys. */
module CorpusMetrics {

  /** A metric key is a tuple of texts whose first component is the journey. */
  type MetricKey = k: seq<string> | k != [] witness [""]

  datatype Metrics = Metrics(
    expected: nat, actual: nat, truePositive: nat, falsePositive: nat, falseNegative: nat,
    precision: real, recall: real, f1: real)

  function Ratio(a: nat, b: nat): real
    requires b > 0
  {
    a as real / b as real
  }

  function Precision(tp: nat, expected: nat, actual: nat): real {
    if actual > 0 then Ratio(tp, actual) else if expected == 0 then 1.0 else 0.0
  }

  function Recall(tp: nat, expected: nat): real {
    if expected > 0 then Ratio(tp, expected) else 1.0
  }

  function F1(precision: real, recall: real): real {
    if precision + recall != 0.0 then 2.0 * precision * recall / (precision + recall) else 0.0
  }

  function Rated(expected: nat, actual: nat, tp: nat, fp: nat, fn: nat): Metrics {
    var p, r := Precision(tp, expected, actual), Recall(tp, expected);
    Metrics(expected, actual, tp, fp, fn, p, r, F1(p, r))
  }

  function Classification(expected: set<MetricKey>, actual: set<MetricKey>): Metrics {
    Rated(|expected|, |actual|, |expected * actual|, |actual - expected|, |expected - actual|)
  }

  datatype Tally = Tally(expected: nat, actual: nat, truePositive: nat, falsePositive: nat, falseNegative: nat)

  function Tallied(items: seq<Metrics>): Tally {
    if items == [] then Tally(0, 0, 0, 0, 0)
    else
      var t, m := Tallied(items[..|items| - 1]), items[|items| - 1];
      Tally(t.expected + m.expected, t.actual + m.actual, t.truePositive + m.truePositive,
            t.falsePositive + m.falsePositive, t.falseNegative + m.falseNegative)
  }

  function SumClassifications(items: seq<Metrics>): Metrics {
    var t := Tallied(items);
    Rated(t.expected, t.actual, t.truePositive, t.falsePositive, t.falseNegative)
  }

  // ----- Journeys and their tagged key sets

  datatype JourneyKeys = JourneyKeys(journey: string, expected: set<MetricKey>, actual: set<MetricKey>)

  /** Every key a journey contributes carries the journey's own id. */
  predicate IsTagged(j: JourneyKeys) {
    forall k :: k in j.expected + j.actual ==> k[0] == j.journey
  }

  predicate WellTagged(journeys: seq<JourneyKeys>) {
    (forall i :: 0 <= i < |journeys| ==> IsTagged(journeys[i]))
    && forall i, j :: 0 <= i < j < |journeys| ==> journeys[i].journey != journeys[j].journey
  }

  function Classified(journeys: seq<JourneyKeys>): seq<Metrics> {
    seq(|journeys|, i requires 0 <= i < |journeys| => Classification(journeys[i].expected, journeys[i].actual))
  }

  function ExpectedSets(journeys: seq<JourneyKeys>): seq<set<MetricKey>> {
    seq(|journeys|, i requires 0 <= i < |journeys| => journeys[i].expected)
  }

  function ActualSets(journeys: seq<JourneyKeys>): seq<set<MetricKey>> {
    seq(|journeys|, i requires 0 <= i < |journeys| => journeys[i].actual)
  }

  function Union(sets: seq<set<MetricKey>>): set<MetricKey> {
    if sets == [] then {} else Union(sets[..|sets| - 1]) + sets[|sets| - 1]
  }

  // ----- Laws of one classification

  lemma SplitCardinality(a: set<MetricKey>, b: set<MetricKey>)
    ensures |a * b| + |a - b| == |a|
  {
    assert a == (a * b) + (a - b);
    assert (a * b) * (a - b) == {};
  }

  /** Positives and negatives add up: tp + fp = actual and tp + fn = expected. */
  lemma CountsAddUp(expected: set<MetricKey>, actual: set<MetricKey>)
    ensures var m := Classification(expected, actual);
      m.truePositive + m.falsePositive == m.actual && m.truePositive + m.falseNegative == m.expected
  {
    SplitCardinality(expected, actual);
    SplitCardinality(actual, expected);
    assert expected * actual == actual * expected;
  }

  /** Rates in their own terms: precision is the share of the actual, recall that of the expected that
      is right; with nothing actual precision is 1 only if nothing was expected, and with nothing
      expected recall is 1. */
  lemma RatesMean(expected: nat, actual: nat, tp: nat, fp: nat, fn: nat)
    ensures var m := Rated(expected, actual, tp, fp, fn);
      && m.expected == expected && m.actual == actual
      && m.truePositive == tp && m.falsePositive == fp && m.falseNegative == fn
      && (actual > 0 ==> m.precision * actual as real == tp as real)
      && (actual == 0 ==> m.precision == if expected == 0 then 1.0 else 0.0)
      && (if expected > 0 then m.recall * expected as real == tp as real else m.recall == 1.0)
      && m.f1 * (m.precision + m.recall) == 2.0 * m.precision * m.recall
  {
    if actual > 0 {
      RatioBounds(tp, actual);
    }
    if expected > 0 {
      RatioBounds(tp, expected);
    }
    hide Ratio;
    var p, r := Precision(tp, expected, actual), Recall(tp, expected);
    PrecisionSign(expected, actual, tp);
    hide Precision, Recall;
    if p + r != 0.0 {
      F1Scaled(p, r);
    } else {
      assert p == 0.0 && r == 0.0;
    }
  }

  lemma PrecisionSign(expected: nat, actual: nat, tp: nat)
    ensures Precision(tp, expected, actual) >= 0.0 && Recall(tp, expected) >= 0.0
  {
    if actual > 0 {
      RatioBounds(tp, actual);
    }
    if expected > 0 {
      RatioBounds(tp, expected);
    }
  }

  /** The counts of a classification are those of the sets. */
  lemma ClassificationMeans(expected: set<MetricKey>, actual: set<MetricKey>)
    ensures var m := Classification(expected, actual);
      && m.expected == |expected| && m.actual == |actual|
      && m.truePositive == |set k | k in expected && k in actual|
      && m.falsePositive == |set k | k in actual && k !in expected|
      && m.falseNegative == |set k | k in expected && k !in actual|
      && m == Rated(|expected|, |actual|, m.truePositive, m.falsePositive, m.falseNegative)
  {
    assert (set k | k in expected && k in actual) == expected * actual;
    assert (set k | k in actual && k !in expected) == actual - expected;
    assert (set k | k in expected && k !in actual) == expected - actual;
  }

  lemma RatioBounds(a: nat, b: nat)
    requires b > 0
    ensures Ratio(a, b) >= 0.0 && (a <= b ==> Ratio(a, b) <= 1.0) && (a > 0 ==> Ratio(a, b) > 0.0)
    ensures Ratio(a, b) * b as real == a as real
  {
  }

  /** F1 lies between the smaller and the larger of precision and recall. */
  lemma F1Between(p: real, r: real)
    requires p >= 0.0 && r >= 0.0
    ensures (if p <= r then p else r) <= F1(p, r) <= (if p <= r then r else p)
  {
    if p + r != 0.0 {
      F1Scaled(p, r);
      if p <= r {
        HarmonicBounds(p, r, F1(p, r), p + r);
      } else {
        assert 2.0 * p * r == 2.0 * r * p;
        HarmonicBounds(r, p, F1(p, r), p + r);
      }
    }
  }

  lemma F1Scaled(p: real, r: real)
    requires p + r != 0.0
    ensures F1(p, r) * (p + r) == 2.0 * p * r
  {
  }

  lemma HarmonicBounds(lo: real, hi: real, f: real, s: real)
    requires 0.0 <= lo <= hi && s == lo + hi && s > 0.0 && f * s == 2.0 * lo * hi
    ensures lo <= f <= hi
  {
    var product := lo * hi;
    Squares(lo, hi);
    Sums(lo, hi, s);
    assert 2.0 * lo * hi == 2.0 * product by { Reassociate(lo, hi); }
    assert lo * s <= f * s <= hi * s;
    Unscale(lo, f, s);
    Unscale(f, hi, s);
  }

  lemma Squares(lo: real, hi: real)
    requires 0.0 <= lo <= hi
    ensures lo * lo <= lo * hi <= hi * hi
  {
    ScaleReal(lo, hi, lo);
    ScaleReal(lo, hi, hi);
  }

  lemma Sums(lo: real, hi: real, s: real)
    requires s == lo + hi
    ensures lo * s == lo * lo + lo * hi && hi * s == lo * hi + hi * hi
  {
  }

  lemma Reassociate(a: real, b: real)
    ensures 2.0 * a * b == 2.0 * (a * b)
  {
  }

  lemma Unscale(a: real, b: real, c: real)
    requires c > 0.0 && a * c <= b * c
    ensures a <= b
  {
    if b < a {
      StrictScale(b, a, c);
    }
  }

  lemma ScaleReal(a: real, b: real, c: real)
    requires a <= b && c >= 0.0
    ensures a * c <= b * c
  {
  }

  lemma StrictScale(a: real, b: real, c: real)
    requires a < b && c > 0.0
    ensures a * c < b * c
  {
  }

  lemma NothingRight(expected: nat, actual: nat)
    requires expected + actual > 0
    ensures F1(Precision(0, expected, actual), Recall(0, expected)) == 0.0
  {
  }

  /** F1 of any tally with some expectation or prediction is the Dice ratio 2tp / (expected + actual). */
  lemma F1IsDice(expected: nat, actual: nat, tp: nat, fp: nat, fn: nat)
    requires tp <= expected && tp <= actual && expected + actual > 0
    ensures Rated(expected, actual, tp, fp, fn).f1 == (2 * tp) as real / (expected + actual) as real
  {
    if tp == 0 {
      NothingRight(expected, actual);
    } else {
      RatioBounds(tp, actual);
      RatioBounds(tp, expected);
      hide F1, Ratio;
      DiceRatio(Ratio(tp, actual), Ratio(tp, expected), tp as real, actual as real, expected as real);
      assert (2 * tp) as real == 2.0 * (tp as real) && (expected + actual) as real == expected as real + actual as real;
    }
  }

  lemma DiceRatio(p: real, r: real, t: real, a: real, e: real)
    requires p > 0.0 && r > 0.0 && a > 0.0 && e > 0.0 && t > 0.0 && p * a == t && r * e == t
    ensures F1(p, r) == 2.0 * t / (e + a)
  {
    var f := F1(p, r);
    F1Scaled(p, r);
    hide F1;
    Exchange(p, r, t, a, e);
    // p r (e + a) = t (p + r), so f (p + r) (e + a) = 2 t (p + r)
    assert f * (p + r) * (e + a) == 2.0 * t * (p + r) by {
      Associate(f * (p + r), 2.0 * p * r, e + a);
      assert 2.0 * p * r * (e + a) == 2.0 * (p * r * (e + a));
    }
    assert (f * (e + a)) * (p + r) == (2.0 * t) * (p + r);
    Cancel(f * (e + a), 2.0 * t, p + r);
    assert f == 2.0 * t / (e + a);
  }

  lemma Associate(x: real, y: real, c: real)
    requires x == y
    ensures x * c == y * c
  {
  }

  lemma Exchange(p: real, r: real, t: real, a: real, e: real)
    requires p * a == t && r * e == t
    ensures p * r * (e + a) == t * (p + r)
  {
    assert p * r * e == p * (r * e) && p * r * a == r * (p * a);
  }

  lemma Cancel(x: real, y: real, c: real)
    requires c > 0.0 && x * c == y * c
    ensures x == y
  {
    if x < y {
      StrictScale(x, y, c);
    } else if x > y {
      StrictScale(y, x, c);
    }
  }

  // ----- Micro-averaging

  lemma CardinalitySum(x: set<MetricKey>, y: set<MetricKey>)
    requires x !! y
    ensures |x + y| == |x| + |y|
  {
  }

  function Total(sets: seq<set<MetricKey>>): nat {
    if sets == [] then 0 else Total(sets[..|sets| - 1]) + |sets[|sets| - 1]|
  }

  /** How many keys sets of equal position have in common. */
  function Hits(left: seq<set<MetricKey>>, right: seq<set<MetricKey>>): nat
    requires |left| == |right|
  {
    if left == [] then 0
    else Hits(left[..|left| - 1], right[..|right| - 1]) + |left[|left| - 1] * right[|right| - 1]|
  }

  predicate PairwiseApart(sets: seq<set<MetricKey>>) {
    forall i, j :: 0 <= i < j < |sets| ==> sets[i] !! sets[j]
  }

  /** Sets of different positions have nothing in common. */
  predicate CrossApart(left: seq<set<MetricKey>>, right: seq<set<MetricKey>>)
    requires |left| == |right|
  {
    forall i, j :: 0 <= i < |left| && 0 <= j < |left| && i != j ==> left[i] !! right[j]
  }

  lemma {:induction false} UnionApart(sets: seq<set<MetricKey>>, s: set<MetricKey>)
    ensures Union(sets) !! s <==> forall i :: 0 <= i < |sets| ==> sets[i] !! s
  {
    if sets != [] {
      UnionApart(sets[..|sets| - 1], s);
    }
  }

  lemma SumOverlap(x: set<MetricKey>, y: set<MetricKey>)
    ensures |x + y| + |x * y| == |x| + |y|
    ensures |x * y| == 0 <==> x !! y
  {
    EmptyIff(x, y);
    SplitCardinality(y, x);
    CardinalitySum(x, y - x);
    assert x + (y - x) == x + y && y * x == x * y;
  }

  lemma PairwiseLast(sets: seq<set<MetricKey>>)
    requires sets != []
    ensures var n := |sets| - 1;
      PairwiseApart(sets) <==> PairwiseApart(sets[..n]) && Union(sets[..n]) !! sets[n]
  {
    UnionApart(sets[..|sets| - 1], sets[|sets| - 1]);
  }

  /** The sizes of some sets add up to that of their union exactly when they are pairwise apart. */
  lemma {:induction false} TotalIff(sets: seq<set<MetricKey>>)
    ensures Total(sets) >= |Union(sets)|
    ensures Total(sets) == |Union(sets)| <==> PairwiseApart(sets)
  {
    if sets != [] {
      var n := |sets| - 1;
      TotalIff(sets[..n]);
      SumOverlap(Union(sets[..n]), sets[n]);
      PairwiseLast(sets);
    }
  }

  lemma CrossLast(left: seq<set<MetricKey>>, right: seq<set<MetricKey>>)
    requires |left| == |right| > 0
    ensures var n := |left| - 1;
      CrossApart(left, right) <==>
        CrossApart(left[..n], right[..n]) && Union(left[..n]) !! right[n] && left[n] !! Union(right[..n])
  {
    var n := |left| - 1;
    UnionApart(left[..n], right[n]);
    UnionApart(right[..n], left[n]);
    hide Union;
    if CrossApart(left, right) {
      assert forall i :: 0 <= i < n ==> left[..n][i] !! right[n] && right[..n][i] !! left[n];
    }
    if CrossApart(left[..n], right[..n]) && Union(left[..n]) !! right[n] && left[n] !! Union(right[..n]) {
      forall i, j | 0 <= i <= n && 0 <= j <= n && i != j ensures left[i] !! right[j] {
        if i < n && j < n {
          assert left[..n][i] !! right[..n][j];
        } else if i < n {
          assert left[..n][i] !! right[n];
        } else {
          assert right[..n][j] !! left[n];
        }
      }
    }
  }

  lemma FourParts(e: set<MetricKey>, f: set<MetricKey>, a: set<MetricKey>, b: set<MetricKey>)
    requires e !! f && a !! b
    ensures |(e + f) * (a + b)| == |e * a| + |e * b| + |f * a| + |f * b|
  {
    assert (e + f) * (a + b) == ((e * a + e * b) + f * a) + f * b;
    CardinalitySum(e * a, e * b);
    CardinalitySum(e * a + e * b, f * a);
    CardinalitySum((e * a + e * b) + f * a, f * b);
  }

  lemma EmptyIff(x: set<MetricKey>, y: set<MetricKey>)
    ensures |x * y| == 0 <==> x !! y
  {
    if |x * y| == 0 {
      assert x * y == {};
      forall k | k in x ensures k !in y {
        assert k !in x * y;
      }
    } else {
      var k :| k in x * y;
    }
  }

  /** Between two families, each pairwise apart, the common keys add up to those of the unions
      exactly when different positions have none. */
  lemma {:induction false} HitsIff(left: seq<set<MetricKey>>, right: seq<set<MetricKey>>)
    requires |left| == |right| && PairwiseApart(left) && PairwiseApart(right)
    ensures Hits(left, right) <= |Union(left) * Union(right)|
    ensures Hits(left, right) == |Union(left) * Union(right)| <==> CrossApart(left, right)
  {
    if left == [] {
      assert Union(left) * Union(right) == {};
    } else {
      var n := |left| - 1;
      PairwiseLast(left);
      PairwiseLast(right);
      HitsIff(left[..n], right[..n]);
      CrossLast(left, right);
      assert Union(left) == Union(left[..n]) + left[n] && Union(right) == Union(right[..n]) + right[n];
      assert Hits(left, right) == Hits(left[..n], right[..n]) + |left[n] * right[n]|;
      hide CrossApart, PairwiseApart, Union, Hits;
      FourParts(Union(left[..n]), left[n], Union(right[..n]), right[n]);
      EmptyIff(Union(left[..n]), right[n]);
      EmptyIff(left[n], Union(right[..n]));
    }
  }

  lemma {:induction false} TallyTotals(journeys: seq<JourneyKeys>)
    ensures var t, es, as_ := Tallied(Classified(journeys)), ExpectedSets(journeys), ActualSets(journeys);
      && t.expected == Total(es) && t.actual == Total(as_) && t.truePositive == Hits(es, as_)
      && t.truePositive + t.falsePositive == t.actual && t.truePositive + t.falseNegative == t.expected
  {
    if journeys != [] {
      var n := |journeys| - 1;
      TallyTotals(journeys[..n]);
      CountsAddUp(journeys[n].expected, journeys[n].actual);
      TallyLast(journeys);
      SetsOfPrefix(journeys);
      hide Tallied, Classified, ExpectedSets, ActualSets;
    }
  }

  lemma TallyLast(journeys: seq<JourneyKeys>)
    requires journeys != []
    ensures var n := |journeys| - 1;
      var t, m := Tallied(Classified(journeys[..n])), Classification(journeys[n].expected, journeys[n].actual);
      Tallied(Classified(journeys)) ==
        Tally(t.expected + m.expected, t.actual + m.actual, t.truePositive + m.truePositive,
              t.falsePositive + m.falsePositive, t.falseNegative + m.falseNegative)
  {
    var n := |journeys| - 1;
    assert Classified(journeys)[..n] == Classified(journeys[..n]);
    hide Classification;
  }

  lemma SetsOfPrefix(journeys: seq<JourneyKeys>)
    requires journeys != []
    ensures var n := |journeys| - 1;
      && ExpectedSets(journeys) == ExpectedSets(journeys[..n]) + [journeys[n].expected]
      && ActualSets(journeys) == ActualSets(journeys[..n]) + [journeys[n].actual]
      && ExpectedSets(journeys)[..n] == ExpectedSets(journeys[..n])
          && ActualSets(journeys)[..n] == ActualSets(journeys[..n])
  {
  }

  /** No key is shared: not between expected sets, not between actual sets, and not between an
      expected and an actual set of different journeys. */
  predicate NothingShared(journeys: seq<JourneyKeys>) {
    && PairwiseApart(ExpectedSets(journeys)) && PairwiseApart(ActualSets(journeys))
    && CrossApart(ExpectedSets(journeys), ActualSets(journeys))
  }

  /** Micro-averaging is exact if and only if nothing is shared: summing the journeys'
      classifications gives the same metrics as classifying the unions of their key sets. */
  lemma MicroAverageIsUnionClassification(journeys: seq<JourneyKeys>)
    ensures SumClassifications(Classified(journeys))
         == Classification(Union(ExpectedSets(journeys)), Union(ActualSets(journeys)))
      <==> NothingShared(journeys)
  {
    var es, as_ := ExpectedSets(journeys), ActualSets(journeys);
    TallyTotals(journeys);
    TotalIff(es);
    TotalIff(as_);
    if PairwiseApart(es) && PairwiseApart(as_) {
      HitsIff(es, as_);
    }
    CountsAddUp(Union(es), Union(as_));
    hide Total, Hits, Union, Tallied, Classified, PairwiseApart, CrossApart, Rated, ExpectedSets, ActualSets;
    var t, u := Tallied(Classified(journeys)), CountsOf(Union(es), Union(as_));
    RatedIff(t, u);
  }

  lemma RatedIff(t: Tally, u: Tally)
    ensures (Rated(t.expected, t.actual, t.truePositive, t.falsePositive, t.falseNegative)
             == Rated(u.expected, u.actual, u.truePositive, u.falsePositive, u.falseNegative)) <==> t == u
  {
    hide Precision, Recall, F1;
  }

  function CountsOf(e: set<MetricKey>, a: set<MetricKey>): Tally {
    Tally(|e|, |a|, |e * a|, |a - e|, |e - a|)
  }

  /** Tags of distinct journeys are enough. */
  lemma DistinctTagsSuffice(journeys: seq<JourneyKeys>)
    requires WellTagged(journeys)
    ensures NothingShared(journeys)
  {
    forall i, j | 0 <= i < |journeys| && 0 <= j < |journeys| && i != j
      ensures (journeys[i].expected + journeys[i].actual) !! (journeys[j].expected + journeys[j].actual)
    {
      assert journeys[i].journey != journeys[j].journey;
    }
  }

  /** Two journeys that share one id and one key: the sum counts it twice, the union once. */
  lemma SharedTagCountsTwice(k: MetricKey)
    ensures var j := JourneyKeys(k[0], {k}, {k});
      && SumClassifications(Classified([j, j])).truePositive == 2
      && Classification(Union(ExpectedSets([j, j])), Union(ActualSets([j, j]))).truePositive == 1
  {
    var j := JourneyKeys(k[0], {k}, {k});
    var items := Classified([j, j]);
    var sets: seq<set<MetricKey>> := [{k}, {k}];
    assert {k} * {k} == {k};
    assert items[..1][..0] == [] && items[..1][0] == items[0];
    assert Tallied(items[..1]).truePositive == 1;
    var none: seq<set<MetricKey>> := [];
    assert sets[..1][..0] == none && sets[..1][0] == {k};
    assert Union(sets[..1]) == {k} && Union(sets) == {k};
    assert ExpectedSets([j, j]) == sets && ActualSets([j, j]) == sets;
  }
}
