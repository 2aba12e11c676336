/** Scores over the reals: normalisation, the weighted channel average, and the final blend. */
module Scoring {
  import opened Text
  import opened Selection

  datatype ScoreWeights = ScoreWeights(
    keyword: real, vector: real, rerank: real,
    finalRetrieval: real, reliability: real, verification: real, relevance: real, freshness: real)

  const DEFAULT_SCORE_WEIGHTS := ScoreWeights(0.30, 0.40, 0.30, 0.35, 0.20, 0.15, 0.15, 0.15)

  predicate Unit(x: real) {
    0.0 <= x <= 1.0
  }

  // ----- min-max normalisation -----

  function Least(s: seq<real>): (m: real)
    requires s != []
    ensures m in s && forall i :: 0 <= i < |s| ==> m <= s[i]
  {
    if |s| == 1 then s[0] else if s[0] <= Least(s[1..]) then s[0] else Least(s[1..])
  }

  function Greatest(s: seq<real>): (m: real)
    requires s != []
    ensures m in s && forall i :: 0 <= i < |s| ==> s[i] <= m
  {
    if |s| == 1 then s[0] else if s[0] >= Greatest(s[1..]) then s[0] else Greatest(s[1..])
  }

  function Normalized(x: real, low: real, high: real): real {
    if high == low then (if high > 0.0 then 1.0 else 0.0) else (x - low) / (high - low)
  }

  function NormalizeScores(values: seq<real>): (r: seq<real>)
    ensures |r| == |values|
  {
    if values == [] then []
    else
      var low, high := Least(values), Greatest(values);
      seq(|values|, i requires 0 <= i < |values| => Normalized(values[i], low, high))
  }

  lemma QuotientOrder(a: real, b: real, d: real)
    requires d > 0.0
    ensures a <= b <==> a / d <= b / d
  {
    assert Times(a / d, d) == a && Times(b / d, d) == b;
    TimesOrders(a / d, b / d, d);
  }

  lemma NormalizedOrder(x: real, y: real, low: real, high: real)
    requires low <= x <= high && low <= y <= high
    ensures x <= y <==> Normalized(x, low, high) <= Normalized(y, low, high)
    ensures Unit(Normalized(x, low, high))
    ensures low != high ==> Normalized(low, low, high) == 0.0 && Normalized(high, low, high) == 1.0
  {
    if high != low {
      var d := high - low;
      QuotientOrder(x - low, y - low, d);
      QuotientOrder(0.0, x - low, d);
      QuotientOrder(x - low, d, d);
    }
  }

  lemma NormalizedAt(values: seq<real>, i: nat)
    requires i < |values|
    ensures NormalizeScores(values)[i] == Normalized(values[i], Least(values), Greatest(values))
  {
    hide Normalized, Least, Greatest;
  }

  /** Normalising keeps every comparison, and ends in the unit interval. */
  lemma NormalizationKeepsOrder(values: seq<real>, i: nat, j: nat)
    requires i < |values| && j < |values|
    ensures values[i] <= values[j] <==> NormalizeScores(values)[i] <= NormalizeScores(values)[j]
    ensures Unit(NormalizeScores(values)[i])
  {
    hide Normalized, Least, Greatest, NormalizeScores;
    NormalizedAt(values, i);
    NormalizedAt(values, j);
    NormalizedOrder(values[i], values[j], Least(values), Greatest(values));
  }

  /** The extremes become 0 and 1 unless all values are equal; equal values become all 1 or,
      when none is positive, all 0. */
  lemma NormalizationStretches(values: seq<real>, i: nat)
    requires i < |values|
    ensures Least(values) < Greatest(values) ==> 0.0 in NormalizeScores(values) && 1.0 in NormalizeScores(values)
    ensures Least(values) == Greatest(values) ==> NormalizeScores(values)[i] == if values[i] > 0.0 then 1.0 else 0.0
  {
    hide Least, Greatest, NormalizeScores;
    var low, high, r := Least(values), Greatest(values), NormalizeScores(values);
    NormalizedAt(values, i);
    if high > low {
      hide Normalized;
      var k :| 0 <= k < |values| && values[k] == low;
      var m :| 0 <= m < |values| && values[m] == high;
      NormalizedAt(values, k);
      NormalizedAt(values, m);
      NormalizedOrder(low, high, low, high);
      assert r[k] == 0.0 && r[m] == 1.0;
    }
  }

  /** And it keeps proportions: a difference that is so many times another one stays so. */
  lemma NormalizationKeepsProportions(values: seq<real>, i: nat, j: nat, k: nat, m: nat)
    requires i < |values| && j < |values| && k < |values| && m < |values|
    ensures var r := NormalizeScores(values);
            Times(r[i] - r[j], values[k] - values[m]) == Times(values[i] - values[j], r[k] - r[m])
  {
    hide Least, Greatest, NormalizeScores, Times;
    var low, high := Least(values), Greatest(values);
    NormalizedAt(values, i);
    NormalizedAt(values, j);
    NormalizedAt(values, k);
    NormalizedAt(values, m);
    if high == low {
      assert values[i] == values[j] == values[k] == values[m] == low;
      TimesLaws(0.0, 0.0);
    } else {
      var d := high - low;
      DifferenceOfNormalized(values[i], values[j], low, d);
      DifferenceOfNormalized(values[k], values[m], low, d);
      TimesQuotients(values[i] - values[j], values[k] - values[m], d);
    }
  }

  lemma DifferenceOfNormalized(x: real, y: real, low: real, d: real)
    requires d > 0.0
    ensures (x - low) / d - (y - low) / d == (x - y) / d
  {
  }

  lemma TimesQuotients(a: real, b: real, d: real)
    requires d > 0.0
    ensures Times(a / d, b) == Times(a, b / d)
  {
    assert a / d * b == a * b / d == a * (b / d);
  }

  // ----- the channels -----

  datatype Channel = Channel(value: Option<real>, weight: real)

  function Channels(keyword: Option<real>, vector: Option<real>, rerank: Option<real>, w: ScoreWeights): seq<Channel> {
    [Channel(keyword, w.keyword), Channel(vector, w.vector), Channel(rerank, w.rerank)]
  }

  function AvailableWeight(cs: seq<Channel>): real {
    if cs == [] then 0.0 else (if cs[0].value.Some? then cs[0].weight else 0.0) + AvailableWeight(cs[1..])
  }

  function WeightedSum(cs: seq<Channel>): real {
    if cs == [] then 0.0
    else Times(if cs[0].value.Some? then cs[0].value.value else 0.0, cs[0].weight) + WeightedSum(cs[1..])
  }

  function Average(cs: seq<Channel>): real {
    if AvailableWeight(cs) == 0.0 then 0.0 else WeightedSum(cs) / AvailableWeight(cs)
  }

  function RetrievalScore(keyword: Option<real>, vector: Option<real>, rerank: Option<real>, w: ScoreWeights): real {
    Average(Channels(keyword, vector, rerank, w))
  }

  predicate Weighted(cs: seq<Channel>) {
    forall i :: 0 <= i < |cs| ==> cs[i].weight >= 0.0
  }

  /** All available channels lie between the bounds. */
  predicate Between(cs: seq<Channel>, low: real, high: real) {
    forall i :: 0 <= i < |cs| && cs[i].value.Some? ==> low <= cs[i].value.value <= high
  }

  lemma TimesBounds(x: real, low: real, high: real, w: real)
    requires low <= x <= high && w >= 0.0
    ensures Times(low, w) <= Times(x, w) <= Times(high, w)
  {
    assert (x - low) * w >= 0.0 && (high - x) * w >= 0.0;
  }

  lemma TimesAdds(x: real, a: real, b: real)
    ensures Times(x, a + b) == Times(x, a) + Times(x, b) && Times(x, 0.0) == 0.0 == Times(0.0, a)
  {
  }

  lemma {:induction false} SumBounds(cs: seq<Channel>, low: real, high: real)
    requires Weighted(cs) && Between(cs, low, high)
    ensures AvailableWeight(cs) >= 0.0
    ensures Times(low, AvailableWeight(cs)) <= WeightedSum(cs) <= Times(high, AvailableWeight(cs))
    decreases |cs|
  {
    hide Times;
    if cs == [] {
      TimesAdds(low, 0.0, 0.0);
      TimesAdds(high, 0.0, 0.0);
    } else {
      var c := cs[0];
      SumBounds(cs[1..], low, high);
      var own := if c.value.Some? then c.weight else 0.0;
      TimesAdds(low, own, AvailableWeight(cs[1..]));
      TimesAdds(high, own, AvailableWeight(cs[1..]));
      if c.value.Some? {
        TimesBounds(c.value.value, low, high, c.weight);
      } else {
        TimesAdds(low, 0.0, 0.0);
        TimesAdds(high, 0.0, 0.0);
        TimesAdds(0.0, c.weight, 0.0);
      }
    }
  }

  lemma QuotientBounds(x: real, low: real, high: real, w: real)
    requires w > 0.0 && Times(low, w) <= x <= Times(high, w)
    ensures low <= x / w <= high
  {
    QuotientOrder(Times(low, w), x, w);
    QuotientOrder(x, Times(high, w), w);
    assert low * w / w == low && high * w / w == high;
  }

  function ValueOf(o: Option<real>): real {
    if o.Some? then o.value else 0.0
  }

  function WeightOf(o: Option<real>, weight: real): real {
    if o.Some? then weight else 0.0
  }

  /** The score times the available weight is the sum of the channels, each with the weight of
      its own name. */
  lemma RetrievalIsTheMean(keyword: Option<real>, vector: Option<real>, rerank: Option<real>, w: ScoreWeights)
    ensures var available :=
              WeightOf(keyword, w.keyword) + WeightOf(vector, w.vector) + WeightOf(rerank, w.rerank);
            var r := RetrievalScore(keyword, vector, rerank, w);
            if available == 0.0 then r == 0.0
            else
              Times(r, available) ==
                Times(ValueOf(keyword), w.keyword) + Times(ValueOf(vector), w.vector) + Times(ValueOf(rerank), w.rerank)
  {
    var a, b, c := Channel(keyword, w.keyword), Channel(vector, w.vector), Channel(rerank, w.rerank);
    var cs := Channels(keyword, vector, rerank, w);
    hide Times;
    assert cs[1..] == [b, c] && [b, c][1..] == [c] && [c][1..] == [];
    TimesAdds(0.0, w.keyword, 0.0);
    TimesAdds(0.0, w.vector, 0.0);
    TimesAdds(0.0, w.rerank, 0.0);
    assert AvailableWeight([c]) == WeightOf(rerank, w.rerank) && WeightedSum([c]) == Times(ValueOf(rerank), w.rerank);
    assert AvailableWeight([b, c]) == WeightOf(vector, w.vector) + AvailableWeight([c]);
    assert WeightedSum([b, c]) == Times(ValueOf(vector), w.vector) + WeightedSum([c]);
    var total := AvailableWeight(cs);
    if total != 0.0 { QuotientTimes(WeightedSum(cs), total); }
  }

  lemma QuotientTimes(x: real, d: real)
    requires d != 0.0
    ensures Times(x / d, d) == x
  {
  }

  /** The average lies between any bounds of the available channels exactly when some weight
      is available, or zero lies between them too: without weight the score is zero. */
  lemma RetrievalIsBetween(keyword: Option<real>, vector: Option<real>, rerank: Option<real>, w: ScoreWeights,
                           low: real, high: real)
    requires w.keyword >= 0.0 && w.vector >= 0.0 && w.rerank >= 0.0
    requires Between(Channels(keyword, vector, rerank, w), low, high)
    ensures low <= RetrievalScore(keyword, vector, rerank, w) <= high <==>
              AvailableWeight(Channels(keyword, vector, rerank, w)) > 0.0 || low <= 0.0 <= high
  {
    var cs := Channels(keyword, vector, rerank, w);
    SumBounds(cs, low, high);
    hide Times, WeightedSum;
    if AvailableWeight(cs) > 0.0 { QuotientBounds(WeightedSum(cs), low, high, AvailableWeight(cs)); }
  }

  /** The same channels are available with the same weights, none with a smaller value. */
  predicate Improves(cs: seq<Channel>, ds: seq<Channel>) {
    |cs| == |ds| && forall i :: 0 <= i < |cs| ==>
      cs[i].weight == ds[i].weight && (cs[i].value.Some? <==> ds[i].value.Some?)
      && (cs[i].value.Some? ==> cs[i].value.value <= ds[i].value.value)
  }

  lemma {:induction false} SumImproves(cs: seq<Channel>, ds: seq<Channel>)
    requires Weighted(cs) && Improves(cs, ds)
    ensures AvailableWeight(cs) == AvailableWeight(ds) >= 0.0 && WeightedSum(cs) <= WeightedSum(ds)
    decreases |cs|
  {
    hide Times;
    if cs != [] {
      SumImproves(cs[1..], ds[1..]);
      if cs[0].value.Some? { TimesBounds(cs[0].value.value, cs[0].value.value, ds[0].value.value, cs[0].weight); }
    }
  }

  lemma AverageImproves(cs: seq<Channel>, ds: seq<Channel>)
    requires Weighted(cs) && Improves(cs, ds)
    ensures Average(cs) <= Average(ds)
  {
    SumImproves(cs, ds);
    hide WeightedSum;
    if AvailableWeight(cs) > 0.0 { QuotientOrder(WeightedSum(cs), WeightedSum(ds), AvailableWeight(cs)); }
  }

  // ----- the final score -----

  function FinalScore(retrieval: real, reliability: real, verification: real, relevance: real, freshness: real,
                      w: ScoreWeights): real {
    Times(w.finalRetrieval, retrieval) + Times(w.reliability, reliability) + Times(w.verification, verification)
    + Times(w.relevance, relevance) + Times(w.freshness, freshness)
  }

  /** Each score counts with the weight of its own name: changing it by `d` changes the final
      score by that weight times `d`. */
  lemma EachScoreHasItsWeight(r: real, s: real, v: real, a: real, f: real, d: real, w: ScoreWeights)
    ensures FinalScore(r + d, s, v, a, f, w) == FinalScore(r, s, v, a, f, w) + Times(w.finalRetrieval, d)
    ensures FinalScore(r, s + d, v, a, f, w) == FinalScore(r, s, v, a, f, w) + Times(w.reliability, d)
    ensures FinalScore(r, s, v + d, a, f, w) == FinalScore(r, s, v, a, f, w) + Times(w.verification, d)
    ensures FinalScore(r, s, v, a + d, f, w) == FinalScore(r, s, v, a, f, w) + Times(w.relevance, d)
    ensures FinalScore(r, s, v, a, f + d, w) == FinalScore(r, s, v, a, f, w) + Times(w.freshness, d)
    ensures FinalScore(0.0, 0.0, 0.0, 0.0, 0.0, w) == 0.0
  {
    TimesAdds(w.finalRetrieval, r, d);
    TimesAdds(w.reliability, s, d);
    TimesAdds(w.verification, v, d);
    TimesAdds(w.relevance, a, d);
    TimesAdds(w.freshness, f, d);
    hide Times;
  }

  /** Non-negative weights that sum to one. */
  predicate Convex(w: ScoreWeights) {
    && w.keyword >= 0.0 && w.vector >= 0.0 && w.rerank >= 0.0
    && w.finalRetrieval >= 0.0 && w.reliability >= 0.0 && w.verification >= 0.0 && w.relevance >= 0.0
        && w.freshness >= 0.0
    && w.keyword + w.vector + w.rerank == 1.0
    && w.finalRetrieval + w.reliability + w.verification + w.relevance + w.freshness == 1.0
  }

  lemma TimesUnit(w: real, x: real)
    requires w >= 0.0 && Unit(x)
    ensures 0.0 <= Times(w, x) <= w
  {
    assert w * (1.0 - x) >= 0.0;
  }

  lemma FinalIsUnit(r: real, s: real, v: real, a: real, f: real, w: ScoreWeights)
    requires Convex(w) && Unit(r) && Unit(s) && Unit(v) && Unit(a) && Unit(f)
    ensures Unit(FinalScore(r, s, v, a, f, w))
  {
    TimesUnit(w.finalRetrieval, r);
    TimesUnit(w.reliability, s);
    TimesUnit(w.verification, v);
    TimesUnit(w.relevance, a);
    TimesUnit(w.freshness, f);
    hide Times;
  }

  lemma FinalFollowsRetrieval(r: real, r': real, s: real, v: real, a: real, f: real, w: ScoreWeights)
    requires w.finalRetrieval >= 0.0 && r <= r'
    ensures FinalScore(r, s, v, a, f, w) <= FinalScore(r', s, v, a, f, w)
  {
    assert w.finalRetrieval * (r' - r) >= 0.0;
    assert Times(w.finalRetrieval, r) <= Times(w.finalRetrieval, r');
    hide Times;
  }
}
