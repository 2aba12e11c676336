/** The scores derived for one retrieved candidate. */
module CandidateScoring {
  import opened Text
  import opened Selection
  import opened Scoring

  datatype Anchor = AlarmName | DeviceType | DeviceModel | Manufacturer | Component

  const ANCHORS := [AlarmName, DeviceType, DeviceModel, Manufacturer, Component]

  /** The metadata that scores read; `age` is the age of a close time in days. */
  datatype Metadata = Metadata(
    sourceClass: Option<string>, verified: Option<bool>, closed: Option<bool>, effective: Option<bool>,
    age: Option<int>, anchors: map<Anchor, string>)

  datatype Retrieved = Retrieved(
    source: Source, sourceId: string, chunkId: string,
    keyword: Option<real>, vector: Option<real>, rerank: Option<real>,
    embedding: seq<real>, metadata: Metadata)
  {
    function Id(): Identity { (source, sourceId, chunkId) }
  }

  /** An empty text is an absent filter; `occurs` says which terms the summary contains. */
  datatype Query = Query(anchors: map<Anchor, string>, terms: seq<string>, occurs: string -> bool)

  function Get<T>(o: Option<T>, default: T): T {
    if o.Some? then o.value else default
  }

  function SourceReliability(source: Source, m: Metadata): real {
    match source
    case Manual => if Get(m.sourceClass, "official_manual") == "official_manual" then 1.0 else 0.95
    case CaseSource => 0.95
    case _ => if Get(m.verified, false) then 0.85 else 0.65
  }

  function VerificationScore(source: Source, m: Metadata): real {
    if source == Manual then (if Get(m.verified, true) then 1.0 else 0.30)
    else if Get(m.verified, false) && Get(m.closed, true) then 1.0
    else if Get(m.closed, false) then 0.70 else 0.30
  }

  function FreshnessScore(source: Source, m: Metadata): real {
    if source == Manual then (if Get(m.effective, true) then 0.85 else 0.50)
    else if m.age.None? then 0.60
    else
      var months := (if m.age.value > 0 then m.age.value else 0) as real / 30.44;
      if months <= 3.0 then 1.0 else if months <= 6.0 then 0.85 else if months <= 12.0 then 0.70 else 0.50
  }

  // ----- relevance to the alarm -----

  /** What an anchor should be, and what the candidate has for it; empty when it has nothing. */
  datatype Pair = Pair(expected: string, actual: string)

  function TextOf(anchors: map<Anchor, string>, a: Anchor): string {
    if a in anchors then anchors[a] else ""
  }

  function Applicable(q: Query, m: Metadata, anchors: seq<Anchor>): seq<Pair> {
    if anchors == [] then []
    else
      var expected := TextOf(q.anchors, anchors[0]);
      (if expected != "" then [Pair(expected, TextOf(m.anchors, anchors[0]))] else []) + Applicable(q, m, anchors[1..])
  }

  predicate Conflicts(p: Pair) {
    p.actual != "" && p.expected != p.actual
  }

  function Matched(ps: seq<Pair>): (n: nat)
    ensures n <= |ps|
  {
    if ps == [] then 0 else (if ps[0].actual != "" && ps[0].expected == ps[0].actual then 1 else 0) + Matched(ps[1..])
  }

  function Occurring(terms: seq<string>, occurs: string -> bool): (n: nat)
    ensures n <= |terms|
    decreases |terms|
  {
    if terms == [] then 0
    else Occurring(terms[..|terms| - 1], occurs) + (if occurs(terms[|terms| - 1]) then 1 else 0)
  }

  function Share(part: nat, whole: nat): real
    requires part <= whole && whole > 0
  {
    part as real / whole as real
  }

  /** Before the clamp. */
  function RawRelevance(q: Query, ps: seq<Pair>): real {
    var base := if ps == [] then 0.50 else Share(Matched(ps), |ps|);
    if q.terms == [] then base else 0.75 * base + 0.25 * Share(Occurring(q.terms, q.occurs), |q.terms|)
  }

  predicate Mismatch(ps: seq<Pair>) {
    exists i :: 0 <= i < |ps| && i < 3 && Conflicts(ps[i])
  }

  function AlarmRelevance(q: Query, m: Metadata): real {
    var ps := Applicable(q, m, ANCHORS);
    if Mismatch(ps) then 0.20
    else
      var base := RawRelevance(q, ps);
      if base < 0.0 then 0.0 else if base > 1.0 then 1.0 else base
  }

  lemma ShareIsUnit(part: nat, whole: nat)
    requires part <= whole && whole > 0
    ensures Unit(Share(part, whole)) && (Share(part, whole) == 1.0 <==> part == whole)
  {
    QuotientOrder(0.0, part as real, whole as real);
    QuotientOrder(part as real, whole as real, whole as real);
    QuotientOrder(whole as real, part as real, whole as real);
    assert whole as real / whole as real == 1.0;
  }

  /** The clamp never acts: without a mismatch the relevance is the blend of the matched share
      of the given anchors and the occurring share of the symptom terms. */
  lemma ClampNeverActs(q: Query, m: Metadata)
    ensures Unit(AlarmRelevance(q, m))
    ensures !Mismatch(Applicable(q, m, ANCHORS)) ==> AlarmRelevance(q, m) == RawRelevance(q, Applicable(q, m, ANCHORS))
  {
    var ps := Applicable(q, m, ANCHORS);
    hide Share, Mismatch, Applicable;
    if ps != [] { ShareIsUnit(Matched(ps), |ps|); }
    if q.terms != [] { ShareIsUnit(Occurring(q.terms, q.occurs), |q.terms|); }
  }

  /** Full relevance means that every given anchor is matched and every term occurs. */
  lemma FullRelevance(q: Query, m: Metadata)
    ensures AlarmRelevance(q, m) == 1.0 <==>
              var ps := Applicable(q, m, ANCHORS);
              !Mismatch(ps) && ps != [] && Matched(ps) == |ps| && Occurring(q.terms, q.occurs) == |q.terms|
  {
    var ps := Applicable(q, m, ANCHORS);
    ClampNeverActs(q, m);
    hide Share, Mismatch, Applicable;
    if ps != [] { ShareIsUnit(Matched(ps), |ps|); }
    if q.terms != [] { ShareIsUnit(Occurring(q.terms, q.occurs), |q.terms|); }
    assert q.terms == [] ==> Occurring(q.terms, q.occurs) == 0;
  }

  /** The first three anchors that the filter gives decide, not the first three by name: a
      wrong manufacturer alone disqualifies exactly when fewer than three other anchors are
      given before it. */
  lemma WhichMismatchCounts(q: Query, m: Metadata)
    requires TextOf(q.anchors, Manufacturer) != "" && TextOf(m.anchors, Manufacturer) != ""
    requires TextOf(q.anchors, Manufacturer) != TextOf(m.anchors, Manufacturer)
    requires forall a :: a in ANCHORS && a != Manufacturer ==>
               !Conflicts(Pair(TextOf(q.anchors, a), TextOf(m.anchors, a)))
    ensures Mismatch(Applicable(q, m, ANCHORS)) <==>
              TextOf(q.anchors, AlarmName) == "" || TextOf(q.anchors, DeviceType) == ""
              || TextOf(q.anchors, DeviceModel) == ""
  {
    assert AlarmName in ANCHORS && DeviceType in ANCHORS && DeviceModel in ANCHORS && Component in ANCHORS;
    var before, after := Applicable(q, m, [AlarmName, DeviceType, DeviceModel]), Applicable(q, m, [Component]);
    ApplicableSplits(q, m, [AlarmName, DeviceType, DeviceModel], [Manufacturer, Component]);
    ApplicableSplits(q, m, [Manufacturer], [Component]);
    assert [AlarmName, DeviceType, DeviceModel] + [Manufacturer, Component] == ANCHORS
        && [Manufacturer] + [Component] == [Manufacturer, Component];
    var own := Pair(TextOf(q.anchors, Manufacturer), TextOf(m.anchors, Manufacturer));
    assert Applicable(q, m, [Manufacturer]) == [own];
    NoneConflict(q, m, [AlarmName, DeviceType, DeviceModel]);
    NoneConflict(q, m, [Component]);
    ThreeGiven(q, m);
    var ps := Applicable(q, m, ANCHORS);
    assert ps == before + ([own] + after);
    hide Applicable, TextOf;
    assert ps[|before|] == own && Conflicts(own);
    if |before| == 3 {
      forall i | 0 <= i < 3 ensures !Conflicts(ps[i]) { assert ps[i] == before[i]; }
    }
  }

  lemma {:induction false} ApplicableSplits(q: Query, m: Metadata, a: seq<Anchor>, b: seq<Anchor>)
    ensures Applicable(q, m, a + b) == Applicable(q, m, a) + Applicable(q, m, b)
    decreases |a|
  {
    if a == [] {
      assert a + b == b;
    } else {
      assert (a + b)[1..] == a[1..] + b;
      ApplicableSplits(q, m, a[1..], b);
    }
  }

  lemma {:induction false} NoneConflict(q: Query, m: Metadata, anchors: seq<Anchor>)
    requires forall a :: a in anchors ==> !Conflicts(Pair(TextOf(q.anchors, a), TextOf(m.anchors, a)))
    ensures forall i :: 0 <= i < |Applicable(q, m, anchors)| ==> !Conflicts(Applicable(q, m, anchors)[i])
    decreases |anchors|
  {
    if anchors != [] { NoneConflict(q, m, anchors[1..]); }
  }

  lemma ThreeGiven(q: Query, m: Metadata)
    ensures var n := |Applicable(q, m, [AlarmName, DeviceType, DeviceModel])|;
            n <= 3
            && (n == 3 <==>
                  TextOf(q.anchors, AlarmName) != "" && TextOf(q.anchors, DeviceType) != ""
                  && TextOf(q.anchors, DeviceModel) != "")
  {
    var three := [AlarmName, DeviceType, DeviceModel];
    assert three[1..] == [DeviceType, DeviceModel] && [DeviceType, DeviceModel][1..] == [DeviceModel]
        && [DeviceModel][1..] == [];
    assert Applicable(q, m, []) == [];
    var c := |Applicable(q, m, [DeviceModel])|;
    assert c == if TextOf(q.anchors, DeviceModel) != "" then 1 else 0;
    assert |Applicable(q, m, [DeviceType, DeviceModel])| == (if TextOf(q.anchors, DeviceType) != "" then 1 else 0) + c;
  }

  // ----- relevance in terms of the anchors and terms -----

  predicate Given(q: Query, a: Anchor) {
    a in q.anchors && q.anchors[a] != ""
  }

  predicate Matches(q: Query, m: Metadata, a: Anchor) {
    Given(q, a) && a in m.anchors && m.anchors[a] == q.anchors[a]
  }

  /** Given, and the candidate has something else for it. */
  predicate Differs(q: Query, m: Metadata, a: Anchor) {
    Given(q, a) && a in m.anchors && m.anchors[a] != "" && m.anchors[a] != q.anchors[a]
  }

  function GivenAmong(q: Query, anchors: seq<Anchor>): set<Anchor> {
    set a | a in anchors && Given(q, a)
  }

  function MatchingAmong(q: Query, m: Metadata, anchors: seq<Anchor>): set<Anchor> {
    set a | a in anchors && Matches(q, m, a)
  }

  predicate Distinct(anchors: seq<Anchor>) {
    forall i, j :: 0 <= i < j < |anchors| ==> anchors[i] != anchors[j]
  }

  lemma OneMoreAnchor(anchors: seq<Anchor>, all: set<Anchor>, some: set<Anchor>, counts: Anchor -> bool)
    requires Distinct(anchors) && anchors != []
    requires all == set a | a in anchors && counts(a)
    requires some == set a | a in anchors[1..] && counts(a)
    ensures Distinct(anchors[1..]) && |all| == |some| + (if counts(anchors[0]) then 1 else 0)
  {
    var a, rest := anchors[0], anchors[1..];
    assert a !in rest && anchors == [a] + rest;
    assert all == if counts(a) then some + {a} else some;
  }

  lemma MatchedStep(p: Pair, ps: seq<Pair>)
    ensures Matched([p] + ps) == Matched(ps) + (if p.actual != "" && p.expected == p.actual then 1 else 0)
  {
    assert ([p] + ps)[1..] == ps;
  }

  lemma {:induction false} ApplicableCounts(q: Query, m: Metadata, anchors: seq<Anchor>)
    requires Distinct(anchors)
    ensures |Applicable(q, m, anchors)| == |GivenAmong(q, anchors)|
    ensures Matched(Applicable(q, m, anchors)) == |MatchingAmong(q, m, anchors)|
    decreases |anchors|
  {
    hide Matched, Distinct;
    if anchors == [] {
      assert GivenAmong(q, anchors) == {} && MatchingAmong(q, m, anchors) == {} by { NoAnchors(q, m); }
      assert Matched([]) == 0 by { NoAnchors(q, m); }
    } else {
      var a, rest := anchors[0], anchors[1..];
      OneMoreAnchor(anchors, GivenAmong(q, anchors), GivenAmong(q, rest), b => Given(q, b));
      OneMoreAnchor(anchors, MatchingAmong(q, m, anchors), MatchingAmong(q, m, rest), b => Matches(q, m, b));
      ApplicableCounts(q, m, rest);
      MatchedStep(Pair(TextOf(q.anchors, a), TextOf(m.anchors, a)), Applicable(q, m, rest));
      assert [] + Applicable(q, m, rest) == Applicable(q, m, rest);
    }
  }

  lemma NoAnchors(q: Query, m: Metadata)
    ensures GivenAmong(q, []) == {} && MatchingAmong(q, m, []) == {} && Matched([]) == 0
  {
  }

  lemma {:induction false} OccurringCounts(terms: seq<string>, occurs: string -> bool)
    ensures Occurring(terms, occurs) == |set i | 0 <= i < |terms| && occurs(terms[i])|
    decreases |terms|
  {
    var all := set i | 0 <= i < |terms| && occurs(terms[i]);
    if terms == [] {
      assert all == {};
    } else {
      var n := |terms| - 1;
      var before := terms[..n];
      var some := set i | 0 <= i < |before| && occurs(before[i]);
      OccurringCounts(before, occurs);
      assert all == some + (if occurs(terms[n]) then {n} else {});
    }
  }

  /** The pair of the k-th anchor stands behind those of the anchors given before it. */
  lemma PairOf(q: Query, m: Metadata, anchors: seq<Anchor>, k: nat)
    requires k < |anchors| && Distinct(anchors) && Given(q, anchors[k])
    ensures var n := |GivenAmong(q, anchors[..k])|;
            n < |Applicable(q, m, anchors)|
            && Applicable(q, m, anchors)[n] == Pair(q.anchors[anchors[k]], TextOf(m.anchors, anchors[k]))
  {
    var before, after := anchors[..k], anchors[k..];
    assert anchors == before + after;
    ApplicableSplits(q, m, before, after);
    ApplicableCounts(q, m, before);
  }

  lemma {:induction false} AnchorOf(q: Query, m: Metadata, anchors: seq<Anchor>, n: nat) returns (k: nat)
    requires Distinct(anchors) && n < |Applicable(q, m, anchors)|
    ensures k < |anchors| && Given(q, anchors[k]) && |GivenAmong(q, anchors[..k])| == n
    decreases |anchors|
  {
    k := |anchors| - 1;
    var before := anchors[..k];
    assert anchors == before + [anchors[k]];
    ApplicableSplits(q, m, before, [anchors[k]]);
    ApplicableCounts(q, m, before);
    if n < |Applicable(q, m, before)| {
      k := AnchorOf(q, m, before, n);
      assert before[..k] == anchors[..k];
    }
  }

  /** Relevance is the low constant exactly when an anchor differs that has fewer than three
      given ones before it; otherwise it blends the matching share of the given anchors with
      the occurring share of the symptom terms. */
  lemma RelevanceIsExact(q: Query, m: Metadata)
    ensures var order := [AlarmName, DeviceType, DeviceModel, Manufacturer, Component];
            var given, terms := |GivenAmong(q, order)|, |q.terms|;
            var found := |set i | 0 <= i < terms && q.occurs(q.terms[i])|;
            var matching := |MatchingAmong(q, m, order)|;
            var share := if given == 0 then 0.5 else matching as real / given as real;
            AlarmRelevance(q, m) ==
              if exists k :: 0 <= k < 5 && Differs(q, m, order[k]) && |GivenAmong(q, order[..k])| < 3 then 0.2
              else if terms == 0 then share
              else 0.75 * share + 0.25 * (found as real / terms as real)
  {
    var order := [AlarmName, DeviceType, DeviceModel, Manufacturer, Component];
    var ps := Applicable(q, m, ANCHORS);
    assert order == ANCHORS;
    ClampNeverActs(q, m);
    ApplicableCounts(q, m, order);
    OccurringCounts(q.terms, q.occurs);
    if k :| 0 <= k < 5 && Differs(q, m, order[k]) && |GivenAmong(q, order[..k])| < 3 {
      PairOf(q, m, order, k);
      assert Conflicts(ps[|GivenAmong(q, order[..k])|]);
    }
    if i :| 0 <= i < |ps| && i < 3 && Conflicts(ps[i]) {
      var k := AnchorOf(q, m, order, i);
      PairOf(q, m, order, k);
      assert Differs(q, m, order[k]);
    }
    hide Applicable, Matched, Occurring, GivenAmong, MatchingAmong;
  }

  // ----- the tables -----

  /** Manuals are verified, effective and official unless their metadata say otherwise. */
  lemma ManualTable(m: Metadata)
    ensures SourceReliability(Manual, m) ==
              if m.sourceClass in {None, Some("official_manual")} then 1.0 else 0.95
    ensures VerificationScore(Manual, m) == if m.verified == Some(false) then 0.3 else 1.0
    ensures FreshnessScore(Manual, m) == if m.effective == Some(false) then 0.5 else 0.85
  {
  }

  /** Everything else is unverified unless its metadata say otherwise; a verified one counts as
      closed unless they deny it, an unverified one only if they say so. */
  lemma OtherTable(source: Source, m: Metadata)
    requires source != Manual
    ensures SourceReliability(source, m) ==
              if source == CaseSource then 0.95 else if m.verified == Some(true) then 0.85 else 0.65
    ensures VerificationScore(source, m) ==
              if m.verified == Some(true) && m.closed != Some(false) then 1.0
              else if m.closed == Some(true) then 0.7 else 0.3
  {
  }

  /** In days: fresh up to 91, then up to 182, up to 365, and old; in between without a time. */
  lemma FreshnessInDays(source: Source, m: Metadata)
    requires source != Manual
    ensures FreshnessScore(source, m) ==
              if m.age.None? then 0.6
              else if m.age.value <= 91 then 1.0
              else if m.age.value <= 182 then 0.85
              else if m.age.value <= 365 then 0.7
              else 0.5
  {
    if m.age.Some? && m.age.value > 0 {
      var days := m.age.value as real;
      var months := days / 30.44;
      assert Times(months, 30.44) == days;
      TimesOrders(months, 3.0, 30.44);
      TimesOrders(months, 6.0, 30.44);
      TimesOrders(months, 12.0, 30.44);
    }
  }

  // ----- all scores of a candidate -----

  datatype Scores = Scores(
    reliability: real, verification: real, freshness: real, relevance: real, retrieval: real, final: real)

  function ScoreCandidate(c: Retrieved, q: Query, w: ScoreWeights): Scores {
    var reliability, verification := SourceReliability(c.source, c.metadata), VerificationScore(c.source, c.metadata);
    var freshness, relevance := FreshnessScore(c.source, c.metadata), AlarmRelevance(q, c.metadata);
    var retrieval := RetrievalScore(c.keyword, c.vector, c.rerank, w);
    Scores(reliability, verification, freshness, relevance, retrieval,
           FinalScore(retrieval, reliability, verification, relevance, freshness, w))
  }

  /** The final score is the sum of the derived scores, each with the weight of its name. */
  lemma FinalIsTheWeightedSum(c: Retrieved, q: Query, w: ScoreWeights)
    ensures var s := ScoreCandidate(c, q, w);
            && s.final == w.finalRetrieval * s.retrieval + w.reliability * s.reliability
                          + w.verification * s.verification + w.relevance * s.relevance + w.freshness * s.freshness
            && s.retrieval == RetrievalScore(c.keyword, c.vector, c.rerank, w)
            && s.reliability == SourceReliability(c.source, c.metadata)
            && s.verification == VerificationScore(c.source, c.metadata)
            && s.freshness == FreshnessScore(c.source, c.metadata) && s.relevance == AlarmRelevance(q, c.metadata)
  {
    hide AlarmRelevance, RetrievalScore;
  }

  predicate UnitChannels(c: Retrieved) {
    && (c.keyword.Some? ==> Unit(c.keyword.value)) && (c.vector.Some? ==> Unit(c.vector.value))
    && (c.rerank.Some? ==> Unit(c.rerank.value))
  }

  /** With convex weights every derived score is in the unit interval. */
  lemma DerivedScoresAreUnit(c: Retrieved, q: Query, w: ScoreWeights)
    requires Convex(w) && UnitChannels(c)
    ensures var s := ScoreCandidate(c, q, w);
            && Unit(s.reliability) && Unit(s.verification) && Unit(s.freshness)
            && Unit(s.relevance) && Unit(s.retrieval) && Unit(s.final)
  {
    RetrievalIsBetween(c.keyword, c.vector, c.rerank, w, 0.0, 1.0);
    ClampNeverActs(q, c.metadata);
    var s := ScoreCandidate(c, q, w);
    hide AlarmRelevance, RetrievalScore, FinalScore;
    assert Unit(s.reliability) && Unit(s.verification) && Unit(s.freshness);
    FinalIsUnit(s.retrieval, s.reliability, s.verification, s.relevance, s.freshness, w);
  }

  /** Raising an available channel never lowers the final score. */
  lemma FinalIsMonotone(c: Retrieved, d: Retrieved, q: Query, w: ScoreWeights)
    requires Convex(w) && d == c.(keyword := d.keyword, vector := d.vector, rerank := d.rerank)
    requires Improves(Channels(c.keyword, c.vector, c.rerank, w), Channels(d.keyword, d.vector, d.rerank, w))
    ensures ScoreCandidate(c, q, w).final <= ScoreCandidate(d, q, w).final
  {
    AverageImproves(Channels(c.keyword, c.vector, c.rerank, w), Channels(d.keyword, d.vector, d.rerank, w));
    var s, t := ScoreCandidate(c, q, w), ScoreCandidate(d, q, w);
    hide AlarmRelevance, FinalScore, FreshnessScore, VerificationScore, SourceReliability;
    FinalFollowsRetrieval(s.retrieval, t.retrieval, s.reliability, s.verification, s.relevance, s.freshness, w);
  }

  lemma DefaultWeightsAreConvex()
    ensures Convex(DEFAULT_SCORE_WEIGHTS)
  {
  }
}
