/** Without embeddings and without a swap, the greedy selection is the best one: no other
    choice within the floor, the caps and the size limit beats it anywhere. */
module SelectionOptimality {
  import opened Selection
  import opened SelectionSoundness

  /** A choice of candidates that respects every limit. */
  predicate Feasible(t: seq<Candidate>, cs: seq<Candidate>, l: Limits) {
    Drawn(t, cs) && DistinctIds(t) && AboveFloor(t, l) && WithinCaps(t, l) && (l.topK >= 1 ==> |t| <= l.topK)
  }

  predicate NoEmbeddings(cs: seq<Candidate>) {
    forall i :: 0 <= i < |cs| ==> cs[i].embedding == []
  }

  function Total(s: seq<Candidate>): real {
    if s == [] then 0.0 else s[0].score + Total(s[1..])
  }

  // ----- counting by origin -----

  function Members(s: seq<Candidate>, o: Origin): set<Candidate> {
    set c | c in s && c.Origin() == o
  }

  lemma {:induction false} CountIsCardinality(s: seq<Candidate>, o: Origin)
    requires DistinctIds(s)
    ensures Count(s, o) == |Members(s, o)|
    decreases |s|
  {
    if s != [] {
      var before, c := s[..|s| - 1], s[|s| - 1];
      CountIsCardinality(before, o);
      assert s == before + [c];
      if c.Origin() == o {
        assert c !in before;
        assert Members(s, o) == Members(before, o) + {c};
      } else {
        assert Members(s, o) == Members(before, o);
      }
    }
  }

  lemma SubsetsAreSmaller(a: set<Candidate>, b: set<Candidate>)
    requires a <= b
    ensures |a| <= |b|
  {
    assert b == a + (b - a);
  }

  function Origins(s: seq<Candidate>): seq<Origin> {
    if s == [] then [] else Origins(s[..|s| - 1]) + [s[|s| - 1].Origin()]
  }

  lemma {:induction false} OriginsCount(s: seq<Candidate>, o: Origin)
    ensures multiset(Origins(s))[o] == Count(s, o) && |Origins(s)| == |s|
    decreases |s|
  {
    if s != [] { OriginsCount(s[..|s| - 1], o); }
  }

  /** Fewer from every origin is fewer altogether. */
  lemma FewerEverywhere(s: seq<Candidate>, t: seq<Candidate>)
    requires forall o :: Count(s, o) <= Count(t, o)
    ensures |s| <= |t|
  {
    forall o ensures multiset(Origins(s))[o] <= multiset(Origins(t))[o] {
      OriginsCount(s, o);
      OriginsCount(t, o);
    }
    OriginsCount(s, (Manual, ""));
    OriginsCount(t, (Manual, ""));
    var a, b := multiset(Origins(s)), multiset(Origins(t));
    assert b == a + (b - a);
    assert |a| == |s| && |b| == |t|;
  }

  // ----- the greedy pass takes as many as possible -----

  lemma NoEmbeddingsNoSimilarity(s: seq<Candidate>, c: Candidate, t: real)
    requires c.embedding == []
    ensures !SimilarIn(s, c, t)
  {
  }

  lemma SameIdSameCandidate(g: seq<Candidate>, ordered: seq<Candidate>, c: Candidate)
    requires DistinctIds(ordered) && Drawn(g, ordered) && c in ordered && SeenIn(g, c.Id())
    ensures c in g
  {
    var k :| 0 <= k < |g| && g[k].Id() == c.Id();
    var i :| 0 <= i < |ordered| && ordered[i] == c;
    assert g[k] in ordered;
    var j :| 0 <= j < |ordered| && ordered[j] == g[k];
    assert i == j;
  }

  /** What the greedy pass leaves out of `ordered` while it has room has a full cap. */
  lemma LeftOutMeansCapped(ordered: seq<Candidate>, l: Limits, c: Candidate)
    requires DistinctIds(ordered) && NoEmbeddings(ordered) && Descending(ordered)
    requires !Full(Greedy(ordered, l), l) && c in ordered && c.score >= l.floor && c !in Greedy(ordered, l)
    ensures Count(Greedy(ordered, l), c.Origin()) >= Cap(l, c.source)
  {
    var g := Greedy(ordered, l);
    GreedyIsMaximal(ordered, l);
    GreedyIsSound(ordered, l);
    NoEmbeddingsNoSimilarity(g, c, l.threshold);
    if SeenIn(g, c.Id()) { SameIdSameCandidate(g, ordered, c); }
  }

  lemma GreedyTakesMostFromEach(ordered: seq<Candidate>, l: Limits, t: seq<Candidate>, o: Origin)
    requires DistinctIds(ordered) && NoEmbeddings(ordered) && Descending(ordered)
    requires !Full(Greedy(ordered, l), l) && Feasible(t, ordered, l)
    ensures Count(t, o) <= Count(Greedy(ordered, l), o)
  {
    var g := Greedy(ordered, l);
    if c :| c in t && c.Origin() == o && c !in g {
      assert c.score >= l.floor;
      LeftOutMeansCapped(ordered, l, c);
    } else {
      GreedyIsSound(ordered, l);
      CountIsCardinality(t, o);
      CountIsCardinality(g, o);
      SubsetsAreSmaller(Members(t, o), Members(g, o));
    }
  }

  lemma GreedyTakesMost(ordered: seq<Candidate>, l: Limits, t: seq<Candidate>)
    requires DistinctIds(ordered) && NoEmbeddings(ordered) && Descending(ordered) && Feasible(t, ordered, l)
    ensures |t| <= |Greedy(ordered, l)|
  {
    if !Full(Greedy(ordered, l), l) {
      forall o ensures Count(t, o) <= Count(Greedy(ordered, l), o) { GreedyTakesMostFromEach(ordered, l, t, o); }
      FewerEverywhere(t, Greedy(ordered, l));
    }
  }

  // ----- position by position -----

  /** How many of a descending sequence score at least `v`: they come first. */
  function Above(s: seq<Candidate>, v: real): (m: nat)
    ensures m <= |s|
  {
    if s == [] || s[0].score < v then 0 else 1 + Above(s[1..], v)
  }

  lemma {:induction false} AboveSplits(s: seq<Candidate>, v: real)
    requires Descending(s)
    ensures forall i :: 0 <= i < |s| ==> (s[i].score >= v <==> i < Above(s, v))
    decreases |s|
  {
    if s != [] && s[0].score >= v {
      AboveSplits(s[1..], v);
      forall i | 0 < i < |s| ensures s[i].score >= v <==> i < Above(s, v) { assert s[i] == s[1..][i - 1]; }
    }
  }

  lemma {:induction false} GreedyExtends(ordered: seq<Candidate>, l: Limits, m: nat)
    requires m <= |ordered|
    ensures Greedy(ordered[..m], l) <= Greedy(ordered, l)
    decreases |ordered|
  {
    if m == |ordered| {
      assert ordered[..m] == ordered;
    } else {
      assert ordered[..|ordered| - 1][..m] == ordered[..m];
      GreedyExtends(ordered[..|ordered| - 1], l, m);
      hide BlockedBy;
    }
  }

  /** Any part of a feasible choice is feasible for any sequence that holds it. */
  lemma PrefixFeasible(t: seq<Candidate>, k: nat, cs: seq<Candidate>, sub: seq<Candidate>, l: Limits)
    requires Feasible(t, cs, l) && k <= |t| && Drawn(t[..k], sub)
    ensures Feasible(t[..k], sub, l)
  {
    var u := t[..k];
    assert t == u + t[k..];
    forall i | 0 <= i < |u| ensures Count(u, u[i].Origin()) <= Cap(l, u[i].source) {
      CountAppend(u, t[k..], u[i].Origin());
      assert u[i] == t[i];
    }
  }

  lemma IthBest(ordered: seq<Candidate>, l: Limits, t: seq<Candidate>, i: nat)
    requires DistinctIds(ordered) && NoEmbeddings(ordered) && Descending(ordered)
    requires Feasible(t, ordered, l) && Descending(t) && i < |t|
    ensures i < |Greedy(ordered, l)| && Greedy(ordered, l)[i].score >= t[i].score
  {
    var v := t[i].score;
    var m := Above(ordered, v);
    AboveSplits(ordered, v);
    var top := ordered[..m];
    var u := t[..i + 1];
    forall k | 0 <= k < |u| ensures u[k] in top {
      assert t[k] in ordered;
      var j :| 0 <= j < |ordered| && ordered[j] == t[k];
      assert top[j] == t[k];
    }
    PrefixFeasible(t, i + 1, ordered, top, l);
    GreedyTakesMost(top, l, u);
    GreedyExtends(ordered, l, m);
    GreedyIsSound(top, l);
    var g := Greedy(top, l);
    assert g[i] in top;
    var j :| 0 <= j < |top| && top[j] == g[i];
  }

  // ----- the theorems -----

  lemma {:induction false} InsertKeepsTotal(c: Candidate, s: seq<Candidate>)
    ensures Total(Insert(c, s)) == c.score + Total(s)
    decreases |s|
  {
    if s == [] || s[0].score <= c.score {
      assert ([c] + s)[1..] == s;
    } else {
      InsertKeepsTotal(c, s[1..]);
      assert ([s[0]] + Insert(c, s[1..]))[1..] == Insert(c, s[1..]);
    }
  }

  lemma {:induction false} RankedKeepsTotal(s: seq<Candidate>)
    ensures Total(Ranked(s)) == Total(s)
    decreases |s|
  {
    if s != [] {
      RankedKeepsTotal(s[1..]);
      InsertKeepsTotal(s[0], Ranked(s[1..]));
    }
  }

  lemma {:induction false} TotalsCompare(s: seq<Candidate>, t: seq<Candidate>)
    requires |t| <= |s|
    requires forall i :: 0 <= i < |t| ==> s[i].score >= t[i].score
    requires forall i :: 0 <= i < |s| ==> s[i].score >= 0.0
    ensures Total(s) >= Total(t)
    decreases |s|
  {
    if s != [] {
      if t == [] { TotalsCompare(s[1..], []); } else { TotalsCompare(s[1..], t[1..]); }
    }
  }

  lemma RankedFeasible(t: seq<Candidate>, cs: seq<Candidate>, l: Limits)
    requires Feasible(t, cs, l)
    ensures Feasible(Ranked(t), Ranked(cs), l)
  {
    var r := Ranked(t);
    RankedSorts(t);
    RankedSorts(cs);
    RankedKeepsDistinct(t);
    PermutedBasics(t, r, cs, l);
    forall i | 0 <= i < |r| ensures r[i] in Ranked(cs) && Count(r, r[i].Origin()) <= Cap(l, r[i].source) {
      assert r[i] in multiset(cs);
      assert r[i] in multiset(t);
      var k :| 0 <= k < |t| && t[k] == r[i];
      RankedKeepsCount(t, r[i].Origin());
    }
  }

  /** The i-th best selected item scores at least as high as the i-th best of any feasible
      choice. */
  lemma SelectionDominates(cs: seq<Candidate>, l: Limits, t: seq<Candidate>)
    requires DistinctIds(cs) && NoEmbeddings(cs) && SwappedIn(cs, l) == [] && Feasible(t, cs, l)
    ensures |t| <= |Select(cs, l)| && |Ranked(t)| == |t|
    ensures forall i :: 0 <= i < |t| ==> Select(cs, l)[i].score >= Ranked(t)[i].score
  {
    var ordered, r := Ranked(cs), Ranked(t);
    RankedSorts(cs);
    RankedSorts(t);
    RankedKeepsDistinct(cs);
    RankedFeasible(t, cs, l);
    forall i | 0 <= i < |ordered| ensures ordered[i].embedding == [] { assert ordered[i] in multiset(cs); }
    GreedyTakesMost(ordered, l, r);
    forall i | 0 <= i < |t| ensures Select(cs, l)[i].score >= r[i].score { IthBest(ordered, l, r, i); }
  }

  /** And the selection has the greatest total. */
  lemma SelectionIsOptimal(cs: seq<Candidate>, l: Limits, t: seq<Candidate>)
    requires DistinctIds(cs) && NoEmbeddings(cs) && SwappedIn(cs, l) == [] && Feasible(t, cs, l)
    requires forall i :: 0 <= i < |cs| ==> cs[i].score >= 0.0
    ensures Feasible(Select(cs, l), cs, l) && Total(Select(cs, l)) >= Total(t)
  {
    SelectionDominates(cs, l, t);
    SelectionIsSound(cs, l);
    CapsHoldUnlessTheSwapIgnoresOne(cs, l);
    RankedKeepsTotal(t);
    var r := Select(cs, l);
    forall i | 0 <= i < |r| ensures r[i].score >= 0.0 { assert r[i] in cs; }
    TotalsCompare(r, Ranked(t));
  }

  lemma {:induction false} NoAlternate(ordered: seq<Candidate>, s: seq<Candidate>, l: Limits)
    requires s != [] && forall i :: 0 <= i < |ordered| ==> ordered[i].source == s[0].source
    ensures Alternate(ordered, s, l) == []
    decreases |ordered|
  {
    if ordered != [] { NoAlternate(ordered[1..], s, l); }
  }

  /** Candidates of one source type are never swapped, so for them both theorems hold. */
  lemma OneTypeIsNeverSwapped(cs: seq<Candidate>, l: Limits)
    requires OneType(cs)
    ensures SwappedIn(cs, l) == []
  {
    RankedSorts(cs);
    var ordered := Ranked(cs);
    var s := Greedy(ordered, l);
    GreedyIsSound(ordered, l);
    if s != [] {
      forall i | 0 <= i < |ordered| ensures ordered[i].source == cs[0].source { assert ordered[i] in multiset(cs); }
      assert s[0] in ordered;
      NoAlternate(ordered, s, l);
    }
  }
}
