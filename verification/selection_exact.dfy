/** The selection without its loop: which candidates are taken, when the diversity step swaps,
    and which candidate it brings in. */
module SelectionExact {
  import opened Selection
  import opened SelectionSoundness

  // ----- similarity -----

  /** The dot product is the sum of the products, whichever way it is added up. */
  lemma {:induction false} DotIsTheSum(l: seq<real>, r: seq<real>, a: real, b: real)
    requires |l| == |r|
    ensures Dot([], []) == 0.0 && Dot(l + [a], r + [b]) == Dot(l, r) + a * b
    decreases |l|
  {
    if l != [] {
      assert (l + [a])[1..] == l[1..] + [a] && (r + [b])[1..] == r[1..] + [b];
      DotIsTheSum(l[1..], r[1..], a, b);
    } else {
      assert [a][1..] == [] && [b][1..] == [];
    }
  }

  /** The cosine of the source, given the root of the product of the squared norms. */
  function Cosine(l: seq<real>, r: seq<real>, root: real): real {
    if |l| != |r| || l == [] || root == 0.0 then 0.0 else Dot(l, r) / root
  }

  /** The root-free test compares the cosine on all vectors, the degenerate ones included. */
  lemma CosineAboveIsExact(l: seq<real>, r: seq<real>, t: real, root: real)
    requires root >= 0.0 && (|l| == |r| ==> root * root == Dot(l, l) * Dot(r, r))
    ensures CosineAbove(l, r, t) <==> Cosine(l, r, root) > t
  {
    if |l| == |r| && l != [] {
      assert Times(root, root) == Times(Dot(l, l), Dot(r, r));
      if root > 0.0 {
        TimesOrders(root, root, root);
        CosineAboveComparesTheQuotient(l, r, t, root);
      }
    }
  }

  // ----- which candidates are taken -----

  /** The taken positions before `i`. */
  function Earlier(taken: set<nat>, i: nat): set<nat> {
    set k | k in taken && k < i
  }

  /** Those of the same document, ticket or other source. */
  function SameSource(ordered: seq<Candidate>, taken: set<nat>, i: nat): set<nat>
    requires i < |ordered|
  {
    set k | k in taken && k < i && ordered[k].source == ordered[i].source && ordered[k].sourceId == ordered[i].sourceId
  }

  predicate SameChunk(a: Candidate, b: Candidate) {
    a.source == b.source && a.sourceId == b.sourceId && a.chunkId == b.chunkId
  }

  predicate TooClose(a: Candidate, b: Candidate, t: real) {
    a.embedding != [] && b.embedding != [] && CosineAbove(a.embedding, b.embedding, t)
  }

  /** What is asked of the candidate at position `i`, given the positions taken before it. */
  predicate Qualifies(ordered: seq<Candidate>, l: Limits, taken: set<nat>, i: nat)
    requires i < |ordered|
  {
    var c := ordered[i];
    && c.score >= l.floor
    && (l.topK >= 1 ==> |Earlier(taken, i)| < l.topK)
    && |SameSource(ordered, taken, i)| < (if c.source == Manual then l.perDocument else l.perTicket)
    && (forall k :: k in taken && k < i ==> !SameChunk(ordered[k], c) && !TooClose(c, ordered[k], l.threshold))
  }

  /** A position is taken exactly when it qualifies. */
  predicate TakenRight(ordered: seq<Candidate>, l: Limits, taken: set<nat>) {
    && (forall k :: k in taken ==> k < |ordered|)
    && (forall i :: 0 <= i < |ordered| ==> (i in taken <==> Qualifies(ordered, l, taken, i)))
  }

  /** The candidates at the taken positions, in order. */
  function Items(ordered: seq<Candidate>, taken: set<nat>): seq<Candidate>
    decreases |ordered|
  {
    if ordered == [] then []
    else
      var n := |ordered| - 1;
      Items(ordered[..n], taken) + (if n in taken then [ordered[n]] else [])
  }

  lemma {:induction false} ItemsSize(ordered: seq<Candidate>, taken: set<nat>)
    ensures |Items(ordered, taken)| == |Earlier(taken, |ordered|)|
    decreases |ordered|
  {
    if ordered == [] {
      assert Earlier(taken, 0) == {};
    } else {
      var n := |ordered| - 1;
      ItemsSize(ordered[..n], taken);
      assert Earlier(taken, |ordered|) == Earlier(taken, n) + (if n in taken then {n} else {});
    }
  }

  function OfOrigin(ordered: seq<Candidate>, taken: set<nat>, o: Origin): set<nat> {
    set k | k in taken && k < |ordered| && ordered[k].Origin() == o
  }

  lemma OneMoreOfOrigin(before: seq<Candidate>, c: Candidate, taken: set<nat>, o: Origin)
    ensures |OfOrigin(before + [c], taken, o)|
              == |OfOrigin(before, taken, o)| + if |before| in taken && c.Origin() == o then 1 else 0
  {
    var n := |before|;
    var some, all := OfOrigin(before, taken, o), OfOrigin(before + [c], taken, o);
    forall k | k in taken && k < n ensures k in all <==> k in some {}
    assert all == if n in taken && c.Origin() == o then some + {n} else some;
  }

  lemma {:induction false} ItemsCount(ordered: seq<Candidate>, taken: set<nat>, o: Origin)
    ensures Count(Items(ordered, taken), o) == |OfOrigin(ordered, taken, o)|
    decreases |ordered|
  {
    if ordered == [] {
      assert OfOrigin(ordered, taken, o) == {};
    } else {
      var n := |ordered| - 1;
      var kept, last := Items(ordered[..n], taken), ordered[n];
      ItemsCount(ordered[..n], taken, o);
      assert ordered == ordered[..n] + [last];
      OneMoreOfOrigin(ordered[..n], last, taken, o);
      assert (kept + [last])[..|kept|] == kept && kept + [] == kept;
      hide OfOrigin;
    }
  }

  lemma {:induction false} ItemsMembers(ordered: seq<Candidate>, taken: set<nat>, c: Candidate)
    ensures c in Items(ordered, taken) <==> exists k :: k in taken && k < |ordered| && ordered[k] == c
    decreases |ordered|
  {
    if ordered != [] {
      var n := |ordered| - 1;
      var before := ordered[..n];
      ItemsMembers(before, taken, c);
      if k :| k in taken && k < n && before[k] == c { assert ordered[k] == c; }
      if k :| k in taken && k < |ordered| && ordered[k] == c {
        if k < n { assert before[k] == c; }
      }
    }
  }

  /** The loop's test is the one above. */
  lemma BlockedMeansUnqualified(before: seq<Candidate>, c: Candidate, l: Limits, taken: set<nat>)
    requires l.topK >= 1 ==> |Items(before, taken)| <= l.topK
    ensures var s := Items(before, taken);
            Full(s, l) || c.score < l.floor || BlockedBy(s, c, l) <==> !Qualifies(before + [c], l, taken, |before|)
  {
    var s, ordered, n := Items(before, taken), before + [c], |before|;
    ItemsSize(before, taken);
    ItemsCount(before, taken, c.Origin());
    assert SameSource(ordered, taken, n)
        == OfOrigin(before, taken, c.Origin());
    forall d ensures d in s <==> exists k :: k in taken && k < n && before[k] == d { ItemsMembers(before, taken, d); }
    if i :| 0 <= i < |s| && (s[i].Id() == c.Id() || Similar(c, s[i], l.threshold)) {
      assert s[i] in s;
      var k :| k in taken && k < n && before[k] == s[i];
      assert ordered[k] == s[i];
    }
    if k :| k in taken && k < n && (SameChunk(ordered[k], c) || TooClose(c, ordered[k], l.threshold)) {
      assert before[k] in s;
      var i :| 0 <= i < |s| && s[i] == before[k];
    }
  }

  /** Qualifying depends on what comes before only. */
  lemma QualifiesInPrefix(ordered: seq<Candidate>, l: Limits, taken: set<nat>, n: nat, i: nat)
    requires i < n <= |ordered|
    ensures Qualifies(ordered[..n], l, Earlier(taken, n), i) <==> Qualifies(ordered, l, taken, i)
  {
    var prefix, fewer := ordered[..n], Earlier(taken, n);
    assert Earlier(fewer, i) == Earlier(taken, i);
    assert SameSource(prefix, fewer, i) == SameSource(ordered, taken, i);
    forall k | k in taken && k < i ensures prefix[k] == ordered[k] && k in fewer {}
  }

  lemma {:induction false} ItemsIgnoreTheRest(ordered: seq<Candidate>, taken: set<nat>, more: set<nat>)
    requires forall k :: 0 <= k < |ordered| ==> (k in taken <==> k in more)
    ensures Items(ordered, taken) == Items(ordered, more)
    decreases |ordered|
  {
    if ordered != [] { ItemsIgnoreTheRest(ordered[..|ordered| - 1], taken, more); }
  }

  /** The pass takes exactly the qualifying positions: no other set of positions is right. */
  lemma {:induction false} GreedyTakesExactly(ordered: seq<Candidate>, l: Limits, taken: set<nat>)
    requires Descending(ordered) && TakenRight(ordered, l, taken)
    ensures Greedy(ordered, l) == Items(ordered, taken)
    decreases |ordered|
  {
    if ordered != [] {
      var n := |ordered| - 1;
      var before, c, fewer := ordered[..n], ordered[n], Earlier(taken, n);
      assert ordered == before + [c];
      forall i | 0 <= i < n ensures i in fewer <==> Qualifies(before, l, fewer, i) {
        QualifiesInPrefix(ordered, l, taken, n, i);
      }
      GreedyTakesExactly(before, l, fewer);
      ItemsIgnoreTheRest(before, fewer, taken);
      GreedyIsSound(before, l);
      hide Qualifies, BlockedBy, Full;
      BlockedMeansUnqualified(before, c, l, taken);
    }
  }

  /** And there is such a set. */
  lemma {:induction false} SomeAreTaken(ordered: seq<Candidate>, l: Limits) returns (taken: set<nat>)
    ensures TakenRight(ordered, l, taken)
    decreases |ordered|
  {
    if ordered == [] {
      taken := {};
    } else {
      var n := |ordered| - 1;
      var fewer := SomeAreTaken(ordered[..n], l);
      taken := if Qualifies(ordered, l, fewer, n) then fewer + {n} else fewer;
      forall i | 0 <= i <= n ensures i in taken <==> Qualifies(ordered, l, taken, i) {
        if i < n {
          QualifiesInPrefix(ordered, l, taken, n, i);
          assert Earlier(taken, n) == fewer;
        } else {
          assert Earlier(taken, n) == Earlier(fewer, n);
          assert SameSource(ordered, taken, n) == SameSource(ordered, fewer, n);
        }
      }
    }
  }

  // ----- the diversity step -----

  /** One type of source, and at least two items. */
  predicate Uniform(s: seq<Candidate>) {
    |s| >= 2 && forall i, j :: 0 <= i < |s| && 0 <= j < |s| ==> s[i].source == s[j].source
  }

  /** Above the floor, of a type that is not selected, and not selected itself. */
  predicate CouldEnter(c: Candidate, s: seq<Candidate>, l: Limits) {
    c.score >= l.floor && forall i :: 0 <= i < |s| ==> s[i].source != c.source && !SameChunk(s[i], c)
  }

  /** Position `i` is the first that could enter. */
  predicate FirstEntry(ordered: seq<Candidate>, i: nat, s: seq<Candidate>, l: Limits) {
    && i < |ordered| && CouldEnter(ordered[i], s, l)
    && forall j :: 0 <= j < i ==> !CouldEnter(ordered[j], s, l)
  }

  lemma {:induction false} AlternateIsFirst(ordered: seq<Candidate>, s: seq<Candidate>, l: Limits)
    returns (i: nat)
    requires OneType(s)
    ensures if Alternate(ordered, s, l) == [] then forall j :: 0 <= j < |ordered| ==> !CouldEnter(ordered[j], s, l)
            else FirstEntry(ordered, i, s, l) && Alternate(ordered, s, l) == [ordered[i]]
    decreases |ordered|
  {
    i := 0;
    if ordered != [] {
      var c, rest := ordered[0], ordered[1..];
      assert SeenIn(s, c.Id()) <==> exists i :: 0 <= i < |s| && SameChunk(s[i], c);
      assert CouldEnter(c, s, l) <==> c.source != s[0].source && c.score >= l.floor && !SeenIn(s, c.Id());
      hide CouldEnter, OneType, SeenIn;
      if !CouldEnter(c, s, l) {
        var k := AlternateIsFirst(rest, s, l);
        i := k + 1;
        forall j | 0 < j < |ordered| ensures ordered[j] == rest[j - 1] {}
      }
    }
  }

  /** The item that enters is a best one of those that could, and among equals the first. */
  predicate BestEntry(ordered: seq<Candidate>, a: Candidate, s: seq<Candidate>, l: Limits) {
    exists i :: 0 <= i < |ordered| && ordered[i] == a && FirstEntry(ordered, i, s, l)
      && forall j :: 0 <= j < |ordered| && CouldEnter(ordered[j], s, l) ==> ordered[j].score <= a.score
  }

  /** The result when the taken candidates are of one type and `a` enters for the lowest. */
  predicate Replaced(r: seq<Candidate>, s: seq<Candidate>, a: Candidate) {
    && s != [] && Descending(r) && multiset(r) == multiset(s[..|s| - 1]) + multiset{a}
    && forall i :: 0 <= i < |s| ==> s[i].score >= s[|s| - 1].score
  }

  lemma ReplacingTheLowest(s: seq<Candidate>, a: Candidate)
    requires s != [] && Descending(s)
    ensures Replaced(Ranked(s[..|s| - 1] + [a]), s, a)
  {
    RankedSorts(s[..|s| - 1] + [a]);
  }

  lemma TheFirstIsBest(ordered: seq<Candidate>, i: nat, s: seq<Candidate>, l: Limits)
    requires Descending(ordered) && FirstEntry(ordered, i, s, l)
    ensures BestEntry(ordered, ordered[i], s, l)
  {
    hide CouldEnter;
  }

  lemma FirstCouldEnter(ordered: seq<Candidate>, i: nat, s: seq<Candidate>, l: Limits)
    requires FirstEntry(ordered, i, s, l)
    ensures i < |ordered| && CouldEnter(ordered[i], s, l)
  {
  }

  lemma UniformIsOneType(s: seq<Candidate>)
    ensures Uniform(s) <==> OneType(s) && |s| >= 2
  {
  }

  lemma SwapIsExact(cs: seq<Candidate>, l: Limits)
    requires Uniform(Greedy(Ranked(cs), l))
    ensures var ordered, s := Ranked(cs), Greedy(Ranked(cs), l);
            if exists c :: c in ordered && CouldEnter(c, s, l) then
              exists a :: BestEntry(ordered, a, s, l) && Replaced(Select(cs, l), s, a)
            else Select(cs, l) == s
  {
    var ordered, s := Ranked(cs), Greedy(Ranked(cs), l);
    hide CouldEnter, Ranked, Greedy, Alternate, OneType, Uniform, Descending, BestEntry, Replaced, FirstEntry;
    RankedSorts(cs);
    GreedyIsSound(ordered, l);
    UniformIsOneType(s);
    var i := AlternateIsFirst(ordered, s, l);
    if Alternate(ordered, s, l) != [] {
      FirstCouldEnter(ordered, i, s, l);
      TheFirstIsBest(ordered, i, s, l);
      ReplacingTheLowest(s, ordered[i]);
    }
  }

  /** The whole selection, in terms of the candidates by descending score: the qualifying ones
      are taken and no others. If they are of one type and one of another type could enter,
      the best such one replaces the lowest. */
  lemma SelectionIsExact(cs: seq<Candidate>, l: Limits, taken: set<nat>)
    requires TakenRight(Ranked(cs), l, taken)
    ensures var ordered, s := Ranked(cs), Items(Ranked(cs), taken);
            if Uniform(s) && exists c :: c in cs && CouldEnter(c, s, l) then
              exists a :: BestEntry(ordered, a, s, l) && Replaced(Select(cs, l), s, a)
            else Select(cs, l) == s
  {
    var ordered := Ranked(cs);
    RankedSorts(cs);
    GreedyTakesExactly(ordered, l, taken);
    forall c ensures c in cs <==> c in ordered { assert c in multiset(cs) <==> c in multiset(ordered); }
    if Uniform(Greedy(ordered, l)) {
      SwapIsExact(cs, l);
    } else {
      assert SwappedIn(cs, l) == [];
    }
    hide CouldEnter, Ranked, Greedy, Items, Alternate, BestEntry, Replaced;
  }
}
