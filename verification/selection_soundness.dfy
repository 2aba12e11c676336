/** What the selection promises on any mix of sources: order, bounds and distinctness, and
    that nothing was passed over without a reason. */
module SelectionSoundness {
  import opened Selection

  predicate DistinctIds(s: seq<Candidate>) {
    forall i, j :: 0 <= i < j < |s| ==> s[i].Id() != s[j].Id()
  }

  predicate AboveFloor(s: seq<Candidate>, l: Limits) {
    forall i :: 0 <= i < |s| ==> s[i].score >= l.floor
  }

  predicate WithinCaps(s: seq<Candidate>, l: Limits) {
    forall i :: 0 <= i < |s| ==> Count(s, s[i].Origin()) <= Cap(l, s[i].source)
  }

  /** No item resembles an earlier one. */
  predicate Diverse(s: seq<Candidate>, l: Limits) {
    forall i, j :: 0 <= i < j < |s| ==> !Similar(s[j], s[i], l.threshold)
  }

  predicate Drawn(s: seq<Candidate>, from: seq<Candidate>) {
    forall i :: 0 <= i < |s| ==> s[i] in from
  }

  // ----- counting -----

  lemma {:induction false} CountAppend(s: seq<Candidate>, t: seq<Candidate>, o: Origin)
    ensures Count(s + t, o) == Count(s, o) + Count(t, o)
    decreases |t|
  {
    if t == [] {
      assert s + t == s;
    } else {
      assert (s + t)[..|s + t| - 1] == s + t[..|t| - 1];
      CountAppend(s, t[..|t| - 1], o);
    }
  }

  lemma {:induction false} CountAbsent(s: seq<Candidate>, o: Origin)
    requires forall i :: 0 <= i < |s| ==> s[i].Origin() != o
    ensures Count(s, o) == 0
    decreases |s|
  {
    if s != [] { CountAbsent(s[..|s| - 1], o); }
  }

  lemma {:induction false} InsertKeepsCount(c: Candidate, s: seq<Candidate>, o: Origin)
    ensures Count(Insert(c, s), o) == Count([c], o) + Count(s, o)
    decreases |s|
  {
    if s == [] || s[0].score <= c.score {
      CountAppend([c], s, o);
    } else {
      InsertKeepsCount(c, s[1..], o);
      CountAppend([s[0]], Insert(c, s[1..]), o);
      CountAppend([s[0]], s[1..], o);
      assert s == [s[0]] + s[1..];
    }
  }

  lemma {:induction false} RankedKeepsCount(s: seq<Candidate>, o: Origin)
    ensures Count(Ranked(s), o) == Count(s, o)
    decreases |s|
  {
    if s != [] {
      RankedKeepsCount(s[1..], o);
      InsertKeepsCount(s[0], Ranked(s[1..]), o);
      CountAppend([s[0]], s[1..], o);
      assert s == [s[0]] + s[1..];
    }
  }

  lemma {:induction false} InsertKeepsDistinct(c: Candidate, s: seq<Candidate>)
    requires DistinctIds(s) && !SeenIn(s, c.Id())
    ensures DistinctIds(Insert(c, s))
    decreases |s|
  {
    if s != [] && s[0].score > c.score {
      assert !SeenIn(s[1..], c.Id());
      InsertKeepsDistinct(c, s[1..]);
      var t := Insert(c, s[1..]);
      InsertPermutes(c, s[1..]);
      forall i | 0 <= i < |t| ensures s[0].Id() != t[i].Id() {
        assert t[i] in multiset(t);
        assert t[i] == c || t[i] in s[1..];
      }
    }
  }

  lemma {:induction false} RankedKeepsDistinct(s: seq<Candidate>)
    requires DistinctIds(s)
    ensures DistinctIds(Ranked(s))
    decreases |s|
  {
    if s != [] {
      RankedKeepsDistinct(s[1..]);
      RankedSorts(s[1..]);
      var r := Ranked(s[1..]);
      forall i | 0 <= i < |r| ensures r[i].Id() != s[0].Id() {
        assert r[i] in multiset(s[1..]);
      }
      InsertKeepsDistinct(s[0], r);
    }
  }

  // ----- the greedy pass -----

  predicate GreedyInvariant(s: seq<Candidate>, ordered: seq<Candidate>, l: Limits) {
    && Descending(s) && DistinctIds(s) && AboveFloor(s, l) && WithinCaps(s, l) && Diverse(s, l) && Drawn(s, ordered)
    && (l.topK >= 1 ==> |s| <= l.topK)
    && |s| <= |ordered|
  }

  lemma AppendKeepsInvariant(s: seq<Candidate>, c: Candidate, before: seq<Candidate>, l: Limits)
    requires GreedyInvariant(s, before, l) && !Full(s, l) && c.score >= l.floor && !BlockedBy(s, c, l)
    requires forall i :: 0 <= i < |before| ==> before[i].score >= c.score
    ensures GreedyInvariant(s + [c], before + [c], l)
  {
    var t := s + [c];
    assert [c][..0] == [];
    forall i | 0 <= i < |t| ensures Count(t, t[i].Origin()) <= Cap(l, t[i].source) {
      CountAppend(s, [c], t[i].Origin());
      assert Count([c], t[i].Origin()) == if c.Origin() == t[i].Origin() then 1 else 0;
    }
    forall i | 0 <= i < |s| ensures s[i].score >= c.score { assert s[i] in before; }
    forall i, j | 0 <= i < j < |t|
        ensures !Similar(t[j], t[i], l.threshold) && t[i].Id() != t[j].Id() && t[i].score >= t[j].score {
      if j == |s| { assert !SimilarIn(s, c, l.threshold) && !SeenIn(s, c.Id()); }
    }
  }

  lemma {:induction false} GreedyIsSound(ordered: seq<Candidate>, l: Limits)
    requires Descending(ordered)
    ensures GreedyInvariant(Greedy(ordered, l), ordered, l)
    decreases |ordered|
  {
    if ordered != [] {
      var before, c := ordered[..|ordered| - 1], ordered[|ordered| - 1];
      GreedyIsSound(before, l);
      var s := Greedy(before, l);
      assert ordered == before + [c];
      if !Full(s, l) && c.score >= l.floor && !BlockedBy(s, c, l) {
        AppendKeepsInvariant(s, c, before, l);
      }
    }
  }

  lemma StaysBlocked(s: seq<Candidate>, t: seq<Candidate>, c: Candidate, l: Limits)
    requires BlockedBy(s, c, l)
    ensures BlockedBy(s + t, c, l)
  {
    CountAppend(s, t, c.Origin());
    if SeenIn(s, c.Id()) {
      var i :| 0 <= i < |s| && s[i].Id() == c.Id();
      assert (s + t)[i].Id() == c.Id();
    }
    if SimilarIn(s, c, l.threshold) {
      var i :| 0 <= i < |s| && Similar(c, s[i], l.threshold);
      assert Similar(c, (s + t)[i], l.threshold);
    }
  }

  /** The selection is not full, so everything above the floor was taken or is blocked. */
  lemma {:induction false} GreedyIsMaximal(ordered: seq<Candidate>, l: Limits)
    requires !Full(Greedy(ordered, l), l)
    ensures forall i :: 0 <= i < |ordered| && ordered[i].score >= l.floor && ordered[i] !in Greedy(ordered, l) ==>
              BlockedBy(Greedy(ordered, l), ordered[i], l)
    decreases |ordered|
  {
    if ordered != [] {
      var before, c := ordered[..|ordered| - 1], ordered[|ordered| - 1];
      var s, t := Greedy(before, l), Greedy(ordered, l);
      assert !Full(s, l);
      GreedyIsMaximal(before, l);
      if t != s {
        assert t[|s|] == c;
        forall i | 0 <= i < |before| && before[i].score >= l.floor && before[i] !in t
            ensures BlockedBy(t, before[i], l) {
          assert before[i] !in s;
          StaysBlocked(s, [c], before[i], l);
        }
      }
    }
  }

  // ----- the diversity swap -----

  lemma {:induction false} AlternateQualifies(ordered: seq<Candidate>, s: seq<Candidate>, l: Limits)
    requires s != []
    ensures |Alternate(ordered, s, l)| <= 1
    ensures Alternate(ordered, s, l) != [] ==>
              var a := Alternate(ordered, s, l)[0];
              a in ordered && a.source != s[0].source && a.score >= l.floor && !SeenIn(s, a.Id())
    decreases |ordered|
  {
    if ordered != [] { AlternateQualifies(ordered[1..], s, l); }
  }

  lemma DrawnFromInput(cs: seq<Candidate>, s: seq<Candidate>)
    requires Drawn(s, Ranked(cs))
    ensures Drawn(s, cs)
  {
    RankedSorts(cs);
    forall i | 0 <= i < |s| ensures s[i] in cs { assert s[i] in multiset(Ranked(cs)); }
  }

  lemma PermutedBasics(s: seq<Candidate>, t: seq<Candidate>, from: seq<Candidate>, l: Limits)
    requires multiset(s) == multiset(t) && AboveFloor(s, l) && Drawn(s, from)
    ensures AboveFloor(t, l) && Drawn(t, from)
  {
    forall i | 0 <= i < |t| ensures t[i].score >= l.floor && t[i] in from { assert t[i] in multiset(s); }
  }

  /** After the swap, before the final sort. */
  function Swapped(cs: seq<Candidate>, l: Limits): seq<Candidate>
    requires SwappedIn(cs, l) != []
  {
    var s := Greedy(Ranked(cs), l);
    s[..|s| - 1] + SwappedIn(cs, l)
  }

  /** Replacing the last item by one that is not there yet. */
  lemma ReplacementIsSound(s: seq<Candidate>, a: Candidate, from: seq<Candidate>, l: Limits)
    requires s != [] && DistinctIds(s) && AboveFloor(s, l) && Drawn(s, from)
    requires a in from && a.score >= l.floor && !SeenIn(s, a.Id())
    ensures var t := s[..|s| - 1] + [a];
            DistinctIds(t) && AboveFloor(t, l) && Drawn(t, from) && |t| == |s|
  {
  }

  /** What is known of the selection and the item when there is a swap. */
  lemma WhenSwapped(cs: seq<Candidate>, l: Limits)
    requires SwappedIn(cs, l) != []
    ensures var s := Greedy(Ranked(cs), l);
            s != [] && GreedyInvariant(s, Ranked(cs), l) && |SwappedIn(cs, l)| == 1
            && forall i :: 0 <= i < |s| ==> s[i].source != SwappedIn(cs, l)[0].source
    ensures var a := SwappedIn(cs, l)[0];
            a in Ranked(cs) && a.score >= l.floor && !SeenIn(Greedy(Ranked(cs), l), a.Id())
  {
    RankedSorts(cs);
    GreedyIsSound(Ranked(cs), l);
    AlternateQualifies(Ranked(cs), Greedy(Ranked(cs), l), l);
    hide Ranked, Greedy, Alternate, SeenIn, GreedyInvariant;
  }

  lemma SwapIsSound(cs: seq<Candidate>, l: Limits)
    requires SwappedIn(cs, l) != []
    ensures |SwappedIn(cs, l)| == 1
    ensures var t := Swapped(cs, l);
            DistinctIds(t) && AboveFloor(t, l) && Drawn(t, cs) && |t| == |Greedy(Ranked(cs), l)|
  {
    hide Ranked, Greedy, Alternate, SwappedIn, SeenIn, DistinctIds, AboveFloor, Drawn, Descending, WithinCaps, Diverse;
    WhenSwapped(cs, l);
    var a := SwappedIn(cs, l)[0];
    ReplacementIsSound(Greedy(Ranked(cs), l), a, Ranked(cs), l);
    assert SwappedIn(cs, l) == [a];
    DrawnFromInput(cs, Swapped(cs, l));
  }

  /** Replacing the last item by one of another type. */
  lemma ReplacementCounts(s: seq<Candidate>, a: Candidate, l: Limits)
    requires s != [] && WithinCaps(s, l) && forall i :: 0 <= i < |s| ==> s[i].source != a.source
    ensures var t := s[..|s| - 1] + [a];
            (forall i :: 0 <= i < |t| - 1 ==> Count(t, t[i].Origin()) <= Cap(l, t[i].source))
            && Count(t, a.Origin()) == 1
  {
    var kept, last := s[..|s| - 1], s[|s| - 1];
    var t := kept + [a];
    assert [a][..0] == [] && s == kept + [last];
    forall i | 0 <= i < |t| - 1 ensures Count(t, t[i].Origin()) <= Cap(l, t[i].source) {
      CountAppend(kept, [a], s[i].Origin());
      CountAppend(kept, [last], s[i].Origin());
      assert t[i] == s[i] && Count([a], s[i].Origin()) == 0;
    }
    CountAppend(kept, [a], a.Origin());
    CountAbsent(kept, a.Origin());
  }

  lemma SwapCounts(cs: seq<Candidate>, l: Limits)
    requires SwappedIn(cs, l) != []
    ensures var t, a := Swapped(cs, l), SwappedIn(cs, l)[0];
            (forall i :: 0 <= i < |t| - 1 ==> Count(t, t[i].Origin()) <= Cap(l, t[i].source))
            && Count(t, a.Origin()) == 1
  {
    hide Ranked, Greedy, Alternate, Count, SwappedIn, WithinCaps, SeenIn, DistinctIds, AboveFloor, Drawn,
        Descending, Diverse;
    WhenSwapped(cs, l);
    var s, a := Greedy(Ranked(cs), l), SwappedIn(cs, l)[0];
    ReplacementCounts(s, a, l);
    assert SwappedIn(cs, l) == [a];
  }

  /** On any mix of sources the selection is sorted, free of repeated identities, above the
      floor, drawn from the candidates, and no larger than a positive `topK`. */
  lemma SelectionIsSound(cs: seq<Candidate>, l: Limits)
    ensures var r := Select(cs, l);
            Descending(r) && DistinctIds(r) && AboveFloor(r, l) && Drawn(r, cs) && (l.topK >= 1 ==> |r| <= l.topK)
  {
    RankedSorts(cs);
    GreedyIsSound(Ranked(cs), l);
    if SwappedIn(cs, l) == [] {
      DrawnFromInput(cs, Greedy(Ranked(cs), l));
    } else {
      SwapIsSound(cs, l);
      var t := Swapped(cs, l);
      RankedSorts(t);
      PermutedBasics(t, Ranked(t), cs, l);
      RankedKeepsDistinct(t);
    }
  }

  /** The per-source caps hold after the swap exactly when the swapped-in item's own source is
      allowed any result at all: the swap does not look at its cap. */
  lemma CapsHoldUnlessTheSwapIgnoresOne(cs: seq<Candidate>, l: Limits)
    ensures WithinCaps(Select(cs, l), l) <==>
              (SwappedIn(cs, l) == [] || Cap(l, SwappedIn(cs, l)[0].source) >= 1)
  {
    RankedSorts(cs);
    GreedyIsSound(Ranked(cs), l);
    if SwappedIn(cs, l) != [] {
      SwapIsSound(cs, l);
      SwapCounts(cs, l);
      var t, a := Swapped(cs, l), SwappedIn(cs, l)[0];
      var r := Ranked(t);
      RankedSorts(t);
      forall o ensures Count(r, o) == Count(t, o) { RankedKeepsCount(t, o); }
      assert t[|t| - 1] == a;
      assert a in multiset(r);
      if Cap(l, a.source) >= 1 {
        forall i | 0 <= i < |r| ensures Count(r, r[i].Origin()) <= Cap(l, r[i].source) {
          assert r[i] in multiset(t);
          var k :| 0 <= k < |t| && t[k] == r[i];
        }
      }
    }
  }

  /** Two items that the swap did not bring in are never too similar. */
  lemma KeptItemsAreDiverse(cs: seq<Candidate>, l: Limits, a: Candidate, b: Candidate)
    requires a in Select(cs, l) && b in Select(cs, l) && a != b
    requires a !in SwappedIn(cs, l) && b !in SwappedIn(cs, l)
    ensures !Similar(a, b, l.threshold)
  {
    hide Similar, Count, WithinCaps, AboveFloor, DistinctIds;
    RankedSorts(cs);
    GreedyIsSound(Ranked(cs), l);
    var s := Greedy(Ranked(cs), l);
    if SwappedIn(cs, l) != [] {
      var t := Swapped(cs, l);
      RankedSorts(t);
      assert a in multiset(Ranked(t)) && b in multiset(Ranked(t));
      assert a in t && b in t;
    }
    assert a in s && b in s;
    var i :| 0 <= i < |s| && s[i] == a;
    var j :| 0 <= j < |s| && s[j] == b;
    SimilarIsSymmetric(a, b, l.threshold);
    if i < j { assert !Similar(s[j], s[i], l.threshold); } else { assert !Similar(s[i], s[j], l.threshold); }
  }

  /** When nothing was swapped in and there is room left, every candidate above the floor
      was taken or is blocked by an identity, a cap or a similar selected item. */
  lemma NothingIsPassedOver(cs: seq<Candidate>, l: Limits, c: Candidate)
    requires SwappedIn(cs, l) == [] && (l.topK < 1 || |Select(cs, l)| < l.topK)
    requires c in cs && c.score >= l.floor && c !in Select(cs, l)
    ensures BlockedBy(Select(cs, l), c, l)
  {
    RankedSorts(cs);
    GreedyIsMaximal(Ranked(cs), l);
    assert c in multiset(cs);
    assert c in multiset(Ranked(cs));
    var i :| 0 <= i < |Ranked(cs)| && Ranked(cs)[i] == c;
  }

  /** Only a positive `topK` limits the size: the loop stops after the append that reaches it. */
  lemma NonPositiveTopKDoesNotLimit(cs: seq<Candidate>, l: Limits)
    requires l.topK < 1
    ensures Select(cs, l) == Select(cs, l.(topK := |cs| + 1))
  {
    var ordered, big := Ranked(cs), l.(topK := |cs| + 1);
    RankedSorts(cs);
    UnlimitedGreedy(ordered, l, big);
    if Greedy(ordered, l) != [] { SameAlternate(ordered, Greedy(ordered, l), l, big); }
  }

  lemma {:induction false} UnlimitedGreedy(ordered: seq<Candidate>, l: Limits, big: Limits)
    requires l.topK < 1 && big == l.(topK := big.topK) && big.topK > |ordered|
    ensures Greedy(ordered, l) == Greedy(ordered, big) && |Greedy(ordered, l)| <= |ordered|
    decreases |ordered|
  {
    if ordered != [] {
      var before, c := ordered[..|ordered| - 1], ordered[|ordered| - 1];
      UnlimitedGreedy(before, l, big);
      SameBlocked(Greedy(before, l), c, l, big);
      hide BlockedBy;
    }
  }

  lemma SameBlocked(s: seq<Candidate>, c: Candidate, l: Limits, big: Limits)
    requires big == l.(topK := big.topK)
    ensures BlockedBy(s, c, l) == BlockedBy(s, c, big)
  {
    hide SeenIn, SimilarIn, Count;
    assert Cap(l, c.source) == Cap(big, c.source);
  }

  lemma {:induction false} SameAlternate(ordered: seq<Candidate>, s: seq<Candidate>, l: Limits, m: Limits)
    requires s != [] && l.floor == m.floor
    ensures Alternate(ordered, s, l) == Alternate(ordered, s, m)
    decreases |ordered|
  {
    if ordered != [] { SameAlternate(ordered[1..], s, l, m); }
  }

  predicate Admissible(c: Candidate, l: Limits) {
    c.score >= l.floor && Cap(l, c.source) >= 1
  }

  lemma {:induction false} GreedyTakesTheFirstAdmissible(ordered: seq<Candidate>, l: Limits)
    ensures Greedy(ordered, l) == [] <==> forall i :: 0 <= i < |ordered| ==> !Admissible(ordered[i], l)
    decreases |ordered|
  {
    if ordered != [] {
      var before, c := ordered[..|ordered| - 1], ordered[|ordered| - 1];
      GreedyTakesTheFirstAdmissible(before, l);
      assert BlockedBy([], c, l) <==> Cap(l, c.source) < 1;
      if Greedy(before, l) == [] {
        forall i | 0 <= i < |ordered| - 1 ensures !Admissible(ordered[i], l) { assert before[i] == ordered[i]; }
      }
    }
  }

  /** The size limit is kept exactly when it is positive, or zero with nothing to select. */
  lemma SizeLimitNeedsAPositiveTopK(cs: seq<Candidate>, l: Limits)
    ensures |Select(cs, l)| <= l.topK <==>
              l.topK >= 1 || (l.topK == 0 && forall i :: 0 <= i < |cs| ==> !Admissible(cs[i], l))
  {
    SelectionIsSound(cs, l);
    var ordered := Ranked(cs);
    RankedSorts(cs);
    GreedyTakesTheFirstAdmissible(ordered, l);
    if SwappedIn(cs, l) != [] {
      SwapIsSound(cs, l);
      RankedSorts(Swapped(cs, l));
    }
    if i :| 0 <= i < |cs| && Admissible(cs[i], l) {
      assert cs[i] in multiset(ordered);
    }
    if i :| 0 <= i < |ordered| && Admissible(ordered[i], l) {
      assert ordered[i] in multiset(cs);
    }
  }

  lemma {:induction false} RankedKeepsSorted(s: seq<Candidate>)
    requires Descending(s)
    ensures Ranked(s) == s
    decreases |s|
  {
    if s != [] { RankedKeepsSorted(s[1..]); }
  }

  lemma GreedyStep(before: seq<Candidate>, c: Candidate, l: Limits)
    ensures var s := Greedy(before, l);
            Greedy(before + [c], l) == if Full(s, l) || c.score < l.floor || BlockedBy(s, c, l) then s else s + [c]
  {
    assert (before + [c])[..|before|] == before;
  }

  predicate Uncapped(l: Limits, s: Source) {
    Cap(l, s) >= 1
  }

  /** Two items of one source type and a lower one of another. */
  function FirstOf(s: Source, l: Limits): Candidate { Candidate(s, "a", "", l.floor + 3.0, []) }
  function SecondOf(s: Source, l: Limits): Candidate { Candidate(s, "b", "", l.floor + 2.0, []) }
  function Other(s: Source, l: Limits): Candidate { Candidate(s, "c", "", l.floor + 1.0, []) }

  lemma SecondIsNotBlocked(s: Source, l: Limits)
    requires Uncapped(l, s)
    ensures !BlockedBy([], FirstOf(s, l), l) && !BlockedBy([FirstOf(s, l)], SecondOf(s, l), l)
  {
    var a, b := FirstOf(s, l), SecondOf(s, l);
    hide CosineAbove;
    assert [a][..0] == [] && a.Origin() != b.Origin() && a.Id() != b.Id();
    assert Count([a], b.Origin()) == 0;
  }

  lemma TwoAreTaken(s: Source, t: Source, l: Limits)
    requires s != t && Uncapped(l, s) && !Uncapped(l, t) && l.topK != 1
    ensures Greedy([FirstOf(s, l), SecondOf(s, l), Other(t, l)], l) == [FirstOf(s, l), SecondOf(s, l)]
  {
    var a, b, c := FirstOf(s, l), SecondOf(s, l), Other(t, l);
    SecondIsNotBlocked(s, l);
    assert BlockedBy([a, b], c, l) by { hide Count, SeenIn, SimilarIn; }
    assert Greedy([], l) == [];
    hide Greedy, BlockedBy;
    GreedyStep([], a, l);
    assert [] + [a] == [a];
    GreedyStep([a], b, l);
    assert [a] + [b] == [a, b];
    GreedyStep([a, b], c, l);
    assert [a, b] + [c] == [a, b, c];
  }

  /** An item enters although its source is allowed no result at all. */
  lemma ASwapBreaksTheCap(s: Source, t: Source, l: Limits)
    requires s != t && Uncapped(l, s) && !Uncapped(l, t) && l.topK != 1
    ensures exists cs :: !WithinCaps(Select(cs, l), l)
  {
    var taken, c := [FirstOf(s, l), SecondOf(s, l)], Other(t, l);
    var cs := [FirstOf(s, l), SecondOf(s, l), c];
    TwoAreTaken(s, t, l);
    RankedKeepsSorted(cs);
    AlternateAfter(taken, c, taken, l);
    assert cs == taken + [c];
    hide Greedy, Alternate, Ranked, WithinCaps;
    CapsHoldUnlessTheSwapIgnoresOne(cs, l);
    assert !WithinCaps(Select(cs, l), l);
  }

  /** A ticket enters although tickets are allowed no result at all. */
  lemma ASwapCanBreakACap()
    ensures exists cs, l :: !WithinCaps(Select(cs, l), l)
  {
    hide WithinCaps, Select;
    var l := Limits(3, 0.5, 1, 0, 0.0);
    ASwapBreaksTheCap(Manual, TicketSource, l);
    var cs :| !WithinCaps(Select(cs, l), l);
  }

  lemma {:induction false} NothingWithoutCaps(ordered: seq<Candidate>, l: Limits)
    requires !Uncapped(l, Manual) && !Uncapped(l, TicketSource)
    ensures Greedy(ordered, l) == []
    decreases |ordered|
  {
    if ordered != [] { NothingWithoutCaps(ordered[..|ordered| - 1], l); }
  }

  /** The limits that keep the caps on all inputs: every source is allowed a result, or none
      is, or there is never a second item that could make way for a swap. */
  lemma CapsHoldExactlyForTheseLimits(l: Limits)
    ensures (forall cs :: WithinCaps(Select(cs, l), l)) <==>
              (Uncapped(l, Manual) <==> Uncapped(l, TicketSource)) || l.topK == 1
  {
    if (Uncapped(l, Manual) <==> Uncapped(l, TicketSource)) || l.topK == 1 {
      forall cs ensures WithinCaps(Select(cs, l), l) {
        CapsHoldUnlessTheSwapIgnoresOne(cs, l);
        if SwappedIn(cs, l) != [] {
          RankedSorts(cs);
          GreedyIsSound(Ranked(cs), l);
          if !Uncapped(l, Manual) && !Uncapped(l, TicketSource) { NothingWithoutCaps(Ranked(cs), l); }
        }
      }
    } else {
      hide WithinCaps, Select;
      if Uncapped(l, Manual) {
        ASwapBreaksTheCap(Manual, TicketSource, l);
      } else {
        ASwapBreaksTheCap(TicketSource, Manual, l);
      }
    }
  }

  lemma {:induction false} AlternateAfter(skipped: seq<Candidate>, c: Candidate, s: seq<Candidate>, l: Limits)
    requires s != [] && forall i :: 0 <= i < |skipped| ==> skipped[i].source == s[0].source
    requires c.source != s[0].source && c.score >= l.floor && !SeenIn(s, c.Id())
    ensures Alternate(skipped + [c], s, l) == [c]
    decreases |skipped|
  {
    if skipped != [] {
      assert (skipped + [c])[1..] == skipped[1..] + [c];
      AlternateAfter(skipped[1..], c, s, l);
    }
  }
}
