/** The selection as the program runs it: one pass with a list, a set of identities and a
    table of counts, then the swap. */
module SelectionLoop {
  import opened Selection

  function Counted(counts: map<Origin, nat>, o: Origin): nat {
    if o in counts then counts[o] else 0
  }

  /** The set and the table describe the list. */
  ghost predicate Tallied(selected: seq<Candidate>, identities: set<Identity>, counts: map<Origin, nat>) {
    && (forall id :: id in identities <==> SeenIn(selected, id))
    && (forall o :: Counted(counts, o) == Count(selected, o))
  }

  lemma TalliedAppend(selected: seq<Candidate>, c: Candidate, identities: set<Identity>, counts: map<Origin, nat>)
    requires Tallied(selected, identities, counts)
    ensures Tallied(selected + [c], identities + {c.Id()}, counts[c.Origin() := Counted(counts, c.Origin()) + 1])
  {
    var t := selected + [c];
    assert t[..|t| - 1] == selected;
    var counts' := counts[c.Origin() := Counted(counts, c.Origin()) + 1];
    forall o ensures Counted(counts', o) == Count(t, o) { assert Counted(counts, o) == Count(selected, o); }
    forall id ensures id in identities + {c.Id()} <==> SeenIn(t, id) {
      assert t[|selected|].Id() == c.Id();
      if SeenIn(selected, id) {
        var i :| 0 <= i < |selected| && selected[i].Id() == id;
        assert t[i].Id() == id;
      }
    }
  }

  lemma {:induction false} FullStays(ordered: seq<Candidate>, l: Limits, m: nat)
    requires m <= |ordered| && Full(Greedy(ordered[..m], l), l)
    ensures Greedy(ordered, l) == Greedy(ordered[..m], l)
    decreases |ordered|
  {
    if m == |ordered| {
      assert ordered[..m] == ordered;
    } else {
      assert ordered[..|ordered| - 1][..m] == ordered[..m];
      FullStays(ordered[..|ordered| - 1], l, m);
    }
  }

  lemma OneTypeIsOneElement(s: seq<Candidate>, types: set<Source>)
    requires types == set c | c in s :: c.source
    ensures |types| == 1 <==> OneType(s)
    ensures OneType(s) ==> types == {s[0].source}
  {
    if |types| == 1 {
      var x :| x in types;
      assert types == {x} + (types - {x}) && |types - {x}| == 0;
      forall i | 0 <= i < |s| ensures s[i].source == x { assert s[i] in s && s[i].source in types; }
    }
    if OneType(s) {
      assert s[0] in s;
      assert types == {s[0].source};
    }
  }

  method SelectGreedily(ordered: seq<Candidate>, l: Limits)
    returns (selected: seq<Candidate>, identities: set<Identity>)
    ensures selected == Greedy(ordered, l)
    ensures forall id :: id in identities <==> SeenIn(selected, id)
  {
    selected, identities := [], {};
    var counts: map<Origin, nat> := map[];
    for i := 0 to |ordered|
      invariant selected == Greedy(ordered[..i], l) && !Full(selected, l)
      invariant Tallied(selected, identities, counts)
    {
      var candidate := ordered[i];
      assert ordered[..i + 1][..i] == ordered[..i];
      if candidate.score < l.floor || candidate.Id() in identities { continue; }
      var limit := if candidate.source == Manual then l.perDocument else l.perTicket;
      if Counted(counts, candidate.Origin()) >= limit { continue; }
      if SimilarIn(selected, candidate, l.threshold) { continue; }
      TalliedAppend(selected, candidate, identities, counts);
      selected := selected + [candidate];
      identities := identities + {candidate.Id()};
      counts := counts[candidate.Origin() := Counted(counts, candidate.Origin()) + 1];
      if |selected| == l.topK {
        FullStays(ordered, l, i + 1);
        return;
      }
    }
    assert ordered[..|ordered|] == ordered;
  }

  /** The first candidate of another type that qualifies, if there is one. */
  method FindAlternate(ordered: seq<Candidate>, s: seq<Candidate>, types: set<Source>,
                       identities: set<Identity>, l: Limits)
    returns (alternate: seq<Candidate>)
    requires OneType(s) && types == {s[0].source} && forall id :: id in identities <==> SeenIn(s, id)
    ensures alternate == Alternate(ordered, s, l)
  {
    for i := 0 to |ordered|
      invariant Alternate(ordered, s, l) == Alternate(ordered[i..], s, l)
    {
      var item := ordered[i];
      if item.source !in types && item.score >= l.floor && item.Id() !in identities { return [item]; }
      assert ordered[i..][1..] == ordered[i + 1..];
    }
    return [];
  }

  method DeduplicateAndDiversify(candidates: seq<Candidate>, l: Limits) returns (selected: seq<Candidate>)
    ensures selected == Select(candidates, l)
  {
    var ordered := Ranked(candidates);
    var identities;
    selected, identities := SelectGreedily(ordered, l);
    var types := set c | c in selected :: c.source;
    OneTypeIsOneElement(selected, types);
    if |types| == 1 && |selected| >= 2 {
      var alternate := FindAlternate(ordered, selected, types, identities, l);
      if alternate != [] {
        assert |alternate| == 1 by { AlternateIsOne(ordered, selected, l); }
        var last := |selected| - 1;
        assert selected[last := alternate[0]] == selected[..last] + alternate;
        selected := selected[last := alternate[0]];
        selected := Ranked(selected);
      }
    }
  }

  lemma {:induction false} AlternateIsOne(ordered: seq<Candidate>, s: seq<Candidate>, l: Limits)
    requires s != []
    ensures |Alternate(ordered, s, l)| <= 1
    decreases |ordered|
  {
    if ordered != [] { AlternateIsOne(ordered[1..], s, l); }
  }
}
