/** Merging keyword and vector results into one list, in the order of first appearance. */
module Merge {
  import opened Text
  import opened Selection
  import opened Scoring
  import opened CandidateScoring

  /** A dictionary that remembers the order of first insertion. */
  datatype Ordered = Ordered(keys: seq<Identity>, entries: map<Identity, Retrieved>)

  const NOTHING := Ordered([], map[])

  function Set(d: Ordered, id: Identity, c: Retrieved): Ordered {
    Ordered(if id in d.entries then d.keys else d.keys + [id], d.entries[id := c])
  }

  function KeywordScores(cs: seq<Retrieved>): (r: seq<real>)
    ensures |r| == |cs|
  {
    NormalizeScores(seq(|cs|, i requires 0 <= i < |cs| => Get(cs[i].keyword, 0.0)))
  }

  function VectorScores(cs: seq<Retrieved>): (r: seq<real>)
    ensures |r| == |cs|
  {
    NormalizeScores(seq(|cs|, i requires 0 <= i < |cs| => Get(cs[i].vector, 0.0)))
  }

  /** A vector result joins the keyword result of its identity, if there is one. */
  function Joined(d: Ordered, c: Retrieved, score: real): Retrieved {
    if c.Id() in d.entries then
      var e := d.entries[c.Id()];
      e.(vector := Some(score), embedding := if c.embedding != [] then c.embedding else e.embedding)
    else c.(vector := Some(score))
  }

  function AddKeyword(cs: seq<Retrieved>, scores: seq<real>): Ordered
    requires |cs| == |scores|
    decreases |cs|
  {
    if cs == [] then NOTHING
    else
      var n := |cs| - 1;
      Set(AddKeyword(cs[..n], scores[..n]), cs[n].Id(), cs[n].(keyword := Some(scores[n])))
  }

  function AddVector(d: Ordered, cs: seq<Retrieved>, scores: seq<real>): Ordered
    requires |cs| == |scores|
    decreases |cs|
  {
    if cs == [] then d
    else
      var n := |cs| - 1;
      var before := AddVector(d, cs[..n], scores[..n]);
      Set(before, cs[n].Id(), Joined(before, cs[n], scores[n]))
  }

  function Dictionary(keyword: seq<Retrieved>, vector: seq<Retrieved>): Ordered {
    AddVector(AddKeyword(keyword, KeywordScores(keyword)), vector, VectorScores(vector))
  }

  predicate Faithful(d: Ordered) {
    && (forall id :: id in d.keys ==> id in d.entries)
    && (forall id :: id in d.entries ==> id in d.keys)
    && (forall i, j :: 0 <= i < j < |d.keys| ==> d.keys[i] != d.keys[j])
    && (forall id :: id in d.entries ==> d.entries[id].Id() == id)
  }

  function Values(d: Ordered): seq<Retrieved>
    requires Faithful(d)
  {
    seq(|d.keys|, i requires 0 <= i < |d.keys| => assert d.keys[i] in d.keys; d.entries[d.keys[i]])
  }

  /** A slice end counts from the back when it is negative. */
  function UpTo<T>(s: seq<T>, limit: int): (r: seq<T>)
    ensures r <= s
    ensures limit >= 0 ==> |r| == limit || (|r| == |s| && |s| < limit)
    ensures limit < 0 ==> |r| == |s| + limit || (r == [] && |s| + limit < 0)
  {
    if limit >= |s| then s else if limit >= 0 then s[..limit] else if -limit >= |s| then [] else s[..|s| + limit]
  }

  lemma SetKeepsFaithful(d: Ordered, c: Retrieved)
    requires Faithful(d)
    ensures Faithful(Set(d, c.Id(), c))
    ensures forall id :: id in Set(d, c.Id(), c).entries <==> id in d.entries || id == c.Id()
  {
  }

  predicate Occurs(id: Identity, cs: seq<Retrieved>) {
    exists i :: 0 <= i < |cs| && cs[i].Id() == id
  }

  lemma OccursAppend(id: Identity, cs: seq<Retrieved>)
    requires cs != []
    ensures Occurs(id, cs) <==> Occurs(id, cs[..|cs| - 1]) || cs[|cs| - 1].Id() == id
  {
    var before := cs[..|cs| - 1];
    if Occurs(id, before) {
      var i :| 0 <= i < |before| && before[i].Id() == id;
      assert cs[i].Id() == id;
    }
    if Occurs(id, cs) && cs[|cs| - 1].Id() != id {
      var i :| 0 <= i < |cs| && cs[i].Id() == id;
      assert before[i].Id() == id;
    }
  }

  lemma {:induction false} KeywordKeys(cs: seq<Retrieved>, scores: seq<real>)
    requires |cs| == |scores|
    ensures Faithful(AddKeyword(cs, scores))
    ensures forall id :: id in AddKeyword(cs, scores).entries <==> Occurs(id, cs)
    decreases |cs|
  {
    if cs != [] {
      var n := |cs| - 1;
      KeywordKeys(cs[..n], scores[..n]);
      SetKeepsFaithful(AddKeyword(cs[..n], scores[..n]), cs[n].(keyword := Some(scores[n])));
      forall id ensures Occurs(id, cs) <==> Occurs(id, cs[..n]) || cs[n].Id() == id { OccursAppend(id, cs); }
      hide Faithful, Occurs;
    }
  }

  lemma {:induction false} VectorKeys(d: Ordered, cs: seq<Retrieved>, scores: seq<real>)
    requires |cs| == |scores| && Faithful(d)
    ensures Faithful(AddVector(d, cs, scores))
    ensures forall id :: id in AddVector(d, cs, scores).entries <==> id in d.entries || Occurs(id, cs)
    decreases |cs|
  {
    if cs != [] {
      var n := |cs| - 1;
      VectorKeys(d, cs[..n], scores[..n]);
      var before := AddVector(d, cs[..n], scores[..n]);
      assert Joined(before, cs[n], scores[n]).Id() == cs[n].Id();
      SetKeepsFaithful(before, Joined(before, cs[n], scores[n]));
      forall id ensures Occurs(id, cs) <==> Occurs(id, cs[..n]) || cs[n].Id() == id { OccursAppend(id, cs); }
      hide Faithful, Occurs, Joined;
    }
  }

  method MergeCandidates(keyword: seq<Retrieved>, vector: seq<Retrieved>, limit: int) returns (merged: seq<Retrieved>)
    ensures Faithful(Dictionary(keyword, vector)) && merged == UpTo(Values(Dictionary(keyword, vector)), limit)
  {
    hide Joined, Faithful, KeywordScores, VectorScores, Set;
    var keywordNormalized, vectorNormalized := KeywordScores(keyword), VectorScores(vector);
    var d := NOTHING;
    for i := 0 to |keyword|
      invariant d == AddKeyword(keyword[..i], keywordNormalized[..i])
    {
      assert keyword[..i + 1][..i] == keyword[..i] && keywordNormalized[..i + 1][..i] == keywordNormalized[..i];
      d := Set(d, keyword[i].Id(), keyword[i].(keyword := Some(keywordNormalized[i])));
    }
    assert keyword[..|keyword|] == keyword && keywordNormalized[..|keyword|] == keywordNormalized;
    ghost var first := d;
    for i := 0 to |vector|
      invariant d == AddVector(first, vector[..i], vectorNormalized[..i])
    {
      assert vector[..i + 1][..i] == vector[..i] && vectorNormalized[..i + 1][..i] == vectorNormalized[..i];
      d := Set(d, vector[i].Id(), Joined(d, vector[i], vectorNormalized[i]));
    }
    assert vector[..|vector|] == vector && vectorNormalized[..|vector|] == vectorNormalized;
    KeywordKeys(keyword, keywordNormalized);
    VectorKeys(first, vector, vectorNormalized);
    merged := UpTo(Values(d), limit);
  }

  /** Every identity of either list appears exactly once, and no other. */
  lemma EachIdentityOnce(keyword: seq<Retrieved>, vector: seq<Retrieved>)
    ensures var d := Dictionary(keyword, vector);
            Faithful(d) && forall id :: id in d.keys <==> Occurs(id, keyword) || Occurs(id, vector)
  {
    KeywordKeys(keyword, KeywordScores(keyword));
    VectorKeys(AddKeyword(keyword, KeywordScores(keyword)), vector, VectorScores(vector));
    hide Occurs;
  }

  predicate DistinctItems(cs: seq<Retrieved>) {
    forall i, j :: 0 <= i < j < |cs| ==> cs[i].Id() != cs[j].Id()
  }

  lemma {:induction false} KeywordEntry(cs: seq<Retrieved>, scores: seq<real>, i: nat)
    requires |cs| == |scores| && DistinctItems(cs) && i < |cs|
    ensures cs[i].Id() in AddKeyword(cs, scores).entries
    ensures AddKeyword(cs, scores).entries[cs[i].Id()] == cs[i].(keyword := Some(scores[i]))
    decreases |cs|
  {
    var n := |cs| - 1;
    if i < n {
      assert DistinctItems(cs[..n]);
      KeywordEntry(cs[..n], scores[..n], i);
      assert cs[i].Id() != cs[n].Id();
    }
  }

  lemma {:induction false} VectorEntry(d: Ordered, cs: seq<Retrieved>, scores: seq<real>, i: nat)
    requires |cs| == |scores| && DistinctItems(cs) && i < |cs|
    ensures cs[i].Id() in AddVector(d, cs, scores).entries
    ensures AddVector(d, cs, scores).entries[cs[i].Id()] == Joined(d, cs[i], scores[i])
    decreases |cs|
  {
    var n := |cs| - 1;
    if i < n {
      assert DistinctItems(cs[..n]);
      VectorEntry(d, cs[..n], scores[..n], i);
      assert cs[i].Id() != cs[n].Id();
    } else {
      Untouched(d, cs[..n], scores[..n], cs[n].Id());
    }
    hide Joined;
  }

  lemma {:induction false} Untouched(d: Ordered, cs: seq<Retrieved>, scores: seq<real>, id: Identity)
    requires |cs| == |scores| && !Occurs(id, cs)
    ensures id in AddVector(d, cs, scores).entries <==> id in d.entries
    ensures id in d.entries ==> AddVector(d, cs, scores).entries[id] == d.entries[id]
    decreases |cs|
  {
    if cs != [] {
      var n := |cs| - 1;
      OccursAppend(id, cs);
      Untouched(d, cs[..n], scores[..n], id);
      hide Joined, Occurs;
    }
  }

  /** A result of either list carries a normalised score for exactly the channels it came by:
      what it already carried for the other channel is kept. */
  lemma ChannelsOfKeywordResults(keyword: seq<Retrieved>, vector: seq<Retrieved>, i: nat)
    requires DistinctItems(keyword) && DistinctItems(vector) && i < |keyword|
    ensures var id, d := keyword[i].Id(), Dictionary(keyword, vector);
            && id in d.entries && d.entries[id].keyword == Some(KeywordScores(keyword)[i])
            && (!Occurs(id, vector) ==> d.entries[id] == keyword[i].(keyword := Some(KeywordScores(keyword)[i])))
            && (forall j :: 0 <= j < |vector| && vector[j].Id() == id ==>
                d.entries[id].vector == Some(VectorScores(vector)[j]))
  {
    var first := AddKeyword(keyword, KeywordScores(keyword));
    var id := keyword[i].Id();
    KeywordEntry(keyword, KeywordScores(keyword), i);
    if j :| 0 <= j < |vector| && vector[j].Id() == id {
      VectorEntry(first, vector, VectorScores(vector), j);
      assert Occurs(id, vector);
      hide KeywordScores, VectorScores, AddKeyword, AddVector;
      forall k | 0 <= k < |vector| && vector[k].Id() == id ensures k == j {}
    } else {
      Untouched(first, vector, VectorScores(vector), id);
    }
  }

  lemma ChannelsOfVectorResults(keyword: seq<Retrieved>, vector: seq<Retrieved>, j: nat)
    requires DistinctItems(vector) && j < |vector| && !Occurs(vector[j].Id(), keyword)
    ensures var id, d := vector[j].Id(), Dictionary(keyword, vector);
            id in d.entries && d.entries[id] == vector[j].(vector := Some(VectorScores(vector)[j]))
  {
    var first := AddKeyword(keyword, KeywordScores(keyword));
    KeywordKeys(keyword, KeywordScores(keyword));
    VectorEntry(first, vector, VectorScores(vector), j);
    hide KeywordScores, VectorScores, AddKeyword, AddVector;
  }

  // ----- repeated identities -----

  /** The embedding of the last result of this identity that has one. */
  function LastEmbedding(cs: seq<Retrieved>, id: Identity): seq<real>
    decreases |cs|
  {
    if cs == [] then []
    else if cs[|cs| - 1].Id() == id && cs[|cs| - 1].embedding != [] then cs[|cs| - 1].embedding
    else LastEmbedding(cs[..|cs| - 1], id)
  }

  predicate LastAt(cs: seq<Retrieved>, id: Identity, k: nat) {
    k < |cs| && cs[k].Id() == id && forall i :: k < i < |cs| ==> cs[i].Id() != id
  }

  predicate FirstAt(cs: seq<Retrieved>, id: Identity, k: nat) {
    k < |cs| && cs[k].Id() == id && forall i :: 0 <= i < k ==> cs[i].Id() != id
  }

  lemma {:induction false} LastKeywordWins(cs: seq<Retrieved>, scores: seq<real>, id: Identity, k: nat)
    requires |cs| == |scores| && LastAt(cs, id, k)
    ensures id in AddKeyword(cs, scores).entries
    ensures AddKeyword(cs, scores).entries[id] == cs[k].(keyword := Some(scores[k]))
    decreases |cs|
  {
    var n := |cs| - 1;
    if k < n { LastKeywordWins(cs[..n], scores[..n], id, k); }
  }

  /** The last vector score, the last embedding there is, and for the rest what was there first. */
  lemma {:induction false} VectorsAddUp(d: Ordered, cs: seq<Retrieved>, scores: seq<real>, id: Identity, k: nat, m: nat)
    requires |cs| == |scores| && FirstAt(cs, id, k) && LastAt(cs, id, m)
    ensures id in AddVector(d, cs, scores).entries
    ensures var base, last := if id in d.entries then d.entries[id] else cs[k], LastEmbedding(cs, id);
            AddVector(d, cs, scores).entries[id] ==
              base.(vector := Some(scores[m]), embedding := if last != [] then last else base.embedding)
    decreases |cs|
  {
    var n := |cs| - 1;
    var before := cs[..n];
    if m < n {
      VectorsAddUp(d, before, scores[..n], id, k, m);
    } else if k < n {
      var j := LastBefore(before, id, k);
      VectorsAddUp(d, before, scores[..n], id, k, j);
    } else {
      assert !Occurs(id, before);
      Untouched(d, before, scores[..n], id);
      NoEmbeddingOf(before, id);
    }
  }

  lemma {:induction false} NoEmbeddingOf(cs: seq<Retrieved>, id: Identity)
    requires !Occurs(id, cs)
    ensures LastEmbedding(cs, id) == []
    decreases |cs|
  {
    if cs != [] {
      OccursAppend(id, cs);
      NoEmbeddingOf(cs[..|cs| - 1], id);
    }
  }

  lemma {:induction false} LastBefore(cs: seq<Retrieved>, id: Identity, k: nat) returns (m: nat)
    requires k < |cs| && cs[k].Id() == id
    ensures LastAt(cs, id, m) && k <= m
    decreases |cs|
  {
    var n := |cs| - 1;
    if cs[n].Id() == id { m := n; } else { m := LastBefore(cs[..n], id, k); }
  }

  /** Every merged result, whatever repeats: the last keyword result of its identity, or else
      its first vector result, with the normalised score of that one, and with the score of the
      last vector result and the last embedding among the vector results, if there are any. */
  lemma EntriesAreExact(keyword: seq<Retrieved>, vector: seq<Retrieved>, id: Identity, k: nat, f: nat, m: nat)
    requires Occurs(id, keyword) ==> LastAt(keyword, id, k)
    requires Occurs(id, vector) ==> FirstAt(vector, id, f) && LastAt(vector, id, m)
    requires id in Dictionary(keyword, vector).entries
    ensures Occurs(id, keyword) || Occurs(id, vector)
    ensures var e, ks, vs := Dictionary(keyword, vector).entries[id], KeywordScores(keyword), VectorScores(vector);
            var base := if Occurs(id, keyword) then keyword[k].(keyword := Some(ks[k])) else vector[f];
            var last := LastEmbedding(vector, id);
            if !Occurs(id, vector) then e == base
            else e == base.(vector := Some(vs[m]), embedding := if last != [] then last else base.embedding)
  {
    var ks, vs := KeywordScores(keyword), VectorScores(vector);
    var first := AddKeyword(keyword, ks);
    EachIdentityOnce(keyword, vector);
    KeywordKeys(keyword, ks);
    hide KeywordScores, VectorScores, Occurs, Faithful;
    if Occurs(id, keyword) { LastKeywordWins(keyword, ks, id, k); }
    if Occurs(id, vector) { VectorsAddUp(first, vector, vs, id, f, m); } else { Untouched(first, vector, vs, id); }
  }

  // ----- the order -----

  /** The first result of `a` comes before any result of `b`. */
  ghost predicate AppearsBefore(cs: seq<Retrieved>, a: Identity, b: Identity) {
    exists p :: 0 <= p < |cs| && cs[p].Id() == a && forall q :: 0 <= q <= p ==> cs[q].Id() != b
  }

  /** Keys in the order in which their first results came. */
  ghost predicate InOrder(keys: seq<Identity>, cs: seq<Retrieved>) {
    && (forall id :: id in keys <==> Occurs(id, cs))
    && (forall i, j :: 0 <= i < j < |keys| ==> AppearsBefore(cs, keys[i], keys[j]))
  }

  lemma OneMoreInOrder(keys: seq<Identity>, cs: seq<Retrieved>, c: Retrieved)
    requires InOrder(keys, cs)
    ensures InOrder(if c.Id() in keys then keys else keys + [c.Id()], cs + [c])
  {
    var all := cs + [c];
    var keys' := if c.Id() in keys then keys else keys + [c.Id()];
    assert all[..|all| - 1] == cs;
    forall id ensures id in keys' <==> Occurs(id, all) { OccursAppend(id, all); }
    forall i, j | 0 <= i < j < |keys'| ensures AppearsBefore(all, keys'[i], keys'[j]) {
      if j < |keys| {
        assert AppearsBefore(cs, keys[i], keys[j]);
        var p :| 0 <= p < |cs| && cs[p].Id() == keys[i] && forall q :: 0 <= q <= p ==> cs[q].Id() != keys[j];
        assert all[p] == cs[p];
      } else {
        assert Occurs(keys[i], cs);
        var p :| 0 <= p < |cs| && cs[p].Id() == keys[i];
        assert !Occurs(keys'[j], cs);
        assert all[p] == cs[p];
      }
    }
  }

  lemma NothingIsInOrder()
    ensures InOrder(NOTHING.keys, []) && Faithful(NOTHING)
  {
  }

  lemma {:induction false} KeywordOrder(cs: seq<Retrieved>, scores: seq<real>)
    requires |cs| == |scores|
    ensures InOrder(AddKeyword(cs, scores).keys, cs) && Faithful(AddKeyword(cs, scores))
    decreases |cs|
  {
    hide InOrder, Occurs;
    if cs == [] {
      NothingIsInOrder();
    } else {
      var n := |cs| - 1;
      KeywordOrder(cs[..n], scores[..n]);
      KeywordKeys(cs, scores);
      OneMoreInOrder(AddKeyword(cs[..n], scores[..n]).keys, cs[..n], cs[n]);
      assert cs == cs[..n] + [cs[n]];
    }
  }

  lemma {:induction false} VectorOrder(d: Ordered, early: seq<Retrieved>, cs: seq<Retrieved>, scores: seq<real>)
    requires |cs| == |scores| && Faithful(d) && InOrder(d.keys, early)
    ensures InOrder(AddVector(d, cs, scores).keys, early + cs) && Faithful(AddVector(d, cs, scores))
    decreases |cs|
  {
    hide InOrder, Occurs, Joined, Faithful;
    if cs == [] {
      assert early + cs == early;
    } else {
      var n := |cs| - 1;
      var before := AddVector(d, cs[..n], scores[..n]);
      VectorOrder(d, early, cs[..n], scores[..n]);
      VectorKeys(d, cs, scores);
      KeysAreEntries(before, cs[n].Id());
      OneMoreInOrder(before.keys, early + cs[..n], cs[n]);
      assert early + cs == early + cs[..n] + [cs[n]];
    }
  }

  lemma KeysAreEntries(d: Ordered, id: Identity)
    requires Faithful(d)
    ensures id in d.keys <==> id in d.entries
  {
  }

  /** The merged results come in the order in which their identities first appear, the keyword
      results before the vector results; the limit cuts that list. */
  lemma OrderOfFirstAppearance(keyword: seq<Retrieved>, vector: seq<Retrieved>)
    ensures InOrder(Dictionary(keyword, vector).keys, keyword + vector)
  {
    KeywordOrder(keyword, KeywordScores(keyword));
    VectorOrder(AddKeyword(keyword, KeywordScores(keyword)), keyword, vector, VectorScores(vector));
  }

  predicate Plain(keyword: seq<Retrieved>, vector: seq<Retrieved>) {
    && (forall i :: 0 <= i < |keyword| ==> keyword[i].vector == None)
    && (forall j :: 0 <= j < |vector| ==> vector[j].keyword == None)
  }

  /** When neither list carries scores of the other channel, a merged result has a score for
      exactly the channels it occurs in, and each of them is in the unit interval. */
  lemma ChannelsAreExact(keyword: seq<Retrieved>, vector: seq<Retrieved>, id: Identity)
    requires DistinctItems(keyword) && DistinctItems(vector) && Plain(keyword, vector)
    requires id in Dictionary(keyword, vector).entries
    ensures var e := Dictionary(keyword, vector).entries[id];
            && (e.keyword.Some? <==> Occurs(id, keyword)) && (e.vector.Some? <==> Occurs(id, vector))
            && (e.keyword.Some? ==> Unit(e.keyword.value)) && (e.vector.Some? ==> Unit(e.vector.value))
  {
    EachIdentityOnce(keyword, vector);
    if Occurs(id, keyword) {
      var i :| 0 <= i < |keyword| && keyword[i].Id() == id;
      ChannelsOfKeywordResults(keyword, vector, i);
      KeywordScoreIsUnit(keyword, i);
      if Occurs(id, vector) {
        var j :| 0 <= j < |vector| && vector[j].Id() == id;
        VectorScoreIsUnit(vector, j);
      }
    } else {
      assert Occurs(id, vector);
      var j :| 0 <= j < |vector| && vector[j].Id() == id;
      ChannelsOfVectorResults(keyword, vector, j);
      VectorScoreIsUnit(vector, j);
    }
    hide Dictionary, KeywordScores, VectorScores;
  }

  /** The scores are normalised among those of the list's own channel, a missing one as zero. */
  lemma ChannelScoresKeepOrder(cs: seq<Retrieved>, i: nat, j: nat)
    requires i < |cs| && j < |cs|
    ensures KeywordScores(cs)[i] <= KeywordScores(cs)[j] <==> ValueOf(cs[i].keyword) <= ValueOf(cs[j].keyword)
    ensures VectorScores(cs)[i] <= VectorScores(cs)[j] <==> ValueOf(cs[i].vector) <= ValueOf(cs[j].vector)
  {
    NormalizationKeepsOrder(seq(|cs|, k requires 0 <= k < |cs| => Get(cs[k].keyword, 0.0)), i, j);
    NormalizationKeepsOrder(seq(|cs|, k requires 0 <= k < |cs| => Get(cs[k].vector, 0.0)), i, j);
    hide NormalizeScores;
  }

  lemma KeywordScoreIsUnit(cs: seq<Retrieved>, i: nat)
    requires i < |cs|
    ensures Unit(KeywordScores(cs)[i])
  {
    NormalizationKeepsOrder(seq(|cs|, k requires 0 <= k < |cs| => Get(cs[k].keyword, 0.0)), i, i);
  }

  lemma VectorScoreIsUnit(cs: seq<Retrieved>, i: nat)
    requires i < |cs|
    ensures Unit(VectorScores(cs)[i])
  {
    NormalizationKeepsOrder(seq(|cs|, k requires 0 <= k < |cs| => Get(cs[k].vector, 0.0)), i, i);
  }
}
