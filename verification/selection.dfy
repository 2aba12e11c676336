/** Choosing the evidence to show: greedy selection under a quality floor, per-source caps,
    a similarity threshold and a size limit, followed by one swap for diversity. */
module Selection {

  datatype Source = Manual | TicketSource | CaseSource | GraphSource

  type Identity = (Source, string, string)

  type Origin = (Source, string)

  datatype Candidate = Candidate(source: Source, sourceId: string, chunkId: string, score: real, embedding: seq<real>) {
    function Id(): Identity { (source, sourceId, chunkId) }
    function Origin(): Origin { (source, sourceId) }
  }

  datatype Limits = Limits(topK: int, threshold: real, perDocument: int, perTicket: int, floor: real)

  // ----- cosine similarity -----

  function Dot(l: seq<real>, r: seq<real>): real
    requires |l| == |r|
  {
    if l == [] then 0.0 else l[0] * r[0] + Dot(l[1..], r[1..])
  }

  /** The product, under a name the proofs can keep folded. */
  function Times(a: real, b: real): real {
    a * b
  }

  /** Whether the cosine exceeds `t`, without the square root: vectors of different lengths,
      empty ones and zero ones have cosine 0. */
  predicate CosineAbove(l: seq<real>, r: seq<real>, t: real) {
    if |l| != |r| || l == [] || Times(Dot(l, l), Dot(r, r)) == 0.0 then 0.0 > t
    else RatioAbove(Dot(l, r), Times(Dot(l, l), Dot(r, r)), t)
  }

  /** Whether d over the positive root of n exceeds t. */
  predicate RatioAbove(d: real, n: real, t: real) {
    if t >= 0.0 then d > 0.0 && Times(d, d) > Times(Times(t, t), n)
    else d >= 0.0 || Times(d, d) < Times(Times(t, t), n)
  }

  lemma TimesOrders(a: real, b: real, c: real)
    requires c > 0.0
    ensures Times(a, c) > Times(b, c) <==> a > b
    ensures Times(a, c) > 0.0 <==> a > 0.0
    ensures Times(a, c) < 0.0 <==> a < 0.0
  {
    assert a * c - b * c == (a - b) * c;
  }

  lemma TimesLaws(a: real, b: real)
    ensures Times(a, b) == Times(b, a)
    ensures Times(-a, -a) == Times(a, a)
    ensures Times(a, 0.0) == 0.0 == Times(0.0, a)
    ensures Times(Times(a, b), Times(a, b)) == Times(Times(a, a), Times(b, b))
  {
  }

  lemma SquaresCompare(a: real, b: real)
    requires a >= 0.0 && b >= 0.0
    ensures a > b <==> Times(a, a) > Times(b, b)
  {
    hide Times;
    TimesLaws(a, b);
    TimesLaws(b, a);
    if a > 0.0 { TimesOrders(a, b, a); TimesOrders(b, a, a); }
    if b > 0.0 { TimesOrders(a, b, b); TimesOrders(b, a, b); }
  }

  lemma RatioTest(q: real, t: real, s: real)
    requires s > 0.0
    ensures RatioAbove(Times(q, s), Times(s, s), t) <==> q > t
  {
    hide Times;
    var n := Times(s, s);
    TimesOrders(s, s, s);
    TimesOrders(q, q, s);
    TimesLaws(q, s);
    TimesOrders(Times(q, q), Times(t, t), n);
    TimesOrders(Times(t, t), Times(q, q), n);
    if t >= 0.0 && q > 0.0 { SquaresCompare(q, t); }
    if t < 0.0 && q < 0.0 { SquaresCompare(-t, -q); TimesLaws(t, q); }
  }

  /** For the positive square root `s` of the product of the squared norms, the test is the
      comparison of the quotient the source computes. */
  lemma CosineAboveComparesTheQuotient(l: seq<real>, r: seq<real>, t: real, s: real)
    requires |l| == |r| && l != [] && s > 0.0 && Times(s, s) == Times(Dot(l, l), Dot(r, r))
    ensures CosineAbove(l, r, t) <==> Dot(l, r) / s > t
  {
    var q := Dot(l, r) / s;
    assert Times(q, s) == Dot(l, r);
    hide Times, Dot;
    TimesOrders(s, s, s);
    RatioTest(q, t, s);
  }

  lemma {:induction false} DotCommutes(l: seq<real>, r: seq<real>)
    requires |l| == |r|
    ensures Dot(l, r) == Dot(r, l)
    decreases |l|
  {
    if l != [] { DotCommutes(l[1..], r[1..]); }
  }

  predicate Similar(a: Candidate, b: Candidate, t: real) {
    a.embedding != [] && b.embedding != [] && CosineAbove(a.embedding, b.embedding, t)
  }

  lemma SimilarIsSymmetric(a: Candidate, b: Candidate, t: real)
    ensures Similar(a, b, t) == Similar(b, a, t)
  {
    if |a.embedding| == |b.embedding| { DotCommutes(a.embedding, b.embedding); }
  }

  // ----- sorting by score -----

  predicate Descending(s: seq<Candidate>) {
    forall i, j :: 0 <= i < j < |s| ==> s[i].score >= s[j].score
  }

  function Insert(c: Candidate, s: seq<Candidate>): seq<Candidate> {
    if s == [] || s[0].score <= c.score then [c] + s else [s[0]] + Insert(c, s[1..])
  }

  /** Highest score first; equal scores keep their order. */
  function Ranked(s: seq<Candidate>): seq<Candidate> {
    if s == [] then [] else Insert(s[0], Ranked(s[1..]))
  }

  function WithScore(s: seq<Candidate>, v: real): seq<Candidate> {
    if s == [] then [] else (if s[0].score == v then [s[0]] else []) + WithScore(s[1..], v)
  }

  lemma FirstWithScore(c: Candidate, s: seq<Candidate>, v: real)
    ensures WithScore([c] + s, v) == (if c.score == v then [c] else []) + WithScore(s, v)
  {
    assert ([c] + s)[1..] == s;
  }

  /** Of two candidates with different scores at most one has the score in question. */
  lemma OnlyOneFirst(c: Candidate, d: Candidate, v: real, s: seq<Candidate>)
    requires c.score != d.score
    ensures var cs, ds := if c.score == v then [c] else [], if d.score == v then [d] else [];
            ds + (cs + s) == cs + (ds + s)
  {
  }

  lemma {:induction false} InsertPermutes(c: Candidate, s: seq<Candidate>)
    ensures multiset(Insert(c, s)) == multiset([c]) + multiset(s)
    decreases |s|
  {
    if s != [] && s[0].score > c.score {
      InsertPermutes(c, s[1..]);
      assert s == [s[0]] + s[1..];
    }
  }

  lemma {:induction false} InsertSorts(c: Candidate, s: seq<Candidate>)
    requires Descending(s)
    ensures Descending(Insert(c, s))
    ensures Insert(c, s)[0].score == if s == [] || s[0].score <= c.score then c.score else s[0].score
    decreases |s|
  {
    if s != [] && s[0].score > c.score {
      InsertSorts(c, s[1..]);
      var t := Insert(c, s[1..]);
      assert Descending([s[0]] + t) by {
        forall i | 0 <= i < |t| ensures s[0].score >= t[i].score { assert t[0].score >= t[i].score || i == 0; }
      }
    }
  }

  lemma {:induction false} InsertKeepsTies(c: Candidate, s: seq<Candidate>, v: real)
    ensures WithScore(Insert(c, s), v) == (if c.score == v then [c] else []) + WithScore(s, v)
    decreases |s|
  {
    if s == [] || s[0].score <= c.score {
      FirstWithScore(c, s, v);
    } else {
      InsertKeepsTies(c, s[1..], v);
      FirstWithScore(s[0], Insert(c, s[1..]), v);
      FirstWithScore(s[0], s[1..], v);
      assert s == [s[0]] + s[1..];
      OnlyOneFirst(c, s[0], v, WithScore(s[1..], v));
    }
  }

  lemma {:induction false} RankedSorts(s: seq<Candidate>)
    ensures Descending(Ranked(s)) && multiset(Ranked(s)) == multiset(s)
    ensures |Ranked(s)| == |s|
    decreases |s|
  {
    if s != [] {
      RankedSorts(s[1..]);
      InsertPermutes(s[0], Ranked(s[1..]));
      InsertSorts(s[0], Ranked(s[1..]));
      assert s == [s[0]] + s[1..];
      assert |multiset(Ranked(s))| == |multiset(s)|;
    }
  }

  /** Ranking keeps the order of equal scores, as a stable sort does. */
  lemma {:induction false} RankedKeepsTies(s: seq<Candidate>, v: real)
    ensures WithScore(Ranked(s), v) == WithScore(s, v)
    decreases |s|
  {
    if s != [] {
      RankedKeepsTies(s[1..], v);
      InsertKeepsTies(s[0], Ranked(s[1..]), v);
    }
  }

  // ----- greedy selection -----

  function Cap(l: Limits, source: Source): int {
    if source == Manual then l.perDocument else l.perTicket
  }

  function Count(s: seq<Candidate>, o: Origin): nat {
    if s == [] then 0 else Count(s[..|s| - 1], o) + (if s[|s| - 1].Origin() == o then 1 else 0)
  }

  predicate SeenIn(s: seq<Candidate>, id: Identity) {
    exists i :: 0 <= i < |s| && s[i].Id() == id
  }

  predicate SimilarIn(s: seq<Candidate>, c: Candidate, t: real) {
    exists i :: 0 <= i < |s| && Similar(c, s[i], t)
  }

  /** Why a candidate above the floor is passed over. */
  predicate BlockedBy(s: seq<Candidate>, c: Candidate, l: Limits) {
    SeenIn(s, c.Id()) || Count(s, c.Origin()) >= Cap(l, c.source) || SimilarIn(s, c, l.threshold)
  }

  /** The loop stops after the append that reaches `topK`, so only a positive one stops it. */
  predicate Full(s: seq<Candidate>, l: Limits) {
    s != [] && |s| == l.topK
  }

  function Greedy(ordered: seq<Candidate>, l: Limits): seq<Candidate>
    decreases |ordered|
  {
    if ordered == [] then []
    else
      var s, c := Greedy(ordered[..|ordered| - 1], l), ordered[|ordered| - 1];
      if Full(s, l) || c.score < l.floor || BlockedBy(s, c, l) then s else s + [c]
  }

  /** Shown when all selected candidates have one source type: the best qualifying candidate
      of another type. */
  function Alternate(ordered: seq<Candidate>, s: seq<Candidate>, l: Limits): seq<Candidate>
    requires s != []
  {
    if ordered == [] then []
    else if && ordered[0].source != s[0].source && ordered[0].score >= l.floor
            && !SeenIn(s, ordered[0].Id()) then [ordered[0]]
    else Alternate(ordered[1..], s, l)
  }

  predicate OneType(s: seq<Candidate>) {
    s != [] && forall i :: 0 <= i < |s| ==> s[i].source == s[0].source
  }

  /** The item the diversity step brings in, if it does. */
  function SwappedIn(cs: seq<Candidate>, l: Limits): seq<Candidate> {
    var ordered := Ranked(cs);
    var s := Greedy(ordered, l);
    if OneType(s) && |s| >= 2 then Alternate(ordered, s, l) else []
  }

  function Select(cs: seq<Candidate>, l: Limits): seq<Candidate> {
    var s := Greedy(Ranked(cs), l);
    var a := SwappedIn(cs, l);
    if a == [] || s == [] then s else Ranked(s[..|s| - 1] + a)
  }
}
