/** The graph of logical modules and its simple cycles. A module is named by its rank in
    alphabetical order. */
module ModuleGraph {

  type Graph = map<nat, set<nat>>

  predicate Closed(g: Graph) {
    forall m :: m in g ==> g[m] <= g.Keys
  }

  predicate Distinct(s: seq<nat>) {
    forall i, j :: 0 <= i < j < |s| ==> s[i] != s[j]
  }

  predicate Edge(g: Graph, a: nat, b: nat) {
    a in g && b in g[a]
  }

  predicate Walk(g: Graph, w: seq<nat>) {
    && (forall i :: 0 <= i < |w| ==> w[i] in g)
    && (forall i :: 0 <= i < |w| - 1 ==> Edge(g, w[i], w[i + 1]))
  }

  /** A simple directed cycle, listed from any of its modules. */
  predicate IsCycle(g: Graph, c: seq<nat>) {
    c != [] && Distinct(c) && Walk(g, c) && Edge(g, c[|c| - 1], c[0])
  }

  /** The alphabetically first module of the ring comes first. */
  predicate LeastFirst(c: seq<nat>) {
    c != [] && forall i :: 0 <= i < |c| ==> c[0] <= c[i]
  }

  function Rotation(c: seq<nat>, k: nat): (r: seq<nat>)
    requires k <= |c|
  {
    c[k..] + c[..k]
  }

  // ----- tuples in lexicographic order -----

  predicate Less(a: seq<nat>, b: seq<nat>) {
    b != [] && (a == [] || a[0] < b[0] || (a[0] == b[0] && Less(a[1..], b[1..])))
  }

  lemma {:induction false} LessIsTotal(a: seq<nat>, b: seq<nat>)
    ensures Less(a, b) || Less(b, a) || a == b
    ensures !(Less(a, b) && Less(b, a))
    decreases |a|
  {
    if a != [] && b != [] {
      LessIsTotal(a[1..], b[1..]);
      assert a == [a[0]] + a[1..] && b == [b[0]] + b[1..];
    }
  }

  lemma {:induction false} LessIsTransitive(a: seq<nat>, b: seq<nat>, c: seq<nat>)
    requires Less(a, b) && Less(b, c)
    ensures Less(a, c)
    decreases |a|
  {
    if a != [] && a[0] == b[0] == c[0] { LessIsTransitive(a[1..], b[1..], c[1..]); }
  }

  predicate Ascending(s: seq<seq<nat>>) {
    forall i, j :: 0 <= i < j < |s| ==> Less(s[i], s[j])
  }

  /** The least of the first `k` rotations. */
  function LeastOf(ring: seq<nat>, k: nat): (r: seq<nat>)
    requires 1 <= k <= |ring|
  {
    if k == 1 then Rotation(ring, 0)
    else
      var best, next := LeastOf(ring, k - 1), Rotation(ring, k - 1);
      if Less(next, best) then next else best
  }

  function LeastRotation(ring: seq<nat>): seq<nat>
    requires ring != []
  {
    LeastOf(ring, |ring|)
  }

  lemma {:induction false} LeastOfIsLeast(ring: seq<nat>, k: nat)
    requires 1 <= k <= |ring|
    ensures exists j :: 0 <= j < k && LeastOf(ring, k) == Rotation(ring, j)
    ensures forall j :: 0 <= j < k ==> LeastOf(ring, k)[0] <= ring[j]
    decreases k
  {
    if k == 1 {
      assert LeastOf(ring, k) == Rotation(ring, 0);
    } else {
      LeastOfIsLeast(ring, k - 1);
      assert Rotation(ring, k - 1)[0] == ring[k - 1];
    }
  }

  /** The least rotation is a rotation that starts with the alphabetically first module. */
  lemma LeastRotationStartsLeast(ring: seq<nat>)
    requires ring != []
    ensures LeastFirst(LeastRotation(ring))
    ensures exists k :: 0 <= k < |ring| && LeastRotation(ring) == Rotation(ring, k)
  {
    LeastOfIsLeast(ring, |ring|);
    var r := LeastRotation(ring);
    var k :| 0 <= k < |ring| && r == Rotation(ring, k);
    forall i | 0 <= i < |r| ensures r[0] <= r[i] {
      assert r[i] == if i < |ring| - k then ring[k + i] else ring[i - (|ring| - k)];
    }
  }

  lemma RotationsAreCycles(g: Graph, c: seq<nat>, k: nat)
    requires IsCycle(g, c) && k < |c|
    ensures IsCycle(g, Rotation(c, k))
  {
    var r, n := Rotation(c, k), |c|;
    forall i | 0 <= i < n ensures r[i] == if i < n - k then c[k + i] else c[i - (n - k)] {}
    forall i | 0 <= i < n - 1 ensures Edge(g, r[i], r[i + 1]) {
      if i < n - k - 1 {
        assert Edge(g, c[k + i], c[k + i + 1]);
      } else if i > n - k - 1 {
        assert Edge(g, c[i - (n - k)], c[i - (n - k) + 1]);
      }
    }
    if k > 0 { assert Edge(g, c[k - 1], c[k]); }
  }

  lemma StartsLeast(c: seq<nat>, k: nat)
    requires k < |c| && LeastFirst(Rotation(c, k))
    ensures forall i :: 0 <= i < |c| ==> c[k] <= c[i]
  {
    var r := Rotation(c, k);
    forall i | 0 <= i < |c| ensures c[k] <= c[i] {
      assert r[if i >= k then i - k else |c| - k + i] == c[i];
    }
  }

  /** A cycle that starts least is its own least rotation. */
  lemma LeastFirstIsLeast(c: seq<nat>, k: nat)
    requires Distinct(c) && LeastFirst(c) && k < |c| && LeastFirst(Rotation(c, k))
    ensures Rotation(c, k) == c
  {
    StartsLeast(c, k);
    assert c[0] == c[k];
    assert c[0..] + c[..0] == c;
  }

  /** Every cycle has exactly one rotation that starts least. */
  lemma OneRotationStartsLeast(g: Graph, c: seq<nat>, j: nat, k: nat)
    requires IsCycle(g, c) && j < |c| && k < |c|
    ensures IsCycle(g, LeastRotation(c)) && LeastFirst(LeastRotation(c))
    ensures LeastFirst(Rotation(c, j)) && LeastFirst(Rotation(c, k)) ==> j == k
  {
    LeastRotationStartsLeast(c);
    var i :| 0 <= i < |c| && LeastRotation(c) == Rotation(c, i);
    RotationsAreCycles(g, c, i);
    if LeastFirst(Rotation(c, j)) && LeastFirst(Rotation(c, k)) {
      StartsLeast(c, j);
      StartsLeast(c, k);
      assert c[j] == c[k];
    }
  }

  // ----- cycles and closed walks -----

  predicate ClosedWalk(g: Graph, w: seq<nat>) {
    |w| >= 2 && Walk(g, w) && w[0] == w[|w| - 1]
  }

  /** A closed walk contains a simple cycle. */
  lemma {:induction false} ClosedWalksContainCycles(g: Graph, w: seq<nat>)
    requires ClosedWalk(g, w)
    ensures exists c :: IsCycle(g, c)
    decreases |w|
  {
    var ring := w[..|w| - 1];
    if i, j :| 0 <= i < j < |ring| && ring[i] == ring[j] {
      ClosedWalksContainCycles(g, w[i..j + 1]);
    } else {
      assert Edge(g, w[|w| - 2], w[|w| - 2 + 1]);
      assert IsCycle(g, ring);
    }
  }

  lemma CyclesAreClosedWalks(g: Graph, c: seq<nat>)
    requires IsCycle(g, c)
    ensures ClosedWalk(g, c + [c[0]])
  {
    var w := c + [c[0]];
    forall i | 0 <= i < |w| - 1 ensures Edge(g, w[i], w[i + 1]) {
      if i < |c| - 1 { assert Edge(g, c[i], c[i + 1]); }
    }
  }
}
