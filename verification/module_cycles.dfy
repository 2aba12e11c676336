/** The boundary check: the import graph of the application files, and the enumeration of its
    cycles by a depth-first search from every module. */
module ModuleCycles {
  import opened ModuleGraph

  /** An import names a logical module or something else. */
  datatype Import = Logical(target: nat) | Other

  /** `checked` is false for the files the graph leaves out. */
  datatype File = File(owner: nat, checked: bool, imports: seq<Import>)

  predicate Imports(file: File, modules: set<nat>, a: nat, b: nat) {
    file.checked && file.owner == a && a in modules && a != b && b in modules && Logical(b) in file.imports
  }

  predicate ImportedIn(files: seq<File>, modules: set<nat>, a: nat, b: nat) {
    exists i :: 0 <= i < |files| && Imports(files[i], modules, a, b)
  }

  /** The graph with exactly the edges the files call for. */
  ghost predicate GraphOf(g: Graph, modules: set<nat>, files: seq<File>) {
    && g.Keys == modules
    && (forall a, b :: Edge(g, a, b) <==> ImportedIn(files, modules, a, b))
  }

  method AddFile(g: Graph, modules: set<nat>, file: File) returns (h: Graph)
    requires g.Keys == modules && file.owner in modules
    ensures h.Keys == modules
    ensures forall a, b :: Edge(h, a, b) <==> Edge(g, a, b) || Imports(file.(checked := true), modules, a, b)
  {
    h := g;
    for i := 0 to |file.imports|
      invariant h.Keys == modules
      invariant forall a, b :: Edge(h, a, b) <==>
                  Edge(g, a, b) || Imports(file.(checked := true, imports := file.imports[..i]), modules, a, b)
    {
      var imported := file.imports[i];
      if imported.Logical? && imported.target in modules && imported.target != file.owner {
        h := h[file.owner := h[file.owner] + {imported.target}];
      }
      assert file.imports[..i + 1] == file.imports[..i] + [imported];
    }
    assert file.imports[..|file.imports|] == file.imports;
  }

  method ImportGraph(modules: set<nat>, files: seq<File>) returns (g: Graph)
    ensures GraphOf(g, modules, files)
  {
    g := map m | m in modules :: {};
    for i := 0 to |files|
      invariant g.Keys == modules
      invariant forall a, b :: Edge(g, a, b) <==> ImportedIn(files[..i], modules, a, b)
    {
      var file := files[i];
      ghost var before := g;
      if file.checked && file.owner in modules {
        g := AddFile(g, modules, file);
        assert file.(checked := true) == file;
      }
      forall a, b
        ensures ImportedIn(files[..i + 1], modules, a, b) <==>
                  ImportedIn(files[..i], modules, a, b) || Imports(file, modules, a, b)
      {
        ImportedSplits(files, modules, a, b, i);
      }
    }
    assert files[..|files|] == files;
  }

  lemma ImportedSplits(files: seq<File>, modules: set<nat>, a: nat, b: nat, i: nat)
    requires i < |files|
    ensures ImportedIn(files[..i + 1], modules, a, b) <==>
              ImportedIn(files[..i], modules, a, b) || Imports(files[i], modules, a, b)
  {
    if Imports(files[i], modules, a, b) { assert Imports(files[..i + 1][i], modules, a, b); }
    if ImportedIn(files[..i], modules, a, b) {
      var k :| 0 <= k < i && Imports(files[..i][k], modules, a, b);
      assert files[..i + 1][k] == files[..i][k];
    }
    if ImportedIn(files[..i + 1], modules, a, b) {
      var k :| 0 <= k < |files[..i + 1]| && Imports(files[..i + 1][k], modules, a, b);
      if k < i { assert files[..i][k] == files[..i + 1][k]; }
    }
  }

  /** What an edge means: some checked file of the one module imports the other one. */
  lemma EdgesAreImports(g: Graph, modules: set<nat>, files: seq<File>, a: nat, b: nat)
    requires GraphOf(g, modules, files)
    ensures a in g && b in g[a] <==>
              a in modules && b in modules && a != b
              && exists i ::
                   0 <= i < |files| && files[i].checked && files[i].owner == a && Logical(b) in files[i].imports
  {
    assert Edge(g, a, b) <==> ImportedIn(files, modules, a, b);
    if i :| 0 <= i < |files| && Imports(files[i], modules, a, b) {
      assert files[i].checked && files[i].owner == a && Logical(b) in files[i].imports;
    }
    if i :| 0 <= i < |files| && files[i].checked && files[i].owner == a && Logical(b) in files[i].imports {
      assert a in modules && b in modules && a != b ==> Imports(files[i], modules, a, b);
    }
  }

  /** `r` is the least rotation of a cycle that continues `path` with a module of `next`, or
      closes it if its start is there. */
  ghost predicate Found(g: Graph, path: seq<nat>, next: set<nat>, r: seq<nat>)
    requires path != []
  {
    exists c :: Continues(g, path, next, c) && r == LeastRotation(c)
  }

  predicate Continues(g: Graph, path: seq<nat>, next: set<nat>, c: seq<nat>)
    requires path != []
  {
    && IsCycle(g, c)
    && path <= c
    && (if |c| == |path| then path[0] else c[|path|]) in next
  }

  predicate PathFrom(g: Graph, start: nat, current: nat, path: seq<nat>) {
    path != [] && path[0] == start && path[|path| - 1] == current && Distinct(path) && Walk(g, path)
  }

  function Elements(path: seq<nat>): set<nat> {
    set m | m in path
  }

  class CycleFinder {
    const edges: Graph
    var cycles: set<seq<nat>>

    constructor (edges: Graph)
      ensures this.edges == edges && cycles == {}
    {
      this.edges := edges;
      cycles := {};
    }

    /** Adds the least rotation of every cycle that begins with `path`, and nothing else. */
    method Visit(start: nat, current: nat, path: seq<nat>)
      requires Closed(edges) && PathFrom(edges, start, current, path)
      modifies this
      ensures forall r :: r in cycles <==> r in old(cycles) || Found(edges, path, edges[current], r)
      decreases edges.Keys - Elements(path)
    {
      var targets := edges[current];
      ghost var visited: set<nat> := {};
      while targets != {}
        invariant visited + targets == edges[current] && visited !! targets
        invariant forall r :: r in cycles <==> r in old(cycles) || Found(edges, path, visited, r)
        decreases targets
      {
        var target :| target in targets;
        targets := targets - {target};
        ghost var before := cycles;
        if target == start {
          cycles := cycles + {LeastRotation(path)};
          forall r
            ensures Found(edges, path, visited + {target}, r) <==>
                      Found(edges, path, visited, r) || r == LeastRotation(path)
          {
            ClosingFinds(edges, path, current, visited, r);
          }
        } else {
          if target !in path {
            ExtendsPath(edges, start, current, path, target);
            Visit(start, target, path + [target]);
          }
          forall r ensures Found(edges, path, visited + {target}, r) <==>
              Found(edges, path, visited, r) || (target !in path && Found(edges, path + [target], edges[target], r)) {
            ExtendingFinds(edges, path, visited, target, r);
          }
        }
        visited := visited + {target};
      }
      assert visited == edges[current];
    }
  }

  lemma ClosingFinds(g: Graph, path: seq<nat>, current: nat, visited: set<nat>, r: seq<nat>)
    requires path != [] && PathFrom(g, path[0], current, path) && path[0] in g[current]
    ensures Found(g, path, visited + {path[0]}, r) <==> Found(g, path, visited, r) || r == LeastRotation(path)
  {
    assert IsCycle(g, path) && Continues(g, path, visited + {path[0]}, path);
    if Found(g, path, visited, r) {
      var c :| Continues(g, path, visited, c) && r == LeastRotation(c);
      assert Continues(g, path, visited + {path[0]}, c);
    }
    if Found(g, path, visited + {path[0]}, r) && !Found(g, path, visited, r) {
      var c :| Continues(g, path, visited + {path[0]}, c) && r == LeastRotation(c);
      assert c[0] == path[0];
      assert c == path;
    }
  }

  lemma ExtendsPath(g: Graph, start: nat, current: nat, path: seq<nat>, target: nat)
    requires Closed(g) && PathFrom(g, start, current, path) && Edge(g, current, target) && target !in path
    ensures PathFrom(g, start, target, path + [target])
    ensures Elements(path + [target]) == Elements(path) + {target} && target in g.Keys - Elements(path)
  {
    var p := path + [target];
    forall i | 0 <= i < |p| - 1 ensures Edge(g, p[i], p[i + 1]) {
      if i < |path| - 1 { assert Edge(g, path[i], path[i + 1]); }
    }
  }

  lemma ExtendingFinds(g: Graph, path: seq<nat>, visited: set<nat>, target: nat, r: seq<nat>)
    requires Closed(g) && path != [] && target != path[0] && target in g
    ensures Found(g, path, visited + {target}, r) <==>
              Found(g, path, visited, r) || (target !in path && Found(g, path + [target], g[target], r))
  {
    var longer := path + [target];
    if Found(g, path, visited, r) {
      var c :| Continues(g, path, visited, c) && r == LeastRotation(c);
      assert Continues(g, path, visited + {target}, c);
    }
    if target !in path && Found(g, longer, g[target], r) {
      var c :| Continues(g, longer, g[target], c) && r == LeastRotation(c);
      assert c[|path|] == longer[|path|] == target;
      assert Continues(g, path, visited + {target}, c);
    }
    if Found(g, path, visited + {target}, r) && !Found(g, path, visited, r) {
      var c :| Continues(g, path, visited + {target}, c) && r == LeastRotation(c);
      ContinuesThrough(g, path, target, c);
    }
  }

  lemma ContinuesThrough(g: Graph, path: seq<nat>, target: nat, c: seq<nat>)
    requires path != [] && target != path[0] && IsCycle(g, c) && path <= c && target in g
    requires |c| > |path| && c[|path|] == target
    ensures target !in path && Continues(g, path + [target], g[target], c)
  {
    var longer := path + [target];
    assert longer <= c;
    if |c| > |longer| { assert Edge(g, c[|path|], c[|path| + 1]); }
    forall i | 0 <= i < |path| ensures path[i] != target { assert path[i] == c[i]; }
  }

  // ----- the sorted list -----

  function InsertInOrder(c: seq<nat>, s: seq<seq<nat>>): seq<seq<nat>> {
    if s == [] || Less(c, s[0]) then [c] + s else [s[0]] + InsertInOrder(c, s[1..])
  }

  lemma {:induction false} InsertInOrderSorts(c: seq<nat>, s: seq<seq<nat>>)
    requires Ascending(s) && c !in s
    ensures Ascending(InsertInOrder(c, s))
    ensures forall x :: x in InsertInOrder(c, s) <==> x == c || x in s
    decreases |s|
  {
    if s == [] {
    } else if Less(c, s[0]) {
      forall i | 0 <= i < |s| ensures Less(c, s[i]) {
        if i > 0 { LessIsTransitive(c, s[0], s[i]); }
      }
    } else {
      LessIsTotal(c, s[0]);
      assert s[0] in s;
      InsertInOrderSorts(c, s[1..]);
      var t := InsertInOrder(c, s[1..]);
      forall i | 0 <= i < |t| ensures Less(s[0], t[i]) { assert t[i] in t; }
    }
  }

  method Sorted(cycles: set<seq<nat>>) returns (list: seq<seq<nat>>)
    ensures Ascending(list) && forall c :: c in list <==> c in cycles
  {
    list := [];
    var rest := cycles;
    while rest != {}
      invariant rest <= cycles && Ascending(list) && forall c :: c in list <==> c in cycles - rest
      decreases rest
    {
      var c :| c in rest;
      InsertInOrderSorts(c, list);
      list := InsertInOrder(c, list);
      rest := rest - {c};
    }
  }

  /** The cycles of a graph, each once, as its least rotation, in order; nothing else. */
  method CyclesOf(g: Graph) returns (list: seq<seq<nat>>)
    requires Closed(g)
    ensures Ascending(list)
    ensures forall c :: c in list <==> IsCycle(g, c) && LeastFirst(c)
  {
    var finder := new CycleFinder(g);
    var modules := g.Keys;
    ghost var visited: set<nat> := {};
    while modules != {}
      invariant visited + modules == g.Keys && finder.edges == g
      invariant forall r :: r in finder.cycles <==> FoundFrom(g, visited, r)
      decreases modules
    {
      var m :| m in modules;
      modules := modules - {m};
      finder.Visit(m, m, [m]);
      visited := visited + {m};
    }
    assert visited == g.Keys;
    forall r ensures FoundFrom(g, g.Keys, r) <==> IsCycle(g, r) && LeastFirst(r) { FoundAreLeastCycles(g, r); }
    list := Sorted(finder.cycles);
  }

  ghost predicate FoundFrom(g: Graph, starts: set<nat>, r: seq<nat>) {
    exists m :: m in starts && m in g && Found(g, [m], g[m], r)
  }

  lemma FoundAreLeastCycles(g: Graph, r: seq<nat>)
    ensures FoundFrom(g, g.Keys, r) <==> IsCycle(g, r) && LeastFirst(r)
  {
    if FoundFrom(g, g.Keys, r) {
      var m :| m in g && Found(g, [m], g[m], r);
      var c :| Continues(g, [m], g[m], c) && r == LeastRotation(c);
      OneRotationStartsLeast(g, c, 0, 0);
    }
    if IsCycle(g, r) && LeastFirst(r) {
      LeastRotationStartsLeast(r);
      var k :| 0 <= k < |r| && LeastRotation(r) == Rotation(r, k);
      LeastFirstIsLeast(r, k);
      if |r| > 1 { assert Edge(g, r[0], r[1]); }
      assert [r[0]] <= r;
      assert Continues(g, [r[0]], g[r[0]], r);
      assert Found(g, [r[0]], g[r[0]], r);
    }
  }

  method LogicalModuleCycles(modules: set<nat>, files: seq<File>) returns (list: seq<seq<nat>>, ghost g: Graph)
    ensures GraphOf(g, modules, files) && Ascending(list)
    ensures forall c :: c in list <==> IsCycle(g, c) && LeastFirst(c)
    ensures list == [] <==> forall w :: !ClosedWalk(g, w)
  {
    var edges := ImportGraph(modules, files);
    g := edges;
    forall a, b | Edge(g, a, b) ensures b in g { assert ImportedIn(files, modules, a, b); }
    assert Closed(g) by {
      forall m, b | m in g && b in g[m] ensures b in g { assert Edge(g, m, b); }
    }
    list := CyclesOf(edges);
    EmptyMeansAcyclic(g, list);
  }

  /** A list of the least rotations is empty exactly when no walk returns to its start. */
  lemma EmptyMeansAcyclic(g: Graph, list: seq<seq<nat>>)
    requires forall c :: c in list <==> IsCycle(g, c) && LeastFirst(c)
    ensures list == [] <==> forall w :: !ClosedWalk(g, w)
  {
    if list != [] {
      assert list[0] in list;
      CyclesAreClosedWalks(g, list[0]);
    }
    if w :| ClosedWalk(g, w) {
      ClosedWalksContainCycles(g, w);
      var c :| IsCycle(g, c);
      OneRotationStartsLeast(g, c, 0, 0);
      assert LeastRotation(c) in list;
    }
  }

  predicate RotationOf(r: seq<nat>, c: seq<nat>) {
    exists k :: 0 <= k < |c| && r == Rotation(c, k)
  }

  /** Every cycle of the graph is in the list once, however it is read off the graph. */
  lemma EveryCycleIsListedOnce(g: Graph, list: seq<seq<nat>>, c: seq<nat>)
    requires Ascending(list) && forall r :: r in list <==> IsCycle(g, r) && LeastFirst(r)
    requires IsCycle(g, c)
    ensures exists i :: 0 <= i < |list| && RotationOf(list[i], c)
    ensures forall i, j ::
              0 <= i < |list| && 0 <= j < |list| && RotationOf(list[i], c) && RotationOf(list[j], c) ==> i == j
  {
    OneRotationStartsLeast(g, c, 0, 0);
    LeastRotationStartsLeast(c);
    assert LeastRotation(c) in list;
    forall i, j | 0 <= i < |list| && 0 <= j < |list| && RotationOf(list[i], c) && RotationOf(list[j], c)
      ensures i == j
    {
      var m :| 0 <= m < |c| && list[i] == Rotation(c, m);
      var n :| 0 <= n < |c| && list[j] == Rotation(c, n);
      assert list[i] in list && list[j] in list;
      OneRotationStartsLeast(g, c, m, n);
      LessIsTotal(list[i], list[j]);
    }
  }

  /** The graph never has a module that imports itself, so every reported cycle crosses at
      least one boundary. */
  lemma CyclesCrossBoundaries(g: Graph, modules: set<nat>, files: seq<File>, c: seq<nat>)
    requires GraphOf(g, modules, files) && IsCycle(g, c)
    ensures |c| >= 2 && ImportedIn(files, modules, c[|c| - 1], c[0])
    ensures forall i :: 0 <= i < |c| - 1 ==> ImportedIn(files, modules, c[i], c[i + 1])
  {
    assert Edge(g, c[|c| - 1], c[0]);
    forall i | 0 <= i < |c| - 1 ensures ImportedIn(files, modules, c[i], c[i + 1]) { assert Edge(g, c[i], c[i + 1]); }
  }
}
