/** The dependency graph: the budgeted cycle check and what it guarantees. */
module Dependency {
  import opened Domain

  // ------------------------------------------------------------ edge queries

  function EdgesOfDependent(edges: seq<Edge>, scope: string, node: nat): (r: seq<Edge>)
    ensures forall e :: e in r <==> e in edges && e.scope == scope && e.dependent == node
  {
    if edges == [] then []
    else
      var e := edges[|edges| - 1];
      EdgesOfDependent(edges[..|edges| - 1], scope, node)
      + if e.scope == scope && e.dependent == node then [e] else []
  }

  function EdgesOfParent(edges: seq<Edge>, scope: string, node: nat): (r: seq<Edge>)
    ensures forall e :: e in r <==> e in edges && e.scope == scope && e.parent == node
  {
    if edges == [] then []
    else
      var e := edges[|edges| - 1];
      EdgesOfParent(edges[..|edges| - 1], scope, node)
      + if e.scope == scope && e.parent == node then [e] else []
  }

  /** UNIQUE(parent, dependent): a duplicate edge is dropped. */
  function AddEdge(edges: seq<Edge>, e: Edge): (r: seq<Edge>)
    ensures forall f :: f in edges ==> f in r
    ensures forall f :: f in r ==> f in edges || f == e
    ensures exists f :: f in r && f.parent == e.parent && f.dependent == e.dependent
  {
    if exists i :: 0 <= i < |edges| && edges[i].parent == e.parent && edges[i].dependent == e.dependent
    then edges
    else
      assert e in edges + [e];
      edges + [e]
  }

  // ----------------------------------------------------------- their order

  /** These positions, in order, are exactly those of the picked elements. */
  ghost predicate PicksInOrder<T(!new)>(all: seq<T>, picked: seq<T>, places: seq<nat>, wanted: T -> bool) {
    && |places| == |picked| && (forall i, j :: 0 <= i < j < |places| ==> places[i] < places[j])
    && (forall i :: 0 <= i < |places| ==> places[i] < |all| && picked[i] == all[places[i]])
    && (forall p: nat :: p in places <==> p < |all| && wanted(all[p]))
  }

  lemma PickOneMore<T(!new)>(all: seq<T>, picked: seq<T>, places: seq<nat>, wanted: T -> bool) returns (more: seq<nat>)
    requires all != [] && PicksInOrder(all[..|all| - 1], picked, places, wanted)
    ensures more == places + if wanted(all[|all| - 1]) then [|all| - 1] else []
    ensures PicksInOrder(all, picked + (if wanted(all[|all| - 1]) then [all[|all| - 1]] else []), more, wanted)
  {
    var n := |all| - 1;
    more := places + if wanted(all[n]) then [n] else [];
    forall p: nat ensures p in more <==> p < |all| && wanted(all[p]) {
      if p < n { assert all[..n][p] == all[p]; }
    }
  }

  /** The query keeps every edge of this scope and parent, in the order of insertion. */
  lemma {:induction false} ParentEdgesInOrder(edges: seq<Edge>, scope: string, node: nat) returns (places: seq<nat>)
    ensures PicksInOrder(edges, EdgesOfParent(edges, scope, node), places,
      (e: Edge) => e.scope == scope && e.parent == node)
  {
    places := [];
    if edges != [] {
      places := ParentEdgesInOrder(edges[..|edges| - 1], scope, node);
      places := PickOneMore(edges, EdgesOfParent(edges[..|edges| - 1], scope, node), places,
        (e: Edge) => e.scope == scope && e.parent == node);
    }
  }

  lemma {:induction false} DependentEdgesInOrder(edges: seq<Edge>, scope: string, node: nat)
      returns (places: seq<nat>)
    ensures PicksInOrder(edges, EdgesOfDependent(edges, scope, node), places,
      (e: Edge) => e.scope == scope && e.dependent == node)
  {
    places := [];
    if edges != [] {
      places := DependentEdgesInOrder(edges[..|edges| - 1], scope, node);
      places := PickOneMore(edges, EdgesOfDependent(edges[..|edges| - 1], scope, node), places,
        (e: Edge) => e.scope == scope && e.dependent == node);
    }
  }

  // -------------------------------------------------- the search, as written

  /** One more than the largest value of the search's depth counter: 65 expansions. */
  const MAX_EXPANSIONS: nat := 65

  datatype Scanned = Scanned(hit: bool, visited: set<nat>, stack: seq<nat>)

  function Scan(es: seq<Edge>, target: nat, visited: set<nat>, stack: seq<nat>): Scanned {
    if es == [] then Scanned(false, visited, stack)
    else if es[0].parent == target then Scanned(true, visited, stack)
    else if es[0].parent in visited then Scan(es[1..], target, visited, stack)
    else Scan(es[1..], target, visited + {es[0].parent}, stack + [es[0].parent])
  }

  function Search(edges: seq<Edge>, scope: string, target: nat, visited: set<nat>, stack: seq<nat>, budget: nat): bool
    decreases budget
  {
    if |stack| == 0 || budget == 0 then false
    else
      var node := stack[|stack| - 1];
      var r := Scan(EdgesOfDependent(edges, scope, node), target, visited, stack[..|stack| - 1]);
      r.hit || Search(edges, scope, target, r.visited, r.stack, budget - 1)
  }

  /** Does a chain of dependencies lead from one Action to the other, as far as the search looks? */
  function Reachable(edges: seq<Edge>, scope: string, from: nat, target: nat): bool {
    Search(edges, scope, target, {from}, [from], MAX_EXPANSIONS)
  }

  // ------------------------------------------------- the graph, independently

  /** A chain of "depends on" edges through the nodes of p. */
  ghost predicate IsPath(edges: seq<Edge>, scope: string, p: seq<nat>) {
    |p| >= 1 && forall i :: 0 <= i < |p| - 1 ==> Edge(scope, p[i + 1], p[i]) in edges
  }

  ghost predicate PathBetween(edges: seq<Edge>, scope: string, p: seq<nat>, x: nat, y: nat) {
    IsPath(edges, scope, p) && p[0] == x && p[|p| - 1] == y
  }

  /** x is y, or x depends on y. */
  ghost predicate Reaches(edges: seq<Edge>, scope: string, x: nat, y: nat) {
    exists p :: PathBetween(edges, scope, p, x, y)
  }

  /** x depends on y through at least one edge. */
  ghost predicate DependsOn(edges: seq<Edge>, scope: string, x: nat, y: nat) {
    exists p :: |p| >= 2 && PathBetween(edges, scope, p, x, y)
  }

  ghost predicate Acyclic(edges: seq<Edge>) {
    forall scope: string, x: nat :: !DependsOn(edges, scope, x, x)
  }

  lemma ReachesItself(edges: seq<Edge>, scope: string, x: nat)
    ensures Reaches(edges, scope, x, x)
  {
    assert PathBetween(edges, scope, [x], x, x);
  }

  lemma ExtendPath(edges: seq<Edge>, scope: string, x: nat, y: nat, z: nat)
    requires Reaches(edges, scope, x, y) && Edge(scope, z, y) in edges
    ensures Reaches(edges, scope, x, z) && DependsOn(edges, scope, x, z)
  {
    var p :| PathBetween(edges, scope, p, x, y);
    assert PathBetween(edges, scope, p + [z], x, z);
  }

  lemma JoinPaths(edges: seq<Edge>, scope: string, x: nat, y: nat, z: nat)
    requires Reaches(edges, scope, x, y) && Reaches(edges, scope, y, z)
    ensures Reaches(edges, scope, x, z)
    ensures DependsOn(edges, scope, x, y) || DependsOn(edges, scope, y, z) ==> DependsOn(edges, scope, x, z)
  {
    if DependsOn(edges, scope, x, y) {
      var p :| |p| >= 2 && PathBetween(edges, scope, p, x, y);
      var q :| PathBetween(edges, scope, q, y, z);
      assert PathBetween(edges, scope, p + q[1..], x, z);
    } else if DependsOn(edges, scope, y, z) {
      var p :| PathBetween(edges, scope, p, x, y);
      var q :| |q| >= 2 && PathBetween(edges, scope, q, y, z);
      assert PathBetween(edges, scope, p + q[1..], x, z);
    } else {
      var p :| PathBetween(edges, scope, p, x, y);
      var q :| PathBetween(edges, scope, q, y, z);
      assert PathBetween(edges, scope, p + q[1..], x, z);
    }
  }

  // ------------------------------------------------ the search finds only paths

  /** A scan only adds to the visited set and to the stack, and the same nodes to both. */
  ghost predicate Adds(target: nat, visited: set<nat>, stack: seq<nat>, r: Scanned) {
    && visited <= r.visited && stack <= r.stack
    && (forall n :: n in r.stack[|stack|..] ==> n in r.visited)
    && (forall n :: n in r.visited && n !in visited ==> n in r.stack[|stack|..] && n != target)
    && |r.visited| == |visited| + |r.stack| - |stack|
  }

  lemma AddsOneMore(target: nat, visited: set<nat>, stack: seq<nat>, node: nat, r: Scanned)
    requires node !in visited && node != target && Adds(target, visited + {node}, stack + [node], r)
    ensures Adds(target, visited, stack, r)
  {
    assert r.stack[|stack|..] == [node] + r.stack[|stack| + 1..];
    forall n | n in r.visited && n !in visited ensures n in r.stack[|stack|..] && n != target {
      if n != node { assert n !in visited + {node}; }
    }
  }

  lemma {:induction false} ScanShape(es: seq<Edge>, target: nat, visited: set<nat>, stack: seq<nat>)
    ensures Adds(target, visited, stack, Scan(es, target, visited, stack))
  {
    if es != [] && es[0].parent != target {
      hide Adds;
      var node := es[0].parent;
      if node in visited {
        ScanShape(es[1..], target, visited, stack);
      } else {
        ScanShape(es[1..], target, visited + {node}, stack + [node]);
        AddsOneMore(target, visited, stack, node, Scan(es, target, visited, stack));
      }
    }
  }

  predicate IsParent(es: seq<Edge>, n: nat) {
    exists i :: 0 <= i < |es| && es[i].parent == n
  }

  lemma ParentOfRest(es: seq<Edge>, n: nat)
    requires es != [] && IsParent(es[1..], n)
    ensures IsParent(es, n)
  {
    var i :| 0 <= i < |es[1..]| && es[1..][i].parent == n;
    assert es[i + 1].parent == n;
  }

  lemma {:induction false} ScanParents(es: seq<Edge>, target: nat, visited: set<nat>, stack: seq<nat>)
    ensures var r := Scan(es, target, visited, stack);
      && stack <= r.stack && visited <= r.visited
      && (r.hit ==> IsParent(es, target))
      && (forall n :: n in r.stack[|stack|..] ==> IsParent(es, n))
      && (!r.hit ==> forall i :: 0 <= i < |es| ==> es[i].parent != target && es[i].parent in r.visited)
  {
    if es != [] {
      assert IsParent(es, es[0].parent) by { assert es[0].parent == es[0].parent; }
      forall n: nat | IsParent(es[1..], n) ensures IsParent(es, n) { ParentOfRest(es, n); }
      hide IsParent;
      if es[0].parent != target {
        if es[0].parent in visited {
          ScanParents(es[1..], target, visited, stack);
        } else {
          ScanParents(es[1..], target, visited + {es[0].parent}, stack + [es[0].parent]);
          var r := Scan(es, target, visited, stack);
          assert r.stack[|stack|..] == [es[0].parent] + r.stack[|stack| + 1..];
        }
        assert forall i :: 0 < i < |es| ==> es[i] == es[1..][i - 1];
      }
    }
  }

  lemma ScanFacts(es: seq<Edge>, target: nat, visited: set<nat>, stack: seq<nat>)
    ensures var r := Scan(es, target, visited, stack);
      && visited <= r.visited && stack <= r.stack
      && (r.hit ==> exists i :: 0 <= i < |es| && es[i].parent == target)
      && (forall n :: n in r.stack[|stack|..] ==> n in r.visited && exists i :: 0 <= i < |es| && es[i].parent == n)
      && (forall n :: n in r.visited - visited ==> n in r.stack[|stack|..] && n != target)
      && |r.visited| == |visited| + |r.stack| - |stack|
      && (!r.hit ==> forall i :: 0 <= i < |es| ==> es[i].parent != target && es[i].parent in r.visited)
  {
    hide Scan;
    ScanShape(es, target, visited, stack);
    ScanParents(es, target, visited, stack);
  }

  /** What one scan finds is reached through the node it scans. */
  lemma ScanReaches(edges: seq<Edge>, scope: string, from: nat, node: nat, target: nat, visited: set<nat>,
      rest: seq<nat>)
    requires Reaches(edges, scope, from, node) && forall n :: n in rest ==> Reaches(edges, scope, from, n)
    ensures var r := Scan(EdgesOfDependent(edges, scope, node), target, visited, rest);
      && (r.hit ==> DependsOn(edges, scope, from, target))
      && (forall n :: n in r.stack ==> Reaches(edges, scope, from, n))
  {
    var es := EdgesOfDependent(edges, scope, node);
    var r := Scan(es, target, visited, rest);
    ScanFacts(es, target, visited, rest);
    forall i | 0 <= i < |es|
      ensures Reaches(edges, scope, from, es[i].parent) && DependsOn(edges, scope, from, es[i].parent)
    {
      assert es[i] in es;
      ExtendPath(edges, scope, from, node, es[i].parent);
    }
    hide Scan, Reaches, DependsOn, EdgesOfDependent;
    forall n | n in r.stack ensures Reaches(edges, scope, from, n) {
      assert r.stack == rest + r.stack[|rest|..];
    }
  }

  lemma {:induction false} SearchIsSound(edges: seq<Edge>, scope: string, from: nat, target: nat,
      visited: set<nat>, stack: seq<nat>, budget: nat)
    requires forall n :: n in stack ==> Reaches(edges, scope, from, n)
    requires Search(edges, scope, target, visited, stack, budget)
    ensures DependsOn(edges, scope, from, target)
    decreases budget
  {
    var node := stack[|stack| - 1];
    var rest := stack[..|stack| - 1];
    var r := Scan(EdgesOfDependent(edges, scope, node), target, visited, rest);
    ScanReaches(edges, scope, from, node, target, visited, rest);
    hide Scan, Reaches, DependsOn, EdgesOfDependent;
    if !r.hit {
      SearchIsSound(edges, scope, from, target, r.visited, r.stack, budget - 1);
    }
  }

  // ------------------------------------- within the budget it finds every path

  /** Every node that can be reached, other than the target, is in s. */
  ghost predicate Covers(edges: seq<Edge>, scope: string, from: nat, target: nat, s: set<nat>) {
    forall n :: n != target && Reaches(edges, scope, from, n) ==> n in s
  }

  ghost predicate Settled(edges: seq<Edge>, scope: string, target: nat, visited: set<nat>, n: nat) {
    forall m :: Edge(scope, m, n) in edges ==> m != target && m in visited
  }

  /** What the search keeps: everything visited is reached, and everything visited but
      no longer on the stack has only visited parents, none of them the target. */
  ghost predicate Frontier(edges: seq<Edge>, scope: string, from: nat, target: nat,
      visited: set<nat>, stack: seq<nat>)
  {
    && from in visited && target !in visited
    && (forall n :: n in stack ==> n in visited)
    && (forall n :: n in visited ==> Reaches(edges, scope, from, n))
    && (forall n :: n in visited && n !in stack ==> Settled(edges, scope, target, visited, n))
  }

  lemma ExpansionKeepsFrontier(edges: seq<Edge>, scope: string, from: nat, target: nat,
      visited: set<nat>, rest: seq<nat>, node: nat, es: seq<Edge>, r: Scanned)
    requires Frontier(edges, scope, from, target, visited, rest + [node])
    requires es == EdgesOfDependent(edges, scope, node)
    requires r == Scan(es, target, visited, rest) && !r.hit
    ensures Frontier(edges, scope, from, target, r.visited, r.stack)
    ensures |r.visited| == |visited| + |r.stack| - |rest|
  {
    ScanFacts(es, target, visited, rest);
    forall n | n in r.visited ensures Reaches(edges, scope, from, n) {
      if n !in visited {
        var i :| 0 <= i < |es| && es[i].parent == n;
        assert es[i] in es;
        assert node in rest + [node];
        ExtendPath(edges, scope, from, node, n);
      }
    }
    forall n | n in r.visited && n !in r.stack
      ensures Settled(edges, scope, target, r.visited, n)
    {
      ExpansionSettles(edges, scope, from, target, visited, rest, node, es, r, n);
    }
    assert forall n :: n in r.stack ==> n in rest || n in r.stack[|rest|..];
    assert forall n :: n in rest ==> n in rest + [node];
  }

  lemma ExpansionSettles(edges: seq<Edge>, scope: string, from: nat, target: nat,
      visited: set<nat>, rest: seq<nat>, node: nat, es: seq<Edge>, r: Scanned, n: nat)
    requires Frontier(edges, scope, from, target, visited, rest + [node])
    requires es == EdgesOfDependent(edges, scope, node)
    requires r == Scan(es, target, visited, rest) && !r.hit
    requires n in r.visited && n !in r.stack
    ensures Settled(edges, scope, target, r.visited, n)
  {
    ScanFacts(es, target, visited, rest);
    if n == node {
      forall m | Edge(scope, m, n) in edges ensures m != target && m in r.visited {
        assert Edge(scope, m, n) in es;
      }
    } else {
      assert n in visited by { assert forall k :: k in r.stack[|rest|..] ==> k in r.stack; }
      assert n !in rest by { assert forall k :: k in rest ==> k in r.stack; }
      assert n !in rest + [node];
    }
  }

  lemma {:induction false} SearchIsComplete(edges: seq<Edge>, scope: string, from: nat, target: nat,
      visited: set<nat>, stack: seq<nat>, budget: nat, s: set<nat>)
    requires Frontier(edges, scope, from, target, visited, stack)
    requires Covers(edges, scope, from, target, s) && |s| <= MAX_EXPANSIONS
    requires |visited| + budget == MAX_EXPANSIONS + |stack|
    requires !Search(edges, scope, target, visited, stack, budget)
    ensures !DependsOn(edges, scope, from, target)
    decreases budget
  {
    hide Frontier, Covers, DependsOn, Scan, EdgesOfDependent;
    if |stack| == 0 {
      NothingLeft(edges, scope, from, target, visited);
    } else if budget == 0 {
      VisitedIsCovered(edges, scope, from, target, visited, stack, s);
      assert false;
    } else {
      var node, rest := stack[|stack| - 1], stack[..|stack| - 1];
      var es := EdgesOfDependent(edges, scope, node);
      var r := Scan(es, target, visited, rest);
      assert stack == rest + [node];
      ExpansionKeepsFrontier(edges, scope, from, target, visited, rest, node, es, r);
      SearchIsComplete(edges, scope, from, target, r.visited, r.stack, budget - 1, s);
    }
  }

  lemma NothingLeft(edges: seq<Edge>, scope: string, from: nat, target: nat, visited: set<nat>)
    requires Frontier(edges, scope, from, target, visited, [])
    ensures !DependsOn(edges, scope, from, target)
  {
    NothingBeyond(edges, scope, from, target, visited);
  }

  lemma VisitedIsCovered(edges: seq<Edge>, scope: string, from: nat, target: nat,
      visited: set<nat>, stack: seq<nat>, s: set<nat>)
    requires Frontier(edges, scope, from, target, visited, stack)
    requires Covers(edges, scope, from, target, s)
    ensures |visited| <= |s|
  {
    assert visited <= s;
    Subset(visited, s);
  }

  lemma {:induction false} Subset(a: set<nat>, b: set<nat>)
    requires a <= b
    ensures |a| <= |b|
  {
    assert |b| == |a| + |b - a| by {
      assert b == a + (b - a);
    }
  }

  lemma NothingBeyond(edges: seq<Edge>, scope: string, from: nat, target: nat, visited: set<nat>)
    requires from in visited && target !in visited
    requires forall n :: n in visited ==> Settled(edges, scope, target, visited, n)
    ensures !DependsOn(edges, scope, from, target)
  {
    if DependsOn(edges, scope, from, target) {
      var p :| |p| >= 2 && PathBetween(edges, scope, p, from, target);
      StaysInside(edges, scope, target, visited, p);
      assert false;
    }
  }

  lemma PathTail(edges: seq<Edge>, scope: string, p: seq<nat>)
    requires IsPath(edges, scope, p) && |p| > 1
    ensures IsPath(edges, scope, p[1..])
  {
  }

  lemma {:induction false} StaysInside(edges: seq<Edge>, scope: string, target: nat, visited: set<nat>, p: seq<nat>)
    requires IsPath(edges, scope, p) && p[0] in visited
    requires forall n :: n in visited ==> Settled(edges, scope, target, visited, n)
    ensures p[|p| - 1] in visited
  {
    if |p| > 1 {
      assert Edge(scope, p[1], p[0]) in edges;
      PathTail(edges, scope, p);
      StaysInside(edges, scope, target, visited, p[1..]);
    }
  }

  /** The search's answer is the truth whenever at most 65 nodes other than the target
      can be reached; a positive answer is always the truth. */
  lemma ReachableIsExact(edges: seq<Edge>, scope: string, from: nat, target: nat, s: set<nat>)
    requires from != target
    ensures Reachable(edges, scope, from, target) ==> DependsOn(edges, scope, from, target)
    ensures Covers(edges, scope, from, target, s) && |s| <= MAX_EXPANSIONS ==>
      (Reachable(edges, scope, from, target) <==> DependsOn(edges, scope, from, target))
  {
    ReachesItself(edges, scope, from);
    if Reachable(edges, scope, from, target) {
      SearchIsSound(edges, scope, from, target, {from}, [from], MAX_EXPANSIONS);
    } else if Covers(edges, scope, from, target, s) && |s| <= MAX_EXPANSIONS {
      SearchIsComplete(edges, scope, from, target, {from}, [from], MAX_EXPANSIONS, s);
    }
  }

  // ------------------------------------------------------ the bound is tight

  /** 0 depends on 1, 1 depends on 2, and so on up to n. */
  function Chain(scope: string, n: nat): seq<Edge> {
    if n == 0 then [] else Chain(scope, n - 1) + [Edge(scope, n, n - 1)]
  }

  lemma {:induction false} ChainEdges(scope: string, n: nat)
    ensures |Chain(scope, n)| == n
    ensures forall i :: 0 <= i < n ==> Chain(scope, n)[i] == Edge(scope, i + 1, i)
  {
    if n > 0 {
      ChainEdges(scope, n - 1);
    }
  }

  lemma OneMoreEdge(edges: seq<Edge>, e: Edge, scope: string, d: nat)
    ensures EdgesOfDependent(edges + [e], scope, d)
      == EdgesOfDependent(edges, scope, d) + if e.scope == scope && e.dependent == d then [e] else []
  {
    assert (edges + [e])[..|edges|] == edges;
  }

  /** The one edge by which node d of the chain depends on the next. */
  function Link(scope: string, n: nat, d: nat): seq<Edge> {
    if d < n then [Edge(scope, d + 1, d)] else []
  }

  lemma LongerLink(edges: seq<Edge>, scope: string, n: nat, d: nat)
    requires n > 0 && EdgesOfDependent(edges, scope, d) == Link(scope, n - 1, d)
    ensures EdgesOfDependent(edges + [Edge(scope, n, n - 1)], scope, d) == Link(scope, n, d)
  {
    OneMoreEdge(edges, Edge(scope, n, n - 1), scope, d);
  }

  lemma ChainUnfolds(scope: string, n: nat, d: nat)
    ensures n > 0 ==> Chain(scope, n) == Chain(scope, n - 1) + [Edge(scope, n, n - 1)]
    ensures n == 0 ==> EdgesOfDependent(Chain(scope, n), scope, d) == Link(scope, n, d)
  {
  }

  lemma {:induction false} ChainStep(scope: string, n: nat, d: nat)
    ensures EdgesOfDependent(Chain(scope, n), scope, d) == Link(scope, n, d)
    decreases n
  {
    hide *;
    ChainUnfolds(scope, n, d);
    if n > 0 {
      ChainStep(scope, n - 1, d);
      LongerLink(Chain(scope, n - 1), scope, n, d);
    }
  }

  /** A search that stands on a node with one unvisited parent moves there. */
  lemma SearchMovesOn(edges: seq<Edge>, scope: string, target: nat, node: nat, next: nat,
      visited: set<nat>, budget: nat)
    requires EdgesOfDependent(edges, scope, node) == [Edge(scope, next, node)]
    requires next != target && next !in visited && budget > 0
    ensures Search(edges, scope, target, visited, [node], budget)
      == Search(edges, scope, target, visited + {next}, [next], budget - 1)
  {
    var one := [Edge(scope, next, node)];
    assert one[1..] == [];
    assert Scan([], target, visited + {next}, [next]) == Scanned(false, visited + {next}, [next]);
    assert [node][..0] == [] && [] + [next] == [next];
    assert Scan(one, target, visited, []) == Scanned(false, visited + {next}, [next]);
    hide EdgesOfDependent, Scan;
  }

  lemma LinkIs(scope: string, n: nat, d: nat)
    requires d < n
    ensures Link(scope, n, d) == [Edge(scope, d + 1, d)]
  {
  }

  lemma OutOfBudget(edges: seq<Edge>, scope: string, target: nat, visited: set<nat>, stack: seq<nat>)
    ensures !Search(edges, scope, target, visited, stack, 0)
  {
  }

  lemma {:induction false} ChainSearch(scope: string, n: nat, d: nat, visited: set<nat>, budget: nat)
    requires d + 1 < n && budget < n - d
    requires forall m :: m in visited ==> m <= d
    ensures !Search(Chain(scope, n), scope, n, visited, [d], budget)
    decreases n - d
  {
    hide *;
    if budget == 0 {
      OutOfBudget(Chain(scope, n), scope, n, visited, [d]);
    } else {
      ChainStep(scope, n, d);
      LinkIs(scope, n, d);
      SearchMovesOn(Chain(scope, n), scope, n, d, d + 1, visited, budget);
      if budget > 1 {
        ChainSearch(scope, n, d + 1, visited + {d + 1}, budget - 1);
      } else {
        OutOfBudget(Chain(scope, n), scope, n, visited + {d + 1}, [d + 1]);
      }
    }
  }

  lemma ChainLeads(scope: string, n: nat)
    requires n > 0
    ensures DependsOn(Chain(scope, n), scope, 0, n)
  {
    var p := seq(n + 1, i => i);
    ChainEdges(scope, n);
    hide Chain;
    assert IsPath(Chain(scope, n), scope, p) by {
      forall i | 0 <= i < n ensures Edge(scope, p[i + 1], p[i]) in Chain(scope, n) {
        assert Chain(scope, n)[i] == Edge(scope, i + 1, i);
      }
    }
    assert PathBetween(Chain(scope, n), scope, p, 0, n);
  }

  lemma SearchGivesUp(scope: string)
    ensures !Reachable(Chain(scope, 66), scope, 0, 66)
  {
    hide Chain, Search;
    ChainSearch(scope, 66, 0, {0}, MAX_EXPANSIONS);
  }

  /** The edge from the end of a chain of dependencies back to its start. */
  lemma BackEdgeCloses(edges: seq<Edge>, scope: string, x: nat, y: nat)
    requires DependsOn(edges, scope, x, y) && Edge(scope, x, y) in AddEdge(edges, Edge(scope, x, y))
    ensures !Acyclic(AddEdge(edges, Edge(scope, x, y)))
  {
    var closed := AddEdge(edges, Edge(scope, x, y));
    PathsSurvive(edges, closed, scope, x, y);
    assert Reaches(closed, scope, x, y) by {
      var p :| |p| >= 2 && PathBetween(closed, scope, p, x, y);
    }
    hide Reaches, DependsOn, AddEdge;
    ExtendPath(closed, scope, x, y, x);
  }

  lemma ChainTakesBackEdge(scope: string, n: nat)
    requires n > 0
    ensures Edge(scope, 0, n) in AddEdge(Chain(scope, n), Edge(scope, 0, n))
  {
    ChainEdges(scope, n);
  }

  /** 66 nodes other than the target: the search gives up, the path exists, and the edge
      the search was asked about closes a cycle. */
  lemma BudgetIsTight(scope: string)
    ensures var chain := Chain(scope, 66);
      && !Reachable(chain, scope, 0, 66)
      && DependsOn(chain, scope, 0, 66)
      && !Acyclic(AddEdge(chain, Edge(scope, 0, 66)))
  {
    hide *;
    ChainLeads(scope, 66);
    SearchGivesUp(scope);
    ChainTakesBackEdge(scope, 66);
    BackEdgeCloses(Chain(scope, 66), scope, 0, 66);
  }

  lemma LeafReachesNothing(edges: seq<Edge>, scope: string, from: nat, target: nat, budget: nat)
    requires EdgesOfDependent(edges, scope, from) == []
    ensures !Search(edges, scope, target, {from}, [from], budget)
  {
    hide EdgesOfDependent;
    assert Scan([], target, {from}, []) == Scanned(false, {from}, []);
    assert [from][..0] == [];
  }

  /** The search answers exactly whenever at most n nodes other than the target can be reached. */
  ghost predicate IsExactUpTo(n: nat) {
    forall edges: seq<Edge>, scope: string, from: nat, target: nat, s: set<nat> ::
      from != target && Covers(edges, scope, from, target, s) && |s| <= n ==>
        (Reachable(edges, scope, from, target) <==> DependsOn(edges, scope, from, target))
  }

  lemma {:induction false} FirstNodes(n: nat) returns (s: set<nat>)
    ensures |s| == n && forall m: nat :: m in s <==> m < n
  {
    if n == 0 {
      s := {};
    } else {
      s := FirstNodes(n - 1);
      s := s + {n - 1};
    }
  }

  lemma ChainIsCovered(scope: string, n: nat, s: set<nat>)
    requires forall m: nat :: m in s <==> m < n
    ensures Covers(Chain(scope, n), scope, 0, n, s)
  {
    forall m | m != n && Reaches(Chain(scope, n), scope, 0, m) ensures m in s {
      var p :| PathBetween(Chain(scope, n), scope, p, 0, m);
      PathStaysOnChain(scope, n, p);
    }
  }

  lemma {:induction false} PathStaysOnChain(scope: string, n: nat, p: seq<nat>)
    requires IsPath(Chain(scope, n), scope, p) && p != [] && p[0] <= n
    ensures p[|p| - 1] <= n
    decreases |p|
  {
    if |p| > 1 {
      ChainEdges(scope, n);
      assert Edge(scope, p[1], p[0]) in Chain(scope, n);
      PathTail(Chain(scope, n), scope, p);
      PathStaysOnChain(scope, n, p[1..]);
    }
  }

  lemma ExactWithinTheBudget(n: nat)
    requires n <= MAX_EXPANSIONS
    ensures IsExactUpTo(n)
  {
    forall edges: seq<Edge>, scope: string, from: nat, target: nat, s: set<nat>
      | from != target && Covers(edges, scope, from, target, s) && |s| <= n
      ensures Reachable(edges, scope, from, target) <==> DependsOn(edges, scope, from, target)
    {
      hide Reachable, DependsOn, Covers;
      ReachableIsExact(edges, scope, from, target, s);
    }
  }

  lemma WrongBeyondTheBudget(n: nat)
    requires n > MAX_EXPANSIONS
    ensures !IsExactUpTo(n)
  {
    hide Reachable, DependsOn, Covers, Chain;
    BudgetIsTight("");
    var s := FirstNodes(66);
    ChainIsCovered("", 66, s);
  }

  /** The bound is the search's own: 65 nodes and no more. */
  lemma ExactUpToTheBudget(n: nat)
    ensures IsExactUpTo(n) <==> n <= MAX_EXPANSIONS
  {
    hide IsExactUpTo;
    if n <= MAX_EXPANSIONS { ExactWithinTheBudget(n); } else { WrongBeyondTheBudget(n); }
  }

  // -------------------------------------------------------- keeping it acyclic

  lemma PathsSurvive(edges: seq<Edge>, more: seq<Edge>, scope: string, x: nat, y: nat)
    requires forall e :: e in edges ==> e in more
    ensures Reaches(edges, scope, x, y) ==> Reaches(more, scope, x, y)
    ensures DependsOn(edges, scope, x, y) ==> DependsOn(more, scope, x, y)
  {
    if Reaches(edges, scope, x, y) {
      var p :| PathBetween(edges, scope, p, x, y);
      assert PathBetween(more, scope, p, x, y);
    }
    if DependsOn(edges, scope, x, y) {
      var p :| |p| >= 2 && PathBetween(edges, scope, p, x, y);
      assert PathBetween(more, scope, p, x, y);
    }
  }

  /** A path that may use the new edge e either avoids it, or reaches its dependent
      first and leaves from its parent. */
  lemma {:induction false} SplitAtEdge(edges: seq<Edge>, more: seq<Edge>, e: Edge, scope: string, p: seq<nat>)
    requires forall f :: f in more ==> f in edges || f == e
    requires IsPath(more, scope, p)
    ensures |p| >= 2 ==>
      || DependsOn(edges, scope, p[0], p[|p| - 1])
      || (e.scope == scope && Reaches(edges, scope, p[0], e.dependent) && Reaches(edges, scope, e.parent, p[|p| - 1]))
    ensures |p| == 1 ==> Reaches(edges, scope, p[0], p[0])
  {
    var x, y := p[0], p[|p| - 1];
    if |p| == 1 {
      ReachesItself(edges, scope, x);
    } else {
      var rest := p[1..];
      assert Edge(scope, p[1], p[0]) in more;
      PathTail(more, scope, p);
      SplitAtEdge(edges, more, e, scope, rest);
      ReachesItself(edges, scope, x);
      ReachesItself(edges, scope, y);
      if Edge(scope, p[1], x) != e {
        ExtendPath(edges, scope, x, x, p[1]);
        if |rest| >= 2 {
          if DependsOn(edges, scope, p[1], y) {
            assert Reaches(edges, scope, p[1], y) by {
              var q :| |q| >= 2 && PathBetween(edges, scope, q, p[1], y);
            }
            JoinPaths(edges, scope, x, p[1], y);
          } else {
            JoinPaths(edges, scope, x, p[1], e.dependent);
          }
        }
      }
    }
  }

  /** The edge to be added closes a cycle exactly when the parent already depends on the
      dependent. */
  lemma EdgeKeepsAcyclic(edges: seq<Edge>, e: Edge)
    requires Acyclic(edges) && e.parent != e.dependent
    requires forall f :: f in edges && f.parent == e.parent && f.dependent == e.dependent ==> f.scope == e.scope
    ensures Acyclic(AddEdge(edges, e)) <==> !DependsOn(edges, e.scope, e.parent, e.dependent)
  {
    var more := AddEdge(edges, e);
    assert e in more;
    if DependsOn(edges, e.scope, e.parent, e.dependent) {
      PathsSurvive(edges, more, e.scope, e.parent, e.dependent);
      assert Reaches(more, e.scope, e.parent, e.dependent) by {
        var p :| |p| >= 2 && PathBetween(more, e.scope, p, e.parent, e.dependent);
      }
      ExtendPath(more, e.scope, e.parent, e.dependent, e.parent);
    } else {
      forall scope: string, x: nat ensures !DependsOn(more, scope, x, x) {
        if DependsOn(more, scope, x, x) {
          var p :| |p| >= 2 && PathBetween(more, scope, p, x, x);
          SplitAtEdge(edges, more, e, scope, p);
          assert !DependsOn(edges, scope, x, x);
          JoinPaths(edges, scope, e.parent, x, e.dependent);
          assert false;
        }
      }
    }
  }

  /** Both ends of every edge are Actions of the edge's scope. */
  ghost predicate WellScoped(actions: seq<ActionRow>, edges: seq<Edge>) {
    forall e :: e in edges ==>
      && e.parent < |actions| && e.dependent < |actions| && e.parent != e.dependent
      && actions[e.parent].scope == e.scope && actions[e.dependent].scope == e.scope
  }

  lemma LastEdge(edges: seq<Edge>, scope: string, x: nat, y: nat) returns (f: Edge)
    requires DependsOn(edges, scope, x, y)
    ensures f in edges && f.parent == y
  {
    var p :| |p| >= 2 && PathBetween(edges, scope, p, x, y);
    var i := |p| - 2;
    f := Edge(scope, p[i + 1], p[i]);
  }

  /** The insertion path without a check: a dependent that no edge mentions yet. */
  lemma FreshDependentKeepsAcyclic(edges: seq<Edge>, e: Edge)
    requires Acyclic(edges) && e.parent != e.dependent
    requires forall f :: f in edges ==> f.parent != e.dependent && f.dependent != e.dependent
    ensures Acyclic(AddEdge(edges, e))
  {
    if DependsOn(edges, e.scope, e.parent, e.dependent) {
      var f := LastEdge(edges, e.scope, e.parent, e.dependent);
      assert false;
    }
    EdgeKeepsAcyclic(edges, e);
  }
}
