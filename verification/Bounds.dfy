/** The search's bound is met by a store that the services themselves build: 67 Actions, a
    chain of 66 dependencies, and an accepted dependency that closes the cycle. */
module Bounds {
  import opened Domain
  import opened Records
  import opened Dependency
  import opened DependencyService
  import opened ServiceRuns

  function Foreign(scope: string): ActionRow {
    ActionRow(scope, ExternalOp("foreign", true, false), Applied, Reversible, 0, 0, None, NoMaterial)
  }

  function ActionCalls(scope: string, n: nat): seq<ServiceCall> {
    if n == 0 then [] else ActionCalls(scope, n - 1) + [ExternalCall(Foreign(scope))]
  }

  /** Action n - 1 depends on Action n, for every n so far. */
  function ChainCalls(scope: string, n: nat): seq<ServiceCall> {
    if n == 0 then [] else ChainCalls(scope, n - 1) + [DependCall(scope, n, n - 1)]
  }

  lemma {:induction false} DoAllMore(db: Tables, calls: seq<ServiceCall>, c: ServiceCall)
    ensures DoAll(db, calls + [c]) == Do(DoAll(db, calls), c)
    decreases |calls|
  {
    hide Do;
    if calls == [] {
      assert [] + [c] == [c] && [c][1..] == [];
      assert DoAll(Do(db, c), []) == Do(db, c);
    } else {
      DoAllMore(Do(db, calls[0]), calls[1..], c);
      assert (calls + [c])[1..] == calls[1..] + [c];
    }
  }

  lemma {:induction false} DoAllBoth(db: Tables, first: seq<ServiceCall>, rest: seq<ServiceCall>)
    ensures DoAll(db, first + rest) == DoAll(DoAll(db, first), rest)
    decreases |first|
  {
    hide Do;
    if first == [] {
      assert first + rest == rest;
    } else {
      DoAllBoth(Do(db, first[0]), first[1..], rest);
      assert (first + rest)[1..] == first[1..] + rest;
    }
  }

  predicate HasForeign(db: Tables, scope: string, n: nat) {
    |db.actions| == n && forall a :: 0 <= a < n ==> db.actions[a] == Foreign(scope)
  }

  lemma {:induction false} ActionsDone(scope: string, n: nat)
    ensures var db := DoAll(EMPTY_TABLES, ActionCalls(scope, n));
      HasForeign(db, scope, n) && db.edges == []
  {
    if n > 0 {
      ActionsDone(scope, n - 1);
      DoAllMore(EMPTY_TABLES, ActionCalls(scope, n - 1), ExternalCall(Foreign(scope)));
    }
  }

  lemma LinkIsNew(scope: string, n: nat)
    requires n > 0
    ensures AddEdge(Chain(scope, n - 1), Edge(scope, n, n - 1)) == Chain(scope, n)
  {
    ChainEdges(scope, n - 1);
  }

  lemma LinkDone(db: Tables, scope: string, n: nat)
    requires 0 < n < |db.actions| && HasForeign(db, scope, |db.actions|)
    ensures Do(db.(edges := Chain(scope, n - 1)), DependCall(scope, n, n - 1)) == db.(edges := Chain(scope, n))
  {
    LinkIsNew(scope, n);
    NoPathFromNew(scope, n);
    hide Chain, Reachable, AddEdge;
  }

  lemma NoLinks(db: Tables, scope: string)
    requires db.edges == []
    ensures DoAll(db, ChainCalls(scope, 0)) == db.(edges := Chain(scope, 0))
  {
    hide Do;
  }

  lemma OneMoreLink(scope: string, n: nat)
    requires n > 0
    ensures ChainCalls(scope, n) == ChainCalls(scope, n - 1) + [DependCall(scope, n, n - 1)]
  {
  }

  lemma {:induction false} ChainDone(db: Tables, scope: string, n: nat)
    requires n < |db.actions| && HasForeign(db, scope, |db.actions|) && db.edges == []
    ensures DoAll(db, ChainCalls(scope, n)) == db.(edges := Chain(scope, n))
  {
    hide *;
    if n == 0 {
      NoLinks(db, scope);
    } else {
      ChainDone(db, scope, n - 1);
      OneMoreLink(scope, n);
      DoAllMore(db, ChainCalls(scope, n - 1), DependCall(scope, n, n - 1));
      LinkDone(db, scope, n);
    }
  }

  /** The new end is on no edge at all. */
  lemma NoPathFromNew(scope: string, n: nat)
    requires n > 0
    ensures !Reachable(Chain(scope, n - 1), scope, n, n - 1)
  {
    hide Chain, Search, EdgesOfDependent;
    ChainStep(scope, n - 1, n);
    LeafReachesNothing(Chain(scope, n - 1), scope, n, n - 1, MAX_EXPANSIONS);
  }

  /** Along a chain names only grow. */
  lemma {:induction false} PathsGo(scope: string, n: nat, p: seq<nat>)
    requires IsPath(Chain(scope, n), scope, p) && p != []
    ensures p[|p| - 1] >= p[0] + |p| - 1
    decreases |p|
  {
    if |p| > 1 {
      ChainEdges(scope, n);
      assert Edge(scope, p[1], p[0]) in Chain(scope, n);
      PathTail(Chain(scope, n), scope, p);
      PathsGo(scope, n, p[1..]);
    }
  }

  lemma {:induction false} ChainScope(scope: string, n: nat, other: string, p: seq<nat>)
    requires IsPath(Chain(scope, n), other, p) && |p| >= 2
    ensures other == scope
  {
    ChainEdges(scope, n);
    assert Edge(other, p[1], p[0]) in Chain(scope, n);
  }

  lemma ChainIsAcyclic(scope: string, n: nat)
    ensures Acyclic(Chain(scope, n))
  {
    forall other: string, x: nat ensures !DependsOn(Chain(scope, n), other, x, x) {
      if DependsOn(Chain(scope, n), other, x, x) {
        var p :| |p| >= 2 && PathBetween(Chain(scope, n), other, p, x, x);
        ChainScope(scope, n, other, p);
        PathsGo(scope, n, p);
        assert false;
      }
    }
  }

  lemma CountIsLength(db: Tables, scope: string, n: nat)
    requires HasForeign(db, scope, n)
    ensures |db.actions| == n
  {
  }

  lemma ClosingLink(db: Tables, scope: string)
    requires HasForeign(db, scope, 67) && !Reachable(Chain(scope, 66), scope, 0, 66)
    ensures var last := db.(edges := Chain(scope, 66));
      && EdgeProblem(last, scope, 0, 66).None?
      && Do(last, DependCall(scope, 0, 66)).edges == AddEdge(Chain(scope, 66), Edge(scope, 0, 66))
  {
    hide Chain, Reachable, AddEdge;
  }

  /** 133 calls from the empty store leave an acyclic graph in which the next dependency is
      accepted and closes a cycle. */
  lemma AcceptedDependencyClosesACycle(scope: string) returns (calls: seq<ServiceCall>)
    ensures var db := DoAll(EMPTY_TABLES, calls);
      && |db.actions| == 67 && Acyclic(db.edges)
      && EdgeProblem(db, scope, 0, 66).None?
      && !Acyclic(Do(db, DependCall(scope, 0, 66)).edges)
  {
    hide *;
    calls := ActionCalls(scope, 67) + ChainCalls(scope, 66);
    var db := DoAll(EMPTY_TABLES, ActionCalls(scope, 67));
    ActionsDone(scope, 67);
    DoAllBoth(EMPTY_TABLES, ActionCalls(scope, 67), ChainCalls(scope, 66));
    CountIsLength(db, scope, 67);
    ChainDone(db, scope, 66);
    ChainIsAcyclic(scope, 66);
    BudgetIsTight(scope);
    ClosingLink(db, scope);
  }
}
