/** The dependency service: the checked insertion of an edge, its stack-based search, and the
    rule for what blocks a reversal. */
module DependencyService {
  import opened Domain
  import opened Records
  import opened Dependency
  import opened Services
  import opened Storage

  /** Why an edge is refused; None when it is recorded. */
  function EdgeProblem(db: Tables, scope: string, parent: nat, dependent: nat): Option<Problem> {
    if parent == dependent then Some(DependencyExists)
    else if GetAction(db, scope, parent).None? || GetAction(db, scope, dependent).None? then Some(ActionNotFound)
    else if Reachable(db.edges, scope, parent, dependent) then Some(DependencyExists)
    else None
  }

  /** An Action that depends on itself is a cycle. */
  lemma SelfEdgeIsCycle(edges: seq<Edge>, scope: string, x: nat)
    requires Edge(scope, x, x) in edges
    ensures !Acyclic(edges)
  {
    assert IsPath(edges, scope, [x, x]);
    assert PathBetween(edges, scope, [x, x], x, x);
    assert DependsOn(edges, scope, x, x);
  }

  /** As long as at most 65 Actions other than the dependent can be reached from the parent,
      an edge is accepted exactly when both Actions exist and the graph stays acyclic. */
  lemma AddIsExact(db: Tables, scope: string, parent: nat, dependent: nat, s: set<nat>)
    requires Acyclic(db.edges) && WellScoped(db.actions, db.edges)
    requires Covers(db.edges, scope, parent, dependent, s) && |s| <= MAX_EXPANSIONS
    ensures EdgeProblem(db, scope, parent, dependent).None? <==>
      && GetAction(db, scope, parent).Some? && GetAction(db, scope, dependent).Some?
      && Acyclic(AddEdge(db.edges, Edge(scope, parent, dependent)))
    ensures EdgeProblem(db, scope, parent, dependent) == Some(ActionNotFound) <==>
      parent != dependent && !(IsThere(db, scope, parent) && IsThere(db, scope, dependent))
    ensures EdgeProblem(db, scope, parent, dependent) == Some(DependencyExists) <==>
      || parent == dependent
      || (IsThere(db, scope, parent) && IsThere(db, scope, dependent) && DependsOn(db.edges, scope, parent, dependent))
  {
    if GetAction(db, scope, parent).Some? && GetAction(db, scope, dependent).Some? {
      var more := AddEdge(db.edges, Edge(scope, parent, dependent));
      if parent == dependent {
        var f :| f in more && f.parent == parent && f.dependent == dependent;
        SelfEdgeIsCycle(more, f.scope, parent);
      } else {
        ReachableIsExact(db.edges, scope, parent, dependent, s);
        EdgeKeepsAcyclic(db.edges, Edge(scope, parent, dependent));
      }
    }
  }

  class Service {
    const store: Store

    constructor (store: Store)
      ensures this.store == store
    {
      this.store := store;
    }

    /** Can `from` reach target along depends-on edges? Within the search's budget. */
    method IsReachable(scope: string, from: nat, target: nat) returns (found: bool)
      ensures found == Reachable(store.edges, scope, from, target)
    {
      hide EdgesOfDependent;
      var visited := {from};
      var stack := [from];
      var depth := 0;
      while |stack| > 0 && depth <= 64
        invariant 0 <= depth <= MAX_EXPANSIONS
        invariant Reachable(store.edges, scope, from, target)
          == Search(store.edges, scope, target, visited, stack, MAX_EXPANSIONS - depth)
        decreases MAX_EXPANSIONS - depth
      {
        var node := stack[|stack| - 1];
        stack := stack[..|stack| - 1];
        var es := store.DependenciesOfDependent(scope, node);
        ghost var scanned := Scan(es, target, visited, stack);
        var i := 0;
        while i < |es|
          invariant 0 <= i <= |es|
          invariant Scan(es[i..], target, visited, stack) == scanned
        {
          var e := es[i];
          if e.parent == target {
            return true;
          }
          if e.parent !in visited {
            visited := visited + {e.parent};
            stack := stack + [e.parent];
          }
          assert es[i..][1..] == es[i + 1..];
          i := i + 1;
        }
        depth := depth + 1;
      }
      return false;
    }

    method Add(scope: string, parent: nat, dependent: nat) returns (problem: Option<Problem>)
      modifies store
      ensures problem == EdgeProblem(old(store.View()), scope, parent, dependent)
      ensures store.View() == if problem.Some? then old(store.View())
        else old(store.View()).(edges := AddEdge(old(store.edges), Edge(scope, parent, dependent)))
    {
      if parent == dependent {
        return Some(DependencyExists);
      }
      var p := store.GetAction(scope, parent);
      if p.None? {
        return Some(ActionNotFound);
      }
      var d := store.GetAction(scope, dependent);
      if d.None? {
        return Some(ActionNotFound);
      }
      var cycle := IsReachable(scope, parent, dependent);
      if cycle {
        return Some(DependencyExists);
      }
      store.AddDependency(scope, parent, dependent);
      return None;
    }

    /** The dependents whose effect still stands; None when a recorded one is missing. */
    method Blocking(scope: string, parent: nat) returns (r: Option<seq<nat>>)
      ensures r == Services.Blocking(store.View(), scope, parent)
    {
      hide EdgesOfParent;
      var es := store.DependenciesOfParent(scope, parent);
      var blocking: seq<nat> := [];
      var i := 0;
      while i < |es|
        invariant 0 <= i <= |es|
        invariant BlockingOf(store.View(), scope, es[..i]) == Some(blocking)
      {
        assert es[..i + 1][..i] == es[..i];
        var a := store.GetAction(scope, es[i].dependent);
        if a.None? {
          MissingStaysMissing(store.View(), scope, es, i + 1);
          return None;
        }
        if !IsResolved(a.value.status) {
          blocking := blocking + [es[i].dependent];
        }
        i := i + 1;
      }
      assert es[..|es|] == es;
      return Some(blocking);
    }
  }

  lemma {:induction false} MissingStaysMissing(db: Tables, scope: string, es: seq<Edge>, i: nat)
    requires i <= |es| && BlockingOf(db, scope, es[..i]).None?
    ensures BlockingOf(db, scope, es).None?
  {
    if i == |es| {
      assert es[..i] == es;
    } else {
      assert es[..|es| - 1][..i] == es[..i];
      MissingStaysMissing(db, scope, es[..|es| - 1], i);
    }
  }
}
