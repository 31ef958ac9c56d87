/** The recorded edges, over every run: each joins two Actions of its scope, every update of
    a living resource is a dependent of its creation, and edges are never lost. */
module Graph {
  import opened Domain
  import opened Timestamp
  import opened Records
  import opened Protocol
  import opened Invariant
  import opened Moves
  import opened Dependency
  import opened ResourceApi
  import opened UndoStack

  /** Every update of a living resource is recorded as a dependent of its creation. */
  ghost predicate UpdatesAreDependents(db: Tables) {
    forall a :: 0 <= a < |db.actions| && db.actions[a].op == UpdateOp && db.actions[a].resourceId in db.resources ==>
      Edge(db.actions[a].scope, db.resources[db.actions[a].resourceId].createdFrom, a) in db.edges
  }

  ghost predicate EdgesOk(db: Tables) {
    WellScoped(db.actions, db.edges) && UpdatesAreDependents(db)
  }

  predicate MakesEdge(l: Label) {
    l.LUpdate? || l.LAddEdge?
  }

  /** Steps other than Update and Add leave the edges alone and create no dependents. */
  ghost predicate EdgesKeep(db: Tables, next: Tables) {
    && next.edges == db.edges
    && (forall a :: |db.actions| <= a < |next.actions| ==> next.actions[a].op != UpdateOp)
    && (forall a ::
          0 <= a < |db.actions| && db.actions[a].op == UpdateOp && db.actions[a].resourceId in next.resources ==>
          && db.actions[a].resourceId in db.resources
          && next.resources[db.actions[a].resourceId].createdFrom == db.resources[db.actions[a].resourceId].createdFrom)
  }

  lemma BusinessKeepsEdges(w: World, l: Label)
    requires Enabled(w, l) && (l.LCreate? || l.LPublish? || l.LNotify? || l.LExternal?)
    ensures EdgesKeep(w.db, Apply(w, l).db)
  {
  }

  lemma CallKeepsEdges(w: World, tid: nat, ret: ProviderReturn, effect: bool)
    requires Enabled(w, LCall(tid, ret, effect))
    ensures EdgesKeep(w.db, Apply(w, LCall(tid, ret, effect)).db)
  {
  }

  lemma StepKeepsEdges(w: World, l: Label)
    requires Enabled(w, l) && !MakesEdge(l)
    ensures EdgesKeep(w.db, Apply(w, l).db)
  {
    hide Apply, Enabled;
    if l.LCall? {
      CallKeepsEdges(w, l.tid, l.ret, l.effect);
    } else if TouchesResources(l) {
      BusinessKeepsEdges(w, l);
    } else {
      StepLeavesResources(w, l);
    }
  }

  lemma EdgesKeepDependents(db: Tables, next: Tables)
    requires EdgesKeep(db, next) && Grows(db, next)
    requires EdgesOk(db)
    ensures EdgesOk(next)
  {
  }

  lemma NewDependentIsNew(db: Tables, e: Edge)
    requires WellScoped(db.actions, db.edges) && e.dependent == |db.actions|
    ensures AddEdge(db.edges, e) == db.edges + [e]
  {
  }

  lemma DependentRecorded(db: Tables, scope: string, id: nat, value: string, now: Instant, exp: Option<Instant>)
    requires CanUpdate(db, scope, id) && EdgesOk(db)
    requires var c := db.resources[id].createdFrom;
      && c < |db.actions| && db.actions[c].scope == scope
      && AddEdge(db.edges, Edge(scope, c, |db.actions|)) == db.edges + [Edge(scope, c, |db.actions|)]
    ensures var next := Update(db, scope, id, value, now, exp);
      && next.edges == db.edges + [Edge(scope, db.resources[id].createdFrom, |db.actions|)]
      && EdgesOk(next)
  {
  }

  /** The edge an update records is really there: nobody else can have taken its place. */
  lemma UpdateMakesDependent(w: World, scope: string, id: nat, value: string, now: Instant, exp: Option<Instant>)
    requires Inv(w) && DemoInv(w) && EdgesOk(w.db) && CanUpdate(w.db, scope, id)
    ensures var next := Update(w.db, scope, id, value, now, exp);
      && next.edges == w.db.edges + [Edge(scope, w.db.resources[id].createdFrom, |w.db.actions|)]
      && EdgesOk(next)
  {
    hide Inv;
    var c, n := w.db.resources[id].createdFrom, |w.db.actions|;
    assert StackOk(w.db.actions, w.wrote, Undone(w), id, w.db.resources[id]);
    hide StackOk, DemoInv, Undone;
    NewDependentIsNew(w.db, Edge(scope, c, n));
    DependentRecorded(w.db, scope, id, value, now, exp);
  }

  lemma AddKeepsDependents(w: World, e: Edge)
    requires EdgesOk(w.db) && Enabled(w, LAddEdge(e))
    ensures var next := Apply(w, LAddEdge(e)).db;
      EdgesOk(next)
  {
  }

  lemma StepKeepsDependents(w: World, l: Label)
    requires Inv(w) && DemoInv(w) && EdgesOk(w.db) && Enabled(w, l)
    ensures var next := Apply(w, l).db;
      EdgesOk(next)
  {
    if l.LUpdate? {
      UpdateMakesDependent(w, l.scope, l.id, l.value, l.now, l.expiresAt);
    } else if l.LAddEdge? {
      AddKeepsDependents(w, l.edge);
    } else {
      StepKeepsEdges(w, l);
      StepGrows(w, l);
      hide Apply, Enabled, Inv, DemoInv;
      EdgesKeepDependents(w.db, Apply(w, l).db);
    }
  }

  lemma {:induction false} RunKeepsEdgesOk(w: World, ls: seq<Label>)
    requires Inv(w) && DemoInv(w) && EdgesOk(w.db) && CanRun(w, ls)
    ensures EdgesOk(Run(w, ls).db)
    decreases |ls|
  {
    hide Apply, Enabled, Inv, DemoInv, EdgesOk;
    if ls != [] {
      StepKeepsDependents(w, ls[0]);
      StepKeepsDemo(w, ls[0]);
      StepKeeps(w, ls[0]);
      RunKeepsEdgesOk(Apply(w, ls[0]), ls[1..]);
    }
  }

  lemma ReachedEdgesOk(w: World)
    requires Reached(w)
    ensures EdgesOk(w.db)
  {
    var ls :| CanRun(INIT, ls) && Run(INIT, ls) == w;
    RunKeepsEdgesOk(INIT, ls);
  }

  // ------------------------------------------------------------ edges stay

  ghost predicate EdgesGrow(edges: seq<Edge>, next: seq<Edge>) {
    forall e :: e in edges ==> e in next
  }

  lemma StepEdgesGrow(w: World, l: Label)
    requires Enabled(w, l)
    ensures EdgesGrow(w.db.edges, Apply(w, l).db.edges)
  {
    if !MakesEdge(l) { StepKeepsEdges(w, l); }
  }

  lemma {:induction false} RunEdgesGrow(w: World, ls: seq<Label>)
    requires CanRun(w, ls)
    ensures EdgesGrow(w.db.edges, Run(w, ls).db.edges)
    decreases |ls|
  {
    hide Apply, Enabled;
    if ls != [] {
      StepEdgesGrow(w, ls[0]);
      RunEdgesGrow(Apply(w, ls[0]), ls[1..]);
    }
  }

  // ------------------------------------------------------ the graph stays acyclic

  /** At the moment of every insertion but an update's, the new parent does not yet depend on
      the new dependent. */
  ghost predicate NoAddCloses(w: World, ls: seq<Label>)
    requires CanRun(w, ls)
    decreases |ls|
  {
    ls == [] || (!Closes(w, ls[0]) && NoAddCloses(Apply(w, ls[0]), ls[1..]))
  }

  ghost predicate Closes(w: World, l: Label) {
    l.LAddEdge? && DependsOn(w.db.edges, l.edge.scope, l.edge.parent, l.edge.dependent)
  }

  lemma StepAcyclicExactly(w: World, l: Label)
    requires Inv(w) && DemoInv(w) && EdgesOk(w.db) && Acyclic(w.db.edges) && Enabled(w, l)
    ensures Acyclic(Apply(w, l).db.edges) <==> !Closes(w, l)
  {
    if l.LAddEdge? {
      AddAcyclicExactly(w, l.edge);
    } else if l.LUpdate? {
      UpdateKeepsAcyclic(w, l);
    } else {
      StepKeepsEdges(w, l);
    }
  }

  lemma AddAcyclicExactly(w: World, e: Edge)
    requires WellScoped(w.db.actions, w.db.edges) && Acyclic(w.db.edges) && Enabled(w, LAddEdge(e))
    ensures Acyclic(AddEdge(w.db.edges, e)) <==> !DependsOn(w.db.edges, e.scope, e.parent, e.dependent)
  {
    EdgeKeepsAcyclic(w.db.edges, e);
  }

  lemma UpdateKeepsAcyclic(w: World, l: Label)
    requires Inv(w) && DemoInv(w) && EdgesOk(w.db) && Acyclic(w.db.edges) && l.LUpdate? && Enabled(w, l)
    ensures Acyclic(Apply(w, l).db.edges)
  {
    assert StackOk(w.db.actions, w.wrote, Undone(w), l.id, w.db.resources[l.id]);
    var e := Edge(l.scope, w.db.resources[l.id].createdFrom, |w.db.actions|);
    hide Inv, DemoInv, Acyclic, StackOk, Undone;
    assert WellScoped(w.db.actions, w.db.edges);
    FreshDependentKeepsAcyclic(w.db.edges, e);
  }

  lemma CyclesSurvive(edges: seq<Edge>, next: seq<Edge>)
    requires EdgesGrow(edges, next) && Acyclic(next)
    ensures Acyclic(edges)
  {
    forall scope: string, x: nat ensures !DependsOn(edges, scope, x, x) {
      PathsSurvive(edges, next, scope, x, x);
    }
  }

  lemma {:induction false} RunAcyclicExactly(w: World, ls: seq<Label>)
    requires Inv(w) && DemoInv(w) && EdgesOk(w.db) && Acyclic(w.db.edges) && CanRun(w, ls)
    ensures Acyclic(Run(w, ls).db.edges) <==> NoAddCloses(w, ls)
    decreases |ls|
  {
    hide Apply, Enabled, Inv, DemoInv, EdgesOk, Closes, Acyclic, EdgesGrow;
    if ls != [] {
      var v := Apply(w, ls[0]);
      StepAcyclicExactly(w, ls[0]);
      StepKeepsDependents(w, ls[0]);
      StepKeepsDemo(w, ls[0]);
      StepKeeps(w, ls[0]);
      if Closes(w, ls[0]) {
        RunEdgesGrow(v, ls[1..]);
        if Acyclic(Run(v, ls[1..]).db.edges) { CyclesSurvive(v.db.edges, Run(v, ls[1..]).db.edges); }
      } else {
        RunAcyclicExactly(v, ls[1..]);
      }
    }
  }

  lemma NoEdgesNoCycle()
    ensures Acyclic([])
  {
    forall scope: string, x: nat ensures !DependsOn([], scope, x, x) {
      if DependsOn([], scope, x, x) {
        var f := LastEdge([], scope, x, x);
      }
    }
  }

  /** Over every interleaving the graph is acyclic if and only if no checked insertion closed
      a path at the moment it was written; an update's unchecked edge never does. Every edge
      stays inside one scope. */
  lemma GraphIsAcyclicExactly(ls: seq<Label>)
    requires CanRun(INIT, ls)
    ensures var w := Run(INIT, ls);
      && WellScoped(w.db.actions, w.db.edges)
      && (Acyclic(w.db.edges) <==> NoAddCloses(INIT, ls))
  {
    NoEdgesNoCycle();
    assert Inv(INIT) && DemoInv(INIT) && EdgesOk(INIT.db);
    hide *;
    RunAcyclicExactly(INIT, ls);
    RunKeepsEdgesOk(INIT, ls);
    EdgesOkMeans(Run(INIT, ls).db);
  }

  lemma EdgesOkMeans(db: Tables)
    requires EdgesOk(db)
    ensures WellScoped(db.actions, db.edges)
  {
  }

  /** At most 65 nodes other than the new edge's dependent can be reached from its parent. */
  ghost predicate InBudget(w: World, l: Label) {
    l.LAddEdge? ==>
      exists s :: |s| <= MAX_EXPANSIONS && Covers(w.db.edges, l.edge.scope, l.edge.parent, l.edge.dependent, s)
  }

  /** Every insertion is written while its search, within the bound, still finds nothing. */
  ghost predicate CheckedRun(w: World, ls: seq<Label>)
    requires CanRun(w, ls)
    decreases |ls|
  {
    || ls == []
    || (InBudget(w, ls[0])
        && (ls[0].LAddEdge? ==>
              !Reachable(w.db.edges, ls[0].edge.scope, ls[0].edge.parent, ls[0].edge.dependent))
        && CheckedRun(Apply(w, ls[0]), ls[1..]))
  }

  lemma {:induction false} CheckedClosesNothing(w: World, ls: seq<Label>)
    requires CanRun(w, ls) && CheckedRun(w, ls)
    ensures NoAddCloses(w, ls)
    decreases |ls|
  {
    hide Apply;
    if ls != [] {
      if ls[0].LAddEdge? {
        var e := ls[0].edge;
        assert e.parent != e.dependent;
        var s :| |s| <= MAX_EXPANSIONS && Covers(w.db.edges, e.scope, e.parent, e.dependent, s);
        ReachableIsExact(w.db.edges, e.scope, e.parent, e.dependent, s);
      }
      hide Enabled, Reachable, InBudget;
      CheckedClosesNothing(Apply(w, ls[0]), ls[1..]);
    }
  }

  /** So updates mixed with insertions whose check still holds when they are written keep the
      graph acyclic, whatever else interleaves. */
  lemma GraphStaysAcyclic(ls: seq<Label>)
    requires CanRun(INIT, ls) && CheckedRun(INIT, ls)
    ensures var w := Run(INIT, ls); Acyclic(w.db.edges) && WellScoped(w.db.actions, w.db.edges)
  {
    hide *;
    CheckedClosesNothing(INIT, ls);
    GraphIsAcyclicExactly(ls);
  }
}
