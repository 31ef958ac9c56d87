/** Undoing a create deletes its row without looking at the version. When that loses an
    update, and when it cannot. */
module Deletion {
  import opened Domain
  import opened Records
  import opened ResourceApi
  import opened Protocol
  import opened Invariant
  import opened Moves
  import opened UndoStack
  import opened Lookups
  import opened Graph
  import opened Checks

  predicate IsUpdateOf(db: Tables, id: nat, u: nat) {
    u < |db.actions| && db.actions[u].op == UpdateOp && db.actions[u].resourceId == id
  }

  /** The row is as its creation left it. */
  predicate IsAsCreated(w: World, a: nat)
    requires a < |w.db.actions| && CanReverse(w.db, a) && w.db.actions[a].op == CreateOp
  {
    var row := w.db.resources[w.db.actions[a].resourceId];
    a < |w.wrote| && row.version == 1 && row.value == w.wrote[a]
  }

  lemma NoneLive(actions: seq<ActionRow>, undone: set<nat>, id: nat)
    ensures Live(actions, undone, id) == [] <==> forall u: nat :: !IsLiveUpdate(actions, undone, id, u)
  {
    LiveMembers(actions, undone, id);
    var live := Live(actions, undone, id);
    if live != [] { assert live[0] in live; }
  }

  lemma EmptyStackExactly(actions: seq<ActionRow>, wrote: seq<string>, undone: set<nat>, id: nat, row: ResourceRow)
    requires StackOk(actions, wrote, undone, id, row) && !row.published && row.createdFrom < |wrote|
    ensures (row.version == 1 && row.value == wrote[row.createdFrom]) <==> Live(actions, undone, id) == []
    ensures row.version == 1 <==> Live(actions, undone, id) == []
  {
  }

  lemma LiveMeansNotUndone(db: Tables, undone: set<nat>, id: nat)
    ensures (forall u: nat :: !IsLiveUpdate(db.actions, undone, id, u)) <==>
      (forall u: nat :: IsUpdateOf(db, id, u) ==> u in undone)
  {
    if forall u: nat :: !IsLiveUpdate(db.actions, undone, id, u) {
      forall u: nat | IsUpdateOf(db, id, u) ensures u in undone {
        assert !IsLiveUpdate(db.actions, undone, id, u);
      }
    }
    if forall u: nat :: IsUpdateOf(db, id, u) ==> u in undone {
      forall u: nat ensures !IsLiveUpdate(db.actions, undone, id, u) {
        assert IsUpdateOf(db, id, u) ==> u in undone;
      }
    }
  }

  /** Over every interleaving and crash: when the delete of a create-reversal matches, the row
      is at version 1 with its created value if and only if every update of it is undone. The
      guard that the statement lacks would be exact: version 1 alone implies the value. */
  lemma DeleteIsSafeExactly(w: World, a: nat)
    requires Reached(w) && a < |w.db.actions| && w.db.actions[a].op == CreateOp && CanReverse(w.db, a)
    ensures IsAsCreated(w, a) <==>
      forall u: nat :: IsUpdateOf(w.db, w.db.actions[a].resourceId, u) ==> u in Undone(w)
    ensures IsAsCreated(w, a) <==> w.db.resources[w.db.actions[a].resourceId].version == 1
  {
    ReachableDemoInv(w);
    var id := w.db.actions[a].resourceId;
    var row := w.db.resources[id];
    assert row.createdFrom == a && !row.published && |w.wrote| == |w.db.actions|;
    assert StackOk(w.db.actions, w.wrote, Undone(w), id, row);
    hide Inv, DemoInv, Reached, Undone, Live, StackOk, CanReverse;
    EmptyStackExactly(w.db.actions, w.wrote, Undone(w), id, row);
    NoneLive(w.db.actions, Undone(w), id);
    LiveMeansNotUndone(w.db, Undone(w), id);
  }

  /** A resource that is there with an update has been there since that update. */
  lemma {:induction false} ResourceWasThere(w: World, ls: seq<Label>, id: nat, u: nat)
    requires Inv(w) && CanRun(w, ls) && IsUpdateOf(w.db, id, u) && id in Run(w, ls).db.resources
    ensures id in w.db.resources && w.db.resources[id].createdFrom == Run(w, ls).db.resources[id].createdFrom
    decreases |ls|
  {
    hide Inv, Apply, Enabled;
    if ls != [] {
      StepGrows(w, ls[0]);
      StepKeeps(w, ls[0]);
      ResourceWasThere(Apply(w, ls[0]), ls[1..], id, u);
      StepKeepsResource(w, ls[0], id, u);
    }
  }

  lemma StepKeepsResource(w: World, l: Label, id: nat, u: nat)
    requires Enabled(w, l) && IsUpdateOf(w.db, id, u) && id in Apply(w, l).db.resources
    ensures id in w.db.resources && Apply(w, l).db.resources[id].createdFrom == w.db.resources[id].createdFrom
  {
    if !MakesEdge(l) {
      StepKeepsEdges(w, l);
      hide Apply, Enabled;
    }
  }

  /** An update recorded before the request read its dependents is undone by the time the
      request calls its provider. */
  lemma SeenUpdateIsUndone(w: World, ls: seq<Label>, tid: nat, u: nat)
    requires Reached(w) && CanRun(w, ls) && Kept(w, ls, tid)
    requires w.threads[tid].Request? && IsBeforeEdges(w.threads[tid].pc)
    requires tid in Run(w, ls).threads && HasPc(Run(w, ls), tid) && Run(w, ls).threads[tid].pc.Call?
    requires var v := Run(w, ls);
      var a := w.threads[tid].actionId;
      && a < |v.db.actions| && v.db.actions[a].op == CreateOp && CanReverse(v.db, a)
      && IsUpdateOf(w.db, v.db.actions[a].resourceId, u)
    ensures u in Undone(Run(w, ls))
  {
    var v := Run(w, ls);
    var t := w.threads[tid];
    ReachableDemoInv(w);
    ReachedEdgesOk(w);
    ReachedOn(w, ls);
    ReachableDemoInv(v);
    ReachedLookups(v);
    hide Reached, DemoInv, LookupsOnly, EdgesOk, AllResolved, Undone, IsUpdateOf;
    AdmittedOverResolved(w, ls, tid);
    KeptRequest(w, ls, tid);
    RunGrows(w, ls);
    ResourceWasThere(w, ls, v.db.actions[t.actionId].resourceId, u);
    assert ThreadOk(v.db, v.trail, tid, v.threads[tid]);
    SeenUpdateIsResolved(w, v, t.scope, t.actionId, u);
    hide Run, CanRun, Kept, Inv, DemoInv, Reached, Undone, LookupsOnly;
    ResolvedUpdateIsUndone(v, u);
  }

  lemma SeenUpdateIsResolved(w: World, v: World, scope: string, a: nat, u: nat)
    requires DemoInv(w) && EdgesOk(w.db) && Grows(w.db, v.db) && DemoInv(v)
    requires a < |v.db.actions| && v.db.actions[a].op == CreateOp && CanReverse(v.db, a)
    requires v.db.actions[a].scope == scope
    requires var id := v.db.actions[a].resourceId;
      && IsUpdateOf(w.db, id, u) && id in w.db.resources && w.db.resources[id].createdFrom == a
    requires AllResolved(w.db.edges, v.db, scope, a, [])
    ensures u < |v.db.actions| && v.db.actions[u].op == UpdateOp && IsResolved(v.db.actions[u].status)
  {
    assert ActionFits(w.db, u);
    var id := v.db.actions[a].resourceId;
    assert StackOk(w.db.actions, w.wrote, Undone(w), id, w.db.resources[id]);
    assert Edge(w.db.actions[u].scope, a, u) in w.db.edges;
    hide Undone;
  }

  lemma ReachedOn(w: World, ls: seq<Label>)
    requires Reached(w) && CanRun(w, ls)
    ensures Reached(Run(w, ls))
  {
    var before :| CanRun(INIT, before) && Run(INIT, before) == w;
    RunConcat(INIT, before, ls);
  }

  /** So whatever interleaves, the delete loses only updates recorded after the request read
      its dependents: the row is as created if and only if each of those is undone. */
  lemma OnlyLaterUpdatesAreLost(w: World, ls: seq<Label>, tid: nat)
    requires Reached(w) && CanRun(w, ls) && Kept(w, ls, tid)
    requires w.threads[tid].Request? && IsBeforeEdges(w.threads[tid].pc)
    requires tid in Run(w, ls).threads && HasPc(Run(w, ls), tid) && Run(w, ls).threads[tid].pc.Call?
    requires var v := Run(w, ls);
      var a := w.threads[tid].actionId;
      a < |v.db.actions| && v.db.actions[a].op == CreateOp && CanReverse(v.db, a)
    ensures var v := Run(w, ls);
      var a := w.threads[tid].actionId;
      IsAsCreated(v, a) <==>
        forall u: nat :: u >= |w.db.actions| && IsUpdateOf(v.db, v.db.actions[a].resourceId, u) ==> u in Undone(v)
  {
    var v := Run(w, ls);
    var a := w.threads[tid].actionId;
    var id := v.db.actions[a].resourceId;
    ReachedOn(w, ls);
    DeleteIsSafeExactly(v, a);
    ReachableInv(w);
    RunGrows(w, ls);
    forall u: nat | u < |w.db.actions| && IsUpdateOf(v.db, id, u) ensures u in Undone(v) {
      assert IsUpdateOf(w.db, id, u);
      SeenUpdateIsUndone(w, ls, tid, u);
    }
    hide Run, CanRun, Kept, Inv, Reached, Undone, IsAsCreated;
  }
}
