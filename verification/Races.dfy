/** What the checks outside the transaction do not cover, as reachable states: a lost update,
    an unresolved dependent and a cycle. */
module Races {
  import opened Domain
  import opened Timestamp
  import opened Records
  import opened Dependency
  import opened ResourceApi
  import opened Protocol
  import opened Invariant
  import opened Moves
  import opened Steps
  import opened UndoStack
  import opened Services
  import opened Serial
  import opened Refinement
  import opened ServiceRuns
  import opened DependencyService
  import opened Bounds

  /** The delete of a create-reversal checks no version: an update that gets in before it is
      deleted with the row, unresolved. */
  lemma UpdateBeforeDeleteIsLost(w: World, tid: nat, k: nat, value: string, now: Instant, ret: ProviderReturn)
    requires Reached(w) && HasPc(w, tid) && w.threads[tid].pc == Call(k)
    requires w.threads[tid].actionId < |w.db.actions| && w.db.actions[w.threads[tid].actionId].op == CreateOp
    requires CanReverse(w.db, w.threads[tid].actionId) && ret == Output(OutReversed, "")
    ensures var a := w.threads[tid].actionId;
      var id := w.db.actions[a].resourceId;
      var update := LUpdate(w.threads[tid].scope, id, value, now, None);
      && Enabled(w, update)
      && var u := Apply(w, update);
      && id in u.db.resources && u.db.resources[id].value == value && u.db.actions[|w.db.actions|].status == Applied
      && Enabled(u, LCall(tid, ret, true)) && id !in Apply(u, LCall(tid, ret, true)).db.resources
  {
    hide Apply, Enabled;
    ReachableDemoInv(w);
    var a := w.threads[tid].actionId;
    assert ThreadOk(w.db, w.trail, tid, w.threads[tid]);
    assert ActionFits(w.db, a);
    hide Inv, DemoInv, Reached;
    UpdateThenDelete(w, tid, k, a, value, now, ret);
  }

  lemma UpdateThenDelete(w: World, tid: nat, k: nat, a: nat, value: string, now: Instant, ret: ProviderReturn)
    requires HasPc(w, tid) && w.threads[tid].pc == Call(k) && k < |w.trail| && w.threads[tid].actionId == a
    requires a < |w.db.actions| && w.db.actions[a].op == CreateOp && CanReverse(w.db, a)
    requires w.db.resources[w.db.actions[a].resourceId].scope == w.threads[tid].scope
    requires ret == Output(OutReversed, "")
    ensures var id := w.db.actions[a].resourceId;
      var update := LUpdate(w.threads[tid].scope, id, value, now, None);
      && Enabled(w, update)
      && var u := Apply(w, update);
      && id in u.db.resources && u.db.resources[id].value == value && u.db.actions[|w.db.actions|].status == Applied
      && Enabled(u, LCall(tid, ret, true)) && id !in Apply(u, LCall(tid, ret, true)).db.resources
  {
  }

  /** A create-reversal that is about to delete its row. */
  lemma DeleteAboutToHappen(scope: string, id: nat, value: string, now: Instant) returns (w: World)
    ensures Reached(w) && HasPc(w, 0) && w.threads[0].pc.Call? && w.threads[0].actionId == 0
    ensures w.threads[0].scope == scope && 0 < |w.db.actions| && w.db.actions[0].op == CreateOp
    ensures w.db.actions[0].resourceId == id && CanReverse(w.db, 0)
  {
    hide Apply, Reached, Inv, SeriallyReached, Runs;
    var c := CreateCall(scope, id, value, now, None);
    var u := ServicesAreRuns([c], now);
    var db := Create(EMPTY_TABLES, scope, id, value, now, None);
    OneCallDone(c, db);
    var q := Req(scope, 0, None, now);
    NoneDueNotSwept(db, now);
    ReachableInv(u);
    CreatedCanBegin(db, scope, id, value, now);
    hide Refinement.At, Obstacle, Begin, CanReverse;
    var before := AtTransaction(u, q);
    BeginStep(u, db, q);
    ReachOneMore(before, LStep(0));
    w := Apply(before, LStep(0));
    CallPoint(Refinement.Begun(u), Begin(db, scope, 0, None, now).db, q, |db.attempts|);
  }

  lemma CallPoint(w: World, db: Tables, q: Req, k: nat)
    requires w.phase == Serving
    ensures var u := Refinement.At(w, db, q, Call(k));
      && HasPc(u, 0) && u.threads[0] == Request(q.scope, q.a, q.key, q.now, Call(k)) && u.db == db
  {
  }

  lemma OneCallDone(c: ServiceCall, db: Tables)
    requires Do(EMPTY_TABLES, c) == db
    ensures DoAll(EMPTY_TABLES, [c]) == db
  {
    assert [c][1..] == [];
    assert DoAll(Do(EMPTY_TABLES, c), []) == Do(EMPTY_TABLES, c);
  }

  lemma NoneDueNotSwept(db: Tables, now: Instant)
    requires forall a :: 0 <= a < |db.actions| ==> !IsDue(db.actions[a], now)
    ensures Sweep(db, now) == db
  {
    NoneDueNothingSelected(db.actions, now);
  }

  lemma CreatedCanBegin(db: Tables, scope: string, id: nat, value: string, now: Instant)
    requires db == Create(EMPTY_TABLES, scope, id, value, now, None)
    ensures Obstacle(db, scope, 0).None?
    ensures var begun := Begin(db, scope, 0, None, now);
      && begun.Written? && |begun.db.actions| == 1 && begun.db.actions[0].op == CreateOp
      && begun.db.actions[0].resourceId == id && CanReverse(begun.db, 0)
  {
    NothingBlocks(db, scope, 0);
  }

  /** From rest to the point just before the transaction, when nothing is due and nothing in
      the way. */
  lemma AtTransaction(u: World, q: Req) returns (w: World)
    requires Reached(u) && AtRest(u) && Sweep(u.db, q.now) == u.db && q.key.None?
    requires Obstacle(u.db, q.scope, q.a).None?
    ensures Reached(w) && w == Refinement.At(u, u.db, q, BeginTx)
  {
    hide Runs, Reached, Refinement.At, Sweep, Obstacle;
    var ls := StartRuns(u, q);
    ReachMore(u, ls, Refinement.At(u, u.db, q, KeyLookup));
    ls := CheckRuns(u, u.db, q);
    w := Refinement.At(u, u.db, q, BeginTx);
    ReachMore(Refinement.At(u, u.db, q, KeyLookup), ls, w);
  }

  /** An Action that is APPLIED has not been undone. */
  lemma AppliedIsNotUndone(w: World, a: nat)
    requires Inv(w) && DemoInv(w) && a < |w.db.actions| && IsDemo(w.db.actions[a].op)
    requires w.db.actions[a].status == Applied
    ensures a !in Undone(w)
  {
    AppliedMeansBenign(w.db, w.trail, a);
    if a in Undone(w) {
      var j :| 0 <= j < |w.trail| && j < |w.db.attempts| && w.trail[j].effect && w.db.attempts[j].actionId == a;
      DemoEffectIsNotBenign(w, j);
      assert false;
    }
  }

  /** Such a state is reached for every resource: its last update, APPLIED and not undone, is
      gone with the row that the reversal of its creation deleted. */
  lemma UpdateIsLost(scope: string, id: nat, value: string, newer: string, now: Instant) returns (v: World, u: nat)
    ensures Reached(v) && u < |v.db.actions| && v.db.actions[u].op == UpdateOp && v.db.actions[u].resourceId == id
    ensures v.db.actions[u].status == Applied && u !in Undone(v) && id !in v.db.resources
  {
    hide Apply, Enabled, Reached, Inv, DemoInv;
    var w := DeleteAboutToHappen(scope, id, value, now);
    var ret := Output(OutReversed, "");
    var update, call := LUpdate(scope, id, newer, now, None), LCall(0, ret, true);
    UpdateBeforeDeleteIsLost(w, 0, w.threads[0].pc.calling, newer, now, ret);
    u := |w.db.actions|;
    var x := Apply(w, update);
    UpdateAppends(w, update);
    CallIsQuiet(x, 0, ret, true);
    v := Apply(x, call);
    hide Undone;
    ReachOneMore(w, update);
    ReachOneMore(x, call);
    ReachableDemoInv(v);
    AppliedIsNotUndone(v, u);
  }

  lemma UpdateAppends(w: World, l: Label)
    requires l.LUpdate? && Enabled(w, l)
    ensures var x := Apply(w, l);
      && |x.db.actions| == |w.db.actions| + 1 && x.db.actions[|w.db.actions|].op == UpdateOp
      && x.db.actions[|w.db.actions|].resourceId == l.id
  {
  }

  /** A dependency recorded between the blocking check and the transaction does not block. */
  lemma LateDependentIsIgnored(w: World, tid: nat, d: nat)
    requires HasPc(w, tid) && w.threads[tid].pc == BeginTx
    requires var t := w.threads[tid];
      && Begin(w.db, t.scope, t.actionId, t.key, t.now).Written?
      && d != t.actionId && GetAction(w.db, t.scope, d).Some? && !IsResolved(w.db.actions[d].status)
      && (forall e :: e in w.db.edges ==> e.dependent != d)
    ensures var t := w.threads[tid];
      var e := Edge(t.scope, t.actionId, d);
      && Enabled(w, LAddEdge(e))
      && var u := Apply(w, LAddEdge(e));
      && e in u.db.edges && Blocking(u.db, t.scope, t.actionId) != Some([])
      && Begin(u.db, t.scope, t.actionId, t.key, t.now).Written?
  {
    var t := w.threads[tid];
    var e := Edge(t.scope, t.actionId, d);
    BeginShape(w.db, t.scope, t.actionId, t.key, t.now);
    var u := Apply(w, LAddEdge(e));
    assert AddEdge(w.db.edges, e) == w.db.edges + [e] by {
      assert forall i :: 0 <= i < |w.db.edges| ==> w.db.edges[i] in w.db.edges;
    }
    assert e in u.db.edges;
    NothingBlocks(u.db, t.scope, t.actionId);
  }

  function TwoActions(scope: string): Tables {
    CreateAction(CreateAction(EMPTY_TABLES, Foreign(scope)), Foreign(scope))
  }

  lemma TwoCallsDone(scope: string)
    ensures DoAll(EMPTY_TABLES, [ExternalCall(Foreign(scope)), ExternalCall(Foreign(scope))]) == TwoActions(scope)
  {
    var c := ExternalCall(Foreign(scope));
    assert [c, c][1..] == [c] && [c][1..] == [];
    var one := Do(EMPTY_TABLES, c);
    assert DoAll(one, [c]) == DoAll(Do(one, c), []);
  }

  lemma TwoUnblocked(scope: string)
    ensures Blocking(TwoActions(scope), scope, 0) == Some([])
  {
    NothingBlocks(TwoActions(scope), scope, 0);
    hide Blocking;
  }

  lemma TwoAccepted(scope: string, now: Instant)
    ensures Begin(TwoActions(scope), scope, 0, None, now).Written?
  {
  }

  lemma TwoCanBegin(scope: string, now: Instant)
    ensures var db := TwoActions(scope);
      Sweep(db, now) == db && Obstacle(db, scope, 0).None? && Begin(db, scope, 0, None, now).Written?
  {
    var db := TwoActions(scope);
    NoneDueNotSwept(db, now);
    hide Sweep;
    TwoUnblocked(scope);
    hide Blocking;
    TwoAccepted(scope, now);
    hide Begin, HasOpen;
  }

  /** The transaction of a thread whose beginning cannot fail. */
  lemma BeginsNow(y: World) returns (w: World)
    requires Reached(y) && HasPc(y, 0) && y.threads[0].pc == BeginTx
    requires var t := y.threads[0]; Begin(y.db, t.scope, t.actionId, t.key, t.now).Written?
    ensures Reached(w) && HasPc(w, 0) && w.threads[0].pc.Call? && SameRequest(y.threads[0], w.threads[0])
    ensures w.db.edges == y.db.edges && |w.db.actions| == |y.db.actions|
    ensures forall d :: 0 <= d < |w.db.actions| && d != y.threads[0].actionId ==> w.db.actions[d] == y.db.actions[d]
  {
    hide Reached, Begin, RequestStep;
    var t := y.threads[0];
    BeginMoves(y, 0);
    BeginShape(y.db, t.scope, t.actionId, t.key, t.now);
    ReachOneMore(y, LStep(0));
    w := Apply(y, LStep(0));
  }

  lemma AfterAdd(x: World, e: Edge)
    requires Enabled(x, LAddEdge(e))
    ensures Apply(x, LAddEdge(e)) == x.(db := x.db.(edges := AddEdge(x.db.edges, e)))
  {
  }

  /** From the point before the transaction, by way of a late dependency, to the call. */
  lemma BeginsAnyway(x: World, e: Edge) returns (w: World)
    requires Reached(x) && HasPc(x, 0) && x.threads[0].pc == BeginTx && e.scope == x.threads[0].scope
    requires var t := x.threads[0];
      && Enabled(x, LAddEdge(e)) && e in Apply(x, LAddEdge(e)).db.edges
      && Begin(Apply(x, LAddEdge(e)).db, t.scope, t.actionId, t.key, t.now).Written?
    ensures Reached(w) && HasPc(w, 0) && w.threads[0].pc.Call? && SameRequest(x.threads[0], w.threads[0])
    ensures e in w.db.edges && |w.db.actions| == |x.db.actions|
    ensures forall d :: 0 <= d < |w.db.actions| && d != x.threads[0].actionId ==> w.db.actions[d] == x.db.actions[d]
  {
    hide Reached, Begin, Apply, Enabled;
    AfterAdd(x, e);
    ReachOneMore(x, LAddEdge(e));
    w := BeginsNow(Apply(x, LAddEdge(e)));
  }

  /** Such a state is reached: an accepted reversal with an unresolved dependent on record. */
  lemma ReversalOverLateDependent(scope: string, now: Instant) returns (w: World)
    ensures Reached(w) && HasPc(w, 0) && w.threads[0].pc.Call? && w.threads[0].actionId == 0
    ensures w.threads[0].scope == scope && Edge(scope, 0, 1) in w.db.edges
    ensures 1 < |w.db.actions| && !IsResolved(w.db.actions[1].status)
  {
    hide Reached, Begin, Blocking, Apply, Enabled, Obstacle, Sweep;
    var u := TwoReached(scope, now);
    TwoCanBegin(scope, now);
    var x := AtTransaction(u, Req(scope, 0, None, now));
    assert HasPc(x, 0) && x.threads[0] == Request(scope, 0, None, now, BeginTx) && x.db == u.db;
    LateDependentIsIgnored(x, 0, 1);
    w := BeginsAnyway(x, Edge(scope, 0, 1));
  }

  // ------------------------------------------------------------- overlapping checks

  lemma BothChecksPass(scope: string)
    ensures var db := TwoActions(scope); EdgeProblem(db, scope, 0, 1).None? && EdgeProblem(db, scope, 1, 0).None?
  {
    NothingReached(scope, 0, 1);
    NothingReached(scope, 1, 0);
    hide Reachable;
  }

  lemma CycleOfTwo(scope: string)
    ensures !Acyclic([Edge(scope, 0, 1), Edge(scope, 1, 0)])
  {
    var edges := [Edge(scope, 0, 1), Edge(scope, 1, 0)];
    assert IsPath(edges, scope, [0, 1, 0]);
    assert PathBetween(edges, scope, [0, 1, 0], 0, 0);
    assert DependsOn(edges, scope, 0, 0);
  }

  lemma TwoReached(scope: string, now: Instant) returns (u: World)
    ensures Reached(u) && u.phase == Serving && u.db == TwoActions(scope) && AtRest(u)
  {
    var c := ExternalCall(Foreign(scope));
    hide *;
    u := ServicesAreRuns([c, c], now);
    TwoCallsDone(scope);
    RestIsServing(u);
  }

  lemma RestIsServing(u: World)
    requires AtRest(u)
    ensures u.phase == Serving
  {
  }

  /** Two insertions checked against the same edges both pass, and together close a cycle:
      the check reads, searches and inserts without a transaction. */
  lemma OverlappingAddsCloseACycle(scope: string, now: Instant) returns (w: World)
    ensures var db := TwoActions(scope);
      && EdgeProblem(db, scope, 0, 1).None? && EdgeProblem(db, scope, 1, 0).None?
      && Reached(w) && w.db.edges == [Edge(scope, 0, 1), Edge(scope, 1, 0)] && !Acyclic(w.db.edges)
  {
    var u := TwoReached(scope, now);
    var e, f := Edge(scope, 0, 1), Edge(scope, 1, 0);
    BothChecksPass(scope);
    CycleOfTwo(scope);
    hide Reached, Reachable, Acyclic, EdgeProblem;
    ReachOneMore(u, LAddEdge(e));
    var x := Apply(u, LAddEdge(e));
    assert x.db.edges == [e];
    ReachOneMore(x, LAddEdge(f));
    w := Apply(x, LAddEdge(f));
    assert w.db.edges == [e, f];
  }

  lemma NothingReached(scope: string, from: nat, target: nat)
    ensures !Reachable([], scope, from, target)
  {
    hide Search;
    LeafReachesNothing([], scope, from, target, MAX_EXPANSIONS);
  }

  // ----------------------------------------------------------------- reaching on

  lemma ReachOneMore(w: World, l: Label)
    requires Reached(w) && Enabled(w, l)
    ensures Reached(Apply(w, l))
  {
    hide Apply, Enabled;
    var ls :| CanRun(INIT, ls) && Run(INIT, ls) == w;
    assert CanRun(Apply(w, l), []) && Run(Apply(w, l), []) == Apply(w, l);
    assert [l][1..] == [];
    assert CanRun(w, [l]) && Run(w, [l]) == Apply(w, l);
    RunConcat(INIT, ls, [l]);
  }

  lemma ReachMore(w: World, ls: seq<Label>, v: World)
    requires Reached(w) && Runs(w, ls, v)
    ensures Reached(v)
  {
    var before :| CanRun(INIT, before) && Run(INIT, before) == w;
    RunConcat(INIT, before, ls);
  }
}
