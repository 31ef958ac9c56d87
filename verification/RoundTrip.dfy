/** Undoing updates newest first walks the resource back down its stack, to the created value
    and version in the end. Undoing any other update is refused and changes nothing. */
module RoundTrip {
  import opened Domain
  import opened Timestamp
  import opened Records
  import opened Protocol
  import opened Invariant
  import opened Moves
  import opened ResourceApi
  import opened Services
  import opened UndoStack
  import opened Refinement
  import opened Prediction

  // ------------------------------------------------------- one eligible update

  /** Without an obstacle after the sweep, the Action was APPLIED before it. */
  lemma NoObstacleMeansApplied(db: Tables, q: Req)
    requires Obstacle(Sweep(db, q.now), q.scope, q.a).None? && q.a < |db.actions|
    ensures db.actions[q.a].status == Applied && db.actions[q.a].scope == q.scope
  {
    SweepIsExact(db, q.now);
    hide Sweep, Blocking;
  }

  /** What may begin a reversal now has not been undone before. */
  lemma EligibleIsLive(w: World, q: Req)
    requires Inv(w) && DemoInv(w) && Obstacle(Sweep(w.db, q.now), q.scope, q.a).None?
    requires q.a < |w.db.actions| && w.db.actions[q.a].op == UpdateOp
    ensures IsLiveUpdate(w.db.actions, Undone(w), w.db.actions[q.a].resourceId, q.a)
    ensures w.db.actions[q.a].status == Applied && w.db.actions[q.a].scope == q.scope
  {
    NoObstacleMeansApplied(w.db, q);
    assert AttemptsOk(w.db, w.trail);
    hide Obstacle, Sweep, Inv, DemoInv, AttemptsOk;
    AppliedMeansBenign(w.db, w.trail, q.a);
    if q.a in Undone(w) {
      var j :| 0 <= j < |w.trail| && j < |w.db.attempts| && w.trail[j].effect && w.db.attempts[j].actionId == q.a;
      DemoEffectIsNotBenign(w, j);
      assert false;
    }
  }

  /** The update on top of its unpublished resource's stack. */
  predicate IsTop(w: World, a: nat)
    requires a < |w.db.actions|
  {
    var id := w.db.actions[a].resourceId;
    var live := Live(w.db.actions, Undone(w), id);
    id in w.db.resources && !w.db.resources[id].published && live != [] && live[|live| - 1] == a
  }

  lemma TopMatches(w: World, a: nat)
    requires DemoInv(w) && a < |w.db.actions| && w.db.actions[a].op == UpdateOp
    requires IsLiveUpdate(w.db.actions, Undone(w), w.db.actions[a].resourceId, a)
    ensures CanReverse(w.db, a) <==> IsTop(w, a)
  {
    var id := w.db.actions[a].resourceId;
    assert ActionFits(w.db, a);
    if id in w.db.resources && !w.db.resources[id].published {
      assert StackOk(w.db.actions, w.wrote, Undone(w), id, w.db.resources[id]);
      OnlyTheTopMatches(w.db.actions, w.wrote, Undone(w), id, w.db.resources[id], a);
    }
  }

  /** The resource one update lower. */
  function Lowered(w: World, id: nat): ResourceRow
    requires id in w.db.resources
  {
    var live := Live(w.db.actions, Undone(w), id);
    var row := w.db.resources[id];
    if live == [] then row
    else row.(value := Below(w.wrote, row.createdFrom, live, |live| - 1), version := |live|)
  }

  lemma TopFits(w: World, a: nat)
    requires DemoInv(w) && a < |w.db.actions| && w.db.actions[a].op == UpdateOp && CanReverse(w.db, a)
    ensures var id := w.db.actions[a].resourceId;
      && ActionFits(w.db, a) && |w.wrote| == |w.db.actions| && id in w.db.resources
      && StackOk(w.db.actions, w.wrote, Undone(w), id, w.db.resources[id])
  {
    assert ActionFits(w.db, a);
    hide Undone, StackOk;
  }

  lemma TopVersion(w: World, a: nat)
    requires DemoInv(w) && a < |w.db.actions| && w.db.actions[a].op == UpdateOp
    requires IsLiveUpdate(w.db.actions, Undone(w), w.db.actions[a].resourceId, a) && CanReverse(w.db, a)
    ensures var id, m := w.db.actions[a].resourceId, w.db.actions[a].material;
      && id in w.db.resources && m.UpdateMaterial?
      && var live, row := Live(w.db.actions, Undone(w), id), w.db.resources[id];
        && live != [] && m.previousVersion == |live|
        && m.previousValue == Below(w.wrote, row.createdFrom, live, |live| - 1)
  {
    TopFits(w, a);
    var id := w.db.actions[a].resourceId;
    hide DemoInv, Undone, Live, Below, IsLiveUpdate;
    TopRestored(w.db.actions, w.wrote, Undone(w), id, w.db.resources[id], a);
  }

  lemma TopLowers(w: World, a: nat)
    requires DemoInv(w) && a < |w.db.actions| && w.db.actions[a].op == UpdateOp
    requires IsLiveUpdate(w.db.actions, Undone(w), w.db.actions[a].resourceId, a) && CanReverse(w.db, a)
    ensures var id := w.db.actions[a].resourceId;
      ReverseEffect(w.db, a).resources == w.db.resources[id := Lowered(w, id)]
  {
    hide DemoInv, Undone, Live, Below, IsLiveUpdate;
    TopVersion(w, a);
  }

  /** In any state the protocol can be in at rest, reversing an eligible update succeeds
      exactly when it is on top; it then lowers its resource by one. Any other is refused as a
      conflict, every resource keeps its row, and the Action is APPLIED again. */
  lemma OnlyTheTopReverses(w: World, q: Req, foreign: ProviderReturn, at: Instant)
    requires Inv(w) && DemoInv(w) && AtRest(w)
    requires q.a < |w.db.actions| && w.db.actions[q.a].op == UpdateOp
    requires q.key.Some? ==> GetKey(w.db, q.scope, q.key.value).None?
    requires Obstacle(Sweep(w.db, q.now), q.scope, q.a).None?
    ensures var (next, reply) := Serve(w.db, q.scope, q.a, q.key, q.now, foreign, at);
      var id := w.db.actions[q.a].resourceId;
      && reply.Ok? && OthersSwept(w.db, next, q.a, q.now)
      && (IsTop(w, q.a) ==>
            && reply.result.outcome == OutReversed
            && next.resources == w.db.resources[id := Lowered(w, id)]
            && next.actions[q.a] == w.db.actions[q.a].(status := Reversed))
      && (!IsTop(w, q.a) ==>
            && reply.result.outcome == OutConflict
            && next.resources == w.db.resources
            && next.actions[q.a] == w.db.actions[q.a].(status := Applied))
  {
    hide Inv, DemoInv;
    EligibleIsLive(w, q);
    TopMatches(w, q.a);
    if CanReverse(w.db, q.a) { TopLowers(w, q.a); }
    var op := w.db.actions[q.a].op;
    assert IsDemo(op) && SuccessOutcome(op) == OutReversed && SuccessStatus(op) == Reversed;
    hide AtRest, Serve, Obstacle, Sweep, CanReverse, ReverseEffect;
    hide IsTop, Lowered, OthersSwept, IsLiveUpdate, GetKey;
    ServeDemo(w, q, foreign, at);
  }

  // ------------------------------------------------------------- the next world

  /** After one undo at the top: a reachable world at rest with a stack lower by one. */
  lemma UndoTop(w: World, q: Req, foreign: ProviderReturn, at: Instant) returns (v: World)
    requires Reached(w) && Inv(w) && DemoInv(w) && AtRest(w)
    requires q.a < |w.db.actions| && w.db.actions[q.a].op == UpdateOp && q.key.None?
    requires Obstacle(Sweep(w.db, q.now), q.scope, q.a).None? && IsTop(w, q.a)
    ensures Reached(v) && Inv(v) && DemoInv(v) && AtRest(v) && v.wrote == w.wrote
    ensures v.db == Serve(w.db, q.scope, q.a, q.key, q.now, foreign, at).0
    ensures Undone(v) == Undone(w) + {q.a}
  {
    EligibleIsLive(w, q);
    TopMatches(w, q.a);
    OnlyTheTopReverses(w, q, foreign, at);
    SweepSameBusiness(w.db, q.now);
    var swept := Sweep(w.db, q.now);
    var ls;
    ls, v := ServeRuns(w, q, foreign, at);
    ReachedFurther(w, ls, v);
    BeginSameBusiness(swept, q.scope, q.a, q.key, q.now);
    SameBusinessSameStatement(w.db, swept, q.a);
    SameBusinessSameStatement(swept, Begin(swept, q.scope, q.a, q.key, q.now).db, q.a);
    assert |v.trail| == |w.trail| + 1 && v.trail[..|w.trail|] == w.trail && v.trail[|w.trail|].effect;
    assert |w.trail| == |w.db.attempts|;
    hide Inv, DemoInv, Reached, Serve, Obstacle, Sweep, CanReverse, IsTop, Runs, Begin;
    UndoneGrows(w, v, q.a, q.now);
  }

  lemma ReachedFurther(w: World, ls: seq<Label>, v: World)
    requires Reached(w) && Runs(w, ls, v)
    ensures Reached(v) && Inv(v) && DemoInv(v)
  {
    var before :| CanRun(INIT, before) && Run(INIT, before) == w;
    RunConcat(INIT, before, ls);
    ReachableDemoInv(v);
  }

  lemma UndoneGrows(w: World, v: World, a: nat, now: Instant)
    requires OthersSwept(w.db, v.db, a, now) && |w.trail| == |w.db.attempts|
    requires |v.trail| == |w.trail| + 1 && v.trail[..|w.trail|] == w.trail && v.trail[|w.trail|].effect
    ensures Undone(v) == Undone(w) + {a}
  {
  }

  lemma LiveAfterUndo(w: World, v: World, a: nat, now: Instant)
    requires a < |w.db.actions| && IsTop(w, a) && OthersSwept(w.db, v.db, a, now)
    requires v.db.actions[a] == w.db.actions[a].(status := Reversed)
    requires Undone(v) == Undone(w) + {a}
    ensures var id := w.db.actions[a].resourceId;
      var live := Live(w.db.actions, Undone(w), id);
      Live(v.db.actions, Undone(v), id) == live[..|live| - 1]
  {
    hide Undone;
    var id := w.db.actions[a].resourceId;
    LivePop(w.db.actions, Undone(w), id, a);
    LiveSame(w.db.actions, v.db.actions, Undone(v), Undone(v), id);
  }

  // ---------------------------------------------------------------- many undos

  /** Reverse these Actions one after the other, without keys: the tables and the replies.
      A turn is its request's time and the time its provider call ended. */
  function UndoAll(db: Tables, scope: string, ids: seq<nat>, turns: seq<(Instant, Instant)>, foreign: ProviderReturn):
      (Tables, seq<Reply>)
    requires |turns| == |ids|
    decreases |ids|
  {
    if ids == [] then (db, [])
    else
      var (next, reply) := Serve(db, scope, ids[0], None, turns[0].0, foreign, turns[0].1);
      var (last, replies) := UndoAll(next, scope, ids[1..], turns[1..], foreign);
      (last, [reply] + replies)
  }

  predicate Eligible(db: Tables, scope: string, a: nat, now: Instant) {
    && GetAction(db, scope, a).Some? && Admission(db.actions[a]).None?
    && !IsDue(db.actions[a], now)
  }

  /** Every recorded dependent is resolved, or among these. */
  predicate Unblocked(db: Tables, scope: string, a: nat, newer: seq<nat>) {
    forall e :: e in db.edges && e.scope == scope && e.parent == a ==>
      e.dependent in newer || ResolvedRow(db, scope, e.dependent)
  }

  /** At its turn each Action is APPLIED and inside its window, and only Actions whose turn
      was before may depend on it unresolved. */
  ghost predicate Orderly(db: Tables, scope: string, ids: seq<nat>, turns: seq<(Instant, Instant)>) {
    && |turns| == |ids|
    && (forall i, j :: 0 <= j <= i < |ids| ==> Eligible(db, scope, ids[i], turns[j].0))
    && (forall i :: 0 <= i < |ids| ==> Unblocked(db, scope, ids[i], ids[..i]))
  }

  lemma FirstHasNoObstacle(db: Tables, scope: string, ids: seq<nat>, turns: seq<(Instant, Instant)>)
    requires Orderly(db, scope, ids, turns) && ids != []
    requires ids[0] < |db.actions| && db.actions[ids[0]].op == UpdateOp
    ensures Obstacle(Sweep(db, turns[0].0), scope, ids[0]).None?
  {
    assert Eligible(db, scope, ids[0], turns[0].0);
    assert Unblocked(db, scope, ids[0], ids[..0]);
    hide Sweep, Orderly, Obstacle, Blocking, Eligible, Unblocked;
    EligibleAfterSweep(db, scope, ids[0], turns[0].0);
    UnblockedAfterSweep(db, scope, ids[0], ids[..0], turns[0].0);
    EligibleUnblocked(Sweep(db, turns[0].0), scope, ids[0]);
  }

  lemma EligibleAfterSweep(db: Tables, scope: string, a: nat, now: Instant)
    requires Eligible(db, scope, a, now) && a < |db.actions|
    ensures GetAction(Sweep(db, now), scope, a) == Some(db.actions[a])
    ensures Admission(db.actions[a]).None?
  {
    SweepIsExact(db, now);
    hide Sweep;
  }

  lemma UnblockedAfterSweep(db: Tables, scope: string, a: nat, newer: seq<nat>, now: Instant)
    requires Unblocked(db, scope, a, newer) && newer == []
    ensures Blocking(Sweep(db, now), scope, a) == Some([])
  {
    SweepIsExact(db, now);
    NothingBlocks(Sweep(db, now), scope, a);
    hide Sweep, Blocking;
    forall e | e in Sweep(db, now).edges && e.scope == scope && e.parent == a
      ensures ResolvedRow(Sweep(db, now), scope, e.dependent)
    {
      assert ResolvedRow(db, scope, e.dependent);
    }
  }

  lemma EligibleUnblocked(db: Tables, scope: string, a: nat)
    requires GetAction(db, scope, a).Some? && Admission(GetAction(db, scope, a).value).None?
    requires Blocking(db, scope, a) == Some([]) && GetAction(db, scope, a).value.op == UpdateOp
    ensures Obstacle(db, scope, a).None?
  {
  }

  lemma RestIsOrderly(db: Tables, next: Tables, scope: string, ids: seq<nat>, turns: seq<(Instant, Instant)>)
    requires Orderly(db, scope, ids, turns) && ids != [] && ids[0] < |db.actions|
    requires OthersSwept(db, next, ids[0], turns[0].0)
    requires next.actions[ids[0]] == db.actions[ids[0]].(status := Reversed)
    requires forall i :: 0 < i < |ids| ==> ids[i] != ids[0]
    ensures Orderly(next, scope, ids[1..], turns[1..])
  {
  }

  /** ids lists live updates of one resource, newest first. */
  predicate NewestFirst(ids: seq<nat>, live: seq<nat>) {
    |ids| <= |live| && forall i :: 0 <= i < |ids| ==> ids[i] == live[|live| - 1 - i]
  }

  predicate AllReversed(replies: seq<Reply>) {
    forall i :: 0 <= i < |replies| ==> replies[i].Ok? && replies[i].result.outcome == OutReversed
  }

  /** One turn of UndoAll. */
  lemma UndoFirst(w: World, scope: string, id: nat, ids: seq<nat>, turns: seq<(Instant, Instant)>,
      foreign: ProviderReturn) returns (v: World)
    requires Reached(w) && Inv(w) && DemoInv(w) && AtRest(w)
    requires id in w.db.resources && !w.db.resources[id].published && ids != []
    requires |turns| == |ids|
    requires NewestFirst(ids, Live(w.db.actions, Undone(w), id)) && Orderly(w.db, scope, ids, turns)
    ensures var (next, reply) := Serve(w.db, scope, ids[0], None, turns[0].0, foreign, turns[0].1);
      && v.db == next && reply.Ok? && reply.result.outcome == OutReversed
    ensures Reached(v) && AtRest(v) && v.wrote == w.wrote
    ensures v.db.resources == w.db.resources[id := Lowered(w, id)]
    ensures var live := Live(w.db.actions, Undone(w), id); Live(v.db.actions, Undone(v), id) == live[..|live| - 1]
    ensures Orderly(v.db, scope, ids[1..], turns[1..])
  {
    hide *;
    var q := Req(scope, ids[0], None, turns[0].0);
    FirstIsTop(w, id, ids);
    FirstHasNoObstacle(w.db, scope, ids, turns);
    OnlyTheTopReverses(w, q, foreign, turns[0].1);
    v := UndoTop(w, q, foreign, turns[0].1);
    RestIsOrderly(w.db, v.db, scope, ids, turns);
    LiveAfterUndo(w, v, ids[0], turns[0].0);
  }

  lemma FirstIsTop(w: World, id: nat, ids: seq<nat>)
    requires id in w.db.resources && !w.db.resources[id].published && ids != []
    requires NewestFirst(ids, Live(w.db.actions, Undone(w), id))
    ensures ids[0] < |w.db.actions| && w.db.actions[ids[0]].op == UpdateOp && w.db.actions[ids[0]].resourceId == id
    ensures IsTop(w, ids[0]) && Live(w.db.actions, Undone(w), id) != []
    ensures forall i :: 0 < i < |ids| ==> ids[i] != ids[0]
  {
    LiveMembers(w.db.actions, Undone(w), id);
    assert ids[0] in Live(w.db.actions, Undone(w), id);
    hide Live, Undone;
  }

  /** The resource after n undos from the top. */
  function Down(w: World, id: nat, n: nat): ResourceRow
    requires id in w.db.resources && n <= |Live(w.db.actions, Undone(w), id)|
  {
    var live := Live(w.db.actions, Undone(w), id);
    var row := w.db.resources[id];
    row.(value := Below(w.wrote, row.createdFrom, live, |live| - n), version := |live| - n + 1)
  }

  lemma DownFromTop(w: World, id: nat)
    requires DemoInv(w) && id in w.db.resources && !w.db.resources[id].published
    ensures Down(w, id, 0) == w.db.resources[id]
  {
  }

  lemma DownOneLess(w: World, v: World, id: nat, n: nat)
    requires id in w.db.resources && 0 < n <= |Live(w.db.actions, Undone(w), id)| && v.wrote == w.wrote
    requires v.db.resources == w.db.resources[id := Lowered(w, id)]
    requires var live := Live(w.db.actions, Undone(w), id); Live(v.db.actions, Undone(v), id) == live[..|live| - 1]
    ensures v.db.resources[id := Down(v, id, n - 1)] == w.db.resources[id := Down(w, id, n)]
    ensures v.db.resources[id].published == w.db.resources[id].published
  {
  }

  lemma UndoAllStep(db: Tables, scope: string, ids: seq<nat>, turns: seq<(Instant, Instant)>, foreign: ProviderReturn)
    requires |turns| == |ids|
    requires ids != [] ==>
      var (next, reply) := Serve(db, scope, ids[0], None, turns[0].0, foreign, turns[0].1);
      && reply.Ok? && reply.result.outcome == OutReversed
      && AllReversed(UndoAll(next, scope, ids[1..], turns[1..], foreign).1)
      && |UndoAll(next, scope, ids[1..], turns[1..], foreign).1| == |ids| - 1
    ensures var (last, replies) := UndoAll(db, scope, ids, turns, foreign);
      && |replies| == |ids| && AllReversed(replies)
      && last == if ids == [] then db else
          UndoAll(Serve(db, scope, ids[0], None, turns[0].0, foreign, turns[0].1).0,
            scope, ids[1..], turns[1..], foreign).0
  {
  }

  lemma NewestFirstRest(ids: seq<nat>, live: seq<nat>)
    requires NewestFirst(ids, live) && ids != []
    ensures NewestFirst(ids[1..], live[..|live| - 1])
  {
  }

  lemma {:induction false} UndoDescends(w: World, scope: string, id: nat, ids: seq<nat>,
      turns: seq<(Instant, Instant)>, foreign: ProviderReturn)
    requires Reached(w) && AtRest(w) && id in w.db.resources && !w.db.resources[id].published
    requires |turns| == |ids| && |ids| <= |Live(w.db.actions, Undone(w), id)|
    requires NewestFirst(ids, Live(w.db.actions, Undone(w), id)) && Orderly(w.db, scope, ids, turns)
    ensures var (next, replies) := UndoAll(w.db, scope, ids, turns, foreign);
      && |replies| == |ids| && AllReversed(replies)
      && next.resources == w.db.resources[id := Down(w, id, |ids|)]
    decreases |ids|
  {
    hide *;
    ReachableDemoInv(w);
    if ids == [] {
      DownFromTop(w, id);
    } else {
      var v := UndoFirst(w, scope, id, ids, turns, foreign);
      NewestFirstRest(ids, Live(w.db.actions, Undone(w), id));
      DownOneLess(w, v, id, |ids|);
      UndoDescends(v, scope, id, ids[1..], turns[1..], foreign);
    }
    UndoAllStep(w.db, scope, ids, turns, foreign);
  }

  /** The resource holds what was below its n newest live updates: what the update under
      them wrote, or the created value at version 1; other resources are as before. */
  predicate RestoredBelow(w: World, id: nat, n: nat, next: Tables) {
    var live := Live(w.db.actions, Undone(w), id);
    && id in w.db.resources && n <= |live|
    && next.resources.Keys == w.db.resources.Keys
    && (forall i :: i in w.db.resources && i != id ==> next.resources[i] == w.db.resources[i])
    && var c := w.db.resources[id].createdFrom;
      var newest := if n < |live| then live[|live| - n - 1] else c;
      && newest < |w.wrote|
      && next.resources[id] == w.db.resources[id].(value := w.wrote[newest], version := |live| - n + 1)
  }

  lemma DownIsRestored(w: World, id: nat, n: nat, next: Tables)
    requires DemoInv(w) && id in w.db.resources && n <= |Live(w.db.actions, Undone(w), id)|
    requires next.resources == w.db.resources[id := Down(w, id, n)]
    ensures RestoredBelow(w, id, n, next)
  {
    assert StackOk(w.db.actions, w.wrote, Undone(w), id, w.db.resources[id]);
    LiveIsSorted(w.db.actions, Undone(w), id);
    assert |w.wrote| == |w.db.actions|;
    hide DemoInv, Live, Undone, StackOk;
  }

  lemma NewestFirstFits(ids: seq<nat>, live: seq<nat>)
    requires NewestFirst(ids, live)
    ensures |ids| <= |live|
  {
  }

  /** Undoing the n newest updates, newest first, each in its window and with nothing but
      already undone updates depending on it, restores exactly what was there below them:
      for n = all of them, the created value at version 1. */
  lemma LifoRoundTrip(w: World, scope: string, id: nat, ids: seq<nat>, turns: seq<(Instant, Instant)>,
      foreign: ProviderReturn)
    requires Reached(w) && AtRest(w) && id in w.db.resources && !w.db.resources[id].published
    requires |turns| == |ids| && NewestFirst(ids, Live(w.db.actions, Undone(w), id)) && Orderly(w.db, scope, ids, turns)
    ensures var (next, replies) := UndoAll(w.db, scope, ids, turns, foreign);
      |replies| == |ids| && AllReversed(replies) && RestoredBelow(w, id, |ids|, next)
  {
    hide *;
    NewestFirstFits(ids, Live(w.db.actions, Undone(w), id));
    ReachableDemoInv(w);
    UndoDescends(w, scope, id, ids, turns, foreign);
    DownIsRestored(w, id, |ids|, UndoAll(w.db, scope, ids, turns, foreign).0);
  }
}
