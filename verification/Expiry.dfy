/** When a reversal can begin after its Action's window has closed: the exact statuses at the
    request's sweep and the exact operations. */
module Expiry {
  import opened Domain
  import opened Timestamp
  import opened Records
  import opened Dependency
  import opened ResourceApi
  import opened Protocol
  import opened Invariant
  import opened Moves
  import opened Steps
  import opened Services
  import opened Serial
  import opened Refinement
  import opened ServiceRuns
  import opened Checks
  import opened Deletion
  import opened Withdrawals
  import opened Races

  /** A request that arrives late for an Action like this one, and whose sweep queries while the
      Action has this status, is accepted all the same. */
  ghost predicate AcceptsLate(w: World, ls: seq<Label>, tid: nat, row: ActionRow, status: Status, late: Instant) {
    && Reached(w) && HasPc(w, tid) && w.threads[tid].pc == SweepSelect && w.threads[tid].now == late
    && w.threads[tid].actionId < |w.db.actions| && w.db.actions[w.threads[tid].actionId] == row.(status := status)
    && CanRun(w, [LStep(tid)] + ls) && Kept(w, [LStep(tid)] + ls, tid)
    && HasPc(Run(w, [LStep(tid)] + ls), tid) && Run(w, [LStep(tid)] + ls).threads[tid].pc.Call?
  }

  ghost predicate CanBeLate(row: ActionRow, status: Status, late: Instant) {
    exists w, ls, tid :: AcceptsLate(w, ls, tid, row, status, late)
  }

  /** An Action of this operation with this window can be accepted late. */
  ghost predicate OpCanBeLate(op: Op, end: Instant, status: Status, late: Instant) {
    exists row: ActionRow :: row.op == op && row.expiresAt == Some(end) && CanBeLate(row, status, late)
  }

  // ------------------------------------------------------ what a late acceptance needs

  /** What holds of a request's Action once its checks are passed. */
  predicate PassedChecks(db: Tables, t: Thread)
    requires t.Request?
  {
    IsAdmitted(t.pc) ==> t.actionId < |db.actions| && db.actions[t.actionId].op.HasReverse()
  }

  /** Whatever attempt the request has begun is none of the first n. */
  predicate BeganSince(t: Thread, n: nat)
    requires t.Request?
  {
    match t.pc
    case Call(k) => k >= n
    case Record(k, _) => k >= n
    case Transition(k, _, _) => k >= n
    case _ => true
  }

  lemma NextBeganSince(w: World, l: Label, tid: nat, u: Thread, n: nat)
    requires tid in w.threads && w.threads[tid].Request? && Goes(w, l, tid, u) && u.Request?
    requires BeganSince(w.threads[tid], n) && n <= |w.db.attempts|
    ensures BeganSince(u, n)
  {
    hide Begin, DueActions, EdgesOfParent, Dependents, Admission;
  }

  /** The last check before the transaction. */
  lemma EntersWithReverse(w: World, tid: nat)
    requires HasPc(w, tid) && w.threads[tid].pc.ReadDependents? && tid in RequestStep(w, tid).threads
    requires RequestStep(w, tid).threads[tid].pc.BeginTx?
    ensures w.threads[tid].actionId < |w.db.actions| && w.db.actions[w.threads[tid].actionId].op.HasReverse()
  {
  }

  lemma StepPassesChecks(w: World, l: Label, tid: nat)
    requires Inv(w) && Enabled(w, l) && tid in w.threads && w.threads[tid].Request? && tid in Apply(w, l).threads
    requires PassedChecks(w.db, w.threads[tid])
    ensures Apply(w, l).threads[tid].Request? && PassedChecks(Apply(w, l).db, Apply(w, l).threads[tid])
  {
    hide Apply, Enabled, Inv;
    var v, t := Apply(w, l), w.threads[tid];
    StepGoes(w, l, tid);
    StepGrows(w, l);
    if v.threads[tid] != t && v.threads[tid].pc.BeginTx? { ReadsLast(w, l, tid); }
    hide Begin, DueActions, EdgesOfParent, Dependents, Admission, RowsKeep;
  }

  lemma ReadsLast(w: World, l: Label, tid: nat)
    requires Enabled(w, l) && tid in w.threads && w.threads[tid].Request? && tid in Apply(w, l).threads
    requires Goes(w, l, tid, Apply(w, l).threads[tid]) && Apply(w, l).threads[tid] != w.threads[tid]
    requires Apply(w, l).threads[tid].pc.BeginTx?
    ensures w.threads[tid].actionId < |w.db.actions| && w.db.actions[w.threads[tid].actionId].op.HasReverse()
  {
    assert l == LStep(tid) && w.threads[tid].pc.ReadDependents?;
    EntersWithReverse(w, tid);
    hide RequestStep;
  }

  lemma {:induction false} RunPassesChecks(w: World, ls: seq<Label>, tid: nat, n: nat)
    requires Inv(w) && CanRun(w, ls) && Kept(w, ls, tid) && w.threads[tid].Request? && n <= |w.db.attempts|
    requires PassedChecks(w.db, w.threads[tid]) && BeganSince(w.threads[tid], n)
    ensures tid in Run(w, ls).threads && Run(w, ls).threads[tid].Request?
    ensures PassedChecks(Run(w, ls).db, Run(w, ls).threads[tid]) && BeganSince(Run(w, ls).threads[tid], n)
    decreases |ls|
  {
    hide Apply, Enabled, Inv, PassedChecks, BeganSince, Follows;
    if ls != [] {
      var v := Apply(w, ls[0]);
      assert tid in v.threads;
      StepKeeps(w, ls[0]);
      StepGrows(w, ls[0]);
      StepGoes(w, ls[0], tid);
      StepPassesChecks(w, ls[0], tid);
      NextBeganSince(w, ls[0], tid, v.threads[tid], n);
      RunPassesChecks(v, ls[1..], tid, n);
    }
  }

  /** A request accepted in v, whose Action had an attempt before it began its own. */
  lemma AcceptedAgain(w: World, v: World, tid: nat, a: nat)
    requires Inv(w) && Reached(v) && Inv(v) && Grows(w.db, v.db) && HasPc(v, tid) && v.threads[tid].pc.Call?
    requires v.threads[tid].actionId == a && BeganSince(v.threads[tid], |w.db.attempts|)
    requires a < |w.db.actions| && w.db.actions[a].status == Reversing
    ensures w.db.actions[a].op != NotifyOp
  {
    var k := v.threads[tid].pc.calling;
    assert ThreadOk(v.db, v.trail, tid, v.threads[tid]);
    var j := NewestExists(w.db.attempts, a);
    assert v.db.attempts[..|w.db.attempts|][j] == v.db.attempts[j];
    hide Inv, Reached, Grows;
    if w.db.actions[a].op == NotifyOp {
      WithdrawnAtMostOnce(v, a);
      assert false;
    }
  }

  lemma LateNeeds(w: World, ls: seq<Label>, tid: nat, row: ActionRow, status: Status, late: Instant)
    requires AcceptsLate(w, ls, tid, row, status, late) && row.expiresAt.Some? && row.expiresAt.value <= late
    ensures status == Reversing && row.op.HasReverse() && row.op != NotifyOp
  {
    hide Run, CanRun, Reached, Inv, Kept;
    var all := [LStep(tid)] + ls;
    var v := Run(w, all);
    ReachableInv(w);
    ReachedOn(w, all);
    ReachableInv(v);
    LateMeansReversing(w, ls, tid);
    KeptRequest(w, all, tid);
    RunGrows(w, all);
    RunPassesChecks(w, all, tid, |w.db.attempts|);
    AcceptedAgain(w, v, tid, w.threads[tid].actionId);
  }

  // ------------------------------------------------------------- the other direction

  /** A store in which a first reversal of Action a is let in and refused by its provider. */
  ghost predicate Fits(db: Tables, a: nat, early: Instant, late: Instant) {
    && a < |db.actions| && db.attempts == []
    && var row := db.actions[a];
      && row.op.HasReverse() && row.status == Applied && row.reversibility != NotReversible
      && row.expiresAt.Some? && early < row.expiresAt.value <= late
      && (forall i :: 0 <= i < |db.actions| && i != a ==> db.actions[i].expiresAt.None?)
      && EdgesOfParent(db.edges, row.scope, a) == []
      && (IsDemo(row.op) ==> !CanReverse(db, a))
      && (row.op == UpdateOp ==> row.material.UpdateMaterial?)
  }

  /** The tables of such a store while Action a has this status. */
  predicate Holds(db: Tables, next: Tables, a: nat, status: Status)
    requires a < |db.actions|
  {
    && next.actions == db.actions[a := db.actions[a].(status := status)] && next.edges == db.edges
  }

  function FirstAt(db: Tables, a: nat, early: Instant): Thread
    requires a < |db.actions|
  {
    Request(db.actions[a].scope, a, None, early, Transition(0, Applied, early))
  }

  function SecondAt(db: Tables, a: nat, late: Instant, pc: Pc): Thread
    requires a < |db.actions|
  {
    Request(db.actions[a].scope, a, None, late, pc)
  }

  lemma FitsNothingSwept(db: Tables, a: nat, early: Instant, late: Instant)
    requires Fits(db, a, early, late)
    ensures Sweep(db, early) == db
  {
    NoneDueNotSwept(db, early);
  }

  lemma FitsHasNoObstacle(db: Tables, a: nat, early: Instant, late: Instant)
    requires Fits(db, a, early, late)
    ensures Admission(db.actions[a]).None? && Obstacle(db, db.actions[a].scope, a).None?
  {
    var scope := db.actions[a].scope;
    NothingBlocks(db, scope, a);
    assert forall e :: e in db.edges ==> !(e.scope == scope && e.parent == a);
    hide EdgesOfParent, Blocking;
  }

  lemma FitsBegins(db: Tables, a: nat, early: Instant, late: Instant)
    requires Fits(db, a, early, late)
    ensures var begun := Begin(db, db.actions[a].scope, a, None, early);
      && begun.Written? && Holds(db, begun.db, a, Reversing) && begun.db.attempts == [NewAttempt(0, a, early)]
      && begun.db.resources == db.resources && begun.db.notifications == db.notifications
  {
  }

  lemma FitsRefused(db: Tables, begun: Tables, a: nat, early: Instant, late: Instant)
    requires Fits(db, a, early, late) && Holds(db, begun, a, Reversing)
    requires begun.resources == db.resources && begun.notifications == db.notifications
    ensures var (called, ret) := CallReverse(begun, a, Output(OutConflict, ""));
      called == begun && ret.Output? && ret.outcome == OutConflict
  {
    hide ConflictReason, EdgesOfParent;
  }

  lemma ConflictSettles(db: Tables, k: nat, ret: ProviderReturn, at: Instant)
    requires ret.Output? && ret.outcome == OutConflict
    ensures !Settle(ret).Unrecognised? && SettledStatus(Settle(ret)) == Applied
    ensures RecordSettlement(db, k, Settle(ret), at).actions == db.actions
    ensures RecordSettlement(db, k, Settle(ret), at).edges == db.edges
  {
  }

  /** The first request has called the provider, been refused, and recorded it. */
  lemma FirstRefused(w: World, a: nat, early: Instant, late: Instant) returns (z: World)
    requires Reached(w) && AtRest(w) && Fits(w.db, a, early, late)
    ensures Reached(z) && z.phase == Serving && Holds(w.db, z.db, a, Reversing)
    ensures z.threads == map[0 := FirstAt(w.db, a, early)]
  {
    var db, scope := w.db, w.db.actions[a].scope;
    var q, refused := Req(scope, a, None, early), Output(OutConflict, "");
    FitsNothingSwept(db, a, early, late);
    FitsHasNoObstacle(db, a, early, late);
    FitsBegins(db, a, early, late);
    var begun := Begin(db, scope, a, None, early).db;
    FitsRefused(db, begun, a, early, late);
    ConflictSettles(begun, 0, CallReverse(begun, a, refused).1, early);
    NoTrail(w);
    hide Fits, Runs, Reached, Obstacle, Begin, Sweep, CallReverse, Settle, RecordSettlement;
    var before := AtTransaction(w, q);
    var ls;
    ls, z := CallRecorded(w, db, q, refused, early);
    hide Refinement.At;
    ReachMore(before, ls, z);
  }

  lemma NoTrail(w: World)
    requires Reached(w)
    ensures |w.trail| == |w.db.attempts|
  {
    ReachableInv(w);
  }

  // -------------------------------------------------------------- the second request

  /** A run from x to v through which this request stays. */
  ghost predicate Leads(x: World, v: World, tid: nat) {
    exists ls :: CanRun(x, ls) && Kept(x, ls, tid) && Run(x, ls) == v
  }

  /** One of its states: from x, the state after the second request's sweep has queried. */
  ghost predicate Onward(x: World, v: World) {
    Reached(v) && Leads(x, v, 1)
  }

  lemma OnwardOneMore(x: World, v: World, l: Label)
    requires Onward(x, v) && Enabled(v, l) && 1 in Apply(v, l).threads
    ensures Onward(x, Apply(v, l))
  {
    hide Apply, Enabled, Run, CanRun, Reached, Kept;
    var ls :| CanRun(x, ls) && Kept(x, ls, 1) && Run(x, ls) == v;
    ReachOneMore(v, l);
    KeptOneMore(x, ls, l, 1);
  }

  lemma OnwardFrom(x: World)
    requires Reached(x) && 1 in x.threads
    ensures Onward(x, x)
  {
    assert CanRun(x, []) && Kept(x, [], 1) && Run(x, []) == x;
  }

  lemma AcceptedLate(x: World, v: World, row: ActionRow, a: nat, late: Instant) returns (ls: seq<Label>)
    requires Reached(x) && HasPc(x, 1) && x.threads[1] == Request(row.scope, a, None, late, SweepSelect)
    requires a < |x.db.actions| && x.db.actions[a] == row.(status := Reversing)
    requires Onward(Apply(x, LStep(1)), v) && HasPc(v, 1) && v.threads[1].pc.Call?
    ensures AcceptsLate(x, ls, 1, row, Reversing, late)
  {
    var u := Apply(x, LStep(1));
    ls :| CanRun(u, ls) && Kept(u, ls, 1) && Run(u, ls) == v;
    var all := [LStep(1)] + ls;
    assert all[0] == LStep(1) && all[1..] == ls;
    hide Apply, Reached;
  }

  lemma SecondArrives(z: World, db: Tables, a: nat, early: Instant, late: Instant) returns (x: World)
    requires a < |db.actions| && Reached(z) && z.phase == Serving && z.threads == map[0 := FirstAt(db, a, early)]
    ensures Reached(x) && x.phase == Serving && x.db == z.db
    ensures x.threads == map[0 := FirstAt(db, a, early)][1 := SecondAt(db, a, late, SweepSelect)]
  {
    hide Reached;
    var l := LStart(1, db.actions[a].scope, a, None, late);
    ReachOneMore(z, l);
    x := Apply(z, l);
  }

  lemma SecondSweeps(x: World, db: Tables, a: nat, early: Instant, late: Instant) returns (v: World)
    requires Fits(db, a, early, late) && Reached(x) && x.phase == Serving && Holds(db, x.db, a, Reversing)
    requires x.threads == map[0 := FirstAt(db, a, early)][1 := SecondAt(db, a, late, SweepSelect)]
    ensures Enabled(x, LStep(1)) && Onward(Apply(x, LStep(1)), v) && v.phase == Serving && v.db == x.db
    ensures v.threads == map[0 := FirstAt(db, a, early)][1 := SecondAt(db, a, late, KeyLookup)]
  {
    NoneDueNothingSelected(x.db.actions, late);
    hide Fits, Reached, DueActions, Onward;
    ReachOneMore(x, LStep(1));
    var u := Apply(x, LStep(1));
    OnwardFrom(u);
    assert u.threads[1].pc == SweepRows([]) && u.db == x.db;
    OnwardOneMore(u, u, LStep(1));
    v := Apply(u, LStep(1));
  }

  /** The first request's last write. */
  lemma FirstEnds(x: World, w: World, db: Tables, a: nat, early: Instant, late: Instant) returns (v: World)
    requires a < |db.actions| && db.actions[a].status == Applied
    requires Onward(x, w) && w.phase == Serving && Holds(db, w.db, a, Reversing)
    requires w.threads == map[0 := FirstAt(db, a, early)][1 := SecondAt(db, a, late, KeyLookup)]
    ensures Onward(x, v) && v.phase == Serving && v.db.actions == db.actions && v.db.edges == db.edges
    ensures 1 in v.threads && v.threads[1] == SecondAt(db, a, late, KeyLookup)
  {
    v := Apply(w, LStep(0));
    var scope := db.actions[a].scope;
    assert UpdateStatus(w.db, scope, a, Reversing, Applied, early) == Written(SetStatus(w.db, a, Applied, early));
    hide Onward;
    OnwardOneMore(x, w, LStep(0));
  }

  /** The world with the second request at this point. */
  function Second(w: World, db: Tables, a: nat, late: Instant, pc: Pc): World
    requires a < |db.actions|
  {
    w.(threads := w.threads[1 := SecondAt(db, a, late, pc)])
  }

  lemma SecondMoves(w: World, db: Tables, a: nat, late: Instant, pc: Pc, next: Pc)
    requires a < |db.actions| && w.phase == Serving && w.db.actions == db.actions && w.db.edges == db.edges
    requires EdgesOfParent(db.edges, db.actions[a].scope, a) == []
    requires db.actions[a].op.HasReverse() && Admission(db.actions[a]).None?
    requires (pc, next) in {(KeyLookup, ReadAction), (ReadAction, ReadEdges), (ReadEdges, ReadDependents([], false)),
      (ReadDependents([], false), BeginTx)}
    ensures var u := Second(w, db, a, late, pc);
      Enabled(u, LStep(1)) && Apply(u, LStep(1)) == Second(w, db, a, late, next)
  {
    var u := Second(w, db, a, late, pc);
    assert u.threads[1 := SecondAt(db, a, late, next)] == Second(w, db, a, late, next).threads;
    assert Dependents([]) == [];
    hide Begin, UpdateStatus, BeginReversal, SweepOne, MoveStatus, EdgesOfParent;
  }

  lemma SecondChecks(x: World, w: World, db: Tables, a: nat, late: Instant) returns (v: World)
    requires a < |db.actions| && Onward(x, w) && w.phase == Serving
    requires w.db.actions == db.actions && w.db.edges == db.edges
    requires EdgesOfParent(db.edges, db.actions[a].scope, a) == []
    requires db.actions[a].op.HasReverse() && Admission(db.actions[a]).None?
    requires 1 in w.threads && w.threads[1] == SecondAt(db, a, late, KeyLookup)
    ensures Onward(x, v) && HasPc(v, 1) && v.threads[1] == SecondAt(db, a, late, BeginTx) && v.db == w.db
  {
    hide Apply, Enabled;
    assert w == Second(w, db, a, late, KeyLookup);
    v := Second(w, db, a, late, BeginTx);
    assert HasPc(v, 1);
    hide Onward, Admission, EdgesOfParent;
    SecondMoves(w, db, a, late, KeyLookup, ReadAction);
    OnwardOneMore(x, Second(w, db, a, late, KeyLookup), LStep(1));
    SecondMoves(w, db, a, late, ReadAction, ReadEdges);
    OnwardOneMore(x, Second(w, db, a, late, ReadAction), LStep(1));
    SecondMoves(w, db, a, late, ReadEdges, ReadDependents([], false));
    OnwardOneMore(x, Second(w, db, a, late, ReadEdges), LStep(1));
    SecondMoves(w, db, a, late, ReadDependents([], false), BeginTx);
    OnwardOneMore(x, Second(w, db, a, late, ReadDependents([], false)), LStep(1));
  }

  lemma SecondBegins(u: World, v: World, db: Tables, a: nat, late: Instant) returns (w: World)
    requires a < |db.actions| && db.actions[a].status == Applied && v.db.actions == db.actions
    requires Onward(u, v) && HasPc(v, 1) && v.threads[1] == SecondAt(db, a, late, BeginTx)
    ensures Onward(u, w) && HasPc(w, 1) && w.threads[1].pc.Call?
    ensures var n := |w.db.attempts|;
      && n > 0 && w.db.attempts[n - 1].actionId == a < |w.db.actions| && w.db.attempts[n - 1].requestedAt == late
      && w.db.actions[a].expiresAt == db.actions[a].expiresAt
  {
    var scope := db.actions[a].scope;
    AppliedCanBegin(v, a, late);
    BeginMoves(v, 1);
    BeginShape(v.db, scope, a, None, late);
    w := Apply(v, LStep(1));
    hide Onward, RequestStep, Begin;
    OnwardOneMore(u, v, LStep(1));
  }

  lemma AppliedCanBegin(v: World, a: nat, late: Instant)
    requires Reached(v) && a < |v.db.actions| && v.db.actions[a].status == Applied
    ensures Begin(v.db, v.db.actions[a].scope, a, None, late).Written?
  {
    ReachableInv(v);
    AppliedMeansBenign(v.db, v.trail, a);
    hide Inv, Reached;
  }

  /** The second request's sweep queries before the first one's last write, and its checks come
      after it. */
  lemma LateRequest(w: World, a: nat, early: Instant, late: Instant) returns (x: World, v: World)
    requires Reached(w) && AtRest(w) && Fits(w.db, a, early, late)
    ensures Reached(x) && HasPc(x, 1) && x.threads[1] == SecondAt(w.db, a, late, SweepSelect)
    ensures Holds(w.db, x.db, a, Reversing) && Enabled(x, LStep(1))
    ensures Onward(Apply(x, LStep(1)), v) && HasPc(v, 1) && v.threads[1].pc.Call?
    ensures var n := |v.db.attempts|;
      && n > 0 && v.db.attempts[n - 1].actionId == a < |v.db.actions| && v.db.attempts[n - 1].requestedAt == late
      && v.db.actions[a].expiresAt == w.db.actions[a].expiresAt
  {
    hide Apply, Enabled, Reached;
    FitsHasNoObstacle(w.db, a, early, late);
    var z := FirstRefused(w, a, early, late);
    x := SecondArrives(z, w.db, a, early, late);
    v := SecondSweeps(x, w.db, a, early, late);
    hide Onward, Obstacle, Admission, EdgesOfParent;
    v := FirstEnds(Apply(x, LStep(1)), v, w.db, a, early, late);
    v := SecondChecks(Apply(x, LStep(1)), v, w.db, a, late);
    v := SecondBegins(Apply(x, LStep(1)), v, w.db, a, late);
  }

  lemma LateFrom(w: World, a: nat, early: Instant, late: Instant)
    requires Reached(w) && AtRest(w) && Fits(w.db, a, early, late)
    ensures CanBeLate(w.db.actions[a], Reversing, late)
  {
    hide Apply, Enabled, Reached;
    var x, v := LateRequest(w, a, early, late);
    hide Fits, Onward, AcceptsLate;
    var ls := AcceptedLate(x, v, w.db.actions[a], a, late);
  }

  // ------------------------------------------------------------------ the stores

  /** An Action of another service that can be reversed, inside its window at first. */
  predicate IsForeign(row: ActionRow, early: Instant, late: Instant) {
    && row.op.ExternalOp? && row.op.canReverse && row.status == Applied && row.reversibility != NotReversible
    && row.expiresAt.Some? && early < row.expiresAt.value <= late
  }

  lemma ForeignFits(row: ActionRow, early: Instant, late: Instant) returns (w: World)
    requires IsForeign(row, early, late)
    ensures Reached(w) && AtRest(w) && Fits(w.db, 0, early, late) && w.db.actions == [row]
  {
    var c := ExternalCall(row);
    assert Do(EMPTY_TABLES, c) == CreateAction(EMPTY_TABLES, row);
    OneCallDone(c, CreateAction(EMPTY_TABLES, row));
    w := ServicesAreRuns([c], early);
    hide Reached, SeriallyReached;
  }

  /** A creation whose row is published. */
  lemma PublishedFits(end: Instant, late: Instant) returns (w: World)
    requires 0 < end <= late
    ensures Reached(w) && AtRest(w) && |w.db.actions| == 2 && Fits(w.db, 0, 0, late)
    ensures w.db.actions[0].op == CreateOp && w.db.actions[0].expiresAt == Some(end)
  {
    var create, publish := CreateCall("", 0, "", 0, Some(end)), PublishCall("", 0, 0);
    assert [create, publish][1..] == [publish] && [publish][1..] == [];
    var one := Do(EMPTY_TABLES, create);
    var two := Do(one, publish);
    assert DoAll(two, []) == two && DoAll(one, [publish]) == two;
    assert DoAll(EMPTY_TABLES, [create, publish]) == two;
    w := ServicesAreRuns([create, publish], 0);
    hide Reached, SeriallyReached;
  }

  function UpdatedTwice(end: Instant): Tables {
    Update(Update(Create(EMPTY_TABLES, "", 0, "", 0, None), "", 0, "", 0, Some(end)), "", 0, "", 0, None)
  }

  lemma UpdatedTwiceShape(end: Instant)
    ensures var db := UpdatedTwice(end);
      && |db.actions| == 3 && db.attempts == []
      && db.actions[0].expiresAt.None? && db.actions[2].expiresAt.None?
      && db.actions[1] == ActionRow("", UpdateOp, Applied, Restorable, 0, 0, Some(end), UpdateMaterial("", 1, 2))
      && 0 in db.resources && db.resources[0].version == 3
      && db.edges == [Edge("", 0, 1), Edge("", 0, 2)]
  {
  }

  lemma HasMember(es: seq<Edge>)
    requires es != []
    ensures exists e :: e in es
  {
    assert es[0] in es;
  }

  lemma NoEdgeOfSecond()
    ensures EdgesOfParent([Edge("", 0, 1), Edge("", 0, 2)], "", 1) == []
  {
    var es := EdgesOfParent([Edge("", 0, 1), Edge("", 0, 2)], "", 1);
    if es != [] {
      HasMember(es);
      assert false;
    }
  }

  /** An update with another one on top of it. */
  lemma CoveredFits(end: Instant, late: Instant) returns (w: World)
    requires 0 < end <= late
    ensures Reached(w) && AtRest(w) && |w.db.actions| == 3 && Fits(w.db, 1, 0, late)
    ensures w.db.actions[1].op == UpdateOp && w.db.actions[1].expiresAt == Some(end)
  {
    var calls := [CreateCall("", 0, "", 0, None), UpdateCall("", 0, "", 0, Some(end)), UpdateCall("", 0, "", 0, None)];
    UpdatedTwiceDone(calls, end);
    UpdatedTwiceShape(end);
    NoEdgeOfSecond();
    w := ServicesAreRuns(calls, 0);
    hide Reached, SeriallyReached, UpdatedTwice, EdgesOfParent;
  }

  lemma UpdatedTwiceDone(calls: seq<ServiceCall>, end: Instant)
    requires calls
      == [CreateCall("", 0, "", 0, None), UpdateCall("", 0, "", 0, Some(end)), UpdateCall("", 0, "", 0, None)]
    ensures DoAll(EMPTY_TABLES, calls) == UpdatedTwice(end)
  {
    assert calls[1..][1..] == [calls[2]] && calls[1..][1..][1..] == [];
    var one := Do(EMPTY_TABLES, calls[0]);
    var two := Do(one, calls[1]);
    var three := Do(two, calls[2]);
    assert DoAll(three, []) == three && DoAll(two, [calls[2]]) == three && DoAll(one, calls[1..]) == three;
  }

  // ------------------------------------------------------------------- the theorems

  /** Over every interleaving: a reversal of this Action of another service that arrives at or
      after the end of its window can be accepted if and only if the Action may be REVERSING when
      the request's sweep queries. */
  lemma LateExactlyOverReversing(row: ActionRow, early: Instant, late: Instant, status: Status)
    requires IsForeign(row, early, late)
    ensures CanBeLate(row, status, late) <==> status == Reversing
  {
    if CanBeLate(row, status, late) {
      var w, ls, tid :| AcceptsLate(w, ls, tid, row, status, late);
      hide AcceptsLate;
      LateNeeds(w, ls, tid, row, status, late);
    }
    if status == Reversing {
      var w := ForeignFits(row, early, late);
      hide CanBeLate, Reached, Fits;
      LateFrom(w, 0, early, late);
    }
  }

  lemma OpIsLate(op: Op, end: Instant, late: Instant)
    requires 0 < end <= late && op.HasReverse() && op != NotifyOp
    ensures OpCanBeLate(op, end, Reversing, late)
  {
    hide CanBeLate, Reached, Fits;
    if op == CreateOp {
      var w := PublishedFits(end, late);
      LateFrom(w, 0, 0, late);
      assert CanBeLate(w.db.actions[0], Reversing, late);
    } else if op == UpdateOp {
      var w := CoveredFits(end, late);
      LateFrom(w, 1, 0, late);
      assert CanBeLate(w.db.actions[1], Reversing, late);
    } else {
      var row := ActionRow("", op, Applied, Reversible, 0, 0, Some(end), NoMaterial);
      var w := ForeignFits(row, 0, late);
      LateFrom(w, 0, 0, late);
      assert CanBeLate(row, Reversing, late);
    }
  }

  /** The exact operations and statuses: an Action of operation op whose window ends at end can
      be accepted at end or later if and only if it may be REVERSING when the request's sweep
      queries and op can be refused after it began: creations, updates and what other services can
      reverse, never a notification. */
  lemma LateExactly(op: Op, end: Instant, late: Instant, status: Status)
    requires 0 < end <= late
    ensures OpCanBeLate(op, end, status, late) <==> status == Reversing && op.HasReverse() && op != NotifyOp
  {
    if OpCanBeLate(op, end, status, late) {
      var row: ActionRow :| row.op == op && row.expiresAt == Some(end) && CanBeLate(row, status, late);
      var w, ls, tid :| AcceptsLate(w, ls, tid, row, status, late);
      hide AcceptsLate;
      LateNeeds(w, ls, tid, row, status, late);
    }
    if status == Reversing && op.HasReverse() && op != NotifyOp {
      hide OpCanBeLate;
      OpIsLate(op, end, late);
    }
  }

  /** Such a state for every window: an attempt requested at or after the end of it. */
  lemma ExpiredActionBeginsReversal(row: ActionRow, early: Instant, late: Instant) returns (w: World, k: nat)
    requires IsForeign(row, early, late)
    ensures Reached(w) && k < |w.db.attempts| && w.db.attempts[k].actionId < |w.db.actions|
    ensures w.db.actions[w.db.attempts[k].actionId].expiresAt == row.expiresAt
    ensures row.expiresAt.value <= w.db.attempts[k].requestedAt
  {
    hide Apply, Reached;
    var u := ForeignFits(row, early, late);
    var x, v := LateRequest(u, 0, early, late);
    w, k := v, |v.db.attempts| - 1;
    hide Fits, Leads;
  }
}
