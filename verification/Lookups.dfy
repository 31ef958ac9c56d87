/** Without a lookup nothing leaves the unknown: of an operation that offers none, a resolved
    Action has really been reversed. */
module Lookups {
  import opened Domain
  import opened Timestamp
  import opened Records
  import opened Protocol
  import opened Invariant
  import opened Moves
  import opened Steps
  import opened UndoStack

  /** Only operations with a lookup ever have a parked attempt concluded. */
  ghost predicate LookupsOnly(w: World) {
    && (forall k :: 0 <= k < |w.db.attempts| && ParkedAndConcluded(w.db.attempts[k]) ==>
          RowLooksUp(w.db.actions, w.db.attempts[k]))
    && (forall i :: i in w.threads ==> LooksUp(w.db, w.threads[i]))
  }

  predicate RowLooksUp(actions: seq<ActionRow>, row: AttemptRow) {
    row.actionId < |actions| && actions[row.actionId].op.HasReconcile()
  }

  predicate LooksUp(db: Tables, t: Thread) {
    t.Reconciler? && !t.rpc.RecRead? && !t.rpc.RecOpen? && !t.rpc.RecFinish? ==>
      t.actionId < |db.actions| && db.actions[t.actionId].op.HasReconcile()
  }

  /** Apart from recording a return and concluding a lookup, no step concludes a row. */
  lemma OthersConcludeNothing(w: World, l: Label)
    requires Enabled(w, l) && !l.LRecord? && !l.LRecConclude?
    ensures var v := Apply(w, l);
      && |w.db.attempts| <= |v.db.attempts|
      && (forall k :: 0 <= k < |w.db.attempts| && v.db.attempts[k].state == Concluded ==>
            v.db.attempts[k] == w.db.attempts[k])
      && (forall k :: |w.db.attempts| <= k < |v.db.attempts| ==> v.db.attempts[k].state == Running)
  {
    match l
    case LStep(tid) =>
      if w.threads[tid].Request? { RequestConcludesNothing(w, tid); }
    case LRecover =>
    case _ =>
  }

  lemma RequestConcludesNothing(w: World, tid: nat)
    requires HasPc(w, tid)
    ensures var v := RequestStep(w, tid);
      && |w.db.attempts| <= |v.db.attempts|
      && (forall k :: 0 <= k < |w.db.attempts| ==> v.db.attempts[k] == w.db.attempts[k])
      && (forall k :: |w.db.attempts| <= k < |v.db.attempts| ==> v.db.attempts[k].state == Running)
  {
    hide Begin;
    var t := w.threads[tid];
    if t.pc.BeginTx? {
      var r := Begin(w.db, t.scope, t.actionId, t.key, t.now);
      if r.Written? { BeginShape(w.db, t.scope, t.actionId, t.key, t.now); }
    }
  }

  lemma ThreadsLookUp(w: World, l: Label)
    requires LookupsOnly(w) && Enabled(w, l) && Grows(w.db, Apply(w, l).db)
    ensures forall i :: i in Apply(w, l).threads ==> LooksUp(Apply(w, l).db, Apply(w, l).threads[i])
  {
    hide Apply, Enabled;
    var v := Apply(w, l);
    forall i | i in v.threads ensures LooksUp(v.db, v.threads[i]) {
      NextLooksUp(w, l, i);
      hide LookupsOnly;
    }
  }

  /** Judged by the tables before the step. */
  lemma NextLooksUp(w: World, l: Label, i: nat)
    requires LookupsOnly(w) && Enabled(w, l) && i in Apply(w, l).threads
    ensures LooksUp(w.db, Apply(w, l).threads[i])
  {
    if i in w.threads {
      assert LooksUp(w.db, w.threads[i]);
    }
    match l
    case LStep(tid) =>
      if w.threads[tid].Request? { RequestLooksUp(w, tid, i); } else { ReconcilerLooksUp(w, tid, i); }
    case _ =>
  }

  lemma RequestLooksUp(w: World, tid: nat, i: nat)
    requires HasPc(w, tid) && i in RequestStep(w, tid).threads && (i in w.threads ==> LooksUp(w.db, w.threads[i]))
    ensures LooksUp(w.db, RequestStep(w, tid).threads[i])
  {
  }

  lemma ReconcilerLooksUp(w: World, tid: nat, i: nat)
    requires HasRpc(w, tid) && i in ReconcileStep(w, tid).threads && (i in w.threads ==> LooksUp(w.db, w.threads[i]))
    ensures LooksUp(w.db, ReconcileStep(w, tid).threads[i])
  {
  }

  lemma StepKeepsLookups(w: World, l: Label)
    requires Inv(w) && LookupsOnly(w) && Enabled(w, l)
    ensures LookupsOnly(Apply(w, l))
  {
    hide Apply, Enabled, Inv;
    var v := Apply(w, l);
    StepGrows(w, l);
    ThreadsLookUp(w, l);
    forall k | 0 <= k < |v.db.attempts| && ParkedAndConcluded(v.db.attempts[k])
      ensures RowLooksUp(v.db.actions, v.db.attempts[k])
    {
      RowStaysLookedUp(w, l, k);
    }
  }

  lemma RowStaysLookedUp(w: World, l: Label, k: nat)
    requires Inv(w) && LookupsOnly(w) && Enabled(w, l) && Grows(w.db, Apply(w, l).db)
    requires k < |Apply(w, l).db.attempts| && ParkedAndConcluded(Apply(w, l).db.attempts[k])
    ensures RowLooksUp(Apply(w, l).db.actions, Apply(w, l).db.attempts[k])
  {
    hide Apply, Enabled, Inv;
    var v := Apply(w, l);
    if l.LRecord? {
      assert l == LRecord(l.tid, l.at);
      RecordKeepsLookups(w, l.tid, l.at);
    } else if l.LRecConclude? {
      assert l == LRecConclude(l.tid, l.at);
      ConcludeKeepsLookups(w, l.tid, l.at);
    } else {
      OthersConcludeNothing(w, l);
    }
    if k < |w.db.attempts| && v.db.attempts[k] == w.db.attempts[k] {
      assert RowLooksUp(w.db.actions, w.db.attempts[k]);
    }
  }

  /** No row is newly concluded after it was parked. */
  ghost predicate ConcludesNoParked(db: Tables, next: Tables) {
    && next.actions == db.actions && |next.attempts| == |db.attempts|
    && (forall k :: 0 <= k < |db.attempts| ==>
          next.attempts[k] == db.attempts[k] || !ParkedAndConcluded(next.attempts[k]))
  }

  lemma RecordedConcludesNoParked(w: World, v: World, tid: nat, k: nat, ret: ProviderReturn)
    requires tid in w.threads && w.threads[tid].Request? && RecordMoves(w, v, tid, k, ret)
    requires !Settle(ret).Unrecognised? && tid in v.threads ==> ThreadOk(v.db, v.trail, tid, v.threads[tid])
    ensures ConcludesNoParked(w.db, v.db)
  {
  }

  lemma ThreadIsOk(w: World, tid: nat)
    requires Inv(w) && tid in w.threads
    ensures ThreadOk(w.db, w.trail, tid, w.threads[tid])
  {
  }

  lemma RecordKeepsLookups(w: World, tid: nat, at: Instant)
    requires Inv(w) && Enabled(w, LRecord(tid, at))
    ensures ConcludesNoParked(w.db, Apply(w, LRecord(tid, at)).db)
  {
    hide Apply, RecordMoves, Inv, ConcludesNoParked, ThreadOk;
    var v := Apply(w, LRecord(tid, at));
    RecordStepMoves(w, tid, at);
    StepKeeps(w, LRecord(tid, at));
    if tid in v.threads { ThreadIsOk(v, tid); }
    RecordedConcludesNoParked(w, v, tid, w.threads[tid].pc.recording, w.threads[tid].pc.ret);
  }

  lemma ConcludeKeepsLookups(w: World, tid: nat, at: Instant)
    requires Inv(w) && LookupsOnly(w) && Enabled(w, LRecConclude(tid, at))
    ensures forall k :: 0 <= k < |w.db.attempts| ==>
      var row := Apply(w, LRecConclude(tid, at)).db.attempts[k];
      row == w.db.attempts[k] || RowLooksUp(w.db.actions, row)
    ensures Apply(w, LRecConclude(tid, at)).db.actions == w.db.actions
    ensures |Apply(w, LRecConclude(tid, at)).db.attempts| == |w.db.attempts|
  {
  }

  lemma {:induction false} RunKeepsLookups(w: World, ls: seq<Label>)
    requires Inv(w) && LookupsOnly(w) && CanRun(w, ls)
    ensures LookupsOnly(Run(w, ls))
    decreases |ls|
  {
    hide Apply, Enabled, Inv, LookupsOnly;
    if ls != [] {
      StepKeepsLookups(w, ls[0]);
      StepKeeps(w, ls[0]);
      RunKeepsLookups(Apply(w, ls[0]), ls[1..]);
    }
  }

  /** An update whose Action is resolved has really been undone. */
  lemma ResolvedUpdateIsUndone(w: World, a: nat)
    requires Inv(w) && DemoInv(w) && LookupsOnly(w)
    requires a < |w.db.actions| && w.db.actions[a].op == UpdateOp && IsResolved(w.db.actions[a].status)
    ensures a in Undone(w)
  {
    assert !Untouched(w.db.attempts, a);
    var k := NewestExists(w.db.attempts, a);
    assert AttemptOk(w.db, w.trail, k);
    assert DemoTrailOk(UpdateOp, w.trail[k]);
    ConclusionIsReturn(w, k);
    assert w.trail[k].effect && w.db.attempts[k].actionId == a;
  }

  lemma ConclusionIsReturn(w: World, k: nat)
    requires Inv(w) && LookupsOnly(w) && k < |w.db.attempts| && k < |w.trail| && AttemptOk(w.db, w.trail, k)
    requires Newest(w.db.attempts, k) && DemoTrailOk(UpdateOp, w.trail[k])
    requires w.db.actions[w.db.attempts[k].actionId].op == UpdateOp
    requires IsResolved(w.db.actions[w.db.attempts[k].actionId].status)
    ensures w.trail[k].effect
  {
  }

  lemma ReachedLookups(w: World)
    requires Reached(w)
    ensures LookupsOnly(w)
  {
    var ls :| CanRun(INIT, ls) && Run(INIT, ls) == w;
    RunKeepsLookups(INIT, ls);
  }
}
