/** Concluding (or parking) an attempt and moving its Action's status are two durable writes.
    A crash between them tears the pair for ever; without crashes and abandoned threads no
    pair is torn once the work is done. */
module TornPairs {
  import opened Domain
  import opened Timestamp
  import opened Records
  import opened Protocol
  import opened Invariant
  import opened Moves
  import opened Services
  import opened Steps

  // ----------------------------------------------------------- who owes the write

  /** The attempt whose status write this thread still owes. */
  function Owes(t: Thread): Option<nat> {
    match t
    case Request(_, _, _, _, Call(k)) => Some(k)
    case Request(_, _, _, _, Record(k, _)) => Some(k)
    case Request(_, _, _, _, Transition(k, _, _)) => Some(k)
    case Reconciler(_, _, _, RecUpdate(k, _, _)) => Some(k)
    case _ => None
  }

  predicate OwedByOwner(w: World, k: nat) {
    k < |w.trail| && w.trail[k].owner in w.threads
    && w.threads[w.trail[k].owner].Request? && Owes(w.threads[w.trail[k].owner]) == Some(k)
  }

  predicate OwedByConcluder(w: World, k: nat) {
    k < |w.trail| && w.trail[k].concluder.Some? && w.trail[k].concluder.value in w.threads
    && w.threads[w.trail[k].concluder.value].Reconciler?
    && Owes(w.threads[w.trail[k].concluder.value]) == Some(k)
  }

  predicate StatusOf(db: Tables, k: nat, s: Status) {
    k < |db.attempts| && db.attempts[k].actionId < |db.actions| && db.actions[db.attempts[k].actionId].status == s
  }

  predicate Unwritten(db: Tables, k: nat) {
    StatusOf(db, k, OutcomeUnknown) && ParkedAndConcluded(db.attempts[k])
  }

  ghost predicate Beginning(db: Tables, k: nat) {
    StatusOf(db, k, Reversing) && Newest(db.attempts, k)
  }

  ghost predicate NothingTorn(w: World) {
    && (forall k: nat :: Beginning(w.db, k) ==> OwedByOwner(w, k))
    && (forall k: nat :: Unwritten(w.db, k) ==> OwedByConcluder(w, k))
  }

  // ------------------------------------------------------------------- clean runs

  /** No crash, no abandoned thread (which stands for every store error), and what a
      provider returns is in the vocabulary. */
  predicate CleanLabel(w: World, l: Label)
    requires Enabled(w, l)
  {
    && !l.LCrash? && !l.LAbandon?
    && (l.LRecord? ==> InVocabulary(w.threads[l.tid].pc.ret))
  }

  ghost predicate CleanRun(w: World, ls: seq<Label>)
    requires CanRun(w, ls)
    decreases |ls|
  {
    ls == [] || (CleanLabel(w, ls[0]) && CleanRun(Apply(w, ls[0]), ls[1..]))
  }

  /** The attempt rows keep their Actions and their trails keep owner and concluder. */
  ghost predicate SameRows(w: World, v: World) {
    && |v.db.attempts| == |w.db.attempts| && |v.trail| == |w.trail|
    && (forall k :: 0 <= k < |w.db.attempts| ==> v.db.attempts[k].actionId == w.db.attempts[k].actionId)
    && (forall k :: 0 <= k < |w.trail| ==>
          v.trail[k].owner == w.trail[k].owner && v.trail[k].concluder == w.trail[k].concluder)
  }

  ghost predicate OthersStay(w: World, v: World, tid: nat) {
    forall i :: i in w.threads && i != tid ==> i in v.threads && v.threads[i] == w.threads[i]
  }

  /** What thread tid owed it still owes, or the write is done. */
  predicate PaysOrOwes(w: World, v: World, tid: nat) {
    tid in w.threads && Owes(w.threads[tid]).Some? ==>
      var k := Owes(w.threads[tid]).value;
      || (tid in v.threads && Owes(v.threads[tid]) == Some(k) && v.threads[tid].Request? == w.threads[tid].Request?)
      || (w.threads[tid].Request? && !StatusOf(v.db, k, Reversing))
      || (w.threads[tid].Reconciler? && !Unwritten(v.db, k))
  }

  lemma StepStaysWhole(w: World, v: World, tid: nat)
    requires NothingTorn(w) && SameRows(w, v) && OthersStay(w, v, tid) && PaysOrOwes(w, v, tid)
    requires forall k: nat :: StatusOf(v.db, k, Reversing) ==> StatusOf(w.db, k, Reversing)
    requires forall k: nat :: Unwritten(v.db, k) ==> Unwritten(w.db, k)
    ensures NothingTorn(v)
  {
    SameActions(w.db.attempts, v.db.attempts);
    forall k: nat | Beginning(v.db, k) ensures OwedByOwner(v, k) {
      assert Beginning(w.db, k) && OwedByOwner(w, k);
    }
    forall k: nat | Unwritten(v.db, k) ensures OwedByConcluder(v, k) {
      assert OwedByConcluder(w, k);
    }
  }

  lemma BusinessStaysWhole(w: World, l: Label)
    requires Inv(w) && NothingTorn(w) && Enabled(w, l)
    requires l.LCreate? || l.LUpdate? || l.LPublish? || l.LNotify? || l.LExternal? || l.LAddEdge?
    ensures NothingTorn(Apply(w, l))
  {
    hide *;
    var m := BusinessMove(w, l);
    BusinessTouchesNoThread(w, l);
    var v := Apply(w, l);
    NewActionStaysWhole(w, v, m);
  }

  lemma BusinessTouchesNoThread(w: World, l: Label)
    requires Enabled(w, l)
    requires l.LCreate? || l.LUpdate? || l.LPublish? || l.LNotify? || l.LExternal? || l.LAddEdge?
    ensures var v := Apply(w, l);
      && v.threads == w.threads && v.trail == w.trail && v.db.attempts == w.db.attempts
      && w.db.actions <= v.db.actions
  {
  }

  lemma NewActionStaysWhole(w: World, v: World, m: Move)
    requires Inv(w) && NothingTorn(w) && Makes(m, w.db, v.db)
    requires v.threads == w.threads && v.trail == w.trail && v.db.attempts == w.db.attempts
    requires w.db.actions <= v.db.actions
    ensures NothingTorn(v)
  {
    AttemptsHaveActions(w);
    StepStaysWhole(w, v, 0);
  }

  lemma BeginStaysWhole(w: World, tid: nat)
    requires Inv(w) && NothingTorn(w) && HasPc(w, tid) && w.threads[tid].pc == BeginTx
    ensures NothingTorn(RequestStep(w, tid))
  {
    var t := w.threads[tid];
    var v := RequestStep(w, tid);
    if Begin(w.db, t.scope, t.actionId, t.key, t.now).Failed? {
      StepStaysWhole(w, v, tid);
    } else {
      BeginShape(w.db, t.scope, t.actionId, t.key, t.now);
      BegunStaysWhole(w, v, tid);
    }
  }

  lemma BegunStaysWhole(w: World, v: World, tid: nat)
    requires Inv(w) && NothingTorn(w) && tid in w.threads && w.threads[tid].Request?
    requires var a := w.threads[tid].actionId;
      && a < |w.db.actions| && w.db.actions[a].status == Applied
      && v.db.attempts == w.db.attempts + [NewAttempt(|w.db.attempts|, a, w.threads[tid].now)]
      && v.db.actions == w.db.actions[a := w.db.actions[a].(status := Reversing)]
    requires v.trail == w.trail + [Trail(tid, 0, false, None, None)]
    requires v.threads == w.threads[tid := w.threads[tid].(pc := Call(|w.db.attempts|))]
    requires Owes(w.threads[tid]).None?
    ensures NothingTorn(v)
  {
    var n, a := |w.db.attempts|, w.threads[tid].actionId;
    assert forall k :: 0 <= k < n ==> v.db.attempts[k] == w.db.attempts[k] && v.trail[k] == w.trail[k];
    forall k: nat | Beginning(v.db, k) ensures OwedByOwner(v, k) {
      if k < n {
        assert v.db.attempts[n].actionId == a;
        assert w.db.attempts[k].actionId != a && Newest(w.db.attempts, k);
        assert Beginning(w.db, k) && OwedByOwner(w, k);
      }
    }
    forall k: nat | Unwritten(v.db, k) ensures OwedByConcluder(v, k) {
      assert k < n && Unwritten(w.db, k) && OwedByConcluder(w, k);
    }
  }

  lemma TransitionStaysWhole(w: World, tid: nat, k: nat, to: Status, at: Instant)
    requires Inv(w) && NothingTorn(w) && HasPc(w, tid) && w.threads[tid].pc == Transition(k, to, at)
    ensures NothingTorn(RequestStep(w, tid))
  {
    var v := RequestStep(w, tid);
    MoveStatusKeeps(w, tid, k, to, at);
    assert ThreadOk(w.db, w.trail, tid, w.threads[tid]);
    forall j: nat | Unwritten(v.db, j) ensures Unwritten(w.db, j) {
      assert AttemptOk(w.db, w.trail, j);
      if w.db.attempts[j].actionId == w.threads[tid].actionId {
        NotBenignIsNewest(w.db, w.trail, j);
        assert false;
      }
    }
    assert to != Reversing;
    StepStaysWhole(w, v, tid);
  }

  lemma RequestStaysWhole(w: World, tid: nat)
    requires Inv(w) && NothingTorn(w) && HasPc(w, tid) && Enabled(w, LStep(tid))
    ensures NothingTorn(RequestStep(w, tid))
  {
    hide Apply, Enabled, Inv, RequestStep;
    var pc := w.threads[tid].pc;
    if pc.BeginTx? { BeginStaysWhole(w, tid); }
    else if pc.Transition? { TransitionStaysWhole(w, tid, pc.settled, pc.to, pc.at); }
    else {
      PlainRequestStep(w, tid);
      hide NothingTorn;
      StepStaysWhole(w, RequestStep(w, tid), tid);
    }
  }

  lemma PlainRequestStep(w: World, tid: nat)
    requires HasPc(w, tid) && Enabled(w, LStep(tid)) && !w.threads[tid].pc.BeginTx? && !w.threads[tid].pc.Transition?
    ensures var v := RequestStep(w, tid);
      && SameRows(w, v) && OthersStay(w, v, tid) && PaysOrOwes(w, v, tid)
      && (forall k: nat :: StatusOf(v.db, k, Reversing) ==> StatusOf(w.db, k, Reversing))
      && (forall k: nat :: Unwritten(v.db, k) ==> Unwritten(w.db, k))
  {
    if !w.threads[tid].pc.Poll? { RequestStepMoves(w, tid); }
    hide RequestStep;
  }

  lemma InVocabularySettles(ret: ProviderReturn)
    requires InVocabulary(ret)
    ensures !Settle(ret).Unrecognised?
  {
  }

  lemma SettlesUnparked(db: Tables, trail: seq<Trail>, k: nat, ret: ProviderReturn, at: Instant)
    requires k < |db.attempts| && k < |trail| && AttemptOk(db, trail, k)
    requires db.attempts[k].state == Running && trail[k].returned == Some(ret) && !Settle(ret).Unrecognised?
    ensures var next := RecordSettlement(db, k, Settle(ret), at);
      && k < |next.attempts| && (next.attempts[k].state == Concluded ==> !Parked(next.attempts[k]))
  {
    SettledRow(db, trail, k, Settle(ret), ret, at);
    hide *;
  }

  lemma RecordedRow(w: World, tid: nat, at: Instant)
    requires Inv(w) && Enabled(w, LRecord(tid, at)) && !Settle(w.threads[tid].pc.ret).Unrecognised?
    ensures var v := Apply(w, LRecord(tid, at));
      var k := w.threads[tid].pc.recording;
      && |w.trail| == |w.db.attempts| && k < |w.db.attempts| && k < |v.db.attempts|
      && (v.db.attempts[k].state == Concluded ==> !Parked(v.db.attempts[k]))
  {
    hide Inv;
    var k, ret := w.threads[tid].pc.recording, w.threads[tid].pc.ret;
    hide Settle, RecordSettlement, AttemptOk, Parked, ResultOf, AnswerOf, ThreadOk;
    RecordingIsRunning(w, tid, k, ret);
    SettlesUnparked(w.db, w.trail, k, ret, at);
  }

  lemma RecordStaysWhole(w: World, tid: nat, at: Instant)
    requires Inv(w) && NothingTorn(w) && Enabled(w, LRecord(tid, at)) && CleanLabel(w, LRecord(tid, at))
    ensures NothingTorn(Apply(w, LRecord(tid, at)))
  {
    var v := Apply(w, LRecord(tid, at));
    var k, ret := w.threads[tid].pc.recording, w.threads[tid].pc.ret;
    InVocabularySettles(ret);
    RecordStepMoves(w, tid, at);
    RecordedRow(w, tid, at);
    hide Apply, Enabled, Inv, NothingTorn, Settle, RecordMoves;
    RecordedStaysWhole(w, v, tid, k, ret);
  }

  lemma RecordedStaysWhole(w: World, v: World, tid: nat, k: nat, ret: ProviderReturn)
    requires NothingTorn(w) && tid in w.threads && w.threads[tid].Request? && w.threads[tid].pc == Record(k, ret)
    requires RecordMoves(w, v, tid, k, ret) && !Settle(ret).Unrecognised?
    requires k < |w.db.attempts| && k < |v.db.attempts| && |w.trail| == |w.db.attempts|
    requires v.db.attempts[k].state == Concluded ==> !Parked(v.db.attempts[k])
    ensures NothingTorn(v)
  {
    assert forall j: nat :: Unwritten(v.db, j) ==> Unwritten(w.db, j);
    StepStaysWhole(w, v, tid);
  }

  lemma ConcludedStaysWhole(w: World, v: World, tid: nat, k: nat)
    requires NothingTorn(w) && tid in w.threads && w.threads[tid].Reconciler? && w.threads[tid].rpc.RecConclude?
    requires ConcludeMoves(w, v, tid, k) && |w.trail| == |w.db.attempts|
    ensures NothingTorn(v)
  {
    SameActions(w.db.attempts, v.db.attempts);
    forall j: nat | Beginning(v.db, j) ensures OwedByOwner(v, j) {
      assert Beginning(w.db, j) && OwedByOwner(w, j);
    }
    forall j: nat | Unwritten(v.db, j) ensures OwedByConcluder(v, j) {
      if j != k || !IsOpen(w.db.attempts[k]) {
        assert Unwritten(w.db, j) && OwedByConcluder(w, j);
      }
    }
  }

  lemma ConcludeStaysWhole(w: World, tid: nat, at: Instant)
    requires Inv(w) && NothingTorn(w) && Enabled(w, LRecConclude(tid, at))
    ensures NothingTorn(Apply(w, LRecConclude(tid, at)))
  {
    hide Apply;
    var k := w.threads[tid].rpc.attempt;
    RecConcludeMoves(w, tid, at);
    assert w.threads[tid].rpc.RecConclude?;
    assert |w.trail| == |w.db.attempts|;
    hide Enabled, Inv, NothingTorn, ConcludeMoves;
    ConcludedStaysWhole(w, Apply(w, LRecConclude(tid, at)), tid, k);
  }

  lemma ReconcilerStaysWhole(w: World, tid: nat)
    requires Inv(w) && NothingTorn(w) && HasRpc(w, tid) && Enabled(w, LStep(tid))
    ensures NothingTorn(ReconcileStep(w, tid))
  {
    assert ThreadOk(w.db, w.trail, tid, w.threads[tid]);
    ReconcileStepMoves(w, tid);
    ReconcilerPays(w, ReconcileStep(w, tid), tid);
    hide Apply, Enabled, Inv, NothingTorn, ReconcileStep;
    StepStaysWhole(w, ReconcileStep(w, tid), tid);
  }

  lemma ReconcilerPays(w: World, v: World, tid: nat)
    requires tid in w.threads && w.threads[tid].Reconciler? && ReconcilerMoves(w, v, tid)
    requires w.threads[tid].rpc.RecUpdate? ==>
      Uncertain(w.db, w.threads[tid].scope, w.threads[tid].actionId, w.threads[tid].rpc.attempt)
    requires w.threads[tid].rpc.RecUpdate? && v.db == w.db ==> !Unwritten(w.db, w.threads[tid].rpc.attempt)
    ensures SameRows(w, v) && OthersStay(w, v, tid) && PaysOrOwes(w, v, tid)
    ensures forall k: nat :: StatusOf(v.db, k, Reversing) ==> StatusOf(w.db, k, Reversing)
    ensures forall k: nat :: Unwritten(v.db, k) ==> Unwritten(w.db, k)
  {
  }

  /** Recovery finds nothing to do unless something crashed before. */
  lemma RecoveryStaysWhole(w: World)
    requires Inv(w) && NothingTorn(w) && w.phase.Recovering?
    ensures NothingTorn(RecoverStep(w))
  {
    var p := w.phase;
    if p.pending != [] {
      var k := p.pending[0];
      assert AttemptOk(w.db, w.trail, k);
      NotBenignIsNewest(w.db, w.trail, k);
      OpenIsOwed(w, k);
      assert false;
    }
  }

  lemma OpenIsOwed(w: World, k: nat)
    requires NothingTorn(w) && StatusOf(w.db, k, Reversing) && Newest(w.db.attempts, k)
    ensures OwedByOwner(w, k)
  {
  }

  lemma RestartStaysWhole(w: World, now: Instant)
    requires NothingTorn(w) && Enabled(w, LRestart(now))
    ensures NothingTorn(Apply(w, LRestart(now)))
  {
  }

  lemma ThreadsLeaveRows(w: World, l: Label)
    requires Enabled(w, l) && (l.LStart? || l.LReconcile? || l.LPoll? || l.LLookup?)
    ensures var v := Apply(w, l); v.db == w.db && SameRows(w, v) && OthersStay(w, v, l.tid) && PaysOrOwes(w, v, l.tid)
  {
    hide RequestStep, ReconcileStep, RecoverStep, CallProvider, RecordReturn, ConcludeReconciled;
  }

  lemma ThreadsStayWhole(w: World, l: Label)
    requires NothingTorn(w) && Enabled(w, l) && (l.LStart? || l.LReconcile? || l.LPoll? || l.LLookup?)
    ensures NothingTorn(Apply(w, l))
  {
    ThreadsLeaveRows(w, l);
    hide Apply, Enabled, NothingTorn;
    StepStaysWhole(w, Apply(w, l), l.tid);
  }

  lemma StepIsWhole(w: World, l: Label)
    requires Inv(w) && NothingTorn(w) && Enabled(w, l) && CleanLabel(w, l)
    ensures NothingTorn(Apply(w, l))
  {
    hide RequestStep, ReconcileStep, RecoverStep, CallProvider, RecordReturn, ConcludeReconciled, Inv, NothingTorn;
    match l
    case LStep(tid) => if w.threads[tid].Request? { RequestStaysWhole(w, tid); } else { ReconcilerStaysWhole(w, tid); }
    case LRecord(tid, at) => RecordStaysWhole(w, tid, at);
    case LRecConclude(tid, at) => ConcludeStaysWhole(w, tid, at);
    case LRecover => RecoveryStaysWhole(w);
    case LStart(_, _, _, _, _) => ThreadsStayWhole(w, l);
    case LReconcile(_, _, _, _) => ThreadsStayWhole(w, l);
    case LPoll(_, _) => ThreadsStayWhole(w, l);
    case LLookup(_, _) => ThreadsStayWhole(w, l);
    case LCall(tid, ret, effect) => CallStaysWhole(w, tid, ret, effect);
    case LRestart(_) => RestartStaysWhole(w, l.now);
    case _ => BusinessStaysWhole(w, l);
  }

  lemma CallLeavesRows(w: World, tid: nat, ret: ProviderReturn, effect: bool)
    requires Enabled(w, LCall(tid, ret, effect))
    ensures var v := Apply(w, LCall(tid, ret, effect));
      && v.db.actions == w.db.actions && v.db.attempts == w.db.attempts
      && SameRows(w, v) && OthersStay(w, v, tid) && PaysOrOwes(w, v, tid)
  {
    hide ProviderMay;
  }

  lemma CallStaysWhole(w: World, tid: nat, ret: ProviderReturn, effect: bool)
    requires Inv(w) && NothingTorn(w) && Enabled(w, LCall(tid, ret, effect))
    ensures NothingTorn(Apply(w, LCall(tid, ret, effect)))
  {
    var v := Apply(w, LCall(tid, ret, effect));
    CallLeavesRows(w, tid, ret, effect);
    hide Apply, Enabled, Inv, NothingTorn;
    StepStaysWhole(w, v, tid);
  }

  lemma {:induction false} CleanRunIsWhole(w: World, ls: seq<Label>)
    requires Inv(w) && NothingTorn(w) && CanRun(w, ls) && CleanRun(w, ls)
    ensures Inv(Run(w, ls)) && NothingTorn(Run(w, ls))
    decreases |ls|
  {
    hide Apply, Enabled, Inv, NothingTorn, CleanLabel;
    if ls != [] {
      StepKeeps(w, ls[0]);
      StepIsWhole(w, ls[0]);
      CleanRunIsWhole(Apply(w, ls[0]), ls[1..]);
    }
  }

  /** The statuses that match an attempt's state and result exactly. */
  function Matching(row: AttemptRow): set<Status> {
    match row.state
    case Pending => {}
    case Running => {}
    case Awaiting => {OutcomeUnknown}
    case Concluded =>
      match row.observed
      case None => {}
      case Some(ObsConflict) => {Applied, Expired}
      case Some(ObsReversed) => {Reversed}
      case Some(ObsPartiallyReversed) => {PartiallyReversed}
      case Some(ObsReverseFailed) => if row.retryClass == Some(Retryable) then {Applied, Expired} else {ReverseFailed}
  }

  /** When a run without crashes and abandoned threads has no work in flight, every newest
      attempt and its Action's status match exactly; if proven lookups contradicted each
      other, the status is one of the two that were proven. */
  lemma CleanRunsTearNothing(ls: seq<Label>, k: nat)
    requires CanRun(INIT, ls) && CleanRun(INIT, ls) && Run(INIT, ls).threads == map[]
    requires k < |Run(INIT, ls).db.attempts| && Newest(Run(INIT, ls).db.attempts, k)
    ensures var db := Run(INIT, ls).db;
      && db.attempts[k].actionId < |db.actions|
      && var status := db.actions[db.attempts[k].actionId].status;
        || status in Matching(db.attempts[k])
        || (Contradictory(db, k) && ParkedAndConcluded(db.attempts[k]) && status in {Reversed, ReverseFailed})
  {
    CleanRunIsWhole(INIT, ls);
    var w := Run(INIT, ls);
    assert AttemptOk(w.db, w.trail, k);
    assert !Beginning(w.db, k) && !Unwritten(w.db, k) by {
      assert !OwedByOwner(w, k) && !OwedByConcluder(w, k);
    }
    hide Run, CanRun, CleanRun;
  }

  /** And then no attempt at all is RUNNING and no Action REVERSING, contradictions or not. */
  lemma CleanRunsFinish(ls: seq<Label>)
    requires CanRun(INIT, ls) && CleanRun(INIT, ls) && Run(INIT, ls).threads == map[]
    ensures var db := Run(INIT, ls).db;
      && (forall k :: 0 <= k < |db.attempts| ==> db.attempts[k].state != Running)
      && (forall a :: 0 <= a < |db.actions| ==> db.actions[a].status != Reversing)
  {
    CleanRunIsWhole(INIT, ls);
    var w := Run(INIT, ls);
    hide Run, CanRun, CleanRun;
    NothingUnfinished(w);
  }

  lemma NothingUnfinished(w: World)
    requires Inv(w) && NothingTorn(w) && w.threads == map[]
    ensures forall k :: 0 <= k < |w.db.attempts| ==> w.db.attempts[k].state != Running
    ensures forall a :: 0 <= a < |w.db.actions| ==> w.db.actions[a].status != Reversing
  {
    forall a: nat | a < |w.db.actions| ensures w.db.actions[a].status != Reversing {
      if w.db.actions[a].status == Reversing {
        assert !Untouched(w.db.attempts, a);
        var k := NewestExists(w.db.attempts, a);
        OpenIsOwed(w, k);
        assert false;
      }
    }
    forall k: nat | k < |w.db.attempts| ensures w.db.attempts[k].state != Running {
      assert AttemptOk(w.db, w.trail, k);
    }
  }

  // ------------------------------------------------------------- torn for ever

  predicate AtTransition(t: Thread, k: nat) {
    t.Request? && t.pc.Transition? && t.pc.settled == k
  }

  /** The attempt is settled, its Action is still REVERSING, and nobody will write its status. */
  ghost predicate Torn(w: World, k: nat) {
    && Beginning(w.db, k) && w.db.attempts[k].state != Running
    && (forall tid :: tid in w.threads ==> !AtTransition(w.threads[tid], k))
    && !(w.phase.Recovering? && w.phase.marked && w.phase.pending != [] && w.phase.pending[0] == k)
  }

  lemma NobodyWorksOn(w: World, k: nat, tid: nat)
    requires Inv(w) && Torn(w, k) && tid in w.threads
    ensures IsOwner(w.threads[tid]) ==>
      w.threads[tid].actionId != w.db.attempts[k].actionId && Owes(w.threads[tid]) != Some(k)
    ensures w.threads[tid].Reconciler? && w.threads[tid].rpc.RecConclude? ==> w.threads[tid].rpc.attempt != k
    ensures w.threads[tid].Reconciler? && w.threads[tid].rpc.RecUpdate? ==> w.threads[tid].rpc.attempt != k
  {
  }

  lemma TornStays(w: World, l: Label, k: nat)
    requires Inv(w) && Enabled(w, l) && Torn(w, k)
    ensures var v := Apply(w, l); Torn(v, k) && v.db.attempts[k] == w.db.attempts[k]
  {
    hide RequestStep, ReconcileStep, RecoverStep, CallProvider, RecordReturn, ConcludeReconciled, Torn;
    match l
    case LStep(tid) =>
      NobodyWorksOn(w, k, tid);
      if w.threads[tid].Request? { RequestLeavesTorn(w, tid, k); } else { ReconcilerLeavesTorn(w, tid, k); }
    case LRecord(tid, at) =>
      NobodyWorksOn(w, k, tid);
      RecordLeavesTorn(w, tid, at, k);
    case LRecConclude(tid, at) =>
      NobodyWorksOn(w, k, tid);
      ConcludeLeavesTorn(w, tid, at, k);
    case LRecover => RecoveryLeavesTorn(w, k);
    case LCall(tid, ret, effect) => CallLeavesTorn(w, tid, ret, effect, k);
    case _ => OthersLeaveTorn(w, l, k);
  }

  lemma ConcludeLeavesTorn(w: World, tid: nat, at: Instant, k: nat)
    requires Enabled(w, LRecConclude(tid, at)) && Torn(w, k) && w.threads[tid].rpc.attempt != k
    ensures var v := Apply(w, LRecConclude(tid, at)); Torn(v, k) && v.db.attempts[k] == w.db.attempts[k]
  {
  }

  lemma OthersLeaveTorn(w: World, l: Label, k: nat)
    requires Enabled(w, l) && Torn(w, k)
    requires !l.LStep? && !l.LRecord? && !l.LRecConclude? && !l.LRecover? && !l.LCall?
    ensures var v := Apply(w, l); Torn(v, k) && v.db.attempts[k] == w.db.attempts[k]
  {
  }

  lemma CallLeavesTorn(w: World, tid: nat, ret: ProviderReturn, effect: bool, k: nat)
    requires Enabled(w, LCall(tid, ret, effect)) && Torn(w, k)
    ensures var v := Apply(w, LCall(tid, ret, effect)); Torn(v, k) && v.db.attempts[k] == w.db.attempts[k]
  {
  }

  lemma RecordedLeavesTorn(w: World, v: World, tid: nat, j: nat, ret: ProviderReturn, k: nat)
    requires Torn(w, k) && j != k && tid in w.threads && w.threads[tid].Request? && RecordMoves(w, v, tid, j, ret)
    ensures Torn(v, k) && v.db.attempts[k] == w.db.attempts[k]
  {
  }

  lemma RecordLeavesTorn(w: World, tid: nat, at: Instant, k: nat)
    requires Inv(w) && Enabled(w, LRecord(tid, at)) && Torn(w, k) && Owes(w.threads[tid]) != Some(k)
    ensures var v := Apply(w, LRecord(tid, at)); Torn(v, k) && v.db.attempts[k] == w.db.attempts[k]
  {
    var v := Apply(w, LRecord(tid, at));
    RecordStepMoves(w, tid, at);
    hide Apply, Enabled, Inv, Torn, RecordMoves;
    RecordedLeavesTorn(w, v, tid, w.threads[tid].pc.recording, w.threads[tid].pc.ret, k);
  }

  /** The same journal as far as attempt k is concerned, and no thread newly at its transition. */
  ghost predicate LeavesAlone(w: World, v: World, k: nat) {
    && v.phase == w.phase
    && (forall i :: i in v.threads ==>
          (i in w.threads && v.threads[i] == w.threads[i]) || !AtTransition(v.threads[i], k))
    && w.db.attempts <= v.db.attempts
    && (forall j :: |w.db.attempts| <= j < |v.db.attempts| ==>
          !StatusOf(w.db, k, Reversing) || v.db.attempts[j].actionId != w.db.attempts[k].actionId)
    && (StatusOf(w.db, k, Reversing) ==> StatusOf(v.db, k, Reversing))
  }

  lemma LeftAloneStaysTorn(w: World, v: World, k: nat)
    requires Torn(w, k) && LeavesAlone(w, v, k)
    ensures Torn(v, k) && v.db.attempts[k] == w.db.attempts[k]
  {
  }

  lemma RequestNeverEnters(w: World, tid: nat, k: nat)
    requires HasPc(w, tid) && Enabled(w, LStep(tid))
    ensures var v := RequestStep(w, tid);
      && v.phase == w.phase
      && (forall i :: i in v.threads ==>
            (i in w.threads && v.threads[i] == w.threads[i]) || !AtTransition(v.threads[i], k))
      && (!w.threads[tid].pc.BeginTx? && !w.threads[tid].pc.Transition? && !w.threads[tid].pc.SweepRows? ==>
            v.db == w.db)
  {
    RequestStepMoves(w, tid);
    hide RequestStep;
  }

  lemma BeginLeavesAlone(w: World, tid: nat, k: nat)
    requires HasPc(w, tid) && w.threads[tid].pc.BeginTx? && Torn(w, k)
    ensures LeavesAlone(w, RequestStep(w, tid), k)
  {
    var t := w.threads[tid];
    RequestStepMoves(w, tid);
    if Begin(w.db, t.scope, t.actionId, t.key, t.now).Written? {
      BeginShape(w.db, t.scope, t.actionId, t.key, t.now);
    }
    hide RequestStep, Begin;
  }

  lemma TransitionLeavesAlone(w: World, tid: nat, k: nat)
    requires Inv(w) && HasPc(w, tid) && w.threads[tid].pc.Transition? && Torn(w, k)
    requires w.threads[tid].actionId != w.db.attempts[k].actionId
    ensures LeavesAlone(w, RequestStep(w, tid), k)
  {
    var pc := w.threads[tid].pc;
    MoveStatusKeeps(w, tid, pc.settled, pc.to, pc.at);
    hide Inv, MoveStatus, UpdateStatus;
  }

  lemma PlainLeavesAlone(w: World, tid: nat, k: nat)
    requires HasPc(w, tid) && Enabled(w, LStep(tid)) && Torn(w, k)
    requires !w.threads[tid].pc.BeginTx? && !w.threads[tid].pc.Transition?
    ensures LeavesAlone(w, RequestStep(w, tid), k)
  {
    RequestNeverEnters(w, tid, k);
    if w.threads[tid].pc.SweepRows? { SweepLeavesAlone(w, tid, k); }
    hide RequestStep;
  }

  lemma SweepLeavesAlone(w: World, tid: nat, k: nat)
    requires HasPc(w, tid) && w.threads[tid].pc.SweepRows?
    ensures var v := RequestStep(w, tid);
      v.db.attempts == w.db.attempts && (StatusOf(w.db, k, Reversing) ==> StatusOf(v.db, k, Reversing))
  {
  }

  lemma RequestLeavesTorn(w: World, tid: nat, k: nat)
    requires Inv(w) && HasPc(w, tid) && Enabled(w, LStep(tid)) && Torn(w, k)
    requires IsOwner(w.threads[tid]) ==> w.threads[tid].actionId != w.db.attempts[k].actionId
    ensures var v := RequestStep(w, tid); Torn(v, k) && v.db.attempts[k] == w.db.attempts[k]
  {
    var t := w.threads[tid];
    hide RequestStep, Inv, Torn, LeavesAlone;
    if t.pc.BeginTx? {
      BeginLeavesAlone(w, tid, k);
    } else if t.pc.Transition? {
      TransitionLeavesAlone(w, tid, k);
    } else {
      PlainLeavesAlone(w, tid, k);
    }
    LeftAloneStaysTorn(w, RequestStep(w, tid), k);
  }

  lemma ReconcilerLeavesTorn(w: World, tid: nat, k: nat)
    requires HasRpc(w, tid) && Enabled(w, LStep(tid)) && Torn(w, k)
    ensures var v := ReconcileStep(w, tid); Torn(v, k) && v.db.attempts[k] == w.db.attempts[k]
  {
    var v := ReconcileStep(w, tid);
    assert LeavesAlone(w, v, k) by { ReconcilerLeavesAlone(w, tid, k); }
    hide ReconcileStep, Enabled, Torn, LeavesAlone;
    LeftAloneStaysTorn(w, v, k);
  }

  lemma ReconcilerLeavesAlone(w: World, tid: nat, k: nat)
    requires HasRpc(w, tid) && Enabled(w, LStep(tid))
    ensures LeavesAlone(w, ReconcileStep(w, tid), k)
  {
  }

  lemma RecoveryLeavesTorn(w: World, k: nat)
    requires Inv(w) && w.phase.Recovering? && Torn(w, k)
    ensures var v := RecoverStep(w); Torn(v, k) && v.db.attempts[k] == w.db.attempts[k]
  {
  }

  lemma {:induction false} TornStaysOverRuns(w: World, ls: seq<Label>, k: nat)
    requires Inv(w) && CanRun(w, ls) && Torn(w, k)
    ensures Torn(Run(w, ls), k) && Run(w, ls).db.attempts[k] == w.db.attempts[k]
    decreases |ls|
  {
    hide Apply, Enabled, Inv, Torn;
    if ls != [] {
      TornStays(w, ls[0], k);
      StepKeeps(w, ls[0]);
      TornStaysOverRuns(Apply(w, ls[0]), ls[1..], k);
    }
  }

  ghost predicate StaysTorn(db: Tables, next: Tables, k: nat, status: Status) {
    && k < |db.attempts| && k < |next.attempts| && next.attempts[k] == db.attempts[k]
    && StatusOf(next, k, status)
  }

  /** A crash between the two writes, or the loss of the request's thread there, is never
      repaired: whatever runs afterwards, recovery included, the Action is REVERSING and the
      attempt's row is what it was. */
  lemma LossTearsForever(w: World, tid: nat, k: nat, loss: Label, ls: seq<Label>)
    requires Reached(w) && HasPc(w, tid) && AtTransition(w.threads[tid], k)
    requires (loss == LCrash || loss == LAbandon(tid)) && CanRun(Apply(w, loss), ls)
    ensures StaysTorn(w.db, Run(Apply(w, loss), ls).db, k, Reversing)
  {
    ReachableInv(w);
    assert ThreadOk(w.db, w.trail, tid, w.threads[tid]);
    var u := Apply(w, loss);
    forall i | i in u.threads ensures !AtTransition(u.threads[i], k) {
      assert ThreadOk(w.db, w.trail, i, w.threads[i]);
    }
    assert Torn(u, k);
    StepKeeps(w, loss);
    hide Apply, Inv, Reached;
    TornStaysOverRuns(u, ls, k);
  }

  /** So does a crash between recovery's own two writes. */
  lemma RecoveryCrashTearsForever(w: World, ls: seq<Label>)
    requires Reached(w) && w.phase.Recovering? && w.phase.marked && w.phase.pending != []
    requires CanRun(Apply(w, LCrash), ls)
    ensures StaysTorn(w.db, Run(Apply(w, LCrash), ls).db, w.phase.pending[0], Reversing)
  {
    ReachableInv(w);
    var k := w.phase.pending[0];
    assert AttemptOk(w.db, w.trail, k);
    NotBenignIsNewest(w.db, w.trail, k);
    var u := Apply(w, LCrash);
    assert Torn(u, k);
    StepKeeps(w, LCrash);
    hide Apply, Inv, Reached;
    TornStaysOverRuns(u, ls, k);
  }

  // ------------------------------------------------- and reconciliation's two writes

  predicate Carries(t: Thread, k: nat) {
    t.Reconciler? &&
    match t.rpc
    case RecLookup(j) => j == k
    case RecObserve(j, _) => j == k
    case RecConclude(j, _) => j == k
    case RecUpdate(j, _, _) => j == k
    case _ => false
  }

  /** The proven conclusion is recorded, its Action is OUTCOME_UNKNOWN, and no round is left
      that would move it. */
  ghost predicate TornUnknown(w: World, k: nat) {
    Unwritten(w.db, k) && forall tid :: tid in w.threads ==> !Carries(w.threads[tid], k)
  }

  lemma OneUnknown(w: World, j: nat, k: nat)
    requires Inv(w) && Unwritten(w.db, k) && j < |w.db.attempts| && Parked(w.db.attempts[j])
    requires w.db.attempts[j].actionId == w.db.attempts[k].actionId
    ensures j == k
  {
    assert AttemptOk(w.db, w.trail, j) && AttemptOk(w.db, w.trail, k);
    NotBenignIsNewest(w.db, w.trail, j);
    NotBenignIsNewest(w.db, w.trail, k);
  }

  /** A guarded update from any other status. */
  lemma UpdateLeavesUnknown(db: Tables, scope: string, a: nat, from: Status, to: Status, at: Instant, k: nat)
    requires StatusOf(db, k, OutcomeUnknown) && from != OutcomeUnknown
    ensures var r := UpdateStatus(db, scope, a, from, to, at); r.Written? ==> StatusOf(r.db, k, OutcomeUnknown)
  {
  }

  lemma BeginLeavesUnknown(w: World, tid: nat, k: nat)
    requires HasPc(w, tid) && w.threads[tid].pc.BeginTx? && StatusOf(w.db, k, OutcomeUnknown)
    ensures StatusOf(RequestStep(w, tid).db, k, OutcomeUnknown)
  {
    var t := w.threads[tid];
    BeginMoves(w, tid);
    if Begin(w.db, t.scope, t.actionId, t.key, t.now).Written? {
      BeginShape(w.db, t.scope, t.actionId, t.key, t.now);
    }
    hide RequestStep, Begin;
  }

  lemma RequestLeavesUnknown(w: World, tid: nat, k: nat)
    requires HasPc(w, tid) && Enabled(w, LStep(tid)) && StatusOf(w.db, k, OutcomeUnknown)
    ensures StatusOf(RequestStep(w, tid).db, k, OutcomeUnknown)
  {
    var t := w.threads[tid];
    match t.pc
    case BeginTx => BeginLeavesUnknown(w, tid, k);
    case SweepRows(due) =>
      if due != [] {
        var scope := if due[0] < |w.db.actions| then w.db.actions[due[0]].scope else "";
        UpdateLeavesUnknown(w.db, scope, due[0], Applied, Expired, t.now, k);
      }
      hide UpdateStatus, StatusOf;
    case Transition(_, to, at) =>
      UpdateLeavesUnknown(w.db, t.scope, t.actionId, Reversing, to, at, k);
      hide UpdateStatus, StatusOf;
    case _ =>
      RequestStepMoves(w, tid);
      hide RequestStep, StatusOf;
  }

  lemma OthersAreUncertain(w: World, tid: nat, k: nat)
    requires Inv(w) && HasRpc(w, tid) && w.threads[tid].rpc.RecUpdate? && TornUnknown(w, k)
    ensures w.threads[tid].actionId != w.db.attempts[k].actionId
  {
    var t := w.threads[tid];
    assert ThreadOk(w.db, w.trail, tid, t);
    if t.actionId == w.db.attempts[k].actionId {
      OneUnknown(w, t.rpc.attempt, k);
      assert false;
    }
  }

  lemma UpdateOfAnother(db: Tables, scope: string, a: nat, from: Status, to: Status, at: Instant, k: nat)
    requires StatusOf(db, k, OutcomeUnknown) && a != db.attempts[k].actionId
    ensures var r := UpdateStatus(db, scope, a, from, to, at); r.Written? ==> StatusOf(r.db, k, OutcomeUnknown)
  {
  }

  lemma RoundOfAnother(w: World, tid: nat, k: nat)
    requires HasRpc(w, tid) && w.threads[tid].rpc.RecUpdate? && StatusOf(w.db, k, OutcomeUnknown)
    requires w.threads[tid].actionId != w.db.attempts[k].actionId
    ensures StatusOf(ReconcileStep(w, tid).db, k, OutcomeUnknown)
  {
    var t := w.threads[tid];
    if t.rpc.evidence != Inconclusive {
      UpdateOfAnother(w.db, t.scope, t.actionId, OutcomeUnknown, ProvenStatus(t.rpc.evidence), t.rpc.at, k);
    }
    hide UpdateStatus, StatusOf;
  }

  lemma OtherRoundsLeaveUnknown(w: World, tid: nat, k: nat)
    requires HasRpc(w, tid) && Enabled(w, LStep(tid)) && !w.threads[tid].rpc.RecUpdate?
    requires StatusOf(w.db, k, OutcomeUnknown)
    ensures StatusOf(ReconcileStep(w, tid).db, k, OutcomeUnknown)
  {
    ReconcileStepMoves(w, tid);
    hide ReconcileStep;
  }

  lemma ReconcilerLeavesUnknown(w: World, tid: nat, k: nat)
    requires Inv(w) && HasRpc(w, tid) && Enabled(w, LStep(tid)) && TornUnknown(w, k)
    ensures StatusOf(ReconcileStep(w, tid).db, k, OutcomeUnknown)
  {
    hide ReconcileStep, Inv, StatusOf;
    if w.threads[tid].rpc.RecUpdate? {
      OthersAreUncertain(w, tid, k);
      RoundOfAnother(w, tid, k);
    } else {
      OtherRoundsLeaveUnknown(w, tid, k);
    }
  }

  lemma RecoveryLeavesUnknown(w: World, k: nat)
    requires Inv(w) && w.phase.Recovering? && Unwritten(w.db, k)
    ensures StatusOf(RecoverStep(w).db, k, OutcomeUnknown)
  {
    if w.phase.pending != [] && w.phase.marked { RecoveryMovesOn(w); }
  }

  lemma OthersLeaveUnknown(w: World, l: Label, k: nat)
    requires Enabled(w, l) && !l.LStep? && !l.LRecover? && StatusOf(w.db, k, OutcomeUnknown)
    ensures StatusOf(Apply(w, l).db, k, OutcomeUnknown)
  {
    if l.LRecord? {
      assert l == LRecord(l.tid, l.at);
      RecordStepMoves(w, l.tid, l.at);
      hide Apply;
    } else if l.LRecConclude? {
      assert l == LRecConclude(l.tid, l.at);
      RecConcludeMoves(w, l.tid, l.at);
      hide Apply;
    }
  }

  /** A round picks up open attempts only. */
  lemma RoundPicksUpOpen(w: World, tid: nat, k: nat)
    requires HasRpc(w, tid) && !Carries(w.threads[tid], k) && tid in ReconcileStep(w, tid).threads
    requires k < |w.db.attempts| && w.db.attempts[k].state == Concluded
    ensures !Carries(ReconcileStep(w, tid).threads[tid], k)
  {
  }

  lemma StepPicksUpOpen(w: World, tid: nat, k: nat, i: nat)
    requires Enabled(w, LStep(tid)) && k < |w.db.attempts| && w.db.attempts[k].state == Concluded
    requires i in Apply(w, LStep(tid)).threads && (i in w.threads ==> !Carries(w.threads[i], k))
    ensures !Carries(Apply(w, LStep(tid)).threads[i], k)
  {
    if w.threads[tid].Request? {
      RequestStepMoves(w, tid);
      hide RequestStep;
    } else if i == tid {
      RoundPicksUpOpen(w, tid, k);
    } else {
      ReconcileStepMoves(w, tid);
      hide ReconcileStep;
    }
  }

  lemma RecordersPickUpNothing(w: World, l: Label, k: nat, i: nat)
    requires Enabled(w, l) && (l.LRecord? || l.LRecConclude?)
    requires i in Apply(w, l).threads && (i in w.threads ==> !Carries(w.threads[i], k))
    ensures !Carries(Apply(w, l).threads[i], k)
  {
    if l.LRecord? {
      assert l == LRecord(l.tid, l.at);
      RecordStepMoves(w, l.tid, l.at);
    } else {
      assert l == LRecConclude(l.tid, l.at);
      RecConcludeMoves(w, l.tid, l.at);
    }
    hide Apply, Settle;
  }

  lemma CallPicksUpNothing(w: World, tid: nat, ret: ProviderReturn, effect: bool, k: nat, i: nat)
    requires Enabled(w, LCall(tid, ret, effect)) && i in Apply(w, LCall(tid, ret, effect)).threads
    requires i in w.threads ==> !Carries(w.threads[i], k)
    ensures !Carries(Apply(w, LCall(tid, ret, effect)).threads[i], k)
  {
  }

  lemma NobodyPicksUp(w: World, l: Label, k: nat, i: nat)
    requires Enabled(w, l) && k < |w.db.attempts| && w.db.attempts[k].state == Concluded
    requires i in Apply(w, l).threads && (i in w.threads ==> !Carries(w.threads[i], k))
    ensures !Carries(Apply(w, l).threads[i], k)
  {
    hide RequestStep, ReconcileStep, RecordReturn, ConcludeReconciled, RecoverStep, CallProvider;
    match l
    case LStep(tid) => StepPicksUpOpen(w, tid, k, i);
    case LRecord(_, _) => RecordersPickUpNothing(w, l, k, i);
    case LRecConclude(_, _) => RecordersPickUpNothing(w, l, k, i);
    case LRecover => RecoverMovesNobody(w);
    case LCall(tid, ret, effect) => CallPicksUpNothing(w, tid, ret, effect, k, i);
    case _ =>
  }

  lemma StatusStaysUnknown(w: World, l: Label, k: nat)
    requires Inv(w) && Enabled(w, l) && TornUnknown(w, k)
    ensures StatusOf(Apply(w, l).db, k, OutcomeUnknown)
  {
    hide Inv, StatusOf, RequestStep, ReconcileStep, RecoverStep;
    if l.LStep? {
      if w.threads[l.tid].Request? { RequestLeavesUnknown(w, l.tid, k); } else { ReconcilerLeavesUnknown(w, l.tid, k); }
    } else if l.LRecover? {
      RecoveryLeavesUnknown(w, k);
    } else {
      OthersLeaveUnknown(w, l, k);
    }
  }

  lemma UnknownStays(w: World, l: Label, k: nat)
    requires Inv(w) && Enabled(w, l) && TornUnknown(w, k)
    ensures var v := Apply(w, l); TornUnknown(v, k) && v.db.attempts[k] == w.db.attempts[k]
  {
    var v := Apply(w, l);
    StepGrows(w, l);
    StatusStaysUnknown(w, l, k);
    forall i | i in v.threads ensures !Carries(v.threads[i], k) {
      NobodyPicksUp(w, l, k, i);
    }
    hide Apply, Enabled, Inv, Carries, StatusOf;
    assert v.db.attempts[..|w.db.attempts|][k] == v.db.attempts[k];
  }

  lemma {:induction false} UnknownStaysOverRuns(w: World, ls: seq<Label>, k: nat)
    requires Inv(w) && CanRun(w, ls) && TornUnknown(w, k)
    ensures TornUnknown(Run(w, ls), k) && Run(w, ls).db.attempts[k] == w.db.attempts[k]
    decreases |ls|
  {
    hide Apply, Enabled, Inv, TornUnknown;
    if ls != [] {
      UnknownStays(w, ls[0], k);
      StepKeeps(w, ls[0]);
      UnknownStaysOverRuns(Apply(w, ls[0]), ls[1..], k);
    }
  }

  /** A crash between a round's conclusion and its status write leaves an outcome that was
      proven and stays unknown: later rounds find nothing open to look up. */
  lemma ReconciliationCrashTearsForever(w: World, k: nat, ls: seq<Label>)
    requires Reached(w) && Unwritten(w.db, k) && CanRun(Apply(w, LCrash), ls)
    ensures StaysTorn(w.db, Run(Apply(w, LCrash), ls).db, k, OutcomeUnknown)
  {
    ReachableInv(w);
    var u := Apply(w, LCrash);
    assert u.db == w.db && TornUnknown(u, k);
    StepKeeps(w, LCrash);
    hide Apply, Enabled, Inv, Reached, TornUnknown, CanRun, Run;
    UnknownStaysOverRuns(u, ls, k);
  }
}
