/** What one step of one thread can change, whatever the thread is doing. */
module Steps {
  import opened Domain
  import opened Timestamp
  import opened Records
  import opened Protocol
  import opened Dependency

  /** All threads but this one are as they were. */
  ghost predicate OnlyThread(w: World, v: World, tid: nat) {
    && (forall i :: i in v.threads && i != tid ==> i in w.threads && v.threads[i] == w.threads[i])
    && (forall i :: i in w.threads && i != tid ==> i in v.threads)
  }

  predicate SameRequest(t: Thread, u: Thread) {
    && t.Request? && u.Request?
    && u.scope == t.scope && u.actionId == t.actionId && u.key == t.key && u.now == t.now
  }

  /** The key named this attempt when it was looked up. */
  predicate FoundKey(db: Tables, t: Thread, k: nat) {
    t.Request? && t.key.Some? && GetKey(db, t.scope, t.key.value).Some?
    && GetKey(db, t.scope, t.key.value).value.attemptId == k
    && GetKey(db, t.scope, t.key.value).value.fingerprint == Fingerprint(t.scope, t.actionId)
  }

  /** A step of a request that neither polls, calls nor records. */
  ghost predicate RequestMoves(w: World, v: World, tid: nat)
    requires tid in w.threads && w.threads[tid].Request?
  {
    var t := w.threads[tid];
    && v.phase == w.phase && v.answers == w.answers && v.wrote == w.wrote && OnlyThread(w, v, tid)
    && v.db.resources == w.db.resources && v.db.notifications == w.db.notifications && v.db.edges == w.db.edges
    && v.db.observations == w.db.observations && |v.db.actions| == |w.db.actions|
    && (tid in v.threads ==>
          && SameRequest(t, v.threads[tid])
          && !v.threads[tid].pc.Transition? && !v.threads[tid].pc.Record? && !v.threads[tid].pc.PollAction?
          && (v.threads[tid].pc.Poll? ==> FoundKey(w.db, t, v.threads[tid].pc.seen))
          && (v.threads[tid].pc.Call? ==> t.pc.BeginTx?))
    && (!t.pc.BeginTx? ==> v.trail == w.trail && v.db.attempts == w.db.attempts && v.db.keys == w.db.keys)
    && (!t.pc.BeginTx? && !t.pc.Transition? && !t.pc.SweepRows? ==> v.db == w.db)
    && (t.pc.BeginTx? ==>
          var begun := Begin(w.db, t.scope, t.actionId, t.key, t.now);
          if begun.Written? then
            && v.db == begun.db && v.trail == w.trail + [Trail(tid, 0, false, None, None)]
            && v.threads == w.threads[tid := t.(pc := Call(|w.db.attempts|))]
          else v.db == w.db && v.trail == w.trail && (tid in v.threads ==> v.threads[tid].pc == LostRace))
  }

  lemma SweepMoves(w: World, tid: nat)
    requires HasPc(w, tid) && (w.threads[tid].pc.SweepSelect? || w.threads[tid].pc.SweepRows?)
    ensures RequestMoves(w, RequestStep(w, tid), tid)
  {
    hide BeginReversal, ReadActionRow, ReadDependent, Converge, MoveStatus, Dependents, DueActions;
  }

  lemma LookupMoves(w: World, tid: nat)
    requires HasPc(w, tid) && (w.threads[tid].pc.KeyLookup? || w.threads[tid].pc.LostRace?)
    ensures RequestMoves(w, RequestStep(w, tid), tid)
  {
    hide BeginReversal, ReadActionRow, ReadDependent, SweepOne, MoveStatus, Dependents, DueActions, Begin;
  }

  lemma ReadMoves(w: World, tid: nat)
    requires HasPc(w, tid)
    requires w.threads[tid].pc.ReadAction? || w.threads[tid].pc.ReadEdges? || w.threads[tid].pc.ReadDependents?
    ensures RequestMoves(w, RequestStep(w, tid), tid)
  {
    hide Admission, Dependents, BeginReversal, SweepOne, MoveStatus, Converge, DueActions, Begin;
  }

  lemma BeginMoves(w: World, tid: nat)
    requires HasPc(w, tid) && w.threads[tid].pc.BeginTx?
    ensures RequestMoves(w, RequestStep(w, tid), tid)
  {
    hide Begin;
    var t := w.threads[tid];
    BeginLeaves(w.db, t.scope, t.actionId, t.key, t.now);
  }

  lemma BeginLeaves(db: Tables, scope: string, a: nat, key: Option<string>, now: Instant)
    ensures var r := Begin(db, scope, a, key, now);
      r.Written? ==>
        && r.db.resources == db.resources && r.db.notifications == db.notifications && r.db.edges == db.edges
        && r.db.observations == db.observations && |r.db.actions| == |db.actions|
  {
  }

  lemma EndMoves(w: World, tid: nat)
    requires HasPc(w, tid) && (w.threads[tid].pc.PollAction? || w.threads[tid].pc.Transition?)
    ensures RequestMoves(w, RequestStep(w, tid), tid)
    ensures tid !in RequestStep(w, tid).threads
  {
    hide BeginReversal, ReadActionRow, ReadDependent, SweepOne, Converge, Dependents, DueActions, Begin;
  }

  lemma RequestStepMoves(w: World, tid: nat)
    requires HasPc(w, tid)
    requires !w.threads[tid].pc.Poll? && !w.threads[tid].pc.Call? && !w.threads[tid].pc.Record?
    ensures RequestMoves(w, RequestStep(w, tid), tid)
  {
    hide RequestStep, RequestMoves;
    match w.threads[tid].pc
    case SweepSelect => SweepMoves(w, tid);
    case SweepRows(_) => SweepMoves(w, tid);
    case KeyLookup => LookupMoves(w, tid);
    case LostRace => LookupMoves(w, tid);
    case ReadAction => ReadMoves(w, tid);
    case ReadEdges => ReadMoves(w, tid);
    case ReadDependents(_, _) => ReadMoves(w, tid);
    case BeginTx => BeginMoves(w, tid);
    case PollAction(_) => EndMoves(w, tid);
    case Transition(_, _, _) => EndMoves(w, tid);
  }

  /** Recording a return: at most the attempt's own row, its answer and its thread. */
  ghost predicate RecordMoves(w: World, v: World, tid: nat, k: nat, ret: ProviderReturn)
    requires tid in w.threads && w.threads[tid].Request?
  {
    && v.phase == w.phase && v.wrote == w.wrote && v.trail == w.trail && OnlyThread(w, v, tid)
    && v.db == w.db.(attempts := v.db.attempts) && |v.db.attempts| == |w.db.attempts|
    && (forall j :: 0 <= j < |w.db.attempts| ==> v.db.attempts[j].actionId == w.db.attempts[j].actionId)
    && (forall j :: 0 <= j < |w.db.attempts| && j != k ==> v.db.attempts[j] == w.db.attempts[j])
    && (if Settle(ret).Unrecognised? then v.db == w.db && v.answers == w.answers && tid !in v.threads
        else
          && tid in v.threads && SameRequest(w.threads[tid], v.threads[tid])
          && v.threads[tid].pc.Transition? && v.threads[tid].pc.settled == k
          && v.answers == Tell(w, w.threads[tid], k, ResultOf(k, 0, ret, w.threads[tid].now).outcome).answers)
  }

  lemma SettlementMoves(db: Tables, k: nat, s: Settlement, at: Instant)
    ensures var next := RecordSettlement(db, k, s, at);
      && next == db.(attempts := next.attempts) && |next.attempts| == |db.attempts|
      && (forall j :: 0 <= j < |db.attempts| ==> next.attempts[j].actionId == db.attempts[j].actionId)
      && (forall j :: 0 <= j < |db.attempts| && j != k ==> next.attempts[j] == db.attempts[j])
  {
  }

  lemma RecordStepMoves(w: World, tid: nat, at: Instant)
    requires Enabled(w, LRecord(tid, at))
    ensures RecordMoves(w, Apply(w, LRecord(tid, at)), tid, w.threads[tid].pc.recording, w.threads[tid].pc.ret)
  {
    var k, ret := w.threads[tid].pc.recording, w.threads[tid].pc.ret;
    SettlementMoves(w.db, k, Settle(ret), at);
    hide Settle, RecordSettlement;
  }

  /** Concluding a looked-up attempt: its row if it was still open, its trail, its thread. */
  ghost predicate ConcludeMoves(w: World, v: World, tid: nat, k: nat)
    requires tid in w.threads && w.threads[tid].Reconciler?
  {
    && v.phase == w.phase && v.wrote == w.wrote && v.answers == w.answers && OnlyThread(w, v, tid)
    && v.db == w.db.(attempts := v.db.attempts) && |v.db.attempts| == |w.db.attempts| && |v.trail| == |w.trail|
    && (forall j :: 0 <= j < |w.db.attempts| ==> v.db.attempts[j].actionId == w.db.attempts[j].actionId)
    && (forall j :: 0 <= j < |w.db.attempts| && j != k ==> v.db.attempts[j] == w.db.attempts[j])
    && (forall j :: 0 <= j < |w.trail| ==> v.trail[j] == w.trail[j].(concluder := v.trail[j].concluder))
    && (forall j :: 0 <= j < |w.trail| && v.trail[j] != w.trail[j] ==> j == k)
    && (k < |w.db.attempts| && k < |w.trail| ==>
          if IsOpen(w.db.attempts[k]) then v.trail[k].concluder == Some(tid)
          else v.db.attempts[k] == w.db.attempts[k] && v.trail[k] == w.trail[k])
    && tid in v.threads && v.threads[tid].Reconciler? && v.threads[tid].scope == w.threads[tid].scope
    && v.threads[tid].actionId == w.threads[tid].actionId
    && v.threads[tid].rpc.RecUpdate? && v.threads[tid].rpc.attempt == k
  }

  lemma RecConcludeMoves(w: World, tid: nat, at: Instant)
    requires Enabled(w, LRecConclude(tid, at))
    ensures ConcludeMoves(w, Apply(w, LRecConclude(tid, at)), tid, w.threads[tid].rpc.attempt)
  {
  }

  /** A step of a reconciliation that neither looks up nor concludes. */
  ghost predicate ReconcilerMoves(w: World, v: World, tid: nat)
    requires tid in w.threads && w.threads[tid].Reconciler?
  {
    var t := w.threads[tid];
    && v.phase == w.phase && v.wrote == w.wrote && v.trail == w.trail && v.answers == w.answers && OnlyThread(w, v, tid)
    && v.db.attempts == w.db.attempts && v.db.keys == w.db.keys && v.db.edges == w.db.edges
    && v.db.resources == w.db.resources && v.db.notifications == w.db.notifications
    && |v.db.actions| == |w.db.actions|
    && (tid in v.threads ==>
          && v.threads[tid].Reconciler? && v.threads[tid].scope == t.scope && v.threads[tid].actionId == t.actionId
          && (v.threads[tid].rpc.RecConclude? ==>
                t.rpc == RecObserve(v.threads[tid].rpc.attempt, v.threads[tid].rpc.evidence))
          && !v.threads[tid].rpc.RecObserve? && !v.threads[tid].rpc.RecUpdate?)
    && (t.rpc.RecObserve? ==>
          v.db == w.db.(observations := w.db.observations + [ObservationRow(t.rpc.attempt, t.now, t.rpc.evidence)]))
    && (!t.rpc.RecObserve? ==> v.db.observations == w.db.observations)
    && (!t.rpc.RecObserve? && !t.rpc.RecUpdate? ==> v.db == w.db)
    && (t.rpc.RecUpdate? && v.db != w.db ==>
          && t.rpc.evidence != Inconclusive
          && UpdateStatus(w.db, t.scope, t.actionId, OutcomeUnknown, ProvenStatus(t.rpc.evidence), t.rpc.at)
              == Written(v.db))
  }

  lemma ReconcileStepMoves(w: World, tid: nat)
    requires HasRpc(w, tid) && !w.threads[tid].rpc.RecLookup? && !w.threads[tid].rpc.RecConclude?
    ensures ReconcilerMoves(w, ReconcileStep(w, tid), tid)
  {
    hide OpenAttempt, CanTransition, Op.HasReconcile;
  }

  // ------------------------------------------------------- from one point to the next

  /** Where a request that is not done can have been one step ago, and what it found there. */
  predicate Follows(db: Tables, t: Thread, next: Pc)
    requires t.Request?
  {
    match next
    case SweepSelect => false
    case SweepRows(due) =>
      || (t.pc == SweepSelect && due == DueActions(db.actions, t.now))
      || (t.pc.SweepRows? && t.pc.due != [] && due == t.pc.due[1..]
          && t.pc.due[0] < |db.actions| && db.actions[t.pc.due[0]].status == Applied)
    case KeyLookup => t.pc == SweepRows([])
    case ReadAction => t.pc == KeyLookup
    case ReadEdges =>
      t.pc == ReadAction && GetAction(db, t.scope, t.actionId).Some? && Admission(db.actions[t.actionId]).None?
    case ReadDependents(pending, blocked) =>
      || (t.pc == ReadEdges && !blocked && pending == Dependents(EdgesOfParent(db.edges, t.scope, t.actionId)))
      || (t.pc.ReadDependents? && t.pc.pending != [] && pending == t.pc.pending[1..]
          && GetAction(db, t.scope, t.pc.pending[0]).Some?
          && blocked == (t.pc.blocked || !IsResolved(db.actions[t.pc.pending[0]].status)))
    case BeginTx => t.pc == ReadDependents([], false)
    case LostRace => t.pc == BeginTx
    case Poll(_) => t.pc == KeyLookup || t.pc == LostRace
    case Call(k) =>
      t.pc == BeginTx && k == |db.attempts| && Begin(db, t.scope, t.actionId, t.key, t.now).Written?
    case _ => false
  }

  lemma SweepFollows(w: World, tid: nat)
    requires HasPc(w, tid) && (w.threads[tid].pc.SweepSelect? || w.threads[tid].pc.SweepRows?)
    requires tid in RequestStep(w, tid).threads
    ensures Follows(w.db, w.threads[tid], RequestStep(w, tid).threads[tid].pc)
  {
    hide DueActions;
  }

  lemma LookupFollows(w: World, tid: nat)
    requires HasPc(w, tid) && (w.threads[tid].pc.KeyLookup? || w.threads[tid].pc.LostRace?)
    requires tid in RequestStep(w, tid).threads
    ensures Follows(w.db, w.threads[tid], RequestStep(w, tid).threads[tid].pc)
  {
  }

  lemma ReadFollows(w: World, tid: nat)
    requires HasPc(w, tid) && tid in RequestStep(w, tid).threads
    requires w.threads[tid].pc.ReadAction? || w.threads[tid].pc.ReadEdges? || w.threads[tid].pc.ReadDependents?
    ensures Follows(w.db, w.threads[tid], RequestStep(w, tid).threads[tid].pc)
  {
    hide Admission, Dependents, EdgesOfParent;
  }

  lemma BeginFollows(w: World, tid: nat)
    requires HasPc(w, tid) && w.threads[tid].pc.BeginTx? && tid in RequestStep(w, tid).threads
    ensures Follows(w.db, w.threads[tid], RequestStep(w, tid).threads[tid].pc)
  {
    BeginMoves(w, tid);
    hide Begin, RequestStep;
  }

  lemma RequestFollows(w: World, tid: nat)
    requires HasPc(w, tid) && tid in RequestStep(w, tid).threads
    requires !w.threads[tid].pc.Poll? && !w.threads[tid].pc.Call? && !w.threads[tid].pc.Record?
    ensures Follows(w.db, w.threads[tid], RequestStep(w, tid).threads[tid].pc)
  {
    hide RequestStep, Follows;
    match w.threads[tid].pc
    case SweepSelect => SweepFollows(w, tid);
    case SweepRows(_) => SweepFollows(w, tid);
    case KeyLookup => LookupFollows(w, tid);
    case LostRace => LookupFollows(w, tid);
    case BeginTx => BeginFollows(w, tid);
    case PollAction(_) => EndMoves(w, tid); assert false;
    case Transition(_, _, _) => EndMoves(w, tid); assert false;
    case _ => ReadFollows(w, tid);
  }

  /** How a request that stays in the table moves in one step of anybody: it stays, or it
      makes one of its own steps. */
  predicate Goes(w: World, l: Label, tid: nat, next: Thread)
    requires tid in w.threads && w.threads[tid].Request?
  {
    var t := w.threads[tid];
    || next == t
    || (SameRequest(t, next)
        && match next.pc
           case PollAction(_) => t.pc.Poll? && l.LPoll?
           case Record(k, _) => t.pc == Call(k) && l.LCall?
           case Transition(k, _, _) => t.pc.Record? && t.pc.recording == k && l.LRecord?
           case _ => l == LStep(tid) && Follows(w.db, t, next.pc))
  }

  lemma RecordGoes(w: World, i: nat, at: Instant, tid: nat)
    requires Enabled(w, LRecord(i, at)) && tid in w.threads && w.threads[tid].Request?
    requires tid in Apply(w, LRecord(i, at)).threads
    ensures Goes(w, LRecord(i, at), tid, Apply(w, LRecord(i, at)).threads[tid])
  {
    RecordStepMoves(w, i, at);
    hide Apply, Settle, Follows;
  }

  lemma ConcludeGoes(w: World, i: nat, at: Instant, tid: nat)
    requires Enabled(w, LRecConclude(i, at)) && tid in w.threads && w.threads[tid].Request?
    ensures tid in Apply(w, LRecConclude(i, at)).threads
    ensures Apply(w, LRecConclude(i, at)).threads[tid] == w.threads[tid]
  {
    hide Apply;
    RecConcludeMoves(w, i, at);
  }

  lemma CallGoes(w: World, l: Label, tid: nat)
    requires Enabled(w, l) && (l.LCall? || l.LPoll? || l.LLookup?)
    requires tid in w.threads && w.threads[tid].Request? && tid in Apply(w, l).threads
    ensures Goes(w, l, tid, Apply(w, l).threads[tid])
  {
    hide AnswerOf, Follows, ProviderMay;
  }

  lemma StepGoes(w: World, l: Label, tid: nat)
    requires Enabled(w, l) && tid in w.threads && w.threads[tid].Request? && tid in Apply(w, l).threads
    ensures Goes(w, l, tid, Apply(w, l).threads[tid])
  {
    hide RequestStep, ReconcileStep, RecoverStep, RecordReturn, ConcludeReconciled, CallProvider, PollAttempt, Follows;
    match l
    case LStep(i) => StepGoesOn(w, i, tid);
    case LRecord(i, at) => RecordGoes(w, i, at, tid);
    case LRecConclude(i, at) => ConcludeGoes(w, i, at, tid);
    case LRecover => RecoverMovesNobody(w);
    case LCall(_, _, _) => CallGoes(w, l, tid);
    case LPoll(_, _) => CallGoes(w, l, tid);
    case LLookup(_, _) => CallGoes(w, l, tid);
    case _ =>
  }

  lemma RecoverMovesNobody(w: World)
    requires w.phase.Recovering?
    ensures RecoverStep(w).threads == w.threads
  {
  }

  lemma StepGoesOn(w: World, i: nat, tid: nat)
    requires Enabled(w, LStep(i)) && tid in w.threads && w.threads[tid].Request? && tid in Apply(w, LStep(i)).threads
    ensures Goes(w, LStep(i), tid, Apply(w, LStep(i)).threads[tid])
  {
    if w.threads[i].Request? {
      RequestStepMoves(w, i);
      if i == tid { RequestFollows(w, tid); }
    } else {
      ReconcileStepMoves(w, i);
    }
    hide RequestStep, ReconcileStep, Follows, Begin;
  }
}
