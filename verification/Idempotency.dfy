/** A keyed request refines a one-shot operation: one attempt, at most one provider call,
    and answers that never contradict each other. */
module Idempotency {
  import opened Domain
  import opened Timestamp
  import opened Records
  import opened Protocol
  import opened Invariant
  import opened Moves
  import opened Steps

  // ------------------------------------------------------------ the key's attempt

  predicate KeyNames(db: Tables, scope: string, key: string, k: nat, a: nat) {
    (scope, key) in db.keys && db.keys[(scope, key)].attemptId == k && db.keys[(scope, key)].actionId == a
  }

  /** A thread that calls, records or replays under a key works on the key's attempt. */
  predicate FollowsKey(db: Tables, t: Thread) {
    t.Request? && t.key.Some? ==>
      match t.pc
      case Poll(k) => KeyNames(db, t.scope, t.key.value, k, t.actionId)
      case Call(k) => KeyNames(db, t.scope, t.key.value, k, t.actionId)
      case Record(k, _) => KeyNames(db, t.scope, t.key.value, k, t.actionId)
      case _ => true
  }

  /** An answer names the key's attempt, and a definite one is what the attempt recorded. */
  predicate AnswerOk(db: Tables, x: Answer) {
    && KeyNames(db, x.scope, x.key, x.attemptId, x.actionId)
    && x.attemptId < |db.attempts|
    && (x.outcome == OutUnknown || x.outcome == AnswerOf(db.attempts[x.attemptId]))
  }

  predicate SameKey(x: Answer, y: Answer) {
    x.scope == y.scope && x.key == y.key
  }

  ghost predicate AnswersOk(w: World) {
    && (forall tid :: tid in w.threads ==> FollowsKey(w.db, w.threads[tid]))
    && (forall i :: 0 <= i < |w.answers| ==> AnswerOk(w.db, w.answers[i]))
    && (forall i, j :: 0 <= i < j < |w.answers| && SameKey(w.answers[i], w.answers[j]) ==>
          w.answers[i].outcome == OutUnknown || w.answers[j].outcome == w.answers[i].outcome)
  }

  // ------------------------------------------------------------- it is inductive

  lemma GrowthKeepsAnswer(db: Tables, next: Tables, x: Answer)
    requires Grows(db, next) && AnswerOk(db, x)
    requires forall k: nat :: k < |db.attempts| && AnswerOf(db.attempts[k]) != OutUnknown ==>
      db.attempts[k].state == Concluded
    ensures AnswerOk(next, x)
  {
  }

  lemma DefiniteMeansConcluded(w: World)
    requires Inv(w)
    ensures forall k: nat :: k < |w.db.attempts| && AnswerOf(w.db.attempts[k]) != OutUnknown ==>
      w.db.attempts[k].state == Concluded
  {
    forall k: nat | k < |w.db.attempts| && AnswerOf(w.db.attempts[k]) != OutUnknown
      ensures w.db.attempts[k].state == Concluded
    {
      assert AttemptOk(w.db, w.trail, k);
    }
  }

  /** A step that tells nothing new. */
  lemma SilentStepKeeps(w: World, v: World)
    requires Inv(w) && AnswersOk(w) && Grows(w.db, v.db) && v.answers == w.answers
    requires forall i :: i in v.threads ==>
      (i in w.threads && v.threads[i] == w.threads[i]) || FollowsKey(v.db, v.threads[i])
    ensures AnswersOk(v)
  {
    DefiniteMeansConcluded(w);
    forall i | 0 <= i < |v.answers| ensures AnswerOk(v.db, v.answers[i]) {
      GrowthKeepsAnswer(w.db, v.db, w.answers[i]);
    }
    forall i | i in v.threads ensures FollowsKey(v.db, v.threads[i]) {
      if i in w.threads && v.threads[i] == w.threads[i] {
        assert FollowsKey(w.db, w.threads[i]);
      }
    }
  }

  /** A step that appends an answer read from, or just written to, the key's attempt. */
  lemma TellingStepKeeps(w: World, v: World, x: Answer)
    requires Inv(w) && AnswersOk(w) && Grows(w.db, v.db)
    requires v.answers == w.answers + [x]
    requires KeyNames(v.db, x.scope, x.key, x.attemptId, x.actionId) && x.attemptId < |w.db.attempts|
    requires x.outcome == AnswerOf(v.db.attempts[x.attemptId])
    requires forall i :: i in v.threads ==>
      (i in w.threads && v.threads[i] == w.threads[i]) || FollowsKey(v.db, v.threads[i])
    ensures AnswersOk(v)
  {
    hide Inv;
    DefiniteMeansConcluded(w);
    forall i | 0 <= i < |w.answers| ensures AnswerOk(v.db, w.answers[i]) {
      GrowthKeepsAnswer(w.db, v.db, w.answers[i]);
    }
    forall i | i in v.threads ensures FollowsKey(v.db, v.threads[i]) {
      if i in w.threads && v.threads[i] == w.threads[i] {
        assert FollowsKey(w.db, w.threads[i]);
      }
    }
  }

  /** A poll tells at most what the polled attempt recorded. */
  lemma PollTells(w: World, tid: nat, giveUp: bool)
    requires Enabled(w, LPoll(tid, giveUp)) && FollowsKey(w.db, w.threads[tid])
    ensures var v, t := PollAttempt(w, tid, giveUp), w.threads[tid];
      && v.db == w.db
      && (forall i :: i in v.threads ==>
            (i in w.threads && v.threads[i] == w.threads[i]) || FollowsKey(v.db, v.threads[i]))
      && (v.answers == w.answers
          || (t.key.Some? && t.pc.seen < |w.db.attempts| && v.answers == w.answers
                + [Answer(t.scope, t.key.value, t.pc.seen, t.actionId, AnswerOf(w.db.attempts[t.pc.seen]))]
              && KeyNames(w.db, t.scope, t.key.value, t.pc.seen, t.actionId)))
  {
    hide AnswerOf;
  }

  lemma PollKeepsAnswers(w: World, tid: nat, giveUp: bool)
    requires Inv(w) && AnswersOk(w) && Enabled(w, LPoll(tid, giveUp))
    ensures AnswersOk(PollAttempt(w, tid, giveUp))
  {
    var v := PollAttempt(w, tid, giveUp);
    StepGrows(w, LPoll(tid, giveUp));
    assert FollowsKey(w.db, w.threads[tid]);
    PollTells(w, tid, giveUp);
    hide Inv, AnswersOk, Grows, PollAttempt, FollowsKey, KeyNames, AnswerOf;
    if v.answers == w.answers {
      SilentStepKeeps(w, v);
    } else {
      TellingStepKeeps(w, v, v.answers[|w.answers|]);
    }
  }

  lemma RecordKeepsAnswers(w: World, tid: nat, at: Instant)
    requires Inv(w) && AnswersOk(w) && Enabled(w, LRecord(tid, at))
    ensures AnswersOk(Apply(w, LRecord(tid, at)))
  {
    var v := Apply(w, LRecord(tid, at));
    var t := w.threads[tid];
    StepGrows(w, LRecord(tid, at));
    RecordStepMoves(w, tid, at);
    assert ThreadOk(w.db, w.trail, tid, t) && FollowsKey(w.db, t);
    if !Settle(t.pc.ret).Unrecognised? {
      RecordMovesRow(w, tid, t.pc.recording, t.pc.ret, at);
      assert AnswerOf(v.db.attempts[t.pc.recording]) == ResultOf(t.pc.recording, 0, t.pc.ret, at).outcome;
    }
    hide Apply, Enabled, RecordReturn, Inv, AnswersOk, Grows, Settle;
    RecordTells(w, v, tid, t.pc.recording, t.pc.ret, at);
  }

  lemma RecordTells(w: World, v: World, tid: nat, k: nat, ret: ProviderReturn, at: Instant)
    requires Inv(w) && AnswersOk(w) && Grows(w.db, v.db) && tid in w.threads && w.threads[tid].Request?
    requires RecordMoves(w, v, tid, k, ret) && w.threads[tid].pc == Record(k, ret)
    requires ThreadOk(w.db, w.trail, tid, w.threads[tid]) && FollowsKey(w.db, w.threads[tid])
    requires !Settle(ret).Unrecognised? ==>
      k < |v.db.attempts| && AnswerOf(v.db.attempts[k]) == ResultOf(k, 0, ret, at).outcome
    ensures AnswersOk(v)
  {
    hide Inv, AnswersOk, Grows, Settle;
    if w.threads[tid].key.None? || Settle(ret).Unrecognised? {
      SilentStepKeeps(w, v);
    } else {
      TellingStepKeeps(w, v, v.answers[|w.answers|]);
    }
  }

  lemma RequestGrows(w: World, tid: nat)
    requires Inv(w) && HasPc(w, tid)
    requires !w.threads[tid].pc.Poll? && !w.threads[tid].pc.Call? && !w.threads[tid].pc.Record?
    ensures Grows(w.db, RequestStep(w, tid).db)
  {
    hide Inv, Grows, RequestStep;
    StepGrows(w, LStep(tid));
  }

  lemma ReconcilerGrows(w: World, tid: nat)
    requires Inv(w) && HasRpc(w, tid)
    requires !w.threads[tid].rpc.RecLookup? && !w.threads[tid].rpc.RecConclude?
    ensures Grows(w.db, ReconcileStep(w, tid).db)
  {
    hide Inv, Grows, ReconcileStep;
    StepGrows(w, LStep(tid));
  }

  lemma RequestKeepsAnswers(w: World, tid: nat)
    requires Inv(w) && AnswersOk(w) && HasPc(w, tid)
    requires !w.threads[tid].pc.Poll? && !w.threads[tid].pc.Call? && !w.threads[tid].pc.Record?
    ensures AnswersOk(RequestStep(w, tid))
  {
    hide RequestStep, Inv, AnswersOk, Grows, FollowsKey;
    RequestGrows(w, tid);
    NextFollowsKey(w, tid);
    SilentStepKeeps(w, RequestStep(w, tid));
  }

  lemma NextFollowsKey(w: World, tid: nat)
    requires Inv(w) && HasPc(w, tid)
    requires !w.threads[tid].pc.Poll? && !w.threads[tid].pc.Call? && !w.threads[tid].pc.Record?
    ensures var v := RequestStep(w, tid);
      && v.answers == w.answers
      && forall i :: i in v.threads ==>
            (i in w.threads && v.threads[i] == w.threads[i]) || FollowsKey(v.db, v.threads[i])
  {
    var t := w.threads[tid];
    var v := RequestStep(w, tid);
    RequestStepMoves(w, tid);
    if t.pc.BeginTx? && Begin(w.db, t.scope, t.actionId, t.key, t.now).Written? {
      BeginShape(w.db, t.scope, t.actionId, t.key, t.now);
    }
    assert KeysOk(w.db);
    hide RequestStep, Begin, Inv;
  }

  lemma ReconcilerKeepsAnswers(w: World, tid: nat)
    requires Inv(w) && AnswersOk(w) && HasRpc(w, tid)
    requires !w.threads[tid].rpc.RecLookup? && !w.threads[tid].rpc.RecConclude?
    ensures AnswersOk(ReconcileStep(w, tid))
  {
    hide ReconcileStep, Inv, AnswersOk, Grows, FollowsKey;
    ReconcilerGrows(w, tid);
    ReconcilerIsSilent(w, tid);
    SilentStepKeeps(w, ReconcileStep(w, tid));
  }

  lemma ReconcilerIsSilent(w: World, tid: nat)
    requires HasRpc(w, tid)
    ensures var v := ReconcileStep(w, tid);
      && v.answers == w.answers
      && forall i :: i in v.threads ==>
            (i in w.threads && v.threads[i] == w.threads[i]) || FollowsKey(v.db, v.threads[i])
  {
  }

  lemma CallKeepsAnswers(w: World, tid: nat, ret: ProviderReturn, effect: bool)
    requires Inv(w) && AnswersOk(w) && Enabled(w, LCall(tid, ret, effect))
    ensures AnswersOk(Apply(w, LCall(tid, ret, effect)))
  {
    hide Inv;
    StepGrows(w, LCall(tid, ret, effect));
    assert FollowsKey(w.db, w.threads[tid]);
    SilentStepKeeps(w, Apply(w, LCall(tid, ret, effect)));
  }

  lemma ConcludeKeepsAnswers(w: World, tid: nat, at: Instant)
    requires Inv(w) && AnswersOk(w) && Enabled(w, LRecConclude(tid, at))
    ensures AnswersOk(Apply(w, LRecConclude(tid, at)))
  {
    hide Inv;
    StepGrows(w, LRecConclude(tid, at));
    SilentStepKeeps(w, Apply(w, LRecConclude(tid, at)));
  }

  lemma RecoverySilent(w: World)
    requires w.phase.Recovering?
    ensures RecoverStep(w).threads == w.threads && RecoverStep(w).answers == w.answers
  {
  }

  lemma RecoveryGrows(w: World)
    requires Inv(w) && w.phase.Recovering?
    ensures Grows(w.db, RecoverStep(w).db)
  {
    hide Inv, Grows, RecoverStep;
    StepGrows(w, LRecover);
  }

  lemma RecoveryKeepsAnswers(w: World)
    requires Inv(w) && AnswersOk(w) && Enabled(w, LRecover)
    ensures AnswersOk(RecoverStep(w))
  {
    hide Inv, RecoverStep, AnswersOk, Grows, FollowsKey;
    RecoverySilent(w);
    RecoveryGrows(w);
    SilentStepKeeps(w, RecoverStep(w));
  }

  lemma OthersKeepAnswers(w: World, l: Label)
    requires Inv(w) && Enabled(w, l) && AnswersOk(w)
    requires !l.LStep? && !l.LPoll? && !l.LRecord? && !l.LCall? && !l.LRecConclude? && !l.LRecover?
    ensures AnswersOk(Apply(w, l))
  {
    hide *;
    StepGrows(w, l);
    OthersAreSilent(w, l);
    SilentStepKeeps(w, Apply(w, l));
  }

  lemma OthersAreSilent(w: World, l: Label)
    requires Enabled(w, l)
    requires !l.LStep? && !l.LPoll? && !l.LRecord? && !l.LCall? && !l.LRecConclude? && !l.LRecover?
    ensures var v := Apply(w, l);
      && v.answers == w.answers
      && forall i :: i in v.threads ==>
            (i in w.threads && v.threads[i] == w.threads[i]) || FollowsKey(v.db, v.threads[i])
  {
  }

  lemma StepKeepsAnswers(w: World, l: Label)
    requires Inv(w) && Enabled(w, l) && AnswersOk(w)
    ensures AnswersOk(Apply(w, l))
  {
    hide AnswersOk, Inv, Grows, RequestStep, ReconcileStep, PollAttempt;
    hide RecoverStep, CallProvider, RecordReturn, ConcludeReconciled;
    match l
    case LStep(tid) =>
      if w.threads[tid].Request? { RequestKeepsAnswers(w, tid); } else { ReconcilerKeepsAnswers(w, tid); }
    case LPoll(tid, giveUp) => PollKeepsAnswers(w, tid, giveUp);
    case LRecord(tid, at) => RecordKeepsAnswers(w, tid, at);
    case LCall(tid, ret, effect) => CallKeepsAnswers(w, tid, ret, effect);
    case LRecConclude(tid, at) => ConcludeKeepsAnswers(w, tid, at);
    case LRecover => RecoveryKeepsAnswers(w);
    case _ => OthersKeepAnswers(w, l);
  }

  lemma {:induction false} RunKeepsAnswers(w: World, ls: seq<Label>)
    requires Inv(w) && AnswersOk(w) && CanRun(w, ls)
    ensures AnswersOk(Run(w, ls))
    decreases |ls|
  {
    hide Apply, Enabled, Inv, AnswersOk;
    if ls != [] {
      StepKeepsAnswers(w, ls[0]);
      StepKeeps(w, ls[0]);
      RunKeepsAnswers(Apply(w, ls[0]), ls[1..]);
    }
  }

  // ------------------------------------------------------------------ theorems

  /** All answers under one key carry one attempt and one Action; in the order of the
      durable reads and writes behind them they are OUTCOME_UNKNOWN for a while (perhaps
      never) and then one constant. */
  lemma AnswersAgree(w: World, i: nat, j: nat)
    requires Reached(w) && i < j < |w.answers| && SameKey(w.answers[i], w.answers[j])
    ensures w.answers[i].attemptId == w.answers[j].attemptId
    ensures w.answers[i].actionId == w.answers[j].actionId
    ensures w.answers[i].outcome == OutUnknown || w.answers[j].outcome == w.answers[i].outcome
  {
    var ls :| CanRun(INIT, ls) && Run(INIT, ls) == w;
    RunKeepsAnswers(INIT, ls);
    assert AnswerOk(w.db, w.answers[i]) && AnswerOk(w.db, w.answers[j]);
  }

  /** A definite answer is the recorded result of the key's attempt. */
  lemma DefiniteAnswerIsRecorded(w: World, i: nat)
    requires Reached(w) && i < |w.answers|
    ensures var x := w.answers[i];
      && KeyNames(w.db, x.scope, x.key, x.attemptId, x.actionId)
      && x.attemptId < |w.db.attempts| && w.db.attempts[x.attemptId].actionId == x.actionId
      && (x.outcome == OutUnknown || x.outcome == AnswerOf(w.db.attempts[x.attemptId]))
  {
    var ls :| CanRun(INIT, ls) && Run(INIT, ls) == w;
    RunKeepsAnswers(INIT, ls);
    ReachableInv(w);
    assert AnswerOk(w.db, w.answers[i]);
  }

  /** A found record refuses the request exactly when it names a different Action. */
  lemma KeyConflictMeansOtherAction(w: World, tid: nat, missing: World)
    requires Reached(w) && HasPc(w, tid) && w.threads[tid].key.Some?
    requires GetKey(w.db, w.threads[tid].scope, w.threads[tid].key.value).Some?
    ensures var t := w.threads[tid];
      var row := w.db.keys[(t.scope, t.key.value)];
      && (row.actionId != t.actionId ==> Converge(w, tid, missing) == Leave(w, tid))
      && (row.actionId == t.actionId ==> Converge(w, tid, missing) == Goto(w, tid, Poll(row.attemptId)))
  {
    ReachableInv(w);
  }

  // ------------------------------------------------ at most one call for one key

  predicate CallsUnder(w: World, l: Label, scope: string, key: string)
    requires Enabled(w, l)
  {
    l.LCall? && w.threads[l.tid].scope == scope && w.threads[l.tid].key == Some(key)
  }

  /** How often a run calls a provider for requests with this key. */
  ghost function CallsFor(w: World, ls: seq<Label>, scope: string, key: string): nat
    requires CanRun(w, ls)
    decreases |ls|
  {
    if ls == [] then 0
    else (if CallsUnder(w, ls[0], scope, key) then 1 else 0) + CallsFor(Apply(w, ls[0]), ls[1..], scope, key)
  }

  function CallsLeft(w: World, scope: string, key: string): int {
    if (scope, key) in w.db.keys && w.db.keys[(scope, key)].attemptId < |w.trail|
    then 1 - w.trail[w.db.keys[(scope, key)].attemptId].calls
    else 1
  }

  predicate TrailGrows(t: seq<Trail>, u: seq<Trail>) {
    |t| <= |u| && forall k :: 0 <= k < |t| ==> t[k].calls <= u[k].calls
  }

  lemma OwnStepTrailGrows(w: World, tid: nat)
    requires Enabled(w, LStep(tid))
    ensures TrailGrows(w.trail, Apply(w, LStep(tid)).trail)
  {
    if w.threads[tid].Request? { RequestStepMoves(w, tid); } else { ReconcileStepMoves(w, tid); }
    hide RequestStep, ReconcileStep, Begin;
  }

  lemma StepTrailGrows(w: World, l: Label)
    requires Enabled(w, l)
    ensures TrailGrows(w.trail, Apply(w, l).trail)
  {
    hide RequestStep, ReconcileStep;
    if l.LStep? { OwnStepTrailGrows(w, l.tid); }
  }

  lemma CallsLeftFalls(w: World, v: World, scope: string, key: string)
    requires Inv(w) && Inv(v) && Grows(w.db, v.db) && TrailGrows(w.trail, v.trail)
    ensures CallsLeft(v, scope, key) <= CallsLeft(w, scope, key)
  {
    hide Inv;
  }

  lemma CallSpends(w: World, l: Label, scope: string, key: string)
    requires Inv(w) && AnswersOk(w) && Enabled(w, l)
    ensures CallsLeft(Apply(w, l), scope, key) + (if CallsUnder(w, l, scope, key) then 1 else 0)
      <= CallsLeft(w, scope, key)
  {
    hide Apply;
    if CallsUnder(w, l, scope, key) {
      var t := w.threads[l.tid];
      assert ThreadOk(w.db, w.trail, l.tid, t) && FollowsKey(w.db, t);
      CallCounts(w, l.tid, l.ret, l.effect);
      hide Enabled, Inv, AnswersOk, ProviderMay;
    } else {
      StepTrailGrows(w, l);
      StepGrows(w, l);
      StepKeeps(w, l);
      hide Enabled, Inv, AnswersOk, CallsUnder, Grows, TrailGrows, CallsLeft;
      CallsLeftFalls(w, Apply(w, l), scope, key);
    }
  }

  lemma CallCounts(w: World, tid: nat, ret: ProviderReturn, effect: bool)
    requires Enabled(w, LCall(tid, ret, effect))
    ensures var v := Apply(w, LCall(tid, ret, effect));
      v.db.keys == w.db.keys && |v.trail| == |w.trail|
      && v.trail[w.threads[tid].pc.calling].calls == w.trail[w.threads[tid].pc.calling].calls + 1
  {
  }

  lemma {:induction false} CallsAreBounded(w: World, ls: seq<Label>, scope: string, key: string)
    requires Inv(w) && AnswersOk(w) && CanRun(w, ls)
    ensures CallsFor(w, ls, scope, key) <= CallsLeft(w, scope, key)
    decreases |ls|
  {
    CallsLeftIsCount(w, scope, key);
    hide Apply, Enabled, Inv, AnswersOk, CallsUnder, CallsLeft;
    if ls != [] {
      CallSpends(w, ls[0], scope, key);
      StepKeepsAnswers(w, ls[0]);
      StepKeeps(w, ls[0]);
      CallsAreBounded(Apply(w, ls[0]), ls[1..], scope, key);
    }
  }

  lemma CallsLeftIsCount(w: World, scope: string, key: string)
    requires Inv(w)
    ensures 0 <= CallsLeft(w, scope, key) <= 1
  {
    if (scope, key) in w.db.keys {
      assert AttemptOk(w.db, w.trail, w.db.keys[(scope, key)].attemptId);
    }
  }

  /** Whatever the interleaving, the crashes and the restarts: at most one provider call. */
  lemma OneKeyOneCall(ls: seq<Label>, scope: string, key: string)
    requires CanRun(INIT, ls)
    ensures CallsFor(INIT, ls, scope, key) <= 1
  {
    CallsAreBounded(INIT, ls, scope, key);
  }

  // ------------------------------------------------------------------- a lost race

  /** A request that reaches its transaction when its key is already registered for the same
      semantics converges on the recorded attempt if and only if the Action has an open attempt or
      is APPLIED again; otherwise it fails without an answer. */
  lemma LoserConverges(w: World, tid: nat)
    requires HasPc(w, tid) && w.threads[tid].pc == BeginTx && w.threads[tid].key.Some?
    requires var t := w.threads[tid];
      && GetAction(w.db, t.scope, t.actionId).Some? && (t.scope, t.key.value) in w.db.keys
      && w.db.keys[(t.scope, t.key.value)].fingerprint == Fingerprint(t.scope, t.actionId)
    ensures Enabled(w, LStep(tid))
    ensures var t, v := w.threads[tid], Apply(w, LStep(tid));
      && v.db == w.db
      && (tid in v.threads <==> HasOpen(w.db.attempts, t.actionId) || w.db.actions[t.actionId].status == Applied)
      && (tid in v.threads ==>
            && Enabled(v, LStep(tid)) && tid in Apply(v, LStep(tid)).threads
            && Apply(v, LStep(tid)).threads[tid]
              == t.(pc := Poll(w.db.keys[(t.scope, t.key.value)].attemptId)))
  {
    var t := w.threads[tid];
    LoserFails(w.db, t.scope, t.actionId, t.key.value, t.now);
    hide Begin;
  }

  lemma LoserFails(db: Tables, scope: string, a: nat, key: string, now: Instant)
    requires GetAction(db, scope, a).Some? && (scope, key) in db.keys
    ensures var r := Begin(db, scope, a, Some(key), now);
      && r.Failed?
      && (r.error == AttemptInProgress || r.error == KeyExists <==>
            HasOpen(db.attempts, a) || db.actions[a].status == Applied)
  {
  }
}
