/** The protocol's safety theorems: over every interleaving of requests and
    reconciliations, abandoned threads, crashes and restart recoveries. */
module Safety {
  import opened Domain
  import opened Timestamp
  import opened Records
  import opened Protocol
  import opened Invariant
  import opened Steps
  import opened Moves
  import opened UndoStack
  import ResourceApi

  // -------------------------------------------------------- at most one effect

  /** The provider itself said that nothing happened. */
  predicate DeniesEffect(ret: ProviderReturn) {
    match ret
    case Output(outcome, _) => outcome == OutConflict
    case Failure(c, _) => c == Some(Retryable)
  }

  /** A provider is called at most once for an attempt. Every attempt but the newest of its
      Action was concluded as a conflict or as a retryable failure, because its provider
      call denied any effect. */
  lemma OnlyTheNewestCanMatter(w: World, j: nat, k: nat)
    requires Reached(w) && j < k < |w.db.attempts|
    requires w.db.attempts[j].actionId == w.db.attempts[k].actionId
    ensures |w.trail| == |w.db.attempts| && w.trail[j].calls == 1 && w.trail[k].calls <= 1
    ensures w.db.attempts[j].state == Concluded
    ensures || w.db.attempts[j].observed == Some(ObsConflict)
      || (w.db.attempts[j].observed == Some(ObsReverseFailed) && w.db.attempts[j].retryClass == Some(Retryable))
    ensures w.trail[j].returned.Some? && DeniesEffect(w.trail[j].returned.value)
  {
    ReachableInv(w);
    assert AttemptOk(w.db, w.trail, j);
    assert AttemptOk(w.db, w.trail, k);
  }

  /** Also of an Action with a single attempt. */
  lemma CalledAtMostOnce(w: World, k: nat)
    requires Reached(w) && k < |w.db.attempts|
    ensures k < |w.trail| && w.trail[k].calls <= 1
  {
    ReachableInv(w);
    assert AttemptOk(w.db, w.trail, k);
  }

  /** A provider that denies an effect had none. */
  predicate Honest(l: Label) {
    l.LCall? && DeniesEffect(l.ret) ==> !l.effect
  }

  predicate HonestRun(ls: seq<Label>) {
    forall i :: 0 <= i < |ls| ==> Honest(ls[i])
  }

  /** No effect was denied. */
  ghost predicate EffectsOwnedUp(trail: seq<Trail>) {
    forall k :: 0 <= k < |trail| && trail[k].effect ==>
      trail[k].returned.Some? && !DeniesEffect(trail[k].returned.value)
  }

  lemma HonestStep(w: World, l: Label)
    requires Inv(w) && Enabled(w, l) && Honest(l) && EffectsOwnedUp(w.trail)
    ensures EffectsOwnedUp(Apply(w, l).trail)
  {
    hide Apply, Enabled, Inv;
    if l.LCall? {
      HonestCall(w, l.tid, l.ret, l.effect);
    } else if TouchesResources(l) {
      BusinessLeavesTrail(w, l);
    } else {
      StepLeavesResources(w, l);
    }
  }

  lemma BusinessLeavesTrail(w: World, l: Label)
    requires Enabled(w, l) && TouchesResources(l) && !l.LCall?
    ensures Apply(w, l).trail == w.trail
  {
  }

  lemma HonestCall(w: World, tid: nat, ret: ProviderReturn, effect: bool)
    requires Inv(w) && Enabled(w, LCall(tid, ret, effect)) && EffectsOwnedUp(w.trail)
    requires DeniesEffect(ret) ==> !effect
    ensures EffectsOwnedUp(Apply(w, LCall(tid, ret, effect)).trail)
  {
    var k := w.threads[tid].pc.calling;
    assert ThreadOk(w.db, w.trail, tid, w.threads[tid]);
    assert AttemptOk(w.db, w.trail, k);
    assert !w.trail[k].effect;
    hide Inv, AttemptOk, DeniesEffect;
  }

  lemma {:induction false} HonestRunOwnsUp(w: World, ls: seq<Label>)
    requires Inv(w) && CanRun(w, ls) && HonestRun(ls) && EffectsOwnedUp(w.trail)
    ensures EffectsOwnedUp(Run(w, ls).trail)
    decreases |ls|
  {
    hide Apply, Enabled, Inv, EffectsOwnedUp, Honest;
    if ls != [] {
      assert Honest(ls[0]) && forall i :: 0 <= i < |ls| - 1 ==> ls[1..][i] == ls[i + 1];
      HonestStep(w, ls[0]);
      StepKeeps(w, ls[0]);
      HonestRunOwnsUp(Apply(w, ls[0]), ls[1..]);
    }
  }

  /** With providers that have no effect where they deny one, at most one reversal of an
      Action ever takes effect: two attempts of it with an effect are the same attempt. */
  lemma AtMostOneEffect(ls: seq<Label>, j: nat, k: nat)
    requires CanRun(INIT, ls) && HonestRun(ls)
    requires var w := Run(INIT, ls);
      && j < |w.db.attempts| && k < |w.db.attempts| && w.db.attempts[j].actionId == w.db.attempts[k].actionId
      && j < |w.trail| && k < |w.trail| && w.trail[j].effect && w.trail[k].effect
    ensures j == k
  {
    var w := Run(INIT, ls);
    HonestRunOwnsUp(INIT, ls);
    assert Reached(w);
    hide Run, CanRun, Reached, DeniesEffect;
    if j < k { OnlyTheNewestCanMatter(w, j, k); }
    if k < j { OnlyTheNewestCanMatter(w, k, j); }
  }

  /** The demo provider's operations need no such assumption. */
  lemma AtMostOneDemoEffect(w: World, j: nat, k: nat)
    requires Reached(w) && j < |w.db.attempts| && k < |w.db.attempts| && j < |w.trail| && k < |w.trail|
    requires w.db.attempts[j].actionId == w.db.attempts[k].actionId < |w.db.actions|
    requires ResourceApi.IsDemo(w.db.actions[w.db.attempts[j].actionId].op)
    requires w.trail[j].effect && w.trail[k].effect
    ensures j == k
  {
    ReachableDemoInv(w);
    DemoEffectIsNotBenign(w, k);
    NotBenignIsNewest(w.db, w.trail, k);
    EffectIsNewest(w, j, k);
  }

  // ------------------------------------------------------------ the coupling table

  /** The statuses an Action can have while its newest attempt looks like this. */
  function Allowed(row: AttemptRow, contradictory: bool): set<Status> {
    match row.state
    case Pending => {}
    case Running => {Reversing}
    case Awaiting => {OutcomeUnknown, Reversing}
    case Concluded =>
      var torn := if Parked(row) then OutcomeUnknown else Reversing;
      match row.observed
      case None => {}
      case Some(ObsConflict) => {Reversing, Applied, Expired}
      case Some(ObsPartiallyReversed) => {Reversing, PartiallyReversed}
      case Some(ObsReversed) =>
        {torn, Reversed} + if Parked(row) && contradictory then {ReverseFailed} else {}
      case Some(ObsReverseFailed) =>
        if row.retryClass == Some(Retryable) then {Reversing, Applied, Expired}
        else {torn, ReverseFailed} + if Parked(row) && contradictory then {Reversed} else {}
  }

  lemma Coupling(w: World, k: nat)
    requires Reached(w) && k < |w.db.attempts| && Newest(w.db.attempts, k)
    ensures w.db.attempts[k].actionId < |w.db.actions|
    ensures w.db.actions[w.db.attempts[k].actionId].status
      in Allowed(w.db.attempts[k], Contradictory(w.db, k))
  {
    ReachableInv(w);
    assert AttemptOk(w.db, w.trail, k);
  }

  lemma NoAttemptNoReversal(w: World, a: nat)
    requires Reached(w) && a < |w.db.actions| && Untouched(w.db.attempts, a)
    ensures w.db.actions[a].status in {Applied, Expired, Irreversible}
  {
    ReachableInv(w);
  }

  // ---------------------------------------------------------------- evidence

  /** What makes an Action's final status true. */
  ghost predicate Justified(w: World, k: nat, status: Status)
    requires k < |w.db.attempts| && k < |w.trail|
  {
    var returned := w.trail[k].returned;
    match status
    case Reversed =>
      || (returned.Some? && returned.value.Output? && returned.value.outcome == OutReversed)
      || (Parked(w.db.attempts[k]) && Seen(w.db.observations, k, ProvenReversed))
    case PartiallyReversed =>
      returned.Some? && returned.value.Output? && returned.value.outcome == OutPartiallyReversed
    case ReverseFailed =>
      || (returned.Some? && returned.value.Output? && returned.value.outcome == OutReverseFailed)
      || (returned.Some? && returned.value.Failure? && returned.value.failureClass == Some(NonRetryable))
      || (Parked(w.db.attempts[k]) && Seen(w.db.observations, k, ProvenNotReversed))
    case _ => true
  }

  /** A final status rests on what the newest attempt's provider call returned, or on a
      proven observation of that kind logged for that parked attempt. */
  lemma FinalStatusHasEvidence(w: World, a: nat) returns (k: nat)
    requires Reached(w) && a < |w.db.actions|
    requires w.db.actions[a].status in {Reversed, PartiallyReversed, ReverseFailed}
    ensures k < |w.db.attempts| && k < |w.trail|
    ensures w.db.attempts[k].actionId == a && Newest(w.db.attempts, k)
    ensures Justified(w, k, w.db.actions[a].status)
  {
    hide Reached;
    ReachableInv(w);
    if Untouched(w.db.attempts, a) {
      assert false;
    }
    k := NewestExists(w.db.attempts, a);
    assert AttemptOk(w.db, w.trail, k);
    ReturnedMeans(w.trail[k]);
  }

  lemma ReturnedMeans(t: Trail)
    ensures t.returned.Some? && Settle(t.returned.value).Conclude? ==>
      var s := Settle(t.returned.value);
      && (s.observed == ObsReversed ==> t.returned.value.Output? && t.returned.value.outcome == OutReversed)
      && (s.observed == ObsPartiallyReversed ==>
            t.returned.value.Output? && t.returned.value.outcome == OutPartiallyReversed)
      && (s.observed == ObsReverseFailed && s.retryClass != Some(Retryable) ==>
            || (t.returned.value.Output? && t.returned.value.outcome == OutReverseFailed)
            || (t.returned.value.Failure? && t.returned.value.failureClass == Some(NonRetryable)))
  {
  }

  /** Restart and recovery never conclude an attempt and never call a provider. */
  lemma RecoveryConcludesNothing(w: World, l: Label)
    requires Reached(w) && Enabled(w, l) && (l.LCrash? || l.LRestart? || l.LRecover?)
    ensures var v := Apply(w, l);
      && v.trail == w.trail && |v.db.attempts| == |w.db.attempts|
      && (forall k :: 0 <= k < |w.db.attempts| ==>
            && v.db.attempts[k].observed == w.db.attempts[k].observed
            && (v.db.attempts[k].state == Concluded <==> w.db.attempts[k].state == Concluded))
      && (forall a :: 0 <= a < |w.db.actions| ==>
            v.db.actions[a].status == w.db.actions[a].status || v.db.actions[a].status == OutcomeUnknown)
  {
    ReachableInv(w);
    if l.LRecover? {
      if w.phase.pending != [] && w.phase.marked {
        RecoveryMovesOn(w);
        hide Inv;
      } else {
        hide Inv;
      }
    }
  }

  // ------------------------------------------------------- a truthful provider

  /** The provider claims success only of what happened, and a proven lookup finds only
      what happened. */
  predicate Truthful(w: World, l: Label)
    requires Enabled(w, l)
  {
    match l
    case LCall(_, ret, effect) => ret.Output? && ret.outcome == OutReversed ==> effect
    case LLookup(tid, lookup) =>
      var k := w.threads[tid].rpc.attempt;
      lookup.Lookup? && lookup.outcome == OutReversed && lookup.proven ==> k < |w.trail| && w.trail[k].effect
    case _ => true
  }

  ghost predicate TruthfulRun(w: World, ls: seq<Label>)
    requires CanRun(w, ls)
    decreases |ls|
  {
    ls == [] || (Truthful(w, ls[0]) && TruthfulRun(Apply(w, ls[0]), ls[1..]))
  }

  predicate ClaimsReversed(t: Trail) {
    t.returned.Some? && t.returned.value.Output? && t.returned.value.outcome == OutReversed
  }

  predicate FoundReversed(t: Thread) {
    t.Reconciler? && t.rpc.RecObserve? && t.rpc.evidence == ProvenReversed
  }

  predicate TookEffect(w: World, k: nat) {
    k < |w.trail| && w.trail[k].effect
  }

  /** Every claim of success, told or about to be logged, is true. */
  ghost predicate ClaimsHold(w: World) {
    && (forall k :: 0 <= k < |w.trail| && ClaimsReversed(w.trail[k]) ==> w.trail[k].effect)
    && (forall i :: 0 <= i < |w.db.observations| && w.db.observations[i].evidence == ProvenReversed ==>
          TookEffect(w, w.db.observations[i].attemptId))
    && (forall tid :: tid in w.threads && FoundReversed(w.threads[tid]) ==>
          TookEffect(w, w.threads[tid].rpc.attempt))
  }

  /** A step that calls nobody and logs nothing. */
  lemma OthersKeepClaims(w: World, v: World)
    requires ClaimsHold(w) && v.trail == w.trail && v.db.observations == w.db.observations
    requires forall i :: i in v.threads ==>
      (i in w.threads && v.threads[i] == w.threads[i]) || !FoundReversed(v.threads[i])
    ensures ClaimsHold(v)
  {
  }

  lemma RecordKeepsClaims(w: World, tid: nat, at: Instant)
    requires Enabled(w, LRecord(tid, at)) && ClaimsHold(w)
    ensures ClaimsHold(Apply(w, LRecord(tid, at)))
  {
    hide Apply, Enabled;
    RecordStepMoves(w, tid, at);
    hide Settle, ClaimsHold;
    OthersKeepClaims(w, Apply(w, LRecord(tid, at)));
  }

  lemma BusinessKeepsClaims(w: World, l: Label)
    requires Enabled(w, l) && ClaimsHold(w)
    requires !l.LStep? && !l.LRecover? && !l.LCall? && !l.LLookup? && !l.LRecConclude? && !l.LRecord?
    ensures ClaimsHold(Apply(w, l))
  {
    hide ClaimsHold;
    OthersKeepClaims(w, Apply(w, l));
  }

  lemma TruthfulStepKeepsClaims(w: World, l: Label)
    requires Enabled(w, l) && Truthful(w, l) && ClaimsHold(w)
    ensures ClaimsHold(Apply(w, l))
  {
    hide ClaimsHold, RequestStep, ReconcileStep, RecoverStep, RecordReturn, Truthful, CallProvider, ConcludeReconciled;
    match l
    case LStep(tid) =>
      if w.threads[tid].Request? { RequestKeepsClaims(w, tid); } else { ReconcilerKeepsClaims(w, tid); }
    case LRecover => RecoveryKeepsClaims(w);
    case LCall(tid, ret, effect) => CallKeepsClaims(w, tid, ret, effect);
    case LLookup(tid, lookup) => LookupKeepsClaims(w, tid, lookup);
    case LRecConclude(tid, at) => ConcludeKeepsClaims(w, tid, at);
    case LRecord(tid, at) => RecordKeepsClaims(w, tid, at);
    case _ => BusinessKeepsClaims(w, l);
  }

  lemma LookupKeepsClaims(w: World, tid: nat, lookup: LookupReturn)
    requires Enabled(w, LLookup(tid, lookup)) && Truthful(w, LLookup(tid, lookup)) && ClaimsHold(w)
    ensures ClaimsHold(Apply(w, LLookup(tid, lookup)))
  {
  }

  lemma ConcludeKeepsClaims(w: World, tid: nat, at: Instant)
    requires Enabled(w, LRecConclude(tid, at)) && ClaimsHold(w)
    ensures ClaimsHold(Apply(w, LRecConclude(tid, at)))
  {
  }

  lemma CallKeepsClaims(w: World, tid: nat, ret: ProviderReturn, effect: bool)
    requires Enabled(w, LCall(tid, ret, effect)) && Truthful(w, LCall(tid, ret, effect)) && ClaimsHold(w)
    ensures ClaimsHold(Apply(w, LCall(tid, ret, effect)))
  {
  }

  lemma RequestKeepsClaims(w: World, tid: nat)
    requires HasPc(w, tid) && ClaimsHold(w)
    ensures ClaimsHold(RequestStep(w, tid))
  {
    var pc := w.threads[tid].pc;
    if !pc.Poll? && !pc.Call? && !pc.Record? {
      RequestStepMoves(w, tid);
      hide RequestStep, Begin;
    }
  }

  lemma ReconcilerKeepsClaims(w: World, tid: nat)
    requires HasRpc(w, tid) && ClaimsHold(w)
    ensures ClaimsHold(ReconcileStep(w, tid))
  {
    var v := ReconcileStep(w, tid);
    if !w.threads[tid].rpc.RecLookup? && !w.threads[tid].rpc.RecConclude? {
      ReconcileStepMoves(w, tid);
      hide ReconcileStep;
      assert forall i :: 0 <= i < |w.db.observations| ==> v.db.observations[i] == w.db.observations[i];
    }
  }

  lemma RecoveryKeepsClaims(w: World)
    requires w.phase.Recovering? && ClaimsHold(w)
    ensures ClaimsHold(RecoverStep(w))
  {
  }

  lemma {:induction false} TruthfulRunKeepsClaims(w: World, ls: seq<Label>)
    requires Inv(w) && ClaimsHold(w) && CanRun(w, ls) && TruthfulRun(w, ls)
    ensures ClaimsHold(Run(w, ls))
    decreases |ls|
  {
    hide Apply, Enabled, Inv, ClaimsHold, Truthful;
    if ls != [] {
      TruthfulStepKeepsClaims(w, ls[0]);
      StepKeeps(w, ls[0]);
      TruthfulRunKeepsClaims(Apply(w, ls[0]), ls[1..]);
    }
  }

  /** With a truthful provider, an Action is REVERSED only if the provider really carried
      out its newest attempt. */
  lemma ReversedIsTrue(ls: seq<Label>, a: nat) returns (k: nat)
    requires CanRun(INIT, ls) && TruthfulRun(INIT, ls)
    requires a < |Run(INIT, ls).db.actions| && Run(INIT, ls).db.actions[a].status == Reversed
    ensures var w := Run(INIT, ls);
      && k < |w.db.attempts| && k < |w.trail|
      && w.db.attempts[k].actionId == a && Newest(w.db.attempts, k) && w.trail[k].effect
  {
    hide Run, CanRun;
    var w := Run(INIT, ls);
    k := FinalStatusHasEvidence(w, a);
    TruthfulRunKeepsClaims(INIT, ls);
  }
}
