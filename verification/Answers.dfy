/** What a reversal answers and records, case by case: the refusals on the Action's row and
    edges as the request finds them, the rows on what the provider returned. */
module Answers {
  import opened Domain
  import opened Timestamp
  import opened Records
  import opened ResourceApi
  import opened Services

  // ------------------------------------------------------------- what is recorded

  /** An execution, return by return: the attempt's whole row, the Action's status with its
      history entry, the answer, and nothing else. A return outside the vocabulary records
      nothing at all. */
  lemma ExecuteRecords(db: Tables, scope: string, a: nat, k: nat, now: Instant, foreign: ProviderReturn, at: Instant)
    requires IsThere(db, scope, a) && db.actions[a].status == Reversing && k < |db.attempts|
    requires db.attempts[k] == AttemptRow(a, now, Running, None, Some(RopRev(k)), None, None, None)
    ensures var (called, ret) := CallReverse(db, a, foreign);
      var (next, reply) := Execute(db, scope, a, k, foreign, at);
      var ref := Some(RopRev(k));
      match ret
      case Output(OutReversed, m) =>
        && next == Left(called, a, k, Reversed, at,
          AttemptRow(a, now, Concluded, Some(ObsReversed), ref, None, None, Some(at)))
        && reply == Ok(Result(k, a, Reversed, OutReversed, at, ref, m))
      case Output(OutPartiallyReversed, m) =>
        && next == Left(called, a, k, PartiallyReversed, at,
          AttemptRow(a, now, Concluded, Some(ObsPartiallyReversed), ref, None, None, Some(at)))
        && reply == Ok(Result(k, a, PartiallyReversed, OutPartiallyReversed, at, ref, m))
      case Output(OutReverseFailed, m) =>
        && next == Left(called, a, k, ReverseFailed, at,
          AttemptRow(a, now, Concluded, Some(ObsReverseFailed), ref, Some(m), None, Some(at)))
        && reply == Ok(Result(k, a, ReverseFailed, OutReverseFailed, at, ref, m))
      case Output(OutConflict, m) =>
        && next == Left(called, a, k, Applied, at,
          AttemptRow(a, now, Concluded, Some(ObsConflict), ref,
            Some(if m == "" then "correctness-critical precondition failed" else m), None, Some(at)))
        && reply == Ok(Result(k, a, Applied, OutConflict, at, ref, m))
      case Output(OutUnknown, m) =>
        && next == Left(called, a, k, OutcomeUnknown, at,
          AttemptRow(a, now, Awaiting, None, ref, Some(m), Some(ReconcileRequired), None))
        && reply == Ok(Result(k, a, OutcomeUnknown, OutUnknown, at, ref, m))
      case Output(OutOther(_), _) => next == called && reply == Refused(UnknownProviderOutcome)
      case Failure(Some(Retryable), m) =>
        && next == Left(called, a, k, Applied, at,
          AttemptRow(a, now, Concluded, Some(ObsReverseFailed), ref, Some(m), Some(Retryable), Some(at)))
        && reply == Ok(Result(k, a, Applied, OutReverseFailed, at, ref, m))
      case Failure(Some(NonRetryable), m) =>
        && next == Left(called, a, k, ReverseFailed, at,
          AttemptRow(a, now, Concluded, Some(ObsReverseFailed), ref, Some(m), Some(NonRetryable), Some(at)))
        && reply == Ok(Result(k, a, ReverseFailed, OutReverseFailed, at, ref, m))
      case Failure(Some(c), m) =>
        && next == Left(called, a, k, OutcomeUnknown, at,
          AttemptRow(a, now, Awaiting, None, ref, Some(m), Some(c), None))
        && reply == Ok(Result(k, a, OutcomeUnknown, OutUnknown, at, ref, m))
      case Failure(None, m) =>
        && next == Left(called, a, k, OutcomeUnknown, at,
          AttemptRow(a, now, Awaiting, None, ref, Some(m), Some(ReconcileRequired), None))
        && reply == Ok(Result(k, a, OutcomeUnknown, OutUnknown, at, ref, m))
  {
    CallKeepsJournal(db, a, foreign);
    hide CallReverse;
  }

  /** The tables with this attempt row and the Action, until then REVERSING, at this status. */
  function Left(db: Tables, a: nat, k: nat, to: Status, at: Instant, row: AttemptRow): Tables
    requires a < |db.actions| && k < |db.attempts|
  {
    db.(attempts := db.attempts[k := row], actions := db.actions[a := db.actions[a].(status := to)],
        history := db.history + [HistoryRow(a, Some(Reversing), to, at)])
  }

  /** Undoing a creation: the row goes if this Action created it and it is not published;
      otherwise nothing changes and the reason says why. */
  lemma ReverseCreateAnswers(db: Tables, a: nat, foreign: ProviderReturn)
    requires a < |db.actions| && db.actions[a].op == CreateOp
    ensures var (called, ret) := CallReverse(db, a, foreign);
      var row, id := db.actions[a], db.actions[a].resourceId;
      if id in db.resources && db.resources[id].createdFrom == a && !db.resources[id].published then
        called == db.(resources := db.resources - {id}) && ret == Output(OutReversed, "")
      else
        && called == db
        && ret == Output(OutConflict,
          if id !in db.resources || db.resources[id].scope != row.scope
          then "resource no longer exists; refusing unsafe restore"
          else if db.resources[id].published then "resource has been published since creation; reversal refused"
          else "resource was not created by this action; reversal refused")
  {
  }

  /** Undoing an update: the captured state comes back if the unpublished row is at the version
      this Action produced. */
  lemma ReverseUpdateAnswers(db: Tables, a: nat, foreign: ProviderReturn)
    requires a < |db.actions| && db.actions[a].op == UpdateOp
    ensures var (called, ret) := CallReverse(db, a, foreign);
      var row, id, m := db.actions[a], db.actions[a].resourceId, db.actions[a].material;
      if !m.UpdateMaterial? then
        && called == db
        && ret == Output(OutReverseFailed, "reversal material missing or malformed; refusing to guess prior state")
      else if id in db.resources && db.resources[id].version == m.expectedVersion && !db.resources[id].published then
        && called == db.(resources := db.resources[id :=
            db.resources[id].(value := m.previousValue, version := m.previousVersion)])
        && ret == Output(OutReversed, "")
      else
        && called == db
        && ret == Output(OutConflict,
          if id !in db.resources || db.resources[id].scope != row.scope
          then "resource no longer exists; refusing unsafe restore"
          else if db.resources[id].published then "resource has been published; restoration refused"
          else "concurrent mutation detected; refusing destructive restore")
  {
  }

  /** Undoing a notification: it is withdrawn if this Action sent it and it still stands. */
  lemma ReverseNotifyAnswers(db: Tables, a: nat, foreign: ProviderReturn)
    requires a < |db.actions| && db.actions[a].op == NotifyOp
    ensures var (called, ret) := CallReverse(db, a, foreign);
      var row, m := db.actions[a], db.actions[a].material;
      var n := if m.NotifyMaterial? then m.notificationId else 0;
      var there := m.NotifyMaterial? && n in db.notifications;
      if there && db.notifications[n].createdFrom == a && db.notifications[n].status == Sent then
        && called == db.(notifications := db.notifications[n := db.notifications[n].(status := Withdrawn)])
        && ret == Output(OutPartiallyReversed, "")
      else
        && called == db
        && ret == Output(OutConflict,
          if !there || db.notifications[n].scope != row.scope
          then "notification no longer exists; refusing unsafe state change"
          else if db.notifications[n].status == Withdrawn then "notification already withdrawn"
          else "notification was not created by this action")
  {
  }

  // ------------------------------------------------------------- what is refused

  /** The window has ended. */
  predicate IsOver(row: ActionRow, now: Instant) {
    row.expiresAt.Some? && row.expiresAt.value <= now
  }

  predicate IsForGood(row: ActionRow) {
    row.reversibility == NotReversible || row.status == Irreversible
  }

  /** Nothing on the Action's own row stands in the way. */
  predicate IsEligible(db: Tables, scope: string, a: nat, now: Instant) {
    IsThere(db, scope, a) && !IsForGood(db.actions[a]) && db.actions[a].status == Applied && !IsOver(db.actions[a], now)
  }

  predicate CannotReverse(op: Op) {
    op.PublishOp? || (op.ExternalOp? && !op.canReverse)
  }

  predicate IsUnderWay(db: Tables, a: nat) {
    exists k :: 0 <= k < |db.attempts| && db.attempts[k].actionId == a && db.attempts[k].state != Concluded
  }

  /** No dependent is missing and none stands. */
  ghost predicate IsUnblocked(db: Tables, scope: string, a: nat) {
    !SomeMissing(db, scope, a) && !SomeStanding(db, scope, a)
  }

  /** What a request without a registered key is refused with: exactly when, on the Action's row,
      its edges and its attempts as the request finds them. */
  ghost predicate IsRefusedWith(db: Tables, scope: string, a: nat, now: Instant, foreign: ProviderReturn, p: Problem) {
    match p
    case ActionNotFound => !IsThere(db, scope, a)
    case IrreversibleAction => IsThere(db, scope, a) && IsForGood(db.actions[a])
    case ReversalExpired =>
      && IsThere(db, scope, a) && !IsForGood(db.actions[a])
      && (db.actions[a].status == Expired || (db.actions[a].status == Applied && IsOver(db.actions[a], now)))
    case AlreadyInProgress =>
      || (IsThere(db, scope, a) && !IsForGood(db.actions[a])
          && (db.actions[a].status == Reversing || db.actions[a].status == OutcomeUnknown))
      || (IsEligible(db, scope, a, now) && IsUnblocked(db, scope, a) && !CannotReverse(db.actions[a].op)
          && IsUnderWay(db, a))
    case PreconditionFailed =>
      && IsThere(db, scope, a) && !IsForGood(db.actions[a])
      && db.actions[a].status in {Reversed, PartiallyReversed, ReverseFailed}
    case DataInconsistency => IsEligible(db, scope, a, now) && SomeMissing(db, scope, a)
    case DependencyExists =>
      IsEligible(db, scope, a, now) && !SomeMissing(db, scope, a) && SomeStanding(db, scope, a)
    case CapabilityUnavailable =>
      IsEligible(db, scope, a, now) && IsUnblocked(db, scope, a) && CannotReverse(db.actions[a].op)
    case UnknownProviderOutcome =>
      && IsEligible(db, scope, a, now) && IsUnblocked(db, scope, a) && !IsUnderWay(db, a)
      && db.actions[a].op.ExternalOp? && db.actions[a].op.canReverse
      && foreign.Output? && foreign.outcome.OutOther?
    case _ => false
  }

  lemma ObstacleIsExact(db: Tables, scope: string, a: nat)
    ensures var p := Obstacle(db, scope, a);
      && (p == Some(ActionNotFound) <==> !IsThere(db, scope, a))
      && (p == Some(IrreversibleAction) <==> IsThere(db, scope, a) && IsForGood(db.actions[a]))
      && (p == Some(ReversalExpired) <==>
            IsThere(db, scope, a) && !IsForGood(db.actions[a]) && db.actions[a].status == Expired)
      && (p == Some(AlreadyInProgress) <==>
            && IsThere(db, scope, a) && !IsForGood(db.actions[a])
            && (db.actions[a].status == Reversing || db.actions[a].status == OutcomeUnknown))
      && (p == Some(PreconditionFailed) <==>
            && IsThere(db, scope, a) && !IsForGood(db.actions[a])
            && db.actions[a].status in {Reversed, PartiallyReversed, ReverseFailed})
      && (p == Some(DataInconsistency) <==> StandsClear(db, scope, a) && SomeMissing(db, scope, a))
      && (p == Some(DependencyExists) <==>
            StandsClear(db, scope, a) && !SomeMissing(db, scope, a) && SomeStanding(db, scope, a))
      && (p == Some(CapabilityUnavailable) <==>
            StandsClear(db, scope, a) && IsUnblocked(db, scope, a) && CannotReverse(db.actions[a].op))
      && (p == None <==> StandsClear(db, scope, a) && IsUnblocked(db, scope, a) && !CannotReverse(db.actions[a].op))
  {
    var places := BlockingIsExact(db, scope, a);
    hide Blocking, SomeMissing, SomeStanding, StillStands;
  }

  /** APPLIED after the sweep. */
  predicate StandsClear(db: Tables, scope: string, a: nat) {
    IsThere(db, scope, a) && !IsForGood(db.actions[a]) && db.actions[a].status == Applied
  }

  /** The sweep changes no answer but that of an Action whose window it closes. */
  lemma SweptIsSame(db: Tables, scope: string, a: nat, now: Instant)
    ensures var swept := Sweep(db, now);
      && (IsThere(swept, scope, a) <==> IsThere(db, scope, a))
      && (IsThere(db, scope, a) ==>
            && (IsForGood(swept.actions[a]) <==> IsForGood(db.actions[a]))
            && swept.actions[a].op == db.actions[a].op
            && swept.actions[a].status ==
              if db.actions[a].status == Applied && IsOver(db.actions[a], now) then Expired else db.actions[a].status)
      && (SomeMissing(swept, scope, a) <==> SomeMissing(db, scope, a))
      && (SomeStanding(swept, scope, a) <==> SomeStanding(db, scope, a))
      && swept.attempts == db.attempts && swept.keys == db.keys
  {
    SweepIsExact(db, now);
    var swept := Sweep(db, now);
    hide Sweep;
    assert swept.edges == db.edges;
    assert forall d: nat :: StillStands(swept, d) <==> StillStands(db, d);
    assert forall d: nat :: IsThere(swept, scope, d) <==> IsThere(db, scope, d);
    hide StillStands, IsThere;
  }

  /** The key, if there is one, is registered for nothing yet. */
  predicate IsNewKey(db: Tables, scope: string, key: Option<string>) {
    key.Some? ==> (scope, key.value) !in db.keys
  }

  lemma BeginsUnlessUnderWay(db: Tables, scope: string, a: nat, key: Option<string>, now: Instant)
    requires StandsClear(db, scope, a) && IsNewKey(db, scope, key)
    ensures var r := Begin(db, scope, a, key, now);
      && (IsUnderWay(db, a) ==> r == Failed(AttemptInProgress))
      && (!IsUnderWay(db, a) ==> r == Written(Accepted(db, scope, a, key, now)))
  {
  }

  /** Attempt, status, history entry and key record of a reversal that has begun. */
  function Accepted(db: Tables, scope: string, a: nat, key: Option<string>, now: Instant): Tables
    requires a < |db.actions|
  {
    var k := |db.attempts|;
    db.(attempts := db.attempts + [AttemptRow(a, now, Running, None, Some(RopRev(k)), None, None, None)],
        actions := db.actions[a := db.actions[a].(status := Reversing)],
        history := db.history + [HistoryRow(a, Some(Applied), Reversing, now)],
        keys := if key.None? then db.keys else db.keys[(scope, key.value) := KeyRow(a, Fingerprint(scope, a), k)])
  }

  /** A request without a registered key is refused before its transaction, or by it, or goes on
      to the provider with exactly the attempt, status, history and key it began with. */
  lemma ServeGoesOn(db: Tables, scope: string, a: nat, key: Option<string>, now: Instant, foreign: ProviderReturn,
      at: Instant)
    requires IsNewKey(db, scope, key)
    ensures var swept := Sweep(db, now);
      Serve(db, scope, a, key, now, foreign, at) ==
        if Obstacle(swept, scope, a).Some? then (swept, Refused(Obstacle(swept, scope, a).value))
        else if IsUnderWay(db, a) || a >= |swept.actions| then (swept, Refused(AlreadyInProgress))
        else Execute(Accepted(swept, scope, a, key, now), scope, a, |db.attempts|, foreign, at)
  {
    var swept := Sweep(db, now);
    SweptIsSame(db, scope, a, now);
    ObstacleIsExact(swept, scope, a);
    if Obstacle(swept, scope, a).None? {
      BeginsUnlessUnderWay(swept, scope, a, key, now);
    }
    hide Sweep, Obstacle, Begin, Execute, Replay, SomeMissing, SomeStanding;
  }

  lemma DemoStaysInVocabulary(db: Tables, a: nat, foreign: ProviderReturn)
    requires a < |db.actions| && !CannotReverse(db.actions[a].op)
    ensures var ret := CallReverse(db, a, foreign).1;
      if db.actions[a].op.ExternalOp? then ret == foreign else ret.Output? && !ret.outcome.OutOther?
  {
    hide ConflictReason, CanReverse, ReverseEffect;
  }

  /** Only a return outside the vocabulary is refused. */
  lemma ExecuteRefuses(db: Tables, scope: string, a: nat, k: nat, now: Instant, foreign: ProviderReturn, at: Instant)
    requires IsThere(db, scope, a) && db.actions[a].status == Reversing && k < |db.attempts|
    requires db.attempts[k] == AttemptRow(a, now, Running, None, Some(RopRev(k)), None, None, None)
    ensures var (reply, ret) := (Execute(db, scope, a, k, foreign, at).1, CallReverse(db, a, foreign).1);
      && (reply.Refused? ==> reply.problem == UnknownProviderOutcome)
      && (reply.Refused? <==> ret.Output? && ret.outcome.OutOther?)
  {
    hide Execute, CallReverse, Left;
    CallKeepsJournal(db, a, foreign);
    ExecuteRecords(db, scope, a, k, now, foreign, at);
  }

  /** What an accepted request answers: only a foreign return outside the vocabulary is refused. */
  lemma AcceptedAnswers(db: Tables, scope: string, a: nat, key: Option<string>, now: Instant, foreign: ProviderReturn,
      at: Instant)
    requires IsThere(db, scope, a) && !CannotReverse(db.actions[a].op)
    ensures var reply := Execute(Accepted(db, scope, a, key, now), scope, a, |db.attempts|, foreign, at).1;
      && (reply.Refused? ==> reply.problem == UnknownProviderOutcome)
      && (reply.Refused? <==> db.actions[a].op.ExternalOp? && foreign.Output? && foreign.outcome.OutOther?)
  {
    var begun := Accepted(db, scope, a, key, now);
    hide Execute, CallReverse;
    ExecuteRefuses(begun, scope, a, |db.attempts|, now, foreign, at);
    DemoStaysInVocabulary(begun, a, foreign);
  }

  /** Every refusal, exactly: for each Problem a request without a registered key is answered
      with it if and only if the tables it finds say so; and a refusal leaves the swept tables,
      unless the provider was asked. */
  lemma RefusalsAreExact(db: Tables, scope: string, a: nat, key: Option<string>, now: Instant, foreign: ProviderReturn,
      at: Instant, p: Problem)
    requires IsNewKey(db, scope, key)
    ensures var (next, reply) := Serve(db, scope, a, key, now, foreign, at);
      && (reply == Refused(p) <==> IsRefusedWith(db, scope, a, now, foreign, p))
      && (reply == Refused(p) && p != UnknownProviderOutcome ==> next == Sweep(db, now))
  {
    hide Sweep, Obstacle, Execute, Serve, SomeMissing, SomeStanding, IsUnderWay, Accepted;
    var swept := Sweep(db, now);
    SweptIsSame(db, scope, a, now);
    ObstacleIsExact(swept, scope, a);
    ServeGoesOn(db, scope, a, key, now, foreign, at);
    if Obstacle(swept, scope, a).None? && !IsUnderWay(db, a) {
      AcceptedAnswers(swept, scope, a, key, now, foreign, at);
    }
  }

  /** Every other such request is accepted: it begins with this attempt, status, history entry and
      key record, and what its one execution leaves and answers is what it leaves and answers. */
  lemma AcceptedIsExecuted(db: Tables, scope: string, a: nat, key: Option<string>, now: Instant,
      foreign: ProviderReturn, at: Instant)
    requires IsNewKey(db, scope, key) && IsEligible(db, scope, a, now) && IsUnblocked(db, scope, a)
    requires !CannotReverse(db.actions[a].op) && !IsUnderWay(db, a)
    ensures a < |Sweep(db, now).actions|
    ensures Serve(db, scope, a, key, now, foreign, at)
      == Execute(Accepted(Sweep(db, now), scope, a, key, now), scope, a, |db.attempts|, foreign, at)
  {
    SweptIsSame(db, scope, a, now);
    ObstacleIsExact(Sweep(db, now), scope, a);
    ServeGoesOn(db, scope, a, key, now, foreign, at);
    hide Sweep, Obstacle, Execute, Serve, SomeMissing, SomeStanding, IsUnderWay, Accepted;
  }

  /** A registered key: refused when it was registered for other request semantics, otherwise
      answered from the rows, field by field, and only the sweep is written. */
  lemma RegisteredKeyAnswers(db: Tables, scope: string, a: nat, key: string, now: Instant, foreign: ProviderReturn,
      at: Instant)
    requires (scope, key) in db.keys
    ensures var (next, reply) := Serve(db, scope, a, Some(key), now, foreign, at);
      var named := db.keys[(scope, key)];
      && next == Sweep(db, now)
      && if named.fingerprint != Fingerprint(scope, a) then reply == Refused(KeyConflict)
        else if named.attemptId >= |db.attempts| || !IsThere(db, scope, named.actionId)
        then reply == Refused(DataInconsistency)
        else
          var row, action := db.attempts[named.attemptId], db.actions[named.actionId];
          && reply.Ok?
          && Tells(reply.result, named.attemptId, row,
              if action.status == Applied && IsOver(action, now) then Expired else action.status)
  {
    SweptIsSame(db, scope, a, now);
    SweptIsSame(db, scope, db.keys[(scope, key)].actionId, now);
    hide Sweep, Obstacle, Execute, Begin, SomeMissing, SomeStanding;
  }
}
