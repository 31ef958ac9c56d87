/** Reconciliation: one read-only lookup, its evidence logged before anything moves, and an
    exit from OUTCOME_UNKNOWN on proven evidence alone. */
module Reconciliation {
  import opened Domain
  import opened Timestamp
  import opened Records
  import opened Protocol
  import opened Invariant
  import opened Refinement
  import opened Services
  import opened Storage

  /** One reconciliation round by itself: what it leaves and what it answers. */
  function Reconciled(db: Tables, scope: string, a: nat, now: Instant, lookup: LookupReturn, at: Instant):
      (Tables, Reply)
  {
    match GetAction(db, scope, a)
    case None => (db, Refused(ActionNotFound))
    case Some(row) =>
      var open := OpenAttempt(db.attempts, a);
      if open.None? || db.attempts[open.value].state != Awaiting then (db, ReplayLatest(db, a, row.status))
      else if row.status != OutcomeUnknown then (db, Refused(DataInconsistency))
      else if !row.op.HasReconcile() then (db, Refused(CapabilityUnavailable))
      else Resolve(db, scope, a, open.value, now, EvidenceOf(lookup), at)
  }

  /** Nothing is uncertain: project the latest attempt. */
  function ReplayLatest(db: Tables, a: nat, status: Status): Reply {
    match LatestAttempt(db.attempts, a)
    case None => Refused(PreconditionFailed)
    case Some(k) => Ok(Reconstruct(k, db.attempts[k], status))
  }

  function Logged(db: Tables, k: nat, now: Instant, e: Evidence): Tables {
    db.(observations := db.observations + [ObservationRow(k, now, e)])
  }

  function Resolve(db: Tables, scope: string, a: nat, k: nat, now: Instant, e: Evidence, at: Instant): (Tables, Reply)
    requires a < |db.actions| && k < |db.attempts|
  {
    var logged := Logged(db, k, now, e);
    if e == Inconclusive then (logged, Ok(Reconstruct(k, logged.attempts[k], logged.actions[a].status)))
    else
      var concluded := ConcludeAttempt(logged, k, ProvenObservation(e), None, None, at);
      match UpdateStatus(concluded, scope, a, OutcomeUnknown, ProvenStatus(e), at)
      case Failed(_) => (concluded, Refused(StatusMismatch))
      case Written(next) => (next, Ok(Reconstruct(k, next.attempts[k], next.actions[a].status)))
  }

  // ------------------------------------------------------------ the evidence gate

  /** There is an outcome to resolve, and a lookup that may resolve it. */
  predicate IsUncertain(db: Tables, scope: string, a: nat, k: nat) {
    && a < |db.actions| && db.actions[a].scope == scope && db.actions[a].status == OutcomeUnknown
    && db.actions[a].op.HasReconcile()
    && k < |db.attempts| && db.attempts[k].actionId == a && db.attempts[k].state == Awaiting
  }

  lemma OnlyOneIsOpen(w: World, a: nat, k: nat)
    requires Inv(w) && k < |w.db.attempts| && w.db.attempts[k].actionId == a && IsOpen(w.db.attempts[k])
    ensures OpenAttempt(w.db.attempts, a) == Some(k)
  {
  }

  lemma UncertainIsOpen(w: World, scope: string, a: nat, now: Instant, lookup: LookupReturn, at: Instant)
    requires Inv(w)
    ensures forall k: nat :: IsUncertain(w.db, scope, a, k) ==>
      Reconciled(w.db, scope, a, now, lookup, at) == Resolve(w.db, scope, a, k, now, EvidenceOf(lookup), at)
    ensures (forall k: nat :: !IsUncertain(w.db, scope, a, k)) ==> Reconciled(w.db, scope, a, now, lookup, at).0 == w.db
  {
    forall k: nat | IsUncertain(w.db, scope, a, k)
      ensures Reconciled(w.db, scope, a, now, lookup, at) == Resolve(w.db, scope, a, k, now, EvidenceOf(lookup), at)
    {
      OnlyOneIsOpen(w, a, k);
    }
    if forall k: nat :: !IsUncertain(w.db, scope, a, k) {
      var open := OpenAttempt(w.db.attempts, a);
      assert open.Some? ==> !IsUncertain(w.db, scope, a, open.value);
    }
  }

  predicate ProvesReversal(lookup: LookupReturn) {
    lookup.Lookup? && lookup.outcome == OutReversed && lookup.proven
  }

  predicate ProvesFailure(lookup: LookupReturn) {
    lookup.Lookup? && lookup.outcome == OutReverseFailed && lookup.proven
  }

  /** A round over an uncertain attempt, on the lookup itself: the evidence logged, the attempt's
      row, the Action, its history entry, the answer, and nothing else. */
  predicate RoundIs(db: Tables, k: nat, a: nat, now: Instant, at: Instant, lookup: LookupReturn, next: Tables,
      reply: Reply)
    requires k < |db.attempts| && a < |db.actions|
  {
    var row := db.attempts[k];
    var text := if row.error.Some? then row.error.value else "";
    if ProvesReversal(lookup) then
      && next == db.(
          observations := db.observations + [ObservationRow(k, now, ProvenReversed)],
          attempts := db.attempts[k :=
            row.(state := Concluded, observed := Some(ObsReversed), concludedAt := Some(at))],
          actions := db.actions[a := db.actions[a].(status := Reversed)],
          history := db.history + [HistoryRow(a, Some(OutcomeUnknown), Reversed, at)])
      && reply == Ok(Result(k, a, Reversed, OutReversed, at, row.providerRef, text))
    else if ProvesFailure(lookup) then
      && next == db.(
          observations := db.observations + [ObservationRow(k, now, ProvenNotReversed)],
          attempts := db.attempts[k :=
            row.(state := Concluded, observed := Some(ObsReverseFailed), concludedAt := Some(at))],
          actions := db.actions[a := db.actions[a].(status := ReverseFailed)],
          history := db.history + [HistoryRow(a, Some(OutcomeUnknown), ReverseFailed, at)])
      && reply == Ok(Result(k, a, ReverseFailed, OutReverseFailed, at, row.providerRef, text))
    else
      && next == db.(observations := db.observations + [ObservationRow(k, now, Inconclusive)])
      && reply == Ok(Result(k, a, OutcomeUnknown, OutUnknown, row.requestedAt, row.providerRef, text))
  }

  lemma ResolveIsRound(db: Tables, scope: string, a: nat, k: nat, now: Instant, lookup: LookupReturn, at: Instant)
    requires IsUncertain(db, scope, a, k) && RowOk(k, db.attempts[k])
    ensures var (next, reply) := Resolve(db, scope, a, k, now, EvidenceOf(lookup), at);
      RoundIs(db, k, a, now, at, lookup, next, reply)
  {
  }

  /** In every reachable state: with nothing uncertain, nothing is written. Otherwise a lookup that
      proves the reversal or proves its failure, and no other, concludes the attempt and moves the
      Action; any other lookup, a failed one included, logs an inconclusive observation and
      changes nothing else. */
  lemma OnlyProvenEvidenceResolves(w: World, scope: string, a: nat, now: Instant, lookup: LookupReturn, at: Instant)
    requires Reached(w)
    ensures var (next, reply) := Reconciled(w.db, scope, a, now, lookup, at);
      && ((forall k: nat :: !IsUncertain(w.db, scope, a, k)) ==> next == w.db)
      && forall k: nat :: IsUncertain(w.db, scope, a, k) ==>
          && RoundIs(w.db, k, a, now, at, lookup, next, reply)
          && a < |next.actions|
          && (next.actions[a].status != OutcomeUnknown <==>
                lookup == Lookup(OutReversed, true) || lookup == Lookup(OutReverseFailed, true))
  {
    ReachableInv(w);
    UncertainIsOpen(w, scope, a, now, lookup, at);
    forall k: nat | IsUncertain(w.db, scope, a, k)
      ensures RoundIs(w.db, k, a, now, at, lookup, Reconciled(w.db, scope, a, now, lookup, at).0,
        Reconciled(w.db, scope, a, now, lookup, at).1)
    {
      assert AttemptOk(w.db, w.trail, k);
      ResolveIsRound(w.db, scope, a, k, now, lookup, at);
    }
    hide Inv, Reached, Reconciled, EvidenceOf, AttemptOk;
  }

  predicate HasAwaiting(db: Tables, a: nat) {
    exists k :: 0 <= k < |db.attempts| && db.attempts[k].actionId == a && db.attempts[k].state == Awaiting
  }

  predicate HasAttempt(db: Tables, a: nat) {
    exists k :: 0 <= k < |db.attempts| && db.attempts[k].actionId == a
  }

  /** The attempt requested last, the later one on a tie. */
  predicate IsLatest(attempts: seq<AttemptRow>, k: nat, a: nat) {
    && k < |attempts| && attempts[k].actionId == a
    && forall j :: 0 <= j < |attempts| && attempts[j].actionId == a && j != k ==>
        attempts[j].requestedAt < attempts[k].requestedAt
        || (attempts[j].requestedAt == attempts[k].requestedAt && j < k)
  }

  lemma OpenIsAwaiting(w: World, a: nat)
    requires Inv(w)
    ensures var open := OpenAttempt(w.db.attempts, a);
      open.Some? && w.db.attempts[open.value].state == Awaiting <==> HasAwaiting(w.db, a)
  {
    if HasAwaiting(w.db, a) {
      var k: nat :| k < |w.db.attempts| && w.db.attempts[k].actionId == a && w.db.attempts[k].state == Awaiting;
      OnlyOneIsOpen(w, a, k);
    }
  }

  lemma ReplayLatestTells(db: Tables, a: nat, status: Status)
    ensures var reply := ReplayLatest(db, a, status);
      && (!HasAttempt(db, a) ==> reply == Refused(PreconditionFailed))
      && (HasAttempt(db, a) ==>
            && reply.Ok? && IsLatest(db.attempts, reply.result.attemptId, a)
            && Tells(reply.result, reply.result.attemptId, db.attempts[reply.result.attemptId], status))
  {
  }

  /** A round over an uncertain attempt answers. */
  lemma UncertainAnswers(w: World, scope: string, a: nat, k: nat, now: Instant, lookup: LookupReturn, at: Instant)
    requires Inv(w) && IsUncertain(w.db, scope, a, k)
    ensures Reconciled(w.db, scope, a, now, lookup, at).1.Ok?
  {
    UncertainIsOpen(w, scope, a, now, lookup, at);
    assert AttemptOk(w.db, w.trail, k);
    ResolveIsRound(w.db, scope, a, k, now, lookup, at);
    hide Inv, AttemptOk, Reconciled, Resolve, EvidenceOf;
  }

  /** What a round without an uncertain attempt to resolve answers: each refusal exactly, and
      otherwise the attempt requested last, told field by field. */
  lemma RoundAnswers(w: World, scope: string, a: nat, now: Instant, lookup: LookupReturn, at: Instant)
    requires Reached(w)
    ensures var reply := Reconciled(w.db, scope, a, now, lookup, at).1;
      var there := IsThere(w.db, scope, a);
      && (reply == Refused(ActionNotFound) <==> !there)
      && (reply == Refused(PreconditionFailed) <==> there && !HasAttempt(w.db, a))
      && (reply == Refused(DataInconsistency) <==>
            there && HasAwaiting(w.db, a) && w.db.actions[a].status != OutcomeUnknown)
      && (reply == Refused(CapabilityUnavailable) <==>
            && there && HasAwaiting(w.db, a) && w.db.actions[a].status == OutcomeUnknown
            && !(w.db.actions[a].op.ExternalOp? && w.db.actions[a].op.canReconcile))
      && (there && HasAttempt(w.db, a) && !HasAwaiting(w.db, a) ==>
            && reply.Ok? && IsLatest(w.db.attempts, reply.result.attemptId, a)
            && Tells(reply.result, reply.result.attemptId, w.db.attempts[reply.result.attemptId],
                w.db.actions[a].status))
  {
    ReachableInv(w);
    OpenIsAwaiting(w, a);
    var open := OpenAttempt(w.db.attempts, a);
    ReplayLatestTells(w.db, a, if a < |w.db.actions| then w.db.actions[a].status else Applied);
    if open.Some? && IsUncertain(w.db, scope, a, open.value) {
      UncertainAnswers(w, scope, a, open.value, now, lookup, at);
    }
    assert HasAwaiting(w.db, a) ==> HasAttempt(w.db, a);
    hide Inv, Reached, Resolve, EvidenceOf, ReplayLatest, Tells, IsLatest, HasAwaiting, HasAttempt, OpenAttempt;
  }

  // ------------------------------------------------------------------ idempotence

  /** The latest attempt by request time is the newest one exactly when no other attempt of
      the Action was requested later. */
  lemma LatestIsNewest(attempts: seq<AttemptRow>, k: nat)
    requires k < |attempts|
    ensures LatestAttempt(attempts, attempts[k].actionId) == Some(k) <==>
      forall j :: 0 <= j < |attempts| && attempts[j].actionId == attempts[k].actionId && j != k ==>
        attempts[j].requestedAt < attempts[k].requestedAt
        || (attempts[j].requestedAt == attempts[k].requestedAt && j < k)
  {
  }

  /** Once a round has resolved the outcome, every later round writes nothing and answers the
      same, as long as request times grow from attempt to attempt of the Action. */
  lemma ResolvedStaysResolved(w: World, scope: string, a: nat, k: nat, now: Instant, lookup: LookupReturn, at: Instant,
      later: Instant, again: LookupReturn, end: Instant)
    requires Reached(w) && IsUncertain(w.db, scope, a, k) && (ProvesReversal(lookup) || ProvesFailure(lookup))
    requires forall j :: 0 <= j < |w.db.attempts| && w.db.attempts[j].actionId == a && j != k ==>
      w.db.attempts[j].requestedAt < w.db.attempts[k].requestedAt
    ensures var (next, reply) := Reconciled(w.db, scope, a, now, lookup, at);
      Reconciled(next, scope, a, later, again, end) == (next, reply)
  {
    ReachableInv(w);
    assert AttemptOk(w.db, w.trail, k);
    UncertainIsOpen(w, scope, a, now, lookup, at);
    ResolveIsRound(w.db, scope, a, k, now, lookup, at);
    var next := Resolve(w.db, scope, a, k, now, EvidenceOf(lookup), at).0;
    NoneOpenAfter(w, a, k, next.attempts);
    LatestIsNewest(next.attempts, k);
    hide Inv, Reached, AttemptOk;
  }

  lemma NoneOpenAfter(w: World, a: nat, k: nat, next: seq<AttemptRow>)
    requires Inv(w) && k < |w.db.attempts| && w.db.attempts[k].actionId == a && IsOpen(w.db.attempts[k])
    requires |next| == |w.db.attempts| && next == w.db.attempts[k := next[k]] && !IsOpen(next[k])
    ensures OpenAttempt(next, a).None?
  {
  }
}
