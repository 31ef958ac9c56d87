/** The reversal service: one request from the sweep to the recorded outcome, the replay of a
    recorded one, and restart recovery. */
module ReversalService {
  import opened Domain
  import opened Timestamp
  import opened Records
  import opened Services
  import opened Storage
  import Protocol
  import DependencyService
  import Provider
  import Recovery

  class Service {
    const store: Store
    const dependencies: DependencyService.Service
    const api: Provider.Api

    ghost predicate Valid() {
      dependencies.store == store && api.store == store
    }

    constructor (store: Store, dependencies: DependencyService.Service, api: Provider.Api)
      requires dependencies.store == store && api.store == store
      ensures Valid() && this.store == store
    {
      this.store, this.dependencies, this.api := store, dependencies, api;
    }

    // ------------------------------------------------------------------ replay

    /** Wait a while for a running attempt, then project what is recorded. Patience is how
        many polls fit before the deadline. */
    method Replay(scope: string, recorded: KeyRow, patience: nat) returns (reply: Reply)
      ensures reply == Services.Replay(store.View(), scope, recorded)
    {
      var polls := 0;
      while true
        invariant polls <= patience
        decreases patience - polls
      {
        var attempt := store.GetAttempt(recorded.attemptId);
        if attempt.None? {
          return Refused(DataInconsistency);
        }
        if attempt.value.state == Running && polls < patience {
          polls := polls + 1;
          continue;
        }
        var a := store.GetAction(scope, recorded.actionId);
        if a.None? {
          return Refused(DataInconsistency);
        }
        return Ok(Reconstruct(recorded.attemptId, attempt.value, a.value.status));
      }
    }

    /** A lost insert race: converge on the recorded result, or refuse the key. None when no
        record appeared. */
    method ReplayOrConflict(scope: string, a: nat, key: string, patience: nat) returns (r: Option<Reply>)
      ensures r == Services.ReplayOrConflict(store.View(), scope, a, key)
    {
      var recorded := store.GetIdempotency(scope, key);
      if recorded.None? {
        return None;
      }
      if recorded.value.fingerprint != Fingerprint(scope, a) {
        return Some(Refused(KeyConflict));
      }
      var reply := Replay(scope, recorded.value, patience);
      return Some(reply);
    }

    // ----------------------------------------------------------------- execute

    /** The registered reverse function; foreign is what a provider we cannot see returns. */
    method CallReverse(a: nat, foreign: ProviderReturn) returns (ret: ProviderReturn)
      requires Valid() && a < |store.actions|
      modifies store
      ensures (store.View(), ret) == Services.CallReverse(old(store.View()), a, foreign)
      ensures store.View() == old(store.View()).(resources := store.resources, notifications := store.notifications)
    {
      ghost var before := store.View();
      CallKeepsJournal(before, a, foreign);
      match store.actions[a].op {
        case CreateOp => ret := api.ReverseCreate(a);
        case UpdateOp => ret := api.ReverseUpdate(a);
        case NotifyOp => ret := api.ReverseNotify(a);
        case _ => ret := foreign;
      }
    }

    /** Move the Action's status and answer. */
    method Transition(scope: string, to: Status, at: Instant, told: Result) returns (reply: Reply)
      modifies store
      ensures match UpdateStatus(old(store.View()), scope, told.actionId, Reversing, to, at)
        case Failed(_) => reply == Refused(StatusMismatch) && store.View() == old(store.View())
        case Written(next) => reply == Ok(told) && store.View() == next
    {
      var error := store.UpdateStatus(scope, told.actionId, Reversing, to, at);
      if error.Some? {
        return Refused(StatusMismatch);
      }
      return Ok(told);
    }

    /** Conclude the attempt, then move the status: two durable writes. */
    method ConcludeAndMove(scope: string, k: nat, observed: Observed, error: Option<string>,
        retryClass: Option<RetryClass>, to: Status, at: Instant, told: Result) returns (reply: Reply)
      modifies store
      ensures (store.View(), reply) == Finished(
        ConcludeAttempt(old(store.View()), k, observed, error, retryClass, at), scope, told.actionId, to, at, told)
    {
      store.ConcludeAttempt(k, observed, error, retryClass, at);
      reply := Transition(scope, to, at, told);
    }

    /** Park the attempt for reconciliation, then move the status. */
    method ParkAndMove(scope: string, k: nat, message: string, retryClass: RetryClass, at: Instant, told: Result)
        returns (reply: Reply)
      modifies store
      ensures (store.View(), reply) == Finished(
        MarkAwaiting(old(store.View()), k, message, retryClass), scope, told.actionId, OutcomeUnknown, at, told)
    {
      store.MarkAwaitingReconciliation(k, message, retryClass);
      reply := Transition(scope, OutcomeUnknown, at, told);
    }

    /** Call the provider, classify what it returned, record it. */
    method Execute(scope: string, a: nat, k: nat, foreign: ProviderReturn, at: Instant) returns (reply: Reply)
      requires Valid() && a < |store.actions|
      modifies store
      ensures (store.View(), reply) == Services.Execute(old(store.View()), scope, a, k, foreign, at)
    {
      ghost var before := store.View();
      var ret := CallReverse(a, foreign);
      ExecuteFinishes(before, scope, a, k, foreign, at);
      hide Services.Execute, Services.CallReverse, Finished;
      var ref := Some(RopRev(k));
      match ret {
        case Failure(c, message) =>
          // An unclassified error is unobservable, never evidence of failure.
          var class_ := ReconcileRequired;
          if c.Some? {
            class_ := c.value;
          }
          match class_ {
            case Retryable =>
              reply := ConcludeAndMove(scope, k, ObsReverseFailed, Some(message), Some(class_), Applied, at,
                Result(k, a, Applied, OutReverseFailed, at, ref, message));
            case NonRetryable =>
              reply := ConcludeAndMove(scope, k, ObsReverseFailed, Some(message), Some(class_), ReverseFailed, at,
                Result(k, a, ReverseFailed, OutReverseFailed, at, ref, message));
            case _ =>
              reply := ParkAndMove(scope, k, message, class_, at,
                Result(k, a, OutcomeUnknown, OutUnknown, at, ref, message));
          }
        case Output(outcome, error) =>
          match outcome {
            case OutReversed =>
              reply := ConcludeAndMove(scope, k, ObsReversed, None, None, Reversed, at,
                Result(k, a, Reversed, outcome, at, ref, error));
            case OutPartiallyReversed =>
              reply := ConcludeAndMove(scope, k, ObsPartiallyReversed, None, None, PartiallyReversed, at,
                Result(k, a, PartiallyReversed, outcome, at, ref, error));
            case OutReverseFailed =>
              reply := ConcludeAndMove(scope, k, ObsReverseFailed, Some(error), None, ReverseFailed, at,
                Result(k, a, ReverseFailed, outcome, at, ref, error));
            case OutConflict =>
              var message := error;
              if message == "" {
                message := "correctness-critical precondition failed";
              }
              reply := ConcludeAndMove(scope, k, ObsConflict, Some(message), None, Applied, at,
                Result(k, a, Applied, outcome, at, ref, error));
            case OutUnknown =>
              reply := ParkAndMove(scope, k, error, ReconcileRequired, at,
                Result(k, a, OutcomeUnknown, outcome, at, ref, error));
            case OutOther(_) =>
              reply := Refused(UnknownProviderOutcome);
          }
      }
    }

    // ----------------------------------------------------------------- reverse

    /** Attempt, Action status and key record in one transaction, or nothing at all. */
    method BeginReversal(scope: string, a: nat, key: Option<string>, now: Instant) returns (error: Option<StoreError>)
      modifies store
      ensures Did(Begin(old(store.View()), scope, a, key, now), old(store.View()), store.View(), error)
    {
      var tx := store.BeginTx();
      var k := |store.attempts|;
      error := store.CreateAttempt(a, now);
      if error.Some? {
        tx.Rollback();
        return;
      }
      error := store.UpdateStatus(scope, a, Applied, Reversing, now);
      if error.Some? {
        tx.Rollback();
        return;
      }
      if key.Some? {
        error := store.CreateIdempotency(scope, key.value, KeyRow(a, Fingerprint(scope, a), k));
        if error.Some? {
          tx.Rollback();
        }
      }
    }

    /** What refuses the request before its transaction, checked in order. */
    method CheckEligibility(scope: string, a: nat) returns (problem: Option<Problem>)
      requires Valid()
      ensures problem == Obstacle(store.View(), scope, a)
    {
      var found := store.GetAction(scope, a);
      if found.None? {
        return Some(ActionNotFound);
      }
      var row := found.value;
      if row.reversibility == NotReversible || row.status == Irreversible {
        return Some(IrreversibleAction);
      }
      if row.status == Expired {
        return Some(ReversalExpired);
      }
      if row.status == Reversing || row.status == OutcomeUnknown {
        return Some(AlreadyInProgress);
      }
      if row.status != Applied {
        return Some(PreconditionFailed);
      }
      var blocking := dependencies.Blocking(scope, a);
      if blocking.None? {
        return Some(DataInconsistency);
      }
      if |blocking.value| > 0 {
        return Some(DependencyExists);
      }
      if !row.op.HasReverse() {
        return Some(CapabilityUnavailable);
      }
      return None;
    }

    /** Request reversal of one Action. now is when the request arrived, at when its provider
        call ended. */
    method Reverse(scope: string, a: nat, key: Option<string>, now: Instant, foreign: ProviderReturn, at: Instant,
        patience: nat) returns (reply: Reply)
      requires Valid()
      modifies store
      ensures (store.View(), reply) == Serve(old(store.View()), scope, a, key, now, foreign, at)
    {
      ghost var before := store.View();
      hide Services.Execute, Begin, Obstacle, Sweep, Services.ReplayOrConflict;
      var swept := store.SweepExpiry(now);
      SweepKeepsAttempts(before, now);
      if key.Some? {
        var recorded := ReplayOrConflict(scope, a, key.value, patience);
        if recorded.Some? {
          return recorded.value;
        }
      }
      var problem := CheckEligibility(scope, a);
      if problem.Some? {
        return Refused(problem.value);
      }
      var k := |store.attempts|;
      var error := BeginReversal(scope, a, key, now);
      if error.Some? {
        if key.Some? && (error.value == AttemptInProgress || error.value == KeyExists) {
          var recorded := ReplayOrConflict(scope, a, key.value, patience);
          match recorded {
            case Some(r) => return r;
            case None =>
          }
        }
        return Refused(LostRaceProblem(error.value));
      }
      if a >= |store.actions| {
        return Refused(DataInconsistency);
      }
      reply := Execute(scope, a, k, foreign, at);
    }

    // ---------------------------------------------------------------- recovery

    /** Park every attempt found RUNNING; the number parked, and what stopped it early. */
    method RecoverAll(now: Instant) returns (parked: nat, problem: Option<Problem>)
      modifies store
      ensures Recovery.Recovered(store.View(), parked, problem) == Recovery.Recover(old(store.View()), now)
    {
      var attempts := store.GetRunningAttempts();
      ghost var whole := Recovery.Recover(store.View(), now);
      parked, problem := 0, None;
      var i := 0;
      assert attempts[0..] == attempts;
      while i < |attempts|
        invariant 0 <= i <= |attempts|
        invariant Recovery.RecoverFrom(store.View(), attempts[i..], now, parked) == whole
      {
        var attempt := store.GetAttempt(attempts[i]);
        assert attempts[i..][1..] == attempts[i + 1..];
        if attempt.None? {
          return parked, Some(DataInconsistency);
        }
        var a := store.GetActionByID(attempt.value.actionId);
        if a.None? {
          return parked, Some(DataInconsistency);
        }
        store.MarkAwaitingReconciliation(attempts[i], Protocol.RECOVERY_TEXT, ReconcileRequired);
        var error := store.UpdateStatus(a.value.scope, attempt.value.actionId, Reversing, OutcomeUnknown, now);
        if error.Some? {
          return parked, Some(StatusMismatch);
        }
        parked := parked + 1;
        i := i + 1;
      }
    }
  }

  /** The last write of an execution and its answer. */
  function Finished(recorded: Tables, scope: string, a: nat, to: Status, at: Instant, told: Result): (Tables, Reply) {
    match UpdateStatus(recorded, scope, a, Reversing, to, at)
    case Failed(_) => (recorded, Refused(StatusMismatch))
    case Written(next) => (next, Ok(told))
  }

  lemma ExecuteFinishes(db: Tables, scope: string, a: nat, k: nat, foreign: ProviderReturn, at: Instant)
    requires a < |db.actions|
    ensures var (called, ret) := Services.CallReverse(db, a, foreign);
      var s := Settle(ret);
      Services.Execute(db, scope, a, k, foreign, at) ==
        if s.Unrecognised? then (called, Refused(UnknownProviderOutcome))
        else Finished(RecordSettlement(called, k, s, at), scope, a, SettledStatus(s), at, ResultOf(k, a, ret, at))
  {
  }

  lemma SweepKeepsAttempts(db: Tables, now: Instant)
    ensures Sweep(db, now).attempts == db.attempts
  {
    SweepIsExact(db, now);
  }
}
