/** Restart recovery: every attempt found RUNNING is parked and its Action becomes
    OUTCOME_UNKNOWN. Nothing is ever concluded for lack of evidence. */
module Recovery {
  import opened Domain
  import opened Timestamp
  import opened Records
  import opened Protocol
  import opened Invariant
  import opened Serial
  import opened Refinement

  /** How recovery ended: the tables, how many attempts it parked, and what stopped it. */
  datatype Recovered = Recovered(db: Tables, parked: nat, problem: Option<Problem>)

  function RecoverFrom(db: Tables, pending: seq<nat>, now: Instant, parked: nat): Recovered
    decreases |pending|
  {
    if pending == [] then Recovered(db, parked, None)
    else if pending[0] >= |db.attempts| || db.attempts[pending[0]].actionId >= |db.actions|
    then Recovered(db, parked, Some(DataInconsistency))
    else
      var a := db.attempts[pending[0]].actionId;
      var marked := MarkAwaiting(db, pending[0], RECOVERY_TEXT, ReconcileRequired);
      match UpdateStatus(marked, db.actions[a].scope, a, Reversing, OutcomeUnknown, now)
      case Failed(_) => Recovered(marked, parked, Some(StatusMismatch))
      case Written(next) => RecoverFrom(next, pending[1..], now, parked + 1)
  }

  function Recover(db: Tables, now: Instant): Recovered {
    RecoverFrom(db, RunningAttempts(db.attempts), now, 0)
  }

  // ------------------------------------------------------------- the loop's invariant

  /** The attempts to park are RUNNING, their Actions are REVERSING and all different. */
  ghost predicate Recoverable(db: Tables, pending: seq<nat>) {
    && (forall i :: 0 <= i < |pending| ==>
          && pending[i] < |db.attempts| && db.attempts[pending[i]].state == Running
          && db.attempts[pending[i]].actionId < |db.actions|
          && db.actions[db.attempts[pending[i]].actionId].status == Reversing)
    && (forall i, j :: 0 <= i < j < |pending| ==>
          pending[i] != pending[j] && pending[i] < |db.attempts| && pending[j] < |db.attempts|
          && db.attempts[pending[i]].actionId != db.attempts[pending[j]].actionId)
  }

  /** At most one open attempt per Action makes the Actions of the RUNNING ones distinct. */
  lemma RunningIsRecoverable(w: World)
    requires Inv(w)
    ensures Recoverable(w.db, RunningAttempts(w.db.attempts))
  {
    var pending := RunningAttempts(w.db.attempts);
    forall i | 0 <= i < |pending|
      ensures pending[i] < |w.db.attempts| && w.db.attempts[pending[i]].state == Running
      ensures w.db.attempts[pending[i]].actionId < |w.db.actions|
      ensures w.db.actions[w.db.attempts[pending[i]].actionId].status == Reversing
    {
      assert pending[i] in pending;
      assert AttemptOk(w.db, w.trail, pending[i]);
    }
  }

  function ParkedRow(row: AttemptRow): AttemptRow {
    row.(state := Awaiting, error := Some(RECOVERY_TEXT), retryClass := Some(ReconcileRequired))
  }

  predicate Concerns(attempts: seq<AttemptRow>, pending: seq<nat>, a: nat) {
    exists i :: 0 <= i < |pending| && pending[i] < |attempts| && attempts[pending[i]].actionId == a
  }

  /** What the first round leaves. */
  function ParkFirst(db: Tables, k: nat, now: Instant): Tables
    requires k < |db.attempts| && db.attempts[k].actionId < |db.actions|
  {
    var marked := db.(attempts := db.attempts[k := ParkedRow(db.attempts[k])]);
    SetStatus(marked, db.attempts[k].actionId, OutcomeUnknown, now)
  }

  lemma FirstRound(db: Tables, pending: seq<nat>, now: Instant, parked: nat)
    requires Recoverable(db, pending) && pending != []
    ensures RecoverFrom(db, pending, now, parked)
      == RecoverFrom(ParkFirst(db, pending[0], now), pending[1..], now, parked + 1)
    ensures Recoverable(ParkFirst(db, pending[0], now), pending[1..])
  {
  }

  /** Parked are these attempts, moved are their Actions, and nothing else is changed. */
  ghost predicate ParkedExactly(db: Tables, pending: seq<nat>, next: Tables) {
    && next == db.(actions := next.actions, history := next.history, attempts := next.attempts)
    && |next.attempts| == |db.attempts| && |next.actions| == |db.actions|
    && |next.history| == |db.history| + |pending| && db.history <= next.history
    && (forall k :: 0 <= k < |db.attempts| ==>
          next.attempts[k] == if k in pending then ParkedRow(db.attempts[k]) else db.attempts[k])
    && (forall a :: 0 <= a < |db.actions| ==>
          next.actions[a] == if Concerns(db.attempts, pending, a)
            then db.actions[a].(status := OutcomeUnknown) else db.actions[a])
  }

  lemma ParkedMore(db: Tables, pending: seq<nat>, now: Instant, last: Tables)
    requires Recoverable(db, pending) && pending != []
    requires ParkedExactly(ParkFirst(db, pending[0], now), pending[1..], last)
    ensures ParkedExactly(db, pending, last)
  {
  }

  lemma {:induction false} RecoverFromParks(db: Tables, pending: seq<nat>, now: Instant, parked: nat)
    requires Recoverable(db, pending)
    ensures var r := RecoverFrom(db, pending, now, parked);
      r.problem.None? && r.parked == parked + |pending| && ParkedExactly(db, pending, r.db)
    decreases |pending|
  {
    if pending != [] {
      FirstRound(db, pending, now, parked);
      hide RecoverFrom, Recoverable, ParkedExactly, ParkFirst;
      RecoverFromParks(ParkFirst(db, pending[0], now), pending[1..], now, parked + 1);
      ParkedMore(db, pending, now, RecoverFrom(db, pending, now, parked).db);
    }
  }

  /** One history entry for each attempt parked, in order. */
  lemma {:induction false} RecoverFromRecords(db: Tables, pending: seq<nat>, now: Instant, parked: nat)
    requires Recoverable(db, pending)
    ensures RecoverFrom(db, pending, now, parked).db.history
      == db.history + seq(|pending|, i requires 0 <= i < |pending| =>
        HistoryRow(db.attempts[pending[i]].actionId, Some(Reversing), OutcomeUnknown, now))
    decreases |pending|
  {
    if pending != [] {
      var next := ParkFirst(db, pending[0], now);
      FirstRound(db, pending, now, parked);
      assert forall k :: 0 <= k < |db.attempts| ==> next.attempts[k].actionId == db.attempts[k].actionId;
      assert next.history
        == db.history + [HistoryRow(db.attempts[pending[0]].actionId, Some(Reversing), OutcomeUnknown, now)];
      hide RecoverFrom, ParkFirst;
      RecoverFromRecords(next, pending[1..], now, parked + 1);
    }
  }

  // ----------------------------------------------------------------- the contract

  predicate HasRunning(attempts: seq<AttemptRow>, a: nat) {
    exists k :: 0 <= k < |attempts| && attempts[k].actionId == a && attempts[k].state == Running
  }

  lemma ConcernsRunning(attempts: seq<AttemptRow>, a: nat)
    ensures Concerns(attempts, RunningAttempts(attempts), a) <==> HasRunning(attempts, a)
  {
  }

  lemma {:induction false} NoneRunning(attempts: seq<AttemptRow>)
    requires forall k :: 0 <= k < |attempts| ==> attempts[k].state != Running
    ensures RunningAttempts(attempts) == []
  {
    if attempts != [] {
      NoneRunning(attempts[..|attempts| - 1]);
    }
  }

  /** From any reachable state recovery completes, parks exactly the RUNNING attempts, moves
      exactly their Actions to OUTCOME_UNKNOWN with one history entry each, returns their
      number and changes nothing else; run again, it changes nothing and returns 0. */
  lemma RecoveryContract(w: World, now: Instant, later: Instant)
    requires Reached(w)
    ensures var r := Recover(w.db, now);
      && r.problem.None? && r.parked == |RunningAttempts(w.db.attempts)|
      && r.db == w.db.(actions := r.db.actions, history := r.db.history, attempts := r.db.attempts)
      && |r.db.attempts| == |w.db.attempts| && |r.db.actions| == |w.db.actions|
      && |r.db.history| == |w.db.history| + r.parked && w.db.history <= r.db.history
      && (forall k :: 0 <= k < |w.db.attempts| ==>
            r.db.attempts[k] ==
              if w.db.attempts[k].state == Running then ParkedRow(w.db.attempts[k]) else w.db.attempts[k])
      && (forall a :: 0 <= a < |w.db.actions| ==>
            r.db.actions[a] == if HasRunning(w.db.attempts, a)
              then w.db.actions[a].(status := OutcomeUnknown) else w.db.actions[a])
      && Recover(r.db, later) == Recovered(r.db, 0, None)
  {
    ReachableInv(w);
    RunningIsRecoverable(w);
    var pending := RunningAttempts(w.db.attempts);
    RecoverFromParks(w.db, pending, now, 0);
    forall a: nat ensures Concerns(w.db.attempts, pending, a) <==> HasRunning(w.db.attempts, a) {
      ConcernsRunning(w.db.attempts, a);
    }
    var r := Recover(w.db, now);
    NoneRunning(r.db.attempts);
  }

  /** And what recovery writes to the history: one entry for each RUNNING attempt, in order. */
  lemma RecoveryRecords(w: World, now: Instant)
    requires Reached(w)
    ensures var pending, r := RunningAttempts(w.db.attempts), Recover(w.db, now);
      && |r.db.history| == |w.db.history| + |pending| && w.db.history <= r.db.history
      && forall i :: 0 <= i < |pending| ==>
          && pending[i] < |w.db.attempts|
          && r.db.history[|w.db.history| + i]
            == HistoryRow(w.db.attempts[pending[i]].actionId, Some(Reversing), OutcomeUnknown, now)
  {
    ReachableInv(w);
    RunningIsRecoverable(w);
    var pending := RunningAttempts(w.db.attempts);
    assert forall i :: 0 <= i < |pending| ==> pending[i] in pending;
    RecoverFromRecords(w.db, pending, now, 0);
    hide Inv, Reached, RecoverFrom, RunningAttempts;
  }

  // ------------------------------------------------------ it is a run of the protocol

  /** The loop of recovery, two durable writes a round. */
  lemma {:induction false} RoundsRun(w: World, db: Tables, pending: seq<nat>, now: Instant, parked: nat)
      returns (ls: seq<Label>)
    requires Recoverable(db, pending)
    ensures Runs(w.(db := db, phase := Recovering(pending, false, now)), ls,
      w.(db := RecoverFrom(db, pending, now, parked).db, phase := Serving))
    decreases |pending|
  {
    var u := w.(db := db, phase := Recovering(pending, false, now));
    if pending == [] {
      ls := [LRecover];
      OneStep(u, LRecover, w.(db := db, phase := Serving));
    } else {
      var marked := MarkAwaiting(db, pending[0], RECOVERY_TEXT, ReconcileRequired);
      var x := w.(db := marked, phase := Recovering(pending, true, now));
      var next := ParkFirst(db, pending[0], now);
      var y := w.(db := next, phase := Recovering(pending[1..], false, now));
      RoundSteps(w, db, pending, now);
      FirstRound(db, pending, now, parked);
      hide Apply, Enabled, SerialLabel, Runs, Recoverable, RecoverFrom;
      var rest := RoundsRun(w, next, pending[1..], now, parked + 1);
      OneStep(u, LRecover, x);
      Then(u, [LRecover], x, LRecover, y);
      Compose(u, [LRecover] + [LRecover], y, rest,
        w.(db := RecoverFrom(next, pending[1..], now, parked + 1).db, phase := Serving));
      ls := [LRecover] + [LRecover] + rest;
    }
  }

  lemma RoundSteps(w: World, db: Tables, pending: seq<nat>, now: Instant)
    requires Recoverable(db, pending) && pending != []
    ensures var u := w.(db := db, phase := Recovering(pending, false, now));
      var marked := MarkAwaiting(db, pending[0], RECOVERY_TEXT, ReconcileRequired);
      var x := w.(db := marked, phase := Recovering(pending, true, now));
      && Enabled(u, LRecover) && SerialLabel(u, LRecover) && Apply(u, LRecover) == x
      && Enabled(x, LRecover) && SerialLabel(x, LRecover)
      && Apply(x, LRecover) ==
          w.(db := ParkFirst(db, pending[0], now), phase := Recovering(pending[1..], false, now))
  {
  }

  /** After a crash, recovery is a run of the protocol's own recovery steps. */
  lemma RecoverRuns(w: World, now: Instant) returns (ls: seq<Label>)
    requires Inv(w) && w.phase == Down
    ensures Runs(w, ls, w.(db := Recover(w.db, now).db, phase := Serving))
  {
    RunningIsRecoverable(w);
    var pending := RunningAttempts(w.db.attempts);
    var u := w.(db := w.db, phase := Recovering(pending, false, now));
    OneStep(w, LRestart(now), u);
    var rest := RoundsRun(w, w.db, pending, now, 0);
    hide Apply, Enabled, SerialLabel, Runs, Inv, RecoverFrom;
    Compose(w, [LRestart(now)], u, rest, w.(db := Recover(w.db, now).db, phase := Serving));
    ls := [LRestart(now)] + rest;
  }
}
