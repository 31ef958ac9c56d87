/** The inductive invariant of the protocol: which attempt states and Action statuses can
    occur together, and what each thread may rely on at each of its program points. */
module Invariant {
  import opened Domain
  import opened Timestamp
  import opened Records
  import opened Protocol
  import ResourceApi

  // ---------------------------------------------------------- one attempt row

  /** The attempt was parked: its outcome was not observed by the call that made it. */
  predicate Parked(row: AttemptRow) {
    row.retryClass.Some? && row.retryClass.value != Retryable && row.retryClass.value != NonRetryable
  }

  /** A proven observation has concluded what was parked. */
  predicate ParkedAndConcluded(row: AttemptRow) {
    row.state == Concluded && Parked(row)
  }

  /** Concluded without touching the business state, so the Action may be tried again. */
  predicate Benign(row: AttemptRow) {
    row.state == Concluded &&
    (row.observed == Some(ObsConflict) || (row.observed == Some(ObsReverseFailed) && row.retryClass == Some(Retryable)))
  }

  predicate RowOk(k: nat, row: AttemptRow) {
    && row.providerRef == Some(RopRev(k))
    && match row.state
       case Pending => false
       case Running => row.observed.None? && row.error.None? && row.retryClass.None? && row.concludedAt.None?
       case Awaiting => row.observed.None? && row.error.Some? && Parked(row) && row.concludedAt.None?
       case Concluded =>
         && row.observed.Some? && row.concludedAt.Some?
         && (Parked(row) ==> row.observed == Some(ObsReversed) || row.observed == Some(ObsReverseFailed))
  }

  predicate TrailOk(t: Trail) {
    && t.calls <= 1
    && (t.calls == 0 <==> t.returned.None?)
    && (t.effect ==> t.calls == 1)
  }

  /** A conclusion is what the provider call returned, or what a proven lookup showed. */
  predicate EvidenceOk(db: Tables, k: nat, row: AttemptRow, t: Trail) {
    row.state == Concluded && row.observed.Some? ==>
      if Parked(row) then
        Seen(db.observations, k, if row.observed.value == ObsReversed then ProvenReversed else ProvenNotReversed)
      else
        && t.returned.Some? && Settle(t.returned.value).Conclude?
        && Settle(t.returned.value).observed == row.observed.value
        && Settle(t.returned.value).retryClass == row.retryClass
  }

  predicate Contradictory(db: Tables, k: nat) {
    Seen(db.observations, k, ProvenReversed) && Seen(db.observations, k, ProvenNotReversed)
  }

  /** The coupling table for an attempt that is not benign (which makes it the newest). */
  predicate StatusFits(row: AttemptRow, status: Status, contradictory: bool) {
    match row.state
    case Pending => false
    case Running => status == Reversing
    case Awaiting => status == OutcomeUnknown || status == Reversing
    case Concluded =>
      match row.observed
      case None => false
      case Some(ObsConflict) => false
      case Some(ObsPartiallyReversed) => status == PartiallyReversed || status == Reversing
      case Some(ObsReversed) =>
        || status == Reversed
        || status == (if Parked(row) then OutcomeUnknown else Reversing)
        || (Parked(row) && contradictory && status == ReverseFailed)
      case Some(ObsReverseFailed) =>
        || status == ReverseFailed
        || status == (if Parked(row) then OutcomeUnknown else Reversing)
        || (Parked(row) && contradictory && status == Reversed)
  }

  predicate AttemptOk(db: Tables, trail: seq<Trail>, k: nat)
    requires k < |db.attempts| && k < |trail|
  {
    var row := db.attempts[k];
    && row.actionId < |db.actions|
    && RowOk(k, row) && TrailOk(trail[k]) && EvidenceOk(db, k, row, trail[k])
    && (row.state == Running || Parked(row) || trail[k].returned.Some?)
    && (Benign(row) || StatusFits(row, db.actions[row.actionId].status, Contradictory(db, k)))
  }

  // ------------------------------------------------------- attempts and Actions

  ghost predicate Newest(attempts: seq<AttemptRow>, k: nat)
    requires k < |attempts|
  {
    forall j :: k < j < |attempts| ==> attempts[j].actionId != attempts[k].actionId
  }

  ghost predicate Untouched(attempts: seq<AttemptRow>, a: nat) {
    forall k :: 0 <= k < |attempts| ==> attempts[k].actionId != a
  }

  ghost predicate AttemptsOk(db: Tables, trail: seq<Trail>) {
    && |trail| == |db.attempts|
    && (forall k: nat :: k < |db.attempts| ==> AttemptOk(db, trail, k))
    && (forall j, k :: 0 <= j < k < |db.attempts| && db.attempts[j].actionId == db.attempts[k].actionId ==>
          Benign(db.attempts[j]))
  }

  ghost predicate ActionsOk(db: Tables) {
    && (forall k: nat :: k < |db.attempts| && Newest(db.attempts, k) && Benign(db.attempts[k]) ==>
          && db.attempts[k].actionId < |db.actions|
          && db.actions[db.attempts[k].actionId].status in {Applied, Expired, Reversing})
    && (forall a: nat :: a < |db.actions| && Untouched(db.attempts, a) ==>
          db.actions[a].status in {Applied, Expired, Irreversible})
  }

  ghost predicate KeysOk(db: Tables) {
    forall p :: p in db.keys ==>
      var row := db.keys[p];
      && row.attemptId < |db.attempts| && row.actionId < |db.actions|
      && db.attempts[row.attemptId].actionId == row.actionId
      && db.actions[row.actionId].scope == p.0
      && row.fingerprint == Fingerprint(p.0, row.actionId)
  }

  // ------------------------------------------------------------------- threads

  /** The status the owning request still has to write after recording its outcome. */
  function StatusAfter(row: AttemptRow): Status {
    match row.observed
    case None => OutcomeUnknown
    case Some(ObsReversed) => Reversed
    case Some(ObsPartiallyReversed) => PartiallyReversed
    case Some(ObsConflict) => Applied
    case Some(ObsReverseFailed) => if row.retryClass == Some(Retryable) then Applied else ReverseFailed
  }

  ghost predicate Owns(db: Tables, trail: seq<Trail>, tid: nat, scope: string, a: nat, k: nat) {
    && k < |db.attempts| && k < |trail| && a < |db.actions|
    && db.attempts[k].actionId == a && trail[k].owner == tid && Newest(db.attempts, k)
    && db.actions[a].scope == scope && db.actions[a].status == Reversing
  }

  ghost predicate RequestOk(db: Tables, trail: seq<Trail>, tid: nat, t: Thread)
    requires t.Request?
  {
    match t.pc
    case Poll(k) => k < |db.attempts| && db.attempts[k].actionId == t.actionId
    case Call(k) =>
      && Owns(db, trail, tid, t.scope, t.actionId, k)
      && db.attempts[k].state == Running && trail[k].calls == 0
    case Record(k, ret) =>
      && Owns(db, trail, tid, t.scope, t.actionId, k)
      && db.attempts[k].state == Running && trail[k].returned == Some(ret)
    case Transition(k, to, _) =>
      && Owns(db, trail, tid, t.scope, t.actionId, k)
      && db.attempts[k].state != Running && to == StatusAfter(db.attempts[k])
      && (db.attempts[k].state == Concluded ==> !Parked(db.attempts[k]))
    case _ => true
  }

  predicate PastUnknown(s: Status) {
    s == OutcomeUnknown || s == Reversed || s == ReverseFailed
  }

  ghost predicate Uncertain(db: Tables, scope: string, a: nat, k: nat) {
    && k < |db.attempts| && a < |db.actions|
    && db.attempts[k].actionId == a && Parked(db.attempts[k])
    && db.actions[a].scope == scope && PastUnknown(db.actions[a].status)
  }

  ghost predicate ReconcilerOk(db: Tables, t: Thread)
    requires t.Reconciler?
  {
    match t.rpc
    case RecRead => true
    case RecOpen(status) =>
      && t.actionId < |db.actions| && db.actions[t.actionId].scope == t.scope
      && (status == OutcomeUnknown ==> PastUnknown(db.actions[t.actionId].status))
    case RecLookup(k) => Uncertain(db, t.scope, t.actionId, k)
    case RecObserve(k, _) => Uncertain(db, t.scope, t.actionId, k)
    case RecConclude(k, e) =>
      Uncertain(db, t.scope, t.actionId, k) && e != Inconclusive && Seen(db.observations, k, e)
    case RecUpdate(k, e, _) =>
      && Uncertain(db, t.scope, t.actionId, k) && e != Inconclusive && Seen(db.observations, k, e)
      && db.attempts[k].state == Concluded
    case RecFinish(k) => k < |db.attempts|
  }

  ghost predicate ThreadOk(db: Tables, trail: seq<Trail>, tid: nat, t: Thread) {
    if t.Request? then RequestOk(db, trail, tid, t) else ReconcilerOk(db, t)
  }

  ghost predicate ThreadsOk(w: World) {
    forall tid :: tid in w.threads ==> ThreadOk(w.db, w.trail, tid, w.threads[tid])
  }

  // ------------------------------------------------------------------ recovery

  ghost predicate PendingOk(db: Tables, pending: seq<nat>, marked: bool) {
    && (forall i, j :: 0 <= i < j < |pending| ==> pending[i] != pending[j])
    && (forall i :: 0 <= i < |pending| ==>
          && pending[i] < |db.attempts|
          && db.attempts[pending[i]].state == (if marked && i == 0 then Awaiting else Running))
    && (marked ==>
          && pending != [] && db.attempts[pending[0]].actionId < |db.actions|
          && db.actions[db.attempts[pending[0]].actionId].status == Reversing)
  }

  ghost predicate PhaseOk(w: World) {
    && (w.phase != Serving ==> w.threads == map[])
    && (w.phase.Recovering? ==> PendingOk(w.db, w.phase.pending, w.phase.marked))
  }

  // -------------------------------------------------------------- the invariant

  ghost predicate Inv(w: World) {
    && |w.wrote| == |w.db.actions|
    && AttemptsOk(w.db, w.trail)
    && ActionsOk(w.db)
    && KeysOk(w.db)
    && ThreadsOk(w)
    && PhaseOk(w)
  }

  // ------------------------------------------------------ immediate consequences

  lemma AttemptsHaveActions(w: World)
    requires Inv(w)
    ensures |w.trail| == |w.db.attempts|
    ensures forall k :: 0 <= k < |w.db.attempts| ==> w.db.attempts[k].actionId < |w.db.actions|
  {
    forall k: nat | k < |w.db.attempts| ensures w.db.attempts[k].actionId < |w.db.actions| {
      assert AttemptOk(w.db, w.trail, k);
    }
  }

  lemma NewestExists(attempts: seq<AttemptRow>, a: nat) returns (k: nat)
    requires !Untouched(attempts, a)
    ensures k < |attempts| && attempts[k].actionId == a && Newest(attempts, k)
  {
    var last := |attempts| - 1;
    if attempts[last].actionId == a {
      k := last;
    } else {
      var i :| 0 <= i < |attempts| && attempts[i].actionId == a;
      assert attempts[..last][i].actionId == a;
      k := NewestExists(attempts[..last], a);
      forall j | k < j < |attempts| ensures attempts[j].actionId != attempts[k].actionId {
        if j < last { assert attempts[..last][j] == attempts[j]; }
      }
    }
  }

  lemma NotBenignIsNewest(db: Tables, trail: seq<Trail>, k: nat)
    requires AttemptsOk(db, trail) && k < |db.attempts| && !Benign(db.attempts[k])
    ensures Newest(db.attempts, k)
  {
  }

  /** An Action that may begin a reversal has only benign attempts behind it. */
  lemma AppliedMeansBenign(db: Tables, trail: seq<Trail>, a: nat)
    requires AttemptsOk(db, trail) && a < |db.actions|
    requires db.actions[a].status in {Applied, Expired, Irreversible}
    ensures forall k: nat :: k < |db.attempts| && db.attempts[k].actionId == a ==> Benign(db.attempts[k])
  {
    forall k: nat | k < |db.attempts| && db.attempts[k].actionId == a
      ensures Benign(db.attempts[k])
    {
      assert AttemptOk(db, trail, k);
    }
  }

  // ----------------------------------------- steps that move one thread and no more

  lemma ThreadMoves(w: World, v: World, tid: nat)
    requires Inv(w) && w.phase == Serving
    requires v == w.(threads := v.threads, answers := v.answers)
    requires forall i :: i in v.threads && i != tid ==> i in w.threads && v.threads[i] == w.threads[i]
    requires tid in v.threads ==> ThreadOk(w.db, w.trail, tid, v.threads[tid])
    ensures Inv(v)
  {
  }

  lemma ConvergeKeeps(w: World, tid: nat, missing: World)
    requires Inv(w) && HasPc(w, tid) && w.threads[tid].key.Some?
    requires missing == Leave(w, tid) || missing == Goto(w, tid, ReadAction)
    ensures Inv(Converge(w, tid, missing))
  {
  }

  lemma DependentKeeps(w: World, tid: nat, pending: seq<nat>, blocked: bool)
    requires Inv(w) && HasPc(w, tid)
    ensures Inv(ReadDependent(w, tid, pending, blocked))
  {
  }

  // ------------------------------------------------------ a new Action appears

  ghost predicate Extends(db: Tables, next: Tables, row: ActionRow) {
    && next.actions == db.actions + [row] && next.attempts == db.attempts
    && next.keys == db.keys && next.observations == db.observations
  }

  lemma NewActionKeeps(w: World, v: World, row: ActionRow)
    requires Inv(w) && w.phase == Serving && Extends(w.db, v.db, row)
    requires row.status == Applied || row.status == Irreversible
    requires v.trail == w.trail && v.threads == w.threads && v.phase == w.phase
    requires |v.wrote| == |w.wrote| + 1
    ensures Inv(v)
  {
    forall k: nat | k < |v.db.attempts| ensures AttemptOk(v.db, v.trail, k) {
      assert AttemptOk(w.db, w.trail, k);
    }
    forall tid | tid in v.threads ensures ThreadOk(v.db, v.trail, tid, v.threads[tid]) {
      assert ThreadOk(w.db, w.trail, tid, w.threads[tid]);
    }
  }

  lemma ProviderTablesKeep(w: World, v: World)
    requires Inv(w)
    requires v.db == w.db.(resources := v.db.resources, notifications := v.db.notifications, edges := v.db.edges)
    requires v == w.(db := v.db)
    ensures Inv(v)
  {
    forall k: nat | k < |v.db.attempts| ensures AttemptOk(v.db, v.trail, k) {
      assert AttemptOk(w.db, w.trail, k);
    }
    forall tid | tid in v.threads ensures ThreadOk(v.db, v.trail, tid, v.threads[tid]) {
      assert ThreadOk(w.db, w.trail, tid, w.threads[tid]);
    }
  }

  // ------------------------------------------------------ an Action status moves

  /** What a status change must respect, apart from the thread that makes it. */
  ghost predicate StatusMayMove(db: Tables, trail: seq<Trail>, a: nat, to: Status)
    requires a < |db.actions|
  {
    && (forall k: nat :: k < |db.attempts| && db.attempts[k].actionId == a && !Benign(db.attempts[k]) ==>
          StatusFits(db.attempts[k], to, Contradictory(db, k)))
    && (forall k: nat ::
          k < |db.attempts| && db.attempts[k].actionId == a && Newest(db.attempts, k) && Benign(db.attempts[k]) ==>
          to in {Applied, Expired, Reversing})
    && (Untouched(db.attempts, a) ==> to in {Applied, Expired, Irreversible})
  }

  lemma StatusMoveKeepsTables(db: Tables, trail: seq<Trail>, a: nat, to: Status, at: Instant)
    requires AttemptsOk(db, trail) && ActionsOk(db) && KeysOk(db)
    requires a < |db.actions| && StatusMayMove(db, trail, a, to)
    ensures var next := SetStatus(db, a, to, at);
      AttemptsOk(next, trail) && ActionsOk(next) && KeysOk(next)
  {
    var next := SetStatus(db, a, to, at);
    forall k: nat | k < |next.attempts| ensures AttemptOk(next, trail, k) {
      assert AttemptOk(db, trail, k);
    }
  }

  /** If attempt k of action a is the newest and fits the new status, the status may move. */
  lemma NewestDecides(db: Tables, trail: seq<Trail>, a: nat, k: nat, to: Status)
    requires AttemptsOk(db, trail) && a < |db.actions|
    requires k < |db.attempts| && db.attempts[k].actionId == a && Newest(db.attempts, k)
    requires if Benign(db.attempts[k]) then to in {Applied, Expired, Reversing}
      else StatusFits(db.attempts[k], to, Contradictory(db, k))
    ensures StatusMayMove(db, trail, a, to)
  {
  }

  /** Threads that do not work on a's attempts keep what they rely on. */
  lemma OtherThreadsKeep(db: Tables, trail: seq<Trail>, tid: nat, t: Thread, a: nat, to: Status, at: Instant)
    requires ThreadOk(db, trail, tid, t) && a < |db.actions|
    requires IsOwner(t) ==> t.actionId != a
    requires PastUnknown(db.actions[a].status) ==> PastUnknown(to)
    ensures ThreadOk(SetStatus(db, a, to, at), trail, tid, t)
  {
  }

  lemma ExpireKeeps(w: World, tid: nat, due: seq<nat>)
    requires Inv(w) && HasPc(w, tid) && w.threads[tid].pc == SweepRows(due)
    ensures Inv(SweepOne(w, tid, due))
  {
    var v := SweepOne(w, tid, due);
    var t := w.threads[tid];
    if due == [] || due[0] >= |w.db.actions| || w.db.actions[due[0]].status != Applied {
      ThreadMoves(w, v, tid);
    } else {
      var a := due[0];
      AppliedMeansBenign(w.db, w.trail, a);
      StatusMoveKeepsTables(w.db, w.trail, a, Expired, t.now);
      forall i | i in v.threads ensures ThreadOk(v.db, v.trail, i, v.threads[i]) {
        if i != tid {
          assert ThreadOk(w.db, w.trail, i, w.threads[i]);
          OtherThreadsKeep(w.db, w.trail, i, w.threads[i], a, Expired, t.now);
        }
      }
    }
  }

  lemma OtherOwnersDiffer(w: World, tid: nat, k: nat)
    requires Inv(w) && tid in w.threads && w.threads[tid].Request?
    requires Owns(w.db, w.trail, tid, w.threads[tid].scope, w.threads[tid].actionId, k)
    ensures forall i :: i in w.threads && i != tid && IsOwner(w.threads[i]) ==>
      w.threads[i].actionId != w.threads[tid].actionId
  {
  }

  lemma MoveStatusKeeps(w: World, tid: nat, k: nat, to: Status, at: Instant)
    requires Inv(w) && HasPc(w, tid) && w.threads[tid].pc == Transition(k, to, at)
    ensures Inv(MoveStatus(w, tid, to, at))
    ensures MoveStatus(w, tid, to, at) ==
      Leave(w.(db := SetStatus(w.db, w.threads[tid].actionId, to, at)), tid)
  {
    var v := MoveStatus(w, tid, to, at);
    var t := w.threads[tid];
    var a := t.actionId;
    assert ThreadOk(w.db, w.trail, tid, t);
    assert AttemptOk(w.db, w.trail, k);
    NewestDecides(w.db, w.trail, a, k, to);
    StatusMoveKeepsTables(w.db, w.trail, a, to, at);
    OtherOwnersDiffer(w, tid, k);
    forall i | i in v.threads ensures ThreadOk(v.db, v.trail, i, v.threads[i]) {
      assert ThreadOk(w.db, w.trail, i, w.threads[i]);
      OtherThreadsKeep(w.db, w.trail, i, w.threads[i], a, to, at);
    }
  }

  // ------------------------------------------------ an attempt row moves or appears

  lemma SameActions(attempts: seq<AttemptRow>, next: seq<AttemptRow>)
    requires |next| == |attempts|
    requires forall i :: 0 <= i < |attempts| ==> next[i].actionId == attempts[i].actionId
    ensures forall j: nat :: j < |attempts| ==> (Newest(next, j) <==> Newest(attempts, j))
    ensures forall a: nat :: Untouched(next, a) <==> Untouched(attempts, a)
  {
  }

  /** One attempt that was still open for judgement changes; nothing else does. */
  ghost predicate RowMoves(db: Tables, trail: seq<Trail>, k: nat, next: Tables, after: seq<Trail>) {
    && k < |db.attempts| == |trail| == |after| && !Benign(db.attempts[k])
    && |next.attempts| == |db.attempts|
    && next == db.(attempts := next.attempts, resources := next.resources, notifications := next.notifications)
    && next.attempts == db.attempts[k := next.attempts[k]]
    && next.attempts[k].actionId == db.attempts[k].actionId
    && after == trail[k := after[k]]
    && AttemptOk(next, after, k)
    && (Benign(next.attempts[k]) ==>
          next.actions[next.attempts[k].actionId].status in {Applied, Expired, Reversing})
  }

  lemma RowMovesKeepsAttempts(db: Tables, trail: seq<Trail>, k: nat, next: Tables, after: seq<Trail>)
    requires AttemptsOk(db, trail) && RowMoves(db, trail, k, next, after)
    ensures AttemptsOk(next, after)
  {
    NotBenignIsNewest(db, trail, k);
    forall j: nat | j < |next.attempts| ensures AttemptOk(next, after, j) {
      if j != k {
        assert AttemptOk(db, trail, j);
      }
    }
  }

  lemma RowMovesKeeps(db: Tables, trail: seq<Trail>, k: nat, next: Tables, after: seq<Trail>)
    requires AttemptsOk(db, trail) && ActionsOk(db) && KeysOk(db)
    requires RowMoves(db, trail, k, next, after)
    ensures AttemptsOk(next, after) && ActionsOk(next) && KeysOk(next)
  {
    RowMovesKeepsAttempts(db, trail, k, next, after);
    SameActions(db.attempts, next.attempts);
  }

  predicate IsOwner(t: Thread) {
    t.Request? && (t.pc.Call? || t.pc.Record? || t.pc.Transition?)
  }

  /** A thread keeps what it relies on when the attempt that moves is not its own. */
  lemma BystanderKeeps(db: Tables, trail: seq<Trail>, k: nat, next: Tables, after: seq<Trail>, tid: nat, t: Thread)
    requires ThreadOk(db, trail, tid, t) && RowMoves(db, trail, k, next, after)
    requires IsOwner(t) ==> t.actionId != db.attempts[k].actionId
    requires Parked(db.attempts[k]) ==> Parked(next.attempts[k])
    requires db.attempts[k].state == Concluded ==> next.attempts[k].state == Concluded
    ensures ThreadOk(next, after, tid, t)
  {
    SameActions(db.attempts, next.attempts);
  }

  lemma BystandersKeep(w: World, v: World, tid: nat, k: nat)
    requires ThreadsOk(w) && RowMoves(w.db, w.trail, k, v.db, v.trail)
    requires forall i :: i in v.threads && i != tid ==> i in w.threads && v.threads[i] == w.threads[i]
    requires forall i :: i in w.threads && i != tid && IsOwner(w.threads[i]) ==>
      w.threads[i].actionId != w.db.attempts[k].actionId
    requires Parked(w.db.attempts[k]) ==> Parked(v.db.attempts[k])
    requires w.db.attempts[k].state == Concluded ==> v.db.attempts[k].state == Concluded
    ensures forall i :: i in v.threads && i != tid ==> ThreadOk(v.db, v.trail, i, v.threads[i])
  {
    forall i | i in v.threads && i != tid ensures ThreadOk(v.db, v.trail, i, v.threads[i]) {
      BystanderKeeps(w.db, w.trail, k, v.db, v.trail, i, w.threads[i]);
    }
  }

  // ---------------------------------------------------- a reversal is accepted

  lemma BeginShape(db: Tables, scope: string, a: nat, key: Option<string>, now: Instant)
    requires Begin(db, scope, a, key, now).Written?
    ensures var next := Begin(db, scope, a, key, now).db;
      && a < |db.actions| && db.actions[a].scope == scope && db.actions[a].status == Applied
      && !HasOpen(db.attempts, a)
      && (key.Some? ==> (scope, key.value) !in db.keys)
      && next == SetStatus(db.(attempts := db.attempts + [NewAttempt(|db.attempts|, a, now)],
          keys := if key.None? then db.keys
            else db.keys[(scope, key.value) := KeyRow(a, Fingerprint(scope, a), |db.attempts|)]), a, Reversing, now)
  {
  }

  lemma AcceptKeepsAttempts(db: Tables, trail: seq<Trail>, tid: nat, a: nat, next: Tables, now: Instant)
    requires AttemptsOk(db, trail) && a < |db.actions| && db.actions[a].status == Applied
    requires next.attempts == db.attempts + [NewAttempt(|db.attempts|, a, now)]
    requires next.actions == db.actions[a := db.actions[a].(status := Reversing)]
    requires next.observations == db.observations
    ensures AttemptsOk(next, trail + [Trail(tid, 0, false, None, None)])
  {
    AppliedMeansBenign(db, trail, a);
    var after := trail + [Trail(tid, 0, false, None, None)];
    forall k: nat | k < |next.attempts| ensures AttemptOk(next, after, k) {
      if k < |db.attempts| {
        assert AttemptOk(db, trail, k);
      }
    }
    forall j, k | 0 <= j < k < |next.attempts| && next.attempts[j].actionId == next.attempts[k].actionId
      ensures Benign(next.attempts[j])
    {
      assert next.attempts[j] == db.attempts[j];
    }
  }

  lemma AcceptKeepsActions(db: Tables, a: nat, next: Tables, now: Instant)
    requires ActionsOk(db) && a < |db.actions|
    requires next.attempts == db.attempts + [NewAttempt(|db.attempts|, a, now)]
    requires next.actions == db.actions[a := db.actions[a].(status := Reversing)]
    ensures ActionsOk(next)
  {
    var n := |db.attempts|;
    assert next.attempts[n].actionId == a && !Benign(next.attempts[n]);
    assert forall j :: 0 <= j < n ==> next.attempts[j] == db.attempts[j];
    forall k: nat | k < |next.attempts| && Newest(next.attempts, k) && Benign(next.attempts[k])
      ensures k < n && next.attempts[k].actionId != a && Newest(db.attempts, k)
    {
    }
    forall b: nat | b < |next.actions| && Untouched(next.attempts, b)
      ensures b != a && Untouched(db.attempts, b)
    {
    }
  }

  lemma AcceptKeepsThread(db: Tables, trail: seq<Trail>, i: nat, t: Thread, tid: nat, a: nat,
      next: Tables, now: Instant)
    requires ThreadOk(db, trail, i, t) && |trail| == |db.attempts|
    requires a < |db.actions| && db.actions[a].status == Applied
    requires next.attempts == db.attempts + [NewAttempt(|db.attempts|, a, now)]
    requires next.actions == db.actions[a := db.actions[a].(status := Reversing)]
    requires next.observations == db.observations
    ensures ThreadOk(next, trail + [Trail(tid, 0, false, None, None)], i, t)
  {
  }

  lemma BeginKeeps(w: World, tid: nat)
    requires Inv(w) && HasPc(w, tid) && w.threads[tid].pc == BeginTx
    ensures Inv(BeginReversal(w, tid))
  {
    var v := BeginReversal(w, tid);
    var t := w.threads[tid];
    var a := t.actionId;
    var r := Begin(w.db, t.scope, a, t.key, t.now);
    if r.Failed? {
      ThreadMoves(w, v, tid);
    } else {
      BeginShape(w.db, t.scope, a, t.key, t.now);
      AcceptKeepsAttempts(w.db, w.trail, tid, a, r.db, t.now);
      AcceptKeepsActions(w.db, a, r.db, t.now);
      assert KeysOk(r.db) by {
        assert forall j :: 0 <= j < |w.db.attempts| ==> r.db.attempts[j] == w.db.attempts[j];
      }
      forall i | i in v.threads ensures ThreadOk(v.db, v.trail, i, v.threads[i]) {
        if i != tid {
          AcceptKeepsThread(w.db, w.trail, i, w.threads[i], tid, a, r.db, t.now);
        }
      }
    }
  }

  // -------------------------------------------------------- the provider is called

  lemma CallMovesTrail(w: World, tid: nat, k: nat, ret: ProviderReturn, effect: bool)
    requires Inv(w) && HasPc(w, tid) && w.threads[tid].pc == Call(k)
    requires k < |w.trail| && w.threads[tid].actionId < |w.db.actions|
    requires ProviderMay(w, w.threads[tid].actionId, ret, effect)
    ensures var v := CallProvider(w, tid, k, ret, effect);
      && RowMoves(w.db, w.trail, k, v.db, v.trail) && v.db.attempts == w.db.attempts
      && ThreadOk(v.db, v.trail, tid, v.threads[tid])
  {
    assert ThreadOk(w.db, w.trail, tid, w.threads[tid]);
    assert AttemptOk(w.db, w.trail, k);
    assert w.db.attempts[k := w.db.attempts[k]] == w.db.attempts;
  }

  lemma CallKeeps(w: World, tid: nat, k: nat, ret: ProviderReturn, effect: bool)
    requires Inv(w) && HasPc(w, tid) && w.threads[tid].pc == Call(k)
    requires k < |w.trail| && w.threads[tid].actionId < |w.db.actions|
    requires ProviderMay(w, w.threads[tid].actionId, ret, effect)
    ensures Inv(CallProvider(w, tid, k, ret, effect))
  {
    hide AttemptOk, RowOk, EvidenceOk, ProviderMay, StatusFits;
    var v := CallProvider(w, tid, k, ret, effect);
    assert ThreadOk(w.db, w.trail, tid, w.threads[tid]);
    CallMovesTrail(w, tid, k, ret, effect);
    RowMovesKeeps(w.db, w.trail, k, v.db, v.trail);
    OtherOwnersDiffer(w, tid, k);
    BystandersKeep(w, v, tid, k);
  }

  // --------------------------------------------------- its return is recorded

  /** The row a settlement leaves: it is judged, and it agrees with what was returned. */
  lemma SettledRow(db: Tables, trail: seq<Trail>, k: nat, s: Settlement, ret: ProviderReturn, at: Instant)
    requires k < |db.attempts| && k < |trail| && AttemptOk(db, trail, k)
    requires db.attempts[k].state == Running && trail[k].returned == Some(ret)
    requires s == Settle(ret) && !s.Unrecognised?
    ensures var next := RecordSettlement(db, k, s, at);
      && next == db.(attempts := db.attempts[k := next.attempts[k]])
      && var r := next.attempts[k];
      && r.actionId == db.attempts[k].actionId && AttemptOk(next, trail, k)
      && r.state != Running && SettledStatus(s) == StatusAfter(r) && (r.state == Concluded ==> !Parked(r))
      && AnswerOf(r) == ResultOf(k, 0, ret, at).outcome
  {
  }

  lemma RecordingIsRunning(w: World, tid: nat, k: nat, ret: ProviderReturn)
    requires Inv(w) && HasPc(w, tid) && w.threads[tid].pc == Record(k, ret)
    ensures |w.trail| == |w.db.attempts| && k < |w.db.attempts| && AttemptOk(w.db, w.trail, k)
    ensures w.db.attempts[k].state == Running && w.trail[k].returned == Some(ret)
  {
    assert ThreadOk(w.db, w.trail, tid, w.threads[tid]);
    assert k < |w.db.attempts|;
    assert AttemptOk(w.db, w.trail, k);
  }

  lemma RecordMovesRow(w: World, tid: nat, k: nat, ret: ProviderReturn, at: Instant)
    requires Inv(w) && HasPc(w, tid) && w.threads[tid].pc == Record(k, ret) && !Settle(ret).Unrecognised?
    ensures var v := RecordReturn(w, tid, k, ret, at);
      && RowMoves(w.db, w.trail, k, v.db, v.trail)
      && w.db.attempts[k].state == Running && !Parked(w.db.attempts[k])
      && ThreadOk(v.db, v.trail, tid, v.threads[tid])
      && AnswerOf(v.db.attempts[k]) == ResultOf(k, 0, ret, at).outcome
  {
    var v := RecordReturn(w, tid, k, ret, at);
    assert ThreadOk(w.db, w.trail, tid, w.threads[tid]);
    assert AttemptOk(w.db, w.trail, k);
    SettledRow(w.db, w.trail, k, Settle(ret), ret, at);
    assert w.trail[k := w.trail[k]] == w.trail;
    SameActions(w.db.attempts, v.db.attempts);
  }

  lemma RecordKeeps(w: World, tid: nat, k: nat, ret: ProviderReturn, at: Instant)
    requires Inv(w) && HasPc(w, tid) && w.threads[tid].pc == Record(k, ret)
    ensures Inv(RecordReturn(w, tid, k, ret, at))
  {
    hide AttemptOk, RowOk, EvidenceOk, StatusFits, Settle, Benign;
    var v := RecordReturn(w, tid, k, ret, at);
    assert ThreadOk(w.db, w.trail, tid, w.threads[tid]);
    if Settle(ret).Unrecognised? {
      ThreadMoves(w, v, tid);
    } else {
      RecordMovesRow(w, tid, k, ret, at);
      RowMovesKeeps(w.db, w.trail, k, v.db, v.trail);
      OtherOwnersDiffer(w, tid, k);
      BystandersKeep(w, v, tid, k);
    }
  }

  // -------------------------------------------------------------- reconciliation

  /** What was seen stays seen, and the new observation is seen. */
  lemma SeenMore(observations: seq<ObservationRow>, o: ObservationRow)
    ensures forall j: nat, f: Evidence :: Seen(observations, j, f) ==> Seen(observations + [o], j, f)
    ensures Seen(observations + [o], o.attemptId, o.evidence)
  {
    var more := observations + [o];
    assert more[|observations|] == o;
    forall j: nat, f: Evidence | Seen(observations, j, f) ensures Seen(more, j, f) {
      var i :| 0 <= i < |observations| && observations[i].attemptId == j && observations[i].evidence == f;
      assert more[i] == observations[i];
    }
  }

  function Observed(db: Tables, o: ObservationRow): Tables {
    db.(observations := db.observations + [o])
  }

  lemma AttemptSeesMore(db: Tables, o: ObservationRow, trail: seq<Trail>, j: nat)
    requires j < |db.attempts| && j < |trail| && AttemptOk(db, trail, j)
    ensures AttemptOk(Observed(db, o), trail, j)
  {
    SeenMore(db.observations, o);
    hide Seen;
  }

  lemma ThreadSeesMore(db: Tables, o: ObservationRow, trail: seq<Trail>, tid: nat, t: Thread)
    requires ThreadOk(db, trail, tid, t)
    ensures ThreadOk(Observed(db, o), trail, tid, t)
  {
    SeenMore(db.observations, o);
    hide Seen;
  }

  lemma ObservedKeeps(w: World, v: World, tid: nat, o: ObservationRow)
    requires Inv(w) && w.phase == Serving && v == w.(db := Observed(w.db, o), threads := v.threads)
    requires forall i :: i in v.threads && i != tid ==> i in w.threads && v.threads[i] == w.threads[i]
    requires tid in v.threads ==> ThreadOk(v.db, v.trail, tid, v.threads[tid])
    ensures Inv(v)
  {
    hide AttemptOk, ThreadOk;
    forall j: nat | j < |w.db.attempts| ensures AttemptOk(Observed(w.db, o), w.trail, j) {
      AttemptSeesMore(w.db, o, w.trail, j);
    }
    forall i | i in v.threads ensures ThreadOk(v.db, v.trail, i, v.threads[i]) {
      if i != tid { ThreadSeesMore(w.db, o, w.trail, i, w.threads[i]); }
    }
  }

  lemma ObserveKeeps(w: World, tid: nat, k: nat, e: Evidence)
    requires Inv(w) && HasRpc(w, tid) && w.threads[tid].rpc == RecObserve(k, e)
    ensures Inv(ReconcileStep(w, tid))
  {
    var v := ReconcileStep(w, tid);
    var o := ObservationRow(k, w.threads[tid].now, e);
    assert ThreadOk(w.db, w.trail, tid, w.threads[tid]);
    SeenMore(w.db.observations, o);
    assert v == RGoto(w.(db := Observed(w.db, o)), tid, if e == Inconclusive then RecFinish(k) else RecConclude(k, e));
    assert ThreadOk(v.db, v.trail, tid, v.threads[tid]);
    assert w.phase == Serving;
    hide ReconcileStep, Seen, ThreadOk, Inv, Observed;
    ObservedKeeps(w, v, tid, o);
  }

  lemma ReconciledRow(db: Tables, trail: seq<Trail>, after: seq<Trail>, k: nat, e: Evidence, at: Instant)
    requires k < |db.attempts| && k < |trail| == |after| && AttemptOk(db, trail, k)
    requires Parked(db.attempts[k]) && e != Inconclusive && Seen(db.observations, k, e)
    requires PastUnknown(db.actions[db.attempts[k].actionId].status)
    requires after[k] == trail[k].(concluder := after[k].concluder)
    ensures var next := ConcludeAttempt(db, k, ProvenObservation(e), None, None, at);
      && next == db.(attempts := db.attempts[k := next.attempts[k]])
      && var r := next.attempts[k];
      && r.actionId == db.attempts[k].actionId && AttemptOk(next, after, k)
      && r.state == Concluded && Parked(r) && !Benign(r)
  {
  }

  lemma RecConcludeMovesRow(w: World, tid: nat, k: nat, e: Evidence, at: Instant)
    requires Inv(w) && HasRpc(w, tid) && w.threads[tid].rpc == RecConclude(k, e) && e != Inconclusive
    ensures var v := ConcludeReconciled(w, tid, k, e, at);
      && RowMoves(w.db, w.trail, k, v.db, v.trail)
      && Parked(v.db.attempts[k]) && v.db.attempts[k].state == Concluded
      && ThreadOk(v.db, v.trail, tid, v.threads[tid])
      && k < |w.db.attempts| && w.db.attempts[k].actionId == w.threads[tid].actionId
  {
    var v := ConcludeReconciled(w, tid, k, e, at);
    assert ThreadOk(w.db, w.trail, tid, w.threads[tid]);
    assert AttemptOk(w.db, w.trail, k);
    ReconciledRow(w.db, w.trail, v.trail, k, e, at);
    assert w.trail[k := w.trail[k]] == w.trail;
  }

  lemma ReconcilerOwnsNothing(w: World, tid: nat, k: nat)
    requires Inv(w) && tid in w.threads
    requires Uncertain(w.db, w.threads[tid].scope, w.threads[tid].actionId, k)
    ensures forall i :: i in w.threads && i != tid && IsOwner(w.threads[i]) ==>
      w.threads[i].actionId != w.threads[tid].actionId
  {
  }

  lemma RecConcludeKeeps(w: World, tid: nat, k: nat, e: Evidence, at: Instant)
    requires Inv(w) && HasRpc(w, tid) && w.threads[tid].rpc == RecConclude(k, e) && e != Inconclusive
    ensures Inv(ConcludeReconciled(w, tid, k, e, at))
  {
    var v := ConcludeReconciled(w, tid, k, e, at);
    RecConcludeMovesRow(w, tid, k, e, at);
    assert ThreadOk(w.db, w.trail, tid, w.threads[tid]);
    ReconcilerOwnsNothing(w, tid, k);
    assert v.phase == w.phase && v.wrote == w.wrote && v.threads.Keys == w.threads.Keys;
    assert forall i :: i in v.threads && i != tid ==> v.threads[i] == w.threads[i];
    hide ConcludeReconciled, RowMoves, ThreadOk;
    RowMovesKeeps(w.db, w.trail, k, v.db, v.trail);
    BystandersKeep(w, v, tid, k);
  }

  /** No thread relies on an Action being in OUTCOME_UNKNOWN and no further. */
  lemma UnknownThreadsKeep(db: Tables, trail: seq<Trail>, tid: nat, t: Thread, a: nat, to: Status, at: Instant)
    requires ThreadOk(db, trail, tid, t) && a < |db.actions|
    requires db.actions[a].status == OutcomeUnknown && PastUnknown(to)
    ensures ThreadOk(SetStatus(db, a, to, at), trail, tid, t)
  {
  }

  lemma RecUpdateKeeps(w: World, tid: nat, k: nat, e: Evidence, at: Instant)
    requires Inv(w) && HasRpc(w, tid) && w.threads[tid].rpc == RecUpdate(k, e, at)
    ensures Inv(ReconcileStep(w, tid))
  {
    var v := ReconcileStep(w, tid);
    var t := w.threads[tid];
    var a := t.actionId;
    assert ThreadOk(w.db, w.trail, tid, t);
    if w.db.actions[a].status != OutcomeUnknown {
      ThreadMoves(w, v, tid);
    } else {
      var to := ProvenStatus(e);
      assert AttemptOk(w.db, w.trail, k);
      NotBenignIsNewest(w.db, w.trail, k);
      NewestDecides(w.db, w.trail, a, k, to);
      assert v == RGoto(w.(db := SetStatus(w.db, a, to, at)), tid, RecFinish(k));
      assert PastUnknown(to);
      hide ReconcileStep, StatusMayMove, AttemptOk, Newest, StatusFits;
      StatusMoveKeepsTables(w.db, w.trail, a, to, at);
      forall i | i in v.threads ensures ThreadOk(v.db, v.trail, i, v.threads[i]) {
        if i != tid {
          assert ThreadOk(w.db, w.trail, i, w.threads[i]);
          UnknownThreadsKeep(w.db, w.trail, i, w.threads[i], a, to, at);
        }
      }
    }
  }

  lemma OpenAttemptKeeps(w: World, tid: nat, status: Status)
    requires Inv(w) && HasRpc(w, tid) && w.threads[tid].rpc == RecOpen(status)
    ensures Inv(ReadOpenAttempt(w, tid, status))
  {
    var t := w.threads[tid];
    assert ThreadOk(w.db, w.trail, tid, t);
    var open := OpenAttempt(w.db.attempts, t.actionId);
    if open.Some? {
      assert AttemptOk(w.db, w.trail, open.value);
    }
    ThreadMoves(w, ReadOpenAttempt(w, tid, status), tid);
  }

  lemma ReconcileStepKeeps(w: World, tid: nat)
    requires Inv(w) && HasRpc(w, tid)
    ensures Inv(ReconcileStep(w, tid))
  {
    var t := w.threads[tid];
    assert ThreadOk(w.db, w.trail, tid, t);
    match t.rpc
    case RecOpen(status) => OpenAttemptKeeps(w, tid, status);
    case RecObserve(k, e) => ObserveKeeps(w, tid, k, e);
    case RecUpdate(k, e, at) => RecUpdateKeeps(w, tid, k, e, at);
    case _ => ThreadMoves(w, ReconcileStep(w, tid), tid);
  }

  // ------------------------------------------------------------------ recovery

  lemma RestartKeeps(w: World, now: Instant)
    requires Inv(w) && w.phase == Down
    ensures Inv(Apply(w, LRestart(now)))
  {
    var running := RunningAttempts(w.db.attempts);
    assert forall i :: 0 <= i < |running| ==> running[i] in running;
  }

  lemma RecoveryMarks(w: World)
    requires Inv(w) && w.phase.Recovering? && w.phase.pending != [] && !w.phase.marked
    ensures w.phase.pending[0] < |w.db.attempts|
    ensures w.db.attempts[w.phase.pending[0]].actionId < |w.db.actions|
    ensures Inv(RecoverStep(w))
  {
    var k := w.phase.pending[0];
    var v := RecoverStep(w);
    assert AttemptOk(w.db, w.trail, k);
    NotBenignIsNewest(w.db, w.trail, k);
    assert forall i :: 0 <= i < |w.db.attempts| ==> v.db.attempts[i].actionId == w.db.attempts[i].actionId;
    forall j: nat | j < |v.db.attempts| ensures AttemptOk(v.db, v.trail, j) {
      assert AttemptOk(w.db, w.trail, j);
    }
    forall j: nat | j < |v.db.attempts| && Newest(v.db.attempts, j) ensures Newest(w.db.attempts, j) {
    }
    forall a: nat | Untouched(v.db.attempts, a) ensures Untouched(w.db.attempts, a) {
    }
  }

  /** The status write of recovery cannot fail. */
  lemma RecoveryMovesOn(w: World)
    requires Inv(w) && w.phase.Recovering? && w.phase.pending != [] && w.phase.marked
    ensures RecoverStep(w).phase == Recovering(w.phase.pending[1..], false, w.phase.now)
    ensures Inv(RecoverStep(w))
  {
    var k := w.phase.pending[0];
    var a := w.db.attempts[k].actionId;
    assert AttemptOk(w.db, w.trail, k);
    NotBenignIsNewest(w.db, w.trail, k);
    NewestDecides(w.db, w.trail, a, k, OutcomeUnknown);
    StatusMoveKeepsTables(w.db, w.trail, a, OutcomeUnknown, w.phase.now);
  }

  lemma RecoverStepKeeps(w: World)
    requires Inv(w) && w.phase.Recovering?
    ensures Inv(RecoverStep(w))
    ensures RecoverStep(w).phase != Down
  {
    if w.phase.pending != [] {
      if w.phase.marked { RecoveryMovesOn(w); } else { RecoveryMarks(w); }
    }
  }

  // ----------------------------------------------------------- every step keeps it

  lemma LookupKeeps(w: World, tid: nat)
    requires Inv(w) && HasPc(w, tid) && (w.threads[tid].pc.KeyLookup? || w.threads[tid].pc.LostRace?)
    ensures Inv(RequestStep(w, tid))
  {
    hide Inv;
    var missing := if w.threads[tid].pc.KeyLookup? then Goto(w, tid, ReadAction) else Leave(w, tid);
    if w.threads[tid].key.Some? { ConvergeKeeps(w, tid, missing); } else { MovesOnOrLeaves(w, tid, missing); }
  }

  lemma MovesOnOrLeaves(w: World, tid: nat, v: World)
    requires Inv(w) && HasPc(w, tid) && (v == Leave(w, tid) || v == Goto(w, tid, ReadAction))
    ensures Inv(v)
  {
    ThreadMoves(w, v, tid);
  }

  lemma ReadKeeps(w: World, tid: nat)
    requires Inv(w) && HasPc(w, tid)
    requires w.threads[tid].pc.SweepSelect? || w.threads[tid].pc.ReadAction? || w.threads[tid].pc.ReadEdges?
      || w.threads[tid].pc.PollAction?
    ensures Inv(RequestStep(w, tid))
  {
    hide AttemptsOk, ActionsOk, KeysOk, Admission, Dependents;
    ThreadMoves(w, RequestStep(w, tid), tid);
  }

  lemma RequestStepKeeps(w: World, tid: nat)
    requires Inv(w) && HasPc(w, tid)
    ensures Inv(RequestStep(w, tid))
  {
    var t := w.threads[tid];
    hide Inv;
    match t.pc
    case SweepRows(due) => ExpireKeeps(w, tid, due);
    case KeyLookup => LookupKeeps(w, tid);
    case LostRace => LookupKeeps(w, tid);
    case ReadDependents(pending, blocked) => DependentKeeps(w, tid, pending, blocked);
    case BeginTx => BeginKeeps(w, tid);
    case Transition(k, to, at) => MoveStatusKeeps(w, tid, k, to, at);
    case Poll(_) =>
    case Call(_) =>
    case Record(_, _) =>
    case _ => ReadKeeps(w, tid);
  }

  lemma PollKeeps(w: World, tid: nat, giveUp: bool)
    requires Inv(w) && Enabled(w, LPoll(tid, giveUp))
    ensures Inv(PollAttempt(w, tid, giveUp))
  {
  }

  lemma BusinessKeeps(w: World, l: Label)
    requires Inv(w) && Enabled(w, l)
    requires l.LCreate? || l.LUpdate? || l.LPublish? || l.LNotify? || l.LExternal? || l.LAddEdge?
    ensures Inv(Apply(w, l))
  {
    var v := Apply(w, l);
    match l
    case LCreate(scope, id, _, now, exp) => NewActionKeeps(w, v, ResourceApi.CreateRow(scope, id, now, exp));
    case LUpdate(scope, id, _, now, exp) =>
      NewActionKeeps(w, v, ResourceApi.UpdateRow(scope, id, w.db.resources[id], now, exp));
    case LPublish(scope, id, now) => NewActionKeeps(w, v, ResourceApi.PublishRow(scope, id, now));
    case LNotify(scope, id, nid, channel, now, exp) =>
      NewActionKeeps(w, v, ResourceApi.NotifyRow(scope, nid, channel, now, exp));
    case LExternal(row) => NewActionKeeps(w, v, row);
    case _ => ProviderTablesKeep(w, v);
  }

  lemma CrashKeeps(w: World)
    requires Inv(w)
    ensures Inv(Apply(w, LCrash))
  {
  }

  lemma ThreadStepKeeps(w: World, l: Label)
    requires Inv(w) && Enabled(w, l) && (l.LStart? || l.LReconcile? || l.LLookup? || l.LAbandon?)
    ensures Inv(Apply(w, l))
  {
    if l.LLookup? { assert ThreadOk(w.db, w.trail, l.tid, w.threads[l.tid]); }
    ThreadMoves(w, Apply(w, l), l.tid);
  }

  lemma CallStepKeeps(w: World, tid: nat, ret: ProviderReturn, effect: bool)
    requires Inv(w) && Enabled(w, LCall(tid, ret, effect))
    ensures Inv(Apply(w, LCall(tid, ret, effect)))
  {
    hide Inv;
    CallKeeps(w, tid, w.threads[tid].pc.calling, ret, effect);
  }

  lemma StepKeeps(w: World, l: Label)
    requires Inv(w) && Enabled(w, l)
    ensures Inv(Apply(w, l))
  {
    hide RequestStep, ReconcileStep, RecoverStep, CallProvider, RecordReturn, ConcludeReconciled, PollAttempt, Inv;
    match l
    case LStep(tid) => if w.threads[tid].Request? { RequestStepKeeps(w, tid); } else { ReconcileStepKeeps(w, tid); }
    case LPoll(tid, giveUp) => PollKeeps(w, tid, giveUp);
    case LCall(tid, ret, effect) => CallStepKeeps(w, tid, ret, effect);
    case LRecord(tid, at) => RecordKeeps(w, tid, w.threads[tid].pc.recording, w.threads[tid].pc.ret, at);
    case LRecConclude(tid, at) =>
      RecConcludeKeeps(w, tid, w.threads[tid].rpc.attempt, w.threads[tid].rpc.evidence, at);
    case LRestart(now) => RestartKeeps(w, now);
    case LRecover => RecoverStepKeeps(w);
    case LCrash => CrashKeeps(w);
    case LStart(_, _, _, _, _) => ThreadStepKeeps(w, l);
    case LReconcile(_, _, _, _) => ThreadStepKeeps(w, l);
    case LLookup(_, _) => ThreadStepKeeps(w, l);
    case LAbandon(_) => ThreadStepKeeps(w, l);
    case _ => BusinessKeeps(w, l);
  }

  lemma {:induction false} RunKeeps(w: World, ls: seq<Label>)
    requires Inv(w) && CanRun(w, ls)
    ensures Inv(Run(w, ls))
    decreases |ls|
  {
    hide Apply, Enabled, Inv;
    if ls != [] {
      StepKeeps(w, ls[0]);
      RunKeeps(Apply(w, ls[0]), ls[1..]);
    }
  }

  /** Every state any interleaving, abandonment, crash and recovery can lead to. */
  lemma ReachableInv(w: World)
    requires Reached(w)
    ensures Inv(w)
  {
    var ls :| CanRun(INIT, ls) && Run(INIT, ls) == w;
    RunKeeps(INIT, ls);
  }
}
