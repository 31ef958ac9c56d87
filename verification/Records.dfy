/** What each store operation does to the tables, as functions from tables to tables.
    The methods of class Store are proved to do exactly this, and the protocol's steps
    are built from it. */
module Records {
  import opened Domain
  import opened Timestamp

  datatype StoreError = IllegalTransition | NotInStatus | AttemptInProgress | KeyExists

  datatype Write = Written(db: Tables) | Failed(error: StoreError)

  // ----------------------------------------------------------------- actions

  function GetAction(db: Tables, scope: string, id: nat): Option<ActionRow> {
    if id < |db.actions| && db.actions[id].scope == scope then Some(db.actions[id]) else None
  }

  function CreateAction(db: Tables, row: ActionRow): Tables {
    db.(actions := db.actions + [row],
        history := db.history + [HistoryRow(|db.actions|, None, row.status, row.createdAt)])
  }

  function SetStatus(db: Tables, id: nat, to: Status, at: Instant): Tables
    requires id < |db.actions|
  {
    db.(actions := db.actions[id := db.actions[id].(status := to)],
        history := db.history + [HistoryRow(id, Some(db.actions[id].status), to, at)])
  }

  function UpdateStatus(db: Tables, scope: string, id: nat, from: Status, to: Status, at: Instant): Write {
    if !CanTransition(from, to) then Failed(IllegalTransition)
    else if id < |db.actions| && db.actions[id].scope == scope && db.actions[id].status == from
    then Written(SetStatus(db, id, to, at))
    else Failed(NotInStatus)
  }

  // ------------------------------------------------------------------ expiry

  predicate IsDue(row: ActionRow, now: Instant) {
    row.status == Applied && row.expiresAt.Some? && row.expiresAt.value <= now
  }

  function DueActions(actions: seq<ActionRow>, now: Instant): (ids: seq<nat>)
    ensures forall i :: i in ids <==> 0 <= i < |actions| && IsDue(actions[i], now)
    ensures forall i, j :: 0 <= i < j < |ids| ==> ids[i] < ids[j]
  {
    if actions == [] then []
    else
      var before := DueActions(actions[..|actions| - 1], now);
      assert forall i :: 0 <= i < |before| ==> before[i] in before;
      before + if IsDue(actions[|actions| - 1], now) then [|actions| - 1] else []
  }

  /** Expire the listed Actions one by one. */
  function ExpireAll(db: Tables, ids: seq<nat>, now: Instant): Tables
    requires forall i :: i in ids ==> 0 <= i < |db.actions|
    decreases |ids|
  {
    if ids == [] then db
    else
      assert ids[0] in ids && forall i :: i in ids[1..] ==> i in ids;
      ExpireAll(SetStatus(db, ids[0], Expired, now), ids[1..], now)
  }

  function Sweep(db: Tables, now: Instant): Tables {
    ExpireAll(db, DueActions(db.actions, now), now)
  }

  // ---------------------------------------------------------------- attempts

  predicate IsOpen(row: AttemptRow) {
    row.state != Concluded
  }

  predicate HasOpen(attempts: seq<AttemptRow>, a: nat) {
    exists k :: 0 <= k < |attempts| && attempts[k].actionId == a && IsOpen(attempts[k])
  }

  function NewAttempt(k: nat, a: nat, now: Instant): AttemptRow {
    AttemptRow(a, now, Running, None, Some(RopRev(k)), None, None, None)
  }

  /** The unique index on open attempts refuses a second one. */
  function CreateAttempt(db: Tables, a: nat, now: Instant): Write {
    if HasOpen(db.attempts, a) then Failed(AttemptInProgress)
    else Written(db.(attempts := db.attempts + [NewAttempt(|db.attempts|, a, now)]))
  }

  function Coalesce<T>(x: Option<T>, y: Option<T>): Option<T> {
    if x.Some? then x else y
  }

  function ConcludedRow(row: AttemptRow, observed: Observed, error: Option<string>,
      retryClass: Option<RetryClass>, at: Instant): AttemptRow {
    row.(state := Concluded, observed := Some(observed), error := Coalesce(error, row.error),
         retryClass := Coalesce(retryClass, row.retryClass), concludedAt := Some(at))
  }

  function ConcludeAttempt(db: Tables, k: nat, observed: Observed, error: Option<string>,
      retryClass: Option<RetryClass>, at: Instant): Tables {
    if k < |db.attempts| && IsOpen(db.attempts[k])
    then db.(attempts := db.attempts[k := ConcludedRow(db.attempts[k], observed, error, retryClass, at)])
    else db
  }

  function MarkAwaiting(db: Tables, k: nat, error: string, retryClass: RetryClass): Tables {
    if k < |db.attempts| && db.attempts[k].state == Running
    then db.(attempts := db.attempts[k :=
      db.attempts[k].(state := Awaiting, error := Some(error), retryClass := Some(retryClass))])
    else db
  }

  /** The open attempt of an Action, if any. */
  function OpenAttempt(attempts: seq<AttemptRow>, a: nat): (r: Option<nat>)
    ensures r.Some? <==> HasOpen(attempts, a)
    ensures r.Some? ==> r.value < |attempts| && attempts[r.value].actionId == a && IsOpen(attempts[r.value])
  {
    if attempts == [] then None
    else if attempts[|attempts| - 1].actionId == a && IsOpen(attempts[|attempts| - 1]) then Some(|attempts| - 1)
    else OpenAttempt(attempts[..|attempts| - 1], a)
  }

  function RunningAttempts(attempts: seq<AttemptRow>): (ids: seq<nat>)
    ensures forall k :: k in ids <==> 0 <= k < |attempts| && attempts[k].state == Running
    ensures forall i, j :: 0 <= i < j < |ids| ==> ids[i] < ids[j]
  {
    if attempts == [] then []
    else
      var before := RunningAttempts(attempts[..|attempts| - 1]);
      assert forall i :: 0 <= i < |before| ==> before[i] in before;
      before + if attempts[|attempts| - 1].state == Running then [|attempts| - 1] else []
  }

  // -------------------------------------------------------------------- keys

  function GetKey(db: Tables, scope: string, key: string): Option<KeyRow> {
    if (scope, key) in db.keys then Some(db.keys[(scope, key)]) else None
  }

  /** The unique index on (scope, key) refuses a second record. */
  function CreateKey(db: Tables, scope: string, key: string, row: KeyRow): Write {
    if (scope, key) in db.keys then Failed(KeyExists) else Written(db.(keys := db.keys[(scope, key) := row]))
  }

  // ------------------------------------------- the transaction that begins it

  /** Attempt, Action status and key record, or nothing at all. */
  function Begin(db: Tables, scope: string, a: nat, key: Option<string>, now: Instant): Write {
    var k := |db.attempts|;
    var w := CreateAttempt(db, a, now);
    if w.Failed? then w
    else
      var v := UpdateStatus(w.db, scope, a, Applied, Reversing, now);
      if v.Failed? || key.None? then v
      else CreateKey(v.db, scope, key.value, KeyRow(a, Fingerprint(scope, a), k))
  }

  // ------------------------------------------- recording a provider's return

  datatype Settlement =
    | Conclude(observed: Observed, error: Option<string>, retryClass: Option<RetryClass>, to: Status)
    | Park(message: string, parkClass: RetryClass)
    | Unrecognised

  function ClassOf(c: Option<RetryClass>): RetryClass {
    if c.Some? then c.value else ReconcileRequired
  }

  function ConflictText(error: string): string {
    if error == "" then "correctness-critical precondition failed" else error
  }

  /** How the reversal service classifies what the provider returned. */
  function Settle(ret: ProviderReturn): Settlement {
    match ret
    case Failure(c, message) =>
      (match ClassOf(c)
       case Retryable => Conclude(ObsReverseFailed, Some(message), Some(Retryable), Applied)
       case NonRetryable => Conclude(ObsReverseFailed, Some(message), Some(NonRetryable), ReverseFailed)
       case other => Park(message, other))
    case Output(outcome, error) =>
      match outcome
      case OutReversed => Conclude(ObsReversed, None, None, Reversed)
      case OutPartiallyReversed => Conclude(ObsPartiallyReversed, None, None, PartiallyReversed)
      case OutReverseFailed => Conclude(ObsReverseFailed, Some(error), None, ReverseFailed)
      case OutConflict => Conclude(ObsConflict, Some(ConflictText(error)), None, Applied)
      case OutUnknown => Park(error, ReconcileRequired)
      case OutOther(_) => Unrecognised
  }

  function SettledStatus(s: Settlement): Status
    requires !s.Unrecognised?
  {
    if s.Conclude? then s.to else OutcomeUnknown
  }

  function RecordSettlement(db: Tables, k: nat, s: Settlement, at: Instant): Tables {
    match s
    case Conclude(observed, error, retryClass, _) => ConcludeAttempt(db, k, observed, error, retryClass, at)
    case Park(message, parkClass) => MarkAwaiting(db, k, message, parkClass)
    case Unrecognised => db
  }

  /** The result a request returns for what its provider call returned. */
  function ResultOf(k: nat, a: nat, ret: ProviderReturn, at: Instant): Result
    requires !Settle(ret).Unrecognised?
  {
    var outcome := match ret
      case Output(o, _) => o
      case Failure(_, _) => if Settle(ret).Park? then OutUnknown else OutReverseFailed;
    var error := match ret case Output(_, e) => e case Failure(_, m) => m;
    Result(k, a, SettledStatus(Settle(ret)), outcome, at, Some(RopRev(k)), error)
  }

  function AnswerOf(row: AttemptRow): Outcome {
    match row.observed
    case None => OutUnknown
    case Some(ObsReversed) => OutReversed
    case Some(ObsPartiallyReversed) => OutPartiallyReversed
    case Some(ObsReverseFailed) => OutReverseFailed
    case Some(ObsConflict) => OutConflict
  }

  /** The wire result projected from a durable attempt and the Action's status. */
  function Reconstruct(k: nat, row: AttemptRow, status: Status): Result {
    Result(k, row.actionId, status, AnswerOf(row),
      if row.concludedAt.Some? then row.concludedAt.value else row.requestedAt,
      row.providerRef,
      if row.error.Some? then row.error.value else "")
  }

  // -------------------------------------------------------------- admission

  /** The switch that decides whether an Action may begin a reversal. */
  function Admission(row: ActionRow): Option<Problem> {
    if row.reversibility == NotReversible || row.status == Irreversible then Some(IrreversibleAction)
    else if row.status == Expired then Some(ReversalExpired)
    else if row.status == Reversing || row.status == OutcomeUnknown then Some(AlreadyInProgress)
    else if row.status != Applied then Some(PreconditionFailed)
    else None
  }

  predicate IsResolved(s: Status) {
    s == Reversed || s == PartiallyReversed
  }

  // ----------------------------------------------------------- observations

  datatype LookupReturn = LookupError | Lookup(outcome: Outcome, proven: bool)

  function EvidenceOf(ret: LookupReturn): Evidence {
    match ret
    case Lookup(OutReversed, true) => ProvenReversed
    case Lookup(OutReverseFailed, true) => ProvenNotReversed
    case _ => Inconclusive
  }

  predicate Seen(observations: seq<ObservationRow>, k: nat, e: Evidence) {
    exists i :: 0 <= i < |observations| && observations[i].attemptId == k && observations[i].evidence == e
  }
}
