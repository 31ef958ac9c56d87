/** What each service call answers and leaves in the tables when it runs by itself. The
    service classes are proved to do exactly this; the lemmas say what it amounts to. */
module Services {
  import opened Domain
  import opened Timestamp
  import opened Records
  import opened Dependency
  import opened ResourceApi

  // ------------------------------------------------------------------ the sweep

  lemma {:induction false} ExpireAllExpires(db: Tables, ids: seq<nat>, now: Instant)
    requires forall i :: i in ids ==> 0 <= i < |db.actions|
    ensures var next := ExpireAll(db, ids, now);
      && next == db.(actions := next.actions, history := next.history)
      && |next.actions| == |db.actions| && |next.history| == |db.history| + |ids|
      && db.history <= next.history
      && forall a :: 0 <= a < |db.actions| ==>
          next.actions[a] == if a in ids then db.actions[a].(status := Expired) else db.actions[a]
    decreases |ids|
  {
    if ids != [] {
      assert ids[0] in ids && forall i :: i in ids[1..] ==> i in ids;
      ExpireAllExpires(SetStatus(db, ids[0], Expired, now), ids[1..], now);
      assert forall a :: a in ids <==> a == ids[0] || a in ids[1..];
    }
  }

  /** One entry for each, in order. */
  lemma {:induction false} ExpireAllRecords(db: Tables, ids: seq<nat>, now: Instant)
    requires forall i :: i in ids ==> 0 <= i < |db.actions|
    requires forall i :: 0 <= i < |ids| ==> ids[i] < |db.actions| && db.actions[ids[i]].status == Applied
    requires forall i, j :: 0 <= i < j < |ids| ==> ids[i] < ids[j]
    ensures ExpireAll(db, ids, now).history
      == db.history + seq(|ids|, i requires 0 <= i < |ids| => HistoryRow(ids[i], Some(Applied), Expired, now))
    decreases |ids|
  {
    if ids != [] {
      assert ids[0] in ids && forall i :: i in ids[1..] ==> i in ids;
      ExpireAllRecords(SetStatus(db, ids[0], Expired, now), ids[1..], now);
    }
  }

  lemma {:induction false} NoneDueNothingSelected(actions: seq<ActionRow>, now: Instant)
    requires forall a :: 0 <= a < |actions| ==> !IsDue(actions[a], now)
    ensures DueActions(actions, now) == []
  {
    if actions != [] {
      NoneDueNothingSelected(actions[..|actions| - 1], now);
    }
  }

  lemma SweepMovesDue(db: Tables, now: Instant)
    ensures var next := Sweep(db, now);
      && next == db.(actions := next.actions, history := next.history)
      && |next.actions| == |db.actions|
      && (forall a :: 0 <= a < |db.actions| ==>
            next.actions[a] == if IsDue(db.actions[a], now) then db.actions[a].(status := Expired) else db.actions[a])
  {
    ExpireAllExpires(db, DueActions(db.actions, now), now);
    hide ExpireAll;
  }

  lemma SweepRecords(db: Tables, now: Instant)
    ensures var due := DueActions(db.actions, now);
      Sweep(db, now).history
        == db.history + seq(|due|, i requires 0 <= i < |due| => HistoryRow(due[i], Some(Applied), Expired, now))
  {
    var due := DueActions(db.actions, now);
    assert forall i :: 0 <= i < |due| ==> due[i] in due && IsDue(db.actions[due[i]], now);
    hide ExpireAll, DueActions;
    ExpireAllRecords(db, due, now);
  }

  lemma SweptTwice(db: Tables, now: Instant)
    ensures Sweep(Sweep(db, now), now) == Sweep(db, now)
  {
    SweepMovesDue(db, now);
    var next := Sweep(db, now);
    NoneDueNothingSelected(next.actions, now);
    hide DueActions;
  }

  /** The sweep moves exactly the APPLIED Actions whose window has closed, adds one history
      entry for each, in order, touches nothing else, and a second sweep does nothing. */
  lemma SweepIsExact(db: Tables, now: Instant)
    ensures var next, due := Sweep(db, now), DueActions(db.actions, now);
      && next == db.(actions := next.actions, history := next.history)
      && |next.actions| == |db.actions|
      && (forall a :: 0 <= a < |db.actions| ==>
            next.actions[a] == if IsDue(db.actions[a], now) then db.actions[a].(status := Expired) else db.actions[a])
      && next.history
        == db.history + seq(|due|, i requires 0 <= i < |due| => HistoryRow(due[i], Some(Applied), Expired, now))
      && db.history <= next.history && |next.history| == |db.history| + |due|
      && Sweep(next, now) == next
  {
    SweepMovesDue(db, now);
    SweptTwice(db, now);
    SweepRecords(db, now);
    hide Sweep;
  }

  // -------------------------------------------------------------- dependencies

  /** The unresolved dependents among these edges; None when one of them is missing. */
  function BlockingOf(db: Tables, scope: string, es: seq<Edge>): Option<seq<nat>> {
    if es == [] then Some([])
    else
      var e := es[|es| - 1];
      var before := BlockingOf(db, scope, es[..|es| - 1]);
      var row := GetAction(db, scope, e.dependent);
      if before.None? || row.None? then None
      else if IsResolved(row.value.status) then before
      else Some(before.value + [e.dependent])
  }

  function Blocking(db: Tables, scope: string, a: nat): Option<seq<nat>> {
    BlockingOf(db, scope, EdgesOfParent(db.edges, scope, a))
  }

  lemma {:induction false} BlockingOfMeans(db: Tables, scope: string, es: seq<Edge>)
    ensures BlockingOf(db, scope, es) == Some([]) <==>
      forall e :: e in es ==>
        GetAction(db, scope, e.dependent).Some? && IsResolved(GetAction(db, scope, e.dependent).value.status)
  {
    if es != [] {
      var n := |es| - 1;
      BlockingOfMeans(db, scope, es[..n]);
      assert forall e :: e in es <==> e in es[..n] || e == es[n];
    }
  }

  /** Nothing blocks exactly when every recorded dependent exists and is resolved. */
  lemma NothingBlocks(db: Tables, scope: string, a: nat)
    ensures Blocking(db, scope, a) == Some([]) <==>
      forall e :: e in db.edges && e.scope == scope && e.parent == a ==>
        GetAction(db, scope, e.dependent).Some? && IsResolved(GetAction(db, scope, e.dependent).value.status)
  {
    BlockingOfMeans(db, scope, EdgesOfParent(db.edges, scope, a));
  }

  /** The scope has an Action of this name. */
  predicate IsThere(db: Tables, scope: string, a: nat) {
    a < |db.actions| && db.actions[a].scope == scope
  }

  /** The Action's effect has not been taken back. */
  predicate StillStands(db: Tables, d: nat) {
    d < |db.actions| && db.actions[d].status != Reversed && db.actions[d].status != PartiallyReversed
  }

  ghost predicate SomeMissing(db: Tables, scope: string, a: nat) {
    exists e :: e in db.edges && e.scope == scope && e.parent == a && !IsThere(db, scope, e.dependent)
  }

  ghost predicate SomeStanding(db: Tables, scope: string, a: nat) {
    exists e :: e in db.edges && e.scope == scope && e.parent == a && StillStands(db, e.dependent)
  }

  /** The blocking dependents among these edges: one for each edge, in the order of the edges. */
  lemma {:induction false} BlockingOfInOrder(db: Tables, scope: string, es: seq<Edge>) returns (places: seq<nat>)
    ensures BlockingOf(db, scope, es).None? <==> exists e :: e in es && !IsThere(db, scope, e.dependent)
    ensures BlockingOf(db, scope, es).Some? ==>
      var r := BlockingOf(db, scope, es).value;
      && |places| == |r| && (forall i, j :: 0 <= i < j < |places| ==> places[i] < places[j])
      && (forall i :: 0 <= i < |places| ==> places[i] < |es| && r[i] == es[places[i]].dependent)
      && (forall p: nat :: p in places <==> p < |es| && StillStands(db, es[p].dependent))
  {
    places := [];
    if es != [] {
      var n := |es| - 1;
      places := BlockingOfInOrder(db, scope, es[..n]);
      assert forall e :: e in es <==> e in es[..n] || e == es[n];
      assert forall p: nat :: p < n ==> es[..n][p] == es[p];
      if StillStands(db, es[n].dependent) { places := places + [n]; }
    }
  }

  /** Positions among the edges of one parent, as positions among all edges. */
  lemma PlacesAmongAll(db: Tables, scope: string, a: nat, outer: seq<nat>, inner: seq<nat>) returns (places: seq<nat>)
    requires PicksInOrder(db.edges, EdgesOfParent(db.edges, scope, a), outer,
      (e: Edge) => e.scope == scope && e.parent == a)
    requires forall i, j :: 0 <= i < j < |inner| ==> inner[i] < inner[j]
    requires forall p: nat :: p in inner <==>
      p < |EdgesOfParent(db.edges, scope, a)| && StillStands(db, EdgesOfParent(db.edges, scope, a)[p].dependent)
    ensures |places| == |inner| && (forall i, j :: 0 <= i < j < |places| ==> places[i] < places[j])
    ensures forall i :: 0 <= i < |places| ==>
      && inner[i] < |EdgesOfParent(db.edges, scope, a)| && places[i] < |db.edges|
      && db.edges[places[i]] == EdgesOfParent(db.edges, scope, a)[inner[i]]
    ensures forall p: nat :: p in places <==>
      && p < |db.edges| && db.edges[p].scope == scope && db.edges[p].parent == a
      && StillStands(db, db.edges[p].dependent)
  {
    var es := EdgesOfParent(db.edges, scope, a);
    hide EdgesOfParent, StillStands;
    assert forall i :: 0 <= i < |inner| ==> inner[i] in inner && inner[i] < |es|;
    places := seq(|inner|, i requires 0 <= i < |inner| && inner[i] < |outer| => outer[inner[i]]);
    forall p: nat | p < |db.edges| && db.edges[p].scope == scope && db.edges[p].parent == a
      && StillStands(db, db.edges[p].dependent)
      ensures p in places
    {
      assert p in outer;
      var q: nat :| q < |outer| && outer[q] == p;
      assert es[q] == db.edges[p];
      assert q in inner;
      var i: nat :| i < |inner| && inner[i] == q;
      assert places[i] == p;
    }
    forall p: nat | p in places
      ensures p < |db.edges| && db.edges[p].scope == scope && db.edges[p].parent == a
      ensures StillStands(db, db.edges[p].dependent)
    {
      var i: nat :| i < |places| && places[i] == p;
      assert inner[i] in inner && outer[inner[i]] in outer;
    }
  }

  lemma SomePlace(db: Tables, scope: string, a: nat, places: seq<nat>)
    requires forall p: nat :: p in places <==>
      && p < |db.edges| && db.edges[p].scope == scope && db.edges[p].parent == a
      && StillStands(db, db.edges[p].dependent)
    ensures places == [] <==> !SomeStanding(db, scope, a)
  {
    hide StillStands;
    if places != [] {
      assert places[0] in places;
      assert db.edges[places[0]] in db.edges;
    }
    if SomeStanding(db, scope, a) {
      var e :| e in db.edges && e.scope == scope && e.parent == a && StillStands(db, e.dependent);
      var p: nat :| p < |db.edges| && db.edges[p] == e;
      assert p in places;
    }
  }

  /** What blocks a reversal: None exactly when a recorded dependent is missing; otherwise the
      dependent of each edge of this scope and parent whose effect still stands, one entry for
      each such edge, in the order in which the edges were recorded. */
  lemma BlockingIsExact(db: Tables, scope: string, a: nat) returns (places: seq<nat>)
    ensures Blocking(db, scope, a).None? <==> SomeMissing(db, scope, a)
    ensures Blocking(db, scope, a).Some? ==>
      var r := Blocking(db, scope, a).value;
      && |places| == |r| && (forall i, j :: 0 <= i < j < |places| ==> places[i] < places[j])
      && (forall i :: 0 <= i < |places| ==> places[i] < |db.edges| && r[i] == db.edges[places[i]].dependent)
      && (forall p: nat :: p in places <==>
            && p < |db.edges| && db.edges[p].scope == scope && db.edges[p].parent == a
            && StillStands(db, db.edges[p].dependent))
      && (r == [] <==> !SomeStanding(db, scope, a))
  {
    var es := EdgesOfParent(db.edges, scope, a);
    var outer := ParentEdgesInOrder(db.edges, scope, a);
    var inner := BlockingOfInOrder(db, scope, es);
    assert SomeMissing(db, scope, a) <==> exists e :: e in es && !IsThere(db, scope, e.dependent);
    hide BlockingOf, StillStands, IsThere;
    if Blocking(db, scope, a).Some? {
      places := PlacesAmongAll(db, scope, a, outer, inner);
      SomePlace(db, scope, a, places);
    } else {
      places := [];
    }
  }

  // -------------------------------------------------------------- the provider

  function ConflictReason(db: Tables, a: nat): string
    requires a < |db.actions|
  {
    var row := db.actions[a];
    match row.op
    case CreateOp =>
      if row.resourceId !in db.resources || db.resources[row.resourceId].scope != row.scope then
        "resource no longer exists; refusing unsafe restore"
      else if db.resources[row.resourceId].published then "resource has been published since creation; reversal refused"
      else "resource was not created by this action; reversal refused"
    case UpdateOp =>
      if !row.material.UpdateMaterial? then "reversal material missing or malformed; refusing to guess prior state"
      else if row.resourceId !in db.resources || db.resources[row.resourceId].scope != row.scope then
        "resource no longer exists; refusing unsafe restore"
      else if db.resources[row.resourceId].published then "resource has been published; restoration refused"
      else "concurrent mutation detected; refusing destructive restore"
    case NotifyOp =>
      if !row.material.NotifyMaterial? || row.material.notificationId !in db.notifications
        || db.notifications[row.material.notificationId].scope != row.scope then
        "notification no longer exists; refusing unsafe state change"
      else if db.notifications[row.material.notificationId].status == Withdrawn then "notification already withdrawn"
      else "notification was not created by this action"
    case _ => ""
  }

  /** One demo reverse call without store errors. */
  function DemoReverse(db: Tables, a: nat): (r: (Tables, ProviderReturn))
    requires a < |db.actions| && IsDemo(db.actions[a].op)
    ensures DemoReturn(db, a, r.1, CanReverse(db, a))
    ensures r.0 == if CanReverse(db, a) then ReverseEffect(db, a) else db
  {
    var row := db.actions[a];
    if CanReverse(db, a) then (ReverseEffect(db, a), Output(SuccessOutcome(row.op), ""))
    else if row.op == UpdateOp && !row.material.UpdateMaterial? then
      (db, Output(OutReverseFailed, ConflictReason(db, a)))
    else (db, Output(OutConflict, ConflictReason(db, a)))
  }

  /** A reverse function says success exactly when it changed something, and can do so once:
      called again it finds a conflict and changes nothing. */
  lemma ReverseSpeaksTrue(db: Tables, a: nat)
    requires a < |db.actions| && IsDemo(db.actions[a].op)
    requires var m := db.actions[a].material;
      db.actions[a].op == UpdateOp && m.UpdateMaterial? ==> m.previousVersion != m.expectedVersion
    ensures var (next, ret) := DemoReverse(db, a);
      var success := SuccessOutcome(db.actions[a].op);
      && next.actions == db.actions && ret.Output?
      && (ret.outcome == success <==> next != db)
      && var (last, again) := DemoReverse(next, a);
        last == next && again.Output? && again.outcome != success
  {
    hide ConflictReason;
    if CanReverse(db, a) { EffectIsVisible(db, a); }
  }

  lemma EffectIsVisible(db: Tables, a: nat)
    requires a < |db.actions| && IsDemo(db.actions[a].op) && CanReverse(db, a)
    requires var m := db.actions[a].material;
      db.actions[a].op == UpdateOp && m.UpdateMaterial? ==> m.previousVersion != m.expectedVersion
    ensures ReverseEffect(db, a).actions == db.actions && ReverseEffect(db, a) != db
    ensures !CanReverse(ReverseEffect(db, a), a)
  {
    var next, row := ReverseEffect(db, a), db.actions[a];
    match row.op
    case CreateOp => assert row.resourceId !in next.resources;
    case UpdateOp => assert next.resources[row.resourceId].version != db.resources[row.resourceId].version;
    case NotifyOp =>
      var n := row.material.notificationId;
      assert next.notifications[n].status != db.notifications[n].status;
    case PublishOp =>
    case ExternalOp(_, _, _) =>
  }

  function CallReverse(db: Tables, a: nat, foreign: ProviderReturn): (Tables, ProviderReturn)
    requires a < |db.actions|
  {
    if IsDemo(db.actions[a].op) then DemoReverse(db, a) else (db, foreign)
  }

  // ------------------------------------------------------------------- Reverse

  function Execute(db: Tables, scope: string, a: nat, k: nat, foreign: ProviderReturn, at: Instant): (Tables, Reply)
    requires a < |db.actions|
  {
    var (called, ret) := CallReverse(db, a, foreign);
    var s := Settle(ret);
    if s.Unrecognised? then (called, Refused(UnknownProviderOutcome))
    else
      var recorded := RecordSettlement(called, k, s, at);
      match UpdateStatus(recorded, scope, a, Reversing, SettledStatus(s), at)
      case Failed(_) => (recorded, Refused(StatusMismatch))
      case Written(next) => (next, Ok(ResultOf(k, a, ret, at)))
  }

  function Replay(db: Tables, scope: string, row: KeyRow): Reply {
    if row.attemptId >= |db.attempts| then Refused(DataInconsistency)
    else
      match GetAction(db, scope, row.actionId)
      case None => Refused(DataInconsistency)
      case Some(action) => Ok(Reconstruct(row.attemptId, db.attempts[row.attemptId], action.status))
  }

  /** The answer tells what the rows say of an attempt, field by field. */
  predicate Tells(r: Result, k: nat, row: AttemptRow, status: Status) {
    && r.attemptId == k && r.actionId == row.actionId && r.status == status && r.providerRef == row.providerRef
    && (r.outcome == OutReversed <==> row.observed == Some(ObsReversed))
    && (r.outcome == OutPartiallyReversed <==> row.observed == Some(ObsPartiallyReversed))
    && (r.outcome == OutReverseFailed <==> row.observed == Some(ObsReverseFailed))
    && (r.outcome == OutConflict <==> row.observed == Some(ObsConflict))
    && (r.outcome == OutUnknown <==> row.observed == None)
    && r.observedAt == (if row.concludedAt.Some? then row.concludedAt.value else row.requestedAt)
    && r.error == (if row.error.Some? then row.error.value else "")
  }

  /** The answer for a key that is already registered; None when it is not. */
  function ReplayOrConflict(db: Tables, scope: string, a: nat, key: string): Option<Reply> {
    match GetKey(db, scope, key)
    case None => None
    case Some(row) =>
      if row.fingerprint != Fingerprint(scope, a) then Some(Refused(KeyConflict)) else Some(Replay(db, scope, row))
  }

  /** What refuses a reversal before its transaction begins. */
  function Obstacle(db: Tables, scope: string, a: nat): Option<Problem> {
    match GetAction(db, scope, a)
    case None => Some(ActionNotFound)
    case Some(row) =>
      if Admission(row).Some? then Admission(row)
      else
        match Blocking(db, scope, a)
        case None => Some(DataInconsistency)
        case Some(blocking) =>
          if blocking != [] then Some(DependencyExists)
          else if !row.op.HasReverse() then Some(CapabilityUnavailable)
          else None
  }

  function LostRaceProblem(error: StoreError): Problem {
    if error == AttemptInProgress then AlreadyInProgress else StatusMismatch
  }

  function BeginFailed(db: Tables, scope: string, a: nat, key: Option<string>, error: StoreError): Reply {
    if key.Some? && (error == AttemptInProgress || error == KeyExists)
      && ReplayOrConflict(db, scope, a, key.value).Some?
    then ReplayOrConflict(db, scope, a, key.value).value
    else Refused(LostRaceProblem(error))
  }

  /** One reversal request on its own: now is its arrival, at the time its provider call
      ended, and foreign what a provider outside this program would return. */
  function Serve(db: Tables, scope: string, a: nat, key: Option<string>, now: Instant, foreign: ProviderReturn,
      at: Instant): (Tables, Reply)
  {
    var swept := Sweep(db, now);
    if key.Some? && ReplayOrConflict(swept, scope, a, key.value).Some? then
      (swept, ReplayOrConflict(swept, scope, a, key.value).value)
    else if Obstacle(swept, scope, a).Some? then (swept, Refused(Obstacle(swept, scope, a).value))
    else
      match Begin(swept, scope, a, key, now)
      case Failed(error) => (swept, BeginFailed(swept, scope, a, key, error))
      case Written(begun) => if a < |begun.actions| then Execute(begun, scope, a, |db.attempts|, foreign, at)
        else (begun, Refused(DataInconsistency))
  }

  // ------------------------------------------------------------ replay fidelity

  predicate InVocabulary(ret: ProviderReturn) {
    !Settle(ret).Unrecognised?
  }

  /** The row an attempt starts with, settled as execute settles it. */
  function SettledAttempt(k: nat, a: nat, now: Instant, ret: ProviderReturn, at: Instant): AttemptRow
    requires InVocabulary(ret)
  {
    var row := NewAttempt(k, a, now);
    match Settle(ret)
    case Conclude(observed, error, retryClass, _) => ConcludedRow(row, observed, error, retryClass, at)
    case Park(message, parkClass) => row.(state := Awaiting, error := Some(message), retryClass := Some(parkClass))
  }

  /** A later replay of the rows tells what the first caller was told: always on attempt,
      Action, status, outcome and provider reference; on the time exactly when the attempt
      concluded (or the call took no time); on the error text exactly unless a conflict
      came without text or a success came with one. */
  lemma ReplayIsFaithful(k: nat, a: nat, now: Instant, ret: ProviderReturn, at: Instant)
    requires InVocabulary(ret)
    ensures var told := ResultOf(k, a, ret, at);
      var row := SettledAttempt(k, a, now, ret, at);
      var again := Reconstruct(k, row, told.status);
      && again.attemptId == told.attemptId && again.actionId == told.actionId && again.status == told.status
      && again.outcome == told.outcome && again.providerRef == told.providerRef
      && (again.observedAt == told.observedAt <==> row.state == Concluded || now == at)
      && (again.error == told.error <==>
            && !(told.outcome == OutConflict && told.error == "")
            && !((told.outcome == OutReversed || told.outcome == OutPartiallyReversed) && told.error != ""))
  {
  }

  lemma RecordsSettled(db: Tables, k: nat, a: nat, now: Instant, ret: ProviderReturn, at: Instant)
    requires InVocabulary(ret) && k < |db.attempts| && db.attempts[k] == NewAttempt(k, a, now)
    ensures RecordSettlement(db, k, Settle(ret), at)
      == db.(attempts := db.attempts[k := SettledAttempt(k, a, now, ret, at)])
  {
    hide Settle;
  }

  lemma ResultNames(k: nat, a: nat, ret: ProviderReturn, at: Instant)
    requires InVocabulary(ret)
    ensures ResultOf(k, a, ret, at).status == SettledStatus(Settle(ret))
  {
    hide Settle;
  }

  lemma SettlesAlongGraph(ret: ProviderReturn)
    requires InVocabulary(ret)
    ensures CanTransition(Reversing, SettledStatus(Settle(ret)))
  {
  }

  /** The last write of an execution cannot be refused while the Action is REVERSING. */
  lemma ExecuteCompletes(db: Tables, scope: string, a: nat, k: nat, foreign: ProviderReturn, at: Instant)
    requires a < |db.actions| && db.actions[a].scope == scope && db.actions[a].status == Reversing
    requires InVocabulary(CallReverse(db, a, foreign).1)
    ensures var (called, ret) := CallReverse(db, a, foreign);
      var recorded := RecordSettlement(called, k, Settle(ret), at);
      && recorded == called.(attempts := recorded.attempts) && called.actions == db.actions
      && Execute(db, scope, a, k, foreign, at)
          == (SetStatus(recorded, a, SettledStatus(Settle(ret)), at), Ok(ResultOf(k, a, ret, at)))
  {
    var (called, ret) := CallReverse(db, a, foreign);
    CallKeepsJournal(db, a, foreign);
    SettlesAlongGraph(ret);
    RecordKeepsOthers(called, k, Settle(ret), at);
    hide CallReverse, Settle, RecordSettlement, CanTransition;
  }

  lemma RecordKeepsOthers(db: Tables, k: nat, s: Settlement, at: Instant)
    ensures RecordSettlement(db, k, s, at) == db.(attempts := RecordSettlement(db, k, s, at).attempts)
    ensures |RecordSettlement(db, k, s, at).attempts| == |db.attempts|
    ensures forall j :: 0 <= j < |db.attempts| ==>
      RecordSettlement(db, k, s, at).attempts[j].actionId == db.attempts[j].actionId
  {
  }

  /** The rows Execute leaves are those: replaying them answers as the theorem says. */
  lemma ExecuteLeavesSettledAttempt(db: Tables, scope: string, a: nat, k: nat, now: Instant, foreign: ProviderReturn,
      at: Instant)
    requires a < |db.actions| && db.actions[a].scope == scope && db.actions[a].status == Reversing
    requires k < |db.attempts| && db.attempts[k] == NewAttempt(k, a, now)
    requires InVocabulary(CallReverse(db, a, foreign).1)
    ensures var ret := CallReverse(db, a, foreign).1;
      var (next, reply) := Execute(db, scope, a, k, foreign, at);
      && reply == Ok(ResultOf(k, a, ret, at))
      && k < |next.attempts| && next.attempts[k] == SettledAttempt(k, a, now, ret, at)
      && a < |next.actions| && next.actions[a] == db.actions[a].(status := ResultOf(k, a, ret, at).status)
      && Replay(next, scope, KeyRow(a, Fingerprint(scope, a), k))
          == Ok(Reconstruct(k, SettledAttempt(k, a, now, ret, at), ResultOf(k, a, ret, at).status))
  {
    var (called, ret) := CallReverse(db, a, foreign);
    CallKeepsJournal(db, a, foreign);
    RecordsSettled(called, k, a, now, ret, at);
    ExecuteCompletes(db, scope, a, k, foreign, at);
    hide CallReverse, Settle, RecordSettlement, SettledAttempt, Execute, Reconstruct, ResultOf;
    ResultNames(k, a, ret, at);
  }

  lemma CallKeepsJournal(db: Tables, a: nat, foreign: ProviderReturn)
    requires a < |db.actions|
    ensures var next := CallReverse(db, a, foreign).0;
      next == db.(resources := next.resources, notifications := next.notifications)
  {
  }

  // ------------------------------------------------------------ plan and verify

  datatype Plan =
    | Planned(conflicts: seq<string>, blocking: seq<nat>, basis: Option<nat>)
    | PlanRefused(problem: Problem)

  /** The provider's own conflicts: planCreate, planUpdate and planNotify. */
  function ProviderConflicts(db: Tables, row: ActionRow): seq<string> {
    match row.op
    case CreateOp =>
      (match GetResource(db, row.scope, row.resourceId)
       case None => ["resource no longer exists"]
       case Some(r) => if r.published then ["resource is published; reversal is refused"] else [])
    case UpdateOp =>
      (match GetResource(db, row.scope, row.resourceId)
       case None => ["resource no longer exists"]
       case Some(r) =>
         (if r.published then ["resource is published; reversal is refused"] else [])
         + if row.material.UpdateMaterial? && r.version != row.material.expectedVersion
           then ["the plan is stale and reversal will conflict"] else [])
    case NotifyOp =>
      if row.resourceId !in db.notifications || db.notifications[row.resourceId].scope != row.scope
      then ["notification no longer exists"]
      else if db.notifications[row.resourceId].status != Sent
      then ["notification is WITHDRAWN; reversal will conflict"] else []
    case _ => []
  }

  function PlanBasis(db: Tables, row: ActionRow): Option<nat> {
    if (row.op == CreateOp || row.op == UpdateOp) && GetResource(db, row.scope, row.resourceId).Some?
    then Some(db.resources[row.resourceId].version)
    else None
  }

  function PlanOf(db: Tables, scope: string, a: nat): Plan {
    match GetAction(db, scope, a)
    case None => PlanRefused(ActionNotFound)
    case Some(row) =>
      if row.reversibility == NotReversible || row.status == Irreversible then PlanRefused(IrreversibleAction)
      else
        match Blocking(db, scope, a)
        case None => PlanRefused(DataInconsistency)
        case Some(blocking) =>
          Planned(
            (if row.status != Applied then ["action is not APPLIED"] else [])
            + (if blocking != [] then ["active dependent Actions make reversal unsafe"] else [])
            + ProviderConflicts(db, row),
            blocking, PlanBasis(db, row))
  }

  /** Plan sweeps first and then only reads. */
  function ServePlan(db: Tables, scope: string, a: nat, now: Instant): (Tables, Plan) {
    (Sweep(db, now), PlanOf(Sweep(db, now), scope, a))
  }

  /** The postconditions a verification evaluates; None when material is missing. */
  function Postconditions(db: Tables, row: ActionRow): Option<seq<bool>> {
    match row.op
    case CreateOp => Some([GetResource(db, row.scope, row.resourceId).None?])
    case UpdateOp =>
      if !row.material.UpdateMaterial? then None
      else
        var r := GetResource(db, row.scope, row.resourceId);
        Some([r.Some?, r.Some? && r.value.value == row.material.previousValue,
          r.Some? && r.value.version == row.material.previousVersion, r.Some? && !r.value.published])
    case NotifyOp =>
      if !row.material.NotifyMaterial? then None
      else
        var n := row.material.notificationId;
        var ok := n in db.notifications && db.notifications[n].scope == row.scope;
        Some([ok && db.notifications[n].status == Withdrawn, ok])
    case _ => None
  }

  predicate Verified(db: Tables, row: ActionRow) {
    Postconditions(db, row).Some? && forall p :: p in Postconditions(db, row).value ==> p
  }
}
