/** Every step of the protocol touches the journal in one of four ways. From that follow
    what is never lost (rows, keys, observations, conclusions) and the shape of the
    status history. */
module Moves {
  import opened Domain
  import opened Timestamp
  import opened Records
  import opened Protocol
  import opened Invariant
  import opened Steps
  import ResourceApi

  datatype Move =
    | Quiet
    | Created(row: ActionRow)
    | Moved(a: nat, to: Status, at: Instant)
    | Begun(scope: string, action: nat, key: Option<string>, now: Instant)

  /** The attempt rows keep their names; a concluded row is never changed. */
  ghost predicate RowsKeep(attempts: seq<AttemptRow>, next: seq<AttemptRow>) {
    && |next| == |attempts|
    && forall k :: 0 <= k < |attempts| ==>
        && next[k].actionId == attempts[k].actionId
        && next[k].requestedAt == attempts[k].requestedAt
        && (attempts[k].state == Concluded ==> next[k] == attempts[k])
  }

  /** The four ways, up to the provider's own tables and the edges. */
  ghost predicate Makes(m: Move, db: Tables, next: Tables) {
    match m
    case Quiet =>
      && next.actions == db.actions && next.history == db.history && next.keys == db.keys
      && RowsKeep(db.attempts, next.attempts) && db.observations <= next.observations
    case Created(row) =>
      && next.actions == CreateAction(db, row).actions && next.history == CreateAction(db, row).history
      && next.keys == db.keys && next.attempts == db.attempts && next.observations == db.observations
      && (row.status == Applied || row.status == Irreversible)
    case Moved(a, to, at) =>
      && a < |db.actions| && CanTransition(db.actions[a].status, to) && to != Reversing
      && next == SetStatus(db, a, to, at)
    case Begun(scope, a, key, now) => Begin(db, scope, a, key, now) == Written(next)
  }

  lemma BusinessMove(w: World, l: Label) returns (m: Move)
    requires Enabled(w, l)
    requires l.LCreate? || l.LUpdate? || l.LPublish? || l.LNotify? || l.LExternal? || l.LAddEdge?
    ensures Makes(m, w.db, Apply(w, l).db)
  {
    match l
    case LCreate(scope, id, _, now, exp) => m := Created(ResourceApi.CreateRow(scope, id, now, exp));
    case LUpdate(scope, id, _, now, exp) =>
      m := Created(ResourceApi.UpdateRow(scope, id, w.db.resources[id], now, exp));
    case LPublish(scope, id, now) => m := Created(ResourceApi.PublishRow(scope, id, now));
    case LNotify(scope, id, nid, channel, now, exp) =>
      m := Created(ResourceApi.NotifyRow(scope, nid, channel, now, exp));
    case LExternal(row) => m := Created(row);
    case _ => m := Quiet;
  }

  lemma SweepMove(w: World, tid: nat, due: seq<nat>) returns (m: Move)
    requires HasPc(w, tid) && w.threads[tid].pc == SweepRows(due)
    ensures Makes(m, w.db, RequestStep(w, tid).db)
  {
    m := Quiet;
    if due != [] && due[0] < |w.db.actions| && w.db.actions[due[0]].status == Applied {
      m := Moved(due[0], Expired, w.threads[tid].now);
    }
  }

  lemma RequestMove(w: World, tid: nat) returns (m: Move)
    requires Inv(w) && HasPc(w, tid)
    ensures Makes(m, w.db, RequestStep(w, tid).db)
  {
    var t := w.threads[tid];
    m := Quiet;
    match t.pc
    case SweepRows(due) => m := SweepMove(w, tid, due);
    case BeginTx =>
      BeginMoves(w, tid);
      if Begin(w.db, t.scope, t.actionId, t.key, t.now).Written? {
        m := Begun(t.scope, t.actionId, t.key, t.now);
      }
      hide RequestStep, Begin;
    case Transition(k, to, at) =>
      assert ThreadOk(w.db, w.trail, tid, t);
      MoveStatusKeeps(w, tid, k, to, at);
      m := Moved(t.actionId, to, at);
    case Poll(_) =>
    case Call(_) =>
    case Record(_, _) =>
    case _ =>
      RequestStepMoves(w, tid);
      hide RequestStep;
  }

  lemma ReconcileMove(w: World, tid: nat) returns (m: Move)
    requires HasRpc(w, tid)
    ensures Makes(m, w.db, ReconcileStep(w, tid).db)
  {
    var t := w.threads[tid];
    m := Quiet;
    if t.rpc.RecUpdate? && t.rpc.evidence != Inconclusive {
      var to, at := ProvenStatus(t.rpc.evidence), t.rpc.at;
      if UpdateStatus(w.db, t.scope, t.actionId, OutcomeUnknown, to, at).Written? {
        m := Moved(t.actionId, to, at);
      }
    }
  }

  lemma WrittenMoves(db: Tables, scope: string, a: nat, from: Status, to: Status, at: Instant, next: Tables)
    requires UpdateStatus(db, scope, a, from, to, at) == Written(next) && to != Reversing
    ensures Makes(Moved(a, to, at), db, next)
  {
  }

  lemma RecoveryParks(w: World)
    requires w.phase.Recovering? && (w.phase.pending == [] || !w.phase.marked)
    ensures Makes(Quiet, w.db, RecoverStep(w).db)
  {
  }

  lemma RecoveryWrites(w: World)
    requires Inv(w) && w.phase.Recovering? && w.phase.pending != [] && w.phase.marked
    ensures var k := w.phase.pending[0];
      && k < |w.db.attempts| && w.db.attempts[k].actionId < |w.db.actions|
      && var a := w.db.attempts[k].actionId;
        UpdateStatus(w.db, w.db.actions[a].scope, a, Reversing, OutcomeUnknown, w.phase.now)
          == Written(RecoverStep(w).db)
  {
    RecoveryMovesOn(w);
    hide Inv, UpdateStatus;
  }

  lemma RecoveryMove(w: World) returns (m: Move)
    requires Inv(w) && w.phase.Recovering?
    ensures Makes(m, w.db, RecoverStep(w).db)
  {
    hide Inv, RecoverStep, Makes, UpdateStatus;
    if w.phase.pending != [] && w.phase.marked {
      RecoveryWrites(w);
      var a := w.db.attempts[w.phase.pending[0]].actionId;
      m := Moved(a, OutcomeUnknown, w.phase.now);
      WrittenMoves(w.db, w.db.actions[a].scope, a, Reversing, OutcomeUnknown, w.phase.now, RecoverStep(w).db);
    } else {
      m := Quiet;
      RecoveryParks(w);
    }
  }

  lemma CallIsQuiet(w: World, tid: nat, ret: ProviderReturn, effect: bool)
    requires Enabled(w, LCall(tid, ret, effect))
    ensures Makes(Quiet, w.db, Apply(w, LCall(tid, ret, effect)).db)
  {
  }

  lemma SettlementIsQuiet(db: Tables, k: nat, s: Settlement, at: Instant)
    ensures Makes(Quiet, db, RecordSettlement(db, k, s, at))
  {
  }

  lemma NothingIsQuiet(db: Tables)
    ensures Makes(Quiet, db, db)
  {
  }

  lemma RecordIsQuiet(w: World, tid: nat, at: Instant)
    requires Enabled(w, LRecord(tid, at))
    ensures Makes(Quiet, w.db, Apply(w, LRecord(tid, at)).db)
  {
    var k, ret := w.threads[tid].pc.recording, w.threads[tid].pc.ret;
    SettlementIsQuiet(w.db, k, Settle(ret), at);
    NothingIsQuiet(w.db);
    hide Settle, RecordSettlement, Makes;
  }

  lemma ConcludeIsQuiet(w: World, tid: nat, at: Instant)
    requires Enabled(w, LRecConclude(tid, at))
    ensures Makes(Quiet, w.db, Apply(w, LRecConclude(tid, at)).db)
  {
  }

  lemma ThreadsAreQuiet(w: World, l: Label)
    requires Enabled(w, l)
    requires l.LStart? || l.LReconcile? || l.LAbandon? || l.LCrash? || l.LRestart? || l.LPoll? || l.LLookup?
    ensures Apply(w, l).db == w.db && Makes(Quiet, w.db, w.db)
  {
  }

  lemma StepMove(w: World, l: Label) returns (m: Move)
    requires Inv(w) && Enabled(w, l)
    ensures Makes(m, w.db, Apply(w, l).db)
  {
    hide Inv, Makes;
    match l
    case LStep(tid) => if w.threads[tid].Request? { m := RequestMove(w, tid); } else { m := ReconcileMove(w, tid); }
    case LRecover => m := RecoveryMove(w);
    case LCall(tid, ret, effect) => CallIsQuiet(w, tid, ret, effect); m := Quiet;
    case LRecord(tid, at) => RecordIsQuiet(w, tid, at); m := Quiet;
    case LRecConclude(tid, at) => ConcludeIsQuiet(w, tid, at); m := Quiet;
    case LCreate(_, _, _, _, _) => m := BusinessMove(w, l);
    case LUpdate(_, _, _, _, _) => m := BusinessMove(w, l);
    case LPublish(_, _, _) => m := BusinessMove(w, l);
    case LNotify(_, _, _, _, _, _) => m := BusinessMove(w, l);
    case LExternal(_) => m := BusinessMove(w, l);
    case LAddEdge(_) => m := BusinessMove(w, l);
    case _ => ThreadsAreQuiet(w, l); m := Quiet;
  }

  // ------------------------------------------------------- nothing is ever lost

  /** What every later state keeps of an earlier one. */
  ghost predicate Grows(db: Tables, next: Tables) {
    && |db.actions| <= |next.actions|
    && (forall a :: 0 <= a < |db.actions| ==>
          next.actions[a] == db.actions[a].(status := next.actions[a].status))
    && |db.attempts| <= |next.attempts| && RowsKeep(db.attempts, next.attempts[..|db.attempts|])
    && (forall p :: p in db.keys ==> p in next.keys && next.keys[p] == db.keys[p])
    && db.observations <= next.observations
    && db.history <= next.history
  }

  lemma MoveGrows(m: Move, db: Tables, next: Tables)
    requires Makes(m, db, next)
    ensures Grows(db, next)
  {
    if m.Begun? {
      BeginShape(db, m.scope, m.action, m.key, m.now);
    }
    assert next.attempts[..|db.attempts|] == next.attempts || m.Begun?;
  }

  lemma StepGrows(w: World, l: Label)
    requires Inv(w) && Enabled(w, l)
    ensures Grows(w.db, Apply(w, l).db)
  {
    hide *;
    var m := StepMove(w, l);
    MoveGrows(m, w.db, Apply(w, l).db);
  }

  lemma GrowsTransitively(a: Tables, b: Tables, c: Tables)
    requires Grows(a, b) && Grows(b, c)
    ensures Grows(a, c)
  {
  }

  lemma {:induction false} RunGrows(w: World, ls: seq<Label>)
    requires Inv(w) && CanRun(w, ls)
    ensures Grows(w.db, Run(w, ls).db)
    decreases |ls|
  {
    hide Apply, Enabled, Inv;
    if ls == [] {
      assert w.db.attempts[..|w.db.attempts|] == w.db.attempts;
    } else {
      StepGrows(w, ls[0]);
      StepKeeps(w, ls[0]);
      RunGrows(Apply(w, ls[0]), ls[1..]);
      GrowsTransitively(w.db, Apply(w, ls[0]).db, Run(w, ls).db);
    }
  }

  // ---------------------------------------------------------------- the history

  function HistoryOf(history: seq<HistoryRow>, a: nat): seq<HistoryRow> {
    if history == [] then []
    else
      HistoryOf(history[..|history| - 1], a)
      + if history[|history| - 1].actionId == a then [history[|history| - 1]] else []
  }

  /** A path in the transition graph from the creation status to the current one. */
  predicate IsPathTo(h: seq<HistoryRow>, status: Status) {
    && |h| >= 1 && h[0].from.None? && (h[0].to == Applied || h[0].to == Irreversible)
    && h[|h| - 1].to == status
    && forall i :: 0 < i < |h| ==> h[i].from == Some(h[i - 1].to) && CanTransition(h[i - 1].to, h[i].to)
  }

  function Count(h: seq<HistoryRow>, s: Status): nat {
    if h == [] then 0 else Count(h[..|h| - 1], s) + if h[|h| - 1].to == s then 1 else 0
  }

  function AttemptsOf(attempts: seq<AttemptRow>, a: nat): nat {
    if attempts == [] then 0
    else AttemptsOf(attempts[..|attempts| - 1], a) + if attempts[|attempts| - 1].actionId == a then 1 else 0
  }

  /** The Action's history is a path to its status, with one entry into REVERSING for each
      of its attempts. */
  ghost predicate ActionHistoryOk(db: Tables, a: nat)
    requires a < |db.actions|
  {
    && IsPathTo(HistoryOf(db.history, a), db.actions[a].status)
    && Count(HistoryOf(db.history, a), Reversing) == AttemptsOf(db.attempts, a)
  }

  ghost predicate HistoryOk(db: Tables) {
    && (forall i :: 0 <= i < |db.history| ==> db.history[i].actionId < |db.actions|)
    && (forall a: nat :: a < |db.actions| ==> ActionHistoryOk(db, a))
  }

  lemma {:induction false} NoHistory(history: seq<HistoryRow>, a: nat)
    requires forall i :: 0 <= i < |history| ==> history[i].actionId != a
    ensures HistoryOf(history, a) == []
  {
    if history != [] {
      NoHistory(history[..|history| - 1], a);
    }
  }

  lemma {:induction false} AttemptsOfKeeps(attempts: seq<AttemptRow>, next: seq<AttemptRow>, a: nat)
    requires RowsKeep(attempts, next)
    ensures AttemptsOf(next, a) == AttemptsOf(attempts, a)
  {
    if attempts != [] {
      AttemptsOfKeeps(attempts[..|attempts| - 1], next[..|next| - 1], a);
    }
  }

  lemma {:induction false} NoAttempts(attempts: seq<AttemptRow>, a: nat)
    requires forall k :: 0 <= k < |attempts| ==> attempts[k].actionId != a
    ensures AttemptsOf(attempts, a) == 0
  {
    if attempts != [] {
      NoAttempts(attempts[..|attempts| - 1], a);
    }
  }

  lemma StatusEntry(history: seq<HistoryRow>, row: HistoryRow, a: nat)
    ensures HistoryOf(history + [row], a) == HistoryOf(history, a) + if row.actionId == a then [row] else []
  {
  }

  lemma CountEntry(h: seq<HistoryRow>, row: HistoryRow, s: Status)
    ensures Count(h + [row], s) == Count(h, s) + if row.to == s then 1 else 0
  {
  }

  /** One more entry about a itself. */
  lemma EntryKeeps(db: Tables, next: Tables, a: nat, row: HistoryRow)
    requires a < |db.actions| && a < |next.actions| && ActionHistoryOk(db, a)
    requires next.history == db.history + [row] && row.actionId == a
    requires row.from == Some(db.actions[a].status) && row.to == next.actions[a].status
    requires CanTransition(db.actions[a].status, row.to)
    requires AttemptsOf(next.attempts, a) == AttemptsOf(db.attempts, a) + if row.to == Reversing then 1 else 0
    ensures ActionHistoryOk(next, a)
  {
  }

  /** Nothing about a. */
  lemma NoEntryKeeps(db: Tables, next: Tables, a: nat, row: HistoryRow)
    requires a < |db.actions| && a < |next.actions| && ActionHistoryOk(db, a)
    requires next.history == db.history + [row] && row.actionId != a
    requires next.actions[a].status == db.actions[a].status
    requires AttemptsOf(next.attempts, a) == AttemptsOf(db.attempts, a)
    ensures ActionHistoryOk(next, a)
  {
    StatusEntry(db.history, row, a);
    assert HistoryOf(next.history, a) == HistoryOf(db.history, a);
  }

  lemma FirstEntry(db: Tables, next: Tables, a: nat, row: HistoryRow)
    requires a == |db.actions| < |next.actions|
    requires forall i :: 0 <= i < |db.history| ==> db.history[i].actionId < a
    requires forall k :: 0 <= k < |db.attempts| ==> db.attempts[k].actionId < a
    requires next.history == db.history + [row] && row.actionId == a && row.from.None?
    requires row.to == next.actions[a].status && (row.to == Applied || row.to == Irreversible)
    requires next.attempts == db.attempts
    ensures ActionHistoryOk(next, a)
  {
    NoHistory(db.history, a);
    NoAttempts(db.attempts, a);
    StatusEntry(db.history, row, a);
    CountEntry([], row, Reversing);
    assert HistoryOf(next.history, a) == [row];
  }

  lemma MoveKeepsActionHistory(m: Move, db: Tables, next: Tables, a: nat)
    requires Makes(m, db, next) && HistoryOk(db) && a < |next.actions|
    requires forall k :: 0 <= k < |db.attempts| ==> db.attempts[k].actionId < |db.actions|
    ensures ActionHistoryOk(next, a)
  {
    var n := |db.history|;
    if a < |db.actions| { assert ActionHistoryOk(db, a); }
    match m
    case Quiet =>
      AttemptsOfKeeps(db.attempts, next.attempts, a);
    case Created(row) =>
      if a == |db.actions| {
        FirstEntry(db, next, a, next.history[n]);
      } else {
        NoEntryKeeps(db, next, a, next.history[n]);
      }
    case Moved(b, to, at) =>
      if a == b { EntryKeeps(db, next, a, next.history[n]); } else { NoEntryKeeps(db, next, a, next.history[n]); }
    case Begun(_, b, _, _) =>
      BeginShape(db, m.scope, m.action, m.key, m.now);
      assert next.attempts[..|db.attempts|] == db.attempts;
      if a == b { EntryKeeps(db, next, a, next.history[n]); } else { NoEntryKeeps(db, next, a, next.history[n]); }
  }

  lemma MoveKeepsHistory(m: Move, db: Tables, next: Tables)
    requires Makes(m, db, next) && HistoryOk(db)
    requires forall k :: 0 <= k < |db.attempts| ==> db.attempts[k].actionId < |db.actions|
    ensures HistoryOk(next)
  {
    if m.Begun? {
      BeginShape(db, m.scope, m.action, m.key, m.now);
    }
    forall a: nat | a < |next.actions| ensures ActionHistoryOk(next, a) {
      MoveKeepsActionHistory(m, db, next, a);
    }
  }

  lemma {:induction false} RunKeepsHistory(w: World, ls: seq<Label>)
    requires Inv(w) && CanRun(w, ls) && HistoryOk(w.db)
    ensures HistoryOk(Run(w, ls).db)
    decreases |ls|
  {
    hide Inv, Apply, Enabled;
    if ls != [] {
      StepKeepsHistory(w, ls[0]);
      StepKeeps(w, ls[0]);
      hide HistoryOk;
      RunKeepsHistory(Apply(w, ls[0]), ls[1..]);
    }
  }

  lemma StepKeepsHistory(w: World, l: Label)
    requires Inv(w) && Enabled(w, l) && HistoryOk(w.db)
    ensures HistoryOk(Apply(w, l).db)
  {
    hide *;
    var m := StepMove(w, l);
    AttemptsHaveActions(w);
    MoveKeepsHistory(m, w.db, Apply(w, l).db);
  }

  /** History conservation: in every reachable state each history is a path from the
      creation status to the current one, with as many entries into REVERSING as the
      Action has attempts; and no later step removes or rewrites an entry. */
  lemma HistoryIsConserved(w: World, ls: seq<Label>)
    requires Reached(w) && CanRun(w, ls)
    ensures HistoryOk(w.db) && w.db.history <= Run(w, ls).db.history
  {
    var past :| CanRun(INIT, past) && Run(INIT, past) == w;
    RunKeepsHistory(INIT, past);
    ReachableInv(w);
    RunGrows(w, ls);
  }

  // ------------------------------------------------------------ final statuses

  /** Some entry of the history so far moved Action d to this status. */
  ghost predicate Entered(history: seq<HistoryRow>, d: nat, s: Status) {
    exists h :: 0 <= h < |history| && history[h].actionId == d && history[h].to == s
  }

  lemma {:induction false} HistoryEntryExists(history: seq<HistoryRow>, a: nat)
    requires HistoryOf(history, a) != []
    ensures Entered(history, a, HistoryOf(history, a)[|HistoryOf(history, a)| - 1].to)
  {
    var n := |history| - 1;
    if history[n].actionId != a {
      HistoryEntryExists(history[..n], a);
      assert HistoryOf(history, a) == HistoryOf(history[..n], a);
      var s := HistoryOf(history, a)[|HistoryOf(history, a)| - 1].to;
      var h :| 0 <= h < n && history[..n][h].actionId == a && history[..n][h].to == s;
      assert history[h].to == s;
    }
  }

  /** The statuses nothing leads out of. */
  predicate IsFinal(s: Status) {
    s in {Reversed, PartiallyReversed, ReverseFailed, Expired, Irreversible}
  }

  /** Over every run, whatever interleaves or crashes. */
  lemma {:induction false} FinalStatusStays(w: World, ls: seq<Label>, a: nat)
    requires Inv(w) && CanRun(w, ls) && a < |w.db.actions| && IsFinal(w.db.actions[a].status)
    ensures a < |Run(w, ls).db.actions| && Run(w, ls).db.actions[a].status == w.db.actions[a].status
    decreases |ls|
  {
    hide Apply, Enabled, Inv;
    if ls != [] {
      FinalStatusStaysOneStep(w, ls[0], a);
      StepKeeps(w, ls[0]);
      FinalStatusStays(Apply(w, ls[0]), ls[1..], a);
    }
  }

  lemma MoveKeepsFinal(m: Move, db: Tables, next: Tables, a: nat)
    requires Makes(m, db, next) && a < |db.actions| && IsFinal(db.actions[a].status)
    ensures a < |next.actions| && next.actions[a].status == db.actions[a].status
  {
  }

  lemma FinalStatusStaysOneStep(w: World, l: Label, a: nat)
    requires Inv(w) && Enabled(w, l) && a < |w.db.actions| && IsFinal(w.db.actions[a].status)
    ensures a < |Apply(w, l).db.actions| && Apply(w, l).db.actions[a].status == w.db.actions[a].status
  {
    hide *;
    var m := StepMove(w, l);
    MoveKeepsFinal(m, w.db, Apply(w, l).db, a);
  }
}
