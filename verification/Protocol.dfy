/** The reversal protocol as steps: any number of request and reconciliation threads over
    one set of tables, abandoned at any point, with process crashes and restart recovery.
    A label says which thread moves and fixes every choice the code does not make. */
module Protocol {
  import opened Domain
  import opened Timestamp
  import opened Records
  import opened Dependency
  import ResourceApi

  // ------------------------------------------------------------------- state

  /** Where a reversal request is between two of its database accesses. */
  datatype Pc =
    | SweepSelect
    | SweepRows(due: seq<nat>)
    | KeyLookup
    | ReadAction
    | ReadEdges
    | ReadDependents(pending: seq<nat>, blocked: bool)
    | BeginTx
    | LostRace
    | Poll(seen: nat)
    | PollAction(answered: nat)
    | Call(calling: nat)
    | Record(recording: nat, ret: ProviderReturn)
    | Transition(settled: nat, to: Status, at: Instant)

  datatype ReconcilePc =
    | RecRead
    | RecOpen(status: Status)
    | RecLookup(attempt: nat)
    | RecObserve(attempt: nat, evidence: Evidence)
    | RecConclude(attempt: nat, evidence: Evidence)
    | RecUpdate(attempt: nat, evidence: Evidence, at: Instant)
    | RecFinish(attempt: nat)

  datatype Thread =
    | Request(scope: string, actionId: nat, key: Option<string>, now: Instant, pc: Pc)
    | Reconciler(scope: string, actionId: nat, now: Instant, rpc: ReconcilePc)

  datatype Phase =
    | Down
    | Recovering(pending: seq<nat>, marked: bool, now: Instant)
    | Serving

  /** What really happened around an attempt; none of it is stored by the program. */
  datatype Trail = Trail(
    owner: nat, calls: nat, effect: bool, returned: Option<ProviderReturn>, concluder: Option<nat>)

  /** An outcome told for a key, in the order of the durable reads and writes behind it. */
  datatype Answer = Answer(scope: string, key: string, attemptId: nat, actionId: nat, outcome: Outcome)

  /** wrote holds the value each create or update wrote; trail runs beside the attempts. */
  datatype World = World(
    db: Tables, wrote: seq<string>, trail: seq<Trail>, answers: seq<Answer>,
    phase: Phase, threads: map<nat, Thread>)

  const INIT := World(EMPTY_TABLES, [], [], [], Down, map[])

  datatype Label =
    | LCreate(scope: string, id: nat, value: string, now: Instant, expiresAt: Option<Instant>)
    | LUpdate(scope: string, id: nat, value: string, now: Instant, expiresAt: Option<Instant>)
    | LPublish(scope: string, id: nat, now: Instant)
    | LNotify(scope: string, id: nat, nid: nat, channel: string, now: Instant, expiresAt: Option<Instant>)
    | LExternal(row: ActionRow)
    | LAddEdge(edge: Edge)
    | LStart(tid: nat, scope: string, actionId: nat, key: Option<string>, now: Instant)
    | LStep(tid: nat)
    | LPoll(tid: nat, giveUp: bool)
    | LCall(tid: nat, ret: ProviderReturn, effect: bool)
    | LRecord(tid: nat, at: Instant)
    | LReconcile(tid: nat, scope: string, actionId: nat, now: Instant)
    | LLookup(tid: nat, lookup: LookupReturn)
    | LRecConclude(tid: nat, at: Instant)
    | LAbandon(tid: nat)
    | LCrash
    | LRestart(now: Instant)
    | LRecover

  // ---------------------------------------------------------- thread movement

  function Goto(w: World, tid: nat, pc: Pc): World
    requires tid in w.threads && w.threads[tid].Request?
  {
    w.(threads := w.threads[tid := w.threads[tid].(pc := pc)])
  }

  function RGoto(w: World, tid: nat, rpc: ReconcilePc): World
    requires tid in w.threads && w.threads[tid].Reconciler?
  {
    w.(threads := w.threads[tid := w.threads[tid].(rpc := rpc)])
  }

  /** The thread is done, refused, failed or abandoned. */
  function Leave(w: World, tid: nat): World {
    w.(threads := w.threads - {tid})
  }

  function Dependents(edges: seq<Edge>): (r: seq<nat>)
    ensures |r| == |edges| && forall i :: 0 <= i < |edges| ==> r[i] == edges[i].dependent
  {
    seq(|edges|, i requires 0 <= i < |edges| => edges[i].dependent)
  }

  /** Look a key up: replay the recorded attempt, or refuse the key for another Action. */
  function Converge(w: World, tid: nat, missing: World): World
    requires tid in w.threads && w.threads[tid].Request? && w.threads[tid].key.Some?
  {
    var t := w.threads[tid];
    match GetKey(w.db, t.scope, t.key.value)
    case None => missing
    case Some(row) =>
      if row.fingerprint != Fingerprint(t.scope, t.actionId) then Leave(w, tid)
      else Goto(w, tid, Poll(row.attemptId))
  }

  function SweepOne(w: World, tid: nat, due: seq<nat>): World
    requires tid in w.threads && w.threads[tid].Request?
  {
    if due == [] then Goto(w, tid, KeyLookup)
    else
      var a := due[0];
      var scope := if a < |w.db.actions| then w.db.actions[a].scope else "";
      match UpdateStatus(w.db, scope, a, Applied, Expired, w.threads[tid].now)
      case Failed(_) => Leave(w, tid)
      case Written(db) => Goto(w.(db := db), tid, SweepRows(due[1..]))
  }

  function ReadActionRow(w: World, tid: nat): World
    requires tid in w.threads && w.threads[tid].Request?
  {
    var t := w.threads[tid];
    match GetAction(w.db, t.scope, t.actionId)
    case None => Leave(w, tid)
    case Some(row) => if Admission(row).Some? then Leave(w, tid) else Goto(w, tid, ReadEdges)
  }

  function ReadDependent(w: World, tid: nat, pending: seq<nat>, blocked: bool): World
    requires tid in w.threads && w.threads[tid].Request?
  {
    var t := w.threads[tid];
    if pending == [] then
      if blocked || t.actionId >= |w.db.actions| || !w.db.actions[t.actionId].op.HasReverse()
      then Leave(w, tid)
      else Goto(w, tid, BeginTx)
    else
      match GetAction(w.db, t.scope, pending[0])
      case None => Leave(w, tid)
      case Some(row) => Goto(w, tid, ReadDependents(pending[1..], blocked || !IsResolved(row.status)))
  }

  function BeginReversal(w: World, tid: nat): World
    requires tid in w.threads && w.threads[tid].Request?
  {
    var t := w.threads[tid];
    match Begin(w.db, t.scope, t.actionId, t.key, t.now)
    case Written(db) =>
      Goto(w.(db := db, trail := w.trail + [Trail(tid, 0, false, None, None)]), tid, Call(|w.db.attempts|))
    case Failed(error) =>
      if t.key.Some? && (error == AttemptInProgress || error == KeyExists) then Goto(w, tid, LostRace)
      else Leave(w, tid)
  }

  function Tell(w: World, t: Thread, k: nat, outcome: Outcome): World
    requires t.Request?
  {
    if t.key.Some?
    then w.(answers := w.answers + [Answer(t.scope, t.key.value, k, t.actionId, outcome)])
    else w
  }

  function CallProvider(w: World, tid: nat, k: nat, ret: ProviderReturn, effect: bool): World
    requires tid in w.threads && w.threads[tid].Request? && w.threads[tid].actionId < |w.db.actions|
    requires k < |w.trail|
    requires ProviderMay(w, w.threads[tid].actionId, ret, effect)
  {
    var a := w.threads[tid].actionId;
    var db := if effect && ResourceApi.IsDemo(w.db.actions[a].op) then ResourceApi.ReverseEffect(w.db, a) else w.db;
    var trail := w.trail[k := w.trail[k].(calls := w.trail[k].calls + 1,
      effect := w.trail[k].effect || effect, returned := Some(ret))];
    Goto(w.(db := db, trail := trail), tid, Record(k, ret))
  }

  function RecordReturn(w: World, tid: nat, k: nat, ret: ProviderReturn, at: Instant): World
    requires tid in w.threads && w.threads[tid].Request?
  {
    var s := Settle(ret);
    if s.Unrecognised? then Leave(w, tid)
    else
      Goto(Tell(w.(db := RecordSettlement(w.db, k, s, at)), w.threads[tid], k, ResultOf(k, 0, ret, at).outcome),
        tid, Transition(k, SettledStatus(s), at))
  }

  function MoveStatus(w: World, tid: nat, to: Status, at: Instant): World
    requires tid in w.threads && w.threads[tid].Request?
  {
    var t := w.threads[tid];
    match UpdateStatus(w.db, t.scope, t.actionId, Reversing, to, at)
    case Written(db) => Leave(w.(db := db), tid)
    case Failed(_) => Leave(w, tid)
  }

  // ---------------------------------------------------------- reconciliation

  function ReadOpenAttempt(w: World, tid: nat, status: Status): World
    requires tid in w.threads && w.threads[tid].Reconciler?
  {
    var t := w.threads[tid];
    var open := OpenAttempt(w.db.attempts, t.actionId);
    if open.None? || w.db.attempts[open.value].state != Awaiting then Leave(w, tid)
    else if status != OutcomeUnknown then Leave(w, tid)
    else if t.actionId >= |w.db.actions| || !w.db.actions[t.actionId].op.HasReconcile() then Leave(w, tid)
    else RGoto(w, tid, RecLookup(open.value))
  }

  function ProvenObservation(e: Evidence): Observed
    requires e != Inconclusive
  {
    if e == ProvenReversed then ObsReversed else ObsReverseFailed
  }

  function ProvenStatus(e: Evidence): Status
    requires e != Inconclusive
  {
    if e == ProvenReversed then Reversed else ReverseFailed
  }

  function ReconcileStep(w: World, tid: nat): World
    requires tid in w.threads && w.threads[tid].Reconciler?
  {
    var t := w.threads[tid];
    match t.rpc
    case RecRead =>
      (match GetAction(w.db, t.scope, t.actionId)
       case None => Leave(w, tid)
       case Some(row) => RGoto(w, tid, RecOpen(row.status)))
    case RecOpen(status) => ReadOpenAttempt(w, tid, status)
    case RecObserve(k, e) =>
      RGoto(w.(db := w.db.(observations := w.db.observations + [ObservationRow(k, t.now, e)])), tid,
        if e == Inconclusive then RecFinish(k) else RecConclude(k, e))
    case RecUpdate(k, e, at) =>
      if e == Inconclusive then Leave(w, tid)
      else (match UpdateStatus(w.db, t.scope, t.actionId, OutcomeUnknown, ProvenStatus(e), at)
        case Written(db) => RGoto(w.(db := db), tid, RecFinish(k))
        case Failed(_) => Leave(w, tid))
    case RecFinish(_) => Leave(w, tid)
    case _ => w
  }

  function ConcludeReconciled(w: World, tid: nat, k: nat, e: Evidence, at: Instant): World
    requires tid in w.threads && w.threads[tid].Reconciler? && e != Inconclusive
  {
    var trail := if k < |w.trail| && k < |w.db.attempts| && IsOpen(w.db.attempts[k])
      then w.trail[k := w.trail[k].(concluder := Some(tid))] else w.trail;
    RGoto(w.(db := ConcludeAttempt(w.db, k, ProvenObservation(e), None, None, at), trail := trail),
      tid, RecUpdate(k, e, at))
  }

  // ---------------------------------------------------------------- recovery

  const RECOVERY_TEXT: string := "recovery: process restart; outcome unobserved"

  /** One durable write of restart recovery, or its end. */
  function RecoverStep(w: World): World
    requires w.phase.Recovering?
  {
    var p := w.phase;
    if p.pending == [] then w.(phase := Serving)
    else
      var k := p.pending[0];
      if k >= |w.db.attempts| || w.db.attempts[k].actionId >= |w.db.actions| then w.(phase := Down)
      else if !p.marked then
        w.(db := MarkAwaiting(w.db, k, RECOVERY_TEXT, ReconcileRequired), phase := p.(marked := true))
      else
        var a := w.db.attempts[k].actionId;
        match UpdateStatus(w.db, w.db.actions[a].scope, a, Reversing, OutcomeUnknown, p.now)
        case Failed(_) => w.(phase := Down)
        case Written(db) => w.(db := db, phase := Recovering(p.pending[1..], false, p.now))
  }

  // ---------------------------------------------------------- the step relation

  predicate ProviderMay(w: World, a: nat, ret: ProviderReturn, effect: bool)
    requires a < |w.db.actions|
  {
    ResourceApi.IsDemo(w.db.actions[a].op) ==> ResourceApi.DemoReturn(w.db, a, ret, effect)
  }

  function RequestStep(w: World, tid: nat): World
    requires tid in w.threads && w.threads[tid].Request?
  {
    var t := w.threads[tid];
    match t.pc
    case SweepSelect => Goto(w, tid, SweepRows(DueActions(w.db.actions, t.now)))
    case SweepRows(due) => SweepOne(w, tid, due)
    case KeyLookup =>
      if t.key.None? then Goto(w, tid, ReadAction) else Converge(w, tid, Goto(w, tid, ReadAction))
    case ReadAction => ReadActionRow(w, tid)
    case ReadEdges =>
      Goto(w, tid, ReadDependents(Dependents(EdgesOfParent(w.db.edges, t.scope, t.actionId)), false))
    case ReadDependents(pending, blocked) => ReadDependent(w, tid, pending, blocked)
    case BeginTx => BeginReversal(w, tid)
    case LostRace => if t.key.None? then Leave(w, tid) else Converge(w, tid, Leave(w, tid))
    case PollAction(_) => Leave(w, tid)
    case Transition(_, to, at) => MoveStatus(w, tid, to, at)
    case _ => w
  }

  predicate HasPc(w: World, tid: nat) {
    w.phase == Serving && tid in w.threads && w.threads[tid].Request?
  }

  predicate HasRpc(w: World, tid: nat) {
    w.phase == Serving && tid in w.threads && w.threads[tid].Reconciler?
  }

  predicate Enabled(w: World, l: Label) {
    match l
    case LCreate(_, id, _, _, _) => w.phase == Serving && ResourceApi.IsFresh(w.db, id)
    case LUpdate(scope, id, _, _, _) => w.phase == Serving && ResourceApi.CanUpdate(w.db, scope, id)
    case LPublish(scope, id, _) => w.phase == Serving && ResourceApi.GetResource(w.db, scope, id).Some?
    case LNotify(scope, id, nid, _, _, _) =>
      w.phase == Serving && ResourceApi.GetResource(w.db, scope, id).Some? && ResourceApi.IsFresh(w.db, nid)
    case LExternal(row) =>
      w.phase == Serving && row.op.ExternalOp? && (row.status == Applied || row.status == Irreversible)
    case LAddEdge(e) =>
      && w.phase == Serving && e.parent != e.dependent
      && GetAction(w.db, e.scope, e.parent).Some? && GetAction(w.db, e.scope, e.dependent).Some?
    case LStart(tid, _, _, _, _) => w.phase == Serving && tid !in w.threads
    case LStep(tid) =>
      || (HasPc(w, tid) && !w.threads[tid].pc.Poll? && !w.threads[tid].pc.Call? && !w.threads[tid].pc.Record?)
      || (HasRpc(w, tid) && !w.threads[tid].rpc.RecLookup? && !w.threads[tid].rpc.RecConclude?)
    case LPoll(tid, _) => HasPc(w, tid) && w.threads[tid].pc.Poll?
    case LCall(tid, ret, effect) =>
      && HasPc(w, tid) && w.threads[tid].pc.Call? && w.threads[tid].pc.calling < |w.trail|
      && w.threads[tid].actionId < |w.db.actions| && ProviderMay(w, w.threads[tid].actionId, ret, effect)
    case LRecord(tid, _) => HasPc(w, tid) && w.threads[tid].pc.Record?
    case LReconcile(tid, _, _, _) => w.phase == Serving && tid !in w.threads
    case LLookup(tid, _) => HasRpc(w, tid) && w.threads[tid].rpc.RecLookup?
    case LRecConclude(tid, _) =>
      HasRpc(w, tid) && w.threads[tid].rpc.RecConclude? && w.threads[tid].rpc.evidence != Inconclusive
    case LAbandon(tid) => w.phase == Serving && tid in w.threads
    case LCrash => true
    case LRestart(_) => w.phase == Down
    case LRecover => w.phase.Recovering?
  }

  function Apply(w: World, l: Label): World
    requires Enabled(w, l)
  {
    match l
    case LCreate(scope, id, value, now, expiresAt) =>
      w.(db := ResourceApi.Create(w.db, scope, id, value, now, expiresAt), wrote := w.wrote + [value])
    case LUpdate(scope, id, value, now, expiresAt) =>
      w.(db := ResourceApi.Update(w.db, scope, id, value, now, expiresAt), wrote := w.wrote + [value])
    case LPublish(scope, id, now) =>
      w.(db := ResourceApi.Publish(w.db, scope, id, now), wrote := w.wrote + [""])
    case LNotify(scope, id, nid, channel, now, expiresAt) =>
      w.(db := ResourceApi.Notify(w.db, scope, id, nid, channel, now, expiresAt), wrote := w.wrote + [""])
    case LExternal(row) => w.(db := CreateAction(w.db, row), wrote := w.wrote + [""])
    case LAddEdge(e) => w.(db := w.db.(edges := AddEdge(w.db.edges, e)))
    case LStart(tid, scope, a, key, now) =>
      w.(threads := w.threads[tid := Request(scope, a, key, now, SweepSelect)])
    case LStep(tid) => if w.threads[tid].Request? then RequestStep(w, tid) else ReconcileStep(w, tid)
    case LPoll(tid, giveUp) => PollAttempt(w, tid, giveUp)
    case LCall(tid, ret, effect) => CallProvider(w, tid, w.threads[tid].pc.calling, ret, effect)
    case LRecord(tid, at) => RecordReturn(w, tid, w.threads[tid].pc.recording, w.threads[tid].pc.ret, at)
    case LReconcile(tid, scope, a, now) =>
      w.(threads := w.threads[tid := Reconciler(scope, a, now, RecRead)])
    case LLookup(tid, lookup) => RGoto(w, tid, RecObserve(w.threads[tid].rpc.attempt, EvidenceOf(lookup)))
    case LRecConclude(tid, at) =>
      ConcludeReconciled(w, tid, w.threads[tid].rpc.attempt, w.threads[tid].rpc.evidence, at)
    case LAbandon(tid) => Leave(w, tid)
    case LCrash => w.(threads := map[], phase := Down)
    case LRestart(now) => w.(phase := Recovering(RunningAttempts(w.db.attempts), false, now))
    case LRecover => RecoverStep(w)
  }

  /** One round of the replay loop: keep waiting while the attempt runs, or read it. */
  function PollAttempt(w: World, tid: nat, giveUp: bool): World
    requires HasPc(w, tid) && w.threads[tid].pc.Poll?
  {
    var t := w.threads[tid];
    var k := t.pc.seen;
    if k >= |w.db.attempts| then Leave(w, tid)
    else if w.db.attempts[k].state == Running && !giveUp then w
    else Goto(Tell(w, t, k, AnswerOf(w.db.attempts[k])), tid, PollAction(k))
  }

  // -------------------------------------------------------------------- runs

  ghost predicate CanRun(w: World, ls: seq<Label>)
    decreases |ls|
  {
    ls == [] || (Enabled(w, ls[0]) && CanRun(Apply(w, ls[0]), ls[1..]))
  }

  ghost function Run(w: World, ls: seq<Label>): World
    requires CanRun(w, ls)
    decreases |ls|
  {
    if ls == [] then w else Run(Apply(w, ls[0]), ls[1..])
  }

  lemma {:induction false} RunConcat(w: World, ls: seq<Label>, ms: seq<Label>)
    requires CanRun(w, ls) && CanRun(Run(w, ls), ms)
    ensures CanRun(w, ls + ms) && Run(w, ls + ms) == Run(Run(w, ls), ms)
    decreases |ls|
  {
    hide Apply, Enabled;
    if ls == [] {
      assert ls + ms == ms;
    } else {
      RunConcat(Apply(w, ls[0]), ls[1..], ms);
      assert (ls + ms)[1..] == ls[1..] + ms;
    }
  }

  ghost predicate Reached(w: World) {
    exists ls :: CanRun(INIT, ls) && Run(INIT, ls) == w
  }
}
