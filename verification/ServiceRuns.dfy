/** Every sequence of service calls, each by itself, is a request-serial run of the protocol's
    steps. So what is proved of all runs holds of whatever the services are used for. */
module ServiceRuns {
  import opened Domain
  import opened Timestamp
  import opened Records
  import opened Dependency
  import opened ResourceApi
  import opened Protocol
  import opened Invariant
  import opened Serial
  import opened Services
  import opened Refinement
  import opened Reconciliation
  import opened Recovery
  import DependencyService

  // ------------------------------------------------------------ reconciliation

  /** The world with these tables and the reconciliation, as thread 0, at this point. */
  function RAt(w: World, db: Tables, q: Req, rpc: ReconcilePc): World {
    w.(db := db, threads := map[0 := Reconciler(q.scope, q.a, q.now, rpc)])
  }

  lemma ReadSteps(w: World, db: Tables, q: Req)
    requires w.phase == Serving
    ensures var u := RAt(w, db, q, RecRead);
      var row := GetAction(db, q.scope, q.a);
      && Enabled(u, LStep(0)) && SerialLabel(u, LStep(0))
      && Apply(u, LStep(0)) == if row.None? then Rest(w, db) else RAt(w, db, q, RecOpen(row.value.status))
  {
  }

  lemma OpenSteps(w: World, db: Tables, q: Req, status: Status)
    requires w.phase == Serving && GetAction(db, q.scope, q.a).Some? && status == db.actions[q.a].status
    ensures var u := RAt(w, db, q, RecOpen(status));
      var open := OpenAttempt(db.attempts, q.a);
      && Enabled(u, LStep(0)) && SerialLabel(u, LStep(0))
      && Apply(u, LStep(0)) ==
          if open.Some? && IsUncertain(db, q.scope, q.a, open.value)
          then RAt(w, db, q, RecLookup(open.value)) else Rest(w, db)
  {
  }

  lemma LookupSteps(w: World, db: Tables, q: Req, k: nat, lookup: LookupReturn)
    requires w.phase == Serving
    ensures var u := RAt(w, db, q, RecLookup(k));
      var e := EvidenceOf(lookup);
      && Enabled(u, LLookup(0, lookup)) && SerialLabel(u, LLookup(0, lookup))
      && Apply(u, LLookup(0, lookup)) == RAt(w, db, q, RecObserve(k, e))
  {
  }

  lemma ObserveSteps(w: World, db: Tables, q: Req, k: nat, e: Evidence)
    requires w.phase == Serving
    ensures var u := RAt(w, db, q, RecObserve(k, e));
      var next := if e == Inconclusive then RecFinish(k) else RecConclude(k, e);
      && Enabled(u, LStep(0)) && SerialLabel(u, LStep(0))
      && Apply(u, LStep(0)) == RAt(w, Logged(db, k, q.now, e), q, next)
  {
  }

  function WithConcluder(w: World, k: nat): World {
    if k < |w.trail| then w.(trail := w.trail[k := w.trail[k].(concluder := Some(0))]) else w
  }

  lemma ConcludeSteps(w: World, db: Tables, q: Req, k: nat, e: Evidence, at: Instant)
    requires w.phase == Serving && e != Inconclusive && k < |db.attempts| && IsOpen(db.attempts[k])
    ensures var u := RAt(w, db, q, RecConclude(k, e));
      && Enabled(u, LRecConclude(0, at)) && SerialLabel(u, LRecConclude(0, at))
      && Apply(u, LRecConclude(0, at)) == RAt(WithConcluder(w, k),
          ConcludeAttempt(db, k, ProvenObservation(e), None, None, at), q, RecUpdate(k, e, at))
  {
  }

  lemma UpdateSteps(w: World, db: Tables, q: Req, k: nat, e: Evidence, at: Instant)
    requires w.phase == Serving && e != Inconclusive
    ensures var u := RAt(w, db, q, RecUpdate(k, e, at));
      var moved := UpdateStatus(db, q.scope, q.a, OutcomeUnknown, ProvenStatus(e), at);
      && Enabled(u, LStep(0)) && SerialLabel(u, LStep(0))
      && Apply(u, LStep(0)) == if moved.Failed? then Rest(w, db) else RAt(w, moved.db, q, RecFinish(k))
  {
  }

  lemma FinishSteps(w: World, db: Tables, q: Req, k: nat)
    requires w.phase == Serving
    ensures var u := RAt(w, db, q, RecFinish(k));
      Enabled(u, LStep(0)) && SerialLabel(u, LStep(0)) && Apply(u, LStep(0)) == Rest(w, db)
  {
  }

  /** From the lookup to the end. */
  lemma ResolveRuns(w: World, db: Tables, q: Req, k: nat, lookup: LookupReturn, at: Instant)
      returns (ls: seq<Label>, v: World)
    requires w.phase == Serving && IsUncertain(db, q.scope, q.a, k)
    ensures Runs(RAt(w, db, q, RecLookup(k)), ls, v) && AtRest(v) && v.wrote == w.wrote
    ensures v.db == Resolve(db, q.scope, q.a, k, q.now, EvidenceOf(lookup), at).0
  {
    hide Apply, Enabled, Runs;
    var e := EvidenceOf(lookup);
    var u := RAt(w, db, q, RecLookup(k));
    var logged := Logged(db, k, q.now, e);
    LookupSteps(w, db, q, k, lookup);
    ObserveSteps(w, db, q, k, e);
    var x := RAt(w, db, q, RecObserve(k, e));
    var y := RAt(w, logged, q, if e == Inconclusive then RecFinish(k) else RecConclude(k, e));
    if e == Inconclusive {
      FinishSteps(w, logged, q, k);
      v := Rest(w, logged);
      ls := [LLookup(0, lookup)] + [LStep(0)] + [LStep(0)];
      hide SerialLabel, RAt, Rest;
      OneStep(u, LLookup(0, lookup), x);
      Then(u, [LLookup(0, lookup)], x, LStep(0), y);
      Then(u, [LLookup(0, lookup)] + [LStep(0)], y, LStep(0), v);
    } else {
      ls, v := ProvenRuns(w, logged, q, k, e, at);
      var first := [LLookup(0, lookup)] + [LStep(0)];
      hide SerialLabel, RAt;
      OneStep(u, LLookup(0, lookup), x);
      Then(u, [LLookup(0, lookup)], x, LStep(0), y);
      Compose(u, first, y, ls, v);
      ls := first + ls;
    }
  }

  lemma ProvenRuns(w: World, db: Tables, q: Req, k: nat, e: Evidence, at: Instant) returns (ls: seq<Label>, v: World)
    requires w.phase == Serving && IsUncertain(db, q.scope, q.a, k) && e != Inconclusive
    ensures Runs(RAt(w, db, q, RecConclude(k, e)), ls, v) && AtRest(v) && v.wrote == w.wrote
    ensures UpdateStatus(ConcludeAttempt(db, k, ProvenObservation(e), None, None, at), q.scope, q.a, OutcomeUnknown,
      ProvenStatus(e), at) == Written(v.db)
  {
    hide Apply, Enabled, Runs;
    var u := RAt(w, db, q, RecConclude(k, e));
    var concluded := ConcludeAttempt(db, k, ProvenObservation(e), None, None, at);
    var moved := UpdateStatus(concluded, q.scope, q.a, OutcomeUnknown, ProvenStatus(e), at);
    assert moved.Written?;
    var c := WithConcluder(w, k);
    ConcludeSteps(w, db, q, k, e, at);
    UpdateSteps(c, concluded, q, k, e, at);
    FinishSteps(c, moved.db, q, k);
    v := Rest(c, moved.db);
    ls := [LRecConclude(0, at)] + [LStep(0)] + [LStep(0)];
    var x, y := RAt(c, concluded, q, RecUpdate(k, e, at)), RAt(c, moved.db, q, RecFinish(k));
    hide SerialLabel, RAt;
    OneStep(u, LRecConclude(0, at), x);
    Then(u, [LRecConclude(0, at)], x, LStep(0), y);
    Then(u, [LRecConclude(0, at)] + [LStep(0)], y, LStep(0), v);
  }

  /** A reconciliation round by itself is a run of the protocol. */
  lemma ReconcileRuns(w: World, q: Req, lookup: LookupReturn, at: Instant) returns (ls: seq<Label>, v: World)
    requires AtRest(w) && Inv(w)
    ensures Runs(w, ls, v) && AtRest(v) && v.wrote == w.wrote
    ensures v.db == Reconciled(w.db, q.scope, q.a, q.now, lookup, at).0
  {
    var l := LReconcile(0, q.scope, q.a, q.now);
    var u := RAt(w, w.db, q, RecRead);
    assert Apply(w, l) == u;
    OneStep(w, l, u);
    ReadSteps(w, w.db, q);
    var row := GetAction(w.db, q.scope, q.a);
    if row.None? {
      v := Rest(w, w.db);
      ls := [l] + [LStep(0)];
      Then(w, [l], u, LStep(0), v);
    } else {
      OpenSteps(w, w.db, q, row.value.status);
      var x := RAt(w, w.db, q, RecOpen(row.value.status));
      var open := OpenAttempt(w.db.attempts, q.a);
      var found := open.Some? && IsUncertain(w.db, q.scope, q.a, open.value);
      var y := if found then RAt(w, w.db, q, RecLookup(open.value)) else Rest(w, w.db);
      FoundMeans(w.db, q, lookup, at);
      hide Apply, Enabled, SerialLabel, Runs, RAt, Rest, Reconciled;
      Then(w, [l], u, LStep(0), x);
      Then(w, [l] + [LStep(0)], x, LStep(0), y);
      ls := [l] + [LStep(0)] + [LStep(0)];
      if found {
        var rest;
        rest, v := ResolveRuns(w, w.db, q, open.value, lookup, at);
        Compose(w, ls, y, rest, v);
        ls := ls + rest;
      } else {
        v := y;
        assert y.db == w.db && AtRest(y) && y.wrote == w.wrote by { RestRests(w); }
      }
    }
  }

  lemma RestRests(w: World)
    requires w.phase == Serving
    ensures AtRest(Rest(w, w.db)) && Rest(w, w.db).db == w.db && Rest(w, w.db).wrote == w.wrote
  {
  }

  lemma FoundMeans(db: Tables, q: Req, lookup: LookupReturn, at: Instant)
    requires GetAction(db, q.scope, q.a).Some?
    ensures var open := OpenAttempt(db.attempts, q.a);
      if open.Some? && IsUncertain(db, q.scope, q.a, open.value)
      then Reconciled(db, q.scope, q.a, q.now, lookup, at) ==
        Resolve(db, q.scope, q.a, open.value, q.now, EvidenceOf(lookup), at)
      else Reconciled(db, q.scope, q.a, q.now, lookup, at).0 == db
  {
  }

  // ------------------------------------------------------------- any sequence of calls

  /** A call of one of the services, or a restart. The inputs hold what the program does not
      choose: times, fresh identifiers, what providers answer. */
  datatype ServiceCall =
    | CreateCall(scope: string, id: nat, value: string, now: Instant, expiresAt: Option<Instant>)
    | UpdateCall(scope: string, id: nat, value: string, now: Instant, expiresAt: Option<Instant>)
    | PublishCall(scope: string, id: nat, now: Instant)
    | NotifyCall(scope: string, id: nat, nid: nat, channel: string, now: Instant, expiresAt: Option<Instant>)
    | ExternalCall(row: ActionRow)
    | DependCall(scope: string, parent: nat, dependent: nat)
    | PlanCall(scope: string, a: nat, now: Instant)
    | ReverseCall(scope: string, a: nat, key: Option<string>, now: Instant, foreign: ProviderReturn, at: Instant)
    | ReconcileCall(scope: string, a: nat, now: Instant, lookup: LookupReturn, at: Instant)
    | RestartCall(now: Instant)

  function Do(db: Tables, c: ServiceCall): Tables {
    match c
    case CreateCall(scope, id, value, now, exp) =>
      if IsFresh(db, id) then Create(db, scope, id, value, now, exp) else db
    case UpdateCall(scope, id, value, now, exp) =>
      if CanUpdate(db, scope, id) then Update(db, scope, id, value, now, exp) else db
    case PublishCall(scope, id, now) => if GetResource(db, scope, id).Some? then Publish(db, scope, id, now) else db
    case NotifyCall(scope, id, nid, channel, now, exp) =>
      if GetResource(db, scope, id).Some? && IsFresh(db, nid) then Notify(db, scope, id, nid, channel, now, exp) else db
    case ExternalCall(row) =>
      if row.op.ExternalOp? && (row.status == Applied || row.status == Irreversible) then CreateAction(db, row) else db
    case DependCall(scope, parent, dependent) =>
      if DependencyService.EdgeProblem(db, scope, parent, dependent).None?
      then db.(edges := AddEdge(db.edges, Edge(scope, parent, dependent))) else db
    case PlanCall(scope, a, now) => ServePlan(db, scope, a, now).0
    case ReverseCall(scope, a, key, now, foreign, at) => Serve(db, scope, a, key, now, foreign, at).0
    case ReconcileCall(scope, a, now, lookup, at) => Reconciled(db, scope, a, now, lookup, at).0
    case RestartCall(now) => Recover(db, now).db
  }

  function DoAll(db: Tables, calls: seq<ServiceCall>): Tables
    decreases |calls|
  {
    if calls == [] then db else DoAll(Do(db, calls[0]), calls[1..])
  }

  lemma Unmoved(w: World)
    ensures Runs(w, [], w)
  {
  }

  predicate IsBusiness(c: ServiceCall) {
    !c.PlanCall? && !c.ReverseCall? && !c.ReconcileCall? && !c.RestartCall?
  }

  function BusinessLabel(c: ServiceCall): Label
    requires IsBusiness(c)
  {
    match c
    case CreateCall(scope, id, value, now, exp) => LCreate(scope, id, value, now, exp)
    case UpdateCall(scope, id, value, now, exp) => LUpdate(scope, id, value, now, exp)
    case PublishCall(scope, id, now) => LPublish(scope, id, now)
    case NotifyCall(scope, id, nid, channel, now, exp) => LNotify(scope, id, nid, channel, now, exp)
    case ExternalCall(row) => LExternal(row)
    case DependCall(scope, parent, dependent) => LAddEdge(Edge(scope, parent, dependent))
  }

  lemma BusinessRuns(w: World, c: ServiceCall) returns (ls: seq<Label>, v: World)
    requires AtRest(w) && IsBusiness(c)
    ensures Runs(w, ls, v) && AtRest(v) && v.db == Do(w.db, c)
  {
    Unmoved(w);
    ls, v := [], w;
    var l := BusinessLabel(c);
    if Enabled(w, l) && SerialLabel(w, l) {
      ls, v := [l], Apply(w, l);
      OneStep(w, l, v);
    }
  }

  lemma PlanRuns(w: World, q: Req) returns (ls: seq<Label>, v: World)
    requires AtRest(w)
    ensures Runs(w, ls, v) && AtRest(v) && v.db == Sweep(w.db, q.now)
  {
    var first := StartRuns(w, q);
    var u := Refinement.At(w, Sweep(w.db, q.now), q, KeyLookup);
    v := Rest(w, Sweep(w.db, q.now));
    GotoAt(w, Sweep(w.db, q.now), q, KeyLookup, KeyLookup);
    Then(w, first, u, LAbandon(0), v);
    ls := first + [LAbandon(0)];
  }

  lemma CrashStep(w: World)
    requires AtRest(w)
    ensures Runs(w, [LCrash], w.(phase := Down)) && w.(phase := Down).(phase := Serving) == w
  {
  }

  lemma RestartRuns(w: World, now: Instant) returns (ls: seq<Label>, v: World)
    requires AtRest(w) && Inv(w)
    ensures Runs(w, ls, v) && AtRest(v) && v.db == Recover(w.db, now).db
  {
    hide Inv, Runs;
    CrashStep(w);
    StepKeeps(w, LCrash);
    var u := w.(phase := Down);
    var rest := RecoverRuns(u, now);
    v := u.(db := Recover(u.db, now).db, phase := Serving);
    Compose(w, [LCrash], u, rest, v);
    ls := [LCrash] + rest;
  }

  lemma CallRuns(w: World, c: ServiceCall) returns (ls: seq<Label>, v: World)
    requires AtRest(w) && Inv(w)
    ensures Runs(w, ls, v) && AtRest(v) && v.db == Do(w.db, c)
  {
    hide Inv, Runs;
    match c
    case PlanCall(scope, a, now) => ls, v := PlanRuns(w, Req(scope, a, None, now));
    case ReverseCall(scope, a, key, now, foreign, at) => ls, v := ServeRuns(w, Req(scope, a, key, now), foreign, at);
    case ReconcileCall(scope, a, now, lookup, at) => ls, v := ReconcileRuns(w, Req(scope, a, None, now), lookup, at);
    case RestartCall(now) => ls, v := RestartRuns(w, now);
    case _ => ls, v := BusinessRuns(w, c);
  }

  lemma {:induction false} CallsRun(w: World, calls: seq<ServiceCall>) returns (ls: seq<Label>, v: World)
    requires AtRest(w) && Inv(w)
    ensures Runs(w, ls, v) && AtRest(v) && v.db == DoAll(w.db, calls)
    decreases |calls|
  {
    if calls == [] {
      Unmoved(w);
      ls, v := [], w;
    } else {
      var first, u := CallRuns(w, calls[0]);
      RunKeeps(w, first);
      var rest;
      rest, v := CallsRun(u, calls[1..]);
      hide Inv, Apply, Enabled, SerialLabel, Do, Runs;
      Compose(w, first, u, rest, v);
      ls := first + rest;
    }
  }

  /** Whatever is called in whatever order, the tables are those of a request-serial run of
      the protocol from the empty store. */
  lemma ServicesAreRuns(calls: seq<ServiceCall>, now: Instant) returns (w: World)
    ensures SeriallyReached(w) && Reached(w) && AtRest(w) && w.db == DoAll(EMPTY_TABLES, calls)
  {
    RunKeeps(INIT, []);
    var start := RecoverRuns(INIT, now);
    var u := INIT.(db := Recover(INIT.db, now).db, phase := Serving);
    assert u.db == EMPTY_TABLES;
    RunKeeps(INIT, start);
    var ls;
    ls, w := CallsRun(u, calls);
    Compose(INIT, start, u, ls, w);
  }
}
