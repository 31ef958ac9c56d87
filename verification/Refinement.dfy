/** A service call that runs by itself is a run of the protocol's steps. So everything proved
    of all runs holds of the service methods. */
module Refinement {
  import opened Domain
  import opened Timestamp
  import opened Records
  import opened Protocol
  import opened Invariant
  import opened Moves
  import opened Dependency
  import opened ResourceApi
  import opened Services
  import opened Serial

  ghost predicate AtRest(w: World) {
    w.phase == Serving && w.threads == map[]
  }

  /** ls is a request-serial run from u to v. */
  ghost predicate Runs(u: World, ls: seq<Label>, v: World) {
    CanRun(u, ls) && SerialRun(u, ls) && Run(u, ls) == v
  }

  lemma {:induction false} Compose(u: World, ls: seq<Label>, v: World, ms: seq<Label>, w: World)
    requires Runs(u, ls, v) && Runs(v, ms, w)
    ensures Runs(u, ls + ms, w)
    decreases |ls|
  {
    hide Apply, Enabled, SerialLabel;
    if ls == [] {
      assert ls + ms == ms;
    } else {
      Compose(Apply(u, ls[0]), ls[1..], v, ms, w);
      assert (ls + ms)[1..] == ls[1..] + ms;
    }
  }

  lemma OneStep(u: World, l: Label, v: World)
    requires Enabled(u, l) && SerialLabel(u, l) && Apply(u, l) == v
    ensures Runs(u, [l], v)
  {
  }

  /** One more label at the end of a run. */
  lemma Then(u: World, ls: seq<Label>, v: World, l: Label, w: World)
    requires Runs(u, ls, v) && Enabled(v, l) && SerialLabel(v, l) && Apply(v, l) == w
    ensures Runs(u, ls + [l], w)
  {
    hide Apply, Enabled, SerialLabel, Runs;
    OneStep(v, l, w);
    Compose(u, ls, v, [l], w);
  }

  // --------------------------------------------------- one request in a world

  datatype Req = Req(scope: string, a: nat, key: Option<string>, now: Instant)

  /** The world with these tables and the request, as thread 0, at this program point. */
  function At(w: World, db: Tables, q: Req, pc: Pc): World {
    w.(db := db, threads := map[0 := Request(q.scope, q.a, q.key, q.now, pc)])
  }

  function Rest(w: World, db: Tables): World {
    w.(db := db, threads := map[])
  }

  lemma GotoAt(w: World, db: Tables, q: Req, pc: Pc, next: Pc)
    ensures Goto(At(w, db, q, pc), 0, next) == At(w, db, q, next)
    ensures Leave(At(w, db, q, pc), 0) == Rest(w, db)
  {
  }

  lemma SweepStep(w: World, db: Tables, q: Req, due: seq<nat>, next: Tables)
    requires w.phase == Serving && due != [] && due[0] < |db.actions| && db.actions[due[0]].status == Applied
    requires next == SetStatus(db, due[0], Expired, q.now)
    ensures var u := At(w, db, q, SweepRows(due));
      Enabled(u, LStep(0)) && SerialLabel(u, LStep(0)) && Apply(u, LStep(0)) == At(w, next, q, SweepRows(due[1..]))
  {
  }

  lemma OneSwept(w: World, db: Tables, q: Req, due: seq<nat>, next: Tables)
    requires w.phase == Serving && due != [] && due[0] < |db.actions| && db.actions[due[0]].status == Applied
    requires next == SetStatus(db, due[0], Expired, q.now)
    ensures Runs(At(w, db, q, SweepRows(due)), [LStep(0)], At(w, next, q, SweepRows(due[1..])))
  {
    hide *;
    SweepStep(w, db, q, due, next);
    OneStep(At(w, db, q, SweepRows(due)), LStep(0), At(w, next, q, SweepRows(due[1..])));
  }

  lemma AllSwept(w: World, db: Tables, q: Req)
    requires w.phase == Serving
    ensures Runs(At(w, db, q, SweepRows([])), [LStep(0)], At(w, db, q, KeyLookup))
  {
    GotoAt(w, db, q, SweepRows([]), KeyLookup);
    OneStep(At(w, db, q, SweepRows([])), LStep(0), At(w, db, q, KeyLookup));
    hide Runs;
  }

  lemma {:induction false} SweepRuns(w: World, db: Tables, q: Req, due: seq<nat>) returns (ls: seq<Label>)
    requires w.phase == Serving
    requires forall i :: i in due ==> 0 <= i < |db.actions| && db.actions[i].status == Applied
    requires forall i, j :: 0 <= i < j < |due| ==> due[i] < due[j]
    ensures Runs(At(w, db, q, SweepRows(due)), ls, At(w, ExpireAll(db, due, q.now), q, KeyLookup))
    decreases |due|
  {
    hide Apply, Enabled, SerialLabel, Runs, At;
    if due == [] {
      AllSwept(w, db, q);
      ls := [LStep(0)];
    } else {
      assert due[0] in due && forall i :: i in due[1..] ==> i in due;
      var next := SetStatus(db, due[0], Expired, q.now);
      assert forall i :: 0 <= i < |due[1..]| ==> due[1..][i] == due[i + 1];
      OneSwept(w, db, q, due, next);
      var rest := SweepRuns(w, next, q, due[1..]);
      Compose(At(w, db, q, SweepRows(due)), [LStep(0)], At(w, next, q, SweepRows(due[1..])), rest,
        At(w, ExpireAll(next, due[1..], q.now), q, KeyLookup));
      ls := [LStep(0)] + rest;
    }
  }

  predicate ResolvedRow(db: Tables, scope: string, d: nat) {
    GetAction(db, scope, d).Some? && IsResolved(GetAction(db, scope, d).value.status)
  }

  predicate NoneBlocks(db: Tables, q: Req, pending: seq<nat>, blocked: bool) {
    !blocked && (forall d :: d in pending ==> ResolvedRow(db, q.scope, d))
  }

  lemma NoneBlocksStep(db: Tables, q: Req, pending: seq<nat>, blocked: bool)
    requires pending != [] && GetAction(db, q.scope, pending[0]).Some?
    ensures var b := blocked || !IsResolved(GetAction(db, q.scope, pending[0]).value.status);
      NoneBlocks(db, q, pending, blocked) <==> NoneBlocks(db, q, pending[1..], b)
  {
    assert pending[0] in pending;
    assert forall d :: d in pending <==> d == pending[0] || d in pending[1..];
    assert ResolvedRow(db, q.scope, pending[0]) <==> IsResolved(GetAction(db, q.scope, pending[0]).value.status);
  }

  function AfterDependents(w: World, db: Tables, q: Req, pending: seq<nat>, blocked: bool): World {
    if NoneBlocks(db, q, pending, blocked) && q.a < |db.actions| && db.actions[q.a].op.HasReverse()
    then At(w, db, q, BeginTx) else Rest(w, db)
  }

  /** The loop over the dependents goes on to the transaction exactly when none blocks. */
  lemma {:induction false} DependentsRun(w: World, db: Tables, q: Req, pending: seq<nat>, blocked: bool)
      returns (ls: seq<Label>)
    requires w.phase == Serving
    ensures Runs(At(w, db, q, ReadDependents(pending, blocked)), ls, AfterDependents(w, db, q, pending, blocked))
    decreases |pending|
  {
    hide Apply, Enabled, Runs;
    var u := At(w, db, q, ReadDependents(pending, blocked));
    var l := LStep(0);
    ls := [l];
    DependentStep(w, db, q, pending, blocked);
    var v := Apply(u, l);
    OneStep(u, l, v);
    if pending != [] && GetAction(db, q.scope, pending[0]).Some? {
      var b := blocked || !IsResolved(GetAction(db, q.scope, pending[0]).value.status);
      var rest := DependentsRun(w, db, q, pending[1..], b);
      NoneBlocksStep(db, q, pending, blocked);
      hide At, Rest, NoneBlocks;
      Compose(u, ls, v, rest, AfterDependents(w, db, q, pending[1..], b));
      ls := ls + rest;
    } else if pending != [] {
      assert pending[0] in pending;
    }
  }

  lemma DependentStep(w: World, db: Tables, q: Req, pending: seq<nat>, blocked: bool)
    requires w.phase == Serving
    ensures var u := At(w, db, q, ReadDependents(pending, blocked));
      && Enabled(u, LStep(0)) && SerialLabel(u, LStep(0))
      && Apply(u, LStep(0)) ==
          if pending == [] then AfterDependents(w, db, q, pending, blocked)
          else if GetAction(db, q.scope, pending[0]).None? then Rest(w, db)
          else At(w, db, q, ReadDependents(pending[1..],
            blocked || !IsResolved(GetAction(db, q.scope, pending[0]).value.status)))
  {
    GotoAt(w, db, q, ReadDependents(pending, blocked), BeginTx);
    if pending != [] && GetAction(db, q.scope, pending[0]).Some? {
      var b := blocked || !IsResolved(GetAction(db, q.scope, pending[0]).value.status);
      GotoAt(w, db, q, ReadDependents(pending, blocked), ReadDependents(pending[1..], b));
    }
  }

  // ---------------------------------------------------------- the way to the start

  lemma StartRuns(w: World, q: Req) returns (ls: seq<Label>)
    requires AtRest(w)
    ensures Runs(w, ls, At(w, Sweep(w.db, q.now), q, KeyLookup))
  {
    var l := LStart(0, q.scope, q.a, q.key, q.now);
    var u := At(w, w.db, q, SweepSelect);
    assert Apply(w, l) == u;
    OneStep(w, l, u);
    var due := DueActions(w.db.actions, q.now);
    GotoAt(w, w.db, q, SweepSelect, SweepRows(due));
    var v := At(w, w.db, q, SweepRows(due));
    Then(w, [l], u, LStep(0), v);
    var rest := SweepRuns(w, w.db, q, due);
    Compose(w, [l] + [LStep(0)], v, rest, At(w, Sweep(w.db, q.now), q, KeyLookup));
    ls := [l] + [LStep(0)] + rest;
  }

  /** From the key lookup, when the key is not registered, to the edges. */
  lemma AdmitRuns(w: World, db: Tables, q: Req) returns (ls: seq<Label>)
    requires w.phase == Serving && (q.key.Some? ==> GetKey(db, q.scope, q.key.value).None?)
    ensures var row := GetAction(db, q.scope, q.a);
      Runs(At(w, db, q, KeyLookup), ls,
        if row.Some? && Admission(row.value).None? then At(w, db, q, ReadEdges) else Rest(w, db))
  {
    var u, v := At(w, db, q, KeyLookup), At(w, db, q, ReadAction);
    GotoAt(w, db, q, KeyLookup, ReadAction);
    GotoAt(w, db, q, ReadAction, ReadEdges);
    OneStep(u, LStep(0), v);
    Then(u, [LStep(0)], v, LStep(0), Apply(v, LStep(0)));
    ls := [LStep(0)] + [LStep(0)];
  }

  lemma DependentsResolved(db: Tables, q: Req)
    ensures Blocking(db, q.scope, q.a) == Some([]) <==>
      NoneBlocks(db, q, Dependents(EdgesOfParent(db.edges, q.scope, q.a)), false)
  {
    var es := EdgesOfParent(db.edges, q.scope, q.a);
    var ds := Dependents(es);
    BlockingOfMeans(db, q.scope, es);
    if Blocking(db, q.scope, q.a) == Some([]) {
      forall d | d in ds ensures ResolvedRow(db, q.scope, d) {
        var i :| 0 <= i < |ds| && ds[i] == d;
        assert es[i] in es;
      }
    }
    if NoneBlocks(db, q, ds, false) {
      forall e | e in es ensures ResolvedRow(db, q.scope, e.dependent) {
        var i :| 0 <= i < |es| && es[i] == e;
        assert ds[i] in ds;
      }
    }
  }

  lemma NoObstacleMeans(db: Tables, q: Req)
    ensures var row := GetAction(db, q.scope, q.a);
      Obstacle(db, q.scope, q.a).None? <==>
        && row.Some? && Admission(row.value).None? && row.value.op.HasReverse()
        && NoneBlocks(db, q, Dependents(EdgesOfParent(db.edges, q.scope, q.a)), false)
  {
    DependentsResolved(db, q);
  }

  lemma EdgesStep(w: World, db: Tables, q: Req)
    requires w.phase == Serving
    ensures var u := At(w, db, q, ReadEdges);
      && Enabled(u, LStep(0)) && SerialLabel(u, LStep(0))
      && Apply(u, LStep(0)) == At(w, db, q, ReadDependents(Dependents(EdgesOfParent(db.edges, q.scope, q.a)), false))
  {
    GotoAt(w, db, q, ReadEdges, ReadDependents(Dependents(EdgesOfParent(db.edges, q.scope, q.a)), false));
  }

  /** From the key lookup to the transaction, or to the refusal. */
  lemma CheckRuns(w: World, db: Tables, q: Req) returns (ls: seq<Label>)
    requires w.phase == Serving && (q.key.Some? ==> GetKey(db, q.scope, q.key.value).None?)
    ensures Runs(At(w, db, q, KeyLookup), ls,
      if Obstacle(db, q.scope, q.a).None? then At(w, db, q, BeginTx) else Rest(w, db))
  {
    hide Apply, Enabled, Runs;
    NoObstacleMeans(db, q);
    ls := AdmitRuns(w, db, q);
    var row := GetAction(db, q.scope, q.a);
    if row.Some? && Admission(row.value).None? {
      var pending := Dependents(EdgesOfParent(db.edges, q.scope, q.a));
      var u, v := At(w, db, q, KeyLookup), At(w, db, q, ReadEdges);
      var x := At(w, db, q, ReadDependents(pending, false));
      EdgesStep(w, db, q);
      var rest := DependentsRun(w, db, q, pending, false);
      hide At, Rest, NoneBlocks, Dependents, EdgesOfParent;
      Then(u, ls, v, LStep(0), x);
      Compose(u, ls + [LStep(0)], x, rest, AfterDependents(w, db, q, pending, false));
      ls := ls + [LStep(0)] + rest;
    }
  }

  // ------------------------------------------------------------------- the replay

  /** The key belongs to another Action: refused. */
  lemma ConflictRuns(w: World, db: Tables, q: Req)
    requires w.phase == Serving && q.key.Some? && GetKey(db, q.scope, q.key.value).Some?
    requires GetKey(db, q.scope, q.key.value).value.fingerprint != Fingerprint(q.scope, q.a)
    ensures Runs(At(w, db, q, KeyLookup), [LStep(0)], Rest(w, db))
  {
    GotoAt(w, db, q, KeyLookup, ReadAction);
    OneStep(At(w, db, q, KeyLookup), LStep(0), Rest(w, db));
    hide Runs;
  }

  lemma FoundRuns(w: World, db: Tables, q: Req)
    requires w.phase == Serving && q.key.Some? && GetKey(db, q.scope, q.key.value).Some?
    requires GetKey(db, q.scope, q.key.value).value.fingerprint == Fingerprint(q.scope, q.a)
    ensures Runs(At(w, db, q, KeyLookup), [LStep(0)],
      At(w, db, q, Poll(GetKey(db, q.scope, q.key.value).value.attemptId)))
  {
    var k := GetKey(db, q.scope, q.key.value).value.attemptId;
    GotoAt(w, db, q, KeyLookup, Poll(k));
    OneStep(At(w, db, q, KeyLookup), LStep(0), At(w, db, q, Poll(k)));
    hide Runs;
  }

  /** The attempt is gone: the poll fails. */
  lemma PollFails(w: World, db: Tables, q: Req, k: nat)
    requires w.phase == Serving && k >= |db.attempts|
    ensures Runs(At(w, db, q, Poll(k)), [LPoll(0, true)], Rest(w, db))
  {
    GotoAt(w, db, q, Poll(k), Poll(k));
    OneStep(At(w, db, q, Poll(k)), LPoll(0, true), Rest(w, db));
    hide Runs;
  }

  lemma PollRuns(w: World, db: Tables, q: Req, k: nat) returns (v: World)
    requires w.phase == Serving && k < |db.attempts|
    ensures Runs(At(w, db, q, Poll(k)), [LPoll(0, true)] + [LStep(0)], v)
    ensures AtRest(v) && v == w.(db := db, threads := map[], answers := v.answers)
  {
    var x := At(w, db, q, Poll(k));
    var y := Apply(x, LPoll(0, true));
    OneStep(x, LPoll(0, true), y);
    assert HasPc(y, 0) && y.threads == map[0 := Request(q.scope, q.a, q.key, q.now, PollAction(k))];
    v := Apply(y, LStep(0));
    assert v.threads == map[];
    hide Runs, AnswerOf;
    Then(x, [LPoll(0, true)], y, LStep(0), v);
  }

  lemma AtRestAgain(w: World, db: Tables)
    requires w.phase == Serving
    ensures AtRest(Rest(w, db)) && Rest(w, db) == w.(db := db, threads := map[], answers := Rest(w, db).answers)
  {
  }

  /** A registered key: the conflict, or the replay after the wait is over. */
  lemma ReplayRuns(w: World, db: Tables, q: Req) returns (ls: seq<Label>, v: World)
    requires w.phase == Serving && q.key.Some? && GetKey(db, q.scope, q.key.value).Some?
    ensures Runs(At(w, db, q, KeyLookup), ls, v)
    ensures AtRest(v) && v == w.(db := db, threads := map[], answers := v.answers)
  {
    hide *;
    var u := At(w, db, q, KeyLookup);
    var row := GetKey(db, q.scope, q.key.value).value;
    var k := row.attemptId;
    if row.fingerprint != Fingerprint(q.scope, q.a) {
      ConflictRuns(w, db, q);
      ls, v := [LStep(0)], Rest(w, db);
      AtRestAgain(w, db);
    } else {
      FoundRuns(w, db, q);
      if k >= |db.attempts| {
        PollFails(w, db, q, k);
        ls, v := [LPoll(0, true)], Rest(w, db);
        AtRestAgain(w, db);
      } else {
        v := PollRuns(w, db, q, k);
        ls := [LPoll(0, true)] + [LStep(0)];
      }
      Compose(u, [LStep(0)], At(w, db, q, Poll(k)), ls, v);
      ls := [LStep(0)] + ls;
    }
  }

  // ------------------------------------------------------------------ the execution

  /** With the invariant, what has no obstacle does begin. */
  lemma BeginSucceeds(w: World, q: Req)
    requires Inv(w) && Obstacle(w.db, q.scope, q.a).None?
    requires q.key.Some? ==> GetKey(w.db, q.scope, q.key.value).None?
    ensures Begin(w.db, q.scope, q.a, q.key, q.now).Written?
  {
    AppliedMeansBenign(w.db, w.trail, q.a);
  }

  lemma SweptInv(w: World, q: Req)
    requires Inv(w) && AtRest(w)
    ensures Inv(At(w, Sweep(w.db, q.now), q, KeyLookup))
  {
    var ls := StartRuns(w, q);
    RunKeeps(w, ls);
  }

  lemma AtKeepsInv(w: World, db: Tables, q: Req, pc: Pc)
    requires Inv(At(w, db, q, KeyLookup)) && w.phase == Serving && pc == BeginTx
    ensures Inv(At(w, db, q, pc))
  {
  }

  function Begun(w: World): World {
    w.(trail := w.trail + [Trail(0, 0, false, None, None)])
  }

  lemma BeginStep(w: World, db: Tables, q: Req)
    requires w.phase == Serving && Begin(db, q.scope, q.a, q.key, q.now).Written?
    ensures var u := At(w, db, q, BeginTx);
      && Enabled(u, LStep(0)) && SerialLabel(u, LStep(0))
      && Apply(u, LStep(0)) == At(Begun(w), Begin(db, q.scope, q.a, q.key, q.now).db, q, Call(|db.attempts|))
  {
    hide Begin;
  }

  function Called(w: World, k: nat, ret: ProviderReturn, effect: bool): World
    requires k < |w.trail|
  {
    w.(trail := w.trail[k := w.trail[k].(calls := w.trail[k].calls + 1, effect := w.trail[k].effect || effect,
      returned := Some(ret))])
  }

  /** What one call returns by itself is among what the protocol lets it return. */
  lemma CallMay(w: World, db: Tables, q: Req, k: nat, foreign: ProviderReturn)
    requires q.a < |db.actions|
    ensures var effect := IsDemo(db.actions[q.a].op) && CanReverse(db, q.a);
      var (called, ret) := CallReverse(db, q.a, foreign);
      && ProviderMay(At(w, db, q, Call(k)), q.a, ret, effect)
      && called == if effect then ReverseEffect(db, q.a) else db
  {
    hide ConflictReason, ReverseEffect;
  }

  lemma CallGoes(w: World, db: Tables, q: Req, k: nat, ret: ProviderReturn, effect: bool)
    requires w.phase == Serving && q.a < |db.actions| && k < |w.trail|
    requires effect ==> IsDemo(db.actions[q.a].op) && CanReverse(db, q.a)
    requires ProviderMay(At(w, db, q, Call(k)), q.a, ret, effect)
    ensures var u := At(w, db, q, Call(k));
      && Enabled(u, LCall(0, ret, effect)) && SerialLabel(u, LCall(0, ret, effect))
      && Apply(u, LCall(0, ret, effect))
        == At(Called(w, k, ret, effect), if effect then ReverseEffect(db, q.a) else db, q, Record(k, ret))
  {
    hide CanReverse, ReverseEffect, ProviderMay;
    GotoAt(Called(w, k, ret, effect), if effect then ReverseEffect(db, q.a) else db, q, Call(k), Record(k, ret));
  }

  lemma CallStep(w: World, db: Tables, q: Req, k: nat, foreign: ProviderReturn)
    requires w.phase == Serving && q.a < |db.actions| && k < |w.trail|
    ensures var u := At(w, db, q, Call(k));
      var effect := IsDemo(db.actions[q.a].op) && CanReverse(db, q.a);
      var (called, ret) := CallReverse(db, q.a, foreign);
      && Enabled(u, LCall(0, ret, effect)) && SerialLabel(u, LCall(0, ret, effect))
      && Apply(u, LCall(0, ret, effect)) == At(Called(w, k, ret, effect), called, q, Record(k, ret))
  {
    hide *;
    var effect := IsDemo(db.actions[q.a].op) && CanReverse(db, q.a);
    CallMay(w, db, q, k, foreign);
    CallGoes(w, db, q, k, CallReverse(db, q.a, foreign).1, effect);
  }

  lemma RecordStep(w: World, db: Tables, q: Req, k: nat, ret: ProviderReturn, at: Instant) returns (v: World)
    requires w.phase == Serving
    ensures var u := At(w, db, q, Record(k, ret));
      && Enabled(u, LRecord(0, at)) && SerialLabel(u, LRecord(0, at)) && v == Apply(u, LRecord(0, at))
    ensures v.trail == w.trail && v.wrote == w.wrote && v.phase == Serving
    ensures Settle(ret).Unrecognised? ==> v.db == db && v.threads == map[]
    ensures !Settle(ret).Unrecognised? ==>
      && v.db == RecordSettlement(db, k, Settle(ret), at)
      && v.threads == map[0 := Request(q.scope, q.a, q.key, q.now, Transition(k, SettledStatus(Settle(ret)), at))]
  {
    var u := At(w, db, q, Record(k, ret));
    v := Apply(u, LRecord(0, at));
    GotoAt(w, db, q, Record(k, ret), Transition(k, OutcomeUnknown, at));
  }

  lemma ExecuteEnds(db: Tables, scope: string, a: nat, k: nat, foreign: ProviderReturn, at: Instant, last: Tables)
    requires a < |db.actions|
    requires Settle(CallReverse(db, a, foreign).1).Unrecognised? ==> last == CallReverse(db, a, foreign).0
    requires !Settle(CallReverse(db, a, foreign).1).Unrecognised? ==>
      var (called, ret) := CallReverse(db, a, foreign);
      UpdateStatus(RecordSettlement(called, k, Settle(ret), at), scope, a, Reversing, SettledStatus(Settle(ret)), at)
        == Written(last)
    ensures last == Execute(db, scope, a, k, foreign, at).0
  {
  }

  /** From the transaction to the recorded return. */
  lemma CallRecorded(w: World, db: Tables, q: Req, foreign: ProviderReturn, at: Instant)
      returns (ls: seq<Label>, z: World)
    requires w.phase == Serving && |w.trail| == |db.attempts|
    requires Begin(db, q.scope, q.a, q.key, q.now).Written? && q.a < |Begin(db, q.scope, q.a, q.key, q.now).db.actions|
    ensures Runs(At(w, db, q, BeginTx), ls, z) && z.phase == Serving && z.wrote == w.wrote
    ensures var begun := Begin(db, q.scope, q.a, q.key, q.now).db;
      var k := |db.attempts|;
      var (called, ret) := CallReverse(begun, q.a, foreign);
      && z.trail == Called(Begun(w), k, ret, IsDemo(begun.actions[q.a].op) && CanReverse(begun, q.a)).trail
      && (Settle(ret).Unrecognised? ==> z.db == called && z.threads == map[])
      && (!Settle(ret).Unrecognised? ==>
            && z.db == RecordSettlement(called, k, Settle(ret), at)
            && z.threads
              == map[0 := Request(q.scope, q.a, q.key, q.now, Transition(k, SettledStatus(Settle(ret)), at))])
  {
    hide Apply, Enabled, Runs;
    var k := |db.attempts|;
    var u := At(w, db, q, BeginTx);
    var begun := Begin(db, q.scope, q.a, q.key, q.now).db;
    var effect := IsDemo(begun.actions[q.a].op) && CanReverse(begun, q.a);
    var (called, ret) := CallReverse(begun, q.a, foreign);
    hide At, Begin, SerialLabel, Settle, CallReverse, RecordSettlement;
    BeginStep(w, db, q);
    CallStep(Begun(w), begun, q, k, foreign);
    var x := At(Begun(w), begun, q, Call(k));
    var y := At(Called(Begun(w), k, ret, effect), called, q, Record(k, ret));
    z := RecordStep(Called(Begun(w), k, ret, effect), called, q, k, ret, at);
    OneStep(u, LStep(0), x);
    Then(u, [LStep(0)], x, LCall(0, ret, effect), y);
    Then(u, [LStep(0)] + [LCall(0, ret, effect)], y, LRecord(0, at), z);
    ls := [LStep(0)] + [LCall(0, ret, effect)] + [LRecord(0, at)];
  }

  /** From the transaction to the end of the request. */
  lemma ExecuteRuns(w: World, db: Tables, q: Req, foreign: ProviderReturn, at: Instant)
      returns (ls: seq<Label>, v: World)
    requires w.phase == Serving && Inv(At(w, db, q, BeginTx)) && |w.trail| == |db.attempts|
    requires Begin(db, q.scope, q.a, q.key, q.now).Written? && q.a < |db.actions|
    ensures Runs(At(w, db, q, BeginTx), ls, v)
    ensures var begun := Begin(db, q.scope, q.a, q.key, q.now).db;
      && q.a < |begun.actions|
      && AtRest(v) && v.db == Execute(begun, q.scope, q.a, |db.attempts|, foreign, at).0
      && v.wrote == w.wrote && |v.trail| == |w.trail| + 1 && v.trail[..|w.trail|] == w.trail
      && v.trail[|w.trail|].effect == (IsDemo(begun.actions[q.a].op) && CanReverse(begun, q.a))
  {
    hide Inv, Runs;
    var k := |db.attempts|;
    BeginShape(db, q.scope, q.a, q.key, q.now);
    var begun := Begin(db, q.scope, q.a, q.key, q.now).db;
    var ret := CallReverse(begun, q.a, foreign).1;
    hide At, Begin, Settle, CallReverse, RecordSettlement, Execute, CanReverse;
    ls, v := CallRecorded(w, db, q, foreign, at);
    assert v.trail[..|w.trail|] == w.trail;
    if !Settle(ret).Unrecognised? {
      ls, v := TransitionRuns(At(w, db, q, BeginTx), ls, v, q, k, SettledStatus(Settle(ret)), at);
    }
    ExecuteEnds(begun, q.scope, q.a, k, foreign, at, v.db);
  }

  lemma TransitionRuns(u: World, ls: seq<Label>, z: World, q: Req, k: nat, to: Status, at: Instant)
      returns (more: seq<Label>, v: World)
    requires Inv(u) && Runs(u, ls, z) && z.phase == Serving
    requires z.threads == map[0 := Request(q.scope, q.a, q.key, q.now, Transition(k, to, at))]
    ensures Runs(u, more, v) && AtRest(v) && v == z.(db := v.db, threads := map[])
    ensures UpdateStatus(z.db, q.scope, q.a, Reversing, to, at) == Written(v.db)
  {
    hide Inv, Apply;
    RunKeeps(u, ls);
    TransitionEnds(z, q, k, to, at);
    v := Apply(z, LStep(0));
    more := ls + [LStep(0)];
    assert Enabled(z, LStep(0)) && SerialLabel(z, LStep(0));
    hide Runs, Enabled, SerialLabel;
    Then(u, ls, z, LStep(0), v);
  }

  lemma TransitionEnds(z: World, q: Req, k: nat, to: Status, at: Instant)
    requires Inv(z) && z.phase == Serving
    requires z.threads == map[0 := Request(q.scope, q.a, q.key, q.now, Transition(k, to, at))]
    ensures var v := Apply(z, LStep(0));
      && AtRest(v) && v == z.(db := v.db, threads := map[])
      && UpdateStatus(z.db, q.scope, q.a, Reversing, to, at) == Written(v.db)
  {
  }

  // -------------------------------------------------------------------- the theorem

  /** A reversal request served by itself, from any state the protocol can be in at rest,
      is a request-serial run of the protocol: sweep, checks, transaction, one provider
      call, record, transition. */
  lemma ServeRuns(w: World, q: Req, foreign: ProviderReturn, at: Instant) returns (ls: seq<Label>, v: World)
    requires Inv(w) && AtRest(w)
    ensures Runs(w, ls, v) && AtRest(v)
    ensures v.db == Serve(w.db, q.scope, q.a, q.key, q.now, foreign, at).0
    ensures v.wrote == w.wrote
    ensures var swept := Sweep(w.db, q.now);
      if Obstacle(swept, q.scope, q.a).None? && (q.key.Some? ==> GetKey(swept, q.scope, q.key.value).None?) then
        && q.a < |swept.actions| && Begin(swept, q.scope, q.a, q.key, q.now).Written?
        && |v.trail| == |w.trail| + 1 && v.trail[..|w.trail|] == w.trail
        && q.a < |Begin(swept, q.scope, q.a, q.key, q.now).db.actions|
        && v.trail[|w.trail|].effect ==
            (IsDemo(swept.actions[q.a].op) && CanReverse(Begin(swept, q.scope, q.a, q.key, q.now).db, q.a))
      else v.trail == w.trail
  {
    var swept := Sweep(w.db, q.now);
    hide Runs, At, Inv, Sweep, Begin, Execute, Obstacle, BeginFailed, CanReverse, Replay;
    ls := StartRuns(w, q);
    SweptInv(w, q);
    var u := At(w, swept, q, KeyLookup);
    if q.key.Some? && GetKey(swept, q.scope, q.key.value).Some? {
      var rest;
      rest, v := ReplayRuns(w, swept, q);
      Compose(w, ls, u, rest, v);
      ls := ls + rest;
    } else if Obstacle(swept, q.scope, q.a).Some? {
      var rest := CheckRuns(w, swept, q);
      v := Rest(w, swept);
      Compose(w, ls, u, rest, v);
      ls := ls + rest;
    } else {
      ls, v := AcceptedRuns(w, q, foreign, at, ls);
    }
  }

  lemma AcceptedRuns(w: World, q: Req, foreign: ProviderReturn, at: Instant, ls: seq<Label>)
      returns (all: seq<Label>, v: World)
    requires Inv(w) && AtRest(w)
    requires var swept := Sweep(w.db, q.now);
      && Runs(w, ls, At(w, swept, q, KeyLookup)) && Inv(At(w, swept, q, KeyLookup))
      && Obstacle(swept, q.scope, q.a).None? && (q.key.Some? ==> GetKey(swept, q.scope, q.key.value).None?)
    ensures var swept := Sweep(w.db, q.now);
      && Runs(w, all, v) && AtRest(v) && v.wrote == w.wrote
      && q.a < |swept.actions| && Begin(swept, q.scope, q.a, q.key, q.now).Written?
      && v.db == Serve(w.db, q.scope, q.a, q.key, q.now, foreign, at).0
      && |v.trail| == |w.trail| + 1 && v.trail[..|w.trail|] == w.trail
      && q.a < |Begin(swept, q.scope, q.a, q.key, q.now).db.actions|
      && v.trail[|w.trail|].effect ==
          (IsDemo(swept.actions[q.a].op) && CanReverse(Begin(swept, q.scope, q.a, q.key, q.now).db, q.a))
  {
    var swept := Sweep(w.db, q.now);
    SweepIsExact(w.db, q.now);
    var u, x := At(w, swept, q, KeyLookup), At(w, swept, q, BeginTx);
    var check := CheckRuns(w, swept, q);
    AtKeepsInv(w, swept, q, BeginTx);
    BeginSucceeds(x, q);
    BeginShape(swept, q.scope, q.a, q.key, q.now);
    assert |w.trail| == |swept.attempts|;
    var rest;
    rest, v := ExecuteRuns(w, swept, q, foreign, at);
    hide Runs, At, Inv, Begin, Obstacle, Execute;
    Compose(w, ls, u, check, x);
    Compose(w, ls + check, x, rest, v);
    all := ls + check + rest;
  }
}
