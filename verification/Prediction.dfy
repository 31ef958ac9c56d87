/** A plan predicts execution at a snapshot: it lists no conflict exactly when reversing at
    once succeeds, and then every postcondition holds at once. */
module Prediction {
  import opened Domain
  import opened Timestamp
  import opened Records
  import opened Protocol
  import opened Invariant
  import opened ResourceApi
  import opened Services
  import opened UndoStack
  import opened Refinement

  /** In every reachable state a reverse function says success exactly when it changes the
      provider's tables, never touches the journal, and can succeed once: called again it
      finds a conflict or a failure and changes nothing. */
  lemma SuccessIsVisible(w: World, a: nat)
    requires Reached(w) && a < |w.db.actions| && IsDemo(w.db.actions[a].op)
    ensures var (next, ret) := DemoReverse(w.db, a);
      var success := SuccessOutcome(w.db.actions[a].op);
      && next.actions == w.db.actions && ret.Output?
      && (ret.outcome == success <==> next != w.db)
      && var (last, again) := DemoReverse(next, a);
        last == next && again.Output? && again.outcome != success
  {
    ReachableDemoInv(w);
    assert ActionFits(w.db, a);
    hide Inv, DemoInv, Reached, DemoReverse;
    ReverseSpeaksTrue(w.db, a);
  }

  /** The status a successful reversal leaves. */
  function SuccessStatus(op: Op): Status {
    if op == NotifyOp then PartiallyReversed else Reversed
  }

  /** The tables differ in journal rows and statuses only. */
  ghost predicate SameBusiness(db: Tables, next: Tables) {
    && next.resources == db.resources && next.notifications == db.notifications
    && |next.actions| == |db.actions|
    && (forall i :: 0 <= i < |db.actions| ==> next.actions[i] == db.actions[i].(status := next.actions[i].status))
  }

  /** The same attempts, each of the same Action. */
  ghost predicate SameOwners(attempts: seq<AttemptRow>, next: seq<AttemptRow>) {
    && |next| == |attempts|
    && (forall k :: 0 <= k < |attempts| ==> next[k].actionId == attempts[k].actionId)
  }

  /** What else an accepted reversal leaves: one more attempt, the sweep, the same edges. */
  ghost predicate OthersSwept(db: Tables, next: Tables, a: nat, now: Instant) {
    && next.edges == db.edges && |next.actions| == |db.actions|
    && |next.attempts| == |db.attempts| + 1 && next.attempts[|db.attempts|].actionId == a
    && SameOwners(db.attempts, next.attempts[..|db.attempts|])
    && (forall i :: 0 <= i < |db.actions| && i != a ==>
          next.actions[i] == if IsDue(db.actions[i], now) then db.actions[i].(status := Expired) else db.actions[i])
  }

  lemma SameBusinessSameStatement(db: Tables, next: Tables, a: nat)
    requires SameBusiness(db, next) && a < |db.actions|
    ensures CanReverse(next, a) <==> CanReverse(db, a)
    ensures CanReverse(db, a) ==>
      && ReverseEffect(next, a).resources == ReverseEffect(db, a).resources
      && ReverseEffect(next, a).notifications == ReverseEffect(db, a).notifications
  {
  }

  /** A demo provider succeeds or finds a conflict. */
  lemma DemoReturns(db: Tables, a: nat, foreign: ProviderReturn)
    requires a < |db.actions| && IsDemo(db.actions[a].op) && ActionFits(db, a)
    ensures CallReverse(db, a, foreign) ==
      if CanReverse(db, a) then (ReverseEffect(db, a), Output(SuccessOutcome(db.actions[a].op), ""))
      else (db, Output(OutConflict, ConflictReason(db, a)))
  {
    hide ConflictReason, ReverseEffect;
  }

  lemma DemoSettles(op: Op, reason: string)
    requires IsDemo(op)
    ensures var won, lost := Settle(Output(SuccessOutcome(op), "")), Settle(Output(OutConflict, reason));
      won.Conclude? && won.to == SuccessStatus(op) && lost.Conclude? && lost.to == Applied
  {
  }

  /** From a begun reversal of a demo Action to its end. */
  lemma ExecuteDemo(db: Tables, scope: string, a: nat, k: nat, foreign: ProviderReturn, at: Instant)
    requires a < |db.actions| && IsDemo(db.actions[a].op) && ActionFits(db, a)
    requires db.actions[a].scope == scope && db.actions[a].status == Reversing
    ensures var (next, reply) := Execute(db, scope, a, k, foreign, at);
      var op := db.actions[a].op;
      && reply.Ok? && |next.actions| == |db.actions|
      && next.edges == db.edges && SameOwners(db.attempts, next.attempts)
      && (CanReverse(db, a) ==>
            && reply.result.outcome == SuccessOutcome(op)
            && next.resources == ReverseEffect(db, a).resources
            && next.notifications == ReverseEffect(db, a).notifications
            && next.actions == db.actions[a := db.actions[a].(status := SuccessStatus(op))])
      && (!CanReverse(db, a) ==>
            && reply.result.outcome == OutConflict
            && next.resources == db.resources && next.notifications == db.notifications
            && next.actions == db.actions[a := db.actions[a].(status := Applied)])
  {
    DemoReturns(db, a, foreign);
    CallKeepsJournal(db, a, foreign);
    DemoSettles(db.actions[a].op, ConflictReason(db, a));
    var (called, ret) := CallReverse(db, a, foreign);
    assert InVocabulary(ret);
    hide CallReverse, ReverseEffect, CanReverse, ActionFits, ConflictReason, Settle, RecordSettlement, Execute;
    ExecuteCompletes(db, scope, a, k, foreign, at);
    RecordKeepsOthers(called, k, Settle(ret), at);
    assert ResultOf(k, a, ret, at).outcome == ret.outcome;
  }

  lemma SweepSameBusiness(db: Tables, now: Instant)
    ensures SameBusiness(db, Sweep(db, now))
    ensures Sweep(db, now).keys == db.keys && Sweep(db, now).edges == db.edges && Sweep(db, now).attempts == db.attempts
  {
    SweepIsExact(db, now);
  }

  lemma BeginSameBusiness(db: Tables, scope: string, a: nat, key: Option<string>, now: Instant)
    requires Begin(db, scope, a, key, now).Written?
    ensures var begun := Begin(db, scope, a, key, now).db;
      && SameBusiness(db, begun) && a < |begun.actions| && begun.actions[a].scope == scope
      && db.actions[a].status == Applied && begun.actions == db.actions[a := db.actions[a].(status := Reversing)]
      && begun.edges == db.edges && begun.attempts == db.attempts + [NewAttempt(|db.attempts|, a, now)]
  {
  }

  /** An accepted reversal of a demo Action, by itself: what it answers and what it leaves. */
  lemma ServeDemo(w: World, q: Req, foreign: ProviderReturn, at: Instant)
    requires Inv(w) && DemoInv(w) && AtRest(w)
    requires q.key.Some? ==> GetKey(w.db, q.scope, q.key.value).None?
    requires q.a < |w.db.actions| && IsDemo(w.db.actions[q.a].op)
    requires Obstacle(Sweep(w.db, q.now), q.scope, q.a).None?
    ensures var (next, reply) := Serve(w.db, q.scope, q.a, q.key, q.now, foreign, at);
      var op := w.db.actions[q.a].op;
      && reply.Ok? && OthersSwept(w.db, next, q.a, q.now)
      && (CanReverse(w.db, q.a) ==>
            && reply.result.outcome == SuccessOutcome(op)
            && next.resources == ReverseEffect(w.db, q.a).resources
            && next.notifications == ReverseEffect(w.db, q.a).notifications
            && next.actions[q.a] == w.db.actions[q.a].(status := SuccessStatus(op)))
      && (!CanReverse(w.db, q.a) ==>
            && reply.result.outcome == OutConflict
            && next.resources == w.db.resources && next.notifications == w.db.notifications
            && next.actions[q.a] == w.db.actions[q.a].(status := Applied))
  {
    var swept := Sweep(w.db, q.now);
    SweptInv(w, q);
    SweepSameBusiness(w.db, q.now);
    BeginSucceeds(Refinement.At(w, swept, q, KeyLookup), q);
    assert ActionFits(w.db, q.a);
    ServeExecutes(w.db, q, foreign, at);
    BegunDemo(w.db, q, foreign, at);
    hide *;
  }

  lemma ServeExecutes(db: Tables, q: Req, foreign: ProviderReturn, at: Instant)
    requires q.key.Some? ==> GetKey(Sweep(db, q.now), q.scope, q.key.value).None?
    requires Obstacle(Sweep(db, q.now), q.scope, q.a).None?
    requires Begin(Sweep(db, q.now), q.scope, q.a, q.key, q.now).Written?
    ensures var begun := Begin(Sweep(db, q.now), q.scope, q.a, q.key, q.now).db;
      && q.a < |begun.actions|
      && Serve(db, q.scope, q.a, q.key, q.now, foreign, at) == Execute(begun, q.scope, q.a, |db.attempts|, foreign, at)
  {
  }

  lemma BegunDemo(db: Tables, q: Req, foreign: ProviderReturn, at: Instant)
    requires q.a < |db.actions| && IsDemo(db.actions[q.a].op) && ActionFits(db, q.a)
    requires Begin(Sweep(db, q.now), q.scope, q.a, q.key, q.now).Written?
    ensures var begun := Begin(Sweep(db, q.now), q.scope, q.a, q.key, q.now).db;
      q.a < |begun.actions| &&
      var (next, reply) := Execute(begun, q.scope, q.a, |db.attempts|, foreign, at);
      var op := db.actions[q.a].op;
      && reply.Ok? && OthersSwept(db, next, q.a, q.now)
      && (CanReverse(db, q.a) ==>
            && reply.result.outcome == SuccessOutcome(op)
            && next.resources == ReverseEffect(db, q.a).resources
            && next.notifications == ReverseEffect(db, q.a).notifications
            && next.actions[q.a] == db.actions[q.a].(status := SuccessStatus(op)))
      && (!CanReverse(db, q.a) ==>
            && reply.result.outcome == OutConflict
            && next.resources == db.resources && next.notifications == db.notifications
            && next.actions[q.a] == db.actions[q.a].(status := Applied))
  {
    BegunSame(db, q);
    var begun := Begin(Sweep(db, q.now), q.scope, q.a, q.key, q.now).db;
    hide Begin, Sweep, ActionFits, Execute;
    SameBusinessSameStatement(db, begun, q.a);
    FitsStays(db, begun, q.a);
    var next := Execute(begun, q.scope, q.a, |db.attempts|, foreign, at).0;
    ExecuteDemo(begun, q.scope, q.a, |db.attempts|, foreign, at);
    OthersSweptAfter(db, begun, next, q.a, q.now);
    hide *;
  }

  lemma OthersSweptAfter(db: Tables, begun: Tables, next: Tables, a: nat, now: Instant)
    requires a < |db.actions| && |begun.actions| == |db.actions| && begun.edges == db.edges && next.edges == begun.edges
    requires begun.attempts == db.attempts + [NewAttempt(|db.attempts|, a, now)]
    requires SameOwners(begun.attempts, next.attempts)
    requires forall i :: 0 <= i < |db.actions| && i != a ==>
      begun.actions[i] == if IsDue(db.actions[i], now) then db.actions[i].(status := Expired) else db.actions[i]
    requires |next.actions| == |begun.actions| && next.actions == begun.actions[a := next.actions[a]]
    ensures OthersSwept(db, next, a, now)
  {
  }

  /** The tables once the reversal has begun. */
  lemma BegunSame(db: Tables, q: Req)
    requires q.a < |db.actions|
    requires Begin(Sweep(db, q.now), q.scope, q.a, q.key, q.now).Written?
    ensures var begun := Begin(Sweep(db, q.now), q.scope, q.a, q.key, q.now).db;
      && SameBusiness(db, begun) && begun.edges == db.edges
      && begun.actions[q.a] == db.actions[q.a].(status := Reversing) && db.actions[q.a].scope == q.scope
      && begun.attempts == db.attempts + [NewAttempt(|db.attempts|, q.a, q.now)]
      && (forall i :: 0 <= i < |db.actions| && i != q.a ==>
            begun.actions[i] ==
              if IsDue(db.actions[i], q.now) then db.actions[i].(status := Expired) else db.actions[i])
  {
    SweepIsExact(db, q.now);
    SweepSameBusiness(db, q.now);
    BeginSameBusiness(Sweep(db, q.now), q.scope, q.a, q.key, q.now);
    hide Sweep, Begin;
  }

  lemma FitsStays(db: Tables, next: Tables, a: nat)
    requires SameBusiness(db, next) && a < |db.actions| && ActionFits(db, a)
    ensures ActionFits(next, a)
  {
  }

  lemma EffectIsVerified(db: Tables, next: Tables, a: nat)
    requires a < |db.actions| && IsDemo(db.actions[a].op) && ActionFits(db, a) && CanReverse(db, a)
    requires next.resources == ReverseEffect(db, a).resources
    requires next.notifications == ReverseEffect(db, a).notifications
    ensures Verified(next, db.actions[a])
  {
  }

  /** Planning sweeps once; reversing at once sweeps again, which changes nothing. */
  lemma PlanFirst(db: Tables, q: Req, foreign: ProviderReturn, at: Instant)
    ensures Serve(ServePlan(db, q.scope, q.a, q.now).0, q.scope, q.a, q.key, q.now, foreign, at)
      == Serve(db, q.scope, q.a, q.key, q.now, foreign, at)
  {
    SweepIsExact(db, q.now);
    hide Sweep, Obstacle, Begin, Execute, BeginFailed;
  }

  lemma NoConflictNoObstacle(db: Tables, scope: string, a: nat)
    requires a < |db.actions| && IsDemo(db.actions[a].op) && ActionFits(db, a)
    ensures var plan := PlanOf(db, scope, a);
      plan.Planned? && plan.conflicts == [] <==> Obstacle(db, scope, a).None? && CanReverse(db, a)
  {
  }

  /** Create, update and notify, in any state the protocol can be in at rest: the plan lists
      no conflict if and only if reversing at once, without a key, returns the success of
      that operation; and then verifying at once finds every postcondition satisfied. */
  lemma PlanPredictsExecution(w: World, scope: string, a: nat, now: Instant, foreign: ProviderReturn, at: Instant)
    requires Reached(w) && AtRest(w)
    requires a < |w.db.actions| && IsDemo(w.db.actions[a].op)
    ensures var (planned, plan) := ServePlan(w.db, scope, a, now);
      var (next, reply) := Serve(planned, scope, a, None, now, foreign, at);
      var op := w.db.actions[a].op;
      && (plan.Planned? && plan.conflicts == [] <==> reply.Ok? && reply.result.outcome == SuccessOutcome(op))
      && (plan.Planned? && plan.conflicts == [] ==>
            && a < |next.actions| && next.actions[a].status == SuccessStatus(op)
            && Verified(next, next.actions[a]))
  {
    ReachableDemoInv(w);
    var q := Req(scope, a, None, now);
    var swept := Sweep(w.db, now);
    PlanFirst(w.db, q, foreign, at);
    SweepSameBusiness(w.db, now);
    assert ActionFits(w.db, a);
    FitsStays(w.db, swept, a);
    NoConflictNoObstacle(swept, scope, a);
    SameBusinessSameStatement(w.db, swept, a);
    if Obstacle(swept, scope, a).None? {
      ServeDemo(w, q, foreign, at);
      var next := Serve(w.db, scope, a, None, now, foreign, at).0;
      if CanReverse(w.db, a) {
        EffectIsVerified(w.db, next, a);
        StatusDoesNotVerify(next, w.db.actions[a], next.actions[a]);
      }
    } else {
      ObstacleRefuses(w.db, q, foreign, at);
    }
  }

  lemma ObstacleRefuses(db: Tables, q: Req, foreign: ProviderReturn, at: Instant)
    requires q.key.None? && Obstacle(Sweep(db, q.now), q.scope, q.a).Some?
    ensures Serve(db, q.scope, q.a, q.key, q.now, foreign, at)
      == (Sweep(db, q.now), Refused(Obstacle(Sweep(db, q.now), q.scope, q.a).value))
  {
  }

  lemma StatusDoesNotVerify(db: Tables, row: ActionRow, next: ActionRow)
    requires Verified(db, row) && next == row.(status := next.status)
    ensures Verified(db, next)
  {
  }
}
