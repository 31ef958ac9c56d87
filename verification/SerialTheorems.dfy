/** What request-serial runs guarantee: corollaries of what holds in every interleaving, since
    nothing can be recorded between a request's checks and its acceptance. */
module SerialTheorems {
  import opened Domain
  import opened Records
  import opened Protocol
  import opened Invariant
  import opened Moves
  import opened Steps
  import opened ResourceApi
  import opened Checks
  import opened Deletion
  import opened Serial

  // ------------------------------------------------------------ one more label

  lemma {:induction false} Snoc(w: World, ls: seq<Label>)
    requires CanRun(w, ls) && ls != []
    ensures var n := |ls| - 1;
      && CanRun(w, ls[..n]) && Enabled(Run(w, ls[..n]), ls[n])
      && Run(w, ls) == Apply(Run(w, ls[..n]), ls[n])
      && (SerialRun(w, ls) ==> SerialRun(w, ls[..n]) && SerialLabel(Run(w, ls[..n]), ls[n]))
    decreases |ls|
  {
    hide Apply, Enabled, SerialLabel;
    var n := |ls| - 1;
    if n == 0 {
      assert ls[..0] == [] && ls[1..] == [];
    } else {
      Snoc(Apply(w, ls[0]), ls[1..]);
      assert ls[1..][..n - 1] == ls[..n][1..] && ls[1..][n - 1] == ls[n];
    }
  }

  // --------------------------------------------------------- a request on its own

  ghost predicate IsSolo(w: World, tid: nat) {
    HasPc(w, tid) && w.threads.Keys == {tid}
  }

  predicate IsBeforeCall(pc: Pc) {
    IsBeforeEdges(pc) || pc.ReadDependents? || pc.BeginTx?
  }

  predicate IsApplied(db: Tables, a: nat) {
    a < |db.actions| && db.actions[a].status == Applied
  }

  /** While a request runs on its own nothing is recorded, and until its transaction statuses
      only expire. */
  ghost predicate Quiet(w: World, v: World, tid: nat) {
    && v.db.edges == w.db.edges && |v.db.actions| == |w.db.actions|
    && (tid in v.threads && v.threads[tid].Request? && IsBeforeCall(v.threads[tid].pc) ==>
          && tid in w.threads && w.threads[tid].Request? && IsBeforeCall(w.threads[tid].pc)
          && forall a: nat :: IsApplied(v.db, a) ==> IsApplied(w.db, a))
  }

  lemma SoloStep(w: World, l: Label, tid: nat)
    requires IsSolo(w, tid) && Enabled(w, l) && SerialLabel(w, l) && tid in Apply(w, l).threads
    ensures var v := Apply(w, l);
      && (l == LStep(tid) || ((l.LPoll? || l.LCall? || l.LRecord?) && l.tid == tid))
      && IsSolo(v, tid) && Quiet(w, v, tid)
  {
    assert w.threads != map[] by { assert tid in w.threads; }
    OnlyOwnLabels(w, l, tid);
    if l == LStep(tid) {
      SoloRequestStep(w, tid);
    } else if l.LRecord? {
      assert l == LRecord(tid, l.at);
      RecordStepMoves(w, tid, l.at);
      hide Apply, Enabled;
    } else {
      hide Records.Settle;
    }
  }

  lemma OnlyOwnLabels(w: World, l: Label, tid: nat)
    requires IsSolo(w, tid) && Enabled(w, l) && SerialLabel(w, l) && tid in Apply(w, l).threads
    ensures l == LStep(tid) || ((l.LPoll? || l.LCall? || l.LRecord?) && l.tid == tid)
  {
    hide RequestStep, ReconcileStep, RecoverStep, RecordReturn, CallProvider;
  }

  lemma SoloRequestStep(w: World, tid: nat)
    requires IsSolo(w, tid) && Enabled(w, LStep(tid)) && tid in Apply(w, LStep(tid)).threads
    ensures var v := Apply(w, LStep(tid)); IsSolo(v, tid) && Quiet(w, v, tid)
  {
    RequestStepMoves(w, tid);
    RequestFollows(w, tid);
    if w.threads[tid].pc.SweepRows? {
      SweepOnlyExpires(w, tid);
    }
    hide RequestStep, Begin, DueActions;
  }

  lemma SweepOnlyExpires(w: World, tid: nat)
    requires HasPc(w, tid) && w.threads[tid].pc.SweepRows?
    ensures forall a: nat :: IsApplied(RequestStep(w, tid).db, a) ==> IsApplied(w.db, a)
  {
  }

  // ----------------------------------------------------------------- its beginning

  lemma InitIsOk()
    ensures Inv(INIT)
  {
  }

  lemma NothingBegun(ls: seq<Label>, tid: nat)
    requires CanRun(INIT, ls) && HasPc(Run(INIT, ls), tid)
    ensures ls != []
  {
  }

  lemma InitKept(ls: seq<Label>)
    requires CanRun(INIT, ls) && SerialRun(INIT, ls) && ls != []
    ensures var n := |ls| - 1;
      && CanRun(INIT, ls[..n]) && SerialRun(INIT, ls[..n]) && Inv(Run(INIT, ls[..n]))
      && Enabled(Run(INIT, ls[..n]), ls[n]) && SerialLabel(Run(INIT, ls[..n]), ls[n])
      && Run(INIT, ls) == Apply(Run(INIT, ls[..n]), ls[n])
  {
    InitIsOk();
    hide *;
    Snoc(INIT, ls);
    RunKeeps(INIT, ls[..|ls| - 1]);
  }

  /** A request that is in flight in a request-serial run began on its own, and all it has
      been through since is its own steps. */
  lemma {:induction false} Beginning(ls: seq<Label>, tid: nat) returns (before: seq<Label>, after: seq<Label>)
    requires CanRun(INIT, ls) && SerialRun(INIT, ls) && HasPc(Run(INIT, ls), tid)
    ensures ls == before + after && CanRun(INIT, before)
    ensures var u := Run(INIT, before);
      var v := Run(INIT, ls);
      && IsSolo(u, tid) && u.threads[tid].pc == SweepSelect
      && CanRun(u, after) && Kept(u, after, tid) && Run(u, after) == v
      && (after != [] ==> after[0] == LStep(tid))
      && IsSolo(v, tid) && Quiet(u, v, tid) && SameRequest(u.threads[tid], v.threads[tid])
    decreases |ls|
  {
    NothingBegun(ls, tid);
    hide *;
    var n := |ls| - 1;
    InitKept(ls);
    var x, l := Run(INIT, ls[..n]), ls[n];
    assert ls == ls[..n] + [l];
    if tid in x.threads {
      BeforeWasRequest(x, l, tid);
      before, after := Beginning(ls[..n], tid);
      after := GoOn(Run(INIT, before), after, x, l, Run(INIT, ls), tid);
      assert before + after == ls;
    } else {
      OnlyStartEnters(x, l, tid);
      before, after := ls, [];
      BornNow(Run(INIT, ls), tid);
      assert before + after == ls;
    }
  }

  lemma BornNow(v: World, tid: nat)
    requires IsSolo(v, tid)
    ensures CanRun(v, []) && Kept(v, [], tid) && Run(v, []) == v && Quiet(v, v, tid)
    ensures SameRequest(v.threads[tid], v.threads[tid])
  {
  }

  lemma GoOn(u: World, after: seq<Label>, x: World, l: Label, v: World, tid: nat) returns (all: seq<Label>)
    requires IsSolo(u, tid) && u.threads[tid].pc == SweepSelect && (after != [] ==> after[0] == LStep(tid))
    requires CanRun(u, after) && Kept(u, after, tid) && Run(u, after) == x
    requires IsSolo(x, tid) && Quiet(u, x, tid) && SameRequest(u.threads[tid], x.threads[tid])
    requires Enabled(x, l) && SerialLabel(x, l) && Apply(x, l) == v && tid in v.threads
    ensures all == after + [l] && (all != [] ==> all[0] == LStep(tid))
    ensures CanRun(u, all) && Kept(u, all, tid) && Run(u, all) == v
    ensures IsSolo(v, tid) && Quiet(u, v, tid) && SameRequest(u.threads[tid], v.threads[tid])
  {
    hide Apply, Enabled, Run, CanRun, Kept;
    SoloStep(x, l, tid);
    StepGoes(x, l, tid);
    all := after + [l];
    if after == [] {
      FirstIsOwn(u, x, l, tid, after);
    }
    hide SerialLabel, Quiet, Follows;
    KeptOneMore(u, after, l, tid);
    SoloGoesOn(u, x, v, l, tid, after);
  }

  /** A request that has just arrived has no provider to call, record or poll. */
  lemma FirstIsOwn(u: World, x: World, l: Label, tid: nat, after: seq<Label>)
    requires HasPc(u, tid) && u.threads[tid].pc == SweepSelect && after == [] && CanRun(u, after) && Run(u, after) == x
    requires Enabled(x, l) && (l == LStep(tid) || ((l.LPoll? || l.LCall? || l.LRecord?) && l.tid == tid))
    ensures l == LStep(tid)
  {
  }

  lemma StepStaysRequest(x: World, i: nat, tid: nat)
    requires Enabled(x, LStep(i)) && tid in x.threads && HasPc(Apply(x, LStep(i)), tid)
    ensures HasPc(x, tid)
  {
    if x.threads[i].Request? { RequestStepMoves(x, i); } else { ReconcileStepMoves(x, i); }
    hide RequestStep, ReconcileStep, Begin;
  }

  lemma RecordStaysRequest(x: World, l: Label, tid: nat)
    requires Enabled(x, l) && (l.LRecord? || l.LRecConclude?) && tid in x.threads && HasPc(Apply(x, l), tid)
    ensures HasPc(x, tid)
  {
    hide Apply, Enabled;
    if l.LRecord? {
      assert l == LRecord(l.tid, l.at);
      RecordStepMoves(x, l.tid, l.at);
    } else {
      assert l == LRecConclude(l.tid, l.at);
      RecConcludeMoves(x, l.tid, l.at);
    }
    hide Records.Settle;
  }

  lemma BeforeWasRequest(x: World, l: Label, tid: nat)
    requires Inv(x) && Enabled(x, l) && tid in x.threads && HasPc(Apply(x, l), tid)
    ensures HasPc(x, tid)
  {
    hide RequestStep, ReconcileStep, RecoverStep, RecordReturn, ConcludeReconciled;
    match l
    case LStep(i) => StepStaysRequest(x, i, tid);
    case LRecord(_, _) => RecordStaysRequest(x, l, tid);
    case LRecConclude(_, _) => RecordStaysRequest(x, l, tid);
    case LRecover => RecoverMovesNobody(x);
    case _ =>
  }

  lemma OnlyStartEnters(x: World, l: Label, tid: nat)
    requires Inv(x) && Enabled(x, l) && SerialLabel(x, l) && tid !in x.threads && HasPc(Apply(x, l), tid)
    ensures IsSolo(Apply(x, l), tid) && Apply(x, l).threads[tid].pc == SweepSelect
  {
    hide RequestStep, ReconcileStep, RecoverStep, RecordReturn, ConcludeReconciled;
    match l
    case LStep(i) =>
      if x.threads[i].Request? { RequestStepMoves(x, i); } else { ReconcileStepMoves(x, i); }
      assert false;
    case LRecord(i, at) => RecordStepMoves(x, i, at); assert false;
    case LRecConclude(i, at) => RecConcludeMoves(x, i, at); assert false;
    case LRecover => RecoverMovesNobody(x); assert false;
    case _ =>
  }

  lemma SoloGoesOn(u: World, x: World, v: World, l: Label, tid: nat, after: seq<Label>)
    requires HasPc(u, tid) && HasPc(x, tid) && HasPc(v, tid) && u.threads[tid].pc == SweepSelect
    requires Quiet(u, x, tid) && Quiet(x, v, tid)
    requires SameRequest(u.threads[tid], x.threads[tid]) && Goes(x, l, tid, v.threads[tid])
    requires l == LStep(tid) || ((l.LPoll? || l.LCall? || l.LRecord?) && l.tid == tid)
    ensures Quiet(u, v, tid) && SameRequest(u.threads[tid], v.threads[tid])
  {
    hide Follows;
  }

  // ------------------------------------------------------------------- corollaries

  lemma SerialRunTo(w: World) returns (ls: seq<Label>)
    requires SeriallyReached(w)
    ensures CanRun(INIT, ls) && SerialRun(INIT, ls) && Run(INIT, ls) == w && Reached(w)
  {
    ls :| CanRun(INIT, ls) && SerialRun(INIT, ls) && Run(INIT, ls) == w;
  }

  /** The state in which a request in flight stood on its own at its first step. */
  lemma StoodAlone(w: World, tid: nat) returns (u: World, after: seq<Label>)
    requires SeriallyReached(w) && HasPc(w, tid)
    ensures Reached(u) && Inv(u) && IsSolo(u, tid) && u.threads[tid].pc == SweepSelect
    ensures CanRun(u, after) && Kept(u, after, tid) && Run(u, after) == w && Quiet(u, w, tid)
    ensures SameRequest(u.threads[tid], w.threads[tid]) && IsSolo(w, tid) && (after != [] ==> after[0] == LStep(tid))
  {
    var past := SerialRunTo(w);
    InitIsOk();
    var before;
    hide Inv, Apply, Enabled, Run, CanRun, SerialRun, Kept, Quiet;
    before, after := Beginning(past, tid);
    u := Run(INIT, before);
    RunKeeps(INIT, before);
    assert Reached(u);
  }

  lemma AdmittedAlone(w: World, tid: nat)
    requires SeriallyReached(w) && HasPc(w, tid) && IsAdmitted(w.threads[tid].pc)
    ensures AllResolved(w.db.edges, w.db, w.threads[tid].scope, w.threads[tid].actionId, [])
  {
    hide Run, CanRun, Reached, Inv, Kept, SeriallyReached;
    var u, after := StoodAlone(w, tid);
    hide AllResolved;
    AdmittedOverResolved(u, after, tid);
  }

  lemma ResolvedWasEntered(w: World, d: nat)
    requires Reached(w) && d < |w.db.actions|
    ensures Entered(w.db.history, d, w.db.actions[d].status)
  {
    HistoryIsConserved(w, []);
    hide Reached;
    assert ActionHistoryOk(w.db, d);
    HistoryEntryExists(w.db.history, d);
  }

  /** When a reversal is admitted, every recorded dependent has already entered REVERSED or
      PARTIALLY_REVERSED, and stays there in every later state. */
  lemma DependentsResolveFirst(w: World, tid: nat, e: Edge, ls: seq<Label>)
    requires SeriallyReached(w) && HasPc(w, tid) && IsAdmitted(w.threads[tid].pc)
    requires e in w.db.edges && e.scope == w.threads[tid].scope && e.parent == w.threads[tid].actionId
    requires CanRun(w, ls)
    ensures e.dependent < |w.db.actions| && IsResolved(w.db.actions[e.dependent].status)
    ensures Entered(w.db.history, e.dependent, w.db.actions[e.dependent].status)
    ensures e.dependent < |Run(w, ls).db.actions|
      && Run(w, ls).db.actions[e.dependent].status == w.db.actions[e.dependent].status
  {
    AdmittedAlone(w, tid);
    assert Resolved(w.db, e.dependent);
    var past := SerialRunTo(w);
    hide Run, CanRun, SeriallyReached, Inv, Reached, Entered;
    ReachableInv(w);
    ResolvedWasEntered(w, e.dependent);
    FinalStatusStays(w, ls, e.dependent);
  }

  /** Whenever the delete of a create-reversal matches its row, the row is at version 1
      and holds its created value, although the statement checks neither. */
  lemma DeleteIsSafe(w: World, tid: nat)
    requires SeriallyReached(w) && HasPc(w, tid) && w.threads[tid].pc.Call?
    requires w.threads[tid].actionId < |w.db.actions| && w.db.actions[w.threads[tid].actionId].op == CreateOp
    requires CanReverse(w.db, w.threads[tid].actionId)
    ensures IsAsCreated(w, w.threads[tid].actionId)
  {
    hide Run, CanRun, Reached, Kept, SeriallyReached;
    var u, after := StoodAlone(w, tid);
    assert |w.db.actions| == |u.db.actions|;
    hide SerialRun, IsAsCreated;
    OnlyLaterUpdatesAreLost(u, after, tid);
  }

  // ------------------------------------------------------------------ in the window

  /** Every attempt was requested strictly before its Action's window closed. */
  ghost predicate RequestedInTime(db: Tables) {
    forall k :: 0 <= k < |db.attempts| && db.attempts[k].actionId < |db.actions| ==>
      IsOpenAt(db.actions[db.attempts[k].actionId], db.attempts[k].requestedAt)
  }

  lemma MoveKeepsTime(m: Move, db: Tables, next: Tables)
    requires Makes(m, db, next) && RequestedInTime(db)
    requires m.Begun? && m.action < |db.actions| ==> IsOpenAt(db.actions[m.action], m.now)
    requires forall k :: 0 <= k < |db.attempts| ==> db.attempts[k].actionId < |db.actions|
    ensures RequestedInTime(next)
  {
    if m.Begun? { BeginShape(db, m.scope, m.action, m.key, m.now); }
  }

  lemma OthersAddNoAttempts(w: World, l: Label)
    requires Enabled(w, l) && !l.LStep? && !l.LRecord? && !l.LRecConclude?
    ensures |Apply(w, l).db.attempts| == |w.db.attempts|
  {
  }

  lemma OnlyBeginAddsAttempts(w: World, l: Label)
    requires Enabled(w, l) && |Apply(w, l).db.attempts| > |w.db.attempts|
    ensures l.LStep? && HasPc(w, l.tid) && w.threads[l.tid].pc.BeginTx?
    ensures var t := w.threads[l.tid]; Begin(w.db, t.scope, t.actionId, t.key, t.now) == Written(Apply(w, l).db)
  {
    match l
    case LStep(tid) =>
      if w.threads[tid].Request? {
        RequestStepMoves(w, tid);
        hide Begin, RequestStep;
      } else {
        ReconcileStepMoves(w, tid);
        hide ReconcileStep;
      }
    case LRecord(tid, at) => RecordStepMoves(w, tid, at); hide Apply;
    case LRecConclude(tid, at) => RecConcludeMoves(w, tid, at); hide Apply;
    case _ => OthersAddNoAttempts(w, l);
  }

  lemma SameBegin(db: Tables, t: Thread, m: Move, next: Tables)
    requires t.Request? && m.Begun?
    requires Begin(db, t.scope, t.actionId, t.key, t.now) == Written(next)
    requires Begin(db, m.scope, m.action, m.key, m.now) == Written(next)
    ensures m.action == t.actionId && m.now == t.now
  {
    BeginShape(db, t.scope, t.actionId, t.key, t.now);
    BeginShape(db, m.scope, m.action, m.key, m.now);
    hide Begin;
    var n := |db.attempts|;
    assert next.attempts[n] == NewAttempt(n, t.actionId, t.now) && next.attempts[n] == NewAttempt(n, m.action, m.now);
  }

  /** Only a request's transaction begins a reversal, and only of an APPLIED Action. */
  lemma BegunByRequest(w: World, l: Label, m: Move)
    requires Enabled(w, l) && m.Begun? && Makes(m, w.db, Apply(w, l).db)
    ensures l.LStep? && HasPc(w, l.tid) && w.threads[l.tid].pc.BeginTx?
    ensures m.action == w.threads[l.tid].actionId && m.now == w.threads[l.tid].now && IsApplied(w.db, m.action)
  {
    hide Apply, Enabled;
    BeginShape(w.db, m.scope, m.action, m.key, m.now);
    OnlyBeginAddsAttempts(w, l);
    hide Begin;
    SameBegin(w.db, w.threads[l.tid], m, Apply(w, l).db);
  }

  lemma ReadyInTime(u: World, after: seq<Label>, tid: nat)
    requires Inv(u) && IsSolo(u, tid) && u.threads[tid].pc == SweepSelect
    requires CanRun(u, after) && Kept(u, after, tid) && (after != [] ==> after[0] == LStep(tid))
    requires var w := Run(u, after);
      && IsSolo(w, tid) && w.threads[tid].pc.BeginTx? && SameRequest(u.threads[tid], w.threads[tid])
      && Quiet(u, w, tid) && IsApplied(w.db, u.threads[tid].actionId)
    ensures var w := Run(u, after);
      IsOpenAt(w.db.actions[u.threads[tid].actionId], u.threads[tid].now)
  {
    if after == [] { assert false; }
    var a := u.threads[tid].actionId;
    assert after == [LStep(tid)] + after[1..];
    assert IsApplied(u.db, a);
    RunGrows(u, after);
    hide Kept, CanRun, Inv, Quiet;
    LateMeansReversing(u, after[1..], tid);
  }

  /** What a request-serial run is about to begin is still inside its window. */
  lemma BeginsInTime(w: World, l: Label, m: Move)
    requires SeriallyReached(w) && Enabled(w, l) && m.Begun? && Makes(m, w.db, Apply(w, l).db)
    ensures m.action < |w.db.actions| && IsOpenAt(w.db.actions[m.action], m.now)
  {
    hide Apply, Enabled, Run, CanRun, Reached, Inv, Kept, SeriallyReached;
    BegunByRequest(w, l, m);
    var u, after := StoodAlone(w, l.tid);
    hide Makes, Quiet;
    ReadyInTime(u, after, l.tid);
  }

  lemma {:induction false} SerialInTime(ls: seq<Label>)
    requires CanRun(INIT, ls) && SerialRun(INIT, ls)
    ensures RequestedInTime(Run(INIT, ls).db)
    decreases |ls|
  {
    hide Apply;
    if ls != [] {
      var n := |ls| - 1;
      Snoc(INIT, ls);
      SerialInTime(ls[..n]);
      var w := Run(INIT, ls[..n]);
      RunKeeps(INIT, ls[..n]);
      AttemptsHaveActions(w);
      var m := StepMove(w, ls[n]);
      if m.Begun? { BeginsInTime(w, ls[n], m); }
      hide *;
      MoveKeepsTime(m, w.db, Apply(w, ls[n]).db);
    }
  }

  /** Expired Actions never begin a reversal: every attempt ever made was requested
      strictly before its Action's window closed. */
  lemma NoReversalAfterExpiry(w: World, k: nat)
    requires SeriallyReached(w) && k < |w.db.attempts|
    ensures w.db.attempts[k].actionId < |w.db.actions|
    ensures IsOpenAt(w.db.actions[w.db.attempts[k].actionId], w.db.attempts[k].requestedAt)
  {
    var ls := SerialRunTo(w);
    RunKeeps(INIT, ls);
    AttemptsHaveActions(w);
    SerialInTime(ls);
  }
}
