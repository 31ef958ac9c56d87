/** What the checks outside the transaction are worth in every interleaving: whatever a
    request has seen still binds when it is accepted, and nothing else does. */
module Checks {
  import opened Domain
  import opened Timestamp
  import opened Records
  import opened Dependency
  import opened Protocol
  import opened Invariant
  import opened Moves
  import opened Steps
  import opened Graph

  // -------------------------------------------------------------- one thread's life

  /** The thread is in the table all along, so it is the same request at both ends. */
  ghost predicate Kept(w: World, ls: seq<Label>, tid: nat)
    requires CanRun(w, ls)
    decreases |ls|
  {
    tid in w.threads && (ls == [] || Kept(Apply(w, ls[0]), ls[1..], tid))
  }

  lemma {:induction false} KeptRequest(w: World, ls: seq<Label>, tid: nat)
    requires CanRun(w, ls) && Kept(w, ls, tid) && w.threads[tid].Request?
    ensures tid in Run(w, ls).threads && SameRequest(w.threads[tid], Run(w, ls).threads[tid])
    decreases |ls|
  {
    hide Apply, Enabled;
    if ls != [] {
      var v := Apply(w, ls[0]);
      assert tid in v.threads;
      StepGoes(w, ls[0], tid);
      hide Follows;
      KeptRequest(v, ls[1..], tid);
    }
  }

  lemma {:induction false} KeptOneMore(w: World, ls: seq<Label>, l: Label, tid: nat)
    requires CanRun(w, ls) && Kept(w, ls, tid) && Enabled(Run(w, ls), l) && tid in Apply(Run(w, ls), l).threads
    ensures CanRun(w, ls + [l]) && Kept(w, ls + [l], tid) && Run(w, ls + [l]) == Apply(Run(w, ls), l)
    decreases |ls|
  {
    hide Apply, Enabled;
    if ls == [] {
      assert ([] + [l])[0] == l && ([] + [l])[1..] == [];
      assert CanRun(Apply(w, l), []) && Kept(Apply(w, l), [], tid);
      assert ls + [l] == [l];
    } else {
      KeptOneMore(Apply(w, ls[0]), ls[1..], l, tid);
      assert (ls + [l])[1..] == ls[1..] + [l] && (ls + [l])[0] == ls[0];
    }
  }

  /** At or past the transaction: the request has been accepted, or is about to be. */
  predicate IsAdmitted(pc: Pc) {
    pc.BeginTx? || pc.Call? || pc.Record? || pc.Transition?
  }

  /** The dependents have not been read yet. */
  predicate IsBeforeEdges(pc: Pc) {
    pc.SweepSelect? || pc.SweepRows? || pc.KeyLookup? || pc.ReadAction? || pc.ReadEdges?
  }

  // ------------------------------------------------------------ the blocking check

  predicate Resolved(db: Tables, d: nat) {
    d < |db.actions| && IsResolved(db.actions[d].status)
  }

  /** Those of these edges that make a reversal of the Action depend on others. */
  predicate AllResolved(edges: seq<Edge>, db: Tables, scope: string, a: nat, pending: seq<nat>) {
    forall e :: e in edges && e.scope == scope && e.parent == a ==> e.dependent in pending || Resolved(db, e.dependent)
  }

  /** What a request that once saw these edges knows of them. */
  ghost predicate Examined(seen: seq<Edge>, db: Tables, t: Thread)
    requires t.Request?
  {
    match t.pc
    case ReadDependents(pending, blocked) => !blocked ==> AllResolved(seen, db, t.scope, t.actionId, pending)
    case BeginTx => AllResolved(seen, db, t.scope, t.actionId, [])
    case Call(_) => AllResolved(seen, db, t.scope, t.actionId, [])
    case Record(_, _) => AllResolved(seen, db, t.scope, t.actionId, [])
    case Transition(_, _, _) => AllResolved(seen, db, t.scope, t.actionId, [])
    case _ => IsBeforeEdges(t.pc) ==> EdgesGrow(seen, db.edges)
  }

  /** Resolved Actions stay resolved. */
  ghost predicate ResolvedStays(db: Tables, next: Tables) {
    forall d: nat :: Resolved(db, d) ==> Resolved(next, d)
  }

  lemma StepResolvedStays(w: World, l: Label)
    requires Inv(w) && Enabled(w, l)
    ensures ResolvedStays(w.db, Apply(w, l).db)
  {
    hide Apply, Enabled, Inv;
    forall d: nat | Resolved(w.db, d) ensures Resolved(Apply(w, l).db, d) {
      FinalStatusStaysOneStep(w, l, d);
    }
  }

  lemma WaitingIsExamined(seen: seq<Edge>, db: Tables, next: Tables, t: Thread)
    requires t.Request? && Examined(seen, db, t) && ResolvedStays(db, next) && EdgesGrow(db.edges, next.edges)
    ensures Examined(seen, next, t)
  {
  }

  lemma DependentsCover(edges: seq<Edge>, seen: seq<Edge>, db: Tables, scope: string, a: nat)
    requires EdgesGrow(seen, edges)
    ensures AllResolved(seen, db, scope, a, Dependents(EdgesOfParent(edges, scope, a)))
  {
    var es := EdgesOfParent(edges, scope, a);
    forall e | e in seen && e.scope == scope && e.parent == a ensures e.dependent in Dependents(es) {
      assert e in es;
      var i :| 0 <= i < |es| && es[i] == e;
      assert Dependents(es)[i] == e.dependent;
    }
  }

  lemma OneLessPending(seen: seq<Edge>, db: Tables, scope: string, a: nat, pending: seq<nat>)
    requires pending != [] && Resolved(db, pending[0]) && AllResolved(seen, db, scope, a, pending)
    ensures AllResolved(seen, db, scope, a, pending[1..])
  {
    assert forall d :: d in pending <==> d == pending[0] || d in pending[1..];
  }

  /** A step of the request itself: what it knows afterwards of the tables before. */
  lemma MovingIsExamined(seen: seq<Edge>, w: World, l: Label, tid: nat, next: Thread)
    requires tid in w.threads && w.threads[tid].Request? && Examined(seen, w.db, w.threads[tid])
    requires Goes(w, l, tid, next) && next.Request?
    ensures Examined(seen, w.db, next)
  {
    var t := w.threads[tid];
    if next != t && next.pc.ReadDependents? {
      if t.pc == ReadEdges {
        DependentsCover(w.db.edges, seen, w.db, t.scope, t.actionId);
      } else if !next.pc.blocked {
        OneLessPending(seen, w.db, t.scope, t.actionId, t.pc.pending);
      }
    }
    hide Dependents, EdgesOfParent, Begin, AllResolved, DueActions;
  }

  lemma StepExamined(seen: seq<Edge>, w: World, l: Label, tid: nat)
    requires Inv(w) && Enabled(w, l) && tid in w.threads && w.threads[tid].Request?
    requires tid in Apply(w, l).threads && Examined(seen, w.db, w.threads[tid])
    ensures Apply(w, l).threads[tid].Request? && Examined(seen, Apply(w, l).db, Apply(w, l).threads[tid])
  {
    hide Apply, Enabled, Inv;
    var v := Apply(w, l);
    StepGoes(w, l, tid);
    StepResolvedStays(w, l);
    StepEdgesGrow(w, l);
    hide Examined, ResolvedStays, EdgesGrow, Follows;
    MovingIsExamined(seen, w, l, tid, v.threads[tid]);
    WaitingIsExamined(seen, w.db, v.db, v.threads[tid]);
  }

  lemma {:induction false} RunExamined(seen: seq<Edge>, w: World, ls: seq<Label>, tid: nat)
    requires Inv(w) && CanRun(w, ls) && Kept(w, ls, tid) && w.threads[tid].Request?
    requires Examined(seen, w.db, w.threads[tid])
    ensures tid in Run(w, ls).threads && Run(w, ls).threads[tid].Request?
    ensures Examined(seen, Run(w, ls).db, Run(w, ls).threads[tid])
    decreases |ls|
  {
    hide Inv, Apply, Enabled;
    if ls != [] {
      var v := Apply(w, ls[0]);
      assert tid in v.threads;
      hide Examined;
      StepKeeps(w, ls[0]);
      StepExamined(seen, w, ls[0], tid);
      RunExamined(seen, v, ls[1..], tid);
    }
  }

  /** In every interleaving: an edge that was recorded before a request read its dependents
      has a resolved dependent whenever that request is admitted. So every dependent is
      resolved at that moment if and only if every one recorded since is: the only unresolved
      dependents a reversal can start over are those recorded after it looked. */
  lemma AdmittedOverResolved(w: World, ls: seq<Label>, tid: nat)
    requires Inv(w) && CanRun(w, ls) && Kept(w, ls, tid)
    requires w.threads[tid].Request? && IsBeforeEdges(w.threads[tid].pc)
    requires tid in Run(w, ls).threads
    requires Run(w, ls).threads[tid].Request? && IsAdmitted(Run(w, ls).threads[tid].pc)
    ensures var v := Run(w, ls);
      var t := w.threads[tid];
      && AllResolved(w.db.edges, v.db, t.scope, t.actionId, [])
      && (AllResolved(v.db.edges, v.db, t.scope, t.actionId, []) <==>
            forall e :: e in v.db.edges && e !in w.db.edges && e.scope == t.scope && e.parent == t.actionId ==>
              Resolved(v.db, e.dependent))
  {
    hide Run, CanRun, Inv, Kept;
    KeptRequest(w, ls, tid);
    RunExamined(w.db.edges, w, ls, tid);
  }

  // ------------------------------------------------------------------ the sweep

  /** Nothing brings the Action back to APPLIED. */
  predicate IsGone(db: Tables, a: nat) {
    a < |db.actions| && db.actions[a].status != Applied && db.actions[a].status != Reversing
  }

  lemma MoveKeepsGone(m: Move, db: Tables, next: Tables, a: nat)
    requires Makes(m, db, next) && IsGone(db, a)
    ensures IsGone(next, a)
  {
    if m.Begun? { BeginShape(db, m.scope, m.action, m.key, m.now); }
    hide Begin;
  }

  lemma GoneStays(w: World, l: Label, a: nat)
    requires Inv(w) && Enabled(w, l) && IsGone(w.db, a)
    ensures IsGone(Apply(w, l).db, a)
  {
    hide *;
    var m := StepMove(w, l);
    MoveKeepsGone(m, w.db, Apply(w, l).db, a);
  }

  /** The request's Action is past reversing, or its sweep's query found it. */
  predicate IsSwept(db: Tables, t: Thread)
    requires t.Request?
  {
    match t.pc
    case SweepRows(due) => t.actionId in due || IsGone(db, t.actionId)
    case KeyLookup => IsGone(db, t.actionId)
    case ReadAction => IsGone(db, t.actionId)
    case Poll(_) => true
    case PollAction(_) => true
    case _ => false
  }

  /** The row the sweep just wrote. */
  lemma RowIsGone(w: World, l: Label, tid: nat)
    requires Enabled(w, l) && l == LStep(tid) && HasPc(w, tid) && w.threads[tid].pc.SweepRows?
    requires w.threads[tid].pc.due != [] && tid in Apply(w, l).threads
    ensures IsGone(Apply(w, l).db, w.threads[tid].pc.due[0])
  {
  }

  lemma NextIsSwept(w: World, l: Label, tid: nat, next: Tables, u: Thread)
    requires tid in w.threads && w.threads[tid].Request? && Goes(w, l, tid, u) && u.Request?
    requires IsSwept(w.db, w.threads[tid])
    requires IsGone(w.db, w.threads[tid].actionId) ==> IsGone(next, w.threads[tid].actionId)
    requires l == LStep(tid) && w.threads[tid].pc.SweepRows? && w.threads[tid].pc.due != [] ==>
      IsGone(next, w.threads[tid].pc.due[0])
    ensures IsSwept(next, u)
  {
    var t := w.threads[tid];
    if t.pc.SweepRows? && t.pc.due != [] {
      assert forall d :: d in t.pc.due <==> d == t.pc.due[0] || d in t.pc.due[1..];
    }
    hide DueActions, Begin, EdgesOfParent, Dependents, IsGone, Admission;
    if IsGone(w.db, t.actionId) && u.pc.ReadEdges? {
      GoneIsRefused(w.db, t.actionId);
      assert false;
    }
  }

  lemma GoneIsRefused(db: Tables, a: nat)
    requires IsGone(db, a)
    ensures a < |db.actions| && Admission(db.actions[a]).Some?
  {
  }

  lemma StepIsSwept(w: World, l: Label, tid: nat)
    requires Inv(w) && Enabled(w, l) && tid in w.threads && w.threads[tid].Request? && tid in Apply(w, l).threads
    requires IsSwept(w.db, w.threads[tid])
    ensures Apply(w, l).threads[tid].Request? && IsSwept(Apply(w, l).db, Apply(w, l).threads[tid])
  {
    var v, t := Apply(w, l), w.threads[tid];
    StepGoes(w, l, tid);
    if IsGone(w.db, t.actionId) { GoneStays(w, l, t.actionId); }
    if l == LStep(tid) && t.pc.SweepRows? && t.pc.due != [] { RowIsGone(w, l, tid); }
    hide Apply, Inv, IsGone, IsSwept, Follows;
    NextIsSwept(w, l, tid, v.db, v.threads[tid]);
  }

  lemma {:induction false} RunIsSwept(w: World, ls: seq<Label>, tid: nat)
    requires Inv(w) && CanRun(w, ls) && Kept(w, ls, tid) && w.threads[tid].Request? && IsSwept(w.db, w.threads[tid])
    ensures tid in Run(w, ls).threads && Run(w, ls).threads[tid].Request?
    ensures IsSwept(Run(w, ls).db, Run(w, ls).threads[tid])
    decreases |ls|
  {
    hide Inv, Apply, Enabled;
    if ls != [] {
      var v := Apply(w, ls[0]);
      assert tid in v.threads;
      hide IsSwept;
      StepKeeps(w, ls[0]);
      StepIsSwept(w, ls[0], tid);
      RunIsSwept(v, ls[1..], tid);
    }
  }

  predicate IsOpenAt(row: ActionRow, now: Instant) {
    row.expiresAt.None? || now < row.expiresAt.value
  }

  lemma SelectionIsSwept(w: World, tid: nat)
    requires HasPc(w, tid) && w.threads[tid].pc == SweepSelect && w.threads[tid].actionId < |w.db.actions|
    requires !IsOpenAt(w.db.actions[w.threads[tid].actionId], w.threads[tid].now)
    requires w.db.actions[w.threads[tid].actionId].status != Reversing
    ensures var v := Apply(w, LStep(tid));
      Enabled(w, LStep(tid)) && tid in v.threads && v.threads[tid].Request? && IsSwept(v.db, v.threads[tid])
  {
    if w.db.actions[w.threads[tid].actionId].status == Applied {
      assert IsDue(w.db.actions[w.threads[tid].actionId], w.threads[tid].now);
    }
  }

  lemma SweptIsRefused(w: World, ls: seq<Label>, tid: nat)
    requires Inv(w) && HasPc(w, tid) && w.threads[tid].pc == SweepSelect && w.threads[tid].actionId < |w.db.actions|
    requires !IsOpenAt(w.db.actions[w.threads[tid].actionId], w.threads[tid].now)
    requires w.db.actions[w.threads[tid].actionId].status != Reversing
    requires Enabled(w, LStep(tid)) && CanRun(Apply(w, LStep(tid)), ls) && Kept(Apply(w, LStep(tid)), ls, tid)
    ensures var v := Run(Apply(w, LStep(tid)), ls);
      tid in v.threads && v.threads[tid].Request? && !IsAdmitted(v.threads[tid].pc)
  {
    hide Apply, Enabled, Run, CanRun, Inv, Kept;
    SelectionIsSwept(w, tid);
    hide IsOpenAt;
    StepKeeps(w, LStep(tid));
    RunIsSwept(Apply(w, LStep(tid)), ls, tid);
  }

  /** In every interleaving: a request that arrives at or after the end of its Action's window
      can be admitted only if the Action was REVERSING when the request's own sweep queried. */
  lemma LateMeansReversing(w: World, ls: seq<Label>, tid: nat)
    requires Inv(w) && HasPc(w, tid) && w.threads[tid].pc == SweepSelect
    requires w.threads[tid].actionId < |w.db.actions|
    requires CanRun(w, [LStep(tid)] + ls) && Kept(w, [LStep(tid)] + ls, tid)
    requires var v := Run(w, [LStep(tid)] + ls);
      tid in v.threads && v.threads[tid].Request? && IsAdmitted(v.threads[tid].pc)
    ensures var row := w.db.actions[w.threads[tid].actionId];
      IsOpenAt(row, w.threads[tid].now) || row.status == Reversing
  {
    hide Inv, Apply, Enabled;
    var row := w.db.actions[w.threads[tid].actionId];
    var all := [LStep(tid)] + ls;
    assert all[0] == LStep(tid) && all[1..] == ls;
    assert Run(w, all) == Run(Apply(w, LStep(tid)), ls);
    hide IsOpenAt, IsAdmitted;
    if !IsOpenAt(row, w.threads[tid].now) && row.status != Reversing {
      SweptIsRefused(w, ls, tid);
      assert false;
    }
  }
}
