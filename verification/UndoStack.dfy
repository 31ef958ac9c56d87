/** The demo provider as an undo stack. Version numbers go down again when an update is
    undone, so they are used more than once; that the compare-and-swap on the version alone
    still undoes only the newest update is a theorem about the whole protocol. */
module UndoStack {
  import opened Domain
  import opened Timestamp
  import opened Records
  import opened Protocol
  import opened Invariant
  import opened Moves
  import opened Steps
  import opened Dependency
  import opened ResourceApi

  // -------------------------------------------------------------- live updates

  /** The Actions whose reverse statement really took effect. */
  function Undone(w: World): set<nat> {
    set k | 0 <= k < |w.trail| && k < |w.db.attempts| && w.trail[k].effect :: w.db.attempts[k].actionId
  }

  predicate IsLiveUpdate(actions: seq<ActionRow>, undone: set<nat>, id: nat, a: nat) {
    a < |actions| && actions[a].op == UpdateOp && actions[a].resourceId == id && a !in undone
  }

  /** The updates of a resource whose restore has not taken effect, oldest first. */
  function Live(actions: seq<ActionRow>, undone: set<nat>, id: nat): seq<nat> {
    if actions == [] then []
    else
      var a := |actions| - 1;
      Live(actions[..a], undone, id) + if IsLiveUpdate(actions, undone, id, a) then [a] else []
  }

  lemma {:induction false} LiveMember(actions: seq<ActionRow>, undone: set<nat>, id: nat, a: nat)
    ensures a in Live(actions, undone, id) <==> IsLiveUpdate(actions, undone, id, a)
  {
    if actions != [] {
      var n := |actions| - 1;
      LiveMember(actions[..n], undone, id, a);
      assert a < n ==> actions[..n][a] == actions[a];
    }
  }

  lemma {:induction false} LiveIsSorted(actions: seq<ActionRow>, undone: set<nat>, id: nat)
    ensures forall i, j :: 0 <= i < j < |Live(actions, undone, id)| ==>
      Live(actions, undone, id)[i] < Live(actions, undone, id)[j]
    ensures forall i :: 0 <= i < |Live(actions, undone, id)| ==> Live(actions, undone, id)[i] < |actions|
  {
    if actions == [] {
      assert Live(actions, undone, id) == [];
    } else {
      var n := |actions| - 1;
      LiveIsSorted(actions[..n], undone, id);
      var before := Live(actions[..n], undone, id);
      var l := Live(actions, undone, id);
      assert l == before + if IsLiveUpdate(actions, undone, id, n) then [n] else [];
      forall i | 0 <= i < |l| ensures l[i] < |actions| {
        if i < |before| { assert before[i] < n; }
      }
      forall i, j | 0 <= i < j < |l| ensures l[i] < l[j] {
        if j < |before| { assert before[i] < before[j]; } else { assert before[i] < n; }
      }
    }
  }

  lemma LiveMembers(actions: seq<ActionRow>, undone: set<nat>, id: nat)
    ensures var l := Live(actions, undone, id);
      && (forall a: nat :: a in l <==> IsLiveUpdate(actions, undone, id, a))
      && (forall i, j :: 0 <= i < j < |l| ==> l[i] < l[j])
  {
    LiveIsSorted(actions, undone, id);
    forall a: nat ensures a in Live(actions, undone, id) <==> IsLiveUpdate(actions, undone, id, a) {
      LiveMember(actions, undone, id, a);
    }
  }

  lemma {:induction false} LiveSame(actions: seq<ActionRow>, next: seq<ActionRow>,
      undone: set<nat>, more: set<nat>, id: nat)
    requires |next| == |actions|
    requires forall a :: 0 <= a < |actions| ==>
      next[a].op == actions[a].op && next[a].resourceId == actions[a].resourceId
    requires forall a: nat :: IsLiveUpdate(actions, undone, id, a) ==> a !in more
    requires undone <= more
    ensures Live(next, more, id) == Live(actions, undone, id)
  {
    if actions != [] {
      var n := |actions| - 1;
      forall a: nat | IsLiveUpdate(actions[..n], undone, id, a) ensures a !in more {
        assert IsLiveUpdate(actions, undone, id, a);
      }
      LiveSame(actions[..n], next[..n], undone, more, id);
      assert IsLiveUpdate(next, more, id, n) <==> IsLiveUpdate(actions, undone, id, n);
    }
  }

  /** Undoing the newest live update removes exactly it. */
  lemma {:induction false} LivePop(actions: seq<ActionRow>, undone: set<nat>, id: nat, top: nat)
    requires var l := Live(actions, undone, id); l != [] && l[|l| - 1] == top
    ensures var l := Live(actions, undone, id); Live(actions, undone + {top}, id) == l[..|l| - 1]
  {
    var n := |actions| - 1;
    var l := Live(actions, undone, id);
    var before := Live(actions[..n], undone, id);
    if IsLiveUpdate(actions, undone, id, n) {
      assert l == before + [n];
      LiveMembers(actions[..n], undone, id);
      LiveSame(actions[..n], actions[..n], undone, undone + {n}, id);
      assert !IsLiveUpdate(actions, undone + {n}, id, n);
    } else {
      assert l == before;
      LivePop(actions[..n], undone, id, top);
      assert !IsLiveUpdate(actions, undone + {top}, id, n);
    }
  }

  lemma LivePush(actions: seq<ActionRow>, undone: set<nat>, id: nat, row: ActionRow)
    requires |actions| !in undone
    ensures Live(actions + [row], undone, id)
      == Live(actions, undone, id) + if row.op == UpdateOp && row.resourceId == id then [|actions|] else []
  {
  }

  // -------------------------------------------------------------- the invariant

  /** What the i-th live update replaced: the created value, or what the one below wrote. */
  function Below(wrote: seq<string>, created: nat, live: seq<nat>, i: nat): string {
    if i == 0 then (if created < |wrote| then wrote[created] else "")
    else if i <= |live| && live[i - 1] < |wrote| then wrote[live[i - 1]]
    else ""
  }

  ghost predicate StackAt(actions: seq<ActionRow>, wrote: seq<string>, created: nat, live: seq<nat>, i: nat)
    requires i < |live|
  {
    && live[i] < |actions|
    && actions[live[i]].material == UpdateMaterial(Below(wrote, created, live, i), i + 1, i + 2)
  }

  /** Expected versions 2, 3, 4, ...; each captured value is what the one below produced. */
  ghost predicate IsStack(actions: seq<ActionRow>, wrote: seq<string>, created: nat, live: seq<nat>) {
    forall i: nat :: i < |live| ==> StackAt(actions, wrote, created, live, i)
  }

  ghost predicate StackOk(actions: seq<ActionRow>, wrote: seq<string>, undone: set<nat>, id: nat, row: ResourceRow) {
    var c := row.createdFrom;
    var live := Live(actions, undone, id);
    && c < |actions| && actions[c].op == CreateOp && actions[c].resourceId == id
    && actions[c].scope == row.scope && c !in undone
    && IsStack(actions, wrote, c, live)
    && (!row.published ==> row.version == |live| + 1 && row.value == Below(wrote, c, live, |live|))
  }

  /** What a demo reverse call says about its effect. */
  predicate DemoTrailOk(op: Op, t: Trail) {
    IsDemo(op) && t.returned.Some? ==>
      match t.returned.value
      case Failure(c, _) => c.None?
      case Output(outcome, _) =>
        && (t.effect <==> outcome == SuccessOutcome(op))
        && (outcome == SuccessOutcome(op) || outcome == OutConflict || outcome == OutReverseFailed)
  }

  /** An Action and the row it is about belong together. */
  predicate ActionFits(db: Tables, a: nat)
    requires a < |db.actions|
  {
    var row := db.actions[a];
    match row.op
    case CreateOp => row.resourceId in db.resources ==>
      db.resources[row.resourceId].createdFrom == a && db.resources[row.resourceId].scope == row.scope
    case UpdateOp =>
      && row.material.UpdateMaterial? && row.material.expectedVersion == row.material.previousVersion + 1
      && (row.resourceId in db.resources ==> db.resources[row.resourceId].scope == row.scope)
    case NotifyOp =>
      && row.material.NotifyMaterial? && row.material.notificationId == row.resourceId
      && row.resourceId in db.notifications
      && db.notifications[row.resourceId].createdFrom == a && db.notifications[row.resourceId].scope == row.scope
    case _ => true
  }

  ghost predicate DemoInv(w: World) {
    && |w.wrote| == |w.db.actions|
    && (forall id :: id in w.db.resources ==>
          StackOk(w.db.actions, w.wrote, Undone(w), id, w.db.resources[id]))
    && (forall k: nat :: k < |w.db.attempts| && k < |w.trail| && w.db.attempts[k].actionId < |w.db.actions| ==>
          DemoTrailOk(w.db.actions[w.db.attempts[k].actionId].op, w.trail[k]))
    && (forall a: nat :: a < |w.db.actions| ==> ActionFits(w.db, a))
  }

  // ------------------------------------------------- steps that touch no resource

  /** Effects and returns are as before; new attempts have neither. */
  ghost predicate TrailKeeps(t: seq<Trail>, u: seq<Trail>) {
    && |t| <= |u|
    && (forall k :: 0 <= k < |t| ==> u[k].effect == t[k].effect && u[k].returned == t[k].returned)
    && (forall k :: |t| <= k < |u| ==> !u[k].effect && u[k].returned.None?)
  }

  lemma UndoneKeeps(w: World, v: World)
    requires Inv(w) && Inv(v) && Grows(w.db, v.db) && TrailKeeps(w.trail, v.trail)
    ensures Undone(v) == Undone(w)
  {
  }

  lemma UndoneAreActions(w: World)
    requires Inv(w)
    ensures forall a :: a in Undone(w) ==> a < |w.db.actions|
  {
    forall a | a in Undone(w) ensures a < |w.db.actions| {
      var k :| 0 <= k < |w.trail| && k < |w.db.attempts| && w.trail[k].effect && w.db.attempts[k].actionId == a;
      assert AttemptOk(w.db, w.trail, k);
    }
  }

  /** A stack does not depend on statuses. */
  lemma StackKeeps(actions: seq<ActionRow>, next: seq<ActionRow>, wrote: seq<string>, undone: set<nat>, more: set<nat>,
      id: nat, row: ResourceRow)
    requires StackOk(actions, wrote, undone, id, row) && |wrote| == |actions| == |next|
    requires forall a :: 0 <= a < |actions| ==> next[a] == actions[a].(status := next[a].status)
    requires undone <= more && row.createdFrom !in more
    requires forall a: nat :: IsLiveUpdate(actions, undone, id, a) ==> a !in more
    ensures StackOk(next, wrote, more, id, row)
  {
    LiveSame(actions, next, undone, more, id);
    var live := Live(actions, undone, id);
    forall i: nat | i < |live| ensures StackAt(next, wrote, row.createdFrom, live, i) {
      assert StackAt(actions, wrote, row.createdFrom, live, i);
    }
  }

  lemma DemoTrailsKeep(w: World, v: World)
    requires Inv(w) && Inv(v) && DemoInv(w) && Grows(w.db, v.db) && TrailKeeps(w.trail, v.trail)
    ensures forall k: nat :: k < |v.db.attempts| && k < |v.trail| && v.db.attempts[k].actionId < |v.db.actions| ==>
      DemoTrailOk(v.db.actions[v.db.attempts[k].actionId].op, v.trail[k])
  {
    forall k: nat | k < |v.db.attempts| && k < |v.trail| && v.db.attempts[k].actionId < |v.db.actions|
      ensures DemoTrailOk(v.db.actions[v.db.attempts[k].actionId].op, v.trail[k])
    {
      if k < |w.db.attempts| {
        assert AttemptOk(w.db, w.trail, k);
        assert v.db.attempts[..|w.db.attempts|][k] == v.db.attempts[k];
        assert DemoTrailOk(w.db.actions[w.db.attempts[k].actionId].op, w.trail[k]);
      }
    }
  }

  lemma UntouchedStepKeeps(w: World, v: World)
    requires Inv(w) && Inv(v) && DemoInv(w) && Grows(w.db, v.db) && TrailKeeps(w.trail, v.trail)
    requires v.wrote == w.wrote && v.db.resources == w.db.resources && v.db.notifications == w.db.notifications
    ensures DemoInv(v)
  {
    UndoneKeeps(w, v);
    DemoTrailsKeep(w, v);
    forall id | id in v.db.resources
      ensures StackOk(v.db.actions, v.wrote, Undone(v), id, v.db.resources[id])
    {
      StackKeeps(w.db.actions, v.db.actions, w.wrote, Undone(w), Undone(v), id, w.db.resources[id]);
    }
    forall a: nat | a < |v.db.actions| ensures ActionFits(v.db, a) {
      assert ActionFits(w.db, a);
    }
  }

  // ---------------------------------------------------------- business operations

  lemma {:induction false} NothingLive(actions: seq<ActionRow>, undone: set<nat>, id: nat)
    requires forall a :: 0 <= a < |actions| ==> actions[a].resourceId != id
    ensures Live(actions, undone, id) == []
  {
    if actions != [] {
      NothingLive(actions[..|actions| - 1], undone, id);
    }
  }

  /** A fresh resource is its created value with nothing stacked on it. */
  lemma FreshStack(actions: seq<ActionRow>, wrote: seq<string>, undone: set<nat>, id: nat,
      row: ActionRow, value: string,
      scope: string)
    requires forall a :: 0 <= a < |actions| ==> actions[a].resourceId != id
    requires forall a :: a in undone ==> a < |actions|
    requires |wrote| == |actions| && row.op == CreateOp && row.resourceId == id && row.scope == scope
    ensures StackOk(actions + [row], wrote + [value], undone, id, ResourceRow(scope, 1, value, false, |actions|))
  {
    LivePush(actions, undone, id, row);
    NothingLive(actions, undone, id);
    assert Live(actions + [row], undone, id) == [];
    hide Live;
  }

  lemma CreateKeeps(w: World, v: World, scope: string, id: nat, value: string, now: Instant, exp: Option<Instant>)
    requires Inv(w) && DemoInv(w) && IsFresh(w.db, id)
    requires v == w.(db := Create(w.db, scope, id, value, now, exp), wrote := w.wrote + [value])
    ensures DemoInv(v)
  {
    UndoneAreActions(w);
    var row := CreateRow(scope, id, now, exp);
    assert Undone(v) == Undone(w);
    FreshStack(w.db.actions, w.wrote, Undone(w), id, row, value, scope);
    hide Undone, StackOk, Inv, Live;
    forall i | i in v.db.resources
      ensures StackOk(v.db.actions, v.wrote, Undone(v), i, v.db.resources[i])
    {
      if i != id { PushOther(w, v, row, value, i); }
    }
    BusinessFits(w, v, row);
  }

  /** A new Action leaves every other resource's stack alone. */
  lemma PushOther(w: World, v: World, row: ActionRow, value: string, i: nat)
    requires Inv(w) && i in w.db.resources && |w.wrote| == |w.db.actions|
    requires StackOk(w.db.actions, w.wrote, Undone(w), i, w.db.resources[i])
    requires v.db.actions == w.db.actions + [row] && v.wrote == w.wrote + [value]
    requires v.trail == w.trail && v.db.attempts == w.db.attempts
    requires row.op != UpdateOp || row.resourceId != i
    ensures StackOk(v.db.actions, v.wrote, Undone(v), i, w.db.resources[i])
    ensures Live(v.db.actions, Undone(v), i) == Live(w.db.actions, Undone(w), i)
    ensures Undone(v) == Undone(w)
  {
    UndoneAreActions(w);
    LivePush(w.db.actions, Undone(w), i, row);
    assert Undone(v) == Undone(w);
    assert Live(v.db.actions, Undone(v), i) == Live(w.db.actions, Undone(w), i);
    LiveIsSorted(w.db.actions, Undone(w), i);
    StackGrows(w.db.actions, w.wrote, w.db.resources[i].createdFrom, Live(w.db.actions, Undone(w), i), row, value);
  }

  lemma StackGrows(actions: seq<ActionRow>, wrote: seq<string>, c: nat, live: seq<nat>, row: ActionRow, value: string)
    requires IsStack(actions, wrote, c, live) && |wrote| == |actions| && c < |actions|
    requires forall i :: 0 <= i < |live| ==> live[i] < |actions|
    ensures IsStack(actions + [row], wrote + [value], c, live)
    ensures Below(wrote + [value], c, live, |live|) == Below(wrote, c, live, |live|)
  {
    forall i: nat | i < |live| ensures StackAt(actions + [row], wrote + [value], c, live, i) {
      assert StackAt(actions, wrote, c, live, i);
    }
  }

  lemma BusinessFits(w: World, v: World, row: ActionRow)
    requires Inv(w) && DemoInv(w)
    requires v.db.actions == w.db.actions + [row] && |v.wrote| == |w.wrote| + 1
    requires v.trail == w.trail && v.db.attempts == w.db.attempts
    requires ActionFits(v.db, |w.db.actions|)
    requires forall i :: i in v.db.resources && i in w.db.resources ==>
      && v.db.resources[i].createdFrom == w.db.resources[i].createdFrom
      && v.db.resources[i].scope == w.db.resources[i].scope
    requires forall i :: i in v.db.resources && i !in w.db.resources ==>
      forall a :: 0 <= a < |w.db.actions| ==> w.db.actions[a].resourceId != i
    requires forall i :: i in w.db.notifications ==>
      i in v.db.notifications && v.db.notifications[i] == w.db.notifications[i]
    requires forall i :: i in v.db.resources ==> StackOk(v.db.actions, v.wrote, Undone(v), i, v.db.resources[i])
    ensures DemoInv(v)
  {
    forall a: nat | a < |v.db.actions| ensures ActionFits(v.db, a) {
      if a < |w.db.actions| { assert ActionFits(w.db, a); }
    }
    forall k: nat | k < |v.db.attempts| && k < |v.trail| && v.db.attempts[k].actionId < |v.db.actions|
      ensures DemoTrailOk(v.db.actions[v.db.attempts[k].actionId].op, v.trail[k])
    {
      assert AttemptOk(w.db, w.trail, k);
      assert DemoTrailOk(w.db.actions[w.db.attempts[k].actionId].op, w.trail[k]);
    }
  }

  /** Update pushes: the new Action expects one version more and captured the old top. */
  lemma PushUpdate(actions: seq<ActionRow>, wrote: seq<string>, undone: set<nat>, id: nat, prior: ResourceRow,
      row: ActionRow, value: string)
    requires StackOk(actions, wrote, undone, id, prior) && !prior.published
    requires |wrote| == |actions| && |actions| !in undone
    requires row.op == UpdateOp && row.resourceId == id
    requires row.material == UpdateMaterial(prior.value, prior.version, prior.version + 1)
    ensures StackOk(actions + [row], wrote + [value], undone, id, prior.(value := value, version := prior.version + 1))
    ensures Live(actions + [row], undone, id) == Live(actions, undone, id) + [|actions|]
  {
    var live := Live(actions, undone, id);
    LivePush(actions, undone, id, row);
    LiveIsSorted(actions, undone, id);
    PushIsStack(actions, wrote, prior.createdFrom, live, row, value);
  }

  lemma PushIsStack(actions: seq<ActionRow>, wrote: seq<string>, c: nat, live: seq<nat>, row: ActionRow, value: string)
    requires IsStack(actions, wrote, c, live) && |wrote| == |actions| && c < |actions|
    requires forall i :: 0 <= i < |live| ==> live[i] < |actions|
    requires row.material == UpdateMaterial(Below(wrote, c, live, |live|), |live| + 1, |live| + 2)
    ensures IsStack(actions + [row], wrote + [value], c, live + [|actions|])
    ensures Below(wrote + [value], c, live + [|actions|], |live| + 1) == value
  {
    var n := |actions|;
    forall i: nat | i < |live| + 1 ensures StackAt(actions + [row], wrote + [value], c, live + [n], i) {
      BelowStays(wrote, value, c, live, n, i);
      if i < |live| { assert StackAt(actions, wrote, c, live, i); }
    }
  }

  lemma BelowStays(wrote: seq<string>, value: string, c: nat, live: seq<nat>, n: nat, i: nat)
    requires n == |wrote| && c < n && i <= |live| && forall j :: 0 <= j < |live| ==> live[j] < n
    ensures Below(wrote + [value], c, live + [n], i) == Below(wrote, c, live, i)
  {
  }

  lemma UpdateKeeps(w: World, v: World, scope: string, id: nat, value: string, now: Instant, exp: Option<Instant>)
    requires Inv(w) && DemoInv(w) && CanUpdate(w.db, scope, id)
    requires v == w.(db := Update(w.db, scope, id, value, now, exp), wrote := w.wrote + [value])
    ensures DemoInv(v)
  {
    UndoneAreActions(w);
    var row := UpdateRow(scope, id, w.db.resources[id], now, exp);
    assert Undone(v) == Undone(w);
    hide Undone, StackOk, AddEdge;
    forall i | i in v.db.resources
      ensures StackOk(v.db.actions, v.wrote, Undone(v), i, v.db.resources[i])
    {
      if i == id {
        PushUpdate(w.db.actions, w.wrote, Undone(w), id, w.db.resources[id], row, value);
      } else {
        PushOther(w, v, row, value, i);
      }
    }
    BusinessFits(w, v, row);
  }

  lemma OtherBusinessKeeps(w: World, v: World, row: ActionRow)
    requires Inv(w) && DemoInv(w) && row.op != UpdateOp
    requires v.db.actions == w.db.actions + [row] && v.wrote == w.wrote + [""]
    requires v.trail == w.trail && v.db.attempts == w.db.attempts
    requires ActionFits(v.db, |w.db.actions|)
    requires v.db.resources.Keys == w.db.resources.Keys
    requires forall i :: i in w.db.resources ==>
      v.db.resources[i] == w.db.resources[i] ||
      (v.db.resources[i].published && v.db.resources[i].createdFrom == w.db.resources[i].createdFrom
        && v.db.resources[i].scope == w.db.resources[i].scope)
    requires forall i :: i in w.db.notifications ==>
      i in v.db.notifications && v.db.notifications[i] == w.db.notifications[i]
    ensures DemoInv(v)
  {
    forall i | i in v.db.resources
      ensures StackOk(v.db.actions, v.wrote, Undone(v), i, v.db.resources[i])
    {
      assert i in w.db.resources;
      PushOther(w, v, row, "", i);
    }
    BusinessFits(w, v, row);
  }

  // -------------------------------------------------------------- a reverse call

  /** No earlier attempt of the calling thread's Action took effect: this is where the
      absence of ABA comes from. */
  lemma CallerIsNotUndone(w: World, tid: nat, k: nat)
    requires Inv(w) && DemoInv(w) && HasPc(w, tid) && w.threads[tid].pc == Call(k)
    requires w.threads[tid].actionId < |w.db.actions| && IsDemo(w.db.actions[w.threads[tid].actionId].op)
    ensures w.threads[tid].actionId !in Undone(w)
  {
    var a := w.threads[tid].actionId;
    assert ThreadOk(w.db, w.trail, tid, w.threads[tid]);
    if a in Undone(w) {
      var j :| 0 <= j < |w.trail| && j < |w.db.attempts| && w.trail[j].effect && w.db.attempts[j].actionId == a;
      EffectIsNewest(w, j, k);
      assert false;
    }
  }

  lemma EffectIsNewest(w: World, j: nat, k: nat)
    requires Inv(w) && DemoInv(w) && j < |w.db.attempts| && j < |w.trail| && w.trail[j].effect
    requires w.db.attempts[j].actionId < |w.db.actions| && IsDemo(w.db.actions[w.db.attempts[j].actionId].op)
    requires k < |w.db.attempts| && Newest(w.db.attempts, k) && w.db.attempts[k].actionId == w.db.attempts[j].actionId
    ensures j == k && w.trail[j].calls == 1
  {
    DemoEffectIsNotBenign(w, j);
    NotBenignIsNewest(w.db, w.trail, j);
  }

  lemma DemoEffectIsNotBenign(w: World, j: nat)
    requires Inv(w) && DemoInv(w) && j < |w.db.attempts| && j < |w.trail| && w.trail[j].effect
    requires w.db.attempts[j].actionId < |w.db.actions| && IsDemo(w.db.actions[w.db.attempts[j].actionId].op)
    ensures !Benign(w.db.attempts[j]) && w.trail[j].calls == 1
  {
    assert AttemptOk(w.db, w.trail, j);
    assert DemoTrailOk(w.db.actions[w.db.attempts[j].actionId].op, w.trail[j]);
  }

  lemma UndoneAfterCall(w: World, v: World, tid: nat, k: nat, ret: ProviderReturn, effect: bool)
    requires Inv(w) && HasPc(w, tid) && w.threads[tid].pc == Call(k)
    requires k < |w.trail| && w.threads[tid].actionId < |w.db.actions|
    requires ProviderMay(w, w.threads[tid].actionId, ret, effect)
    requires v == CallProvider(w, tid, k, ret, effect)
    ensures Undone(v) == Undone(w) + if effect then {w.threads[tid].actionId} else {}
  {
  }

  /** The compare-and-swap holds for an update that is not undone only when it is on top. */
  lemma OnlyTheTopMatches(actions: seq<ActionRow>, wrote: seq<string>, undone: set<nat>, id: nat,
      row: ResourceRow, a: nat)
    requires StackOk(actions, wrote, undone, id, row) && !row.published
    requires IsLiveUpdate(actions, undone, id, a)
    ensures var live := Live(actions, undone, id);
      && actions[a].material.UpdateMaterial? && live != []
      && (actions[a].material.expectedVersion == row.version <==> a == live[|live| - 1])
  {
    LiveMembers(actions, undone, id);
    var live := Live(actions, undone, id);
    assert a in live;
    var i: nat :| i < |live| && live[i] == a;
    assert StackAt(actions, wrote, row.createdFrom, live, i);
  }

  lemma PopFacts(actions: seq<ActionRow>, wrote: seq<string>, undone: set<nat>, id: nat, row: ResourceRow, a: nat)
    requires StackOk(actions, wrote, undone, id, row) && !row.published
    requires IsLiveUpdate(actions, undone, id, a) && actions[a].material.UpdateMaterial?
    requires actions[a].material.expectedVersion == row.version
    ensures var rest := Live(actions, undone + {a}, id);
      && IsStack(actions, wrote, row.createdFrom, rest)
      && actions[a].material == UpdateMaterial(Below(wrote, row.createdFrom, rest, |rest|), |rest| + 1, |rest| + 2)
  {
    OnlyTheTopMatches(actions, wrote, undone, id, row, a);
    var live := Live(actions, undone, id);
    var top := |live| - 1;
    assert StackAt(actions, wrote, row.createdFrom, live, top);
    LivePop(actions, undone, id, a);
    PopIsStack(actions, wrote, row.createdFrom, live);
    assert Below(wrote, row.createdFrom, live[..top], top) == Below(wrote, row.createdFrom, live, top);
  }

  lemma PopKeepsStack(actions: seq<ActionRow>, wrote: seq<string>, undone: set<nat>, id: nat, row: ResourceRow, a: nat)
    requires StackOk(actions, wrote, undone, id, row) && !row.published && row.createdFrom != a
    requires IsLiveUpdate(actions, undone, id, a) && actions[a].material.UpdateMaterial?
    requires actions[a].material.expectedVersion == row.version
    ensures StackOk(actions, wrote, undone + {a}, id,
      row.(value := actions[a].material.previousValue, version := actions[a].material.previousVersion))
  {
    PopFacts(actions, wrote, undone, id, row, a);
    hide Live, IsLiveUpdate, Below, IsStack;
  }

  lemma PopIsStack(actions: seq<ActionRow>, wrote: seq<string>, c: nat, live: seq<nat>)
    requires IsStack(actions, wrote, c, live) && live != []
    ensures IsStack(actions, wrote, c, live[..|live| - 1])
  {
    var rest := live[..|live| - 1];
    forall i: nat | i < |rest| ensures StackAt(actions, wrote, c, rest, i) {
      assert StackAt(actions, wrote, c, live, i);
      assert Below(wrote, c, rest, i) == Below(wrote, c, live, i);
    }
  }

  /** The statement of a reverse call keeps every stack. */
  lemma EffectKeepsStack(db: Tables, wrote: seq<string>, undone: set<nat>, a: nat, id: nat)
    requires |wrote| == |db.actions| && a < |db.actions| && CanReverse(db, a) && a !in undone && ActionFits(db, a)
    requires id in ReverseEffect(db, a).resources && id in db.resources
    requires StackOk(db.actions, wrote, undone, id, db.resources[id])
    ensures StackOk(db.actions, wrote, undone + {a}, id, ReverseEffect(db, a).resources[id])
  {
    if db.actions[a].op == UpdateOp && db.actions[a].resourceId == id {
      PopKeepsStack(db.actions, wrote, undone, id, db.resources[id], a);
    } else {
      StackKeeps(db.actions, db.actions, wrote, undone, undone + {a}, id, db.resources[id]);
    }
  }

  lemma CallKeepsStacks(w: World, v: World, tid: nat, k: nat, ret: ProviderReturn, effect: bool, id: nat)
    requires Inv(w) && DemoInv(w) && HasPc(w, tid) && w.threads[tid].pc == Call(k)
    requires k < |w.trail| && w.threads[tid].actionId < |w.db.actions|
    requires ProviderMay(w, w.threads[tid].actionId, ret, effect)
    requires v == CallProvider(w, tid, k, ret, effect)
    requires id in v.db.resources
    ensures StackOk(v.db.actions, v.wrote, Undone(v), id, v.db.resources[id])
  {
    hide CallProvider, Inv;
    var a := w.threads[tid].actionId;
    UndoneAfterCall(w, v, tid, k, ret, effect);
    CallShape(w, v, tid, k, ret, effect);
    assert id in w.db.resources && StackOk(w.db.actions, w.wrote, Undone(w), id, w.db.resources[id]);
    assert ActionFits(w.db, a);
    if !effect {
      assert Undone(v) == Undone(w);
    } else if IsDemo(w.db.actions[a].op) {
      CallerIsNotUndone(w, tid, k);
      assert |w.wrote| == |w.db.actions|;
      hide *;
      EffectKeepsStack(w.db, w.wrote, Undone(w), a, id);
      EffectKeepsActions(w.db, a);
    } else {
      assert |w.wrote| == |w.db.actions|;
      hide *;
      ExternalKeepsStack(w, a, id);
    }
  }

  lemma EffectKeepsActions(db: Tables, a: nat)
    requires a < |db.actions| && CanReverse(db, a)
    ensures ReverseEffect(db, a).actions == db.actions
  {
  }

  lemma CallShape(w: World, v: World, tid: nat, k: nat, ret: ProviderReturn, effect: bool)
    requires HasPc(w, tid) && w.threads[tid].pc == Call(k)
    requires k < |w.trail| && w.threads[tid].actionId < |w.db.actions|
    requires ProviderMay(w, w.threads[tid].actionId, ret, effect)
    requires v == CallProvider(w, tid, k, ret, effect)
    ensures var a := w.threads[tid].actionId;
      && v.wrote == w.wrote
      && if effect && IsDemo(w.db.actions[a].op)
         then CanReverse(w.db, a) && v.db == ReverseEffect(w.db, a) else v.db == w.db
  {
  }

  lemma ExternalKeepsStack(w: World, a: nat, id: nat)
    requires |w.wrote| == |w.db.actions| && a < |w.db.actions| && !IsDemo(w.db.actions[a].op)
    requires id in w.db.resources && StackOk(w.db.actions, w.wrote, Undone(w), id, w.db.resources[id])
    ensures StackOk(w.db.actions, w.wrote, Undone(w) + {a}, id, w.db.resources[id])
  {
    StackKeeps(w.db.actions, w.db.actions, w.wrote, Undone(w), Undone(w) + {a}, id, w.db.resources[id]);
  }

  lemma EffectKeepsFits(db: Tables, a: nat, b: nat)
    requires a < |db.actions| && b < |db.actions| && CanReverse(db, a) && ActionFits(db, b)
    ensures ActionFits(ReverseEffect(db, a), b)
  {
  }

  lemma CallKeepsFits(w: World, v: World, tid: nat, k: nat, ret: ProviderReturn, effect: bool)
    requires Inv(w) && DemoInv(w) && HasPc(w, tid) && w.threads[tid].pc == Call(k)
    requires k < |w.trail| && w.threads[tid].actionId < |w.db.actions|
    requires ProviderMay(w, w.threads[tid].actionId, ret, effect)
    requires v == CallProvider(w, tid, k, ret, effect)
    ensures forall a: nat :: a < |v.db.actions| ==> ActionFits(v.db, a)
  {
    forall b: nat | b < |v.db.actions| ensures ActionFits(v.db, b) {
      assert ActionFits(w.db, b);
      var a := w.threads[tid].actionId;
      if effect && IsDemo(w.db.actions[a].op) { EffectKeepsFits(w.db, a, b); }
    }
  }

  lemma CallKeepsTrails(w: World, v: World, tid: nat, k: nat, ret: ProviderReturn, effect: bool)
    requires Inv(w) && DemoInv(w) && HasPc(w, tid) && w.threads[tid].pc == Call(k)
    requires k < |w.trail| && w.threads[tid].actionId < |w.db.actions|
    requires ProviderMay(w, w.threads[tid].actionId, ret, effect)
    requires v == CallProvider(w, tid, k, ret, effect)
    ensures forall j: nat :: j < |v.db.attempts| && j < |v.trail| && v.db.attempts[j].actionId < |v.db.actions| ==>
      DemoTrailOk(v.db.actions[v.db.attempts[j].actionId].op, v.trail[j])
  {
    assert ThreadOk(w.db, w.trail, tid, w.threads[tid]);
    assert TrailOk(w.trail[k]) by { assert AttemptOk(w.db, w.trail, k); }
    var op := w.db.actions[w.threads[tid].actionId].op;
    assert DemoTrailOk(op, v.trail[k]);
    forall j: nat | j < |v.db.attempts| && j < |v.trail| && v.db.attempts[j].actionId < |v.db.actions|
      ensures DemoTrailOk(v.db.actions[v.db.attempts[j].actionId].op, v.trail[j])
    {
      if j != k {
        assert DemoTrailOk(w.db.actions[w.db.attempts[j].actionId].op, w.trail[j]);
      }
    }
  }

  lemma CallKeepsDemo(w: World, tid: nat, k: nat, ret: ProviderReturn, effect: bool)
    requires Inv(w) && DemoInv(w) && HasPc(w, tid) && w.threads[tid].pc == Call(k)
    requires k < |w.trail| && w.threads[tid].actionId < |w.db.actions|
    requires ProviderMay(w, w.threads[tid].actionId, ret, effect)
    ensures DemoInv(CallProvider(w, tid, k, ret, effect))
  {
    var v := CallProvider(w, tid, k, ret, effect);
    forall id | id in v.db.resources ensures StackOk(v.db.actions, v.wrote, Undone(v), id, v.db.resources[id]) {
      CallKeepsStacks(w, v, tid, k, ret, effect, id);
    }
    CallKeepsFits(w, v, tid, k, ret, effect);
    CallKeepsTrails(w, v, tid, k, ret, effect);
  }

  // ---------------------------------------------------------- every step keeps it

  predicate TouchesResources(l: Label) {
    l.LCreate? || l.LUpdate? || l.LPublish? || l.LNotify? || l.LExternal? || l.LCall?
  }

  lemma RecordsLeaveResources(w: World, l: Label)
    requires Enabled(w, l) && (l.LRecord? || l.LRecConclude?)
    ensures var v := Apply(w, l);
      && v.wrote == w.wrote && v.db.resources == w.db.resources && v.db.notifications == w.db.notifications
      && |v.db.actions| == |w.db.actions| && TrailKeeps(w.trail, v.trail) && v.db.edges == w.db.edges
  {
    hide Apply, Enabled;
    if l.LRecord? {
      assert l == LRecord(l.tid, l.at);
      RecordStepMoves(w, l.tid, l.at);
    } else {
      assert l == LRecConclude(l.tid, l.at);
      RecConcludeMoves(w, l.tid, l.at);
    }
    hide Records.Settle;
  }

  lemma StepLeavesResources(w: World, l: Label)
    requires Enabled(w, l) && !TouchesResources(l)
    ensures var v := Apply(w, l);
      && v.wrote == w.wrote && v.db.resources == w.db.resources && v.db.notifications == w.db.notifications
      && |v.db.actions| == |w.db.actions| && TrailKeeps(w.trail, v.trail)
      && (l.LAddEdge? || v.db.edges == w.db.edges)
  {
    hide RequestStep, ReconcileStep, ReverseEffect, RecordReturn, ConcludeReconciled;
    match l
    case LStep(tid) =>
      if w.threads[tid].Request? { RequestLeavesResources(w, tid); } else { ReconcilerLeavesResources(w, tid); }
    case LRecord(_, _) => RecordsLeaveResources(w, l);
    case LRecConclude(_, _) => RecordsLeaveResources(w, l);
    case _ =>
  }

  lemma RequestLeavesResources(w: World, tid: nat)
    requires HasPc(w, tid)
    ensures var v := RequestStep(w, tid);
      && v.wrote == w.wrote && v.db.resources == w.db.resources && v.db.notifications == w.db.notifications
      && |v.db.actions| == |w.db.actions| && TrailKeeps(w.trail, v.trail) && v.db.edges == w.db.edges
  {
    var pc := w.threads[tid].pc;
    if !pc.Poll? && !pc.Call? && !pc.Record? {
      RequestStepMoves(w, tid);
      hide RequestStep, Begin;
    }
  }

  lemma ReconcilerLeavesResources(w: World, tid: nat)
    requires HasRpc(w, tid)
    ensures var v := ReconcileStep(w, tid);
      && v.wrote == w.wrote && v.db.resources == w.db.resources && v.db.notifications == w.db.notifications
      && |v.db.actions| == |w.db.actions| && TrailKeeps(w.trail, v.trail) && v.db.edges == w.db.edges
  {
  }

  lemma PublishKeeps(w: World, v: World, scope: string, id: nat, now: Instant)
    requires Inv(w) && DemoInv(w) && GetResource(w.db, scope, id).Some?
    requires v == w.(db := Publish(w.db, scope, id, now), wrote := w.wrote + [""])
    ensures DemoInv(v)
  {
    hide Inv, DemoInv;
    OtherBusinessKeeps(w, v, PublishRow(scope, id, now));
  }

  lemma NotifyKeeps(w: World, v: World, scope: string, id: nat, nid: nat, channel: string, now: Instant,
      exp: Option<Instant>)
    requires Inv(w) && DemoInv(w) && GetResource(w.db, scope, id).Some? && IsFresh(w.db, nid)
    requires v == w.(db := Notify(w.db, scope, id, nid, channel, now, exp), wrote := w.wrote + [""])
    ensures DemoInv(v)
  {
    hide Inv, DemoInv;
    OtherBusinessKeeps(w, v, NotifyRow(scope, nid, channel, now, exp));
  }

  lemma ExternalKeeps(w: World, v: World, row: ActionRow)
    requires Inv(w) && DemoInv(w) && row.op.ExternalOp?
    requires v == w.(db := CreateAction(w.db, row), wrote := w.wrote + [""])
    ensures DemoInv(v)
  {
    hide Inv, DemoInv;
    OtherBusinessKeeps(w, v, row);
  }

  lemma BusinessKeepsDemo(w: World, l: Label)
    requires Inv(w) && DemoInv(w) && Enabled(w, l)
    requires l.LCreate? || l.LUpdate? || l.LPublish? || l.LNotify? || l.LExternal?
    ensures DemoInv(Apply(w, l))
  {
    var v := Apply(w, l);
    hide Inv, DemoInv;
    match l
    case LCreate(scope, id, value, now, exp) => CreateKeeps(w, v, scope, id, value, now, exp);
    case LUpdate(scope, id, value, now, exp) => UpdateKeeps(w, v, scope, id, value, now, exp);
    case LPublish(scope, id, now) => PublishKeeps(w, v, scope, id, now);
    case LNotify(scope, id, nid, channel, now, exp) => NotifyKeeps(w, v, scope, id, nid, channel, now, exp);
    case LExternal(row) => ExternalKeeps(w, v, row);
  }

  lemma StepKeepsDemo(w: World, l: Label)
    requires Inv(w) && DemoInv(w) && Enabled(w, l)
    ensures DemoInv(Apply(w, l))
  {
    if l.LCall? {
      CallKeepsDemo(w, l.tid, w.threads[l.tid].pc.calling, l.ret, l.effect);
    } else if TouchesResources(l) {
      BusinessKeepsDemo(w, l);
    } else {
      StepKeeps(w, l);
      StepGrows(w, l);
      StepLeavesResources(w, l);
      hide Apply, Enabled, Inv, DemoInv, Grows, TrailKeeps;
      UntouchedStepKeeps(w, Apply(w, l));
    }
  }

  lemma {:induction false} RunKeepsDemo(w: World, ls: seq<Label>)
    requires Inv(w) && DemoInv(w) && CanRun(w, ls)
    ensures DemoInv(Run(w, ls))
    decreases |ls|
  {
    hide Apply, Enabled, Inv, DemoInv;
    if ls != [] {
      StepKeepsDemo(w, ls[0]);
      StepKeeps(w, ls[0]);
      RunKeepsDemo(Apply(w, ls[0]), ls[1..]);
    }
  }

  lemma ReachableDemoInv(w: World)
    requires Reached(w)
    ensures Inv(w) && DemoInv(w)
  {
    var ls :| CanRun(INIT, ls) && Run(INIT, ls) == w;
    RunKeepsDemo(INIT, ls);
    ReachableInv(w);
  }

  // ------------------------------------------------------------------ theorems

  /** The refinement: in every reachable state an unpublished resource is the top of the
      stack of its updates that are not undone. */
  lemma ResourceIsTopOfStack(w: World, id: nat)
    requires Reached(w) && id in w.db.resources
    ensures var row := w.db.resources[id];
      var live := Live(w.db.actions, Undone(w), id);
      && row.createdFrom < |w.db.actions| && w.db.actions[row.createdFrom].op == CreateOp
      && (forall i :: 0 <= i < |live| ==>
            && live[i] < |w.db.actions| && w.db.actions[live[i]].material.UpdateMaterial?
            && w.db.actions[live[i]].material.expectedVersion == i + 2
            && w.db.actions[live[i]].material.previousVersion == i + 1
            && w.db.actions[live[i]].material.previousValue == Below(w.wrote, row.createdFrom, live, i))
      && (!row.published ==>
            row.version == |live| + 1 && row.value == Below(w.wrote, row.createdFrom, live, |live|))
  {
    ReachableDemoInv(w);
    var row := w.db.resources[id];
    assert StackOk(w.db.actions, w.wrote, Undone(w), id, row);
    var live := Live(w.db.actions, Undone(w), id);
    hide Inv, DemoInv, Live, Undone, Below;
    forall i | 0 <= i < |live|
      ensures live[i] < |w.db.actions|
      ensures w.db.actions[live[i]].material == UpdateMaterial(Below(w.wrote, row.createdFrom, live, i), i + 1, i + 2)
    {
      assert StackAt(w.db.actions, w.wrote, row.createdFrom, live, i);
    }
  }

  /** No ABA: whenever the compare-and-swap of a running restore matches, in whatever
      interleaving, it undoes the newest update that is not undone, for the first time. */
  lemma RestoreUndoesTheTop(w: World, tid: nat, k: nat)
    requires Reached(w) && HasPc(w, tid) && w.threads[tid].pc == Call(k)
    requires w.threads[tid].actionId < |w.db.actions| && w.db.actions[w.threads[tid].actionId].op == UpdateOp
    requires CanReverse(w.db, w.threads[tid].actionId)
    ensures var a := w.threads[tid].actionId;
      var id := w.db.actions[a].resourceId;
      var live := Live(w.db.actions, Undone(w), id);
      var after := ReverseEffect(w.db, a).resources[id];
      && a !in Undone(w) && live != [] && live[|live| - 1] == a
      && after.value == Below(w.wrote, w.db.resources[id].createdFrom, live, |live| - 1)
      && after.version == w.db.resources[id].version - 1
  {
    ReachableDemoInv(w);
    var a := w.threads[tid].actionId;
    var id := w.db.actions[a].resourceId;
    CallerIsNotUndone(w, tid, k);
    assert StackOk(w.db.actions, w.wrote, Undone(w), id, w.db.resources[id]);
    TopRestored(w.db.actions, w.wrote, Undone(w), id, w.db.resources[id], a);
  }

  lemma TopRestored(actions: seq<ActionRow>, wrote: seq<string>, undone: set<nat>, id: nat, row: ResourceRow, a: nat)
    requires StackOk(actions, wrote, undone, id, row) && !row.published && IsLiveUpdate(actions, undone, id, a)
    requires actions[a].material.UpdateMaterial? && actions[a].material.expectedVersion == row.version
    ensures var live := Live(actions, undone, id);
      && live != [] && live[|live| - 1] == a
      && actions[a].material.previousValue == Below(wrote, row.createdFrom, live, |live| - 1)
      && actions[a].material.previousVersion == row.version - 1
  {
    OnlyTheTopMatches(actions, wrote, undone, id, row, a);
    var live := Live(actions, undone, id);
    assert StackAt(actions, wrote, row.createdFrom, live, |live| - 1);
  }

  /** A published row keeps its value and is never deleted. */
  lemma PublishedIsForever(w: World, l: Label, id: nat)
    requires Enabled(w, l) && id in w.db.resources && w.db.resources[id].published
    ensures var v := Apply(w, l);
      id in v.db.resources && v.db.resources[id].published && v.db.resources[id].value == w.db.resources[id].value
  {
    if !TouchesResources(l) {
      StepLeavesResources(w, l);
    }
  }

  lemma {:induction false} PublishedStaysOverRuns(w: World, ls: seq<Label>, id: nat)
    requires CanRun(w, ls) && id in w.db.resources && w.db.resources[id].published
    ensures var v := Run(w, ls);
      id in v.db.resources && v.db.resources[id].published && v.db.resources[id].value == w.db.resources[id].value
    decreases |ls|
  {
    hide Apply, Enabled;
    if ls != [] {
      PublishedIsForever(w, ls[0], id);
      PublishedStaysOverRuns(Apply(w, ls[0]), ls[1..], id);
    }
  }
}
