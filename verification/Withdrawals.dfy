/** A sent notification can always be withdrawn, so undoing it is never refused and is
    attempted at most once. */
module Withdrawals {
  import opened Domain
  import opened Records
  import opened ResourceApi
  import opened Protocol
  import opened Invariant
  import opened Moves
  import opened UndoStack
  import opened Safety

  predicate IsNotify(actions: seq<ActionRow>, a: nat) {
    a < |actions| && actions[a].op == NotifyOp
  }

  /** A notification whose Action has not been undone is still as it was sent. */
  ghost predicate StillSent(db: Tables, undone: set<nat>) {
    forall a: nat :: IsNotify(db.actions, a) && a !in undone ==> CanReverse(db, a)
  }

  /** No call for a notification was answered with a refusal. */
  ghost predicate NeverRefused(db: Tables, trail: seq<Trail>) {
    forall k :: 0 <= k < |trail| && k < |db.attempts| && IsNotify(db.actions, db.attempts[k].actionId) ==>
      trail[k].returned.Some? ==> !DeniesEffect(trail[k].returned.value)
  }

  ghost predicate NotifyInv(w: World) {
    StillSent(w.db, Undone(w)) && NeverRefused(w.db, w.trail)
  }

  lemma SameNotifications(w: World, v: World)
    requires NotifyInv(w) && Grows(w.db, v.db) && TrailKeeps(w.trail, v.trail)
    requires |w.trail| == |w.db.attempts| && |v.trail| == |v.db.attempts|
    requires v.db.notifications == w.db.notifications && |v.db.actions| == |w.db.actions|
    requires Undone(v) == Undone(w)
    ensures NotifyInv(v)
  {
    forall a: nat | IsNotify(v.db.actions, a) && a !in Undone(v) ensures CanReverse(v.db, a) {
      assert IsNotify(w.db.actions, a) && CanReverse(w.db, a);
    }
    forall k | 0 <= k < |v.trail| && k < |v.db.attempts| && IsNotify(v.db.actions, v.db.attempts[k].actionId)
      && v.trail[k].returned.Some?
      ensures !DeniesEffect(v.trail[k].returned.value)
    {
      assert v.trail[k].returned == w.trail[k].returned;
      assert v.db.attempts[..|w.db.attempts|][k] == v.db.attempts[k];
      assert IsNotify(w.db.actions, w.db.attempts[k].actionId);
    }
  }

  /** What any of the provider's own transactions does to notifications: at most one more. */
  lemma BusinessOnlySends(w: World, l: Label)
    requires Inv(w) && Enabled(w, l) && (l.LCreate? || l.LUpdate? || l.LPublish? || l.LNotify? || l.LExternal?)
    ensures var v := Apply(w, l);
      && v.trail == w.trail && v.db.attempts == w.db.attempts
      && |v.db.actions| == |w.db.actions| + 1 && v.db.actions[..|w.db.actions|] == w.db.actions
      && (forall n :: n in w.db.notifications ==>
            n in v.db.notifications && v.db.notifications[n] == w.db.notifications[n])
      && (IsNotify(v.db.actions, |w.db.actions|) ==> CanReverse(v.db, |w.db.actions|))
  {
    hide Inv;
  }

  lemma BusinessKeepsNotify(w: World, v: World)
    requires NotifyInv(w) && |w.trail| == |w.db.attempts|
    requires forall k :: 0 <= k < |w.db.attempts| ==> w.db.attempts[k].actionId < |w.db.actions|
    requires v.trail == w.trail && v.db.attempts == w.db.attempts
    requires |v.db.actions| == |w.db.actions| + 1 && v.db.actions[..|w.db.actions|] == w.db.actions
    requires forall n :: n in w.db.notifications ==>
      n in v.db.notifications && v.db.notifications[n] == w.db.notifications[n]
    requires IsNotify(v.db.actions, |w.db.actions|) ==> CanReverse(v.db, |w.db.actions|)
    ensures NotifyInv(v)
  {
    var n := |w.db.actions|;
    assert Undone(v) == Undone(w);
    forall a: nat | IsNotify(v.db.actions, a) && a !in Undone(v) ensures CanReverse(v.db, a) {
      if a < n {
        assert v.db.actions[..n][a] == v.db.actions[a];
        assert IsNotify(w.db.actions, a) && CanReverse(w.db, a);
      }
    }
    forall k | 0 <= k < |v.trail| && k < |v.db.attempts| && IsNotify(v.db.actions, v.db.attempts[k].actionId)
      ensures IsNotify(w.db.actions, w.db.attempts[k].actionId)
    {
      assert v.db.actions[..n][w.db.attempts[k].actionId] == v.db.actions[w.db.attempts[k].actionId];
    }
  }

  /** The call for a notification succeeds or fails without saying why. */
  lemma NotifyIsNotRefused(w: World, tid: nat, ret: ProviderReturn, effect: bool)
    requires Inv(w) && DemoInv(w) && NotifyInv(w) && Enabled(w, LCall(tid, ret, effect))
    requires IsNotify(w.db.actions, w.threads[tid].actionId)
    ensures !DeniesEffect(ret)
  {
    CallerIsNotUndone(w, tid, w.threads[tid].pc.calling);
    assert CanReverse(w.db, w.threads[tid].actionId);
    hide Inv, DemoInv, Undone;
  }

  lemma OthersStaySent(db: Tables, a: nat, b: nat)
    requires IsNotify(db.actions, a) && CanReverse(db, a) && b < |db.actions| && CanReverse(db, b) && a != b
    ensures CanReverse(ReverseEffect(db, b), a)
  {
  }

  lemma CallShape(w: World, tid: nat, ret: ProviderReturn, effect: bool)
    requires Inv(w) && Enabled(w, LCall(tid, ret, effect))
    ensures var v, k, b := Apply(w, LCall(tid, ret, effect)), w.threads[tid].pc.calling, w.threads[tid].actionId;
      && k < |w.trail| == |w.db.attempts| && w.db.attempts[k].actionId == b < |w.db.actions|
      && v.db.attempts == w.db.attempts && v.db.actions == w.db.actions && |v.trail| == |w.trail|
      && (forall j :: 0 <= j < |w.trail| && j != k ==> v.trail[j] == w.trail[j])
      && v.trail[k].returned == Some(ret) && v.trail[k].effect == (w.trail[k].effect || effect)
      && v.db == (if effect && IsDemo(w.db.actions[b].op) then ReverseEffect(w.db, b) else w.db)
      && (effect && IsDemo(w.db.actions[b].op) ==> CanReverse(w.db, b))
  {
    assert ThreadOk(w.db, w.trail, tid, w.threads[tid]);
    hide Inv;
  }

  lemma CallUndoesMore(w: World, v: World, k: nat)
    requires k < |w.trail| == |v.trail| == |w.db.attempts| && v.db.attempts == w.db.attempts
    requires forall j :: 0 <= j < |w.trail| && j != k ==> v.trail[j] == w.trail[j]
    requires w.trail[k].effect ==> v.trail[k].effect
    ensures forall a :: a in Undone(w) ==> a in Undone(v)
    ensures v.trail[k].effect ==> w.db.attempts[k].actionId in Undone(v)
  {
  }

  lemma CallKeepsSent(w: World, tid: nat, ret: ProviderReturn, effect: bool)
    requires Inv(w) && DemoInv(w) && NotifyInv(w) && Enabled(w, LCall(tid, ret, effect))
    ensures var v := Apply(w, LCall(tid, ret, effect)); StillSent(v.db, Undone(v))
  {
    var v, b := Apply(w, LCall(tid, ret, effect)), w.threads[tid].actionId;
    CallShape(w, tid, ret, effect);
    CallUndoesMore(w, v, w.threads[tid].pc.calling);
    hide Apply, Enabled, Inv, DemoInv, CanReverse, ReverseEffect, Undone;
    forall a: nat | IsNotify(v.db.actions, a) && a !in Undone(v) ensures CanReverse(v.db, a) {
      assert a !in Undone(w);
      assert CanReverse(w.db, a);
      if effect && IsDemo(w.db.actions[b].op) { OthersStaySent(w.db, a, b); }
    }
  }

  lemma CallKeepsNotify(w: World, tid: nat, ret: ProviderReturn, effect: bool)
    requires Inv(w) && DemoInv(w) && NotifyInv(w) && Enabled(w, LCall(tid, ret, effect))
    ensures NotifyInv(Apply(w, LCall(tid, ret, effect)))
  {
    CallShape(w, tid, ret, effect);
    CallKeepsSent(w, tid, ret, effect);
    if IsNotify(w.db.actions, w.threads[tid].actionId) { NotifyIsNotRefused(w, tid, ret, effect); }
    hide Apply, Enabled, Inv, DemoInv, StillSent, DeniesEffect, Undone, CanReverse, ReverseEffect;
  }

  lemma StepKeepsNotify(w: World, l: Label)
    requires Inv(w) && DemoInv(w) && NotifyInv(w) && Enabled(w, l)
    ensures NotifyInv(Apply(w, l))
  {
    hide Apply, Enabled, Inv, DemoInv;
    if l.LCall? {
      assert l == LCall(l.tid, l.ret, l.effect);
      CallKeepsNotify(w, l.tid, l.ret, l.effect);
    } else if TouchesResources(l) {
      BusinessOnlySends(w, l);
      AttemptsHaveActions(w);
      BusinessKeepsNotify(w, Apply(w, l));
    } else {
      StepLeavesResources(w, l);
      StepKeeps(w, l);
      StepGrows(w, l);
      UndoneKeeps(w, Apply(w, l));
      AttemptsHaveActions(w);
      AttemptsHaveActions(Apply(w, l));
      SameNotifications(w, Apply(w, l));
    }
    hide *;
  }

  lemma {:induction false} RunKeepsNotify(w: World, ls: seq<Label>)
    requires Inv(w) && DemoInv(w) && NotifyInv(w) && CanRun(w, ls)
    ensures NotifyInv(Run(w, ls))
    decreases |ls|
  {
    hide Apply, Enabled, Inv, DemoInv, NotifyInv;
    if ls != [] {
      StepKeepsNotify(w, ls[0]);
      StepKeepsDemo(w, ls[0]);
      StepKeeps(w, ls[0]);
      RunKeepsNotify(Apply(w, ls[0]), ls[1..]);
    }
  }

  lemma ReachedNotify(w: World)
    requires Reached(w)
    ensures NotifyInv(w)
  {
    var ls :| CanRun(INIT, ls) && Run(INIT, ls) == w;
    RunKeepsNotify(INIT, ls);
  }

  /** Over every interleaving and crash: the reversal of a notification is attempted at most
      once, and it never returns its Action to APPLIED. */
  lemma WithdrawnAtMostOnce(w: World, a: nat)
    requires Reached(w) && IsNotify(w.db.actions, a)
    ensures forall j, k :: 0 <= j < |w.db.attempts| && 0 <= k < |w.db.attempts| ==>
      w.db.attempts[j].actionId == a && w.db.attempts[k].actionId == a ==> j == k
    ensures !Untouched(w.db.attempts, a) ==> w.db.actions[a].status != Applied
  {
    ReachedNotify(w);
    ReachableInv(w);
    hide Inv, Reached, DeniesEffect, StillSent;
    forall j, k | 0 <= j < |w.db.attempts| && 0 <= k < |w.db.attempts|
      && w.db.attempts[j].actionId == a && w.db.attempts[k].actionId == a
      ensures j == k
    {
      if j < k { OnlyTheNewestCanMatter(w, j, k); }
      if k < j { OnlyTheNewestCanMatter(w, k, j); }
    }
    if !Untouched(w.db.attempts, a) && w.db.actions[a].status == Applied {
      AppliedIsRefused(w, a);
      assert false;
    }
  }

  /** Every attempt of an Action that is APPLIED was refused. */
  lemma AppliedIsRefused(w: World, a: nat)
    requires Inv(w) && a < |w.db.actions| && w.db.actions[a].status == Applied
    ensures |w.trail| == |w.db.attempts|
    ensures forall k :: 0 <= k < |w.db.attempts| && w.db.attempts[k].actionId == a ==>
      w.trail[k].returned.Some? && DeniesEffect(w.trail[k].returned.value)
  {
    AppliedMeansBenign(w.db, w.trail, a);
    forall k | 0 <= k < |w.db.attempts| && w.db.attempts[k].actionId == a
      ensures w.trail[k].returned.Some? && DeniesEffect(w.trail[k].returned.value)
    {
      assert AttemptOk(w.db, w.trail, k);
    }
  }
}
