/** The demo provider: business operations that write their Action in the same transaction,
    and the plan, reverse and verify functions it registers. */
module Provider {
  import opened Domain
  import opened Timestamp
  import opened Records
  import opened ResourceApi
  import opened Services
  import opened Storage

  datatype Performed = Performed(action: nat) | NotFound | IsPublished

  datatype Verification = Verdict(verified: bool, postconditions: seq<bool>) | Unknown

  class Api {
    const store: Store
    const scope: string

    constructor (store: Store, scope: string)
      ensures this.store == store && this.scope == scope
    {
      this.store, this.scope := store, scope;
    }

    // ------------------------------------------------------- business operations

    /** Insert the resource, its Action and its material, then link the two. */
    method Create(id: nat, value: string, now: Instant, expiresAt: Option<Instant>) returns (a: nat)
      requires IsFresh(store.View(), id)
      modifies store
      ensures a == |old(store.actions)|
      ensures store.View() == ResourceApi.Create(old(store.View()), scope, id, value, now, expiresAt)
    {
      store.resources := store.resources[id := ResourceRow(scope, 1, value, false, 0)];
      a := store.CreateAction(CreateRow(scope, id, now, expiresAt));
      store.resources := store.resources[id := store.resources[id].(createdFrom := a)];
    }

    method GetResource(scope: string, id: nat) returns (r: Option<ResourceRow>)
      ensures r == ResourceApi.GetResource(store.View(), scope, id)
    {
      if id in store.resources && store.resources[id].scope == scope {
        return Some(store.resources[id]);
      }
      return None;
    }

    /** Capture what is there, write the new value, and record the dependency on the creation. */
    method Update(id: nat, value: string, now: Instant, expiresAt: Option<Instant>) returns (r: Performed)
      modifies store
      ensures r.Performed? <==> CanUpdate(old(store.View()), scope, id)
      ensures r == NotFound <==> ResourceApi.GetResource(old(store.View()), scope, id).None?
      ensures r.Performed? ==>
        && r.action == |old(store.actions)|
        && store.View() == ResourceApi.Update(old(store.View()), scope, id, value, now, expiresAt)
      ensures !r.Performed? ==> store.View() == old(store.View())
    {
      var prior := GetResource(scope, id);
      if prior.None? {
        return NotFound;
      }
      if prior.value.published {
        return IsPublished;
      }
      var row := prior.value;
      if store.resources[id].version == row.version {
        store.resources := store.resources[id := store.resources[id].(value := value, version := row.version + 1)];
      }
      var a := store.CreateAction(UpdateRow(scope, id, row, now, expiresAt));
      store.AddDependency(scope, row.createdFrom, a);
      return Performed(a);
    }

    method Publish(id: nat, now: Instant) returns (r: Performed)
      modifies store
      ensures r == (if ResourceApi.GetResource(old(store.View()), scope, id).Some?
        then Performed(|old(store.actions)|) else NotFound)
      ensures r.Performed? ==> store.View() == ResourceApi.Publish(old(store.View()), scope, id, now)
      ensures !r.Performed? ==> store.View() == old(store.View())
    {
      var prior := GetResource(scope, id);
      if prior.None? {
        return NotFound;
      }
      store.resources := store.resources[id := store.resources[id].(published := true,
        version := store.resources[id].version + 1)];
      var a := store.CreateAction(PublishRow(scope, id, now));
      return Performed(a);
    }

    method Notify(id: nat, nid: nat, channel: string, now: Instant, expiresAt: Option<Instant>) returns (r: Performed)
      requires IsFresh(store.View(), nid)
      modifies store
      ensures r == (if ResourceApi.GetResource(old(store.View()), scope, id).Some?
        then Performed(|old(store.actions)|) else NotFound)
      ensures r.Performed? ==>
        store.View() == ResourceApi.Notify(old(store.View()), scope, id, nid, channel, now, expiresAt)
      ensures !r.Performed? ==> store.View() == old(store.View())
    {
      var prior := GetResource(scope, id);
      if prior.None? {
        return NotFound;
      }
      store.notifications := store.notifications[nid := NotificationRow(scope, id, channel, Sent, 0)];
      var a := store.CreateAction(NotifyRow(scope, nid, channel, now, expiresAt));
      store.notifications := store.notifications[nid := store.notifications[nid].(createdFrom := a)];
      return Performed(a);
    }

    // --------------------------------------------------------- reverse functions

    /** Delete the row this Action created, unless it is published or gone. */
    method ReverseCreate(a: nat) returns (ret: ProviderReturn)
      requires a < |store.actions| && store.actions[a].op == CreateOp
      modifies store
      ensures (store.View(), ret) == DemoReverse(old(store.View()), a)
    {
      var row := store.actions[a];
      var id := row.resourceId;
      if id in store.resources && store.resources[id].createdFrom == a && !store.resources[id].published {
        store.resources := store.resources - {id};
        return Output(OutReversed, "");
      }
      var r := GetResource(row.scope, id);
      if r.None? {
        return Output(OutConflict, "resource no longer exists; refusing unsafe restore");
      }
      if r.value.published {
        return Output(OutConflict, "resource has been published since creation; reversal refused");
      }
      return Output(OutConflict, "resource was not created by this action; reversal refused");
    }

    /** Restore the captured state, if the row is still at the version this Action produced. */
    method ReverseUpdate(a: nat) returns (ret: ProviderReturn)
      requires a < |store.actions| && store.actions[a].op == UpdateOp
      modifies store
      ensures (store.View(), ret) == DemoReverse(old(store.View()), a)
    {
      var row := store.actions[a];
      var id := row.resourceId;
      if !row.material.UpdateMaterial? {
        return Output(OutReverseFailed, "reversal material missing or malformed; refusing to guess prior state");
      }
      var m := row.material;
      if id in store.resources && store.resources[id].version == m.expectedVersion && !store.resources[id].published {
        store.resources := store.resources[id :=
          store.resources[id].(value := m.previousValue, version := m.previousVersion)];
        return Output(OutReversed, "");
      }
      var r := GetResource(row.scope, id);
      if r.None? {
        return Output(OutConflict, "resource no longer exists; refusing unsafe restore");
      }
      if r.value.published {
        return Output(OutConflict, "resource has been published; restoration refused");
      }
      return Output(OutConflict, "concurrent mutation detected; refusing destructive restore");
    }

    /** Withdraw what can be withdrawn; the delivery itself remains. */
    method ReverseNotify(a: nat) returns (ret: ProviderReturn)
      requires a < |store.actions| && store.actions[a].op == NotifyOp
      modifies store
      ensures (store.View(), ret) == DemoReverse(old(store.View()), a)
    {
      var row := store.actions[a];
      var n := if row.material.NotifyMaterial? then Some(row.material.notificationId) else None;
      if n.Some? && n.value in store.notifications && store.notifications[n.value].createdFrom == a
        && store.notifications[n.value].status == Sent {
        store.notifications := store.notifications[n.value := store.notifications[n.value].(status := Withdrawn)];
        return Output(OutPartiallyReversed, "");
      }
      if n.None? || n.value !in store.notifications || store.notifications[n.value].scope != row.scope {
        return Output(OutConflict, "notification no longer exists; refusing unsafe state change");
      }
      if store.notifications[n.value].status == Withdrawn {
        return Output(OutConflict, "notification already withdrawn");
      }
      return Output(OutConflict, "notification was not created by this action");
    }

    // ------------------------------------------------------------ plan functions

    /** The provider's conflicts and the version they were computed against. */
    method PlanReversal(row: ActionRow) returns (conflicts: seq<string>, basis: Option<nat>)
      ensures conflicts == ProviderConflicts(store.View(), row) && basis == PlanBasis(store.View(), row)
    {
      conflicts, basis := [], None;
      match row.op {
        case CreateOp =>
          var r := GetResource(row.scope, row.resourceId);
          if r.Some? {
            basis := Some(r.value.version);
            if r.value.published {
              conflicts := conflicts + ["resource is published; reversal is refused"];
            }
          } else {
            conflicts := conflicts + ["resource no longer exists"];
          }
        case UpdateOp =>
          var r := GetResource(row.scope, row.resourceId);
          if r.None? {
            conflicts := conflicts + ["resource no longer exists"];
            return;
          }
          basis := Some(r.value.version);
          if r.value.published {
            conflicts := conflicts + ["resource is published; reversal is refused"];
          }
          if row.material.UpdateMaterial? && r.value.version != row.material.expectedVersion {
            conflicts := conflicts + ["the plan is stale and reversal will conflict"];
          }
        case NotifyOp =>
          var n := row.resourceId;
          if n !in store.notifications || store.notifications[n].scope != row.scope {
            conflicts := conflicts + ["notification no longer exists"];
          } else if store.notifications[n].status != Sent {
            conflicts := conflicts + ["notification is WITHDRAWN; reversal will conflict"];
          }
        case _ =>
      }
    }

    // ---------------------------------------------------------- verify functions

    /** The postconditions of a successful reversal, and whether all of them hold. */
    method VerifyReversal(row: ActionRow) returns (r: Verification)
      ensures r == match Postconditions(store.View(), row)
        case None => Unknown
        case Some(pc) => Verdict(Verified(store.View(), row), pc)
    {
      var pc: seq<bool> := [];
      match row.op {
        case CreateOp =>
          var found := GetResource(row.scope, row.resourceId);
          pc := [found.None?];
        case UpdateOp =>
          if !row.material.UpdateMaterial? {
            return Unknown;
          }
          var found := GetResource(row.scope, row.resourceId);
          pc := [found.Some?, false, false, found.Some? && !found.value.published];
          if found.Some? {
            pc := pc[1 := found.value.value == row.material.previousValue];
            pc := pc[2 := found.value.version == row.material.previousVersion];
          }
        case NotifyOp =>
          if !row.material.NotifyMaterial? {
            return Unknown;
          }
          var n := row.material.notificationId;
          var there := n in store.notifications && store.notifications[n].scope == row.scope;
          pc := [there && store.notifications[n].status == Withdrawn, there];
        case _ =>
          return Unknown;
      }
      assert pc == Postconditions(store.View(), row).value;
      var verified := AllHold(pc);
      return Verdict(verified, pc);
    }

    method AllHold(pc: seq<bool>) returns (all: bool)
      ensures all <==> forall p :: p in pc ==> p
    {
      var i := 0;
      while i < |pc|
        invariant 0 <= i <= |pc|
        invariant forall j :: 0 <= j < i ==> pc[j]
      {
        if !pc[i] {
          assert pc[i] in pc;
          return false;
        }
        i := i + 1;
      }
      return true;
    }
  }
}
