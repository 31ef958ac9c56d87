/** What a plan lists and what a verification denies, on the rows themselves. */
module Verdicts {
  import opened Domain
  import opened Records
  import opened ResourceApi
  import opened Protocol
  import opened Invariant
  import opened UndoStack
  import opened Services
  import opened Answers

  /** The resource an Action is about is gone, or belongs to another scope. */
  predicate IsAbsent(db: Tables, row: ActionRow) {
    row.resourceId !in db.resources || db.resources[row.resourceId].scope != row.scope
  }

  predicate HasNotice(db: Tables, row: ActionRow, n: nat) {
    n in db.notifications && db.notifications[n].scope == row.scope
  }

  // ---------------------------------------------------------------- verification

  /** A creation is verified as undone if and only if its resource is absent. */
  lemma CreateVerifies(db: Tables, row: ActionRow)
    requires row.op == CreateOp
    ensures Postconditions(db, row) == Some([IsAbsent(db, row)])
    ensures Verified(db, row) <==> IsAbsent(db, row)
  {
    assert IsAbsent(db, row) in [IsAbsent(db, row)];
  }

  /** An update is verified as undone if and only if the unpublished row is there with the captured
      value and version; the entries are existence, value, version and not published. */
  lemma UpdateVerifies(db: Tables, row: ActionRow)
    requires row.op == UpdateOp
    ensures !row.material.UpdateMaterial? ==> Postconditions(db, row).None? && !Verified(db, row)
    ensures row.material.UpdateMaterial? ==>
      var there := !IsAbsent(db, row);
      var pc := Postconditions(db, row);
      && pc.Some? && |pc.value| == 4 && (pc.value[0] <==> there)
      && (pc.value[1] <==> there && db.resources[row.resourceId].value == row.material.previousValue)
      && (pc.value[2] <==> there && db.resources[row.resourceId].version == row.material.previousVersion)
      && (pc.value[3] <==> there && !db.resources[row.resourceId].published)
      && (Verified(db, row) <==>
            && there && db.resources[row.resourceId].value == row.material.previousValue
            && db.resources[row.resourceId].version == row.material.previousVersion
            && !db.resources[row.resourceId].published)
  {
    if row.material.UpdateMaterial? {
      var pc := Postconditions(db, row).value;
      assert pc[0] in pc && pc[1] in pc && pc[2] in pc && pc[3] in pc;
    }
  }

  /** A notification is verified as undone if and only if it is there and WITHDRAWN; the entries are
      withdrawn and still on record. */
  lemma NotifyVerifies(db: Tables, row: ActionRow)
    requires row.op == NotifyOp
    ensures !row.material.NotifyMaterial? ==> Postconditions(db, row).None? && !Verified(db, row)
    ensures row.material.NotifyMaterial? ==>
      var n := row.material.notificationId;
      var pc := Postconditions(db, row);
      && pc.Some? && |pc.value| == 2 && (pc.value[1] <==> HasNotice(db, row, n))
      && (pc.value[0] <==> HasNotice(db, row, n) && db.notifications[n].status == Withdrawn)
      && (Verified(db, row) <==> HasNotice(db, row, n) && db.notifications[n].status == Withdrawn)
  {
    if row.material.NotifyMaterial? {
      var pc := Postconditions(db, row).value;
      assert pc[0] in pc && pc[1] in pc;
    }
  }

  /** In every reachable state, what can still be undone does not verify as undone. */
  lemma StandingDoesNotVerify(w: World, a: nat)
    requires Reached(w) && a < |w.db.actions| && CanReverse(w.db, a)
    ensures !Verified(w.db, w.db.actions[a])
  {
    ReachableDemoInv(w);
    assert ActionFits(w.db, a);
    var row := w.db.actions[a];
    hide Inv, DemoInv, Reached;
    match row.op
    case CreateOp => CreateVerifies(w.db, row);
    case UpdateOp => UpdateVerifies(w.db, row);
    case NotifyOp => NotifyVerifies(w.db, row);
    case _ =>
  }

  // ------------------------------------------------------------------------ plans

  /** The version a plan was computed against: the row's own, for a creation or an update whose row
      is there, and nothing otherwise. */
  lemma BasisIsCurrent(db: Tables, row: ActionRow)
    ensures var basis := PlanBasis(db, row);
      && (basis.Some? <==> (row.op == CreateOp || row.op == UpdateOp) && !IsAbsent(db, row))
      && (basis.Some? ==> basis.value == db.resources[row.resourceId].version)
  {
  }

  /** The provider's own conflicts, each for exactly its reason, in this order. */
  lemma ConflictsAreExact(db: Tables, row: ActionRow)
    ensures var gone, published, stale, lost, withdrawn := "resource no longer exists",
        "resource is published; reversal is refused", "the plan is stale and reversal will conflict",
        "notification no longer exists", "notification is WITHDRAWN; reversal will conflict";
      ProviderConflicts(db, row) ==
        match row.op
        case CreateOp =>
          if IsAbsent(db, row) then [gone] else if db.resources[row.resourceId].published then [published] else []
        case UpdateOp =>
          if IsAbsent(db, row) then [gone]
          else
            (if db.resources[row.resourceId].published then [published] else [])
            + (if row.material.UpdateMaterial?
                  && db.resources[row.resourceId].version != row.material.expectedVersion then [stale] else [])
        case NotifyOp =>
          if !HasNotice(db, row, row.resourceId) then [lost]
          else if db.notifications[row.resourceId].status == Withdrawn then [withdrawn] else []
        case _ => []
  {
  }

  /** A plan, exactly: each refusal, and otherwise the status conflict, the dependents' conflict and
      the provider's, with every blocking dependent and the basis. */
  lemma PlanIsExact(db: Tables, scope: string, a: nat)
    ensures var plan := PlanOf(db, scope, a);
      var there := IsThere(db, scope, a);
      && (plan == PlanRefused(ActionNotFound) <==> !there)
      && (plan == PlanRefused(IrreversibleAction) <==> there && IsForGood(db.actions[a]))
      && (plan == PlanRefused(DataInconsistency) <==> there && !IsForGood(db.actions[a]) && SomeMissing(db, scope, a))
      && (plan.Planned? <==> there && !IsForGood(db.actions[a]) && !SomeMissing(db, scope, a))
      && (plan.Planned? ==>
            && Blocking(db, scope, a) == Some(plan.blocking) && plan.basis == PlanBasis(db, db.actions[a])
            && plan.conflicts ==
              (if db.actions[a].status != Applied then ["action is not APPLIED"] else [])
              + (if SomeStanding(db, scope, a) then ["active dependent Actions make reversal unsafe"] else [])
              + ProviderConflicts(db, db.actions[a]))
  {
    var places := BlockingIsExact(db, scope, a);
    hide Blocking, SomeMissing, SomeStanding, StillStands, ProviderConflicts, PlanBasis;
  }
}
