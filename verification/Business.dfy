/** What each business operation writes, row by row: the business row, its Action with the window,
    time, scope and operation it was given, the Action's first history entry, and nothing else. */
module Business {
  import opened Domain
  import opened Timestamp
  import opened Records
  import opened ResourceApi

  lemma CreateRecords(db: Tables, scope: string, id: nat, value: string, now: Instant, expiresAt: Option<Instant>)
    ensures var n := |db.actions|;
      Create(db, scope, id, value, now, expiresAt) == db.(
        resources := db.resources[id := ResourceRow(scope, 1, value, false, n)],
        actions := db.actions + [
          ActionRow(scope, CreateOp, Applied, Reversible, id, now, expiresAt, CreateMaterial(1))],
        history := db.history + [HistoryRow(n, None, Applied, now)])
  {
  }

  /** An update is possible exactly on an unpublished row of the scope. It captures value and version,
      raises the version by one, keeps creator and scope, and records one edge to the creation. */
  lemma UpdateRecords(db: Tables, scope: string, id: nat, value: string, now: Instant, expiresAt: Option<Instant>)
    ensures CanUpdate(db, scope, id) <==>
      id in db.resources && db.resources[id].scope == scope && !db.resources[id].published
    ensures CanUpdate(db, scope, id) ==>
      var n, old_ := |db.actions|, db.resources[id];
      var next := Update(db, scope, id, value, now, expiresAt);
      && next == db.(
          resources := db.resources[id := ResourceRow(scope, old_.version + 1, value, false, old_.createdFrom)],
          actions := db.actions + [ActionRow(scope, UpdateOp, Applied, Restorable, id, now, expiresAt,
            UpdateMaterial(old_.value, old_.version, old_.version + 1))],
          history := db.history + [HistoryRow(n, None, Applied, now)],
          edges := next.edges)
      && ((forall f :: f in db.edges ==> f.dependent != n) ==>
            next.edges == db.edges + [Edge(scope, old_.createdFrom, n)])
  {
    if CanUpdate(db, scope, id) && forall f :: f in db.edges ==> f.dependent != |db.actions| {
      assert forall i :: 0 <= i < |db.edges| ==> db.edges[i] in db.edges;
    }
  }

  /** Publishing raises the version by one and keeps value, scope and creator. */
  lemma PublishRecords(db: Tables, scope: string, id: nat, now: Instant)
    requires id in db.resources && db.resources[id].scope == scope
    ensures GetResource(db, scope, id) == Some(db.resources[id])
    ensures var n, old_ := |db.actions|, db.resources[id];
      Publish(db, scope, id, now) == db.(
        resources := db.resources[id := ResourceRow(scope, old_.version + 1, old_.value, true, old_.createdFrom)],
        actions := db.actions + [ActionRow(scope, PublishOp, Irreversible, NotReversible, id, now, None, NoMaterial)],
        history := db.history + [HistoryRow(n, None, Irreversible, now)])
  {
  }

  /** A notification is sent for a resource of the scope, which stays as it is. */
  lemma NotifyRecords(db: Tables, scope: string, id: nat, nid: nat, channel: string, now: Instant,
      expiresAt: Option<Instant>)
    requires id in db.resources && db.resources[id].scope == scope
    ensures GetResource(db, scope, id) == Some(db.resources[id])
    ensures var n := |db.actions|;
      Notify(db, scope, id, nid, channel, now, expiresAt) == db.(
        notifications := db.notifications[nid := NotificationRow(scope, id, channel, Sent, n)],
        actions := db.actions + [ActionRow(scope, NotifyOp, Applied, PartiallyCompensatable, nid, now, expiresAt,
          NotifyMaterial(nid, channel))],
        history := db.history + [HistoryRow(n, None, Applied, now)])
  {
  }

  /** The permitted status changes, all of them. */
  lemma StatusGraph(from: Status, to: Status)
    ensures CanTransition(from, to) <==>
      || (from == Applied && (to == Reversing || to == Expired))
      || (from == Reversing
          && (to == Reversed || to == PartiallyReversed || to == ReverseFailed || to == OutcomeUnknown
              || to == Applied))
      || (from == OutcomeUnknown
          && (to == Reversed || to == PartiallyReversed || to == ReverseFailed || to == Reversing))
  {
  }
}
