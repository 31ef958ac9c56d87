/** The demo provider's transactions and reverse functions, as functions on the tables. */
module ResourceApi {
  import opened Domain
  import opened Timestamp
  import opened Records
  import opened Dependency

  /** A random identifier nobody has used. */
  predicate IsFresh(db: Tables, id: nat) {
    && id !in db.resources && id !in db.notifications
    && forall i :: 0 <= i < |db.actions| ==> db.actions[i].resourceId != id
  }

  function CreateRow(scope: string, id: nat, now: Instant, expiresAt: Option<Instant>): ActionRow {
    ActionRow(scope, CreateOp, Applied, Reversible, id, now, expiresAt, CreateMaterial(1))
  }

  function Create(db: Tables, scope: string, id: nat, value: string, now: Instant, expiresAt: Option<Instant>): Tables {
    var a := |db.actions|;
    CreateAction(db.(resources := db.resources[id := ResourceRow(scope, 1, value, false, a)]),
      CreateRow(scope, id, now, expiresAt))
  }

  function GetResource(db: Tables, scope: string, id: nat): Option<ResourceRow> {
    if id in db.resources && db.resources[id].scope == scope then Some(db.resources[id]) else None
  }

  predicate CanUpdate(db: Tables, scope: string, id: nat) {
    GetResource(db, scope, id).Some? && !db.resources[id].published
  }

  function UpdateRow(scope: string, id: nat, prior: ResourceRow, now: Instant, expiresAt: Option<Instant>): ActionRow {
    ActionRow(scope, UpdateOp, Applied, Restorable, id, now, expiresAt,
      UpdateMaterial(prior.value, prior.version, prior.version + 1))
  }

  /** The new value, the Action with the captured prior state, and the edge to the
      resource's creation, in one transaction. */
  function Update(db: Tables, scope: string, id: nat, value: string, now: Instant, expiresAt: Option<Instant>): Tables
    requires CanUpdate(db, scope, id)
  {
    var prior := db.resources[id];
    var a := |db.actions|;
    var next := CreateAction(
      db.(resources := db.resources[id := prior.(value := value, version := prior.version + 1)]),
      UpdateRow(scope, id, prior, now, expiresAt));
    next.(edges := AddEdge(next.edges, Edge(scope, prior.createdFrom, a)))
  }

  function PublishRow(scope: string, id: nat, now: Instant): ActionRow {
    ActionRow(scope, PublishOp, Irreversible, NotReversible, id, now, None, NoMaterial)
  }

  function Publish(db: Tables, scope: string, id: nat, now: Instant): Tables
    requires GetResource(db, scope, id).Some?
  {
    var prior := db.resources[id];
    CreateAction(
      db.(resources := db.resources[id := prior.(published := true, version := prior.version + 1)]),
      PublishRow(scope, id, now))
  }

  function NotifyRow(scope: string, nid: nat, channel: string, now: Instant, expiresAt: Option<Instant>): ActionRow {
    ActionRow(scope, NotifyOp, Applied, PartiallyCompensatable, nid, now, expiresAt, NotifyMaterial(nid, channel))
  }

  function Notify(db: Tables, scope: string, id: nat, nid: nat, channel: string, now: Instant,
      expiresAt: Option<Instant>): Tables
    requires GetResource(db, scope, id).Some?
  {
    var a := |db.actions|;
    CreateAction(
      db.(notifications := db.notifications[nid := NotificationRow(scope, id, channel, Sent, a)]),
      NotifyRow(scope, nid, channel, now, expiresAt))
  }

  // ------------------------------------------------------- reverse functions

  predicate IsDemo(op: Op) {
    op == CreateOp || op == UpdateOp || op == NotifyOp
  }

  /** The WHERE clause of the conditional statement: does it match a row? */
  predicate CanReverse(db: Tables, a: nat)
    requires a < |db.actions|
  {
    var row := db.actions[a];
    match row.op
    case CreateOp =>
      && row.resourceId in db.resources
      && db.resources[row.resourceId].createdFrom == a
      && !db.resources[row.resourceId].published
    case UpdateOp =>
      && row.material.UpdateMaterial?
      && row.resourceId in db.resources
      && db.resources[row.resourceId].version == row.material.expectedVersion
      && !db.resources[row.resourceId].published
    case NotifyOp =>
      && row.material.NotifyMaterial?
      && row.material.notificationId in db.notifications
      && db.notifications[row.material.notificationId].createdFrom == a
      && db.notifications[row.material.notificationId].status == Sent
    case _ => false
  }

  /** The conditional statement itself: delete, restore or withdraw. */
  function ReverseEffect(db: Tables, a: nat): Tables
    requires a < |db.actions| && CanReverse(db, a)
  {
    var row := db.actions[a];
    match row.op
    case CreateOp => db.(resources := db.resources - {row.resourceId})
    case UpdateOp =>
      var id, m := row.resourceId, row.material;
      db.(resources := db.resources[id := db.resources[id].(value := m.previousValue, version := m.previousVersion)])
    case NotifyOp =>
      var n := row.material.notificationId;
      db.(notifications := db.notifications[n := db.notifications[n].(status := Withdrawn)])
    case _ => db
  }

  function SuccessOutcome(op: Op): Outcome {
    if op == NotifyOp then OutPartiallyReversed else OutReversed
  }

  /** Everything a demo reverse call can do and say, store errors included: an error may
      hide that the statement took effect. */
  predicate DemoReturn(db: Tables, a: nat, ret: ProviderReturn, effect: bool)
    requires a < |db.actions|
  {
    if ret.Failure? then ret.failureClass.None? && (effect ==> CanReverse(db, a))
    else if CanReverse(db, a) then effect && ret.outcome == SuccessOutcome(db.actions[a].op)
    else
      && !effect
      && (|| ret.outcome == OutConflict
          || (ret.outcome == OutReverseFailed && db.actions[a].op == UpdateOp
              && !db.actions[a].material.UpdateMaterial?))
  }
}
