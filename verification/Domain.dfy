/** The vocabulary of ROP and the rows of its tables. */
module Domain {
  import opened Timestamp

  datatype Option<+T> = None | Some(value: T)

  // ------------------------------------------------------------- the Action

  datatype Status =
    | Applied | Reversing | Reversed | PartiallyReversed
    | ReverseFailed | OutcomeUnknown | Expired | Irreversible

  /** The single table of permitted status changes. */
  function Transitions(from: Status): set<Status> {
    match from
    case Applied => {Reversing, Expired}
    case Reversing => {Reversed, PartiallyReversed, ReverseFailed, OutcomeUnknown, Applied}
    case OutcomeUnknown => {Reversed, PartiallyReversed, ReverseFailed, Reversing}
    case _ => {}
  }

  predicate CanTransition(from: Status, to: Status) {
    to in Transitions(from)
  }

  datatype Reversibility = Reversible | Restorable | Compensatable | PartiallyCompensatable | NotReversible

  /** The demo provider's four operations, and operations of providers we cannot see.
      The flags say which provider functions the registry holds. */
  datatype Op =
    | CreateOp | UpdateOp | PublishOp | NotifyOp
    | ExternalOp(name: string, canReverse: bool, canReconcile: bool)
  {
    predicate HasReverse() {
      match this
      case PublishOp => false
      case ExternalOp(_, canReverse, _) => canReverse
      case _ => true
    }

    predicate HasReconcile() {
      ExternalOp? && canReconcile
    }
  }

  /** Private reversal material, one record per Action. */
  datatype Material =
    | NoMaterial
    | CreateMaterial(resourceVersion: nat)
    | UpdateMaterial(previousValue: string, previousVersion: nat, expectedVersion: nat)
    | NotifyMaterial(notificationId: nat, channel: string)

  /** The n-th inserted Action is named n. */
  datatype ActionRow = ActionRow(
    scope: string, op: Op, status: Status, reversibility: Reversibility,
    resourceId: nat, createdAt: Instant, expiresAt: Option<Instant>, material: Material)

  datatype HistoryRow = HistoryRow(actionId: nat, from: Option<Status>, to: Status, at: Instant)

  // ---------------------------------------------------- the reversal attempt

  datatype ExecState = Pending | Running | Awaiting | Concluded

  datatype Observed = ObsReversed | ObsPartiallyReversed | ObsReverseFailed | ObsConflict

  datatype RetryClass = Retryable | NonRetryable | ReconcileRequired | ManualRequired | OtherClass(text: string)

  /** The durable execution identity, derived from the attempt's name. */
  datatype ProviderRef = RopRev(attemptId: nat)

  /** The n-th inserted attempt is named n. */
  datatype AttemptRow = AttemptRow(
    actionId: nat, requestedAt: Instant, state: ExecState, observed: Option<Observed>,
    providerRef: Option<ProviderRef>, error: Option<string>, retryClass: Option<RetryClass>,
    concludedAt: Option<Instant>)

  /** The hashed request semantics; hashing is taken to be injective. */
  datatype Fingerprint = Fingerprint(scope: string, actionId: nat)

  datatype KeyRow = KeyRow(actionId: nat, fingerprint: Fingerprint, attemptId: nat)

  datatype Evidence = ProvenReversed | ProvenNotReversed | Inconclusive

  datatype ObservationRow = ObservationRow(attemptId: nat, at: Instant, evidence: Evidence)

  /** dependent depends on parent. */
  datatype Edge = Edge(scope: string, parent: nat, dependent: nat)

  // ------------------------------------------------------ the demo provider

  datatype ResourceRow = ResourceRow(
    scope: string, version: nat, value: string, published: bool, createdFrom: nat)

  datatype NotificationStatus = Sent | Withdrawn

  datatype NotificationRow = NotificationRow(
    scope: string, resourceId: nat, channel: string, status: NotificationStatus, createdFrom: nat)

  // ------------------------------------------------------------- the tables

  datatype Tables = Tables(
    actions: seq<ActionRow>,
    history: seq<HistoryRow>,
    attempts: seq<AttemptRow>,
    keys: map<(string, string), KeyRow>,
    observations: seq<ObservationRow>,
    edges: seq<Edge>,
    resources: map<nat, ResourceRow>,
    notifications: map<nat, NotificationRow>)

  const EMPTY_TABLES := Tables([], [], [], map[], [], [], map[], map[])

  // -------------------------------------------------- requests and replies

  datatype Outcome =
    | OutReversed | OutPartiallyReversed | OutReverseFailed | OutConflict | OutUnknown
    | OutOther(text: string)

  /** What a provider's reverse function gives back. A failure without a class is an
      ordinary error. */
  datatype ProviderReturn =
    | Output(outcome: Outcome, error: string)
    | Failure(failureClass: Option<RetryClass>, message: string)

  datatype Problem =
    | ActionNotFound | IrreversibleAction | ReversalExpired | AlreadyInProgress
    | PreconditionFailed | DependencyExists | CapabilityUnavailable | KeyConflict
    | StatusMismatch | DataInconsistency | UnknownProviderOutcome

  datatype Result = Result(
    attemptId: nat, actionId: nat, status: Status, outcome: Outcome,
    observedAt: Instant, providerRef: Option<ProviderRef>, error: string)

  datatype Reply = Ok(result: Result) | Refused(problem: Problem)
}
