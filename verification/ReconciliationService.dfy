/** The reconciliation service, statement by statement. */
module ReconciliationService {
  import opened Domain
  import opened Timestamp
  import opened Records
  import opened Storage
  import opened Reconciliation

  class Service {
    const store: Store

    constructor (store: Store)
      ensures this.store == store
    {
      this.store := store;
    }

    /** One round for the Action's uncertain attempt. lookup is what the provider's read-only
        lookup returns if it is asked, at when an attempt is concluded. */
    method Reconcile(scope: string, a: nat, now: Instant, lookup: LookupReturn, at: Instant) returns (reply: Reply)
      modifies store
      ensures (store.View(), reply) == Reconciled(old(store.View()), scope, a, now, lookup, at)
    {
      var found := store.GetAction(scope, a);
      if found.None? {
        return Refused(ActionNotFound);
      }
      var row := found.value;
      var open := store.GetOpenAttempt(a);
      if open.None? || store.attempts[open.value].state != Awaiting {
        var latest := store.GetLatestAttempt(a);
        if latest.None? {
          return Refused(PreconditionFailed);
        }
        return Ok(Reconstruct(latest.value, store.attempts[latest.value], row.status));
      }
      if row.status != OutcomeUnknown {
        return Refused(DataInconsistency);
      }
      if !row.op.HasReconcile() {
        return Refused(CapabilityUnavailable);
      }
      var k := open.value;
      var evidence := Inconclusive;
      if lookup.Lookup? {
        if lookup.outcome == OutReversed && lookup.proven {
          evidence := ProvenReversed;
        } else if lookup.outcome == OutReverseFailed && lookup.proven {
          evidence := ProvenNotReversed;
        }
      }
      // The evidence is durable before any transition.
      store.RecordObservation(k, now, evidence);
      if evidence == ProvenReversed {
        store.ConcludeAttempt(k, ObsReversed, None, None, at);
        var error := store.UpdateStatus(scope, a, OutcomeUnknown, Reversed, at);
        if error.Some? {
          return Refused(StatusMismatch);
        }
      } else if evidence == ProvenNotReversed {
        store.ConcludeAttempt(k, ObsReverseFailed, None, None, at);
        var error := store.UpdateStatus(scope, a, OutcomeUnknown, ReverseFailed, at);
        if error.Some? {
          return Refused(StatusMismatch);
        }
      }
      var updated := store.GetAttempt(k);
      var current := store.GetAction(scope, a);
      if updated.None? || current.None? {
        return Refused(DataInconsistency);
      }
      return Ok(Reconstruct(k, updated.value, current.value.status));
    }
  }
}
