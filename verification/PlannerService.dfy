/** The planner: the sweep, then reads that build up a plan. */
module PlannerService {
  import opened Domain
  import opened Timestamp
  import opened Records
  import opened Services
  import opened Storage
  import DependencyService
  import Provider

  class Service {
    const store: Store
    const dependencies: DependencyService.Service
    const api: Provider.Api

    ghost predicate Valid() {
      dependencies.store == store && api.store == store
    }

    constructor (store: Store, dependencies: DependencyService.Service, api: Provider.Api)
      requires dependencies.store == store && api.store == store
      ensures Valid() && this.store == store
    {
      this.store, this.dependencies, this.api := store, dependencies, api;
    }

    /** A snapshot of what stands in the way of reversing this Action; only the sweep writes. */
    method Plan(scope: string, a: nat, now: Instant) returns (plan: Services.Plan)
      requires Valid()
      modifies store
      ensures (store.View(), plan) == ServePlan(old(store.View()), scope, a, now)
      ensures store.View() == Sweep(old(store.View()), now)
    {
      var count := store.SweepExpiry(now);
      hide Sweep, Services.Blocking, ProviderConflicts, PlanBasis;
      var found := store.GetAction(scope, a);
      if found.None? {
        return PlanRefused(ActionNotFound);
      }
      var row := found.value;
      if row.reversibility == NotReversible || row.status == Irreversible {
        return PlanRefused(IrreversibleAction);
      }
      var conflicts := [];
      if row.status != Applied {
        conflicts := conflicts + ["action is not APPLIED"];
      }
      var blocking := dependencies.Blocking(scope, a);
      if blocking.None? {
        return PlanRefused(DataInconsistency);
      }
      if |blocking.value| > 0 {
        conflicts := conflicts + ["active dependent Actions make reversal unsafe"];
      }
      var more, basis := api.PlanReversal(row);
      conflicts := conflicts + more;
      assert conflicts == (if row.status != Applied then ["action is not APPLIED"] else [])
        + (if blocking.value != [] then ["active dependent Actions make reversal unsafe"] else []) + more;
      return Planned(conflicts, blocking.value, basis);
    }
  }
}
