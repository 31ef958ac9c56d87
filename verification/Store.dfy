/** The durable store: one mutable object holding every table. Each method does what the
    corresponding SQL statements do, and is proved to change the tables exactly as its
    function in Records says. */
module Storage {
  import opened Domain
  import opened Timestamp
  import opened Records
  import opened Dependency

  /** A write either happened, or failed with this error and changed nothing. */
  predicate Did(w: Write, before: Tables, after: Tables, error: Option<StoreError>) {
    match w
    case Written(db) => error.None? && after == db
    case Failed(e) => error == Some(e) && after == before
  }

  /** The observations of one attempt, oldest first. */
  function ObservationsOf(observations: seq<ObservationRow>, k: nat): (r: seq<ObservationRow>)
    ensures forall o :: o in r <==> o in observations && o.attemptId == k
  {
    if observations == [] then []
    else
      var o := observations[|observations| - 1];
      ObservationsOf(observations[..|observations| - 1], k) + if o.attemptId == k then [o] else []
  }

  lemma {:induction false} ObservationsInOrder(observations: seq<ObservationRow>, k: nat) returns (places: seq<nat>)
    ensures PicksInOrder(observations, ObservationsOf(observations, k), places,
      (o: ObservationRow) => o.attemptId == k)
  {
    places := [];
    if observations != [] {
      var before := observations[..|observations| - 1];
      places := ObservationsInOrder(before, k);
      places := PickOneMore(observations, ObservationsOf(before, k), places, (o: ObservationRow) => o.attemptId == k);
    }
  }

  /** ORDER BY requested_at DESC, attempt_id DESC LIMIT 1. */
  function LatestAttempt(attempts: seq<AttemptRow>, a: nat): (r: Option<nat>)
    ensures r.None? <==> forall k :: 0 <= k < |attempts| ==> attempts[k].actionId != a
    ensures r.Some? ==>
      && r.value < |attempts| && attempts[r.value].actionId == a
      && forall k :: 0 <= k < |attempts| && attempts[k].actionId == a ==>
          attempts[k].requestedAt < attempts[r.value].requestedAt
          || (attempts[k].requestedAt == attempts[r.value].requestedAt && k <= r.value)
  {
    if attempts == [] then None
    else
      var last := |attempts| - 1;
      var before := LatestAttempt(attempts[..last], a);
      if attempts[last].actionId == a
        && (before.None? || attempts[before.value].requestedAt <= attempts[last].requestedAt)
      then Some(last) else before
  }

  /** These Actions, in ascending order, are APPLIED. */
  ghost predicate StillApplied(actions: seq<ActionRow>, ids: seq<nat>) {
    && (forall i :: 0 <= i < |ids| ==> ids[i] < |actions| && actions[ids[i]].status == Applied)
    && (forall i, j :: 0 <= i < j < |ids| ==> ids[i] < ids[j])
  }

  lemma AllDue(actions: seq<ActionRow>, now: Instant)
    ensures StillApplied(actions, DueActions(actions, now))
    ensures DueActions(actions, now)[0..] == DueActions(actions, now)
  {
  }

  lemma ExpireFirst(db: Tables, ids: seq<nat>, now: Instant)
    requires ids != [] && StillApplied(db.actions, ids)
    requires forall a :: a in ids ==> 0 <= a < |db.actions|
    ensures var next := SetStatus(db, ids[0], Expired, now);
      && StillApplied(next.actions, ids[1..]) && (forall a :: a in ids[1..] ==> 0 <= a < |next.actions|)
      && ExpireAll(next, ids[1..], now) == ExpireAll(db, ids, now)
  {
  }

  /** The sweep's WHERE clause: SQLite compares the stored texts. */
  predicate Where(row: ActionRow, now: Instant) {
    row.status == Applied && row.expiresAt.Some? && TextAtMost(Format(row.expiresAt.value), Format(now))
  }

  lemma WhereIsDue(row: ActionRow, now: Instant)
    ensures Where(row, now) <==> IsDue(row, now)
  {
    if row.expiresAt.Some? {
      TextOrderIsTimeOrder(row.expiresAt.value, now);
    }
    hide Format, TextAtMost;
  }

  class Store {
    var actions: seq<ActionRow>
    var history: seq<HistoryRow>
    var attempts: seq<AttemptRow>
    var keys: map<(string, string), KeyRow>
    var observations: seq<ObservationRow>
    var edges: seq<Edge>
    var resources: map<nat, ResourceRow>
    var notifications: map<nat, NotificationRow>

    /** All tables as one value. */
    function View(): Tables
      reads this
    {
      Tables(actions, history, attempts, keys, observations, edges, resources, notifications)
    }

    constructor ()
      ensures View() == EMPTY_TABLES
    {
      actions, history, attempts, keys := [], [], [], map[];
      observations, edges, resources, notifications := [], [], map[], map[];
    }

    /** A transaction that can undo everything from here on. */
    method BeginTx() returns (tx: Tx)
      ensures fresh(tx) && tx.store == this && tx.began == View()
    {
      tx := new Tx(this);
    }

    // --------------------------------------------------------------- actions

    method CreateAction(row: ActionRow) returns (id: nat)
      modifies this
      ensures id == |old(actions)| && View() == Records.CreateAction(old(View()), row)
    {
      id := |actions|;
      actions := actions + [row];
      history := history + [HistoryRow(id, None, row.status, row.createdAt)];
    }

    method GetAction(scope: string, id: nat) returns (r: Option<ActionRow>)
      ensures r == Records.GetAction(View(), scope, id)
      ensures r.Some? ==> id < |actions| && r.value == actions[id] && r.value.scope == scope
    {
      if id < |actions| && actions[id].scope == scope {
        return Some(actions[id]);
      }
      return None;
    }

    /** Without a scope filter: restart recovery only. */
    method GetActionByID(id: nat) returns (r: Option<ActionRow>)
      ensures r.Some? <==> id < |actions|
      ensures r.Some? ==> r.value == actions[id]
    {
      if id < |actions| {
        return Some(actions[id]);
      }
      return None;
    }

    /** Compare-and-swap of the status, and its history row. */
    method UpdateStatus(scope: string, id: nat, from: Status, to: Status, at: Instant)
        returns (error: Option<StoreError>)
      modifies this
      ensures Did(Records.UpdateStatus(old(View()), scope, id, from, to, at), old(View()), View(), error)
      ensures error.None? ==> View() == SetStatus(old(View()), id, to, at)
      ensures error == Some(IllegalTransition) <==> !CanTransition(from, to)
      ensures error.None? <==>
        && CanTransition(from, to)
        && id < |old(actions)| && old(actions)[id].scope == scope && old(actions)[id].status == from
      ensures error.None? ==>
        && actions == old(actions)[id := old(actions)[id].(status := to)]
        && history == old(history) + [HistoryRow(id, Some(from), to, at)]
    {
      if !CanTransition(from, to) {
        return Some(IllegalTransition);
      }
      var n := 0;
      if id < |actions| && actions[id].scope == scope && actions[id].status == from {
        actions := actions[id := actions[id].(status := to)];
        n := 1;
      }
      if n == 0 {
        return Some(NotInStatus);
      }
      history := history + [HistoryRow(id, Some(from), to, at)];
      return None;
    }

    /** The rows the sweep's query selects, by comparing texts as SQLite does. */
    method SelectDue(now: Instant) returns (due: seq<nat>)
      ensures due == DueActions(actions, now)
    {
      hide Where, IsDue;
      due := [];
      var i := 0;
      while i < |actions|
        invariant 0 <= i <= |actions|
        invariant due == DueActions(actions[..i], now)
      {
        WhereIsDue(actions[i], now);
        if Where(actions[i], now) { due := due + [i]; }
        assert actions[..i + 1][..i] == actions[..i];
        i := i + 1;
      }
      assert actions[..|actions|] == actions;
    }

    /** One transition of the sweep. */
    method Expire(id: nat, now: Instant) returns (error: Option<StoreError>)
      requires id < |actions| && actions[id].status == Applied
      modifies this
      ensures error.None? && View() == SetStatus(old(View()), id, Expired, now)
    {
      error := UpdateStatus(actions[id].scope, id, Applied, Expired, now);
    }

    /** Expire every APPLIED Action whose window has closed; the number expired. */
    method SweepExpiry(now: Instant) returns (count: nat)
      modifies this
      ensures View() == Sweep(old(View()), now)
      ensures count == |DueActions(old(actions), now)|
    {
      var expired := SelectDue(now);
      ghost var before := View();
      AllDue(before.actions, now);
      hide Records.UpdateStatus, DueActions, IsDue;
      var i := 0;
      while i < |expired|
        invariant 0 <= i <= |expired|
        invariant StillApplied(actions, expired[i..])
        invariant forall a :: a in expired[i..] ==> 0 <= a < |actions|
        invariant ExpireAll(View(), expired[i..], now) == Sweep(before, now)
      {
        ExpireFirst(View(), expired[i..], now);
        assert expired[i..][1..] == expired[i + 1..];
        var error := Expire(expired[i], now);
        i := i + 1;
      }
      count := |expired|;
    }

    // -------------------------------------------------------------- attempts

    /** A new RUNNING attempt, unless the index on open attempts refuses it. */
    method CreateAttempt(a: nat, requestedAt: Instant) returns (error: Option<StoreError>)
      modifies this
      ensures Did(Records.CreateAttempt(old(View()), a, requestedAt), old(View()), View(), error)
      ensures error.Some? <==>
        exists k :: 0 <= k < |old(attempts)| && old(attempts)[k].actionId == a && old(attempts)[k].state != Concluded
      ensures error.None? ==>
        var row := AttemptRow(a, requestedAt, Running, None, Some(RopRev(|old(attempts)|)), None, None, None);
        attempts == old(attempts) + [row]
    {
      if HasOpen(attempts, a) {
        return Some(AttemptInProgress);
      }
      var id := |attempts|;
      attempts := attempts + [AttemptRow(a, requestedAt, Running, None, Some(RopRev(id)), None, None, None)];
      return None;
    }

    method GetAttempt(k: nat) returns (r: Option<AttemptRow>)
      ensures r == if k < |attempts| then Some(attempts[k]) else None
    {
      if k < |attempts| {
        return Some(attempts[k]);
      }
      return None;
    }

    method GetOpenAttempt(a: nat) returns (r: Option<nat>)
      ensures r == OpenAttempt(attempts, a)
      ensures r.Some? <==> HasOpen(attempts, a)
    {
      r := OpenAttempt(attempts, a);
    }

    method GetLatestAttempt(a: nat) returns (r: Option<nat>)
      ensures r == LatestAttempt(attempts, a)
    {
      r := LatestAttempt(attempts, a);
    }

    /** Record the result of an attempt that is still open; a concluded row stays as it is. */
    method ConcludeAttempt(k: nat, observed: Observed, error: Option<string>, retryClass: Option<RetryClass>,
        at: Instant)
      modifies this
      ensures View() == Records.ConcludeAttempt(old(View()), k, observed, error, retryClass, at)
      ensures k < |old(attempts)| && old(attempts)[k].state != Concluded ==>
        var row := old(attempts)[k];
        attempts == old(attempts)[k := AttemptRow(row.actionId, row.requestedAt, Concluded, Some(observed),
          row.providerRef, if error.Some? then error else row.error,
          if retryClass.Some? then retryClass else row.retryClass, Some(at))]
      ensures k >= |old(attempts)| || old(attempts)[k].state == Concluded ==> attempts == old(attempts)
    {
      if k < |attempts| && attempts[k].state != Concluded {
        var row := attempts[k];
        row := row.(state := Concluded, observed := Some(observed), concludedAt := Some(at));
        row := row.(error := Coalesce(error, row.error), retryClass := Coalesce(retryClass, row.retryClass));
        attempts := attempts[k := row];
      }
    }

    /** Park a RUNNING attempt; any other row stays as it is. */
    method MarkAwaitingReconciliation(k: nat, error: string, retryClass: RetryClass)
      modifies this
      ensures View() == MarkAwaiting(old(View()), k, error, retryClass)
      ensures k < |old(attempts)| && old(attempts)[k].state == Running ==>
        var row := old(attempts)[k];
        attempts == old(attempts)[k := AttemptRow(row.actionId, row.requestedAt, Awaiting, row.observed,
          row.providerRef, Some(error), Some(retryClass), row.concludedAt)]
      ensures k >= |old(attempts)| || old(attempts)[k].state != Running ==> attempts == old(attempts)
    {
      if k < |attempts| && attempts[k].state == Running {
        var row := attempts[k].(state := Awaiting, error := Some(error), retryClass := Some(retryClass));
        attempts := attempts[k := row];
      }
    }

    method GetRunningAttempts() returns (ids: seq<nat>)
      ensures ids == RunningAttempts(attempts)
    {
      ids := [];
      var i := 0;
      while i < |attempts|
        invariant 0 <= i <= |attempts|
        invariant ids == RunningAttempts(attempts[..i])
      {
        assert attempts[..i + 1][..i] == attempts[..i];
        if attempts[i].state == Running {
          ids := ids + [i];
        }
        i := i + 1;
      }
      assert attempts[..|attempts|] == attempts;
    }

    // ------------------------------------------------------------------ keys

    method GetIdempotency(scope: string, key: string) returns (r: Option<KeyRow>)
      ensures r == GetKey(View(), scope, key)
    {
      if (scope, key) in keys {
        return Some(keys[(scope, key)]);
      }
      return None;
    }

    method CreateIdempotency(scope: string, key: string, row: KeyRow) returns (error: Option<StoreError>)
      modifies this
      ensures Did(CreateKey(old(View()), scope, key, row), old(View()), View(), error)
      ensures error.Some? <==> (scope, key) in old(keys)
      ensures error.None? ==> keys == old(keys)[(scope, key) := row]
    {
      if (scope, key) in keys {
        return Some(KeyExists);
      }
      keys := keys[(scope, key) := row];
      return None;
    }

    // ---------------------------------------------------------- observations

    method RecordObservation(k: nat, at: Instant, evidence: Evidence)
      modifies this
      ensures View() == old(View()).(observations := old(observations) + [ObservationRow(k, at, evidence)])
    {
      observations := observations + [ObservationRow(k, at, evidence)];
    }

    method ObservationsForAttempt(k: nat) returns (out: seq<ObservationRow>)
      ensures out == ObservationsOf(observations, k)
    {
      out := [];
      var i := 0;
      while i < |observations|
        invariant 0 <= i <= |observations|
        invariant out == ObservationsOf(observations[..i], k)
      {
        assert observations[..i + 1][..i] == observations[..i];
        if observations[i].attemptId == k {
          out := out + [observations[i]];
        }
        i := i + 1;
      }
      assert observations[..|observations|] == observations;
    }

    // ----------------------------------------------------------------- edges

    /** A duplicate edge is the same fact: nothing happens. */
    method AddDependency(scope: string, parent: nat, dependent: nat)
      modifies this
      ensures View() == old(View()).(edges := AddEdge(old(edges), Edge(scope, parent, dependent)))
    {
      if exists i :: 0 <= i < |edges| && edges[i].parent == parent && edges[i].dependent == dependent {
        return;
      }
      edges := edges + [Edge(scope, parent, dependent)];
    }

    method DependenciesOfParent(scope: string, parent: nat) returns (out: seq<Edge>)
      ensures out == EdgesOfParent(edges, scope, parent)
    {
      out := [];
      var i := 0;
      while i < |edges|
        invariant 0 <= i <= |edges|
        invariant out == EdgesOfParent(edges[..i], scope, parent)
      {
        assert edges[..i + 1][..i] == edges[..i];
        if edges[i].scope == scope && edges[i].parent == parent {
          out := out + [edges[i]];
        }
        i := i + 1;
      }
      assert edges[..|edges|] == edges;
    }

    method DependenciesOfDependent(scope: string, dependent: nat) returns (out: seq<Edge>)
      ensures out == EdgesOfDependent(edges, scope, dependent)
    {
      out := [];
      var i := 0;
      while i < |edges|
        invariant 0 <= i <= |edges|
        invariant out == EdgesOfDependent(edges[..i], scope, dependent)
      {
        assert edges[..i + 1][..i] == edges[..i];
        if edges[i].scope == scope && edges[i].dependent == dependent {
          out := out + [edges[i]];
        }
        i := i + 1;
      }
      assert edges[..|edges|] == edges;
    }
  }

  /** An open transaction remembers the tables as they were when it began; committing keeps
      what has been written since. */
  class Tx {
    const store: Store
    const began: Tables

    constructor (store: Store)
      ensures this.store == store && this.began == store.View()
    {
      this.store, this.began := store, store.View();
    }

    /** Undo everything since the transaction began. */
    method Rollback()
      modifies store
      ensures store.View() == began
    {
      store.actions, store.history := began.actions, began.history;
      store.attempts, store.keys := began.attempts, began.keys;
      store.observations, store.edges := began.observations, began.edges;
      store.resources, store.notifications := began.resources, began.notifications;
    }
  }
}
