/** Request-serial runs: each request starts when no other is in flight. Threads may still
    be abandoned and the process may still crash at any point. */
module Serial {
  import opened Domain
  import opened Protocol
  import opened Dependency

  // -------------------------------------------------------------------- runs

  predicate StartsWork(l: Label) {
    || l.LCreate? || l.LUpdate? || l.LPublish? || l.LNotify? || l.LExternal? || l.LAddEdge?
    || l.LStart? || l.LReconcile?
  }

  /** Work starts only when nothing is in flight, and an edge is added by the checked
      operation, which refuses what its search can reach. */
  predicate SerialLabel(w: World, l: Label) {
    && (StartsWork(l) ==> w.threads == map[])
    && (l.LAddEdge? ==> !Reachable(w.db.edges, l.edge.scope, l.edge.parent, l.edge.dependent))
  }

  ghost predicate SerialRun(w: World, ls: seq<Label>)
    requires CanRun(w, ls)
    decreases |ls|
  {
    ls == [] || (SerialLabel(w, ls[0]) && SerialRun(Apply(w, ls[0]), ls[1..]))
  }

  ghost predicate SeriallyReached(w: World) {
    exists ls :: CanRun(INIT, ls) && SerialRun(INIT, ls) && Run(INIT, ls) == w
  }
}
