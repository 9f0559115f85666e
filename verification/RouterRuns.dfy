/** The dataplane and the hold rule over whole runs of a network. */
module RouterRuns {
  import opened Metric
  import opened RouterState
  import opened RouteSelection
  import opened RouterOps
  import opened RouterSafety
  import opened BabelNetwork
  import opened RouterActions

  // ---------- the dataplane follows the table ----------

  /** `t` has the routes and dataplane tables of `s`, except for counted acknowledgements. */
  ghost predicate SameTables(s: Node, t: Node) {
    && t.id == s.id && t.forward == s.forward && t.exits == s.exits && t.routes.Keys == s.routes.Keys
    && forall p :: p in s.routes ==> SameSelection(s.routes[p], t.routes[p])
  }

  ghost predicate SameSelection(r: SelRoute, r': SelRoute) {
    r'.pub == r.pub && r'.nh == r.nh
  }

  lemma {:induction false} EqualTables(s: Node, t: Node)
    requires t.id == s.id && t.forward == s.forward && t.exits == s.exits && t.routes == s.routes
    ensures SameTables(s, t)
  {
  }

  lemma {:induction false} AckTables(s: Node, neigh: NodeId, p: Prefix, t: Node)
    requires Counts(s, neigh, p) && t == Acked(s, neigh, p)
    ensures SameTables(s, t)
  {
    assert t.routes.Keys == s.routes.Keys;
  }

  lemma {:induction false} StepTables(s: Node, ev: Event, t: Node)
    requires NodeStep(s, ev, t) && !ev.ComputeRoutes?
    ensures SameTables(s, t)
  {
    match ev
    case PushTable(to) => EqualTables(s, t);
    case AnswerRequest(from, src, seqno) => EqualTables(s, t);
    case CountAck(neigh, p) => AckTables(s, neigh, p, t);
    case ExpireRoutes(now) => EqualTables(s, t);
    case ForgetSources => EqualTables(s, t);
    case RaiseSeqno(prefix, seqno) => EqualTables(s, t);
    case Flush(left) => EqualTables(s, t);
    case Deliver(m, i, now) =>
      var r := StoreUpdateShape(s, i, m.adv, now);
      EqualTables(s, t);
    case Environment(node) => EqualTables(s, t);
  }

  lemma {:induction false} SameTablesAgree(s: Node, t: Node)
    requires DataplaneAgrees(s) && SameTables(s, t)
    ensures DataplaneAgrees(t)
  {
    forall p
      ensures AgreesAt(t, p)
    {
      assert AgreesAt(s, p);
      assert p in s.routes ==> SameSelection(s.routes[p], t.routes[p]);
    }
  }

  lemma {:induction false} StepKeepsDataplane(s: Node, ev: Event, t: Node)
    requires s.Valid() && NodeStep(s, ev, t) && DataplaneAgrees(s)
    ensures DataplaneAgrees(t)
  {
    if ev.ComputeRoutes? {
      ComputeKeepsDataplane(s, ev.now);
    } else {
      StepTables(s, ev, t);
      SameTablesAgree(s, t);
    }
  }

  /** In every state of every run, at every router, packets are forwarded exactly as routes are
      selected. */
  lemma {:induction false} RunKeepsDataplane(h: History, v: NodeId)
    requires IsRun(h) && v in h.net.nodes
    ensures DataplaneAgrees(h.net.nodes[v])
  {
    match h
    case Start(net) =>
    case Then(before, u, ev, net) =>
      RunKeepsDataplane(before, v);
      if u == v {
        StepKeepsDataplane(before.net.nodes[v], ev, net.nodes[v]);
      }
  }

  // ---------- holding a retracted route ----------

  /** No step makes a finite route vanish. */
  lemma {:induction false} StepHoldsLostRoute(s: Node, ev: Event, t: Node, p: Prefix)
    requires s.Valid() && NodeStep(s, ev, t) && p in s.routes && s.routes[p].Finite()
    ensures p in t.routes
    ensures !t.routes[p].Finite() ==> t.routes[p] == RetractedRoute(s.routes[p])
  {
    if ev.ComputeRoutes? {
      LostRouteIsHeld(s, p, ev.now);
    } else {
      StepTables(s, ev, t);
      assert SameSelection(s.routes[p], t.routes[p]);
    }
  }

  /** At router `v` only reachable neighbours acknowledge, and which neighbours are reachable
      does not change. */
  ghost predicate SteadyStep(s: Node, ev: Event, t: Node) {
    && (ev.CountAck? ==> ev.neigh in ReachableIds(s.neighbours))
    && (ev.Environment? ==> ReachableIds(t.neighbours) == ReachableIds(s.neighbours))
  }

  ghost predicate SteadySince(h: History, v: NodeId, start: History)
    requires v in h.net.nodes
  {
    || h == start
    || (&& h.Then? && v in h.before.net.nodes && SteadySince(h.before, v, start)
        && (h.router == v ==> SteadyStep(h.before.net.nodes[v], h.event, h.net.nodes[v])))
  }

  lemma {:induction false} SettingReaches(s: Node, t: Node)
    requires SameSetting(s, t)
    ensures ReachableIds(t.neighbours) == ReachableIds(s.neighbours)
  {
    assert forall i :: 0 <= i < |s.neighbours| ==> SameLink(s.neighbours[i], t.neighbours[i]);
  }

  lemma {:induction false} StepRoutes(s: Node, ev: Event, t: Node)
    requires NodeStep(s, ev, t) && !ev.ComputeRoutes? && !ev.CountAck?
    ensures t.routes == s.routes
  {
    if ev.Deliver? {
      var r := StoreUpdateShape(s, ev.index, ev.msg.adv, ev.now);
    }
  }

  lemma {:induction false} LinksKeepAcks(s: Node, t: Node)
    requires AcksReachable(s) && ReachableIds(t.neighbours) == ReachableIds(s.neighbours) && t.routes == s.routes
    ensures AcksReachable(t)
  {
    forall p | p in t.routes
      ensures AcksReachableAt(t.neighbours, t.routes[p].retractedBy)
    {
      assert AcksReachableAt(s.neighbours, s.routes[p].retractedBy);
    }
  }

  lemma {:induction false} StepKeepsAcks(s: Node, ev: Event, t: Node)
    requires s.Valid() && NodeStep(s, ev, t) && SteadyStep(s, ev, t) && AcksReachable(s)
    ensures AcksReachable(t)
  {
    match ev
    case ComputeRoutes(now) => ComputeKeepsAcks(s, now);
    case CountAck(neigh, p) => AckedKeepsAcks(s, neigh, p);
    case Environment(node) => LinksKeepAcks(s, t);
    case _ =>
      StepSetting(s, ev, t);
      SettingReaches(s, t);
      StepRoutes(s, ev, t);
      LinksKeepAcks(s, t);
  }

  lemma {:induction false} SteadyRunKeepsAcks(h: History, v: NodeId, start: History)
    requires IsRun(h) && v in h.net.nodes && v in start.net.nodes
    requires SteadySince(h, v, start) && AcksReachable(start.net.nodes[v])
    ensures AcksReachable(h.net.nodes[v])
  {
    if h != start {
      SteadyRunKeepsAcks(h.before, v, start);
      if h.router == v {
        StepKeepsAcks(h.before.net.nodes[v], h.event, h.net.nodes[v]);
      }
    }
  }

  /** While the reachable neighbours stay the same and only they acknowledge, a held route via
      another node that has not expired is dropped without a replacement only once every one of
      them has acknowledged its retraction. */
  lemma {:induction false} DropNeedsEveryAck(h: History, v: NodeId, start: History, p: Prefix, now: int)
    requires IsRun(h) && v in h.net.nodes && v in start.net.nodes
    requires SteadySince(h, v, start) && AcksReachable(start.net.nodes[v])
    requires var s := h.net.nodes[v];
             && p in s.routes && !s.routes[p].Finite() && s.routes[p].nh != v && now < s.routes[p].expireAt
             && p !in Compute(s, now).routes
    ensures var s := h.net.nodes[v]; AckIds(s.routes[p].retractedBy) == ReachableIds(s.neighbours)
  {
    SteadyRunKeepsAcks(h, v, start);
    DroppedOnlyWhenAllAcked(h.net.nodes[v], p, now);
  }
}
