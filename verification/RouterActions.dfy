/** What every event keeps of a network besides the invariant, and the operations of a router as
    sequences of events. */
module RouterActions {
  import opened Basics
  import opened Metric
  import opened RouterState
  import opened RouteSelection
  import opened RouterOps
  import opened RouterSafety
  import opened BabelNetwork

  // ---------- a well-formed network stays one ----------

  ghost predicate SameLinks(ns: seq<Neighbour>, ms: seq<Neighbour>) {
    |ms| == |ns| && forall i :: 0 <= i < |ns| ==> SameLink(ns[i], ms[i])
  }

  ghost predicate SameLink(a: Neighbour, b: Neighbour) {
    b.id == a.id && b.reachable == a.reachable && b.linkCost == a.linkCost
  }

  ghost predicate Shrinks(a: map<Prefix, Advertisement>, b: map<Prefix, Advertisement>) {
    forall p :: p in b ==> p in a && b[p] == a[p]
  }

  /** Apart from the environment nobody changes links or tunables, or adds own prefixes. */
  ghost predicate SameSetting(s: Node, t: Node) {
    && t.id == s.id && t.tun == s.tun
    && SameLinks(s.neighbours, t.neighbours) && Shrinks(s.advertised, t.advertised)
  }

  lemma {:induction false} SmoothSetting(s: Node, now: int)
    ensures SameSetting(s, Compute(s, now))
  {
    assert forall i :: 0 <= i < |s.neighbours| ==> SmoothAll(s)[i] == SmoothNeighbour(s, s.neighbours[i]);
  }

  lemma {:induction false} ExpireSetting(s: Node, now: int)
    ensures SameSetting(s, Expire(s, now))
  {
    assert forall i :: 0 <= i < |s.neighbours| ==> Expire(s, now).neighbours[i] == ExpireNeighbour(s.neighbours[i], s.tun, now);
  }

  lemma {:induction false} StoreSetting(s: Node, i: nat, adv: PubRoute, now: int)
    requires i < |s.neighbours|
    ensures SameSetting(s, StoreUpdate(s, i, adv, now))
  {
    var r := StoreUpdateShape(s, i, adv, now);
  }

  lemma {:induction false} EqualSetting(s: Node, t: Node)
    requires t.id == s.id && t.tun == s.tun && t.neighbours == s.neighbours && t.advertised == s.advertised
    ensures SameSetting(s, t)
  {
  }

  lemma {:induction false} StepSetting(s: Node, ev: Event, t: Node)
    requires NodeStep(s, ev, t) && !ev.Environment?
    ensures SameSetting(s, t)
  {
    match ev
    case ComputeRoutes(now) => SmoothSetting(s, now);
    case ExpireRoutes(now) => ExpireSetting(s, now);
    case Deliver(m, i, now) => StoreSetting(s, i, m.adv, now);
    case _ => EqualSetting(s, t);
  }

  lemma {:induction false} StepValid(s: Node, ev: Event, t: Node)
    requires s.Valid() && NodeStep(s, ev, t)
    ensures t.Valid()
  {
    match ev
    case ComputeRoutes(now) => ComputeValid(s, now);
    case PushTable(to) => QueueKeyed(s.updates, to, Pubs(s.routes));
    case ExpireRoutes(now) =>
      assert forall i :: 0 <= i < |t.neighbours| ==> t.neighbours[i] == ExpireNeighbour(s.neighbours[i], s.tun, now);
    case Deliver(m, i, now) =>
      var r := StoreUpdateShape(s, i, m.adv, now);
      PutRouteAt(s.neighbours, i, m.adv.source.prefix, r);
    case _ =>
  }

  lemma {:induction false} SettingCosts(s: Node, t: Node)
    requires CostlyLinks(s) && SameSetting(s, t)
    ensures CostlyLinks(t)
  {
    forall i | 0 <= i < |t.neighbours|
      ensures 0 < LinkMetric(t.tun, t.neighbours[i])
    {
      assert SameLink(s.neighbours[i], t.neighbours[i]);
    }
  }

  lemma {:induction false} StepKeepsWellFormed(net: Net, v: NodeId, ev: Event, net': Net)
    requires WellFormed(net) && Next(net, v, ev, net') && !ev.Environment?
    ensures WellFormed(net')
  {
    StepSetting(net.nodes[v], ev, net'.nodes[v]);
    StepValid(net.nodes[v], ev, net'.nodes[v]);
    SettingCosts(net.nodes[v], net'.nodes[v]);
  }

  // ---------- sequence numbers only come from their source ----------

  lemma {:induction false} EntrySeqno(s: Node, now: int, src: Source, w: U16, p: Prefix)
    requires s.Valid() && NodeWindowed(s, src, w) && p in Compute(s, now).routes && Compute(s, now).routes[p].pub.source == src
    ensures InWindow(w, Compute(s, now).routes[p].pub.fd.seqno)
  {
    TableAt(s, now, p);
    if !Retracts(s, p, now) {
      NewEntrySeqno(s, p, now, src, w);
    }
  }

  lemma {:induction false} BroadcastSeqno(s: Node, now: int, src: Source, w: U16, p: Prefix)
    requires s.Valid() && NodeWindowed(s, src, w) && p in Broadcasts(s, now) && Broadcasts(s, now)[p].source == src
    ensures InWindow(w, Broadcasts(s, now)[p].fd.seqno)
  {
    if p in Lost(s, now) {
      assert Broadcasts(s, now)[p].fd.seqno == s.routes[p].pub.fd.seqno;
    } else {
      NewTableAt(s, now, p);
      NewEntrySeqno(s, p, now, src, w);
    }
  }

  /** The window, table by table. */
  ghost predicate UpdatesWindowed(updates: map<Dest, PubRoute>, src: Source, w: U16) {
    forall d :: d in updates && updates[d].source == src ==> InWindow(w, updates[d].fd.seqno)
  }

  ghost predicate RoutesWindowed(routes: map<Prefix, SelRoute>, src: Source, w: U16) {
    forall p :: p in routes && routes[p].pub.source == src ==> InWindow(w, routes[p].pub.fd.seqno)
  }

  ghost predicate StoredWindowed(ns: seq<Neighbour>, src: Source, w: U16) {
    forall i, p :: 0 <= i < |ns| && p in ns[i].routes && ns[i].routes[p].pub.source == src ==> InWindow(w, ns[i].routes[p].pub.fd.seqno)
  }

  ghost predicate SourceWindowed(sources: map<Source, FD>, src: Source, w: U16) {
    src in sources ==> InWindow(w, sources[src].seqno)
  }

  ghost predicate OwnWindowed(id: NodeId, own: map<Prefix, U16>, src: Source, w: U16) {
    src.node == id ==> InWindow(w, if src.prefix in own then own[src.prefix] else 0)
  }

  lemma {:induction false} WindowParts(t: Node, src: Source, w: U16)
    ensures NodeWindowed(t, src, w) <==>
            && UpdatesWindowed(t.updates, src, w) && RoutesWindowed(t.routes, src, w) && StoredWindowed(t.neighbours, src, w)
            && SourceWindowed(t.sources, src, w) && OwnWindowed(t.id, t.selfSeqno, src, w)
  {
  }

  lemma {:induction false} QueueWindowed(updates: map<Dest, PubRoute>, to: set<NodeId>, sent: map<Prefix, PubRoute>, src: Source, w: U16)
    requires UpdatesWindowed(updates, src, w)
    requires forall p :: p in sent && sent[p].source == src ==> InWindow(w, sent[p].fd.seqno)
    ensures UpdatesWindowed(Queue(updates, to, sent), src, w)
  {
    var q := Queue(updates, to, sent);
    forall d | d in q && q[d].source == src
      ensures InWindow(w, q[d].fd.seqno)
    {
      QueueAt(updates, to, sent, d);
    }
  }

  lemma {:induction false} ComputedUpdates(s: Node, now: int, src: Source, w: U16)
    requires s.Valid() && NodeWindowed(s, src, w)
    ensures UpdatesWindowed(Compute(s, now).updates, src, w)
  {
    forall p | p in Broadcasts(s, now) && Broadcasts(s, now)[p].source == src
      ensures InWindow(w, Broadcasts(s, now)[p].fd.seqno)
    {
      BroadcastSeqno(s, now, src, w, p);
    }
    QueueWindowed(s.updates, Ids(s.neighbours), Broadcasts(s, now), src, w);
  }

  lemma {:induction false} ComputedRoutes(s: Node, now: int, src: Source, w: U16)
    requires s.Valid() && NodeWindowed(s, src, w)
    ensures RoutesWindowed(Compute(s, now).routes, src, w)
  {
    forall p | p in Compute(s, now).routes && Compute(s, now).routes[p].pub.source == src
      ensures InWindow(w, Compute(s, now).routes[p].pub.fd.seqno)
    {
      EntrySeqno(s, now, src, w, p);
    }
  }

  lemma {:induction false} SmoothedWindow(s: Node, src: Source, w: U16)
    requires NodeWindowed(s, src, w)
    ensures StoredWindowed(SmoothAll(s), src, w)
  {
    var ns := SmoothAll(s);
    forall i, p | 0 <= i < |ns| && p in ns[i].routes && ns[i].routes[p].pub.source == src
      ensures InWindow(w, ns[i].routes[p].pub.fd.seqno)
    {
      SmoothStored(s, ns, i, p);
    }
  }

  lemma {:induction false} ComputeKeepsWindow(s: Node, now: int, src: Source, w: U16)
    requires s.Valid() && NodeWindowed(s, src, w)
    ensures NodeWindowed(Compute(s, now), src, w)
  {
    WindowParts(s, src, w);
    ComputedSources(s, now, src, w);
    ComputedUpdates(s, now, src, w);
    ComputedRoutes(s, now, src, w);
    SmoothedWindow(s, src, w);
    WindowParts(Compute(s, now), src, w);
  }

  lemma {:induction false} ComputedSources(s: Node, now: int, src: Source, w: U16)
    requires s.Valid() && NodeWindowed(s, src, w)
    ensures SourceWindowed(Compute(s, now).sources, src, w)
  {
    ComputeSources(s, now, src, w);
  }

  lemma {:induction false} PushedSources(s: Node, to: set<NodeId>, src: Source, w: U16)
    requires s.Valid() && NodeWindowed(s, src, w)
    ensures SourceWindowed(Push(s, to).sources, src, w)
  {
    PushUpdates(s, to, src, w);
  }

  lemma {:induction false} PubsWindowed(routes: map<Prefix, SelRoute>, src: Source, w: U16)
    requires RoutesWindowed(routes, src, w)
    ensures forall p :: p in Pubs(routes) && Pubs(routes)[p].source == src ==> InWindow(w, Pubs(routes)[p].fd.seqno)
  {
  }

  lemma {:induction false} PushKeepsWindow(s: Node, to: set<NodeId>, src: Source, w: U16)
    requires s.Valid() && NodeWindowed(s, src, w)
    ensures NodeWindowed(Push(s, to), src, w)
  {
    WindowParts(s, src, w);
    PushedSources(s, to, src, w);
    PubsWindowed(s.routes, src, w);
    QueueWindowed(s.updates, to, Pubs(s.routes), src, w);
    WindowParts(Push(s, to), src, w);
  }

  lemma {:induction false} ReplyKeepsWindow(s: Node, from: NodeId, req: Source, seqno: U16, src: Source, w: U16)
    requires s.Valid() && NodeWindowed(s, src, w)
    ensures NodeWindowed(Replied(s, from, req, seqno), src, w)
  {
    if Replies(s, req, seqno) {
      var pub := s.routes[req.prefix].pub;
      WindowParts(s, src, w);
      QueuedWindow(s.updates, Dest(from, req.prefix), pub, src, w);
      AdvancedWindow(s, pub, src, w);
      WindowParts(Reply(s, from, req.prefix), src, w);
    }
  }

  lemma {:induction false} QueuedWindow(updates: map<Dest, PubRoute>, d: Dest, pub: PubRoute, src: Source, w: U16)
    requires UpdatesWindowed(updates, src, w) && (pub.source == src ==> InWindow(w, pub.fd.seqno))
    ensures UpdatesWindowed(updates[d := pub], src, w)
  {
  }

  lemma {:induction false} AdvancedWindow(s: Node, pub: PubRoute, src: Source, w: U16)
    requires NodeWindowed(s, src, w) && (pub.source == src ==> InWindow(w, pub.fd.seqno))
    ensures SourceWindowed(Advance(s.sources, pub), src, w)
  {
    if pub.source == src {
      AdvanceGuarantee(s, pub, w);
    }
  }

  lemma {:induction false} ExpireKeepsWindow(s: Node, now: int, src: Source, w: U16)
    requires NodeWindowed(s, src, w)
    ensures NodeWindowed(Expire(s, now), src, w)
  {
    var t := Expire(s, now);
    forall i, p | 0 <= i < |t.neighbours| && p in t.neighbours[i].routes && t.neighbours[i].routes[p].pub.source == src
      ensures InWindow(w, t.neighbours[i].routes[p].pub.fd.seqno)
    {
      assert t.neighbours[i] == ExpireNeighbour(s.neighbours[i], s.tun, now);
      assert s.neighbours[i].routes[p].pub.source == src;
    }
  }

  lemma {:induction false} DeliverKeepsWindow(s: Node, m: Msg, i: nat, now: int, src: Source, w: U16)
    requires s.Valid() && NodeWindowed(s, src, w) && i < |s.neighbours|
    requires m.adv.source == src ==> InWindow(w, m.adv.fd.seqno)
    ensures NodeWindowed(StoreUpdate(s, i, m.adv, now), src, w)
  {
    var r := StoreUpdateShape(s, i, m.adv, now);
    PutRouteAt(s.neighbours, i, m.adv.source.prefix, r);
  }

  lemma {:induction false} EnvironmentKeepsWindow(s: Node, t: Node, src: Source, w: U16)
    requires NodeWindowed(s, src, w) && EnvironmentChange(s, t)
    ensures NodeWindowed(t, src, w)
  {
    forall i, p | 0 <= i < |t.neighbours| && p in t.neighbours[i].routes && t.neighbours[i].routes[p].pub.source == src
      ensures InWindow(w, t.neighbours[i].routes[p].pub.fd.seqno)
    {
      var j :| 0 <= j < |s.neighbours| && s.neighbours[j].id == t.neighbours[i].id && s.neighbours[j].routes == t.neighbours[i].routes;
      assert p in s.neighbours[j].routes;
    }
    WindowParts(t, src, w);
  }

  /** A new own number of the source that is inside the window too. */
  ghost predicate RaisesInside(id: NodeId, ev: Event, src: Source, w: U16) {
    ev.RaiseSeqno? && src == Source(id, ev.prefix) ==> InWindow(w, ev.seqno)
  }

  lemma {:induction false} NodeStepKeepsWindow(s: Node, ev: Event, t: Node, src: Source, w: U16)
    requires s.Valid() && NodeWindowed(s, src, w) && NodeStep(s, ev, t) && RaisesInside(s.id, ev, src, w)
    requires ev.Deliver? && ev.msg.adv.source == src ==> InWindow(w, ev.msg.adv.fd.seqno)
    ensures NodeWindowed(t, src, w)
  {
    match ev
    case ComputeRoutes(now) => ComputeKeepsWindow(s, now, src, w);
    case PushTable(to) => PushKeepsWindow(s, to, src, w);
    case AnswerRequest(from, req, seqno) => ReplyKeepsWindow(s, from, req, seqno, src, w);
    case ExpireRoutes(now) => ExpireKeepsWindow(s, now, src, w);
    case Deliver(m, i, now) => DeliverKeepsWindow(s, m, i, now, src, w);
    case Environment(node) => EnvironmentKeepsWindow(s, t, src, w);
    case CountAck(neigh, p) => AckKeepsWindow(s, neigh, p, src, w);
    case RaiseSeqno(p, seqno) => RaiseKeepsWindow(s, p, seqno, src, w);
    case ForgetSources => ForgetKeepsWindow(s, src, w);
    case Flush(left) =>
      WindowParts(s, src, w);
      WindowParts(t, src, w);
  }

  lemma {:induction false} AckKeepsWindow(s: Node, neigh: NodeId, p: Prefix, src: Source, w: U16)
    requires NodeWindowed(s, src, w) && Counts(s, neigh, p)
    ensures NodeWindowed(Acked(s, neigh, p), src, w)
  {
    var t := Acked(s, neigh, p);
    assert forall q :: q in t.routes ==> q in s.routes && t.routes[q].pub == s.routes[q].pub;
    WindowParts(s, src, w);
    WindowParts(t, src, w);
  }

  lemma {:induction false} RaiseKeepsWindow(s: Node, p: Prefix, seqno: U16, src: Source, w: U16)
    requires NodeWindowed(s, src, w) && (src == Source(s.id, p) ==> InWindow(w, seqno))
    ensures NodeWindowed(Bump(s, p, seqno), src, w)
  {
    WindowParts(s, src, w);
    WindowParts(Bump(s, p, seqno), src, w);
  }

  lemma {:induction false} ForgetKeepsWindow(s: Node, src: Source, w: U16)
    requires NodeWindowed(s, src, w)
    ensures NodeWindowed(DropSources(s), src, w)
  {
    WindowParts(s, src, w);
    WindowParts(DropSources(s), src, w);
  }

  /** A step inside the window stays there unless the source leaves it. */
  lemma {:induction false} StepKeepsWindow(net: Net, v: NodeId, ev: Event, net': Net, src: Source, w: U16)
    requires WellFormed(net) && Windowed(net, src, w) && Next(net, v, ev, net') && RaisesInside(v, ev, src, w)
    ensures Windowed(net', src, w)
  {
    var s, t := net.nodes[v], net'.nodes[v];
    assert NodeWindowed(s, src, w);
    NodeStepKeepsWindow(s, ev, t, src, w);
    WireWindowed(net, s, net'.wire, src, w);
  }

  lemma {:induction false} WireWindowed(net: Net, s: Node, wire: set<Msg>, src: Source, w: U16)
    requires Windowed(net, src, w) && NodeWindowed(s, src, w) && wire <= net.wire + Outgoing(s)
    ensures forall m :: m in wire && m.adv.source == src ==> InWindow(w, m.adv.fd.seqno)
  {
    forall m | m in wire && m.adv.source == src
      ensures InWindow(w, m.adv.fd.seqno)
    {
      if m !in net.wire {
        var d :| d in s.updates && m == Msg(s.id, d.neigh, s.updates[d]);
      }
    }
  }

  ghost predicate AllRaisesInside(h: History, src: Source, w: U16) {
    h.Then? ==> RaisesInside(h.router, h.event, src, w) && AllRaisesInside(h.before, src, w)
  }

  function First(h: History): Net { if h.Start? then h.net else First(h.before) }

  lemma {:induction false} InitialWindowed(net: Net, src: Source, w: U16)
    requires WellFormed(net) && Initial(net)
    requires src.node in net.nodes ==> InWindow(w, net.nodes[src.node].Seqno(src.prefix))
    ensures Windowed(net, src, w)
  {
    forall v | v in net.nodes
      ensures NodeWindowed(net.nodes[v], src, w)
    {
      WindowParts(net.nodes[v], src, w);
    }
  }

  /** All sequence numbers of a source lie within the window as long as it gives itself no other
      ones: the hypothesis of loop freedom is about the origin of a prefix alone. */
  lemma {:induction false} SourceKeepsWindow(h: History, src: Source, w: U16)
    requires IsRun(h) && AllRaisesInside(h, src, w)
    requires src.node in First(h).nodes ==> InWindow(w, First(h).nodes[src.node].Seqno(src.prefix))
    ensures Windowed(h.net, src, w) && AlwaysWindowed(h, src)
  {
    if h.Then? {
      SourceKeepsWindow(h.before, src, w);
      StepKeepsWindow(h.before.net, h.router, h.event, h.net, src, w);
    } else {
      InitialWindowed(h.net, src, w);
    }
    assert InUse(h.net, src);
  }

  /** Loop freedom from what the origin of a prefix does: it only gives itself sequence numbers
      within one half of the number space, and nobody forgets a distance that others rely on. */
  lemma {:induction false} OriginKeepsLoopsOut(h: History, src: Source, w: U16, path: seq<NodeId>, p: Prefix)
    requires IsRun(h) && KeepsRelied(h, src) && AllRaisesInside(h, src, w)
    requires src.node in First(h).nodes ==> InWindow(w, First(h).nodes[src.node].Seqno(src.prefix))
    requires |path| >= 2 && ForwardingPath(h.net, path, p, src)
    ensures path[0] != path[|path| - 1]
  {
    SourceKeepsWindow(h, src, w);
    NoForwardingLoop(h, src, path, p);
  }

  // ---------- the operations of a router ----------

  /** One more step of a run. */
  lemma {:induction false} Extend(h: History, v: NodeId, ev: Event, t: Node, wire: set<Msg>) returns (h': History)
    requires IsRun(h) && v in h.net.nodes && NodeStep(h.net.nodes[v], ev, t) && !ev.Environment?
    requires ev.Deliver? ==> ev.msg in h.net.wire
    requires wire <= h.net.wire + if ev.Flush? then Outgoing(h.net.nodes[v]) else {}
    ensures h' == Then(h, v, ev, Net(h.net.nodes[v := t], wire)) && IsRun(h')
  {
    var net := Net(h.net.nodes[v := t], wire);
    StepKeepsWellFormed(h.net, v, ev, net);
    h' := Then(h, v, ev, net);
  }

  /** A run that goes on with router `v` in state `t` and everything else as it is. */
  ghost predicate Continues(h: History, v: NodeId, t: Node, h': History)
    requires v in h.net.nodes
  {
    IsRun(h') && h'.net == Net(h.net.nodes[v := t], h.net.wire)
  }

  /** An event that needs no message and sends none. */
  predicate Local(ev: Event) { !ev.Deliver? && !ev.Flush? && !ev.Environment? }

  lemma {:induction false} Act(h: History, v: NodeId, ev: Event, t: Node) returns (h': History)
    requires IsRun(h) && v in h.net.nodes && NodeStep(h.net.nodes[v], ev, t) && Local(ev)
    ensures Continues(h, v, t, h')
  {
    h' := Extend(h, v, ev, t, h.net.wire);
  }

  lemma {:induction false} ThenContinues(h: History, v: NodeId, t: Node, h1: History, t': Node, h2: History)
    requires v in h.net.nodes && Continues(h, v, t, h1) && Continues(h1, v, t', h2)
    ensures Continues(h, v, t', h2)
  {
    assert h.net.nodes[v := t][v := t'] == h.net.nodes[v := t'];
  }

  lemma {:induction false} ComputeRun(h: History, v: NodeId, now: int) returns (h': History)
    requires IsRun(h) && v in h.net.nodes
    ensures Continues(h, v, Compute(h.net.nodes[v], now), h')
  {
    h' := Act(h, v, ComputeRoutes(now), Compute(h.net.nodes[v], now));
  }

  /** The operations of a router lead from states of runs to states of runs, so that theorems
      about all runs hold after them. */
  lemma {:induction false} AckRetractRun(h: History, v: NodeId, neigh: NodeId, p: Prefix, now: int) returns (h': History)
    requires IsRun(h) && v in h.net.nodes
    ensures Continues(h, v, AckRetract(h.net.nodes[v], neigh, p, now), h')
  {
    var s := h.net.nodes[v];
    if Counts(s, neigh, p) {
      var h1 := Act(h, v, CountAck(neigh, p), Acked(s, neigh, p));
      h' := ComputeRun(h1, v, now);
      ThenContinues(h, v, Acked(s, neigh, p), h1, Compute(Acked(s, neigh, p), now), h');
    } else {
      h' := h;
      assert h.net.nodes[v := s] == h.net.nodes;
    }
  }

  lemma {:induction false} SeqnoRequestRun(h: History, v: NodeId, from: NodeId, src: Source, seqno: U16, now: int) returns (h': History)
    requires IsRun(h) && v in h.net.nodes
    ensures Continues(h, v, SeqnoRequest(h.net.nodes[v], from, src, seqno, now), h')
  {
    var s := h.net.nodes[v];
    var r := Replied(s, from, src, seqno);
    h' := Act(h, v, AnswerRequest(from, src, seqno), r);
    if Unmet(s, src, seqno) && src.node == s.id {
      var u := Bump(r, src.prefix, seqno);
      var h1 := Act(h', v, RaiseSeqno(src.prefix, seqno), u);
      ThenContinues(h, v, r, h', u, h1);
      h' := ComputeRun(h1, v, now);
      ThenContinues(h, v, u, h1, Compute(u, now), h');
    }
  }

  lemma {:induction false} CollectRun(h: History, v: NodeId, now: int) returns (h': History)
    requires IsRun(h) && v in h.net.nodes
    ensures Continues(h, v, Collect(h.net.nodes[v], now), h')
  {
    var e := Expire(h.net.nodes[v], now);
    var h1 := Act(h, v, ExpireRoutes(now), e);
    var h2 := ComputeRun(h1, v, now);
    ThenContinues(h, v, e, h1, Compute(e, now), h2);
    h' := ForgetRun(h, v, Compute(e, now), h2);
  }

  lemma {:induction false} ForgetRun(h: History, v: NodeId, c: Node, h2: History) returns (h': History)
    requires v in h.net.nodes && Continues(h, v, c, h2)
    ensures Continues(h, v, DropSources(c), h')
  {
    h' := Act(h2, v, ForgetSources, DropSources(c));
    ThenContinues(h, v, c, h2, DropSources(c), h');
  }
}
