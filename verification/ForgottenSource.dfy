/** A run in which a router forgets a source too early and a forwarding loop forms. Router `a`
    announces a prefix to `b` and hears `b`'s own route to it only after its announcement has
    expired and it has dropped the source: nothing is left that makes `b`'s advertisement
    unfeasible, while `b` still routes over `a`. */
module ForgottenSource {
  import opened Basics
  import opened Metric
  import opened RouterState
  import opened RouteSelection
  import opened RouterOps
  import opened RouterSafety
  import opened BabelNetwork
  import opened RouterActions

  // ---------- a router with one neighbour, seen from one source ----------

  /** What a router knows of a source: its route, the distance it keeps, what its neighbour
      advertised last, and whether it announces the prefix itself. */
  datatype Known = Known(route: Option<SelRoute>, dist: Option<FD>, heard: Option<PubRoute>, own: Option<Advertisement>)

  ghost predicate Is<K(!new), V>(m: map<K, V>, k: K, v: Option<V>) {
    (k in m <==> v.Some?) && (k in m ==> m[k] == v.value)
  }

  ghost predicate Knows(s: Node, src: Source, k: Known) {
    var p := src.prefix;
    && s.Valid() && s.selfSeqno == map[]
    && |s.neighbours| == 1 && s.neighbours[0].reachable
    && Is(s.routes, p, k.route) && Is(s.sources, src, k.dist) && Is(s.advertised, p, k.own)
    && (p in s.neighbours[0].routes <==> k.heard.Some?)
    && (p in s.neighbours[0].routes ==> s.neighbours[0].routes[p].pub == k.heard.value)
  }

  /** The distance a router keeps after publishing `e`. */
  function Kept(dist: Option<FD>, src: Source, e: PubRoute): Option<FD> {
    if e.source != src then dist
    else if dist.None? || Better(e.fd, dist.value) then Some(e.fd) else dist
  }

  lemma {:induction false} PublishedAt(s: Node, now: int, p: Prefix)
    requires s.Valid()
    ensures p in Published(s, now) <==> Publishes(s, p, now)
    ensures p in Published(s, now) ==> Published(s, now)[p] == NewEntry(s, p, now).value.pub
  {
    NewTableAt(s, now, p);
  }

  lemma {:induction false} AdvanceKept(sources: map<Source, FD>, src: Source, dist: Option<FD>, e: PubRoute)
    requires Is(sources, src, dist) && e.source == src
    ensures Advance(sources, e)[src] == Kept(dist, src, e).value
  {
  }

  lemma {:induction false} AdvanceAllKept(sources: map<Source, FD>, sent: map<Prefix, PubRoute>, src: Source, dist: Option<FD>)
    requires Is(sources, src, dist) && forall p :: p in sent ==> sent[p].source.prefix == p
    ensures Is(AdvanceAll(sources, sent), src, if src.prefix in sent then Kept(dist, src, sent[src.prefix]) else dist)
  {
    AdvanceAllAt(sources, sent, src);
    if src.prefix in sent && sent[src.prefix].source == src {
      AdvanceKept(sources, src, dist, sent[src.prefix]);
    }
  }

  lemma {:induction false} ComputeSource(s: Node, now: int, src: Source, dist: Option<FD>)
    requires s.Valid() && Is(s.sources, src, dist)
    ensures Is(AdvanceAll(s.sources, Published(s, now)), src,
               if Publishes(s, src.prefix, now) then Kept(dist, src, NewEntry(s, src.prefix, now).value.pub) else dist)
  {
    PublishedKeyed(s, now);
    PublishedAt(s, now, src.prefix);
    AdvanceAllKept(s.sources, Published(s, now), src, dist);
  }

  lemma {:induction false} SmoothFirst(s: Node, p: Prefix)
    requires |s.neighbours| == 1
    ensures var nb, nb' := s.neighbours[0], SmoothAll(s)[0];
            && nb'.id == nb.id && nb'.reachable == nb.reachable && nb'.linkCost == nb.linkCost
            && (p in nb'.routes <==> p in nb.routes) && (p in nb.routes ==> nb'.routes[p].pub == nb.routes[p].pub)
  {
    assert SmoothAll(s)[0] == SmoothNeighbour(s, s.neighbours[0]);
  }

  /** One computation, seen from one source. */
  lemma {:induction false} ComputeKnown(s: Node, now: int, src: Source, k: Known)
    requires Knows(s, src, k)
    ensures Knows(Compute(s, now), src,
                  Known(Entry(s, src.prefix, now),
                        if Publishes(s, src.prefix, now) then Kept(k.dist, src, NewEntry(s, src.prefix, now).value.pub) else k.dist,
                        k.heard, k.own))
  {
    ComputeValid(s, now);
    TableAt(s, now, src.prefix);
    ComputeSource(s, now, src, k.dist);
    SmoothFirst(s, src.prefix);
  }

  /** What a major change queues for the neighbour. */
  lemma {:induction false} ComputeQueues(s: Node, now: int, p: Prefix)
    requires s.Valid() && |s.neighbours| == 1 && Publishes(s, p, now) && !Retracts(s, p, now)
    ensures var d := Dest(s.neighbours[0].id, p);
            d in Compute(s, now).updates && Compute(s, now).updates[d] == NewEntry(s, p, now).value.pub
  {
    PublishedAt(s, now, p);
    assert p in Broadcasts(s, now) && Broadcasts(s, now)[p] == Published(s, now)[p];
    QueueAt(s.updates, Ids(s.neighbours), Broadcasts(s, now), Dest(s.neighbours[0].id, p));
  }

  lemma {:induction false} OneNeighbour(s: Node, p: Prefix)
    requires |s.neighbours| == 1
    ensures var nb := s.neighbours[0];
            && BestOf(s, p, 1) == (if Eligible(s, nb, p) then Some(CandidateOf(s, nb, p)) else None)
            && (CurrentOf(s, p, 1).Some? ==> p in s.routes)
  {
    assert BestOf(s, p, 0) == None;
  }

  // ---------- the four computations of the run ----------

  lemma {:induction false} Announces(s: Node, now: int, src: Source, adv: Advertisement)
    requires Knows(s, src, Known(None, None, None, Some(adv))) && src.node == s.id && !adv.passiveHold && adv.metric != INF
    ensures var r := OwnRoute(s, src.prefix, now);
            && Knows(Compute(s, now), src, Known(Some(r), Some(r.pub.fd), None, Some(adv)))
            && var d := Dest(s.neighbours[0].id, src.prefix);
               d in Compute(s, now).updates && Compute(s, now).updates[d] == r.pub
  {
    OneNeighbour(s, src.prefix);
    assert NewEntry(s, src.prefix, now) == Some(OwnRoute(s, src.prefix, now));
    ComputeKnown(s, now, src, Known(None, None, None, Some(adv)));
    ComputeQueues(s, now, src.prefix);
  }

  /** The route over the neighbour that costs as much as its advertisement and the link. */
  ghost predicate Over(s: Node, adv: PubRoute, r: SelRoute)
    requires |s.neighbours| == 1
  {
    && r.nh == s.neighbours[0].id && r.pub.source == adv.source && r.pub.fd.seqno == adv.fd.seqno
    && r.pub.fd.metric == Total(s.tun, s.neighbours[0], adv)
  }

  lemma {:induction false} Learns(s: Node, now: int, src: Source, adv: PubRoute) returns (r: SelRoute)
    requires Knows(s, src, Known(None, None, Some(adv), None)) && adv.source == src && Total(s.tun, s.neighbours[0], adv) != INF
    ensures Over(s, adv, r) && Knows(Compute(s, now), src, Known(Some(r), Some(r.pub.fd), Some(adv), None))
    ensures var d := Dest(s.neighbours[0].id, src.prefix);
            d in Compute(s, now).updates && Compute(s, now).updates[d] == r.pub
  {
    OneNeighbour(s, src.prefix);
    r := CandidateOf(s, s.neighbours[0], src.prefix).route;
    assert NewEntry(s, src.prefix, now) == Some(r);
    ComputeKnown(s, now, src, Known(None, None, Some(adv), None));
    ComputeQueues(s, now, src.prefix);
  }

  lemma {:induction false} Loses(s: Node, now: int, src: Source, r: SelRoute, dist: Option<FD>)
    requires Knows(s, src, Known(Some(r), dist, None, None)) && r.Finite() && r.nh == s.id
    ensures Knows(Compute(s, now), src, Known(Some(RetractedRoute(r)), dist, None, None))
  {
    OneNeighbour(s, src.prefix);
    assert NewEntry(s, src.prefix, now) == None;
    ComputeKnown(s, now, src, Known(Some(r), dist, None, None));
  }

  lemma {:induction false} Drops(s: Node, now: int, src: Source, r: SelRoute, dist: Option<FD>)
    requires Knows(s, src, Known(Some(r), dist, None, None)) && !r.Finite() && r.nh == s.id
    ensures Knows(Compute(s, now), src, Known(None, dist, None, None))
  {
    OneNeighbour(s, src.prefix);
    assert NewEntry(s, src.prefix, now) == None;
    ComputeKnown(s, now, src, Known(Some(r), dist, None, None));
  }

  // ---------- the other steps ----------

  lemma {:induction false} Withdraws(s: Node, now: int, src: Source, k: Known)
    requires Knows(s, src, k) && k.own.Some? && k.own.value.expiry < now && k.heard == None
    ensures Knows(Expire(s, now), src, k.(own := None))
  {
    StepValid(s, ExpireRoutes(now), Expire(s, now));
    assert Expire(s, now).neighbours[0] == ExpireNeighbour(s.neighbours[0], s.tun, now);
  }

  lemma {:induction false} ForgetsIt(s: Node, src: Source, dist: FD)
    requires Knows(s, src, Known(None, Some(dist), None, None))
    ensures Forgets(s, src) && Knows(DropSources(s), src, Known(None, None, None, None))
  {
  }

  lemma {:induction false} Hears(s: Node, src: Source, adv: PubRoute, now: int)
    requires Knows(s, src, Known(None, None, None, None)) && adv.source == src && adv.Finite()
    ensures Knows(StoreUpdate(s, 0, adv, now), src, Known(None, None, Some(adv), None))
  {
    var r := Stored(s, s.neighbours[0], adv, now);
    PutRouteAt(s.neighbours, 0, src.prefix, r);
    assert StoreUpdate(s, 0, adv, now) == s.(neighbours := PutRoute(s.neighbours, 0, src.prefix, r));
  }

  lemma {:induction false} Flushes(s: Node, src: Source, k: Known)
    requires Knows(s, src, k)
    ensures Knows(s.(updates := map[]), src, k)
  {
  }

  // ---------- the run ----------

  ghost predicate NoRaise(h: History) { h.Then? ==> !h.event.RaiseSeqno? && NoRaise(h.before) }

  /** One more step of a run. */
  lemma {:induction false} Goes(h: History, v: NodeId, ev: Event, t: Node, wire: set<Msg>) returns (h': History)
    requires IsRun(h) && NoRaise(h) && v in h.net.nodes && NodeStep(h.net.nodes[v], ev, t) && !ev.Environment? && !ev.RaiseSeqno?
    requires ev.Deliver? ==> ev.msg in h.net.wire
    requires wire <= h.net.wire + if ev.Flush? then Outgoing(h.net.nodes[v]) else {}
    ensures h' == Then(h, v, ev, Net(h.net.nodes[v := t], wire)) && IsRun(h') && NoRaise(h') && First(h') == First(h)
  {
    h' := Extend(h, v, ev, t, wire);
  }

  lemma {:induction false} Sends(h: History, v: NodeId, d: Dest) returns (h': History)
    requires IsRun(h) && NoRaise(h) && v in h.net.nodes && d in h.net.nodes[v].updates
    ensures IsRun(h') && NoRaise(h') && First(h') == First(h)
    ensures h'.net == Net(h.net.nodes[v := h.net.nodes[v].(updates := map[])], h.net.wire + {Msg(v, d.neigh, h.net.nodes[v].updates[d])})
  {
    var s := h.net.nodes[v];
    assert Msg(v, d.neigh, s.updates[d]) in Outgoing(s);
    h' := Goes(h, v, Flush(map[]), s.(updates := map[]), h.net.wire + {Msg(v, d.neigh, s.updates[d])});
  }

  lemma {:induction false} NoRaiseInside(h: History, src: Source, w: U16)
    requires NoRaise(h)
    ensures AllRaisesInside(h, src, w)
  {
    if h.Then? {
      NoRaiseInside(h.before, src, w);
    }
  }

  /** A router whose only neighbour is `other`. */
  function Fresh(id: NodeId, other: NodeId, tun: Tunables, cost: U32, own: map<Prefix, Advertisement>): Node {
    Node(id, tun, map[], map[], map[], [Neighbour(other, map[], true, cost)], own, map[], map[], map[])
  }

  /** Two routers, one of which announces a prefix until time 0. */
  function Pair(a: NodeId, b: NodeId, p: Prefix, tun: Tunables, cost: U32): Net {
    Net(map[a := Fresh(a, b, tun, cost, map[p := Advertisement(a, 0, false, 0)]), b := Fresh(b, a, tun, cost, map[])], {})
  }

  function HopTotal(tun: Tunables, cost: U32): U32 { AddMetric(AddMetric(cost, tun.hopCost), tun.transitCost) }

  datatype Scene = Scene(a: NodeId, b: NodeId, p: Prefix, tun: Tunables, cost: U32) {
    function Src(): Source { Source(a, p) }
    function Adv(): Advertisement { Advertisement(a, 0, false, 0) }
    ghost predicate Ok() { a != b && 0 < HopTotal(tun, cost) && 2 * HopTotal(tun, cost) < INFM }
  }

  /** The router is still the one it was set up as. */
  ghost predicate Stays(s: Node, id: NodeId, other: NodeId, c: Scene) {
    && s.id == id && s.tun == c.tun && |s.neighbours| == 1 && s.neighbours[0].id == other
    && s.neighbours[0].reachable && s.neighbours[0].linkCost == c.cost
  }

  lemma {:induction false} StepStays(s: Node, ev: Event, t: Node, id: NodeId, other: NodeId, c: Scene)
    requires NodeStep(s, ev, t) && !ev.Environment? && Stays(s, id, other, c)
    ensures Stays(t, id, other, c)
  {
    StepSetting(s, ev, t);
    assert SameLink(s.neighbours[0], t.neighbours[0]);
  }

  /** Where the run is: what both routers know, and that `sent` is on the wire. */
  ghost predicate Stage(h: History, c: Scene, ka: Known, kb: Known, sent: set<Msg>) {
    && IsRun(h) && NoRaise(h) && First(h) == Pair(c.a, c.b, c.p, c.tun, c.cost)
    && c.a in h.net.nodes && c.b in h.net.nodes && sent <= h.net.wire
    && Stays(h.net.nodes[c.a], c.a, c.b, c) && Knows(h.net.nodes[c.a], c.Src(), ka)
    && Stays(h.net.nodes[c.b], c.b, c.a, c) && Knows(h.net.nodes[c.b], c.Src(), kb)
  }

  /** Router `a` goes on to know `k`. */
  lemma {:induction false} ActA(h: History, c: Scene, ka: Known, kb: Known, sent: set<Msg>, ev: Event, t: Node, k: Known) returns (h': History)
    requires Stage(h, c, ka, kb, sent) && c.Ok() && NodeStep(h.net.nodes[c.a], ev, t) && !ev.Environment? && !ev.RaiseSeqno? && !ev.Flush?
    requires Knows(t, c.Src(), k) && (ev.Deliver? ==> ev.msg in sent)
    ensures Stage(h', c, k, kb, sent) && h'.net.nodes[c.a] == t && h'.net.nodes[c.b] == h.net.nodes[c.b]
  {
    StepStays(h.net.nodes[c.a], ev, t, c.a, c.b, c);
    h' := Goes(h, c.a, ev, t, h.net.wire);
  }

  lemma {:induction false} ActB(h: History, c: Scene, ka: Known, kb: Known, sent: set<Msg>, ev: Event, t: Node, k: Known) returns (h': History)
    requires Stage(h, c, ka, kb, sent) && c.Ok() && NodeStep(h.net.nodes[c.b], ev, t) && !ev.Environment? && !ev.RaiseSeqno? && !ev.Flush?
    requires Knows(t, c.Src(), k) && (ev.Deliver? ==> ev.msg in sent)
    ensures Stage(h', c, ka, k, sent) && h'.net.nodes[c.b] == t && h'.net.nodes[c.a] == h.net.nodes[c.a]
  {
    StepStays(h.net.nodes[c.b], ev, t, c.b, c.a, c);
    h' := Goes(h, c.b, ev, t, h.net.wire);
  }

  lemma {:induction false} FlushStage(h: History, c: Scene, ka: Known, kb: Known, sent: set<Msg>, v: NodeId, d: Dest) returns (h': History)
    requires Stage(h, c, ka, kb, sent) && c.Ok() && v in {c.a, c.b} && d in h.net.nodes[v].updates
    ensures Stage(h', c, ka, kb, sent + {Msg(v, d.neigh, h.net.nodes[v].updates[d])})
  {
    h' := Sends(h, v, d);
    Flushes(h.net.nodes[v], c.Src(), if v == c.a then ka else kb);
  }

  const NOTHING := Known(None, None, None, None)

  lemma {:induction false} Opening(c: Scene) returns (h: History)
    requires c.Ok()
    ensures Stage(h, c, Known(None, None, None, Some(c.Adv())), NOTHING, {})
  {
    var net := Pair(c.a, c.b, c.p, c.tun, c.cost);
    FreshOk(c.a, c.b, c, map[c.p := c.Adv()]);
    FreshOk(c.b, c.a, c, map[]);
    assert net.nodes[c.a] == Fresh(c.a, c.b, c.tun, c.cost, map[c.p := c.Adv()]);
    assert WellFormed(net);
    h := Start(net);
  }

  lemma {:induction false} FreshOk(id: NodeId, other: NodeId, c: Scene, own: map<Prefix, Advertisement>)
    requires c.Ok() && forall p :: p in own ==> p == c.p
    ensures var s := Fresh(id, other, c.tun, c.cost, own);
            && s.Valid() && CostlyLinks(s) && Stays(s, id, other, c)
            && Knows(s, c.Src(), Known(None, None, None, if c.p in own then Some(own[c.p]) else None))
  {
    assert 0 < LinkMetric(c.tun, Neighbour(other, map[], true, c.cost));
  }

  /** `a` announces the prefix. */
  lemma {:induction false} FirstAct(c: Scene) returns (h: History, r: SelRoute)
    requires c.Ok()
    ensures r.nh == c.a && r.pub == PubRoute(c.Src(), FD(0, 0))
    ensures Stage(h, c, Known(Some(r), Some(r.pub.fd), None, Some(c.Adv())), NOTHING, {Msg(c.a, c.b, r.pub)})
  {
    var ka := Known(None, None, None, Some(c.Adv()));
    var h0 := Opening(c);
    var s := h0.net.nodes[c.a];
    Announces(s, 0, c.Src(), c.Adv());
    r := OwnRoute(s, c.p, 0);
    var k := Known(Some(r), Some(r.pub.fd), None, Some(c.Adv()));
    var h1 := ActA(h0, c, ka, NOTHING, {}, ComputeRoutes(0), Compute(s, 0), k);
    h := FlushStage(h1, c, k, NOTHING, {}, c.a, Dest(c.b, c.p));
  }

  lemma {:induction false} HopFrom(c: Scene, s: Node, id: NodeId, other: NodeId, adv: PubRoute)
    requires c.Ok() && Stays(s, id, other, c) && adv.fd.metric <= HopTotal(c.tun, c.cost)
    ensures Total(s.tun, s.neighbours[0], adv) == HopTotal(c.tun, c.cost) + adv.fd.metric < INFM
  {
  }

  /** `b` hears it, routes over `a`, and says so. */
  lemma {:induction false} SecondAct(c: Scene, h: History, ka: Known, adv: PubRoute) returns (h': History, r: SelRoute)
    requires c.Ok() && adv == PubRoute(c.Src(), FD(0, 0)) && Stage(h, c, ka, NOTHING, {Msg(c.a, c.b, adv)})
    ensures r.nh == c.a && r.pub == PubRoute(c.Src(), FD(0, HopTotal(c.tun, c.cost)))
    ensures Stage(h', c, ka, Known(Some(r), Some(r.pub.fd), Some(adv), None), {Msg(c.b, c.a, r.pub)})
  {
    var m, s := Msg(c.a, c.b, adv), h.net.nodes[c.b];
    var t := StoreUpdate(s, 0, adv, 0);
    Hears(s, c.Src(), adv, 0);
    var h1 := ActB(h, c, ka, NOTHING, {m}, Deliver(m, 0, 0), t, Known(None, None, Some(adv), None));
    HopFrom(c, t, c.b, c.a, adv);
    r := Learns(t, 0, c.Src(), adv);
    var k := Known(Some(r), Some(r.pub.fd), Some(adv), None);
    var h2 := ActB(h1, c, ka, Known(None, None, Some(adv), None), {m}, ComputeRoutes(0), Compute(t, 0), k);
    h' := FlushStage(h2, c, ka, k, {m}, c.b, Dest(c.a, c.p));
  }

  /** `a`'s announcement expires; it retracts the route, drops it, and forgets the source. */
  lemma {:induction false} ThirdAct(c: Scene, h: History, r: SelRoute, kb: Known, sent: set<Msg>) returns (h': History)
    requires c.Ok() && r.nh == c.a && r.Finite()
    requires Stage(h, c, Known(Some(r), Some(r.pub.fd), None, Some(c.Adv())), kb, sent)
    ensures Stage(h', c, NOTHING, kb, sent)
  {
    var dist, s := Some(r.pub.fd), h.net.nodes[c.a];
    var k0, k1 := Known(Some(r), dist, None, Some(c.Adv())), Known(Some(r), dist, None, None);
    var k2, k3 := Known(Some(RetractedRoute(r)), dist, None, None), Known(None, dist, None, None);
    Withdraws(s, 1, c.Src(), k0);
    var h1 := ActA(h, c, k0, kb, sent, ExpireRoutes(1), Expire(s, 1), k1);
    var s1 := h1.net.nodes[c.a];
    Loses(s1, 1, c.Src(), r, dist);
    var h2 := ActA(h1, c, k1, kb, sent, ComputeRoutes(1), Compute(s1, 1), k2);
    var s2 := h2.net.nodes[c.a];
    Drops(s2, 1, c.Src(), RetractedRoute(r), dist);
    var h3 := ActA(h2, c, k2, kb, sent, ComputeRoutes(1), Compute(s2, 1), k3);
    ForgetsIt(h3.net.nodes[c.a], c.Src(), r.pub.fd);
    h' := ActA(h3, c, k3, kb, sent, ForgetSources, DropSources(h3.net.nodes[c.a]), NOTHING);
  }

  /** `b`'s advertisement arrives and `a` routes over `b`. */
  lemma {:induction false} LastAct(c: Scene, h: History, kb: Known, adv: PubRoute) returns (h': History, r: SelRoute)
    requires c.Ok() && adv == PubRoute(c.Src(), FD(0, HopTotal(c.tun, c.cost))) && Stage(h, c, NOTHING, kb, {Msg(c.b, c.a, adv)})
    ensures r.nh == c.b && r.pub.source == c.Src() && r.pub.fd.metric < INFM
    ensures Stage(h', c, Known(Some(r), Some(r.pub.fd), Some(adv), None), kb, {Msg(c.b, c.a, adv)})
  {
    var m, s := Msg(c.b, c.a, adv), h.net.nodes[c.a];
    var t := StoreUpdate(s, 0, adv, 1);
    Hears(s, c.Src(), adv, 1);
    var h1 := ActA(h, c, NOTHING, kb, {m}, Deliver(m, 0, 1), t, Known(None, None, Some(adv), None));
    HopFrom(c, t, c.a, c.b, adv);
    r := Learns(t, 1, c.Src(), adv);
    h' := ActA(h1, c, Known(None, None, Some(adv), None), kb, {m}, ComputeRoutes(1), Compute(t, 1), Known(Some(r), Some(r.pub.fd), Some(adv), None));
  }

  lemma {:induction false} StageWindowed(h: History, c: Scene, ka: Known, kb: Known, sent: set<Msg>)
    requires Stage(h, c, ka, kb, sent) && c.Ok()
    ensures AlwaysWindowed(h, c.Src())
  {
    NoRaiseInside(h, c.Src(), 0);
    SourceKeepsWindow(h, c.Src(), 0);
  }

  lemma {:induction false} StageRoutes(h: History, c: Scene, ka: Known, kb: Known, sent: set<Msg>)
    requires Stage(h, c, ka, kb, sent)
    ensures c.a in h.net.nodes && c.b in h.net.nodes
    ensures Is(h.net.nodes[c.a].routes, c.p, ka.route) && Is(h.net.nodes[c.b].routes, c.p, kb.route)
  {
  }

  lemma {:induction false} FacingRoutes(net: Net, c: Scene, ra: SelRoute, rb: SelRoute)
    requires c.a != c.b && c.a in net.nodes && c.b in net.nodes
    requires Is(net.nodes[c.a].routes, c.p, Some(ra)) && Is(net.nodes[c.b].routes, c.p, Some(rb))
    requires ra.nh == c.b && ra.pub.source == c.Src() && ra.pub.fd.metric < INFM
    requires rb.nh == c.a && rb.pub.source == c.Src() && rb.pub.fd.metric < INFM
    ensures ForwardingPath(net, [c.a, c.b, c.a], c.p, c.Src())
  {
    assert Hop(net, c.a, c.p, c.Src()) && Hop(net, c.b, c.p, c.Src());
  }

  lemma {:induction false} LoopNeedsForgetting(h: History, src: Source, path: seq<NodeId>, p: Prefix)
    requires IsRun(h) && AlwaysWindowed(h, src) && |path| >= 2 && ForwardingPath(h.net, path, p, src) && path[0] == path[|path| - 1]
    ensures !KeepsRelied(h, src)
  {
    if KeepsRelied(h, src) {
      NoForwardingLoop(h, src, path, p);
    }
  }

  /** Loop freedom fails where a distance is forgotten that another router relies on: for any two
      routers and any cost of the link between them there is a run, with all sequence numbers
      equal, in which they end up routing towards the same source over each other. */
  lemma {:induction false} ForgettingMakesLoop(c: Scene) returns (h: History)
    requires c.Ok()
    ensures IsRun(h) && AlwaysWindowed(h, c.Src()) && !KeepsRelied(h, c.Src())
    ensures ForwardingPath(h.net, [c.a, c.b, c.a], c.p, c.Src())
  {
    var h1, ra := FirstAct(c);
    var ka := Known(Some(ra), Some(ra.pub.fd), None, Some(c.Adv()));
    var h2, rb := SecondAct(c, h1, ka, ra.pub);
    var kb := Known(Some(rb), Some(rb.pub.fd), Some(ra.pub), None);
    var h3 := ThirdAct(c, h2, ra, kb, {Msg(c.b, c.a, rb.pub)});
    var r;
    h, r := LastAct(c, h3, kb, rb.pub);
    var k := Known(Some(r), Some(r.pub.fd), Some(rb.pub), None);
    StageWindowed(h, c, k, kb, {Msg(c.b, c.a, rb.pub)});
    StageRoutes(h, c, k, kb, {Msg(c.b, c.a, rb.pub)});
    FacingRoutes(h.net, c, r, rb);
    LoopNeedsForgetting(h, c.Src(), [c.a, c.b, c.a], c.p);
  }
}
