/** The state a router works on, and the source table of feasibility distances. */
module RouterState {
  import opened Basics
  import opened Metric

  type NodeId = string
  datatype Prefix = Prefix(addr: nat, bits: nat)

  /** A router-id together with a prefix. */
  datatype Source = Source(node: NodeId, prefix: Prefix)
  datatype FD = FD(seqno: U16, metric: U32)
  datatype PubRoute = PubRoute(source: Source, fd: FD) {
    predicate Finite() { fd.metric != INF }
  }
  datatype NeighRoute = NeighRoute(pub: PubRoute, expireAt: int, smoothed: real)
  datatype SelRoute = SelRoute(pub: PubRoute, nh: NodeId, expireAt: int, retractedBy: seq<NodeId>) {
    predicate Finite() { pub.Finite() }
    function Retracted(): SelRoute { this.(pub := pub.(fd := pub.fd.(metric := INF))) }
  }

  /** `metric` is what the advertisement's metric function returns now. */
  datatype Advertisement = Advertisement(node: NodeId, expiry: int, passiveHold: bool, metric: U32)

  /** `reachable` says that some endpoint of the neighbour is active; `linkCost` is what
      the endpoint layer measures. Both change at any time. */
  datatype Neighbour = Neighbour(id: NodeId, routes: map<Prefix, NeighRoute>, reachable: bool, linkCost: U32)

  datatype Tunables = Tunables(hopCost: U32, transitCost: U32, largeChange: U32, expiryTime: int, alpha: real)

  /** An entry of the forwarding or the exit table. */
  datatype TableEntry = TableEntry(nh: NodeId, blackhole: bool)

  /** A queued route update is overwritten by the next one for the same neighbour and prefix. */
  datatype Dest = Dest(neigh: NodeId, prefix: Prefix)

  datatype Node = Node(
    id: NodeId,
    tun: Tunables,
    selfSeqno: map<Prefix, U16>,
    routes: map<Prefix, SelRoute>,
    sources: map<Source, FD>,
    neighbours: seq<Neighbour>,
    advertised: map<Prefix, Advertisement>,
    forward: map<Prefix, TableEntry>,
    exits: map<Prefix, TableEntry>,
    updates: map<Dest, PubRoute>)
  {
    /** Tables are keyed by the prefix of what they hold, and neighbours are distinct. */
    ghost predicate Valid() {
      RoutesKeyed(routes) && NeighboursKeyed(neighbours) && UpdatesKeyed(updates)
    }

    function Seqno(p: Prefix): U16 { if p in selfSeqno then selfSeqno[p] else 0 }
  }

  ghost predicate RoutesKeyed(routes: map<Prefix, SelRoute>) {
    forall p :: p in routes ==> routes[p].pub.source.prefix == p
  }

  ghost predicate NeighboursKeyed(ns: seq<Neighbour>) {
    && (forall i, p :: 0 <= i < |ns| && p in ns[i].routes ==> ns[i].routes[p].pub.source.prefix == p)
    && (forall i, j :: 0 <= i < j < |ns| ==> ns[i].id != ns[j].id)
  }

  ghost predicate UpdatesKeyed(updates: map<Dest, PubRoute>) {
    forall d :: d in updates ==> updates[d].source.prefix == d.prefix
  }

  /** `a` is more recent than `b`, or equally recent and strictly smaller. */
  predicate Better(a: FD, b: FD) {
    SeqnoLt(b.seqno, a.seqno) || (a.seqno == b.seqno && a.metric < b.metric)
  }

  predicate NoWorse(a: FD, b: FD) {
    a == b || Better(a, b)
  }

  /** The feasibility condition of section 3.5.1 of RFC 8966. */
  predicate Feasible(sources: map<Source, FD>, adv: PubRoute) {
    adv.source !in sources || !adv.Finite() || Better(adv.fd, sources[adv.source])
  }

  /** The distance kept for a source that is about to be advertised at `fd`. */
  function NewDistance(sources: map<Source, FD>, src: Source, fd: FD): FD {
    if src !in sources || Better(fd, sources[src]) then fd else sources[src]
  }

  /** Section 3.7.3 of RFC 8966: the source table before an update is sent. Afterwards the
      entry is no worse than the update, except when the two sequence numbers are half the
      number space apart and so compare neither way. */
  function Advance(sources: map<Source, FD>, adv: PubRoute): (r: map<Source, FD>)
    ensures adv.source in r && r == sources[adv.source := r[adv.source]]
    ensures adv.source in sources ==> NoWorse(r[adv.source], sources[adv.source])
    ensures NoWorse(r[adv.source], adv.fd) <==>
            (adv.source in sources ==> Minus16(sources[adv.source].seqno, adv.fd.seqno) != 0x8000)
  {
    if adv.source !in sources then sources[adv.source := adv.fd]
    else
      SeqnoOrder(sources[adv.source].seqno, adv.fd.seqno);
      sources[adv.source := NewDistance(sources, adv.source, adv.fd)]
  }

  /** A node that re-advertises at `total` a route learned from `adv` keeps `adv` feasible
      exactly when the hop made the metric larger. A free hop or a saturated metric makes
      the advertisement it came from unfeasible. */
  lemma {:induction false} FeasibleAfterAdvance(sources: map<Source, FD>, adv: PubRoute, total: U32)
    requires adv.Finite() && Feasible(sources, adv)
    ensures Feasible(Advance(sources, adv.(fd := FD(adv.fd.seqno, total))), adv) <==> adv.fd.metric < total
  {
    SeqnoOrder(adv.fd.seqno, adv.fd.seqno);
    if adv.source in sources {
      SeqnoOrder(sources[adv.source].seqno, adv.fd.seqno);
    }
  }

  /** At a saturated metric a hop that costs something no longer shows, and re-advertising
      the route makes the advertisement it came from unfeasible. */
  lemma {:induction false} SaturatedHopUnfeasible(adv: PubRoute, cost: U32)
    requires adv.fd.metric == INFM && cost != INF
    ensures Feasible(map[], adv)
    ensures !Feasible(Advance(map[], adv.(fd := FD(adv.fd.seqno, AddMetric(cost, adv.fd.metric)))), adv)
  {
    HopStrictlyLarger(cost, INFM);
    FeasibleAfterAdvance(map[], adv, AddMetric(cost, INFM));
  }
}
