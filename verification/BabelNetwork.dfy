/** A network of routers that exchange updates over links that lose, delay, duplicate and
    reorder them, and the loop freedom of the routes they select. */
module BabelNetwork {
  import opened Basics
  import opened Metric
  import opened RouterState
  import opened RouteSelection
  import opened RouterOps
  import opened RouterSafety

  datatype Msg = Msg(from: NodeId, to: NodeId, adv: PubRoute)

  /** A message stays on the wire after it is delivered, so it can arrive again. */
  datatype Net = Net(nodes: map<NodeId, Node>, wire: set<Msg>)

  datatype Event =
    | ComputeRoutes(now: int)
    | PushTable(to: set<NodeId>)
    | AnswerRequest(from: NodeId, src: Source, seqno: U16)
    | CountAck(neigh: NodeId, prefix: Prefix)
    | ExpireRoutes(now: int)
    | ForgetSources
    | RaiseSeqno(prefix: Prefix, seqno: U16)
    | Flush(left: map<Dest, PubRoute>)
    | Deliver(msg: Msg, index: nat, now: int)
    | Environment(node: Node)

  /** Neighbours come, go and change their links; own prefixes change; queued updates may be
      discarded. Routes, sources, own sequence numbers and stored advertisements of neighbours
      that stay do not change by themselves. */
  ghost predicate EnvironmentChange(s: Node, t: Node) {
    && t.Valid() && t.id == s.id && t.routes == s.routes && t.sources == s.sources && t.selfSeqno == s.selfSeqno
    && t.forward == s.forward && t.exits == s.exits
    && (forall d :: d in t.updates ==> d in s.updates && t.updates[d] == s.updates[d])
    && (forall i :: 0 <= i < |t.neighbours| ==>
          t.neighbours[i].routes == map[] || Kept(s, t.neighbours[i]))
  }

  ghost predicate Kept(s: Node, nb: Neighbour) {
    exists j :: 0 <= j < |s.neighbours| && s.neighbours[j].id == nb.id && s.neighbours[j].routes == nb.routes
  }

  ghost predicate NodeStep(s: Node, ev: Event, t: Node) {
    match ev
    case ComputeRoutes(now) => t == Compute(s, now)
    case PushTable(to) => t == Push(s, to)
    case AnswerRequest(from, src, seqno) => t == Replied(s, from, src, seqno)
    case CountAck(neigh, prefix) => Counts(s, neigh, prefix) && t == Acked(s, neigh, prefix)
    case ExpireRoutes(now) => t == Expire(s, now)
    case ForgetSources => t == DropSources(s)
    case RaiseSeqno(prefix, seqno) => t == Bump(s, prefix, seqno)
    case Flush(left) => t == s.(updates := left) && forall d :: d in left ==> d in s.updates && left[d] == s.updates[d]
    case Deliver(m, i, now) =>
      m.to == s.id && i < |s.neighbours| && s.neighbours[i].id == m.from && t == StoreUpdate(s, i, m.adv, now)
    case Environment(node) => t == node && EnvironmentChange(s, t)
  }

  ghost function Outgoing(s: Node): set<Msg> {
    set d | d in s.updates :: Msg(s.id, d.neigh, s.updates[d])
  }

  /** Router `v` takes one step; any messages may be lost at the same time. */
  ghost predicate Next(net: Net, v: NodeId, ev: Event, net': Net) {
    && v in net.nodes && v in net'.nodes
    && net'.nodes == net.nodes[v := net'.nodes[v]]
    && NodeStep(net.nodes[v], ev, net'.nodes[v])
    && (ev.Deliver? ==> ev.msg in net.wire)
    && net'.wire <= net.wire + if ev.Flush? then Outgoing(net.nodes[v]) else {}
  }

  /** Every hop costs something, and a prefix is announced on behalf of the node itself or of
      a client, which is not a router. */
  ghost predicate WellFormed(net: Net) {
    forall v :: v in net.nodes ==>
      && net.nodes[v].id == v && net.nodes[v].Valid() && CostlyLinks(net.nodes[v])
      && forall p :: p in net.nodes[v].advertised ==>
           net.nodes[v].advertised[p].node == v || net.nodes[v].advertised[p].node !in net.nodes
  }

  ghost predicate Initial(net: Net) {
    && net.wire == {}
    && forall v :: v in net.nodes ==>
         && net.nodes[v].routes == map[] && net.nodes[v].sources == map[] && net.nodes[v].updates == map[]
         && net.nodes[v].forward == map[] && net.nodes[v].exits == map[]
         && forall i :: 0 <= i < |net.nodes[v].neighbours| ==> net.nodes[v].neighbours[i].routes == map[]
  }

  // ---------- the half of the number space in use ----------

  /** All sequence numbers a node holds for `src` lie in the half of the number space that
      starts at `w`. */
  ghost predicate NodeWindowed(s: Node, src: Source, w: U16) {
    && (src in s.sources ==> InWindow(w, s.sources[src].seqno))
    && (src.node == s.id ==> InWindow(w, s.Seqno(src.prefix)))
    && (forall d :: d in s.updates && s.updates[d].source == src ==> InWindow(w, s.updates[d].fd.seqno))
    && (forall p :: p in s.routes && s.routes[p].pub.source == src ==> InWindow(w, s.routes[p].pub.fd.seqno))
    && (forall i, p :: 0 <= i < |s.neighbours| && p in s.neighbours[i].routes && s.neighbours[i].routes[p].pub.source == src
          ==> InWindow(w, s.neighbours[i].routes[p].pub.fd.seqno))
  }

  ghost predicate Windowed(net: Net, src: Source, w: U16) {
    && (forall v :: v in net.nodes ==> NodeWindowed(net.nodes[v], src, w))
    && (forall m :: m in net.wire && m.adv.source == src ==> InWindow(w, m.adv.fd.seqno))
  }

  /** Inside the window distances are ordered like this number. */
  ghost function Height(w: U16, fd: FD): int {
    fd.metric - Rank(w, fd.seqno) * 0x1_0000_0000
  }

  lemma {:induction false} HeightOrders(w: U16, a: FD, b: FD)
    requires InWindow(w, a.seqno) && InWindow(w, b.seqno)
    ensures Better(a, b) <==> Height(w, a) < Height(w, b)
    ensures NoWorse(a, b) <==> Height(w, a) <= Height(w, b)
  {
    SeqnoWindow(w, a.seqno, b.seqno);
    SeqnoWindow(w, b.seqno, a.seqno);
  }

  // ---------- the invariant ----------

  /** The sender's distance is no worse than what it advertised. */
  ghost predicate Covers(s: Node, adv: PubRoute) {
    adv.Finite() ==> adv.source in s.sources && NoWorse(s.sources[adv.source], adv.fd)
  }

  /** A selected route towards `src` over another router, at a metric that is not saturated. */
  ghost predicate Hop(net: Net, v: NodeId, p: Prefix, src: Source) {
    && v in net.nodes && p in net.nodes[v].routes
    && var e := net.nodes[v].routes[p];
    && e.Finite() && e.pub.fd.metric < INFM && e.pub.source == src
    && e.nh in net.nodes && e.nh != v
  }

  /** The next hop's distance is strictly better than the metric the route has here and
      than the distance kept here. */
  ghost predicate Falls(net: Net, v: NodeId, p: Prefix, src: Source)
    requires Hop(net, v, p, src)
  {
    var s, e := net.nodes[v], net.nodes[v].routes[p];
    var u := net.nodes[e.nh];
    && src in u.sources && Better(u.sources[src], e.pub.fd)
    && (src in s.sources ==> Better(u.sources[src], s.sources[src]))
  }

  ghost predicate SentCovered(net: Net, src: Source) {
    && (forall v, d :: v in net.nodes && d in net.nodes[v].updates && net.nodes[v].updates[d].source == src
          ==> Covers(net.nodes[v], net.nodes[v].updates[d]))
    && (forall m :: m in net.wire && m.from in net.nodes && m.adv.source == src ==> Covers(net.nodes[m.from], m.adv))
  }

  ghost predicate StoredCovered(net: Net, src: Source) {
    forall v, i, p :: v in net.nodes && 0 <= i < |net.nodes[v].neighbours| && p in net.nodes[v].neighbours[i].routes
                      && net.nodes[v].neighbours[i].id in net.nodes && net.nodes[v].neighbours[i].routes[p].pub.source == src
      ==> Covers(net.nodes[net.nodes[v].neighbours[i].id], net.nodes[v].neighbours[i].routes[p].pub)
  }

  ghost predicate HopsFall(net: Net, src: Source) {
    forall v, p :: Hop(net, v, p, src) ==> Falls(net, v, p, src)
  }

  ghost predicate Inv(net: Net, src: Source) {
    SentCovered(net, src) && StoredCovered(net, src) && HopsFall(net, src)
  }

  // ---------- what one node guarantees in one step ----------

  ghost predicate HasStored(s: Node, from: NodeId, adv: PubRoute) {
    exists i, p :: 0 <= i < |s.neighbours| && s.neighbours[i].id == from && p in s.neighbours[i].routes
                   && s.neighbours[i].routes[p].pub == adv
  }

  /** Where a finite entry of the new table comes from. */
  ghost predicate Justified(s: Node, p: Prefix, e: SelRoute, src: Source) {
    || (p in s.routes && s.routes[p].pub == e.pub && s.routes[p].nh == e.nh)
    || (p in s.advertised && e.nh == s.advertised[p].node)
    || (exists adv :: HasStored(s, e.nh, adv) && adv.source == src && Supports(s.sources, adv, e))
  }

  ghost predicate SourcesGuarantee(s: Node, t: Node, src: Source, w: U16) {
    && (src in s.sources ==> src in t.sources && NoWorse(t.sources[src], s.sources[src]))
    && (src in t.sources ==> InWindow(w, t.sources[src].seqno))
  }

  ghost predicate UpdatesGuarantee(s: Node, t: Node, src: Source) {
    forall d :: d in t.updates && t.updates[d].source == src ==>
      (d in s.updates && s.updates[d] == t.updates[d]) || Covers(t, t.updates[d])
  }

  ghost predicate StoredGuarantee(s: Node, t: Node, src: Source, got: set<Msg>) {
    forall i, p :: 0 <= i < |t.neighbours| && p in t.neighbours[i].routes && t.neighbours[i].routes[p].pub.source == src ==>
      var adv := t.neighbours[i].routes[p].pub;
      !adv.Finite() || HasStored(s, t.neighbours[i].id, adv) || Msg(t.neighbours[i].id, s.id, adv) in got
  }

  ghost predicate RouteGuarantee(s: Node, t: Node, src: Source, p: Prefix) {
    p in t.routes && t.routes[p].Finite() && t.routes[p].pub.source == src && t.routes[p].pub.fd.metric < INFM ==>
      var e := t.routes[p];
      && Justified(s, p, e, src)
      && (src in t.sources ==> t.sources[src] == e.pub.fd || (src in s.sources && t.sources[src] == s.sources[src]))
  }

  ghost predicate Guarantee(s: Node, t: Node, src: Source, w: U16, got: set<Msg>) {
    && t.id == s.id
    && SourcesGuarantee(s, t, src, w)
    && UpdatesGuarantee(s, t, src)
    && StoredGuarantee(s, t, src, got)
    && forall p :: RouteGuarantee(s, t, src, p)
  }

  lemma {:induction false} AdvanceGuarantee(s: Node, adv: PubRoute, w: U16)
    requires NodeWindowed(s, adv.source, w) && InWindow(w, adv.fd.seqno)
    ensures var r := Advance(s.sources, adv);
            && NoWorse(r[adv.source], adv.fd) && InWindow(w, r[adv.source].seqno)
            && (adv.source in s.sources ==> NoWorse(r[adv.source], s.sources[adv.source]))
            && (r[adv.source] == adv.fd || (adv.source in s.sources && r[adv.source] == s.sources[adv.source]))
  {
    if adv.source in s.sources {
      var q := s.sources[adv.source].seqno;
      SeqnoWindow(w, q, adv.fd.seqno);
      SeqnoWindow(w, adv.fd.seqno, q);
      SeqnoOrder(q, adv.fd.seqno);
    }
  }

  /** A batch of updates for distinct prefixes, seen from one source. */
  lemma {:induction false} AdvanceAllGuarantee(s: Node, sent: map<Prefix, PubRoute>, src: Source, w: U16)
    requires NodeWindowed(s, src, w)
    requires forall p :: p in sent ==> sent[p].source.prefix == p
    requires src.prefix in sent && sent[src.prefix].source == src ==> InWindow(w, sent[src.prefix].fd.seqno)
    ensures var r := AdvanceAll(s.sources, sent);
            && (src in s.sources ==> src in r && NoWorse(r[src], s.sources[src]))
            && (src in r ==> InWindow(w, r[src].seqno))
            && (src.prefix in sent && sent[src.prefix].source == src ==>
                  && src in r && NoWorse(r[src], sent[src.prefix].fd)
                  && (r[src] == sent[src.prefix].fd || (src in s.sources && r[src] == s.sources[src])))
            && (!(src.prefix in sent && sent[src.prefix].source == src) ==>
                  (src in r <==> src in s.sources) && (src in r ==> r[src] == s.sources[src]))
  {
    AdvanceAllAt(s.sources, sent, src);
    if src.prefix in sent && sent[src.prefix].source == src {
      AdvanceGuarantee(s, sent[src.prefix], w);
    }
  }

  /** Sequence numbers of new entries are ones the node already holds. */
  lemma {:induction false} NewEntrySeqno(s: Node, p: Prefix, now: int, src: Source, w: U16)
    requires NodeWindowed(s, src, w)
    requires NewEntry(s, p, now).Some? && NewEntry(s, p, now).value.pub.source == src
    ensures InWindow(w, NewEntry(s, p, now).value.pub.fd.seqno)
  {
    var i := NewEntryCases(s, p, now);
  }

  lemma {:induction false} NewEntryJustified(s: Node, p: Prefix, now: int, src: Source)
    requires s.Valid() && CostlyLinks(s)
    requires NewEntry(s, p, now).Some?
    requires var e := NewEntry(s, p, now).value; e.Finite() && e.pub.source == src && e.pub.fd.metric < INFM
    ensures Justified(s, p, NewEntry(s, p, now).value, src)
  {
    var i := NewEntryOrigin(s, p, now);
    var e := NewEntry(s, p, now).value;
    if !(p in s.advertised && e == OwnRoute(s, p, now)) {
      var adv := s.neighbours[i].routes[p].pub;
      assert HasStored(s, e.nh, adv);
      LearnedGrows(s, s.sources, i, p, e);
      assert Supports(s.sources, adv, e);
    }
  }

  lemma {:induction false} ComputeRoutesGuarantee(s: Node, now: int, src: Source, w: U16, p: Prefix)
    requires s.Valid() && NodeWindowed(s, src, w) && CostlyLinks(s)
    ensures RouteGuarantee(s, Compute(s, now), src, p)
  {
    var t := Compute(s, now);
    TableAt(s, now, p);
    if p in t.routes && t.routes[p].Finite() && t.routes[p].pub.source == src && t.routes[p].pub.fd.metric < INFM {
      NewEntryKeyed(s, p, now);
      NewEntryJustified(s, p, now, src);
      ComputeSources(s, now, src, w);
    }
  }

  lemma {:induction false} ComputeSources(s: Node, now: int, src: Source, w: U16)
    requires s.Valid() && NodeWindowed(s, src, w)
    ensures SourcesGuarantee(s, Compute(s, now), src, w)
    ensures var r, sent := Compute(s, now).sources, Published(s, now);
            && (src.prefix in sent && sent[src.prefix].source == src ==>
                  && src in r && NoWorse(r[src], sent[src.prefix].fd)
                  && (r[src] == sent[src.prefix].fd || (src in s.sources && r[src] == s.sources[src])))
            && (!(src.prefix in sent && sent[src.prefix].source == src) ==>
                  (src in r <==> src in s.sources) && (src in r ==> r[src] == s.sources[src]))
  {
    PublishedKeyed(s, now);
    if src.prefix in Published(s, now) && Published(s, now)[src.prefix].source == src {
      NewEntrySeqno(s, src.prefix, now, src, w);
    }
    AdvanceAllGuarantee(s, Published(s, now), src, w);
  }

  lemma {:induction false} BroadcastsAt(s: Node, now: int, p: Prefix)
    requires p in Broadcasts(s, now) && Broadcasts(s, now)[p].Finite()
    ensures p in Published(s, now) && Broadcasts(s, now)[p] == Published(s, now)[p]
  {
  }

  lemma {:induction false} ComputeUpdates(s: Node, now: int, src: Source, w: U16)
    requires s.Valid() && NodeWindowed(s, src, w)
    ensures UpdatesGuarantee(s, Compute(s, now), src)
  {
    var t, sent := Compute(s, now), Broadcasts(s, now);
    forall d | d in t.updates && t.updates[d].source == src
      ensures (d in s.updates && s.updates[d] == t.updates[d]) || Covers(t, t.updates[d])
    {
      QueueAt(s.updates, Ids(s.neighbours), sent, d);
      if d.neigh in Ids(s.neighbours) && d.prefix in sent && sent[d.prefix].Finite() {
        BroadcastsAt(s, now, d.prefix);
        PublishedKeyed(s, now);
        ComputeSources(s, now, src, w);
      }
    }
  }

  lemma {:induction false} SmoothStored(s: Node, ns: seq<Neighbour>, i: nat, p: Prefix)
    requires ns == SmoothAll(s) && i < |ns| && p in ns[i].routes
    ensures HasStored(s, ns[i].id, ns[i].routes[p].pub)
  {
    assert ns[i] == SmoothNeighbour(s, s.neighbours[i]);
    assert s.neighbours[i].routes[p].pub == ns[i].routes[p].pub;
  }

  lemma {:induction false} ComputeStored(s: Node, now: int, src: Source)
    ensures StoredGuarantee(s, Compute(s, now), src, {})
  {
    var t := Compute(s, now);
    forall i, p | 0 <= i < |t.neighbours| && p in t.neighbours[i].routes
      ensures HasStored(s, t.neighbours[i].id, t.neighbours[i].routes[p].pub)
    {
      SmoothStored(s, t.neighbours, i, p);
    }
  }

  lemma {:induction false} QueueKeyed(updates: map<Dest, PubRoute>, to: set<NodeId>, sent: map<Prefix, PubRoute>)
    requires UpdatesKeyed(updates) && forall p :: p in sent ==> sent[p].source.prefix == p
    ensures UpdatesKeyed(Queue(updates, to, sent))
  {
    forall d | d in Queue(updates, to, sent)
      ensures Queue(updates, to, sent)[d].source.prefix == d.prefix
    {
      QueueAt(updates, to, sent, d);
    }
  }

  lemma {:induction false} TableKeyed(s: Node, now: int)
    requires s.Valid()
    ensures RoutesKeyed(Table(s, now))
  {
    forall p | p in Table(s, now)
      ensures Table(s, now)[p].pub.source.prefix == p
    {
      if !Retracts(s, p, now) {
        NewEntryKeyed(s, p, now);
      }
    }
  }

  lemma {:induction false} SmoothKeyed(s: Node)
    requires NeighboursKeyed(s.neighbours)
    ensures NeighboursKeyed(SmoothAll(s))
  {
    assert forall i :: 0 <= i < |s.neighbours| ==> SmoothAll(s)[i] == SmoothNeighbour(s, s.neighbours[i]);
  }

  lemma {:induction false} BroadcastsKeyed(s: Node, now: int)
    requires s.Valid()
    ensures forall p :: p in Broadcasts(s, now) ==> Broadcasts(s, now)[p].source.prefix == p
  {
    PublishedKeyed(s, now);
    var lost := Lost(s, now);
    assert forall p :: p in lost ==> lost[p].pub.source.prefix == p;
  }

  lemma {:induction false} ComputeValid(s: Node, now: int)
    requires s.Valid()
    ensures Compute(s, now).Valid()
  {
    TableKeyed(s, now);
    SmoothKeyed(s);
    BroadcastsKeyed(s, now);
    QueueKeyed(s.updates, Ids(s.neighbours), Broadcasts(s, now));
  }

  lemma {:induction false} SameStored(s: Node, t: Node, src: Source, got: set<Msg>)
    requires t.neighbours == s.neighbours
    ensures StoredGuarantee(s, t, src, got)
  {
    forall i, p | 0 <= i < |t.neighbours| && p in t.neighbours[i].routes
      ensures HasStored(s, t.neighbours[i].id, t.neighbours[i].routes[p].pub)
    {
    }
  }

  lemma {:induction false} PushUpdates(s: Node, to: set<NodeId>, src: Source, w: U16)
    requires s.Valid() && NodeWindowed(s, src, w)
    ensures SourcesGuarantee(s, Push(s, to), src, w)
    ensures UpdatesGuarantee(s, Push(s, to), src)
  {
    var t := Push(s, to);
    AdvanceAllGuarantee(s, FinitePubs(s.routes), src, w);
    forall d | d in t.updates && t.updates[d].source == src
      ensures (d in s.updates && s.updates[d] == t.updates[d]) || Covers(t, t.updates[d])
    {
      QueueAt(s.updates, to, Pubs(s.routes), d);
    }
  }

  lemma {:induction false} PushGuarantee(s: Node, to: set<NodeId>, src: Source, w: U16)
    requires s.Valid() && NodeWindowed(s, src, w)
    ensures Guarantee(s, Push(s, to), src, w, {}) && Push(s, to).Valid()
  {
    var t := Push(s, to);
    PushUpdates(s, to, src, w);
    SameStored(s, t, src, {});
    QueueKeyed(s.updates, to, Pubs(s.routes));
    forall p
      ensures RouteGuarantee(s, t, src, p)
    {
      AdvanceAllGuarantee(s, FinitePubs(s.routes), src, w);
    }
  }

  lemma {:induction false} RepliedGuarantee(s: Node, from: NodeId, req: Source, seqno: U16, src: Source, w: U16)
    requires s.Valid() && NodeWindowed(s, src, w)
    ensures Guarantee(s, Replied(s, from, req, seqno), src, w, {}) && Replied(s, from, req, seqno).Valid()
  {
    var t := Replied(s, from, req, seqno);
    SameStored(s, t, src, {});
    if Replies(s, req, seqno) {
      var pub := s.routes[req.prefix].pub;
      if pub.source == src {
        AdvanceGuarantee(s, pub, w);
      }
      assert UpdatesKeyed(t.updates);
      assert SourcesGuarantee(s, t, src, w);
      assert UpdatesGuarantee(s, t, src);
      assert forall p :: RouteGuarantee(s, t, src, p);
    }
  }

  lemma {:induction false} ExpireGuarantee(s: Node, now: int, src: Source, w: U16)
    requires s.Valid() && NodeWindowed(s, src, w)
    ensures Guarantee(s, Expire(s, now), src, w, {}) && Expire(s, now).Valid()
  {
    var t := Expire(s, now);
    SameRoutes(s, t, src, w);
    assert forall i :: 0 <= i < |t.neighbours| ==> t.neighbours[i] == ExpireNeighbour(s.neighbours[i], s.tun, now);
  }

  lemma {:induction false} PutRouteAt(ns: seq<Neighbour>, i: nat, q: Prefix, r: NeighRoute)
    requires i < |ns| && NeighboursKeyed(ns) && r.pub.source.prefix == q
    ensures var ms := PutRoute(ns, i, q, r);
            && NeighboursKeyed(ms) && |ms| == |ns|
            && forall j, p :: 0 <= j < |ms| && p in ms[j].routes ==>
                 && ms[j].id == ns[j].id
                 && ((p in ns[j].routes && ns[j].routes[p] == ms[j].routes[p]) || (j == i && ms[j].routes[p] == r))
  {
  }

  lemma {:induction false} StoreUpdateShape(s: Node, i: nat, adv: PubRoute, now: int) returns (r: NeighRoute)
    requires i < |s.neighbours|
    ensures r.pub == adv
    ensures var t := StoreUpdate(s, i, adv, now);
            t == s || t == s.(neighbours := PutRoute(s.neighbours, i, adv.source.prefix, r))
  {
    r := Stored(s, s.neighbours[i], adv, now);
  }

  lemma {:induction false} DeliverGuarantee(s: Node, m: Msg, i: nat, r: NeighRoute, t: Node, src: Source, w: U16)
    requires s.Valid() && NodeWindowed(s, src, w) && i < |s.neighbours| && s.neighbours[i].id == m.from && m.to == s.id
    requires r.pub == m.adv && t == s.(neighbours := PutRoute(s.neighbours, i, m.adv.source.prefix, r))
    ensures Guarantee(s, t, src, w, {m}) && t.Valid()
  {
    PutRouteAt(s.neighbours, i, m.adv.source.prefix, r);
    SameRoutes(s, t, src, w);
  }

  lemma {:induction false} StoreGuarantee(s: Node, m: Msg, i: nat, now: int, src: Source, w: U16)
    requires s.Valid() && NodeWindowed(s, src, w) && i < |s.neighbours| && s.neighbours[i].id == m.from && m.to == s.id
    ensures Guarantee(s, StoreUpdate(s, i, m.adv, now), src, w, {m}) && StoreUpdate(s, i, m.adv, now).Valid()
  {
    var r := StoreUpdateShape(s, i, m.adv, now);
    var t := StoreUpdate(s, i, m.adv, now);
    if t == s {
      SameRoutes(s, s, src, w);
      SameStored(s, s, src, {m});
    } else {
      DeliverGuarantee(s, m, i, r, t, src, w);
    }
  }

  /** Nothing but neighbours, own prefixes and discarded updates changed. */
  lemma {:induction false} SameRoutes(s: Node, t: Node, src: Source, w: U16)
    requires NodeWindowed(s, src, w) && t.sources == s.sources
    requires forall p :: p in t.routes ==> p in s.routes && t.routes[p].pub == s.routes[p].pub && t.routes[p].nh == s.routes[p].nh
    requires forall d :: d in t.updates ==> d in s.updates && t.updates[d] == s.updates[d]
    ensures SourcesGuarantee(s, t, src, w) && UpdatesGuarantee(s, t, src)
    ensures forall p :: RouteGuarantee(s, t, src, p)
  {
  }

  lemma {:induction false} EnvironmentGuarantee(s: Node, t: Node, src: Source, w: U16)
    requires s.Valid() && NodeWindowed(s, src, w) && EnvironmentChange(s, t)
    ensures Guarantee(s, t, src, w, {})
  {
    SameRoutes(s, t, src, w);
    forall i, p | 0 <= i < |t.neighbours| && p in t.neighbours[i].routes
      ensures HasStored(s, t.neighbours[i].id, t.neighbours[i].routes[p].pub)
    {
      var j :| 0 <= j < |s.neighbours| && s.neighbours[j].id == t.neighbours[i].id && s.neighbours[j].routes == t.neighbours[i].routes;
      assert p in s.neighbours[j].routes;
    }
  }

  lemma {:induction false} ComputeGuarantee(s: Node, now: int, src: Source, w: U16)
    requires s.Valid() && NodeWindowed(s, src, w) && CostlyLinks(s)
    ensures Guarantee(s, Compute(s, now), src, w, {}) && Compute(s, now).Valid()
  {
    ComputeSources(s, now, src, w);
    ComputeUpdates(s, now, src, w);
    ComputeStored(s, now, src);
    ComputeValid(s, now);
    forall p
      ensures RouteGuarantee(s, Compute(s, now), src, p)
    {
      ComputeRoutesGuarantee(s, now, src, w, p);
    }
  }

  lemma {:induction false} StepGuarantee(s: Node, ev: Event, t: Node, src: Source, w: U16)
    requires s.Valid() && NodeWindowed(s, src, w) && CostlyLinks(s) && NodeStep(s, ev, t)
    requires !ev.ForgetSources?
    ensures Guarantee(s, t, src, w, if ev.Deliver? then {ev.msg} else {}) && t.Valid()
  {
    match ev
    case ComputeRoutes(now) => ComputeGuarantee(s, now, src, w);
    case PushTable(to) => PushGuarantee(s, to, src, w);
    case AnswerRequest(from, req, seqno) => RepliedGuarantee(s, from, req, seqno, src, w);
    case CountAck(neigh, prefix) =>
      SameRoutes(s, t, src, w);
      SameStored(s, t, src, {});
    case ExpireRoutes(now) => ExpireGuarantee(s, now, src, w);
    case RaiseSeqno(prefix, seqno) =>
      SameRoutes(s, t, src, w);
      SameStored(s, t, src, {});
    case Flush(left) =>
      SameRoutes(s, t, src, w);
      SameStored(s, t, src, {});
    case Deliver(m, i, now) => StoreGuarantee(s, m, i, now, src, w);
    case Environment(node) => EnvironmentGuarantee(s, t, src, w);
  }

  // ---------- the invariant over every run ----------

  /** Everything a node or the wire holds for `src` before a step still counts after it. */
  lemma {:induction false} CoversKept(s: Node, t: Node, adv: PubRoute, w: U16)
    requires NodeWindowed(s, adv.source, w) && SourcesGuarantee(s, t, adv.source, w) && InWindow(w, adv.fd.seqno)
    requires Covers(s, adv)
    ensures Covers(t, adv)
  {
    if adv.Finite() {
      HeightOrders(w, t.sources[adv.source], s.sources[adv.source]);
      HeightOrders(w, s.sources[adv.source], adv.fd);
      HeightOrders(w, t.sources[adv.source], adv.fd);
    }
  }

  /** Router `v` goes from `s` to `t` and all others stay. */
  ghost predicate Replaces(net: Net, v: NodeId, s: Node, t: Node, net': Net) {
    v in net.nodes && s == net.nodes[v] && s.id == v && net'.nodes == net.nodes[v := t]
  }

  lemma {:induction false} SentKept(net: Net, v: NodeId, s: Node, t: Node, net': Net, src: Source, w: U16)
    requires Replaces(net, v, s, t, net') && Windowed(net, src, w) && SentCovered(net, src)
    requires SourcesGuarantee(s, t, src, w) && UpdatesGuarantee(s, t, src)
    requires net'.wire <= net.wire + Outgoing(s)
    ensures SentCovered(net', src)
  {
    forall d | d in t.updates && t.updates[d].source == src
      ensures Covers(t, t.updates[d])
    {
      if d in s.updates && s.updates[d] == t.updates[d] {
        CoversKept(s, t, s.updates[d], w);
      }
    }
    forall m | m in net'.wire && m.from in net'.nodes && m.adv.source == src
      ensures Covers(net'.nodes[m.from], m.adv)
    {
      if m in net.wire {
        if m.from == v {
          CoversKept(s, t, m.adv, w);
        }
      } else {
        var d :| d in s.updates && m == Msg(s.id, d.neigh, s.updates[d]);
        CoversKept(s, t, s.updates[d], w);
      }
    }
  }

  /** A finite advertisement stored after the step was stored, or on the wire, before it. */
  lemma {:induction false} StoredOrigin(net: Net, v: NodeId, s: Node, t: Node, src: Source, w: U16, got: set<Msg>, i: nat, p: Prefix)
    requires v in net.nodes && s == net.nodes[v] && s.id == v && Windowed(net, src, w)
    requires SentCovered(net, src) && StoredCovered(net, src) && StoredGuarantee(s, t, src, got) && got <= net.wire
    requires i < |t.neighbours| && p in t.neighbours[i].routes && t.neighbours[i].id in net.nodes
    requires t.neighbours[i].routes[p].pub.source == src && t.neighbours[i].routes[p].pub.Finite()
    ensures Covers(net.nodes[t.neighbours[i].id], t.neighbours[i].routes[p].pub)
    ensures InWindow(w, t.neighbours[i].routes[p].pub.fd.seqno)
  {
    var u, adv := t.neighbours[i].id, t.neighbours[i].routes[p].pub;
    if HasStored(s, u, adv) {
      StoredIsCovered(net, v, u, adv, src, w);
    } else {
      assert Msg(u, v, adv) in net.wire;
    }
  }

  lemma {:induction false} StoredIsCovered(net: Net, v: NodeId, u: NodeId, adv: PubRoute, src: Source, w: U16)
    requires v in net.nodes && u in net.nodes && Windowed(net, src, w) && StoredCovered(net, src)
    requires HasStored(net.nodes[v], u, adv) && adv.source == src
    ensures Covers(net.nodes[u], adv) && InWindow(w, adv.fd.seqno)
  {
    var s := net.nodes[v];
    var j, q :| 0 <= j < |s.neighbours| && s.neighbours[j].id == u && q in s.neighbours[j].routes
                && s.neighbours[j].routes[q].pub == adv;
    assert NodeWindowed(s, src, w);
  }

  lemma {:induction false} StoredKept(net: Net, v: NodeId, s: Node, t: Node, net': Net, src: Source, w: U16, got: set<Msg>)
    requires Replaces(net, v, s, t, net') && Windowed(net, src, w)
    requires SentCovered(net, src) && StoredCovered(net, src)
    requires SourcesGuarantee(s, t, src, w) && StoredGuarantee(s, t, src, got) && got <= net.wire
    ensures StoredCovered(net', src)
  {
    forall x, i, p | x in net'.nodes && 0 <= i < |net'.nodes[x].neighbours| && p in net'.nodes[x].neighbours[i].routes
                     && net'.nodes[x].neighbours[i].id in net'.nodes && net'.nodes[x].neighbours[i].routes[p].pub.source == src
      ensures Covers(net'.nodes[net'.nodes[x].neighbours[i].id], net'.nodes[x].neighbours[i].routes[p].pub)
    {
      var u, adv := net'.nodes[x].neighbours[i].id, net'.nodes[x].neighbours[i].routes[p].pub;
      if adv.Finite() {
        if x == v {
          StoredOrigin(net, v, s, t, src, w, got, i, p);
        } else {
          assert HasStored(net.nodes[x], u, adv);
          StoredIsCovered(net, x, u, adv, src, w);
        }
        if u == v {
          CoversKept(s, t, adv, w);
        }
      }
    }
  }

  /** A route that is kept or chosen afresh falls towards its next hop. */
  lemma {:induction false} ChosenFalls(net: Net, v: NodeId, s: Node, t: Node, net': Net, src: Source, w: U16, p: Prefix)
    requires Replaces(net, v, s, t, net') && Windowed(net, src, w) && WellFormed(net)
    requires StoredCovered(net, src) && HopsFall(net, src) && RouteGuarantee(s, t, src, p)
    requires Hop(net', v, p, src)
    ensures Falls(net', v, p, src)
  {
    var e := t.routes[p];
    var u := net.nodes[e.nh];
    if p in s.routes && s.routes[p].pub == e.pub && s.routes[p].nh == e.nh {
      assert Hop(net, v, p, src) && Falls(net, v, p, src);
    } else {
      assert !(p in s.advertised && e.nh == s.advertised[p].node);
      var adv :| HasStored(s, e.nh, adv) && adv.source == src && Supports(s.sources, adv, e);
      StoredIsCovered(net, v, e.nh, adv, src, w);
      SupportFalls(u.sources[src], adv.fd, e.pub.fd, w);
      if src in s.sources {
        FeasibleFalls(u.sources[src], adv.fd, s.sources[src], w);
      }
    }
  }

  lemma {:induction false} FeasibleFalls(d: FD, adv: FD, own: FD, w: U16)
    requires InWindow(w, d.seqno) && InWindow(w, adv.seqno) && InWindow(w, own.seqno)
    requires NoWorse(d, adv) && Better(adv, own)
    ensures Better(d, own)
  {
    HeightOrders(w, d, adv);
    HeightOrders(w, adv, own);
    HeightOrders(w, d, own);
  }

  lemma {:induction false} SupportFalls(d: FD, adv: FD, e: FD, w: U16)
    requires InWindow(w, d.seqno) && InWindow(w, adv.seqno) && NoWorse(d, adv)
    requires e.seqno == adv.seqno && adv.metric < e.metric
    ensures Better(d, e)
  {
    HeightOrders(w, d, adv);
    HeightOrders(w, d, e);
  }

  /** When the next hop's distance improves, a route still falls towards it. */
  lemma {:induction false} ImprovedFalls(d': FD, d: FD, e: FD, w: U16)
    requires InWindow(w, d'.seqno) && InWindow(w, d.seqno) && InWindow(w, e.seqno)
    requires NoWorse(d', d) && Better(d, e)
    ensures Better(d', e)
  {
    HeightOrders(w, d', d);
    HeightOrders(w, d, e);
    HeightOrders(w, d', e);
  }

  lemma {:induction false} HopsKept(net: Net, v: NodeId, s: Node, t: Node, net': Net, src: Source, w: U16)
    requires Replaces(net, v, s, t, net') && Windowed(net, src, w) && WellFormed(net)
    requires StoredCovered(net, src) && HopsFall(net, src)
    requires SourcesGuarantee(s, t, src, w) && forall p :: RouteGuarantee(s, t, src, p)
    ensures HopsFall(net', src)
  {
    forall x, p | Hop(net', x, p, src)
      ensures Falls(net', x, p, src)
    {
      if x == v {
        assert RouteGuarantee(s, t, src, p);
        ChosenFalls(net, v, s, t, net', src, w, p);
      } else {
        assert Hop(net, x, p, src) && Falls(net, x, p, src);
        if net.nodes[x].routes[p].nh == v {
          assert NodeWindowed(net.nodes[x], src, w) && NodeWindowed(s, src, w);
          ImprovedFalls(t.sources[src], s.sources[src], net.nodes[x].routes[p].pub.fd, w);
          if src in net.nodes[x].sources {
            ImprovedFalls(t.sources[src], s.sources[src], net.nodes[x].sources[src], w);
          }
        }
      }
    }
  }

  // ---------- forgetting a source ----------

  /** Someone still has a finite advertisement that `v` made for `src`, or a route over `v`. */
  ghost predicate Relied(net: Net, v: NodeId, src: Source)
    requires v in net.nodes
  {
    || (exists d :: d in net.nodes[v].updates && net.nodes[v].updates[d].source == src && net.nodes[v].updates[d].Finite())
    || (exists m :: m in net.wire && m.from == v && m.adv.source == src && m.adv.Finite())
    || (exists x, adv :: x in net.nodes && HasStored(net.nodes[x], v, adv) && adv.source == src && adv.Finite())
    || (exists x, p :: Hop(net, x, p, src) && net.nodes[x].routes[p].nh == v)
  }

  ghost predicate Forgets(s: Node, src: Source) {
    src in s.sources && !Referenced(s, src)
  }

  /** Nothing but the distances kept at `v` changes. */
  ghost predicate Forgotten(net: Net, v: NodeId, net': Net) {
    v in net.nodes && net' == net.(nodes := net.nodes[v := DropSources(net.nodes[v])])
  }

  lemma {:induction false} ForgettingUnused(net: Net, v: NodeId, net': Net, src: Source)
    requires Forgotten(net, v, net') && Inv(net, src)
    requires Forgets(net.nodes[v], src) ==> !Relied(net, v, src)
    ensures Inv(net', src)
  {
    forall x, i, p | x in net'.nodes && 0 <= i < |net'.nodes[x].neighbours| && p in net'.nodes[x].neighbours[i].routes
                     && net'.nodes[x].neighbours[i].id in net'.nodes && net'.nodes[x].neighbours[i].routes[p].pub.source == src
      ensures Covers(net'.nodes[net'.nodes[x].neighbours[i].id], net'.nodes[x].neighbours[i].routes[p].pub)
    {
      assert net.nodes[x].neighbours == net'.nodes[x].neighbours;
      var nb := net.nodes[x].neighbours[i];
      assert HasStored(net.nodes[x], nb.id, nb.routes[p].pub);
    }
    forall x, p | Hop(net', x, p, src)
      ensures Falls(net', x, p, src)
    {
      assert Hop(net, x, p, src) && Falls(net, x, p, src);
    }
  }

  lemma {:induction false} ForgettingUsed(net: Net, v: NodeId, net': Net, src: Source)
    requires Forgotten(net, v, net') && Forgets(net.nodes[v], src) && Relied(net, v, src)
    ensures !Inv(net', src)
  {
    var s := net.nodes[v];
    if d :| d in s.updates && s.updates[d].source == src && s.updates[d].Finite() {
      assert d in net'.nodes[v].updates && !Covers(net'.nodes[v], net'.nodes[v].updates[d]);
    } else if m :| m in net.wire && m.from == v && m.adv.source == src && m.adv.Finite() {
      assert !Covers(net'.nodes[v], m.adv);
    } else if x, adv :| x in net.nodes && HasStored(net.nodes[x], v, adv) && adv.source == src && adv.Finite() {
      assert net'.nodes[x].neighbours == net.nodes[x].neighbours;
      var i, p :| 0 <= i < |net'.nodes[x].neighbours| && net'.nodes[x].neighbours[i].id == v && p in net'.nodes[x].neighbours[i].routes
                  && net'.nodes[x].neighbours[i].routes[p].pub == adv;
      assert !Covers(net'.nodes[v], adv);
    } else {
      var x, p :| Hop(net, x, p, src) && net.nodes[x].routes[p].nh == v;
      assert Hop(net', x, p, src) && !Falls(net', x, p, src);
    }
  }

  /** Dropping unreferenced sources is harmless exactly when nobody relies on the dropped
      distance any more: being unreferenced at the node itself does not suffice. */
  lemma {:induction false} ForgettingKeepsInv(net: Net, v: NodeId, net': Net, src: Source)
    requires Forgotten(net, v, net') && Inv(net, src)
    ensures Inv(net', src) <==> !(Forgets(net.nodes[v], src) && Relied(net, v, src))
  {
    if Forgets(net.nodes[v], src) && Relied(net, v, src) {
      ForgettingUsed(net, v, net', src);
    } else {
      ForgettingUnused(net, v, net', src);
    }
  }

  /** A step that drops a source drops one that nobody relies on. */
  ghost predicate ForgetsUnused(net: Net, v: NodeId, ev: Event, src: Source)
    requires v in net.nodes
  {
    ev.ForgetSources? && Forgets(net.nodes[v], src) ==> !Relied(net, v, src)
  }

  lemma {:induction false} FewerMessages(net: Net, wire: set<Msg>, src: Source)
    requires Inv(net, src) && wire <= net.wire
    ensures Inv(net.(wire := wire), src)
  {
    var net' := net.(wire := wire);
    forall x, p | Hop(net', x, p, src)
      ensures Falls(net', x, p, src)
    {
      assert Hop(net, x, p, src) && Falls(net, x, p, src);
    }
  }

  /** Every step of every router keeps the invariant. */
  lemma {:induction false} StepKeepsInv(net: Net, v: NodeId, ev: Event, net': Net, src: Source, w: U16)
    requires WellFormed(net) && Windowed(net, src, w) && Inv(net, src) && Next(net, v, ev, net')
    requires ForgetsUnused(net, v, ev, src)
    ensures Inv(net', src)
  {
    if ev.ForgetSources? {
      var there := net.(nodes := net'.nodes);
      ForgettingKeepsInv(net, v, there, src);
      FewerMessages(there, net'.wire, src);
      return;
    }
    var s, t, got := net.nodes[v], net'.nodes[v], if ev.Deliver? then {ev.msg} else {};
    StepGuarantee(s, ev, t, src, w);
    SentKept(net, v, s, t, net', src, w);
    StoredKept(net, v, s, t, net', src, w, got);
    HopsKept(net, v, s, t, net', src, w);
  }

  lemma {:induction false} InitialInv(net: Net, src: Source)
    requires Initial(net)
    ensures Inv(net, src)
  {
  }

  /** The states of a run, newest first. */
  datatype History = Start(net: Net) | Then(before: History, router: NodeId, event: Event, net: Net)

  ghost predicate IsRun(h: History) {
    && WellFormed(h.net)
    && match h
       case Start(net) => Initial(net)
       case Then(before, v, ev, net) => IsRun(before) && Next(before.net, v, ev, net)
  }

  ghost predicate InUse(net: Net, src: Source) {
    exists w: U16 :: Windowed(net, src, w)
  }

  /** At every state of the run the sequence numbers in use for `src` lie within half of the
      number space. */
  ghost predicate AlwaysWindowed(h: History, src: Source) {
    InUse(h.net, src) && (h.Then? ==> AlwaysWindowed(h.before, src))
  }

  /** No step of the run drops the distance of `src` while another router relies on it. */
  ghost predicate KeepsRelied(h: History, src: Source)
    requires IsRun(h)
  {
    h.Then? ==> ForgetsUnused(h.before.net, h.router, h.event, src) && KeepsRelied(h.before, src)
  }

  lemma {:induction false} RunKeepsInv(h: History, src: Source)
    requires IsRun(h) && AlwaysWindowed(h, src) && KeepsRelied(h, src)
    ensures Inv(h.net, src)
  {
    match h
    case Start(net) => InitialInv(net, src);
    case Then(before, v, ev, net) =>
      RunKeepsInv(before, src);
      assert WellFormed(before.net) && InUse(before.net, src);
      var w: U16 :| Windowed(before.net, src, w);
      StepKeepsInv(before.net, v, ev, net, src, w);
  }

  /** Following next hops for `p` along `path`, every route being one towards `src`. */
  ghost predicate ForwardingPath(net: Net, path: seq<NodeId>, p: Prefix, src: Source) {
    forall k :: 0 <= k < |path| - 1 ==> Hop(net, path[k], p, src) && net.nodes[path[k]].routes[p].nh == path[k + 1]
  }

  lemma {:induction false} PathFalls(net: Net, path: seq<NodeId>, p: Prefix, src: Source, w: U16, k: nat)
    requires Windowed(net, src, w) && HopsFall(net, src) && ForwardingPath(net, path, p, src) && 1 <= k < |path|
    ensures path[1] in net.nodes && src in net.nodes[path[1]].sources
    ensures path[k] in net.nodes && src in net.nodes[path[k]].sources
    ensures Height(w, net.nodes[path[k]].sources[src]) <= Height(w, net.nodes[path[1]].sources[src]) - (k - 1)
  {
    assert Hop(net, path[0], p, src) && Falls(net, path[0], p, src);
    if k > 1 {
      PathFalls(net, path, p, src, w, k - 1);
      assert Hop(net, path[k - 1], p, src) && Falls(net, path[k - 1], p, src);
      HeightOrders(w, net.nodes[path[k]].sources[src], net.nodes[path[k - 1]].sources[src]);
    }
  }

  lemma {:induction false} FallingPathIsOpen(net: Net, path: seq<NodeId>, p: Prefix, src: Source, w: U16)
    requires Windowed(net, src, w) && HopsFall(net, src)
    requires |path| >= 2 && ForwardingPath(net, path, p, src)
    ensures path[0] != path[|path| - 1]
  {
    if path[0] == path[|path| - 1] {
      var turn := path + [path[1]];
      assert forall j :: 0 <= j < |path| ==> turn[j] == path[j];
      assert ForwardingPath(net, turn, p, src);
      PathFalls(net, turn, p, src, w, |path|);
    }
  }

  /** Loop freedom: in no state of any run do the selected routes towards one source lead from
      a router back to itself, as long as no metric on the way is saturated. A forwarding loop
      therefore always mixes routes of different sources. */
  lemma {:induction false} NoForwardingLoop(h: History, src: Source, path: seq<NodeId>, p: Prefix)
    requires IsRun(h) && AlwaysWindowed(h, src) && KeepsRelied(h, src)
    requires |path| >= 2 && ForwardingPath(h.net, path, p, src)
    ensures path[0] != path[|path| - 1]
  {
    RunKeepsInv(h, src);
    var w: U16 :| Windowed(h.net, src, w);
    FallingPathIsOpen(h.net, path, p, src, w);
  }
}
