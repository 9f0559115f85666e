/** The other operations on a router's state: storing updates, table pushes, replies to
    sequence-number requests, retraction acknowledgements and expiry. */
module RouterOps {
  import opened Basics
  import opened Metric
  import opened RouterState
  import opened RouteSelection

  /** An update is ignored when it is unfeasible and would change the selected route in
      place, or when it is unfeasible or a retraction and nothing is stored yet. */
  predicate Ignores(s: Node, nb: Neighbour, adv: PubRoute) {
    var p := adv.source.prefix;
    if p !in nb.routes then !Feasible(s.sources, adv) || !adv.Finite()
    else
      && !Feasible(s.sources, adv)
      && p in s.routes && s.routes[p].nh == nb.id && s.routes[p].pub.source == adv.source
  }

  function Stored(s: Node, nb: Neighbour, adv: PubRoute, now: int): NeighRoute {
    var p := adv.source.prefix;
    if p !in nb.routes then NeighRoute(adv, now + s.tun.expiryTime, 0.0)
    else nb.routes[p].(pub := adv, expireAt := if adv.Finite() then now + s.tun.expiryTime else nb.routes[p].expireAt)
  }

  function PutRoute(ns: seq<Neighbour>, i: nat, p: Prefix, r: NeighRoute): seq<Neighbour>
    requires i < |ns|
  {
    ns[i := ns[i].(routes := ns[i].routes[p := r])]
  }

  /** Neighbour number `i` sent `adv`. */
  function StoreUpdate(s: Node, i: nat, adv: PubRoute, now: int): Node
    requires i < |s.neighbours|
  {
    var nb := s.neighbours[i];
    if Ignores(s, nb, adv) then s
    else s.(neighbours := PutRoute(s.neighbours, i, adv.source.prefix, Stored(s, nb, adv, now)))
  }

  /** A sequence-number request goes back to the neighbour when its unfeasible update is for
      the selected route, or would beat it. */
  predicate AsksSeqno(s: Node, nb: Neighbour, adv: PubRoute) {
    var p := adv.source.prefix;
    && p in nb.routes && !Feasible(s.sources, adv) && p in s.routes
    && ((s.routes[p].nh == nb.id && s.routes[p].pub.source == adv.source)
        || Total(s.tun, nb, adv) < s.routes[p].pub.fd.metric)
  }

  function FinitePubs(rs: map<Prefix, SelRoute>): map<Prefix, PubRoute> {
    map p | p in rs && rs[p].Finite() :: rs[p].pub
  }

  /** The whole table is queued for the neighbours in `to`. */
  function Push(s: Node, to: set<NodeId>): Node {
    s.(sources := AdvanceAll(s.sources, FinitePubs(s.routes)),
       updates := Queue(s.updates, to, Pubs(s.routes)))
  }

  /** The selected route for `p` is queued for one neighbour. */
  function Reply(s: Node, to: NodeId, p: Prefix): Node
    requires p in s.routes
  {
    s.(sources := Advance(s.sources, s.routes[p].pub), updates := s.updates[Dest(to, p) := s.routes[p].pub])
  }

  predicate Replies(s: Node, src: Source, seqno: U16) {
    && src.prefix in s.routes && s.routes[src.prefix].Finite()
    && (s.routes[src.prefix].pub.source.node == src.node ==> SeqnoGe(s.routes[src.prefix].pub.fd.seqno, seqno))
  }

  /** The request asks for a newer sequence number than the selected route of that source has. */
  predicate Unmet(s: Node, src: Source, seqno: U16) {
    && src.prefix in s.routes && s.routes[src.prefix].pub.source.node == src.node
    && SeqnoGt(seqno, s.routes[src.prefix].pub.fd.seqno)
  }

  function Replied(s: Node, from: NodeId, src: Source, seqno: U16): Node {
    if Replies(s, src, seqno) then Reply(s, from, src.prefix) else s
  }

  function Bump(s: Node, p: Prefix, seqno: U16): Node {
    s.(selfSeqno := s.selfSeqno[p := seqno])
  }

  function SeqnoRequest(s: Node, from: NodeId, src: Source, seqno: U16, now: int): Node {
    var r := Replied(s, from, src, seqno);
    if Unmet(s, src, seqno) && src.node == s.id then Compute(Bump(r, src.prefix, seqno), now) else r
  }

  /** A neighbour that an unmet request can be passed on to. */
  predicate Relays(s: Node, nb: Neighbour, from: NodeId, p: Prefix, feasible: bool) {
    && nb.reachable && p in nb.routes && nb.id != from && nb.routes[p].pub.Finite()
    && (feasible ==> Feasible(s.sources, nb.routes[p].pub))
  }

  predicate CanRelay(s: Node, from: NodeId, p: Prefix, feasible: bool) {
    exists i :: 0 <= i < |s.neighbours| && Relays(s, s.neighbours[i], from, p, feasible)
  }

  /** `id` is one of them, over a feasible route if there is any such. */
  predicate RelaysVia(s: Node, from: NodeId, p: Prefix, id: NodeId) {
    exists i :: 0 <= i < |s.neighbours| && s.neighbours[i].id == id && Relays(s, s.neighbours[i], from, p, CanRelay(s, from, p, true))
  }

  /** The request is not for this node, asks for more than it has, and may travel on. */
  predicate PassesOn(s: Node, src: Source, seqno: U16, hops: nat) {
    Unmet(s, src, seqno) && src.node != s.id && hops >= 2
  }

  /** A retraction acknowledgement counts once per neighbour and only for a held route. */
  predicate Counts(s: Node, neigh: NodeId, p: Prefix) {
    p in s.routes && !s.routes[p].Finite() && neigh !in s.routes[p].retractedBy
  }

  function Acked(s: Node, neigh: NodeId, p: Prefix): Node
    requires p in s.routes
  {
    s.(routes := s.routes[p := s.routes[p].(retractedBy := s.routes[p].retractedBy + [neigh])])
  }

  function AckRetract(s: Node, neigh: NodeId, p: Prefix, now: int): Node {
    if Counts(s, neigh, p) then Compute(Acked(s, neigh, p), now) else s
  }

  function Aged(r: NeighRoute, tun: Tunables, now: int): NeighRoute {
    if now > r.expireAt then r.(pub := r.pub.(fd := r.pub.fd.(metric := INF)), expireAt := now + tun.expiryTime) else r
  }

  /** An expired stored route turns infinite, and is flushed when it expires again. */
  function ExpireNeighbour(nb: Neighbour, tun: Tunables, now: int): Neighbour {
    nb.(routes := map p | p in nb.routes && !(now > nb.routes[p].expireAt && !nb.routes[p].pub.Finite())
          :: Aged(nb.routes[p], tun, now))
  }

  function Expire(s: Node, now: int): Node {
    s.(neighbours := seq(|s.neighbours|, i requires 0 <= i < |s.neighbours| => ExpireNeighbour(s.neighbours[i], s.tun, now)),
       advertised := map p | p in s.advertised && now <= s.advertised[p].expiry :: s.advertised[p])
  }

  /** A source that a stored, selected or own route still refers to. */
  predicate Referenced(s: Node, src: Source) {
    || (exists i :: 0 <= i < |s.neighbours| && src.prefix in s.neighbours[i].routes
                    && s.neighbours[i].routes[src.prefix].pub.source == src)
    || (src.prefix in s.routes && s.routes[src.prefix].pub.source == src)
    || (src.prefix in s.advertised && s.advertised[src.prefix].node == src.node)
  }

  function DropSources(s: Node): Node {
    s.(sources := map src | src in s.sources && Referenced(s, src) :: s.sources[src])
  }

  function Collect(s: Node, now: int): Node {
    DropSources(Compute(Expire(s, now), now))
  }
}
