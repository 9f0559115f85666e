/** What one route computation decides, prefix by prefix. The loops that compute it are in
    `Router`; no prefix's outcome depends on another prefix or on the order of a loop. */
module RouteSelection {
  import opened Basics
  import opened Metric
  import opened RouterState

  /** A route under consideration and its smoothed metric. */
  datatype Candidate = Candidate(route: SelRoute, smoothed: real)

  function Connected(ns: seq<Neighbour>): (n: nat)
    ensures n <= |ns|
  {
    if ns == [] then 0
    else Connected(ns[..|ns| - 1]) + if ns[|ns| - 1].reachable then 1 else 0
  }

  predicate HasLink(ns: seq<Neighbour>, id: NodeId) {
    exists i :: 0 <= i < |ns| && ns[i].id == id && ns[i].reachable
  }

  predicate IsHeld(id: NodeId, r: SelRoute, connected: nat, hasLink: bool, now: int) {
    && r.nh != id
    && (!r.Finite() || !hasLink)
    && |r.retractedBy| < connected
    && now < r.expireAt
  }

  predicate Held(s: Node, p: Prefix, now: int) {
    p in s.routes && IsHeld(s.id, s.routes[p], Connected(s.neighbours), HasLink(s.neighbours, s.routes[p].nh), now)
  }

  function OwnMetric(adv: Advertisement): U32 {
    if adv.passiveHold then INFM / 2 else adv.metric
  }

  function Earlier(a: int, b: int): int { if a <= b then a else b }

  function OwnRoute(s: Node, p: Prefix, now: int): SelRoute
    requires p in s.advertised
  {
    var adv := s.advertised[p];
    SelRoute(PubRoute(Source(s.id, p), FD(s.Seqno(p), OwnMetric(adv))), adv.node,
             Earlier(now + s.tun.expiryTime, adv.expiry), [])
  }

  /** An entry that is there before any neighbour is looked at: our own prefix, or a held route. */
  function Incumbent(s: Node, p: Prefix, now: int): Option<SelRoute> {
    if p in s.advertised then Some(OwnRoute(s, p, now))
    else if Held(s, p, now) then Some(s.routes[p].Retracted())
    else None
  }

  function LinkMetric(tun: Tunables, nb: Neighbour): U32 {
    if nb.reachable then AddMetric(AddMetric(nb.linkCost, tun.hopCost), tun.transitCost) else INF
  }

  function Total(tun: Tunables, nb: Neighbour, adv: PubRoute): U32 {
    AddMetric(LinkMetric(tun, nb), adv.fd.metric)
  }

  function Smooth(prev: real, sample: U32, alpha: real): real {
    if prev == 0.0 then sample as real else alpha * sample as real + (1.0 - alpha) * prev
  }

  predicate Eligible(s: Node, nb: Neighbour, p: Prefix) {
    p in nb.routes && Total(s.tun, nb, nb.routes[p].pub) != INF && Feasible(s.sources, nb.routes[p].pub)
  }

  function CandidateOf(s: Node, nb: Neighbour, p: Prefix): Candidate
    requires p in nb.routes
  {
    var adv := nb.routes[p];
    var total := Total(s.tun, nb, adv.pub);
    Candidate(SelRoute(adv.pub.(fd := FD(adv.pub.fd.seqno, total)), nb.id, adv.expireAt, []),
              Smooth(adv.smoothed, total, s.tun.alpha))
  }

  /** The smallest metric among the first `k` neighbours; the earliest neighbour wins a tie. */
  function BestOf(s: Node, p: Prefix, k: nat): Option<Candidate>
    requires k <= |s.neighbours|
  {
    if k == 0 then None
    else
      var b := BestOf(s, p, k - 1);
      var nb := s.neighbours[k - 1];
      if Eligible(s, nb, p) && (b.None? || Total(s.tun, nb, nb.routes[p].pub) < b.value.route.pub.fd.metric)
      then Some(CandidateOf(s, nb, p))
      else b
  }

  ghost predicate IsBest(s: Node, p: Prefix, k: nat, i: nat)
    requires k <= |s.neighbours|
  {
    && i < k && Eligible(s, s.neighbours[i], p)
    && forall j :: 0 <= j < k && Eligible(s, s.neighbours[j], p) ==>
         var mi := Total(s.tun, s.neighbours[i], s.neighbours[i].routes[p].pub);
         var mj := Total(s.tun, s.neighbours[j], s.neighbours[j].routes[p].pub);
         mi <= mj && (j < i ==> mi < mj)
  }

  lemma {:induction false} BestOfNone(s: Node, p: Prefix, k: nat)
    requires k <= |s.neighbours|
    ensures BestOf(s, p, k).None? <==> forall i :: 0 <= i < k ==> !Eligible(s, s.neighbours[i], p)
  {
    if k > 0 {
      BestOfNone(s, p, k - 1);
    }
  }

  lemma {:induction false} BestOfIsBest(s: Node, p: Prefix, k: nat) returns (i: nat)
    requires k <= |s.neighbours| && BestOf(s, p, k).Some?
    ensures i < k && IsBest(s, p, k, i) && BestOf(s, p, k).value == CandidateOf(s, s.neighbours[i], p)
  {
    BestOfNone(s, p, k - 1);
    if BestOf(s, p, k - 1).None? {
      i := k - 1;
    } else {
      var j := BestOfIsBest(s, p, k - 1);
      i := if BestOf(s, p, k) == BestOf(s, p, k - 1) then j else k - 1;
    }
  }

  predicate SameRoute(a: SelRoute, b: SelRoute) {
    a.nh == b.nh && a.pub.source == b.pub.source
  }

  predicate IsCurrent(s: Node, nb: Neighbour, p: Prefix) {
    Eligible(s, nb, p) && p in s.routes && SameRoute(s.routes[p], CandidateOf(s, nb, p).route)
  }

  /** The candidate, among the first `k` neighbours, that is the route selected now. */
  function CurrentOf(s: Node, p: Prefix, k: nat): (r: Option<Candidate>)
    requires k <= |s.neighbours|
    ensures r.None? <==> forall i :: 0 <= i < k ==> !IsCurrent(s, s.neighbours[i], p)
    ensures r.Some? ==>
              exists i :: 0 <= i < k && IsCurrent(s, s.neighbours[i], p) && r.value == CandidateOf(s, s.neighbours[i], p)
  {
    if k == 0 then None
    else if IsCurrent(s, s.neighbours[k - 1], p) then Some(CandidateOf(s, s.neighbours[k - 1], p))
    else CurrentOf(s, p, k - 1)
  }

  /** Appendix A.3 of RFC 8966: leave the current route only for one that is better both
      now and on average. */
  function Choose(best: Candidate, cur: SelRoute, curSmoothed: real): SelRoute {
    if SameRoute(best.route, cur) then best.route
    else if best.route.pub.fd.metric < cur.pub.fd.metric && best.smoothed < curSmoothed then best.route
    else cur
  }

  function Pick(best: Option<Candidate>, current: Option<Candidate>, incumbent: Option<SelRoute>): Option<SelRoute> {
    if best.None? then incumbent
    else if incumbent.Some? then
      var avg := if current.Some? && SameRoute(incumbent.value, current.value.route) then current.value.smoothed
                 else incumbent.value.pub.fd.metric as real;
      Some(Choose(best.value, incumbent.value, avg))
    else if current.Some? then Some(Choose(best.value, current.value.route, current.value.smoothed))
    else Some(best.value.route)
  }

  /** The table entry that selection settles on. */
  function NewEntry(s: Node, p: Prefix, now: int): Option<SelRoute> {
    Pick(BestOf(s, p, |s.neighbours|), CurrentOf(s, p, |s.neighbours|), Incumbent(s, p, now))
  }

  predicate Retracts(s: Node, p: Prefix, now: int) {
    && p in s.routes && s.routes[p].Finite()
    && var e := NewEntry(s, p, now); e.None? || !e.value.Finite()
  }

  function RetractedRoute(r: SelRoute): SelRoute { r.Retracted().(retractedBy := []) }

  /** The table entry in force afterwards: a lost route stays as an infinite one. */
  function Entry(s: Node, p: Prefix, now: int): Option<SelRoute> {
    if Retracts(s, p, now) then Some(RetractedRoute(s.routes[p])) else NewEntry(s, p, now)
  }

  function Abs(x: int): nat { if x < 0 then -x else x }

  predicate MajorChange(s: Node, p: Prefix, e: SelRoute) {
    || p !in s.routes
    || s.routes[p].pub.source.node != e.pub.source.node
    || s.routes[p].pub.fd.seqno != e.pub.fd.seqno
    || (Abs(e.pub.fd.metric - s.routes[p].pub.fd.metric) > s.tun.largeChange && e.Finite())
  }

  predicate Publishes(s: Node, p: Prefix, now: int) {
    var e := NewEntry(s, p, now); e.Some? && MajorChange(s, p, e.value)
  }

  predicate NeedsInstall(s: Node, p: Prefix, e: SelRoute) {
    || p !in s.routes
    || (!s.routes[p].Finite() && e.Finite())
    || s.routes[p].nh != e.nh
  }

  function Prefixes(s: Node): set<Prefix> {
    s.routes.Keys + s.advertised.Keys + set i, p | 0 <= i < |s.neighbours| && p in s.neighbours[i].routes :: p
  }

  function NewTable(s: Node, now: int): map<Prefix, SelRoute> {
    map p | p in Prefixes(s) && NewEntry(s, p, now).Some? :: NewEntry(s, p, now).value
  }

  function Table(s: Node, now: int): map<Prefix, SelRoute> {
    map p | p in Prefixes(s) && Entry(s, p, now).Some? :: Entry(s, p, now).value
  }

  /** The entries of a new table that the dataplane has to learn. */
  function ToInstall(s: Node, table: map<Prefix, SelRoute>): map<Prefix, SelRoute> {
    map p | p in table && NeedsInstall(s, p, table[p]) :: table[p]
  }

  /** The entries of a new table that the neighbours have to learn. */
  function ToPublish(s: Node, table: map<Prefix, SelRoute>): map<Prefix, PubRoute> {
    map p | p in table && MajorChange(s, p, table[p]) :: table[p].pub
  }

  function Changed(s: Node, now: int): map<Prefix, SelRoute> { ToInstall(s, NewTable(s, now)) }

  function Lost(s: Node, now: int): map<Prefix, SelRoute> {
    map p | p in s.routes && Retracts(s, p, now) :: RetractedRoute(s.routes[p])
  }

  /** Routes handed to the dataplane: changed selections, then retractions. */
  function Installs(s: Node, now: int): map<Prefix, SelRoute> {
    Changed(s, now) + Lost(s, now)
  }

  function Pubs(rs: map<Prefix, SelRoute>): map<Prefix, PubRoute> {
    map p | p in rs :: rs[p].pub
  }

  function Published(s: Node, now: int): map<Prefix, PubRoute> { ToPublish(s, NewTable(s, now)) }

  /** Updates queued for every neighbour: published entries, then retractions. */
  function Broadcasts(s: Node, now: int): map<Prefix, PubRoute> {
    Published(s, now) + Pubs(Lost(s, now))
  }

  /** The update that `sent` holds for a source. */
  predicate IsSent(sent: map<Prefix, PubRoute>, src: Source) {
    src.prefix in sent && sent[src.prefix].source == src
  }

  function SentFor(sent: map<Prefix, PubRoute>, p: Prefix): PubRoute
    requires p in sent
  {
    sent[p]
  }

  /** The source table after updates for all of `sent`, which are keyed by prefix. */
  function AdvanceAll(sources: map<Source, FD>, sent: map<Prefix, PubRoute>): map<Source, FD> {
    sources + (map src | src in (set p | p in sent :: sent[p].source) && IsSent(sent, src)
                 :: NewDistance(sources, src, SentFor(sent, src.prefix).fd))
  }

  function Ids(ns: seq<Neighbour>): set<NodeId> {
    set i | 0 <= i < |ns| :: ns[i].id
  }

  function Queue(updates: map<Dest, PubRoute>, to: set<NodeId>, sent: map<Prefix, PubRoute>): map<Dest, PubRoute> {
    updates + (map d | d in (set n, p | n in to && p in sent :: Dest(n, p)) :: SentFor(sent, d.prefix))
  }

  function InstallForward(forward: map<Prefix, TableEntry>, rs: map<Prefix, SelRoute>): map<Prefix, TableEntry> {
    forward + (map p | p in rs :: TableEntry(rs[p].nh, !rs[p].Finite()))
  }

  function InstallExits(exits: map<Prefix, TableEntry>, id: NodeId, rs: map<Prefix, SelRoute>): map<Prefix, TableEntry> {
    (exits - rs.Keys) + (map p | p in rs && rs[p].Finite() && rs[p].nh == id :: TableEntry(id, false))
  }

  function SmoothAll(s: Node): seq<Neighbour> {
    seq(|s.neighbours|, i requires 0 <= i < |s.neighbours| => SmoothNeighbour(s, s.neighbours[i]))
  }

  function Smoothed(s: Node, nb: Neighbour, p: Prefix): NeighRoute
    requires p in nb.routes
  {
    if Eligible(s, nb, p) then nb.routes[p].(smoothed := CandidateOf(s, nb, p).smoothed) else nb.routes[p]
  }

  function SmoothNeighbour(s: Node, nb: Neighbour): Neighbour {
    nb.(routes := map p | p in nb.routes :: Smoothed(s, nb, p))
  }

  /** One route computation. */
  function Compute(s: Node, now: int): Node {
    s.(routes := Table(s, now),
       sources := AdvanceAll(s.sources, Published(s, now)),
       neighbours := SmoothAll(s),
       forward := InstallForward(s.forward, Installs(s, now)),
       exits := InstallExits(s.exits, s.id, Installs(s, now)),
       updates := Queue(s.updates, Ids(s.neighbours), Broadcasts(s, now)))
  }
}
