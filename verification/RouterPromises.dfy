/** What the operations of a router promise, said of the states before and after them and of the
    records that the tables hold. */
module RouterPromises {
  import opened Basics
  import opened Metric
  import opened RouterState
  import opened RouteSelection
  import opened RouterOps
  import opened RouterSafety
  import opened RouterLaws

  // ---------- updates of a neighbour ----------

  /** A finite update that is not newer than the distance kept for its source, and not smaller. */
  ghost predicate Unfeasible(s: Node, adv: PubRoute) {
    && adv.fd.metric != INF && adv.source in s.sources
    && !SeqnoLt(s.sources[adv.source].seqno, adv.fd.seqno)
    && !(adv.fd.seqno == s.sources[adv.source].seqno && adv.fd.metric < s.sources[adv.source].metric)
  }

  /** The update is for the route that is selected. */
  ghost predicate ForSelected(s: Node, i: nat, adv: PubRoute)
    requires i < |s.neighbours|
  {
    var p := adv.source.prefix;
    p in s.routes && s.routes[p].nh == s.neighbours[i].id && s.routes[p].pub.source == adv.source
  }

  /** What neighbours are known to advertise stays, except for the prefix `p` at neighbour `i`. */
  ghost predicate OthersKept(s: Node, t: Node, i: nat, p: Prefix) {
    |t.neighbours| == |s.neighbours| && forall k, q :: KeptAt(s, t, i, p, k, q)
  }

  ghost predicate KeptAt(s: Node, t: Node, i: nat, p: Prefix, k: nat, q: Prefix) {
    k < |s.neighbours| && k < |t.neighbours| ==>
      var nb, nb' := s.neighbours[k], t.neighbours[k];
      && nb'.id == nb.id && nb'.reachable == nb.reachable && nb'.linkCost == nb.linkCost
      && (k != i || q != p ==> (q in nb'.routes <==> q in nb.routes) && (q in nb.routes ==> nb'.routes[q] == nb.routes[q]))
  }

  /** An update from neighbour `i`: an unknown prefix is stored if the update is finite and feasible; a
      known one is overwritten, unless the update is unfeasible and for the selected route. A finite
      update starts its time anew and a retraction does not. */
  ghost predicate StoresUpdate(s: Node, t: Node, i: nat, adv: PubRoute, now: int) {
    var p := adv.source.prefix;
    && i < |s.neighbours| && t == s.(neighbours := t.neighbours) && OthersKept(s, t, i, p)
    && var nb, nb' := s.neighbours[i].routes, t.neighbours[i].routes;
       if p !in nb && (adv.fd.metric == INF || Unfeasible(s, adv)) then p !in nb'
       else if p !in nb then p in nb' && nb'[p] == NeighRoute(adv, now + s.tun.expiryTime, 0.0)
       else if Unfeasible(s, adv) && ForSelected(s, i, adv) then p in nb' && nb'[p] == nb[p]
       else p in nb' && nb'[p] == NeighRoute(adv, if adv.fd.metric == INF then nb[p].expireAt else now + s.tun.expiryTime, nb[p].smoothed)
  }

  lemma {:induction false} PutKeepsOthers(s: Node, i: nat, p: Prefix, r: NeighRoute)
    requires i < |s.neighbours|
    ensures OthersKept(s, s.(neighbours := PutRoute(s.neighbours, i, p, r)), i, p)
  {
  }

  lemma {:induction false} UpdateStored(s: Node, i: nat, adv: PubRoute, now: int)
    requires i < |s.neighbours|
    ensures StoresUpdate(s, StoreUpdate(s, i, adv, now), i, adv, now)
  {
    assert Unfeasible(s, adv) <==> !Feasible(s.sources, adv);
    PutKeepsOthers(s, i, adv.source.prefix, Stored(s, s.neighbours[i], adv, now));
  }

  /** The neighbour is asked for a newer sequence number: its update to a known route is unfeasible,
      and it is for the selected route or would be cheaper than that. */
  ghost predicate Starves(s: Node, i: nat, adv: PubRoute)
    requires i < |s.neighbours|
  {
    var p, nb := adv.source.prefix, s.neighbours[i];
    && p in nb.routes && Unfeasible(s, adv) && p in s.routes
    && (ForSelected(s, i, adv)
        || (nb.reachable && AddMetric(nb.linkCost, AddMetric(s.tun.hopCost, AddMetric(s.tun.transitCost, adv.fd.metric)))
                            < s.routes[p].pub.fd.metric))
  }

  lemma {:induction false} StarvesIs(s: Node, i: nat, adv: PubRoute)
    requires i < |s.neighbours|
    ensures Starves(s, i, adv) <==> AsksSeqno(s, s.neighbours[i], adv)
  {
    if s.neighbours[i].reachable {
      LearnedTotal(s, s.neighbours[i], adv.fd.metric);
    }
  }

  /** A finite route is an own one, or over a neighbour that offers it. */
  lemma {:induction false} FiniteFrom(s: Node, p: Prefix, now: int) returns (i: nat)
    requires s.Valid() && p in Compute(s, now).routes && Compute(s, now).routes[p].Finite()
    ensures var nh := Compute(s, now).routes[p].nh;
            (p in s.advertised && s.advertised[p].node == nh) || (Offers(s, i, p) && s.neighbours[i].id == nh)
  {
    TableAt(s, now, p);
    i := NewEntryOrigin(s, p, now);
    if !(p in s.advertised && Compute(s, now).routes[p] == OwnRoute(s, p, now)) {
      OffersIs(s, i, p);
    }
  }

  lemma {:induction false} SameNeighbour(ns: seq<Neighbour>, k: nat, i: nat)
    requires NeighboursKeyed(ns) && k < |ns| && i < |ns| && ns[k].id == ns[i].id
    ensures k == i
  {
  }

  lemma {:induction false} InfiniteNotOffered(s: Node, p: Prefix, i: nat)
    requires i < |s.neighbours| && p in s.neighbours[i].routes && s.neighbours[i].routes[p].pub.fd.metric == INF
    ensures !Offers(s, i, p)
  {
  }

  /** A retraction ends the route: after the next computation no finite route leads over the
      neighbour that retracted, unless that is where an own prefix is announced to be. */
  lemma {:induction false} RetractionEndsRoute(s: Node, t: Node, i: nat, adv: PubRoute, now: int, later: int)
    requires t.Valid() && StoresUpdate(s, t, i, adv, now) && adv.fd.metric == INF
    ensures var p, u := adv.source.prefix, Compute(t, later);
            p in u.routes && u.routes[p].Finite() && u.routes[p].nh == s.neighbours[i].id ==>
              p in s.advertised && s.advertised[p].node == s.neighbours[i].id
  {
    var p, u := adv.source.prefix, Compute(t, later);
    assert KeptAt(s, t, i, p, i, p);
    if p in u.routes && u.routes[p].Finite() && u.routes[p].nh == s.neighbours[i].id {
      var k := FiniteFrom(t, p, later);
      if Offers(t, k, p) && t.neighbours[k].id == t.neighbours[i].id {
        SameNeighbour(t.neighbours, k, i);
        InfiniteNotOffered(t, p, i);
      }
    }
  }

  // ---------- requests for a newer sequence number ----------

  /** The request is for a newer number of the selected route's origin than that route has. */
  ghost predicate AsksNewer(s: Node, src: Source, seqno: U16) {
    && src.prefix in s.routes && s.routes[src.prefix].pub.source.node == src.node
    && seqno != s.routes[src.prefix].pub.fd.seqno && !SeqnoLt(seqno, s.routes[src.prefix].pub.fd.seqno)
  }

  /** The selected route answers the request: it is finite, and of another origin or not older. */
  ghost predicate Satisfies(s: Node, src: Source, seqno: U16) {
    && src.prefix in s.routes && s.routes[src.prefix].pub.fd.metric != INF
    && (s.routes[src.prefix].pub.source.node != src.node || !SeqnoLt(s.routes[src.prefix].pub.fd.seqno, seqno))
  }

  /** The distance of one source is lowered to what is about to be sent, unless it is lower. */
  ghost predicate Lowered(before: map<Source, FD>, after: map<Source, FD>, adv: PubRoute) {
    && adv.source in after && after == before[adv.source := after[adv.source]]
    && after[adv.source] == if adv.source in before && !Better(adv.fd, before[adv.source]) then before[adv.source] else adv.fd
  }

  /** A satisfying route is queued for the node that asked, and nothing else happens. */
  ghost predicate Answers(s: Node, t: Node, from: NodeId, src: Source, seqno: U16) {
    if Satisfies(s, src, seqno) then
      var adv := s.routes[src.prefix].pub;
      t == s.(sources := t.sources, updates := s.updates[Dest(from, src.prefix) := adv]) && Lowered(s.sources, t.sources, adv)
    else t == s
  }

  lemma {:induction false} RepliedAnswers(s: Node, from: NodeId, src: Source, seqno: U16)
    ensures Answers(s, Replied(s, from, src, seqno), from, src, seqno)
  {
  }

  /** The node takes over the number that it is asked for. If nothing can be cheaper than its own
      route, that route now carries the number and an update with it is queued for every neighbour. */
  ghost predicate Renews(s: Node, t: Node, p: Prefix, seqno: U16) {
    && t.selfSeqno == s.selfSeqno[p := seqno] && t.advertised == s.advertised
    && (p in s.advertised && OwnCost(s.advertised[p]) == 0 && s.advertised[p].node !in Ids(s.neighbours) ==>
          && p in t.routes && t.routes[p].nh == s.advertised[p].node
          && t.routes[p].pub == PubRoute(Source(s.id, p), FD(seqno, 0))
          && forall n :: n in Ids(s.neighbours) ==> Dest(n, p) in t.updates && t.updates[Dest(n, p)] == t.routes[p].pub)
  }

  /** An own prefix that no offer undercuts, and that no neighbour stands for, is selected. */
  lemma {:induction false} OwnSelected(s: Node, p: Prefix, now: int)
    requires s.Valid() && p in s.advertised && OwnCost(s.advertised[p]) != INF && s.advertised[p].node !in Ids(s.neighbours)
    requires forall k: nat :: Offers(s, k, p) ==> OwnCost(s.advertised[p]) <= Cost(s, k, p)
    ensures p in Compute(s, now).routes && Own(s, p, now, Compute(s, now).routes[p])
  {
    if NoOffer(s, p) {
      OwnStays(s, p, now);
    } else {
      var j := CheapestExists(s, p);
      forall i: nat
        ensures !OffersOwn(s, i, p)
      {
        assert i < |s.neighbours| ==> s.neighbours[i].id in Ids(s.neighbours);
      }
      OwnGivesWay(s, p, now, j);
    }
  }

  /** A new sequence number of a selected route is announced to every neighbour. */
  lemma {:induction false} NewSeqnoAnnounced(s: Node, p: Prefix, now: int)
    requires s.Valid() && p in s.routes && p in Compute(s, now).routes && Compute(s, now).routes[p].Finite()
    requires Compute(s, now).routes[p].pub.fd.seqno != s.routes[p].pub.fd.seqno
    ensures var t := Compute(s, now);
            forall n :: n in Ids(s.neighbours) ==> Dest(n, p) in t.updates && t.updates[Dest(n, p)] == t.routes[p].pub
  {
    forall n | n in Ids(s.neighbours)
      ensures var t := Compute(s, now); Dest(n, p) in t.updates && t.updates[Dest(n, p)] == t.routes[p].pub
    {
      Announces(s, now, Dest(n, p));
    }
  }

  lemma {:induction false} OwnRenewed(s: Node, p: Prefix, now: int, seqno: U16)
    requires s.Valid() && p in s.routes && p in s.selfSeqno && s.selfSeqno[p] == seqno != s.routes[p].pub.fd.seqno
    ensures Renews(s, Compute(s, now), p, seqno)
  {
    if p in s.advertised && OwnCost(s.advertised[p]) == 0 && s.advertised[p].node !in Ids(s.neighbours) {
      OwnSelected(s, p, now);
      NewSeqnoAnnounced(s, p, now);
    }
  }

  lemma {:induction false} RepliedValid(s: Node, from: NodeId, src: Source, seqno: U16)
    requires s.Valid()
    ensures Bump(Replied(s, from, src, seqno), src.prefix, seqno).Valid()
  {
  }

  lemma {:induction false} RenewsAlike(s: Node, r: Node, t: Node, p: Prefix, seqno: U16)
    requires Renews(r, t, p, seqno) && r.selfSeqno == s.selfSeqno[p := seqno]
    requires r.id == s.id && r.neighbours == s.neighbours && r.advertised == s.advertised
    ensures Renews(s, t, p, seqno)
  {
  }

  lemma {:induction false} RequestRenews(s: Node, from: NodeId, src: Source, seqno: U16, now: int)
    requires s.Valid() && AsksNewer(s, src, seqno) && src.node == s.id
    ensures Renews(s, SeqnoRequest(s, from, src, seqno, now), src.prefix, seqno)
  {
    var p, r := src.prefix, Bump(Replied(s, from, src, seqno), src.prefix, seqno);
    RepliedValid(s, from, src, seqno);
    OwnRenewed(r, p, now, seqno);
    RenewsAlike(s, r, SeqnoRequest(s, from, src, seqno, now), p, seqno);
  }

  /** Neighbour `i` can take a request further: it is reachable, did not ask, and has a finite route. */
  ghost predicate TakesOn(s: Node, i: nat, from: NodeId, p: Prefix) {
    && i < |s.neighbours| && s.neighbours[i].reachable && s.neighbours[i].id != from
    && p in s.neighbours[i].routes && s.neighbours[i].routes[p].pub.fd.metric != INF
  }

  /** A request goes on exactly if it asks another node for more than is known here, has hops left
      and some neighbour can take it; it goes over a feasible route if there is one. */
  ghost predicate Relayed(s: Node, t: Node, from: NodeId, src: Source, seqno: U16, hops: nat, relay: Option<NodeId>) {
    var p := src.prefix;
    && (relay.Some? <==> AsksNewer(s, src, seqno) && src.node != s.id && hops >= 2 && exists i: nat :: TakesOn(s, i, from, p))
    && (relay.Some? ==>
          exists i: nat :: && TakesOn(t, i, from, p) && t.neighbours[i].id == relay.value
                           && ((exists k: nat :: TakesOn(t, k, from, p) && !Unfeasible(t, t.neighbours[k].routes[p].pub))
                               ==> !Unfeasible(t, t.neighbours[i].routes[p].pub)))
  }

  lemma {:induction false} TakesOnIs(s: Node, i: nat, from: NodeId, p: Prefix)
    ensures TakesOn(s, i, from, p) <==> i < |s.neighbours| && Relays(s, s.neighbours[i], from, p, false)
    ensures TakesOn(s, i, from, p) ==>
              (Unfeasible(s, s.neighbours[i].routes[p].pub) <==> !Relays(s, s.neighbours[i], from, p, true))
  {
  }

  lemma {:induction false} CanRelayIs(s: Node, from: NodeId, p: Prefix)
    ensures CanRelay(s, from, p, false) <==> exists i: nat :: TakesOn(s, i, from, p)
    ensures CanRelay(s, from, p, true) <==> exists i: nat :: TakesOn(s, i, from, p) && !Unfeasible(s, s.neighbours[i].routes[p].pub)
  {
    forall i: nat
      ensures TakesOn(s, i, from, p) <==> i < |s.neighbours| && Relays(s, s.neighbours[i], from, p, false)
      ensures TakesOn(s, i, from, p) ==>
                (Unfeasible(s, s.neighbours[i].routes[p].pub) <==> !Relays(s, s.neighbours[i], from, p, true))
    {
      TakesOnIs(s, i, from, p);
    }
    if CanRelay(s, from, p, false) {
      var i :| 0 <= i < |s.neighbours| && Relays(s, s.neighbours[i], from, p, false);
      assert TakesOn(s, i, from, p);
    }
    if CanRelay(s, from, p, true) {
      var i :| 0 <= i < |s.neighbours| && Relays(s, s.neighbours[i], from, p, true);
      assert Relays(s, s.neighbours[i], from, p, false);
      assert TakesOn(s, i, from, p);
    }
  }

  lemma {:induction false} RelayedIs(s: Node, from: NodeId, src: Source, seqno: U16, hops: nat, relay: Option<NodeId>)
    requires var r := Replied(s, from, src, seqno);
             && (relay.Some? <==> PassesOn(s, src, seqno, hops) && CanRelay(r, from, src.prefix, false))
             && (relay.Some? ==> RelaysVia(r, from, src.prefix, relay.value))
    ensures Relayed(s, Replied(s, from, src, seqno), from, src, seqno, hops, relay)
  {
    var p, r := src.prefix, Replied(s, from, src, seqno);
    CanRelayIs(r, from, p);
    assert forall i: nat :: TakesOn(s, i, from, p) <==> TakesOn(r, i, from, p);
    if relay.Some? {
      var i :| 0 <= i < |r.neighbours| && r.neighbours[i].id == relay.value && Relays(r, r.neighbours[i], from, p, CanRelay(r, from, p, true));
      TakesOnIs(r, i, from, p);
    }
  }

  // ---------- acknowledgements ----------

  /** An acknowledgement counts once per neighbour and only for a blackhole. The blackhole ends when
      as many have come as there are reachable neighbours, or it was due to end anyway. */
  ghost predicate CountsAck(s: Node, t: Node, neigh: NodeId, p: Prefix, now: int) {
    if p in s.routes && s.routes[p].pub.fd.metric == INF && neigh !in s.routes[p].retractedBy then
      var acks := s.routes[p].retractedBy + [neigh];
      && (p !in t.routes <==>
            && p !in s.advertised && NoOffer(s, p)
            && (s.routes[p].nh == s.id || s.routes[p].expireAt <= now || |ReachableIds(s.neighbours)| <= |acks|))
      && (p !in s.advertised && NoOffer(s, p) && p in t.routes ==> t.routes[p] == s.routes[p].(retractedBy := acks))
    else t == s
  }

  lemma {:induction false} AckCounted(s: Node, neigh: NodeId, p: Prefix, now: int)
    requires s.Valid()
    ensures CountsAck(s, AckRetract(s, neigh, p, now), neigh, p, now)
  {
    if Counts(s, neigh, p) {
      var r := Acked(s, neigh, p);
      assert forall k: nat :: Offers(r, k, p) <==> Offers(s, k, p);
      if p !in r.advertised && NoOffer(r, p) {
        if HeldBack(r, p, now) {
          StaysHeldUnoffered(r, p, now);
        } else {
          NothingOffered(r, p, now);
        }
      } else {
        StaysReplaced(r, p, now);
      }
    }
  }

  lemma {:induction false} StaysReplaced(s: Node, p: Prefix, now: int)
    requires s.Valid() && p in s.routes && !s.routes[p].Finite() && (p in s.advertised || !NoOffer(s, p))
    ensures p in Compute(s, now).routes
  {
    DroppedWhen(s, p, now);
    if !NoOffer(s, p) {
      var k: nat :| Offers(s, k, p);
      OffersIs(s, k, p);
    }
  }

  // ---------- table pushes ----------

  /** Every selected route is queued for the neighbours in `to`, and the distance of every finite one
      is lowered to it; nothing else changes. */
  ghost predicate Pushes(s: Node, t: Node, to: set<NodeId>) {
    && t == s.(sources := t.sources, updates := t.updates)
    && (forall d :: PushesTo(s, t, to, d))
    && (forall src :: PushLowers(s, t, src))
  }

  ghost predicate PushesTo(s: Node, t: Node, to: set<NodeId>, d: Dest) {
    if d.neigh in to && d.prefix in s.routes then d in t.updates && t.updates[d] == s.routes[d.prefix].pub
    else (d in t.updates <==> d in s.updates) && (d in t.updates ==> t.updates[d] == s.updates[d])
  }

  ghost predicate PushLowers(s: Node, t: Node, src: Source) {
    if src.prefix in s.routes && s.routes[src.prefix].pub.source == src && s.routes[src.prefix].pub.fd.metric != INF then
      var fd := s.routes[src.prefix].pub.fd;
      src in t.sources && t.sources[src] == if src in s.sources && !Better(fd, s.sources[src]) then s.sources[src] else fd
    else (src in t.sources <==> src in s.sources) && (src in t.sources ==> t.sources[src] == s.sources[src])
  }

  lemma {:induction false} PushPushes(s: Node, to: set<NodeId>)
    requires s.Valid()
    ensures Pushes(s, Push(s, to), to)
  {
    var t := Push(s, to);
    forall d
      ensures PushesTo(s, t, to, d)
    {
      QueueAt(s.updates, to, Pubs(s.routes), d);
    }
    forall src
      ensures PushLowers(s, t, src)
    {
      AdvanceAllAt(s.sources, FinitePubs(s.routes), src);
    }
  }

  // ---------- expiry ----------

  /** A stored route that is out of time turns infinite and gets a new time; one that already was
      infinite is gone. Any other stays, up to its average. */
  ghost predicate AgesAt(s: Node, t: Node, i: nat, p: Prefix, now: int) {
    i < |s.neighbours| && i < |t.neighbours| ==>
      var before, after := s.neighbours[i].routes, t.neighbours[i].routes;
      && t.neighbours[i].id == s.neighbours[i].id
      && (p in after <==> p in before && (now <= before[p].expireAt || before[p].pub.fd.metric != INF))
      && (p in after && now <= before[p].expireAt ==> after[p].pub == before[p].pub && after[p].expireAt == before[p].expireAt)
      && (p in after && now > before[p].expireAt ==>
            && after[p].pub == PubRoute(before[p].pub.source, FD(before[p].pub.fd.seqno, INF))
            && after[p].expireAt == now + s.tun.expiryTime)
  }

  /** Some stored, selected or own route comes from the source. */
  ghost predicate InUse(t: Node, src: Source) {
    var p := src.prefix;
    || (exists i: nat :: i < |t.neighbours| && p in t.neighbours[i].routes && t.neighbours[i].routes[p].pub.source == src)
    || (p in t.routes && t.routes[p].pub.source == src)
    || (p in t.advertised && t.advertised[p].node == src.node)
  }

  /** A finite route is an own one still in time, or goes over an advertisement still in time. */
  ghost predicate InTimeAt(s: Node, t: Node, p: Prefix, now: int) {
    p in t.routes && t.routes[p].Finite() ==>
      || (p in s.advertised && now <= s.advertised[p].expiry && t.routes[p].nh == s.advertised[p].node)
      || (exists i: nat :: && i < |s.neighbours| && s.neighbours[i].id == t.routes[p].nh && s.neighbours[i].reachable
                           && p in s.neighbours[i].routes && now <= s.neighbours[i].routes[p].expireAt
                           && s.neighbours[i].routes[p].pub.fd.metric != INF)
  }

  ghost predicate CollectsGarbage(s: Node, t: Node, now: int) {
    && |t.neighbours| == |s.neighbours| && t.selfSeqno == s.selfSeqno
    && (forall i, p :: AgesAt(s, t, i, p, now))
    && (forall p :: p in t.advertised <==> p in s.advertised && now <= s.advertised[p].expiry)
    && (forall p :: p in t.advertised ==> t.advertised[p] == s.advertised[p])
    && (forall src :: src in t.sources ==> InUse(t, src))
    && (forall src :: src in s.sources && InUse(t, src) ==> src in t.sources)
    && (forall p :: InTimeAt(s, t, p, now))
  }

  lemma {:induction false} AgesIs(s: Node, now: int, i: nat, p: Prefix)
    ensures AgesAt(s, Collect(s, now), i, p, now)
  {
    var e := Expire(s, now);
    if i < |s.neighbours| {
      assert e.neighbours[i] == ExpireNeighbour(s.neighbours[i], s.tun, now);
      StoredAfter(e, now, i, p);
    }
  }

  lemma {:induction false} OffersInTime(s: Node, now: int, i: nat, p: Prefix)
    requires Offers(Expire(s, now), i, p)
    ensures i < |s.neighbours| && s.neighbours[i].id == Expire(s, now).neighbours[i].id && s.neighbours[i].reachable
    ensures p in s.neighbours[i].routes && now <= s.neighbours[i].routes[p].expireAt && s.neighbours[i].routes[p].pub.fd.metric != INF
  {
    assert Expire(s, now).neighbours[i] == ExpireNeighbour(s.neighbours[i], s.tun, now);
  }

  lemma {:induction false} InTime(s: Node, now: int, p: Prefix)
    requires Expire(s, now).Valid()
    ensures InTimeAt(s, Compute(Expire(s, now), now), p, now)
  {
    var e := Expire(s, now);
    var t := Compute(e, now);
    if p in t.routes && t.routes[p].Finite() {
      var i := FiniteFrom(e, p, now);
      if Offers(e, i, p) && e.neighbours[i].id == t.routes[p].nh {
        OffersInTime(s, now, i, p);
      }
    }
  }

  lemma {:induction false} ExpireValid(s: Node, now: int)
    requires s.Valid()
    ensures Expire(s, now).Valid()
  {
    var t := Expire(s, now);
    assert forall i :: 0 <= i < |t.neighbours| ==> t.neighbours[i] == ExpireNeighbour(s.neighbours[i], s.tun, now);
  }

  lemma {:induction false} InUseIs(t: Node, src: Source)
    ensures InUse(t, src) <==> Referenced(t, src)
  {
  }

  lemma {:induction false} SourcesKept(s: Node, now: int, src: Source)
    requires s.Valid() && src in s.sources
    ensures src in Compute(s, now).sources
  {
    PublishedKeyed(s, now);
    AdvanceAllAt(s.sources, Published(s, now), src);
  }

  lemma {:induction false} SourcesInUse(s: Node, now: int, src: Source)
    requires Expire(s, now).Valid()
    ensures var t := Collect(s, now);
            (src in t.sources ==> InUse(t, src)) && (src in s.sources && InUse(t, src) ==> src in t.sources)
  {
    var c := Compute(Expire(s, now), now);
    if src in s.sources {
      SourcesKept(Expire(s, now), now, src);
    }
    InUseIs(c, src);
    InUseDropped(c, src);
  }

  lemma {:induction false} InUseDropped(t: Node, src: Source)
    ensures InUse(DropSources(t), src) <==> InUse(t, src)
  {
  }

  lemma {:induction false} CollectCollects(s: Node, now: int)
    requires s.Valid()
    ensures CollectsGarbage(s, Collect(s, now), now)
  {
    var t := Collect(s, now);
    ExpireValid(s, now);
    forall i, p
      ensures AgesAt(s, t, i, p, now)
    {
      AgesIs(s, now, i, p);
    }
    forall p
      ensures InTimeAt(s, t, p, now)
    {
      InTime(s, now, p);
    }
    forall src
      ensures src in t.sources ==> InUse(t, src)
      ensures src in s.sources && InUse(t, src) ==> src in t.sources
    {
      SourcesInUse(s, now, src);
    }
  }
}
