/** What a route computation selects, averages and announces, said of the states before and after
    it and not of the functions that compute it. */
module RouterLaws {
  import opened Basics
  import opened Metric
  import opened RouterState
  import opened RouteSelection
  import opened RouterSafety

  // ---------- offers ----------

  /** What a route over neighbour `i` costs. */
  function Cost(s: Node, i: nat, p: Prefix): U32
    requires i < |s.neighbours| && p in s.neighbours[i].routes
  {
    AddMetric(s.neighbours[i].linkCost,
              AddMetric(s.tun.hopCost, AddMetric(s.tun.transitCost, s.neighbours[i].routes[p].pub.fd.metric)))
  }

  /** Neighbour `i` is reachable and has a finite route that is feasible here. */
  ghost predicate Offers(s: Node, i: nat, p: Prefix) {
    && i < |s.neighbours| && s.neighbours[i].reachable && p in s.neighbours[i].routes
    && Cost(s, i, p) != INF && Feasible(s.sources, s.neighbours[i].routes[p].pub)
  }

  /** The cheapest offer, and the first of several that cost the same. */
  ghost predicate Cheapest(s: Node, p: Prefix, j: nat) {
    && Offers(s, j, p)
    && forall k: nat :: Offers(s, k, p) ==> Cost(s, j, p) <= Cost(s, k, p) && (k < j ==> Cost(s, j, p) < Cost(s, k, p))
  }

  ghost predicate NoOffer(s: Node, p: Prefix) { forall k: nat :: !Offers(s, k, p) }

  /** The offer of neighbour `i` is the route `r`: same next hop and same source. */
  ghost predicate IsRoute(s: Node, i: nat, p: Prefix, r: SelRoute) {
    Offers(s, i, p) && s.neighbours[i].id == r.nh && s.neighbours[i].routes[p].pub.source == r.pub.source
  }

  /** `e` is the route over neighbour `i`. */
  ghost predicate Over(s: Node, i: nat, p: Prefix, e: SelRoute)
    requires Offers(s, i, p)
  {
    var adv := s.neighbours[i].routes[p];
    && e.nh == s.neighbours[i].id && e.pub.source == adv.pub.source && e.pub.fd == FD(adv.pub.fd.seqno, Cost(s, i, p))
    && e.expireAt == adv.expireAt && e.retractedBy == []
  }

  lemma {:induction false} OffersIs(s: Node, i: nat, p: Prefix)
    ensures Offers(s, i, p) <==> i < |s.neighbours| && Eligible(s, s.neighbours[i], p)
    ensures Offers(s, i, p) ==> Cost(s, i, p) == Total(s.tun, s.neighbours[i], s.neighbours[i].routes[p].pub)
    ensures Offers(s, i, p) ==> Over(s, i, p, CandidateOf(s, s.neighbours[i], p).route)
  {
    if i < |s.neighbours| && s.neighbours[i].reachable && p in s.neighbours[i].routes {
      LearnedTotal(s, s.neighbours[i], s.neighbours[i].routes[p].pub.fd.metric);
    }
  }

  lemma {:induction false} CheapestIs(s: Node, p: Prefix, j: nat)
    requires Cheapest(s, p, j)
    ensures BestOf(s, p, |s.neighbours|) == Some(CandidateOf(s, s.neighbours[j], p))
  {
    var n := |s.neighbours|;
    OffersIs(s, j, p);
    BestOfNone(s, p, n);
    var i := BestOfIsBest(s, p, n);
    OffersIs(s, i, p);
    assert Cost(s, i, p) <= Cost(s, j, p);
    assert i == j;
  }

  lemma {:induction false} NoOfferIs(s: Node, p: Prefix)
    requires NoOffer(s, p)
    ensures BestOf(s, p, |s.neighbours|) == None && CurrentOf(s, p, |s.neighbours|) == None
  {
    forall i | 0 <= i < |s.neighbours|
      ensures !Eligible(s, s.neighbours[i], p)
    {
      OffersIs(s, i, p);
    }
    BestOfNone(s, p, |s.neighbours|);
  }

  lemma {:induction false} CurrentAt(s: Node, p: Prefix, k: nat, i: nat)
    requires i < k <= |s.neighbours| && IsCurrent(s, s.neighbours[i], p)
    requires forall j :: 0 <= j < k && IsCurrent(s, s.neighbours[j], p) ==> j == i
    ensures CurrentOf(s, p, k) == Some(CandidateOf(s, s.neighbours[i], p))
  {
    if i < k - 1 {
      CurrentAt(s, p, k - 1, i);
    }
  }

  lemma {:induction false} OneCurrent(s: Node, p: Prefix, i: nat, j: nat)
    requires NeighboursKeyed(s.neighbours) && i < |s.neighbours| && j < |s.neighbours|
    requires IsCurrent(s, s.neighbours[i], p) && IsCurrent(s, s.neighbours[j], p)
    ensures i == j
  {
    assert s.neighbours[i].id == s.routes[p].nh == s.neighbours[j].id;
  }

  lemma {:induction false} RouteIsCurrent(s: Node, p: Prefix, i: nat)
    requires s.Valid() && p in s.routes && IsRoute(s, i, p, s.routes[p])
    ensures CurrentOf(s, p, |s.neighbours|) == Some(CandidateOf(s, s.neighbours[i], p))
  {
    OffersIs(s, i, p);
    forall j | 0 <= j < |s.neighbours| && IsCurrent(s, s.neighbours[j], p)
      ensures j == i
    {
      OneCurrent(s, p, i, j);
    }
    CurrentAt(s, p, |s.neighbours|, i);
  }

  lemma {:induction false} NoRouteNoCurrent(s: Node, p: Prefix)
    requires p in s.routes ==> forall i: nat :: !IsRoute(s, i, p, s.routes[p])
    ensures CurrentOf(s, p, |s.neighbours|) == None
  {
    forall i | 0 <= i < |s.neighbours|
      ensures !IsCurrent(s, s.neighbours[i], p)
    {
      OffersIs(s, i, p);
      assert p in s.routes ==> !IsRoute(s, i, p, s.routes[p]);
    }
  }

  // ---------- averages ----------

  /** The average kept for the route over neighbour `i`. */
  function Average(t: Node, i: nat, p: Prefix): real
    requires i < |t.neighbours| && p in t.neighbours[i].routes
  {
    t.neighbours[i].routes[p].smoothed
  }

  lemma {:induction false} StoredAfter(s: Node, now: int, i: nat, p: Prefix)
    requires i < |s.neighbours|
    ensures var t := Compute(s, now);
            && |t.neighbours| == |s.neighbours| && t.neighbours[i].routes.Keys == s.neighbours[i].routes.Keys
            && (p in s.neighbours[i].routes ==> t.neighbours[i].routes[p] == Smoothed(s, s.neighbours[i], p))
  {
    assert SmoothAll(s)[i] == SmoothNeighbour(s, s.neighbours[i]);
  }

  lemma {:induction false} AverageIs(s: Node, now: int, i: nat, p: Prefix)
    requires Offers(s, i, p)
    ensures var t := Compute(s, now);
            && i < |t.neighbours| && p in t.neighbours[i].routes
            && Average(t, i, p) == CandidateOf(s, s.neighbours[i], p).smoothed
  {
    OffersIs(s, i, p);
    StoredAfter(s, now, i, p);
  }

  /** The average of an offer starts at its cost and then moves towards it by the share `alpha`; that
      of a route which is no offer stays, and so does everything else that is stored. */
  ghost predicate AveragesAt(s: Node, t: Node, i: nat, p: Prefix) {
    i < |s.neighbours| ==>
      && i < |t.neighbours| && t.neighbours[i].id == s.neighbours[i].id
      && t.neighbours[i].reachable == s.neighbours[i].reachable && t.neighbours[i].linkCost == s.neighbours[i].linkCost
      && (p in t.neighbours[i].routes <==> p in s.neighbours[i].routes)
      && (p in s.neighbours[i].routes ==>
            var before, after := s.neighbours[i].routes[p], t.neighbours[i].routes[p];
            && after.pub == before.pub && after.expireAt == before.expireAt
            && (!Offers(s, i, p) ==> after.smoothed == before.smoothed)
            && (Offers(s, i, p) && before.smoothed == 0.0 ==> after.smoothed == Cost(s, i, p) as real)
            && (Offers(s, i, p) && before.smoothed != 0.0 ==>
                  after.smoothed - before.smoothed == s.tun.alpha * (Cost(s, i, p) as real - before.smoothed)))
  }

  lemma {:induction false} AveragesMove(s: Node, now: int, i: nat, p: Prefix)
    ensures AveragesAt(s, Compute(s, now), i, p)
  {
    if i < |s.neighbours| {
      OffersIs(s, i, p);
      StoredAfter(s, now, i, p);
      assert SmoothAll(s)[i] == SmoothNeighbour(s, s.neighbours[i]);
      if Offers(s, i, p) {
        Moves(s.neighbours[i].routes[p].smoothed, Cost(s, i, p), s.tun.alpha);
      }
    }
  }

  lemma {:induction false} Moves(prev: real, sample: U32, alpha: real)
    ensures prev != 0.0 ==> Smooth(prev, sample, alpha) - prev == alpha * (sample as real - prev)
  {
    var c := sample as real;
    assert alpha * (c - prev) == alpha * c - alpha * prev;
    assert (1.0 - alpha) * prev == prev - alpha * prev;
  }

  /** With a share between 0 and 1 the new average lies between the old one and the cost. */
  lemma {:induction false} AverageBetween(prev: real, cost: real, alpha: real, average: real)
    requires 0.0 <= alpha <= 1.0 && average - prev == alpha * (cost - prev)
    ensures if prev <= cost then prev <= average <= cost else cost <= average <= prev
  {
    var d := cost - prev;
    assert average - prev == alpha * d;
    if d >= 0.0 {
      Shrinks(alpha, d);
    } else {
      Shrinks(alpha, -d);
      assert alpha * d == -(alpha * -d);
    }
  }

  lemma {:induction false} Shrinks(alpha: real, d: real)
    requires 0.0 <= alpha <= 1.0 && d >= 0.0
    ensures 0.0 <= alpha * d <= d
  {
    assert (1.0 - alpha) * d >= 0.0;
    assert (1.0 - alpha) * d == d - alpha * d;
  }

  // ---------- which route ----------

  /** A retracted route, or one whose link is gone, that has to stay as a blackhole: it has not
      expired and fewer neighbours have acknowledged than are reachable. */
  ghost predicate HeldBack(s: Node, p: Prefix, now: int) {
    && p in s.routes && s.routes[p].nh != s.id
    && (s.routes[p].Finite() ==> s.routes[p].nh !in ReachableIds(s.neighbours))
    && |s.routes[p].retractedBy| < |ReachableIds(s.neighbours)| && now < s.routes[p].expireAt
  }

  lemma {:induction false} HeldIs(s: Node, p: Prefix, now: int)
    requires s.Valid()
    ensures HeldBack(s, p, now) <==> Held(s, p, now)
  {
    ConnectedCounts(s.neighbours);
    if p in s.routes {
      assert HasLink(s.neighbours, s.routes[p].nh) <==> s.routes[p].nh in ReachableIds(s.neighbours);
    }
  }

  /** Offer `j` is the same as `i`, or beats it now and on average. */
  ghost predicate Beats(s: Node, t: Node, p: Prefix, j: nat, i: nat)
    requires Offers(s, i, p) && Offers(s, j, p)
    requires i < |t.neighbours| && p in t.neighbours[i].routes && j < |t.neighbours| && p in t.neighbours[j].routes
  {
    j == i || (Cost(s, j, p) < Cost(s, i, p) && Average(t, j, p) < Average(t, i, p))
  }

  lemma {:induction false} SameOffer(s: Node, p: Prefix, i: nat, j: nat)
    requires s.Valid() && Offers(s, i, p) && Offers(s, j, p)
    ensures i == j <==> SameRoute(CandidateOf(s, s.neighbours[j], p).route, CandidateOf(s, s.neighbours[i], p).route)
  {
    OffersIs(s, i, p);
    OffersIs(s, j, p);
  }

  /** What the table holds is what selection settled on, if that is finite. */
  lemma {:induction false} SettlesOn(s: Node, p: Prefix, now: int, r: SelRoute)
    requires s.Valid() && r.Finite() && NewEntry(s, p, now) == Some(r)
    ensures p in Compute(s, now).routes && Compute(s, now).routes[p] == r
  {
    TableAt(s, now, p);
  }

  lemma {:induction false} SettlesOver(s: Node, p: Prefix, now: int, k: nat)
    requires s.Valid() && Offers(s, k, p) && NewEntry(s, p, now) == Some(CandidateOf(s, s.neighbours[k], p).route)
    ensures p in Compute(s, now).routes && Over(s, k, p, Compute(s, now).routes[p])
  {
    OffersIs(s, k, p);
    SettlesOn(s, p, now, CandidateOf(s, s.neighbours[k], p).route);
  }

  lemma {:induction false} ChoosesBetween(b: Candidate, c: Candidate)
    ensures Pick(Some(b), Some(c), None) ==
            Some(if SameRoute(b.route, c.route) || (b.route.pub.fd.metric < c.route.pub.fd.metric && b.smoothed < c.smoothed)
                 then b.route else c.route)
  {
  }

  lemma {:induction false} BeatsIs(s: Node, t: Node, p: Prefix, j: nat, i: nat, b: real, c: real)
    requires Offers(s, i, p) && Offers(s, j, p)
    requires i < |t.neighbours| && p in t.neighbours[i].routes && j < |t.neighbours| && p in t.neighbours[j].routes
    requires Average(t, j, p) == b && Average(t, i, p) == c
    ensures Beats(s, t, p, j, i) <==> j == i || (Cost(s, j, p) < Cost(s, i, p) && b < c)
  {
  }

  lemma {:induction false} SettledBetween(s: Node, p: Prefix, now: int, i: nat, j: nat)
    requires s.Valid() && p !in s.advertised && !HeldBack(s, p, now)
    requires p in s.routes && IsRoute(s, i, p, s.routes[p]) && Cheapest(s, p, j)
    ensures var b, c := CandidateOf(s, s.neighbours[j], p), CandidateOf(s, s.neighbours[i], p);
            NewEntry(s, p, now) ==
            Some(if j == i || (Cost(s, j, p) < Cost(s, i, p) && b.smoothed < c.smoothed) then b.route else c.route)
  {
    HeldIs(s, p, now);
    RouteIsCurrent(s, p, i);
    CheapestIs(s, p, j);
    SameOffer(s, p, i, j);
    OffersIs(s, i, p);
    OffersIs(s, j, p);
    ChoosesBetween(CandidateOf(s, s.neighbours[j], p), CandidateOf(s, s.neighbours[i], p));
  }

  /** A route that still is on offer is left for the cheapest one exactly if that beats it now and on
      average. */
  lemma {:induction false} LeavesForBetter(s: Node, p: Prefix, now: int, i: nat, j: nat)
    requires s.Valid() && p !in s.advertised && !HeldBack(s, p, now)
    requires p in s.routes && IsRoute(s, i, p, s.routes[p]) && Cheapest(s, p, j)
    ensures var t := Compute(s, now);
            && i < |t.neighbours| && p in t.neighbours[i].routes && j < |t.neighbours| && p in t.neighbours[j].routes
            && p in t.routes && Over(s, if Beats(s, t, p, j, i) then j else i, p, t.routes[p])
  {
    var b, c := CandidateOf(s, s.neighbours[j], p), CandidateOf(s, s.neighbours[i], p);
    SettledBetween(s, p, now, i, j);
    SettlesOver(s, p, now, if j == i || (Cost(s, j, p) < Cost(s, i, p) && b.smoothed < c.smoothed) then j else i);
    AverageIs(s, now, i, p);
    AverageIs(s, now, j, p);
    BeatsIs(s, Compute(s, now), p, j, i, b.smoothed, c.smoothed);
  }

  /** No offer is the route in the table. */
  ghost predicate NoneIsRoute(s: Node, p: Prefix) { p in s.routes ==> forall i: nat :: !IsRoute(s, i, p, s.routes[p]) }

  /** With nothing to compare it with, the cheapest offer is taken. */
  lemma {:induction false} TakesCheapest(s: Node, p: Prefix, now: int, j: nat)
    requires s.Valid() && p !in s.advertised && !HeldBack(s, p, now) && NoneIsRoute(s, p) && Cheapest(s, p, j)
    ensures p in Compute(s, now).routes && Over(s, j, p, Compute(s, now).routes[p])
  {
    HeldIs(s, p, now);
    NoRouteNoCurrent(s, p);
    CheapestIs(s, p, j);
    OffersIs(s, j, p);
    SettlesOn(s, p, now, CandidateOf(s, s.neighbours[j], p).route);
  }

  /** Without any offer a finite route turns into its retraction and any other one goes. */
  lemma {:induction false} NothingOffered(s: Node, p: Prefix, now: int)
    requires s.Valid() && p !in s.advertised && !HeldBack(s, p, now) && NoOffer(s, p)
    ensures var t := Compute(s, now);
            && (p in t.routes <==> p in s.routes && s.routes[p].Finite())
            && (p in t.routes ==> Blackholed(s.routes[p], t.routes[p]) && t.routes[p].retractedBy == [])
  {
    HeldIs(s, p, now);
    NoOfferIs(s, p);
    TableAt(s, now, p);
  }

  /** `e` is the route `r` as a blackhole. */
  ghost predicate Blackholed(r: SelRoute, e: SelRoute) {
    && e.nh == r.nh && e.pub.source == r.pub.source && e.pub.fd == FD(r.pub.fd.seqno, INF) && e.expireAt == r.expireAt
  }

  /** The blackhole stays; acknowledgements are kept if it was one before. */
  ghost predicate StaysHeld(s: Node, t: Node, p: Prefix)
    requires p in s.routes
  {
    && p in t.routes && Blackholed(s.routes[p], t.routes[p])
    && t.routes[p].retractedBy == if s.routes[p].Finite() then [] else s.routes[p].retractedBy
  }

  lemma {:induction false} StaysOn(s: Node, p: Prefix, now: int)
    requires s.Valid() && HeldBack(s, p, now) && NewEntry(s, p, now) == Some(s.routes[p].Retracted())
    ensures StaysHeld(s, Compute(s, now), p)
  {
    TableAt(s, now, p);
  }

  lemma {:induction false} ChoosesAgainst(b: Candidate, current: Option<Candidate>, r: SelRoute)
    ensures var avg := if current.Some? && SameRoute(r, current.value.route) then current.value.smoothed else r.pub.fd.metric as real;
            Pick(Some(b), current, Some(r)) ==
            Some(if SameRoute(b.route, r) || (b.route.pub.fd.metric < r.pub.fd.metric && b.smoothed < avg) then b.route else r)
  {
  }

  lemma {:induction false} StaysHeldUnoffered(s: Node, p: Prefix, now: int)
    requires s.Valid() && p !in s.advertised && HeldBack(s, p, now) && NoOffer(s, p)
    ensures StaysHeld(s, Compute(s, now), p)
  {
    HeldIs(s, p, now);
    NoOfferIs(s, p);
    StaysOn(s, p, now);
  }

  /** A blackhole ends at once if the cheapest offer is the route itself. */
  lemma {:induction false} HeldComesBack(s: Node, p: Prefix, now: int, j: nat)
    requires s.Valid() && p !in s.advertised && HeldBack(s, p, now) && Cheapest(s, p, j) && IsRoute(s, j, p, s.routes[p])
    ensures p in Compute(s, now).routes && Over(s, j, p, Compute(s, now).routes[p])
  {
    var b := CandidateOf(s, s.neighbours[j], p);
    HeldIs(s, p, now);
    CheapestIs(s, p, j);
    OffersIs(s, j, p);
    ChoosesAgainst(b, CurrentOf(s, p, |s.neighbours|), s.routes[p].Retracted());
    SettlesOn(s, p, now, b.route);
  }

  /** It ends for another route exactly if that one's average is below infinity... */
  lemma {:induction false} HeldYields(s: Node, p: Prefix, now: int, j: nat)
    requires s.Valid() && p !in s.advertised && HeldBack(s, p, now) && Cheapest(s, p, j) && NoneIsRoute(s, p)
    ensures var t := Compute(s, now);
            && j < |t.neighbours| && p in t.neighbours[j].routes
            && if Average(t, j, p) < INF as real then p in t.routes && Over(s, j, p, t.routes[p]) else StaysHeld(s, t, p)
  {
    var b := CandidateOf(s, s.neighbours[j], p);
    HeldIs(s, p, now);
    NoRouteNoCurrent(s, p);
    CheapestIs(s, p, j);
    OffersIs(s, j, p);
    AverageIs(s, now, j, p);
    assert !IsRoute(s, j, p, s.routes[p]);
    ChoosesAgainst(b, None, s.routes[p].Retracted());
    if b.smoothed < INF as real {
      SettlesOn(s, p, now, b.route);
    } else {
      StaysOn(s, p, now);
    }
  }

  /** ... or, if the route itself is on offer too, below the average of that. Until then it stays a
      blackhole although there are finite offers. */
  lemma {:induction false} HeldYieldsToBetter(s: Node, p: Prefix, now: int, i: nat, j: nat)
    requires s.Valid() && p !in s.advertised && HeldBack(s, p, now)
    requires IsRoute(s, i, p, s.routes[p]) && Cheapest(s, p, j) && i != j
    ensures var t := Compute(s, now);
            && i < |t.neighbours| && p in t.neighbours[i].routes && j < |t.neighbours| && p in t.neighbours[j].routes
            && if Average(t, j, p) < Average(t, i, p) then p in t.routes && Over(s, j, p, t.routes[p]) else StaysHeld(s, t, p)
  {
    var b, c := CandidateOf(s, s.neighbours[j], p), CandidateOf(s, s.neighbours[i], p);
    HeldIs(s, p, now);
    RouteIsCurrent(s, p, i);
    CheapestIs(s, p, j);
    OffersIs(s, i, p);
    OffersIs(s, j, p);
    AverageIs(s, now, i, p);
    AverageIs(s, now, j, p);
    assert s.neighbours[i].id != s.neighbours[j].id;
    ChoosesAgainst(b, Some(c), s.routes[p].Retracted());
    if b.smoothed < c.smoothed {
      SettlesOn(s, p, now, b.route);
    } else {
      StaysOn(s, p, now);
    }
  }

  // ---------- own prefixes ----------

  /** What an own prefix costs: half of the largest metric while a passive client is on hold. */
  function OwnCost(a: Advertisement): U32 { if a.passiveHold then 0x7FFF_FFFF else a.metric }

  /** `e` is the node's own route: over the node itself or the client it announces. */
  ghost predicate Own(s: Node, p: Prefix, now: int, e: SelRoute)
    requires p in s.advertised
  {
    var a := s.advertised[p];
    && e.nh == a.node && e.pub == PubRoute(Source(s.id, p), FD(if p in s.selfSeqno then s.selfSeqno[p] else 0, OwnCost(a)))
    && e.retractedBy == [] && e.expireAt <= now + s.tun.expiryTime && e.expireAt <= a.expiry
    && (e.expireAt == now + s.tun.expiryTime || e.expireAt == a.expiry)
  }

  /** Neighbour `i` offers the own route of this node, over the client that it announces. */
  ghost predicate OffersOwn(s: Node, i: nat, p: Prefix)
    requires p in s.advertised
  {
    Offers(s, i, p) && s.neighbours[i].id == s.advertised[p].node && s.neighbours[i].routes[p].pub.source == Source(s.id, p)
  }

  lemma {:induction false} OwnIs(s: Node, p: Prefix, now: int)
    requires p in s.advertised
    ensures Own(s, p, now, OwnRoute(s, p, now))
  {
  }

  /** The own route is in force: it is selected, or, if it is announced as infinite, nothing finite is. */
  ghost predicate OwnRules(s: Node, t: Node, p: Prefix, now: int)
    requires p in s.advertised
  {
    p in t.routes && if OwnCost(s.advertised[p]) == INF then !t.routes[p].Finite() else Own(s, p, now, t.routes[p])
  }

  lemma {:induction false} SettlesOnOwn(s: Node, p: Prefix, now: int)
    requires s.Valid() && p in s.advertised && NewEntry(s, p, now) == Some(OwnRoute(s, p, now))
    ensures OwnRules(s, Compute(s, now), p, now)
  {
    OwnIs(s, p, now);
    TableAt(s, now, p);
  }

  lemma {:induction false} OwnStays(s: Node, p: Prefix, now: int)
    requires s.Valid() && p in s.advertised && NoOffer(s, p)
    ensures OwnRules(s, Compute(s, now), p, now)
  {
    NoOfferIs(s, p);
    SettlesOnOwn(s, p, now);
  }

  /** An own prefix gives way exactly to an offer that beats its cost now and on average. */
  lemma {:induction false} OwnGivesWay(s: Node, p: Prefix, now: int, j: nat)
    requires s.Valid() && p in s.advertised && Cheapest(s, p, j)
    requires forall i: nat :: !OffersOwn(s, i, p)
    ensures var t, c := Compute(s, now), OwnCost(s.advertised[p]);
            && j < |t.neighbours| && p in t.neighbours[j].routes && p in t.routes
            && if Cost(s, j, p) < c && Average(t, j, p) < c as real then Over(s, j, p, t.routes[p]) else OwnRules(s, t, p, now)
  {
    var b, r := CandidateOf(s, s.neighbours[j], p), OwnRoute(s, p, now);
    CheapestIs(s, p, j);
    OffersIs(s, j, p);
    AverageIs(s, now, j, p);
    OwnIs(s, p, now);
    NoCurrentOwn(s, p, r);
    assert !OffersOwn(s, j, p);
    ChoosesAgainst(b, CurrentOf(s, p, |s.neighbours|), r);
    if b.route.pub.fd.metric < r.pub.fd.metric && b.smoothed < r.pub.fd.metric as real {
      SettlesOver(s, p, now, j);
    } else {
      SettlesOnOwn(s, p, now);
    }
  }

  lemma {:induction false} NoCurrentOwn(s: Node, p: Prefix, r: SelRoute)
    requires p in s.advertised && r.nh == s.advertised[p].node && r.pub.source == Source(s.id, p)
    requires forall i: nat :: !OffersOwn(s, i, p)
    ensures var c := CurrentOf(s, p, |s.neighbours|); c.Some? ==> !SameRoute(r, c.value.route)
  {
    var n := |s.neighbours|;
    var c := CurrentOf(s, p, n);
    if c.Some? {
      var k :| 0 <= k < n && IsCurrent(s, s.neighbours[k], p) && c.value == CandidateOf(s, s.neighbours[k], p);
      OffersIs(s, k, p);
      assert !OffersOwn(s, k, p);
    }
  }

  /** If the cheapest offer is the own route itself, it is taken. */
  lemma {:induction false} OwnOffered(s: Node, p: Prefix, now: int, j: nat)
    requires s.Valid() && p in s.advertised && Cheapest(s, p, j) && OffersOwn(s, j, p)
    ensures p in Compute(s, now).routes && Over(s, j, p, Compute(s, now).routes[p])
  {
    var b := CandidateOf(s, s.neighbours[j], p);
    CheapestIs(s, p, j);
    OffersIs(s, j, p);
    ChoosesAgainst(b, CurrentOf(s, p, |s.neighbours|), OwnRoute(s, p, now));
    SettlesOn(s, p, now, b.route);
  }

  /** If a neighbour offers the own route but another one is cheaper, the average of the former counts
      for the own route as long as it is selected. */
  lemma {:induction false} OwnAgainstItself(s: Node, p: Prefix, now: int, i: nat, j: nat)
    requires s.Valid() && p in s.advertised && Cheapest(s, p, j) && OffersOwn(s, i, p) && i != j
    ensures var t, c := Compute(s, now), OwnCost(s.advertised[p]);
            && i < |t.neighbours| && p in t.neighbours[i].routes && j < |t.neighbours| && p in t.neighbours[j].routes && p in t.routes
            && var avg := if p in s.routes && IsRoute(s, i, p, s.routes[p]) then Average(t, i, p) else c as real;
               if Cost(s, j, p) < c && Average(t, j, p) < avg then Over(s, j, p, t.routes[p]) else OwnRules(s, t, p, now)
  {
    var b, c, r := CandidateOf(s, s.neighbours[j], p), CandidateOf(s, s.neighbours[i], p), OwnRoute(s, p, now);
    var cur := CurrentOf(s, p, |s.neighbours|);
    CheapestIs(s, p, j);
    OffersIs(s, i, p);
    OffersIs(s, j, p);
    AverageIs(s, now, i, p);
    AverageIs(s, now, j, p);
    OwnIs(s, p, now);
    CurrentOwn(s, p, i, r);
    assert s.neighbours[i].id != s.neighbours[j].id;
    ChoosesAgainst(b, cur, r);
    var avg := if cur.Some? && SameRoute(r, cur.value.route) then cur.value.smoothed else r.pub.fd.metric as real;
    if b.route.pub.fd.metric < r.pub.fd.metric && b.smoothed < avg {
      SettlesOver(s, p, now, j);
    } else {
      SettlesOnOwn(s, p, now);
    }
  }

  lemma {:induction false} CurrentOwn(s: Node, p: Prefix, i: nat, r: SelRoute)
    requires s.Valid() && p in s.advertised && OffersOwn(s, i, p) && r.nh == s.advertised[p].node && r.pub.source == Source(s.id, p)
    ensures var c := CurrentOf(s, p, |s.neighbours|);
            if p in s.routes && IsRoute(s, i, p, s.routes[p]) then c == Some(CandidateOf(s, s.neighbours[i], p)) && SameRoute(r, c.value.route)
            else c.Some? ==> !SameRoute(r, c.value.route)
  {
    var n := |s.neighbours|;
    OffersIs(s, i, p);
    if p in s.routes && IsRoute(s, i, p, s.routes[p]) {
      RouteIsCurrent(s, p, i);
    } else {
      var c := CurrentOf(s, p, n);
      if c.Some? {
        var k :| 0 <= k < n && IsCurrent(s, s.neighbours[k], p) && c.value == CandidateOf(s, s.neighbours[k], p);
        assert s.neighbours[k].id == s.neighbours[i].id ==> k == i;
      }
    }
  }

  // ---------- all cases ----------

  /** If there is an offer, there is a cheapest one. */
  lemma {:induction false} CheapestExists(s: Node, p: Prefix) returns (j: nat)
    requires !NoOffer(s, p)
    ensures Cheapest(s, p, j)
  {
    var n := |s.neighbours|;
    var k: nat :| Offers(s, k, p);
    OffersIs(s, k, p);
    BestOfNone(s, p, n);
    j := BestOfIsBest(s, p, n);
    OffersIs(s, j, p);
    forall i: nat | Offers(s, i, p)
      ensures Cost(s, j, p) <= Cost(s, i, p) && (i < j ==> Cost(s, j, p) < Cost(s, i, p))
    {
      OffersIs(s, i, p);
    }
  }

  /** What becomes of a prefix that nobody offers. */
  ghost predicate KeepsUnoffered(s: Node, t: Node, p: Prefix, now: int) {
    if p in s.advertised then OwnRules(s, t, p, now)
    else if HeldBack(s, p, now) then StaysHeld(s, t, p)
    else
      && (p in t.routes <==> p in s.routes && s.routes[p].Finite())
      && (p in t.routes ==> Blackholed(s.routes[p], t.routes[p]) && t.routes[p].retractedBy == [])
  }

  /** Both states know the offer. */
  ghost predicate Knows(s: Node, t: Node, p: Prefix, i: nat) {
    Offers(s, i, p) && i < |t.neighbours| && p in t.neighbours[i].routes
  }

  /** The cheapest offer `j` against an own prefix, of which `i` is the same route. */
  ghost predicate AgainstOwn(s: Node, t: Node, p: Prefix, now: int, j: nat, i: Option<nat>)
    requires p in s.advertised && Knows(s, t, p, j) && (i.Some? ==> Knows(s, t, p, i.value))
  {
    var c := OwnCost(s.advertised[p]);
    var avg := if i.Some? && p in s.routes && IsRoute(s, i.value, p, s.routes[p]) then Average(t, i.value, p) else c as real;
    && p in t.routes
    && if i == Some(j) || (Cost(s, j, p) < c && Average(t, j, p) < avg) then Over(s, j, p, t.routes[p]) else OwnRules(s, t, p, now)
  }

  /** The cheapest offer `j` against a blackhole, of which `i` is the same route. */
  ghost predicate AgainstHeld(s: Node, t: Node, p: Prefix, j: nat, i: Option<nat>)
    requires p in s.routes && Knows(s, t, p, j) && (i.Some? ==> Knows(s, t, p, i.value))
  {
    if i == Some(j) || Average(t, j, p) < (if i.Some? then Average(t, i.value, p) else INF as real)
    then p in t.routes && Over(s, j, p, t.routes[p]) else StaysHeld(s, t, p)
  }

  /** The cheapest offer `j` against the selected route, which is the offer `i`. */
  ghost predicate AgainstCurrent(s: Node, t: Node, p: Prefix, j: nat, i: Option<nat>)
    requires Knows(s, t, p, j) && (i.Some? ==> Knows(s, t, p, i.value))
  {
    p in t.routes && Over(s, if i.None? || Beats(s, t, p, j, i.value) then j else i.value, p, t.routes[p])
  }

  /** `i` is the offer that is the own route, or the route in the table. */
  ghost predicate SameAsOwn(s: Node, p: Prefix, i: Option<nat>)
    requires p in s.advertised
  {
    if i.Some? then OffersOwn(s, i.value, p) else forall k: nat :: !OffersOwn(s, k, p)
  }

  ghost predicate SameAsTable(s: Node, p: Prefix, i: Option<nat>) {
    if i.Some? then p in s.routes && IsRoute(s, i.value, p, s.routes[p]) else NoneIsRoute(s, p)
  }

  /** What is selected for a prefix whose cheapest offer is `j`. */
  ghost predicate SelectsFrom(s: Node, t: Node, p: Prefix, now: int, j: nat, i: Option<nat>) {
    && Knows(s, t, p, j) && (i.Some? && Offers(s, i.value, p) ==> Knows(s, t, p, i.value))
    && if p in s.advertised then SameAsOwn(s, p, i) ==> AgainstOwn(s, t, p, now, j, i)
       else if HeldBack(s, p, now) then SameAsTable(s, p, i) ==> AgainstHeld(s, t, p, j, i)
       else SameAsTable(s, p, i) ==> AgainstCurrent(s, t, p, j, i)
  }

  /** The new entry of a prefix, in every case. */
  ghost predicate SelectsAt(s: Node, t: Node, p: Prefix, now: int) {
    && (NoOffer(s, p) ==> KeepsUnoffered(s, t, p, now))
    && forall j, i :: Cheapest(s, p, j) ==> SelectsFrom(s, t, p, now, j, i)
  }

  lemma {:induction false} UnofferedKept(s: Node, p: Prefix, now: int)
    requires s.Valid() && NoOffer(s, p)
    ensures KeepsUnoffered(s, Compute(s, now), p, now)
  {
    if p in s.advertised {
      OwnStays(s, p, now);
    } else if HeldBack(s, p, now) {
      StaysHeldUnoffered(s, p, now);
    } else {
      NothingOffered(s, p, now);
    }
  }

  lemma {:induction false} OwnAgainst(s: Node, p: Prefix, now: int, j: nat, i: Option<nat>)
    requires s.Valid() && p in s.advertised && Cheapest(s, p, j) && SameAsOwn(s, p, i)
    ensures Knows(s, Compute(s, now), p, j) && (i.Some? ==> Knows(s, Compute(s, now), p, i.value))
    ensures AgainstOwn(s, Compute(s, now), p, now, j, i)
  {
    AverageIs(s, now, j, p);
    if i.None? {
      OwnGivesWay(s, p, now, j);
    } else if i.value == j {
      OwnOffered(s, p, now, j);
    } else {
      OwnAgainstItself(s, p, now, i.value, j);
    }
  }

  lemma {:induction false} HeldAgainst(s: Node, p: Prefix, now: int, j: nat, i: Option<nat>)
    requires s.Valid() && p !in s.advertised && HeldBack(s, p, now) && Cheapest(s, p, j) && SameAsTable(s, p, i)
    ensures Knows(s, Compute(s, now), p, j) && (i.Some? ==> Knows(s, Compute(s, now), p, i.value))
    ensures AgainstHeld(s, Compute(s, now), p, j, i)
  {
    AverageIs(s, now, j, p);
    if i.None? {
      HeldYields(s, p, now, j);
    } else if i.value == j {
      HeldComesBack(s, p, now, j);
    } else {
      HeldYieldsToBetter(s, p, now, i.value, j);
    }
  }

  lemma {:induction false} CurrentAgainst(s: Node, p: Prefix, now: int, j: nat, i: Option<nat>)
    requires s.Valid() && p !in s.advertised && !HeldBack(s, p, now) && Cheapest(s, p, j) && SameAsTable(s, p, i)
    ensures Knows(s, Compute(s, now), p, j) && (i.Some? ==> Knows(s, Compute(s, now), p, i.value))
    ensures AgainstCurrent(s, Compute(s, now), p, j, i)
  {
    AverageIs(s, now, j, p);
    if i.None? {
      TakesCheapest(s, p, now, j);
    } else {
      LeavesForBetter(s, p, now, i.value, j);
    }
  }

  lemma {:induction false} SelectsCheapest(s: Node, p: Prefix, now: int, j: nat, i: Option<nat>)
    requires s.Valid() && Cheapest(s, p, j)
    ensures SelectsFrom(s, Compute(s, now), p, now, j, i)
  {
    AverageIs(s, now, j, p);
    if i.Some? && Offers(s, i.value, p) {
      AverageIs(s, now, i.value, p);
    }
    if p in s.advertised {
      if SameAsOwn(s, p, i) {
        OwnAgainst(s, p, now, j, i);
      }
    } else if SameAsTable(s, p, i) {
      if HeldBack(s, p, now) {
        HeldAgainst(s, p, now, j, i);
      } else {
        CurrentAgainst(s, p, now, j, i);
      }
    }
  }

  /** Every computation selects in this way. */
  lemma {:induction false} Selects(s: Node, p: Prefix, now: int)
    requires s.Valid()
    ensures SelectsAt(s, Compute(s, now), p, now)
  {
    if NoOffer(s, p) {
      UnofferedKept(s, p, now);
    }
    forall j, i | Cheapest(s, p, j)
      ensures SelectsFrom(s, Compute(s, now), p, now, j, i)
    {
      SelectsCheapest(s, p, now, j, i);
    }
  }

  // ---------- announcements ----------

  /** A finite route to `p` ended. */
  ghost predicate Ended(s: Node, t: Node, p: Prefix) {
    p in s.routes && s.routes[p].Finite() && !(p in t.routes && t.routes[p].Finite())
  }

  /** The entry of a prefix is new, or changed enough to tell the neighbours: another origin, another
      sequence number, or a finite metric further away than the threshold. */
  ghost predicate Notable(s: Node, t: Node, p: Prefix)
    requires p in t.routes
  {
    || p !in s.routes
    || s.routes[p].pub.source.node != t.routes[p].pub.source.node
    || s.routes[p].pub.fd.seqno != t.routes[p].pub.fd.seqno
    || (t.routes[p].Finite() && (t.routes[p].pub.fd.metric - s.routes[p].pub.fd.metric > s.tun.largeChange
                                 || s.routes[p].pub.fd.metric - t.routes[p].pub.fd.metric > s.tun.largeChange))
  }

  /** Each neighbour is told of a route that ended by a retraction, of a notable change by the new
      entry, and of nothing else. */
  ghost predicate AnnouncesAt(s: Node, t: Node, d: Dest) {
    var p := d.prefix;
    if d.neigh in Ids(s.neighbours) && Ended(s, t, p) then
      d in t.updates && t.updates[d] == PubRoute(s.routes[p].pub.source, FD(s.routes[p].pub.fd.seqno, INF))
    else if d.neigh in Ids(s.neighbours) && p in t.routes && Notable(s, t, p) then
      d in t.updates && t.updates[d] == t.routes[p].pub
    else (d in t.updates <==> d in s.updates) && (d in t.updates ==> t.updates[d] == s.updates[d])
  }

  lemma {:induction false} Announces(s: Node, now: int, d: Dest)
    requires s.Valid()
    ensures AnnouncesAt(s, Compute(s, now), d)
  {
    ChangesAre(s, d.prefix, now);
    BroadcastsExactly(s, now, d.prefix);
    QueueAt(s.updates, Ids(s.neighbours), Broadcasts(s, now), d);
  }

  lemma {:induction false} ChangesAre(s: Node, p: Prefix, now: int)
    requires s.Valid()
    ensures var t := Compute(s, now);
            && (Ended(s, t, p) <==> Retracts(s, p, now))
            && (!Retracts(s, p, now) ==>
                  && (p in t.routes <==> NewEntry(s, p, now).Some?) && (p in t.routes ==> t.routes[p] == NewEntry(s, p, now).value)
                  && (p in t.routes ==> (Notable(s, t, p) <==> MajorChange(s, p, t.routes[p]))))
  {
    TableAt(s, now, p);
  }

  lemma {:induction false} BroadcastsExactly(s: Node, now: int, p: Prefix)
    requires s.Valid()
    ensures Retracts(s, p, now) ==> p in Broadcasts(s, now) && Broadcasts(s, now)[p] == RetractedRoute(s.routes[p]).pub
    ensures !Retracts(s, p, now) ==>
              (p in Broadcasts(s, now) <==> NewEntry(s, p, now).Some? && MajorChange(s, p, NewEntry(s, p, now).value))
              && (p in Broadcasts(s, now) ==> Broadcasts(s, now)[p] == NewEntry(s, p, now).value.pub)
  {
    NewTableAt(s, now, p);
    LostEntryAt(s, now, p);
  }

  /** One computation: what is selected for every prefix, what every neighbour is told, and how the
      averages move. */
  ghost predicate Computes(s: Node, t: Node, now: int) {
    && (forall p :: SelectsAt(s, t, p, now))
    && (forall d :: AnnouncesAt(s, t, d))
    && (forall i, p :: AveragesAt(s, t, i, p))
  }

  lemma {:induction false} ComputeComputes(s: Node, now: int)
    requires s.Valid()
    ensures Computes(s, Compute(s, now), now)
  {
    var t := Compute(s, now);
    forall p
      ensures SelectsAt(s, t, p, now)
    {
      Selects(s, p, now);
    }
    forall d
      ensures AnnouncesAt(s, t, d)
    {
      Announces(s, now, d);
    }
    forall i, p
      ensures AveragesAt(s, t, i, p)
    {
      AveragesMove(s, now, i, p);
    }
  }
}
