/** What every route computation and every later operation keeps of the selected table. */
module RouterSafety {
  import opened Basics
  import opened Metric
  import opened RouterState
  import opened RouteSelection
  import opened RouterOps

  // ---------- where a finite entry comes from ----------

  /** `e` is what neighbour `nb`'s advertisement for `p` costs from here, and that
      advertisement is finite and feasible against `sources`. */
  ghost predicate Learned(s: Node, sources: map<Source, FD>, nb: Neighbour, p: Prefix, e: SelRoute) {
    && p in nb.routes && nb.reachable && nb.routes[p].pub.Finite()
    && e.nh == nb.id
    && e.pub.source == nb.routes[p].pub.source
    && e.pub.fd.seqno == nb.routes[p].pub.fd.seqno
    && e.pub.fd.metric == AddMetric(nb.linkCost, AddMetric(s.tun.hopCost, AddMetric(s.tun.transitCost, nb.routes[p].pub.fd.metric)))
    && Feasible(sources, nb.routes[p].pub)
  }

  lemma {:induction false} CandidateIsLearned(s: Node, nb: Neighbour, p: Prefix)
    requires Eligible(s, nb, p)
    ensures CandidateOf(s, nb, p).route.Finite()
    ensures Learned(s, s.sources, nb, p, CandidateOf(s, nb, p).route)
  {
    LearnedTotal(s, nb, nb.routes[p].pub.fd.metric);
  }

  lemma {:induction false} PickCases(best: Option<Candidate>, current: Option<Candidate>, incumbent: Option<SelRoute>)
    ensures var r := Pick(best, current, incumbent);
            || r == incumbent
            || (best.Some? && r == Some(best.value.route))
            || (best.Some? && current.Some? && r == Some(current.value.route))
  {
  }

  /** A property of our own, held and learned entries holds of whichever is picked. */
  lemma {:induction false} NewEntryCases(s: Node, p: Prefix, now: int) returns (i: nat)
    requires NewEntry(s, p, now).Some?
    ensures var e := NewEntry(s, p, now).value;
            || Incumbent(s, p, now) == Some(e)
            || (i < |s.neighbours| && Eligible(s, s.neighbours[i], p) && e == CandidateOf(s, s.neighbours[i], p).route)
  {
    var n := |s.neighbours|;
    var best, current := BestOf(s, p, n), CurrentOf(s, p, n);
    PickCases(best, current, Incumbent(s, p, now));
    i := 0;
    if best.Some? && NewEntry(s, p, now) == Some(best.value.route) {
      i := BestOfIsBest(s, p, n);
    } else if current.Some? && NewEntry(s, p, now) == Some(current.value.route) {
      i :| 0 <= i < n && IsCurrent(s, s.neighbours[i], p) && current.value == CandidateOf(s, s.neighbours[i], p);
    }
  }

  /** A finite entry of the new table is our own prefix or was learned. */
  lemma {:induction false} NewEntryOrigin(s: Node, p: Prefix, now: int) returns (i: nat)
    requires NewEntry(s, p, now).Some? && NewEntry(s, p, now).value.Finite()
    ensures var e := NewEntry(s, p, now).value;
            || (p in s.advertised && e == OwnRoute(s, p, now))
            || (i < |s.neighbours| && Eligible(s, s.neighbours[i], p) && e == CandidateOf(s, s.neighbours[i], p).route
                && Learned(s, s.sources, s.neighbours[i], p, e))
  {
    i := NewEntryCases(s, p, now);
    if Incumbent(s, p, now) != NewEntry(s, p, now) {
      CandidateIsLearned(s, s.neighbours[i], p);
    }
  }

  lemma {:induction false} NewEntryKeyed(s: Node, p: Prefix, now: int)
    requires s.Valid() && NewEntry(s, p, now).Some?
    ensures NewEntry(s, p, now).value.pub.source.prefix == p
    ensures p in Prefixes(s)
  {
    var i := NewEntryCases(s, p, now);
  }

  /** What a batch of updates does to one source. */
  lemma {:induction false} AdvanceAllAt(sources: map<Source, FD>, sent: map<Prefix, PubRoute>, src: Source)
    requires forall p :: p in sent ==> sent[p].source.prefix == p
    ensures src.prefix in sent && sent[src.prefix].source == src ==>
              src in AdvanceAll(sources, sent) && AdvanceAll(sources, sent)[src] == Advance(sources, sent[src.prefix])[src]
    ensures !(src.prefix in sent && sent[src.prefix].source == src) ==>
              (src in AdvanceAll(sources, sent) <==> src in sources)
              && (src in sources ==> AdvanceAll(sources, sent)[src] == sources[src])
  {
    if src.prefix in sent && sent[src.prefix].source == src {
      assert src in (set p | p in sent :: sent[p].source);
    }
  }

  /** What a batch of updates queues for one neighbour and prefix. */
  lemma {:induction false} QueueAt(updates: map<Dest, PubRoute>, to: set<NodeId>, sent: map<Prefix, PubRoute>, d: Dest)
    ensures var q := Queue(updates, to, sent);
            if d.neigh in to && d.prefix in sent then d in q && q[d] == sent[d.prefix]
            else (d in q <==> d in updates) && (d in q ==> q[d] == updates[d])
  {
    assert d == Dest(d.neigh, d.prefix);
  }

  lemma {:induction false} PublishedKeyed(s: Node, now: int)
    requires s.Valid()
    ensures forall p :: p in NewTable(s, now) ==> NewTable(s, now)[p].pub.source.prefix == p
    ensures forall p :: p in Published(s, now) ==> Published(s, now)[p].source.prefix == p
    ensures forall p :: p in NewTable(s, now) <==> NewEntry(s, p, now).Some?
    ensures forall p :: p in Table(s, now) <==> Entry(s, p, now).Some?
  {
    forall p | NewEntry(s, p, now).Some?
      ensures NewEntry(s, p, now).value.pub.source.prefix == p && p in Prefixes(s)
    {
      NewEntryKeyed(s, p, now);
    }
  }

  lemma {:induction false} TableAt(s: Node, now: int, p: Prefix)
    requires s.Valid()
    ensures p in Compute(s, now).routes <==> Entry(s, p, now).Some?
    ensures p in Compute(s, now).routes ==> Compute(s, now).routes[p] == Entry(s, p, now).value
  {
    if Entry(s, p, now).Some? {
      if !Retracts(s, p, now) {
        NewEntryKeyed(s, p, now);
      }
      assert p in Prefixes(s);
    }
  }

  /** After a computation every finite entry is our own prefix, or costs exactly
      link + hop + transit + advertised metric over a reachable neighbour whose advertisement
      was feasible. That advertisement is still feasible against the updated source table,
      unless the entry was published at the metric it was advertised with. */
  lemma {:induction false} EntryOrigin(s: Node, p: Prefix, now: int) returns (i: nat)
    requires s.Valid() && p in Compute(s, now).routes && Compute(s, now).routes[p].Finite()
    ensures var t := Compute(s, now);
            var e := t.routes[p];
            || (p in s.advertised && e == OwnRoute(s, p, now))
            || (&& i < |s.neighbours|
                && Learned(s, s.sources, s.neighbours[i], p, e)
                && var adv := s.neighbours[i].routes[p].pub;
                   Feasible(t.sources, adv) <==> (Publishes(s, p, now) ==> adv.fd.metric < e.pub.fd.metric))
  {
    i := NewEntryOrigin(s, p, now);
    PublishedKeyed(s, now);
    var e := NewEntry(s, p, now).value;
    if !(p in s.advertised && e == OwnRoute(s, p, now)) {
      var adv := s.neighbours[i].routes[p].pub;
      AdvanceAllAt(s.sources, Published(s, now), adv.source);
      FeasibleAfterAdvance(s.sources, adv, e.pub.fd.metric);
      assert e.pub == adv.(fd := FD(adv.fd.seqno, e.pub.fd.metric));
    }
  }

  /** Every hop costs something: link, hop and transit cost are not all zero. */
  ghost predicate CostlyLinks(s: Node) {
    forall i :: 0 <= i < |s.neighbours| ==> 0 < LinkMetric(s.tun, s.neighbours[i])
  }

  lemma {:induction false} LearnedTotal(s: Node, nb: Neighbour, m: U32)
    requires nb.reachable
    ensures AddMetric(nb.linkCost, AddMetric(s.tun.hopCost, AddMetric(s.tun.transitCost, m))) == AddMetric(LinkMetric(s.tun, nb), m)
  {
    AddMetricLaws(AddMetric(nb.linkCost, s.tun.hopCost), s.tun.transitCost, m);
    AddMetricLaws(nb.linkCost, s.tun.hopCost, AddMetric(s.tun.transitCost, m));
  }

  lemma {:induction false} LearnedGrows(s: Node, sources: map<Source, FD>, i: nat, p: Prefix, e: SelRoute)
    requires CostlyLinks(s) && i < |s.neighbours| && Learned(s, sources, s.neighbours[i], p, e) && e.pub.fd.metric < INFM
    ensures s.neighbours[i].routes[p].pub.fd.metric < e.pub.fd.metric
  {
    var nb := s.neighbours[i];
    LearnedTotal(s, nb, nb.routes[p].pub.fd.metric);
    HopStrictlyLarger(LinkMetric(s.tun, nb), nb.routes[p].pub.fd.metric);
  }

  /** When the hop costs something and the metric is not saturated, the advertisement an
      entry was chosen from always stays feasible. */
  lemma {:induction false} CostlyHopStaysFeasible(s: Node, p: Prefix, now: int) returns (i: nat)
    requires s.Valid() && p in Compute(s, now).routes && Compute(s, now).routes[p].Finite()
    requires CostlyLinks(s) && Compute(s, now).routes[p].pub.fd.metric < INFM
    ensures var t := Compute(s, now);
            || (p in s.advertised && t.routes[p] == OwnRoute(s, p, now))
            || (i < |s.neighbours| && Learned(s, t.sources, s.neighbours[i], p, t.routes[p]))
  {
    i := EntryOrigin(s, p, now);
    var e := Compute(s, now).routes[p];
    if !(p in s.advertised && e == OwnRoute(s, p, now)) {
      LearnedGrows(s, s.sources, i, p, e);
    }
  }

  /** Table pushes and replies re-advertise the selected routes, and keep feasible the
      advertisement a selected route was chosen from. */
  ghost predicate Supports(sources: map<Source, FD>, adv: PubRoute, e: SelRoute) {
    && adv.Finite() && Feasible(sources, adv)
    && e.pub.source == adv.source && e.pub.fd.seqno == adv.fd.seqno && adv.fd.metric < e.pub.fd.metric
  }

  lemma {:induction false} PushKeepsSupport(s: Node, to: set<NodeId>, p: Prefix, adv: PubRoute)
    requires s.Valid() && p in s.routes && s.routes[p].Finite() && Supports(s.sources, adv, s.routes[p])
    ensures Supports(Push(s, to).sources, adv, s.routes[p])
  {
    AdvanceAllAt(s.sources, FinitePubs(s.routes), adv.source);
    FeasibleAfterAdvance(s.sources, adv, s.routes[p].pub.fd.metric);
    assert s.routes[p].pub == adv.(fd := FD(adv.fd.seqno, s.routes[p].pub.fd.metric));
  }

  lemma {:induction false} ReplyKeepsSupport(s: Node, from: NodeId, src: Source, seqno: U16, p: Prefix, adv: PubRoute)
    requires s.Valid() && p in s.routes && s.routes[p].Finite() && Supports(s.sources, adv, s.routes[p])
    ensures Supports(Replied(s, from, src, seqno).sources, adv, s.routes[p])
  {
    if Replies(s, src, seqno) && src.prefix == p {
      FeasibleAfterAdvance(s.sources, adv, s.routes[p].pub.fd.metric);
      assert s.routes[p].pub == adv.(fd := FD(adv.fd.seqno, s.routes[p].pub.fd.metric));
    }
  }

  // ---------- the dataplane follows the table ----------

  /** A prefix is forwarded live exactly as selected; a held prefix is a blackhole; a prefix
      that is not in the table is absent or a leftover blackhole; the exit table holds exactly
      the finite routes that end here. */
  ghost predicate DataplaneAgrees(s: Node) {
    forall p :: AgreesAt(s, p)
  }

  ghost predicate AgreesAt(s: Node, p: Prefix) {
    var live := p in s.routes && s.routes[p].Finite();
    && (live ==> p in s.forward && s.forward[p] == TableEntry(s.routes[p].nh, false))
    && (!live && p in s.forward ==> s.forward[p].blackhole)
    && (p in s.routes ==> p in s.forward)
    && (p in s.exits <==> live && s.routes[p].nh == s.id)
    && (p in s.exits ==> s.exits[p] == TableEntry(s.id, false))
  }

  lemma {:induction false} NewTableAt(s: Node, now: int, p: Prefix)
    requires s.Valid()
    ensures p in NewTable(s, now) <==> NewEntry(s, p, now).Some?
    ensures p in NewTable(s, now) ==> NewTable(s, now)[p] == NewEntry(s, p, now).value
  {
    if NewEntry(s, p, now).Some? {
      NewEntryKeyed(s, p, now);
    }
  }

  lemma {:induction false} ChangedAt(s: Node, now: int, p: Prefix)
    requires s.Valid()
    ensures p in Changed(s, now) <==> NewEntry(s, p, now).Some? && NeedsInstall(s, p, NewEntry(s, p, now).value)
    ensures p in Changed(s, now) ==> Changed(s, now)[p] == NewEntry(s, p, now).value
  {
    NewTableAt(s, now, p);
  }

  lemma {:induction false} LostEntryAt(s: Node, now: int, p: Prefix)
    ensures p in Lost(s, now) <==> Retracts(s, p, now)
    ensures p in Lost(s, now) ==> Lost(s, now)[p] == RetractedRoute(s.routes[p])
  {
  }

  /** What one prefix hands to the dataplane. */
  lemma {:induction false} InstallsAt(s: Node, now: int, p: Prefix)
    requires s.Valid()
    ensures Retracts(s, p, now) ==> p in Installs(s, now) && Installs(s, now)[p] == RetractedRoute(s.routes[p])
    ensures !Retracts(s, p, now) ==>
              (p in Installs(s, now) <==> NewEntry(s, p, now).Some? && NeedsInstall(s, p, NewEntry(s, p, now).value))
              && (p in Installs(s, now) ==> Installs(s, now)[p] == NewEntry(s, p, now).value)
  {
    ChangedAt(s, now, p);
    LostEntryAt(s, now, p);
  }

  lemma {:induction false} InstallAt(s: Node, rs: map<Prefix, SelRoute>, p: Prefix)
    ensures var f, x := InstallForward(s.forward, rs), InstallExits(s.exits, s.id, rs);
            if p in rs then
              && p in f && f[p] == TableEntry(rs[p].nh, !rs[p].Finite())
              && (p in x <==> rs[p].Finite() && rs[p].nh == s.id)
              && (p in x ==> x[p] == TableEntry(s.id, false))
            else
              && (p in f <==> p in s.forward) && (p in f ==> f[p] == s.forward[p])
              && (p in x <==> p in s.exits) && (p in x ==> x[p] == s.exits[p])
  {
  }

  /** Installing a prefix's new entry, or leaving it when only its metric changed, keeps the
      dataplane in step. */
  lemma {:induction false} StepAgrees(s: Node, t: Node, rs: map<Prefix, SelRoute>, p: Prefix)
    requires AgreesAt(s, p) && t.id == s.id
    requires t.forward == InstallForward(s.forward, rs) && t.exits == InstallExits(s.exits, s.id, rs)
    requires p in rs ==> (p in t.routes && t.routes[p].Finite() == rs[p].Finite() && t.routes[p].nh == rs[p].nh)
    requires p !in rs ==>
               || (p !in t.routes && (p in s.routes ==> !s.routes[p].Finite()))
               || (p in t.routes && p in s.routes && t.routes[p].nh == s.routes[p].nh && t.routes[p].Finite() == s.routes[p].Finite())
    ensures AgreesAt(t, p)
  {
    InstallAt(s, rs, p);
  }

  lemma {:induction false} ComputeKeepsDataplane(s: Node, now: int)
    requires s.Valid() && DataplaneAgrees(s)
    ensures DataplaneAgrees(Compute(s, now))
  {
    var t, rs := Compute(s, now), Installs(s, now);
    forall p
      ensures AgreesAt(t, p)
    {
      assert AgreesAt(s, p);
      InstallsAt(s, now, p);
      TableAt(s, now, p);
      StepAgrees(s, t, rs, p);
    }
  }

  /** A prefix is forwarded live to `n` exactly when its selected route is finite via `n`. */
  lemma {:induction false} ForwardsAsSelected(s: Node, p: Prefix, n: NodeId)
    requires DataplaneAgrees(s)
    ensures p in s.forward && s.forward[p] == TableEntry(n, false) <==>
            p in s.routes && s.routes[p].Finite() && s.routes[p].nh == n
  {
    assert AgreesAt(s, p);
  }

  // ---------- holding a retracted route ----------

  /** A finite route never vanishes in one step: it is replaced by a finite one or stays,
      infinite, with no acknowledgement counted yet. */
  lemma {:induction false} LostRouteIsHeld(s: Node, p: Prefix, now: int)
    requires s.Valid() && p in s.routes && s.routes[p].Finite()
    ensures p in Compute(s, now).routes
    ensures Compute(s, now).routes[p].Finite() || Compute(s, now).routes[p] == RetractedRoute(s.routes[p])
  {
    TableAt(s, now, p);
  }

  lemma {:induction false} PickNone(best: Option<Candidate>, current: Option<Candidate>, incumbent: Option<SelRoute>)
    ensures Pick(best, current, incumbent).None? <==> best.None? && incumbent.None?
  {
  }

  /** An infinite entry is dropped exactly when nothing replaces it and it is not held. */
  lemma {:induction false} DroppedWhen(s: Node, p: Prefix, now: int)
    requires s.Valid() && p in s.routes && !s.routes[p].Finite()
    ensures p !in Compute(s, now).routes <==>
            && p !in s.advertised
            && (forall i :: 0 <= i < |s.neighbours| ==> !Eligible(s, s.neighbours[i], p))
            && (s.routes[p].nh == s.id || s.routes[p].expireAt <= now || Connected(s.neighbours) <= |s.routes[p].retractedBy|)
  {
    var n := |s.neighbours|;
    assert p in Compute(s, now).routes <==> NewEntry(s, p, now).Some? by {
      TableAt(s, now, p);
    }
    PickNone(BestOf(s, p, n), CurrentOf(s, p, n), Incumbent(s, p, now));
    assert Incumbent(s, p, now).None? <==> p !in s.advertised && !Held(s, p, now);
    BestOfNone(s, p, n);
  }

  ghost function ReachableIds(ns: seq<Neighbour>): set<NodeId> {
    set i | 0 <= i < |ns| && ns[i].reachable :: ns[i].id
  }

  lemma {:induction false} ConnectedCounts(ns: seq<Neighbour>)
    requires forall i, j :: 0 <= i < j < |ns| ==> ns[i].id != ns[j].id
    ensures Connected(ns) == |ReachableIds(ns)|
  {
    if ns != [] {
      ConnectedCounts(ns[..|ns| - 1]);
      ReachableNext(ns, |ns| - 1);
    }
  }

  lemma {:induction false} ReachableNext(ns: seq<Neighbour>, k: nat)
    requires k + 1 == |ns| && forall i, j :: 0 <= i < j < |ns| ==> ns[i].id != ns[j].id
    ensures ReachableIds(ns) == if ns[k].reachable then ReachableIds(ns[..k]) + {ns[k].id} else ReachableIds(ns[..k])
    ensures ns[k].id !in ReachableIds(ns[..k])
  {
    var m := ns[..k];
    forall x
      ensures x in ReachableIds(ns) <==> x in ReachableIds(m) || (ns[k].reachable && x == ns[k].id)
    {
      if x in ReachableIds(ns) {
        var i :| 0 <= i < |ns| && ns[i].reachable && ns[i].id == x;
        assert i < k ==> m[i] == ns[i];
      }
      if x in ReachableIds(m) {
        var i :| 0 <= i < |m| && m[i].reachable && m[i].id == x;
        assert m[i] == ns[i];
      }
    }
  }

  ghost function AckIds(acks: seq<NodeId>): set<NodeId> { set i | 0 <= i < |acks| :: acks[i] }

  ghost predicate Distinct(acks: seq<NodeId>) { forall i, j :: 0 <= i < j < |acks| ==> acks[i] != acks[j] }

  lemma {:induction false} DistinctCount(acks: seq<NodeId>)
    requires Distinct(acks)
    ensures |AckIds(acks)| == |acks|
  {
    if acks != [] {
      var k := |acks| - 1;
      DistinctCount(acks[..k]);
      assert AckIds(acks) == AckIds(acks[..k]) + {acks[k]};
    }
  }

  lemma {:induction false} SplitCount(a: set<NodeId>, b: set<NodeId>)
    ensures |a| == |a * b| + |a - b|
  {
    assert a == (a * b) + (a - b);
  }

  /** Release counts acknowledgements instead of matching them: the count is reached exactly
      when the reachable neighbours still missing are no more than the acknowledgements that
      came from others. */
  lemma {:induction false} ReleaseCounts(ns: seq<Neighbour>, acks: seq<NodeId>)
    requires forall i, j :: 0 <= i < j < |ns| ==> ns[i].id != ns[j].id
    requires Distinct(acks)
    ensures Connected(ns) <= |acks| <==>
            |ReachableIds(ns) - AckIds(acks)| <= |AckIds(acks) - ReachableIds(ns)|
  {
    var r, a := ReachableIds(ns), AckIds(acks);
    ConnectedCounts(ns);
    DistinctCount(acks);
    SplitCount(r, a);
    SplitCount(a, r);
    assert r * a == a * r;
  }

  /** A router that holds a retracted route to `p`; its neighbour `a` is reachable and has not
      acknowledged, and `b` acknowledged before its link went down. */
  function HoldingNode(v: NodeId, a: NodeId, b: NodeId, o: NodeId, p: Prefix, tun: Tunables, until: int): Node {
    Node(v, tun, map[], map[p := SelRoute(PubRoute(Source(o, p), FD(0, INF)), o, until, [b])], map[],
         [Neighbour(a, map[], true, 1), Neighbour(b, map[], false, 1)], map[], map[], map[], map[])
  }

  /** The route is released long before its time although `a` has not acknowledged. */
  lemma {:induction false} ReleasedByAnother(v: NodeId, a: NodeId, b: NodeId, o: NodeId, p: Prefix, tun: Tunables, until: int, now: int)
    requires a != b && o != v && now < until
    ensures var s := HoldingNode(v, a, b, o, p, tun, until);
            && s.Valid() && p in s.routes && p !in Compute(s, now).routes
            && a in ReachableIds(s.neighbours) && a !in AckIds(s.routes[p].retractedBy)
  {
    var s := HoldingNode(v, a, b, o, p, tun, until);
    OneConnected(s.neighbours);
    DroppedWhen(s, p, now);
    assert s.neighbours[0].id == a && s.neighbours[0].reachable;
  }

  lemma {:induction false} OneConnected(ns: seq<Neighbour>)
    requires |ns| == 2 && ns[0].reachable && !ns[1].reachable
    ensures Connected(ns) == 1
  {
    assert ns[..1][..0] == [] && ns[..1][0] == ns[0];
    assert Connected(ns[..1]) == Connected(ns[..1][..0]) + 1;
  }

  /** Acknowledgements counted so far are distinct and come from reachable neighbours. */
  ghost predicate AcksReachable(s: Node) {
    forall p :: p in s.routes ==> AcksReachableAt(s.neighbours, s.routes[p].retractedBy)
  }

  ghost predicate AcksReachableAt(ns: seq<Neighbour>, acks: seq<NodeId>) {
    Distinct(acks) && AckIds(acks) <= ReachableIds(ns)
  }

  /** Then a held route via another node is dropped before its time, without a replacement,
      only once every reachable neighbour has acknowledged. */
  lemma {:induction false} DroppedOnlyWhenAllAcked(s: Node, p: Prefix, now: int)
    requires s.Valid() && AcksReachable(s)
    requires p in s.routes && !s.routes[p].Finite() && s.routes[p].nh != s.id && now < s.routes[p].expireAt
    requires p !in Compute(s, now).routes
    ensures AckIds(s.routes[p].retractedBy) == ReachableIds(s.neighbours)
  {
    DroppedWhen(s, p, now);
    ReleaseCounts(s.neighbours, s.routes[p].retractedBy);
    var r, a := ReachableIds(s.neighbours), AckIds(s.routes[p].retractedBy);
    assert a - r == {};
    assert r - a == {};
  }

  lemma {:induction false} SmoothKeepsReachable(s: Node)
    ensures ReachableIds(SmoothAll(s)) == ReachableIds(s.neighbours)
  {
    assert forall i :: 0 <= i < |s.neighbours| ==>
        SmoothAll(s)[i].id == s.neighbours[i].id && SmoothAll(s)[i].reachable == s.neighbours[i].reachable;
  }

  /** Acknowledgements survive a computation only on an entry that is held on. */
  lemma {:induction false} NewEntryAcks(s: Node, p: Prefix, now: int)
    requires NewEntry(s, p, now).Some?
    ensures var acks := NewEntry(s, p, now).value.retractedBy;
            acks == [] || (p in s.routes && acks == s.routes[p].retractedBy)
  {
    var i := NewEntryCases(s, p, now);
  }

  lemma {:induction false} ComputeKeepsAcks(s: Node, now: int)
    requires s.Valid() && AcksReachable(s)
    ensures AcksReachable(Compute(s, now))
  {
    var t := Compute(s, now);
    SmoothKeepsReachable(s);
    forall p | p in t.routes
      ensures AcksReachableAt(t.neighbours, t.routes[p].retractedBy)
    {
      TableAt(s, now, p);
      if !Retracts(s, p, now) {
        NewEntryAcks(s, p, now);
      }
    }
  }

  lemma {:induction false} AckIdsAppend(acks: seq<NodeId>, n: NodeId)
    ensures AckIds(acks + [n]) == AckIds(acks) + {n}
  {
    assert forall i :: 0 <= i < |acks| ==> (acks + [n])[i] == acks[i];
    assert (acks + [n])[|acks|] == n;
  }

  lemma {:induction false} AckRetractKeepsAcks(s: Node, neigh: NodeId, p: Prefix, now: int)
    requires s.Valid() && AcksReachable(s) && neigh in ReachableIds(s.neighbours)
    ensures AcksReachable(AckRetract(s, neigh, p, now))
  {
    if Counts(s, neigh, p) {
      AckedKeepsAcks(s, neigh, p);
      ComputeKeepsAcks(Acked(s, neigh, p), now);
    }
  }

  lemma {:induction false} AckedKeepsAcks(s: Node, neigh: NodeId, p: Prefix)
    requires s.Valid() && AcksReachable(s) && neigh in ReachableIds(s.neighbours) && Counts(s, neigh, p)
    ensures AcksReachable(Acked(s, neigh, p))
  {
    AckIdsAppend(s.routes[p].retractedBy, neigh);
    var t := Acked(s, neigh, p);
    forall q | q in t.routes
      ensures AcksReachableAt(t.neighbours, t.routes[q].retractedBy)
    {
      assert AcksReachableAt(s.neighbours, s.routes[q].retractedBy);
    }
  }
}
