/** The router as a mutable object. Each method is proved to leave the state that
    `RouteSelection` and `RouterOps` specify. */
module Router {
  import opened Basics
  import opened Metric
  import opened RouterState
  import opened RouteSelection
  import opened RouterOps
  import opened RouterSafety
  import opened RouterLaws
  import opened RouterPromises

  // ---------- publication, prefix by prefix ----------

  /** The dataplane tables at `p` once the routes in `inst` have been installed. */
  ghost predicate InstalledAt(s: Node, inst: map<Prefix, SelRoute>, forward: map<Prefix, TableEntry>,
                              exits: map<Prefix, TableEntry>, p: Prefix)
  {
    if p in inst then
      && p in forward && forward[p] == TableEntry(inst[p].nh, !inst[p].Finite())
      && (p in exits <==> inst[p].Finite() && inst[p].nh == s.id)
      && (p in exits ==> exits[p] == TableEntry(s.id, false))
    else
      && (p in forward <==> p in s.forward) && (p in forward ==> forward[p] == s.forward[p])
      && (p in exits <==> p in s.exits) && (p in exits ==> exits[p] == s.exits[p])
  }

  /** The updates queued for `d` once those in `sent` have gone to the neighbours in `to`. */
  ghost predicate QueuedAt(u0: map<Dest, PubRoute>, to: set<NodeId>, sent: map<Prefix, PubRoute>, u: map<Dest, PubRoute>, d: Dest) {
    if d.neigh in to && d.prefix in sent then d in u && u[d] == sent[d.prefix]
    else (d in u <==> d in u0) && (d in u ==> u[d] == u0[d])
  }

  /** The entry of `src` once the updates in `sent` have been announced. */
  ghost predicate AdvancedAt(sources0: map<Source, FD>, sent: map<Prefix, PubRoute>, sources: map<Source, FD>, src: Source) {
    if src.prefix in sent && sent[src.prefix].source == src then
      src in sources && sources[src] == Advance(sources0, sent[src.prefix])[src]
    else (src in sources <==> src in sources0) && (src in sources ==> sources[src] == sources0[src])
  }

  ghost predicate AllInstalled(s: Node, inst: map<Prefix, SelRoute>, forward: map<Prefix, TableEntry>, exits: map<Prefix, TableEntry>) {
    forall p :: InstalledAt(s, inst, forward, exits, p)
  }

  ghost predicate AllQueued(u0: map<Dest, PubRoute>, to: set<NodeId>, sent: map<Prefix, PubRoute>, u: map<Dest, PubRoute>) {
    forall d :: QueuedAt(u0, to, sent, u, d)
  }

  ghost predicate AllAdvanced(sources0: map<Source, FD>, sent: map<Prefix, PubRoute>, sources: map<Source, FD>) {
    forall src :: AdvancedAt(sources0, sent, sources, src)
  }

  lemma {:induction false} InstalledMeans(s: Node, inst: map<Prefix, SelRoute>, forward: map<Prefix, TableEntry>, exits: map<Prefix, TableEntry>)
    requires AllInstalled(s, inst, forward, exits)
    ensures forward == InstallForward(s.forward, inst) && exits == InstallExits(s.exits, s.id, inst)
  {
    var f, x := InstallForward(s.forward, inst), InstallExits(s.exits, s.id, inst);
    forall p
      ensures (p in forward <==> p in f) && (p in f ==> forward[p] == f[p])
      ensures (p in exits <==> p in x) && (p in x ==> exits[p] == x[p])
    {
      assert InstalledAt(s, inst, forward, exits, p);
      InstallAt(s, inst, p);
    }
  }

  lemma {:induction false} QueuedMeans(u0: map<Dest, PubRoute>, to: set<NodeId>, sent: map<Prefix, PubRoute>, u: map<Dest, PubRoute>)
    requires AllQueued(u0, to, sent, u)
    ensures u == Queue(u0, to, sent)
  {
    forall d
      ensures (d in u <==> d in Queue(u0, to, sent)) && (d in u ==> u[d] == Queue(u0, to, sent)[d])
    {
      assert QueuedAt(u0, to, sent, u, d);
      QueueAt(u0, to, sent, d);
    }
  }

  lemma {:induction false} AdvancedMeans(sources0: map<Source, FD>, sent: map<Prefix, PubRoute>, sources: map<Source, FD>)
    requires forall p :: p in sent ==> sent[p].source.prefix == p
    requires AllAdvanced(sources0, sent, sources)
    ensures sources == AdvanceAll(sources0, sent)
  {
    forall src
      ensures src in sources <==> src in AdvanceAll(sources0, sent)
      ensures src in sources ==> sources[src] == AdvanceAll(sources0, sent)[src]
    {
      assert AdvancedAt(sources0, sent, sources, src);
      AdvanceAllAt(sources0, sent, src);
    }
  }

  lemma {:induction false} QueuedOneMore(u0: map<Dest, PubRoute>, to: set<NodeId>, sent: map<Prefix, PubRoute>, u: map<Dest, PubRoute>,
                      adv: PubRoute, u': map<Dest, PubRoute>)
    requires AllQueued(u0, to, sent, u)
    requires AllQueued(u, to, map[adv.source.prefix := adv], u') || exists n :: to == {n} && u' == u[Dest(n, adv.source.prefix) := adv]
    ensures AllQueued(u0, to, sent[adv.source.prefix := adv], u')
  {
    var one, more := map[adv.source.prefix := adv], sent[adv.source.prefix := adv];
    forall d
      ensures QueuedAt(u0, to, more, u', d)
    {
      assert QueuedAt(u0, to, sent, u, d);
      assert AllQueued(u, to, one, u') ==> QueuedAt(u, to, one, u', d);
    }
  }

  ghost predicate PushedAt(routes: map<Prefix, SelRoute>, todo: set<Prefix>, finite: map<Prefix, PubRoute>, sent: map<Prefix, PubRoute>, p: Prefix) {
    var done := p in routes && p !in todo;
    && (p in sent <==> done) && (p in sent ==> sent[p] == routes[p].pub)
    && (p in finite <==> done && routes[p].Finite()) && (p in finite ==> finite[p] == routes[p].pub)
  }

  lemma {:induction false} PushedMeans(routes: map<Prefix, SelRoute>, finite: map<Prefix, PubRoute>, sent: map<Prefix, PubRoute>)
    requires RoutesKeyed(routes) && forall p :: PushedAt(routes, {}, finite, sent, p)
    ensures finite == FinitePubs(routes) && sent == Pubs(routes)
    ensures forall p :: p in finite ==> finite[p].source.prefix == p
  {
    forall p
      ensures p in finite <==> p in FinitePubs(routes)
      ensures p in finite ==> finite[p] == FinitePubs(routes)[p] && finite[p].source.prefix == p
      ensures p in sent <==> p in Pubs(routes)
      ensures p in sent ==> sent[p] == Pubs(routes)[p]
    {
      assert PushedAt(routes, {}, finite, sent, p);
    }
  }

  lemma {:induction false} PushMeans(s: Node, to: set<NodeId>, finite: map<Prefix, PubRoute>, sent: map<Prefix, PubRoute>,
                  sources: map<Source, FD>, updates: map<Dest, PubRoute>)
    requires RoutesKeyed(s.routes) && forall p :: PushedAt(s.routes, {}, finite, sent, p)
    requires AllAdvanced(s.sources, finite, sources) && AllQueued(s.updates, to, sent, updates)
    ensures sources == Push(s, to).sources && updates == Push(s, to).updates
  {
    PushedMeans(s.routes, finite, sent);
    AdvancedMeans(s.sources, finite, sources);
    QueuedMeans(s.updates, to, sent, updates);
  }

  /** Updates for different prefixes concern different sources. */
  lemma {:induction false} AdvancedOneMore(sources0: map<Source, FD>, sent: map<Prefix, PubRoute>, sources: map<Source, FD>, adv: PubRoute)
    requires adv.source.prefix !in sent
    requires AllAdvanced(sources0, sent, sources)
    ensures AllAdvanced(sources0, sent[adv.source.prefix := adv], Advance(sources, adv))
  {
    var more, after := sent[adv.source.prefix := adv], Advance(sources, adv);
    assert AdvancedAt(sources0, sent, sources, adv.source);
    AdvanceSame(sources, sources0, adv);
    forall src
      ensures AdvancedAt(sources0, more, after, src)
    {
      assert AdvancedAt(sources0, sent, sources, src);
    }
  }

  lemma {:induction false} AdvanceSame(a: map<Source, FD>, b: map<Source, FD>, adv: PubRoute)
    requires adv.source in a <==> adv.source in b
    requires adv.source in a ==> a[adv.source] == b[adv.source]
    ensures Advance(a, adv)[adv.source] == Advance(b, adv)[adv.source]
  {
  }

  // ---------- selection, loop by loop ----------

  /** What the candidates look like after the first `k` neighbours. */
  ghost predicate Collected(s: Node, k: nat, best: map<Prefix, Candidate>, current: map<Prefix, Candidate>)
    requires k <= |s.neighbours|
  {
    forall p :: CollectedAt(s, k, p, best, current)
  }

  ghost predicate CollectedAt(s: Node, k: nat, p: Prefix, best: map<Prefix, Candidate>, current: map<Prefix, Candidate>)
    requires k <= |s.neighbours|
  {
    && BestOf(s, p, k) == (if p in best then Some(best[p]) else None)
    && CurrentOf(s, p, k) == (if p in current then Some(current[p]) else None)
  }

  lemma {:induction false} CollectedFrame(s: Node, k: nat, p: Prefix, q: Prefix, best0: map<Prefix, Candidate>, current0: map<Prefix, Candidate>,
                       best: map<Prefix, Candidate>, current: map<Prefix, Candidate>)
    requires k <= |s.neighbours| && q != p
    requires best - {p} == best0 - {p} && current - {p} == current0 - {p}
    requires CollectedAt(s, k, q, best0, current0)
    ensures CollectedAt(s, k, q, best, current)
  {
    assert q in best <==> q in best - {p};
    assert q in best0 <==> q in best0 - {p};
    assert q in current <==> q in current - {p};
    assert q in current0 <==> q in current0 - {p};
  }

  /** In the middle of neighbour `k`, with the prefixes in `todo` left. */
  ghost predicate PartlyCollected(s: Node, k: nat, todo: set<Prefix>, p: Prefix,
                                  best: map<Prefix, Candidate>, current: map<Prefix, Candidate>)
    requires k < |s.neighbours|
  {
    CollectedAt(s, if p in s.neighbours[k].routes && p !in todo then k + 1 else k, p, best, current)
  }

  lemma {:induction false} CollectedOneMore(s: Node, k: nat, todo: set<Prefix>, p: Prefix,
                         best0: map<Prefix, Candidate>, current0: map<Prefix, Candidate>,
                         best: map<Prefix, Candidate>, current: map<Prefix, Candidate>)
    requires k < |s.neighbours| && p in todo && p in s.neighbours[k].routes
    requires forall q :: PartlyCollected(s, k, todo, q, best0, current0)
    requires best - {p} == best0 - {p} && current - {p} == current0 - {p}
    requires CollectedAt(s, k + 1, p, best, current)
    ensures forall q :: PartlyCollected(s, k, todo - {p}, q, best, current)
  {
    forall q
      ensures PartlyCollected(s, k, todo - {p}, q, best, current)
    {
      if q != p {
        assert PartlyCollected(s, k, todo, q, best0, current0);
        CollectedFrame(s, if q in s.neighbours[k].routes && q !in todo then k + 1 else k, p, q, best0, current0, best, current);
      }
    }
  }

  lemma {:induction false} CollectedAll(s: Node, k: nat, best: map<Prefix, Candidate>, current: map<Prefix, Candidate>)
    requires k < |s.neighbours| && forall p :: PartlyCollected(s, k, {}, p, best, current)
    ensures Collected(s, k + 1, best, current)
  {
    var n := k + 1;
    forall p
      ensures CollectedAt(s, n, p, best, current)
    {
      assert PartlyCollected(s, k, {}, p, best, current);
    }
  }

  /** What is settled on for `p`. Without a candidate the entry that is there stays. A candidate takes
      its place, or that of the route selected now, if it is the same route or has the smaller metric
      and the smaller average; if there is neither, it is taken as it is. */
  ghost predicate SettledAt(table0: map<Prefix, SelRoute>, best: map<Prefix, Candidate>, current: map<Prefix, Candidate>,
                            table: map<Prefix, SelRoute>, p: Prefix)
  {
    if p !in best then (p in table <==> p in table0) && (p in table ==> table[p] == table0[p])
    else
      && p in table
      && if p in table0 then
           var known := p in current && current[p].route.nh == table0[p].nh && current[p].route.pub.source == table0[p].pub.source;
           table[p] == if Displaces(best[p], table0[p], if known then current[p].smoothed else table0[p].pub.fd.metric as real)
                       then best[p].route else table0[p]
         else if p in current then
           table[p] == if Displaces(best[p], current[p].route, current[p].smoothed) then best[p].route else current[p].route
         else table[p] == best[p].route
  }

  ghost predicate Displaces(b: Candidate, r: SelRoute, average: real) {
    || (b.route.nh == r.nh && b.route.pub.source == r.pub.source)
    || (b.route.pub.fd.metric < r.pub.fd.metric && b.smoothed < average)
  }

  ghost predicate StartsWith(s: Node, now: int, table: map<Prefix, SelRoute>, p: Prefix) {
    Incumbent(s, p, now) == if p in table then Some(table[p]) else None
  }

  lemma {:induction false} SettledIs(table0: map<Prefix, SelRoute>, best: map<Prefix, Candidate>, current: map<Prefix, Candidate>,
                                     table: map<Prefix, SelRoute>, p: Prefix)
    requires SettledAt(table0, best, current, table, p)
    ensures (if p in table then Some(table[p]) else None) ==
            Pick(if p in best then Some(best[p]) else None, if p in current then Some(current[p]) else None,
                 if p in table0 then Some(table0[p]) else None)
  {
  }

  /** The loops together compute the table that is specified prefix by prefix. */
  lemma {:induction false} TableIsNew(s: Node, now: int, start: map<Prefix, SelRoute>, best: map<Prefix, Candidate>, current: map<Prefix, Candidate>,
                   table: map<Prefix, SelRoute>)
    requires s.Valid() && Collected(s, |s.neighbours|, best, current)
    requires forall p :: StartsWith(s, now, start, p)
    requires forall p :: SettledAt(start, best, current, table, p)
    ensures table == NewTable(s, now)
  {
    forall p
      ensures p in table <==> p in NewTable(s, now)
      ensures p in table ==> table[p] == NewTable(s, now)[p]
    {
      NewTableAt(s, now, p);
      assert StartsWith(s, now, start, p);
      SettledIs(start, best, current, table, p);
      assert CollectedAt(s, |s.neighbours|, p, best, current);
    }
  }

  lemma {:induction false} NewTableKeyed(s: Node, now: int)
    requires s.Valid()
    ensures RoutesKeyed(NewTable(s, now))
  {
    PublishedKeyed(s, now);
  }

  /** Comparing the new table with the old one installs and sends this. */
  ghost predicate ComparedAt(s: Node, table: map<Prefix, SelRoute>, todo: set<Prefix>, inst: map<Prefix, SelRoute>,
                             sent: map<Prefix, PubRoute>, p: Prefix)
  {
    var done := p in table && p !in todo;
    && (p in inst <==> done && NeedsInstall(s, p, table[p])) && (p in inst ==> inst[p] == table[p])
    && (p in sent <==> done && MajorChange(s, p, table[p])) && (p in sent ==> sent[p] == table[p].pub)
  }

  ghost predicate LostAt(s: Node, table: map<Prefix, SelRoute>, p: Prefix) {
    p in s.routes && s.routes[p].Finite() && (p in table ==> !table[p].Finite())
  }

  /** The scan for retractions then changes this, outside `todo`. */
  ghost predicate RetractedAt(s: Node, table0: map<Prefix, SelRoute>, inst0: map<Prefix, SelRoute>, sent0: map<Prefix, PubRoute>,
                              todo: set<Prefix>, table: map<Prefix, SelRoute>, inst: map<Prefix, SelRoute>,
                              sent: map<Prefix, PubRoute>, p: Prefix)
  {
    if p !in todo && LostAt(s, table0, p) then
      var r := RetractedRoute(s.routes[p]);
      p in table && table[p] == r && p in inst && inst[p] == r && p in sent && sent[p] == r.pub
    else
      && (p in table <==> p in table0) && (p in table ==> table[p] == table0[p])
      && (p in inst <==> p in inst0) && (p in inst ==> inst[p] == inst0[p])
      && (p in sent <==> p in sent0) && (p in sent ==> sent[p] == sent0[p])
  }

  lemma {:induction false} ComparedMeans(s: Node, table: map<Prefix, SelRoute>, inst: map<Prefix, SelRoute>, sent: map<Prefix, PubRoute>)
    requires forall p :: ComparedAt(s, table, {}, inst, sent, p)
    ensures inst == ToInstall(s, table) && sent == ToPublish(s, table)
  {
    forall p
      ensures p in inst <==> p in ToInstall(s, table)
      ensures p in inst ==> inst[p] == ToInstall(s, table)[p]
      ensures p in sent <==> p in ToPublish(s, table)
      ensures p in sent ==> sent[p] == ToPublish(s, table)[p]
    {
      assert ComparedAt(s, table, {}, inst, sent, p);
    }
  }

  lemma {:induction false} RetractedAdds(s: Node, table0: map<Prefix, SelRoute>, inst0: map<Prefix, SelRoute>, sent0: map<Prefix, PubRoute>,
                      table: map<Prefix, SelRoute>, inst: map<Prefix, SelRoute>, sent: map<Prefix, PubRoute>, lost: map<Prefix, SelRoute>)
    requires forall p :: RetractedAt(s, table0, inst0, sent0, {}, table, inst, sent, p)
    requires forall p :: p in lost <==> LostAt(s, table0, p)
    requires forall p :: p in lost ==> p in s.routes && lost[p] == RetractedRoute(s.routes[p])
    ensures table == table0 + lost && inst == inst0 + lost && sent == sent0 + Pubs(lost)
  {
    var pubs := Pubs(lost);
    forall p
      ensures AddedAt(table0, lost, table, p) && AddedAt(inst0, lost, inst, p) && AddedAt(sent0, pubs, sent, p)
    {
      assert RetractedAt(s, table0, inst0, sent0, {}, table, inst, sent, p);
    }
    AddedMeans(table0, lost, table);
    AddedMeans(inst0, lost, inst);
    AddedMeans(sent0, pubs, sent);
  }

  ghost predicate AddedAt<V>(m0: map<Prefix, V>, more: map<Prefix, V>, m: map<Prefix, V>, p: Prefix) {
    if p in more then p in m && m[p] == more[p] else (p in m <==> p in m0) && (p in m ==> m[p] == m0[p])
  }

  lemma {:induction false} AddedMeans<V>(m0: map<Prefix, V>, more: map<Prefix, V>, m: map<Prefix, V>)
    requires forall p :: AddedAt(m0, more, m, p)
    ensures m == m0 + more
  {
    forall p
      ensures (p in m <==> p in m0 + more) && (p in m ==> m[p] == (m0 + more)[p])
    {
      assert AddedAt(m0, more, m, p);
    }
  }

  lemma {:induction false} LostIs(s: Node, now: int)
    requires s.Valid()
    ensures forall p :: p in Lost(s, now) <==> LostAt(s, NewTable(s, now), p)
  {
    forall p
      ensures p in Lost(s, now) <==> LostAt(s, NewTable(s, now), p)
    {
      NewTableAt(s, now, p);
    }
  }

  /** What the methods leave in the tables is what the specification says. */
  lemma {:induction false} RetractedMeans(s: Node, now: int, inst0: map<Prefix, SelRoute>, sent0: map<Prefix, PubRoute>,
                       table: map<Prefix, SelRoute>, inst: map<Prefix, SelRoute>, sent: map<Prefix, PubRoute>)
    requires s.Valid() && inst0 == Changed(s, now) && sent0 == Published(s, now)
    requires forall p :: RetractedAt(s, NewTable(s, now), inst0, sent0, {}, table, inst, sent, p)
    ensures table == Table(s, now) && inst == Installs(s, now) && sent == Broadcasts(s, now)
  {
    LostIs(s, now);
    RetractedAdds(s, NewTable(s, now), inst0, sent0, table, inst, sent, Lost(s, now));
    TableIsFinal(s, now);
  }

  lemma {:induction false} ComputedMeans(s: Node, now: int, inst0: map<Prefix, SelRoute>, sent0: map<Prefix, PubRoute>, sources: map<Source, FD>,
                      table: map<Prefix, SelRoute>, inst: map<Prefix, SelRoute>, sent: map<Prefix, PubRoute>,
                      forward: map<Prefix, TableEntry>, exits: map<Prefix, TableEntry>, updates: map<Dest, PubRoute>)
    requires s.Valid()
    requires forall p :: ComparedAt(s, NewTable(s, now), {}, inst0, sent0, p)
    requires AllAdvanced(s.sources, sent0, sources)
    requires forall p :: RetractedAt(s, NewTable(s, now), inst0, sent0, {}, table, inst, sent, p)
    requires AllInstalled(s, inst, forward, exits) && AllQueued(s.updates, Ids(s.neighbours), sent, updates)
    ensures var t := Compute(s, now);
            table == t.routes && sources == t.sources && forward == t.forward && exits == t.exits && updates == t.updates
  {
    ComparedMeans(s, NewTable(s, now), inst0, sent0);
    PublishedKeyed(s, now);
    AdvancedMeans(s.sources, sent0, sources);
    RetractedMeans(s, now, inst0, sent0, table, inst, sent);
    InstalledMeans(s, inst, forward, exits);
    QueuedMeans(s.updates, Ids(s.neighbours), sent, updates);
  }

  lemma {:induction false} SmoothIds(s: Node)
    ensures Ids(SmoothAll(s)) == Ids(s.neighbours)
    ensures AllInstalled(s, map[], s.forward, s.exits) && AllQueued(s.updates, Ids(s.neighbours), map[], s.updates)
  {
    assert forall i :: 0 <= i < |s.neighbours| ==> SmoothAll(s)[i].id == s.neighbours[i].id;
  }

  lemma {:induction false} TableIsFinal(s: Node, now: int)
    requires s.Valid()
    ensures NewTable(s, now) + Lost(s, now) == Table(s, now)
  {
    forall p
      ensures p in NewTable(s, now) + Lost(s, now) <==> p in Table(s, now)
      ensures p in Table(s, now) ==> (NewTable(s, now) + Lost(s, now))[p] == Table(s, now)[p]
    {
      NewTableAt(s, now, p);
      TableAt(s, now, p);
    }
  }

  class RouterNode {
    const id: NodeId
    const tun: Tunables
    var selfSeqno: map<Prefix, U16>
    var routes: map<Prefix, SelRoute>
    var sources: map<Source, FD>
    var neighbours: seq<Neighbour>
    var advertised: map<Prefix, Advertisement>
    var forward: map<Prefix, TableEntry>
    var exits: map<Prefix, TableEntry>
    var updates: map<Dest, PubRoute>

    ghost function View(): Node
      reads this
    {
      Node(id, tun, selfSeqno, routes, sources, neighbours, advertised, forward, exits, updates)
    }

    constructor (id: NodeId, tun: Tunables)
      ensures View() == Node(id, tun, map[], map[], map[], [], map[], map[], map[], map[])
    {
      this.id, this.tun := id, tun;
      selfSeqno, routes, sources, neighbours := map[], map[], map[], [];
      advertised, forward, exits, updates := map[], map[], map[], map[];
    }

    method UpdateFeasibility(adv: PubRoute)
      modifies this`sources
      ensures sources == Advance(old(sources), adv)
    {
      if adv.source !in sources {
        sources := sources[adv.source := adv.fd];
      } else {
        var info := sources[adv.source];
        if SeqnoLt(info.seqno, adv.fd.seqno) {
          info := info.(seqno := adv.fd.seqno, metric := adv.fd.metric);
        } else if info.seqno == adv.fd.seqno && info.metric > adv.fd.metric {
          info := info.(metric := adv.fd.metric);
        }
        sources := sources[adv.source := info];
      }
    }

    method CheckFeasibility(adv: PubRoute) returns (ok: bool)
      ensures ok <==> Feasible(sources, adv)
    {
      if adv.source !in sources {
        return true;
      }
      var info := sources[adv.source];
      if SeqnoLt(info.seqno, adv.fd.seqno) || adv.fd.metric == INF {
        return true;
      } else if info.seqno == adv.fd.seqno && adv.fd.metric < info.metric {
        return true;
      }
      return false;
    }

    method BroadcastUpdate(adv: PubRoute)
      modifies this`updates
      ensures AllQueued(old(updates), Ids(neighbours), map[adv.source.prefix := adv], updates)
    {
      var p := adv.source.prefix;
      ghost var sent, u0 := map[p := adv], updates;
      for i := 0 to |neighbours|
        invariant AllQueued(u0, Ids(neighbours[..i]), sent, updates)
      {
        ghost var u, to := updates, Ids(neighbours[..i + 1]);
        assert to == Ids(neighbours[..i]) + {neighbours[i].id};
        updates := updates[Dest(neighbours[i].id, p) := adv];
        forall d
          ensures QueuedAt(u0, to, sent, updates, d)
        {
          assert QueuedAt(u0, Ids(neighbours[..i]), sent, u, d);
        }
      }
      assert neighbours[..|neighbours|] == neighbours;
    }

    method TableInsertRoute(p: Prefix, r: SelRoute)
      modifies this`forward, this`exits
      ensures forward == old(forward)[p := TableEntry(r.nh, !r.Finite())]
      ensures exits == if r.Finite() && r.nh == id then old(exits)[p := TableEntry(id, false)] else old(exits) - {p}
    {
      if r.pub.fd.metric == INF {
        forward := forward[p := TableEntry(r.nh, true)];
        exits := exits - {p};
        return;
      }
      forward := forward[p := TableEntry(r.nh, false)];
      if r.nh == id {
        exits := exits[p := TableEntry(r.nh, false)];
      } else {
        exits := exits - {p};
      }
    }

    // ---------- route computation ----------

    method CountConnected() returns (n: nat)
      ensures n == Connected(neighbours)
    {
      n := 0;
      for i := 0 to |neighbours|
        invariant n == Connected(neighbours[..i])
      {
        assert neighbours[..i + 1][..i] == neighbours[..i];
        if neighbours[i].reachable {
          n := n + 1;
        }
      }
      assert neighbours[..|neighbours|] == neighbours;
    }

    /** Held routes and our own prefixes. */
    method StartTable(now: int) returns (table: map<Prefix, SelRoute>)
      ensures forall p :: StartsWith(View(), now, table, p)
    {
      var connected := CountConnected();
      table := map[];
      var todo := routes.Keys;
      while todo != {}
        invariant todo <= routes.Keys
        invariant forall p :: p in table <==> p in routes.Keys - todo && Held(View(), p, now)
        invariant forall p :: p in table ==> table[p] == routes[p].Retracted()
      {
        var p :| p in todo;
        todo := todo - {p};
        if IsHeld(id, routes[p], connected, HasLink(neighbours, routes[p].nh), now) {
          table := table[p := routes[p].Retracted()];
        }
      }
      ghost var held := table;
      todo := advertised.Keys;
      while todo != {}
        invariant todo <= advertised.Keys
        invariant table.Keys == held.Keys + (advertised.Keys - todo)
        invariant forall p :: p in table ==> table[p] == if p in advertised.Keys - todo then OwnRoute(View(), p, now) else held[p]
      {
        var p :| p in todo;
        todo := todo - {p};
        var adv := advertised[p];
        var metric := if adv.passiveHold then INFM / 2 else adv.metric;
        var seqno := if p in selfSeqno then selfSeqno[p] else 0;
        var until := if now + tun.expiryTime <= adv.expiry then now + tun.expiryTime else adv.expiry;
        table := table[p := SelRoute(PubRoute(Source(id, p), FD(seqno, metric)), adv.node, until, [])];
      }
    }

    /** One advertisement of neighbour `k`, which costs `cost` to reach. */
    method Consider(ghost s: Node, k: nat, nb: Neighbour, cost: U32, p: Prefix, adv: NeighRoute,
                    best0: map<Prefix, Candidate>, current0: map<Prefix, Candidate>)
      returns (nr: NeighRoute, best: map<Prefix, Candidate>, current: map<Prefix, Candidate>)
      requires k < |s.neighbours| && nb == s.neighbours[k] && cost == LinkMetric(s.tun, nb)
      requires s.tun == tun && s.sources == sources && s.routes == routes
      requires p in nb.routes && adv == nb.routes[p]
      requires CollectedAt(s, k, p, best0, current0)
      ensures nr == Smoothed(s, nb, p)
      ensures CollectedAt(s, k + 1, p, best, current)
      ensures best - {p} == best0 - {p} && current - {p} == current0 - {p}
    {
      nr, best, current := adv, best0, current0;
      var total := AddMetric(cost, adv.pub.fd.metric);
      if total == INF {
        return;
      }
      var feasible := CheckFeasibility(adv.pub);
      if !feasible {
        return;
      }
      nr := nr.(smoothed := Smooth(nr.smoothed, total, tun.alpha));
      var route := SelRoute(PubRoute(adv.pub.source, FD(adv.pub.fd.seqno, total)), nb.id, adv.expireAt, []);
      var cand := Candidate(route, nr.smoothed);
      if p !in best || route.pub.fd.metric < best[p].route.pub.fd.metric {
        best := best[p := cand];
      }
      if p in routes && routes[p].nh == nb.id && routes[p].pub.source == adv.pub.source {
        current := current[p := cand];
      }
    }

    /** Considers everything neighbour `k` advertises. */
    method CollectFrom(ghost s: Node, k: nat, best0: map<Prefix, Candidate>, current0: map<Prefix, Candidate>)
      returns (stored: map<Prefix, NeighRoute>, best: map<Prefix, Candidate>, current: map<Prefix, Candidate>)
      requires k < |neighbours| && k < |s.neighbours| && neighbours[k] == s.neighbours[k]
      requires s.tun == tun && s.sources == sources && s.routes == routes
      requires Collected(s, k, best0, current0)
      ensures stored.Keys == s.neighbours[k].routes.Keys
      ensures forall p :: p in stored ==> stored[p] == Smoothed(s, s.neighbours[k], p)
      ensures Collected(s, k + 1, best, current)
    {
      var nb := neighbours[k];
      var cost := INF;
      if nb.reachable {
        cost := AddMetric(nb.linkCost, tun.hopCost);
        cost := AddMetric(cost, tun.transitCost);
      }
      stored, best, current := nb.routes, best0, current0;
      var todo := nb.routes.Keys;
      while todo != {}
        invariant todo <= nb.routes.Keys && stored.Keys == nb.routes.Keys
        invariant forall p :: p in stored ==>
          stored[p] == if p in todo then nb.routes[p] else Smoothed(s, nb, p)
        invariant forall p :: PartlyCollected(s, k, todo, p, best, current)
      {
        var p :| p in todo;
        assert PartlyCollected(s, k, todo, p, best, current);
        var nr, best', current' := Consider(s, k, nb, cost, p, stored[p], best, current);
        CollectedOneMore(s, k, todo, p, best, current, best', current');
        stored, best, current := stored[p := nr], best', current';
        todo := todo - {p};
      }
      CollectedAll(s, k, best, current);
    }

    method CollectCandidates() returns (best: map<Prefix, Candidate>, current: map<Prefix, Candidate>)
      modifies this`neighbours
      ensures neighbours == SmoothAll(old(View()))
      ensures Collected(old(View()), |old(neighbours)|, best, current)
    {
      ghost var s := View();
      best, current := map[], map[];
      for k := 0 to |neighbours|
        invariant |neighbours| == |s.neighbours|
        invariant forall j :: 0 <= j < |neighbours| ==>
          neighbours[j] == if j < k then SmoothNeighbour(s, s.neighbours[j]) else s.neighbours[j]
        invariant Collected(s, k, best, current)
      {
        var stored;
        stored, best, current := CollectFrom(s, k, best, current);
        assert stored == SmoothNeighbour(s, s.neighbours[k]).routes;
        neighbours := neighbours[k := neighbours[k].(routes := stored)];
      }
    }

    /** Settles on one route for every prefix that has a candidate. */
    method SelectRoutes(table0: map<Prefix, SelRoute>, best: map<Prefix, Candidate>, current: map<Prefix, Candidate>)
      returns (table: map<Prefix, SelRoute>)
      ensures forall p :: SettledAt(table0, best, current, table, p)
    {
      table := table0;
      var todo := best.Keys;
      while todo != {}
        invariant todo <= best.Keys
        invariant forall p :: if p in best.Keys - todo then SettledAt(table0, best, current, table, p)
                              else (p in table <==> p in table0) && (p in table ==> table[p] == table0[p])
      {
        var p :| p in todo;
        todo := todo - {p};
        var b := best[p];
        if p in table {
          var cur := table[p];
          var avg := cur.pub.fd.metric as real;
          if p in current && SameRoute(cur, current[p].route) {
            avg := current[p].smoothed;
          }
          table := table[p := Choose(b, cur, avg)];
        } else if p in current {
          table := table[p := Choose(b, current[p].route, current[p].smoothed)];
        } else {
          table := table[p := b.route];
        }
      }
    }

    /** The state during publication: `inst` went to the dataplane and `sent` to the neighbours. */
    ghost predicate Emitted(s: Node, inst: map<Prefix, SelRoute>, sent: map<Prefix, PubRoute>)
      reads this
    {
      && id == s.id && tun == s.tun && routes == s.routes && Ids(neighbours) == Ids(s.neighbours)
      && AllInstalled(s, inst, forward, exits)
      && AllQueued(s.updates, Ids(s.neighbours), sent, updates)
    }

    method Install(ghost s: Node, ghost inst: map<Prefix, SelRoute>, ghost sent: map<Prefix, PubRoute>, p: Prefix, r: SelRoute)
      requires Emitted(s, inst, sent)
      modifies this`forward, this`exits
      ensures Emitted(s, inst[p := r], sent)
    {
      ghost var f, x, more := forward, exits, inst[p := r];
      TableInsertRoute(p, r);
      forall q
        ensures InstalledAt(s, more, forward, exits, q)
      {
        assert InstalledAt(s, inst, f, x, q);
      }
    }

    method Emit(ghost s: Node, ghost inst: map<Prefix, SelRoute>, ghost sent: map<Prefix, PubRoute>, adv: PubRoute)
      requires Emitted(s, inst, sent)
      modifies this`updates
      ensures Emitted(s, inst, sent[adv.source.prefix := adv])
    {
      ghost var u := updates;
      BroadcastUpdate(adv);
      QueuedOneMore(s.updates, Ids(s.neighbours), sent, u, adv, updates);
    }

    method Announce(ghost sources0: map<Source, FD>, ghost sent: map<Prefix, PubRoute>, adv: PubRoute)
      requires adv.source.prefix !in sent
      requires AllAdvanced(sources0, sent, sources)
      modifies this`sources
      ensures AllAdvanced(sources0, sent[adv.source.prefix := adv], sources)
    {
      AdvancedOneMore(sources0, sent, sources, adv);
      UpdateFeasibility(adv);
    }

    /** Compares the new table with the old one, entry by entry. */
    method PublishChanges(ghost s: Node, table: map<Prefix, SelRoute>) returns (ghost inst: map<Prefix, SelRoute>, ghost sent: map<Prefix, PubRoute>)
      requires RoutesKeyed(table) && Emitted(s, map[], map[]) && sources == s.sources
      modifies this`sources, this`updates, this`forward, this`exits
      ensures Emitted(s, inst, sent)
      ensures AllAdvanced(s.sources, sent, sources)
      ensures forall p :: ComparedAt(s, table, {}, inst, sent, p)
    {
      inst, sent := map[], map[];
      var todo := table.Keys;
      while todo != {}
        invariant todo <= table.Keys
        invariant Emitted(s, inst, sent)
        invariant AllAdvanced(s.sources, sent, sources)
        invariant forall p :: ComparedAt(s, table, todo, inst, sent, p)
      {
        var p :| p in todo;
        assert ComparedAt(s, table, todo, inst, sent, p);
        ghost var before, i, u := todo, inst, sent;
        todo := todo - {p};
        var r := table[p];
        if p !in routes || (!routes[p].Finite() && r.Finite()) {
          Install(s, inst, sent, p, r);
          inst := inst[p := r];
        } else if routes[p].nh != r.nh {
          Install(s, inst, sent, p, r);
          inst := inst[p := r];
        }
        if p !in routes || routes[p].pub.source.node != r.pub.source.node || routes[p].pub.fd.seqno != r.pub.fd.seqno
           || (Abs(r.pub.fd.metric - routes[p].pub.fd.metric) > tun.largeChange && r.Finite()) {
          Announce(s.sources, sent, r.pub);
          Emit(s, inst, sent, r.pub);
          sent := sent[p := r.pub];
        }
        forall q
          ensures ComparedAt(s, table, todo, inst, sent, q)
        {
          assert ComparedAt(s, table, before, i, u, q);
        }
      }
    }

    /** Puts every route that was lost back as an infinite one, and retracts it. */
    method RetractLost(ghost s: Node, table0: map<Prefix, SelRoute>, ghost inst0: map<Prefix, SelRoute>, ghost sent0: map<Prefix, PubRoute>)
      returns (table: map<Prefix, SelRoute>, ghost inst: map<Prefix, SelRoute>, ghost sent: map<Prefix, PubRoute>)
      requires RoutesKeyed(s.routes) && Emitted(s, inst0, sent0)
      modifies this`updates, this`forward, this`exits
      ensures Emitted(s, inst, sent)
      ensures forall p :: RetractedAt(s, table0, inst0, sent0, {}, table, inst, sent, p)
    {
      table, inst, sent := table0, inst0, sent0;
      var todo := routes.Keys;
      while todo != {}
        invariant todo <= routes.Keys
        invariant Emitted(s, inst, sent)
        invariant forall p :: RetractedAt(s, table0, inst0, sent0, todo, table, inst, sent, p)
      {
        var p :| p in todo;
        assert RetractedAt(s, table0, inst0, sent0, todo, table, inst, sent, p);
        ghost var before, t, i, u := todo, table, inst, sent;
        todo := todo - {p};
        if p !in table || !table[p].Finite() {
          if routes[p].Finite() {
            var r := RetractedRoute(routes[p]);
            Emit(s, inst, sent, routes[p].Retracted().pub);
            Install(s, inst, sent[p := r.pub], p, r);
            table := table[p := r];
            inst, sent := inst[p := r], sent[p := r.pub];
          }
        }
        forall q
          ensures RetractedAt(s, table0, inst0, sent0, todo, table, inst, sent, q)
        {
          assert RetractedAt(s, table0, inst0, sent0, before, t, i, u, q);
        }
      }
    }

    /** Everything up to the new table, before it is compared with the old one. */
    method BuildTable(now: int) returns (table: map<Prefix, SelRoute>)
      requires View().Valid()
      modifies this`neighbours
      ensures neighbours == SmoothAll(old(View()))
      ensures table == NewTable(old(View()), now)
    {
      ghost var s := View();
      var start := StartTable(now);
      var best, current := CollectCandidates();
      table := SelectRoutes(start, best, current);
      TableIsNew(s, now, start, best, current, table);
    }

    /** Compares the new table with the old one and puts it in force. */
    method ApplyTable(ghost s: Node, table: map<Prefix, SelRoute>)
      returns (ghost inst0: map<Prefix, SelRoute>, ghost sent0: map<Prefix, PubRoute>,
               ghost inst: map<Prefix, SelRoute>, ghost sent: map<Prefix, PubRoute>)
      requires RoutesKeyed(s.routes) && RoutesKeyed(table) && Emitted(s, map[], map[]) && sources == s.sources
      modifies this`routes, this`sources, this`forward, this`exits, this`updates
      ensures forall p :: ComparedAt(s, table, {}, inst0, sent0, p)
      ensures AllAdvanced(s.sources, sent0, sources)
      ensures forall p :: RetractedAt(s, table, inst0, sent0, {}, routes, inst, sent, p)
      ensures AllInstalled(s, inst, forward, exits) && AllQueued(s.updates, Ids(s.neighbours), sent, updates)
    {
      inst0, sent0 := PublishChanges(s, table);
      var final;
      final, inst, sent := RetractLost(s, table, inst0, sent0);
      routes := final;
    }

    method ComputeRoutes(now: int)
      requires View().Valid()
      modifies this`routes, this`sources, this`neighbours, this`forward, this`exits, this`updates
      ensures View() == Compute(old(View()), now)
      ensures Computes(old(View()), View(), now)
    {
      ghost var s := View();
      var table := BuildTable(now);
      SmoothIds(s);
      NewTableKeyed(s, now);
      ghost var inst0, sent0, inst, sent := ApplyTable(s, table);
      ComputedMeans(s, now, inst0, sent0, sources, routes, inst, sent, forward, exits, updates);
      ComputeComputes(s, now);
    }

    // ---------- table pushes and requests ----------

    method SendUpdate(neigh: NodeId, adv: PubRoute)
      modifies this`updates
      ensures updates == old(updates)[Dest(neigh, adv.source.prefix) := adv]
    {
      updates := updates[Dest(neigh, adv.source.prefix) := adv];
    }

    method SendTo(only: Option<NodeId>, adv: PubRoute, ghost u0: map<Dest, PubRoute>, ghost to: set<NodeId>, ghost sent: map<Prefix, PubRoute>)
      requires to == if only.Some? then {only.value} else Ids(neighbours)
      requires AllQueued(u0, to, sent, updates)
      modifies this`updates
      ensures AllQueued(u0, to, sent[adv.source.prefix := adv], updates)
    {
      ghost var u := updates;
      if only.Some? {
        SendUpdate(only.value, adv);
      } else {
        BroadcastUpdate(adv);
      }
      QueuedOneMore(u0, to, sent, u, adv, updates);
    }

    /** Sends the whole table to one neighbour, or to all of them. */
    method PushTable(only: Option<NodeId>)
      requires View().Valid()
      modifies this`sources, this`updates
      ensures View() == Push(old(View()), if only.Some? then {only.value} else Ids(neighbours))
      ensures Pushes(old(View()), View(), if only.Some? then {only.value} else Ids(neighbours))
    {
      ghost var s, to := View(), if only.Some? then {only.value} else Ids(neighbours);
      ghost var finite: map<Prefix, PubRoute>, sent: map<Prefix, PubRoute> := map[], map[];
      var todo := routes.Keys;
      while todo != {}
        invariant todo <= routes.Keys
        invariant AllAdvanced(s.sources, finite, sources) && AllQueued(s.updates, to, sent, updates)
        invariant forall p :: PushedAt(routes, todo, finite, sent, p)
      {
        var p :| p in todo;
        assert PushedAt(routes, todo, finite, sent, p);
        ghost var before, f, u := todo, finite, sent;
        todo := todo - {p};
        var adv := routes[p].pub;
        if adv.fd.metric != INF {
          Announce(s.sources, finite, adv);
          finite := finite[p := adv];
        }
        SendTo(only, adv, s.updates, to, sent);
        sent := sent[p := adv];
        forall q
          ensures PushedAt(routes, todo, finite, sent, q)
        {
          assert PushedAt(routes, before, f, u, q);
        }
      }
      PushMeans(s, to, finite, sent, sources, updates);
      PushPushes(s, to);
    }

    /** The first neighbour that the request can be passed on to. */
    method FindRelay(from: NodeId, p: Prefix, feasible: bool) returns (i: nat)
      ensures i <= |neighbours|
      ensures i < |neighbours| ==> Relays(View(), neighbours[i], from, p, feasible)
      ensures forall j :: 0 <= j < i ==> !Relays(View(), neighbours[j], from, p, feasible)
    {
      i := 0;
      while i < |neighbours|
        invariant i <= |neighbours|
        invariant forall j :: 0 <= j < i ==> !Relays(View(), neighbours[j], from, p, feasible)
      {
        var nb := neighbours[i];
        if nb.reachable && p in nb.routes && nb.id != from && nb.routes[p].pub.fd.metric != INF {
          var ok := CheckFeasibility(nb.routes[p].pub);
          if ok || !feasible {
            return;
          }
        }
        i := i + 1;
      }
    }

    method AnswerRequest(from: NodeId, src: Source, seqno: U16)
      requires View().Valid()
      modifies this`sources, this`updates
      ensures View() == Replied(old(View()), from, src, seqno) && View().Valid()
    {
      if src.prefix in routes {
        var sel := routes[src.prefix];
        if sel.pub.fd.metric != INF
           && (sel.pub.source.node != src.node || SeqnoGe(sel.pub.fd.seqno, seqno)) {
          UpdateFeasibility(sel.pub);
          SendUpdate(from, sel.pub);
        }
      }
    }

    /** Somewhere to pass a request on to: over a feasible route if there is one. */
    method ChooseRelay(from: NodeId, p: Prefix) returns (relay: Option<NodeId>)
      ensures relay.Some? <==> CanRelay(View(), from, p, false)
      ensures relay.Some? ==> RelaysVia(View(), from, p, relay.value)
    {
      relay := None;
      var i := FindRelay(from, p, true);
      if i == |neighbours| {
        i := FindRelay(from, p, false);
      }
      if i < |neighbours| {
        assert Relays(View(), neighbours[i], from, p, CanRelay(View(), from, p, true));
        relay := Some(neighbours[i].id);
      }
    }

    /** Answers, satisfies or passes on a request for a newer sequence number. */
    method HandleSeqnoRequest(from: NodeId, src: Source, seqno: U16, hops: nat, now: int) returns (relay: Option<NodeId>)
      requires View().Valid()
      modifies this`selfSeqno, this`routes, this`sources, this`neighbours, this`forward, this`exits, this`updates
      ensures View() == SeqnoRequest(old(View()), from, src, seqno, now)
      ensures if old(AsksNewer(View(), src, seqno)) && src.node == id then Renews(old(View()), View(), src.prefix, seqno)
              else Answers(old(View()), View(), from, src, seqno)
      ensures Relayed(old(View()), View(), from, src, seqno, hops, relay)
    {
      ghost var s := View();
      relay := None;
      AnswerRequest(from, src, seqno);
      if src.prefix in routes {
        var sel := routes[src.prefix];
        if sel.pub.source.node == src.node && SeqnoGt(seqno, sel.pub.fd.seqno) {
          if sel.pub.source.node == id {
            selfSeqno := selfSeqno[src.prefix := seqno];
            ComputeRoutes(now);
            RequestRenews(s, from, src, seqno, now);
            return;
          } else if hops >= 2 {
            relay := ChooseRelay(from, src.prefix);
          }
        }
      }
      RepliedAnswers(s, from, src, seqno);
      RelayedIs(s, from, src, seqno, hops, relay);
    }

    method HandleAckRetract(neigh: NodeId, p: Prefix, now: int)
      requires View().Valid()
      modifies this`routes, this`sources, this`neighbours, this`forward, this`exits, this`updates
      ensures View() == AckRetract(old(View()), neigh, p, now)
      ensures CountsAck(old(View()), View(), neigh, p, now)
    {
      ghost var s := View();
      if p !in routes {
        return;
      }
      var r := routes[p];
      if r.pub.fd.metric != INF {
        return;
      }
      if neigh !in r.retractedBy {
        routes := routes[p := r.(retractedBy := r.retractedBy + [neigh])];
        ComputeRoutes(now);
        AckCounted(s, neigh, p, now);
      }
    }

    // ---------- updates and expiry ----------

    method FindNeighbour(neigh: NodeId) returns (i: nat)
      requires neigh in Ids(neighbours)
      ensures i < |neighbours| && neighbours[i].id == neigh
    {
      i := 0;
      while neighbours[i].id != neigh
        invariant i < |neighbours| && forall j :: 0 <= j < i ==> neighbours[j].id != neigh
        decreases |neighbours| - i
      {
        i := i + 1;
      }
    }

    /** Stores what neighbour `neigh` advertises. A retraction is always acknowledged, and `ask`
        is the sequence number to request from that neighbour, if any. */
    method HandleNeighbourUpdate(neigh: NodeId, adv: PubRoute, now: int) returns (ack: bool, ask: Option<U16>)
      requires neigh in Ids(neighbours)
      modifies this`neighbours
      ensures ack <==> !adv.Finite()
      ensures exists i :: 0 <= i < |old(neighbours)| && old(neighbours)[i].id == neigh
                          && View() == StoreUpdate(old(View()), i, adv, now)
                          && StoresUpdate(old(View()), View(), i, adv, now)
                          && ask == if Starves(old(View()), i, adv)
                                    then Some((old(sources)[adv.source].seqno + 1) % 0x1_0000) else None
    {
      var i := FindNeighbour(neigh);
      UpdateStored(View(), i, adv, now);
      StarvesIs(View(), i, adv);
      var n, p := neighbours[i], adv.source.prefix;
      ack, ask := adv.fd.metric == INF, None;
      var feasible := CheckFeasibility(adv);
      if p !in n.routes {
        if !feasible {
          return;
        }
        if adv.fd.metric == INF {
          return;
        }
        neighbours := neighbours[i := n.(routes := n.routes[p := NeighRoute(adv, now + tun.expiryTime, 0.0)])];
      } else {
        var selected := p in routes && routes[p].nh == neigh && routes[p].pub.source == adv.source;
        if !feasible {
          var metric := INF;
          if n.reachable {
            AddMetricLaws(adv.fd.metric, AddMetric(n.linkCost, AddMetric(tun.hopCost, tun.transitCost)), 0);
            AddMetricLaws(n.linkCost, tun.hopCost, tun.transitCost);
            metric := AddMetric(adv.fd.metric, AddMetric(n.linkCost, AddMetric(tun.hopCost, tun.transitCost)));
          }
          assert metric == Total(tun, n, adv);
          var better := p in routes && metric < routes[p].pub.fd.metric;
          if selected {
            ask := Some((sources[adv.source].seqno + 1) % 0x1_0000);
            return;
          } else if better {
            ask := Some((sources[adv.source].seqno + 1) % 0x1_0000);
          }
        }
        var nr := n.routes[p];
        nr := nr.(pub := adv);
        if adv.fd.metric != INF {
          nr := nr.(expireAt := now + tun.expiryTime);
        }
        neighbours := neighbours[i := n.(routes := n.routes[p := nr])];
      }
    }

    method ExpireStored(nb: Neighbour, now: int) returns (stored: map<Prefix, NeighRoute>)
      ensures stored == ExpireNeighbour(nb, tun, now).routes
    {
      stored := nb.routes;
      var todo := nb.routes.Keys;
      while todo != {}
        invariant todo <= nb.routes.Keys
        invariant forall p :: p in stored <==> p in nb.routes && (p in todo || now <= nb.routes[p].expireAt || nb.routes[p].pub.Finite())
        invariant forall p :: p in stored ==> stored[p] == if p in todo then nb.routes[p] else Aged(nb.routes[p], tun, now)
      {
        var p :| p in todo;
        todo := todo - {p};
        var r := nb.routes[p];
        if now > r.expireAt {
          if r.pub.fd.metric == INF {
            stored := stored - {p};
          } else {
            r := r.(pub := r.pub.(fd := r.pub.fd.(metric := INF)), expireAt := now + tun.expiryTime);
            stored := stored[p := r];
          }
        }
      }
    }

    method ExpireNeighbours(now: int)
      modifies this`neighbours
      ensures neighbours == Expire(old(View()), now).neighbours
    {
      ghost var s := View();
      for i := 0 to |neighbours|
        invariant |neighbours| == |s.neighbours|
        invariant forall j :: 0 <= j < |neighbours| ==>
          neighbours[j] == if j < i then ExpireNeighbour(s.neighbours[j], tun, now) else s.neighbours[j]
      {
        var stored := ExpireStored(neighbours[i], now);
        neighbours := neighbours[i := neighbours[i].(routes := stored)];
      }
    }

    method ExpireOwn(now: int)
      modifies this`advertised
      ensures advertised == Expire(old(View()), now).advertised
    {
      ghost var own := advertised;
      var todo := advertised.Keys;
      while todo != {}
        invariant todo <= own.Keys && todo <= advertised.Keys
        invariant forall p :: p in advertised <==> p in own && (p in todo || now <= own[p].expiry)
        invariant forall p :: p in advertised ==> advertised[p] == own[p]
      {
        var p :| p in todo;
        todo := todo - {p};
        if now > advertised[p].expiry {
          advertised := advertised - {p};
        }
      }
    }

    method IsReferenced(src: Source) returns (found: bool)
      ensures found <==> Referenced(View(), src)
    {
      found := false;
      for i := 0 to |neighbours|
        invariant !found
        invariant forall j :: 0 <= j < i ==>
          !(src.prefix in neighbours[j].routes && neighbours[j].routes[src.prefix].pub.source == src)
      {
        if src.prefix in neighbours[i].routes && neighbours[i].routes[src.prefix].pub.source == src {
          return true;
        }
      }
      if src.prefix in routes && routes[src.prefix].pub.source == src {
        found := true;
      }
      if src.prefix in advertised && advertised[src.prefix].node == src.node {
        found := true;
      }
    }

    method DropUnreferenced()
      modifies this`sources
      ensures View() == DropSources(old(View()))
    {
      ghost var t := View();
      var todo := sources.Keys;
      while todo != {}
        invariant todo <= sources.Keys
        invariant forall src :: src in sources <==> src in t.sources && (src in todo || Referenced(t, src))
        invariant forall src :: src in sources ==> sources[src] == t.sources[src]
      {
        var src :| src in todo;
        todo := todo - {src};
        var found := IsReferenced(src);
        assert Referenced(View(), src) <==> Referenced(t, src);
        if !found {
          sources := sources - {src};
        }
      }
      assert sources == DropSources(t).sources;
    }

    method RunGC(now: int)
      requires View().Valid()
      modifies this`routes, this`sources, this`neighbours, this`advertised, this`forward, this`exits, this`updates
      ensures View() == Collect(old(View()), now)
      ensures CollectsGarbage(old(View()), View(), now)
    {
      ghost var s := View();
      ExpireValid(View(), now);
      ExpireNeighbours(now);
      ExpireOwn(now);
      assert View() == Expire(old(View()), now);
      ComputeRoutes(now);
      DropUnreferenced();
      CollectCollects(s, now);
    }
  }
}
