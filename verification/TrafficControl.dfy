/** The traffic-control batcher: filters a batch, bounces, and stages packets for peers. */
module TrafficControl {
  import opened Basics
  import opened TrafficSpec

  type Queues = map<Peer, seq<Elem>>

  function Get(m: Queues, p: Peer): seq<Elem> { if p in m then m[p] else [] }

  function OfPriority(es: seq<Elem>, k: Priority): (r: seq<Elem>)
    ensures AllHavePeers(es) ==> AllHavePeers(r)
  {
    if es == [] then []
    else OfPriority(es[..|es| - 1], k) + (if es[|es| - 1].priority == k then [es[|es| - 1]] else [])
  }

  function Bound(es: seq<Elem>, p: Peer): seq<Elem> {
    if es == [] then [] else Bound(es[..|es| - 1], p) + (if es[|es| - 1].toPeer == Some(p) then [es[|es| - 1]] else [])
  }

  lemma {:induction false} BoundNext(es: seq<Elem>, i: nat, p: Peer)
    requires i < |es|
    ensures Bound(es[..i + 1], p) == Bound(es[..i], p) + (if es[i].toPeer == Some(p) then [es[i]] else [])
  {
    assert es[..i + 1][..i] == es[..i];
  }

  lemma {:induction false} SelectIsBound(es: seq<Elem>, p: Peer, k: Priority)
    ensures Select(es, p, k) == Bound(OfPriority(es, k), p)
  {
    if es != [] {
      var init, e := es[..|es| - 1], es[|es| - 1];
      SelectIsBound(init, p, k);
      if e.priority == k {
        var q := OfPriority(init, k) + [e];
        assert q[..|q| - 1] == OfPriority(init, k);
      } else {
        assert OfPriority(init, k) + [] == OfPriority(init, k);
      }
    }
  }

  ghost predicate Ranked(prio: seq<seq<Elem>>, fwd: seq<Elem>) {
    |prio| == 4 && forall k :: 0 <= k < 4 ==> prio[k] == OfPriority(fwd, k)
  }

  lemma {:induction false} RankedNext(prio: seq<seq<Elem>>, fwd: seq<Elem>, e: Elem)
    requires Ranked(prio, fwd)
    ensures Ranked(prio[e.priority := prio[e.priority] + [e]], fwd + [e])
  {
    assert (fwd + [e])[..|fwd|] == fwd;
    forall k | 0 <= k < 4
      ensures OfPriority(fwd + [e], k) == if k == e.priority then OfPriority(fwd, k) + [e] else OfPriority(fwd, k)
    {
      assert OfPriority(fwd, k) + [] == OfPriority(fwd, k);
    }
  }

  /** The packets looked at so far are where they belong. */
  ghost predicate Classified(fs: seq<Filter>, batch: seq<Elem>, freed0: seq<Elem>, freed: seq<Elem>, bounce: seq<Elem>, prio: seq<seq<Elem>>) {
    freed == freed0 + With(fs, batch, Drop) && bounce == With(fs, batch, Bounce) && Ranked(prio, With(fs, batch, Forward))
  }

  lemma {:induction false} Regroup(a: seq<Elem>, b: seq<Elem>, c: seq<Elem>)
    ensures a + (b + c) == (a + b) + c
  {
  }

  lemma {:induction false} WithAt(fs: seq<Filter>, batch: seq<Elem>, i: nat, act: Action)
    requires i < |batch|
    ensures var d := Final(fs, batch[i]);
            With(fs, batch[..i + 1], act) == if d.act == act then With(fs, batch[..i], act) + [d.elem] else With(fs, batch[..i], act)
  {
    assert batch[..i + 1][..i] == batch[..i];
  }

  /** The scratch state, empty between batches. */
  class TcState {
    var priority: seq<seq<Elem>>
    var bounce: seq<Elem>
    var forPeer: Queues

    ghost predicate Clean()
      reads this
    {
      |priority| == 4 && (forall k :: 0 <= k < 4 ==> priority[k] == []) && bounce == [] && forall p :: Get(forPeer, p) == []
    }

    constructor ()
      ensures Clean()
    {
      priority, bounce, forPeer := [[], [], [], []], [], map[];
    }
  }

  class Device {
    var filters: seq<Filter>
    var freed: seq<Elem>
    var tun: seq<seq<Elem>>
    var staged: Queues

    constructor ()
      ensures filters == [] && freed == [] && tun == [] && staged == map[]
    {
      filters, freed, tun, staged := [], [], [], map[];
    }

    method InstallFilter(f: Filter)
      modifies this`filters
      ensures filters == old(filters) + [f]
    {
      filters := filters + [f];
    }

    /** Asks the filters about one packet. */
    method RunFilters(e: Elem) returns (d: Decision)
      ensures d == Final(filters, e) && Ruled(filters, e, d)
    {
      FinalRules(filters, e);
      var act, elem := Pass, e;
      if !e.wellFormed {
        act := Drop;
      } else {
        var i := |filters|;
        assert filters[..i] == filters;
        while i > 0
          invariant i <= |filters| && act == Pass && Decide(filters, e) == Decide(filters[..i], elem)
        {
          i := i - 1;
          assert filters[..i + 1][..i] == filters[..i];
          var r := filters[i](elem);
          act, elem := r.act, r.elem;
          if r.err {
            act := Drop;
          }
          if act != Pass {
            break;
          }
        }
      }
      if act == Pass {
        act := Drop;
      }
      if act == Forward && elem.toPeer.None? {
        act := Drop;
      }
      d := Decision(act, elem);
    }

    /** Distributes a batch by outcome and priority. */
    method Classify(batch: seq<Elem>, tcs: TcState)
      requires tcs.Clean()
      modifies this`freed, tcs
      ensures freed == old(freed) + With(filters, batch, Drop) && tcs.bounce == With(filters, batch, Bounce)
      ensures Ranked(tcs.priority, With(filters, batch, Forward)) && tcs.forPeer == old(tcs.forPeer)
    {
      for i := 0 to |batch|
        invariant Classified(filters, batch[..i], old(freed), freed, tcs.bounce, tcs.priority) && tcs.forPeer == old(tcs.forPeer)
      {
        ClassifyNext(batch, i, tcs, old(freed));
      }
      assert batch[..|batch|] == batch;
    }

    method ClassifyNext(batch: seq<Elem>, i: nat, tcs: TcState, ghost freed0: seq<Elem>)
      requires i < |batch| && Classified(filters, batch[..i], freed0, freed, tcs.bounce, tcs.priority)
      modifies this`freed, tcs`bounce, tcs`priority
      ensures Classified(filters, batch[..i + 1], freed0, freed, tcs.bounce, tcs.priority)
    {
      var d := RunFilters(batch[i]);
      WithAt(filters, batch, i, Drop);
      WithAt(filters, batch, i, Bounce);
      WithAt(filters, batch, i, Forward);
      Regroup(freed0, With(filters, batch[..i], Drop), [d.elem]);
      Sort(d, tcs, With(filters, batch[..i], Forward));
    }

    /** Frees a packet or puts it into its queue. */
    method Sort(d: Decision, tcs: TcState, ghost fwd: seq<Elem>)
      requires d.act != Pass && Ranked(tcs.priority, fwd)
      modifies this`freed, tcs`bounce, tcs`priority
      ensures freed == if d.act == Drop then old(freed) + [d.elem] else old(freed)
      ensures tcs.bounce == if d.act == Bounce then old(tcs.bounce) + [d.elem] else old(tcs.bounce)
      ensures Ranked(tcs.priority, if d.act == Forward then fwd + [d.elem] else fwd)
    {
      match d.act {
        case Drop =>
          freed := freed + [d.elem];
        case Bounce =>
          tcs.bounce := tcs.bounce + [d.elem];
        case Forward =>
          RankedNext(tcs.priority, fwd, d.elem);
          tcs.priority := tcs.priority[d.elem.priority := tcs.priority[d.elem.priority] + [d.elem]];
      }
    }

    /** Writes the bounced packets to the TUN in one go and frees them. */
    method FlushBounced(tcs: TcState)
      modifies this`freed, this`tun, tcs`bounce
      ensures freed == old(freed) + old(tcs.bounce) && tcs.bounce == []
      ensures tun == if old(tcs.bounce) == [] then old(tun) else old(tun) + [old(tcs.bounce)]
    {
      if |tcs.bounce| > 0 {
        tun := tun + [tcs.bounce];
        freed := freed + tcs.bounce;
        tcs.bounce := [];
      }
    }

    /** Stages each peer's packets if it runs, and otherwise frees them. */
    method StageAll(tcs: TcState, running: set<Peer>, ghost fwd: seq<Elem>)
      requires forall p :: Get(tcs.forPeer, p) == ForPeer(fwd, p)
      modifies this`freed, this`staged, tcs`forPeer
      ensures forall p :: Get(tcs.forPeer, p) == []
      ensures StagedFor(fwd, old(staged), staged, running) && FreesStranded(fwd, running, old(freed), freed)
    {
      var todo := tcs.forPeer.Keys;
      ghost var stopped: set<Peer> := {};
      PickNone(fwd);
      while todo != {}
        invariant Staging(fwd, todo, running, stopped, tcs.forPeer, old(staged), staged, old(freed), freed)
        decreases |todo|
      {
        var p :| p in todo;
        stopped := StageOne(tcs, p, running, todo, stopped, fwd, old(staged), old(freed));
        todo := todo - {p};
      }
      StagingDone(fwd, running, stopped, tcs.forPeer, old(staged), staged, old(freed), freed);
    }

    method StageOne(tcs: TcState, p: Peer, running: set<Peer>, ghost todo: set<Peer>, ghost stopped: set<Peer>, ghost fwd: seq<Elem>,
                    ghost staged0: Queues, ghost freed0: seq<Elem>) returns (ghost stopped': set<Peer>)
      requires Staging(fwd, todo, running, stopped, tcs.forPeer, staged0, staged, freed0, freed) && p in todo
      modifies this`freed, this`staged, tcs`forPeer
      ensures Staging(fwd, todo - {p}, running, stopped', tcs.forPeer, staged0, staged, freed0, freed)
    {
      var elems := tcs.forPeer[p];
      assert elems == Get(tcs.forPeer, p);
      stopped' := stopped;
      EmptiedNext(fwd, todo, tcs.forPeer, p);
      if p in running {
        StagedNext(fwd, staged0, staged, running - todo, p);
        staged := staged[p := Get(staged, p) + elems];
        assert running - (todo - {p}) == (running - todo) + {p};
      } else {
        FreedNext(fwd, freed0, freed, stopped, p);
        freed := freed + elems;
        stopped' := stopped + {p};
        assert running - (todo - {p}) == running - todo;
      }
      tcs.forPeer := tcs.forPeer[p := []];
    }

    /** One batch. Each packet is freed, written to the TUN and freed, or staged; each peer that runs
        gets its packets by falling priority and in order of arrival; the scratch state is empty
        again. */
    method TcBatch(batch: seq<Elem>, tcs: TcState, running: set<Peer>)
      requires tcs.Clean()
      modifies this`freed, this`tun, this`staged, tcs
      ensures tcs.Clean()
      ensures var bounced := With(filters, batch, Bounce);
              Lists(filters, batch, Bounce, bounced) && tun == if bounced == [] then old(tun) else old(tun) + [bounced]
      ensures var fwd := With(filters, batch, Forward);
              Lists(filters, batch, Forward, fwd) && StagedFor(fwd, old(staged), staged, running)
      ensures Frees(filters, batch, running, old(freed), freed)
      ensures KeepBuffers(filters) ==> Conserves(batch, running, old(freed), freed, old(staged), staged)
    {
      ghost var fwd, freed0 := With(filters, batch, Forward), freed;
      Classify(batch, tcs);
      FlushBounced(tcs);
      ghost var freed1 := freed;
      Distribute(tcs, fwd);
      StageAll(tcs, running, fwd);
      FreedInTwo(filters, batch, running, freed0, freed1, freed);
      WithLists(filters, batch, Bounce);
      WithLists(filters, batch, Forward);
      if KeepBuffers(filters) {
        BatchConserves(filters, batch, running, old(freed), freed, old(staged), staged);
      }
    }

    /** Moves the packets to the lists of their peers, from the highest priority down. */
    method Distribute(tcs: TcState, ghost fwd: seq<Elem>)
      requires Ranked(tcs.priority, fwd) && AllHavePeers(fwd) && forall p :: Get(tcs.forPeer, p) == []
      modifies tcs`priority, tcs`forPeer
      ensures |tcs.priority| == 4 && (forall k :: 0 <= k < 4 ==> tcs.priority[k] == [])
      ensures forall p :: Get(tcs.forPeer, p) == ForPeer(fwd, p)
    {
      for k := 4 downto 0
        invariant Levels(tcs.priority, fwd, k) && QueuesAre(tcs.forPeer, fwd, k)
      {
        var q := Spread(tcs.forPeer, tcs.priority[k]);
        AboveNext(tcs.forPeer, q, fwd, k);
        tcs.forPeer := q;
        tcs.priority := tcs.priority[k := []];
      }
    }

    /** Appends packets to the lists of their peers. */
    static method Spread(queues: Queues, elems: seq<Elem>) returns (q: Queues)
      requires AllHavePeers(elems)
      ensures forall p :: Get(q, p) == Get(queues, p) + Bound(elems, p)
    {
      q := queues;
      for i := 0 to |elems|
        invariant SpreadUpTo(queues, elems[..i], q)
      {
        var to := elems[i].toPeer.value;
        SpreadNext(queues, elems, i, q);
        q := q[to := Get(q, to) + [elems[i]]];
      }
      assert elems[..|elems|] == elems;
    }
  }

  ghost predicate SpreadUpTo(queues: Queues, elems: seq<Elem>, q: Queues) {
    forall p :: Get(q, p) == Get(queues, p) + Bound(elems, p)
  }

  lemma {:induction false} SpreadNext(queues: Queues, elems: seq<Elem>, i: nat, q: Queues)
    requires i < |elems| && elems[i].toPeer.Some? && SpreadUpTo(queues, elems[..i], q)
    ensures SpreadUpTo(queues, elems[..i + 1], q[elems[i].toPeer.value := Get(q, elems[i].toPeer.value) + [elems[i]]])
  {
    var to := elems[i].toPeer.value;
    var q' := q[to := Get(q, to) + [elems[i]]];
    forall p: Peer
      ensures Get(q', p) == Get(queues, p) + Bound(elems[..i + 1], p)
    {
      BoundNext(elems, i, p);
      assert Get(q, p) == Get(queues, p) + Bound(elems[..i], p);
      if p == to {
        Regroup(Get(queues, p), Bound(elems[..i], p), [elems[i]]);
      } else {
        assert Bound(elems[..i], p) + [] == Bound(elems[..i], p);
      }
    }
  }

  /** A peer's packets of priority `k` and more. */
  ghost function Above(es: seq<Elem>, p: Peer, k: nat): seq<Elem> {
    if k >= 4 then [] else if k == 3 then Select(es, p, 3)
    else if k == 2 then Select(es, p, 3) + Select(es, p, 2)
    else if k == 1 then Select(es, p, 3) + Select(es, p, 2) + Select(es, p, 1)
    else ForPeer(es, p)
  }

  ghost predicate QueuesAre(q: Queues, fwd: seq<Elem>, k: nat) { forall p :: Get(q, p) == Above(fwd, p, k) }

  /** The levels below `k` still hold their packets and the others are empty. */
  ghost predicate Levels(prio: seq<seq<Elem>>, fwd: seq<Elem>, k: nat) {
    |prio| == 4 && (forall j :: 0 <= j < k && j < 4 ==> prio[j] == OfPriority(fwd, j)) && forall j :: k <= j < 4 ==> prio[j] == []
  }

  lemma {:induction false} AboveNext(q: Queues, q': Queues, fwd: seq<Elem>, k: Priority)
    requires QueuesAre(q, fwd, k + 1) && forall p :: Get(q', p) == Get(q, p) + Bound(OfPriority(fwd, k), p)
    ensures QueuesAre(q', fwd, k)
  {
    forall p: Peer
      ensures Get(q', p) == Above(fwd, p, k)
    {
      SelectIsBound(fwd, p, k);
      AboveStep(fwd, p, k);
      assert Get(q, p) == Above(fwd, p, k + 1);
    }
  }

  lemma {:induction false} AboveStep(fwd: seq<Elem>, p: Peer, k: Priority)
    ensures Above(fwd, p, k) == Above(fwd, p, k + 1) + Select(fwd, p, k)
  {
    if k == 3 {
      assert [] + Select(fwd, p, 3) == Select(fwd, p, 3);
    }
  }

  // ---------- between two peers of the last loop ----------

  ghost predicate Staging(fwd: seq<Elem>, todo: set<Peer>, running: set<Peer>, stopped: set<Peer>, forPeer: Queues,
                          staged0: Queues, staged: Queues, freed0: seq<Elem>, freed: seq<Elem>) {
    && todo <= forPeer.Keys && Emptied(fwd, todo, forPeer) && Visited(fwd, todo, running, stopped)
    && StagedFor(fwd, staged0, staged, running - todo) && FreedFor(fwd, freed0, freed, stopped)
  }

  lemma {:induction false} StagingDone(fwd: seq<Elem>, running: set<Peer>, stopped: set<Peer>, forPeer: Queues,
                                       staged0: Queues, staged: Queues, freed0: seq<Elem>, freed: seq<Elem>)
    requires Staging(fwd, {}, running, stopped, forPeer, staged0, staged, freed0, freed)
    ensures forall p :: Get(forPeer, p) == []
    ensures StagedFor(fwd, staged0, staged, running) && FreesStranded(fwd, running, freed0, freed)
  {
    AllStranded(fwd, running, stopped);
    assert running - {} == running;
  }

  lemma {:induction false} EmptiedNext(fwd: seq<Elem>, todo: set<Peer>, forPeer: Queues, p: Peer)
    requires Emptied(fwd, todo, forPeer) && p in todo
    ensures Emptied(fwd, todo - {p}, forPeer[p := []])
  {
  }

  ghost predicate Emptied(fwd: seq<Elem>, todo: set<Peer>, forPeer: Queues) {
    forall p :: Get(forPeer, p) == if p in todo then ForPeer(fwd, p) else []
  }

  ghost predicate Visited(fwd: seq<Elem>, todo: set<Peer>, running: set<Peer>, stopped: set<Peer>) {
    stopped !! running && stopped !! todo && forall p :: p !in todo && p !in running && p !in stopped ==> ForPeer(fwd, p) == []
  }

  ghost predicate StagedFor(fwd: seq<Elem>, staged0: Queues, staged: Queues, ps: set<Peer>) {
    forall p :: Get(staged, p) == Get(staged0, p) + (if p in ps then ForPeer(fwd, p) else [])
  }

  ghost predicate FreedFor(fwd: seq<Elem>, freed0: seq<Elem>, freed: seq<Elem>, ps: set<Peer>) {
    forall b :: Count(freed, b) == Count(freed0, b) + Count(Pick(fwd, ps), b)
  }

  lemma {:induction false} StagedNext(fwd: seq<Elem>, staged0: Queues, staged: Queues, ps: set<Peer>, p: Peer)
    requires StagedFor(fwd, staged0, staged, ps) && p !in ps
    ensures StagedFor(fwd, staged0, staged[p := Get(staged, p) + ForPeer(fwd, p)], ps + {p})
  {
    assert Get(staged0, p) + [] == Get(staged0, p);
  }

  lemma {:induction false} FreedNext(fwd: seq<Elem>, freed0: seq<Elem>, freed: seq<Elem>, ps: set<Peer>, p: Peer)
    requires FreedFor(fwd, freed0, freed, ps) && p !in ps
    ensures FreedFor(fwd, freed0, freed + ForPeer(fwd, p), ps + {p})
  {
    forall b
      ensures Count(freed + ForPeer(fwd, p), b) == Count(freed0, b) + Count(Pick(fwd, ps + {p}), b)
    {
      CountAppend(freed, ForPeer(fwd, p), b);
      PickNext(fwd, ps, p, b);
    }
  }

  lemma {:induction false} AllStranded(fwd: seq<Elem>, running: set<Peer>, stopped: set<Peer>)
    requires Visited(fwd, {}, running, stopped)
    ensures Stranded(fwd, running) == Pick(fwd, stopped)
  {
    forall i | 0 <= i < |fwd| && fwd[i].toPeer.Some?
      ensures fwd[i].toPeer.value in stopped <==> fwd[i].toPeer.value !in running
    {
      ForPeerHas(fwd, i, fwd[i].toPeer.value);
    }
    StrandedIsPick(fwd, running, stopped);
  }

  // ---------- conservation ----------

  /** Every buffer of a batch is either freed or handed to a running peer, as often as it came. */
  lemma {:induction false} BuffersConserved(fs: seq<Filter>, batch: seq<Elem>, running: set<Peer>, b: nat)
    requires KeepBuffers(fs)
    ensures Count(batch, b) ==
            Count(With(fs, batch, Drop), b) + Count(With(fs, batch, Bounce), b) + Count(Stranded(With(fs, batch, Forward), running), b)
            + Count(Pick(With(fs, batch, Forward), running), b)
  {
    EachDecidedOnce(fs, batch, b);
    RunningOrStranded(With(fs, batch, Forward), running, b);
  }

  /** How often a buffer is staged for some peers. */
  ghost function StagedCount(staged: Queues, ps: set<Peer>, b: nat): nat
    decreases |ps|
  {
    if ps == {} then 0
    else
      var p :| p in ps;
      Count(Get(staged, p), b) + StagedCount(staged, ps - {p}, b)
  }

  /** It does not matter which peer is counted first. */
  lemma {:induction false} StagedCountAt(staged: Queues, ps: set<Peer>, p: Peer, b: nat)
    requires p in ps
    ensures StagedCount(staged, ps, b) == Count(Get(staged, p), b) + StagedCount(staged, ps - {p}, b)
    decreases |ps|
  {
    var q :| q in ps && StagedCount(staged, ps, b) == Count(Get(staged, q), b) + StagedCount(staged, ps - {q}, b);
    if q != p {
      StagedCountAt(staged, ps - {q}, p, b);
      StagedCountAt(staged, ps - {p}, q, b);
      assert ps - {q} - {p} == ps - {p} - {q};
    }
  }

  /** What a batch stages for some running peers is what it has for them. */
  lemma {:induction false} StagedGrowth(fwd: seq<Elem>, staged0: Queues, staged: Queues, running: set<Peer>, ps: set<Peer>, b: nat)
    requires StagedFor(fwd, staged0, staged, running) && ps <= running
    ensures StagedCount(staged, ps, b) == StagedCount(staged0, ps, b) + Count(Pick(fwd, ps), b)
    decreases |ps|
  {
    if ps == {} {
      PickNone(fwd);
    } else {
      var p :| p in ps;
      var rest := ps - {p};
      StagedGrowth(fwd, staged0, staged, running, rest, b);
      StagedCountAt(staged, ps, p, b);
      StagedCountAt(staged0, ps, p, b);
      CountAppend(Get(staged0, p), ForPeer(fwd, p), b);
      PickNext(fwd, rest, p, b);
      assert rest + {p} == ps;
    }
  }

  /** Each buffer of a batch is freed or staged for a running peer exactly as often as it came. */
  ghost predicate Conserves(batch: seq<Elem>, running: set<Peer>, freed0: seq<Elem>, freed: seq<Elem>, staged0: Queues, staged: Queues) {
    forall b :: Count(freed, b) + StagedCount(staged, running, b) ==
                Count(freed0, b) + StagedCount(staged0, running, b) + Count(batch, b)
  }

  ghost predicate FreesStranded(fwd: seq<Elem>, running: set<Peer>, freed0: seq<Elem>, freed: seq<Elem>) {
    forall b :: Count(freed, b) == Count(freed0, b) + Count(Stranded(fwd, running), b)
  }

  /** A batch frees what is dropped, what is bounced, and what is for a peer that does not run. */
  ghost predicate Frees(fs: seq<Filter>, batch: seq<Elem>, running: set<Peer>, freed0: seq<Elem>, freed: seq<Elem>) {
    forall b :: Count(freed, b) == Count(freed0, b) + Count(With(fs, batch, Drop), b) + Count(With(fs, batch, Bounce), b)
                                   + Count(Stranded(With(fs, batch, Forward), running), b)
  }

  lemma {:induction false} FreedInTwo(fs: seq<Filter>, batch: seq<Elem>, running: set<Peer>, freed0: seq<Elem>, freed1: seq<Elem>, freed: seq<Elem>)
    requires freed1 == freed0 + With(fs, batch, Drop) + With(fs, batch, Bounce)
    requires FreesStranded(With(fs, batch, Forward), running, freed1, freed)
    ensures Frees(fs, batch, running, freed0, freed)
  {
    forall b
      ensures Count(freed1, b) == Count(freed0, b) + Count(With(fs, batch, Drop), b) + Count(With(fs, batch, Bounce), b)
    {
      CountAppend(freed0, With(fs, batch, Drop), b);
      CountAppend(freed0 + With(fs, batch, Drop), With(fs, batch, Bounce), b);
    }
  }

  lemma {:induction false} BatchConserves(fs: seq<Filter>, batch: seq<Elem>, running: set<Peer>, freed0: seq<Elem>, freed: seq<Elem>,
                                          staged0: Queues, staged: Queues)
    requires KeepBuffers(fs) && StagedFor(With(fs, batch, Forward), staged0, staged, running)
    requires Frees(fs, batch, running, freed0, freed)
    ensures Conserves(batch, running, freed0, freed, staged0, staged)
  {
    forall b
      ensures Count(freed, b) + StagedCount(staged, running, b) == Count(freed0, b) + StagedCount(staged0, running, b) + Count(batch, b)
    {
      BuffersConserved(fs, batch, running, b);
      StagedGrowth(With(fs, batch, Forward), staged0, staged, running, running, b);
    }
  }
}
