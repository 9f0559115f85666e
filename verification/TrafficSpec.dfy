/** What traffic control does with a batch of packets. */
module TrafficSpec {
  import opened Basics

  type Peer = nat
  type Priority = p: int | 0 <= p < 4

  datatype Action = Pass | Bounce | Forward | Drop

  /** A packet; its buffer is identified by a number. */
  datatype Elem = Elem(buffer: nat, wellFormed: bool, toPeer: Option<Peer>, priority: Priority, proto: nat)

  /** What a filter decides; it may have changed the packet. */
  datatype Ruling = Ruling(act: Action, err: bool, elem: Elem)

  type Filter = Elem -> Ruling

  /** Filters change packets but never exchange their buffers. */
  ghost predicate KeepBuffers(fs: seq<Filter>) {
    forall f, e {:trigger f(e)} :: f in fs ==> f(e).elem.buffer == e.buffer
  }

  datatype Decision = Decision(act: Action, elem: Elem)

  /** The last filter that was installed is asked first; the first answer that is not to pass
      counts. An error and a packet that nobody claims are dropped. */
  function Decide(fs: seq<Filter>, e: Elem): (d: Decision)
    ensures d.act != Pass
  {
    if fs == [] then Decision(Drop, e)
    else
      var r := fs[|fs| - 1](e);
      if r.err then Decision(Drop, r.elem)
      else if r.act == Pass then Decide(fs[..|fs| - 1], r.elem)
      else Decision(r.act, r.elem)
  }

  /** A packet that is to be forwarded needs a peer. */
  function Final(fs: seq<Filter>, e: Elem): (d: Decision)
    ensures d.act != Pass && (d.act == Forward ==> d.elem.toPeer.Some?)
  {
    if !e.wellFormed then Decision(Drop, e)
    else
      var d := Decide(fs, e);
      if d.act == Forward && d.elem.toPeer.None? then Decision(Drop, d.elem) else d
  }

  /** The packets of a batch with one outcome, in order of arrival. */
  function With(fs: seq<Filter>, batch: seq<Elem>, act: Action): (r: seq<Elem>)
    ensures act == Forward ==> AllHavePeers(r)
  {
    if batch == [] then []
    else
      var d := Final(fs, batch[|batch| - 1]);
      With(fs, batch[..|batch| - 1], act) + (if d.act == act then [d.elem] else [])
  }

  predicate AllHavePeers(es: seq<Elem>) { forall i :: 0 <= i < |es| ==> es[i].toPeer.Some? }

  /** How often a buffer occurs. */
  function Count(es: seq<Elem>, b: nat): nat {
    if es == [] then 0 else Count(es[..|es| - 1], b) + (if es[|es| - 1].buffer == b then 1 else 0)
  }

  lemma {:induction false} CountAppend(a: seq<Elem>, c: seq<Elem>, b: nat)
    ensures Count(a + c, b) == Count(a, b) + Count(c, b)
  {
    if c == [] {
      assert a + c == a;
    } else {
      var d := c[..|c| - 1];
      assert (a + c)[..|a + c| - 1] == a + d;
      CountAppend(a, d, b);
    }
  }

  lemma {:induction false} CountOne(a: seq<Elem>, e: Elem, b: nat)
    ensures Count(a + [e], b) == Count(a, b) + (if e.buffer == b then 1 else 0)
  {
    assert (a + [e])[..|a|] == a;
  }

  lemma {:induction false} DecideKeepsBuffer(fs: seq<Filter>, e: Elem)
    requires KeepBuffers(fs)
    ensures Decide(fs, e).elem.buffer == e.buffer
  {
    if fs != [] {
      var f := fs[|fs| - 1];
      assert f in fs && f(e).elem.buffer == e.buffer;
      DecideKeepsBuffer(fs[..|fs| - 1], f(e).elem);
    }
  }

  /** Every buffer of the batch belongs to exactly one of the three outcomes. */
  lemma {:induction false} EachDecidedOnce(fs: seq<Filter>, batch: seq<Elem>, b: nat)
    requires KeepBuffers(fs)
    ensures Count(batch, b) == Count(With(fs, batch, Drop), b) + Count(With(fs, batch, Bounce), b) + Count(With(fs, batch, Forward), b)
  {
    if batch != [] {
      EachDecidedOnce(fs, batch[..|batch| - 1], b);
      WithNext(fs, batch, Drop, b);
      WithNext(fs, batch, Bounce, b);
      WithNext(fs, batch, Forward, b);
    }
  }

  lemma {:induction false} WithNext(fs: seq<Filter>, batch: seq<Elem>, act: Action, b: nat)
    requires KeepBuffers(fs) && batch != []
    ensures var init, e := batch[..|batch| - 1], batch[|batch| - 1];
            Count(With(fs, batch, act), b) ==
            Count(With(fs, init, act), b) + (if Final(fs, e).act == act && e.buffer == b then 1 else 0)
  {
    var init, e := batch[..|batch| - 1], batch[|batch| - 1];
    DecideKeepsBuffer(fs, e);
    var d, w := Final(fs, e), With(fs, init, act);
    if d.act == act {
      assert With(fs, batch, act) == w + [d.elem];
      CountOne(w, d.elem, b);
    } else {
      assert With(fs, batch, act) == w + [] == w;
    }
  }

  // ---------- which filter decides ----------

  /** The filters above position `|fs| - |chain|`, asked from the last one down, pass without error,
      and each hands its packet to the next; `chain` is what each of them and the next one is asked. */
  ghost predicate PassedOn(fs: seq<Filter>, chain: seq<Elem>) {
    && 1 <= |chain| <= |fs| + 1
    && forall i :: 0 <= i < |chain| - 1 ==> fs[|fs| - 1 - i](chain[i]) == Ruling(Pass, false, chain[i + 1])
  }

  /** The next filter is the first that errs or does not pass, and its ruling counts; if there is
      none left, the packet is dropped. */
  ghost predicate Rules(fs: seq<Filter>, chain: seq<Elem>, d: Decision)
    requires 1 <= |chain| <= |fs| + 1
  {
    var m := |chain| - 1;
    if m == |fs| then d == Decision(Drop, chain[m])
    else
      var r := fs[|fs| - 1 - m](chain[m]);
      && (r.err || r.act != Pass) && d.elem == r.elem
      && d.act == if r.err || (r.act == Forward && r.elem.toPeer.None?) then Drop else r.act
  }

  /** What becomes of a packet. A malformed one is dropped unasked. */
  ghost predicate Ruled(fs: seq<Filter>, e: Elem, d: Decision) {
    if e.wellFormed then exists chain :: PassedOn(fs, chain) && chain[0] == e && Rules(fs, chain, d)
    else d == Decision(Drop, e)
  }

  lemma {:induction false} PassedOnMore(fs: seq<Filter>, e: Elem, chain: seq<Elem>)
    requires fs != [] && PassedOn(fs[..|fs| - 1], chain) && fs[|fs| - 1](e) == Ruling(Pass, false, chain[0])
    ensures PassedOn(fs, [e] + chain)
  {
    var init, all := fs[..|fs| - 1], [e] + chain;
    forall i | 0 <= i < |all| - 1
      ensures fs[|fs| - 1 - i](all[i]) == Ruling(Pass, false, all[i + 1])
    {
      if i > 0 {
        assert init[|init| - 1 - (i - 1)] == fs[|fs| - 1 - i];
      }
    }
  }

  lemma {:induction false} DecideRules(fs: seq<Filter>, e: Elem) returns (chain: seq<Elem>)
    ensures var d := Decide(fs, e);
            && PassedOn(fs, chain) && chain[0] == e
            && Rules(fs, chain, if d.act == Forward && d.elem.toPeer.None? then Decision(Drop, d.elem) else d)
  {
    chain := [e];
    if fs != [] {
      var r, init := fs[|fs| - 1](e), fs[..|fs| - 1];
      if !r.err && r.act == Pass {
        var rest := DecideRules(init, r.elem);
        chain := [e] + rest;
        PassedOnMore(fs, e, rest);
      }
    }
  }

  /** Every packet is treated in this way... */
  lemma {:induction false} FinalRules(fs: seq<Filter>, e: Elem)
    ensures Ruled(fs, e, Final(fs, e))
  {
    if e.wellFormed {
      var chain := DecideRules(fs, e);
    }
  }

  lemma {:induction false} ChainsAgree(fs: seq<Filter>, a: seq<Elem>, b: seq<Elem>, i: nat)
    requires PassedOn(fs, a) && PassedOn(fs, b) && a[0] == b[0] && i < |a| && i < |b|
    ensures a[i] == b[i]
  {
    if i > 0 {
      ChainsAgree(fs, a, b, i - 1);
      var f := fs[|fs| - 1 - (i - 1)];
      assert f(a[i - 1]).elem == a[i] && f(b[i - 1]).elem == b[i];
    }
  }

  lemma {:induction false} ChainsEnd(fs: seq<Filter>, a: seq<Elem>, b: seq<Elem>, d: Decision)
    requires PassedOn(fs, a) && PassedOn(fs, b) && a[0] == b[0] && Rules(fs, a, d)
    ensures |b| <= |a|
  {
    var m := |a| - 1;
    if |a| < |b| {
      assert fs[|fs| - 1 - m](b[m]) == Ruling(Pass, false, b[m + 1]);
      ChainsAgree(fs, a, b, m);
    }
  }

  /** ... and there is one way only. */
  lemma {:induction false} RuledOnce(fs: seq<Filter>, e: Elem, d: Decision)
    requires Ruled(fs, e, d)
    ensures d == Final(fs, e)
  {
    if e.wellFormed {
      var a :| PassedOn(fs, a) && a[0] == e && Rules(fs, a, d);
      var b := DecideRules(fs, e);
      ChainsEnd(fs, a, b, d);
      ChainsEnd(fs, b, a, Final(fs, e));
      ChainsAgree(fs, a, b, |a| - 1);
    }
  }

  /** `out` lists what becomes of the packets of the batch at these places. */
  ghost predicate ListsAt(fs: seq<Filter>, batch: seq<Elem>, act: Action, out: seq<Elem>, at: seq<nat>) {
    && |at| == |out|
    && (forall i :: 0 <= i < |at| ==> at[i] < |batch| && Ruled(fs, batch[at[i]], Decision(act, out[i])))
    && (forall i, j :: 0 <= i < j < |at| ==> at[i] < at[j])
  }

  /** `out` lists all packets of the batch with one outcome, in order of arrival. */
  ghost predicate Lists(fs: seq<Filter>, batch: seq<Elem>, act: Action, out: seq<Elem>) {
    exists at :: && ListsAt(fs, batch, act, out, at)
                 && forall a, x :: 0 <= a < |batch| && Ruled(fs, batch[a], Decision(act, x)) ==> a in at
  }

  lemma {:induction false} ListsMore(fs: seq<Filter>, init: seq<Elem>, e: Elem, act: Action, out: seq<Elem>, at: seq<nat>, x: Elem)
    requires ListsAt(fs, init, act, out, at)
    ensures ListsAt(fs, init + [e], act, out, at)
    ensures Ruled(fs, e, Decision(act, x)) ==> ListsAt(fs, init + [e], act, out + [x], at + [|init|])
  {
    var batch := init + [e];
    assert forall i :: 0 <= i < |at| ==> batch[at[i]] == init[at[i]];
  }

  lemma {:induction false} WithLists(fs: seq<Filter>, batch: seq<Elem>, act: Action)
    ensures Lists(fs, batch, act, With(fs, batch, act))
  {
    var at := WithListed(fs, batch, act);
  }

  lemma {:induction false} WithListed(fs: seq<Filter>, batch: seq<Elem>, act: Action) returns (at: seq<nat>)
    ensures ListsAt(fs, batch, act, With(fs, batch, act), at)
    ensures forall a, x :: 0 <= a < |batch| && Ruled(fs, batch[a], Decision(act, x)) ==> a in at
  {
    at := [];
    if batch != [] {
      var n := |batch| - 1;
      var init, e, d := batch[..n], batch[n], Final(fs, batch[n]);
      var before := WithListed(fs, init, act);
      FinalRules(fs, e);
      ListsMore(fs, init, e, act, With(fs, init, act), before, d.elem);
      assert init + [e] == batch;
      at := if d.act == act then before + [n] else before;
      forall a, x | 0 <= a < |batch| && Ruled(fs, batch[a], Decision(act, x))
        ensures a in at
      {
        RuledOnce(fs, batch[a], Decision(act, x));
        assert a < n ==> batch[a] == init[a];
      }
    }
  }

  // ---------- order of the packets for one peer ----------

  /** Of a list, the packets for a peer with one priority. */
  function Select(es: seq<Elem>, p: Peer, k: Priority): (r: seq<Elem>) {
    if es == [] then []
    else
      var e := es[|es| - 1];
      Select(es[..|es| - 1], p, k) + (if e.toPeer == Some(p) && e.priority == k then [e] else [])
  }

  /** Highest priority first, and in order of arrival within a priority. */
  function ForPeer(es: seq<Elem>, p: Peer): seq<Elem> { Select(es, p, 3) + Select(es, p, 2) + Select(es, p, 1) + Select(es, p, 0) }

  /** The packets for some peers. */
  function Pick(es: seq<Elem>, ps: set<Peer>): seq<Elem> {
    if es == [] then []
    else
      var e := es[|es| - 1];
      Pick(es[..|es| - 1], ps) + (if e.toPeer.Some? && e.toPeer.value in ps then [e] else [])
  }

  lemma {:induction false} ForPeerCount(es: seq<Elem>, p: Peer, b: nat)
    ensures Count(ForPeer(es, p), b) == Count(Select(es, p, 3), b) + Count(Select(es, p, 2), b) + Count(Select(es, p, 1), b) + Count(Select(es, p, 0), b)
  {
    CountAppend(Select(es, p, 3), Select(es, p, 2), b);
    CountAppend(Select(es, p, 3) + Select(es, p, 2), Select(es, p, 1), b);
    CountAppend(Select(es, p, 3) + Select(es, p, 2) + Select(es, p, 1), Select(es, p, 0), b);
  }

  lemma {:induction false} SelectNext(es: seq<Elem>, p: Peer, k: Priority, b: nat)
    requires es != []
    ensures var e := es[|es| - 1];
            Count(Select(es, p, k), b) ==
            Count(Select(es[..|es| - 1], p, k), b) + (if e.toPeer == Some(p) && e.priority == k && e.buffer == b then 1 else 0)
  {
    var e, s := es[|es| - 1], Select(es[..|es| - 1], p, k);
    CountOne(s, e, b);
    assert s + [] == s;
  }

  lemma {:induction false} PickStep(es: seq<Elem>, ps: set<Peer>, b: nat)
    requires es != []
    ensures var e := es[|es| - 1];
            Count(Pick(es, ps), b) ==
            Count(Pick(es[..|es| - 1], ps), b) + (if e.toPeer.Some? && e.toPeer.value in ps && e.buffer == b then 1 else 0)
  {
    var e, s := es[|es| - 1], Pick(es[..|es| - 1], ps);
    CountOne(s, e, b);
    assert s + [] == s;
  }

  /** The packets for a peer, in whatever order, are all of them. */
  lemma {:induction false} PickNext(es: seq<Elem>, ps: set<Peer>, p: Peer, b: nat)
    requires p !in ps
    ensures Count(Pick(es, ps + {p}), b) == Count(Pick(es, ps), b) + Count(ForPeer(es, p), b)
  {
    ForPeerCount(es, p, b);
    if es != [] {
      var init := es[..|es| - 1];
      PickNext(init, ps, p, b);
      ForPeerCount(init, p, b);
      SelectNext(es, p, 0, b);
      SelectNext(es, p, 1, b);
      SelectNext(es, p, 2, b);
      SelectNext(es, p, 3, b);
      PickStep(es, ps, b);
      PickStep(es, ps + {p}, b);
    }
  }

  lemma {:induction false} PickNone(es: seq<Elem>)
    ensures Pick(es, {}) == []
  {
    if es != [] {
      PickNone(es[..|es| - 1]);
    }
  }

  /** The packets whose peer does not run. */
  function Stranded(es: seq<Elem>, running: set<Peer>): seq<Elem> {
    if es == [] then []
    else
      var e := es[|es| - 1];
      Stranded(es[..|es| - 1], running) + (if e.toPeer.Some? && e.toPeer.value !in running then [e] else [])
  }

  lemma {:induction false} StrandedIsPick(es: seq<Elem>, running: set<Peer>, ps: set<Peer>)
    requires forall i :: 0 <= i < |es| && es[i].toPeer.Some? ==> (es[i].toPeer.value in ps <==> es[i].toPeer.value !in running)
    ensures Stranded(es, running) == Pick(es, ps)
  {
    if es != [] {
      StrandedIsPick(es[..|es| - 1], running, ps);
    }
  }

  /** Every packet has a peer that runs or is stranded. */
  lemma {:induction false} RunningOrStranded(es: seq<Elem>, running: set<Peer>, b: nat)
    requires AllHavePeers(es)
    ensures Count(es, b) == Count(Pick(es, running), b) + Count(Stranded(es, running), b)
  {
    if es != [] {
      var init, e := es[..|es| - 1], es[|es| - 1];
      RunningOrStranded(init, running, b);
      PickStep(es, running, b);
      CountOne(Stranded(init, running), e, b);
      assert Stranded(init, running) + [] == Stranded(init, running);
    }
  }

  lemma {:induction false} SelectHas(es: seq<Elem>, i: nat, p: Peer)
    requires i < |es| && es[i].toPeer == Some(p)
    ensures Select(es, p, es[i].priority) != []
  {
    if i < |es| - 1 {
      SelectHas(es[..|es| - 1], i, p);
    }
  }

  lemma {:induction false} ForPeerHas(es: seq<Elem>, i: nat, p: Peer)
    requires i < |es| && es[i].toPeer == Some(p)
    ensures ForPeer(es, p) != []
  {
    SelectHas(es, i, p);
  }

  lemma {:induction false} SelectOnly(es: seq<Elem>, p: Peer, k: Priority)
    ensures forall i :: 0 <= i < |Select(es, p, k)| ==> Select(es, p, k)[i].toPeer == Some(p) && Select(es, p, k)[i].priority == k
  {
    if es != [] {
      SelectOnly(es[..|es| - 1], p, k);
    }
  }

  /** Where the packets for a peer with one priority stand in the list. */
  function Places(es: seq<Elem>, p: Peer, k: Priority): seq<nat> {
    if es == [] then []
    else
      var e := es[|es| - 1];
      Places(es[..|es| - 1], p, k) + (if e.toPeer == Some(p) && e.priority == k then [|es| - 1] else [])
  }

  lemma {:induction false} PlacesRight(es: seq<Elem>, p: Peer, k: Priority)
    ensures |Places(es, p, k)| == |Select(es, p, k)|
    ensures forall i :: 0 <= i < |Places(es, p, k)| ==> Places(es, p, k)[i] < |es| && Select(es, p, k)[i] == es[Places(es, p, k)[i]]
    ensures forall i, j :: 0 <= i < j < |Places(es, p, k)| ==> Places(es, p, k)[i] < Places(es, p, k)[j]
    ensures forall a :: 0 <= a < |es| && es[a].toPeer == Some(p) && es[a].priority == k ==> a in Places(es, p, k)
  {
    if es != [] {
      PlacesRight(es[..|es| - 1], p, k);
    }
  }

  /** Where what a peer gets stands in the list. */
  function Arrivals(es: seq<Elem>, p: Peer): seq<nat> { Places(es, p, 3) + Places(es, p, 2) + Places(es, p, 1) + Places(es, p, 0) }

  /** A peer gets its packets and no others, by falling priority and in order of arrival within a
      priority: a stable sort. */
  lemma {:induction false} ForPeerOrdered(es: seq<Elem>, p: Peer)
    ensures var got, at := ForPeer(es, p), Arrivals(es, p);
            && |at| == |got| && (forall i :: 0 <= i < |at| ==> at[i] < |es| && got[i] == es[at[i]] && got[i].toPeer == Some(p))
            && (forall i, j :: 0 <= i < j < |got| ==>
                  got[i].priority > got[j].priority || (got[i].priority == got[j].priority && at[i] < at[j]))
            && (forall a :: 0 <= a < |es| && es[a].toPeer == Some(p) ==> a in at)
  {
    PlacesCount(es, p);
    var got, at := ForPeer(es, p), Arrivals(es, p);
    forall i | 0 <= i < |got|
      ensures at[i] < |es| && got[i] == es[at[i]] && got[i].toPeer == Some(p)
    {
      var k, o := PlaceOf(es, p, i);
    }
    forall i, j | 0 <= i < j < |got|
      ensures got[i].priority > got[j].priority || (got[i].priority == got[j].priority && at[i] < at[j])
    {
      var k, o := PlaceOf(es, p, i);
      var m, u := PlaceOf(es, p, j);
      PlacesRight(es, p, k);
      assert k == m ==> o < u;
    }
    forall a | 0 <= a < |es| && es[a].toPeer == Some(p)
      ensures a in at
    {
      PlacesRight(es, p, es[a].priority);
    }
  }

  /** An index into four sequences put together. */
  lemma {:induction false} FourParts<T>(a: seq<T>, b: seq<T>, c: seq<T>, d: seq<T>, i: nat)
    requires i < |a| + |b| + |c| + |d|
    ensures |a + b + c + d| == |a| + |b| + |c| + |d|
    ensures (a + b + c + d)[i] == if i < |a| then a[i] else if i < |a| + |b| then b[i - |a|]
                                  else if i < |a| + |b| + |c| then c[i - |a| - |b|] else d[i - |a| - |b| - |c|]
  {
  }

  function Higher(es: seq<Elem>, p: Peer, k: Priority): nat {
    if k == 3 then 0 else if k == 2 then |Select(es, p, 3)|
    else if k == 1 then |Select(es, p, 3)| + |Select(es, p, 2)| else |Select(es, p, 3)| + |Select(es, p, 2)| + |Select(es, p, 1)|
  }

  lemma {:induction false} PlacesCount(es: seq<Elem>, p: Peer)
    ensures forall k: Priority :: |Places(es, p, k)| == |Select(es, p, k)|
  {
    forall k: Priority
      ensures |Places(es, p, k)| == |Select(es, p, k)|
    {
      PlacesRight(es, p, k);
    }
  }

  /** Which priority result `i` of a peer has, and its number within it. */
  lemma {:induction false} PlaceOf(es: seq<Elem>, p: Peer, i: nat) returns (k: Priority, o: nat)
    requires i < |ForPeer(es, p)|
    ensures i == Higher(es, p, k) + o && o < |Select(es, p, k)| && |Arrivals(es, p)| == |ForPeer(es, p)|
    ensures |Places(es, p, k)| == |Select(es, p, k)| && ForPeer(es, p)[i] == Select(es, p, k)[o] && Arrivals(es, p)[i] == Places(es, p, k)[o]
    ensures Places(es, p, k)[o] < |es| && Select(es, p, k)[o] == es[Places(es, p, k)[o]]
    ensures ForPeer(es, p)[i].toPeer == Some(p) && ForPeer(es, p)[i].priority == k
  {
    PlacesCount(es, p);
    var n3, n2, n1 := |Select(es, p, 3)|, |Select(es, p, 2)|, |Select(es, p, 1)|;
    if i < n3 {
      k, o := 3, i;
    } else if i < n3 + n2 {
      k, o := 2, i - n3;
    } else if i < n3 + n2 + n1 {
      k, o := 1, i - n3 - n2;
    } else {
      k, o := 0, i - n3 - n2 - n1;
    }
    FourParts(Select(es, p, 3), Select(es, p, 2), Select(es, p, 1), Select(es, p, 0), i);
    FourParts(Places(es, p, 3), Places(es, p, 2), Places(es, p, 1), Places(es, p, 0), i);
    PlacesRight(es, p, k);
    SelectOnly(es, p, k);
  }
}
