/** The table of fake-TCP flows: which flow an endpoint belongs to, how stale flows expire, and how
    many flows there may be. */
module FakeTcpTable {
  import opened Basics
  import opened FakeTcpFlow

  const STATE_LIMIT := 65536

  /** The local address of an endpoint: none, a wildcard, or an address. */
  datatype Local = Invalid | Any4 | Any6 | Addr4(addr: nat) | Addr6(addr: nat) {
    predicate Concrete() { Addr4? || Addr6? }
    predicate Unspecified() { Any4? || Any6? }
  }

  datatype Key = Key(remote: nat, local: Local, ifidx: int)

  datatype Tracked = Tracked(flow: Flow, lastSeen: int)

  type States = map<Key, Tracked>

  // ---------- expiry ----------

  predicate Stale(t: Tracked, now: int, after: int) { now - t.lastSeen >= after }

  /** Cleanup does something: it is switched on, and it is due or forced. */
  predicate Cleans(last: Option<int>, now: int, force: bool, after: int) {
    after > 0 && (force || last.None? || now - last.value >= after)
  }

  function Fresh(states: States, now: int, after: int): States {
    map k | k in states && !Stale(states[k], now, after) :: states[k]
  }

  function Swept(states: States, last: Option<int>, now: int, force: bool, after: int): States {
    if Cleans(last, now, force, after) then Fresh(states, now, after) else states
  }

  lemma {:induction false} SweptSmaller(states: States, last: Option<int>, now: int, force: bool, after: int)
    ensures |Swept(states, last, now, force, after)| <= |states|
  {
    var t := Swept(states, last, now, force, after);
    assert t.Keys <= states.Keys;
    Smaller(t.Keys, states.Keys);
    assert |t| == |t.Keys| && |states| == |states.Keys|;
  }

  lemma {:induction false} Smaller(a: set<Key>, b: set<Key>)
    requires a <= b
    ensures |a| <= |b|
  {
    assert b == a + (b - a);
  }

  // ---------- which flow ----------

  function WildcardOf(k: Key): Key { k.(local := if k.local.Addr4? then Any4 else Any6) }

  /** The key of the flow that an endpoint belongs to: its own, or that of the flow opened without a
      source address. */
  function KeyOf(states: States, key: Key): Key {
    if key !in states && key.local.Concrete() && WildcardOf(key) in states then WildcardOf(key) else key
  }

  function FlowOf(states: States, k: Key): Option<Flow> { if k in states then Some(states[k].flow) else None }

  /** A flow that the other side opened, and that an endpoint without a source address may use. */
  predicate Candidate(states: States, key: Key, k: Key) {
    k in states && k.remote == key.remote && k.ifidx == key.ifidx && (k.local.Addr4? || k.local.Addr6?) && states[k].flow.passive
  }

  /** The flow that a handshake of an endpoint is for: its own, the candidate seen last, or a new one. */
  ghost predicate Chosen(states: States, key: Key, used: Key) {
    if key in states || !(key.local.Any4? || key.local.Any6?) || (forall k :: !Candidate(states, key, k)) then used == key
    else Candidate(states, key, used) && forall k :: Candidate(states, key, k) ==> states[k].lastSeen <= states[used].lastSeen
  }

  // ---------- what a carrier does to the table ----------

  /** The carrier would open a flow. */
  predicate Opens(f: Option<Flow>, p: Pkt) { f.None? && p.syn && !p.ack && !p.rst && !p.fin }

  /** The carrier shows that the flow is alive. */
  predicate Touches(f: Flow, p: Pkt) {
    if p.syn && !p.ack then f.state != Established
    else if p.syn then p.ackNo == f.sendNext && (f.state == Established ==> Wrap(p.seqNo + 1) == f.recvNext)
    else Completed(f, p).state == Established
  }

  /** The table with the flow `f` under `k`. */
  function Placed(states: States, k: Key, f: Option<Flow>, touched: bool, now: int): States {
    if f.None? then states - {k}
    else states[k := Tracked(f.value, if touched || k !in states then now else states[k].lastSeen)]
  }

  function Roomy(states: States, now: int, after: int): States {
    if |states| >= STATE_LIMIT then Swept(states, None, now, true, after) else states
  }

  datatype Result = Result(states: States, response: Option<Pkt>, deliver: bool)

  /** Handling a carrier in a table that was cleaned. */
  function Handles(states: States, key: Key, p: Pkt, isn: U32, now: int, after: int): Result {
    var k := KeyOf(states, key);
    var f := FlowOf(states, k);
    var h := Handle(f, p, isn);
    if Opens(f, p) then
      var t := Roomy(states, now, after);
      if |t| >= STATE_LIMIT then Result(t, None, false) else Result(t[k := Tracked(h.flow.value, now)], h.response, h.deliver)
    else Result(Placed(states, k, h.flow, f.Some? && Touches(f.value, p), now), h.response, h.deliver)
  }

  lemma {:induction false} RoomyBounds(states: States, now: int, after: int)
    ensures |Roomy(states, now, after)| <= |states|
    ensures forall k :: k in Roomy(states, now, after) ==> k in states && Roomy(states, now, after)[k] == states[k]
    ensures forall k :: k in states ==>
              (k !in Roomy(states, now, after) <==> |states| >= STATE_LIMIT && after > 0 && now - states[k].lastSeen >= after)
  {
    if |states| >= STATE_LIMIT {
      SweptSmaller(states, None, now, true, after);
    }
  }

  lemma {:induction false} PlacedBounds(states: States, k: Key, f: Option<Flow>, touched: bool, now: int)
    ensures |Placed(states, k, f, touched, now)| <= if f.None? || k in states then |states| else |states| + 1
  {
    var t := Placed(states, k, f, touched, now);
    if f.None? {
      Smaller(t.Keys, states.Keys);
      assert |t| == |t.Keys| && |states| == |states.Keys|;
    } else {
      assert t.Keys == states.Keys + {k};
      assert |t| == |t.Keys| && |states| == |states.Keys|;
    }
  }

  /** The number of flows never exceeds the limit. */
  lemma {:induction false} HandlesBounded(states: States, key: Key, p: Pkt, isn: U32, now: int, after: int)
    requires |states| <= STATE_LIMIT
    ensures |Handles(states, key, p, isn, now, after).states| <= STATE_LIMIT
  {
    var k := KeyOf(states, key);
    var f := FlowOf(states, k);
    var h := Handle(f, p, isn);
    if Opens(f, p) {
      var t := Roomy(states, now, after);
      RoomyBounds(states, now, after);
      if |t| < STATE_LIMIT {
        PlacedBounds(t, k, h.flow, true, now);
      }
    } else {
      PlacedBounds(states, k, h.flow, f.Some? && Touches(f.value, p), now);
    }
  }

  /** A carrier reaches only the flow of its endpoint; other flows stay as they are, unless they are
      stale and have to make room. */
  lemma {:induction false} OthersStay(states: States, key: Key, p: Pkt, isn: U32, now: int, after: int, k: Key)
    requires k != KeyOf(states, key)
    ensures var t := Handles(states, key, p, isn, now, after).states;
            && (k in t ==> k in states && t[k] == states[k])
            && (k in states && !Stale(states[k], now, after) ==> k in t)
  {
    RoomyBounds(states, now, after);
  }

  /** The flow of the endpoint goes on as one flow by itself would, unless it had to be opened in a
      table full of live flows: then there is no flow, no answer and no data. */
  lemma {:induction false} OwnFlow(states: States, key: Key, p: Pkt, isn: U32, now: int, after: int)
    ensures var k, r := KeyOf(states, key), Handles(states, key, p, isn, now, after);
            var h := Handle(FlowOf(states, k), p, isn);
            if Opens(FlowOf(states, k), p) && |Roomy(states, now, after)| >= STATE_LIMIT
            then FlowOf(r.states, k) == None && r.response == None && !r.deliver
            else FlowOf(r.states, k) == h.flow && r.response == h.response && r.deliver == h.deliver
  {
    RoomyBounds(states, now, after);
  }

  /** Other flows stay, but for stale ones that make room in a full table. */
  ghost predicate OtherKept(t: States, t': States, now: int, after: int, j: Key) {
    && (j in t' ==> j in t && t'[j] == t[j])
    && (j in t && j !in t' ==> |t| >= STATE_LIMIT && now - t[j].lastSeen >= after)
  }

  /** What a carrier for the flow under `k` does. It is refused if it would open a flow too many. Else
      the flow goes on by its own rules, and its time is that of the last packet that it answered or
      that found or made it established. */
  ghost predicate Serves(t: States, t': States, k: Key, p: Pkt, isn: U32, now: int, after: int, response: Option<Pkt>, deliver: bool) {
    var f0, f := FlowOf(t, k), FlowOf(t', k);
    && (forall j :: j != k ==> OtherKept(t, t', now, after, j))
    && if f0.None? && Starts(f0, p) && |Roomy(t, now, after)| >= STATE_LIMIT then f.None? && response.None? && !deliver
       else
         && Obeys(f0, p, isn, f, response, deliver)
         && (f.Some? ==>
               t'[k].lastSeen == if f0.None? || response.Some? || (!p.syn && f.value.state == Established) then now else t[k].lastSeen)
  }

  lemma {:induction false} HandlesServes(states: States, key: Key, p: Pkt, isn: U32, now: int, after: int)
    ensures var r := Handles(states, key, p, isn, now, after);
            Serves(states, r.states, KeyOf(states, key), p, isn, now, after, r.response, r.deliver)
  {
    var r, k := Handles(states, key, p, isn, now, after), KeyOf(states, key);
    OwnFlow(states, key, p, isn, now, after);
    HandleObeys(FlowOf(states, k), p, isn);
    forall j | j != k
      ensures OtherKept(states, r.states, now, after, j)
    {
      OthersStay(states, key, p, isn, now, after, j);
    }
    if k in states && !Resets(p) {
      TouchedWhen(states[k].flow, p, isn);
    }
  }

  lemma {:induction false} TouchedWhen(f: Flow, p: Pkt, isn: U32)
    requires !Resets(p)
    ensures var h := Handle(Some(f), p, isn);
            && h.flow.Some?
            && (Touches(f, p) <==> h.response.Some? || (!p.syn && h.flow.value.state == Established))
  {
  }

  // ---------- what a handshake does to the table ----------

  /** The endpoint is usable, has to wait while `packet` is sent, or cannot be opened. */
  datatype Prepared = Ready | Waiting(packet: Pkt) | Full

  datatype Opening = Opening(states: States, outcome: Prepared)

  /** Preparing the flow under `k` in a table that was cleaned. */
  function Prepares(states: States, k: Key, isn: U32, now: int, after: int): Opening {
    var r := Prepare(FlowOf(states, k), isn);
    if r.1.None? then Opening(states, Ready)
    else if k in states then Opening(states[k := Tracked(r.0, now)], Waiting(r.1.value))
    else
      var t := Roomy(states, now, after);
      if |t| >= STATE_LIMIT then Opening(t, Full) else Opening(t[k := Tracked(r.0, now)], Waiting(r.1.value))
  }

  lemma {:induction false} PreparesBounded(states: States, k: Key, isn: U32, now: int, after: int)
    requires |states| <= STATE_LIMIT
    ensures |Prepares(states, k, isn, now, after).states| <= STATE_LIMIT
  {
    var r := Prepare(FlowOf(states, k), isn);
    RoomyBounds(states, now, after);
    if k in states {
      PlacedBounds(states, k, Some(r.0), true, now);
    } else if |Roomy(states, now, after)| < STATE_LIMIT {
      PlacedBounds(Roomy(states, now, after), k, Some(r.0), true, now);
    }
  }

  /** The handshake goes on as that of one flow by itself; it is refused only in a table full of
      flows that are not stale. */
  lemma {:induction false} PreparesOwn(states: States, k: Key, isn: U32, now: int, after: int)
    ensures var o, r := Prepares(states, k, isn, now, after), Prepare(FlowOf(states, k), isn);
            if k !in states && |Roomy(states, now, after)| >= STATE_LIMIT then o.outcome == Full && k !in o.states
            else FlowOf(o.states, k) == Some(r.0) && o.outcome == (if r.1.Some? then Waiting(r.1.value) else Ready)
  {
    RoomyBounds(states, now, after);
  }

  lemma {:induction false} SentBounded(states: States, k: Key, f: Flow)
    requires k in states
    ensures |states[k := states[k].(flow := f)]| == |states|
  {
    assert states[k := states[k].(flow := f)].Keys == states.Keys;
  }

  class FlowTable {
    const staleAfter: int
    var states: States
    var lastClean: Option<int>

    ghost predicate Valid()
      reads this
    {
      |states| <= STATE_LIMIT
    }

    constructor (after: int)
      ensures Valid() && states == map[] && lastClean == None && staleAfter == after
    {
      staleAfter, states, lastClean := after, map[], None;
    }

    /** Drops stale flows, if it is time to look. */
    method Sweep(now: int, force: bool)
      modifies this
      ensures states == Swept(old(states), old(lastClean), now, force, staleAfter)
      ensures lastClean == if Cleans(old(lastClean), now, force, staleAfter) then Some(now) else old(lastClean)
      ensures forall k :: k in states ==> k in old(states) && states[k] == old(states)[k]
      ensures forall k :: k in old(states) ==>
                (k !in states <==> && staleAfter > 0 && now - old(states)[k].lastSeen >= staleAfter
                                   && (force || old(lastClean).None? || now - old(lastClean).value >= staleAfter))
      ensures old(Valid()) ==> Valid()
    {
      SweptSmaller(states, lastClean, now, force, staleAfter);
      if staleAfter <= 0 {
        return;
      }
      if !force && lastClean.Some? && now - lastClean.value < staleAfter {
        return;
      }
      var todo := states.Keys;
      while todo != {}
        invariant todo <= states.Keys <= old(states).Keys && (forall k :: k in states ==> states[k] == old(states)[k])
        invariant forall k :: k in old(states) ==> (k in states <==> k in todo || !Stale(old(states)[k], now, staleAfter))
        decreases |todo|
      {
        var k :| k in todo;
        todo := todo - {k};
        if now - states[k].lastSeen >= staleAfter {
          states := states - {k};
        }
      }
      assert states == Fresh(old(states), now, staleAfter);
      lastClean := Some(now);
    }

    method FindFlow(key: Key) returns (k: Key)
      ensures k == KeyOf(states, key)
      ensures var any := Key(key.remote, if key.local.Addr4? then Any4 else Any6, key.ifidx);
              k == if key !in states && (key.local.Addr4? || key.local.Addr6?) && any in states then any else key
    {
      if key in states {
        return key;
      }
      if !key.local.Concrete() {
        return key;
      }
      var wildcard := Key(key.remote, if key.local.Addr4? then Any4 else Any6, key.ifidx);
      if wildcard in states {
        return wildcard;
      }
      return key;
    }

    /** The flow that a handshake of an endpoint is for. */
    method ChooseFlow(key: Key) returns (used: Key)
      ensures Chosen(states, key, used)
    {
      used := key;
      if key !in states && key.local.Unspecified() {
        var todo, found := states.Keys, false;
        while todo != {}
          invariant todo <= states.Keys
          invariant found ==> Candidate(states, key, used) && forall k :: k !in todo && Candidate(states, key, k) ==> states[k].lastSeen <= states[used].lastSeen
          invariant !found ==> used == key && forall k :: k !in todo ==> !Candidate(states, key, k)
          decreases |todo|
        {
          var k :| k in todo;
          todo := todo - {k};
          if k.remote != key.remote || k.ifidx != key.ifidx || !k.local.Concrete() || !states[k].flow.passive {
            continue;
          }
          if !found || states[k].lastSeen > states[used].lastSeen {
            used, found := k, true;
          }
        }
      }
    }

    /** Room for one more flow, by force if need be. */
    method MakeRoom(now: int) returns (ok: bool)
      requires Valid()
      modifies this
      ensures Valid() && states == Roomy(old(states), now, staleAfter) && (ok <==> |states| < STATE_LIMIT)
    {
      if |states| >= STATE_LIMIT {
        Sweep(now, true);
      }
      ok := |states| < STATE_LIMIT;
    }

    /** Starts or retries a handshake; `used` is the flow it is for. */
    method PrepareFakeTcp(key: Key, isn: U32, now: int) returns (used: Key, outcome: Prepared)
      requires Valid()
      modifies this
      ensures Valid()
      ensures var t := Swept(old(states), old(lastClean), now, false, staleAfter);
              Chosen(t, key, used) && Opening(states, outcome) == Prepares(t, used, isn, now, staleAfter)
    {
      Sweep(now, false);
      used := ChooseFlow(key);
      PreparesBounded(states, used, isn, now, staleAfter);
      var flow, packet := PrepareFlow(FlowOf(states, used), isn);
      if packet.None? {
        return used, Ready;
      }
      if used !in states {
        var ok := MakeRoom(now);
        if !ok {
          return used, Full;
        }
      }
      states := states[used := Tracked(flow, now)];
      outcome := Waiting(packet.value);
    }

    method HandleFakeTcpPacket(key: Key, p: Pkt, isn: U32, now: int) returns (response: Option<Pkt>, deliver: bool)
      requires Valid()
      modifies this
      ensures Valid()
      ensures var t := Swept(old(states), old(lastClean), now, false, staleAfter);
              && Result(states, response, deliver) == Handles(t, key, p, isn, now, staleAfter)
              && Serves(t, states, KeyOf(t, key), p, isn, now, staleAfter, response, deliver)
    {
      Sweep(now, false);
      HandlesServes(states, key, p, isn, now, staleAfter);
      HandlesBounded(states, key, p, isn, now, staleAfter);
      var k := FindFlow(key);
      var f := FlowOf(states, k);
      if f.None? && p.syn && !p.ack && !p.rst && !p.fin {
        var ok := MakeRoom(now);
        if !ok {
          return None, false;
        }
      }
      var flow;
      flow, response, deliver := HandleFlow(f, p, isn);
      if flow.None? {
        states := states - {k};
      } else if f.None? || Touches(f.value, p) {
        states := states[k := Tracked(flow.value, now)];
      } else {
        states := states[k := states[k].(flow := flow.value)];
      }
    }

    method SendFakeTcpData(key: Key, lens: seq<nat>) returns (packets: seq<Pkt>, ok: bool)
      requires Valid()
      modifies this`states
      ensures Valid()
      ensures var k := KeyOf(old(states), key);
              var f := FlowOf(old(states), k);
              && (ok <==> f.Some? && f.value.state == Established) && (!ok ==> states == old(states) && packets == [])
              && (ok ==> packets == DataPkts(f.value, lens)
                         && states == old(states)[k := old(states)[k].(flow := Sent(f.value, lens).(unacked := 0))])
    {
      var k := FindFlow(key);
      if k !in states || states[k].flow.state != Established {
        return [], false;
      }
      var flow;
      flow, packets := SendFlow(states[k].flow, lens);
      SentBounded(states, k, flow);
      states := states[k := states[k].(flow := flow)];
      ok := true;
    }
  }
}
