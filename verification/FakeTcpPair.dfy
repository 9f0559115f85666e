/** Two sides of a fake-TCP flow over a network that loses, duplicates, reorders and merges. */
module FakeTcpPair {
  import opened Basics
  import opened FakeTcpCarrier
  import opened FakeTcpFlow

  /** A side with its history: the initial sequence number it drew last, how many bytes it has
      sent, and how far into the other side's stream the data it took has reached. */
  datatype Side = Side(flow: Option<Flow>, isn: U32, sent: nat, reached: nat)

  /** A packet with what its sequence numbers stand for: the sender's position and the position it
      acknowledges. */
  datatype Tagged = Tagged(p: Pkt, pos: nat, ackPos: nat)

  /** Packets stay in the network, so that each may arrive any number of times or never. */
  datatype Net = Net(left: Side, right: Side, fromLeft: set<Tagged>, fromRight: set<Tagged>)

  function Swap(n: Net): Net { Net(n.right, n.left, n.fromRight, n.fromLeft) }

  datatype Event =
    | Prepares(isn: U32)
    | Receives(t: Tagged, isn: U32)
    | Sends(lens: seq<nat>)
    | Merges(t: Tagged, u: Tagged)

  function Emitted(p: Option<Pkt>, s: Side): set<Tagged> {
    if p.None? then {} else {Tagged(p.value, s.sent, s.reached)}
  }

  function Max(a: nat, b: nat): nat { if a > b then a else b }

  // ---------- steps of the left side ----------

  function AfterPrepare(s: Side, isn: U32): Side {
    Side(Some(Prepare(s.flow, isn).0), if s.flow.None? then isn else s.isn, s.sent, s.reached)
  }

  function AfterReceive(s: Side, t: Tagged, isn: U32): Side {
    var h := Handle(s.flow, t.p, isn);
    Side(h.flow, if Redraws(s.flow, t.p) then isn else s.isn, s.sent, if h.deliver then Max(s.reached, t.pos + t.p.len) else s.reached)
  }

  function TagAll(ps: seq<Pkt>, pos: nat, ackPos: nat): set<Tagged> {
    if ps == [] then {} else {Tagged(ps[0], pos, ackPos)} + TagAll(ps[1..], pos + ps[0].len, ackPos)
  }

  /** Two data packets that follow each other may arrive as one. */
  predicate Mergeable(t: Tagged, u: Tagged) {
    !t.p.syn && !u.p.syn && t.p.len > 0 && u.p.len > 0 && t.pos + t.p.len == u.pos
  }

  function Merged(t: Tagged, u: Tagged): Tagged {
    Tagged(u.p.(seqNo := t.p.seqNo, len := t.p.len + u.p.len), t.pos, u.ackPos)
  }

  ghost predicate LeftStep(n: Net, e: Event, n': Net) {
    match e
    case Prepares(isn) =>
      var s := AfterPrepare(n.left, isn);
      n' == n.(left := s, fromLeft := n.fromLeft + Emitted(Prepare(n.left.flow, isn).1, s))
    case Receives(t, isn) =>
      && t in n.fromRight
      && var s := AfterReceive(n.left, t, isn);
         n' == n.(left := s, fromLeft := n.fromLeft + Emitted(Handle(n.left.flow, t.p, isn).response, s))
    case Sends(lens) =>
      && n.left.flow.Some? && n.left.flow.value.state == Established
      && var f := n.left.flow.value;
         n' == n.(left := n.left.(flow := Some(Sent(f, lens).(unacked := 0)), sent := n.left.sent + Span(lens)),
                  fromLeft := n.fromLeft + TagAll(DataPkts(f, lens), n.left.sent, n.left.reached))
    case Merges(t, u) =>
      && t in n.fromRight && u in n.fromRight && Mergeable(t, u)
      && n' == n.(fromRight := n.fromRight + {Merged(t, u)})
  }

  /** Data that is received ends less than 2^31 bytes away from what has been reached. */
  ghost predicate Near(s: Side, e: Event) {
    e.Receives? && e.t.p.len > 0 ==> -HALF32 <= e.t.pos + e.t.p.len - s.reached < HALF32
  }

  ghost predicate Step(n: Net, n': Net) {
    || (exists e :: LeftStep(n, e, n') && Near(n.left, e))
    || (exists e :: LeftStep(Swap(n), e, Swap(n')) && Near(n.right, e))
  }

  ghost predicate Initial(n: Net) {
    && n.left.flow == n.right.flow == None && n.left.sent == n.left.reached == n.right.sent == n.right.reached == 0
    && n.fromLeft == n.fromRight == {}
  }

  // ---------- what every step keeps ----------

  ghost predicate Acknowledging(s: Side) { s.flow.Some? && s.flow.value.state != SynSent }

  /** A side against the other one. */
  ghost predicate SideOk(x: Side, y: Side) {
    x.flow.Some? ==>
      var f := x.flow.value;
      && f.sendNext == Wrap(x.isn + 1 + x.sent)
      && (f.state != Established ==> x.sent == x.reached == 0)
      && (f.state != SynSent ==> y.flow.Some? && x.reached <= y.sent && f.recvNext == Wrap(y.isn + 1 + x.reached))
      && (f.state == Established ==> Acknowledging(y))
  }

  /** A packet from `x` to `y`. */
  ghost predicate PacketOk(t: Tagged, x: Side, y: Side) {
    && x.flow.Some? && !t.p.rst && !t.p.fin
    && (t.p.syn ==> t.p.seqNo == x.isn && t.p.len == 0 && t.pos == t.ackPos == 0)
    && (!t.p.syn ==> t.p.ack && t.p.seqNo == Wrap(x.isn + 1 + t.pos) && t.pos + t.p.len <= x.sent)
    && (t.p.ack ==> Acknowledging(x) && y.flow.Some? && t.p.ackNo == Wrap(y.isn + 1 + t.ackPos) && t.ackPos <= y.sent)
  }

  ghost predicate PacketsOk(ts: set<Tagged>, x: Side, y: Side) {
    forall t :: t in ts ==> PacketOk(t, x, y)
  }

  ghost predicate Half(x: Side, y: Side, ts: set<Tagged>) {
    SideOk(x, y) && PacketsOk(ts, x, y) && (x.flow.None? ==> x.sent == x.reached == 0)
  }

  ghost predicate Inv(n: Net) {
    Half(n.left, n.right, n.fromLeft) && Half(n.right, n.left, n.fromRight)
  }

  /** What a side may do to itself without breaking the other side or packets. */
  ghost predicate Grows(x: Side, x': Side) {
    && (x.flow.Some? ==> x'.flow.Some? && x'.isn == x.isn) && x'.sent >= x.sent
    && (Acknowledging(x) ==> Acknowledging(x'))
  }

  lemma {:induction false} GrowsKeepsPackets(ts: set<Tagged>, x: Side, y: Side, x': Side, y': Side)
    requires PacketsOk(ts, x, y) && Grows(x, x') && Grows(y, y')
    ensures PacketsOk(ts, x', y')
  {
    forall t | t in ts
      ensures PacketOk(t, x', y')
    {
      assert PacketOk(t, x, y);
    }
  }

  lemma {:induction false} GrowsKeepsPeer(y: Side, x: Side, x': Side)
    requires SideOk(y, x) && Grows(x, x')
    ensures SideOk(y, x')
  {
  }

  /** A step of the left side that emits `ts`. */
  lemma {:induction false} LeftMoves(n: Net, s: Side, ts: set<Tagged>)
    requires Inv(n) && Grows(n.left, s) && SideOk(s, n.right) && PacketsOk(ts, s, n.right)
    requires s.flow.None? ==> s.sent == s.reached == 0
    ensures Inv(n.(left := s, fromLeft := n.fromLeft + ts))
  {
    GrowsKeepsPackets(n.fromLeft, n.left, n.right, s, n.right);
    GrowsKeepsPackets(n.fromRight, n.right, n.left, n.right, s);
    GrowsKeepsPeer(n.right, n.left, s);
  }

  lemma {:induction false} PreparesOk(x: Side, y: Side, isn: U32)
    requires SideOk(x, y) && (x.flow.None? ==> x.sent == x.reached == 0)
    ensures var s := AfterPrepare(x, isn);
            Grows(x, s) && SideOk(s, y) && PacketsOk(Emitted(Prepare(x.flow, isn).1, s), s, y)
  {
    WrapAdd(x.isn + 1 + x.sent, -1);
    WrapAdd(isn + 1, -1);
  }

  lemma {:induction false} SynOk(x: Side, y: Side, t: Tagged, isn: U32)
    requires SideOk(x, y) && (x.flow.None? ==> x.sent == x.reached == 0) && PacketOk(t, y, x) && t.p.syn && !t.p.ack
    ensures var s := AfterReceive(x, t, isn);
            Grows(x, s) && SideOk(s, y) && PacketsOk(Emitted(Handle(x.flow, t.p, isn).response, s), s, y)
  {
    assert Handle(x.flow, t.p, isn) == HandleSyn(x.flow, t.p, isn);
    WrapAdd(x.isn + 1 + x.sent, -1);
    WrapAdd(isn + 1, -1);
  }

  lemma {:induction false} SynAckOk(x: Side, y: Side, t: Tagged, isn: U32)
    requires SideOk(x, y) && (x.flow.None? ==> x.sent == x.reached == 0) && PacketOk(t, y, x) && t.p.syn && t.p.ack
    ensures var s := AfterReceive(x, t, isn);
            Grows(x, s) && SideOk(s, y) && PacketsOk(Emitted(Handle(x.flow, t.p, isn).response, s), s, y)
  {
  }

  /** Taking data moves the expected sequence number exactly as far as the data reaches. */
  lemma {:induction false} ReceivedOk(f: Flow, p: Pkt, base: int, reached: nat, pos: nat)
    requires f.state == Established && f.recvNext == Wrap(base + reached) && p.seqNo == Wrap(base + pos)
    requires -HALF32 <= pos + p.len - reached < HALF32
    ensures var h := Received(f, p);
            && h.flow.Some? && h.flow.value.state == Established && h.flow.value.sendNext == f.sendNext && h.deliver
            && h.flow.value.recvNext == Wrap(base + Max(reached, pos + p.len))
            && (h.response.Some? ==> h.response.value == AckPkt(h.flow.value))
  {
    WrapAdd(base + pos, p.len);
    NewerIsLater(base, reached, pos + p.len);
    assert base + pos + p.len == base + (pos + p.len);
  }

  lemma {:induction false} CompletedOk(x: Side, y: Side, p: Pkt)
    requires SideOk(x, y) && x.flow.Some? && Acknowledging(y)
    ensures SideOk(x.(flow := Some(Completed(x.flow.value, p))), y)
  {
  }

  lemma {:induction false} DataOk(x: Side, y: Side, t: Tagged, isn: U32)
    requires SideOk(x, y) && (x.flow.None? ==> x.sent == x.reached == 0) && PacketOk(t, y, x) && !t.p.syn
    requires t.p.len > 0 ==> -HALF32 <= t.pos + t.p.len - x.reached < HALF32
    ensures var s := AfterReceive(x, t, isn);
            Grows(x, s) && SideOk(s, y) && PacketsOk(Emitted(Handle(x.flow, t.p, isn).response, s), s, y)
  {
    if x.flow.Some? {
      var f := Completed(x.flow.value, t.p);
      CompletedOk(x, y, t.p);
      var z := x.(flow := Some(f));
      if f.state == Established && t.p.len > 0 {
        assert Handle(x.flow, t.p, isn) == Received(f, t.p) && !Redraws(x.flow, t.p);
        TakenOk(z, y, t);
      }
    }
  }

  lemma {:induction false} TakenOk(x: Side, y: Side, t: Tagged)
    requires SideOk(x, y) && x.flow.Some? && x.flow.value.state == Established && PacketOk(t, y, x) && !t.p.syn && t.p.len > 0
    requires -HALF32 <= t.pos + t.p.len - x.reached < HALF32
    ensures var h := Received(x.flow.value, t.p);
            var s := Side(h.flow, x.isn, x.sent, Max(x.reached, t.pos + t.p.len));
            h.deliver && Grows(x, s) && SideOk(s, y) && PacketsOk(Emitted(h.response, s), s, y)
  {
    ReceivedOk(x.flow.value, t.p, y.isn + 1, x.reached, t.pos);
    var h := Received(x.flow.value, t.p);
    var s := Side(h.flow, x.isn, x.sent, Max(x.reached, t.pos + t.p.len));
    if h.response.Some? {
      assert PacketOk(Tagged(h.response.value, s.sent, s.reached), s, y);
    }
  }

  lemma {:induction false} SentOk(f: Flow, lens: seq<nat>, base: int)
    requires f.sendNext == Wrap(base)
    ensures Sent(f, lens) == f.(sendNext := Wrap(base + Span(lens)))
  {
    SentMoves(f, lens);
    WrapAdd(base, Span(lens));
  }

  lemma {:induction false} DataPktsOk(f: Flow, lens: seq<nat>, x: Side, y: Side, pos: nat, t: Tagged)
    requires f.sendNext == Wrap(x.isn + 1 + pos) && pos + Span(lens) <= x.sent && Acknowledging(x)
    requires y.flow.Some? && x.reached <= y.sent && f.recvNext == Wrap(y.isn + 1 + x.reached)
    requires t in TagAll(DataPkts(f, lens), pos, x.reached)
    ensures PacketOk(t, x, y)
    decreases |lens|
  {
    var k := FRAME_HEADER_SIZE + lens[0];
    var ps := DataPkts(f, lens);
    assert ps[0] == DataPkt(f, lens[0]);
    if t != Tagged(ps[0], pos, x.reached) {
      WrapAdd(x.isn + 1 + pos, k);
      assert ps[1..] == DataPkts(f.(sendNext := Wrap(f.sendNext + k)), lens[1..]);
      DataPktsOk(f.(sendNext := Wrap(f.sendNext + k)), lens[1..], x, y, pos + k, t);
    }
  }

  lemma {:induction false} MergedOk(t: Tagged, u: Tagged, x: Side, y: Side)
    requires PacketOk(t, x, y) && PacketOk(u, x, y) && Mergeable(t, u)
    ensures PacketOk(Merged(t, u), x, y)
  {
  }

  lemma {:induction false} LeftStepKeepsInv(n: Net, e: Event, n': Net)
    requires Inv(n) && LeftStep(n, e, n') && Near(n.left, e)
    ensures Inv(n')
  {
    match e
    case Prepares(isn) =>
      PreparesOk(n.left, n.right, isn);
      var s := AfterPrepare(n.left, isn);
      LeftMoves(n, s, Emitted(Prepare(n.left.flow, isn).1, s));
    case Receives(t, isn) =>
      assert PacketOk(t, n.right, n.left);
      if t.p.syn && !t.p.ack {
        SynOk(n.left, n.right, t, isn);
      } else if t.p.syn {
        SynAckOk(n.left, n.right, t, isn);
      } else {
        DataOk(n.left, n.right, t, isn);
      }
      var s := AfterReceive(n.left, t, isn);
      LeftMoves(n, s, Emitted(Handle(n.left.flow, t.p, isn).response, s));
    case Sends(lens) =>
      SendsKeepsInv(n, lens);
    case Merges(t, u) =>
      assert PacketOk(t, n.right, n.left) && PacketOk(u, n.right, n.left);
      MergedOk(t, u, n.right, n.left);
  }

  lemma {:induction false} SendsKeepsInv(n: Net, lens: seq<nat>)
    requires Inv(n) && n.left.flow.Some? && n.left.flow.value.state == Established
    ensures var f := n.left.flow.value;
            Inv(n.(left := n.left.(flow := Some(Sent(f, lens).(unacked := 0)), sent := n.left.sent + Span(lens)),
                   fromLeft := n.fromLeft + TagAll(DataPkts(f, lens), n.left.sent, n.left.reached)))
  {
    var x, f := n.left, n.left.flow.value;
    SentOk(f, lens, x.isn + 1 + x.sent);
    var s := x.(flow := Some(Sent(f, lens).(unacked := 0)), sent := x.sent + Span(lens));
    var ts := TagAll(DataPkts(f, lens), x.sent, x.reached);
    forall t | t in ts
      ensures PacketOk(t, s, n.right)
    {
      DataPktsOk(f, lens, s, n.right, x.sent, t);
    }
    LeftMoves(n, s, ts);
  }

  // ---------- runs ----------

  lemma {:induction false} StepKeepsInv(n: Net, n': Net)
    requires Inv(n) && Step(n, n')
    ensures Inv(n')
  {
    if e :| LeftStep(n, e, n') && Near(n.left, e) {
      LeftStepKeepsInv(n, e, n');
    } else {
      var e :| LeftStep(Swap(n), e, Swap(n')) && Near(n.right, e);
      LeftStepKeepsInv(Swap(n), e, Swap(n'));
    }
  }

  datatype Run = Start(first: Net) | Then(before: Run, last: Net)

  function Last(r: Run): Net { if r.Start? then r.first else r.last }

  ghost predicate IsRun(r: Run) {
    match r
    case Start(n) => Initial(n)
    case Then(b, n) => IsRun(b) && Step(Last(b), n)
  }

  lemma {:induction false} RunKeepsInv(r: Run)
    requires IsRun(r)
    ensures Inv(Last(r))
  {
    match r
    case Start(n) =>
    case Then(b, n) =>
      RunKeepsInv(b);
      StepKeepsInv(Last(b), n);
  }

  /** A state of a run, seen from either side. */
  ghost predicate Reachable(n: Net) {
    exists r :: IsRun(r) && (n == Last(r) || n == Swap(Last(r)))
  }

  lemma {:induction false} ReachableInv(n: Net)
    requires Reachable(n)
    ensures Inv(n)
  {
    var r :| IsRun(r) && (n == Last(r) || n == Swap(Last(r)));
    RunKeepsInv(r);
  }

  lemma {:induction false} InTransit(n: Net, t: Tagged)
    requires Inv(n) && t in n.fromLeft && t.p.ack
    ensures t.p.ackNo == Wrap(n.right.isn + 1 + t.ackPos) && t.ackPos <= n.right.sent
  {
    assert PacketOk(t, n.left, n.right);
  }

  lemma {:induction false} SynMatches(n: Net, t: Tagged)
    requires Inv(n) && t in n.fromRight && n.left.flow.Some?
    ensures !Redraws(n.left.flow, t.p)
  {
    assert PacketOk(t, n.right, n.left);
  }

  /** In every run an established side's next expected byte lies between the first and the next
      byte of the other side's stream, the 32-bit numbers on both sides stand for these positions,
      and the other side knows of it. */
  lemma {:induction false} EstablishedIsInStream(n: Net)
    requires Reachable(n) && n.left.flow.Some? && n.left.flow.value.state == Established
    ensures var x, y := n.left, n.right;
            && y.flow.Some? && y.flow.value.state != SynSent && 0 <= x.reached <= y.sent
            && x.flow.value.recvNext == Wrap(y.isn + 1 + x.reached) && y.flow.value.sendNext == Wrap(y.isn + 1 + y.sent)
  {
    ReachableInv(n);
  }

  /** No side ever acknowledges a byte that the other one has not sent. */
  lemma {:induction false} NeverAcknowledgesUnsent(n: Net, t: Tagged)
    requires Reachable(n) && t in n.fromLeft && t.p.ack
    ensures t.p.ackNo == Wrap(n.right.isn + 1 + t.ackPos) && t.ackPos <= n.right.sent
  {
    ReachableInv(n);
    InTransit(n, t);
  }

  /** The initial sequence number of a flow is drawn once, so its sequence space never moves. */
  lemma {:induction false} NeverRedraws(n: Net, t: Tagged)
    requires Reachable(n) && t in n.fromRight && n.left.flow.Some?
    ensures !Redraws(n.left.flow, t.p)
  {
    ReachableInv(n);
    SynMatches(n, t);
  }
}
