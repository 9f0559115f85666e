/** The handshake and the 32-bit sequence numbers of one fake-TCP flow. */
module FakeTcpFlow {
  import opened Basics
  import opened FakeTcpCarrier

  const MOD32 := 0x1_0000_0000
  const HALF32 := 0x8000_0000
  const STANDALONE_ACK_AFTER := 32 * 1024 * 1024

  /** Arithmetic on 32 bits: the remainder modulo 2^32. */
  function Wrap(n: int): U32
    decreases if n < 0 then 0x1_0000_0000 - n else n
  {
    if n < 0 then Wrap(n + 0x1_0000_0000) else if n >= 0x1_0000_0000 then Wrap(n - 0x1_0000_0000) else n
  }

  /** `int32(a - b) > 0`. */
  predicate Newer(a: U32, b: U32) { 0 < Wrap(a - b) < HALF32 }

  lemma {:induction false} WrapPeriod(n: int)
    ensures Wrap(n + MOD32) == Wrap(n)
  {
  }

  lemma {:induction false} WrapAdd(n: int, k: int)
    ensures Wrap(Wrap(n) + k) == Wrap(n + k)
    decreases if n < 0 then MOD32 - n else n
  {
    if n < 0 {
      WrapAdd(n + MOD32, k);
      WrapPeriod(n + k);
    } else if n >= MOD32 {
      WrapAdd(n - MOD32, k);
      WrapPeriod(n - MOD32 + k);
    }
  }

  lemma {:induction false} WrapSub(n: int, k: int)
    ensures Wrap(k - Wrap(n)) == Wrap(k - n)
    decreases if n < 0 then MOD32 - n else n
  {
    if n < 0 {
      WrapSub(n + MOD32, k);
      WrapPeriod(k - n - MOD32);
    } else if n >= MOD32 {
      WrapSub(n - MOD32, k);
      WrapPeriod(k - n);
    }
  }

  /** Two positions have the same number exactly if they are a multiple of 2^32 apart. */
  lemma {:induction false} WrapSame(n: int, k: int)
    ensures Wrap(n + k) == Wrap(n) <==> Wrap(k) == 0
  {
    var r: int := Wrap(n);
    WrapAdd(n + k, -r);
    WrapSub(n, n + k);
  }

  /** The 32-bit comparison of two positions in a stream of any length: it depends only on their
      distance, and it is the true order whenever they are less than 2^31 apart. */
  lemma {:induction false} NewerIsLater(base: int, p: int, q: int)
    ensures Newer(Wrap(base + q), Wrap(base + p)) <==> 0 < Wrap(q - p) < HALF32
    ensures -HALF32 <= q - p < HALF32 ==> (Newer(Wrap(base + q), Wrap(base + p)) <==> q > p)
  {
    var r: int := Wrap(base + p);
    WrapAdd(base + q, -r);
    WrapSub(base + p, base + q);
  }

  /** Reached exactly at the window's edge: half the space away, a later position looks older. */
  lemma {:induction false} HalfAwayLooksOlder(base: int, p: int)
    ensures !Newer(Wrap(base + p + HALF32), Wrap(base + p))
  {
    NewerIsLater(base, p, p + HALF32);
    assert base + (p + HALF32) == base + p + HALF32;
  }

  datatype State = SynSent | SynReceived | Established

  datatype Flow = Flow(state: State, sendNext: U32, recvNext: U32, unacked: nat, passive: bool)

  /** A carrier: its flags, sequence numbers and payload length. */
  datatype Pkt = Pkt(syn: bool, ack: bool, rst: bool, fin: bool, seqNo: U32, ackNo: U32, len: nat)

  function AckPkt(f: Flow): Pkt { Pkt(false, true, false, false, f.sendNext, f.recvNext, 0) }
  function SynPkt(f: Flow): Pkt { Pkt(true, false, false, false, Wrap(f.sendNext - 1), 0, 0) }
  function SynAckPkt(f: Flow): Pkt { Pkt(true, true, false, false, Wrap(f.sendNext - 1), f.recvNext, 0) }

  // ---------- what the operations do ----------

  datatype Handled = Handled(flow: Option<Flow>, response: Option<Pkt>, deliver: bool)

  /** Whether a new initial sequence number is drawn for an incoming SYN. */
  predicate Redraws(f: Option<Flow>, p: Pkt) {
    p.syn && !p.ack && !p.rst && !p.fin
    && (f.None? || (f.value.state == SynReceived && f.value.recvNext != Wrap(p.seqNo + 1)))
  }

  function HandleSyn(f: Option<Flow>, p: Pkt, isn: U32): Handled {
    if f.Some? && f.value.state == Established then Handled(f, None, false)
    else
      var f' := if f.None? then Flow(SynReceived, Wrap(isn + 1), Wrap(p.seqNo + 1), 0, true)
                else if f.value.state == SynReceived && f.value.recvNext != Wrap(p.seqNo + 1)
                     then f.value.(sendNext := Wrap(isn + 1), recvNext := Wrap(p.seqNo + 1), unacked := 0)
                else f.value.(state := SynReceived, recvNext := Wrap(p.seqNo + 1), unacked := 0);
      Handled(Some(f'), Some(SynAckPkt(f')), false)
  }

  function HandleSynAck(f: Option<Flow>, p: Pkt): Handled {
    if f.None? then Handled(f, None, false)
    else if f.value.state == Established then
      Handled(f, if p.ackNo == f.value.sendNext && Wrap(p.seqNo + 1) == f.value.recvNext then Some(AckPkt(f.value)) else None, false)
    else if p.ackNo != f.value.sendNext then Handled(f, None, false)
    else
      var f' := f.value.(state := Established, recvNext := Wrap(p.seqNo + 1));
      Handled(Some(f'), Some(AckPkt(f')), false)
  }

  /** The flow after an acknowledgement that may complete the handshake. */
  function Completed(f: Flow, p: Pkt): Flow {
    if f.state == SynReceived && p.ack && p.ackNo == f.sendNext && (p.len == 0 || p.seqNo == f.recvNext)
    then f.(state := Established) else f
  }

  function Received(f: Flow, p: Pkt): Handled
    requires f.state == Established
  {
    var end := Wrap(p.seqNo + p.len);
    var f' := if Newer(end, f.recvNext)
              then f.(unacked := f.unacked + Wrap(end - f.recvNext), recvNext := end) else f;
    if f'.unacked >= STANDALONE_ACK_AFTER
    then Handled(Some(f'.(unacked := 0)), Some(AckPkt(f')), true)
    else Handled(Some(f'), None, true)
  }

  function Handle(f: Option<Flow>, p: Pkt, isn: U32): Handled {
    if p.rst || p.fin then Handled(None, None, false)
    else if p.syn && !p.ack then HandleSyn(f, p, isn)
    else if p.syn then HandleSynAck(f, p)
    else if f.None? then Handled(f, None, false)
    else
      var f' := Completed(f.value, p);
      if f'.state != Established || p.len == 0 then Handled(Some(f'), None, false)
      else Received(f', p)
  }

  /** Starts or retries the handshake; nothing is sent once it is complete. */
  function Prepare(f: Option<Flow>, isn: U32): (Flow, Option<Pkt>) {
    if f.None? then
      var f' := Flow(SynSent, Wrap(isn + 1), 0, 0, false);
      (f', Some(SynPkt(f')))
    else
      (f.value, match f.value.state
                case Established => None
                case SynReceived => Some(SynAckPkt(f.value))
                case SynSent => Some(SynPkt(f.value)))
  }

  function DataPkt(f: Flow, len: nat): Pkt { AckPkt(f).(len := FRAME_HEADER_SIZE + len) }

  /** The flow after sending datagrams of these lengths. */
  function Sent(f: Flow, lens: seq<nat>): Flow
    decreases |lens|
  {
    if lens == [] then f
    else Sent(f.(sendNext := Wrap(f.sendNext + FRAME_HEADER_SIZE + lens[0])), lens[1..])
  }

  function DataPkts(f: Flow, lens: seq<nat>): seq<Pkt>
    decreases |lens|
  {
    if lens == [] then []
    else [DataPkt(f, lens[0])] + DataPkts(f.(sendNext := Wrap(f.sendNext + FRAME_HEADER_SIZE + lens[0])), lens[1..])
  }

  /** How much of the stream datagrams of these lengths take. */
  function Span(lens: seq<nat>): nat {
    if lens == [] then 0 else FRAME_HEADER_SIZE + lens[0] + Span(lens[1..])
  }

  /** Datagram `i` follows everything before it and acknowledges what has been received. */
  ghost predicate NumberedAt(f: Flow, lens: seq<nat>, packets: seq<Pkt>, i: nat)
    requires i < |lens| == |packets|
  {
    packets[i] == Pkt(false, true, false, false, Wrap(f.sendNext + Span(lens[..i])), f.recvNext, FRAME_HEADER_SIZE + lens[i])
  }

  lemma {:induction false} DataPktsNumbered(f: Flow, lens: seq<nat>, i: nat)
    requires i < |lens|
    ensures |DataPkts(f, lens)| == |lens| && NumberedAt(f, lens, DataPkts(f, lens), i)
    decreases |lens|
  {
    DataPktsCount(f, lens);
    if i > 0 {
      var k, rest := FRAME_HEADER_SIZE + lens[0], lens[1..];
      DataPktsNumbered(f.(sendNext := Wrap(f.sendNext + k)), rest, i - 1);
      assert lens[..i][1..] == rest[..i - 1];
      WrapAdd(f.sendNext + k, Span(rest[..i - 1]));
    }
  }

  lemma {:induction false} DataPktsCount(f: Flow, lens: seq<nat>)
    ensures |DataPkts(f, lens)| == |lens|
    decreases |lens|
  {
    if lens != [] {
      DataPktsCount(f.(sendNext := Wrap(f.sendNext + FRAME_HEADER_SIZE + lens[0])), lens[1..]);
    }
  }

  lemma {:induction false} SentMoves(f: Flow, lens: seq<nat>)
    ensures Sent(f, lens) == f.(sendNext := Wrap(f.sendNext + Span(lens)))
    decreases |lens|
  {
    if lens != [] {
      var k := FRAME_HEADER_SIZE + lens[0];
      SentMoves(f.(sendNext := Wrap(f.sendNext + k)), lens[1..]);
      WrapAdd(f.sendNext + k, Span(lens[1..]));
    }
  }

  // ---------- what a carrier may do to a flow ----------

  ghost predicate Resets(p: Pkt) { p.rst || p.fin }

  /** The first packet of a handshake, taken by a flow that is not established. */
  ghost predicate Starts(f0: Option<Flow>, p: Pkt) {
    !Resets(p) && p.syn && !p.ack && (f0.Some? ==> f0.value.state != Established)
  }

  /** The acknowledgement that a handshake waits for: one with a SYN, or, once a SYN has come, one
      without payload or with the next payload. */
  ghost predicate Completes(f: Flow, p: Pkt) {
    && !Resets(p) && f.state != Established && p.ack && p.ackNo == f.sendNext
    && (p.syn || (f.state == SynReceived && (p.len == 0 || p.seqNo == f.recvNext)))
  }

  /** A handshake for another stream than the one it started with. */
  ghost predicate Restarts(f: Flow, p: Pkt) {
    Starts(Some(f), p) && f.state == SynReceived && f.recvNext != Wrap(p.seqNo + 1)
  }

  /** A flow exists unless it is reset, and is opened only by the first packet of a handshake. It is
      established once it has been, or when the handshake completes. */
  ghost predicate FlowAfter(f0: Option<Flow>, p: Pkt, flow: Option<Flow>) {
    && (flow.Some? <==> !Resets(p) && (f0.Some? || Starts(f0, p)))
    && (flow.Some? ==>
          var f := flow.value;
          && (f.state == Established <==> f0.Some? && (f0.value.state == Established || Completes(f0.value, p)))
          && (f.state == SynSent <==> f0.Some? && f0.value.state == SynSent && !Starts(f0, p) && !Completes(f0.value, p))
          && (f.passive <==> f0.Some? ==> f0.value.passive))
  }

  /** Data is handed up exactly by a flow that is established afterwards, and only packets that are
      not part of a handshake carry any. */
  ghost predicate Hands(p: Pkt, flow: Option<Flow>, deliver: bool) {
    deliver <==> !Resets(p) && !p.syn && p.len > 0 && flow.Some? && flow.value.state == Established
  }

  /** How many bytes a flow owes an acknowledgement for, once it has taken `p`. */
  ghost function Owed(f: Flow, p: Pkt): nat {
    var end := Wrap(p.seqNo + p.len);
    f.unacked + if Newer(end, f.recvNext) then Wrap(end - f.recvNext) else 0
  }

  /** The own number moves only when a flow is opened or restarted; the expected one follows a SYN, or
      payload that ends beyond it; bytes owed are counted up to the limit of a standalone acknowledgement. */
  ghost predicate NumbersAfter(f0: Option<Flow>, p: Pkt, isn: U32, f: Flow, deliver: bool) {
    && f.sendNext == (if f0.None? || Restarts(f0.value, p) then Wrap(isn + 1) else f0.value.sendNext)
    && if f0.None? || Starts(f0, p) then f.recvNext == Wrap(p.seqNo + 1) && f.unacked == 0
       else
         var end := Wrap(p.seqNo + p.len);
         && f.recvNext == (if p.syn && Completes(f0.value, p) then Wrap(p.seqNo + 1)
                           else if deliver && Newer(end, f0.value.recvNext) then end else f0.value.recvNext)
         && f.unacked == (if !deliver then f0.value.unacked
                          else if Owed(f0.value, p) >= STANDALONE_ACK_AFTER then 0 else Owed(f0.value, p))
  }

  /** The first packet of a handshake is answered by SYN and ACK, the second by ACK whenever it fits,
      and data by ACK once enough is owed; nothing else is answered. */
  ghost predicate Responds(f0: Option<Flow>, p: Pkt, flow: Option<Flow>, response: Option<Pkt>, deliver: bool) {
    if flow.None? || f0.None? then response == if flow.Some? then Some(SynAckPkt(flow.value)) else None
    else
      var f := f0.value;
      response ==
      if Starts(f0, p) then Some(SynAckPkt(flow.value))
      else if p.syn && (Completes(f, p) || (p.ack && f.state == Established && p.ackNo == f.sendNext && Wrap(p.seqNo + 1) == f.recvNext))
           then Some(AckPkt(flow.value))
      else if deliver && Owed(f, p) >= STANDALONE_ACK_AFTER then Some(AckPkt(flow.value))
      else None
  }

  ghost predicate Obeys(f0: Option<Flow>, p: Pkt, isn: U32, flow: Option<Flow>, response: Option<Pkt>, deliver: bool) {
    && FlowAfter(f0, p, flow) && Hands(p, flow, deliver) && Responds(f0, p, flow, response, deliver)
    && (flow.Some? ==> NumbersAfter(f0, p, isn, flow.value, deliver))
  }

  lemma {:induction false} HandleObeys(f0: Option<Flow>, p: Pkt, isn: U32)
    ensures var h := Handle(f0, p, isn); Obeys(f0, p, isn, h.flow, h.response, h.deliver)
  {
    if !Resets(p) && !p.syn && f0.Some? {
      assert Completed(f0.value, p).state == Established <==> f0.value.state == Established || Completes(f0.value, p);
    }
  }

  // ---------- the operations ----------

  /** Starts or retries the handshake of a flow. */
  method PrepareFlow(f0: Option<Flow>, isn: U32) returns (f: Flow, packet: Option<Pkt>)
    ensures (f, packet) == Prepare(f0, isn)
    ensures f == if f0.Some? then f0.value else Flow(SynSent, Wrap(isn + 1), 0, 0, false)
    ensures packet.None? <==> f.state == Established
    ensures packet.Some? ==> packet.value == Pkt(true, f.state == SynReceived, false, false, Wrap(f.sendNext - 1),
                                                 if f.state == SynReceived then f.recvNext else 0, 0)
  {
    if f0.Some? && f0.value.state == Established {
      return f0.value, None;
    }
    f := if f0.None? then Flow(SynSent, Wrap(isn + 1), 0, 0, false) else f0.value;
    var p := Pkt(true, false, false, false, Wrap(f.sendNext - 1), 0, 0);
    if f.state == SynReceived {
      p := p.(ack := true, ackNo := f.recvNext);
    }
    packet := Some(p);
  }

  /** What a flow makes of a carrier. */
  method HandleFlow(f0: Option<Flow>, p: Pkt, isn: U32) returns (flow: Option<Flow>, response: Option<Pkt>, deliver: bool)
    ensures Handled(flow, response, deliver) == Handle(f0, p, isn)
    ensures Obeys(f0, p, isn, flow, response, deliver)
  {
    HandleObeys(f0, p, isn);
    flow, response, deliver := f0, None, false;
    if p.rst || p.fin {
      flow := None;
      return;
    }
    if p.syn {
      if !p.ack {
        if flow.Some? && flow.value.state == Established {
          return;
        }
        if flow.None? {
          flow := Some(Flow(SynSent, Wrap(isn + 1), 0, 0, true));
        } else if flow.value.state == SynReceived && flow.value.recvNext != Wrap(p.seqNo + 1) {
          flow := Some(flow.value.(sendNext := Wrap(isn + 1)));
        }
        flow := Some(flow.value.(state := SynReceived, recvNext := Wrap(p.seqNo + 1), unacked := 0));
        response := Some(SynAckPkt(flow.value));
        return;
      }
      if flow.Some? && flow.value.state == Established {
        if p.ackNo == flow.value.sendNext && Wrap(p.seqNo + 1) == flow.value.recvNext {
          response := Some(AckPkt(flow.value));
        }
        return;
      }
      if flow.None? || p.ackNo != flow.value.sendNext {
        return;
      }
      flow := Some(flow.value.(state := Established, recvNext := Wrap(p.seqNo + 1)));
      response := Some(AckPkt(flow.value));
      return;
    }
    if flow.None? {
      return;
    }
    if flow.value.state == SynReceived && p.ack && p.ackNo == flow.value.sendNext {
      if p.len != 0 && p.seqNo != flow.value.recvNext {
        return;
      }
      flow := Some(flow.value.(state := Established));
      if p.len == 0 {
        return;
      }
    }
    if flow.value.state != Established || p.len == 0 {
      return;
    }
    var end := Wrap(p.seqNo + p.len);
    if Newer(end, flow.value.recvNext) {
      flow := Some(flow.value.(unacked := flow.value.unacked + Wrap(end - flow.value.recvNext)));
      flow := Some(flow.value.(recvNext := end));
    }
    deliver := true;
    if flow.value.unacked >= STANDALONE_ACK_AFTER {
      flow := Some(flow.value.(unacked := 0));
      response := Some(AckPkt(flow.value));
    }
  }

  /** Numbers datagrams of these lengths. */
  method SendFlow(f0: Flow, lens: seq<nat>) returns (f: Flow, packets: seq<Pkt>)
    ensures packets == DataPkts(f0, lens) && f == Sent(f0, lens).(unacked := 0)
    ensures |packets| == |lens| && forall i :: 0 <= i < |lens| ==> NumberedAt(f0, lens, packets, i)
    ensures f == f0.(sendNext := Wrap(f0.sendNext + Span(lens)), unacked := 0)
  {
    packets, f := [], f0;
    for i := 0 to |lens|
      invariant |packets| == i && packets + DataPkts(f, lens[i..]) == DataPkts(f0, lens)
      invariant Sent(f, lens[i..]) == Sent(f0, lens)
    {
      packets := packets + [DataPkt(f, lens[i])];
      f := f.(sendNext := Wrap(f.sendNext + FRAME_HEADER_SIZE + lens[i]));
      assert lens[i..][1..] == lens[i + 1..];
    }
    f := f.(unacked := 0);
    SentMoves(f0, lens);
    forall i | 0 <= i < |lens|
      ensures NumberedAt(f0, lens, packets, i)
    {
      DataPktsNumbered(f0, lens, i);
    }
  }
}
