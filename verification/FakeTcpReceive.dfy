/** The batch receive path of the fake-TCP transport. Datagrams are compacted to the front of
    the caller's own buffers and carriers are then expanded backwards over the same buffers;
    what does not fit waits in a queue. */
module FakeTcpReceive {
  import opened Basics
  import opened FakeTcpCarrier
  import opened FakeTcpFrames

  datatype Endpoint = Endpoint(addr: nat, fakeTcp: bool)

  /** A packet as it is handed to the caller. */
  datatype Packet = Packet(data: seq<Byte>, ep: Endpoint)

  datatype PendingPacket = PendingPacket(data: seq<Byte>, ep: Endpoint, framed: bool)

  ghost function Tag(fs: seq<seq<Byte>>, ep: Endpoint): seq<Packet> {
    seq(|fs|, i requires 0 <= i < |fs| => Packet(fs[i], ep))
  }

  lemma {:induction false} TagConcat(a: seq<seq<Byte>>, b: seq<seq<Byte>>, ep: Endpoint)
    ensures Tag(a + b, ep) == Tag(a, ep) + Tag(b, ep)
  {
  }

  // ---------- the queue ----------

  ghost predicate Whole(q: PendingPacket) {
    q.data != [] && (q.framed ==> WellFramed(q.data))
  }

  ghost predicate AllWhole(ps: seq<PendingPacket>) {
    forall i :: 0 <= i < |ps| ==> Whole(ps[i])
  }

  ghost function PacketsOf(q: PendingPacket): seq<Packet>
    requires Whole(q)
  {
    if q.framed then Tag(Frames(q.data), q.ep) else [Packet(q.data, q.ep)]
  }

  /** The packets that wait in the queue, in order. */
  ghost function Stream(ps: seq<PendingPacket>): seq<Packet>
    requires AllWhole(ps)
  {
    if ps == [] then [] else PacketsOf(ps[0]) + Stream(ps[1..])
  }

  lemma {:induction false} Regroup<T>(a: seq<T>, b: seq<T>, c: seq<T>)
    ensures a + (b + c) == (a + b) + c
  {
  }

  lemma {:induction false} StreamAppend(ps: seq<PendingPacket>, q: PendingPacket)
    requires AllWhole(ps) && Whole(q)
    ensures AllWhole(ps + [q]) && Stream(ps + [q]) == Stream(ps) + PacketsOf(q)
  {
    var all := ps + [q];
    if ps == [] {
      assert all[1..] == [];
    } else {
      StreamAppend(ps[1..], q);
      assert all[1..] == ps[1..] + [q] && all[0] == ps[0];
      Regroup(PacketsOf(ps[0]), Stream(ps[1..]), PacketsOf(q));
    }
  }

  lemma {:induction false} FirstFrame(data: seq<Byte>, ep: Endpoint)
    requires WellFramed(data) && data != []
    ensures var e := FrameEnd(data);
            Tag(Frames(data), ep) == [Packet(data[FRAME_HEADER_SIZE..e], ep)] + Tag(Frames(data[e..]), ep)
  {
    var e := FrameEnd(data);
    TagConcat([data[FRAME_HEADER_SIZE..e]], Frames(data[e..]), ep);
  }

  lemma {:induction false} PushFront(q: PendingPacket, ps: seq<PendingPacket>)
    requires Whole(q) && AllWhole(ps)
    ensures AllWhole([q] + ps) && Stream([q] + ps) == PacketsOf(q) + Stream(ps)
  {
    assert ([q] + ps)[1..] == ps;
  }

  /** The first packet of the queue and what is left after it. */
  lemma {:induction false} StreamLastFrame(ps: seq<PendingPacket>)
    requires AllWhole(ps) && ps != [] && ps[0].framed && FrameEnd(ps[0].data) == |ps[0].data|
    ensures AllWhole(ps[1..]) && Stream(ps) == [Packet(FirstData(ps[0]), ps[0].ep)] + Stream(ps[1..])
  {
    LastFrame(ps[0].data, ps[0].ep);
    assert PacketsOf(ps[0]) == [Packet(FirstData(ps[0]), ps[0].ep)];
  }

  lemma {:induction false} LastFrame(data: seq<Byte>, ep: Endpoint)
    requires StartsFrame(data) && FrameEnd(data) == |data|
    ensures WellFramed(data) && Tag(Frames(data), ep) == [Packet(data[FRAME_HEADER_SIZE..FrameEnd(data)], ep)]
  {
    SingleFrame(data);
    assert data[FRAME_HEADER_SIZE..FrameEnd(data)] == data[FRAME_HEADER_SIZE..];
  }

  lemma {:induction false} ReplaceFront(q: PendingPacket, q': PendingPacket, first: Packet, rest: seq<PendingPacket>)
    requires Whole(q) && Whole(q') && AllWhole(rest) && PacketsOf(q) == [first] + PacketsOf(q')
    ensures AllWhole([q'] + rest) && AllWhole([q] + rest) && Stream([q] + rest) == [first] + Stream([q'] + rest)
  {
    PushFront(q, rest);
    PushFront(q', rest);
    Regroup([first], PacketsOf(q'), Stream(rest));
  }

  lemma {:induction false} StreamFirst(ps: seq<PendingPacket>)
    requires AllWhole(ps) && ps != []
    ensures Stream(ps) != [] && Stream(ps)[0] == Packet(FirstData(ps[0]), ps[0].ep)
  {
    if ps[0].framed {
      FirstFrame(ps[0].data, ps[0].ep);
    }
  }

  // ---------- the caller's buffers ----------

  ghost function Snap(bufs: seq<array<Byte>>): (m: seq<seq<Byte>>)
    reads bufs
    ensures |m| == |bufs| && forall k :: 0 <= k < |m| ==> m[k] == bufs[k][..]
  {
    seq(|bufs|, k requires 0 <= k < |bufs| reads bufs => bufs[k][..])
  }

  ghost predicate Disjoint(bufs: seq<array<Byte>>) { forall i, j :: Apart(bufs, i, j) }

  ghost predicate Apart(bufs: seq<array<Byte>>, i: int, j: int) {
    0 <= i < |bufs| && 0 <= j < |bufs| && i != j ==> bufs[i] != bufs[j]
  }

  /** Copies into the front of buffer `d`, which is long enough. */
  method Store(bufs: seq<array<Byte>>, d: nat, data: seq<Byte>)
    requires Disjoint(bufs) && d < |bufs| && |data| <= bufs[d].Length
    modifies bufs[d]
    ensures Snap(bufs) == old(Snap(bufs))[d := data + old(Snap(bufs))[d][|data|..]]
  {
    forall j | 0 <= j < |data| {
      bufs[d][j] := data[j];
    }
    assert bufs[d][..] == data + old(bufs[d][..])[|data|..];
    forall k | 0 <= k < |bufs| && k != d
      ensures bufs[k][..] == old(bufs[k][..])
    {
      assert Apart(bufs, k, d);
    }
  }

  /** Non-empty results among the first `n`. */
  ghost function Delivered(m: seq<seq<Byte>>, sizes: seq<nat>, eps: seq<Option<Endpoint>>, n: nat): seq<Packet>
    requires n <= |m| && n <= |sizes| && n <= |eps|
    requires forall k :: 0 <= k < n && sizes[k] > 0 ==> sizes[k] <= |m[k]| && eps[k].Some?
  {
    if n == 0 then []
    else if sizes[n - 1] == 0 then Delivered(m, sizes, eps, n - 1)
    else Delivered(m, sizes, eps, n - 1) + [Packet(m[n - 1][..sizes[n - 1]], eps[n - 1].value)]
  }

  ghost predicate Deliverable(m: seq<seq<Byte>>, sizes: seq<nat>, eps: seq<Option<Endpoint>>, n: nat) {
    && n <= |m| && n <= |sizes| && n <= |eps|
    && forall k :: 0 <= k < n && sizes[k] > 0 ==> sizes[k] <= |m[k]| && eps[k].Some?
  }

  /** Only what was delivered so far matters. */
  lemma {:induction false} DeliveredFrame(m: seq<seq<Byte>>, sizes: seq<nat>, eps: seq<Option<Endpoint>>,
                                          m': seq<seq<Byte>>, sizes': seq<nat>, eps': seq<Option<Endpoint>>, n: nat)
    requires Deliverable(m, sizes, eps, n) && Deliverable(m', sizes', eps', n)
    requires forall k :: 0 <= k < n ==> m'[k] == m[k] && sizes'[k] == sizes[k] && eps'[k] == eps[k]
    ensures Delivered(m, sizes, eps, n) == Delivered(m', sizes', eps', n)
  {
    if n > 0 {
      DeliveredFrame(m, sizes, eps, m', sizes', eps', n - 1);
    }
  }

  /** One more result, or none. */
  lemma {:induction false} DeliveredNext(m: seq<seq<Byte>>, sizes: seq<nat>, eps: seq<Option<Endpoint>>,
                                         m': seq<seq<Byte>>, sizes': seq<nat>, eps': seq<Option<Endpoint>>, n: nat)
    requires Deliverable(m, sizes, eps, n) && n < |m'| == |m| && |sizes'| == |sizes| && |eps'| == |eps| && n < |sizes'| && n < |eps'|
    requires forall k :: 0 <= k < n ==> m'[k] == m[k] && sizes'[k] == sizes[k] && eps'[k] == eps[k]
    requires sizes'[n] > 0 ==> sizes'[n] <= |m'[n]| && eps'[n].Some?
    ensures Deliverable(m', sizes', eps', n + 1)
    ensures Delivered(m', sizes', eps', n + 1) ==
            if sizes'[n] == 0 then Delivered(m, sizes, eps, n)
            else Delivered(m, sizes, eps, n) + [Packet(m'[n][..sizes'[n]], eps'[n].value)]
  {
    DeliveredFrame(m, sizes, eps, m', sizes', eps', n);
  }

  /** `all` is `out` followed by `rest`, element by element. */
  ghost predicate Splits(all: seq<Packet>, out: seq<Packet>, rest: seq<Packet>) {
    && |all| == |out| + |rest| && (forall i :: 0 <= i < |out| ==> all[i] == out[i])
    && (forall i :: 0 <= i < |rest| ==> all[|out| + i] == rest[i])
  }

  lemma {:induction false} SplitsMeans(all: seq<Packet>, out: seq<Packet>, rest: seq<Packet>)
    ensures Splits(all, out, rest) <==> all == out + rest
  {
    if Splits(all, out, rest) {
      forall i | 0 <= i < |all|
        ensures all[i] == (out + rest)[i]
      {
        assert i >= |out| ==> all[|out| + (i - |out|)] == rest[i - |out|];
      }
    }
  }

  lemma {:induction false} MoveOver(all: seq<Packet>, out: seq<Packet>, rest: seq<Packet>, x: Packet, rest': seq<Packet>)
    requires Splits(all, out, rest) && rest == [x] + rest'
    ensures Splits(all, out + [x], rest')
  {
    SplitsMeans(all, out, rest);
    Regroup(out, [x], rest');
    SplitsMeans(all, out + [x], rest');
  }

  /** What was handed out and what is still queued are together `all`. */
  ghost predicate Drained(m: seq<seq<Byte>>, sizes: seq<nat>, eps: seq<Option<Endpoint>>, n: nat, ps: seq<PendingPacket>, all: seq<Packet>) {
    AllWhole(ps) && Deliverable(m, sizes, eps, n) && Splits(all, Delivered(m, sizes, eps, n), Stream(ps))
  }

  ghost function Lengths(bufs: seq<array<Byte>>): (lens: seq<nat>)
    ensures |lens| == |bufs| && forall k :: 0 <= k < |lens| ==> lens[k] == bufs[k].Length
  {
    seq(|bufs|, k requires 0 <= k < |bufs| => bufs[k].Length)
  }

  /** How many packets of a queue the first `n` buffers take: a buffer that the next packet does not
      fit into stays empty. */
  ghost function Handed(all: seq<Packet>, room: seq<nat>, n: nat): nat
    requires n <= |room|
  {
    if n == 0 then 0
    else
      var c := Handed(all, room, n - 1);
      if c < |all| && |all[c].data| <= room[n - 1] then c + 1 else c
  }

  /** So many were handed out of `all` in `n` buffers, and the last one was still needed. */
  ghost predicate HandsOut(all: seq<Packet>, room: seq<nat>, n: nat, out: seq<Packet>) {
    n <= |room| && |out| == Handed(all, room, n) && (n > 0 ==> Handed(all, room, n - 1) < |all|)
  }

  /** Packets of `all` were handed out in `n` buffers, as many as they take; the others wait. */
  ghost predicate Handing(m: seq<seq<Byte>>, sizes: seq<nat>, eps: seq<Option<Endpoint>>, n: nat, ps: seq<PendingPacket>,
                          all: seq<Packet>, room: seq<nat>) {
    Drained(m, sizes, eps, n, ps, all) && HandsOut(all, room, n, Delivered(m, sizes, eps, n))
  }

  lemma {:induction false} HandedNone(m: seq<seq<Byte>>, sizes: seq<nat>, eps: seq<Option<Endpoint>>, ps: seq<PendingPacket>, room: seq<nat>)
    requires AllWhole(ps)
    ensures Handing(m, sizes, eps, 0, ps, Stream(ps), room)
  {
  }

  lemma {:induction false} HandedNext(all: seq<Packet>, room: seq<nat>, n: nat, out: seq<Packet>, ps: seq<PendingPacket>, out': seq<Packet>)
    requires n < |room| && AllWhole(ps) && ps != [] && Splits(all, out, Stream(ps)) && HandsOut(all, room, n, out)
    requires |out'| == |out| + (if |FirstData(ps[0])| <= room[n] then 1 else 0)
    ensures HandsOut(all, room, n + 1, out')
  {
    StreamFirst(ps);
    assert all[|out|] == Stream(ps)[0];
  }

  class FakeTcpPending {
    var packets: seq<PendingPacket>

    constructor ()
      ensures packets == []
    {
      packets := [];
    }

    method Append(data: seq<Byte>, ep: Endpoint, framed: bool)
      requires AllWhole(packets) && Whole(PendingPacket(data, ep, framed))
      modifies this
      ensures packets == old(packets) + [PendingPacket(data, ep, framed)] && AllWhole(packets)
      ensures Stream(packets) == old(Stream(packets)) + PacketsOf(PendingPacket(data, ep, framed))
    {
      StreamAppend(packets, PendingPacket(data, ep, framed));
      packets := packets + [PendingPacket(data, ep, framed)];
    }

    /** Takes the first packet off the queue. */
    method Pop() returns (packet: Packet)
      requires AllWhole(packets) && packets != []
      modifies this
      ensures AllWhole(packets) && old(Stream(packets)) == [packet] + Stream(packets)
      ensures packet.data == FirstData(old(packets)[0]) && packet.ep == old(packets)[0].ep
    {
      var q := packets[0];
      var data, remaining := q.data, [];
      if q.framed {
        var ok;
        data, remaining, ok := NextFrame(q.data);
      }
      packet := Packet(data, q.ep);
      if |remaining| == 0 {
        if q.framed {
          StreamLastFrame(packets);
        }
        packets := packets[1..];
      } else {
        FirstFrame(q.data, q.ep);
        ReplaceFront(q, q.(data := remaining), packet, packets[1..]);
        assert packets == [q] + packets[1..];
        packets := [q.(data := remaining)] + packets[1..];
      }
    }

    /** Hands the next packet out in buffer `n`, if it fits. */
    method HandOut(bufs: seq<array<Byte>>, n: nat, sizes0: seq<nat>, eps0: seq<Option<Endpoint>>, ghost all: seq<Packet>)
      returns (sizes: seq<nat>, eps: seq<Option<Endpoint>>)
      requires packets != [] && Disjoint(bufs) && n < |bufs| == |sizes0| == |eps0|
      requires Drained(Snap(bufs), sizes0, eps0, n, packets, all)
      modifies this, bufs[n]
      ensures |sizes| == |eps| == |bufs| && Drained(Snap(bufs), sizes, eps, n + 1, packets, all)
      ensures |Delivered(Snap(bufs), sizes, eps, n + 1)| ==
              old(|Delivered(Snap(bufs), sizes0, eps0, n)| + (if |FirstData(packets[0])| <= bufs[n].Length then 1 else 0))
    {
      ghost var m := Snap(bufs);
      ghost var out := Delivered(m, sizes0, eps0, n);
      var data := PeekData(packets[0]);
      if bufs[n].Length < |data| {
        sizes, eps := sizes0[n := 0], eps0[n := None];
        DeliveredNext(m, sizes0, eps0, m, sizes, eps, n);
      } else {
        ghost var before := Stream(packets);
        var packet := Pop();
        Store(bufs, n, data);
        sizes, eps := sizes0[n := |data|], eps0[n := Some(packet.ep)];
        DeliveredNext(m, sizes0, eps0, Snap(bufs), sizes, eps, n);
        assert Snap(bufs)[n][..|data|] == data;
        MoveOver(all, out, before, packet, Stream(packets));
      }
    }

    /** Hands queued packets out, one to a buffer, until the buffers or the packets run out; a
        buffer too short for the next packet stays empty. Nothing is lost and the order is kept. */
    method Receive(bufs: seq<array<Byte>>, sizes0: seq<nat>, eps0: seq<Option<Endpoint>>)
      returns (n: nat, sizes: seq<nat>, eps: seq<Option<Endpoint>>)
      requires AllWhole(packets) && Disjoint(bufs) && |sizes0| == |eps0| == |bufs|
      modifies this, bufs
      ensures |sizes| == |eps| == |bufs| && (n == |bufs| || packets == [])
      ensures Handing(Snap(bufs), sizes, eps, n, packets, old(Stream(packets)), Lengths(bufs))
    {
      n, sizes, eps := 0, sizes0, eps0;
      ghost var all := Stream(packets);
      HandedNone(Snap(bufs), sizes, eps, packets, Lengths(bufs));
      while n < |bufs| && |packets| > 0
        invariant n <= |bufs| == |sizes| == |eps| && Handing(Snap(bufs), sizes, eps, n, packets, all, Lengths(bufs))
        decreases |bufs| - n
      {
        sizes, eps := HandNext(bufs, n, sizes, eps, all);
        n := n + 1;
      }
    }

    method HandNext(bufs: seq<array<Byte>>, n: nat, sizes0: seq<nat>, eps0: seq<Option<Endpoint>>, ghost all: seq<Packet>)
      returns (sizes: seq<nat>, eps: seq<Option<Endpoint>>)
      requires packets != [] && Disjoint(bufs) && n < |bufs| == |sizes0| == |eps0|
      requires Handing(Snap(bufs), sizes0, eps0, n, packets, all, Lengths(bufs))
      modifies this, bufs[n]
      ensures |sizes| == |eps| == |bufs| && Handing(Snap(bufs), sizes, eps, n + 1, packets, all, Lengths(bufs))
    {
      ghost var out, ps := Delivered(Snap(bufs), sizes0, eps0, n), packets;
      sizes, eps := HandOut(bufs, n, sizes0, eps0, all);
      HandedNext(all, Lengths(bufs), n, out, ps, Delivered(Snap(bufs), sizes, eps, n + 1));
    }
  }

  /** The bytes of the first packet of a queue entry. */
  ghost function FirstData(q: PendingPacket): (d: seq<Byte>)
    requires Whole(q)
    ensures d != []
  {
    if q.framed then q.data[FRAME_HEADER_SIZE..FrameEnd(q.data)] else q.data
  }

  method PeekData(q: PendingPacket) returns (data: seq<Byte>)
    requires Whole(q)
    ensures data == FirstData(q)
  {
    data := q.data;
    if q.framed {
      var remaining, ok;
      data, remaining, ok := NextFrame(q.data);
    }
  }
}
