/** The receive function of one socket with the fake-TCP transport enabled. */
module FakeTcpReceiver {
  import opened Basics
  import opened FakeTcpFrames
  import opened FakeTcpReceive
  import opened FakeTcpBatch
  import opened FakeTcpExpand

  /** One read: the results in the buffers, then the queue, are the arrivals in order. */
  method ReadBatch(bufs: seq<array<Byte>>, b: Batch, pending: FakeTcpPending, sizes0: seq<nat>, eps0: seq<Option<Endpoint>>)
    returns (n: nat, sizes: seq<nat>, eps: seq<Option<Endpoint>>)
    requires Disjoint(bufs) && bufs != [] && |sizes0| == |eps0| == |bufs| && BatchOk(Snap(bufs), b) && pending.packets == []
    modifies pending, bufs
    ensures AllWhole(pending.packets) && Deliverable(Snap(bufs), sizes, eps, n)
    ensures Delivered(Snap(bufs), sizes, eps, n) + Stream(pending.packets) == Arrivals(old(Snap(bufs)), b, |b.lens|)
  {
    var s := StartScan(|bufs|, sizes0, eps0);
    ghost var rs := [];
    CompactedStart(Snap(bufs), b, s, rs, pending.packets);
    s, rs := Compact(bufs, b, pending, s, rs);
    n, sizes, eps := FinishBatch(bufs, s, rs);
  }

  /** The results are the packets of the retained datagrams; an empty batch gives one empty result. */
  method FinishBatch(bufs: seq<array<Byte>>, s: Scan, ghost rs: seq<Rec>)
    returns (n: nat, sizes: seq<nat>, eps: seq<Option<Endpoint>>)
    requires Disjoint(bufs) && bufs != [] && ScanOk(Snap(bufs), s, rs)
    modifies bufs
    ensures Deliverable(Snap(bufs), sizes, eps, n) && Delivered(Snap(bufs), sizes, eps, n) == OutAll(rs)
  {
    if s.total == 0 {
      n, sizes, eps := 1, s.sizes[0 := 0], s.eps;
      assert Delivered(Snap(bufs), sizes, eps, 1) == Delivered(Snap(bufs), sizes, eps, 0);
    } else {
      n := s.total;
      sizes, eps := Expand(bufs, s, rs);
      PlacedIsDelivered(Snap(bufs), sizes, eps, rs);
    }
  }

  lemma {:induction false} PlacedIsDelivered(m: Mem, sizes: seq<nat>, eps: seq<Option<Endpoint>>, rs: seq<Rec>)
    requires AllOk(rs) && rs != [] && Placed(m, sizes, eps, OutAll(rs), 0, |OutAll(rs)|)
    ensures Deliverable(m, sizes, eps, |OutAll(rs)|) && Delivered(m, sizes, eps, |OutAll(rs)|) == OutAll(rs)
  {
    var ps := OutAll(rs);
    forall q | 0 <= q < |ps|
      ensures ps[q].data != []
    {
      OutAllNonEmpty(rs, q);
    }
    assert PlacedAt(m, sizes, eps, ps, |ps| - 1);
    DeliveredPlaced(m, sizes, eps, ps, |ps|);
    assert ps[..|ps|] == ps;
  }

  /** What is handed out now and what waits then are what waited before and what was read. */
  ghost predicate Passes(queue: seq<Packet>, read: seq<Packet>, now: seq<Packet>, queue': seq<Packet>) {
    now + queue' == queue + read
  }

  lemma {:induction false} PassesOld(all: seq<Packet>, now: seq<Packet>, queue': seq<Packet>)
    requires Splits(all, now, queue')
    ensures Passes(all, [], now, queue')
  {
    SplitsMeans(all, now, queue');
    assert all + [] == all;
  }

  lemma {:induction false} PassesNew(read: seq<Packet>, now: seq<Packet>, queue': seq<Packet>)
    requires now + queue' == read
    ensures Passes([], read, now, queue')
  {
    assert [] + read == read;
  }

  /** A call while packets wait. */
  method Drain(bufs: seq<array<Byte>>, pending: FakeTcpPending, sizes0: seq<nat>, eps0: seq<Option<Endpoint>>)
    returns (n: nat, sizes: seq<nat>, eps: seq<Option<Endpoint>>)
    requires AllWhole(pending.packets) && Disjoint(bufs) && |sizes0| == |eps0| == |bufs|
    modifies pending, bufs
    ensures AllWhole(pending.packets) && Deliverable(Snap(bufs), sizes, eps, n)
    ensures Passes(old(Stream(pending.packets)), [], Delivered(Snap(bufs), sizes, eps, n), Stream(pending.packets))
  {
    ghost var all := Stream(pending.packets);
    n, sizes, eps := pending.Receive(bufs, sizes0, eps0);
    PassesOld(all, Delivered(Snap(bufs), sizes, eps, n), Stream(pending.packets));
  }

  /** A call while none wait. */
  method Refill(bufs: seq<array<Byte>>, b: Batch, pending: FakeTcpPending, sizes0: seq<nat>, eps0: seq<Option<Endpoint>>)
    returns (n: nat, sizes: seq<nat>, eps: seq<Option<Endpoint>>)
    requires pending.packets == [] && Disjoint(bufs) && bufs != [] && |sizes0| == |eps0| == |bufs| && BatchOk(Snap(bufs), b)
    modifies pending, bufs
    ensures AllWhole(pending.packets) && Deliverable(Snap(bufs), sizes, eps, n)
    ensures Passes([], Arrivals(old(Snap(bufs)), b, |b.lens|), Delivered(Snap(bufs), sizes, eps, n), Stream(pending.packets))
  {
    ghost var read := Arrivals(Snap(bufs), b, |b.lens|);
    n, sizes, eps := ReadBatch(bufs, b, pending, sizes0, eps0);
    PassesNew(read, Delivered(Snap(bufs), sizes, eps, n), Stream(pending.packets));
  }

  /** What arrived is what was delivered, dropped at the end, or still waits. */
  ghost predicate Accounted(arrived: seq<Packet>, delivered: seq<Packet>, dropped: seq<Packet>, queue: seq<Packet>) {
    arrived == delivered + dropped + queue && (dropped != [] ==> queue == [])
  }

  lemma {:induction false} AccountedNext(arrived: seq<Packet>, delivered: seq<Packet>, queue: seq<Packet>, read: seq<Packet>, now: seq<Packet>, queue': seq<Packet>)
    requires Accounted(arrived, delivered, [], queue) && Passes(queue, read, now, queue')
    ensures Accounted(arrived + read, delivered + now, [], queue')
  {
    assert delivered + [] == delivered && delivered + now + [] == delivered + now;
    calc {
      arrived + read;
      (delivered + queue) + read;
      delivered + (queue + read);
      delivered + (now + queue');
      (delivered + now) + queue';
    }
  }

  lemma {:induction false} AccountedDrop(arrived: seq<Packet>, delivered: seq<Packet>, queue: seq<Packet>)
    requires Accounted(arrived, delivered, [], queue)
    ensures Accounted(arrived, delivered, queue, [])
  {
    assert delivered + [] == delivered && delivered + queue + [] == delivered + queue;
  }

  /** A receive function with everything that ever arrived at it, that it ever delivered, and that
      it dropped when its socket was closed. */
  class Receiver {
    const pending: FakeTcpPending
    ghost var arrived: seq<Packet>
    ghost var delivered: seq<Packet>
    ghost var dropped: seq<Packet>

    /** Nothing is lost, invented, changed or reordered while the socket is open: what was delivered
        is a prefix of what arrived, and the rest waits in the queue. What waits when the socket is
        closed is dropped. */
    ghost predicate Valid()
      reads this, pending
    {
      AllWhole(pending.packets) && Accounted(arrived, delivered, dropped, Stream(pending.packets))
    }

    constructor ()
      ensures Valid() && arrived == delivered == dropped == [] && fresh(pending)
    {
      pending := new FakeTcpPending();
      arrived, delivered, dropped := [], [], [];
    }

    /** A call on a socket; `b` is what a read gives, if it does not fail. A socket that was closed
        while packets wait drops them, and it gives nothing any more. */
    method ReceiveIP(bufs: seq<array<Byte>>, b: Option<Batch>, closed: bool, sizes0: seq<nat>, eps0: seq<Option<Endpoint>>)
      returns (n: nat, sizes: seq<nat>, eps: seq<Option<Endpoint>>, ok: bool)
      requires Valid() && Disjoint(bufs) && bufs != [] && |sizes0| == |eps0| == |bufs|
      requires pending.packets == [] && b.Some? ==> BatchOk(Snap(bufs), b.value) && dropped == []
      modifies this, pending, bufs
      ensures Valid() && Deliverable(Snap(bufs), sizes, eps, n)
      ensures delivered == old(delivered) + Delivered(Snap(bufs), sizes, eps, n)
      ensures ok <==> if old(pending.packets) != [] then !closed else b.Some?
      ensures dropped == if old(pending.packets) != [] && closed then old(Stream(pending.packets)) else old(dropped)
      ensures arrived == if old(pending.packets) == [] && b.Some? then old(arrived) + Arrivals(old(Snap(bufs)), b.value, |b.value.lens|)
                         else old(arrived)
    {
      n, sizes, eps, ok := 0, sizes0, eps0, false;
      if |pending.packets| > 0 {
        StreamFirst(pending.packets);
        if closed {
          DropAll();
        } else {
          n, sizes, eps := Deliver(bufs, sizes0, eps0);
          ok := true;
        }
      } else if b.Some? {
        n, sizes, eps := Arrive(bufs, b.value, sizes0, eps0);
        ok := true;
      }
    }

    method DropAll()
      requires Valid() && dropped == []
      modifies this`dropped, pending
      ensures Valid() && dropped == old(Stream(pending.packets)) && pending.packets == []
    {
      AccountedDrop(arrived, delivered, Stream(pending.packets));
      dropped := Stream(pending.packets);
      pending.packets := [];
    }

    method Deliver(bufs: seq<array<Byte>>, sizes0: seq<nat>, eps0: seq<Option<Endpoint>>)
      returns (n: nat, sizes: seq<nat>, eps: seq<Option<Endpoint>>)
      requires Valid() && dropped == [] && Disjoint(bufs) && |sizes0| == |eps0| == |bufs|
      modifies this`arrived, this`delivered, pending, bufs
      ensures Valid() && Deliverable(Snap(bufs), sizes, eps, n)
      ensures arrived == old(arrived) && delivered == old(delivered) + Delivered(Snap(bufs), sizes, eps, n)
    {
      ghost var queue := Stream(pending.packets);
      n, sizes, eps := Drain(bufs, pending, sizes0, eps0);
      ghost var now := Delivered(Snap(bufs), sizes, eps, n);
      AccountedNext(arrived, delivered, queue, [], now, Stream(pending.packets));
      assert arrived + [] == arrived;
      delivered := delivered + now;
    }

    method Arrive(bufs: seq<array<Byte>>, b: Batch, sizes0: seq<nat>, eps0: seq<Option<Endpoint>>)
      returns (n: nat, sizes: seq<nat>, eps: seq<Option<Endpoint>>)
      requires Valid() && dropped == [] && pending.packets == []
      requires Disjoint(bufs) && bufs != [] && |sizes0| == |eps0| == |bufs| && BatchOk(Snap(bufs), b)
      modifies this`arrived, this`delivered, pending, bufs
      ensures Valid() && Deliverable(Snap(bufs), sizes, eps, n)
      ensures arrived == old(arrived) + Arrivals(old(Snap(bufs)), b, |b.lens|)
      ensures delivered == old(delivered) + Delivered(Snap(bufs), sizes, eps, n)
    {
      ghost var read := Arrivals(Snap(bufs), b, |b.lens|);
      n, sizes, eps := Refill(bufs, b, pending, sizes0, eps0);
      ghost var now := Delivered(Snap(bufs), sizes, eps, n);
      AccountedNext(arrived, delivered, [], read, now, Stream(pending.packets));
      arrived, delivered := arrived + read, delivered + now;
    }
  }
}
