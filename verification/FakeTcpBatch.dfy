/** One batch read: compaction of the retained datagrams, then expansion in place. */
module FakeTcpBatch {
  import opened Basics
  import opened FakeTcpFrames
  import opened FakeTcpReceive

  type Mem = seq<seq<Byte>>

  // ---------- retained datagrams ----------

  /** A datagram kept in front of the buffers: a plain one, or `frames` frames of a carrier. */
  datatype Rec = Rec(data: seq<Byte>, ep: Endpoint, frames: nat)

  ghost predicate RecOk(r: Rec) {
    r.data != [] && (r.frames > 0 ==> WellFramed(r.data) && |Frames(r.data)| == r.frames)
  }

  ghost predicate AllOk(rs: seq<Rec>) {
    forall i :: 0 <= i < |rs| ==> RecOk(rs[i])
  }

  /** The packets a retained datagram turns into. */
  ghost function Out(r: Rec): (ps: seq<Packet>)
    requires RecOk(r)
    ensures |ps| == if r.frames == 0 then 1 else r.frames
  {
    if r.frames == 0 then [Packet(r.data, r.ep)] else Tag(Frames(r.data), r.ep)
  }

  ghost function OutAll(rs: seq<Rec>): (ps: seq<Packet>)
    requires AllOk(rs)
    ensures |ps| >= |rs|
  {
    if rs == [] then [] else OutAll(rs[..|rs| - 1]) + Out(rs[|rs| - 1])
  }

  lemma {:induction false} OutAllAppend(rs: seq<Rec>, r: Rec)
    requires AllOk(rs) && RecOk(r)
    ensures AllOk(rs + [r]) && OutAll(rs + [r]) == OutAll(rs) + Out(r)
  {
    assert (rs + [r])[..|rs|] == rs;
  }

  /** The packets of a shorter prefix come first. */
  lemma {:induction false} OutAllPrefix(rs: seq<Rec>, k: nat)
    requires AllOk(rs) && k <= |rs|
    ensures OutAll(rs[..k]) <= OutAll(rs)
    decreases |rs| - k
  {
    if k < |rs| {
      OutAllPrefix(rs, k + 1);
      assert rs[..k + 1][..k] == rs[..k];
    } else {
      assert rs[..k] == rs;
    }
  }

  // ---------- the state of the scan ----------

  datatype Scan = Scan(retained: nat, total: nat, deferred: bool,
                       sizes: seq<nat>, eps: seq<Option<Endpoint>>, counts: seq<nat>)

  ghost predicate HoldsAt(m: Mem, sizes: seq<nat>, eps: seq<Option<Endpoint>>, k: nat, r: Rec)
    requires k < |m| == |sizes| == |eps|
  {
    sizes[k] == |r.data| <= |m[k]| && m[k][..sizes[k]] == r.data && eps[k] == Some(r.ep)
  }

  /** The packets that the retained datagrams turn into fit the buffers they will end up in. */
  ghost predicate Room(m: Mem, ps: seq<Packet>) {
    |ps| <= |m| && forall q :: 0 <= q < |ps| ==> |ps[q].data| <= |m[q]|
  }

  ghost predicate ScanOk(m: Mem, s: Scan, rs: seq<Rec>) {
    && |s.sizes| == |s.eps| == |s.counts| == |m| && s.retained == |rs| <= |m|
    && AllOk(rs) && s.total == |OutAll(rs)| && Room(m, OutAll(rs))
    && (forall k :: 0 <= k < |rs| ==> HoldsAt(m, s.sizes, s.eps, k, rs[k]) && s.counts[k] == rs[k].frames)
    && (forall k :: |rs| <= k < |m| ==> s.counts[k] == 0)
  }

  /** The packets of one datagram as it arrived. */
  ghost function MsgPackets(bytes: seq<Byte>, from: Endpoint, accepts: bool): seq<Packet> {
    if bytes == [] then []
    else match Classify(bytes, accepts)
      case Plain => [Packet(bytes, from)]
      case Dropped => []
      case Data(payload) => Tag(Frames(payload), from.(fakeTcp := true))
  }

  /** The packets fit the buffers from `at` on, one by one. */
  ghost predicate Fits(bufs: seq<array<Byte>>, at: nat, ps: seq<Packet>) {
    at + |ps| <= |bufs| && forall j :: 0 <= j < |ps| ==> |ps[j].data| <= bufs[at + j].Length
  }

  lemma {:induction false} FitsNext(bufs: seq<array<Byte>>, at: nat, ps: seq<Packet>, j: nat)
    requires j < |ps| && at + |ps| <= |bufs|
    ensures Fits(bufs, at, ps[..j + 1]) <==> Fits(bufs, at, ps[..j]) && |ps[j].data| <= bufs[at + j].Length
  {
    var p, p' := ps[..j], ps[..j + 1];
    assert forall k :: 0 <= k < j ==> p'[k] == p[k];
    assert p'[j] == ps[j];
  }

  lemma {:induction false} RetainOk(m: Mem, s: Scan, rs: seq<Rec>, m': Mem, r: Rec, s': Scan)
    requires ScanOk(m, s, rs) && RecOk(r) && s.total + |Out(r)| <= |m|
    requires |m'| == |m| && forall k :: 0 <= k < |m| ==> |m'[k]| == |m[k]|
    requires forall k :: 0 <= k < s.retained ==> m'[k] == m[k]
    requires s.retained < |m| && |r.data| <= |m[s.retained]| && m'[s.retained][..|r.data|] == r.data
    requires forall j :: 0 <= j < |Out(r)| ==> |Out(r)[j].data| <= |m[s.total + j]|
    requires s' == Scan(s.retained + 1, s.total + |Out(r)|, s'.deferred, s.sizes[s.retained := |r.data|],
                        s.eps[s.retained := Some(r.ep)], s.counts[s.retained := r.frames])
    ensures ScanOk(m', s', rs + [r])
  {
    OutAllAppend(rs, r);
    assert Room(m', OutAll(rs + [r])) by {
      forall q | 0 <= q < |OutAll(rs + [r])|
        ensures |OutAll(rs + [r])[q].data| <= |m'[q]|
      {
        if q >= s.total {
          assert OutAll(rs + [r])[q] == Out(r)[q - s.total];
        }
      }
    }
    forall k | 0 <= k < |rs + [r]|
      ensures HoldsAt(m', s'.sizes, s'.eps, k, (rs + [r])[k]) && s'.counts[k] == (rs + [r])[k].frames
    {
      if k < |rs| {
        assert HoldsAt(m, s.sizes, s.eps, k, rs[k]);
      }
    }
  }

  // ---------- compaction ----------

  /** Where the first `count` frames end. */
  method SkipFrames(payload: seq<Byte>, count: nat) returns (at: nat)
    requires WellFramed(payload) && count <= |Frames(payload)|
    ensures Cursor(payload, at, count)
  {
    var remaining := payload;
    CursorStart(payload);
    ghost var done: nat := 0;
    for n := 0 to count
      invariant Cursor(payload, done, n) && remaining == payload[done..]
    {
      CursorAt(payload, done, n);
      CursorNext(payload, done, n);
      var frame, ok;
      frame, remaining, ok := NextFrame(remaining);
      done := |payload| - |remaining|;
    }
    at := |payload| - |remaining|;
  }

  /** Whether the frames fit: together where they are kept and one by one where they end up. */
  method FramesFit(bufs: seq<array<Byte>>, retained: nat, total: nat, payload: seq<Byte>, frames: nat, ghost ep: Endpoint)
    returns (fits: bool)
    requires WellFramed(payload) && frames == |Frames(payload)| && retained < |bufs| && total + frames <= |bufs|
    ensures fits <==> |payload| <= bufs[retained].Length && Fits(bufs, total, Tag(Frames(payload), ep))
  {
    fits := bufs[retained].Length >= |payload|;
    var remaining, j: nat := payload, 0;
    CursorStart(payload);
    ghost var at: nat := 0;
    while fits && j < frames
      invariant Cursor(payload, at, j) && j <= frames && remaining == payload[at..]
      invariant fits <==> |payload| <= bufs[retained].Length && Fits(bufs, total, Tag(Frames(payload), ep)[..j])
      decreases frames - j
    {
      CursorAt(payload, at, j);
      CursorNext(payload, at, j);
      var frame, ok;
      frame, remaining, ok := NextFrame(remaining);
      fits := bufs[total + j].Length >= |frame|;
      FitsNext(bufs, total, Tag(Frames(payload), ep), j);
      at := |payload| - |remaining|;
      j := j + 1;
    }
    if fits {
      assert Tag(Frames(payload), ep)[..frames] == Tag(Frames(payload), ep);
    }
  }

  ghost predicate Behind(m: Mem, m': Mem, i: nat) {
    |m'| == |m| && (forall k :: 0 <= k < |m| ==> |m'[k]| == |m[k]|) && forall k :: i < k < |m| ==> m'[k] == m[k]
  }

  /** What one datagram adds to the retained datagrams and the queue. */
  ghost predicate Adds(rs: seq<Rec>, ps: seq<PendingPacket>, rs': seq<Rec>, ps': seq<PendingPacket>, packets: seq<Packet>) {
    && AllOk(rs) && AllWhole(ps) && AllOk(rs') && AllWhole(ps')
    && OutAll(rs') + Stream(ps') == OutAll(rs) + Stream(ps) + packets
  }

  lemma {:induction false} QueueAdds(rs: seq<Rec>, ps: seq<PendingPacket>, q: PendingPacket)
    requires AllOk(rs) && AllWhole(ps) && Whole(q)
    ensures Adds(rs, ps, rs, ps + [q], PacketsOf(q))
  {
    StreamAppend(ps, q);
    Regroup(OutAll(rs), Stream(ps), PacketsOf(q));
  }

  lemma {:induction false} RetainAdds(rs: seq<Rec>, r: Rec)
    requires AllOk(rs) && RecOk(r)
    ensures Adds(rs, [], rs + [r], [], Out(r))
  {
    OutAllAppend(rs, r);
  }

  lemma {:induction false} RetainPartAdds(rs: seq<Rec>, r: Rec, q: PendingPacket)
    requires AllOk(rs) && RecOk(r) && Whole(q)
    ensures Adds(rs, [], rs + [r], [q], Out(r) + PacketsOf(q))
  {
    OutAllAppend(rs, r);
    StreamAppend([], q);
    assert [] + [q] == [q];
    assert Stream([q]) == PacketsOf(q) && OutAll(rs) + Stream([]) == OutAll(rs);
    Regroup(OutAll(rs), Out(r), PacketsOf(q));
  }

  /** One datagram with these packets was taken: it is retained, queued or cut in two. */
  ghost predicate Took(m: Mem, s: Scan, rs: seq<Rec>, ps: seq<PendingPacket>,
                       m': Mem, s': Scan, rs': seq<Rec>, ps': seq<PendingPacket>, packets: seq<Packet>) {
    && ScanOk(m', s', rs') && s'.retained <= s.retained + 1 && (!s'.deferred ==> ps' == [])
    && Adds(rs, ps, rs', ps', packets) && Behind(m, m', s.retained)
  }

  /** Queues a datagram; everything after it is queued too. */
  method Defer(bufs: seq<array<Byte>>, data: seq<Byte>, ep: Endpoint, framed: bool, pending: FakeTcpPending,
               s: Scan, ghost rs: seq<Rec>) returns (s': Scan)
    requires ScanOk(Snap(bufs), s, rs) && AllWhole(pending.packets) && Whole(PendingPacket(data, ep, framed))
    modifies pending
    ensures Took(old(Snap(bufs)), s, rs, old(pending.packets), Snap(bufs), s', rs, pending.packets, PacketsOf(PendingPacket(data, ep, framed)))
  {
    QueueAdds(rs, pending.packets, PendingPacket(data, ep, framed));
    pending.Append(data, ep, framed);
    s' := s.(deferred := true);
  }

  /** Keeps `data` as the next retained datagram; it may move within its own buffer. */
  method Retain(bufs: seq<array<Byte>>, s: Scan, ghost rs: seq<Rec>, data: seq<Byte>, ep: Endpoint, frames: nat, inPlace: bool)
    returns (s': Scan)
    requires Disjoint(bufs) && ScanOk(Snap(bufs), s, rs)
    requires var r := Rec(data, ep, frames);
             RecOk(r) && Fits(bufs, s.total, Out(r)) && |data| <= bufs[s.retained].Length
    requires inPlace ==> bufs[s.retained][..|data|] == data
    modifies bufs[s.retained]
    ensures ScanOk(Snap(bufs), s', rs + [Rec(data, ep, frames)])
    ensures s'.retained == s.retained + 1 && s'.deferred == s.deferred
    ensures Behind(old(Snap(bufs)), Snap(bufs), s.retained)
  {
    ghost var m, r := Snap(bufs), Rec(data, ep, frames);
    if !inPlace {
      Store(bufs, s.retained, data);
    }
    s' := Scan(s.retained + 1, s.total + (if frames == 0 then 1 else frames), s.deferred,
               s.sizes[s.retained := |data|], s.eps[s.retained := Some(ep)], s.counts[s.retained := frames]);
    RetainOk(m, s, rs, Snap(bufs), r, s');
  }

  /** How many frames there is room for, and where they end. */
  method FrameLimit(payload: seq<Byte>, frames: nat, available: nat) returns (at: nat, take: nat)
    requires WellFramed(payload) && frames == |Frames(payload)|
    ensures Cursor(payload, at, take)
    ensures take == if frames > available then available else frames
  {
    if frames > available {
      at := SkipFrames(payload, available);
      take := available;
    } else {
      assert payload[..|payload|] == payload;
      at, take := |payload|, frames;
    }
  }

  /** Cutting at the cursor. */
  lemma {:induction false} CutAt(payload: seq<Byte>, at: nat, take: nat, ep: Endpoint)
    requires WellFramed(payload) && Cursor(payload, at, take)
    ensures WellFramed(payload[..at]) && WellFramed(payload[at..]) && |Frames(payload[..at])| == take
    ensures Tag(Frames(payload), ep) == Tag(Frames(payload[..at]), ep) + Tag(Frames(payload[at..]), ep)
  {
    FramesSplit(payload, at);
    TagConcat(Frames(payload[..at]), Frames(payload[at..]), ep);
  }

  /** The frames there is room for, and the others. */
  method Divide(payload: seq<Byte>, frames: nat, available: nat, ghost ep: Endpoint) returns (head: seq<Byte>, tail: seq<Byte>, take: nat)
    requires WellFramed(payload) && frames == |Frames(payload)| && payload != [] && available > 0
    ensures WellFramed(head) && WellFramed(tail) && head != [] && payload == head + tail
    ensures take == |Frames(head)| == if frames > available then available else frames
    ensures Tag(Frames(payload), ep) == Tag(Frames(head), ep) + Tag(Frames(tail), ep)
  {
    var at;
    at, take := FrameLimit(payload, frames, available);
    CutAt(payload, at, take, ep);
    head, tail := payload[..at], payload[at..];
  }

  /** Queues the frames there is no room for. */
  method QueueRest(tail: seq<Byte>, ep: Endpoint, pending: FakeTcpPending, ghost rs: seq<Rec>, ghost r: Rec) returns (deferred: bool)
    requires WellFramed(tail) && pending.packets == [] && AllOk(rs) && RecOk(r)
    modifies pending
    ensures deferred <==> tail != []
    ensures !deferred ==> pending.packets == []
    ensures Adds(rs, [], rs + [r], pending.packets, Out(r) + Tag(Frames(tail), ep))
  {
    deferred := |tail| > 0;
    if deferred {
      RetainPartAdds(rs, r, PendingPacket(tail, ep, true));
      pending.Append(tail, ep, true);
    } else {
      RetainAdds(rs, r);
      assert Out(r) + Tag(Frames(tail), ep) == Out(r);
    }
  }

  /** Retains the frames there is room for and queues the rest. */
  method RetainFrames(bufs: seq<array<Byte>>, head: seq<Byte>, tail: seq<Byte>, take: nat, ep: Endpoint, pending: FakeTcpPending,
                      s: Scan, ghost rs: seq<Rec>, ghost r: Rec) returns (s': Scan)
    requires Disjoint(bufs) && ScanOk(Snap(bufs), s, rs) && pending.packets == [] && !s.deferred
    requires r == Rec(head, ep, take) && RecOk(r) && WellFramed(tail)
    requires Fits(bufs, s.total, Out(r)) && |head| <= bufs[s.retained].Length
    modifies pending, bufs[s.retained]
    ensures Took(old(Snap(bufs)), s, rs, [], Snap(bufs), s', rs + [r], pending.packets, Out(r) + Tag(Frames(tail), ep))
  {
    var deferred := QueueRest(tail, ep, pending, rs, r);
    assert Snap(bufs) == old(Snap(bufs));
    s' := s.(deferred := deferred);
    assert ScanOk(Snap(bufs), s', rs);
    s' := Retain(bufs, s', rs, head, ep, take, false);
  }

  /** A carrier with at least one frame: retained, queued, or cut in two where the buffers end. */
  method TakeCarrier(bufs: seq<array<Byte>>, payload: seq<Byte>, frames: nat, ep: Endpoint, pending: FakeTcpPending,
                     s: Scan, ghost rs: seq<Rec>) returns (s': Scan, ghost rs': seq<Rec>)
    requires Disjoint(bufs) && ScanOk(Snap(bufs), s, rs) && AllWhole(pending.packets)
    requires !s.deferred ==> pending.packets == []
    requires WellFramed(payload) && payload != [] && frames == |Frames(payload)|
    modifies pending, bufs
    ensures Took(old(Snap(bufs)), s, rs, old(pending.packets), Snap(bufs), s', rs', pending.packets, Tag(Frames(payload), ep))
  {
    var available := |bufs| - s.total;
    if s.deferred || available == 0 {
      rs' := rs;
      s' := Defer(bufs, payload, ep, true, pending, s, rs);
      return;
    }
    var head, tail, take := Divide(payload, frames, available, ep);
    var fits := FramesFit(bufs, s.retained, s.total, head, take, ep);
    if !fits {
      rs' := rs;
      s' := Defer(bufs, payload, ep, true, pending, s, rs);
      return;
    }
    ghost var r := Rec(head, ep, take);
    rs' := rs + [r];
    s' := RetainFrames(bufs, head, tail, take, ep, pending, s, rs, r);
  }

  /** A plain datagram that was read into buffer `i`. */
  method TakePlain(bufs: seq<array<Byte>>, i: nat, n: nat, ep: Endpoint, pending: FakeTcpPending,
                   s: Scan, ghost rs: seq<Rec>) returns (s': Scan, ghost rs': seq<Rec>)
    requires Disjoint(bufs) && ScanOk(Snap(bufs), s, rs) && AllWhole(pending.packets)
    requires !s.deferred ==> pending.packets == []
    requires s.retained <= i < |bufs| && 0 < n <= bufs[i].Length
    modifies pending, bufs
    ensures Took(old(Snap(bufs)), s, rs, old(pending.packets), Snap(bufs), s', rs', pending.packets, [Packet(old(bufs[i][..n]), ep)])
  {
    var bytes := bufs[i][..n];
    if s.deferred || s.total == |bufs| || bufs[s.retained].Length < n || bufs[s.total].Length < n {
      rs' := rs;
      s' := Defer(bufs, bytes, ep, false, pending, s, rs);
      return;
    }
    rs' := rs + [Rec(bytes, ep, 0)];
    s' := RetainPlain(bufs, bytes, ep, pending, s, rs, s.retained == i);
  }

  /** A plain datagram that fits stays where it is or moves to the front. */
  method RetainPlain(bufs: seq<array<Byte>>, bytes: seq<Byte>, ep: Endpoint, ghost pending: FakeTcpPending,
                     s: Scan, ghost rs: seq<Rec>, inPlace: bool) returns (s': Scan)
    requires Disjoint(bufs) && ScanOk(Snap(bufs), s, rs) && pending.packets == [] && !s.deferred && bytes != []
    requires s.total < |bufs| && |bytes| <= bufs[s.retained].Length && |bytes| <= bufs[s.total].Length
    requires inPlace ==> bufs[s.retained][..|bytes|] == bytes
    modifies bufs[s.retained]
    ensures Took(old(Snap(bufs)), s, rs, [], Snap(bufs), s', rs + [Rec(bytes, ep, 0)], pending.packets, [Packet(bytes, ep)])
  {
    ghost var r := Rec(bytes, ep, 0);
    RetainAdds(rs, r);
    s' := Retain(bufs, s, rs, bytes, ep, 0, inPlace);
  }

  /** One datagram of the batch. */
  method Take(bufs: seq<array<Byte>>, i: nat, n: nat, from: Endpoint, accepts: bool, pending: FakeTcpPending,
              s: Scan, ghost rs: seq<Rec>) returns (s': Scan, ghost rs': seq<Rec>)
    requires Disjoint(bufs) && ScanOk(Snap(bufs), s, rs) && AllWhole(pending.packets)
    requires !s.deferred ==> pending.packets == []
    requires s.retained <= i < |bufs| && n <= bufs[i].Length
    modifies pending, bufs
    ensures Took(old(Snap(bufs)), s, rs, old(pending.packets), Snap(bufs), s', rs', pending.packets,
                 MsgPackets(old(bufs[i][..n]), from, accepts))
  {
    s', rs' := s, rs;
    if n == 0 {
      return;
    }
    ghost var bytes := bufs[i][..n];
    var payload, frames, carrier := ReceiveFakeTcp(bufs[i][..n], accepts);
    if carrier {
      if frames > 0 {
        s', rs' := TakeCarrier(bufs, payload, frames, from.(fakeTcp := true), pending, s, rs);
      }
    } else {
      s', rs' := TakePlain(bufs, i, n, from, pending, s, rs);
    }
  }

  /** What one read from the socket left in the buffers: lengths, senders and, for each datagram,
      what its flow decides if it is a carrier. */
  datatype Batch = Batch(lens: seq<nat>, froms: seq<Endpoint>, accepts: seq<bool>)

  ghost predicate BatchOk(m: Mem, b: Batch) {
    && |b.lens| == |b.froms| == |b.accepts| <= |m|
    && forall i :: 0 <= i < |b.lens| ==> b.lens[i] <= |m[i]|
  }

  /** The packets of the first `n` datagrams, in arrival order. */
  ghost function Arrivals(m: Mem, b: Batch, n: nat): seq<Packet>
    requires BatchOk(m, b) && n <= |b.lens|
  {
    if n == 0 then []
    else Arrivals(m, b, n - 1) + MsgPackets(m[n - 1][..b.lens[n - 1]], b.froms[n - 1], b.accepts[n - 1])
  }

  /** The first pass after `i` datagrams: what is retained and what is queued are together the
      arrivals so far, and the datagrams still to be read are untouched. */
  ghost predicate Compacted(m0: Mem, b: Batch, i: nat, m: Mem, s: Scan, rs: seq<Rec>, ps: seq<PendingPacket>) {
    && BatchOk(m0, b) && i <= |b.lens| && |m| == |m0| && (forall k :: i <= k < |m| ==> m[k] == m0[k])
    && ScanOk(m, s, rs) && s.retained <= i && (!s.deferred ==> ps == [])
    && AllWhole(ps) && OutAll(rs) + Stream(ps) == Arrivals(m0, b, i)
  }

  lemma {:induction false} CompactedStart(m: Mem, b: Batch, s: Scan, rs: seq<Rec>, ps: seq<PendingPacket>)
    requires rs == [] && ps == [] && BatchOk(m, b) && |s.sizes| == |s.eps| == |m|
    requires s.retained == s.total == 0 && |s.counts| == |m| && forall k :: 0 <= k < |m| ==> s.counts[k] == 0
    ensures Compacted(m, b, 0, m, s, rs, ps)
  {
  }

  lemma {:induction false} CompactedNext(m0: Mem, b: Batch, i: nat, m: Mem, s: Scan, rs: seq<Rec>, ps: seq<PendingPacket>,
                      m': Mem, s': Scan, rs': seq<Rec>, ps': seq<PendingPacket>)
    requires Compacted(m0, b, i, m, s, rs, ps) && i < |b.lens|
    requires Took(m, s, rs, ps, m', s', rs', ps', MsgPackets(m[i][..b.lens[i]], b.froms[i], b.accepts[i]))
    ensures Compacted(m0, b, i + 1, m', s', rs', ps')
  {
  }

  /** An empty scan over `n` buffers. */
  method StartScan(n: nat, sizes: seq<nat>, eps: seq<Option<Endpoint>>) returns (s: Scan)
    ensures s.retained == s.total == 0 && !s.deferred && s.sizes == sizes && s.eps == eps
    ensures |s.counts| == n && forall k :: 0 <= k < n ==> s.counts[k] == 0
  {
    s := Scan(0, 0, false, sizes, eps, seq(n, _ => 0));
  }

  method CompactStep(bufs: seq<array<Byte>>, b: Batch, i: nat, pending: FakeTcpPending,
                     s: Scan, ghost rs: seq<Rec>, ghost m0: Mem) returns (s': Scan, ghost rs': seq<Rec>)
    requires Disjoint(bufs) && Compacted(m0, b, i, Snap(bufs), s, rs, pending.packets) && i < |b.lens|
    modifies pending, bufs
    ensures Compacted(m0, b, i + 1, Snap(bufs), s', rs', pending.packets)
  {
    ghost var m, ps := Snap(bufs), pending.packets;
    assert bufs[i][..b.lens[i]] == m[i][..b.lens[i]];
    s', rs' := Take(bufs, i, b.lens[i], b.froms[i], b.accepts[i], pending, s, rs);
    CompactedNext(m0, b, i, m, s, rs, ps, Snap(bufs), s', rs', pending.packets);
  }

  method Compact(bufs: seq<array<Byte>>, b: Batch, pending: FakeTcpPending, s0: Scan, ghost rs0: seq<Rec>)
    returns (s: Scan, ghost rs: seq<Rec>)
    requires Disjoint(bufs) && Compacted(Snap(bufs), b, 0, Snap(bufs), s0, rs0, pending.packets)
    modifies pending, bufs
    ensures Compacted(old(Snap(bufs)), b, |b.lens|, Snap(bufs), s, rs, pending.packets)
  {
    ghost var m0 := Snap(bufs);
    s, rs := s0, rs0;
    for i := 0 to |b.lens|
      invariant Compacted(m0, b, i, Snap(bufs), s, rs, pending.packets)
    {
      s, rs := CompactStep(bufs, b, i, pending, s, rs, m0);
    }
  }
}
