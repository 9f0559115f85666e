/** The second pass of a batch read: retained carriers are cut into their frames, from the last
    to the first, over the very buffers they are kept in. */
module FakeTcpExpand {
  import opened Basics
  import opened FakeTcpCarrier
  import opened FakeTcpFrames
  import opened FakeTcpReceive
  import opened FakeTcpBatch

  /** Result `q` is in place. */
  ghost predicate PlacedAt(m: Mem, sizes: seq<nat>, eps: seq<Option<Endpoint>>, ps: seq<Packet>, q: nat) {
    && q < |m| && q < |sizes| && q < |eps| && q < |ps|
    && sizes[q] == |ps[q].data| <= |m[q]| && m[q][..sizes[q]] == ps[q].data && eps[q] == Some(ps[q].ep)
  }

  ghost predicate Placed(m: Mem, sizes: seq<nat>, eps: seq<Option<Endpoint>>, ps: seq<Packet>, lo: nat, hi: nat) {
    forall q :: lo <= q < hi ==> PlacedAt(m, sizes, eps, ps, q)
  }

  /** The first `i` retained datagrams are still there. */
  ghost predicate Kept(m: Mem, sizes: seq<nat>, eps: seq<Option<Endpoint>>, rs: seq<Rec>, i: nat) {
    && |m| == |sizes| == |eps| && i <= |rs| <= |m|
    && forall k :: 0 <= k < i ==> HoldsAt(m, sizes, eps, k, rs[k])
  }

  /** Between two datagrams of the second pass: `i` are left, and the results from `base` on are
      in place. */
  ghost predicate Expanding(m: Mem, sizes: seq<nat>, eps: seq<Option<Endpoint>>, ps: seq<Packet>, rs: seq<Rec>, i: nat, base: nat) {
    Kept(m, sizes, eps, rs, i) && Room(m, ps) && Placed(m, sizes, eps, ps, base, |ps|)
  }

  /** Where the packets of datagram `c` go. */
  lemma {:induction false} OutAllAt(rs: seq<Rec>, c: nat)
    requires AllOk(rs) && c < |rs|
    ensures var base := |OutAll(rs[..c])|;
            && c <= base && |OutAll(rs[..c + 1])| == base + |Out(rs[c])| <= |OutAll(rs)|
            && OutAll(rs)[base..base + |Out(rs[c])|] == Out(rs[c])
  {
    OutAllPrefix(rs, c + 1);
    OutAllTake(rs, c);
    PrefixSlice(OutAll(rs[..c]), Out(rs[c]), OutAll(rs[..c + 1]), OutAll(rs));
  }

  lemma {:induction false} OutAllTake(rs: seq<Rec>, c: nat)
    requires AllOk(rs) && c < |rs|
    ensures OutAll(rs[..c + 1]) == OutAll(rs[..c]) + Out(rs[c])
  {
    assert rs[..c] + [rs[c]] == rs[..c + 1];
    OutAllAppend(rs[..c], rs[c]);
  }

  lemma {:induction false} PrefixSlice(a: seq<Packet>, b: seq<Packet>, ab: seq<Packet>, all: seq<Packet>)
    requires ab == a + b && ab <= all
    ensures |ab| == |a| + |b| <= |all| && all[|a|..|a| + |b|] == b
  {
    assert all[..|ab|] == ab;
    assert all[|a|..|ab|] == all[..|ab|][|a|..];
  }

  /** A store to buffer `d` at or behind `i` with the packet that belongs there. */
  method Put(bufs: seq<array<Byte>>, d: nat, data: seq<Byte>, ep: Option<Endpoint>, sizes: seq<nat>, eps: seq<Option<Endpoint>>)
    returns (sizes': seq<nat>, eps': seq<Option<Endpoint>>)
    requires Disjoint(bufs) && d < |bufs| == |sizes| == |eps| && |data| <= bufs[d].Length
    modifies bufs[d]
    ensures Snap(bufs) == old(Snap(bufs))[d := data + old(Snap(bufs))[d][|data|..]]
    ensures sizes' == sizes[d := |data|] && eps' == eps[d := ep]
  {
    Store(bufs, d, data);
    sizes', eps' := sizes[d := |data|], eps[d := ep];
  }

  lemma {:induction false} PutKeeps(m: Mem, sizes: seq<nat>, eps: seq<Option<Endpoint>>, ps: seq<Packet>, rs: seq<Rec>, i: nat, lo: nat, hi: nat,
                 d: nat, m': Mem, sizes': seq<nat>, eps': seq<Option<Endpoint>>)
    requires Kept(m, sizes, eps, rs, i) && Placed(m, sizes, eps, ps, lo, hi) && Room(m, ps)
    requires i <= d < |ps| && !(lo <= d < hi)
    requires m' == m[d := ps[d].data + m[d][|ps[d].data|..]]
    requires sizes' == sizes[d := |ps[d].data|] && eps' == eps[d := Some(ps[d].ep)]
    ensures Kept(m', sizes', eps', rs, i) && Placed(m', sizes', eps', ps, lo, hi) && Room(m', ps)
    ensures PlacedAt(m', sizes', eps', ps, d)
  {
    forall k | 0 <= k < i
      ensures HoldsAt(m', sizes', eps', k, rs[k])
    {
      assert HoldsAt(m, sizes, eps, k, rs[k]);
    }
    forall q | lo <= q < hi
      ensures PlacedAt(m', sizes', eps', ps, q)
    {
      assert PlacedAt(m, sizes, eps, ps, q);
    }
  }

  /** The frames of `data` behind the cursor are still unread in the buffer contents `a`. */
  ghost predicate Unread(a: seq<Byte>, data: seq<Byte>, at: nat, j: nat) {
    Cursor(data, at, j) && |data| <= |a| && a[at..|data|] == data[at..]
  }

  /** In the middle of datagram `c`, whose packets go to `base` and on: `j` of them are in place and
      the others are still unread, even where the first one overwrote the front of this very buffer. */
  ghost predicate Cutting(m: Mem, sizes: seq<nat>, eps: seq<Option<Endpoint>>, ps: seq<Packet>, rs: seq<Rec>,
                          c: nat, base: nat, j: nat, at: nat) {
    && Kept(m, sizes, eps, rs, c) && Room(m, ps) && c < |rs| && c <= base && RecOk(rs[c]) && 0 < rs[c].frames
    && base + rs[c].frames <= |ps| && ps[base..base + rs[c].frames] == Out(rs[c]) && j <= rs[c].frames
    && Placed(m, sizes, eps, ps, base, base + j) && Placed(m, sizes, eps, ps, base + rs[c].frames, |ps|)
    && Unread(m[c], rs[c].data, at, j)
  }

  /** The next frame. */
  lemma {:induction false} NextInFrames(a: seq<Byte>, data: seq<Byte>, at: nat, j: nat, ep: Endpoint)
    requires WellFramed(data) && Unread(a, data, at, j) && j < |Frames(data)|
    ensures StartsFrame(a[at..|data|]) && Cursor(data, at + FrameEnd(a[at..|data|]), j + 1)
    ensures Tag(Frames(data), ep)[j] == Packet(a[at..|data|][FRAME_HEADER_SIZE..FrameEnd(a[at..|data|])], ep)
  {
    CursorAt(data, at, j);
    CursorNext(data, at, j);
  }

  lemma {:induction false} SliceAt(ps: seq<Packet>, lo: nat, out: seq<Packet>, j: nat)
    requires lo + |out| <= |ps| && ps[lo..lo + |out|] == out && j < |out|
    ensures ps[lo + j] == out[j]
  {
    assert ps[lo..lo + |out|][j] == ps[lo + j];
  }

  lemma {:induction false} PlacedNext(m: Mem, sizes: seq<nat>, eps: seq<Option<Endpoint>>, ps: seq<Packet>, lo: nat, hi: nat)
    requires Placed(m, sizes, eps, ps, lo, hi) && PlacedAt(m, sizes, eps, ps, hi)
    ensures Placed(m, sizes, eps, ps, lo, hi + 1)
  {
  }

  /** What is unread survives the store: the frame is shorter than what was read. */
  lemma {:induction false} UnreadSurvives(a: seq<Byte>, data: seq<Byte>, at: nat, j: nat, e: nat, frame: seq<Byte>)
    requires Unread(a, data, at, j) && at <= e <= |data| && |frame| <= e && Cursor(data, e, j + 1)
    ensures Unread(a, data, e, j + 1) && Unread(frame + a[|frame|..], data, e, j + 1)
  {
    assert a[e..|data|] == a[at..|data|][e - at..];
    assert data[e..] == data[at..][e - at..];
  }

  lemma {:induction false} CuttingNext(m: Mem, sizes: seq<nat>, eps: seq<Option<Endpoint>>, ps: seq<Packet>, rs: seq<Rec>,
                                       c: nat, base: nat, j: nat, at: nat, e: nat,
                                       m': Mem, sizes': seq<nat>, eps': seq<Option<Endpoint>>)
    requires Cutting(m, sizes, eps, ps, rs, c, base, j, at) && j < rs[c].frames
    requires at <= e <= |rs[c].data| && |ps[base + j].data| <= e && Cursor(rs[c].data, e, j + 1)
    requires var d, p := base + j, ps[base + j];
             m' == m[d := p.data + m[d][|p.data|..]] && sizes' == sizes[d := |p.data|] && eps' == eps[d := Some(p.ep)]
    ensures Cutting(m', sizes', eps', ps, rs, c, base, j + 1, e)
  {
    var d := base + j;
    PutKeeps(m, sizes, eps, ps, rs, c, base, d, d, m', sizes', eps');
    PutKeeps(m, sizes, eps, ps, rs, c, base + rs[c].frames, |ps|, d, m', sizes', eps');
    PlacedNext(m', sizes', eps', ps, base, d);
    UnreadSurvives(m[c], rs[c].data, at, j, e, ps[d].data);
  }

  /** Moves the frame that starts at `at` in buffer `c` to the front of buffer `d`. */
  method MoveFrame(bufs: seq<array<Byte>>, c: nat, at: nat, end: nat, d: nat, ep: Option<Endpoint>,
                   sizes: seq<nat>, eps: seq<Option<Endpoint>>, ghost frame: seq<Byte>)
    returns (at': nat, sizes': seq<nat>, eps': seq<Option<Endpoint>>)
    requires Disjoint(bufs) && c < |bufs| && d < |bufs| == |sizes| == |eps| && at <= end <= bufs[c].Length
    requires StartsFrame(bufs[c][at..end])
    requires frame == bufs[c][at..end][FRAME_HEADER_SIZE..FrameEnd(bufs[c][at..end])] && |frame| <= bufs[d].Length
    modifies bufs[d]
    ensures at' == at + old(FrameEnd(bufs[c][at..end])) <= end && |frame| <= at'
    ensures Snap(bufs) == old(Snap(bufs))[d := frame + old(Snap(bufs))[d][|frame|..]]
    ensures sizes' == sizes[d := |frame|] && eps' == eps[d := ep]
  {
    var data, remaining, ok := NextFrame(bufs[c][at..end]);
    sizes', eps' := Put(bufs, d, data, ep, sizes, eps);
    at' := end - |remaining|;
  }

  /** Puts one frame in place. */
  method CutOne(bufs: seq<array<Byte>>, c: nat, base: nat, j: nat, at: nat, end: nat, ep: Option<Endpoint>,
                sizes: seq<nat>, eps: seq<Option<Endpoint>>, ghost ps: seq<Packet>, ghost rs: seq<Rec>)
    returns (at': nat, sizes': seq<nat>, eps': seq<Option<Endpoint>>)
    requires Disjoint(bufs) && Cutting(Snap(bufs), sizes, eps, ps, rs, c, base, j, at)
    requires j < rs[c].frames && end == |rs[c].data| && ep == Some(rs[c].ep)
    modifies bufs
    ensures Cutting(Snap(bufs), sizes', eps', ps, rs, c, base, j + 1, at')
  {
    ghost var m := Snap(bufs);
    NextInFrames(m[c], rs[c].data, at, j, rs[c].ep);
    SliceAt(ps, base, Out(rs[c]), j);
    assert bufs[c][at..end] == m[c][at..end];
    at', sizes', eps' := MoveFrame(bufs, c, at, end, base + j, ep, sizes, eps, ps[base + j].data);
    CuttingNext(m, sizes, eps, ps, rs, c, base, j, at, at', Snap(bufs), sizes', eps');
  }

  /** Cuts datagram `c` into its frames. */
  method Cut(bufs: seq<array<Byte>>, c: nat, frames: nat, base: nat, sizes0: seq<nat>, eps0: seq<Option<Endpoint>>,
             ghost ps: seq<Packet>, ghost rs: seq<Rec>)
    returns (sizes: seq<nat>, eps: seq<Option<Endpoint>>)
    requires Disjoint(bufs) && Cutting(Snap(bufs), sizes0, eps0, ps, rs, c, base, 0, 0)
    requires frames == rs[c].frames && HoldsAt(Snap(bufs), sizes0, eps0, c, rs[c])
    modifies bufs
    ensures exists e :: Cutting(Snap(bufs), sizes, eps, ps, rs, c, base, frames, e)
  {
    var at: nat, end: nat, ep := 0, sizes0[c], eps0[c];
    sizes, eps := sizes0, eps0;
    for j := 0 to frames
      invariant Cutting(Snap(bufs), sizes, eps, ps, rs, c, base, j, at)
    {
      at, sizes, eps := CutOne(bufs, c, base, j, at, end, ep, sizes, eps, ps, rs);
    }
  }

  lemma {:induction false} StartCutting(m: Mem, sizes: seq<nat>, eps: seq<Option<Endpoint>>, ps: seq<Packet>, rs: seq<Rec>, c: nat, base: nat)
    requires c < |rs| && Expanding(m, sizes, eps, ps, rs, c + 1, base + rs[c].frames) && c <= base
    requires RecOk(rs[c]) && rs[c].frames > 0 && base + rs[c].frames <= |ps| && ps[base..base + rs[c].frames] == Out(rs[c])
    ensures Cutting(m, sizes, eps, ps, rs, c, base, 0, 0)
  {
    CursorStart(rs[c].data);
    assert HoldsAt(m, sizes, eps, c, rs[c]);
    assert rs[c].data[0..] == rs[c].data;
  }

  lemma {:induction false} EndCutting(m: Mem, sizes: seq<nat>, eps: seq<Option<Endpoint>>, ps: seq<Packet>, rs: seq<Rec>, c: nat, base: nat, at: nat)
    requires c < |rs| && Cutting(m, sizes, eps, ps, rs, c, base, rs[c].frames, at)
    ensures Expanding(m, sizes, eps, ps, rs, c, base)
  {
  }

  /** A plain datagram moves to its place, unless it is there. */
  method MovePlain(bufs: seq<array<Byte>>, c: nat, d: nat, sizes: seq<nat>, eps: seq<Option<Endpoint>>,
                   ghost ps: seq<Packet>, ghost rs: seq<Rec>)
    returns (sizes': seq<nat>, eps': seq<Option<Endpoint>>)
    requires Disjoint(bufs) && c < |rs| && Expanding(Snap(bufs), sizes, eps, ps, rs, c + 1, d + 1) && c <= d < |ps|
    requires ps[d] == Packet(rs[c].data, rs[c].ep)
    modifies bufs
    ensures Expanding(Snap(bufs), sizes', eps', ps, rs, c, d)
  {
    ghost var m := Snap(bufs);
    assert HoldsAt(m, sizes, eps, c, rs[c]);
    sizes', eps' := sizes, eps;
    if d != c {
      assert bufs[c][..sizes[c]] == m[c][..sizes[c]];
      sizes', eps' := Put(bufs, d, bufs[c][..sizes[c]], eps[c], sizes, eps);
      PutKeeps(m, sizes, eps, ps, rs, c, d + 1, |ps|, d, Snap(bufs), sizes', eps');
    }
    assert PlacedAt(Snap(bufs), sizes', eps', ps, d);
  }

  /** One datagram of the second pass. */
  method ExpandOne(bufs: seq<array<Byte>>, c: nat, frames: nat, outputAt: nat, sizes: seq<nat>, eps: seq<Option<Endpoint>>,
                   ghost ps: seq<Packet>, ghost rs: seq<Rec>, ghost base: nat)
    returns (outputAt': nat, sizes': seq<nat>, eps': seq<Option<Endpoint>>)
    requires Disjoint(bufs) && c < |rs| && Expanding(Snap(bufs), sizes, eps, ps, rs, c + 1, outputAt) && c <= base
    requires RecOk(rs[c]) && frames == rs[c].frames && outputAt == base + |Out(rs[c])| <= |ps|
    requires ps[base..outputAt] == Out(rs[c])
    modifies bufs
    ensures outputAt' == base && Expanding(Snap(bufs), sizes', eps', ps, rs, c, base)
  {
    if frames == 0 {
      outputAt' := outputAt - 1;
      SliceAt(ps, base, Out(rs[c]), 0);
      sizes', eps' := MovePlain(bufs, c, outputAt', sizes, eps, ps, rs);
    } else {
      outputAt' := outputAt - frames;
      StartCutting(Snap(bufs), sizes, eps, ps, rs, c, base);
      sizes', eps' := Cut(bufs, c, frames, outputAt', sizes, eps, ps, rs);
      ghost var at :| Cutting(Snap(bufs), sizes', eps', ps, rs, c, base, frames, at);
      EndCutting(Snap(bufs), sizes', eps', ps, rs, c, base, at);
    }
  }

  lemma {:induction false} StartExpanding(m: Mem, s: Scan, rs: seq<Rec>)
    requires ScanOk(m, s, rs)
    ensures Expanding(m, s.sizes, s.eps, OutAll(rs), rs, |rs|, |OutAll(rs)|) && |OutAll(rs[..|rs|])| == s.total
  {
    assert rs[..|rs|] == rs;
    forall k | 0 <= k < |rs|
      ensures HoldsAt(m, s.sizes, s.eps, k, rs[k])
    {
    }
  }

  /** Where the packets of each retained datagram belong: those of datagram `k` between the marks
      `k` and `k + 1`. */
  ghost predicate Laid(ps: seq<Packet>, rs: seq<Rec>, marks: seq<nat>) {
    && |marks| == |rs| + 1 && marks[0] == 0 && marks[|rs|] == |ps|
    && forall k :: 0 <= k < |rs| ==> LaidAt(ps, rs[k], k, marks[k], marks[k + 1])
  }

  ghost predicate LaidAt(ps: seq<Packet>, r: Rec, k: nat, base: nat, end: nat) {
    RecOk(r) && k <= base && end == base + |Out(r)| <= |ps| && ps[base..end] == Out(r)
  }

  /** The mark before datagram `k`. */
  ghost function Mark(rs: seq<Rec>, k: nat): nat
    requires AllOk(rs) && k <= |rs|
  {
    |OutAll(rs[..k])|
  }

  lemma {:induction false} MarksAt(rs: seq<Rec>, k: nat)
    requires AllOk(rs) && k < |rs|
    ensures LaidAt(OutAll(rs), rs[k], k, Mark(rs, k), Mark(rs, k + 1))
  {
    OutAllAt(rs, k);
  }

  lemma {:induction false} MarkEnds(rs: seq<Rec>)
    requires AllOk(rs)
    ensures Mark(rs, 0) == 0 && Mark(rs, |rs|) == |OutAll(rs)|
  {
    assert rs[..|rs|] == rs;
  }

  lemma {:induction false} LayOut(rs: seq<Rec>, ps: seq<Packet>) returns (marks: seq<nat>)
    requires AllOk(rs) && ps == OutAll(rs)
    ensures Laid(ps, rs, marks)
  {
    marks := seq(|rs| + 1, k requires 0 <= k <= |rs| => Mark(rs, k));
    MarkEnds(rs);
    forall k | 0 <= k < |rs|
      ensures LaidAt(ps, rs[k], k, marks[k], marks[k + 1])
    {
      MarksAt(rs, k);
    }
  }

  /** The second pass puts exactly the packets of the retained datagrams in place. */
  method Expand(bufs: seq<array<Byte>>, s: Scan, ghost rs: seq<Rec>) returns (sizes: seq<nat>, eps: seq<Option<Endpoint>>)
    requires Disjoint(bufs) && ScanOk(Snap(bufs), s, rs)
    modifies bufs
    ensures Placed(Snap(bufs), sizes, eps, OutAll(rs), 0, |OutAll(rs)|)
  {
    StartExpanding(Snap(bufs), s, rs);
    ghost var marks := LayOut(rs, OutAll(rs));
    sizes, eps := ExpandAll(bufs, s, rs, OutAll(rs), marks);
  }

  method ExpandAll(bufs: seq<array<Byte>>, s: Scan, ghost rs: seq<Rec>, ghost ps: seq<Packet>, ghost marks: seq<nat>)
    returns (sizes: seq<nat>, eps: seq<Option<Endpoint>>)
    requires Disjoint(bufs) && s.retained == |rs| <= |s.counts| && (forall k :: 0 <= k < |rs| ==> s.counts[k] == rs[k].frames)
    requires Laid(ps, rs, marks) && s.total == |ps| && Expanding(Snap(bufs), s.sizes, s.eps, ps, rs, |rs|, |ps|)
    modifies bufs
    ensures Placed(Snap(bufs), sizes, eps, ps, 0, |ps|)
  {
    var outputAt := s.total;
    sizes, eps := s.sizes, s.eps;
    for i := s.retained downto 0
      invariant Expanding(Snap(bufs), sizes, eps, ps, rs, i, outputAt) && outputAt == marks[i]
    {
      assert LaidAt(ps, rs[i], i, marks[i], marks[i + 1]);
      outputAt, sizes, eps := ExpandOne(bufs, i, s.counts[i], outputAt, sizes, eps, ps, rs, marks[i]);
    }
  }

  lemma {:induction false} DeliveredPlaced(m: Mem, sizes: seq<nat>, eps: seq<Option<Endpoint>>, ps: seq<Packet>, n: nat)
    requires Placed(m, sizes, eps, ps, 0, |ps|) && n <= |ps| && |ps| <= |m| && |ps| <= |sizes| && |ps| <= |eps|
    requires forall q :: 0 <= q < |ps| ==> ps[q].data != []
    ensures Deliverable(m, sizes, eps, n) && Delivered(m, sizes, eps, n) == ps[..n]
  {
    forall k | 0 <= k < n
      ensures sizes[k] <= |m[k]| && eps[k].Some?
    {
      assert PlacedAt(m, sizes, eps, ps, k);
    }
    if n > 0 {
      DeliveredPlaced(m, sizes, eps, ps, n - 1);
      assert PlacedAt(m, sizes, eps, ps, n - 1);
      assert ps[..n] == ps[..n - 1] + [ps[n - 1]];
    }
  }

  lemma {:induction false} OutNonEmpty(r: Rec, q: nat)
    requires RecOk(r) && q < |Out(r)|
    ensures Out(r)[q].data != []
  {
    if r.frames > 0 {
      FramesLong(r.data, q);
    }
  }

  lemma {:induction false} OutAllNonEmpty(rs: seq<Rec>, q: nat)
    requires AllOk(rs) && q < |OutAll(rs)|
    ensures OutAll(rs)[q].data != []
  {
    var init := rs[..|rs| - 1];
    if q < |OutAll(init)| {
      OutAllNonEmpty(init, q);
    } else {
      OutNonEmpty(rs[|rs| - 1], q - |OutAll(init)|);
    }
  }
}
