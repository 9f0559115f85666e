/** UDP segmentation offload on the way in: messages read at the end of the slots are split into
    datagrams at the front, in the same slots. */
module GsoSplit {
  import opened Basics
  import opened FakeTcpFrames
  import opened FakeTcpReceive
  import opened GsoCoalesce

  type Mem = seq<Bytes>

  /** The control data and the sender of a message; `None` is control data that cannot be read. */
  datatype Meta = Meta(gso: Option<nat>, addr: nat)

  datatype Seg = Seg(data: Bytes, meta: Meta)

  datatype Slots = Slots(lens: seq<nat>, metas: seq<Meta>)

  /** `OutOfRange` is the runtime panic of a recorded size that reaches beyond the buffer. */
  datatype Outcome = Fine | BadControl | OutOfRange | Overflow

  ghost predicate SlotsOk(m: Mem, s: Slots) {
    |s.lens| == |s.metas| == |m| && forall k: nat :: LenOk(m, s, k)
  }

  ghost predicate LenOk(m: Mem, s: Slots, k: nat) { k < |m| && k < |s.lens| ==> s.lens[k] <= |m[k]| }

  function SizeOf(meta: Meta): nat { if meta.gso.Some? then meta.gso.value else 0 }

  /** The first piece is taken as long as the recorded size even where the message is shorter. */
  function Taken(n: nat, size: nat): nat { if size > n then size else n }

  /** The part of buffer `i` that is cut. */
  ghost function Span(m: Mem, s: Slots, i: nat): Bytes
    requires SlotsOk(m, s) && i < |m|
  {
    var n := Taken(s.lens[i], SizeOf(s.metas[i]));
    if n <= |m[i]| then m[i][..n] else m[i]
  }

  ghost function Tagged(ds: seq<Bytes>, meta: Meta): (r: seq<Seg>)
    ensures |r| == |ds| && forall k :: 0 <= k < |r| ==> r[k] == Seg(ds[k], meta)
  {
    seq(|ds|, k requires 0 <= k < |ds| => Seg(ds[k], meta))
  }

  /** The datagrams of message `i`. */
  ghost function SegsOf(m: Mem, s: Slots, i: nat): seq<Seg>
    requires SlotsOk(m, s) && i < |m|
  {
    Tagged(Cut(Span(m, s, i), SizeOf(s.metas[i])), s.metas[i])
  }

  /** They are the pieces of the message exactly if the recorded size is not longer than it. */
  lemma {:induction false} SegsAreCut(m: Mem, s: Slots, i: nat)
    requires SlotsOk(m, s) && i < |m| && SizeOf(s.metas[i]) <= |m[i]| && LenOk(m, s, i)
    ensures var size := match s.metas[i].gso case Some(recorded) => recorded case None => 0;
            SegsOf(m, s, i) == Tagged(Cut(m[i][..s.lens[i]], size), s.metas[i]) <==> size <= s.lens[i]
  {
    var n, size := s.lens[i], SizeOf(s.metas[i]);
    if size > n {
      assert SegsOf(m, s, i)[0].data == m[i][..size];
      assert Tagged(Cut(m[i][..n], size), s.metas[i])[0].data == m[i][..n];
    }
  }

  /** The datagrams of the messages from `first` up to `i`, in order. */
  ghost function Segs(m: Mem, s: Slots, first: nat, i: nat): seq<Seg>
    requires SlotsOk(m, s) && first <= i <= |m|
  {
    if i == first then [] else Segs(m, s, first, i - 1) + SegsOf(m, s, i - 1)
  }

  /** Slot `k` holds a datagram, cut off where the slot's buffer ends. */
  ghost predicate HoldsSeg(m: Mem, s: Slots, k: nat, seg: Seg) {
    && k < |m| && k < |s.lens| && k < |s.metas|
    && s.lens[k] == (if |seg.data| <= |m[k]| then |seg.data| else |m[k]|) && m[k][..s.lens[k]] == seg.data[..s.lens[k]]
    && s.metas[k] == seg.meta
  }

  ghost predicate SameRoom(m0: Mem, m: Mem, k: nat) { k < |m0| && k < |m| ==> |m[k]| == |m0[k]| }

  ghost predicate SameSlot(m0: Mem, s0: Slots, m: Mem, s: Slots, k: nat) {
    k < |m0| && k < |m| && k < |s.lens| && k < |s0.lens| && k < |s.metas| && k < |s0.metas| ==>
      m[k] == m0[k] && s.lens[k] == s0.lens[k] && s.metas[k] == s0.metas[k]
  }

  /** After the messages before `i`: the first slots hold their datagrams, and the messages from `i`
      on are untouched. */
  ghost predicate SplitUpTo(m0: Mem, s0: Slots, first: nat, i: nat, m: Mem, s: Slots, n: nat) {
    && SlotsOk(m0, s0) && first <= i <= |m0| && SlotsOk(m, s) && |m| == |m0| && n <= i
    && (forall k: nat :: SameRoom(m0, m, k))
    && n == |Segs(m0, s0, first, i)| && HoldAll(m, s, n, Segs(m0, s0, first, i))
    && (forall k: nat :: i <= k ==> SameSlot(m0, s0, m, s, k))
  }

  /** Within message `i`: `j` of its datagrams are in place, and as long as its own slot was not
      reached its bytes are all there. */
  ghost predicate Splitting(m0: Mem, s0: Slots, first: nat, i: nat, m: Mem, s: Slots, n: nat, j: nat) {
    && SlotsOk(m0, s0) && first <= i < |m0| && SlotsOk(m, s) && |m| == |m0|
    && (forall k: nat :: SameRoom(m0, m, k))
    && j <= |SegsOf(m0, s0, i)| && n == |Segs(m0, s0, first, i)| + j <= i + 1
    && HoldAll(m, s, n, Segs(m0, s0, first, i) + SegsOf(m0, s0, i))
    && (n <= i ==> m[i] == m0[i])
    && (forall k: nat :: i < k ==> SameSlot(m0, s0, m, s, k))
  }

  lemma {:induction false} StartMessage(m0: Mem, s0: Slots, first: nat, i: nat, m: Mem, s: Slots, n: nat)
    requires SplitUpTo(m0, s0, first, i, m, s, n) && i < |m0|
    ensures Splitting(m0, s0, first, i, m, s, n, 0)
  {
    var a, b := Segs(m0, s0, first, i), SegsOf(m0, s0, i);
    assert SameSlot(m0, s0, m, s, i);
    forall k | 0 <= k < n
      ensures HoldsSeg(m, s, k, (a + b)[k])
    {
      assert HoldsSeg(m, s, k, a[k]);
    }
  }

  lemma {:induction false} EndMessage(m0: Mem, s0: Slots, first: nat, i: nat, m: Mem, s: Slots, n: nat, s': Slots)
    requires SlotsOk(m0, s0) && i < |m0| && Splitting(m0, s0, first, i, m, s, n, |SegsOf(m0, s0, i)|)
    requires s' == if i != n - 1 then s.(lens := s.lens[i := 0]) else s
    ensures SplitUpTo(m0, s0, first, i + 1, m, s', n)
  {
    var all := Segs(m0, s0, first, i + 1);
    forall k | 0 <= k < n
      ensures HoldsSeg(m, s', k, all[k])
    {
      assert HoldsSeg(m, s, k, all[k]);
    }
    forall k: nat | i + 1 <= k
      ensures SameSlot(m0, s0, m, s', k)
    {
      assert SameSlot(m0, s0, m, s, k);
    }
    forall k: nat
      ensures LenOk(m, s', k)
    {
      assert LenOk(m, s, k);
    }
  }

  ghost predicate HoldAll(m: Mem, s: Slots, n: nat, all: seq<Seg>) {
    n <= |all| && forall k :: 0 <= k < n ==> HoldsSeg(m, s, k, all[k])
  }

  /** One more datagram in its slot. */
  lemma {:induction false} HoldsMore(m: Mem, s: Slots, n: nat, all: seq<Seg>, m': Mem, s': Slots, d: Bytes)
    requires HoldAll(m, s, n, all) && n < |all| && n < |m| == |s.lens| == |s.metas|
    requires |d| == (if |all[n].data| <= |m[n]| then |all[n].data| else |m[n]|) && d == all[n].data[..|d|]
    requires m' == m[n := d + m[n][|d|..]] && s' == Slots(s.lens[n := |d|], s.metas[n := all[n].meta])
    ensures HoldAll(m', s', n + 1, all)
  {
    forall k | 0 <= k < n + 1
      ensures HoldsSeg(m', s', k, all[k])
    {
      if k < n {
        assert HoldsSeg(m, s, k, all[k]);
      } else {
        assert m'[n][..|d|] == d;
      }
    }
  }

  /** Placing datagram `j` of message `i` in slot `n`. */
  lemma {:induction false} PlacedOne(m0: Mem, s0: Slots, first: nat, i: nat, m: Mem, s: Slots, n: nat, j: nat, m': Mem, s': Slots, d: Bytes)
    requires Splitting(m0, s0, first, i, m, s, n, j) && n <= i && j < |SegsOf(m0, s0, i)|
    requires var seg := SegsOf(m0, s0, i)[j].data;
             |d| == (if |seg| <= |m[n]| then |seg| else |m[n]|) && d == seg[..|d|]
    requires m' == m[n := d + m[n][|d|..]] && s' == Slots(s.lens[n := |d|], s.metas[n := s0.metas[i]])
    ensures Splitting(m0, s0, first, i, m', s', n + 1, j + 1)
  {
    var all := Segs(m0, s0, first, i) + SegsOf(m0, s0, i);
    assert all[n] == SegsOf(m0, s0, i)[j];
    HoldsMore(m, s, n, all, m', s', d);
    forall k: nat
      ensures SameRoom(m0, m', k)
    {
      assert SameRoom(m0, m, k);
    }
    forall k: nat | i < k
      ensures SameSlot(m0, s0, m', s', k)
    {
      assert SameSlot(m0, s0, m, s, k);
    }
    forall k: nat
      ensures LenOk(m', s', k)
    {
      assert LenOk(m, s, k);
    }
  }

  /** `start` is where piece `j` begins and `end` where it ends. */
  ghost predicate At(d: Bytes, size: nat, j: nat, start: nat, end: nat) {
    && j <= |Cut(d, size)|
    && (j < |Cut(d, size)| ==> start <= end <= |d| && Cut(d, size)[j..] == Cut(d[start..], size) && end == (if size == 0 || |d| - start <= size then |d| else start + size))
  }

  lemma {:induction false} AtStart(d: Bytes, size: nat)
    requires d != []
    ensures At(d, size, 0, 0, if size == 0 || |d| <= size then |d| else size)
  {
    assert d[0..] == d && Cut(d, size)[0..] == Cut(d, size);
  }

  lemma {:induction false} AtNext(d: Bytes, size: nat, j: nat, start: nat, end: nat)
    requires At(d, size, j, start, end) && j < |Cut(d, size)|
    ensures Cut(d, size)[j] == d[start..end]
    ensures j + 1 < |Cut(d, size)| ==> At(d, size, j + 1, end, if end + size > |d| then |d| else end + size)
  {
    var c, r := Cut(d, size), d[start..];
    assert c[j..][0] == c[j];
    if size == 0 || |r| <= size {
      assert |c[j..]| == 1;
      assert d[start..end] == r;
    } else {
      assert r[..size] == d[start..end] && r[size..] == d[end..];
      assert c[j + 1..] == c[j..][1..];
    }
  }

  lemma {:induction false} DivStep(x: nat, g: nat)
    requires g > 0
    ensures (x + g) / g == x / g + 1
  {
    var q, r := x / g, x % g;
    assert x + g == (q + 1) * g + r;
    DivUnique(x + g, g, q + 1, r);
  }

  lemma {:induction false} DivUnique(y: nat, g: nat, q: nat, r: nat)
    requires g > 0 && y == q * g + r && r < g
    ensures y / g == q
  {
    MulStep(y / g, q, g);
    MulStep(q, y / g, g);
  }

  lemma {:induction false} MulStep(a: nat, b: nat, g: nat)
    ensures a < b ==> a * g + g <= b * g
  {
    if a < b {
      var k: nat := b - a - 1;
      assert (a + 1 + k) * g == a * g + g + k * g;
      assert k * g >= 0;
    }
  }

  /** The number of pieces. */
  lemma {:induction false} CutCount(d: Bytes, size: nat)
    requires d != [] && size > 0
    ensures |Cut(d, size)| == (|d| + size - 1) / size
    decreases |d|
  {
    DivStep(|d| - 1, size);
    if |d| > size {
      CutCount(d[size..], size);
    } else {
      DivUnique(|d| - 1, size, 0, |d| - 1);
    }
  }

  // ---------- splitting ----------

  /** Puts one datagram of message `i` into slot `n`, as far as it fits. */
  method PlaceOne(bufs: seq<array<Byte>>, i: nat, start: nat, end: nat, n: nat, meta: Meta, s: Slots,
                  ghost m0: Mem, ghost s0: Slots, ghost first: nat, ghost j: nat) returns (s': Slots)
    requires Disjoint(bufs) && Splitting(m0, s0, first, i, Snap(bufs), s, n, j) && n <= i && j < |SegsOf(m0, s0, i)|
    requires start <= end <= |m0[i]| && SegsOf(m0, s0, i)[j].data == m0[i][start..end] && meta == s0.metas[i]
    modifies bufs
    ensures Splitting(m0, s0, first, i, Snap(bufs), s', n + 1, j + 1)
  {
    ghost var m := Snap(bufs);
    assert bufs[i][start..end] == m0[i][start..end];
    var d := bufs[i][start..end];
    if bufs[n].Length < |d| {
      d := d[..bufs[n].Length];
    }
    Store(bufs, n, d);
    s' := Slots(s.lens[n := |d|], s.metas[n := meta]);
    PlacedOne(m0, s0, first, i, m, s, n, j, Snap(bufs), s', d);
  }

  /** How many pieces there are and where the first one ends. */
  method FirstPiece(n: nat, size: nat, ghost buf: Bytes) returns (count: nat, end: nat)
    requires 0 < n <= |buf| && size <= |buf|
    ensures count == |Cut(buf[..Taken(n, size)], size)| && At(buf[..Taken(n, size)], size, 0, 0, end)
  {
    count, end := 1, n;
    AtStart(buf[..Taken(n, size)], size);
    if size > 0 {
      CutCount(buf[..n], size);
      count := (n + size - 1) / size;
      end := size;
    }
  }

  method NextPiece(end: nat, size: nat, n: nat, ghost d: Bytes, ghost j: nat) returns (start': nat, end': nat)
    requires j < |Cut(d, size)| && |d| == Taken(n, size)
    requires j + 1 < |Cut(d, size)| ==> At(d, size, j + 1, end, if end + size > |d| then |d| else end + size)
    ensures At(d, size, j + 1, start', end')
  {
    start', end' := end, end + size;
    if end' > n {
      end' := n;
    }
  }

  lemma {:induction false} StartSplit(m: Mem, s: Slots, first: nat)
    requires SlotsOk(m, s) && first <= |m|
    ensures SplitUpTo(m, s, first, first, m, s, 0)
  {
  }

  lemma {:induction false} Untouched(m0: Mem, s0: Slots, first: nat, i: nat, m: Mem, s: Slots, n: nat)
    requires SplitUpTo(m0, s0, first, i, m, s, n) && i < |m0|
    ensures |s.lens| == |s.metas| == |m0| == |m| && s.lens[i] == s0.lens[i] && s.metas[i] == s0.metas[i] && |m[i]| == |m0[i]|
  {
    assert SameSlot(m0, s0, m, s, i);
  }

  /** Splits message `i`; it gives up where a datagram would need a slot behind the message. */
  method SplitOne(bufs: seq<array<Byte>>, i: nat, size: nat, s0: Slots, n0: nat, st: Slots, ghost m0: Mem, ghost first: nat)
    returns (n: nat, s: Slots, overflow: bool)
    requires Disjoint(bufs) && SplitUpTo(m0, s0, first, i, Snap(bufs), st, n0) && i < |bufs|
    requires s0.lens[i] > 0 && size == SizeOf(s0.metas[i]) <= bufs[i].Length
    modifies bufs
    ensures overflow <==> |Segs(m0, s0, first, i + 1)| > i + 1
    ensures !overflow ==> SplitUpTo(m0, s0, first, i + 1, Snap(bufs), s, n)
  {
    Untouched(m0, s0, first, i, Snap(bufs), st, n0);
    assert |Snap(bufs)[i]| == bufs[i].Length && LenOk(m0, s0, i);
    ghost var d := m0[i][..Taken(s0.lens[i], size)];
    StartMessage(m0, s0, first, i, Snap(bufs), st, n0);
    var count: nat, end: nat := FirstPiece(s0.lens[i], size, m0[i]);
    var start: nat := 0;
    n, s, overflow := n0, st, false;
    for j := 0 to count
      invariant count == |SegsOf(m0, s0, i)| && Splitting(m0, s0, first, i, Snap(bufs), s, n, j) && At(d, size, j, start, end)
    {
      if n > i {
        return n, s, true;
      }
      AtNext(d, size, j, start, end);
      assert d[start..end] == m0[i][start..end];
      s := PlaceOne(bufs, i, start, end, n, s0.metas[i], s, m0, s0, first, j);
      n := n + 1;
      start, end := NextPiece(end, size, s0.lens[i], d, j);
    }
    EndMessage(m0, s0, first, i, Snap(bufs), s, n, if i != n - 1 then s.(lens := s.lens[i := 0]) else s);
    if i != n - 1 {
      s := s.(lens := s.lens[i := 0]);
    }
  }

  /** Looks at message `i` and splits it, unless something is wrong with it. */
  method SplitNext(bufs: seq<array<Byte>>, i: nat, s0: Slots, n0: nat, st: Slots, ghost m0: Mem, ghost first: nat)
    returns (n: nat, s: Slots, r: Outcome)
    requires Disjoint(bufs) && SplitUpTo(m0, s0, first, i, Snap(bufs), st, n0) && i < |bufs| && s0.lens[i] > 0
    modifies bufs
    ensures r == Fault(m0, s0, first, i) && (r == Fine ==> SplitUpTo(m0, s0, first, i + 1, Snap(bufs), s, n))
  {
    Untouched(m0, s0, first, i, Snap(bufs), st, n0);
    assert |Snap(bufs)[i]| == bufs[i].Length;
    if st.metas[i].gso.None? {
      return n0, st, BadControl;
    }
    if st.metas[i].gso.value > bufs[i].Length {
      return n0, st, OutOfRange;
    }
    var overflow;
    n, s, overflow := SplitOne(bufs, i, st.metas[i].gso.value, s0, n0, st, m0, first);
    r := if overflow then Overflow else Fine;
  }

  /** What is wrong with message `i`, if all before it could be split. */
  ghost function Fault(m0: Mem, s0: Slots, first: nat, i: nat): Outcome
    requires SlotsOk(m0, s0) && first <= i < |m0|
  {
    if s0.metas[i].gso.None? then BadControl
    else if SizeOf(s0.metas[i]) > |m0[i]| then OutOfRange
    else if |Segs(m0, s0, first, i + 1)| > i + 1 then Overflow
    else Fine
  }

  /** Message `i` is where it ends: it is empty, or something is wrong with it. */
  ghost predicate StopsAt(m0: Mem, s0: Slots, first: nat, i: nat, m: Mem, s: Slots, n: nat, r: Outcome) {
    && SlotsOk(m0, s0) && first <= i < |m0|
    && if s0.lens[i] == 0 then r == Fine && SplitUpTo(m0, s0, first, i, m, s, n) else r == Fault(m0, s0, first, i) != Fine
  }

  /** All messages were split up to `last`, which is the end or where it stopped. */
  ghost predicate Stopped(m0: Mem, s0: Slots, first: nat, last: nat, m: Mem, s: Slots, n: nat, r: Outcome) {
    if last < |m0| then StopsAt(m0, s0, first, last, m, s, n, r) else r == Fine && SplitUpTo(m0, s0, first, last, m, s, n)
  }

  method SplitStep(bufs: seq<array<Byte>>, i: nat, s0: Slots, n0: nat, st: Slots, ghost m0: Mem, ghost first: nat)
    returns (n: nat, s: Slots, r: Outcome, stop: bool)
    requires Disjoint(bufs) && SplitUpTo(m0, s0, first, i, Snap(bufs), st, n0) && i < |bufs|
    modifies bufs
    ensures stop ==> StopsAt(m0, s0, first, i, Snap(bufs), s, n, r)
    ensures !stop ==> r == Fine && s0.lens[i] > 0 && SplitUpTo(m0, s0, first, i + 1, Snap(bufs), s, n)
  {
    Untouched(m0, s0, first, i, Snap(bufs), st, n0);
    if st.lens[i] == 0 {
      return n0, st, Fine, true;
    }
    n, s, r := SplitNext(bufs, i, s0, n0, st, m0, first);
    stop := r != Fine;
  }

  method SplitFrom(bufs: seq<array<Byte>>, s0: Slots, first: nat, ghost m0: Mem) returns (n: nat, s: Slots, r: Outcome, ghost last: nat)
    requires Disjoint(bufs) && SplitUpTo(m0, s0, first, first, Snap(bufs), s0, 0)
    modifies bufs
    ensures first <= last <= |bufs| && Full(s0, first, last) && Stopped(m0, s0, first, last, Snap(bufs), s, n, r)
  {
    n, s, r := 0, s0, Fine;
    for i := first to |bufs|
      invariant r == Fine && SplitUpTo(m0, s0, first, i, Snap(bufs), s, n) && Full(s0, first, i)
    {
      last := i;
      var stop;
      n, s, r, stop := SplitStep(bufs, i, s0, n, s, m0, first);
      if stop {
        return;
      }
    }
    last := |bufs|;
  }

  ghost predicate Full(s0: Slots, first: nat, last: nat) { forall k :: first <= k < last && k < |s0.lens| ==> s0.lens[k] > 0 }

  /** Splits the messages from `first` on, up to the first empty one. Without an error the first `n`
      slots hold exactly their datagrams, in order: no message is overwritten before it is read. */
  method SplitCoalescedMessages(bufs: seq<array<Byte>>, s0: Slots, first: nat) returns (n: nat, s: Slots, r: Outcome, ghost last: nat)
    requires Disjoint(bufs) && SlotsOk(Snap(bufs), s0) && first <= |bufs|
    modifies bufs
    ensures first <= last <= |bufs| && Full(s0, first, last)
    ensures Stopped(old(Snap(bufs)), s0, first, last, Snap(bufs), s, n, r)
  {
    StartSplit(Snap(bufs), s0, first);
    n, s, r, last := SplitFrom(bufs, s0, first, Snap(bufs));
  }
}
