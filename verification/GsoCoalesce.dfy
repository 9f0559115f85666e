/** UDP segmentation offload on the way out: datagrams are merged into messages that the kernel cuts
    at a recorded size. */
module GsoCoalesce {
  import opened Basics
  import opened FakeTcpFrames

  const MAX_IPV4_PAYLOAD := 65507
  const MAX_IPV6_PAYLOAD := 65527
  const MAX_DATAGRAMS := 64

  /** A buffer and the capacity behind it. */
  datatype Buf = Buf(data: Bytes, cap: nat)

  /** A message; a size of 0 means that it is sent as it is. */
  datatype Msg = Msg(data: Bytes, gso: nat)

  function Flat(g: seq<Bytes>): Bytes { if g == [] then [] else g[0] + Flat(g[1..]) }

  lemma {:induction false} FlatAppend(g: seq<Bytes>, b: Bytes)
    ensures Flat(g + [b]) == Flat(g) + b
  {
    if g == [] {
      assert g + [b] == [b];
    } else {
      assert (g + [b])[1..] == g[1..] + [b];
      FlatAppend(g[1..], b);
    }
  }

  function Join(gs: seq<seq<Bytes>>): seq<Bytes> { if gs == [] then [] else gs[0] + Join(gs[1..]) }

  lemma {:induction false} JoinAppend(gs: seq<seq<Bytes>>, g: seq<Bytes>)
    ensures Join(gs + [g]) == Join(gs) + g
  {
    if gs == [] {
      assert gs + [g] == [g];
    } else {
      assert (gs + [g])[1..] == gs[1..] + [g];
      JoinAppend(gs[1..], g);
    }
  }

  /** What the kernel sends for a message: pieces of the recorded size, the last one possibly shorter. */
  function Cut(d: Bytes, size: nat): (r: seq<Bytes>)
    ensures |r| >= 1
    decreases |d|
  {
    if size == 0 || |d| <= size then [d] else [d[..size]] + Cut(d[size..], size)
  }

  /** The datagrams of one message, which all have the length of the first but for the last one,
      which may be shorter. */
  ghost predicate IsBatch(g: seq<Bytes>, m: Msg, maxPayload: nat) {
    && g != [] && m.data == Flat(g) && m.gso == (if |g| > 1 then |g[0]| else 0)
    && (forall k :: 0 <= k < |g| - 1 ==> |g[k]| == |g[0]|) && |g[|g| - 1]| <= |g[0]|
    && (|g| > 1 ==> |g| <= MAX_DATAGRAMS && |m.data| <= maxPayload)
  }

  /** Only the first datagram of a message may be empty. */
  ghost predicate NoneEmptyBehind(g: seq<Bytes>) { forall k :: 0 < k < |g| ==> g[k] != [] }

  /** Cutting pieces of one size. */
  lemma {:induction false} CutFlat(g: seq<Bytes>, size: nat)
    requires g != [] && size > 0 && (forall k :: 0 <= k < |g| - 1 ==> |g[k]| == size) && 0 < |g[|g| - 1]| <= size
    ensures Cut(Flat(g), size) == g
  {
    assert Flat(g) == g[0] + Flat(g[1..]);
    if |g| == 1 {
      assert g[1..] == [];
      assert Flat(g) == g[0];
    } else {
      CutFlat(g[1..], size);
      FlatNonEmpty(g[1..], size);
      assert Flat(g)[..size] == g[0] && Flat(g)[size..] == Flat(g[1..]);
    }
  }

  lemma {:induction false} FlatNonEmpty(g: seq<Bytes>, size: nat)
    requires g != [] && g[|g| - 1] != []
    ensures Flat(g) != []
  {
    if |g| > 1 {
      FlatNonEmpty(g[1..], size);
    }
  }

  /** One piece fewer where the last datagram is empty. */
  lemma {:induction false} CutFlatEmpty(g: seq<Bytes>, size: nat)
    requires |g| >= 2 && size > 0 && (forall k :: 0 <= k < |g| - 1 ==> |g[k]| == size) && g[|g| - 1] == []
    ensures |Cut(Flat(g), size)| == |g| - 1
  {
    var h := g[..|g| - 1];
    assert g == h + [[]];
    FlatAppend(h, []);
    assert Flat(h) + [] == Flat(h);
    CutFlat(h, size);
  }

  /** A batch comes back exactly if no datagram behind the first is empty. */
  lemma {:induction false} BatchComesBack(g: seq<Bytes>, m: Msg, maxPayload: nat)
    requires IsBatch(g, m, maxPayload)
    ensures Cut(m.data, m.gso) == g <==> NoneEmptyBehind(g)
    ensures !NoneEmptyBehind(g) ==> |Cut(m.data, m.gso)| < |g|
  {
    if |g| == 1 {
      assert g == [g[0]] && g[1..] == [];
      assert Flat(g) == g[0] + Flat(g[1..]);
      assert g[0] + [] == g[0];
    } else if |g[0]| == 0 {
      assert g[1] == [];
    } else if g[|g| - 1] == [] {
      CutFlatEmpty(g, |g[0]|);
    } else {
      CutFlat(g, |g[0]|);
    }
  }

  // ---------- all messages ----------

  ghost predicate AreBatches(gs: seq<seq<Bytes>>, ms: seq<Msg>, maxPayload: nat) {
    |gs| == |ms| && forall i :: 0 <= i < |ms| ==> IsBatch(gs[i], ms[i], maxPayload)
  }

  function CutAll(ms: seq<Msg>): seq<Bytes> { if ms == [] then [] else Cut(ms[0].data, ms[0].gso) + CutAll(ms[1..]) }

  ghost predicate NoneEmptyMerged(gs: seq<seq<Bytes>>) { forall i :: 0 <= i < |gs| ==> NoneEmptyBehind(gs[i]) }

  /** What the kernel sends never is more than what was merged, and it is the same exactly if no
      empty datagram was merged into a message. */
  lemma {:induction false} RoundTrip(gs: seq<seq<Bytes>>, ms: seq<Msg>, maxPayload: nat)
    requires AreBatches(gs, ms, maxPayload)
    ensures |CutAll(ms)| <= |Join(gs)| && (CutAll(ms) == Join(gs) <==> NoneEmptyMerged(gs))
    ensures |CutAll(ms)| == |Join(gs)| ==> NoneEmptyMerged(gs)
  {
    if ms != [] {
      assert IsBatch(gs[0], ms[0], maxPayload);
      BatchComesBack(gs[0], ms[0], maxPayload);
      RoundTrip(gs[1..], ms[1..], maxPayload);
      assert NoneEmptyMerged(gs) <==> NoneEmptyBehind(gs[0]) && NoneEmptyMerged(gs[1..]) by {
        assert gs == [gs[0]] + gs[1..];
      }
    }
  }

  // ---------- merging ----------

  ghost function Datas(bufs: seq<Buf>): (r: seq<Bytes>)
    ensures |r| == |bufs| && forall k :: 0 <= k < |r| ==> r[k] == bufs[k].data
  {
    seq(|bufs|, k requires 0 <= k < |bufs| => bufs[k].data)
  }

  /** The batch being filled: its datagrams are one size so far unless it is closed. */
  ghost predicate Open(g: seq<Bytes>, data: Bytes, size: nat, count: nat, closed: bool, maxPayload: nat) {
    && g != [] && data == Flat(g) && size == |g[0]| && count == |g|
    && (forall k :: 0 <= k < |g| - 1 ==> |g[k]| == size) && |g[|g| - 1]| <= size
    && (closed <==> |g[|g| - 1]| < size) && (count > 1 ==> count <= MAX_DATAGRAMS && |data| <= maxPayload)
  }

  lemma {:induction false} Merge(g: seq<Bytes>, data: Bytes, size: nat, count: nat, maxPayload: nat, b: Bytes)
    requires Open(g, data, size, count, false, maxPayload) && |b| <= size && count < MAX_DATAGRAMS && |data| + |b| <= maxPayload
    ensures Open(g + [b], data + b, size, count + 1, |b| < size, maxPayload)
  {
    FlatAppend(g, b);
  }

  lemma {:induction false} Start(b: Bytes, maxPayload: nat)
    ensures Open([b], b, |b|, 1, false, maxPayload)
  {
    assert [b][1..] == [];
    assert Flat([b]) == b + Flat([]);
  }

  /** Between two buffers: finished messages, and one that is still open. */
  ghost predicate Merging(bufs: seq<Buf>, i: nat, done: seq<Msg>, gs: seq<seq<Bytes>>, g: seq<Bytes>, maxPayload: nat) {
    i <= |bufs| && AreBatches(gs, done, maxPayload) && Join(gs) + g == Datas(bufs)[..i]
  }

  lemma {:induction false} MergedOne(bufs: seq<Buf>, i: nat, done: seq<Msg>, gs: seq<seq<Bytes>>, g: seq<Bytes>, maxPayload: nat)
    requires Merging(bufs, i, done, gs, g, maxPayload) && i < |bufs|
    ensures Merging(bufs, i + 1, done, gs, g + [bufs[i].data], maxPayload)
  {
    var ds := Datas(bufs);
    assert ds[..i + 1] == ds[..i] + [ds[i]];
    assert Join(gs) + (g + [ds[i]]) == (Join(gs) + g) + [ds[i]];
  }

  lemma {:induction false} ClosedOne(bufs: seq<Buf>, i: nat, done: seq<Msg>, gs: seq<seq<Bytes>>, g: seq<Bytes>, m: Msg, maxPayload: nat)
    requires Merging(bufs, i, done, gs, g, maxPayload) && IsBatch(g, m, maxPayload)
    ensures Merging(bufs, i, done + [m], gs + [g], [], maxPayload)
  {
    JoinAppend(gs, g);
    assert Join(gs + [g]) + [] == Join(gs) + g;
  }

  /** The datagram `b` does not fit behind the batch `g` in a buffer of capacity `cap`. */
  predicate CannotMerge(g: seq<Bytes>, cap: nat, b: Bytes, maxPayload: nat)
    requires g != []
  {
    || |Flat(g)| + |b| > maxPayload || |b| > |g[0]| || |Flat(g)| + |b| > cap || |g| >= MAX_DATAGRAMS || |g[|g| - 1]| < |g[0]|
  }

  /** The capacity of the buffer that batch `i` was merged into. */
  ghost function CapOf(bufs: seq<Buf>, gs: seq<seq<Bytes>>, i: nat): nat
    requires i <= |gs|
  {
    var at := |Join(gs[..i])|;
    if at < |bufs| then bufs[at].cap else 0
  }

  /** No batch ends before it has to. */
  ghost predicate Greedy(bufs: seq<Buf>, gs: seq<seq<Bytes>>, maxPayload: nat) {
    && (forall i :: 0 <= i < |gs| ==> gs[i] != [])
    && forall i :: 0 <= i < |gs| - 1 ==> CannotMerge(gs[i], CapOf(bufs, gs, i), gs[i + 1][0], maxPayload)
  }

  lemma {:induction false} GreedyExtend(bufs: seq<Buf>, gs: seq<seq<Bytes>>, g: seq<Bytes>, b: Bytes, maxPayload: nat)
    requires g != [] && Greedy(bufs, gs + [g], maxPayload)
    ensures Greedy(bufs, gs + [g + [b]], maxPayload)
  {
    var all, all' := gs + [g], gs + [g + [b]];
    assert forall i :: 0 <= i < |all'| ==> all[i] != [] && all'[i] == (if i < |gs| then all[i] else g + [b]);
    forall i | 0 <= i < |all'| - 1
      ensures CannotMerge(all'[i], CapOf(bufs, all', i), all'[i + 1][0], maxPayload)
    {
      assert CannotMerge(all[i], CapOf(bufs, all, i), all[i + 1][0], maxPayload);
      assert all[..i] == all'[..i];
    }
  }

  lemma {:induction false} GreedyStart(bufs: seq<Buf>, gs: seq<seq<Bytes>>, g: seq<Bytes>, b: Bytes, maxPayload: nat)
    requires g != [] && Greedy(bufs, gs + [g], maxPayload) && CannotMerge(g, CapOf(bufs, gs, |gs|), b, maxPayload)
    ensures Greedy(bufs, gs + [g] + [[b]], maxPayload)
  {
    var all, all' := gs + [g], gs + [g] + [[b]];
    forall i | 0 <= i < |all'| - 1
      ensures CannotMerge(all'[i], CapOf(bufs, all', i), all'[i + 1][0], maxPayload)
    {
      assert all[..i] == all'[..i];
      if i < |gs| {
        assert CannotMerge(all[i], CapOf(bufs, all, i), all[i + 1][0], maxPayload);
      } else {
        assert all[..i] == gs && gs[..|gs|] == gs;
      }
    }
  }

  lemma {:induction false} NextCap(bufs: seq<Buf>, i: nat, done: seq<Msg>, gs: seq<seq<Bytes>>, g: seq<Bytes>, maxPayload: nat)
    requires Merging(bufs, i, done, gs, g, maxPayload) && i < |bufs|
    ensures CapOf(bufs, gs + [g], |gs| + 1) == bufs[i].cap
  {
    assert (gs + [g])[..|gs| + 1] == gs + [g];
    JoinAppend(gs, g);
  }

  /** How the buffers are grouped: each goes behind the batch before it if it can. */
  function Grouping(bufs: seq<Buf>, maxPayload: nat): seq<seq<Bytes>> {
    if bufs == [] then [] else GroupFrom(bufs, 1, [bufs[0].data], bufs[0].cap, maxPayload)
  }

  /** The groups from buffer `i` on, when `g` is being filled in a buffer of capacity `cap`. */
  function GroupFrom(bufs: seq<Buf>, i: nat, g: seq<Bytes>, cap: nat, maxPayload: nat): seq<seq<Bytes>>
    requires i <= |bufs| && g != []
    decreases |bufs| - i
  {
    if i == |bufs| then [g]
    else if CannotMerge(g, cap, bufs[i].data, maxPayload) then [g] + GroupFrom(bufs, i + 1, [bufs[i].data], bufs[i].cap, maxPayload)
    else GroupFrom(bufs, i + 1, g + [bufs[i].data], cap, maxPayload)
  }

  /** The groups are `gs`, the one being filled, and those to come. */
  ghost predicate Grouped(bufs: seq<Buf>, i: nat, gs: seq<seq<Bytes>>, g: seq<Bytes>, cap: nat, maxPayload: nat) {
    i <= |bufs| && g != [] && Grouping(bufs, maxPayload) == gs + GroupFrom(bufs, i, g, cap, maxPayload)
  }

  lemma {:induction false} GroupedNext(bufs: seq<Buf>, i: nat, gs: seq<seq<Bytes>>, g: seq<Bytes>, cap: nat, maxPayload: nat)
    requires Grouped(bufs, i, gs, g, cap, maxPayload) && i < |bufs|
    ensures if CannotMerge(g, cap, bufs[i].data, maxPayload) then Grouped(bufs, i + 1, gs + [g], [bufs[i].data], bufs[i].cap, maxPayload)
            else Grouped(bufs, i + 1, gs, g + [bufs[i].data], cap, maxPayload)
  {
    if CannotMerge(g, cap, bufs[i].data, maxPayload) {
      var rest := GroupFrom(bufs, i + 1, [bufs[i].data], bufs[i].cap, maxPayload);
      assert gs + ([g] + rest) == (gs + [g]) + rest;
    }
  }

  function MaxPayload(is6: bool): nat { if is6 then MAX_IPV6_PAYLOAD else MAX_IPV4_PAYLOAD }

  /** The messages hold all buffers in order, batch by batch. */
  ghost predicate Coalesced(bufs: seq<Buf>, msgs: seq<Msg>, gs: seq<seq<Bytes>>, maxPayload: nat) {
    AreBatches(gs, msgs, maxPayload) && Join(gs) == Datas(bufs) && Greedy(bufs, gs, maxPayload)
  }

  /** Messages of several datagrams are not too long. */
  ghost predicate WithinLimit(msgs: seq<Msg>, limit: nat) {
    forall k :: 0 <= k < |msgs| && msgs[k].gso > 0 ==> |msgs[k].data| <= limit
  }

  lemma {:induction false} CoalescedWithin(bufs: seq<Buf>, msgs: seq<Msg>, gs: seq<seq<Bytes>>, maxPayload: nat)
    requires Coalesced(bufs, msgs, gs, maxPayload)
    ensures WithinLimit(msgs, maxPayload)
  {
    forall k | 0 <= k < |msgs| && msgs[k].gso > 0
      ensures |msgs[k].data| <= maxPayload
    {
      assert IsBatch(gs[k], msgs[k], maxPayload);
    }
  }

  /** Merges buffers into messages. The buffer that starts a message is appended to in place, so its
      capacity limits the message too. */
  method CoalesceMessages(bufs: seq<Buf>, is6: bool) returns (msgs: seq<Msg>)
    ensures Coalesced(bufs, msgs, Grouping(bufs, MaxPayload(is6)), MaxPayload(is6))
    ensures CutAll(msgs) == Datas(bufs) <==> NoneEmptyMerged(Grouping(bufs, MaxPayload(is6)))
    ensures WithinLimit(msgs, if is6 then 65527 else 65507)
  {
    var maxPayload := MaxPayload(is6);
    ghost var gs: seq<seq<Bytes>> := [];
    msgs := [];
    if |bufs| == 0 {
      assert Coalesced(bufs, msgs, gs, maxPayload);
      RoundTrip(gs, msgs, maxPayload);
      return;
    }
    var data, cap: nat, size: nat, count: nat, closed := bufs[0].data, bufs[0].cap, |bufs[0].data|, 1, false;
    ghost var g := [data];
    Start(data, maxPayload);
    assert Datas(bufs)[..1] == [bufs[0].data];
    for i := 1 to |bufs|
      invariant Merging(bufs, i, msgs, gs, g, maxPayload) && Open(g, data, size, count, closed, maxPayload)
      invariant Greedy(bufs, gs + [g], maxPayload) && cap == CapOf(bufs, gs, |gs|) && Grouped(bufs, i, gs, g, cap, maxPayload)
    {
      var b := bufs[i].data;
      GroupedNext(bufs, i, gs, g, cap, maxPayload);
      if |b| + |data| <= maxPayload && |b| <= size && |b| + |data| <= cap && count < MAX_DATAGRAMS && !closed {
        MergedOne(bufs, i, msgs, gs, g, maxPayload);
        Merge(g, data, size, count, maxPayload, b);
        GreedyExtend(bufs, gs, g, b, maxPayload);
        g, data, count, closed := g + [b], data + b, count + 1, |b| < size;
      } else {
        ClosedOne(bufs, i, msgs, gs, g, Msg(data, if count > 1 then size else 0), maxPayload);
        GreedyStart(bufs, gs, g, b, maxPayload);
        NextCap(bufs, i, msgs, gs, g, maxPayload);
        msgs, gs := msgs + [Msg(data, if count > 1 then size else 0)], gs + [g];
        MergedOne(bufs, i, msgs, gs, [], maxPayload);
        assert [] + [b] == [b];
        Start(b, maxPayload);
        g, data, cap, size, count, closed := [b], b, bufs[i].cap, |b|, 1, false;
      }
    }
    ClosedOne(bufs, |bufs|, msgs, gs, g, Msg(data, if count > 1 then size else 0), maxPayload);
    msgs, gs := msgs + [Msg(data, if count > 1 then size else 0)], gs + [g];
    assert Datas(bufs)[..|bufs|] == Datas(bufs);
    assert Join(gs) + [] == Join(gs);
    assert Coalesced(bufs, msgs, gs, maxPayload);
    RoundTrip(gs, msgs, maxPayload);
    CoalescedWithin(bufs, msgs, gs, maxPayload);
  }

  /** Non-empty buffers all come back, unchanged and in order. */
  lemma {:induction false} NonEmptyComeBack(bufs: seq<Buf>, gs: seq<seq<Bytes>>, msgs: seq<Msg>, maxPayload: nat)
    requires Coalesced(bufs, msgs, gs, maxPayload)
    requires forall k :: 0 < k < |bufs| ==> bufs[k].data != []
    ensures CutAll(msgs) == Datas(bufs)
  {
    forall i | 0 <= i < |gs|
      ensures NoneEmptyBehind(gs[i])
    {
      forall k | 0 < k < |gs[i]|
        ensures gs[i][k] != []
      {
        var at := JoinIndex(gs, i, k);
        assert Datas(bufs)[at] == bufs[at].data;
      }
    }
    RoundTrip(gs, msgs, maxPayload);
  }

  /** Where a datagram of a batch stands among all. */
  lemma {:induction false} JoinIndex(gs: seq<seq<Bytes>>, i: nat, k: nat) returns (at: nat)
    requires i < |gs| && k < |gs[i]|
    ensures k <= at < |Join(gs)| && Join(gs)[at] == gs[i][k]
  {
    if i == 0 {
      at := k;
    } else {
      var j := JoinIndex(gs[1..], i - 1, k);
      at := |gs[0]| + j;
    }
  }

  /** An empty buffer behind one with a byte is merged into its message, and so it is lost. */
  lemma {:induction false} EmptyMergedIsLost(b: Byte, cap: nat, is6: bool, msgs: seq<Msg>)
    requires cap >= 1
    requires var bufs := [Buf([b], cap), Buf([], 0)]; Coalesced(bufs, msgs, Grouping(bufs, MaxPayload(is6)), MaxPayload(is6))
    ensures CutAll(msgs) == [[b]] && CutAll(msgs) != Datas([Buf([b], cap), Buf([], 0)])
  {
    var bufs, none: Bytes, g: seq<Bytes> := [Buf([b], cap), Buf([], 0)], [], [[b]];
    assert Flat(g) == [b] + Flat(g[1..]);
    assert g + [none] == [[b], none];
    assert Grouping(bufs, MaxPayload(is6)) == GroupFrom(bufs, 2, [[b], none], cap, MaxPayload(is6)) == [[[b], none]];
    assert IsBatch([[b], none], msgs[0], MaxPayload(is6));
    FlatAppend(g, none);
    assert Flat([[b], none]) == [b];
    assert msgs == [msgs[0]] && msgs[1..] == [];
    assert CutAll(msgs) == Cut([b], 1) + CutAll(msgs[1..]);
  }
}
