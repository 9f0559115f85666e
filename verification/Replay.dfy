/** The anti-replay window of RFC 6479: a ring of bit blocks that stands for the set of all
    counters accepted so far. */
module Replay {
  const BLOCK_BITS := 64
  const RING_BLOCKS := 128
  const WINDOW_SIZE := (RING_BLOCKS - 1) * BLOCK_BITS

  /** The bits of a block, lowest first. */
  type Block = b: seq<bool> | |b| == 64 witness seq(64, _ => false)

  function ZeroBlock(): (b: Block)
    ensures forall j :: 0 <= j < 64 ==> !b[j]
  {
    seq(64, _ => false)
  }

  /** Blocks less than a ring apart do not share a place. */
  lemma {:induction false} PlacesApart(a: nat, b: nat)
    requires a < b < a + RING_BLOCKS
    ensures a % RING_BLOCKS != b % RING_BLOCKS
  {
  }

  /** The blocks that the ring holds when `last` is the largest counter. */
  predicate InRing(last: nat, b: nat) { last / BLOCK_BITS - RING_BLOCKS < b <= last / BLOCK_BITS }

  /** Block `b` of the ring shows which of its counters were accepted. */
  ghost predicate BlockOk(ring: seq<Block>, accepted: set<nat>, b: nat)
    requires |ring| == RING_BLOCKS
  {
    forall j :: 0 <= j < 64 ==> (ring[b % RING_BLOCKS][j] <==> BLOCK_BITS * b + j in accepted)
  }

  ghost predicate RingOk(ring: seq<Block>, accepted: set<nat>, last: nat)
    requires |ring| == RING_BLOCKS
  {
    forall b {:trigger BlockOk(ring, accepted, b)} :: InRing(last, b) ==> BlockOk(ring, accepted, b)
  }

  /** `last` is the largest accepted counter. */
  ghost predicate LastOk(accepted: set<nat>, last: nat) {
    (forall c :: c in accepted ==> c <= last) && (if accepted == {} then last == 0 else last in accepted)
  }

  /** The places of the blocks `lo < b <= hi` are empty; the others are as before. */
  ghost predicate Cleared(ring: seq<Block>, ring': seq<Block>, lo: nat, hi: nat)
    requires |ring| == |ring'| == RING_BLOCKS
  {
    && (forall b :: lo < b <= hi ==> ring'[b % RING_BLOCKS] == ZeroBlock())
    && (forall k :: 0 <= k < RING_BLOCKS ==> ring'[k] == ring[k] || exists b :: lo < b <= hi && b % RING_BLOCKS == k)
  }

  /** Moving the window forward keeps the ring right. */
  lemma {:induction false} MovedOk(ring: seq<Block>, ring': seq<Block>, accepted: set<nat>, last: nat, counter: nat, b: nat)
    requires |ring| == |ring'| == RING_BLOCKS && RingOk(ring, accepted, last) && LastOk(accepted, last) && counter > last
    requires var cur, to := last / BLOCK_BITS, counter / BLOCK_BITS;
             Cleared(ring, ring', cur, if to - cur > RING_BLOCKS then cur + RING_BLOCKS else to)
    requires InRing(counter, b)
    ensures BlockOk(ring', accepted, b)
  {
    var cur, to := last / BLOCK_BITS, counter / BLOCK_BITS;
    if b <= cur {
      assert InRing(last, b) && BlockOk(ring, accepted, b);
      forall i | cur < i <= to
        ensures i % RING_BLOCKS != b % RING_BLOCKS
      {
        PlacesApart(b, i);
      }
    } else {
      ClearedAt(ring, ring', cur, to, b);
    }
  }

  lemma {:induction false} ClearedAt(ring: seq<Block>, ring': seq<Block>, cur: nat, to: nat, b: nat)
    requires |ring| == |ring'| == RING_BLOCKS && cur < b <= to
    requires Cleared(ring, ring', cur, if to - cur > RING_BLOCKS then cur + RING_BLOCKS else to)
    ensures ring'[b % RING_BLOCKS] == ZeroBlock()
  {
    if to - cur > RING_BLOCKS {
      var i := cur + 1 + (b - cur - 1) % RING_BLOCKS;
      assert i % RING_BLOCKS == b % RING_BLOCKS;
    }
  }

  /** Setting the bit of a counter changes no other counter of the window. */
  lemma {:induction false} MarkedOk(ring: seq<Block>, accepted: set<nat>, counter: nat, b: nat)
    requires |ring| == RING_BLOCKS && BlockOk(ring, accepted, b)
    requires -RING_BLOCKS < b - counter / BLOCK_BITS < RING_BLOCKS
    ensures var index, bit := counter / BLOCK_BITS % RING_BLOCKS, counter % BLOCK_BITS;
            BlockOk(ring[index := ring[index][bit := true]], accepted + {counter}, b)
  {
    var c := counter / BLOCK_BITS;
    if b < c {
      PlacesApart(b, c);
    } else if c < b {
      PlacesApart(c, b);
    }
  }

  class Filter {
    var last: nat
    var ring: array<Block>
    ghost var accepted: set<nat>

    ghost predicate Valid()
      reads this, ring
    {
      ring.Length == RING_BLOCKS && RingOk(ring[..], accepted, last) && LastOk(accepted, last)
    }

    /** Empties the filter, whatever the ring holds. */
    method Reset()
      requires ring.Length == RING_BLOCKS
      modifies this`last, this`accepted, ring
      ensures Valid() && accepted == {}
    {
      last := 0;
      ring[0] := ZeroBlock();
      accepted := {};
      forall b | InRing(0, b)
        ensures BlockOk(ring[..], {}, b)
      {
        assert b == 0;
      }
    }

    /** Empties the places of the blocks after `current` up to `current + diff`. */
    method Clear(current: nat, diff: nat)
      requires ring.Length == RING_BLOCKS
      modifies ring
      ensures Cleared(old(ring[..]), ring[..], current, current + diff)
    {
      var i := current + 1;
      while i <= current + diff
        invariant current < i <= current + diff + 1
        invariant Cleared(old(ring[..]), ring[..], current, i - 1)
      {
        ring[i % RING_BLOCKS] := ZeroBlock();
        i := i + 1;
      }
    }

    /** Moves the window forward. */
    method MoveTo(counter: nat)
      requires Valid() && counter > last
      modifies this`last, ring
      ensures last == counter && RingOk(ring[..], accepted, counter)
    {
      var current := last / BLOCK_BITS;
      var diff := counter / BLOCK_BITS - current;
      if diff > RING_BLOCKS {
        diff := RING_BLOCKS;
      }
      ghost var before := ring[..];
      Clear(current, diff);
      forall b | InRing(counter, b)
        ensures BlockOk(ring[..], accepted, b)
      {
        MovedOk(before, ring[..], accepted, last, counter, b);
      }
      last := counter;
    }

    /** Sets the bit of a counter in the window; it reports whether the bit was clear. */
    method Mark(counter: nat) returns (ok: bool)
      requires ring.Length == RING_BLOCKS && RingOk(ring[..], accepted, last) && InRing(last, counter / BLOCK_BITS)
      modifies this`accepted, ring
      ensures ok <==> counter !in old(accepted)
      ensures accepted == old(accepted) + {counter} && RingOk(ring[..], accepted, last)
    {
      var index, bit := counter / BLOCK_BITS % RING_BLOCKS, counter % BLOCK_BITS;
      ghost var before, b0 := ring[..], counter / BLOCK_BITS;
      assert BlockOk(before, accepted, b0);
      var was := ring[index];
      var now := was[bit := true];
      ring[index] := now;
      ok := was != now;
      assert was[bit] ==> now == was;
      assert was[bit] <==> BLOCK_BITS * b0 + bit in accepted;
      assert BLOCK_BITS * b0 + bit == counter;
      forall b | InRing(last, b)
        ensures BlockOk(ring[..], accepted + {counter}, b)
      {
        assert BlockOk(before, accepted, b);
        MarkedOk(before, accepted, counter, b);
        assert ring[..] == before[index := now];
      }
      accepted := accepted + {counter};
    }

    /** Accepts a counter exactly if it is below the limit, was not accepted before, and is above
        the largest accepted one or within the window behind it. */
    method ValidateCounter(counter: nat, limit: nat) returns (ok: bool)
      requires Valid()
      modifies this`last, this`accepted, ring
      ensures Valid()
      ensures ok <==> counter < limit && counter !in old(accepted) && (counter > old(last) || old(last) - counter <= WINDOW_SIZE)
      ensures accepted == if ok then old(accepted) + {counter} else old(accepted)
    {
      if counter >= limit {
        return false;
      }
      if counter > last {
        MoveTo(counter);
      } else if last - counter > WINDOW_SIZE {
        return false;
      }
      ok := Mark(counter);
    }
  }
}
