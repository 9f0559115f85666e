/** Metric and sequence-number arithmetic of the router: saturating addition on
    32-bit metrics and serial comparison of 16-bit sequence numbers. */
module Metric {
  import opened Basics

  /** A retraction. */
  const INF: U32 := 0xFFFF_FFFF
  /** The largest metric that is not a retraction. */
  const INFM: U32 := 0xFFFF_FFFE

  function AddMetric(a: U32, b: U32): (r: U32)
    ensures r == INF <==> a == INF || b == INF
  {
    if a == INF || b == INF then INF
    else if a + b < INFM then a + b else INFM
  }

  /** The two places that add up a route's cost nest the additions differently;
      saturation makes no difference between them. */
  lemma {:induction false} AddMetricLaws(a: U32, b: U32, c: U32)
    ensures AddMetric(a, b) == AddMetric(b, a)
    ensures AddMetric(AddMetric(a, b), c) == AddMetric(a, AddMetric(b, c))
  {
    if a != INF && b != INF && c != INF {
      assert AddMetric(AddMetric(a, b), c) == if a + b + c < INFM then a + b + c else INFM;
      assert AddMetric(a, AddMetric(b, c)) == if a + b + c < INFM then a + b + c else INFM;
    }
  }

  /** A hop makes a finite metric strictly larger exactly when it costs something and
      the metric has not saturated yet. */
  lemma {:induction false} HopStrictlyLarger(cost: U32, m: U32)
    requires AddMetric(cost, m) != INF
    ensures m < AddMetric(cost, m) <==> 0 < cost && m < INFM
  {
  }

  /** Subtraction on 16 bits. */
  function Minus16(a: U16, b: U16): (r: U16)
  {
    if b <= a then a - b else a - b + 0x1_0000
  }

  predicate SeqnoLt(a: U16, b: U16) {
    0 < Minus16(b, a) < 0x8000
  }

  predicate SeqnoLe(a: U16, b: U16) {
    a == b || SeqnoLt(a, b)
  }

  predicate SeqnoGt(a: U16, b: U16) {
    !SeqnoLe(a, b)
  }

  predicate SeqnoGe(a: U16, b: U16) {
    !SeqnoLt(a, b)
  }

  /** Serial comparison is a strict order on two numbers unless they are half the number
      space apart; there `SeqnoGt` holds both ways and `SeqnoLt` neither way. */
  lemma {:induction false} SeqnoOrder(a: U16, b: U16)
    ensures !(SeqnoLt(a, b) && SeqnoLt(b, a))
    ensures SeqnoGt(a, b) && SeqnoGt(b, a) <==> Minus16(a, b) == 0x8000
    ensures a == b || SeqnoLt(a, b) || SeqnoLt(b, a) <==> Minus16(a, b) != 0x8000
  {
  }

  /** Position of a sequence number counted upwards from `base`. */
  function Rank(base: U16, q: U16): U16 { Minus16(q, base) }

  predicate InWindow(base: U16, q: U16) {
    Rank(base, q) < 0x8000
  }

  /** Section 3.2.1 of RFC 8966: inside one half of the number space the serial
      comparison is the ordinary one. */
  lemma {:induction false} SeqnoWindow(base: U16, a: U16, b: U16)
    requires InWindow(base, a) && InWindow(base, b)
    ensures SeqnoLt(a, b) <==> Rank(base, a) < Rank(base, b)
    ensures SeqnoLe(a, b) <==> Rank(base, a) <= Rank(base, b)
    ensures a == b <==> Rank(base, a) == Rank(base, b)
  {
  }
}
