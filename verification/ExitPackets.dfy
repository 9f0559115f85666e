/** Packets of the exit tunnel: IP packets, and IP packets behind a one-entry MPLS label stack. */
module ExitPackets {
  import opened Basics
  import opened OnesComplement

  const TRANSPORT_HEADER := 16
  const POLY_HEADER := 3
  const UNICAST_HEADER := 5
  const WRAP_HEADER := 8
  const UNICAST_PROTO := 9
  const SUBTYPE_MPLS := 1
  const DEFAULT_TTL := 64

  // ---------- headers ----------

  function Version(p: Bytes): nat
    requires p != []
  {
    p[0] / 16
  }

  predicate HasHeader(p: Bytes) {
    |p| >= POLY_HEADER && (Version(p) == 4 ==> |p| >= 20) && (Version(p) == 6 ==> |p| >= 40)
  }

  /** The length in the header, in 16-bit arithmetic. */
  function LengthOf(p: Bytes): nat
    requires HasHeader(p)
  {
    if Version(p) == 4 then Be16(p[2], p[3])
    else if Version(p) == 6 then (Be16(p[4], p[5]) + 40) % 0x1_0000
    else (Be16(p[1], p[2]) + POLY_HEADER) % 0x1_0000
  }

  /** What is left of a packet after padding is cut off; nothing if the header does not allow it. */
  function Parsed(p: Bytes): Option<Bytes> {
    if HasHeader(p) && LengthOf(p) <= |p| then Some(p[..LengthOf(p)]) else None
  }

  /** A packet that its header describes completely. */
  predicate Exact(p: Bytes) { HasHeader(p) && LengthOf(p) == |p| }

  /** An IP packet with its addresses. */
  predicate IsIp(p: Bytes) { p != [] && ((Version(p) == 4 && |p| >= 20) || (Version(p) == 6 && |p| >= 40)) }

  /** Padding does not matter to a packet that its header describes. */
  lemma {:induction false} PaddingIsCut(p: Bytes, pad: Bytes)
    requires Exact(p)
    ensures Parsed(p + pad) == Some(p)
  {
    var q := p + pad;
    assert q[0] == p[0] && q[1] == p[1] && q[2] == p[2];
    if Version(p) == 4 {
      assert q[3] == p[3];
    } else if Version(p) == 6 {
      assert q[4] == p[4] && q[5] == p[5];
    }
    assert q[..|p|] == p;
  }

  // ---------- the label-stack entry ----------

  datatype Lse = Lse(dest: nat, tc: nat, bos: bool, ttl: nat)

  predicate LseOk(l: Lse) { l.dest <= 0xFFFFF && l.tc < 8 && l.ttl < 256 }

  /** The 32 bits of an entry; label and class are cut to their widths. */
  function LseBits(l: Lse): (v: nat)
    requires l.ttl < 256
    ensures v < 0x1_0000_0000
  {
    l.dest % 0x10_0000 * 4096 + l.tc % 8 * 512 + (if l.bos then 256 else 0) + l.ttl
  }

  function EncodeLse(l: Lse): (s: Bytes)
    requires l.ttl < 256
    ensures |s| == 4
  {
    BeBytes(LseBits(l), 4)
  }

  function DecodeLse(s: Bytes): (l: Lse)
    requires |s| == 4
  {
    DecodeBits(BeVal(s))
  }

  function DecodeBits(v: nat): Lse { Lse(v / 4096, v / 512 % 8, v / 256 % 2 == 1, v % 256) }

  /** An entry with fields that fit is read back as it was written. */
  lemma {:induction false} LseRoundTrip(l: Lse)
    requires LseOk(l)
    ensures DecodeLse(EncodeLse(l)) == l
  {
    Pow256Small();
    BeBytesVal(LseBits(l), 4);
    BitsBack(l);
  }

  lemma {:induction false} BitsBack(l: Lse)
    requires LseOk(l)
    ensures DecodeBits(LseBits(l)) == l
  {
    FieldsBack(l.dest, l.tc, if l.bos then 1 else 0, l.ttl, LseBits(l));
  }

  lemma {:induction false} FieldsBack(d: nat, t: nat, s: nat, ttl: nat, v: nat)
    requires t < 8 && s < 2 && ttl < 256 && v == d * 4096 + t * 512 + s * 256 + ttl
    ensures v % 256 == ttl && v / 256 % 2 == s && v / 512 % 8 == t && v / 4096 == d
  {
    var w, u := d * 16 + t * 2 + s, d * 8 + t;
    assert v / 256 == w;
    assert w / 2 == u && w % 2 == s;
    assert v / 512 == u;
    assert u / 8 == d && u % 8 == t;
    assert v / 4096 == d;
  }

  lemma {:induction false} LastByte(x: nat, r: nat)
    requires r < 256
    ensures (256 * x + r) % 256 == r && (256 * x + r) / 256 == x
  {
  }

  /** The last byte is the hop limit, and counting it down changes nothing else. */
  lemma {:induction false} LseCountDown(l: Lse)
    requires LseOk(l) && l.ttl > 0
    ensures EncodeLse(l)[3] == l.ttl && EncodeLse(l.(ttl := l.ttl - 1)) == EncodeLse(l)[3 := l.ttl - 1]
  {
    BitsEndWithTtl(l);
    BitsEndWithTtl(l.(ttl := l.ttl - 1));
    CountDownBytes(LseBits(l));
  }

  lemma {:induction false} BitsEndWithTtl(l: Lse)
    requires l.ttl < 256
    ensures LseBits(l) % 256 == l.ttl && LseBits(l) == LseBits(l.(ttl := 0)) + l.ttl
  {
    LastByte(l.dest % 0x10_0000 * 16 + l.tc % 8 * 2 + (if l.bos then 1 else 0), l.ttl);
  }

  lemma {:induction false} CountDownBytes(v: nat)
    requires v % 256 > 0
    ensures BeBytes(v - 1, 4) == BeBytes(v, 4)[3 := v % 256 - 1] && BeBytes(v, 4)[3] == v % 256
  {
    LastByte(v / 256, v % 256 - 1);
    assert BeBytes(v - 1, 4) == BeBytes(v / 256, 3) + [v % 256 - 1];
  }

  // ---------- wrapped packets ----------

  /** The frame around an inner packet: version, length, subtype and label-stack entry. */
  function Frame(inner: Bytes, l: Lse): Bytes
    requires l.ttl < 256 && |inner| + WRAP_HEADER < 0x1_0000
  {
    var n := |inner| + UNICAST_HEADER;
    [UNICAST_PROTO * 16, n / 256, n % 256, SUBTYPE_MPLS] + EncodeLse(l) + inner
  }

  lemma {:induction false} FrameParts(inner: Bytes, l: Lse)
    requires l.ttl < 256 && |inner| + WRAP_HEADER < 0x1_0000
    ensures var p := Frame(inner, l);
            && |p| == WRAP_HEADER + |inner| && Exact(p) && Version(p) == UNICAST_PROTO
            && p[3] == SUBTYPE_MPLS && p[4..8] == EncodeLse(l) && p[8..] == inner
  {
    var p := Frame(inner, l);
    assert p[..4] == [UNICAST_PROTO * 16, (|inner| + UNICAST_HEADER) / 256, (|inner| + UNICAST_HEADER) % 256, SUBTYPE_MPLS];
  }
}
