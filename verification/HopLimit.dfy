/** Counting down the hop limit of an IP packet in place, with the incremental checksum of RFC 1141,
    and the filter that does it on every packet received. */
module HopLimit {
  import opened Basics
  import opened OnesComplement
  import opened ExitPackets

  /** One less, in 8 bits. */
  function Down(ttl: Byte): Byte { if ttl == 0 then 255 else ttl - 1 }

  /** The checksum with 256 added in 16 bits, with the carry. */
  function Adjusted(csum: nat): nat
    requires csum < 0x1_0000
  {
    var c := csum + 0x100;
    (c + c / 0x1_0000) % 0x1_0000
  }

  lemma {:induction false} AdjustedMeans(csum: nat)
    requires csum < 0x1_0000
    ensures Adjusted(csum) == if csum + 0x100 < 0x1_0000 then csum + 0x100 else csum + 0x100 - 0xffff
  {
  }

  function TtlAt(p: Bytes): nat
    requires IsIp(p)
  {
    if Version(p) == 4 then 8 else 7
  }

  function Ttl(p: Bytes): Byte
    requires IsIp(p)
  {
    p[TtlAt(p)]
  }

  function Decremented4(p: Bytes): (r: Bytes)
    requires |p| >= 20
    ensures |r| == |p|
  {
    var c := Adjusted(Be16(p[10], p[11]));
    p[8 := Down(p[8])][10 := c / 256][11 := c % 256]
  }

  function Decremented(p: Bytes): (r: Bytes)
    requires IsIp(p)
    ensures |r| == |p| && IsIp(r) && Version(r) == Version(p) && Ttl(r) == Down(Ttl(p))
  {
    if Version(p) == 4 then Decremented4(p) else p[7 := Down(p[7])]
  }

  method DecrementTtl(packet: array<Byte>)
    requires IsIp(packet[..])
    modifies packet
    ensures packet[..] == Decremented(old(packet[..]))
  {
    var at := if packet[0] / 16 == 4 then 8 else 7;
    packet[at] := Down(packet[at]);
    if packet[0] / 16 == 4 {
      var csum := Adjusted(Be16(packet[10], packet[11]));
      packet[10], packet[11] := csum / 256, csum % 256;
    }
  }

  // ---------- the checksum ----------

  /** The sum of a header of `n` bytes around the hop limit and the checksum. */
  lemma {:induction false} HeaderSum(p: Bytes, n: nat)
    requires 20 <= n <= |p| && n % 2 == 0
    ensures Sum16(p[..n]) == Sum16(p[..8]) + Be16(p[8], p[9]) + Be16(p[10], p[11]) + Sum16(p[12..n])
  {
    var a, m, z := p[..8], p[8..12], p[12..n];
    assert p[..n] == a + (m + z);
    Sum16Concat(a, m + z);
    Sum16Concat(m, z);
    var k := m[2..];
    assert k[2..] == [] && k[0] == p[10] && k[1] == p[11];
    assert Sum16(k) == Be16(k[0], k[1]) + Sum16(k[2..]);
  }

  lemma {:induction false} SumChange(p: Bytes, n: nat)
    requires 20 <= n <= |p| && n % 2 == 0
    ensures var c, c' := Be16(p[10], p[11]), Adjusted(Be16(p[10], p[11]));
            Sum16(Decremented4(p)[..n]) + Be16(p[8], p[9]) + c == Sum16(p[..n]) + Be16(Down(p[8]), p[9]) + c'
  {
    var q := Decremented4(p);
    HeaderSum(p, n);
    HeaderSum(q, n);
    assert q[..8] == p[..8] && q[12..n] == p[12..n];
    assert Be16(q[10], q[11]) == Adjusted(Be16(p[10], p[11]));
  }

  /** As long as there is a hop left to count, the checksum of a header of any length, with or
      without options, verifies afterwards exactly if it did before. */
  lemma {:induction false} ChecksumKept(p: Bytes, n: nat)
    requires 20 <= n <= |p| && n % 2 == 0 && p[8] > 0
    ensures Ones(Sum16(Decremented4(p)[..n])) == Ones(Sum16(p[..n]))
  {
    SumChange(p, n);
    AdjustedMeans(Be16(p[10], p[11]));
    HeaderSum(p, n);
    var s, s' := Sum16(p[..n]), Sum16(Decremented4(p)[..n]);
    assert s >= 0x100;
    assert s' == s || s' + 0xffff == s;
    if s' + 0xffff == s {
      PositiveSum(p, n);
      OnesPlus(s', 1);
    }
  }

  lemma {:induction false} PositiveSum(p: Bytes, n: nat)
    requires 20 <= n <= |p| && n % 2 == 0 && p[8] > 0
    ensures Sum16(Decremented4(p)[..n]) > 0
  {
    var q := Decremented4(p);
    HeaderSum(q, n);
    AdjustedMeans(Be16(p[10], p[11]));
    assert Be16(q[10], q[11]) == Adjusted(Be16(p[10], p[11])) > 0;
  }

  /** With no hop left a checksum that verified would not any more: the filter must not count then. */
  lemma {:induction false} ChecksumLost(p: Bytes, n: nat)
    requires 20 <= n <= |p| && n % 2 == 0 && p[8] == 0 && Ones(Sum16(p[..n])) == 0xffff
    ensures Ones(Sum16(Decremented4(p)[..n])) != 0xffff
  {
    SumChange(p, n);
    AdjustedMeans(Be16(p[10], p[11]));
    var s, s' := Sum16(p[..n]), Sum16(Decremented4(p)[..n]);
    OnesAdd(s, 1);
    assert Ones(0x1_0000) == 1;
    if s' == s + 0x1_0000 {
      OnesPlus(s + 1, 1);
    }
  }

  // ---------- the filter ----------

  datatype Ruling = Pass | Bounce

  datatype Filtered = Filtered(ruling: Ruling, packet: Bytes)

  /** What the filter makes of a packet. */
  function Filter(p: Bytes, incoming: bool): Filtered
    requires HasHeader(p)
  {
    if !incoming || !IsIp(p) then Filtered(Pass, p)
    else if Ttl(p) == 0 then Filtered(Bounce, p)
    else Filtered(if Ttl(p) == 1 then Bounce else Pass, Decremented(p))
  }

  method CountHop(packet: array<Byte>, incoming: bool) returns (r: Ruling)
    requires HasHeader(packet[..])
    modifies packet
    ensures Filtered(r, packet[..]) == Filter(old(packet[..]), incoming)
    ensures !incoming || !IsIp(old(packet[..])) ==> r == Pass && packet[..] == old(packet[..])
    ensures incoming && IsIp(old(packet[..])) ==>
              var at := TtlAt(old(packet[..]));
              && (r == Bounce <==> old(packet[..])[at] <= 1)
              && packet[at] == (if old(packet[..])[at] == 0 then 0 else old(packet[..])[at] - 1)
              && forall i :: 0 <= i < packet.Length && i != at && (at == 8 ==> i != 10 && i != 11) ==> packet[i] == old(packet[..])[i]
  {
    r := Pass;
    var version := packet[0] / 16;
    if incoming && (version == 4 || version == 6) {
      var ttl := packet[if version == 4 then 8 else 7];
      if ttl >= 1 {
        ttl := ttl - 1;
        DecrementTtl(packet);
      }
      if ttl == 0 {
        r := Bounce;
      }
    }
  }

  /** The filter always keeps the header checksum of an IPv4 packet right, or wrong. */
  lemma {:induction false} FilterKeepsChecksum(p: Bytes, incoming: bool, n: nat)
    requires HasHeader(p) && Version(p) == 4 && 20 <= n <= |p| && n % 2 == 0
    ensures |Filter(p, incoming).packet| == |p|
    ensures Ones(Sum16(Filter(p, incoming).packet[..n])) == Ones(Sum16(p[..n]))
  {
    if incoming && Ttl(p) > 0 {
      ChecksumKept(p, n);
    }
  }

  /** A packet is passed on exactly if two hops or more are left, with one less. */
  lemma {:induction false} FilterCounts(p: Bytes)
    requires IsIp(p)
    ensures var f := Filter(p, true);
            (f.ruling == Pass <==> Ttl(p) >= 2) && IsIp(f.packet) && Ttl(f.packet) == if Ttl(p) == 0 then 0 else Ttl(p) - 1
  {
  }

  /** How many routers in a row pass a packet on. */
  ghost function Passes(p: Bytes, routers: nat): nat
    requires IsIp(p)
    decreases routers
  {
    FilterCounts(p);
    if routers == 0 || Filter(p, true).ruling == Bounce then 0 else 1 + Passes(Filter(p, true).packet, routers - 1)
  }

  /** A packet is passed on exactly as often as its hop limit allows: by one router fewer than it
      says, and never in a loop without end. */
  lemma {:induction false} PassesExactly(p: Bytes, routers: nat)
    requires IsIp(p)
    ensures Passes(p, routers) == if Ttl(p) == 0 then 0 else if routers < Ttl(p) then routers else Ttl(p) - 1
    decreases routers
  {
    FilterCounts(p);
    if routers > 0 && Filter(p, true).ruling == Pass {
      PassesExactly(Filter(p, true).packet, routers - 1);
    }
  }
}
