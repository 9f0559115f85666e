/** The header rewriter: UDP carriers leave as TCP segments and arrive as UDP carriers again, with
    checksums kept valid by one's-complement arithmetic. */
module CarrierRewrite {
  import opened Basics
  import opened FakeTcpCarrier
  import opened OnesComplement
  import opened CarrierFormat

  const PROTO_TCP := 6
  const PROTO_UDP := 17

  datatype Tcp = Tcp(source: U16, destination: U16, sequence: U32, acknowledgement: U32,
                     dataOffset: Byte, flags: Byte, window: U16, checksum: U16, urgent: U16)

  datatype Carrier = Carrier(source: U16, destination: U16, length: U16, checksum: U16, magic: U16, meta: U16,
                             sequence: U32, acknowledgement: U32)

  function Join(hi: U16, lo: U16): U32 { 0x1_0000 * hi + lo }

  function TcpWords(t: Tcp): seq<U16> {
    [t.source, t.destination, Hi(t.sequence), Lo(t.sequence), Hi(t.acknowledgement), Lo(t.acknowledgement),
     Be16(t.dataOffset, t.flags), t.window, t.checksum, t.urgent]
  }

  function CarrierWords(c: Carrier): seq<U16> {
    [c.source, c.destination, c.length, c.checksum, c.magic, c.meta,
     Hi(c.sequence), Lo(c.sequence), Hi(c.acknowledgement), Lo(c.acknowledgement)]
  }

  function TcpOf(ws: seq<U16>): (t: Tcp)
    requires |ws| == 10
    ensures TcpWords(t) == ws
  {
    Tcp(ws[0], ws[1], Join(ws[2], ws[3]), Join(ws[4], ws[5]), ws[6] / 256, ws[6] % 256, ws[7], ws[8], ws[9])
  }

  function CarrierOf(ws: seq<U16>): (c: Carrier)
    requires |ws| == 10
    ensures CarrierWords(c) == ws
  {
    Carrier(ws[0], ws[1], ws[2], ws[3], ws[4], ws[5], Join(ws[6], ws[7]), Join(ws[8], ws[9]))
  }

  lemma {:induction false} TcpOfWords(t: Tcp)
    ensures TcpOf(TcpWords(t)) == t
  {
  }

  lemma {:induction false} CarrierOfWords(c: Carrier)
    ensures CarrierOf(CarrierWords(c)) == c
  {
  }

  /** The words of some bytes. */
  function Words(s: seq<Byte>): (ws: seq<U16>)
    requires |s| % 2 == 0
    ensures 2 * |ws| == |s| && WordBytes(ws) == s
    decreases |s|
  {
    if s == [] then [] else
      var ws := [Be16(s[0], s[1])] + Words(s[2..]);
      assert ws[1..] == Words(s[2..]) && s == [s[0], s[1]] + s[2..];
      ws
  }

  lemma {:induction false} WordsOfBytes(ws: seq<U16>)
    ensures Words(WordBytes(ws)) == ws
  {
    if ws != [] {
      WordsOfBytes(ws[1..]);
      assert WordBytes(ws)[2..] == WordBytes(ws[1..]);
    }
  }

  // ---------- sums of header fields ----------

  function N(w: U16): nat { w }

  lemma {:induction false} Total10(ws: seq<U16>)
    requires |ws| == 10
    ensures Total(ws) == N(ws[0]) + N(ws[1]) + N(ws[2]) + N(ws[3]) + N(ws[4]) + N(ws[5]) + N(ws[6]) + N(ws[7]) + N(ws[8]) + N(ws[9])
  {
    TotalTake(ws, 1);
    TotalTake(ws, 2);
    TotalTake(ws, 3);
    TotalTake(ws, 4);
    TotalTake(ws, 5);
    TotalTake(ws, 6);
    TotalTake(ws, 7);
    TotalTake(ws, 8);
    TotalTake(ws, 9);
  }

  lemma {:induction false} TotalTake(ws: seq<U16>, k: nat)
    requires 0 < k < |ws|
    ensures Total(ws[k - 1..]) == ws[k - 1] + Total(ws[k..])
    ensures k == 1 ==> ws[0..] == ws
    ensures k + 1 == |ws| ==> Total(ws[k..]) == ws[k]
  {
    assert ws[k - 1..][1..] == ws[k..];
    if k + 1 == |ws| {
      assert ws[k..] == [ws[k]];
      assert ws[k..][1..] == [];
    }
  }

  /** The 32-bit sums stay far from overflow: each call shows it. */
  function AddBe16(sum: U32, v: U16): U32
    requires sum + v < 0x1_0000_0000
  {
    sum + v
  }

  function AddBe32(sum: U32, v: U32): U32
    requires sum + Hi(v) + Lo(v) < 0x1_0000_0000
  {
    sum + Hi(v) + Lo(v)
  }

  function SubtractBe16(sum: U32, v: U16): U32
    requires sum + 0xffff - v < 0x1_0000_0000
  {
    sum + (0xffff - v)
  }

  function SubtractBe32(sum: U32, v: U32): U32
    requires sum + 0xffff - Hi(v) + 0xffff - Lo(v) < 0x1_0000_0000
  {
    sum + (0xffff - Hi(v)) + (0xffff - Lo(v))
  }

  function TcpHeaderSum(t: Tcp, sum: U32): (r: U32)
    requires sum < 0x1000_0000
    ensures r + t.checksum == sum + Total(TcpWords(t))
  {
    Total10(TcpWords(t));
    AddBe16(AddBe16(AddBe16(AddBe32(AddBe32(AddBe16(AddBe16(sum, t.source), t.destination), t.sequence), t.acknowledgement),
                            Be16(t.dataOffset, t.flags)), t.window), t.urgent)
  }

  function SubtractTcpHeader(t: Tcp, sum: U32): (r: U32)
    requires sum < 0x1000_0000
    ensures r + Total(TcpWords(t)) == sum + 9 * 0xffff + t.checksum
  {
    Total10(TcpWords(t));
    SubtractBe16(SubtractBe16(SubtractBe16(SubtractBe32(SubtractBe32(SubtractBe16(SubtractBe16(sum, t.source), t.destination),
                                                                     t.sequence), t.acknowledgement),
                                           Be16(t.dataOffset, t.flags)), t.window), t.urgent)
  }

  function CarrierHeaderSum(c: Carrier, sum: U32): (r: U32)
    requires sum < 0x1000_0000
    ensures r + c.checksum == sum + Total(CarrierWords(c))
  {
    Total10(CarrierWords(c));
    AddBe32(AddBe32(AddBe16(AddBe16(AddBe16(AddBe16(AddBe16(sum, c.source), c.destination), c.length), c.magic), c.meta),
                    c.sequence), c.acknowledgement)
  }

  // ---------- the checksum of a sum ----------

  function FoldOnce(x: U32): U32 { x % 0x1_0000 + x / 0x1_0000 }

  function FinishChecksum(sum: U32): (c: U16)
  {
    var s := FoldOnce(FoldOnce(sum));
    var c := 0xffff - s % 0x1_0000;
    if c == 0 then 0xffff else c
  }

  /** Two folds suffice, and the result is the negative of the sum. */
  lemma {:induction false} FinishMeans(sum: U32)
    requires sum > 0
    ensures FinishChecksum(sum) == if Ones(sum) == 0xffff then 0xffff else 0xffff - Ones(sum)
  {
    OnesFold(sum);
    OnesFold(FoldOnce(sum));
    FoldSmall(sum);
    assert Ones(FoldOnce(FoldOnce(sum))) == FoldOnce(FoldOnce(sum));
  }

  lemma {:induction false} FoldSmall(sum: U32)
    ensures FoldOnce(sum) <= 0x1_fffe && FoldOnce(FoldOnce(sum)) <= 0xffff
  {
    var y := FoldOnce(sum);
    if y >= 0x1_0000 {
      assert y / 0x1_0000 == 1 && y % 0x1_0000 == y - 0x1_0000;
    }
  }

  /** A sum with its checksum added comes to all ones. */
  lemma {:induction false} FinishVerifies(sum: U32)
    requires sum > 0
    ensures Ones(sum + FinishChecksum(sum)) == 0xffff
  {
    FinishMeans(sum);
    OnesAdd(sum, FinishChecksum(sum));
  }

  // ---------- pseudo header and verification ----------

  /** The addresses of a packet, 4 or 16 bytes each. */
  datatype Ip = Ip(src: seq<Byte>, dst: seq<Byte>)

  predicate IpOk(ip: Ip) { |ip.src| == |ip.dst| && |ip.src| in {4, 16} }

  function Pseudo(ip: Ip, proto: nat, len: nat): nat { Sum16(ip.src) + Sum16(ip.dst) + proto + len }

  /** A segment whose checksum is right: everything together comes to all ones. */
  ghost predicate Verifies(ip: Ip, proto: nat, l4: seq<Byte>) {
    Ones(Pseudo(ip, proto, |l4|) + Sum16(l4)) == 0xffff
  }

  /** Both addresses, a word of each at a time. */
  function AddAddresses(sum: U32, src: seq<Byte>, dst: seq<Byte>): (r: U32)
    requires |src| == |dst| <= 16 && |src| % 2 == 0 && sum + 0x1_0000 * |src| < 0x1000_0000
    ensures r == sum + Sum16(src) + Sum16(dst) < 0x1000_0000
    decreases |src|
  {
    if src == [] then sum
    else AddAddresses(sum + Be16(src[0], src[1]) + Be16(dst[0], dst[1]), src[2..], dst[2..])
  }

  function TcpSum(ip: Ip, len: U16, t: Tcp, payloadSum: U16, optionOne: U16, optionTwo: U16): (r: U32)
    requires IpOk(ip)
    ensures r + t.checksum == Pseudo(ip, PROTO_TCP, len) + Total(TcpWords(t)) + payloadSum + optionOne + optionTwo
  {
    var sum := AddAddresses(payloadSum + PROTO_TCP + len, ip.src, ip.dst);
    AddBe16(AddBe16(TcpHeaderSum(t, sum), optionOne), optionTwo)
  }

  function TcpChecksum(ip: Ip, len: U16, t: Tcp, payloadSum: U16, optionOne: U16, optionTwo: U16): U16
    requires IpOk(ip)
  {
    FinishChecksum(TcpSum(ip, len, t, payloadSum, optionOne, optionTwo))
  }

  /** A checksum over a header and the sum of what follows it makes the segment verify. */
  lemma {:induction false} TcpChecksumVerifies(ip: Ip, t: Tcp, body: seq<Byte>, payloadSum: U16, o1: U16, o2: U16)
    requires IpOk(ip) && 20 + |body| < 0x1_0000 && t.checksum == 0
    requires Ones(N(payloadSum) + N(o1) + N(o2)) == Ones(Sum16(body))
    ensures Verifies(ip, PROTO_TCP, WordBytes(TcpWords(t.(checksum := TcpChecksum(ip, 20 + |body|, t, payloadSum, o1, o2)))) + body)
  {
    var len: U16 := 20 + |body|;
    var sum := TcpSum(ip, len, t, payloadSum, o1, o2);
    FinishVerifies(sum);
    ChecksumInPlace(ip, t, body, FinishChecksum(sum), N(payloadSum) + N(o1) + N(o2), sum);
  }

  lemma {:induction false} ChecksumInPlace(ip: Ip, t: Tcp, body: seq<Byte>, c: U16, b: nat, sum: nat)
    requires t.checksum == 0 && Ones(b) == Ones(Sum16(body)) && Ones(sum + c) == 0xffff
    requires sum == Pseudo(ip, PROTO_TCP, 20 + |body|) + Total(TcpWords(t)) + b
    ensures Verifies(ip, PROTO_TCP, WordBytes(TcpWords(t.(checksum := c))) + body)
  {
    var head := WordBytes(TcpWords(t.(checksum := c)));
    TotalWithChecksum(t, c);
    SumOfHead(TcpWords(t.(checksum := c)), body);
    var rest := Pseudo(ip, PROTO_TCP, 20 + |body|) + Total(TcpWords(t)) + c;
    OnesAddSame(b, Sum16(body), rest, rest);
    assert b + rest == sum + c;
    assert Pseudo(ip, PROTO_TCP, |head + body|) + Sum16(head + body) == Sum16(body) + rest;
  }

  lemma {:induction false} TotalWithChecksum(t: Tcp, c: U16)
    requires t.checksum == 0
    ensures Total(TcpWords(t.(checksum := c))) == Total(TcpWords(t)) + c
  {
    Total10(TcpWords(t));
    Total10(TcpWords(t.(checksum := c)));
  }

  // ---------- egress ----------

  /** What happens to a packet: it passes unchanged, is dropped, or its first 20 bytes are replaced. */
  datatype Action = Pass | Drop | Rewrite(header: seq<Byte>)

  predicate IsOption(s: seq<Byte>) { s == [1, 3, 3, 14] }

  function TcpFor(c: Carrier, dataOffset: Byte, flags: Byte): Tcp {
    Tcp(c.source, c.destination, c.sequence, c.acknowledgement, dataOffset, flags, 0xffff, 0, 0)
  }

  function Finished(ip: Ip, len: U16, t: Tcp, payloadSum: U16, o1: U16, o2: U16): Action
    requires IpOk(ip)
  {
    Rewrite(WordBytes(TcpWords(t.(checksum := TcpChecksum(ip, len, t, payloadSum, o1, o2)))))
  }

  function Egress(ip: Ip, l4: seq<Byte>, managedPort: U16, standard: bool, gsoSegs: nat): Action
    requires IpOk(ip) && |l4| < 0x1_0000
  {
    if |l4| < 20 then Pass
    else
      var c := CarrierOf(Words(l4[..20]));
      if c.magic != CARRIER_MAGIC || c.checksum != 0 || c.source != managedPort then Pass
      else if !standard || gsoSegs > 1 || c.length != |l4| then Drop
      else if |l4| == 24 then
        if c.meta in {FLAG_SYN, FLAG_SYN + FLAG_ACK} && IsOption(l4[20..])
        then Finished(ip, |l4|, TcpFor(c, 0x60, c.meta), 0, Be16(l4[20], l4[21]), Be16(l4[22], l4[23]))
        else Finished(ip, |l4|, TcpFor(c, 0x50, FLAG_ACK), c.meta, 0, 0)
      else if |l4| == 20 then
        if c.meta != FLAG_ACK then Drop else Finished(ip, |l4|, TcpFor(c, 0x50, FLAG_ACK), 0, 0, 0)
      else Finished(ip, |l4|, TcpFor(c, 0x50, FLAG_ACK), c.meta, 0, 0)
  }

  // ---------- ingress ----------

  predicate WithMss(s: seq<Byte>) { |s| == 8 && s[0] == 2 && s[1] == 4 && s[4..] == [1, 3, 3, 14] }

  /** The segments that a peer may send. */
  predicate Acceptable(t: Tcp, l4: seq<Byte>)
    requires |l4| >= 20
  {
    var headerLength := t.dataOffset / 16 * 4;
    && t.dataOffset % 16 == 0 && 20 <= headerLength <= |l4|
    && if t.flags in {FLAG_SYN, FLAG_SYN + FLAG_ACK}
       then |l4| == headerLength && (IsOption(l4[20..]) || WithMss(l4[20..]))
       else && headerLength == 20
            && if |l4| == 20 then t.flags in {FLAG_ACK, FLAG_FIN + FLAG_ACK, FLAG_RST, FLAG_RST + FLAG_ACK} else t.flags == FLAG_ACK
  }

  function CarrierFor(t: Tcp, len: U16): Carrier {
    Carrier(t.source, t.destination, len, 0, CARRIER_MAGIC, t.flags, t.sequence, t.acknowledgement)
  }

  function IngressSum(t: Tcp, c: Carrier): (r: U32)
    ensures r > 0 && r + Total(TcpWords(t)) + PROTO_TCP + c.checksum == 11 * 0xffff + Total(CarrierWords(c)) + PROTO_UDP
  {
    var sum := SubtractTcpHeader(t, 0xffff - t.checksum);
    CarrierHeaderSum(c, sum + (0xffff - PROTO_TCP)) + PROTO_UDP
  }

  /** The checksum of the carrier from that of the segment: the header fields that go are taken out
      of the sum and those that come are added. */
  function IngressChecksum(t: Tcp, c: Carrier): U16 { FinishChecksum(IngressSum(t, c)) }

  function Ingress(l4: seq<Byte>, managedPort: U16, standard: bool, gsoSegs: nat): Action
    requires |l4| < 0x1_0000
  {
    if |l4| < 20 then Pass
    else
      var t := TcpOf(Words(l4[..20]));
      if t.destination != managedPort then Pass
      else if !standard || !Acceptable(t, l4) then Drop
      else
        var c := CarrierFor(t, |l4|);
        Rewrite(WordBytes(CarrierWords(if gsoSegs <= 1 then c.(checksum := IngressChecksum(t, c)) else c)))
  }

  /** Sums that differ by whole multiples of 65535. */
  lemma {:induction false} OnesDiffer(a: nat, b: nat, m: int)
    requires a > 0 && b > 0 && a == b + 0xffff * m
    ensures Ones(a) == Ones(b)
  {
    if m >= 0 {
      OnesPlus(b, m);
    } else {
      OnesPlus(a, -m);
    }
  }

  lemma {:induction false} OnesQuotient(n: nat) returns (k: nat)
    ensures n == Ones(n) + 0xffff * k
  {
    if n <= 0xffff {
      k := 0;
    } else {
      var j := OnesQuotient(n - 0xffff);
      k := j + 1;
    }
  }

  lemma {:induction false} FinishComplements(sum: U32) returns (k: nat)
    requires sum > 0
    ensures sum + FinishChecksum(sum) == 0xffff * k
  {
    FinishMeans(sum);
    var j := OnesQuotient(sum);
    k := j + (if Ones(sum) == 0xffff then 2 else 1);
  }

  /** For every segment that is let in, on its own, the carrier's checksum is right exactly if the
      segment's was. */
  lemma {:induction false} IngressVerifies(ip: Ip, l4: seq<Byte>, managedPort: U16, standard: bool, gsoSegs: nat)
    requires |l4| < 0x1_0000 && gsoSegs <= 1 && Ingress(l4, managedPort, standard, gsoSegs).Rewrite?
    ensures |l4| >= 20 && |Ingress(l4, managedPort, standard, gsoSegs).header| == 20
    ensures Verifies(ip, PROTO_UDP, Ingress(l4, managedPort, standard, gsoSegs).header + l4[20..]) <==> Verifies(ip, PROTO_TCP, l4)
  {
    var t := TcpOf(Words(l4[..20]));
    var c := CarrierFor(t, |l4|);
    var u := IngressChecksum(t, c);
    var k := FinishComplements(IngressSum(t, c));
    var m: int := k;
    HeadAndBody(l4, t);
    SameButHeader(ip, l4, t, l4[20..], c, u, m - 11);
  }

  lemma {:induction false} HeadAndBody(l4: seq<Byte>, t: Tcp)
    requires |l4| >= 20 && TcpWords(t) == Words(l4[..20])
    ensures l4 == WordBytes(TcpWords(t)) + l4[20..]
  {
    assert l4 == l4[..20] + l4[20..];
  }

  lemma {:induction false} SameButHeader(ip: Ip, l4: seq<Byte>, t: Tcp, body: seq<Byte>, c: Carrier, u: U16, m: int)
    requires l4 == WordBytes(TcpWords(t)) + body && c.checksum == 0
    requires PROTO_UDP + Total(CarrierWords(c)) + u == PROTO_TCP + Total(TcpWords(t)) + 0xffff * m
    ensures Verifies(ip, PROTO_UDP, WordBytes(CarrierWords(c.(checksum := u))) + body) <==> Verifies(ip, PROTO_TCP, l4)
  {
    var head := WordBytes(CarrierWords(c.(checksum := u)));
    CarrierWithChecksum(c, u);
    SumOfHead(CarrierWords(c.(checksum := u)), body);
    SumOfHead(TcpWords(t), body);
    Balanced(Sum16(ip.src) + Sum16(ip.dst) + |l4| + Sum16(body), Total(CarrierWords(c)) + u, Total(TcpWords(t)), m,
             Pseudo(ip, PROTO_UDP, |l4|) + Sum16(head + body), Pseudo(ip, PROTO_TCP, |l4|) + Sum16(l4));
  }

  /** The rest of the packet is the same on both sides. */
  lemma {:induction false} Balanced(rest: nat, c: nat, t: nat, m: int, udp: nat, tcp: nat)
    requires PROTO_UDP + c == PROTO_TCP + t + 0xffff * m && udp == rest + PROTO_UDP + c && tcp == rest + PROTO_TCP + t
    ensures Ones(udp) == Ones(tcp)
  {
    OnesDiffer(udp, tcp, m);
  }

  lemma {:induction false} SumOfHead(ws: seq<U16>, body: seq<Byte>)
    ensures Sum16(WordBytes(ws) + body) == Total(ws) + Sum16(body)
  {
    BytesTotal(ws);
    Sum16Concat(WordBytes(ws), body);
  }

  lemma {:induction false} CarrierWithChecksum(c: Carrier, u: U16)
    requires c.checksum == 0
    ensures Total(CarrierWords(c.(checksum := u))) == Total(CarrierWords(c)) + u
  {
    Total10(CarrierWords(c));
    Total10(CarrierWords(c.(checksum := u)));
  }

  // ---------- what the sender marshals arrives ----------

  /** The UDP datagram of a carrier, without a checksum. */
  function Datagram(source: U16, destination: U16, p: Packet): seq<Byte>
    requires Sendable(p) && 20 + |Body(p)| < 0x1_0000
  {
    WordBytes([source, destination, 20 + |Body(p)|, 0]) + Marshalled(p)
  }

  function SentCarrier(source: U16, destination: U16, p: Packet): Carrier
    requires Sendable(p) && 20 + |Body(p)| < 0x1_0000
  {
    Carrier(source, destination, 20 + |Body(p)|, 0, CARRIER_MAGIC, Meta(p), p.seqNo, p.ackNo)
  }

  lemma {:induction false} BytesConcat(a: seq<U16>, b: seq<U16>)
    ensures WordBytes(a + b) == WordBytes(a) + WordBytes(b)
  {
    if a == [] {
      assert a + b == b;
    } else {
      assert (a + b)[1..] == a[1..] + b;
      BytesConcat(a[1..], b);
    }
  }

  lemma {:induction false} CarrierHead(c: Carrier, body: seq<Byte>, l4: seq<Byte>)
    requires l4 == WordBytes(CarrierWords(c)) + body
    ensures |l4| == 20 + |body| && l4[20..] == body && l4[..20] == WordBytes(CarrierWords(c)) && CarrierOf(Words(l4[..20])) == c
  {
    WordsOfBytes(CarrierWords(c));
    CarrierOfWords(c);
    assert l4[..20] == WordBytes(CarrierWords(c));
  }

  lemma {:induction false} DatagramHead(source: U16, destination: U16, p: Packet)
    requires Sendable(p) && 20 + |Body(p)| < 0x1_0000
    ensures var l4, c := Datagram(source, destination, p), SentCarrier(source, destination, p);
            |l4| == 20 + |Body(p)| && l4[20..] == Body(p) && l4[..20] == WordBytes(CarrierWords(c)) && CarrierOf(Words(l4[..20])) == c
  {
    var c := SentCarrier(source, destination, p);
    var udp: seq<U16>, head, body := [source, destination, c.length, 0], HeaderWords(c.meta, c.sequence, c.acknowledgement), Body(p);
    CarrierSplit(c, udp, head);
    BytesRegroup(WordBytes(udp), WordBytes(head), body);
    CarrierHead(c, body, Datagram(source, destination, p));
  }

  lemma {:induction false} CarrierSplit(c: Carrier, udp: seq<U16>, head: seq<U16>)
    requires c.magic == CARRIER_MAGIC && udp == [c.source, c.destination, c.length, c.checksum]
    requires head == HeaderWords(c.meta, c.sequence, c.acknowledgement)
    ensures WordBytes(CarrierWords(c)) == WordBytes(udp) + WordBytes(head)
  {
    BytesConcat(udp, head);
    assert udp + head == CarrierWords(c);
  }

  lemma {:induction false} BytesRegroup(a: seq<Byte>, b: seq<Byte>, c: seq<Byte>)
    ensures a + (b + c) == (a + b) + c
  {
  }

  /** The TCP header that stands for a packet. */
  function SentTcp(source: U16, destination: U16, p: Packet): Tcp
    requires Sendable(p)
  {
    Tcp(source, destination, p.seqNo, p.ackNo, if IsSyn(p) then 0x60 else 0x50, p.flags, 0xffff, 0, 0)
  }

  /** The packet leaves as a TCP segment with its flags, numbers and body, and with a checksum that
      verifies. */
  ghost predicate Leaves(ip: Ip, source: U16, destination: U16, p: Packet)
    requires IpOk(ip) && Sendable(p) && 20 + |Body(p)| < 0x1_0000
  {
    var r := Egress(ip, Datagram(source, destination, p), source, true, 1);
    && r.Rewrite? && |r.header| == 20 && Verifies(ip, PROTO_TCP, r.header + Body(p))
    && exists c: U16 :: r.header == WordBytes(TcpWords(SentTcp(source, destination, p).(checksum := c)))
  }

  lemma {:induction false} SynLeaves(ip: Ip, source: U16, destination: U16, p: Packet)
    requires IpOk(ip) && Sendable(p) && 20 + |Body(p)| < 0x1_0000 && IsSyn(p)
    ensures Leaves(ip, source, destination, p)
  {
    var l4, c, t, body := Datagram(source, destination, p), SentCarrier(source, destination, p), SentTcp(source, destination, p), Body(p);
    DatagramHead(source, destination, p);
    var o1, o2 := Be16(l4[20], l4[21]), Be16(l4[22], l4[23]);
    OptionSum(body);
    assert l4[20] == body[0] && l4[21] == body[1] && l4[22] == body[2] && l4[23] == body[3];
    TcpChecksumVerifies(ip, t, body, 0, o1, o2);
    assert TcpFor(c, 0x60, c.meta) == t;
  }

  lemma {:induction false} AckLeaves(ip: Ip, source: U16, destination: U16, p: Packet)
    requires IpOk(ip) && Sendable(p) && 20 + |Body(p)| < 0x1_0000 && !IsSyn(p) && p.payload == []
    ensures Leaves(ip, source, destination, p)
  {
    DatagramHead(source, destination, p);
    TcpChecksumVerifies(ip, SentTcp(source, destination, p), Body(p), 0, 0, 0);
    assert TcpFor(SentCarrier(source, destination, p), 0x50, FLAG_ACK) == SentTcp(source, destination, p);
  }

  lemma {:induction false} DataLeaves(ip: Ip, source: U16, destination: U16, p: Packet)
    requires IpOk(ip) && Sendable(p) && 20 + |Body(p)| < 0x1_0000 && !IsSyn(p) && p.payload != []
    ensures Leaves(ip, source, destination, p)
  {
    var c, body := SentCarrier(source, destination, p), Body(p);
    DatagramHead(source, destination, p);
    assert body[0] < 256 && !IsOption(body) by { assert |body| == 4 ==> body[0] == 0; }
    TcpChecksumVerifies(ip, SentTcp(source, destination, p), body, c.meta, 0, 0);
    assert TcpFor(c, 0x50, FLAG_ACK) == SentTcp(source, destination, p);
  }

  /** Every marshalled carrier leaves as a TCP segment with the packet's flags, numbers and body, and
      with a checksum that verifies, although only the precomputed payload sum was looked at. */
  lemma {:induction false} EgressVerifies(ip: Ip, source: U16, destination: U16, p: Packet)
    requires IpOk(ip) && Sendable(p) && 20 + |Body(p)| < 0x1_0000
    ensures Leaves(ip, source, destination, p)
  {
    if IsSyn(p) {
      SynLeaves(ip, source, destination, p);
    } else if p.payload == [] {
      AckLeaves(ip, source, destination, p);
    } else {
      DataLeaves(ip, source, destination, p);
    }
  }

  lemma {:induction false} OptionSum(s: seq<Byte>)
    requires |s| == 4
    ensures Sum16(s) == N(Be16(s[0], s[1])) + N(Be16(s[2], s[3]))
  {
    var r := s[2..];
    assert r[2..] == [] && r[0] == s[2] && r[1] == s[3];
    assert Sum16(r) == N(Be16(r[0], r[1])) + Sum16(r[2..]);
  }

  /** The sent segment is one that the receiver lets in. */
  lemma {:induction false} SentIsAcceptable(source: U16, destination: U16, p: Packet, c: U16)
    requires Sendable(p) && 20 + |Body(p)| < 0x1_0000
    ensures var t := SentTcp(source, destination, p).(checksum := c);
            var l4 := WordBytes(TcpWords(t)) + Body(p);
            |l4| == 20 + |Body(p)| && l4[20..] == Body(p) && TcpOf(Words(l4[..20])) == t && Acceptable(t, l4)
  {
    var t := SentTcp(source, destination, p).(checksum := c);
    var l4 := WordBytes(TcpWords(t)) + Body(p);
    assert l4[..20] == WordBytes(TcpWords(t)) && l4[20..] == Body(p);
    WordsOfBytes(TcpWords(t));
    TcpOfWords(t);
  }

  /** Sent through both rewriters, a packet arrives with its flags, numbers and body, in a carrier
      whose UDP checksum verifies. */
  lemma {:induction false} CarrierArrives(ip: Ip, source: U16, destination: U16, p: Packet)
    requires IpOk(ip) && Sendable(p) && 20 + |Body(p)| < 0x1_0000
    ensures var out := Egress(ip, Datagram(source, destination, p), source, true, 1);
            out.Rewrite? && 20 + |Body(p)| == |out.header + Body(p)|
            && var r := Ingress(out.header + Body(p), destination, true, 1);
               && r.Rewrite? && Verifies(ip, PROTO_UDP, r.header + Body(p))
               && (r.header + Body(p))[8..] == WordBytes(HeaderWords(p.flags, p.seqNo, p.ackNo)) + Body(p)
  {
    EgressVerifies(ip, source, destination, p);
    var out := Egress(ip, Datagram(source, destination, p), source, true, 1);
    var c: U16 :| out.header == WordBytes(TcpWords(SentTcp(source, destination, p).(checksum := c)));
    IngressOfSent(source, destination, p, c);
    IngressVerifies(ip, out.header + Body(p), destination, true, 1);
    assert (out.header + Body(p))[20..] == Body(p);
  }

  lemma {:induction false} IngressOfSent(source: U16, destination: U16, p: Packet, c: U16)
    requires Sendable(p) && 20 + |Body(p)| < 0x1_0000
    ensures var l4 := WordBytes(TcpWords(SentTcp(source, destination, p).(checksum := c))) + Body(p);
            |l4| == 20 + |Body(p)|
            && var r := Ingress(l4, destination, true, 1);
               && r.Rewrite? && |r.header| == 20
               && (r.header + Body(p))[8..] == WordBytes(HeaderWords(p.flags, p.seqNo, p.ackNo)) + Body(p)
  {
    SentIsAcceptable(source, destination, p, c);
    IngressBytes(SentTcp(source, destination, p).(checksum := c), Body(p), WordBytes(TcpWords(SentTcp(source, destination, p).(checksum := c))) + Body(p));
  }

  /** A header that starts a carrier for a segment. */
  ghost predicate Carries(header: seq<Byte>, t: Tcp) {
    exists k: Carrier :: header == WordBytes(CarrierWords(k)) && k.magic == CARRIER_MAGIC
                         && k.meta == t.flags && k.sequence == t.sequence && k.acknowledgement == t.acknowledgement
  }

  lemma {:induction false} IngressBytes(t: Tcp, body: seq<Byte>, l4: seq<Byte>)
    requires 20 <= |l4| < 0x1_0000 && TcpOf(Words(l4[..20])) == t && Acceptable(t, l4)
    ensures var r := Ingress(l4, t.destination, true, 1);
            r.Rewrite? && |r.header| == 20 && (r.header + body)[8..] == WordBytes(HeaderWords(t.flags, t.sequence, t.acknowledgement)) + body
  {
    IngressAccepts(l4, t);
    CarriedBytes(Ingress(l4, t.destination, true, 1).header, t, body);
  }

  lemma {:induction false} CarriedBytes(header: seq<Byte>, t: Tcp, body: seq<Byte>)
    requires Carries(header, t)
    ensures |header| == 20 && (header + body)[8..] == WordBytes(HeaderWords(t.flags, t.sequence, t.acknowledgement)) + body
  {
    var k: Carrier :| header == WordBytes(CarrierWords(k)) && k.magic == CARRIER_MAGIC
                      && k.meta == t.flags && k.sequence == t.sequence && k.acknowledgement == t.acknowledgement;
    HeadOfCarrier(k);
    assert (header + body)[8..] == header[8..] + body;
  }

  lemma {:induction false} IngressAccepts(l4: seq<Byte>, t: Tcp)
    requires 20 <= |l4| < 0x1_0000 && TcpOf(Words(l4[..20])) == t && Acceptable(t, l4)
    ensures Ingress(l4, t.destination, true, 1).Rewrite? && Carries(Ingress(l4, t.destination, true, 1).header, t)
  {
    var k := CarrierFor(t, |l4|);
    assert Ingress(l4, t.destination, true, 1) == Rewrite(WordBytes(CarrierWords(k.(checksum := IngressChecksum(t, k)))));
  }

  lemma {:induction false} HeadOfCarrier(c: Carrier)
    requires c.magic == CARRIER_MAGIC
    ensures WordBytes(CarrierWords(c))[8..] == WordBytes(HeaderWords(c.meta, c.sequence, c.acknowledgement))
  {
    var udp, head := [c.source, c.destination, c.length, c.checksum], HeaderWords(c.meta, c.sequence, c.acknowledgement);
    BytesConcat(udp, head);
    assert udp + head == CarrierWords(c);
  }

  // ---------- which packets are rewritten ----------

  function WordAt(s: seq<Byte>, i: nat): U16
    requires 2 * i + 1 < |s|
  {
    Be16(s[2 * i], s[2 * i + 1])
  }

  lemma {:induction false} WordsAt(s: seq<Byte>, i: nat)
    requires |s| % 2 == 0 && 2 * i + 1 < |s|
    ensures Words(s)[i] == WordAt(s, i)
    decreases |s|
  {
    if i > 0 {
      WordsAt(s[2..], i - 1);
    }
  }

  lemma {:induction false} HeaderWordAt(l4: seq<Byte>, i: nat)
    requires |l4| >= 20 && i < 10
    ensures Words(l4[..20])[i] == WordAt(l4, i)
  {
    WordsAt(l4[..20], i);
  }

  /** A datagram that claims to be a carrier of this bind: its port, no checksum, and the magic number. */
  ghost predicate ClaimsCarrier(l4: seq<Byte>, port: U16) {
    |l4| >= 20 && WordAt(l4, 0) == port && WordAt(l4, 3) == 0 && WordAt(l4, 4) == CARRIER_MAGIC
  }

  /** Exactly the carriers of this bind leave as segments. Of those, the ones that are part of a batch,
      do not have their length, or are empty but for other flags than ACK are dropped. */
  lemma {:induction false} EgressExactly(ip: Ip, l4: seq<Byte>, managedPort: U16, standard: bool, gsoSegs: nat)
    requires IpOk(ip) && |l4| < 0x1_0000
    ensures var r := Egress(ip, l4, managedPort, standard, gsoSegs);
            && (r == Pass <==> !ClaimsCarrier(l4, managedPort))
            && (r == Drop <==> ClaimsCarrier(l4, managedPort)
                               && (!standard || gsoSegs > 1 || WordAt(l4, 2) != |l4| || (|l4| == 20 && WordAt(l4, 5) != 0x10)))
  {
    if |l4| >= 20 {
      HeaderWordAt(l4, 0);
      HeaderWordAt(l4, 2);
      HeaderWordAt(l4, 3);
      HeaderWordAt(l4, 4);
      HeaderWordAt(l4, 5);
    }
  }

  /** A SYN with the window-scale option, alone or behind one for the segment size, and nothing else. */
  ghost predicate SynSegment(l4: seq<Byte>) {
    || (|l4| == 24 && l4[12] == 0x60 && l4[20..] == [1, 3, 3, 14])
    || (|l4| == 28 && l4[12] == 0x70 && l4[20] == 2 && l4[21] == 4 && l4[24..] == [1, 3, 3, 14])
  }

  /** The segments that are let in: SYN with or without ACK in that form, payload with ACK, and without
      payload ACK, FIN with ACK, and RST with or without ACK. */
  ghost predicate LetIn(l4: seq<Byte>)
    requires |l4| >= 20
  {
    if l4[13] == 0x02 || l4[13] == 0x12 then SynSegment(l4)
    else l4[12] == 0x50 && (l4[13] == 0x10 || (|l4| == 20 && (l4[13] == 0x11 || l4[13] == 0x04 || l4[13] == 0x14)))
  }

  lemma {:induction false} AcceptableIs(t: Tcp, l4: seq<Byte>)
    requires |l4| >= 20 && t.dataOffset == l4[12] && t.flags == l4[13]
    ensures Acceptable(t, l4) <==> LetIn(l4)
  {
    OffsetMeans(t.dataOffset);
    if |l4| == 28 {
      assert l4[20..][4..] == l4[24..] && l4[20..][0] == l4[20] && l4[20..][1] == l4[21];
    }
  }

  lemma {:induction false} OffsetMeans(b: Byte)
    ensures b % 16 == 0 ==> b / 16 * 16 == b
  {
  }

  /** Exactly the segments to the managed port are looked at, and exactly those of the forms above
      become carriers. */
  lemma {:induction false} IngressExactly(l4: seq<Byte>, managedPort: U16, standard: bool, gsoSegs: nat)
    requires |l4| < 0x1_0000
    ensures var r := Ingress(l4, managedPort, standard, gsoSegs);
            && (r == Pass <==> |l4| < 20 || WordAt(l4, 1) != managedPort)
            && (r == Drop <==> |l4| >= 20 && WordAt(l4, 1) == managedPort && (!standard || !LetIn(l4)))
  {
    if |l4| >= 20 {
      var t := TcpOf(Words(l4[..20]));
      HeaderWordAt(l4, 1);
      HeaderWordAt(l4, 6);
      HalvesOf(l4[12], l4[13]);
      AcceptableIs(t, l4);
    }
  }

  lemma {:induction false} HalvesOf(a: Byte, b: Byte)
    ensures Be16(a, b) / 256 == a && Be16(a, b) % 256 == b
  {
  }

  /** In a batch of segments the checksum is left to whoever splits it. */
  lemma {:induction false} BatchUnsummed(l4: seq<Byte>, managedPort: U16, standard: bool, gsoSegs: nat)
    requires |l4| < 0x1_0000 && gsoSegs > 1 && Ingress(l4, managedPort, standard, gsoSegs).Rewrite?
    ensures var h := Ingress(l4, managedPort, standard, gsoSegs).header; |h| == 20 && WordAt(h, 2) == |l4| && WordAt(h, 3) == 0
  {
    var k := CarrierFor(TcpOf(Words(l4[..20])), |l4|);
    var h := WordBytes(CarrierWords(k));
    assert Ingress(l4, managedPort, standard, gsoSegs).header == h;
    WordsOfBytes(CarrierWords(k));
    WordsAt(h, 2);
    WordsAt(h, 3);
  }

  // ---------- the IPv4 header ----------

  /** The checksum of a header of ten words in which the checksum is zero. */
  function Ipv4Checksum(ws: seq<U16>): U16
    requires |ws| == 10
  {
    Total10(ws);
    FinishChecksum(Total(ws))
  }

  /** With it the header verifies, whatever protocol was put into it. */
  lemma {:induction false} Ipv4Verifies(ws: seq<U16>)
    requires |ws| == 10 && ws[5] == 0 && ws[0] > 0
    ensures Ones(Sum16(WordBytes(ws[5 := Ipv4Checksum(ws)]))) == 0xffff
  {
    Total10(ws);
    Total10(ws[5 := Ipv4Checksum(ws)]);
    BytesTotal(ws[5 := Ipv4Checksum(ws)]);
    FinishVerifies(Total(ws));
  }
}
