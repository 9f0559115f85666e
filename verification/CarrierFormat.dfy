/** Carriers as the sender writes them, with the payload sum in their meta field. */
module CarrierFormat {
  import opened Basics
  import opened FakeTcpCarrier
  import opened OnesComplement

  const MOD64 := 0x1_0000_0000_0000_0000

  // ---------- 16-bit words ----------

  function Word(w: U16): seq<Byte> { [w / 256, w % 256] }

  function WordBytes(ws: seq<U16>): (s: seq<Byte>)
    ensures |s| == 2 * |ws|
  {
    if ws == [] then [] else Word(ws[0]) + WordBytes(ws[1..])
  }

  function Total(ws: seq<U16>): nat { if ws == [] then 0 else ws[0] + Total(ws[1..]) }

  lemma {:induction false} BytesTotal(ws: seq<U16>)
    ensures Sum16(WordBytes(ws)) == Total(ws)
  {
    if ws != [] {
      BytesTotal(ws[1..]);
      assert WordBytes(ws)[2..] == WordBytes(ws[1..]);
    }
  }

  function Hi(x: U32): U16 { x / 0x1_0000 }

  function Lo(x: U32): U16 { x % 0x1_0000 }

  // ---------- the payload sum ----------

  /** `sum` stands for what was taken off `payload` so far. */
  ghost predicate Taken(payload: seq<Byte>, sum: nat, rest: seq<Byte>) {
    && |rest| <= |payload| && rest == payload[|payload| - |rest|..] && (|payload| - |rest|) % 2 == 0
    && sum <= 0x1_0000_0000 * (|payload| - |rest|) && Ones(sum) == Ones(Sum16(payload[..|payload| - |rest|]))
  }

  lemma {:induction false} TakeWord(payload: seq<Byte>, sum: nat, rest: seq<Byte>, k: nat)
    requires Taken(payload, sum, rest) && k in {2, 4} && k <= |rest|
    ensures Taken(payload, sum + BeVal(rest[..k]), rest[k..])
  {
    var at, s := |payload| - |rest|, rest[..k];
    BeValSum(s);
    BeValBound(s);
    Pow256Small();
    assert payload[..at + k] == payload[..at] + s;
    Sum16Concat(payload[..at], s);
    OnesAddSame(sum, Sum16(payload[..at]), BeVal(s), Sum16(s));
  }

  function Shl8(b: Byte): nat { 256 * b }

  method TakeWord4(ghost payload: seq<Byte>, sum: nat, rest: seq<Byte>) returns (sum': nat, rest': seq<Byte>)
    requires Taken(payload, sum, rest) && 4 <= |rest|
    ensures Taken(payload, sum', rest') && rest' == rest[4..]
  {
    TakeWord(payload, sum, rest, 4);
    sum', rest' := sum + BeVal(rest[..4]), rest[4..];
  }

  /** Eight 32-bit words, which the source writes out. */
  method TakeBlock(ghost payload: seq<Byte>, sum0: nat, rest0: seq<Byte>) returns (sum: nat, rest: seq<Byte>)
    requires Taken(payload, sum0, rest0) && 32 <= |rest0|
    ensures Taken(payload, sum, rest) && |rest| == |rest0| - 32
  {
    sum, rest := sum0, rest0;
    for i := 0 to 8
      invariant Taken(payload, sum, rest) && |rest| == |rest0| - 4 * i
    {
      sum, rest := TakeWord4(payload, sum, rest);
    }
  }

  /** The uncomplemented sum of the payload, with a 64-bit accumulator that never overflows. */
  method FoldPayloadChecksum(payload: seq<Byte>) returns (r: U16)
    requires |payload| < 0x1_0000_0000
    ensures r == Ones(Sum16(payload))
  {
    var sum: nat, rest := 0, payload;
    assert payload[0..] == payload && payload[..0] == [];
    while |rest| >= 32
      invariant Taken(payload, sum, rest)
      decreases |rest|
    {
      sum, rest := TakeBlock(payload, sum, rest);
    }
    while |rest| >= 4
      invariant Taken(payload, sum, rest)
      decreases |rest|
    {
      sum, rest := TakeWord4(payload, sum, rest);
    }
    if |rest| >= 2 {
      TakeWord(payload, sum, rest, 2);
      sum, rest := sum + BeVal(rest[..2]), rest[2..];
    }
    if |rest| == 1 {
      LastByte(payload, sum, rest);
      sum := sum + Shl8(rest[0]);
    } else {
      assert payload[..|payload|] == payload;
    }
    assert sum < MOD64;
    r := FoldAll(sum);
  }

  lemma {:induction false} LastByte(payload: seq<Byte>, sum: nat, rest: seq<Byte>)
    requires Taken(payload, sum, rest) && |rest| == 1
    ensures Ones(sum + Shl8(rest[0])) == Ones(Sum16(payload))
  {
    var at := |payload| - 1;
    assert payload == payload[..at] + rest;
    Sum16Concat(payload[..at], rest);
    OnesAddSame(sum, Sum16(payload[..at]), Sum16(rest), Sum16(rest));
  }

  /** Folds until nothing is left above 16 bits. */
  method FoldAll(sum0: nat) returns (r: U16)
    ensures r == Ones(sum0)
  {
    var sum := sum0;
    while sum / 0x1_0000 != 0
      invariant Ones(sum) == Ones(sum0)
      decreases sum
    {
      OnesFold(sum);
      sum := sum % 0x1_0000 + sum / 0x1_0000;
    }
    r := sum;
  }

  // ---------- marshalling ----------

  /** A packet of a flow: control packets carry no payload. */
  datatype Packet = Packet(flags: Byte, seqNo: U32, ackNo: U32, payload: seq<Byte>)

  /** The flags of the packets that a flow sends. */
  predicate Sendable(p: Packet) {
    && |p.payload| < 0x1_0000
    && (if p.payload == [] then p.flags in {FLAG_ACK, FLAG_SYN, FLAG_SYN + FLAG_ACK} else p.flags == FLAG_ACK)
  }

  predicate IsSyn(p: Packet) { p.flags in {FLAG_SYN, FLAG_SYN + FLAG_ACK} }

  /** What follows the carrier header: the window-scale option of a SYN, or one frame. */
  function Body(p: Packet): seq<Byte>
    requires Sendable(p)
  {
    if IsSyn(p) then [1, 3, 3, 14] else if p.payload == [] then [] else Word(|p.payload|) + p.payload
  }

  function Meta(p: Packet): U16
    requires Sendable(p)
  {
    if p.payload == [] then p.flags else Ones(Sum16(Body(p)))
  }

  function HeaderWords(meta: U16, seqNo: U32, ackNo: U32): seq<U16> {
    [CARRIER_MAGIC, meta, Hi(seqNo), Lo(seqNo), Hi(ackNo), Lo(ackNo)]
  }

  /** The carrier of a packet. */
  function Marshalled(p: Packet): seq<Byte>
    requires Sendable(p)
  {
    WordBytes(HeaderWords(Meta(p), p.seqNo, p.ackNo)) + Body(p)
  }

  /** Copies bytes into a buffer. */
  method Put(a: array<Byte>, at: nat, s: seq<Byte>)
    requires at + |s| <= a.Length
    modifies a
    ensures a[..] == old(a[..at]) + s + old(a[at + |s|..])
  {
    forall j | 0 <= j < |s| {
      a[at + j] := s[j];
    }
  }

  /** Writes a packet whose payload is the first `size` bytes of `buf`. The carrier is written over
      the payload where `buf` is long enough, and into a new buffer otherwise. */
  method MarshalFakeTcpPacket(flags: Byte, seqNo: U32, ackNo: U32, buf: array<Byte>, size: nat)
    returns (carrier: array<Byte>, length: nat)
    requires size <= buf.Length && Sendable(Packet(flags, seqNo, ackNo, buf[..size]))
    modifies buf
    ensures length <= carrier.Length && carrier[..length] == Marshalled(old(Packet(flags, seqNo, ackNo, buf[..size])))
    ensures carrier == buf <==> 0 < size && CARRIER_HEADER_SIZE + FRAME_HEADER_SIZE + size <= buf.Length
    ensures carrier != buf ==> fresh(carrier) && length == carrier.Length && buf[..] == old(buf[..])
  {
    var payload := buf[..size];
    ghost var p := Packet(flags, seqNo, ackNo, payload);
    var syn := flags / 2 % 2 == 1;
    length := CARRIER_HEADER_SIZE + size;
    if syn {
      length := length + 4;
    } else if size > 0 {
      length := length + FRAME_HEADER_SIZE;
    }
    if size > 0 && buf.Length >= length {
      carrier := buf;
    } else {
      carrier := new Byte[length](_ => 0);
    }
    WriteBody(carrier, length, payload, syn, p);
    WriteHeader(carrier, length, flags, seqNo, ackNo, size, p);
  }

  lemma {:induction false} TwoPuts(before: seq<Byte>, mid: seq<Byte>, after: seq<Byte>, w: seq<Byte>, payload: seq<Byte>)
    requires |w| == FRAME_HEADER_SIZE && CARRIER_HEADER_SIZE + FRAME_HEADER_SIZE + |payload| <= |before|
    requires mid == before[..CARRIER_HEADER_SIZE + FRAME_HEADER_SIZE] + payload + before[CARRIER_HEADER_SIZE + FRAME_HEADER_SIZE + |payload|..]
    requires after == mid[..CARRIER_HEADER_SIZE] + w + mid[CARRIER_HEADER_SIZE + FRAME_HEADER_SIZE..]
    ensures |after| == |before| && after[CARRIER_HEADER_SIZE..CARRIER_HEADER_SIZE + FRAME_HEADER_SIZE + |payload|] == w + payload
  {
    var got := after[CARRIER_HEADER_SIZE..CARRIER_HEADER_SIZE + FRAME_HEADER_SIZE + |payload|];
    forall i | 0 <= i < |got|
      ensures got[i] == (w + payload)[i]
    {
      assert i >= FRAME_HEADER_SIZE ==> got[i] == mid[CARRIER_HEADER_SIZE + i];
    }
  }

  lemma {:induction false} FrontPut(before: seq<Byte>, after: seq<Byte>, head: seq<Byte>, length: nat)
    requires |head| <= length <= |before| && after == before[..0] + head + before[|head|..]
    ensures after[..length] == head + before[|head|..length]
  {
  }

  /** The frame, or the option of a SYN, behind the header. */
  method WriteBody(carrier: array<Byte>, length: nat, payload: seq<Byte>, syn: bool, ghost p: Packet)
    requires Sendable(p) && payload == p.payload && (syn <==> IsSyn(p)) && length == CARRIER_HEADER_SIZE + |Body(p)| <= carrier.Length
    modifies carrier
    ensures carrier[CARRIER_HEADER_SIZE..length] == Body(p)
  {
    if |payload| > 0 {
      ghost var before := carrier[..];
      Put(carrier, CARRIER_HEADER_SIZE + FRAME_HEADER_SIZE, payload);
      ghost var mid := carrier[..];
      Put(carrier, CARRIER_HEADER_SIZE, Word(|payload|));
      TwoPuts(before, mid, carrier[..], Word(|payload|), payload);
      assert carrier[CARRIER_HEADER_SIZE..length] == carrier[..][CARRIER_HEADER_SIZE..length];
    }
    if syn {
      Put(carrier, CARRIER_HEADER_SIZE, [1, 3, 3, 14]);
    }
  }

  /** The header; the meta field is the sum of what is behind it, or the flags. */
  method WriteHeader(carrier: array<Byte>, length: nat, flags: Byte, seqNo: U32, ackNo: U32, size: nat, ghost p: Packet)
    requires Sendable(p) && flags == p.flags && seqNo == p.seqNo && ackNo == p.ackNo && size == |p.payload| && length == CARRIER_HEADER_SIZE + |Body(p)| <= carrier.Length
    requires carrier[CARRIER_HEADER_SIZE..length] == Body(p)
    modifies carrier
    ensures carrier[..length] == Marshalled(p)
  {
    var meta: U16 := flags;
    if size > 0 {
      meta := FoldPayloadChecksum(carrier[CARRIER_HEADER_SIZE..length]);
    }
    ghost var before := carrier[..];
    assert before[CARRIER_HEADER_SIZE..length] == Body(p);
    Put(carrier, 0, WordBytes(HeaderWords(meta, seqNo, ackNo)));
    FrontPut(before, carrier[..], WordBytes(HeaderWords(meta, seqNo, ackNo)), length);
    assert carrier[..length] == carrier[..][..length];
  }
}
