/** A payload on its whole way: framed and marshalled by the sender, rewritten twice, and read by
    the receiver. */
module CarrierDelivery {
  import opened Basics
  import opened FakeTcpCarrier
  import opened OnesComplement
  import opened CarrierFormat
  import opened CarrierRewrite
  import opened FakeTcpFrames

  lemma {:induction false} WordsAsBytes(ws: seq<U16>, k: nat)
    requires k < |ws|
    ensures WordBytes(ws)[2 * k] == ws[k] / 256 && WordBytes(ws)[2 * k + 1] == ws[k] % 256
  {
    if k > 0 {
      WordsAsBytes(ws[1..], k - 1);
    }
  }

  /** What the receiver makes of a carrier with these flags and this body. */
  lemma {:induction false} CarrierClassified(flags: Byte, seqNo: U32, ackNo: U32, body: seq<Byte>, accepts: bool)
    requires flags == FLAG_ACK
    ensures Classify(WordBytes(HeaderWords(flags, seqNo, ackNo)) + body, accepts) ==
            if body != [] && WellFramed(body) && accepts then Data(body) else Dropped
  {
    var ws := HeaderWords(flags, seqNo, ackNo);
    var bytes := WordBytes(ws) + body;
    WordsAsBytes(ws, 0);
    WordsAsBytes(ws, 1);
    assert bytes[0] == WordBytes(ws)[0] && bytes[1] == WordBytes(ws)[1] && bytes[3] == WordBytes(ws)[3];
    assert bytes[CARRIER_HEADER_SIZE..] == body;
  }

  /** A payload of the least length or more arrives as exactly that payload, in a datagram whose
      checksum verifies, if the flow accepts it. */
  lemma {:induction false} PayloadArrives(ip: Ip, source: U16, destination: U16, p: Packet)
    requires IpOk(ip) && Sendable(p) && MIN_FRAME_PAYLOAD <= |p.payload| && 20 + |Body(p)| < 0x1_0000
    ensures var out := Egress(ip, Datagram(source, destination, p), source, true, 1);
            && out.Rewrite? && |out.header + Body(p)| < 0x1_0000
            && var r := Ingress(out.header + Body(p), destination, true, 1);
            && r.Rewrite? && |r.header| == 20 && Verifies(ip, PROTO_UDP, r.header + Body(p))
            && Classify((r.header + Body(p))[8..], true) == Data(Body(p)) && Frames(Body(p)) == [p.payload]
  {
    CarrierArrives(ip, source, destination, p);
    FramedIsSingle(p.payload);
    assert Body(p) == Framed(p.payload);
    CarrierClassified(p.flags, p.seqNo, p.ackNo, Body(p), true);
  }
}
