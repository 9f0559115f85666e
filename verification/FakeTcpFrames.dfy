/** The carrier format of the fake-TCP transport: length-prefixed frames behind a fixed header. */
module FakeTcpFrames {
  import opened Basics
  import opened FakeTcpCarrier

  /** Bit 1 of the flags byte. */
  predicate HasSyn(flags: Byte) { flags / 2 % 2 == 1 }

  /** Whether a whole frame starts the data. */
  predicate StartsFrame(data: seq<Byte>) {
    && |data| >= FRAME_HEADER_SIZE
    && MIN_FRAME_PAYLOAD <= Be16(data[0], data[1]) <= |data| - FRAME_HEADER_SIZE
  }

  function FrameEnd(data: seq<Byte>): (e: nat)
    requires StartsFrame(data)
    ensures FRAME_HEADER_SIZE + MIN_FRAME_PAYLOAD <= e <= |data|
  {
    FRAME_HEADER_SIZE + Be16(data[0], data[1])
  }

  /** The data is nothing but whole frames. */
  predicate WellFramed(data: seq<Byte>)
    decreases |data|
  {
    data == [] || (StartsFrame(data) && WellFramed(data[FrameEnd(data)..]))
  }

  function Frames(data: seq<Byte>): (fs: seq<seq<Byte>>)
    requires WellFramed(data)
    ensures fs == [] <==> data == []
    decreases |data|
  {
    if data == [] then []
    else [data[FRAME_HEADER_SIZE..FrameEnd(data)]] + Frames(data[FrameEnd(data)..])
  }

  lemma {:induction false} FramesLong(data: seq<Byte>, j: nat)
    requires WellFramed(data) && j < |Frames(data)|
    ensures |Frames(data)[j]| >= MIN_FRAME_PAYLOAD
    decreases |data|
  {
    if j > 0 {
      FramesLong(data[FrameEnd(data)..], j - 1);
    }
  }

  /** A frame as the sender writes it. */
  function Framed(payload: seq<Byte>): (data: seq<Byte>)
    requires |payload| < 0x1_0000
  {
    [|payload| / 256, |payload| % 256] + payload
  }

  function FrameAll(payloads: seq<seq<Byte>>): seq<Byte>
    requires forall p :: p in payloads ==> |p| < 0x1_0000
  {
    if payloads == [] then [] else Framed(payloads[0]) + FrameAll(payloads[1..])
  }

  /** Reading only depends on the first frame and what follows it. */
  lemma {:induction false} StartsFrameAppend(a: seq<Byte>, b: seq<Byte>)
    requires StartsFrame(a)
    ensures StartsFrame(a + b) && FrameEnd(a + b) == FrameEnd(a)
    ensures (a + b)[FRAME_HEADER_SIZE..FrameEnd(a)] == a[FRAME_HEADER_SIZE..FrameEnd(a)]
    ensures (a + b)[FrameEnd(a)..] == a[FrameEnd(a)..] + b
  {
    assert (a + b)[0] == a[0] && (a + b)[1] == a[1];
  }

  lemma {:induction false} FramesConcat(a: seq<Byte>, b: seq<Byte>)
    requires WellFramed(a)
    ensures WellFramed(a + b) <==> WellFramed(b)
    ensures WellFramed(b) ==> Frames(a + b) == Frames(a) + Frames(b)
    decreases |a|
  {
    if a == [] {
      assert a + b == b;
    } else {
      StartsFrameAppend(a, b);
      FramesConcat(a[FrameEnd(a)..], b);
    }
  }

  lemma {:induction false} SingleFrame(f: seq<Byte>)
    requires StartsFrame(f) && FrameEnd(f) == |f|
    ensures WellFramed(f) && Frames(f) == [f[FRAME_HEADER_SIZE..]]
  {
    assert f[FrameEnd(f)..] == [];
    assert Frames(f) == [f[FRAME_HEADER_SIZE..FrameEnd(f)]] + Frames(f[FrameEnd(f)..]);
    assert f[FRAME_HEADER_SIZE..FrameEnd(f)] == f[FRAME_HEADER_SIZE..];
  }

  lemma {:induction false} FramedIsSingle(p: seq<Byte>)
    requires MIN_FRAME_PAYLOAD <= |p| < 0x1_0000
    ensures WellFramed(Framed(p)) && Frames(Framed(p)) == [p]
  {
    assert Be16(|p| / 256, |p| % 256) == |p|;
    SingleFrame(Framed(p));
  }

  /** Framing loses nothing: however many frames end up in one carrier, they are read back
      unchanged and in order. */
  lemma {:induction false} FramesOfFrameAll(payloads: seq<seq<Byte>>)
    requires forall p :: p in payloads ==> MIN_FRAME_PAYLOAD <= |p| < 0x1_0000
    ensures WellFramed(FrameAll(payloads))
    ensures Frames(FrameAll(payloads)) == payloads
  {
    if payloads != [] {
      assert payloads[0] in payloads;
      FramedIsSingle(payloads[0]);
      FramesOfFrameAll(payloads[1..]);
      FramesConcat(Framed(payloads[0]), FrameAll(payloads[1..]));
      assert payloads == [payloads[0]] + payloads[1..];
    }
  }

  /** Cutting after whole frames splits the frames the same way. */
  lemma {:induction false} FramesSplit(data: seq<Byte>, at: nat)
    requires at <= |data| && WellFramed(data[..at])
    ensures WellFramed(data[at..]) <==> WellFramed(data)
    ensures WellFramed(data) ==> Frames(data) == Frames(data[..at]) + Frames(data[at..])
  {
    assert data == data[..at] + data[at..];
    FramesConcat(data[..at], data[at..]);
  }

  /** Adding one more whole frame to a prefix of whole frames. */
  lemma {:induction false} FramesExtend(data: seq<Byte>, at: nat, e: nat)
    requires at <= |data| && WellFramed(data[..at])
    requires StartsFrame(data[at..]) && e == at + FrameEnd(data[at..])
    ensures WellFramed(data[..e])
    ensures Frames(data[..e]) == Frames(data[..at]) + [data[at + FRAME_HEADER_SIZE..e]]
  {
    var f := data[at..e];
    assert f[0] == data[at..][0] && f[1] == data[at..][1];
    SingleFrame(f);
    FramesConcat(data[..at], f);
    assert data[..at] + f == data[..e];
    assert f[FRAME_HEADER_SIZE..] == data[at + FRAME_HEADER_SIZE..e];
  }

  /** The cursor `at` stands behind the first `j` frames. */
  ghost predicate Cursor(data: seq<Byte>, at: nat, j: nat) {
    at <= |data| && WellFramed(data[..at]) && |Frames(data[..at])| == j
  }

  lemma {:induction false} CursorStart(data: seq<Byte>)
    ensures Cursor(data, 0, 0)
  {
    assert data[..0] == [];
  }

  lemma {:induction false} SliceOfSlice(data: seq<Byte>, at: nat, n: nat)
    requires at + n <= |data|
    ensures data[at..][n..] == data[at + n..]
  {
  }

  /** Unless it is at the end, the next frame is frame number `j`. */
  lemma {:induction false} CursorAt(data: seq<Byte>, at: nat, j: nat)
    requires WellFramed(data) && Cursor(data, at, j)
    ensures at == |data| <==> j == |Frames(data)|
    ensures j <= |Frames(data)|
    ensures at < |data| ==>
              StartsFrame(data[at..]) && Frames(data)[j] == data[at..][FRAME_HEADER_SIZE..FrameEnd(data[at..])]
  {
    FramesSplit(data, at);
    var rest := data[at..];
    if at < |data| {
      assert Frames(rest)[0] == rest[FRAME_HEADER_SIZE..FrameEnd(rest)];
    }
  }

  /** Reading it moves the cursor behind it. */
  lemma {:induction false} CursorNext(data: seq<Byte>, at: nat, j: nat)
    requires Cursor(data, at, j) && StartsFrame(data[at..])
    ensures var e := at + FrameEnd(data[at..]);
            data[at..][FrameEnd(data[at..])..] == data[e..] && Cursor(data, e, j + 1)
  {
    var n := FrameEnd(data[at..]);
    FramesExtend(data, at, at + n);
    SliceOfSlice(data, at, n);
  }

  method NextFrame(data: seq<Byte>) returns (frame: seq<Byte>, remaining: seq<Byte>, ok: bool)
    ensures ok <==> StartsFrame(data)
    ensures ok ==> frame == data[FRAME_HEADER_SIZE..FrameEnd(data)] && remaining == data[FrameEnd(data)..]
  {
    frame, remaining, ok := [], [], false;
    if |data| < FRAME_HEADER_SIZE {
      return;
    }
    var length := Be16(data[0], data[1]);
    if length < MIN_FRAME_PAYLOAD || length > |data| - FRAME_HEADER_SIZE {
      return;
    }
    var end := FRAME_HEADER_SIZE + length;
    return data[FRAME_HEADER_SIZE..end], data[end..], true;
  }

  /** Counts the frames, unless something else than whole frames is in the way. */
  method CountFrames(payload: seq<Byte>) returns (count: nat, ok: bool)
    ensures ok <==> WellFramed(payload)
    ensures ok ==> count == |Frames(payload)|
  {
    var remaining := payload;
    count := 0;
    ghost var at: nat := 0;
    CursorStart(payload);
    while |remaining| > 0
      invariant Cursor(payload, at, count) && remaining == payload[at..]
      decreases |remaining|
    {
      FramesSplit(payload, at);
      var frame, next;
      frame, next, ok := NextFrame(remaining);
      if !ok {
        return;
      }
      CursorNext(payload, at, count);
      at := |payload| - |next|;
      remaining, count := next, count + 1;
    }
    assert payload[..at] == payload;
    ok := true;
  }

  /** What a received datagram is. `Dropped` is a carrier that delivers nothing. */
  datatype Received = Plain | Dropped | Data(payload: seq<Byte>)

  /** `accepts` is what the flow decides about the carrier. */
  function Classify(bytes: seq<Byte>, accepts: bool): (r: Received)
    ensures r.Data? ==> r.payload != [] && WellFramed(r.payload) && |r.payload| <= |bytes|
    ensures r.Data? ==> bytes[|bytes| - |r.payload|..] == r.payload
  {
    if |bytes| < 2 || Be16(bytes[0], bytes[1]) != CARRIER_MAGIC then Plain
    else if |bytes| < CARRIER_HEADER_SIZE || HasSyn(bytes[3]) then Dropped
    else
      var payload := bytes[CARRIER_HEADER_SIZE..];
      if payload == [] || !WellFramed(payload) || !accepts then Dropped else Data(payload)
  }

  /** Reads a carrier and counts its frames. */
  method ReceiveFakeTcp(bytes: seq<Byte>, accepts: bool) returns (payload: seq<Byte>, frames: nat, carrier: bool)
    ensures carrier <==> !Classify(bytes, accepts).Plain?
    ensures frames > 0 <==> Classify(bytes, accepts).Data?
    ensures frames > 0 ==> payload == Classify(bytes, accepts).payload && frames == |Frames(payload)|
    ensures carrier <==> |bytes| >= 2 && Be16(bytes[0], bytes[1]) == CARRIER_MAGIC
    ensures frames > 0 <==> carrier && accepts && |bytes| > CARRIER_HEADER_SIZE && bytes[3] / 2 % 2 == 0 && WellFramed(bytes[CARRIER_HEADER_SIZE..])
  {
    payload, frames, carrier := [], 0, false;
    if |bytes| < 2 || Be16(bytes[0], bytes[1]) != CARRIER_MAGIC {
      return;
    }
    carrier := true;
    if |bytes| < CARRIER_HEADER_SIZE {
      return;
    }
    var syn := HasSyn(bytes[3]);
    if syn {
      return;
    }
    payload := bytes[CARRIER_HEADER_SIZE..];
    var ok;
    frames, ok := CountFrames(payload);
    if !ok || !accepts {
      return [], 0, true;
    }
  }
}
