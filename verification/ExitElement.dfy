/** A packet in its message buffer, changed in place. */
module ExitElement {
  import opened Basics
  import opened OnesComplement
  import opened ExitPackets
  import opened ExitTunnel

  class TcElement {
    const buffer: array<Byte>
    var start: nat
    var size: nat

    ghost predicate Valid()
      reads this
    {
      start + size <= buffer.Length && TRANSPORT_HEADER <= buffer.Length < 0x1_0000
    }

    constructor (content: Bytes, capacity: nat)
      requires TRANSPORT_HEADER + |content| <= capacity < 0x1_0000
      ensures Valid() && fresh(buffer) && buffer.Length == capacity && Packet() == content && start == TRANSPORT_HEADER
    {
      var b := new Byte[capacity](i requires 0 <= i < capacity =>
        if TRANSPORT_HEADER <= i < TRANSPORT_HEADER + |content| then content[i - TRANSPORT_HEADER] else 0);
      buffer, start, size := b, TRANSPORT_HEADER, |content|;
    }

    /** The packet: a window on the buffer. */
    function Packet(): (p: Bytes)
      requires Valid()
      reads this, buffer
      ensures |p| == size
    {
      buffer[start..start + size]
    }

    /** Copies bytes into the buffer, from wherever they were. */
    method Move(at: nat, s: Bytes)
      requires at + |s| <= buffer.Length
      modifies buffer
      ensures buffer[at..at + |s|] == s
      ensures forall k :: 0 <= k < buffer.Length && !(at <= k < at + |s|) ==> buffer[k] == old(buffer[k])
    {
      forall j | 0 <= j < |s| {
        buffer[at + j] := s[j];
      }
    }

    /** Cuts the packet to the length in its header. An empty packet first becomes all of the buffer. */
    method ParsePacket() returns (ok: bool)
      requires Valid()
      modifies this
      ensures Valid() && buffer[..] == old(buffer[..])
      ensures var p := old(if size == 0 then buffer[TRANSPORT_HEADER..] else Packet());
              ok == Parsed(p).Some? && Packet() == if ok then Parsed(p).value else p
      ensures var p := old(if size == 0 then buffer[TRANSPORT_HEADER..] else Packet());
              ok ==> |p| >= 3 && |Packet()| == if p[0] / 16 == 4 then Be16(p[2], p[3])
                                               else if p[0] / 16 == 6 then (Be16(p[4], p[5]) + 40) % 0x1_0000
                                               else (Be16(p[1], p[2]) + 3) % 0x1_0000
    {
      if size == 0 {
        start, size := TRANSPORT_HEADER, buffer.Length - TRANSPORT_HEADER;
        assert buffer[start..start + size] == buffer[TRANSPORT_HEADER..];
      }
      var p := Packet();
      if !HasHeader(p) {
        return false;
      }
      var l := LengthOf(p);
      if l > size {
        return false;
      }
      size := l;
      ok := true;
      assert Packet() == p[..l];
    }

    /** Puts the packet behind a label-stack entry for the exit. */
    method WrapExitPacket(exit: nat) returns (ok: bool)
      requires Valid()
      modifies this, buffer
      ensures Valid()
      ensures var w := Wrapped(old(Packet()), exit, buffer.Length);
              ok == w.Some? && Packet() == if ok then w.value else old(Packet())
      ensures ok <==> exit != 0 && TRANSPORT_HEADER + WRAP_HEADER + old(size) <= buffer.Length
    {
      if exit == 0 {
        return false;
      }
      var inner := Packet();
      var total := WRAP_HEADER + |inner|;
      if total > buffer.Length - TRANSPORT_HEADER {
        return false;
      }
      var n := total - POLY_HEADER;
      Place([UNICAST_PROTO * 16, n / 256, n % 256, SUBTYPE_MPLS] + EncodeLse(Lse(exit, 0, true, DEFAULT_TTL)), inner);
      ok := true;
    }

    /** Slides the inner packet to the right and writes a header in front of it. */
    method Place(head: Bytes, inner: Bytes)
      requires Valid() && TRANSPORT_HEADER + |head| + |inner| <= buffer.Length
      modifies this, buffer
      ensures Valid() && Packet() == head + inner
    {
      ghost var at := TRANSPORT_HEADER + |head|;
      Move(TRANSPORT_HEADER + |head|, inner);
      Move(TRANSPORT_HEADER, head);
      assert buffer[at..at + |inner|] == inner;
      start, size := TRANSPORT_HEADER, |head| + |inner|;
    }

    /** Looks at the label: drops the packet, passes it on counted down, or unwraps it. */
    method HandleMplsPacket(v: View) returns (verdict: Verdict)
      requires Valid()
      modifies this, buffer
      ensures Valid()
      ensures Handled(verdict, Packet()) == Handle(old(Packet()), v)
    {
      var p := Packet();
      if size < WRAP_HEADER {
        return Dropped;
      }
      TtlIsLastByte(p[4..8]);
      verdict := RouteByLabel(p, DecodeLse(p[4..8]), v);
    }

    method RouteByLabel(p: Bytes, l: Lse, v: View) returns (verdict: Verdict)
      requires Valid() && p == Packet() && size >= WRAP_HEADER && l.ttl == p[7]
      modifies this, buffer
      ensures Valid()
      ensures Handled(verdict, Packet()) == ByLabel(p, l, v)
    {
      if l.ttl == 0 {
        return Dropped;
      }
      if l.dest != v.localId {
        if l.dest !in v.forward {
          return Dropped;
        }
        CountDown();
        return Forwarded(v.forward[l.dest]);
      }
      if !v.advertisesExit || size == WRAP_HEADER {
        return Dropped;
      }
      verdict := Unwrap(p, l.bos);
    }

    /** The hop limit is the last byte of the entry. */
    method CountDown()
      requires Valid() && size >= WRAP_HEADER && Packet()[7] > 0
      modifies buffer
      ensures Packet() == old(Packet())[7 := old(Packet())[7] - 1]
    {
      buffer[start + 7] := buffer[start + 7] - 1;
    }

    /** The end of the outer label. */
    method Unwrap(p: Bytes, bos: bool) returns (verdict: Verdict)
      requires Valid() && p == Packet() && size > WRAP_HEADER
      modifies this, buffer
      ensures Valid()
      ensures Handled(verdict, Packet()) == AtExit(p, bos)
    {
      var rest := p[8..];
      if !bos {
        if |rest| < 4 {
          return Dropped;
        }
        Move(start, rest);
        size := |rest|;
        return BouncedMpls;
      }
      if !IsIp(rest) {
        return Dropped;
      }
      Move(start, rest);
      size := |rest|;
      assert Packet() == rest;
      var ok := ParsePacket();
      return Bounced;
    }

    /** Frames a label stack that was read from the TUN at `offset`. It stays as it is where it is
        shorter than an entry or there is no room. */
    method FrameMplsUnicast(offset: nat, length: nat) returns (length': nat)
      requires Valid() && offset + length <= buffer.Length
      modifies buffer
      ensures length' == if length < 4 || offset + length + 4 > buffer.Length then length else length + 4
      ensures length' == length ==> buffer[..] == old(buffer[..])
      ensures length' > length ==>
                buffer[offset..offset + length'] == MplsFrame(old(buffer[offset..offset + length])) && Exact(buffer[offset..offset + length'])
    {
      if length < 4 || offset + length + 4 > buffer.Length {
        return length;
      }
      var inner := buffer[offset..offset + length];
      MplsFrameExact(inner);
      var head := [UNICAST_PROTO * 16, (length + 1) / 256, (length + 1) % 256, SUBTYPE_MPLS];
      Move(offset + 4, inner);
      Move(offset, head);
      length' := length + 4;
      assert buffer[offset..offset + length'] == head + inner;
    }
  }

  /** A label stack behind the two headers. */
  function MplsFrame(stack: Bytes): Bytes
    requires |stack| + 1 < 0x1_0000
  {
    [UNICAST_PROTO * 16, (|stack| + 1) / 256, (|stack| + 1) % 256, SUBTYPE_MPLS] + stack
  }

  lemma {:induction false} MplsFrameExact(stack: Bytes)
    requires |stack| + 4 < 0x1_0000
    ensures Exact(MplsFrame(stack)) && MplsFrame(stack)[4..] == stack
  {
  }
}
