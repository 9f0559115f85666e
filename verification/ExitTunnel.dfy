/** The exit tunnel: wrapping at the origin, transit by label, and unwrapping at the exit. */
module ExitTunnel {
  import opened Basics
  import opened OnesComplement
  import opened ExitPackets

  type Peer = nat

  /** What a node knows when it looks at a packet. */
  datatype View = View(localId: nat, advertisesExit: bool, forward: map<nat, Peer>)

  datatype Verdict = Dropped | Forwarded(peer: Peer) | Bounced | BouncedMpls

  datatype Handled = Handled(verdict: Verdict, packet: Bytes)

  // ---------- what the operations do ----------

  /** Wrapping for an exit; it fails for the invalid id and where the buffer is too short. */
  function Wrapped(p: Bytes, exit: nat, bufferSize: nat): Option<Bytes>
    requires bufferSize < 0x1_0000
  {
    if exit == 0 || WRAP_HEADER + |p| > bufferSize - TRANSPORT_HEADER then None
    else Some(Frame(p, Lse(exit, 0, true, DEFAULT_TTL)))
  }

  /** The end of the outer label: an IP packet, or the labels below it. */
  function AtExit(p: Bytes, bos: bool): (h: Handled)
    requires |p| >= WRAP_HEADER
    ensures !h.verdict.Forwarded?
  {
    if !bos then if |p| < WRAP_HEADER + 4 then Handled(Dropped, p) else Handled(BouncedMpls, p[8..])
    else if !IsIp(p[8..]) then Handled(Dropped, p)
    else Handled(Bounced, if Parsed(p[8..]).Some? then Parsed(p[8..]).value else p[8..])
  }

  function ByLabel(p: Bytes, l: Lse, v: View): (h: Handled)
    requires |p| >= WRAP_HEADER && l.ttl == p[7]
    ensures h.verdict.Forwarded? ==> p[7] > 0 && h.packet == p[7 := p[7] - 1]
  {
    if l.ttl == 0 then Handled(Dropped, p)
    else if l.dest != v.localId then
      if l.dest in v.forward then Handled(Forwarded(v.forward[l.dest]), p[7 := p[7] - 1]) else Handled(Dropped, p)
    else if !v.advertisesExit || |p| == WRAP_HEADER then Handled(Dropped, p)
    else AtExit(p, l.bos)
  }

  /** A packet of another version than IP, at a node. */
  function Handle(p: Bytes, v: View): (h: Handled)
    ensures h.verdict.Forwarded? ==> |p| >= WRAP_HEADER && p[7] > 0 && h.packet == p[7 := p[7] - 1]
  {
    if |p| < WRAP_HEADER then Handled(Dropped, p)
    else
      TtlIsLastByte(p[4..8]);
      ByLabel(p, DecodeLse(p[4..8]), v)
  }

  lemma {:induction false} TtlIsLastByte(s: Bytes)
    requires |s| == 4
    ensures DecodeLse(s).ttl == s[3]
  {
    LastByte(BeVal(s[..3]), s[3]);
  }

  // ---------- one hop ----------

  /** On the way a packet is only counted down. */
  lemma {:induction false} TransitKeeps(inner: Bytes, l: Lse, v: View)
    requires LseOk(l) && l.ttl > 0 && |inner| + WRAP_HEADER < 0x1_0000 && l.dest != v.localId && l.dest in v.forward
    ensures Handle(Frame(inner, l), v) == Handled(Forwarded(v.forward[l.dest]), Frame(inner, l.(ttl := l.ttl - 1)))
  {
    var p := Frame(inner, l);
    FrameParts(inner, l);
    LseRoundTrip(l);
    LseCountDown(l);
    assert p[7] == p[4..8][3];
    assert p[7 := p[7] - 1] == Frame(inner, l.(ttl := l.ttl - 1));
  }

  /** At its exit an IP packet comes out as it went in. */
  lemma {:induction false} ExitUnwraps(inner: Bytes, l: Lse, v: View)
    requires LseOk(l) && l.ttl > 0 && l.bos && |inner| + WRAP_HEADER < 0x1_0000
    requires l.dest == v.localId && v.advertisesExit && IsIp(inner) && Exact(inner)
    ensures Handle(Frame(inner, l), v) == Handled(Bounced, inner)
  {
    FrameParts(inner, l);
    LseRoundTrip(l);
    assert inner[..|inner|] == inner;
  }

  /** Why a framed packet is dropped: its hops are used up, nobody knows the exit, this node is none,
      or nothing usable is below the label. */
  ghost predicate Unusable(inner: Bytes, l: Lse, v: View) {
    || l.ttl == 0
    || (l.dest != v.localId && l.dest !in v.forward)
    || (l.dest == v.localId && (!v.advertisesExit || inner == [] || (if l.bos then !IsIp(inner) else |inner| < 4)))
  }

  /** The verdict on a framed packet, whatever it holds. */
  lemma {:induction false} VerdictExactly(inner: Bytes, l: Lse, v: View)
    requires LseOk(l) && |inner| + WRAP_HEADER < 0x1_0000
    ensures var h := Handle(Frame(inner, l), v);
            && (h.verdict == Dropped <==> Unusable(inner, l, v))
            && (h.verdict.Forwarded? <==> !Unusable(inner, l, v) && l.dest != v.localId)
            && (h.verdict.Forwarded? ==> h.verdict.peer == v.forward[l.dest])
            && (h.verdict == BouncedMpls <==> !Unusable(inner, l, v) && l.dest == v.localId && !l.bos)
            && (h.verdict == BouncedMpls ==> h.packet == inner)
            && (h.verdict == Bounced ==> h.packet == if Parsed(inner).Some? then Parsed(inner).value else inner)
  {
    FrameParts(inner, l);
    LseRoundTrip(l);
  }

  // ---------- whole journeys ----------

  /** A hop: the receiver cuts the padding of the transport and looks at the packet. */
  datatype Hop = Hop(view: View, padding: Bytes)

  function Arrive(p: Bytes, hop: Hop): Handled {
    var q := Parsed(p + hop.padding);
    if q.None? then Handled(Dropped, p) else Handle(q.value, hop.view)
  }

  /** Where a packet ends up after hops that each pass it on. */
  function Travel(p: Bytes, hops: seq<Hop>): Handled
    decreases |hops|
  {
    if hops == [] then Handled(Dropped, p)
    else
      var h := Arrive(p, hops[0]);
      if |hops| == 1 || !h.verdict.Forwarded? then h else Travel(h.packet, hops[1..])
  }

  predicate Transits(v: View, dest: nat) { dest != v.localId && dest in v.forward }

  predicate Exits(v: View, dest: nat) { dest == v.localId && v.advertisesExit }

  /** A wrapped packet that is passed on fewer times than its hop limit comes out at the exit byte
      for byte, whatever was padded on the way. */
  lemma {:induction false} JourneyDelivers(inner: Bytes, l: Lse, hops: seq<Hop>)
    requires LseOk(l) && l.bos && |inner| + WRAP_HEADER < 0x1_0000 && IsIp(inner) && Exact(inner)
    requires hops != [] && |hops| <= l.ttl && Exits(hops[|hops| - 1].view, l.dest)
    requires forall i :: 0 <= i < |hops| - 1 ==> Transits(hops[i].view, l.dest)
    ensures Travel(Frame(inner, l), hops) == Handled(Bounced, inner)
    decreases |hops|
  {
    FrameParts(inner, l);
    PaddingIsCut(Frame(inner, l), hops[0].padding);
    if |hops| == 1 {
      ExitUnwraps(inner, l, hops[0].view);
    } else {
      assert Transits(hops[0].view, l.dest);
      TransitKeeps(inner, l, hops[0].view);
      JourneyDelivers(inner, l.(ttl := l.ttl - 1), hops[1..]);
    }
  }

  /** From the origin to the exit. */
  lemma {:induction false} TunnelRoundTrip(inner: Bytes, exit: nat, bufferSize: nat, hops: seq<Hop>)
    requires bufferSize < 0x1_0000 && 0 < exit <= 0xFFFFF && Wrapped(inner, exit, bufferSize).Some? && IsIp(inner) && Exact(inner)
    requires hops != [] && |hops| <= DEFAULT_TTL && Exits(hops[|hops| - 1].view, exit)
    requires forall i :: 0 <= i < |hops| - 1 ==> Transits(hops[i].view, exit)
    ensures Travel(Wrapped(inner, exit, bufferSize).value, hops) == Handled(Bounced, inner)
  {
    JourneyDelivers(inner, Lse(exit, 0, true, DEFAULT_TTL), hops);
  }

  /** How often a packet is passed on. */
  function Forwards(p: Bytes, hops: seq<Hop>): nat
    decreases |hops|
  {
    if hops == [] then 0
    else
      var h := Arrive(p, hops[0]);
      if h.verdict.Forwarded? then 1 + Forwards(h.packet, hops[1..]) else 0
  }

  /** Whatever the tables say, and even in a loop, a packet is passed on at most as often as its hop
      limit says. */
  lemma {:induction false} HopLimitBounds(p: Bytes, hops: seq<Hop>)
    requires |p| >= WRAP_HEADER
    ensures Forwards(p, hops) <= p[7]
    decreases |hops|
  {
    if hops != [] {
      var h := Arrive(p, hops[0]);
      if h.verdict.Forwarded? {
        var q := Parsed(p + hops[0].padding).value;
        assert q[7] == (p + hops[0].padding)[7] == p[7];
        HopLimitBounds(h.packet, hops[1..]);
      }
    }
  }

  /** Where every node passes it on, it is passed on exactly as often as there are nodes and hops left. */
  lemma {:induction false} ForwardsExactly(inner: Bytes, l: Lse, hops: seq<Hop>)
    requires LseOk(l) && |inner| + WRAP_HEADER < 0x1_0000 && forall i :: 0 <= i < |hops| ==> Transits(hops[i].view, l.dest)
    ensures Forwards(Frame(inner, l), hops) == if |hops| < l.ttl then |hops| else l.ttl
    decreases |hops|
  {
    if hops != [] {
      FrameParts(inner, l);
      PaddingIsCut(Frame(inner, l), hops[0].padding);
      if l.ttl > 0 {
        TransitKeeps(inner, l, hops[0].view);
        ForwardsExactly(inner, l.(ttl := l.ttl - 1), hops[1..]);
      } else {
        VerdictExactly(inner, l, hops[0].view);
      }
    }
  }
}
