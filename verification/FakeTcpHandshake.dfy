/** The handshake of two sides: what a packet does in every state of every run, and that both sides
    can always come to be established. */
module FakeTcpHandshake {
  import opened Basics
  import opened FakeTcpCarrier
  import opened FakeTcpFlow
  import opened FakeTcpPair

  ghost predicate In(x: Side, s: State) { x.flow.Some? && x.flow.value.state == s }

  ghost predicate BothEstablished(n: Net) { In(n.left, Established) && In(n.right, Established) }

  // ---------- one packet ----------

  /** In every run: an acknowledgement of everything sent, without payload or with the next one,
      establishes a side that has received a SYN. */
  lemma {:induction false} AckEstablishes(n: Net, t: Tagged, isn: U32, n': Net)
    requires Reachable(n) && LeftStep(n, Receives(t, isn), n')
    requires In(n.left, SynReceived) && !t.p.syn && t.p.ackNo == n.left.flow.value.sendNext
    requires t.p.len == 0 || t.p.seqNo == n.left.flow.value.recvNext
    ensures In(n'.left, Established)
  {
    ReachableInv(n);
    assert PacketOk(t, n.right, n.left);
    HandleObeys(n.left.flow, t.p, isn);
  }

  /** A SYN that acknowledges everything sent establishes a side that waits, and is answered by an
      acknowledgement of the other side's first byte. */
  lemma {:induction false} SynAckEstablishes(n: Net, t: Tagged, isn: U32, n': Net)
    requires Reachable(n) && LeftStep(n, Receives(t, isn), n')
    requires n.left.flow.Some? && n.left.flow.value.state != Established
    requires t.p.syn && t.p.ack && t.p.ackNo == n.left.flow.value.sendNext
    ensures In(n'.left, Established)
    ensures exists u :: u in n'.fromLeft && IsAckOf(u, n.right.isn)
  {
    ReachableInv(n);
    SynAckAnswered(n, t, isn, n');
  }

  /** Data is handed up, and counted as reached, exactly if the side is established afterwards and the
      packet carries payload outside a handshake. */
  lemma {:induction false} ReachesOnlyEstablished(n: Net, t: Tagged, isn: U32, n': Net)
    requires Reachable(n) && LeftStep(n, Receives(t, isn), n')
    ensures n'.left.reached == if !t.p.syn && t.p.len > 0 && In(n'.left, Established) then Max(n.left.reached, t.pos + t.p.len)
                               else n.left.reached
  {
    ReachableInv(n);
    assert PacketOk(t, n.right, n.left);
    HandleObeys(n.left.flow, t.p, isn);
  }

  // ---------- what a half-open handshake leaves in the network ----------

  /** The bare acknowledgement of the SYN that was sent with `isn`. */
  ghost predicate IsAckOf(t: Tagged, isn: U32) {
    !t.p.syn && t.p.ack && !t.p.rst && !t.p.fin && t.p.len == 0 && t.p.ackNo == Wrap(isn + 1)
  }

  /** Only an established side sends anything but a SYN. */
  ghost predicate PlainOk(ts: set<Tagged>, x: Side) {
    forall t :: t in ts && !t.p.syn ==> In(x, Established)
  }

  /** A side that is established before the other one has acknowledged the other one's SYN. */
  ghost predicate AckSent(ts: set<Tagged>, x: Side, y: Side) {
    In(x, Established) && !In(y, Established) ==> exists t :: t in ts && IsAckOf(t, y.isn)
  }

  ghost predicate Open(n: Net) {
    && Inv(n) && PlainOk(n.fromLeft, n.left) && PlainOk(n.fromRight, n.right)
    && AckSent(n.fromLeft, n.left, n.right) && AckSent(n.fromRight, n.right, n.left)
  }

  lemma {:induction false} SynAckAnswered(n: Net, t: Tagged, isn: U32, n': Net)
    requires Inv(n) && LeftStep(n, Receives(t, isn), n') && n.left.flow.Some? && n.left.flow.value.state != Established
    requires t.p.syn && t.p.ack && t.p.ackNo == n.left.flow.value.sendNext
    ensures In(n'.left, Established)
    ensures exists u :: u in n'.fromLeft && IsAckOf(u, n.right.isn)
  {
    assert PacketOk(t, n.right, n.left);
    HandleObeys(n.left.flow, t.p, isn);
    assert Tagged(AckPkt(n'.left.flow.value), n'.left.sent, n'.left.reached) in n'.fromLeft;
  }

  lemma {:induction false} StepKeepsPlain(n: Net, e: Event, n': Net)
    requires Open(n) && LeftStep(n, e, n')
    ensures PlainOk(n'.fromLeft, n'.left) && PlainOk(n'.fromRight, n'.right)
    ensures In(n.left, Established) ==> In(n'.left, Established)
  {
    match e
    case Prepares(isn) =>
    case Receives(t, isn) =>
      assert PacketOk(t, n.right, n.left);
      HandleObeys(n.left.flow, t.p, isn);
    case Sends(lens) =>
      SentMoves(n.left.flow.value, lens);
    case Merges(t, u) =>
  }

  lemma {:induction false} StepKeepsAckSent(n: Net, e: Event, n': Net)
    requires Open(n) && LeftStep(n, e, n')
    ensures AckSent(n'.fromLeft, n'.left, n'.right) && AckSent(n'.fromRight, n'.right, n'.left)
  {
    StepKeepsPlain(n, e, n');
    assert n.fromLeft <= n'.fromLeft && n.fromRight <= n'.fromRight && n'.right == n.right;
    if In(n'.left, Established) && !In(n.left, Established) && !In(n.right, Established) {
      BecomesEstablished(n, e, n');
    }
    if In(n.right, Established) {
      LeftIsn(n, e, n');
    }
  }

  lemma {:induction false} LeftIsn(n: Net, e: Event, n': Net)
    requires Inv(n) && LeftStep(n, e, n') && n.left.flow.Some?
    ensures n'.left.isn == n.left.isn
  {
    if e.Receives? {
      SynMatches(n, e.t);
    }
  }

  lemma {:induction false} BecomesEstablished(n: Net, e: Event, n': Net)
    requires Open(n) && LeftStep(n, e, n') && In(n'.left, Established) && !In(n.left, Established) && !In(n.right, Established)
    ensures exists u :: u in n'.fromLeft && IsAckOf(u, n.right.isn)
  {
    match e
    case Prepares(isn) =>
    case Receives(t, isn) =>
      assert PacketOk(t, n.right, n.left);
      HandleObeys(n.left.flow, t.p, isn);
      SynAckAnswered(n, t, isn, n');
    case Merges(t, u) =>
  }

  lemma {:induction false} LeftStepKeepsOpen(n: Net, e: Event, n': Net)
    requires Open(n) && LeftStep(n, e, n') && Near(n.left, e)
    ensures Open(n')
  {
    LeftStepKeepsInv(n, e, n');
    StepKeepsPlain(n, e, n');
    StepKeepsAckSent(n, e, n');
  }

  /** A run that goes on from some state. */
  ghost predicate From(n0: Net, r: Run) {
    match r
    case Start(n) => n == n0
    case Then(b, n) => From(n0, b) && Step(Last(b), n)
  }

  function First(r: Run): Net {
    match r
    case Start(n) => n
    case Then(b, _) => First(b)
  }

  lemma {:induction false} RunsAre(r: Run)
    ensures IsRun(r) <==> Initial(First(r)) && From(First(r), r)
  {
    if r.Then? {
      RunsAre(r.before);
    }
  }

  lemma {:induction false} FirstOf(n0: Net, r: Run)
    requires From(n0, r)
    ensures First(r) == n0
  {
    if r.Then? {
      FirstOf(n0, r.before);
    }
  }

  lemma {:induction false} StepKeepsOpen(n: Net, n': Net)
    requires Step(n, n')
    ensures Inv(n) ==> Inv(n')
    ensures Open(n) ==> Open(n')
  {
    if Inv(n) {
      StepKeepsInv(n, n');
    }
    if Open(n) {
      if e :| LeftStep(n, e, n') && Near(n.left, e) {
        LeftStepKeepsOpen(n, e, n');
      } else {
        var e :| LeftStep(Swap(n), e, Swap(n')) && Near(n.right, e);
        LeftStepKeepsOpen(Swap(n), e, Swap(n'));
      }
    }
  }

  lemma {:induction false} RunKeepsOpen(n0: Net, r: Run)
    requires From(n0, r)
    ensures Inv(n0) ==> Inv(Last(r))
    ensures Open(n0) ==> Open(Last(r))
  {
    if r.Then? {
      RunKeepsOpen(n0, r.before);
      StepKeepsOpen(Last(r.before), r.last);
    }
  }

  // ---------- every run can be completed ----------

  /** `r'` goes on where `r` ends. */
  ghost predicate Extends(r': Run, r: Run) {
    r' == r || (r'.Then? && Extends(r'.before, r))
  }

  lemma {:induction false} ExtendsOn(r'': Run, r': Run, r: Run)
    requires Extends(r'', r') && Extends(r', r)
    ensures Extends(r'', r)
  {
    if r'' != r' {
      ExtendsOn(r''.before, r', r);
    }
  }

  /** The last state, seen from the left side or from the right one. */
  function Seen(r: Run, right: bool): Net { if right then Swap(Last(r)) else Last(r) }

  /** One more step of the side that looks. */
  lemma {:induction false} Goes(n0: Net, r: Run, right: bool, e: Event, n': Net) returns (r': Run)
    requires From(n0, r) && LeftStep(Seen(r, right), e, n') && Near(Seen(r, right).left, e)
    ensures From(n0, r') && Extends(r', r) && Seen(r', right) == n'
  {
    var m := if right then Swap(n') else n';
    assert right ==> Swap(m) == n' && Swap(Last(r)).left == Last(r).right;
    r' := Then(r, m);
    assert Step(Last(r), m);
    assert Extends(r'.before, r);
  }

  lemma {:induction false} SeenOpen(n0: Net, r: Run, right: bool)
    requires From(n0, r)
    ensures Inv(n0) ==> Inv(Seen(r, right))
    ensures Open(n0) ==> Open(Seen(r, right))
  {
    RunKeepsOpen(n0, r);
  }

  /** The side that looks sends its packet of the handshake once more. */
  lemma {:induction false} Resends(n0: Net, r: Run, right: bool) returns (r': Run, t: Tagged)
    requires From(n0, r) && Seen(r, right).left.flow.Some? && Seen(r, right).left.flow.value.state != Established
    ensures From(n0, r') && Extends(r', r) && Seen(r', right).left == Seen(r, right).left && Seen(r', right).right == Seen(r, right).right
    ensures t in Seen(r', right).fromLeft && t.p.syn && (t.p.ack <==> In(Seen(r, right).left, SynReceived))
  {
    var n := Seen(r, right);
    var s, p := AfterPrepare(n.left, 0), Prepare(n.left.flow, 0).1;
    r' := Goes(n0, r, right, Prepares(0), n.(left := s, fromLeft := n.fromLeft + Emitted(p, s)));
    t := Tagged(p.value, s.sent, s.reached);
  }

  /** The side that looks receives a packet of the handshake. */
  lemma {:induction false} Takes(n0: Net, r: Run, right: bool, t: Tagged) returns (r': Run)
    requires From(n0, r) && t in Seen(r, right).fromRight && t.p.len == 0
    ensures From(n0, r') && Extends(r', r) && LeftStep(Seen(r, right), Receives(t, 0), Seen(r', right))
  {
    var n := Seen(r, right);
    var s := AfterReceive(n.left, t, 0);
    r' := Goes(n0, r, right, Receives(t, 0), n.(left := s, fromLeft := n.fromLeft + Emitted(Handle(n.left.flow, t.p, 0).response, s)));
  }

  lemma {:induction false} Opposite(r: Run, right: bool)
    ensures Seen(r, !right) == Swap(Seen(r, right))
  {
  }

  /** If only the right side is established, its acknowledgement establishes the left one. */
  lemma {:induction false} SecondEstablishes(n0: Net, r: Run, right: bool) returns (r': Run)
    requires Open(n0) && From(n0, r) && In(Seen(r, right).right, Established) && !In(Seen(r, right).left, Established)
    ensures From(n0, r') && Extends(r', r) && BothEstablished(Seen(r', right))
  {
    var n := Seen(r, right);
    SeenOpen(n0, r, right);
    var t :| t in n.fromRight && IsAckOf(t, n.left.isn);
    r' := Takes(n0, r, right, t);
    AckTaken(n, t, Seen(r', right));
  }

  lemma {:induction false} AckTaken(n: Net, t: Tagged, n': Net)
    requires Inv(n) && In(n.right, Established) && !In(n.left, Established)
    requires IsAckOf(t, n.left.isn) && LeftStep(n, Receives(t, 0), n')
    ensures BothEstablished(n')
  {
    assert Completes(n.left.flow.value, t.p);
    HandleObeys(n.left.flow, t.p, 0);
  }

  /** If the right side has received a SYN, its answer establishes the left one. */
  lemma {:induction false} FirstEstablishes(n0: Net, r: Run, right: bool) returns (r': Run)
    requires Open(n0) && From(n0, r) && In(Seen(r, right).right, SynReceived) && !In(Seen(r, right).left, Established)
    ensures From(n0, r') && Extends(r', r) && In(Seen(r', right).left, Established) && In(Seen(r', right).right, SynReceived)
  {
    Opposite(r, right);
    var r1, t := Resends(n0, r, !right);
    Opposite(r1, right);
    var n := Seen(r1, right);
    SeenOpen(n0, r1, right);
    assert PacketOk(t, n.right, n.left);
    r' := Takes(n0, r1, right, t);
    ExtendsOn(r', r1, r);
    AnswerFits(n, t);
    HandleObeys(n.left.flow, t.p, 0);
  }

  lemma {:induction false} AnswerFits(n: Net, t: Tagged)
    requires Inv(n) && t in n.fromRight && t.p.syn && t.p.ack && n.left.flow.Some? && !In(n.left, Established)
    ensures Completes(n.left.flow.value, t.p)
  {
    assert PacketOk(t, n.right, n.left);
  }

  /** If the right side waits and the left one has not heard of it, its SYN reaches the left one. */
  lemma {:induction false} SynArrives(n0: Net, r: Run, right: bool) returns (r': Run)
    requires Open(n0) && From(n0, r) && In(Seen(r, right).right, SynSent) && (Seen(r, right).left.flow.None? || In(Seen(r, right).left, SynSent))
    ensures From(n0, r') && Extends(r', r) && In(Seen(r', right).left, SynReceived) && In(Seen(r', right).right, SynSent)
  {
    Opposite(r, right);
    var r1, t := Resends(n0, r, !right);
    Opposite(r1, right);
    var n := Seen(r1, right);
    SeenOpen(n0, r1, right);
    assert PacketOk(t, n.right, n.left);
    r' := Takes(n0, r1, right, t);
    ExtendsOn(r', r1, r);
    HandleObeys(n.left.flow, t.p, 0);
  }

  lemma {:induction false} OnceReceived(n0: Net, r: Run, right: bool) returns (r': Run)
    requires Open(n0) && From(n0, r) && In(Seen(r, right).right, SynReceived) && !In(Seen(r, right).left, Established)
    ensures From(n0, r') && Extends(r', r) && BothEstablished(Last(r'))
  {
    var r1 := FirstEstablishes(n0, r, right);
    Opposite(r1, right);
    r' := SecondEstablishes(n0, r1, !right);
    ExtendsOn(r', r1, r);
  }

  lemma {:induction false} Establishes(n0: Net, r: Run) returns (r': Run)
    requires Open(n0) && From(n0, r) && (Last(r).left.flow.Some? || Last(r).right.flow.Some?)
    ensures From(n0, r') && Extends(r', r) && BothEstablished(Last(r'))
  {
    r' := r;
    var n := Last(r);
    if In(n.left, Established) != In(n.right, Established) {
      r' := SecondEstablishes(n0, r, In(n.left, Established));
    } else if !In(n.left, Established) {
      if In(n.left, SynReceived) || In(n.right, SynReceived) {
        r' := OnceReceived(n0, r, !In(n.right, SynReceived));
      } else {
        var right := !In(n.right, SynSent);
        Opposite(r, right);
        var r1 := SynArrives(n0, r, right);
        Opposite(r1, right);
        r' := OnceReceived(n0, r1, !right);
        ExtendsOn(r', r1, r);
      }
    }
  }

  /** Every run in which a side has a flow can go on until both sides are established. */
  lemma {:induction false} CanEstablish(r: Run) returns (r': Run)
    requires IsRun(r) && (Last(r).left.flow.Some? || Last(r).right.flow.Some?)
    ensures IsRun(r') && Extends(r', r) && BothEstablished(Last(r'))
  {
    RunsAre(r);
    r' := Establishes(First(r), r);
    FirstOf(First(r), r');
    RunsAre(r');
  }

  // ---------- what can complete a half-open handshake ----------

  /** In every run: a side that has received a SYN is established exactly by a SYN with ACK, by an
      acknowledgement without payload, and by payload at the very beginning of the stream. */
  lemma {:induction false} EstablishedExactlyBy(n: Net, t: Tagged, isn: U32, n': Net)
    requires Reachable(n) && LeftStep(n, Receives(t, isn), n') && In(n.left, SynReceived)
    ensures In(n'.left, Established) <==> if t.p.syn then t.p.ack else t.p.len == 0 || Wrap(t.pos) == 0
  {
    ReachableInv(n);
    CompletesWhen(n, t);
    HandleObeys(n.left.flow, t.p, isn);
  }

  lemma {:induction false} CompletesWhen(n: Net, t: Tagged)
    requires Inv(n) && t in n.fromRight && In(n.left, SynReceived)
    ensures Completes(n.left.flow.value, t.p) <==> if t.p.syn then t.p.ack else t.p.len == 0 || Wrap(t.pos) == 0
  {
    assert PacketOk(t, n.right, n.left);
    WrapSame(n.right.isn + 1, t.pos);
  }

  /** An established side that has sent data does not answer the other one's SYN with ACK any more:
      such a packet changes nothing, unless the data fills the whole number space. */
  lemma {:induction false} LateSynAckIgnored(n: Net, t: Tagged, isn: U32, n': Net)
    requires Reachable(n) && LeftStep(n, Receives(t, isn), n') && In(n.left, Established) && t.p.syn && Wrap(n.left.sent) != 0
    ensures n' == n
  {
    ReachableInv(n);
    SynIgnored(n, t, isn, n');
  }

  lemma {:induction false} SynIgnored(n: Net, t: Tagged, isn: U32, n': Net)
    requires Inv(n) && LeftStep(n, Receives(t, isn), n') && In(n.left, Established) && t.p.syn && Wrap(n.left.sent) != 0
    ensures n' == n
  {
    assert PacketOk(t, n.right, n.left);
    WrapSame(n.left.isn + 1, n.left.sent);
    assert Handle(n.left.flow, t.p, isn) == Handled(n.left.flow, None, false);
    SynMatches(n, t);
  }

  // ---------- when everything in flight is lost ----------

  function Lost(n: Net): Net { n.(fromLeft := {}, fromRight := {}) }

  /** The left side is established and has sent data; the right one still waits to be. */
  ghost predicate Ahead(n: Net) { In(n.left, Established) && !In(n.right, Established) && Wrap(n.left.sent) != 0 }

  /** A side that has sent no data answers again and so establishes the other one. */
  lemma {:induction false} AnswersAgain(n0: Net, right: bool) returns (r: Run)
    requires Inv(n0) && In(Seen(Start(n0), right).right, Established) && !In(Seen(Start(n0), right).left, Established)
    requires Wrap(Seen(Start(n0), right).right.sent) == 0
    ensures From(n0, r) && BothEstablished(Last(r))
  {
    var r0 := Start(n0);
    var r1, t := Resends(n0, r0, right);
    Opposite(r1, right);
    SeenOpen(n0, r1, !right);
    var n := Seen(r1, !right);
    var r2 := Takes(n0, r1, !right, t);
    Opposite(r2, right);
    var u := AckedAgain(n, t, Seen(r2, !right));
    SeenOpen(n0, r2, right);
    r := Takes(n0, r2, right, u);
    AckTaken(Seen(r2, right), u, Seen(r, right));
  }

  lemma {:induction false} AckedAgain(n: Net, t: Tagged, n': Net) returns (u: Tagged)
    requires Inv(n) && In(n.left, Established) && In(n.right, SynReceived) && Wrap(n.left.sent) == 0
    requires t.p.syn && t.p.ack && LeftStep(n, Receives(t, 0), n')
    ensures u in n'.fromLeft && IsAckOf(u, n.right.isn) && n'.left.isn == n.left.isn && In(n'.left, Established) && n'.right == n.right
  {
    assert PacketOk(t, n.right, n.left);
    WrapSame(n.left.isn + 1, n.left.sent);
    assert Handle(n.left.flow, t.p, 0) == Handled(n.left.flow, Some(AckPkt(n.left.flow.value)), false);
    u := Tagged(AckPkt(n.left.flow.value), n.left.sent, n.left.reached);
  }

  /** Even if all packets in flight are lost, both sides can come to be established, unless one of
      them is and has sent data. */
  lemma {:induction false} CanRecover(n: Net) returns (r: Run)
    requires Reachable(n) && (n.left.flow.Some? || n.right.flow.Some?) && !Ahead(n) && !Ahead(Swap(n))
    ensures From(Lost(n), r) && BothEstablished(Last(r))
  {
    ReachableInv(n);
    var n0 := Lost(n);
    if In(n.left, Established) != In(n.right, Established) {
      r := AnswersAgain(n0, In(n.left, Established));
    } else {
      r := Establishes(n0, Start(n0));
    }
  }

  /** Then the packets in flight are such that none of them establishes the right side. */
  ghost predicate Stalled(n: Net) {
    && Inv(n) && In(n.left, Established) && In(n.right, SynReceived) && 0 < n.left.sent
    && (forall t :: t in n.fromLeft ==> !t.p.syn && t.p.len > 0 && t.pos > 0)
    && (forall t :: t in n.fromRight ==> t.p.syn)
  }

  lemma {:induction false} TagsLater(ps: seq<Pkt>, pos: nat, ackPos: nat, t: Tagged)
    requires t in TagAll(ps, pos, ackPos)
    ensures t.p in ps && t.pos >= pos
    decreases |ps|
  {
    if t != Tagged(ps[0], pos, ackPos) {
      TagsLater(ps[1..], pos + ps[0].len, ackPos, t);
    }
  }

  lemma {:induction false} DataTagged(f: Flow, lens: seq<nat>, pos: nat, ackPos: nat, t: Tagged)
    requires t in TagAll(DataPkts(f, lens), pos, ackPos)
    ensures !t.p.syn && t.p.len > 0 && t.pos >= pos
  {
    var ps := DataPkts(f, lens);
    TagsLater(ps, pos, ackPos, t);
    var i :| 0 <= i < |ps| && ps[i] == t.p;
    DataPktsCount(f, lens);
    DataPktsNumbered(f, lens, i);
  }

  lemma {:induction false} AheadStepStalls(n: Net, e: Event, n': Net)
    requires Stalled(n) && LeftStep(n, e, n') && Near(n.left, e) && n'.left.sent < MOD32
    ensures Stalled(n') && n'.left.sent >= n.left.sent
  {
    LeftStepKeepsInv(n, e, n');
    match e
    case Prepares(isn) =>
    case Receives(t, isn) =>
      SynIgnored(n, t, isn, n');
    case Sends(lens) =>
      var f := n.left.flow.value;
      SentMoves(f, lens);
      forall t | t in TagAll(DataPkts(f, lens), n.left.sent, n.left.reached)
        ensures !t.p.syn && t.p.len > 0 && t.pos > 0
      {
        DataTagged(f, lens, n.left.sent, n.left.reached, t);
      }
    case Merges(t, u) =>
  }

  lemma {:induction false} BehindStepStalls(n: Net, e: Event, n': Net)
    requires Stalled(n) && LeftStep(Swap(n), e, Swap(n')) && Near(n.right, e) && n.left.sent < MOD32
    ensures Stalled(n') && n'.left == n.left
  {
    LeftStepKeepsInv(Swap(n), e, Swap(n'));
    match e
    case Prepares(isn) =>
    case Receives(t, isn) =>
      assert t in n.fromLeft && PacketOk(t, n.left, n.right);
      CompletesWhen(Swap(n), t);
      assert Handle(n.right.flow, t.p, isn) == Handled(n.right.flow, None, false);
    case Merges(t, u) =>
      assert t in n.fromLeft && u in n.fromLeft;
  }

  /** Otherwise the other side is never established, whatever either of them does, until the first
      one has sent 2^32 bytes. */
  lemma {:induction false} StaysBehind(n: Net, r: Run)
    requires Reachable(n) && Ahead(n) && From(Lost(n), r) && Last(r).left.sent < MOD32
    ensures In(Last(r).left, Established) && In(Last(r).right, SynReceived) && Last(r).left.sent >= n.left.sent
  {
    ReachableInv(n);
    RunStalls(Lost(n), r);
  }

  lemma {:induction false} RunStalls(n0: Net, r: Run)
    requires Stalled(n0) && From(n0, r) && Last(r).left.sent < MOD32
    ensures Stalled(Last(r)) && Last(r).left.sent >= n0.left.sent
  {
    if r.Then? {
      var n, n' := Last(r.before), r.last;
      SentGrows(n, n');
      RunStalls(n0, r.before);
      if e :| LeftStep(n, e, n') && Near(n.left, e) {
        AheadStepStalls(n, e, n');
      } else {
        var e :| LeftStep(Swap(n), e, Swap(n')) && Near(n.right, e);
        BehindStepStalls(n, e, n');
      }
    }
  }

  lemma {:induction false} SentGrows(n: Net, n': Net)
    requires Step(n, n')
    ensures n.left.sent <= n'.left.sent
  {
  }
}
