/** The per-address rate limiter. Time and tokens are in nanoseconds. */
module TokenBucket {
  import opened Basics

  const PACKET_COST := 50_000_000
  const MAX_TOKENS := 250_000_000
  const COLLECT_AFTER := 1_000_000_000

  type Addr = nat
  datatype Entry = Entry(lastTime: nat, tokens: nat)

  /** Entries as the limiter leaves them. */
  predicate EntryOk(e: Option<Entry>, now: nat) { e.Some? ==> e.value.tokens <= MAX_TOKENS && e.value.lastTime <= now }

  function Min(a: nat, b: nat): nat { if a < b then a else b }

  datatype Outcome = Outcome(entry: Entry, ok: bool)

  /** What one packet does to the entry of its address. */
  function Take(e: Option<Entry>, now: nat): (r: Outcome)
    requires EntryOk(e, now)
    ensures EntryOk(Some(r.entry), now) && r.entry.lastTime == now
  {
    if e.None? then Outcome(Entry(now, MAX_TOKENS - PACKET_COST), true)
    else
      var tokens := Min(MAX_TOKENS, e.value.tokens + (now - e.value.lastTime));
      if tokens > PACKET_COST then Outcome(Entry(now, tokens - PACKET_COST), true) else Outcome(Entry(now, tokens), false)
  }

  predicate Idle(e: Entry, now: nat) { e.lastTime <= now && now - e.lastTime > COLLECT_AFTER }

  /** An entry that is idle long enough to be collected acts like one that was never there. */
  lemma {:induction false} IdleIsFresh(e: Entry, seen: nat, now: nat)
    requires EntryOk(Some(e), seen) && Idle(e, seen) && seen <= now
    ensures Take(Some(e), now) == Take(None, now)
  {
  }

  // ---------- all addresses ----------

  type Table = map<Addr, Entry>

  function Find(t: Table, a: Addr): Option<Entry> { if a in t then Some(t[a]) else None }

  ghost predicate TableOk(t: Table, now: nat) { forall a :: EntryOk(Find(t, a), now) }

  function Allowed(t: Table, ip: Addr, now: nat): Table
    requires EntryOk(Find(t, ip), now)
  {
    t[ip := Take(Find(t, ip), now).entry]
  }

  function Cleaned(t: Table, now: nat): Table { map a | a in t && !Idle(t[a], now) :: t[a] }

  lemma {:induction false} AllowedOk(t: Table, ip: Addr, now: nat)
    requires TableOk(t, now)
    ensures EntryOk(Find(t, ip), now) && TableOk(Allowed(t, ip, now), now)
  {
    forall a
      ensures EntryOk(Find(Allowed(t, ip, now), a), now)
    {
      assert EntryOk(Find(t, a), now);
    }
  }

  lemma {:induction false} CleanedOk(t: Table, now: nat)
    requires TableOk(t, now)
    ensures TableOk(Cleaned(t, now), now)
  {
    forall a
      ensures EntryOk(Find(Cleaned(t, now), a), now)
    {
      assert EntryOk(Find(t, a), now);
    }
  }

  class Ratelimiter {
    var table: Table

    ghost predicate Valid(now: nat)
      reads this
    {
      TableOk(table, now)
    }

    constructor ()
      ensures Valid(0) && table == map[]
    {
      table := map[];
    }

    /** Whether a packet of the address is let through. */
    method Allow(ip: Addr, now: nat) returns (ok: bool)
      requires Valid(now)
      modifies this
      ensures Valid(now) && ok == Take(Find(old(table), ip), now).ok && table == Allowed(old(table), ip, now)
      ensures ok <==> ip in old(table) ==> old(table)[ip].tokens + (now - old(table)[ip].lastTime) > PACKET_COST
      ensures ip in table && table[ip].lastTime == now && table == old(table)[ip := table[ip]]
      ensures table[ip].tokens == (if ip in old(table) then Min(MAX_TOKENS, old(table)[ip].tokens + (now - old(table)[ip].lastTime))
                                   else MAX_TOKENS) - (if ok then PACKET_COST else 0)
    {
      assert EntryOk(Find(table, ip), now);
      AllowedOk(table, ip, now);
      if ip !in table {
        table := table[ip := Entry(now, MAX_TOKENS - PACKET_COST)];
        return true;
      }
      var e := table[ip];
      var tokens := e.tokens + (now - e.lastTime);
      if tokens > MAX_TOKENS {
        tokens := MAX_TOKENS;
      }
      if tokens > PACKET_COST {
        table := table[ip := Entry(now, tokens - PACKET_COST)];
        return true;
      }
      table := table[ip := Entry(now, tokens)];
      return false;
    }

    /** Drops idle entries. */
    method Cleanup(now: nat) returns (empty: bool)
      requires Valid(now)
      modifies this
      ensures Valid(now) && table == Cleaned(old(table), now)
      ensures forall a :: a in table <==> a in old(table) && now - old(table)[a].lastTime <= COLLECT_AFTER
      ensures forall a :: a in table ==> table[a] == old(table)[a]
      ensures empty <==> table == map[]
    {
      CleanedOk(table, now);
      assert forall a :: a in table ==> EntryOk(Find(table, a), now);
      var todo := table.Keys;
      while todo != {}
        invariant todo <= old(table).Keys && (forall a :: a in table ==> a in old(table) && table[a] == old(table)[a])
        invariant forall a :: a in old(table) ==> (a in table <==> a in todo || !Idle(old(table)[a], now))
        decreases |todo|
      {
        var a :| a in todo;
        todo := todo - {a};
        if now - table[a].lastTime > COLLECT_AFTER {
          table := table - {a};
        }
      }
      empty := |table| == 0;
    }
  }

  // ---------- one address over a whole run ----------

  /** Packets of one address and rounds of cleanup, at the times they happen. */
  datatype Event = Packet(at: nat) | Collect(at: nat)

  ghost predicate Ordered(es: seq<Event>, from: nat) {
    es == [] || (from <= es[0].at && Ordered(es[1..], es[0].at))
  }

  function Collected(e: Option<Entry>, now: nat): Option<Entry> { if e.Some? && Idle(e.value, now) then None else e }

  /** The answers to the packets of a run. */
  ghost function Answers(e: Option<Entry>, es: seq<Event>, from: nat): seq<bool>
    requires EntryOk(e, from) && Ordered(es, from)
    decreases |es|
  {
    if es == [] then []
    else if es[0].Packet? then [Take(e, es[0].at).ok] + Answers(Some(Take(e, es[0].at).entry), es[1..], es[0].at)
    else Answers(Collected(e, es[0].at), es[1..], es[0].at)
  }

  function OnlyPackets(es: seq<Event>): seq<Event> {
    if es == [] then [] else (if es[0].Packet? then [es[0]] else []) + OnlyPackets(es[1..])
  }

  lemma {:induction false} OrderedLater(es: seq<Event>, from: nat, to: nat)
    requires Ordered(es, to) && from <= to
    ensures Ordered(es, from)
  {
  }

  lemma {:induction false} PacketsOrdered(es: seq<Event>, from: nat)
    requires Ordered(es, from)
    ensures Ordered(OnlyPackets(es), from)
    decreases |es|
  {
    if es != [] {
      PacketsOrdered(es[1..], es[0].at);
      if es[0].Packet? {
        assert OnlyPackets(es)[1..] == OnlyPackets(es[1..]);
      } else {
        assert OnlyPackets(es) == OnlyPackets(es[1..]);
        OrderedLater(OnlyPackets(es[1..]), from, es[0].at);
      }
    }
  }

  /** The entry with cleanups is the entry without, or it was collected while that one was idle. */
  ghost predicate Alike(e: Option<Entry>, f: Option<Entry>, now: nat) {
    e == f || (e.None? && f.Some? && Idle(f.value, now))
  }

  lemma {:induction false} AlikeTake(e: Option<Entry>, f: Option<Entry>, from: nat, now: nat)
    requires EntryOk(e, from) && EntryOk(f, from) && Alike(e, f, from) && from <= now
    ensures Take(e, now) == Take(f, now)
  {
    if e != f {
      IdleIsFresh(f.value, from, now);
    }
  }

  /** Cleanup never changes an answer. */
  lemma {:induction false} CleanupIsInvisible(e: Option<Entry>, f: Option<Entry>, es: seq<Event>, from: nat)
    requires EntryOk(e, from) && EntryOk(f, from) && Alike(e, f, from) && Ordered(es, from)
    ensures Ordered(OnlyPackets(es), from) && Answers(e, es, from) == Answers(f, OnlyPackets(es), from)
    decreases |es|
  {
    PacketsOrdered(es, from);
    if es != [] {
      var now := es[0].at;
      if es[0].Packet? {
        AlikeTake(e, f, from, now);
        var n := Some(Take(e, now).entry);
        CleanupIsInvisible(n, n, es[1..], now);
        assert OnlyPackets(es)[1..] == OnlyPackets(es[1..]);
      } else {
        assert OnlyPackets(es) == OnlyPackets(es[1..]);
        CleanupIsInvisible(Collected(e, now), f, es[1..], now);
        AnswersFrom(f, OnlyPackets(es[1..]), from, now);
      }
    }
  }

  lemma {:induction false} AnswersFrom(f: Option<Entry>, es: seq<Event>, from: nat, to: nat)
    requires EntryOk(f, from) && from <= to && Ordered(es, to)
    ensures Ordered(es, from) && Answers(f, es, from) == Answers(f, es, to)
  {
    OrderedLater(es, from, to);
  }

  // ---------- the bound ----------

  function Accepted(bs: seq<bool>): nat { if bs == [] then 0 else (if bs[0] then 1 else 0) + Accepted(bs[1..]) }

  function LastTime(es: seq<Event>, from: nat): nat { if es == [] then from else LastTime(es[1..], es[0].at) }

  /** The tokens an entry has at a time. */
  function TokensAt(e: Option<Entry>, now: nat): nat
    requires EntryOk(e, now)
  {
    if e.None? then MAX_TOKENS else Min(MAX_TOKENS, e.value.tokens + (now - e.value.lastTime))
  }

  /** Whatever is accepted was paid for: with the tokens at the start and the time since. */
  lemma {:induction false} Paid(e: Option<Entry>, es: seq<Event>, from: nat)
    requires EntryOk(e, from) && Ordered(es, from) && forall i :: 0 <= i < |es| ==> es[i].Packet?
    ensures LastTime(es, from) >= from
    ensures Accepted(Answers(e, es, from)) > 0 ==>
              PACKET_COST * Accepted(Answers(e, es, from)) < TokensAt(e, from) + (LastTime(es, from) - from)
    decreases |es|
  {
    if es != [] {
      var now, r := es[0].at, Take(e, es[0].at);
      Paid(Some(r.entry), es[1..], now);
      assert Answers(e, es, from)[1..] == Answers(Some(r.entry), es[1..], now);
    }
  }

  /** The windowed bound: in any part of a run, with any cleanups, the packets accepted cost less than
      the burst allowance and the length of the part. */
  lemma {:induction false} WindowBound(e: Option<Entry>, es: seq<Event>, from: nat)
    requires EntryOk(e, from) && Ordered(es, from) && es != []
    ensures PACKET_COST * Accepted(Answers(e, es, from)) < MAX_TOKENS + (LastTime(es, es[0].at) - es[0].at)
  {
    var start := es[0].at;
    AnswersFrom(e, es, from, start);
    CleanupIsInvisible(e, e, es, start);
    var ps := OnlyPackets(es);
    AllPackets(es);
    Paid(e, ps, start);
    PacketsEarlier(es, start, start);
  }

  lemma {:induction false} AllPackets(es: seq<Event>)
    ensures forall i :: 0 <= i < |OnlyPackets(es)| ==> OnlyPackets(es)[i].Packet?
  {
    if es != [] {
      AllPackets(es[1..]);
    }
  }

  lemma {:induction false} PacketsEarlier(es: seq<Event>, from: nat, base: nat)
    requires Ordered(es, from) && base <= from
    ensures LastTime(OnlyPackets(es), base) <= LastTime(es, from)
    decreases |es|
  {
    if es != [] {
      var now := es[0].at;
      if es[0].Packet? {
        assert OnlyPackets(es)[1..] == OnlyPackets(es[1..]);
        PacketsEarlier(es[1..], now, now);
      } else {
        assert OnlyPackets(es) == OnlyPackets(es[1..]);
        PacketsEarlier(es[1..], now, base);
      }
    }
  }

  // ---------- one address among all ----------

  /** A call of the limiter. */
  datatype Call = AllowCall(ip: Addr, at: nat) | CleanupCall(at: nat)

  ghost predicate InOrder(cs: seq<Call>, from: nat) {
    cs == [] || (from <= cs[0].at && InOrder(cs[1..], cs[0].at))
  }

  function After(t: Table, c: Call): Table
    requires c.AllowCall? ==> EntryOk(Find(t, c.ip), c.at)
  {
    if c.AllowCall? then Allowed(t, c.ip, c.at) else Cleaned(t, c.at)
  }

  lemma {:induction false} AfterOk(t: Table, c: Call, from: nat)
    requires TableOk(t, from) && from <= c.at
    ensures TableOk(t, c.at) && TableOk(After(t, c), c.at)
  {
    forall a
      ensures EntryOk(Find(t, a), c.at)
    {
      assert EntryOk(Find(t, a), from);
    }
    if c.AllowCall? {
      AllowedOk(t, c.ip, c.at);
    } else {
      CleanedOk(t, c.at);
    }
  }

  /** What the limiter answers to one address during a run of calls for all of them. */
  ghost function AnswersTo(t: Table, cs: seq<Call>, a: Addr, from: nat): seq<bool>
    requires TableOk(t, from) && InOrder(cs, from)
    decreases |cs|
  {
    if cs == [] then []
    else
      AfterOk(t, cs[0], from);
      assert EntryOk(Find(t, a), cs[0].at);
      (if cs[0] == AllowCall(a, cs[0].at) then [Take(Find(t, a), cs[0].at).ok] else []) + AnswersTo(After(t, cs[0]), cs[1..], a, cs[0].at)
  }

  /** The calls that concern an address. */
  function EventsOf(cs: seq<Call>, a: Addr): seq<Event> {
    if cs == [] then []
    else
      (match cs[0]
       case AllowCall(ip, at) => if ip == a then [Packet(at)] else []
       case CleanupCall(at) => [Collect(at)])
      + EventsOf(cs[1..], a)
  }

  lemma {:induction false} EventsOrdered(cs: seq<Call>, a: Addr, from: nat)
    requires InOrder(cs, from)
    ensures Ordered(EventsOf(cs, a), from)
    decreases |cs|
  {
    if cs != [] {
      EventsOrdered(cs[1..], a, cs[0].at);
      var rest := EventsOf(cs[1..], a);
      if cs[0].AllowCall? && cs[0].ip != a {
        assert EventsOf(cs, a) == rest;
        OrderedLater(rest, from, cs[0].at);
      } else {
        assert EventsOf(cs, a)[1..] == rest;
      }
    }
  }

  /** A call for another address changes nothing. */
  lemma {:induction false} OthersUnseen(t: Table, ip: Addr, a: Addr, now: nat)
    requires EntryOk(Find(t, ip), now) && ip != a
    ensures Find(Allowed(t, ip, now), a) == Find(t, a)
  {
  }

  /** An address is answered as if it were alone. */
  lemma {:induction false} AnsweredAlone(t: Table, cs: seq<Call>, a: Addr, from: nat)
    requires TableOk(t, from) && InOrder(cs, from)
    ensures EntryOk(Find(t, a), from) && Ordered(EventsOf(cs, a), from)
    ensures AnswersTo(t, cs, a, from) == Answers(Find(t, a), EventsOf(cs, a), from)
    decreases |cs|
  {
    EventsOrdered(cs, a, from);
    if cs != [] {
      var c, now := cs[0], cs[0].at;
      AfterOk(t, c, from);
      AnsweredAlone(After(t, c), cs[1..], a, now);
      EventsNext(cs, a);
      if c.AllowCall? && c.ip != a {
        OthersUnseen(t, c.ip, a, now);
        AnswersFrom(Find(t, a), EventsOf(cs[1..], a), from, now);
      }
    }
  }

  lemma {:induction false} EventsNext(cs: seq<Call>, a: Addr)
    requires cs != []
    ensures var es, rest := EventsOf(cs, a), EventsOf(cs[1..], a);
            match cs[0]
            case AllowCall(ip, at) => if ip == a then es != [] && es[0] == Packet(at) && es[1..] == rest else es == rest
            case CleanupCall(at) => es != [] && es[0] == Collect(at) && es[1..] == rest
  {
  }

  function LastCall(cs: seq<Call>, from: nat): nat { if cs == [] then from else LastCall(cs[1..], cs[0].at) }

  lemma {:induction false} EventsEarlier(cs: seq<Call>, a: Addr, from: nat, base: nat)
    requires InOrder(cs, from) && base <= from
    ensures LastTime(EventsOf(cs, a), base) <= LastCall(cs, from) && from <= LastCall(cs, from)
    decreases |cs|
  {
    if cs != [] {
      var c, rest := cs[0], EventsOf(cs[1..], a);
      EventsEarlier(cs[1..], a, c.at, if c.AllowCall? && c.ip != a then base else c.at);
      if c.AllowCall? && c.ip != a {
        assert EventsOf(cs, a) == rest;
      } else {
        assert EventsOf(cs, a)[1..] == rest;
      }
    }
  }

  /** In any stretch of calls for any addresses, what the limiter accepts from one of them costs less
      than the burst allowance and the length of the stretch. */
  lemma {:induction false} AddressBound(t: Table, cs: seq<Call>, a: Addr, from: nat)
    requires TableOk(t, from) && InOrder(cs, from)
    ensures PACKET_COST * Accepted(AnswersTo(t, cs, a, from)) < MAX_TOKENS + (LastCall(cs, from) - from)
  {
    AnsweredAlone(t, cs, a, from);
    EventsEarlier(cs, a, from, from);
    var es := EventsOf(cs, a);
    if es != [] {
      WindowBound(Find(t, a), es, from);
      assert LastTime(es, from) == LastTime(es, es[0].at);
    }
  }

  // ---------- which packets are accepted ----------

  ghost predicate AllPacketsIn(es: seq<Event>) { forall i :: 0 <= i < |es| ==> es[i].Packet? }

  ghost predicate AllTrue(bs: seq<bool>) { forall i :: 0 <= i < |bs| ==> bs[i] }

  /** Any stretch of the packets costs less than the burst allowance and the length of the stretch. */
  ghost predicate Conforming(es: seq<Event>) {
    forall i, j :: 0 <= i <= j < |es| ==> PACKET_COST * (j - i + 1) < MAX_TOKENS + (es[j].at - es[i].at)
  }

  /** Every packet is paid for by `tokens` and the time since `from`. */
  ghost predicate Affordable(es: seq<Event>, tokens: int, from: nat) {
    forall j :: 0 <= j < |es| ==> PACKET_COST * (j + 1) < tokens + (es[j].at - from)
  }

  lemma {:induction false} ConformingNext(es: seq<Event>)
    requires es != []
    ensures Conforming(es) <==> Affordable(es, MAX_TOKENS, es[0].at) && Conforming(es[1..])
  {
    var rest := es[1..];
    if Conforming(es) {
      forall i, j | 0 <= i <= j < |rest|
        ensures PACKET_COST * (j - i + 1) < MAX_TOKENS + (rest[j].at - rest[i].at)
      {
        assert rest[j] == es[j + 1] && rest[i] == es[i + 1];
      }
    }
    if Affordable(es, MAX_TOKENS, es[0].at) && Conforming(rest) {
      forall i, j | 0 <= i <= j < |es|
        ensures PACKET_COST * (j - i + 1) < MAX_TOKENS + (es[j].at - es[i].at)
      {
        if i > 0 {
          assert rest[j - 1] == es[j] && rest[i - 1] == es[i];
        }
      }
    }
  }

  lemma {:induction false} AffordableNext(es: seq<Event>, tokens: nat, from: nat)
    requires es != [] && from <= es[0].at
    ensures var now := es[0].at;
            Affordable(es, tokens, from) && Affordable(es, MAX_TOKENS, now) <==>
            PACKET_COST < tokens + (now - from) && Affordable(es[1..], Min(MAX_TOKENS, tokens + (now - from)) - PACKET_COST, now)
  {
    var rest, now := es[1..], es[0].at;
    var left := Min(MAX_TOKENS, tokens + (now - from)) - PACKET_COST;
    assert forall j :: 0 <= j < |rest| ==> rest[j] == es[j + 1];
    if Affordable(es, tokens, from) && Affordable(es, MAX_TOKENS, now) {
      forall j | 0 <= j < |rest|
        ensures PACKET_COST * (j + 1) < left + (rest[j].at - now)
      {
        assert PACKET_COST * (j + 1 + 1) < tokens + (es[j + 1].at - from);
      }
    }
    if PACKET_COST < tokens + (now - from) && Affordable(rest, left, now) {
      forall j | 0 <= j < |es|
        ensures PACKET_COST * (j + 1) < tokens + (es[j].at - from) && PACKET_COST * (j + 1) < MAX_TOKENS + (es[j].at - now)
      {
        if j > 0 {
          assert PACKET_COST * (j - 1 + 1) < left + (rest[j - 1].at - now);
        }
      }
    }
  }

  lemma {:induction false} AllTrueNext(b: bool, bs: seq<bool>)
    ensures AllTrue([b] + bs) <==> b && AllTrue(bs)
  {
    assert forall i :: 0 <= i < |bs| ==> ([b] + bs)[i + 1] == bs[i];
    assert ([b] + bs)[0] == b;
  }

  /** All packets are accepted exactly if they conform and the first ones can be afforded. */
  lemma {:induction false} AcceptedExactly(e: Option<Entry>, es: seq<Event>, from: nat)
    requires EntryOk(e, from) && Ordered(es, from) && AllPacketsIn(es)
    ensures AllTrue(Answers(e, es, from)) <==> Conforming(es) && Affordable(es, TokensAt(e, from), from)
    decreases |es|
  {
    if es != [] {
      var now, r := es[0].at, Take(e, es[0].at);
      AcceptedExactly(Some(r.entry), es[1..], now);
      AllTrueNext(r.ok, Answers(Some(r.entry), es[1..], now));
      ConformingNext(es);
      AffordableNext(es, TokensAt(e, from), from);
      FirstTaken(e, from, now);
    }
  }

  lemma {:induction false} FirstTaken(e: Option<Entry>, from: nat, now: nat)
    requires EntryOk(e, from) && from <= now
    ensures var r, tokens := Take(e, now), TokensAt(e, from) + (now - from);
            (r.ok <==> PACKET_COST < tokens) && (r.ok ==> TokensAt(Some(r.entry), now) == Min(MAX_TOKENS, tokens) - PACKET_COST)
  {
  }

  /** A new address, among calls for any others and with cleanups, has all its packets accepted exactly
      if any stretch of them costs less than the burst allowance and the length of the stretch. */
  lemma {:induction false} NewAddressServed(t: Table, cs: seq<Call>, a: Addr, from: nat)
    requires TableOk(t, from) && InOrder(cs, from) && a !in t
    ensures AllTrue(AnswersTo(t, cs, a, from)) <==> Conforming(OnlyPackets(EventsOf(cs, a)))
  {
    var es := EventsOf(cs, a);
    var ps := OnlyPackets(es);
    AnsweredAlone(t, cs, a, from);
    CleanupIsInvisible(None, None, es, from);
    AllPackets(es);
    AcceptedExactly(None, ps, from);
    if ps != [] && Conforming(ps) {
      ConformingNext(ps);
    }
  }
}
