/** Numeric node ids, which double as MPLS labels. */
module NodeIds {
  import opened Basics
  import opened GraphOrder

  const FIRST_ID := 16
  const MAX_ID := 0xFFFFF
  const CAPACITY := 0xFFFFF - 16 + 1

  /** A node of the configuration; 0 means that it does not pin an id. */
  datatype NodeCfg = NodeCfg(id: Name, numericId: nat)

  datatype NodeIdMap = NodeIdMap(byNumeric: map<nat, Name>, byString: map<Name, nat>)

  // ---------- what the configuration says ----------

  function Names(cfg: seq<NodeCfg>): set<Name> { set c | c in cfg :: c.id }

  /** The pinned ids; of entries with the same name the first counts. */
  function Pins(cfg: seq<NodeCfg>): map<Name, nat> {
    if cfg == [] then map[]
    else
      var c, before := cfg[|cfg| - 1], cfg[..|cfg| - 1];
      if c.id in Names(before) || c.numericId == 0 then Pins(before) else Pins(before)[c.id := c.numericId]
  }

  /** Pins are usable: in range and all different. */
  ghost predicate PinsOk(pins: map<Name, nat>) {
    && (forall x :: x in pins ==> FIRST_ID <= pins[x] <= MAX_ID)
    && (forall x, y :: x in pins && y in pins && pins[x] == pins[y] ==> x == y)
  }

  /** The value is taken by a pin or by an unpinned node that comes before `x`. */
  ghost predicate TakenBefore(ids: map<Name, nat>, pins: map<Name, nat>, x: Name, v: nat) {
    exists y :: y in ids && ids[y] == v && (y in pins || Less(y, x))
  }

  /** The allocation that a configuration calls for. */
  ghost predicate IsAllocation(names: set<Name>, pins: map<Name, nat>, ids: map<Name, nat>) {
    && ids.Keys == names
    && (forall x :: x in ids ==> FIRST_ID <= ids[x] <= MAX_ID)
    && (forall x, y :: x in ids && y in ids && ids[x] == ids[y] ==> x == y)
    && (forall x :: x in pins ==> x in ids && ids[x] == pins[x])
    && (forall x, v :: x in ids && x !in pins && FIRST_ID <= v < ids[x] ==> TakenBefore(ids, pins, x, v))
  }

  /** Unpinned nodes are numbered in the order of their names. */
  lemma {:induction false} AllocationOrdered(names: set<Name>, pins: map<Name, nat>, ids: map<Name, nat>, x: Name, y: Name)
    requires IsAllocation(names, pins, ids) && x in ids && y in ids && x !in pins && y !in pins && Less(x, y)
    ensures ids[x] < ids[y]
  {
    if ids[y] < ids[x] {
      assert TakenBefore(ids, pins, x, ids[y]);
      LessTotal(x, y);
    } else if ids[x] == ids[y] {
      LessTotal(x, y);
    }
  }

  ghost predicate Sorted(s: seq<Name>) { forall i, j :: 0 <= i < j < |s| ==> Less(s[i], s[j]) }

  /** There is only one such allocation. */
  lemma {:induction false} AllocationUnique(names: set<Name>, pins: map<Name, nat>, ids: map<Name, nat>, ids': map<Name, nat>, s: seq<Name>, i: nat)
    requires IsAllocation(names, pins, ids) && IsAllocation(names, pins, ids')
    requires Sorted(s) && (forall x :: x in names <==> x in s) && i < |s|
    ensures s[i] in ids && s[i] in ids' && ids[s[i]] == ids'[s[i]]
    decreases i
  {
    var x := s[i];
    assert x in s;
    if x !in pins {
      forall y | y in names && Less(y, x)
        ensures ids[y] == ids'[y]
      {
        var j :| 0 <= j < |s| && s[j] == y;
        LessTotal(x, y);
        assert j < i;
        AllocationUnique(names, pins, ids, ids', s, j);
      }
      NotBelow(names, pins, ids, ids', x);
      NotBelow(names, pins, ids', ids, x);
    }
  }

  lemma {:induction false} NotBelow(names: set<Name>, pins: map<Name, nat>, ids: map<Name, nat>, ids': map<Name, nat>, x: Name)
    requires IsAllocation(names, pins, ids) && IsAllocation(names, pins, ids') && x in names && x !in pins
    requires forall y :: y in names && Less(y, x) ==> ids[y] == ids'[y]
    ensures ids[x] >= ids'[x]
  {
    if ids[x] < ids'[x] {
      assert TakenBefore(ids', pins, x, ids[x]);
      var y :| y in ids' && ids'[y] == ids[x] && (y in pins || Less(y, x));
      LessTotal(x, y);
    }
  }

  // ---------- sorting names ----------

  lemma {:induction false} PutNameSorted(x: Name, s: seq<Name>)
    requires Sorted(s)
    ensures Sorted(PutName(x, s))
  {
    if s != [] && x != s[0] {
      LessTotal(x, s[0]);
      if Less(x, s[0]) {
        forall j | 0 < j < |[x] + s|
          ensures Less(x, ([x] + s)[j])
        {
          if j > 1 {
            LessTrans(x, s[0], s[j - 1]);
          }
        }
      } else {
        var rest := PutName(x, s[1..]);
        PutNameSorted(x, s[1..]);
        forall j | 0 <= j < |rest|
          ensures Less(s[0], rest[j])
        {
          assert rest[j] in rest;
        }
      }
    }
  }

  lemma {:induction false} SortNamesSorted(s: seq<Name>)
    ensures Sorted(SortNames(s))
  {
    if s != [] {
      SortNamesSorted(s[1..]);
      PutNameSorted(s[0], SortNames(s[1..]));
    }
  }

  // ---------- collecting ----------

  method Collect(cfg: seq<NodeCfg>) returns (ids: seq<Name>, pins: map<Name, nat>)
    ensures (forall x :: x in ids <==> x in Names(cfg)) && Sorted(ids) && pins == Pins(cfg)
  {
    ids, pins := [], map[];
    var seen: set<Name> := {};
    for i := 0 to |cfg|
      invariant seen == Names(cfg[..i]) && (forall x :: x in ids <==> x in seen) && pins == Pins(cfg[..i])
    {
      var c := cfg[i];
      NamesNext(cfg, i);
      if c.id !in seen {
        seen := seen + {c.id};
        ids := ids + [c.id];
        if c.numericId != 0 {
          pins := pins[c.id := c.numericId];
        }
      }
    }
    assert cfg[..|cfg|] == cfg;
    SortNamesSorted(ids);
    ids := SortNames(ids);
  }

  lemma {:induction false} NamesNext(cfg: seq<NodeCfg>, i: nat)
    requires i < |cfg|
    ensures Names(cfg[..i + 1]) == Names(cfg[..i]) + {cfg[i].id}
    ensures Pins(cfg[..i + 1]) == if cfg[i].id in Names(cfg[..i]) || cfg[i].numericId == 0 then Pins(cfg[..i])
                                  else Pins(cfg[..i])[cfg[i].id := cfg[i].numericId]
  {
    var a, b := cfg[..i], cfg[..i + 1];
    assert b[..i] == a && b == a + [cfg[i]];
    forall x
      ensures x in Names(b) <==> x in Names(a) || x == cfg[i].id
    {
      if x in Names(a) {
        var c :| c in a && c.id == x;
        assert c in b;
      }
      if x == cfg[i].id {
        assert b[i] in b;
      }
    }
  }

  // ---------- assigning ----------

  /** The two maps are each other's inverse. */
  ghost predicate Inverse(m: NodeIdMap) {
    && (forall x :: x in m.byString ==> m.byString[x] in m.byNumeric && m.byNumeric[m.byString[x]] == x)
    && (forall v :: v in m.byNumeric ==> m.byNumeric[v] in m.byString && m.byString[m.byNumeric[v]] == v)
  }

  function Assign(m: NodeIdMap, id: Name, v: nat): NodeIdMap { NodeIdMap(m.byNumeric[v := id], m.byString[id := v]) }

  lemma {:induction false} AssignInverse(m: NodeIdMap, id: Name, v: nat)
    requires Inverse(m) && id !in m.byString && v !in m.byNumeric
    ensures Inverse(Assign(m, id, v))
  {
  }

  lemma {:induction false} SameSize(m: NodeIdMap)
    requires Inverse(m)
    ensures |m.byNumeric| == |m.byString|
    decreases |m.byString|
  {
    if m.byString == map[] {
      assert m.byNumeric == map[];
    } else {
      var x :| x in m.byString;
      var v := m.byString[x];
      var m' := NodeIdMap(m.byNumeric - {v}, m.byString - {x});
      assert m'.byString.Keys == m.byString.Keys - {x} && m'.byNumeric.Keys == m.byNumeric.Keys - {v};
      SameSize(m');
    }
  }

  ghost function Range(lo: nat, hi: nat): (r: set<nat>)
    ensures forall v :: v in r <==> lo <= v < hi
  {
    if lo >= hi then {} else Range(lo, hi - 1) + {hi - 1}
  }

  lemma {:induction false} RangeSize(lo: nat, hi: nat)
    requires lo <= hi
    ensures |Range(lo, hi)| == hi - lo
    decreases hi - lo
  {
    if lo < hi {
      RangeSize(lo, hi - 1);
    }
  }

  lemma {:induction false} SubsetSize<T>(a: set<T>, b: set<T>)
    requires a <= b
    ensures |a| <= |b| && (|a| == |b| ==> a == b)
  {
    assert b == a + (b - a);
  }

  /** A sorted list has as many elements as its set. */
  lemma {:induction false} SortedSize(s: seq<Name>, t: set<Name>)
    requires Sorted(s) && forall x :: x in t <==> x in s
    ensures |t| == |s|
  {
    if s == [] {
      assert t == {};
    } else {
      var last, init := s[|s| - 1], s[..|s| - 1];
      assert s == init + [last];
      forall x
        ensures x in t - {last} <==> x in init
      {
        if x in init {
          var i :| 0 <= i < |init| && init[i] == x;
          LessTotal(s[i], last);
        }
      }
      SortedSize(init, t - {last});
    }
  }

  /** While a node has no id yet, not every id of a space that holds all nodes is taken. */
  lemma {:induction false} SomeFree(m: NodeIdMap, names: set<Name>, id: Name, lo: nat, hi: nat)
    requires Inverse(m) && m.byString.Keys <= names && id in names && id !in m.byString && lo <= hi && |names| <= hi - lo
    ensures exists v :: lo <= v < hi && v !in m.byNumeric
  {
    RangeSize(lo, hi);
    SameSize(m);
    SubsetSize(m.byString.Keys, names - {id});
    assert |names - {id}| == |names| - 1;
    if forall v :: lo <= v < hi ==> v in m.byNumeric {
      SubsetSize(Range(lo, hi), m.byNumeric.Keys);
      assert false;
    }
  }

  // ---------- the two passes ----------

  /** The first `i` names. */
  ghost function Done(s: seq<Name>, i: nat): (d: set<Name>)
    requires i <= |s|
    ensures forall x :: x in d <==> x in s[..i]
  {
    set x | x in s[..i]
  }

  lemma {:induction false} DoneNext(s: seq<Name>, i: nat)
    requires Sorted(s) && i < |s|
    ensures Done(s, i + 1) == Done(s, i) + {s[i]} && s[i] !in Done(s, i)
    ensures forall x :: x in Done(s, i) ==> Less(x, s[i])
  {
    assert s[..i + 1] == s[..i] + [s[i]];
    forall x | x in s[..i]
      ensures Less(x, s[i]) && x != s[i]
    {
      var j :| 0 <= j < i && s[j] == x;
      LessTotal(s[j], s[i]);
    }
  }

  /** The pins of the names that are done are assigned, and nothing else. */
  ghost predicate Pinned(pins: map<Name, nat>, done: set<Name>, m: NodeIdMap) {
    && Inverse(m) && (forall x :: x in m.byString <==> x in pins && x in done)
    && (forall x :: x in m.byString ==> m.byString[x] == pins[x] && FIRST_ID <= pins[x] <= MAX_ID)
  }

  lemma {:induction false} PinnedNext(pins: map<Name, nat>, done: set<Name>, m: NodeIdMap, id: Name)
    requires Pinned(pins, done, m) && id in pins && id !in done
    ensures PinsOk(pins) ==> FIRST_ID <= pins[id] <= MAX_ID && pins[id] !in m.byNumeric
    ensures FIRST_ID <= pins[id] <= MAX_ID && pins[id] !in m.byNumeric ==> Pinned(pins, done + {id}, Assign(m, id, pins[id]))
  {
    if pins[id] in m.byNumeric {
      var y := m.byNumeric[pins[id]];
      assert y in m.byString && pins[y] == pins[id] && y != id;
    } else {
      AssignInverse(m, id, pins[id]);
    }
  }

  method AssignPins(pins: map<Name, nat>, s: seq<Name>) returns (m: NodeIdMap, ok: bool)
    requires Sorted(s) && forall x :: x in pins ==> x in s
    ensures ok <==> PinsOk(pins)
    ensures ok ==> Pinned(pins, pins.Keys, m)
  {
    m := NodeIdMap(map[], map[]);
    for i := 0 to |s|
      invariant Pinned(pins, Done(s, i), m)
    {
      var id := s[i];
      DoneNext(s, i);
      if id !in pins {
        continue;
      }
      var v := pins[id];
      PinnedNext(pins, Done(s, i), m, id);
      if v < FIRST_ID || v > MAX_ID || v in m.byNumeric {
        return m, false;
      }
      m := Assign(m, id, v);
    }
    AllPinned(pins, s, m);
    ok := true;
  }

  lemma {:induction false} AllPinned(pins: map<Name, nat>, s: seq<Name>, m: NodeIdMap)
    requires Pinned(pins, Done(s, |s|), m) && forall x :: x in pins ==> x in s
    ensures PinsOk(pins) && Pinned(pins, pins.Keys, m)
  {
    assert s[..|s|] == s;
  }

  /** All pins and the unpinned ones among the names that are done are assigned, each of these with
      everything below it taken; everything below `next` is taken. */
  ghost predicate Packed(pins: map<Name, nat>, done: set<Name>, m: NodeIdMap, next: nat) {
    && Inverse(m) && FIRST_ID <= next
    && m.byString.Keys == pins.Keys + done
    && (forall x :: x in m.byString ==> FIRST_ID <= m.byString[x] <= MAX_ID)
    && (forall x :: x in pins ==> m.byString[x] == pins[x])
    && (forall x, v :: x in m.byString && x !in pins && FIRST_ID <= v < m.byString[x] ==> TakenBefore(m.byString, pins, x, v))
    && (forall v :: FIRST_ID <= v < next ==> v in m.byNumeric)
  }

  lemma {:induction false} PackedStart(pins: map<Name, nat>, m: NodeIdMap)
    requires Pinned(pins, pins.Keys, m)
    ensures Packed(pins, {}, m, FIRST_ID)
  {
  }

  lemma {:induction false} TakenStays(m: NodeIdMap, pins: map<Name, nat>, id: Name, next: nat, x: Name, v: nat)
    requires id !in m.byString && TakenBefore(m.byString, pins, x, v)
    ensures TakenBefore(Assign(m, id, next).byString, pins, x, v)
  {
    var y :| y in m.byString && m.byString[y] == v && (y in pins || Less(y, x));
    assert y in Assign(m, id, next).byString;
  }

  lemma {:induction false} PackedNext(pins: map<Name, nat>, done: set<Name>, m: NodeIdMap, next: nat, id: Name)
    requires Packed(pins, done, m, next) && id !in pins && id !in done && next !in m.byNumeric && next <= MAX_ID
    requires forall x :: x in done ==> Less(x, id)
    ensures Packed(pins, done + {id}, Assign(m, id, next), next + 1)
  {
    var m' := Assign(m, id, next);
    AssignInverse(m, id, next);
    forall x, v | x in m'.byString && x !in pins && FIRST_ID <= v < m'.byString[x]
      ensures TakenBefore(m'.byString, pins, x, v)
    {
      if x == id {
        var y := m.byNumeric[v];
        assert y in m'.byString && m'.byString[y] == v;
      } else {
        TakenStays(m, pins, id, next, x, v);
      }
    }
  }

  lemma {:induction false} PackedAll(cfg: seq<NodeCfg>, s: seq<Name>, m: NodeIdMap, next: nat)
    requires Packed(Pins(cfg), Done(s, |s|), m, next) && (forall x :: x in s <==> x in Names(cfg))
    requires forall x :: x in Pins(cfg) ==> x in s
    ensures IsAllocation(Names(cfg), Pins(cfg), m.byString) && Inverse(m)
  {
    assert s[..|s|] == s;
    assert m.byString.Keys == Names(cfg);
  }

  /** The lowest id that is not taken; there is one. */
  method LowestFree(m: NodeIdMap, next0: nat) returns (next: nat)
    requires exists v :: FIRST_ID <= v < MAX_ID + 1 && v !in m.byNumeric
    requires FIRST_ID <= next0 && forall v :: FIRST_ID <= v < next0 ==> v in m.byNumeric
    ensures next0 <= next <= MAX_ID && next !in m.byNumeric && forall v :: FIRST_ID <= v < next ==> v in m.byNumeric
  {
    next := next0;
    ghost var free :| FIRST_ID <= free <= MAX_ID && free !in m.byNumeric;
    while next in m.byNumeric
      invariant next0 <= next <= free && forall v :: FIRST_ID <= v < next ==> v in m.byNumeric
      decreases free - next
    {
      next := next + 1;
    }
  }

  /** Numbers the nodes. It fails exactly if there are too many, or a pin is out of range or given
      twice; the id space never runs out after that. */
  method BuildNodeIdMap(cfg: seq<NodeCfg>) returns (r: Option<NodeIdMap>)
    ensures r.Some? <==> |Names(cfg)| <= CAPACITY && PinsOk(Pins(cfg))
    ensures r.Some? ==> IsAllocation(Names(cfg), Pins(cfg), r.value.byString) && Inverse(r.value)
  {
    var ids, pins := Collect(cfg);
    SortedSize(ids, Names(cfg));
    if |ids| > CAPACITY {
      return None;
    }
    forall x | x in pins
      ensures x in ids
    {
      PinsNamed(cfg, x);
    }
    var m, ok := AssignPins(pins, ids);
    if !ok {
      return None;
    }
    var next: nat := FIRST_ID;
    PackedStart(pins, m);
    for i := 0 to |ids|
      invariant Packed(pins, Done(ids, i), m, next)
    {
      DoneNext(ids, i);
      if ids[i] in pins {
        continue;
      }
      m, next := AssignLowest(pins, ids, i, m, next, Names(cfg));
    }
    PackedAll(cfg, ids, m, next);
    r := Some(m);
  }

  /** Gives the next unpinned node the lowest free id. */
  method AssignLowest(ghost pins: map<Name, nat>, ids: seq<Name>, i: nat, m: NodeIdMap, next: nat, ghost names: set<Name>)
    returns (m': NodeIdMap, next': nat)
    requires Sorted(ids) && i < |ids| && Packed(pins, Done(ids, i), m, next) && ids[i] !in pins
    requires (forall x :: x in ids <==> x in names) && pins.Keys <= names && |names| <= CAPACITY
    ensures Packed(pins, Done(ids, i + 1), m', next')
  {
    DoneNext(ids, i);
    SomeFree(m, names, ids[i], FIRST_ID, MAX_ID + 1);
    next' := LowestFree(m, next);
    PackedNext(pins, Done(ids, i), m, next', ids[i]);
    m', next' := Assign(m, ids[i], next'), next' + 1;
  }

  lemma {:induction false} PinsNamed(cfg: seq<NodeCfg>, x: Name)
    requires x in Pins(cfg)
    ensures x in Names(cfg)
  {
    var before := cfg[..|cfg| - 1];
    if x in Pins(before) {
      PinsNamed(before, x);
      var c :| c in before && c.id == x;
      assert c in cfg;
    } else {
      assert cfg[|cfg| - 1] in cfg;
    }
  }

  ghost predicate DistinctNames(cfg: seq<NodeCfg>) { forall i, j :: 0 <= i < j < |cfg| ==> cfg[i].id != cfg[j].id }

  /** With distinct names every entry pins what it says. */
  lemma {:induction false} PinOf(cfg: seq<NodeCfg>, k: nat)
    requires DistinctNames(cfg) && k < |cfg|
    ensures cfg[k].id in Pins(cfg) <==> cfg[k].numericId != 0
    ensures cfg[k].id in Pins(cfg) ==> Pins(cfg)[cfg[k].id] == cfg[k].numericId
  {
    var before, c := cfg[..|cfg| - 1], cfg[|cfg| - 1];
    if k < |cfg| - 1 {
      PinOf(before, k);
    } else {
      assert c.id !in Names(before);
      if c.id in Pins(before) {
        PinsNamed(before, c.id);
      }
    }
  }

  lemma {:induction false} Twice(cfg: seq<NodeCfg>, i: nat, j: nat)
    requires i < j < |cfg| && cfg[i] == cfg[j]
    ensures multiset(cfg)[cfg[i]] >= 2
  {
    assert cfg == cfg[..j] + cfg[j..];
    assert cfg[..j][i] == cfg[i] && cfg[j..][0] == cfg[i];
    assert cfg[i] in multiset(cfg[..j]) && cfg[i] in multiset(cfg[j..]);
  }

  lemma {:induction false} Once(cfg: seq<NodeCfg>, c: NodeCfg)
    requires DistinctNames(cfg)
    ensures multiset(cfg)[c] <= 1
  {
    if cfg != [] {
      var k := |cfg| - 1;
      assert cfg == cfg[..k] + [cfg[k]];
      Once(cfg[..k], c);
      assert c == cfg[k] ==> c !in cfg[..k];
      assert c !in cfg[..k] ==> multiset(cfg[..k])[c] == 0;
    }
  }

  lemma {:induction false} DistinctReordered(cfg: seq<NodeCfg>, cfg': seq<NodeCfg>)
    requires multiset(cfg) == multiset(cfg') && DistinctNames(cfg)
    ensures DistinctNames(cfg')
  {
    forall i, j | 0 <= i < j < |cfg'|
      ensures cfg'[i].id != cfg'[j].id
    {
      assert cfg'[i] in multiset(cfg') && cfg'[j] in multiset(cfg');
      assert cfg'[i] in cfg && cfg'[j] in cfg;
      if cfg'[i] == cfg'[j] {
        Twice(cfg', i, j);
        Once(cfg, cfg'[i]);
      }
    }
  }

  /** A name that pins in one order pins the same in the other. */
  lemma {:induction false} PinsReordered(cfg: seq<NodeCfg>, cfg': seq<NodeCfg>, x: Name)
    requires multiset(cfg) == multiset(cfg') && DistinctNames(cfg) && DistinctNames(cfg') && x in Pins(cfg)
    ensures x in Pins(cfg') && Pins(cfg')[x] == Pins(cfg)[x]
  {
    PinsNamed(cfg, x);
    var c :| c in cfg && c.id == x;
    var i :| 0 <= i < |cfg| && cfg[i] == c;
    PinOf(cfg, i);
    assert c in multiset(cfg');
    var j :| 0 <= j < |cfg'| && cfg'[j] == c;
    PinOf(cfg', j);
  }

  lemma {:induction false} NamesReordered(cfg: seq<NodeCfg>, cfg': seq<NodeCfg>)
    requires multiset(cfg) == multiset(cfg')
    ensures Names(cfg) == Names(cfg')
  {
    forall c
      ensures c in cfg <==> c in cfg'
    {
      assert c in cfg <==> c in multiset(cfg);
      assert c in cfg' <==> c in multiset(cfg');
    }
  }

  lemma {:induction false} OneAllocation(names: set<Name>, pins: map<Name, nat>, ids: map<Name, nat>, ids': map<Name, nat>, s: seq<Name>)
    requires IsAllocation(names, pins, ids) && IsAllocation(names, pins, ids')
    requires Sorted(s) && forall x :: x in names <==> x in s
    ensures ids == ids'
  {
    forall x | x in ids
      ensures ids[x] == ids'[x]
    {
      var i :| 0 <= i < |s| && s[i] == x;
      AllocationUnique(names, pins, ids, ids', s, i);
    }
  }

  lemma {:induction false} SamePins(cfg: seq<NodeCfg>, cfg': seq<NodeCfg>)
    requires multiset(cfg) == multiset(cfg') && DistinctNames(cfg)
    ensures Pins(cfg) == Pins(cfg')
  {
    DistinctReordered(cfg, cfg');
    forall x
      ensures x in Pins(cfg) <==> x in Pins(cfg')
      ensures x in Pins(cfg) ==> Pins(cfg')[x] == Pins(cfg)[x]
    {
      if x in Pins(cfg) {
        PinsReordered(cfg, cfg', x);
      } else if x in Pins(cfg') {
        PinsReordered(cfg', cfg, x);
      }
    }
  }

  /** A configuration listed in another order is accepted just as well, and gives every node the
      same number. */
  lemma {:induction false} OrderDoesNotMatter(cfg: seq<NodeCfg>, cfg': seq<NodeCfg>, ids: map<Name, nat>, ids': map<Name, nat>)
    requires multiset(cfg) == multiset(cfg') && DistinctNames(cfg)
    ensures Names(cfg) == Names(cfg') && Pins(cfg) == Pins(cfg')
    ensures IsAllocation(Names(cfg), Pins(cfg), ids) && IsAllocation(Names(cfg'), Pins(cfg'), ids') ==> ids == ids'
  {
    NamesReordered(cfg, cfg');
    SamePins(cfg, cfg');
    if IsAllocation(Names(cfg), Pins(cfg), ids) && IsAllocation(Names(cfg'), Pins(cfg'), ids') {
      var s := NameList(cfg);
      OneAllocation(Names(cfg), Pins(cfg), ids, ids', s);
    }
  }

  lemma {:induction false} NameList(cfg: seq<NodeCfg>) returns (s: seq<Name>)
    ensures Sorted(s) && forall x :: x in Names(cfg) <==> x in s
  {
    var all := seq(|cfg|, k requires 0 <= k < |cfg| => cfg[k].id);
    s := SortNames(all);
    SortNamesSorted(all);
    forall x
      ensures x in Names(cfg) <==> x in all
    {
      if x in Names(cfg) {
        var c :| c in cfg && c.id == x;
        var k :| 0 <= k < |cfg| && cfg[k] == c;
        assert all[k] == x;
      }
    }
  }

  // ---------- lookups ----------

  function ToNumeric(m: NodeIdMap, id: Name): Option<nat> { if id in m.byString then Some(m.byString[id]) else None }

  function ToString(m: NodeIdMap, v: nat): Option<Name> { if v != 0 && v in m.byNumeric then Some(m.byNumeric[v]) else None }

  /** Both ways round: a name and its number find each other. */
  lemma {:induction false} LookupsInverse(names: set<Name>, pins: map<Name, nat>, m: NodeIdMap, id: Name, v: nat)
    requires IsAllocation(names, pins, m.byString) && Inverse(m)
    ensures ToNumeric(m, id) == Some(v) <==> ToString(m, v) == Some(id)
    ensures ToNumeric(m, id).Some? <==> id in names
  {
  }
}
