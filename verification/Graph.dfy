/** The graph language of the central configuration. */
module Graph {
  import opened Basics
  import opened GraphOrder
  import opened GraphSpec
  import opened GraphTopo

  // ---------- pass 0: names ----------

  lemma {:induction false} GroupsNext(lines: seq<Line>, i: nat)
    requires i < |lines|
    ensures Groups(lines[..i + 1]) ==
            if lines[i].Definition? then Groups(lines[..i])[lines[i].name := Tokens(lines[i].members)] else Groups(lines[..i])
  {
    assert lines[..i + 1][..i] == lines[..i];
  }

  lemma {:induction false} GroupsHas(lines: seq<Line>, i: nat, g: Name)
    requires i <= |lines|
    ensures g in Groups(lines[..i]) <==> exists k :: 0 <= k < i && lines[k].Definition? && lines[k].name == g
  {
    if i > 0 {
      GroupsHas(lines, i - 1, g);
      GroupsNext(lines, i - 1);
    }
  }

  /** Definitions are read and their names are not names of nodes. */
  predicate NamesOk(lines: seq<Line>, nodes: seq<Name>, n: nat)
    requires n <= |lines|
  {
    forall i :: 0 <= i < n ==> !lines[i].BadDefinition? && (lines[i].Definition? ==> lines[i].name !in nodes)
  }

  method CollectSymbols(lines: seq<Line>, nodes: seq<Name>) returns (symbols: seq<Name>, ok: bool)
    ensures ok <==> NamesOk(lines, nodes, |lines|)
    ensures ok ==> forall x :: x in symbols <==> IsSymbol(Groups(lines), nodes, x)
  {
    symbols := nodes;
    for i := 0 to |lines|
      invariant NamesOk(lines, nodes, i) && forall x :: x in symbols <==> IsSymbol(Groups(lines[..i]), nodes, x)
    {
      if lines[i].BadDefinition? {
        return symbols, false;
      }
      GroupsNext(lines, i);
      if lines[i].Definition? {
        if lines[i].name in nodes {
          return symbols, false;
        }
        symbols := symbols + [lines[i].name];
      }
    }
    assert lines[..|lines|] == lines;
    return SortNames(symbols), true;
  }

  // ---------- pass 1: lines ----------

  lemma {:induction false} TokensNext(pieces: seq<Name>, i: nat)
    requires i < |pieces|
    ensures Tokens(pieces[i..]) == (if pieces[i] == "" then [] else [pieces[i]]) + Tokens(pieces[i + 1..])
  {
    assert pieces[i..][1..] == pieces[i + 1..];
  }

  lemma {:induction false} TokenOf(pieces: seq<Name>, i: nat)
    requires i < |pieces| && pieces[i] != ""
    ensures pieces[i] in Tokens(pieces)
  {
  }

  method ParseSymbolList(pieces: seq<Name>, symbols: seq<Name>) returns (r: Option<seq<Name>>)
    ensures r.Some? <==> Tokens(pieces) != [] && forall x :: x in Tokens(pieces) ==> x in symbols
    ensures r.Some? ==> multiset(r.value) == multiset(Tokens(pieces)) && NonDecreasing(r.value)
  {
    var line := [];
    for i := 0 to |pieces|
      invariant line + Tokens(pieces[i..]) == Tokens(pieces) && forall x :: x in line ==> x in symbols
    {
      TokensNext(pieces, i);
      if pieces[i] == "" {
        continue;
      }
      if pieces[i] !in symbols {
        TokenOf(pieces, i);
        return None;
      }
      line := line + [pieces[i]];
    }
    assert line == Tokens(pieces);
    if |line| == 0 {
      return None;
    }
    SortEachOrdered(line);
    return Some(SortEach(line));
  }

  /** A pair of one link line. */
  ghost predicate PairOn(ms: seq<Name>, p: Pair) {
    exists u, v :: TwoOf(ms, u, v) && p == SortedPair(u, v)
  }

  lemma {:induction false} TwoOfNext(ms: seq<Name>, x: Name, p: Pair)
    ensures PairOn(ms + [x], p) <==> PairOn(ms, p) || exists y :: y in ms && p == SortedPair(y, x)
  {
    var ms' := ms + [x];
    if PairOn(ms', p) {
      var u, v :| TwoOf(ms', u, v) && p == SortedPair(u, v);
      SortedPairSymmetric(u, v);
      if u in ms && v in ms && (u == v ==> multiset(ms)[u] >= 2) {
        assert TwoOf(ms, u, v);
      } else if v == x && u in ms {
      } else {
        assert u == x && v in ms;
      }
    }
    if PairOn(ms, p) {
      var u, v :| TwoOf(ms, u, v) && p == SortedPair(u, v);
      assert TwoOf(ms', u, v);
    }
    if y :| y in ms && p == SortedPair(y, x) {
      assert TwoOf(ms', y, x);
    }
  }

  /** Pairs up the entries of a line. */
  method Interconnect(names: seq<Name>) returns (pairs: seq<Pair>)
    ensures forall p :: p in pairs <==> PairOn(names, p)
  {
    pairs := [];
    assert forall p :: !PairOn(names[..0], p);
    for i := 0 to |names|
      invariant forall p :: p in pairs <==> PairOn(names[..i], p)
    {
      var more := [];
      for j := 0 to i
        invariant forall p :: p in more <==> exists k :: 0 <= k < j && p == SortedPair(names[k], names[i])
      {
        more := more + [SortedPair(names[j], names[i])];
      }
      assert names[..i + 1] == names[..i] + [names[i]];
      forall p
        ensures p in pairs + more <==> PairOn(names[..i + 1], p)
      {
        TwoOfNext(names[..i], names[i], p);
        if k :| 0 <= k < i && p == SortedPair(names[k], names[i]) {
          assert names[k] in names[..i];
        }
      }
      pairs := pairs + more;
    }
    assert names[..|names|] == names;
  }

  lemma {:induction false} PairOnSame(ms: seq<Name>, ns: seq<Name>, p: Pair)
    requires multiset(ms) == multiset(ns)
    ensures PairOn(ms, p) <==> PairOn(ns, p)
  {
    assert forall x :: x in ms <==> x in multiset(ms);
    assert forall x :: x in ns <==> x in multiset(ns);
    if PairOn(ms, p) {
      var u, v :| TwoOf(ms, u, v) && p == SortedPair(u, v);
      assert TwoOf(ns, u, v);
    }
    if PairOn(ns, p) {
      var u, v :| TwoOf(ns, u, v) && p == SortedPair(u, v);
      assert TwoOf(ms, u, v);
    }
  }

  /** The groups and the nodes of a definition. */
  method SplitMembers(lst: seq<Name>, nodes: seq<Name>) returns (deps: seq<Name>, own: seq<Name>)
    ensures forall x :: x in deps <==> x in lst && x !in nodes
    ensures forall x :: x in own <==> x in lst && x in nodes
  {
    deps, own := [], [];
    for i := 0 to |lst|
      invariant forall x :: x in deps <==> x in lst[..i] && x !in nodes
      invariant forall x :: x in own <==> x in lst[..i] && x in nodes
    {
      assert lst[..i + 1] == lst[..i] + [lst[i]];
      if lst[i] !in nodes {
        deps := deps + [lst[i]];
      } else {
        own := own + [lst[i]];
      }
    }
    assert lst[..|lst|] == lst;
    deps := SortNames(deps);
  }

  datatype Parsed = Parsed(topo: Lists, exp: Lists, pairs: seq<Pair>)

  ghost predicate SplitOk(mem: Lists, nodes: seq<Name>, st: Parsed, g: Name) {
    && (forall x :: x in Get(st.topo, g) <==> x in Get(mem, g) && x !in nodes)
    && (forall x :: x in Get(st.exp, g) <==> x in Get(mem, g) && x in nodes)
  }

  ghost predicate LinkPair(lines: seq<Line>, n: nat, p: Pair)
    requires n <= |lines|
  {
    exists k :: 0 <= k < n && lines[k].Link? && PairOn(Tokens(lines[k].members), p)
  }

  /** After the first `n` lines. */
  ghost predicate ParsedOk(lines: seq<Line>, nodes: seq<Name>, n: nat, st: Parsed) {
    && n <= |lines| && st.topo.Keys == Groups(lines[..n]).Keys && DefinedOnce(lines[..n])
    && (forall g :: SplitOk(Groups(lines[..n]), nodes, st, g))
    && (forall p :: p in st.pairs <==> LinkPair(lines, n, p))
    && (forall k :: 0 <= k < n ==> LineOk(Groups(lines), nodes, lines[k]))
  }

  lemma {:induction false} DefinitionParsed(lines: seq<Line>, nodes: seq<Name>, i: nat, st: Parsed, deps: seq<Name>, own: seq<Name>)
    requires ParsedOk(lines, nodes, i, st) && i < |lines| && lines[i].Definition? && lines[i].name !in st.topo
    requires LineOk(Groups(lines), nodes, lines[i])
    requires forall x :: x in deps <==> x in Tokens(lines[i].members) && x !in nodes
    requires forall x :: x in own <==> x in Tokens(lines[i].members) && x in nodes
    ensures var g := lines[i].name;
            ParsedOk(lines, nodes, i + 1, st.(topo := st.topo[g := deps], exp := st.exp[g := Get(st.exp, g) + own]))
  {
    var g := lines[i].name;
    var st' := st.(topo := st.topo[g := deps], exp := st.exp[g := Get(st.exp, g) + own]);
    GroupsNext(lines, i);
    var mem, mem' := Groups(lines[..i]), Groups(lines[..i + 1]);
    forall h
      ensures SplitOk(mem', nodes, st', h)
    {
      assert SplitOk(mem, nodes, st, h);
    }
    DefinedOnceNext(lines, i);
    forall p
      ensures p in st'.pairs <==> LinkPair(lines, i + 1, p)
    {
      LinkPairNext(lines, i, p);
    }
  }

  lemma {:induction false} DefinedOnceNext(lines: seq<Line>, i: nat)
    requires i < |lines| && DefinedOnce(lines[..i])
    ensures DefinedOnce(lines[..i + 1]) <==> !lines[i].Definition? || lines[i].name !in Groups(lines[..i])
  {
    var l := lines[..i + 1];
    if lines[i].Definition? {
      GroupsHas(lines, i, lines[i].name);
      if lines[i].name in Groups(lines[..i]) {
        var k :| 0 <= k < i && lines[k].Definition? && lines[k].name == lines[i].name;
        assert l[k] == lines[k] && l[i] == lines[i];
      }
    }
    forall a, b | 0 <= a < b < i && l[a].Definition? && l[b].Definition?
      ensures l[a].name != l[b].name
    {
      assert lines[..i][a] == l[a] && lines[..i][b] == l[b];
    }
  }

  lemma {:induction false} LinkPairNext(lines: seq<Line>, i: nat, p: Pair)
    requires i < |lines|
    ensures LinkPair(lines, i + 1, p) <==> LinkPair(lines, i, p) || (lines[i].Link? && PairOn(Tokens(lines[i].members), p))
  {
  }

  lemma {:induction false} LinkParsed(lines: seq<Line>, nodes: seq<Name>, i: nat, st: Parsed, pairs: seq<Pair>)
    requires ParsedOk(lines, nodes, i, st) && i < |lines| && lines[i].Link? && LineOk(Groups(lines), nodes, lines[i])
    requires forall p :: p in pairs <==> p in st.pairs || PairOn(Tokens(lines[i].members), p)
    ensures ParsedOk(lines, nodes, i + 1, st.(pairs := pairs))
  {
    GroupsNext(lines, i);
    var mem, st' := Groups(lines[..i]), st.(pairs := pairs);
    forall h
      ensures SplitOk(mem, nodes, st', h)
    {
      assert SplitOk(mem, nodes, st, h);
    }
    DefinedOnceNext(lines, i);
    forall p
      ensures p in pairs <==> LinkPair(lines, i + 1, p)
    {
      LinkPairNext(lines, i, p);
    }
  }

  /** One line. It fails exactly if the line is not well formed or defines a group again. */
  method ParseLine(lines: seq<Line>, nodes: seq<Name>, symbols: seq<Name>, i: nat, st: Parsed) returns (r: Option<Parsed>)
    requires ParsedOk(lines, nodes, i, st) && i < |lines| && NamesOk(lines, nodes, |lines|)
    requires forall x :: x in symbols <==> IsSymbol(Groups(lines), nodes, x)
    ensures r.Some? <==> LineOk(Groups(lines), nodes, lines[i]) && DefinedOnce(lines[..i + 1])
    ensures r.Some? ==> ParsedOk(lines, nodes, i + 1, r.value)
  {
    DefinedOnceNext(lines, i);
    if lines[i].Definition? {
      var g := lines[i].name;
      if g in st.topo {
        return None;
      }
      var lst := ParseSymbolList(lines[i].members, symbols);
      if lst.None? {
        return None;
      }
      SameElements(lst.value, Tokens(lines[i].members));
      var deps, own := SplitMembers(lst.value, nodes);
      DefinitionParsed(lines, nodes, i, st, deps, own);
      r := Some(st.(topo := st.topo[g := deps], exp := st.exp[g := Get(st.exp, g) + own]));
    } else {
      var names := ParseSymbolList(lines[i].members, symbols);
      if names.None? {
        return None;
      }
      SameElements(names.value, Tokens(lines[i].members));
      if |names.value| < 2 {
        return None;
      }
      var more := Interconnect(names.value);
      var pairs := SortPairs(st.pairs + more);
      forall p
        ensures p in pairs <==> p in st.pairs || PairOn(Tokens(lines[i].members), p)
      {
        PairOnSame(names.value, Tokens(lines[i].members), p);
      }
      LinkParsed(lines, nodes, i, st, pairs);
      r := Some(st.(pairs := pairs));
    }
  }

  lemma {:induction false} SameElements(s: seq<Name>, t: seq<Name>)
    requires multiset(s) == multiset(t)
    ensures |s| == |t| && forall x :: x in s <==> x in t
  {
    assert |multiset(s)| == |s| && |multiset(t)| == |t|;
    assert forall x :: x in s <==> x in multiset(s);
    assert forall x :: x in t <==> x in multiset(t);
  }

  method ParseLines(lines: seq<Line>, nodes: seq<Name>, symbols: seq<Name>) returns (r: Option<Parsed>)
    requires NamesOk(lines, nodes, |lines|) && forall x :: x in symbols <==> IsSymbol(Groups(lines), nodes, x)
    ensures r.Some? <==> WellFormed(lines, nodes)
    ensures r.Some? ==> ParsedOk(lines, nodes, |lines|, r.value)
  {
    r := Some(Parsed(map[], map[], []));
    for i := 0 to |lines|
      invariant r.Some? && ParsedOk(lines, nodes, i, r.value)
    {
      var next := ParseLine(lines, nodes, symbols, i, r.value);
      if next.None? {
        DefinedOncePrefix(lines, i + 1);
        return None;
      }
      r := next;
    }
    assert lines[..|lines|] == lines;
  }

  lemma {:induction false} DefinedOncePrefix(lines: seq<Line>, n: nat)
    requires n <= |lines|
    ensures DefinedOnce(lines) ==> DefinedOnce(lines[..n])
  {
  }

  // ---------- pass 2 starts with every group waiting ----------

  lemma {:induction false} GroupsLineOk(lines: seq<Line>, nodes: seq<Name>, g: Name, n: nat)
    requires n <= |lines| && g in Groups(lines[..n]) && forall k :: 0 <= k < n ==> LineOk(Groups(lines), nodes, lines[k])
    ensures g !in nodes && TokensOk(Groups(lines), nodes, Groups(lines[..n])[g])
  {
    GroupsNext(lines, n - 1);
    if !(lines[n - 1].Definition? && lines[n - 1].name == g) {
      GroupsLineOk(lines, nodes, g, n - 1);
    }
  }

  lemma {:induction false} StartProgress(lines: seq<Line>, nodes: seq<Name>, st: Parsed)
    requires ParsedOk(lines, nodes, |lines|, st)
    ensures NodesApart(Groups(lines), nodes) && Progress(Groups(lines), nodes, st.topo, st.exp, map[]) && st.topo.Keys == Groups(lines).Keys
  {
    var mem := Groups(lines);
    assert lines[..|lines|] == lines;
    forall g | g in mem
      ensures g !in nodes && TokensOk(mem, nodes, mem[g])
    {
      GroupsLineOk(lines, nodes, g, |lines|);
    }
    forall k | k in st.topo
      ensures Waiting(mem, nodes, st.topo, st.exp, k)
    {
      assert SplitOk(mem, nodes, st, k);
      forall d
        ensures d in st.topo[k] <==> Member(mem, k, d) && d in st.topo
      {
        assert d in mem[k] ==> IsSymbol(mem, nodes, d);
      }
    }
  }

  // ---------- pass 3: nodes for names ----------

  ghost predicate ExpandsAll(mem: Lists, nodes: seq<Name>, exp: Lists) {
    forall k, n :: k in mem ==> (n in Get(exp, k) <==> Expands(mem, nodes, k, n))
  }

  method Resolve(ghost mem: Lists, nodes: seq<Name>, exp: Lists, s: Name) returns (r: seq<Name>)
    requires NodesApart(mem, nodes) && IsSymbol(mem, nodes, s) && ExpandsAll(mem, nodes, exp)
    ensures forall n :: n in r <==> Expands(mem, nodes, s, n)
  {
    if s in nodes {
      r := [s];
      forall n
        ensures n in r <==> Expands(mem, nodes, s, n)
      {
        NodeExpands(mem, nodes, s, n);
      }
    } else {
      r := Get(exp, s);
    }
  }

  /** The pairs of different nodes from two lists. */
  method Across(x: seq<Name>, y: seq<Name>) returns (pairs: seq<Pair>)
    ensures forall p :: p in pairs <==> CrossPair(x, y, p)
  {
    pairs := [];
    for i := 0 to |x|
      invariant forall p :: p in pairs <==> CrossPair(x[..i], y, p)
    {
      var more := [];
      for j := 0 to |y|
        invariant forall p :: p in more <==> exists k :: 0 <= k < j && x[i] != y[k] && p == SortedPair(x[i], y[k])
      {
        if x[i] != y[j] {
          more := more + [SortedPair(x[i], y[j])];
        }
      }
      assert x[..i + 1] == x[..i] + [x[i]];
      forall p
        ensures p in pairs + more <==> CrossPair(x[..i + 1], y, p)
      {
        CrossPairNext(x[..i], x[i], y, p);
        if k :| 0 <= k < |y| && x[i] != y[k] && p == SortedPair(x[i], y[k]) {
          assert y[k] in y;
        }
      }
      pairs := pairs + more;
    }
    assert x[..|x|] == x;
  }

  ghost predicate CrossPair(x: seq<Name>, y: seq<Name>, p: Pair) {
    exists a, b :: a in x && b in y && a != b && p == SortedPair(a, b)
  }

  lemma {:induction false} CrossPairNext(x: seq<Name>, c: Name, y: seq<Name>, p: Pair)
    ensures CrossPair(x + [c], y, p) <==> CrossPair(x, y, p) || exists b :: b in y && c != b && p == SortedPair(c, b)
  {
    if CrossPair(x + [c], y, p) {
      var a, b :| a in x + [c] && b in y && a != b && p == SortedPair(a, b);
      if a in x {
        assert CrossPair(x, y, p);
      }
    }
    if CrossPair(x, y, p) {
      var a, b :| a in x && b in y && a != b && p == SortedPair(a, b);
      assert a in x + [c];
    }
    if b :| b in y && c != b && p == SortedPair(c, b) {
      assert c in x + [c];
    }
  }

  /** The pairs of nodes that a pair of names stands for. */
  ghost predicate StandsFor(mem: Lists, nodes: seq<Name>, q: Pair, p: Pair) {
    exists a, b :: Expands(mem, nodes, q.v1, a) && Expands(mem, nodes, q.v2, b) && a != b && p == SortedPair(a, b)
  }

  method Rewrite(ghost mem: Lists, nodes: seq<Name>, exp: Lists, parsed: seq<Pair>) returns (pairs: seq<Pair>)
    requires NodesApart(mem, nodes) && ExpandsAll(mem, nodes, exp)
    requires forall q :: q in parsed ==> IsSymbol(mem, nodes, q.v1) && IsSymbol(mem, nodes, q.v2)
    ensures Increasing(pairs) && forall p :: p in pairs <==> exists q :: q in parsed && StandsFor(mem, nodes, q, p)
  {
    pairs := [];
    for i := 0 to |parsed|
      invariant Increasing(pairs) && forall p :: p in pairs <==> exists k :: 0 <= k < i && StandsFor(mem, nodes, parsed[k], p)
    {
      assert parsed[i] in parsed;
      var x := Resolve(mem, nodes, exp, parsed[i].v1);
      var y := Resolve(mem, nodes, exp, parsed[i].v2);
      var more := Across(x, y);
      forall p
        ensures p in more <==> StandsFor(mem, nodes, parsed[i], p)
      {
        CrossStands(mem, nodes, parsed[i], x, y, p);
      }
      SortIncreasing(pairs + more);
      pairs := SortPairs(pairs + more);
    }
    forall p
      ensures p in pairs <==> exists q :: q in parsed && StandsFor(mem, nodes, q, p)
    {
      if q :| q in parsed && StandsFor(mem, nodes, q, p) {
        var k :| 0 <= k < |parsed| && parsed[k] == q;
        assert StandsFor(mem, nodes, parsed[k], p);
      }
    }
  }

  lemma {:induction false} CrossStands(mem: Lists, nodes: seq<Name>, q: Pair, x: seq<Name>, y: seq<Name>, p: Pair)
    requires forall n :: n in x <==> Expands(mem, nodes, q.v1, n)
    requires forall n :: n in y <==> Expands(mem, nodes, q.v2, n)
    ensures CrossPair(x, y, p) <==> StandsFor(mem, nodes, q, p)
  {
    if CrossPair(x, y, p) {
      var a, b :| a in x && b in y && a != b && p == SortedPair(a, b);
      assert Expands(mem, nodes, q.v1, a) && Expands(mem, nodes, q.v2, b);
    }
    if StandsFor(mem, nodes, q, p) {
      var a, b :| Expands(mem, nodes, q.v1, a) && Expands(mem, nodes, q.v2, b) && a != b && p == SortedPair(a, b);
      assert a in x && b in y;
    }
  }

  // ---------- the whole ----------

  lemma {:induction false} TwoOfSorted(ms: seq<Name>, u: Name, v: Name)
    requires TwoOf(ms, u, v)
    ensures TwoOf(ms, SortedPair(u, v).v1, SortedPair(u, v).v2)
  {
  }

  lemma {:induction false} StandsForOn(mem: Lists, nodes: seq<Name>, l: Line, q: Pair, p: Pair)
    requires l.Link? && PairOn(Tokens(l.members), q) && StandsFor(mem, nodes, q, p)
    ensures Less(p.v1, p.v2) && (LinksOn(mem, nodes, l, p.v1, p.v2) || LinksOn(mem, nodes, l, p.v2, p.v1))
  {
    var ms := Tokens(l.members);
    var u, v :| TwoOf(ms, u, v) && q == SortedPair(u, v);
    TwoOfSorted(ms, u, v);
    var a, b :| Expands(mem, nodes, q.v1, a) && Expands(mem, nodes, q.v2, b) && a != b && p == SortedPair(a, b);
    assert LinksOn(mem, nodes, l, a, b);
    SortedPairSymmetric(a, b);
  }

  lemma {:induction false} LinksOnStands(mem: Lists, nodes: seq<Name>, l: Line, a: Name, b: Name) returns (q: Pair)
    requires LinksOn(mem, nodes, l, a, b) && Less(a, b)
    ensures PairOn(Tokens(l.members), q) && StandsFor(mem, nodes, q, Pair(a, b))
  {
    var u, v :| TwoOf(Tokens(l.members), u, v) && Expands(mem, nodes, u, a) && Expands(mem, nodes, v, b);
    q := SortedPair(u, v);
    LessTotal(a, b);
    SortedPairSymmetric(a, b);
    StandsForEither(mem, nodes, u, v, a, b);
  }

  lemma {:induction false} StandsForEither(mem: Lists, nodes: seq<Name>, u: Name, v: Name, a: Name, b: Name)
    requires Expands(mem, nodes, u, a) && Expands(mem, nodes, v, b) && a != b && SortedPair(a, b) == Pair(a, b) == SortedPair(b, a)
    ensures StandsFor(mem, nodes, Pair(u, v), Pair(a, b)) && StandsFor(mem, nodes, Pair(v, u), Pair(a, b))
  {
    assert b != a && Pair(a, b) == SortedPair(b, a);
  }

  lemma {:induction false} StandsForLinked(lines: seq<Line>, nodes: seq<Name>, q: Pair, p: Pair)
    requires LinkPair(lines, |lines|, q) && StandsFor(Groups(lines), nodes, q, p)
    ensures Less(p.v1, p.v2) && Linked(lines, nodes, p.v1, p.v2)
  {
    var k :| 0 <= k < |lines| && lines[k].Link? && PairOn(Tokens(lines[k].members), q);
    StandsForOn(Groups(lines), nodes, lines[k], q, p);
    LessTotal(p.v1, p.v2);
    if LinksOn(Groups(lines), nodes, lines[k], p.v2, p.v1) {
      assert Linked(lines, nodes, p.v2, p.v1);
      LinkedSymmetric(lines, nodes, p.v2, p.v1);
    }
  }

  lemma {:induction false} LinkedStandsFor(lines: seq<Line>, nodes: seq<Name>, a: Name, b: Name)
    requires Linked(lines, nodes, a, b) && Less(a, b)
    ensures exists q :: LinkPair(lines, |lines|, q) && StandsFor(Groups(lines), nodes, q, Pair(a, b))
  {
    var k :| 0 <= k < |lines| && LinksOn(Groups(lines), nodes, lines[k], a, b);
    var q := LinksOnStands(Groups(lines), nodes, lines[k], a, b);
    assert LinkPair(lines, |lines|, q);
  }

  /** Link lines only name known symbols. */
  lemma {:induction false} PairSymbols(lines: seq<Line>, nodes: seq<Name>, q: Pair)
    requires LinkPair(lines, |lines|, q) && forall k :: 0 <= k < |lines| ==> LineOk(Groups(lines), nodes, lines[k])
    ensures IsSymbol(Groups(lines), nodes, q.v1) && IsSymbol(Groups(lines), nodes, q.v2)
  {
    var k :| 0 <= k < |lines| && lines[k].Link? && PairOn(Tokens(lines[k].members), q);
    var u, v :| TwoOf(Tokens(lines[k].members), u, v) && q == SortedPair(u, v);
    assert LineOk(Groups(lines), nodes, lines[k]);
  }

  /** The graph is rejected exactly if a line is not well formed, groups contain each other in a
      circle, or a group has no name; otherwise the result is the sorted list of the pairs of
      different nodes that the lines connect. */
  method ParseGraph(lines: seq<Line>, nodes: seq<Name>) returns (r: Option<seq<Pair>>)
    ensures r.Some? <==> WellFormed(lines, nodes) && !Cyclic(Groups(lines)) && "" !in Groups(lines)
    ensures r.Some? ==> Increasing(r.value)
    ensures r.Some? ==> forall a, b :: Pair(a, b) in r.value <==> Less(a, b) && Linked(lines, nodes, a, b)
  {
    var symbols, named := CollectSymbols(lines, nodes);
    if !named {
      return None;
    }
    var st := ParseLines(lines, nodes, symbols);
    if st.None? {
      return None;
    }
    StartProgress(lines, nodes, st.value);
    var exp, ok := Expand(Groups(lines), nodes, st.value.topo, st.value.exp);
    if !ok {
      return None;
    }
    forall q | q in st.value.pairs
      ensures IsSymbol(Groups(lines), nodes, q.v1) && IsSymbol(Groups(lines), nodes, q.v2)
    {
      PairSymbols(lines, nodes, q);
    }
    var pairs := Rewrite(Groups(lines), nodes, exp, st.value.pairs);
    forall a, b
      ensures Pair(a, b) in pairs <==> Less(a, b) && Linked(lines, nodes, a, b)
    {
      if Pair(a, b) in pairs {
        var q :| q in st.value.pairs && StandsFor(Groups(lines), nodes, q, Pair(a, b));
        StandsForLinked(lines, nodes, q, Pair(a, b));
      }
      if Less(a, b) && Linked(lines, nodes, a, b) {
        LinkedStandsFor(lines, nodes, a, b);
      }
    }
    r := Some(pairs);
  }

  /** A group without a name is rejected although nothing is circular. */
  lemma {:induction false} UnnamedGroupRejected(lines: seq<Line>)
    requires lines == [Definition("", ["a"])]
    ensures WellFormed(lines, ["a"]) && !Cyclic(Groups(lines)) && "" in Groups(lines)
  {
    assert lines[..0] == [];
    assert Groups(lines) == map["" := Tokens(["a"])];
    assert ["a"][1..] == [];
    RankedIsAcyclic(Groups(lines), map["" := 0]);
  }

  /** Whichever free group is taken first, there is only one result. */
  lemma {:induction false} OneResult(lines: seq<Line>, nodes: seq<Name>, r: seq<Pair>, r': seq<Pair>)
    requires Increasing(r) && Increasing(r')
    requires forall a, b :: Pair(a, b) in r <==> Less(a, b) && Linked(lines, nodes, a, b)
    requires forall a, b :: Pair(a, b) in r' <==> Less(a, b) && Linked(lines, nodes, a, b)
    ensures r == r'
  {
    forall p
      ensures p in r <==> p in r'
    {
      assert p == Pair(p.v1, p.v2);
    }
    IncreasingUnique(r, r');
  }

  // ---------- peers ----------

  lemma {:induction false} GroupsTokens(lines: seq<Line>, g: Name, x: Name)
    requires g in Groups(lines) && x in Groups(lines)[g]
    ensures x != ""
  {
    var l := lines[|lines| - 1];
    if !(l.Definition? && l.name == g) {
      GroupsTokens(lines[..|lines| - 1], g, x);
    }
  }

  lemma {:induction false} PathEnd(lines: seq<Line>, p: seq<Name>)
    requires IsPath(Groups(lines), p) && p[0] != ""
    ensures p[|p| - 1] != ""
  {
    if |p| > 1 {
      GroupsTokens(lines, p[0], p[1]);
      PathEnd(lines, p[1..]);
    }
  }

  lemma {:induction false} LinkedNamed(lines: seq<Line>, nodes: seq<Name>, a: Name, b: Name)
    requires Linked(lines, nodes, a, b)
    ensures b != ""
  {
    var mem := Groups(lines);
    var i :| 0 <= i < |lines| && LinksOn(mem, nodes, lines[i], a, b);
    var u, v :| TwoOf(Tokens(lines[i].members), u, v) && Expands(mem, nodes, u, a) && Expands(mem, nodes, v, b);
    var p :| Leads(mem, p, v, b);
    PathEnd(lines, p);
  }

  ghost predicate Distinct(s: seq<Name>) { forall i, j :: 0 <= i < j < |s| ==> s[i] != s[j] }

  /** The nodes that `cur` is linked to, each once; the source panics where this gives none. */
  method GetPeers(lines: seq<Line>, nodes: seq<Name>, cur: Name) returns (r: Option<seq<Name>>)
    ensures r.Some? <==> WellFormed(lines, nodes) && !Cyclic(Groups(lines)) && "" !in Groups(lines)
    ensures r.Some? ==> Distinct(r.value) && forall n :: n in r.value <==> Linked(lines, nodes, cur, n)
  {
    var graph := ParseGraph(lines, nodes);
    if graph.None? {
      return None;
    }
    forall p | p in graph.value
      ensures Less(p.v1, p.v2)
    {
      assert p == Pair(p.v1, p.v2);
    }
    var peers := CollectPeers(graph.value, cur);
    forall n
      ensures n in peers <==> Linked(lines, nodes, cur, n)
    {
      TouchedIsLinked(lines, nodes, graph.value, cur, n);
    }
    r := Some(peers);
  }

  method CollectPeers(graph: seq<Pair>, cur: Name) returns (peers: seq<Name>)
    requires Increasing(graph) && forall p :: p in graph ==> Less(p.v1, p.v2)
    ensures Distinct(peers) && forall n :: n in peers <==> n != "" && n != cur && TouchedBy(graph, |graph|, cur, n)
  {
    peers := [];
    for i := 0 to |graph|
      invariant Distinct(peers) && forall n :: n in peers <==> n != "" && n != cur && TouchedBy(graph, i, cur, n)
    {
      var neigh := OtherEnd(graph[i], cur);
      forall n
        ensures TouchedBy(graph, i + 1, cur, n) <==> TouchedBy(graph, i, cur, n) || graph[i] == Pair(cur, n) || graph[i] == Pair(n, cur)
      {
      }
      if neigh != cur && neigh != "" {
        NotTouchedYet(graph, i, cur, neigh);
        peers := peers + [neigh];
      }
    }
  }

  method OtherEnd(e: Pair, cur: Name) returns (neigh: Name)
    ensures forall n :: n != "" && n != cur ==> (neigh == n <==> e == Pair(cur, n) || e == Pair(n, cur))
  {
    neigh := "";
    if e.v1 == cur {
      neigh := e.v2;
    }
    if e.v2 == cur {
      neigh := e.v1;
    }
  }

  ghost predicate TouchedBy(graph: seq<Pair>, n: nat, cur: Name, x: Name)
    requires n <= |graph|
  {
    exists i :: 0 <= i < n && (graph[i] == Pair(cur, x) || graph[i] == Pair(x, cur))
  }

  lemma {:induction false} NotTouchedYet(graph: seq<Pair>, i: nat, cur: Name, x: Name)
    requires i < |graph| && Increasing(graph) && (graph[i] == Pair(cur, x) || graph[i] == Pair(x, cur))
    requires forall p :: p in graph ==> Less(p.v1, p.v2)
    ensures !TouchedBy(graph, i, cur, x)
  {
    if TouchedBy(graph, i, cur, x) {
      var k :| 0 <= k < i && (graph[k] == Pair(cur, x) || graph[k] == Pair(x, cur));
      assert graph[k] in graph && graph[i] in graph;
      PairLessTotal(graph[k], graph[i]);
      LessTotal(cur, x);
    }
  }

  lemma {:induction false} TouchedIsLinked(lines: seq<Line>, nodes: seq<Name>, graph: seq<Pair>, cur: Name, n: Name)
    requires forall a, b :: Pair(a, b) in graph <==> Less(a, b) && Linked(lines, nodes, a, b)
    ensures n != "" && n != cur && TouchedBy(graph, |graph|, cur, n) <==> Linked(lines, nodes, cur, n)
  {
    if TouchedBy(graph, |graph|, cur, n) {
      var i :| 0 <= i < |graph| && (graph[i] == Pair(cur, n) || graph[i] == Pair(n, cur));
      assert graph[i] in graph;
      if graph[i] == Pair(n, cur) {
        LinkedSymmetric(lines, nodes, n, cur);
      }
    }
    if Linked(lines, nodes, cur, n) {
      LinkedNamed(lines, nodes, cur, n);
      LinkedSymmetric(lines, nodes, cur, n);
      LessTotal(cur, n);
      var p := SortedPair(cur, n);
      assert p in graph;
      var i :| 0 <= i < |graph| && graph[i] == p;
    }
  }

  /** A node is a peer of its peers. */
  lemma {:induction false} PeersSymmetric(lines: seq<Line>, nodes: seq<Name>, a: Name, b: Name, pa: seq<Name>, pb: seq<Name>)
    requires forall n :: n in pa <==> Linked(lines, nodes, a, n)
    requires forall n :: n in pb <==> Linked(lines, nodes, b, n)
    ensures b in pa <==> a in pb
  {
    if Linked(lines, nodes, a, b) {
      LinkedSymmetric(lines, nodes, a, b);
    }
    if Linked(lines, nodes, b, a) {
      LinkedSymmetric(lines, nodes, b, a);
    }
  }
}
