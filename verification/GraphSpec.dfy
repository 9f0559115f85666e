/** What a graph of groups and links means, independently of how it is evaluated. */
module GraphSpec {
  import opened GraphOrder

  /** A line, cut at `=` and `,` and trimmed. */
  datatype Line = Definition(name: Name, members: seq<Name>) | BadDefinition | Link(members: seq<Name>)

  /** Empty pieces are skipped. */
  function Tokens(pieces: seq<Name>): (r: seq<Name>)
    ensures forall x :: x in r <==> x in pieces && x != ""
  {
    if pieces == [] then [] else (if pieces[0] == "" then [] else [pieces[0]]) + Tokens(pieces[1..])
  }

  type Lists = map<Name, seq<Name>>

  /** The groups and what is named in their definitions. */
  function Groups(lines: seq<Line>): Lists {
    if lines == [] then map[]
    else
      var l := lines[|lines| - 1];
      if l.Definition? then Groups(lines[..|lines| - 1])[l.name := Tokens(l.members)] else Groups(lines[..|lines| - 1])
  }

  predicate Member(mem: Lists, g: Name, x: Name) { g in mem && x in mem[g] }

  predicate IsSymbol(mem: Lists, nodes: seq<Name>, x: Name) { x in nodes || x in mem }

  predicate TokensOk(mem: Lists, nodes: seq<Name>, ts: seq<Name>) {
    ts != [] && forall x :: x in ts ==> IsSymbol(mem, nodes, x)
  }

  predicate LineOk(mem: Lists, nodes: seq<Name>, l: Line) {
    match l
    case BadDefinition => false
    case Definition(g, ms) => g !in nodes && TokensOk(mem, nodes, Tokens(ms))
    case Link(ms) => |Tokens(ms)| >= 2 && TokensOk(mem, nodes, Tokens(ms))
  }

  /** No group is defined twice. */
  predicate DefinedOnce(lines: seq<Line>) {
    forall i, j :: 0 <= i < j < |lines| && lines[i].Definition? && lines[j].Definition? ==> lines[i].name != lines[j].name
  }

  predicate WellFormed(lines: seq<Line>, nodes: seq<Name>) {
    DefinedOnce(lines) && forall i :: 0 <= i < |lines| ==> LineOk(Groups(lines), nodes, lines[i])
  }

  // ---------- paths ----------

  /** Each name is a member of the one before. */
  ghost predicate IsPath(mem: Lists, p: seq<Name>) {
    p != [] && (|p| == 1 || (Member(mem, p[0], p[1]) && IsPath(mem, p[1..])))
  }

  ghost predicate Leads(mem: Lists, p: seq<Name>, s: Name, n: Name) {
    IsPath(mem, p) && p[0] == s && p[|p| - 1] == n
  }

  /** Node `n` is what `s` stands for, or one of them. */
  ghost predicate Expands(mem: Lists, nodes: seq<Name>, s: Name, n: Name) {
    n in nodes && exists p :: Leads(mem, p, s, n)
  }

  /** A group that is, over some steps, a member of itself. */
  ghost predicate Cyclic(mem: Lists) {
    exists p, g :: |p| >= 2 && Leads(mem, p, g, g)
  }

  /** Two entries of one line, which may be equal only if it is there twice. */
  ghost predicate TwoOf(ms: seq<Name>, u: Name, v: Name) {
    u in ms && v in ms && (u == v ==> multiset(ms)[u] >= 2)
  }

  ghost predicate LinksOn(mem: Lists, nodes: seq<Name>, l: Line, a: Name, b: Name) {
    l.Link? && exists u, v :: TwoOf(Tokens(l.members), u, v) && Expands(mem, nodes, u, a) && Expands(mem, nodes, v, b)
  }

  /** Two different nodes that some line connects. */
  ghost predicate Linked(lines: seq<Line>, nodes: seq<Name>, a: Name, b: Name) {
    a != b && exists i :: 0 <= i < |lines| && LinksOn(Groups(lines), nodes, lines[i], a, b)
  }

  lemma {:induction false} LinkedSymmetric(lines: seq<Line>, nodes: seq<Name>, a: Name, b: Name)
    requires Linked(lines, nodes, a, b)
    ensures Linked(lines, nodes, b, a)
  {
    var mem := Groups(lines);
    var i :| 0 <= i < |lines| && LinksOn(mem, nodes, lines[i], a, b);
    var u, v :| TwoOf(Tokens(lines[i].members), u, v) && Expands(mem, nodes, u, a) && Expands(mem, nodes, v, b);
    assert TwoOf(Tokens(lines[i].members), v, u);
    assert LinksOn(mem, nodes, lines[i], b, a);
  }

  // ---------- one step of an expansion ----------

  lemma {:induction false} PathCons(mem: Lists, g: Name, p: seq<Name>)
    requires IsPath(mem, p) && Member(mem, g, p[0])
    ensures IsPath(mem, [g] + p)
  {
    assert ([g] + p)[1..] == p;
  }

  lemma {:induction false} PathTake(mem: Lists, p: seq<Name>, k: nat)
    requires IsPath(mem, p) && 0 < k <= |p|
    ensures IsPath(mem, p[..k])
  {
    if k > 1 {
      PathTake(mem, p[1..], k - 1);
      assert p[..k][1..] == p[1..][..k - 1];
    }
  }

  lemma {:induction false} PathDrop(mem: Lists, p: seq<Name>, k: nat)
    requires IsPath(mem, p) && k < |p|
    ensures IsPath(mem, p[k..])
  {
    if k > 0 {
      PathDrop(mem, p[1..], k - 1);
      assert p[1..][k - 1..] == p[k..];
    } else {
      assert p[0..] == p;
    }
  }

  /** A node stands for itself. */
  lemma {:induction false} NodeExpands(mem: Lists, nodes: seq<Name>, s: Name, n: Name)
    requires s in nodes && s !in mem
    ensures Expands(mem, nodes, s, n) <==> n == s
  {
    if Expands(mem, nodes, s, n) {
      var p :| Leads(mem, p, s, n);
      if |p| >= 2 {
      }
    }
    assert Leads(mem, [s], s, s);
  }

  /** A group stands for what its members stand for. */
  lemma {:induction false} GroupExpands(mem: Lists, nodes: seq<Name>, g: Name, n: Name)
    requires g !in nodes
    ensures Expands(mem, nodes, g, n) <==> exists x :: Member(mem, g, x) && Expands(mem, nodes, x, n)
  {
    if Expands(mem, nodes, g, n) {
      var p :| Leads(mem, p, g, n);
      assert Leads(mem, p[1..], p[1], n);
    }
    if x :| Member(mem, g, x) && Expands(mem, nodes, x, n) {
      var p :| Leads(mem, p, x, n);
      PathCons(mem, g, p);
      assert Leads(mem, [g] + p, g, n);
    }
  }

  // ---------- cycles ----------

  /** Ranks that fall from a group to the groups in it rule cycles out. */
  ghost predicate Ranked(mem: Lists, rank: map<Name, nat>) {
    forall g, x :: Member(mem, g, x) && x in mem ==> g in rank && x in rank && rank[x] < rank[g]
  }

  lemma {:induction false} RankFalls(mem: Lists, rank: map<Name, nat>, p: seq<Name>)
    requires Ranked(mem, rank) && IsPath(mem, p) && |p| >= 2 && p[|p| - 1] in mem
    ensures p[0] in rank && p[|p| - 1] in rank && rank[p[|p| - 1]] < rank[p[0]]
  {
    if |p| > 2 {
      assert p[1..][1] == p[2];
      RankFalls(mem, rank, p[1..]);
    }
  }

  lemma {:induction false} RankedIsAcyclic(mem: Lists, rank: map<Name, nat>)
    requires Ranked(mem, rank)
    ensures !Cyclic(mem)
  {
    if Cyclic(mem) {
      var p, g :| |p| >= 2 && Leads(mem, p, g, g);
      RankFalls(mem, rank, p);
    }
  }

  /** A set of groups each of which has a member in it contains a cycle. */
  ghost predicate HasMemberIn(mem: Lists, s: set<Name>, g: Name) {
    exists x :: x in s && Member(mem, g, x)
  }

  ghost predicate Stuck(mem: Lists, s: set<Name>) {
    s != {} && forall g {:trigger HasMemberIn(mem, s, g)} :: g in s ==> HasMemberIn(mem, s, g)
  }

  lemma {:induction false} WalkOf(mem: Lists, s: set<Name>, g: Name, n: nat) returns (p: seq<Name>)
    requires Stuck(mem, s) && g in s
    ensures |p| == n + 1 && p[0] == g && IsPath(mem, p) && forall i :: 0 <= i < |p| ==> p[i] in s
    decreases n
  {
    p := [g];
    if n > 0 {
      assert HasMemberIn(mem, s, g);
      var x :| x in s && Member(mem, g, x);
      var q := WalkOf(mem, s, x, n - 1);
      PathCons(mem, g, q);
      p := [g] + q;
    }
  }

  /** More entries than values: two are equal. */
  lemma {:induction false} Pigeonhole(p: seq<Name>, s: set<Name>) returns (i: nat, j: nat)
    requires |p| > |s| && forall k :: 0 <= k < |p| ==> p[k] in s
    ensures i < j < |p| && p[i] == p[j]
    decreases |p|
  {
    var last := p[|p| - 1];
    if k :| 0 <= k < |p| - 1 && p[k] == last {
      return k, |p| - 1;
    }
    i, j := Pigeonhole(p[..|p| - 1], s - {last});
  }

  lemma {:induction false} StuckIsCyclic(mem: Lists, s: set<Name>)
    requires Stuck(mem, s)
    ensures Cyclic(mem)
  {
    var g :| g in s;
    var p := WalkOf(mem, s, g, |s|);
    var i, j := Pigeonhole(p, s);
    PathTake(mem, p, j + 1);
    PathDrop(mem, p[..j + 1], i);
    assert Leads(mem, p[..j + 1][i..], p[i], p[i]);
  }
}
