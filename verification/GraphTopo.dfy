/** Expanding the groups one after the other, in any order in which each comes after its members. */
module GraphTopo {
  import opened Basics
  import opened GraphOrder
  import opened GraphSpec

  function Get(m: Lists, k: Name): seq<Name> { if k in m then m[k] else [] }

  /** `n` is a member of `k`, or what a member that is already expanded stands for. */
  ghost predicate SoFar(mem: Lists, nodes: seq<Name>, topo: Lists, k: Name, n: Name) {
    || (n in nodes && Member(mem, k, n))
    || exists d :: Member(mem, k, d) && d in mem && d !in topo && Expands(mem, nodes, d, n)
  }

  /** What is left of a group that waits in `topo`: the groups it still needs, and its nodes so far. */
  ghost predicate Waiting(mem: Lists, nodes: seq<Name>, topo: Lists, exp: Lists, k: Name)
    requires k in topo
  {
    && k in mem
    && (forall d :: d in topo[k] <==> Member(mem, k, d) && d in topo)
    && (forall n :: n in Get(exp, k) <==> SoFar(mem, nodes, topo, k, n))
  }

  /** A group that is done. */
  ghost predicate Done(mem: Lists, nodes: seq<Name>, topo: Lists, exp: Lists, rank: map<Name, nat>, k: Name) {
    && (forall n :: n in Get(exp, k) <==> Expands(mem, nodes, k, n))
    && k in rank && rank[k] < |rank|
    && (forall x :: Member(mem, k, x) && x in mem ==> x !in topo && x in rank && rank[x] < rank[k])
  }

  ghost predicate AllWaiting(mem: Lists, nodes: seq<Name>, topo: Lists, exp: Lists) {
    forall k {:trigger Waiting(mem, nodes, topo, exp, k)} :: k in topo ==> Waiting(mem, nodes, topo, exp, k)
  }

  ghost predicate OthersDone(mem: Lists, nodes: seq<Name>, topo: Lists, exp: Lists, rank: map<Name, nat>) {
    forall k {:trigger Done(mem, nodes, topo, exp, rank, k)} :: k in mem && k !in topo ==> Done(mem, nodes, topo, exp, rank, k)
  }

  ghost predicate Progress(mem: Lists, nodes: seq<Name>, topo: Lists, exp: Lists, rank: map<Name, nat>) {
    topo.Keys !! rank.Keys && AllWaiting(mem, nodes, topo, exp) && OthersDone(mem, nodes, topo, exp, rank)
  }

  ghost predicate NodesApart(mem: Lists, nodes: seq<Name>) {
    && (forall g :: g in mem ==> g !in nodes)
    && (forall g, x :: Member(mem, g, x) ==> IsSymbol(mem, nodes, x))
  }

  /** A group without open members has all its nodes. */
  lemma {:induction false} FreeIsComplete(mem: Lists, nodes: seq<Name>, topo: Lists, exp: Lists, k: Name, n: Name)
    requires NodesApart(mem, nodes) && k in topo && Waiting(mem, nodes, topo, exp, k) && topo[k] == []
    ensures n in Get(exp, k) <==> Expands(mem, nodes, k, n)
  {
    GroupExpands(mem, nodes, k, n);
    if x :| Member(mem, k, x) && Expands(mem, nodes, x, n) {
      if x in mem {
        assert x !in topo[k];
        assert SoFar(mem, nodes, topo, k, n);
      } else {
        NodeExpands(mem, nodes, x, n);
      }
    }
    if SoFar(mem, nodes, topo, k, n) {
      if n in nodes && Member(mem, k, n) {
        assert Leads(mem, [n], n, n);
        assert Expands(mem, nodes, n, n);
      } else {
        var d :| Member(mem, k, d) && d in mem && d !in topo && Expands(mem, nodes, d, n);
        assert Expands(mem, nodes, d, n);
      }
    }
  }

  /** One name taken out. */
  function Remove(deps: seq<Name>, g: Name): (r: seq<Name>)
    ensures forall x :: x in r <==> x in deps && x != g
  {
    if deps == [] then [] else (if deps[0] == g then [] else [deps[0]]) + Remove(deps[1..], g)
  }

  /** What the expansion of `g` does to a group that waits. */
  ghost predicate Fed(topo: Lists, exp: Lists, g: Name, topo': Lists, exp': Lists, k: Name) {
    && k in topo && k in topo' && (forall d :: d in topo'[k] <==> d in topo[k] && d != g)
    && (forall n :: n in Get(exp', k) <==> n in Get(exp, k) || (g in topo[k] && n in Get(exp, g)))
  }

  ghost predicate AllFed(topo: Lists, exp: Lists, g: Name, topo': Lists, exp': Lists) {
    forall k {:trigger Fed(topo, exp, g, topo', exp', k)} :: k in topo' ==> Fed(topo, exp, g, topo', exp', k)
  }

  lemma {:induction false} FedIsWaiting(mem: Lists, nodes: seq<Name>, topo: Lists, exp: Lists, g: Name, topo': Lists, exp': Lists, k: Name)
    requires g in topo && k in topo && k != g && Waiting(mem, nodes, topo, exp, k) && g in mem
    requires forall n :: n in Get(exp, g) <==> Expands(mem, nodes, g, n)
    requires topo'.Keys == topo.Keys - {g} && Fed(topo, exp, g, topo', exp', k)
    ensures Waiting(mem, nodes, topo', exp', k)
  {
    forall n
      ensures n in Get(exp', k) <==> SoFar(mem, nodes, topo', k, n)
    {
      assert n in Get(exp, k) <==> SoFar(mem, nodes, topo, k, n);
      if SoFar(mem, nodes, topo', k, n) && !(n in nodes && Member(mem, k, n)) {
        var d :| Member(mem, k, d) && d in mem && d !in topo' && Expands(mem, nodes, d, n);
        assert d == g || d !in topo;
      }
    }
  }

  lemma {:induction false} StaysDone(mem: Lists, nodes: seq<Name>, topo: Lists, exp: Lists, rank: map<Name, nat>,
                                     g: Name, topo': Lists, exp': Lists, k: Name)
    requires Done(mem, nodes, topo, exp, rank, k) && g !in rank && topo'.Keys == topo.Keys - {g} && Get(exp', k) == Get(exp, k)
    ensures Done(mem, nodes, topo', exp', rank[g := |rank|], k)
  {
    assert rank[g := |rank|].Keys == rank.Keys + {g};
    assert |rank[g := |rank|].Keys| == |rank.Keys| + 1;
  }

  lemma {:induction false} FreeIsDone(mem: Lists, nodes: seq<Name>, topo: Lists, exp: Lists, rank: map<Name, nat>,
                                      g: Name, topo': Lists, exp': Lists)
    requires NodesApart(mem, nodes) && g in topo && Waiting(mem, nodes, topo, exp, g) && topo[g] == [] && g !in rank
    requires topo'.Keys == topo.Keys - {g} && Get(exp', g) == Get(exp, g)
    requires forall x :: x in mem && x !in topo ==> x in rank && rank[x] < |rank|
    ensures Done(mem, nodes, topo', exp', rank[g := |rank|], g)
  {
    FreeIsWhole(mem, nodes, topo, exp, g);
    assert rank[g := |rank|].Keys == rank.Keys + {g};
    assert |rank[g := |rank|].Keys| == |rank.Keys| + 1;
    forall x | Member(mem, g, x) && x in mem
      ensures x !in topo
    {
      assert x !in topo[g];
    }
  }

  lemma {:induction false} TakeFreeWaiting(mem: Lists, nodes: seq<Name>, topo: Lists, exp: Lists, g: Name, topo': Lists, exp': Lists, k: Name)
    requires NodesApart(mem, nodes) && g in topo && Waiting(mem, nodes, topo, exp, g) && topo[g] == []
    requires k in topo' && k in topo && k != g && Waiting(mem, nodes, topo, exp, k)
    requires topo'.Keys == topo.Keys - {g} && Fed(topo, exp, g, topo', exp', k)
    ensures Waiting(mem, nodes, topo', exp', k)
  {
    FreeIsWhole(mem, nodes, topo, exp, g);
    FedIsWaiting(mem, nodes, topo, exp, g, topo', exp', k);
  }

  lemma {:induction false} TakeFreeDone(mem: Lists, nodes: seq<Name>, topo: Lists, exp: Lists, rank: map<Name, nat>,
                                        g: Name, topo': Lists, exp': Lists, k: Name)
    requires NodesApart(mem, nodes) && Progress(mem, nodes, topo, exp, rank) && g in topo && topo[g] == [] && k in mem && k !in topo'
    requires topo'.Keys == topo.Keys - {g} && Get(exp', k) == Get(exp, k)
    ensures Done(mem, nodes, topo', exp', rank[g := |rank|], k)
  {
    assert Waiting(mem, nodes, topo, exp, g);
    if k != g {
      assert Done(mem, nodes, topo, exp, rank, k);
      StaysDone(mem, nodes, topo, exp, rank, g, topo', exp', k);
    } else {
      forall x | x in mem && x !in topo
        ensures x in rank && rank[x] < |rank|
      {
        assert Done(mem, nodes, topo, exp, rank, x);
      }
      FreeIsDone(mem, nodes, topo, exp, rank, g, topo', exp');
    }
  }

  /** Taking a free group out keeps everything. */
  lemma {:induction false} TakeFree(mem: Lists, nodes: seq<Name>, topo: Lists, exp: Lists, rank: map<Name, nat>,
                                    g: Name, topo': Lists, exp': Lists)
    requires NodesApart(mem, nodes) && Progress(mem, nodes, topo, exp, rank) && g in topo && topo[g] == []
    requires topo'.Keys == topo.Keys - {g} && AllFed(topo, exp, g, topo', exp')
    requires forall k :: k !in topo' ==> Get(exp', k) == Get(exp, k)
    ensures Progress(mem, nodes, topo', exp', rank[g := |rank|])
  {
    var rank' := rank[g := |rank|];
    TakeFreeAllWaiting(mem, nodes, topo, exp, g, topo', exp');
    forall k | k in mem && k !in topo'
      ensures Done(mem, nodes, topo', exp', rank', k)
    {
      TakeFreeDone(mem, nodes, topo, exp, rank, g, topo', exp', k);
    }
    assert OthersDone(mem, nodes, topo', exp', rank');
  }

  lemma {:induction false} TakeFreeAllWaiting(mem: Lists, nodes: seq<Name>, topo: Lists, exp: Lists, g: Name, topo': Lists, exp': Lists)
    requires NodesApart(mem, nodes) && AllWaiting(mem, nodes, topo, exp) && g in topo && topo[g] == []
    requires topo'.Keys == topo.Keys - {g} && AllFed(topo, exp, g, topo', exp')
    ensures AllWaiting(mem, nodes, topo', exp')
  {
    assert Waiting(mem, nodes, topo, exp, g);
    forall k | k in topo'
      ensures Waiting(mem, nodes, topo', exp', k)
    {
      assert Waiting(mem, nodes, topo, exp, k) && Fed(topo, exp, g, topo', exp', k);
      TakeFreeWaiting(mem, nodes, topo, exp, g, topo', exp', k);
    }
  }

  lemma {:induction false} FreeIsWhole(mem: Lists, nodes: seq<Name>, topo: Lists, exp: Lists, g: Name)
    requires NodesApart(mem, nodes) && g in topo && Waiting(mem, nodes, topo, exp, g) && topo[g] == []
    ensures forall n :: n in Get(exp, g) <==> Expands(mem, nodes, g, n)
  {
    forall n
      ensures n in Get(exp, g) <==> Expands(mem, nodes, g, n)
    {
      FreeIsComplete(mem, nodes, topo, exp, g, n);
    }
  }

  /** When nothing waits there was no cycle. */
  lemma {:induction false} AllDone(mem: Lists, nodes: seq<Name>, topo: Lists, exp: Lists, rank: map<Name, nat>)
    requires Progress(mem, nodes, topo, exp, rank) && topo == map[]
    ensures !Cyclic(mem)
    ensures forall k, n :: k in mem ==> (n in Get(exp, k) <==> Expands(mem, nodes, k, n))
  {
    forall g, x | Member(mem, g, x) && x in mem
      ensures g in rank && x in rank && rank[x] < rank[g]
    {
      assert Done(mem, nodes, topo, exp, rank, g);
    }
    RankedIsAcyclic(mem, rank);
    forall k, n | k in mem
      ensures n in Get(exp, k) <==> Expands(mem, nodes, k, n)
    {
      assert Done(mem, nodes, topo, exp, rank, k);
    }
  }

  lemma {:induction false} NeedsAnother(mem: Lists, nodes: seq<Name>, topo: Lists, exp: Lists, g: Name)
    requires g in topo && Waiting(mem, nodes, topo, exp, g) && topo[g] != []
    ensures HasMemberIn(mem, topo.Keys, g)
  {
    var d := topo[g][0];
    assert d in topo[g];
  }

  /** When something waits and nothing is free there is a cycle. */
  lemma {:induction false} NoneFree(mem: Lists, nodes: seq<Name>, topo: Lists, exp: Lists, rank: map<Name, nat>)
    requires Progress(mem, nodes, topo, exp, rank) && topo != map[] && (forall k :: k in topo ==> topo[k] != [])
    ensures Cyclic(mem)
  {
    var s := topo.Keys;
    forall g | g in s
      ensures HasMemberIn(mem, s, g)
    {
      assert Waiting(mem, nodes, topo, exp, g);
      NeedsAnother(mem, nodes, topo, exp, g);
    }
    var k :| k in topo;
    assert k in s;
    StuckIsCyclic(mem, s);
  }

  // ---------- the loop ----------

  /** Some group that needs no other, if there is one. The search stops at the first one it meets. */
  method FindFree(topo: Lists) returns (group: Name, free: bool)
    ensures free ==> group in topo && topo[group] == []
    ensures !free ==> group == "" && forall k :: k in topo ==> topo[k] != []
  {
    var todo := topo.Keys;
    while todo != {}
      invariant todo <= topo.Keys && forall k :: k in topo && k !in todo ==> topo[k] != []
      decreases |todo|
    {
      var k :| k in todo;
      if |topo[k]| == 0 {
        return k, true;
      }
      todo := todo - {k};
    }
    return "", false;
  }

  /** Between the groups of the next loop: those in `todo` are as they were, the others are fed. */
  ghost predicate Feeding(topo0: Lists, exp0: Lists, g: Name, todo: set<Name>, topo: Lists, exp: Lists) {
    && g in topo0 && todo <= topo.Keys == topo0.Keys - {g}
    && (forall k :: k in todo ==> topo[k] == topo0[k] && Get(exp, k) == Get(exp0, k))
    && (forall k {:trigger Fed(topo0, exp0, g, topo, exp, k)} :: k in topo && k !in todo ==> Fed(topo0, exp0, g, topo, exp, k))
    && (forall k :: k !in topo ==> Get(exp, k) == Get(exp0, k))
  }

  /** Copies the nodes of `g` into every group that needs it. */
  method Feed(topo0: Lists, exp0: Lists, g: Name) returns (topo: Lists, exp: Lists)
    requires g in topo0
    ensures topo.Keys == topo0.Keys - {g} && AllFed(topo0, exp0, g, topo, exp)
    ensures forall k :: k !in topo ==> Get(exp, k) == Get(exp0, k)
  {
    topo, exp := topo0 - {g}, exp0;
    var todo := topo.Keys;
    while todo != {}
      invariant Feeding(topo0, exp0, g, todo, topo, exp)
      decreases |todo|
    {
      var k :| k in todo;
      topo, exp := FeedOne(topo0, exp0, g, todo, topo, exp, k);
      todo := todo - {k};
    }
  }

  method FeedOne(ghost topo0: Lists, ghost exp0: Lists, g: Name, ghost todo: set<Name>, topo: Lists, exp: Lists, k: Name)
    returns (topo': Lists, exp': Lists)
    requires Feeding(topo0, exp0, g, todo, topo, exp) && k in todo
    ensures Feeding(topo0, exp0, g, todo - {k}, topo', exp')
  {
    topo', exp' := topo, exp;
    if g in topo[k] {
      topo', exp' := topo[k := Remove(topo[k], g)], exp[k := SortNames(Get(exp, k) + Get(exp, g))];
      FedOne(topo0, exp0, g, topo, exp, k, topo', exp');
    } else {
      assert Fed(topo0, exp0, g, topo, exp, k);
    }
  }

  lemma {:induction false} FedOne(topo0: Lists, exp0: Lists, g: Name, topo: Lists, exp: Lists, k: Name, topo1: Lists, exp1: Lists)
    requires g in topo0 && k in topo0 && k in topo && g !in topo && topo[k] == topo0[k] && Get(exp, k) == Get(exp0, k) && Get(exp, g) == Get(exp0, g)
    requires g in topo[k] && topo1 == topo[k := Remove(topo[k], g)] && exp1 == exp[k := SortNames(Get(exp, k) + Get(exp, g))]
    ensures Fed(topo0, exp0, g, topo1, exp1, k)
    ensures forall j :: j in topo && j != k && Fed(topo0, exp0, g, topo, exp, j) ==> Fed(topo0, exp0, g, topo1, exp1, j)
  {
    forall j | j in topo && j != k && Fed(topo0, exp0, g, topo, exp, j)
      ensures Fed(topo0, exp0, g, topo1, exp1, j)
    {
    }
  }

  /** Expands every group. It fails exactly on a cycle and on a group without a name, since an empty
      name stands for "no free group". */
  method Expand(mem: Lists, nodes: seq<Name>, topo0: Lists, exp0: Lists) returns (exp: Lists, ok: bool)
    requires NodesApart(mem, nodes) && Progress(mem, nodes, topo0, exp0, map[]) && (forall g :: g in mem ==> g in topo0)
    ensures ok <==> !Cyclic(mem) && "" !in mem
    ensures ok ==> forall k, n :: k in mem ==> (n in Get(exp, k) <==> Expands(mem, nodes, k, n))
  {
    var topo := topo0;
    exp := exp0;
    ghost var rank: map<Name, nat> := map[];
    while |topo| > 0
      invariant Progress(mem, nodes, topo, exp, rank)
      invariant "" in mem ==> "" in topo
      decreases |topo|
    {
      var group, free := FindFree(topo);
      if group == "" {
        if free {
          assert Waiting(mem, nodes, topo, exp, "");
        } else {
          NoneFree(mem, nodes, topo, exp, rank);
        }
        return exp, false;
      }
      ghost var t, e := topo, exp;
      topo, exp := Feed(topo, exp, group);
      TakeFree(mem, nodes, t, e, rank, group, topo, exp);
      rank := rank[group := |rank|];
      assert |topo.Keys| == |t.Keys| - 1;
    }
    AllDone(mem, nodes, topo, exp, rank);
    ok := true;
  }
}
