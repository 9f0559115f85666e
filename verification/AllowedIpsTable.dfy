/** What the trie stores, as a plain table, and what each change does to it. */
module AllowedIpsTable {
  import opened Basics
  import opened AllowedIpsTrie
  import opened AllowedIpsOps

  /** A prefix in masked form. */
  datatype Prefix = Prefix(bits: Bits, cidr: nat)

  type Table = map<Prefix, Peer>

  ghost predicate Contains(q: Prefix, ip: Bits) { |q.bits| == |ip| && Agree(q.bits, ip, q.cidr) }

  /** The longest prefix match of a plain table. */
  ghost predicate IsLongestMatch(table: Table, ip: Bits, r: Option<Peer>) {
    match r
    case None => forall q :: q in table ==> !Contains(q, ip)
    case Some(p) =>
      exists q :: q in table && Contains(q, ip) && table[q] == p && forall q' :: q' in table && Contains(q', ip) ==> q'.cidr <= q.cidr
  }

  function Pfx(n: Entry): Prefix { Prefix(n.bits, n.cidr) }

  /** Entry `x` stores prefix `q` for peer `p`. */
  ghost predicate Owned(t: Trie, x: Id, q: Prefix, p: Peer) {
    x in t.nodes && Pfx(t.nodes[x]) == q && t.nodes[x].peer == Some(p)
  }

  ghost predicate Represents(t: Trie, table: Table) {
    && (forall x, q, p :: Owned(t, x, q, p) ==> q in table && table[q] == p)
    && (forall q :: q in table ==> exists x :: Owned(t, x, q, table[q]))
  }

  /** A prefix is stored at most once. */
  lemma {:induction false} SamePrefixSameEntry(t: Trie, x: Id, y: Id)
    requires Shaped(t) && x in t.nodes && y in t.nodes && Pfx(t.nodes[x]) == Pfx(t.nodes[y])
    ensures x == y
  {
    assert UpOk(t, x);
    Chain(t, x, y, t.nodes[x].bits);
  }

  // ---------- the per-peer lists ----------

  type Lists = map<Peer, seq<Id>>

  function ListOf(lists: Lists, p: Peer): seq<Id> { if p in lists then lists[p] else [] }

  ghost predicate Distinct(s: seq<Id>) { forall i, j :: 0 <= i < j < |s| ==> s[i] != s[j] }

  ghost predicate OwnedBy(t: Trie, x: Id, p: Peer) { x in t.nodes && t.nodes[x].peer == Some(p) }

  /** A peer's list holds exactly the entries it owns, each once. */
  ghost predicate ListOk(t: Trie, lists: Lists, p: Peer) {
    Distinct(ListOf(lists, p)) && forall x :: x in ListOf(lists, p) <==> OwnedBy(t, x, p)
  }

  ghost predicate Listed(t: Trie, lists: Lists) { forall p :: ListOk(t, lists, p) }

  function Without(s: seq<Id>, x: Id): (r: seq<Id>)
    ensures forall y :: y in r <==> y in s && y != x
    ensures |r| <= |s|
  {
    if s == [] then [] else
      var r := Without(s[1..], x);
      if s[0] == x then r else [s[0]] + r
  }

  lemma {:induction false} WithoutDistinct(s: seq<Id>, x: Id)
    requires Distinct(s)
    ensures Distinct(Without(s, x)) && (x in s ==> |Without(s, x)| < |s|)
  {
    if s != [] {
      WithoutDistinct(s[1..], x);
      assert s == [s[0]] + s[1..];
      assert s[0] !in s[1..];
    }
  }

  function PushBack(lists: Lists, p: Peer, x: Id): Lists { lists[p := ListOf(lists, p) + [x]] }

  function ListRemove(lists: Lists, p: Peer, x: Id): Lists { lists[p := Without(ListOf(lists, p), x)] }

  // ---------- what changes ----------

  /** `id` now stores `q` for `p`; nothing else changed. */
  ghost predicate Gives(t: Trie, t': Trie, id: Id, q: Prefix, p: Peer) {
    forall x, q', p' :: Owned(t', x, q', p') <==> (if x == id then q' == q && p' == p else Owned(t, x, q', p'))
  }

  /** `id` no longer stores anything; nothing else changed. */
  ghost predicate Drops(t: Trie, t': Trie, id: Id) {
    forall x, q, p :: Owned(t', x, q, p) <==> x != id && Owned(t, x, q, p)
  }

  lemma {:induction false} GivesTable(t: Trie, t': Trie, id: Id, q: Prefix, p: Peer, table: Table)
    requires Represents(t, table) && Gives(t, t', id, q, p)
    requires forall x, p' :: Owned(t, x, q, p') ==> x == id
    requires forall q', p' :: Owned(t, id, q', p') ==> q' == q
    ensures Represents(t', table[q := p])
  {
    var table' := table[q := p];
    forall q' | q' in table'
      ensures exists x :: Owned(t', x, q', table'[q'])
    {
      if q' == q {
        assert Owned(t', id, q, p);
      } else {
        var x :| Owned(t, x, q', table[q']);
        assert Owned(t', x, q', table[q']);
      }
    }
  }

  lemma {:induction false} DropsTable(t: Trie, t': Trie, id: Id, q: Prefix, p: Peer, table: Table)
    requires Represents(t, table) && Drops(t, t', id) && Owned(t, id, q, p)
    requires forall x, p' :: Owned(t, x, q, p') ==> x == id
    ensures q in table && table[q] == p && Represents(t', table - {q})
  {
    var table' := table - {q};
    forall q' | q' in table'
      ensures exists x :: Owned(t', x, q', table'[q'])
    {
      var x :| Owned(t, x, q', table[q']);
      assert table'[q'] == table[q'];
      assert q' != q && x != id;
      assert Owned(t', x, q', table[q']);
    }
  }

  lemma {:induction false} DropsOwner(t: Trie, t': Trie, id: Id, x: Id, p: Peer)
    requires Drops(t, t', id)
    ensures OwnedBy(t', x, p) <==> x != id && OwnedBy(t, x, p)
  {
    if x in t.nodes {
      assert Owned(t', x, Pfx(t.nodes[x]), p) <==> x != id && Owned(t, x, Pfx(t.nodes[x]), p);
    }
    if x in t'.nodes {
      assert Owned(t', x, Pfx(t'.nodes[x]), p) <==> x != id && Owned(t, x, Pfx(t'.nodes[x]), p);
    }
  }

  lemma {:induction false} GivesOwner(t: Trie, t': Trie, id: Id, q: Prefix, p: Peer, x: Id, p': Peer)
    requires Gives(t, t', id, q, p)
    ensures OwnedBy(t', x, p') <==> if x == id then p' == p else OwnedBy(t, x, p')
  {
    assert Owned(t', id, q, p);
    if x in t.nodes {
      assert x != id ==> (Owned(t', x, Pfx(t.nodes[x]), p') <==> Owned(t, x, Pfx(t.nodes[x]), p'));
    }
    if x in t'.nodes {
      assert Owned(t', x, Pfx(t'.nodes[x]), p') <==>
             if x == id then Pfx(t'.nodes[x]) == q && p' == p else Owned(t, x, Pfx(t'.nodes[x]), p');
    }
  }

  lemma {:induction false} DropsLists(t: Trie, t': Trie, id: Id, p: Peer, lists: Lists)
    requires Listed(t, lists) && Drops(t, t', id) && OwnedBy(t, id, p)
    ensures Listed(t', ListRemove(lists, p, id))
  {
    var lists' := ListRemove(lists, p, id);
    forall r
      ensures ListOk(t', lists', r)
    {
      assert ListOk(t, lists, r);
      WithoutDistinct(ListOf(lists, r), id);
      forall x
        ensures x in ListOf(lists', r) <==> OwnedBy(t', x, r)
      {
        DropsOwner(t, t', id, x, r);
      }
    }
  }

  lemma {:induction false} GivesLists(t: Trie, t': Trie, id: Id, q: Prefix, p: Peer, lists: Lists)
    requires Listed(t, lists) && Gives(t, t', id, q, p) && (forall r :: !OwnedBy(t, id, r))
    ensures Listed(t', PushBack(lists, p, id))
  {
    var lists' := PushBack(lists, p, id);
    forall r
      ensures ListOk(t', lists', r)
    {
      assert ListOk(t, lists, r) && !OwnedBy(t, id, r);
      forall x
        ensures x in ListOf(lists', r) <==> OwnedBy(t', x, r)
      {
        GivesOwner(t, t', id, q, p, x, r);
      }
    }
  }

  // ---------- the changes of the trie ----------

  /** Branching entries other than `i` have both children. */
  ghost predicate TightBut(t: Trie, i: Id) {
    forall x :: x in t.nodes && x != i && t.nodes[x].peer.None? ==> t.nodes[x].kid0.Some? && t.nodes[x].kid1.Some?
  }

  lemma {:induction false} KidIsHeld(t: Trie, x: Id, b: bool, w: nat)
    requires x in t.nodes
    ensures Kid(t.nodes[x], b) == Held(t, At(x, b), w)
  {
  }

  lemma {:induction false} LeafGives(t: Trie, id: Id, n: Entry, p: Peer)
    requires id !in t.nodes && IsSlot(t, n.up) && n.peer == Some(p)
    ensures Gives(t, AddLeaf(t, id, n), id, Pfx(n), p)
  {
    forall x, q', p'
      ensures Owned(AddLeaf(t, id, n), x, q', p') <==> if x == id then q' == Pfx(n) && p' == p else Owned(t, x, q', p')
    {
      AddLeafNode(t, id, n, x);
    }
  }

  lemma {:induction false} LeafTight(t: Trie, id: Id, n: Entry, i: Id)
    requires id !in t.nodes && IsSlot(t, n.up) && n.kid0.None? && n.kid1.None? && n.peer.Some? && TightBut(t, i)
    ensures TightBut(AddLeaf(t, id, n), i)
    ensures n.up.At? && n.up.parent == i && Kid(t.nodes[i], !n.up.bit).Some? ==> Tight(AddLeaf(t, id, n))
    ensures i !in t.nodes ==> Tight(AddLeaf(t, id, n))
  {
    var t' := AddLeaf(t, id, n);
    forall x | x in t'.nodes && t'.nodes[x].peer.None?
      ensures x != i ==> t'.nodes[x].kid0.Some? && t'.nodes[x].kid1.Some?
      ensures n.up.At? && n.up.parent == i && Kid(t.nodes[i], !n.up.bit).Some? && x == i ==> t'.nodes[x].kid0.Some? && t'.nodes[x].kid1.Some?
      ensures x in t.nodes
    {
      AddLeafNode(t, id, n, x);
      AddLeafHeld(t, id, n, At(x, false), 0);
      AddLeafHeld(t, id, n, At(x, true), 0);
      KidIsHeld(t', x, false, 0);
      KidIsHeld(t', x, true, 0);
    }
  }

  lemma {:induction false} AboveOwned(t: Trie, id: Id, n: Entry, d: Id, x: Id, q: Prefix, p: Peer)
    requires MayInsertAbove(t, id, n, d)
    ensures Owned(InsertAbove(t, id, n, d), x, q, p) <==> if x == id then q == Pfx(n) && n.peer == Some(p) else Owned(t, x, q, p)
  {
    InsertAboveNode(t, id, n, d, x);
  }

  lemma {:induction false} AboveTight(t: Trie, id: Id, n: Entry, d: Id)
    requires MayInsertAbove(t, id, n, d) && Tight(t)
    ensures TightBut(InsertAbove(t, id, n, d), id) && (n.peer.Some? ==> Tight(InsertAbove(t, id, n, d)))
  {
    var t' := InsertAbove(t, id, n, d);
    InsertAboveNode(t, id, n, d, id);
    forall x | x in t'.nodes && x != id && t'.nodes[x].peer.None?
      ensures t'.nodes[x].kid0.Some? && t'.nodes[x].kid1.Some?
    {
      InsertAboveNode(t, id, n, d, x);
      InsertAboveHeld(t, id, n, d, At(x, false), |n.bits|);
      InsertAboveHeld(t, id, n, d, At(x, true), |n.bits|);
      KidIsHeld(t', x, false, |n.bits|);
      KidIsHeld(t', x, true, |n.bits|);
    }
  }

  lemma {:induction false} UnlinkDrops(t: Trie, id: Id)
    requires MayUnlink(t, id)
    ensures t.nodes[id].up.At? ==> t.nodes[id].up.parent in t.nodes && t.nodes[id].up.parent != id
    ensures Drops(t, Unlink(t, id), id)
  {
    UnlinkDefined(t, id);
    forall x, q, p
      ensures Owned(Unlink(t, id), x, q, p) <==> x != id && Owned(t, x, q, p)
    {
      UnlinkNode(t, id, x);
    }
  }

  /** Only the parent of an entry that leaves no child behind loses a child. */
  lemma {:induction false} UnlinkTight(t: Trie, id: Id)
    requires MayUnlink(t, id) && TightBut(t, id)
    ensures t.nodes[id].up.At? ==> t.nodes[id].up.parent in t.nodes && t.nodes[id].up.parent != id
    ensures OnlyKid(t.nodes[id]).Some? || t.nodes[id].up.Root? ==> Tight(Unlink(t, id))
    ensures t.nodes[id].up.At? ==> TightBut(Unlink(t, id), t.nodes[id].up.parent)
  {
    UnlinkDefined(t, id);
    var t', s := Unlink(t, id), t.nodes[id].up;
    forall x | x in t'.nodes && t'.nodes[x].peer.None?
      ensures OnlyKid(t.nodes[id]).Some? || s.Root? || x != s.parent ==> t'.nodes[x].kid0.Some? && t'.nodes[x].kid1.Some?
    {
      UnlinkNode(t, id, x);
      UnlinkHeld(t, id, At(x, false), |t.nodes[id].bits|);
      UnlinkHeld(t, id, At(x, true), |t.nodes[id].bits|);
      KidIsHeld(t', x, false, |t.nodes[id].bits|);
      KidIsHeld(t', x, true, |t.nodes[id].bits|);
    }
  }
}
