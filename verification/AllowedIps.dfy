/** The allowed-IPs table: a compressed trie that answers longest-prefix matches. */
module AllowedIps {
  import opened Basics
  import opened AllowedIpsTrie
  import opened AllowedIpsOps
  import opened AllowedIpsTable

  // ---------- where a new prefix goes ----------

  function SlotFor(t: Trie, p: Option<Id>, ip: Bits): Slot
    requires p.Some? ==> p.value in t.nodes && t.nodes[p.value].cidr < |ip|
  {
    if p.None? then Root else At(p.value, ip[t.nodes[p.value].cidr])
  }

  /** `p` is the longest stored entry that contains the prefix and is shorter than it. */
  ghost predicate Placed(t: Trie, p: Option<Id>, ip: Bits, cidr: nat) {
    && (p.Some? ==> CoversAt(t, p.value, ip) && t.nodes[p.value].cidr < cidr <= |ip|)
    && var d := Held(t, SlotFor(t, p, ip), |ip|);
       d.Some? && d.value in t.nodes ==> t.nodes[d.value].cidr > cidr || !Covers(t.nodes[d.value], ip)
  }

  /** Then the prefix itself is not stored. */
  lemma {:induction false} PlacedIsAbsent(t: Trie, p: Option<Id>, ip: Bits, cidr: nat, x: Id)
    requires Shaped(t) && Placed(t, p, ip, cidr) && CoversAt(t, x, ip)
    ensures t.nodes[x].cidr != cidr
  {
    if t.nodes[x].cidr == cidr {
      if p.Some? {
        Chain(t, p.value, x, ip);
      } else {
        RootLeast(t, x);
        RootCovers(t, x, ip);
      }
    }
  }

  lemma {:induction false} RootCovers(t: Trie, x: Id, ip: Bits)
    requires Shaped(t) && CoversAt(t, x, ip)
    ensures |ip| in t.roots && CoversAt(t, t.roots[|ip|], ip)
    decreases t.nodes[x].cidr
  {
    assert UpOk(t, x);
    if t.nodes[x].up.At? {
      ParentCovers(t, x, ip);
      RootCovers(t, t.nodes[x].up.parent, ip);
    }
  }

  /** The new entry fits below the one it was placed under. */
  lemma {:induction false} PlacedMayHang(t: Trie, p: Option<Id>, ip: Bits, cidr: nat, n: Entry)
    requires Placed(t, p, ip, cidr) && |n.bits| == |ip| && Masked(n.bits, n.cidr) && Agree(n.bits, ip, n.cidr)
    requires p.Some? ==> t.nodes[p.value].cidr < n.cidr
    ensures MayHang(t, SlotFor(t, p, ip), n)
  {
  }

  /** Where the entry in that slot and the new prefix part. */
  lemma {:induction false} PlacedSplits(t: Trie, p: Option<Id>, ip: Bits, cidr: nat, d: Id, m: Bits, c: nat)
    requires Shaped(t) && Placed(t, p, ip, cidr) && Held(t, SlotFor(t, p, ip), |ip|) == Some(d)
    requires cidr <= |ip| == |m| && Agree(m, ip, cidr) && d in t.nodes && |t.nodes[d].bits| == |ip|
    requires c == if CommonBits(t.nodes[d].bits, m) < cidr then CommonBits(t.nodes[d].bits, m) else cidr
    ensures c < t.nodes[d].cidr <= |ip| && Agree(t.nodes[d].bits, m, c) && (c < cidr ==> t.nodes[d].bits[c] != m[c])
    ensures p.Some? ==> t.nodes[p.value].cidr < c
  {
    assert UpOk(t, d) && LinkOk(t, SlotFor(t, p, ip), |ip|);
    var b, r := t.nodes[d].bits, CommonBits(t.nodes[d].bits, m);
    assert Agree(b, m, c);
    if t.nodes[d].cidr <= c {
      assert Agree(b, ip, t.nodes[d].cidr);
      assert false;
    }
    if p.Some? {
      AgreeOneMore(t.nodes[p.value], ip[t.nodes[p.value].cidr], t.nodes[d], m);
    }
  }

  lemma {:induction false} AgreeOneMore(n: Entry, b: bool, d: Entry, m: Bits)
    requires Below(n, b, d) && |m| == |d.bits| && Agree(n.bits, m, n.cidr) && m[n.cidr] == b
    ensures CommonBits(d.bits, m) > n.cidr
  {
    assert Agree(d.bits, m, n.cidr + 1);
    CommonMeans(d.bits, m, n.cidr + 1);
  }

  // ---------- the way down ----------

  /** Everything that contains the address and is longer than `seen` bits is at or below `node`. */
  ghost predicate Ahead(t: Trie, ip: Bits, node: Option<Id>, seen: int) {
    && (node.Some? ==> node.value in t.nodes && |t.nodes[node.value].bits| == |ip| && seen < t.nodes[node.value].cidr <= |ip|)
    && forall x :: CoversAt(t, x, ip) && t.nodes[x].cidr > seen ==>
                     node.Some? && CoversAt(t, node.value, ip) && t.nodes[node.value].cidr <= t.nodes[x].cidr
  }

  /** `best` is the longest entry with a peer among those of at most `seen` bits. */
  ghost predicate Best(t: Trie, ip: Bits, seen: int, best: Option<Id>) {
    && (best.Some? ==> CoversAt(t, best.value, ip) && t.nodes[best.value].peer.Some? && t.nodes[best.value].cidr <= seen)
    && forall x :: CoversAt(t, x, ip) && t.nodes[x].cidr <= seen && t.nodes[x].peer.Some? ==>
                     best.Some? && t.nodes[x].cidr <= t.nodes[best.value].cidr
  }

  lemma {:induction false} StartDown(t: Trie, ip: Bits)
    requires Shaped(t)
    ensures Ahead(t, ip, Held(t, Root, |ip|), -1) && Best(t, ip, -1, None)
  {
    assert LinkOk(t, Root, |ip|);
    var r := Held(t, Root, |ip|);
    if r.Some? {
      assert UpOk(t, r.value);
    }
    forall x | CoversAt(t, x, ip)
      ensures r.Some? && CoversAt(t, r.value, ip) && t.nodes[r.value].cidr <= t.nodes[x].cidr
    {
      RootLeast(t, x);
      RootCovers(t, x, ip);
    }
  }

  lemma {:induction false} NextDown(t: Trie, ip: Bits, c: Id, seen: int)
    requires Shaped(t) && Ahead(t, ip, Some(c), seen) && Covers(t.nodes[c], ip) && t.nodes[c].cidr < |ip|
    ensures Ahead(t, ip, Kid(t.nodes[c], ip[t.nodes[c].cidr]), t.nodes[c].cidr)
  {
    var s := At(c, ip[t.nodes[c].cidr]);
    var k := Held(t, s, |ip|);
    assert LinkOk(t, s, |ip|);
    forall x | CoversAt(t, x, ip) && t.nodes[x].cidr > t.nodes[c].cidr
      ensures k.Some? && CoversAt(t, k.value, ip) && t.nodes[k.value].cidr <= t.nodes[x].cidr
    {
      Chain(t, c, x, ip);
    }
  }

  lemma {:induction false} NextBest(t: Trie, ip: Bits, c: Id, seen: int, best: Option<Id>)
    requires Shaped(t) && Ahead(t, ip, Some(c), seen) && Best(t, ip, seen, best) && Covers(t.nodes[c], ip)
    ensures Best(t, ip, t.nodes[c].cidr, if t.nodes[c].peer.Some? then Some(c) else best)
  {
    forall x | CoversAt(t, x, ip) && seen < t.nodes[x].cidr <= t.nodes[c].cidr
      ensures x == c
    {
      Chain(t, c, x, ip);
    }
  }

  /** The longest entry with a peer is the longest match of the table. */
  lemma {:induction false} BestIsLongest(t: Trie, table: Table, ip: Bits, best: Option<Id>, found: Option<Peer>)
    requires Represents(t, table) && Best(t, ip, |ip|, best) && (forall x :: CoversAt(t, x, ip) ==> t.nodes[x].cidr <= |ip|)
    requires found == if best.Some? then t.nodes[best.value].peer else None
    ensures IsLongestMatch(table, ip, found)
  {
    forall q | q in table && Contains(q, ip)
      ensures best.Some? && q.cidr <= t.nodes[best.value].cidr
    {
      var x :| Owned(t, x, q, table[q]);
      assert CoversAt(t, x, ip);
    }
    if best.Some? {
      var q := Pfx(t.nodes[best.value]);
      assert Owned(t, best.value, q, found.value);
      assert q in table && Contains(q, ip) && table[q] == found.value;
    }
  }

  // ---------- the peer of an entry ----------

  function SetPeer(t: Trie, id: Id, p: Option<Peer>): Trie
    requires id in t.nodes
  {
    t.(nodes := t.nodes[id := t.nodes[id].(peer := p)])
  }

  lemma {:induction false} SetPeerKeeps(t: Trie, id: Id, p: Option<Peer>, x: Id, s: Slot, w: nat)
    requires id in t.nodes && LinkOk(t, s, w) && (x in t.nodes ==> UpOk(t, x))
    ensures LinkOk(SetPeer(t, id, p), s, w) && (x in t.nodes ==> UpOk(SetPeer(t, id, p), x))
  {
    assert Held(SetPeer(t, id, p), s, w) == Held(t, s, w);
  }

  lemma {:induction false} SetPeerShaped(t: Trie, id: Id, p: Option<Peer>)
    requires Shaped(t) && id in t.nodes
    ensures Shaped(SetPeer(t, id, p))
  {
    var t' := SetPeer(t, id, p);
    forall x | x in t'.nodes
      ensures UpOk(t', x)
    {
      assert UpOk(t, x) && LinkOk(t, Root, 0);
      SetPeerKeeps(t, id, p, x, Root, 0);
    }
    forall s, w
      ensures LinkOk(t', s, w)
    {
      assert UpOk(t, id) && LinkOk(t, s, w);
      SetPeerKeeps(t, id, p, id, s, w);
    }
  }

  lemma {:induction false} SetPeerTight(t: Trie, id: Id, p: Option<Peer>)
    requires Tight(t) && id in t.nodes
    ensures TightBut(SetPeer(t, id, p), id) && (p.Some? ==> Tight(SetPeer(t, id, p)))
  {
  }

  lemma {:induction false} SetPeerOwned(t: Trie, id: Id, p: Option<Peer>)
    requires id in t.nodes
    ensures p.Some? ==> Gives(t, SetPeer(t, id, p), id, Pfx(t.nodes[id]), p.value)
    ensures p.None? ==> Drops(t, SetPeer(t, id, p), id)
  {
  }

  // ---------- everything together ----------

  ghost predicate Good(t: Trie, table: Table, lists: Lists, next: Id) {
    Shaped(t) && Tight(t) && Represents(t, table) && Listed(t, lists) && forall x :: x in t.nodes ==> x < next
  }

  /** Storing a prefix in a new entry. */
  lemma {:induction false} StoredNew(t: Trie, table: Table, lists: Lists, next: Id, t': Trie, id: Id, q: Prefix, p: Peer, next': Id)
    requires Good(t, table, lists, next) && id !in t.nodes && Shaped(t') && Tight(t') && Gives(t, t', id, q, p)
    requires forall x :: x in t.nodes ==> Pfx(t.nodes[x]) != q
    requires forall x :: x in t'.nodes ==> x < next'
    ensures Good(t', table[q := p], PushBack(lists, p, id), next')
  {
    GivesTable(t, t', id, q, p, table);
    GivesLists(t, t', id, q, p, lists);
  }

  /** The lists without an entry. */
  function Delisted(t: Trie, lists: Lists, id: Id): Lists
    requires id in t.nodes
  {
    if t.nodes[id].peer.Some? then ListRemove(lists, t.nodes[id].peer.value, id) else lists
  }

  lemma {:induction false} DelistedOk(t: Trie, lists: Lists, id: Id)
    requires Listed(t, lists) && id in t.nodes
    ensures Listed(SetPeer(t, id, None), Delisted(t, lists, id))
  {
    var t0 := SetPeer(t, id, None);
    if t.nodes[id].peer.Some? {
      SetPeerOwned(t, id, None);
      DropsLists(t, t0, id, t.nodes[id].peer.value, lists);
    } else {
      assert t0 == t;
    }
  }

  lemma {:induction false} RelistedOk(t: Trie, lists: Lists, id: Id, p: Peer)
    requires Listed(t, lists) && id in t.nodes
    ensures Listed(SetPeer(t, id, Some(p)), PushBack(Delisted(t, lists, id), p, id))
  {
    DelistedOk(t, lists, id);
    var t0 := SetPeer(t, id, None);
    SetPeerOwned(t0, id, Some(p));
    assert SetPeer(t0, id, Some(p)) == SetPeer(t, id, Some(p));
    GivesLists(t0, SetPeer(t, id, Some(p)), id, Pfx(t0.nodes[id]), p, Delisted(t, lists, id));
  }

  /** Storing a prefix in the entry that has it. */
  lemma {:induction false} StoredOver(t: Trie, table: Table, lists: Lists, next: Id, id: Id, p: Peer)
    requires Good(t, table, lists, next) && id in t.nodes
    ensures Good(SetPeer(t, id, Some(p)), table[Pfx(t.nodes[id]) := p], PushBack(Delisted(t, lists, id), p, id), next)
  {
    SetPeerShaped(t, id, Some(p));
    SetPeerTight(t, id, Some(p));
    SetPeerOwned(t, id, Some(p));
    OnlyOwner(t, id);
    GivesTable(t, SetPeer(t, id, Some(p)), id, Pfx(t.nodes[id]), p, table);
    RelistedOk(t, lists, id, p);
  }

  lemma {:induction false} OnlyOwner(t: Trie, id: Id)
    requires Shaped(t) && id in t.nodes
    ensures forall x, p :: Owned(t, x, Pfx(t.nodes[id]), p) ==> x == id
  {
    forall x, p | Owned(t, x, Pfx(t.nodes[id]), p)
      ensures x == id
    {
      SamePrefixSameEntry(t, x, id);
    }
  }

  /** The prefix is not in the trie where it was placed without an exact match. */
  lemma {:induction false} PlacedIsNew(t: Trie, p: Option<Id>, ip: Bits, cidr: nat)
    requires Shaped(t) && Placed(t, p, ip, cidr) && cidr <= |ip|
    ensures forall x :: x in t.nodes ==> Pfx(t.nodes[x]) != Prefix(Mask(ip, cidr), cidr)
  {
    forall x | x in t.nodes
      ensures Pfx(t.nodes[x]) != Prefix(Mask(ip, cidr), cidr)
    {
      if Pfx(t.nodes[x]) == Prefix(Mask(ip, cidr), cidr) {
        assert CoversAt(t, x, ip);
        PlacedIsAbsent(t, p, ip, cidr, x);
      }
    }
  }

  // ---------- the three ways to insert ----------

  lemma {:induction false} LeafStored(t: Trie, table: Table, lists: Lists, next: Id, p: Option<Id>, ip: Bits, cidr: nat, peer: Peer, n: Entry)
    requires Good(t, table, lists, next) && Placed(t, p, ip, cidr) && cidr <= |ip| && Held(t, SlotFor(t, p, ip), |ip|).None?
    requires n == Entry(Some(peer), None, None, SlotFor(t, p, ip), cidr, Mask(ip, cidr))
    ensures IsSlot(t, n.up) && Good(AddLeaf(t, next, n), table[Pfx(n) := peer], PushBack(lists, peer, next), next + 1)
  {
    PlacedMayHang(t, p, ip, cidr, n);
    AddLeafShaped(t, next, n);
    LeafGives(t, next, n, peer);
    LeafTight(t, next, n, next);
    PlacedIsNew(t, p, ip, cidr);
    forall x | x in AddLeaf(t, next, n).nodes
      ensures x < next + 1
    {
      AddLeafNode(t, next, n, x);
    }
    StoredNew(t, table, lists, next, AddLeaf(t, next, n), next, Pfx(n), peer, next + 1);
  }

  lemma {:induction false} AboveStored(t: Trie, table: Table, lists: Lists, next: Id, p: Option<Id>, ip: Bits, cidr: nat, peer: Peer, n: Entry, d: Id)
    requires Good(t, table, lists, next) && Placed(t, p, ip, cidr) && cidr <= |ip|
    requires Held(t, SlotFor(t, p, ip), |ip|) == Some(d) && d in t.nodes && t.nodes[d].up == SlotFor(t, p, ip) && |t.nodes[d].bits| == |ip|
    requires CommonBits(t.nodes[d].bits, Mask(ip, cidr)) >= cidr
    requires n == Entry(Some(peer), None, None, t.nodes[d].up, cidr, Mask(ip, cidr))
    ensures MayInsertAbove(t, next, n, d)
    ensures Good(InsertAbove(t, next, n, d), table[Pfx(n) := peer], PushBack(lists, peer, next), next + 1)
  {
    PlacedMayHang(t, p, ip, cidr, n);
    PlacedSplits(t, p, ip, cidr, d, Mask(ip, cidr), cidr);
    InsertAboveShaped(t, next, n, d);
    AboveTight(t, next, n, d);
    PlacedIsNew(t, p, ip, cidr);
    var t' := InsertAbove(t, next, n, d);
    forall x, q', p'
      ensures Owned(t', x, q', p') <==> if x == next then q' == Pfx(n) && p' == peer else Owned(t, x, q', p')
    {
      AboveOwned(t, next, n, d, x, q', p');
    }
    forall x | x in t'.nodes
      ensures x < next + 1
    {
      InsertAboveNode(t, next, n, d, x);
    }
    StoredNew(t, table, lists, next, t', next, Pfx(n), peer, next + 1);
  }

  ghost predicate AddsNode(t: Trie, t': Trie, i: Id) { forall x :: x in t'.nodes <==> x in t.nodes || x == i }

  ghost predicate SameOwners(t: Trie, t': Trie) { forall x, q, r :: Owned(t', x, q, r) <==> Owned(t, x, q, r) }

  /** An entry without a peer may go above `d`, where its prefix and the new one part. */
  lemma {:induction false} BranchFits(t: Trie, p: Option<Id>, ip: Bits, cidr: nat, d: Id, i: Id, m: Bits, c: nat, b: Entry)
    requires Shaped(t) && Placed(t, p, ip, cidr) && cidr <= |ip| == |m| && Agree(m, ip, cidr) && i !in t.nodes
    requires Held(t, SlotFor(t, p, ip), |ip|) == Some(d) && d in t.nodes && t.nodes[d].up == SlotFor(t, p, ip) && |t.nodes[d].bits| == |ip|
    requires c == CommonBits(t.nodes[d].bits, m) < cidr
    requires b == Entry(None, None, None, t.nodes[d].up, c, b.bits) && |b.bits| == |m| && Masked(b.bits, c) && Agree(b.bits, m, c)
    ensures MayInsertAbove(t, i, b, d) && t.nodes[d].bits[c] != m[c]
  {
    PlacedSplits(t, p, ip, cidr, d, m, c);
    AgreeTrans(b.bits, m, ip, c);
    PlacedMayHang(t, p, ip, cidr, b);
    AgreeTrans(b.bits, m, t.nodes[d].bits, c);
    assert UpOk(t, d) && LinkOk(t, t.nodes[d].up, |ip|);
  }

  lemma {:induction false} AgreeTrans(x: Bits, y: Bits, z: Bits, k: nat)
    requires Agree(x, y, k) && (Agree(y, z, k) || Agree(z, y, k))
    ensures Agree(x, z, k)
  {
  }

  /** Then it has `d` on one side and nothing on the other. */
  lemma {:induction false} BranchKids(t: Trie, i: Id, b: Entry, d: Id, bit: bool, t': Trie)
    requires MayInsertAbove(t, i, b, d) && t' == InsertAbove(t, i, b, d) && t.nodes[d].bits[b.cidr] != bit
    ensures i in t'.nodes && SameBut(b, t'.nodes[i], t.nodes[d].up) && Kid(t'.nodes[i], bit).None? && Kid(t'.nodes[i], !bit).Some?
  {
    InsertAboveNode(t, i, b, d, i);
    InsertAboveHeld(t, i, b, d, At(i, bit), |b.bits|);
    InsertAboveHeld(t, i, b, d, At(i, !bit), |b.bits|);
    KidIsHeld(t', i, bit, |b.bits|);
    KidIsHeld(t', i, !bit, |b.bits|);
  }

  lemma {:induction false} BranchAdds(t: Trie, i: Id, b: Entry, d: Id, t': Trie)
    requires MayInsertAbove(t, i, b, d) && t' == InsertAbove(t, i, b, d) && b.peer.None?
    ensures AddsNode(t, t', i) && SameOwners(t, t')
  {
    forall x
      ensures x in t'.nodes <==> x in t.nodes || x == i
    {
      InsertAboveNode(t, i, b, d, x);
    }
    forall x, q, r
      ensures Owned(t', x, q, r) <==> Owned(t, x, q, r)
    {
      AboveOwned(t, i, b, d, x, q, r);
    }
  }

  /** A leaf under the other bit of that entry. */
  lemma {:induction false} BranchLeaf(t: Trie, i: Id, id: Id, n: Entry, peer: Peer, m: Bits, c: nat)
    requires Shaped(t) && TightBut(t, i) && i in t.nodes && id !in t.nodes
    requires t.nodes[i].cidr == c < n.cidr <= |m| && t.nodes[i].bits == Mask(m, c) && Masked(m, n.cidr)
    requires Kid(t.nodes[i], m[c]).None? && Kid(t.nodes[i], !m[c]).Some?
    requires n == Entry(Some(peer), None, None, At(i, m[c]), n.cidr, m)
    ensures var t' := AddLeaf(t, id, n);
            Shaped(t') && Tight(t') && Gives(t, t', id, Pfx(n), peer) && AddsNode(t, t', id)
  {
    AddLeafShaped(t, id, n);
    LeafGives(t, id, n, peer);
    LeafTight(t, id, n, i);
    forall x
      ensures x in AddLeaf(t, id, n).nodes <==> x in t.nodes || x == id
    {
      AddLeafNode(t, id, n, x);
    }
  }

  lemma {:induction false} BranchNew(t: Trie, t1: Trie, t2: Trie, table: Table, lists: Lists, next: Id, q: Prefix, p: Peer)
    requires Good(t, table, lists, next) && (forall x :: x in t.nodes ==> Pfx(t.nodes[x]) != q)
    requires AddsNode(t, t1, next + 1) && AddsNode(t1, t2, next) && SameOwners(t, t1)
    requires Gives(t1, t2, next, q, p) && Shaped(t2) && Tight(t2)
    ensures Good(t2, table[q := p], PushBack(lists, p, next), next + 2)
  {
    forall x, q', p'
      ensures Owned(t2, x, q', p') <==> if x == next then q' == q && p' == p else Owned(t, x, q', p')
    {
      assert Owned(t1, x, q', p') <==> Owned(t, x, q', p');
    }
    StoredNew(t, table, lists, next, t2, next, q, p, next + 2);
  }

  // ---------- removal ----------

  /** After its peer is gone an entry leaves, unless it branches; an entry without a peer that it
      leaves with one child leaves too. */
  lemma {:induction false} Collapses(t: Trie, id: Id)
    requires Shaped(t) && TightBut(t, id) && id in t.nodes && t.nodes[id].peer.None?
    requires t.nodes[id].kid0.None? || t.nodes[id].kid1.None?
    ensures MayUnlink(t, id)
    ensures t.nodes[id].up.At? ==> t.nodes[id].up.parent in t.nodes && t.nodes[id].up.parent != id
    ensures var t1 := Unlink(t, id);
            && Shaped(t1) && Drops(t, t1, id) && (forall x :: x in t1.nodes ==> x in t.nodes)
            && (OnlyKid(t.nodes[id]).Some? || t.nodes[id].up.Root? ==> Tight(t1))
            && (t.nodes[id].up.At? ==> t.nodes[id].up.parent in t1.nodes && TightBut(t1, t.nodes[id].up.parent))
            && (t.nodes[id].up.At? && OnlyKid(t.nodes[id]).None? ==>
                  var p := t1.nodes[t.nodes[id].up.parent];
                  Kid(p, t.nodes[id].up.bit).None? && (p.peer.None? ==> Kid(p, !t.nodes[id].up.bit).Some?))
  {
    UnlinkShaped(t, id);
    UnlinkDrops(t, id);
    UnlinkTight(t, id);
    forall x | x in Unlink(t, id).nodes
      ensures x in t.nodes
    {
      UnlinkNode(t, id, x);
    }
    if t.nodes[id].up.At? {
      UnlinkNode(t, id, t.nodes[id].up.parent);
      UnlinkHeld(t, id, t.nodes[id].up, |t.nodes[id].bits|);
      UnlinkHeld(t, id, At(t.nodes[id].up.parent, !t.nodes[id].up.bit), |t.nodes[id].bits|);
    }
  }

  lemma {:induction false} DropsTwice(t: Trie, t0: Trie, t1: Trie, id: Id)
    requires Drops(t, t0, id) && Drops(t0, t1, id)
    ensures Drops(t, t1, id)
  {
    forall x, q, p
      ensures Owned(t1, x, q, p) <==> x != id && Owned(t, x, q, p)
    {
      assert Owned(t0, x, q, p) <==> x != id && Owned(t, x, q, p);
    }
  }

  /** A branching entry that was left with one child. */
  lemma {:induction false} CollapsesParent(t: Trie, id: Id)
    requires Shaped(t) && TightBut(t, id) && id in t.nodes && t.nodes[id].peer.None?
    requires (t.nodes[id].kid0.None? && t.nodes[id].kid1.Some?) || (t.nodes[id].kid0.Some? && t.nodes[id].kid1.None?)
    ensures MayUnlink(t, id)
    ensures t.nodes[id].up.At? ==> t.nodes[id].up.parent in t.nodes && t.nodes[id].up.parent != id
    ensures Shaped(Unlink(t, id)) && Tight(Unlink(t, id)) && (forall x :: x in Unlink(t, id).nodes ==> x in t.nodes)
    ensures forall x, q, p :: Owned(Unlink(t, id), x, q, p) <==> Owned(t, x, q, p)
  {
    Collapses(t, id);
  }

  lemma {:induction false} Removed(t: Trie, table: Table, lists: Lists, next: Id, id: Id, p: Peer, t': Trie)
    requires Good(t, table, lists, next) && OwnedBy(t, id, p) && Shaped(t') && Tight(t')
    requires Drops(t, t', id) && forall x :: x in t'.nodes ==> x in t.nodes
    ensures Good(t', table - {Pfx(t.nodes[id])}, ListRemove(lists, p, id), next)
  {
    OnlyOwner(t, id);
    DropsTable(t, t', id, Pfx(t.nodes[id]), p, table);
    DropsLists(t, t', id, p, lists);
  }

  lemma {:induction false} NotStored(t: Trie, table: Table, node: Option<Id>, exact: bool, ip: Bits, cidr: nat, peer: Peer)
    requires Shaped(t) && Represents(t, table) && cidr <= |ip|
    requires exact ==> node.Some? && CoversAt(t, node.value, ip) && t.nodes[node.value].cidr == cidr
    requires if exact then t.nodes[node.value].peer != Some(peer) else Placed(t, node, ip, cidr)
    ensures var q := Prefix(Mask(ip, cidr), cidr); q !in table || table[q] != peer
  {
    var q := Prefix(Mask(ip, cidr), cidr);
    if q in table && table[q] == peer {
      var x :| Owned(t, x, q, peer);
      if exact {
        Chain(t, node.value, x, ip);
      } else {
        PlacedIsAbsent(t, node, ip, cidr, x);
      }
    }
  }

  /** Only prefixes of the peer are missing. */
  ghost predicate Remaining(all: Table, table: Table, p: Peer) {
    (forall q :: q in table ==> q in all && table[q] == all[q]) && forall q :: q in all && all[q] != p ==> q in table
  }

  lemma {:induction false} RemainingAll(all: Table, table: Table, p: Peer)
    requires Remaining(all, table, p) && forall q :: q in table ==> table[q] != p
    ensures table == map q | q in all && all[q] != p :: all[q]
  {
  }

  lemma {:induction false} NothingLeft(t: Trie, table: Table, lists: Lists, p: Peer)
    requires Represents(t, table) && ListOk(t, lists, p) && ListOf(lists, p) == []
    ensures forall q :: q in table ==> table[q] != p
  {
    forall q | q in table
      ensures table[q] != p
    {
      var x :| Owned(t, x, q, table[q]);
      assert OwnedBy(t, x, table[q]);
    }
  }

  lemma {:induction false} ListedPrefixes(t: Trie, table: Table, lists: Lists, p: Peer, ps: seq<Prefix>)
    requires Shaped(t) && Represents(t, table) && ListOk(t, lists, p) && |ps| == |ListOf(lists, p)|
    requires forall k :: 0 <= k < |ps| ==> ListOf(lists, p)[k] in t.nodes && ps[k] == Pfx(t.nodes[ListOf(lists, p)[k]])
    ensures forall q :: q in ps <==> q in table && table[q] == p
    ensures forall i, j :: 0 <= i < j < |ps| ==> ps[i] != ps[j]
  {
    var ids := ListOf(lists, p);
    forall q
      ensures q in ps <==> q in table && table[q] == p
    {
      if q in ps {
        var k :| 0 <= k < |ps| && ps[k] == q;
        assert ids[k] in ids;
        assert Owned(t, ids[k], q, p);
      }
      if q in table && table[q] == p {
        var x :| Owned(t, x, q, p);
        assert OwnedBy(t, x, p);
        var k :| 0 <= k < |ids| && ids[k] == x;
        assert ps[k] == q;
      }
    }
    forall i, j | 0 <= i < j < |ps|
      ensures ps[i] != ps[j]
    {
      if ps[i] == ps[j] {
        SamePrefixSameEntry(t, ids[i], ids[j]);
      }
    }
  }

  // ---------- the table ----------

  class AllowedIpTable {
    var trie: Trie
    var lists: Lists
    var next: Id
    ghost var table: Table

    ghost predicate Valid()
      reads this
    {
      Good(trie, table, lists, next)
    }

    constructor ()
      ensures Valid() && table == map[]
    {
      trie, lists, next, table := Trie(map[], map[]), map[], 0, map[];
    }

    /** Walks down as long as the entries contain the prefix and are not longer than it. */
    method NodePlacement(ip: Bits, cidr: nat) returns (parent: Option<Id>, exact: bool)
      requires Valid() && cidr <= |ip|
      ensures exact ==> parent.Some? && CoversAt(trie, parent.value, ip) && trie.nodes[parent.value].cidr == cidr
      ensures !exact ==> Placed(trie, parent, ip, cidr)
    {
      parent, exact := None, false;
      var node := Held(trie, Root, |ip|);
      ghost var seen: int := -1;
      assert LinkOk(trie, Root, |ip|);
      while node.Some? && trie.nodes[node.value].cidr <= cidr
            && CommonBits(trie.nodes[node.value].bits, ip) >= trie.nodes[node.value].cidr
        invariant parent.Some? ==> CoversAt(trie, parent.value, ip) && seen == trie.nodes[parent.value].cidr < cidr
        invariant node == Held(trie, SlotFor(trie, parent, ip), |ip|) && -1 <= seen < |ip|
        invariant node.Some? ==> node.value in trie.nodes && |trie.nodes[node.value].bits| == |ip| && trie.nodes[node.value].cidr > seen
        decreases |ip| - seen
      {
        var n := trie.nodes[node.value];
        CommonMeans(n.bits, ip, n.cidr);
        parent := node;
        if n.cidr == cidr {
          return parent, true;
        }
        node := Kid(n, ip[n.cidr]);
        seen := n.cidr;
        assert LinkOk(trie, At(parent.value, ip[n.cidr]), |ip|);
      }
      if node.Some? {
        CommonMeans(trie.nodes[node.value].bits, ip, trie.nodes[node.value].cidr);
      }
    }

    /** Stores a prefix; it replaces an equal one. */
    method Insert(ip: Bits, cidr: nat, peer: Peer)
      requires Valid() && cidr <= |ip|
      modifies this
      ensures Valid() && table == old(table)[Prefix(Mask(ip, cidr), cidr) := peer]
    {
      var node, exact := NodePlacement(ip, cidr);
      if exact {
        InsertExact(node.value, ip, cidr, peer);
        return;
      }
      var slot := SlotFor(trie, node, ip);
      var down := Held(trie, slot, |ip|);
      if down.None? {
        InsertLeaf(node, ip, cidr, peer);
        return;
      }
      assert LinkOk(trie, slot, |ip|);
      var common := CommonBits(trie.nodes[down.value].bits, Mask(ip, cidr));
      if common < cidr {
        InsertBranch(node, ip, cidr, peer, down.value, common);
      } else {
        InsertOver(node, ip, cidr, peer, down.value);
      }
    }

    method Install(t: Trie, id: Id, ghost q: Prefix, peer: Peer, next': Id)
      requires Good(t, table[q := peer], PushBack(lists, peer, id), next')
      modifies this
      ensures Valid() && table == old(table)[q := peer]
    {
      trie, next := t, next';
      lists, table := PushBack(lists, peer, id), table[q := peer];
    }

    method InsertExact(id: Id, ghost ip: Bits, ghost cidr: nat, peer: Peer)
      requires Valid() && CoversAt(trie, id, ip) && trie.nodes[id].cidr == cidr <= |ip|
      modifies this
      ensures Valid() && table == old(table)[Prefix(Mask(ip, cidr), cidr) := peer]
    {
      StoredOver(trie, table, lists, next, id, peer);
      assert UpOk(trie, id);
      MaskUnique(trie.nodes[id].bits, Mask(ip, cidr), cidr);
      if trie.nodes[id].peer.Some? {
        lists := ListRemove(lists, trie.nodes[id].peer.value, id);
      }
      Install(SetPeer(trie, id, Some(peer)), id, Pfx(trie.nodes[id]), peer, next);
    }

    method InsertLeaf(node: Option<Id>, ip: Bits, cidr: nat, peer: Peer)
      requires Valid() && cidr <= |ip| && Placed(trie, node, ip, cidr) && Held(trie, SlotFor(trie, node, ip), |ip|).None?
      modifies this
      ensures Valid() && table == old(table)[Prefix(Mask(ip, cidr), cidr) := peer]
    {
      var n := Entry(Some(peer), None, None, SlotFor(trie, node, ip), cidr, Mask(ip, cidr));
      LeafStored(trie, table, lists, next, node, ip, cidr, peer, n);
      Install(AddLeaf(trie, next, n), next, Pfx(n), peer, next + 1);
    }

    method InsertOver(node: Option<Id>, ip: Bits, cidr: nat, peer: Peer, down: Id)
      requires Valid() && cidr <= |ip| && Placed(trie, node, ip, cidr) && Held(trie, SlotFor(trie, node, ip), |ip|) == Some(down)
      requires down in trie.nodes && trie.nodes[down].up == SlotFor(trie, node, ip) && |trie.nodes[down].bits| == |ip|
      requires CommonBits(trie.nodes[down].bits, Mask(ip, cidr)) >= cidr
      modifies this
      ensures Valid() && table == old(table)[Prefix(Mask(ip, cidr), cidr) := peer]
    {
      var n := Entry(Some(peer), None, None, trie.nodes[down].up, cidr, Mask(ip, cidr));
      AboveStored(trie, table, lists, next, node, ip, cidr, peer, n, down);
      Install(InsertAbove(trie, next, n, down), next, Pfx(n), peer, next + 1);
    }

    method InsertBranch(node: Option<Id>, ip: Bits, cidr: nat, peer: Peer, down: Id, common: nat)
      requires Valid() && cidr <= |ip| && Placed(trie, node, ip, cidr) && Held(trie, SlotFor(trie, node, ip), |ip|) == Some(down)
      requires down in trie.nodes && trie.nodes[down].up == SlotFor(trie, node, ip) && |trie.nodes[down].bits| == |ip|
      requires common == CommonBits(trie.nodes[down].bits, Mask(ip, cidr)) < cidr
      modifies this
      ensures Valid() && table == old(table)[Prefix(Mask(ip, cidr), cidr) := peer]
    {
      ghost var t := trie;
      PlacedIsNew(t, node, ip, cidr);
      var bits := Mask(ip, cidr);
      Branch(node, ip, cidr, bits, down, common);
      LeafUnderBranch(t, bits, cidr, peer, common);
    }

    /** Hangs the new entry under the other bit of the branching entry. */
    method LeafUnderBranch(ghost t: Trie, bits: Bits, cidr: nat, peer: Peer, common: nat)
      requires Good(t, table, lists, next) && Shaped(trie) && TightBut(trie, next + 1) && next + 1 in trie.nodes
      requires common < cidr <= |bits| && Masked(bits, cidr) && (forall x :: x in t.nodes ==> Pfx(t.nodes[x]) != Prefix(bits, cidr))
      requires trie.nodes[next + 1].cidr == common && trie.nodes[next + 1].bits == Mask(bits, common)
      requires Kid(trie.nodes[next + 1], bits[common]).None? && Kid(trie.nodes[next + 1], !bits[common]).Some?
      requires AddsNode(t, trie, next + 1) && SameOwners(t, trie)
      modifies this
      ensures Valid() && table == old(table)[Prefix(bits, cidr) := peer]
    {
      var n := Entry(Some(peer), None, None, At(next + 1, bits[common]), cidr, bits);
      BranchLeaf(trie, next + 1, next, n, peer, bits, common);
      BranchNew(t, trie, AddLeaf(trie, next, n), table, lists, next, Pfx(n), peer);
      Install(AddLeaf(trie, next, n), next, Pfx(n), peer, next + 2);
    }

    /** Puts an entry without a peer above `down`, where its prefix and the new one part. */
    method Branch(ghost node: Option<Id>, ghost ip: Bits, ghost cidr: nat, bits: Bits, down: Id, common: nat)
      requires Shaped(trie) && Tight(trie) && cidr <= |ip| == |bits| && Agree(bits, ip, cidr) && Placed(trie, node, ip, cidr)
      requires next + 1 !in trie.nodes && Held(trie, SlotFor(trie, node, ip), |ip|) == Some(down)
      requires down in trie.nodes && trie.nodes[down].up == SlotFor(trie, node, ip) && |trie.nodes[down].bits| == |ip|
      requires common == CommonBits(trie.nodes[down].bits, bits) < cidr
      modifies this`trie
      ensures Shaped(trie) && TightBut(trie, next + 1) && next + 1 in trie.nodes
      ensures trie.nodes[next + 1].cidr == common && trie.nodes[next + 1].bits == Mask(bits, common)
      ensures Kid(trie.nodes[next + 1], bits[common]).None? && Kid(trie.nodes[next + 1], !bits[common]).Some?
      ensures AddsNode(old(trie), trie, next + 1) && SameOwners(old(trie), trie)
    {
      var b := Entry(None, None, None, trie.nodes[down].up, common, Mask(bits, common));
      BranchFits(trie, node, ip, cidr, down, next + 1, bits, common, b);
      AttachAbove(next + 1, b, down, bits[common]);
    }

    method AttachAbove(i: Id, b: Entry, down: Id, ghost bit: bool)
      requires Shaped(trie) && Tight(trie) && MayInsertAbove(trie, i, b, down) && b.peer.None? && trie.nodes[down].bits[b.cidr] != bit
      modifies this`trie
      ensures Shaped(trie) && TightBut(trie, i) && i in trie.nodes && trie.nodes[i].cidr == b.cidr && trie.nodes[i].bits == b.bits
      ensures Kid(trie.nodes[i], bit).None? && Kid(trie.nodes[i], !bit).Some?
      ensures AddsNode(old(trie), trie, i) && SameOwners(old(trie), trie)
    {
      InsertAboveShaped(trie, i, b, down);
      AboveTight(trie, i, b, down);
      BranchKids(trie, i, b, down, bit, InsertAbove(trie, i, b, down));
      BranchAdds(trie, i, b, down, InsertAbove(trie, i, b, down));
      trie := InsertAbove(trie, i, b, down);
    }

    /** Takes an entry's prefix out of the table. */
    method RemoveEntry(id: Id, ghost p: Peer)
      requires Valid() && OwnedBy(trie, id, p)
      modifies this
      ensures Valid() && table == old(table) - {Pfx(old(trie).nodes[id])}
      ensures lists == ListRemove(old(lists), p, id)
    {
      ghost var t, q := trie, Pfx(trie.nodes[id]);
      var peer := trie.nodes[id].peer.value;
      Detach(id);
      Removed(t, table, lists, next, id, p, trie);
      Uninstall(id, q, peer);
    }

    method Uninstall(id: Id, ghost q: Prefix, peer: Peer)
      requires Good(trie, table - {q}, ListRemove(lists, peer, id), next)
      modifies this`lists, this`table
      ensures Valid() && table == old(table) - {q} && lists == ListRemove(old(lists), peer, id)
    {
      lists, table := ListRemove(lists, peer, id), table - {q};
    }

    method Detach(id: Id)
      requires Shaped(trie) && Tight(trie) && id in trie.nodes
      modifies this`trie
      ensures Shaped(trie) && Tight(trie) && Drops(old(trie), trie, id) && forall x :: x in trie.nodes ==> x in old(trie).nodes
    {
      ghost var t := trie;
      ClearPeer(id);
      ghost var t0 := trie;
      Unhook(id);
      DropsTwice(t, t0, trie, id);
    }

    method ClearPeer(id: Id)
      requires Shaped(trie) && Tight(trie) && id in trie.nodes
      modifies this`trie
      ensures Shaped(trie) && TightBut(trie, id) && id in trie.nodes && trie.nodes[id].peer.None?
      ensures Drops(old(trie), trie, id) && forall x :: x in trie.nodes ==> x in old(trie).nodes
    {
      SetPeerShaped(trie, id, None);
      SetPeerTight(trie, id, None);
      SetPeerOwned(trie, id, None);
      trie := SetPeer(trie, id, None);
    }

    /** The relinking of a removal. */
    method Unhook(id: Id)
      requires Shaped(trie) && TightBut(trie, id) && id in trie.nodes && trie.nodes[id].peer.None?
      modifies this`trie
      ensures Shaped(trie) && Tight(trie) && Drops(old(trie), trie, id) && forall x :: x in trie.nodes ==> x in old(trie).nodes
    {
      var n := trie.nodes[id];
      if n.kid0.Some? && n.kid1.Some? {
        return;
      }
      UnhookOne(id);
      if n.kid0.Some? || n.kid1.Some? || n.up.Root? {
        return;
      }
      if trie.nodes[n.up.parent].peer.Some? {
        return;
      }
      UnhookParent(n.up.parent, n.up.bit);
    }

    /** The entry's only child takes its place. */
    method UnhookOne(id: Id)
      requires Shaped(trie) && TightBut(trie, id) && id in trie.nodes && trie.nodes[id].peer.None?
      requires trie.nodes[id].kid0.None? || trie.nodes[id].kid1.None?
      modifies this`trie
      ensures Shaped(trie) && Drops(old(trie), trie, id) && (forall x :: x in trie.nodes ==> x in old(trie).nodes)
      ensures OnlyKid(old(trie).nodes[id]).Some? || old(trie).nodes[id].up.Root? ==> Tight(trie)
      ensures var s := old(trie).nodes[id].up;
              s.At? ==> s.parent in trie.nodes && TightBut(trie, s.parent)
                        && (OnlyKid(old(trie).nodes[id]).None? ==>
                              Kid(trie.nodes[s.parent], s.bit).None?
                              && (trie.nodes[s.parent].peer.None? ==> Kid(trie.nodes[s.parent], !s.bit).Some?))
    {
      Collapses(trie, id);
      trie := Unlink(trie, id);
    }

    method UnhookParent(parent: Id, bit: bool)
      requires Shaped(trie) && TightBut(trie, parent) && parent in trie.nodes && trie.nodes[parent].peer.None?
      requires Kid(trie.nodes[parent], bit).None? && Kid(trie.nodes[parent], !bit).Some?
      modifies this`trie
      ensures Shaped(trie) && Tight(trie) && (forall x :: x in trie.nodes ==> x in old(trie).nodes)
      ensures forall x, q, p :: Owned(trie, x, q, p) <==> Owned(old(trie), x, q, p)
    {
      CollapsesParent(trie, parent);
      trie := Unlink(trie, parent);
    }

    /** Removes a prefix if it belongs to the peer. */
    method Remove(ip: Bits, cidr: nat, peer: Peer)
      requires Valid() && cidr <= |ip|
      modifies this
      ensures Valid()
      ensures var q := Prefix(Mask(ip, cidr), cidr);
              table == if q in old(table) && old(table)[q] == peer then old(table) - {q} else old(table)
    {
      var node, exact := NodePlacement(ip, cidr);
      ghost var q := Prefix(Mask(ip, cidr), cidr);
      if !exact || trie.nodes[node.value].peer != Some(peer) {
        NotStored(trie, table, node, exact, ip, cidr, peer);
        return;
      }
      assert UpOk(trie, node.value);
      MaskUnique(trie.nodes[node.value].bits, Mask(ip, cidr), cidr);
      assert Owned(trie, node.value, q, peer);
      RemoveEntry(node.value, peer);
    }

    /** Removes every prefix of a peer. */
    method RemoveByPeer(peer: Peer)
      requires Valid()
      modifies this
      ensures Valid() && table == map q | q in old(table) && old(table)[q] != peer :: old(table)[q]
    {
      ghost var all := table;
      while |ListOf(lists, peer)| > 0
        invariant Valid() && Remaining(all, table, peer)
        decreases |ListOf(lists, peer)|
      {
        RemoveFirst(peer, all);
      }
      NothingLeft(trie, table, lists, peer);
      RemainingAll(all, table, peer);
    }

    method RemoveFirst(peer: Peer, ghost all: Table)
      requires Valid() && Remaining(all, table, peer) && ListOf(lists, peer) != []
      modifies this
      ensures Valid() && Remaining(all, table, peer) && |ListOf(lists, peer)| < |ListOf(old(lists), peer)|
    {
      var id := ListOf(lists, peer)[0];
      assert ListOk(trie, lists, peer) && id in ListOf(lists, peer);
      assert Owned(trie, id, Pfx(trie.nodes[id]), peer);
      WithoutDistinct(ListOf(lists, peer), id);
      RemoveEntry(id, peer);
    }

    /** The peer of the longest stored prefix that contains the address. */
    method Lookup(ip: Bits) returns (found: Option<Peer>)
      requires Valid()
      ensures IsLongestMatch(table, ip, found)
    {
      found := None;
      var node := Held(trie, Root, |ip|);
      ghost var seen: int, best: Option<Id> := -1, None;
      StartDown(trie, ip);
      while node.Some? && CommonBits(trie.nodes[node.value].bits, ip) >= trie.nodes[node.value].cidr
        invariant Ahead(trie, ip, node, seen) && Best(trie, ip, seen, best) && seen <= |ip|
        invariant found == if best.Some? then trie.nodes[best.value].peer else None
        decreases |ip| - seen
      {
        var n := trie.nodes[node.value];
        CommonMeans(n.bits, ip, n.cidr);
        NextBest(trie, ip, node.value, seen, best);
        if n.peer.Some? {
          found := n.peer;
          best := node;
        }
        if n.cidr == |ip| {
          seen := n.cidr;
          break;
        }
        NextDown(trie, ip, node.value, seen);
        node := Kid(n, ip[n.cidr]);
        seen := n.cidr;
      }
      if node.Some? {
        CommonMeans(trie.nodes[node.value].bits, ip, trie.nodes[node.value].cidr);
      }
      assert forall x :: CoversAt(trie, x, ip) ==> trie.nodes[x].cidr <= seen;
      BestIsLongest(trie, table, ip, best, found);
    }

    /** The prefixes a peer owns, each once. */
    method EntriesForPeer(peer: Peer) returns (ps: seq<Prefix>)
      requires Valid()
      ensures forall q :: q in ps <==> q in table && table[q] == peer
      ensures forall i, j :: 0 <= i < j < |ps| ==> ps[i] != ps[j]
    {
      var ids := ListOf(lists, peer);
      assert ListOk(trie, lists, peer);
      ps := [];
      for i := 0 to |ids|
        invariant |ps| == i && forall k :: 0 <= k < i ==> ids[k] in trie.nodes && ps[k] == Pfx(trie.nodes[ids[k]])
      {
        assert ids[i] in ids;
        ps := ps + [Pfx(trie.nodes[ids[i]])];
      }
      ListedPrefixes(trie, table, lists, peer, ps);
    }
  }
}
