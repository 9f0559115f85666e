/** The compressed binary trie behind the allowed-IPs table. Entries live in an arena: an id stands
    for a reference to an entry, and a slot for the place a child keeps to find its own reference. */
module AllowedIpsTrie {
  import opened Basics

  type Id = nat
  type Peer = nat
  type Bits = seq<bool>

  /** Where an entry hangs: at the root of its address family or in a child slot. */
  datatype Slot = Root | At(parent: Id, bit: bool)

  datatype Entry = Entry(peer: Option<Peer>, kid0: Option<Id>, kid1: Option<Id>, up: Slot, cidr: nat, bits: Bits)

  /** `roots` is keyed by the length of the addresses. */
  datatype Trie = Trie(nodes: map<Id, Entry>, roots: map<nat, Id>)

  // ---------- bit strings ----------

  ghost predicate Agree(a: Bits, b: Bits, k: nat) {
    k <= |a| && k <= |b| && forall i :: 0 <= i < k ==> a[i] == b[i]
  }

  /** The length of the longest common prefix. */
  function CommonBits(a: Bits, b: Bits): (r: nat)
    requires |a| == |b|
    ensures r <= |a| && Agree(a, b, r) && (r < |a| ==> a[r] != b[r])
  {
    if |a| == 0 || a[0] != b[0] then 0 else
      var r := CommonBits(a[1..], b[1..]);
      assert forall i :: 0 < i < 1 + r ==> a[i] == a[1..][i - 1] && b[i] == b[1..][i - 1];
      1 + r
  }

  lemma {:induction false} CommonMeans(a: Bits, b: Bits, k: nat)
    requires |a| == |b|
    ensures CommonBits(a, b) >= k <==> Agree(a, b, k)
  {
  }

  ghost predicate Masked(a: Bits, k: nat) {
    k <= |a| && forall i :: k <= i < |a| ==> !a[i]
  }

  function Mask(a: Bits, k: nat): (m: Bits)
    requires k <= |a|
    ensures |m| == |a| && Masked(m, k) && Agree(m, a, k)
  {
    seq(|a|, i requires 0 <= i < |a| => i < k && a[i])
  }

  lemma {:induction false} MaskUnique(a: Bits, b: Bits, k: nat)
    requires |a| == |b| && Masked(a, k) && Agree(a, b, k) && Masked(b, k)
    ensures a == b
  {
  }

  // ---------- shape ----------

  function Kid(n: Entry, b: bool): Option<Id> { if b then n.kid1 else n.kid0 }

  function SetKid(n: Entry, b: bool, k: Option<Id>): Entry { if b then n.(kid1 := k) else n.(kid0 := k) }

  /** What a slot points to. */
  function Held(t: Trie, s: Slot, w: nat): Option<Id> {
    match s
    case Root => if w in t.roots then Some(t.roots[w]) else None
    case At(p, b) => if p in t.nodes then Kid(t.nodes[p], b) else None
  }

  /** `c` belongs under bit `b` of `n`. */
  ghost predicate Below(n: Entry, b: bool, c: Entry) {
    |c.bits| == |n.bits| && n.cidr < c.cidr <= |c.bits| && Agree(n.bits, c.bits, n.cidr) && c.bits[n.cidr] == b
  }

  /** A slot that exists: at a root, or in an entry. */
  predicate IsSlot(t: Trie, s: Slot) { s.At? ==> s.parent in t.nodes }

  /** Whoever hangs in the slot knows it and belongs there. */
  ghost predicate LinkOk(t: Trie, s: Slot, w: nat) {
    var k := Held(t, s, w);
    k.Some? ==>
      && k.value in t.nodes && t.nodes[k.value].up == s && IsSlot(t, s)
      && (if s.At? then Below(t.nodes[s.parent], s.bit, t.nodes[k.value]) else |t.nodes[k.value].bits| == w)
  }

  ghost predicate UpOk(t: Trie, id: Id)
    requires id in t.nodes
  {
    var n := t.nodes[id];
    Masked(n.bits, n.cidr) && IsSlot(t, n.up) && Held(t, n.up, |n.bits|) == Some(id)
  }

  /** All links are consistent and prefixes grow downwards. */
  ghost predicate Shaped(t: Trie) {
    (forall id {:trigger UpOk(t, id)} :: id in t.nodes ==> UpOk(t, id)) && (forall s, w {:trigger LinkOk(t, s, w)} :: LinkOk(t, s, w))
  }

  /** Entries without a peer only exist to branch. */
  ghost predicate Tight(t: Trie) {
    forall id :: id in t.nodes && t.nodes[id].peer.None? ==> t.nodes[id].kid0.Some? && t.nodes[id].kid1.Some?
  }

  // ---------- every entry that contains an address is on the way down ----------

  ghost predicate Covers(n: Entry, ip: Bits) { |n.bits| == |ip| && Agree(n.bits, ip, n.cidr) }

  ghost predicate CoversAt(t: Trie, x: Id, ip: Bits) { x in t.nodes && Covers(t.nodes[x], ip) }

  lemma {:induction false} ParentCovers(t: Trie, x: Id, ip: Bits)
    requires Shaped(t) && CoversAt(t, x, ip) && t.nodes[x].up.At?
    ensures var s := t.nodes[x].up;
            && CoversAt(t, s.parent, ip) && t.nodes[s.parent].cidr < t.nodes[x].cidr <= |ip|
            && ip[t.nodes[s.parent].cidr] == s.bit && Kid(t.nodes[s.parent], s.bit) == Some(x)
  {
    var s := t.nodes[x].up;
    assert UpOk(t, x) && LinkOk(t, s, |ip|);
  }

  /** The root is the shortest prefix of its family. */
  lemma {:induction false} RootLeast(t: Trie, x: Id)
    requires Shaped(t) && x in t.nodes
    ensures var w := |t.nodes[x].bits|;
            && w in t.roots && t.roots[w] in t.nodes && t.nodes[t.roots[w]].cidr <= t.nodes[x].cidr
            && (t.nodes[t.roots[w]].cidr == t.nodes[x].cidr ==> t.roots[w] == x)
    decreases t.nodes[x].cidr
  {
    var w := |t.nodes[x].bits|;
    assert UpOk(t, x) && LinkOk(t, t.nodes[x].up, w) && LinkOk(t, Root, w);
    if t.nodes[x].up.At? {
      RootLeast(t, t.nodes[x].up.parent);
    }
  }

  /** Of two entries that contain the same address, the way down from the shorter leads to the longer. */
  lemma {:induction false} Chain(t: Trie, p: Id, x: Id, ip: Bits)
    requires Shaped(t) && CoversAt(t, p, ip) && CoversAt(t, x, ip) && t.nodes[p].cidr <= t.nodes[x].cidr
    ensures p == x || t.nodes[p].cidr < t.nodes[x].cidr <= |ip|
    ensures p != x ==>
              var k := Kid(t.nodes[p], ip[t.nodes[p].cidr]);
              && k.Some? && CoversAt(t, k.value, ip) && t.nodes[k.value].cidr <= t.nodes[x].cidr
              && (t.nodes[k.value].cidr == t.nodes[x].cidr ==> k.value == x)
    decreases t.nodes[x].cidr, t.nodes[p].cidr
  {
    RootLeast(t, p);
    RootLeast(t, x);
    assert UpOk(t, x);
    if t.nodes[x].up.At? {
      var q := t.nodes[x].up.parent;
      ParentCovers(t, x, ip);
      if t.nodes[p].cidr <= t.nodes[q].cidr {
        Chain(t, p, q, ip);
      } else {
        Chain(t, q, p, ip);
      }
    }
  }
}
