/** The ways the links of the trie change: a new leaf, a new entry above another one, and taking an
    entry with at most one child out. */
module AllowedIpsOps {
  import opened Basics
  import opened AllowedIpsTrie

  /** Writes through a slot. */
  function SetHeld(t: Trie, s: Slot, w: nat, k: Option<Id>): Trie
    requires s.At? ==> s.parent in t.nodes
  {
    match s
    case Root => t.(roots := if k.Some? then t.roots[w := k.value] else t.roots - {w})
    case At(p, b) => t.(nodes := t.nodes[p := SetKid(t.nodes[p], b, k)])
  }

  predicate SameSlot(s: Slot, w: nat, s': Slot, w': nat) { s == s' && (s.Root? ==> w == w') }

  lemma {:induction false} SetHeldAt(t: Trie, s: Slot, w: nat, k: Option<Id>, s': Slot, w': nat)
    requires IsSlot(t, s)
    ensures Held(SetHeld(t, s, w, k), s', w') == if SameSlot(s, w, s', w') then k else Held(t, s', w')
  {
  }

  /** Apart from the child links an entry is what it was. */
  predicate SameBut(n: Entry, n': Entry, up: Slot) {
    n'.peer == n.peer && n'.cidr == n.cidr && n'.bits == n.bits && n'.up == up
  }

  lemma {:induction false} SetHeldNode(t: Trie, s: Slot, w: nat, k: Option<Id>, x: Id)
    requires IsSlot(t, s)
    ensures x in SetHeld(t, s, w, k).nodes <==> x in t.nodes
    ensures x in t.nodes ==> SameBut(t.nodes[x], SetHeld(t, s, w, k).nodes[x], t.nodes[x].up)
  {
  }

  /** `n` may hang in slot `s`. */
  ghost predicate MayHang(t: Trie, s: Slot, n: Entry) {
    Masked(n.bits, n.cidr) && IsSlot(t, s) && (s.At? ==> Below(t.nodes[s.parent], s.bit, n))
  }

  // ---------- a new leaf ----------

  function AddLeaf(t: Trie, id: Id, n: Entry): Trie
    requires IsSlot(t, n.up)
  {
    SetHeld(t.(nodes := t.nodes[id := n]), n.up, |n.bits|, Some(id))
  }

  lemma {:induction false} AddLeafNode(t: Trie, id: Id, n: Entry, x: Id)
    requires IsSlot(t, n.up) && id !in t.nodes
    ensures x in AddLeaf(t, id, n).nodes <==> x in t.nodes || x == id
    ensures x in t.nodes ==> SameBut(t.nodes[x], AddLeaf(t, id, n).nodes[x], t.nodes[x].up)
    ensures SameBut(n, AddLeaf(t, id, n).nodes[id], n.up)
  {
    var u := t.(nodes := t.nodes[id := n]);
    SetHeldNode(u, n.up, |n.bits|, Some(id), x);
    SetHeldNode(u, n.up, |n.bits|, Some(id), id);
  }

  lemma {:induction false} AddLeafHeld(t: Trie, id: Id, n: Entry, s: Slot, w: nat)
    requires IsSlot(t, n.up) && id !in t.nodes && n.kid0.None? && n.kid1.None?
    ensures Held(AddLeaf(t, id, n), s, w) == if SameSlot(n.up, |n.bits|, s, w) then Some(id) else Held(t, s, w)
  {
    var u := t.(nodes := t.nodes[id := n]);
    SetHeldAt(u, n.up, |n.bits|, Some(id), s, w);
  }

  lemma {:induction false} AddLeafShaped(t: Trie, id: Id, n: Entry)
    requires Shaped(t) && id !in t.nodes && n.kid0.None? && n.kid1.None?
    requires MayHang(t, n.up, n) && Held(t, n.up, |n.bits|).None?
    ensures Shaped(AddLeaf(t, id, n))
  {
    var t' := AddLeaf(t, id, n);
    forall x | x in t'.nodes
      ensures UpOk(t', x)
    {
      AddLeafUp(t, id, n, x);
    }
    forall s, w
      ensures LinkOk(t', s, w)
    {
      AddLeafLink(t, id, n, s, w);
    }
  }

  lemma {:induction false} AddLeafUp(t: Trie, id: Id, n: Entry, x: Id)
    requires id !in t.nodes && n.kid0.None? && n.kid1.None? && MayHang(t, n.up, n) && Held(t, n.up, |n.bits|).None?
    requires x == id || (x in t.nodes && UpOk(t, x))
    ensures x in AddLeaf(t, id, n).nodes && UpOk(AddLeaf(t, id, n), x)
  {
    AddLeafNode(t, id, n, x);
    var m := if x == id then n else t.nodes[x];
    AddLeafHeld(t, id, n, m.up, |m.bits|);
  }

  lemma {:induction false} AddLeafLink(t: Trie, id: Id, n: Entry, s: Slot, w: nat)
    requires id !in t.nodes && n.kid0.None? && n.kid1.None? && MayHang(t, n.up, n)
    requires LinkOk(t, s, w)
    ensures LinkOk(AddLeaf(t, id, n), s, w)
  {
    AddLeafHeld(t, id, n, s, w);
    if s.At? {
      AddLeafNode(t, id, n, s.parent);
    }
    var k := Held(t, s, w);
    if k.Some? {
      AddLeafNode(t, id, n, k.value);
    }
  }

  // ---------- a new entry above another one ----------

  /** Puts `n` where `d` hangs and `d` under it. */
  function InsertAbove(t: Trie, id: Id, n: Entry, d: Id): Trie
    requires d in t.nodes && n.cidr < |t.nodes[d].bits| && IsSlot(t, t.nodes[d].up)
  {
    var s, b := t.nodes[d].up, t.nodes[d].bits[n.cidr];
    var nodes := t.nodes[d := t.nodes[d].(up := At(id, b))][id := SetKid(n.(up := s), b, Some(d))];
    SetHeld(t.(nodes := nodes), s, |n.bits|, Some(id))
  }

  ghost predicate MayInsertAbove(t: Trie, id: Id, n: Entry, d: Id) {
    && id !in t.nodes && d in t.nodes && n.kid0.None? && n.kid1.None? && UpOk(t, d) && LinkOk(t, t.nodes[d].up, |n.bits|)
    && MayHang(t, t.nodes[d].up, n) && n.cidr < |t.nodes[d].bits| && Below(n, t.nodes[d].bits[n.cidr], t.nodes[d])
  }

  lemma {:induction false} InsertAboveNode(t: Trie, id: Id, n: Entry, d: Id, x: Id)
    requires MayInsertAbove(t, id, n, d)
    ensures var t' := InsertAbove(t, id, n, d);
            && (x in t'.nodes <==> x in t.nodes || x == id) && SameBut(n, t'.nodes[id], t.nodes[d].up)
            && (x in t.nodes ==> SameBut(t.nodes[x], t'.nodes[x], if x == d then At(id, t.nodes[d].bits[n.cidr]) else t.nodes[x].up))
  {
    var s, b := t.nodes[d].up, t.nodes[d].bits[n.cidr];
    var u := t.(nodes := t.nodes[d := t.nodes[d].(up := At(id, b))][id := SetKid(n.(up := s), b, Some(d))]);
    SetHeldNode(u, s, |n.bits|, Some(id), x);
    SetHeldNode(u, s, |n.bits|, Some(id), id);
  }

  lemma {:induction false} InsertAboveHeld(t: Trie, id: Id, n: Entry, d: Id, s: Slot, w: nat)
    requires MayInsertAbove(t, id, n, d)
    ensures Held(InsertAbove(t, id, n, d), s, w) ==
            if SameSlot(t.nodes[d].up, |n.bits|, s, w) then Some(id)
            else if s == At(id, t.nodes[d].bits[n.cidr]) then Some(d) else Held(t, s, w)
  {
    var s', b := t.nodes[d].up, t.nodes[d].bits[n.cidr];
    var u := t.(nodes := t.nodes[d := t.nodes[d].(up := At(id, b))][id := SetKid(n.(up := s'), b, Some(d))]);
    SetHeldAt(u, s', |n.bits|, Some(id), s, w);
  }

  lemma {:induction false} InsertAboveUp(t: Trie, id: Id, n: Entry, d: Id, x: Id)
    requires MayInsertAbove(t, id, n, d) && (x == id || (x in t.nodes && UpOk(t, x)))
    ensures x in InsertAbove(t, id, n, d).nodes && UpOk(InsertAbove(t, id, n, d), x)
  {
    InsertAboveNode(t, id, n, d, x);
    var t' := InsertAbove(t, id, n, d);
    InsertAboveHeld(t, id, n, d, t'.nodes[x].up, |t'.nodes[x].bits|);
  }

  lemma {:induction false} InsertAboveLink(t: Trie, id: Id, n: Entry, d: Id, s: Slot, w: nat)
    requires MayInsertAbove(t, id, n, d) && LinkOk(t, s, w)
    ensures LinkOk(InsertAbove(t, id, n, d), s, w)
  {
    InsertAboveHeld(t, id, n, d, s, w);
    InsertAboveNode(t, id, n, d, d);
    if s.At? {
      InsertAboveNode(t, id, n, d, s.parent);
    }
    var k := Held(t, s, w);
    if k.Some? {
      InsertAboveNode(t, id, n, d, k.value);
    }
  }

  lemma {:induction false} InsertAboveShaped(t: Trie, id: Id, n: Entry, d: Id)
    requires Shaped(t) && id !in t.nodes && d in t.nodes && n.kid0.None? && n.kid1.None?
    requires MayHang(t, t.nodes[d].up, n) && n.cidr < |t.nodes[d].bits| && Below(n, t.nodes[d].bits[n.cidr], t.nodes[d])
    ensures MayInsertAbove(t, id, n, d) && Shaped(InsertAbove(t, id, n, d))
  {
    assert UpOk(t, d) && LinkOk(t, t.nodes[d].up, |n.bits|);
    var t' := InsertAbove(t, id, n, d);
    forall x | x in t'.nodes
      ensures UpOk(t', x)
    {
      InsertAboveNode(t, id, n, d, x);
      InsertAboveUp(t, id, n, d, x);
    }
    forall s, w
      ensures LinkOk(t', s, w)
    {
      InsertAboveLink(t, id, n, d, s, w);
    }
  }

  // ---------- taking an entry out ----------

  /** The only child, if there is one. */
  function OnlyKid(n: Entry): Option<Id> { if n.kid0.None? then n.kid1 else n.kid0 }

  ghost predicate MayUnlink(t: Trie, id: Id) {
    && id in t.nodes && (t.nodes[id].kid0.None? || t.nodes[id].kid1.None?) && UpOk(t, id)
    && LinkOk(t, At(id, false), |t.nodes[id].bits|) && LinkOk(t, At(id, true), |t.nodes[id].bits|)
    && LinkOk(t, t.nodes[id].up, |t.nodes[id].bits|)
  }

  /** The child takes the place of its parent. */
  function Unlink(t: Trie, id: Id): Trie
    requires id in t.nodes && (t.nodes[id].up.At? ==> t.nodes[id].up.parent in t.nodes && t.nodes[id].up.parent != id)
  {
    var n, k := t.nodes[id], OnlyKid(t.nodes[id]);
    var nodes := t.nodes - {id};
    var nodes' := if k.Some? && k.value in nodes then nodes[k.value := nodes[k.value].(up := n.up)] else nodes;
    SetHeld(t.(nodes := nodes'), n.up, |n.bits|, k)
  }

  lemma {:induction false} UnlinkDefined(t: Trie, id: Id)
    requires MayUnlink(t, id)
    ensures t.nodes[id].up.At? ==> t.nodes[id].up.parent in t.nodes && t.nodes[id].up.parent != id
    ensures OnlyKid(t.nodes[id]).Some? ==> OnlyKid(t.nodes[id]).value in t.nodes && OnlyKid(t.nodes[id]).value != id
  {
  }

  lemma {:induction false} UnlinkNode(t: Trie, id: Id, x: Id)
    requires MayUnlink(t, id)
    ensures t.nodes[id].up.At? ==> t.nodes[id].up.parent in t.nodes && t.nodes[id].up.parent != id
    ensures var t' := Unlink(t, id);
            && (x in t'.nodes <==> x in t.nodes && x != id)
            && (x in t'.nodes ==> SameBut(t.nodes[x], t'.nodes[x], if OnlyKid(t.nodes[id]) == Some(x) then t.nodes[id].up else t.nodes[x].up))
  {
    UnlinkDefined(t, id);
    var n, k := t.nodes[id], OnlyKid(t.nodes[id]);
    var nodes := t.nodes - {id};
    var nodes' := if k.Some? && k.value in nodes then nodes[k.value := nodes[k.value].(up := n.up)] else nodes;
    SetHeldNode(t.(nodes := nodes'), n.up, |n.bits|, k, x);
  }

  lemma {:induction false} UnlinkHeld(t: Trie, id: Id, s: Slot, w: nat)
    requires MayUnlink(t, id)
    ensures t.nodes[id].up.At? ==> t.nodes[id].up.parent in t.nodes && t.nodes[id].up.parent != id
    ensures Held(Unlink(t, id), s, w) ==
            if SameSlot(t.nodes[id].up, |t.nodes[id].bits|, s, w) then OnlyKid(t.nodes[id])
            else if s.At? && s.parent == id then None else Held(t, s, w)
  {
    UnlinkDefined(t, id);
    var n, k := t.nodes[id], OnlyKid(t.nodes[id]);
    var nodes := t.nodes - {id};
    var nodes' := if k.Some? && k.value in nodes then nodes[k.value := nodes[k.value].(up := n.up)] else nodes;
    SetHeldAt(t.(nodes := nodes'), n.up, |n.bits|, k, s, w);
  }

  lemma {:induction false} UnlinkUp(t: Trie, id: Id, x: Id)
    requires MayUnlink(t, id) && x in t.nodes && x != id && UpOk(t, x)
    ensures t.nodes[id].up.At? ==> t.nodes[id].up.parent in t.nodes && t.nodes[id].up.parent != id
    ensures x in Unlink(t, id).nodes && UpOk(Unlink(t, id), x)
  {
    UnlinkNode(t, id, x);
    var t' := Unlink(t, id);
    UnlinkHeld(t, id, t'.nodes[x].up, |t'.nodes[x].bits|);
    if t'.nodes[x].up.At? {
      UnlinkNode(t, id, t'.nodes[x].up.parent);
    }
  }

  lemma {:induction false} BelowTrans(a: Entry, i: bool, b: Entry, j: bool, c: Entry)
    requires Below(a, i, b) && Below(b, j, c)
    ensures Below(a, i, c)
  {
  }

  lemma {:induction false} UnlinkLink(t: Trie, id: Id, s: Slot, w: nat)
    requires MayUnlink(t, id) && LinkOk(t, s, w)
    ensures t.nodes[id].up.At? ==> t.nodes[id].up.parent in t.nodes && t.nodes[id].up.parent != id
    ensures LinkOk(Unlink(t, id), s, w)
  {
    UnlinkHeld(t, id, s, w);
    if s.At? {
      UnlinkNode(t, id, s.parent);
    }
    var k := Held(Unlink(t, id), s, w);
    if k.Some? {
      UnlinkNode(t, id, k.value);
      if SameSlot(t.nodes[id].up, |t.nodes[id].bits|, s, w) && s.At? {
        BelowTrans(t.nodes[s.parent], s.bit, t.nodes[id], t.nodes[id].kid0.None?, t.nodes[k.value]);
      }
    }
  }

  lemma {:induction false} UnlinkShaped(t: Trie, id: Id)
    requires Shaped(t) && id in t.nodes && (t.nodes[id].kid0.None? || t.nodes[id].kid1.None?)
    ensures MayUnlink(t, id)
    ensures t.nodes[id].up.At? ==> t.nodes[id].up.parent in t.nodes && t.nodes[id].up.parent != id
    ensures Shaped(Unlink(t, id))
  {
    assert UpOk(t, id) && LinkOk(t, t.nodes[id].up, |t.nodes[id].bits|);
    assert LinkOk(t, At(id, false), |t.nodes[id].bits|) && LinkOk(t, At(id, true), |t.nodes[id].bits|);
    UnlinkDefined(t, id);
    var t' := Unlink(t, id);
    forall x | x in t'.nodes
      ensures UpOk(t', x)
    {
      UnlinkNode(t, id, x);
      UnlinkUp(t, id, x);
    }
    forall s, w
      ensures LinkOk(t', s, w)
    {
      UnlinkLink(t, id, s, w);
    }
  }
}
