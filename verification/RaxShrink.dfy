/** The edits of a removal: a slot goes, a chain without keys goes, and a chain
    of one-slot nodes becomes one node. */
module RaxShrink {
  import opened RaxTree
  import opened RaxMemory
  import opened RaxEdit
  import opened RaxGrow

  // ----- Dropping a slot -----

  /** Bits above `pos` move down by one. */
  function CloseBit(m: seq<bool>, pos: nat): (r: seq<bool>)
    requires |m| == INLINE_SLOTS
    ensures |r| == INLINE_SLOTS
    ensures forall i :: 0 <= i < INLINE_SLOTS ==>
              r[i] == if i < pos then m[i] else i + 1 < INLINE_SLOTS && m[i + 1]
  {
    if pos < INLINE_SLOTS then m[..pos] + m[pos + 1..] + [false] else m
  }

  /** The record `n` without its slot `k`. */
  function Dropped(n: RaxNode, k: nat): (r: RaxNode)
    requires |n.leafbitmap| == INLINE_SLOTS && k < |n.slots|
    requires !n.iscompr ==> |n.data| == |n.slots|
  {
    if n.iscompr then
      var e := n.(isnull := false, iscompr := false, data := [], slots := [], leafbitmap := NO_LEAVES);
      if n.iskey then SetData(e, GetData(n)) else e
    else
      n.(data := n.data[..k] + n.data[k + 1..], slots := n.slots[..k] + n.slots[k + 1..], leafbitmap := CloseBit(n.leafbitmap, k))
  }

  lemma DroppedElement<T>(s: seq<T>, k: nat, i: nat)
    requires k < |s| && i < |s| - 1
    ensures (s[..k] + s[k + 1..])[i] == if i < k then s[i] else s[i + 1]
  {
  }

  /** A slot beyond the bitmap's reach can go only if the bits stay right. */
  lemma CloseBitAt(n: RaxNode, t: Tree, k: nat, i: nat)
    requires Mirrors(n, t) && NodeOk(t) && !t.compr && k < |t.slots| && i < INLINE_SLOTS
    ensures var u := DropSlot(t, k); CloseBit(n.leafbitmap, k)[i] <==> i < |u.slots| && u.slots[i].Leaf?
  {
    hide CloseBit, Mirrors;
    MirrorsSlots(n, t);
    CloseBitIs(n.leafbitmap, k, i);
    if i < |t.slots| - 1 { DroppedElement(t.slots, k, i); }
  }

  lemma CloseBitIs(m: seq<bool>, pos: nat, i: nat)
    requires |m| == INLINE_SLOTS && i < INLINE_SLOTS
    ensures CloseBit(m, pos)[i] == if i < pos then m[i] else i + 1 < INLINE_SLOTS && m[i + 1]
  {
  }

  lemma DroppedMirrors(n: RaxNode, t: Tree, k: nat)
    requires Mirrors(n, t) && NodeOk(t) && k < |t.slots|
    ensures Mirrors(Dropped(n, k), DropSlot(t, k))
  {
    hide CloseBit;
    if !t.compr {
      var u := DropSlot(t, k);
      forall i | 0 <= i < |u.slots| ensures Dropped(n, k).slots[i] == WordOf(u.slots[i]) {
        DroppedElement(t.slots, k, i);
        DroppedElement(n.slots, k, i);
      }
      forall i | 0 <= i < INLINE_SLOTS
        ensures Dropped(n, k).leafbitmap[i] <==> i < |u.slots| && u.slots[i].Leaf?
      {
        CloseBitAt(n, t, k, i);
      }
    }
  }

  lemma DropIsDropped(t: Tree, k: nat)
    requires NodeOk(t) && k < |t.slots|
    ensures DroppedAt(t, DropSlot(t, k), k)
  {
  }

  /** Freeing what hangs from slot `k` of the node at `p` and taking the slot out. */
  lemma DropArena(mem: Memory, mem': Memory, t: Tree, p: seq<nat>, k: nat)
    requires Arena(mem, t) && ValidPath(t, p) && k < |At(t, p).slots|
    requires At(t, p).at in mem && |mem[At(t, p).at].leafbitmap| == INLINE_SLOTS && k < |mem[At(t, p).at].slots|
    requires !mem[At(t, p).at].iscompr ==> |mem[At(t, p).at].data| == |mem[At(t, p).at].slots|
    requires mem' == (mem - SlotAddrs(At(t, p).slots[k]))[At(t, p).at := Dropped(mem[At(t, p).at], k)]
    ensures Arena(mem', Replace(t, p, DropSlot(At(t, p), k)))
  {
    hide Stored, Separate, Addrs, Mirrors, Dropped, DropSlot;
    var h := At(t, p);
    StoredAt(mem, t, p);
    OkAt(t, p);
    StoredHere(mem, h);
    RootIn(h);
    DroppedMirrors(mem[h.at], h, k);
    DropIsDropped(h, k);
    DropSlotOk(h, k);
    SlotApart(h, k);
    DropStored(mem, mem', h, DropSlot(h, k), k);
    CommitHere(mem, mem', t, p, DropSlot(h, k));
  }

  lemma SlotApart(t: Tree, k: nat)
    requires Separate(t) && k < |t.slots|
    ensures SlotAddrs(t.slots[k]) <= Addrs(t)
    ensures Others(t, k) !! SlotAddrs(t.slots[k]) && t.at !in SlotAddrs(t.slots[k]) && t.at !in Others(t, k)
  {
    if t.slots[k].Sub? { AddrsChild(t, k); OthersApart(t, k); }
  }

  // ----- Chains -----

  /** A node that can be joined with the one above it. */
  predicate Joinable(t: Tree) {
    t.key.None? && OneSlot(t)
  }

  /** The bytes, the nodes and the end of the chain of joinable nodes from `t` on. */
  ghost function RunLabel(t: Tree): (r: seq<Byte>) {
    if !Joinable(t) then [] else t.edges + match t.slots[0] case Leaf(_) => [] case Sub(c) => RunLabel(c)
  }

  ghost function RunAddrs(t: Tree): (r: set<Addr>) {
    if !Joinable(t) then {} else {t.at} + match t.slots[0] case Leaf(_) => {} case Sub(c) => RunAddrs(c)
  }

  ghost function RunNodes(t: Tree): (r: nat) {
    if !Joinable(t) then 0 else 1 + match t.slots[0] case Leaf(_) => 0 case Sub(c) => RunNodes(c)
  }

  ghost function RunEnd(t: Tree): (y: Slot) {
    if !Joinable(t) then Sub(t) else match t.slots[0] case Leaf(v) => Leaf(v) case Sub(c) => RunEnd(c)
  }

  /** The chain from `t` on as one node. */
  ghost function Merged(t: Tree, a: Addr): (r: Tree) {
    Tree(a, None, true, RunLabel(t), [RunEnd(t)])
  }

  /** A chain maps what its bytes followed by its end map. */
  lemma {:induction false} LookupRun(t: Tree, x: seq<Byte>)
    ensures Joinable(t) ==> Lookup(t, x) == if x != [] && RunLabel(t) <= x then LookupSlot(RunEnd(t), x[|RunLabel(t)|..]) else None
  {
    hide Lookup;
    if Joinable(t) {
      LookupOneSlot(t, x);
      match t.slots[0] {
        case Leaf(_) => assert RunLabel(t) == t.edges;
        case Sub(c) =>
          if !Joinable(c) {
            assert RunLabel(t) == t.edges;
          } else {
            PrefixJoin(t.edges, RunLabel(c), x);
            if t.edges <= x {
              LookupRun(c, x[|t.edges|..]);
              RunLonger(c);
            }
          }
      }
    }
  }

  lemma RunLonger(t: Tree)
    requires Joinable(t)
    ensures RunLabel(t) != [] && t.edges <= RunLabel(t)
  {
  }

  lemma LookupMerged(t: Tree, a: Addr, x: seq<Byte>)
    requires Joinable(t)
    ensures Lookup(Merged(t, a), x) == Lookup(t, x)
  {
    hide Lookup;
    LookupRun(t, x);
    RunLonger(t);
    LookupOneSlot(Merged(t, a), x);
  }

  lemma {:induction false} RunOk(t: Tree)
    requires Ok(t) && Joinable(t)
    ensures RunEnd(t).Sub? ==> Ok(RunEnd(t).t)
    ensures Ripe(t) && RunEnd(t).Sub? ==> Ripe(RunEnd(t).t) && Useful(RunEnd(t).t)
  {
    if t.slots[0].Sub? && Joinable(t.slots[0].t) { RunOk(t.slots[0].t); }
  }

  lemma OnlyChildStored(mem: Memory, t: Tree)
    requires Stored(mem, t) && Separate(t) && OneSlot(t) && t.slots[0].Sub?
    ensures Stored(mem, t.slots[0].t) && Separate(t.slots[0].t)
  {
  }

  lemma {:induction false} RunStored(mem: Memory, t: Tree)
    requires Stored(mem, t) && Separate(t)
    ensures RunEnd(t).Sub? ==> Stored(mem, RunEnd(t).t) && Separate(RunEnd(t).t)
    ensures Addrs(t) == RunAddrs(t) + SlotAddrs(RunEnd(t))
    ensures RunAddrs(t) !! SlotAddrs(RunEnd(t))
  {
    hide Addrs, Separate, Stored;
    if Joinable(t) {
      OneSlotAddrs(t);
      match t.slots[0] {
        case Leaf(_) =>
        case Sub(c) =>
          OnlyChildStored(mem, t);
          RunStored(mem, c);
      }
    }
  }

  lemma {:induction false} RunCount(mem: Memory, t: Tree)
    requires Stored(mem, t) && Separate(t)
    ensures |RunAddrs(t)| == RunNodes(t) && RunAddrs(t) <= Addrs(t)
  {
    hide Addrs, Separate, Stored;
    RunStored(mem, t);
    if Joinable(t) && t.slots[0].Sub? {
      var c := t.slots[0].t;
      OneSlotAddrs(t);
      OnlyChildStored(mem, t);
      RunStored(mem, c);
      RunCount(mem, c);
      assert RunAddrs(t) == {t.at} + RunAddrs(c) && t.at !in RunAddrs(c);
    }
  }

  lemma {:induction false} RunSize(t: Tree)
    ensures RunNodes(t) <= |RunLabel(t)|
    ensures RunNodes(t) > 1 ==> |RunLabel(t)| >= 2
  {
    if Joinable(t) && t.slots[0].Sub? { RunSize(t.slots[0].t); }
  }

  // ----- The two scans -----

  /** Nodes that the first scan takes after `t`, having `used` bytes. */
  ghost function Fit(t: Tree, used: nat): (r: nat) {
    if Joinable(t) && t.slots[0].Sub? && Joinable(t.slots[0].t) && used + |t.slots[0].t.edges| <= NODE_MAX_SIZE then
      1 + Fit(t.slots[0].t, used + |t.slots[0].t.edges|)
    else 0
  }

  /** Bytes that the first scan counts. */
  ghost function FitSize(t: Tree, used: nat): (r: nat) {
    if Joinable(t) && t.slots[0].Sub? && Joinable(t.slots[0].t) && used + |t.slots[0].t.edges| <= NODE_MAX_SIZE then
      FitSize(t.slots[0].t, used + |t.slots[0].t.edges|)
    else used
  }

  lemma FitStep(t: Tree, used: nat)
    requires Joinable(t)
    ensures t.slots[0].Sub? && Joinable(t.slots[0].t) && used + |t.slots[0].t.edges| <= NODE_MAX_SIZE ==>
      Fit(t, used) == 1 + Fit(t.slots[0].t, used + |t.slots[0].t.edges|) &&
      FitSize(t, used) == FitSize(t.slots[0].t, used + |t.slots[0].t.edges|)
    ensures !(t.slots[0].Sub? && Joinable(t.slots[0].t) && used + |t.slots[0].t.edges| <= NODE_MAX_SIZE) ==>
      Fit(t, used) == 0 && FitSize(t, used) == used
  {
  }

  /** The second scan copies more than the first scan made room for. */
  ghost predicate Overlong(t: Tree) {
    Joinable(t) && Fit(t, |t.edges|) > 0 && |RunLabel(t)| > NODE_MAX_SIZE
  }

  /** The scans agree exactly when the chain fits in a node. */
  lemma {:induction false} ScansAgree(t: Tree, used: nat)
    requires Joinable(t) && used <= NODE_MAX_SIZE
    ensures FitSize(t, used) <= NODE_MAX_SIZE
    ensures var total := used + |RunLabel(t)| - |t.edges|;
            && FitSize(t, used) <= total && 1 + Fit(t, used) <= RunNodes(t)
            && (FitSize(t, used) == total <==> total <= NODE_MAX_SIZE)
            && (1 + Fit(t, used) == RunNodes(t) <==> total <= NODE_MAX_SIZE)
    decreases t
  {
    if t.slots[0].Sub? {
      var c := t.slots[0].t;
      if Joinable(c) {
        RunLonger(c);
        if used + |c.edges| <= NODE_MAX_SIZE { ScansAgree(c, used + |c.edges|); }
      }
    }
  }
}
