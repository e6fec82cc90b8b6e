/** The steps of a removal, as steps between whole states. */
module RaxRemoval {
  import opened RaxTree
  import opened RaxMemory
  import opened RaxEdit
  import opened RaxGrow
  import opened RaxMeaning
  import opened RaxWalk
  import opened RaxInsertion
  import opened RaxShrink

  /** A tree whose node at `p` has just lost a key or a child: `p` is the only
      place where a useless node may stand. */
  ghost predicate Shrunk(st: State, t: Tree, m: Contents, p: seq<nat>, h: Addr, ts: seq<Addr>) {
    && Kept(st, t, m)
    && ValidPath(t, p) && h == At(t, p).at && StackOf(t, p, ts)
    && RipeAround(t, p) && Ripe(At(t, p))
  }

  lemma StackReplace(t: Tree, p: seq<nat>, u: Tree, ts: seq<Addr>)
    requires ValidPath(t, p) && StackOf(t, p, ts)
    ensures ValidPath(Replace(t, p, u), p) && StackOf(Replace(t, p, u), p, ts)
  {
    ReplaceValid(t, p, u);
    forall k | 0 <= k < |p|
      ensures ValidPath(Replace(t, p, u), p[..k]) && ts[k] == At(Replace(t, p, u), p[..k]).at
    {
      ReplaceAbove(t, p, u, k);
    }
  }

  /** Nodes above a replaced one keep their place and address. */
  lemma {:induction false} ReplaceAbove(t: Tree, p: seq<nat>, u: Tree, k: nat)
    requires ValidPath(t, p) && k < |p|
    ensures ValidPath(t, p[..k]) && ValidPath(Replace(t, p, u), p[..k])
    ensures At(Replace(t, p, u), p[..k]).at == At(t, p[..k]).at
  {
    if k > 0 {
      assert p[..k][1..] == p[1..][..k - 1];
      ReplaceAbove(t.slots[p[0]].t, p[1..], u, k - 1);
    }
  }

  // ----- Taking the key out -----

  predicate Droppable(mem: Memory, h: Addr, k: nat) {
    h in mem && |mem[h].leafbitmap| == INLINE_SLOTS && k < |mem[h].slots| &&
    (!mem[h].iscompr ==> |mem[h].data| == |mem[h].slots|)
  }

  function AfterDropLeaf(st: State, h: Addr, k: nat): (r: State)
    requires Droppable(st.mem, h, k) && st.numele > 0
  {
    st.(mem := st.mem[h := Dropped(st.mem[h], k)], numele := st.numele - 1)
  }

  lemma DroppableNode(mem: Memory, t: Tree, p: seq<nat>, k: nat)
    requires Arena(mem, t) && ValidPath(t, p) && k < |At(t, p).slots|
    ensures Droppable(mem, At(t, p).at, k) && Mirrors(mem[At(t, p).at], At(t, p)) && Ok(At(t, p))
  {
    hide Stored, Separate, Addrs;
    NodeRecord(mem, t, p);
  }

  lemma DropLeafDone(st: State, t: Tree, m: Contents, s: seq<Byte>, w: Stop, p: seq<nat>) returns (t': Tree)
    requires Kept(st, t, m) && Ripe(t)
    requires Stopped(t, s, w, p) && w.inlineLeaf && w.i == |s|
    ensures w.plink.SlotLink? && Droppable(st.mem, w.h, w.plink.idx) && s in m && st.numele > 0
    ensures HasLeaf(st.mem, w.h, w.plink.idx) && m[s] == st.mem[w.h].slots[w.plink.idx].v
    ensures Shrunk(AfterDropLeaf(st, w.h, w.plink.idx), t', m - {s}, p, w.h, w.stack)
    ensures t' == Replace(t, p, DropSlot(At(t, p), w.plink.idx)) && At(t', p) == DropSlot(At(t, p), w.plink.idx)
  {
    hide Stored, Separate, Addrs, Lookup, Denotes, Mirrors, Replace, Dropped, DropSlot, Ripe, RipeAround;
    var h, k := At(t, p), w.plink.idx;
    Standing(st.mem, t, s, w, p);
    LeafBit(st.mem[h.at], h, k);
    StoppedLookup(t, s, w, p);
    DenotesAt(t, m, s);
    DroppableNode(st.mem, t, p, k);
    var mem' := AfterDropLeaf(st, h.at, k).mem;
    assert st.mem - {} == st.mem;
    DropArena(st.mem, mem', t, p, k);
    var u := DropSlot(h, k);
    DropSlotOk(h, k);
    forall x ensures Lookup(u, x) == if x == Label(h, k) then None else Lookup(h, x) {
      LookupDropSlot(h, k, x);
      if Label(h, k) <= x {
        assert x == Label(h, k) + x[|Label(h, k)|..];
        LookupLabel(h, k, x[|Label(h, k)|..]);
      }
    }
    assert s == s[..w.i];
    DenotesRemove(t, p, u, m, Label(h, k));
    t' := Replace(t, p, u);
    RipeAroundStart(t, p);
    RipeAroundReplace(t, p, u);
    StackReplace(t, p, u, w.stack);
    ReplaceValid(t, p, u);
    DropRoot(h, k);
    ReplaceRoot(t, p, u);
    assert |m - {s}| == |m| - 1;
  }

  lemma DropRoot(t: Tree, k: nat)
    requires k < |t.slots|
    ensures DropSlot(t, k).at == t.at && DropSlot(t, k).key == t.key
  {
  }

  function AfterClearKey(st: State, h: Addr): (r: State)
    requires h in st.mem && st.numele > 0
  {
    st.(mem := st.mem[h := st.mem[h].(iskey := false)], numele := st.numele - 1)
  }

  lemma ClearKeyDone(st: State, t: Tree, m: Contents, s: seq<Byte>, w: Stop, p: seq<nat>) returns (t': Tree)
    requires Kept(st, t, m) && Ripe(t)
    requires Stopped(t, s, w, p) && !w.inlineLeaf && w.i == |s| && w.splitpos == 0 && At(t, p).key.Some?
    ensures w.h in st.mem && s in m && st.numele > 0 && m[s] == GetData(st.mem[w.h])
    ensures Shrunk(AfterClearKey(st, w.h), t', m - {s}, p, w.h, w.stack)
    ensures t' == Replace(t, p, At(t, p).(key := None)) && At(t', p) == At(t, p).(key := None)
  {
    hide Stored, Separate, Addrs, Lookup, Denotes, Mirrors, Replace, RipeAround;
    var h := At(t, p);
    Standing(st.mem, t, s, w, p);
    StoppedLookup(t, s, w, p);
    DenotesAt(t, m, s);
    var n := st.mem[h.at].(iskey := false);
    var u := h.(key := None);
    KeyArena(st.mem, st.mem[h.at := n], t, p, n, None);
    forall x ensures Lookup(u, x) == if x == [] then None else Lookup(h, x) { LookupSetKey(h, None, x); }
    assert s == s[..w.i];
    assert PathLabel(t, p) + [] == s;
    DenotesRemove(t, p, u, m, []);
    t' := Replace(t, p, u);
    RipeAroundStart(t, p);
    RipeAroundReplace(t, p, u);
    StackReplace(t, p, u, w.stack);
    ReplaceValid(t, p, u);
    ReplaceRoot(t, p, u);
    assert |m - {s}| == |m| - 1;
  }

  /** Nothing useless is left: the removal is over, but for joining nodes. */
  lemma ShrunkRipe(st: State, t: Tree, m: Contents, p: seq<nat>, h: Addr, ts: seq<Addr>)
    requires Shrunk(st, t, m, p, h, ts)
    requires p == [] || Useful(At(t, p))
    ensures Kept(st, t, m) && Ripe(t)
  {
    ReplaceSame(t, p);
  }

  lemma ShrunkNode(st: State, t: Tree, m: Contents, p: seq<nat>, h: Addr, ts: seq<Addr>)
    requires Shrunk(st, t, m, p, h, ts)
    ensures ValidPath(t, p) && h in st.mem && Mirrors(st.mem[h], At(t, p)) && Ok(At(t, p)) && NodeOk(At(t, p))
  {
    hide Stored, Separate, Addrs, Denotes, RipeAround, Ripe, Mirrors;
    NodeRecord(st.mem, t, p);
  }

  // ----- Freeing a chain that holds no key any more -----

  /** Everything but slot `k` of the node is worth keeping. */
  ghost predicate RestRipe(t: Tree, k: nat) {
    forall i :: 0 <= i < |t.slots| && i != k && t.slots[i].Sub? ==> Ripe(t.slots[i].t) && Useful(t.slots[i].t)
  }

  /** A chain is being freed from below.  `base` is the memory before; the node
      at `cur` is still there, its child at slot `k` and all below it are gone. */
  ghost predicate Clearing(st: State, base: Memory, t: Tree, m: Contents, cur: seq<nat>, h: Addr, ts: seq<Addr>, child: Option<Addr>, k: nat) {
    && Kept(st.(mem := base, numnodes := |base|), t, m)
    && ValidPath(t, cur) && h == At(t, cur).at && StackOf(t, cur, ts) && RipeAround(t, cur)
    && var n := At(t, cur);
       if child.None? then st.mem == base && st.numnodes == |base| && n.slots == [] && n.key.None?
       else
         && k < |n.slots| && n.slots[k].Sub? && child.value == n.slots[k].t.at
         && Barren(n.slots[k].t) && RestRipe(n, k)
         && st.mem == base - Addrs(n.slots[k].t)
         && st.numnodes == |st.mem|
  }

  lemma ClearStart(st: State, t: Tree, m: Contents, p: seq<nat>, h: Addr, ts: seq<Addr>)
    requires Shrunk(st, t, m, p, h, ts) && At(t, p).slots == [] && At(t, p).key.None?
    ensures Clearing(st, st.mem, t, m, p, h, ts, None, 0)
  {
  }

  /** The node at `cur` holds nothing else. */
  ghost predicate Clearable(n: Tree, child: Option<Addr>) {
    n.key.None? && if child.None? then n.slots == [] else OneSlot(n)
  }

  lemma ClearNode(st: State, base: Memory, t: Tree, m: Contents, cur: seq<nat>, h: Addr, ts: seq<Addr>, child: Option<Addr>, k: nat)
    requires Clearing(st, base, t, m, cur, h, ts, child, k)
    ensures ValidPath(t, cur) && h in base && h in st.mem && st.mem[h] == base[h]
    ensures Mirrors(base[h], At(t, cur)) && Ok(At(t, cur)) && Ok(t) && Arena(base, t)
    ensures st.head == h <==> cur == []
    ensures child.Some? ==> (Clearable(At(t, cur), child) <==> !st.mem[h].iskey && (st.mem[h].iscompr || |st.mem[h].data| == 1))
  {
    hide Stored, Separate, Addrs;
    NodeRecord(base, t, cur);
    if child.Some? {
      StoredAt(base, t, cur);
      ChildApart(At(t, cur), k);
    }
    HeadOnly(base, t, cur);
  }

  lemma ChildApart(t: Tree, k: nat)
    requires Separate(t) && k < |t.slots| && t.slots[k].Sub?
    ensures t.at !in Addrs(t.slots[k].t) && Addrs(t.slots[k].t) <= Addrs(t)
  {
    AddrsChild(t, k);
  }

  lemma HeadOnly(mem: Memory, t: Tree, p: seq<nat>)
    requires Arena(mem, t) && ValidPath(t, p)
    ensures At(t, p).at == t.at <==> p == []
  {
    hide Addrs, Separate, Stored;
    StoredAt(mem, t, p);
    RootIn(At(t, p));
  }

  /** What the freed chain was. */
  lemma ClearedAll(st: State, base: Memory, t: Tree, m: Contents, cur: seq<nat>, h: Addr, ts: seq<Addr>, child: Option<Addr>, k: nat)
    requires Clearing(st, base, t, m, cur, h, ts, child, k) && Clearable(At(t, cur), child)
    ensures h in st.mem
    ensures st.mem - {h} == base - Addrs(At(t, cur)) && Barren(At(t, cur)) && |st.mem - {h}| == |st.mem| - 1
  {
    hide Stored, Separate, Addrs, Mirrors, Arena, At, ValidPath, Kept, StackOf, RipeAround, RestRipe, Barren, Ok;
    var n := At(t, cur);
    ClearNode(st, base, t, m, cur, h, ts, child, k);
    FreeOne(st.mem, h);
    if child.None? { BarrenNode(n); } else { BarrenAbove(n, k); FreeMore(base, Addrs(n.slots[k].t), h); }
  }

  lemma BarrenNode(n: Tree)
    requires n.slots == [] && n.key.None? && Ok(n)
    ensures Barren(n) && Addrs(n) == {n.at}
  {
    hide Lookup;
    NoSlotAddrs(n);
    forall x ensures Lookup(n, x) == None { LookupNoSlots(n, x); }
  }

  lemma BarrenAbove(n: Tree, k: nat)
    requires n.key.None? && OneSlot(n) && Ok(n) && k < |n.slots| && n.slots[k].Sub? && Barren(n.slots[k].t)
    ensures Barren(n) && Addrs(n) == {n.at} + Addrs(n.slots[k].t)
  {
    hide Barren;
    BarrenUp(n);
    OneSlotAddrs(n);
  }

  lemma FreeOne(mem: Memory, h: Addr)
    requires h in mem
    ensures |mem - {h}| == |mem| - 1
  {
    assert (mem - {h}).Keys == mem.Keys - {h};
    assert |mem - {h}| == |(mem - {h}).Keys| && |mem| == |mem.Keys|;
  }

  lemma FreeMore(mem: Memory, a: set<Addr>, h: Addr)
    ensures mem - a - {h} == mem - ({h} + a)
  {
  }

  lemma RipeAroundUse(t: Tree, p: seq<nat>, u: Tree)
    requires ValidPath(t, p) && RipeAround(t, p) && Ripe(u) && (p != [] ==> Useful(u))
    ensures Ripe(Replace(t, p, u))
  {
  }

  lemma RipeAroundSame(t: Tree, t': Tree, q: seq<nat>)
    requires ValidPath(t, q) && ValidPath(t', q) && RipeAround(t', q)
    requires forall u :: Replace(t', q, u) == Replace(t, q, u)
    ensures RipeAround(t, q)
  {
    hide Ripe, Replace;
    forall u | Ripe(u) && (q != [] ==> Useful(u)) ensures Ripe(Replace(t, q, u)) {
      assert Replace(t', q, u) == Replace(t, q, u);
    }
  }

  lemma RipeAroundUp(t: Tree, p: seq<nat>)
    requires Ok(t) && ValidPath(t, p) && p != [] && RipeAround(t, p)
    ensures ValidPath(t, p[..|p| - 1]) && RipeAround(t, p[..|p| - 1]) && RestRipe(At(t, p[..|p| - 1]), p[|p| - 1])
  {
    hide Replace, RestRipe, RipeAround, At, ValidPath, PathLabel;
    var q, k := p[..|p| - 1], p[|p| - 1];
    PathPrefix(t, p);
    assert p == q + [k];
    var v := ValueTree(0, Some(0));
    var n := At(t, q);
    var n' := n.(slots := n.slots[k := Sub(v)]);
    var t' := Replace(t, p, v);
    OkReplace(t, p, v);
    RipeAroundUse(t, p, v);
    ReplaceChild(t, q, k, v);
    ReplaceValid(t, q, n');
    RipeAroundStart(t', q);
    RestRipeOf(n, k, v);
    RipeAroundSame(t, t', q);
  }

  lemma RestRipeOf(n: Tree, k: nat, v: Tree)
    requires k < |n.slots| && Ripe(n.(slots := n.slots[k := Sub(v)]))
    ensures RestRipe(n, k)
  {
    var n' := n.(slots := n.slots[k := Sub(v)]);
    forall i | 0 <= i < |n.slots| && i != k && n.slots[i].Sub?
      ensures Ripe(n.slots[i].t) && Useful(n.slots[i].t)
    {
      assert n'.slots[i] == n.slots[i];
    }
  }

  lemma StackPop(t: Tree, p: seq<nat>, ts: seq<Addr>)
    requires ValidPath(t, p) && p != [] && StackOf(t, p, ts)
    ensures |ts| == |p| && ValidPath(t, p[..|p| - 1])
    ensures StackOf(t, p[..|p| - 1], ts[..|ts| - 1]) && ts[|ts| - 1] == At(t, p[..|p| - 1]).at
  {
    var q := p[..|p| - 1];
    PathPrefix(t, p);
    forall j | 0 <= j < |q|
      ensures ValidPath(t, q[..j]) && ts[..|ts| - 1][j] == At(t, q[..j]).at
    {
      assert q[..j] == p[..j];
    }
  }

  /** Free the node and go on with the one above. */
  lemma ClearStep(st: State, base: Memory, t: Tree, m: Contents, cur: seq<nat>, h: Addr, ts: seq<Addr>, child: Option<Addr>, k: nat)
    requires Clearing(st, base, t, m, cur, h, ts, child, k) && Clearable(At(t, cur), child) && cur != []
    ensures h in st.mem && st.numnodes > 0 && |ts| > 0
    ensures Clearing(st.(mem := st.mem - {h}, numnodes := st.numnodes - 1), base, t, m,
                     cur[..|cur| - 1], ts[|ts| - 1], ts[..|ts| - 1], Some(h), cur[|cur| - 1])
  {
    hide Kept, Addrs, Barren, RipeAround, RestRipe, Mirrors, Ok, Arena;
    ClearedAll(st, base, t, m, cur, h, ts, child, k);
    ClearNode(st, base, t, m, cur, h, ts, child, k);
    StackPop(t, cur, ts);
    RipeAroundUp(t, cur);
    PathPrefix(t, cur);
    assert |st.mem| > 0 by { assert h in st.mem.Keys; assert |st.mem| == |st.mem.Keys|; }
  }

  function AfterUnlink(st: State, h: Addr, k: nat): (r: State)
    requires Droppable(st.mem, h, k)
  {
    st.(mem := st.mem[h := Dropped(st.mem[h], k)])
  }

  /** Take the freed chain out of the node it hung from. */
  lemma UnlinkDone(st: State, base: Memory, t: Tree, m: Contents, cur: seq<nat>, h: Addr, ts: seq<Addr>, child: Option<Addr>, k: nat) returns (t': Tree)
    requires Clearing(st, base, t, m, cur, h, ts, child, k) && child.Some?
    requires cur == [] || !Clearable(At(t, cur), child)
    ensures Droppable(st.mem, h, k)
    ensures Shrunk(AfterUnlink(st, h, k), t', m, cur, h, ts)
    ensures t' == Replace(t, cur, DropSlot(At(t, cur), k)) && At(t', cur) == DropSlot(At(t, cur), k)
    ensures cur != [] ==> Useful(At(t', cur))
  {
    hide Stored, Separate, Addrs, Mirrors, Lookup, Denotes, Replace, Dropped, DropSlot, RipeAround, Ripe, Barren, RestRipe;
    var n := At(t, cur);
    ClearNode(st, base, t, m, cur, h, ts, child, k);
    DroppableNode(base, t, cur, k);
    var mem' := AfterUnlink(st, h, k).mem;
    UnlinkMemory(base, t, cur, k);
    DropArena(base, mem', t, cur, k);
    var u := DropSlot(n, k);
    DropSlotOk(n, k);
    forall x ensures Lookup(u, x) == Lookup(n, x) { DropBarren(n, k, x); }
    DenotesSame(t, cur, u, m);
    t' := Replace(t, cur, u);
    DropRestRipe(n, k);
    DropUseful(n, k);
    RipeAroundReplace(t, cur, u);
    StackReplace(t, cur, u, ts);
    ReplaceValid(t, cur, u);
    DropRoot(n, k);
    ReplaceRoot(t, cur, u);
  }

  lemma UnlinkMemory(base: Memory, t: Tree, cur: seq<nat>, k: nat)
    requires Arena(base, t) && ValidPath(t, cur) && k < |At(t, cur).slots| && At(t, cur).slots[k].Sub?
    ensures At(t, cur).at in base && At(t, cur).at !in Addrs(At(t, cur).slots[k].t)
  {
    hide Stored, Separate, Addrs;
    NodeRecord(base, t, cur);
    StoredAt(base, t, cur);
    ChildApart(At(t, cur), k);
  }

  lemma DropRestRipe(n: Tree, k: nat)
    requires Ok(n) && k < |n.slots| && RestRipe(n, k)
    ensures Ripe(DropSlot(n, k))
  {
    var r := DropSlot(n, k);
    forall i | 0 <= i < |r.slots| ensures r.slots[i] == n.slots[if i < k then i else i + 1] { }
  }

  lemma DropUseful(n: Tree, k: nat)
    requires NodeOk(n) && k < |n.slots|
    ensures DropSlot(n, k).slots == [] ==> OneSlot(n)
    ensures Useful(DropSlot(n, k)) <==> n.key.Some? || !OneSlot(n)
  {
  }

  /** The child that was freed is where the path said. */
  lemma FreedChild(base: Memory, t: Tree, cur: seq<nat>, k: nat, i: nat)
    requires Arena(base, t) && ValidPath(t, cur)
    requires k < |At(t, cur).slots| && At(t, cur).slots[k].Sub?
    requires At(t, cur).at in base && i < |base[At(t, cur).at].slots| && base[At(t, cur).at].slots[i] == Ref(At(t, cur).slots[k].t.at)
    ensures i == k
  {
    hide Stored, Addrs;
    NodeRecord(base, t, cur);
    StoredAt(base, t, cur);
    var n := At(t, cur);
    assert n.slots[i].Sub? && n.slots[i].t.at == n.slots[k].t.at;
    RootIn(n.slots[i].t);
    RootIn(n.slots[k].t);
  }

  lemma FreedSlot(st: State, base: Memory, t: Tree, m: Contents, cur: seq<nat>, h: Addr, ts: seq<Addr>, child: Option<Addr>, k: nat)
    requires Clearing(st, base, t, m, cur, h, ts, child, k) && child.Some?
    ensures h in st.mem && k < |st.mem[h].slots| && st.mem[h].slots[k] == Ref(child.value)
    ensures forall i :: 0 <= i < |st.mem[h].slots| && st.mem[h].slots[i] == Ref(child.value) ==> i == k
  {
    hide Addrs, Separate, Stored, Barren, RestRipe, RipeAround, Kept, StackOf;
    ClearNode(st, base, t, m, cur, h, ts, child, k);
    forall i | 0 <= i < |st.mem[h].slots| && st.mem[h].slots[i] == Ref(child.value) ensures i == k {
      FreedChild(base, t, cur, k, i);
    }
  }

  lemma ClearFirst(st: State, base: Memory, t: Tree, m: Contents, cur: seq<nat>, h: Addr, ts: seq<Addr>)
    requires Clearing(st, base, t, m, cur, h, ts, None, 0)
    ensures ValidPath(t, cur) && Clearable(At(t, cur), None)
  {
  }

  /** Nothing was freed: the node is the head. */
  lemma ClearedHead(st: State, base: Memory, t: Tree, m: Contents, cur: seq<nat>, h: Addr, ts: seq<Addr>, k: nat)
    requires Clearing(st, base, t, m, cur, h, ts, None, k)
    requires cur == [] || (ValidPath(t, cur) && !Clearable(At(t, cur), None))
    ensures cur == []
  {
  }
}
