/** The memory edits of an insertion: each turns the memory of a tree into the
    memory of the tree with one node edited. */
module RaxGrow {
  import opened RaxTree
  import opened RaxMemory
  import opened RaxEdit

  // ----- Records -----

  /** A key-less node with one slot. */
  function ChainNode(bytes: seq<Byte>, word: Word, leaf: bool): (n: RaxNode) {
    RaxNode(false, false, 0, |bytes| > 1, if leaf then FIRST_LEAF else NO_LEAVES, bytes, [word])
  }

  /** `n` made a key with the value of `h`, if `h` is a key. */
  function CopyKey(n: RaxNode, h: RaxNode): (r: RaxNode) {
    if h.iskey then SetData(n, GetData(h)) else n
  }

  /** Bits from `pos` on move up by one; the new child is not inline. */
  function OpenBit(m: seq<bool>, pos: nat): (r: seq<bool>)
    requires |m| == INLINE_SLOTS
    ensures |r| == INLINE_SLOTS
    ensures forall i :: 0 <= i < INLINE_SLOTS ==>
              r[i] == if i < pos then m[i] else i != pos && m[i - 1]
  {
    if pos < INLINE_SLOTS then m[..pos] + [false] + m[pos..INLINE_SLOTS - 1] else m
  }

  lemma OpenBitAt(m: seq<bool>, pos: nat, i: nat)
    requires |m| == INLINE_SLOTS && i < INLINE_SLOTS
    ensures OpenBit(m, pos)[i] == if i < pos then m[i] else i != pos && m[i - 1]
  {
  }

  /** `n` with room for an edge `c`; slot 12, if inline, spills to a node of its own. */
  function Opened(n: RaxNode, c: Byte, spill: Option<Addr>): (r: RaxNode)
    requires |n.leafbitmap| == INLINE_SLOTS && |n.slots| == |n.data|
    requires spill.Some? ==> 12 < |n.slots|
    ensures |r.slots| == |n.slots| + 1 && |r.leafbitmap| == INLINE_SLOTS
  {
    var pos := ChildPos(n.data, c);
    var slots := n.slots[..pos] + [Val(0)] + n.slots[pos..];
    n.(data := n.data[..pos] + [c] + n.data[pos..],
       slots := if spill.Some? then slots[13 := Ref(spill.value)] else slots,
       leafbitmap := OpenBit(n.leafbitmap, pos))
  }

  // ----- Single nodes -----

  function ValueTree(a: Addr, k: Option<Ptr>): (t: Tree)
    ensures Ok(t)
  {
    Tree(a, k, false, [], [])
  }

  lemma ValueStored(mem: Memory, a: Addr, k: Option<Ptr>)
    requires a in mem && mem[a] == (if k.Some? then ValueNode(k.value) else EmptyNode())
    ensures Stored(mem, ValueTree(a, k)) && Separate(ValueTree(a, k)) && Addrs(ValueTree(a, k)) == {a}
  {
  }

  lemma ChainStored(mem: Memory, a: Addr, k: Option<Ptr>, bytes: seq<Byte>, y: Slot)
    requires bytes != [] && a in mem
    requires Mirrors(mem[a], Chain(a, k, bytes, y))
    requires y.Sub? ==> Stored(mem, y.t) && Separate(y.t) && a !in Addrs(y.t)
    ensures var t := Chain(a, k, bytes, y);
            Stored(mem, t) && Separate(t) && Addrs(t) == {a} + SlotAddrs(y)
  {
    var t := Chain(a, k, bytes, y);
    AddrsSplit(t, 0);
    assert Others(t, 0) == {};
  }

  lemma ChainMirrors(n: RaxNode, a: Addr, k: Option<Ptr>, bytes: seq<Byte>, y: Slot)
    requires bytes != []
    requires n.(iskey := false, isnull := false, aux := 0) == ChainNode(bytes, WordOf(y), y.Leaf?)
    requires k == if n.iskey then Some(GetData(n)) else None
    ensures Mirrors(n, Chain(a, k, bytes, y))
  {
  }

  // ----- Edits that keep the node where it is -----

  lemma KeyArena(mem: Memory, mem': Memory, t: Tree, p: seq<nat>, n: RaxNode, k: Option<Ptr>)
    requires Arena(mem, t) && ValidPath(t, p)
    requires At(t, p).at in mem
    requires var h := mem[At(t, p).at]; n.(iskey := h.iskey, isnull := h.isnull, aux := h.aux) == h
    requires k == if n.iskey then Some(GetData(n)) else None
    requires mem' == mem[At(t, p).at := n]
    ensures Arena(mem', Replace(t, p, At(t, p).(key := k)))
  {
    hide Addrs, Separate;
    var h := At(t, p);
    StoredAt(mem, t, p);
    OkAt(t, p);
    RootIn(h);
    EditRoot(mem, mem', h, h.(key := k));
    CommitHere(mem, mem', t, p, h.(key := k));
  }

  lemma LeafArena(mem: Memory, t: Tree, p: seq<nat>, k: nat, v: Ptr)
    requires Arena(mem, t) && ValidPath(t, p)
    requires k < |At(t, p).slots| && At(t, p).slots[k].Leaf?
    ensures var a := At(t, p).at;
            a in mem && k < |mem[a].slots| &&
            Arena(mem[a := mem[a].(slots := mem[a].slots[k := Val(v)])],
                  Replace(t, p, At(t, p).(slots := At(t, p).slots[k := Leaf(v)])))
  {
    hide Addrs, Separate;
    var h := At(t, p);
    StoredAt(mem, t, p);
    OkAt(t, p);
    RootIn(h);
    var mem' := mem[h.at := mem[h.at].(slots := mem[h.at].slots[k := Val(v)])];
    EditLeaf(mem, mem', h, k, v);
    CommitHere(mem, mem', t, p, h.(slots := h.slots[k := Leaf(v)]));
  }

  lemma MaterializeStored(mem: Memory, h: Tree, k: nat, a: Addr)
    requires Stored(mem, h) && Separate(h) && NodeOk(h) && a !in mem
    requires k < |h.slots| && h.slots[k].Leaf?
    ensures h.at in mem && k < |mem[h.at].slots| && k < |mem[h.at].leafbitmap|
    ensures var n := mem[h.at];
            var mem' := mem[a := ValueNode(h.slots[k].v)][h.at := n.(slots := n.slots[k := Ref(a)], leafbitmap := n.leafbitmap[k := false])];
            var u := h.(slots := h.slots[k := Sub(ValueTree(a, Some(h.slots[k].v)))]);
            Stored(mem', u) && Separate(u) && Addrs(u) == Addrs(h) + {a}
  {
    var n := mem[h.at];
    var v := h.slots[k].v;
    var mem' := mem[a := ValueNode(v)][h.at := n.(slots := n.slots[k := Ref(a)], leafbitmap := n.leafbitmap[k := false])];
    var c := ValueTree(a, Some(v));
    StoredIn(mem, h);
    ValueStored(mem', a, Some(v));
    LeafOthers(h, k);
    NewChild(mem, mem', h, k, c);
  }

  lemma MaterializeArena(mem: Memory, t: Tree, p: seq<nat>, k: nat, a: Addr)
    requires Arena(mem, t) && ValidPath(t, p) && a !in mem
    requires k < |At(t, p).slots| && At(t, p).slots[k].Leaf?
    ensures var h := At(t, p);
            h.at in mem && k < |mem[h.at].slots| && k < |mem[h.at].leafbitmap| &&
            var n := mem[h.at];
            Arena(mem[a := ValueNode(h.slots[k].v)][h.at := n.(slots := n.slots[k := Ref(a)], leafbitmap := n.leafbitmap[k := false])],
                  Replace(t, p, h.(slots := h.slots[k := Sub(ValueTree(a, Some(h.slots[k].v)))])))
  {
    hide Stored, Separate, Mirrors, Addrs;
    var h := At(t, p);
    StoredAt(mem, t, p);
    OkAt(t, p);
    MaterializeStored(mem, h, k, a);
    var n := mem[h.at];
    var mem' := mem[a := ValueNode(h.slots[k].v)][h.at := n.(slots := n.slots[k := Ref(a)], leafbitmap := n.leafbitmap[k := false])];
    var u := h.(slots := h.slots[k := Sub(ValueTree(a, Some(h.slots[k].v)))]);
    RootIn(h);
    CommitHere(mem, mem', t, p, u);
  }

  lemma RootIn(t: Tree)
    ensures t.at in Addrs(t)
  {
  }

  /** A node without children becomes a chain. */
  lemma CompressArena(mem: Memory, mem': Memory, t: Tree, p: seq<nat>, bytes: seq<Byte>, y: Slot)
    requires Arena(mem, t) && ValidPath(t, p)
    requires At(t, p).slots == [] && At(t, p).at in mem
    requires 1 < |bytes| <= NODE_MAX_SIZE
    requires y.Sub? ==> y.t.at !in mem && y.t == ValueTree(y.t.at, None)
    requires mem' == (if y.Sub? then mem[y.t.at := EmptyNode()] else mem)
                     [At(t, p).at := mem[At(t, p).at].(iscompr := true, data := bytes, slots := [WordOf(y)],
                                                       leafbitmap := if y.Leaf? then FIRST_LEAF else NO_LEAVES)]
    ensures Arena(mem', Replace(t, p, Chain(At(t, p).at, At(t, p).key, bytes, y)))
  {
    hide Addrs;
    var h := At(t, p);
    StoredAt(mem, t, p);
    StoredIn(mem, t);
    RootIn(h);
    NoSlotAddrs(h);
    if y.Sub? { ValueStored(mem', y.t.at, None); }
    ChainStored(mem', h.at, h.key, bytes, y);
    CommitHere(mem, mem', t, p, Chain(h.at, h.key, bytes, y));
  }

  lemma NoSlotAddrs(t: Tree)
    requires t.slots == []
    ensures Addrs(t) == {t.at}
  {
  }

  // ----- A new edge -----

  /** Slot 12 has to become a node before an edge is added at `pos`. */
  predicate Spills(h: Tree, pos: nat) {
    pos <= 12 < |h.slots| && h.slots[12].Leaf?
  }

  /** `h` with its slot 12 turned into a node at `a`. */
  function Spilled(h: Tree, a: Addr): (r: Tree)
    requires 12 < |h.slots| && h.slots[12].Leaf?
  {
    h.(slots := h.slots[12 := Sub(ValueTree(a, Some(h.slots[12].v)))])
  }

  function Widened(h: Tree, c: Byte, spill: Option<Addr>): (r: Tree)
    requires spill.Some? ==> 12 < |h.slots| && h.slots[12].Leaf?
    ensures r.at == h.at && r.key == h.key && r.edges == h.edges && |r.slots| == |h.slots| && r.compr == h.compr
  {
    if spill.Some? then Spilled(h, spill.value) else h
  }

  lemma InsertedElement<T>(s: seq<T>, pos: nat, y: T, i: nat)
    requires pos <= |s| && i <= |s|
    ensures (s[..pos] + [y] + s[pos..])[i] == if i < pos then s[i] else if i == pos then y else s[i - 1]
  {
  }

  /** The record a new edge leaves behind. */
  ghost function EdgeRecord(n: RaxNode, h: Tree, c: Byte, y: Slot, spill: Option<Addr>): (r: RaxNode)
    requires |n.leafbitmap| == INLINE_SLOTS && |n.slots| == |n.data| && n.data == h.edges
    requires spill.Some? ==> 12 < |n.slots|
    requires y.Leaf? ==> ChildPos(h.edges, c) < INLINE_SLOTS
  {
    var pos := ChildPos(h.edges, c);
    var r := Opened(n, c, spill);
    r.(slots := r.slots[pos := WordOf(y)], leafbitmap := if y.Leaf? then r.leafbitmap[pos := true] else r.leafbitmap)
  }

  lemma MirrorsSlots(n: RaxNode, h: Tree)
    requires Mirrors(n, h)
    ensures |n.slots| == |h.slots| && n.data == h.edges && |n.leafbitmap| == INLINE_SLOTS && n.iscompr == h.compr
    ensures forall j :: 0 <= j < |h.slots| ==> n.slots[j] == WordOf(h.slots[j])
    ensures forall i :: 0 <= i < INLINE_SLOTS ==> (n.leafbitmap[i] <==> i < |h.slots| && h.slots[i].Leaf?)
  {
  }

  /** The edge `c` can be added to `h`, leading to `y`. */
  ghost predicate CanAdd(n: RaxNode, h: Tree, c: Byte, y: Slot, spill: Option<Addr>) {
    && Mirrors(n, h) && NodeOk(h) && !h.compr
    && (spill.Some? <==> Spills(h, ChildPos(h.edges, c)))
    && (y.Leaf? ==> ChildPos(h.edges, c) < INLINE_SLOTS)
  }

  lemma OpenedSlot(n: RaxNode, h: Tree, c: Byte, y: Slot, spill: Option<Addr>, i: nat)
    requires CanAdd(n, h, c, y, spill) && i <= |h.slots|
    ensures EdgeRecord(n, h, c, y, spill).slots[i] == WordOf(AddEdge(Widened(h, c, spill), c, y).slots[i])
  {
    hide ChildPos, OpenBit;
    MirrorsSlots(n, h);
    var pos := ChildPos(h.edges, c);
    InsertedElement(Widened(h, c, spill).slots, pos, y, i);
    InsertedElement(n.slots, pos, Val(0), i);
  }

  lemma OpenedBit(n: RaxNode, h: Tree, c: Byte, y: Slot, spill: Option<Addr>, i: nat)
    requires CanAdd(n, h, c, y, spill) && i < INLINE_SLOTS
    ensures var u := AddEdge(Widened(h, c, spill), c, y);
            EdgeRecord(n, h, c, y, spill).leafbitmap[i] <==> i < |u.slots| && u.slots[i].Leaf?
  {
    hide ChildPos, Mirrors, OpenBit;
    MirrorsSlots(n, h);
    var pos := ChildPos(h.edges, c);
    var w := Widened(h, c, spill);
    if i <= |h.slots| {
      InsertedElement(w.slots, pos, y, i);
    }
    OpenBitAt(n.leafbitmap, pos, i);
  }

  lemma OpenedMirrors(n: RaxNode, h: Tree, c: Byte, y: Slot, spill: Option<Addr>)
    requires CanAdd(n, h, c, y, spill)
    ensures Mirrors(EdgeRecord(n, h, c, y, spill), AddEdge(Widened(h, c, spill), c, y))
  {
    hide ChildPos, OpenBit;
    var u := AddEdge(Widened(h, c, spill), c, y);
    var r := EdgeRecord(n, h, c, y, spill);
    forall i | 0 <= i < |u.slots|
      ensures r.slots[i] == WordOf(u.slots[i])
    {
      OpenedSlot(n, h, c, y, spill, i);
    }
    forall i | 0 <= i < INLINE_SLOTS
      ensures r.leafbitmap[i] <==> i < |u.slots| && u.slots[i].Leaf?
    {
      OpenedBit(n, h, c, y, spill, i);
    }
  }

  lemma AddEdgeOk(h: Tree, c: Byte, y: Slot, spill: Option<Addr>)
    requires Ok(h) && !h.compr && c !in h.edges
    requires spill.Some? <==> Spills(h, ChildPos(h.edges, c))
    requires y.Leaf? ==> ChildPos(h.edges, c) < INLINE_SLOTS
    requires y.Sub? ==> Ok(y.t)
    ensures Ok(AddEdge(Widened(h, c, spill), c, y))
    ensures Ripe(h) && (y.Sub? ==> Ripe(y.t) && Useful(y.t)) ==> Ripe(AddEdge(Widened(h, c, spill), c, y))
  {
    hide ChildPos;
    var pos := ChildPos(h.edges, c);
    var w := Widened(h, c, spill);
    var u := AddEdge(w, c, y);
    AddEdgeSorted(h.edges, c);
    forall i | 0 <= i < |u.slots| && i != pos ensures u.slots[i] == w.slots[if i < pos then i else i - 1] { }
  }

  /** What the memory of `h` becomes when slot 12 spills. */
  ghost function SpillMemory(mem: Memory, h: Tree, spill: Option<Addr>): (r: Memory)
    requires spill.Some? ==> 12 < |h.slots| && h.slots[12].Leaf?
  {
    if spill.Some? && h.at in mem && 12 < |mem[h.at].slots| && 12 < |mem[h.at].leafbitmap| then
      mem[spill.value := ValueNode(h.slots[12].v)]
         [h.at := mem[h.at].(slots := mem[h.at].slots[12 := Ref(spill.value)],
                             leafbitmap := mem[h.at].leafbitmap[12 := false])]
    else mem
  }

  lemma SpillStored(mem: Memory, h: Tree, c: Byte, spill: Option<Addr>)
    requires Stored(mem, h) && Separate(h) && NodeOk(h)
    requires spill.Some? ==> Spills(h, ChildPos(h.edges, c)) && spill.value !in mem
    ensures var m := SpillMemory(mem, h, spill);
            var w := Widened(h, c, spill);
            Stored(m, w) && Separate(w) && Addrs(w) == Addrs(h) + (if spill.Some? then {spill.value} else {})
  {
    if spill.Some? { MaterializeStored(mem, h, 12, spill.value); }
  }

  lemma AddEdgeStored(mem: Memory, mem': Memory, h: Tree, c: Byte, y: Slot, spill: Option<Addr>)
    requires Stored(mem, h) && Separate(h)
    requires h.at in mem && CanAdd(mem[h.at], h, c, y, spill)
    requires spill.Some? ==> spill.value !in mem
    requires y.Sub? ==> y.t.at !in mem && y.t == ValueTree(y.t.at, None) && spill != Some(y.t.at) && y.t.at in mem' && mem'[y.t.at] == EmptyNode()
    requires Agree(SpillMemory(mem, h, spill), mem', Addrs(Widened(h, c, spill)) - {h.at})
    requires h.at in mem' && mem'[h.at] == EdgeRecord(mem[h.at], h, c, y, spill)
    ensures var u := AddEdge(Widened(h, c, spill), c, y);
            Stored(mem', u) && Separate(u) && Addrs(u) == Addrs(Widened(h, c, spill)) + SlotAddrs(y)
  {
    hide Addrs, Opened, EdgeRecord, ChildPos;
    var w := Widened(h, c, spill);
    var u := AddEdge(w, c, y);
    StoredIn(mem, h);
    SpillStored(mem, h, c, spill);
    OpenedMirrors(mem[h.at], h, c, y, spill);
    if y.Sub? { ValueStored(mem', y.t.at, None); }
    InsertStored(SpillMemory(mem, h, spill), mem', w, u, ChildPos(h.edges, c), y);
  }

  lemma AddEdgeArena(mem: Memory, mem': Memory, t: Tree, p: seq<nat>, c: Byte, y: Slot, spill: Option<Addr>)
    requires Arena(mem, t) && ValidPath(t, p)
    requires var h := At(t, p); h.at in mem && CanAdd(mem[h.at], h, c, y, spill) && c !in h.edges
    requires spill.Some? ==> spill.value !in mem
    requires y.Sub? ==> y.t.at !in mem && y.t == ValueTree(y.t.at, None) && spill != Some(y.t.at)
    requires var h := At(t, p);
             var m1 := if spill.Some? then mem[spill.value := ValueNode(h.slots[12].v)] else mem;
             var m2 := if y.Sub? then m1[y.t.at := EmptyNode()] else m1;
             mem' == m2[h.at := EdgeRecord(mem[h.at], h, c, y, spill)]
    ensures Arena(mem', Replace(t, p, AddEdge(Widened(At(t, p), c, spill), c, y)))
  {
    hide Stored, Separate, Addrs, Mirrors, EdgeRecord, ChildPos, AddEdge, Replace;
    var h := At(t, p);
    StoredAt(mem, t, p);
    OkAt(t, p);
    StoredIn(mem, h);
    RootIn(h);
    MirrorsSlots(mem[h.at], h);
    SpillStored(mem, h, c, spill);
    if y.Sub? { NoSlotAddrs(y.t); }
    AddEdgeStored(mem, mem', h, c, y, spill);
    AddEdgeOk(h, c, y, spill);
    AddEdgeRoot(h, c, y, spill);
    CommitHere(mem, mem', t, p, AddEdge(Widened(h, c, spill), c, y));
  }

  lemma AddEdgeRoot(h: Tree, c: Byte, y: Slot, spill: Option<Addr>)
    requires !h.compr && |h.slots| == |h.edges| && (spill.Some? ==> Spills(h, ChildPos(h.edges, c)))
    ensures AddEdge(Widened(h, c, spill), c, y).at == h.at
  {
  }

  // ----- Splitting a compressed node -----

  /** The slot that continues a compressed node after its byte `j`. */
  function Rest(h: Tree, j: nat, postfix: Addr): (y: Slot)
    requires OneSlot(h) && j < |h.edges|
  {
    if j + 1 < |h.edges| then Sub(Chain(postfix, None, h.edges[j + 1..], h.slots[0])) else h.slots[0]
  }

  lemma SplitEdgeIs(h: Tree, j: nat, trimmed: Addr, split: Addr, postfix: Addr)
    requires OneSlot(h) && j < |h.edges|
    ensures SplitEdge(h, j, trimmed, split, postfix)
         == if j == 0 then Chain(split, h.key, [h.edges[0]], Rest(h, j, postfix))
            else Chain(trimmed, h.key, h.edges[..j], Sub(Chain(split, None, [h.edges[j]], Rest(h, j, postfix))))
  {
  }

  /** The nodes a split creates. */
  function SplitAddrs(h: Tree, j: nat, trimmed: Addr, split: Addr, postfix: Addr): (r: set<Addr>) {
    {split} + (if j > 0 then {trimmed} else {}) + (if j + 1 < |h.edges| then {postfix} else {})
  }

  /** Memory holds the nodes that splitting `h` creates. */
  ghost predicate HoldsSplit(mem: Memory, h: Tree, j: nat, trimmed: Addr, split: Addr, postfix: Addr)
    requires OneSlot(h) && j < |h.edges|
  {
    var rest := Rest(h, j, postfix);
    && split in mem && Mirrors(mem[split], Chain(split, if j == 0 then h.key else None, [h.edges[j]], rest))
    && (j > 0 ==> trimmed in mem && Mirrors(mem[trimmed], Chain(trimmed, h.key, h.edges[..j], Sub(Chain(split, None, [h.edges[j]], rest)))))
    && (j + 1 < |h.edges| ==> postfix in mem && Mirrors(mem[postfix], Chain(postfix, None, h.edges[j + 1..], h.slots[0])))
  }

  lemma RestStored(mem: Memory, h: Tree, j: nat, postfix: Addr)
    requires OneSlot(h) && j < |h.edges|
    requires j + 1 < |h.edges| ==> postfix in mem && Mirrors(mem[postfix], Chain(postfix, None, h.edges[j + 1..], h.slots[0]))
    requires h.slots[0].Sub? ==> Stored(mem, h.slots[0].t) && Separate(h.slots[0].t)
    requires postfix !in SlotAddrs(h.slots[0])
    ensures var y := Rest(h, j, postfix);
            && (y.Sub? ==> Stored(mem, y.t) && Separate(y.t))
            && SlotAddrs(y) == SlotAddrs(h.slots[0]) + (if j + 1 < |h.edges| then {postfix} else {})
  {
    hide Stored, Separate, Mirrors, Addrs;
    if j + 1 < |h.edges| {
      ChainStored(mem, postfix, None, h.edges[j + 1..], h.slots[0]);
    }
  }

  lemma SplitStored(mem: Memory, h: Tree, j: nat, trimmed: Addr, split: Addr, postfix: Addr)
    requires OneSlot(h) && j < |h.edges| && HoldsSplit(mem, h, j, trimmed, split, postfix)
    requires h.slots[0].Sub? ==> Stored(mem, h.slots[0].t) && Separate(h.slots[0].t)
    requires {trimmed, split, postfix} !! SlotAddrs(h.slots[0])
    requires trimmed != split && trimmed != postfix && split != postfix
    ensures var u := SplitEdge(h, j, trimmed, split, postfix);
            Stored(mem, u) && Separate(u) && Addrs(u) == SlotAddrs(h.slots[0]) + SplitAddrs(h, j, trimmed, split, postfix)
  {
    hide Stored, Separate, Mirrors, Addrs, SplitEdge;
    var rest := Rest(h, j, postfix);
    RestStored(mem, h, j, postfix);
    SplitEdgeIs(h, j, trimmed, split, postfix);
    ChainStored(mem, split, if j == 0 then h.key else None, [h.edges[j]], rest);
    if j > 0 {
      ChainStored(mem, trimmed, h.key, h.edges[..j], Sub(Chain(split, None, [h.edges[j]], rest)));
    }
  }

  lemma SplitOk(h: Tree, j: nat, trimmed: Addr, split: Addr, postfix: Addr)
    requires Ok(h) && h.compr && j < |h.edges|
    ensures OneSlot(h)
    ensures Ok(SplitEdge(h, j, trimmed, split, postfix))
    ensures Ripe(h) ==> Ripe(SplitEdge(h, j, trimmed, split, postfix))
  {
  }

  /** Everything below a one-slot node hangs from that slot. */
  lemma OneSlotAddrs(h: Tree)
    requires OneSlot(h)
    ensures Addrs(h) == {h.at} + SlotAddrs(h.slots[0])
    ensures Separate(h) ==> h.at !in SlotAddrs(h.slots[0])
  {
    AddrsSplit(h, 0);
    assert Others(h, 0) == {};
  }

  lemma SplitEdgeArena(mem: Memory, mem': Memory, t: Tree, p: seq<nat>, j: nat, trimmed: Addr, split: Addr, postfix: Addr)
    requires Arena(mem, t) && ValidPath(t, p)
    requires var h := At(t, p); OneSlot(h) && h.compr && j < |h.edges| && HoldsSplit(mem', h, j, trimmed, split, postfix)
    requires {trimmed, split, postfix} !! mem.Keys
    requires trimmed != split && trimmed != postfix && split != postfix
    requires Agree(Linked(mem, t, p, SplitEdge(At(t, p), j, trimmed, split, postfix).at), mem', Outside(t, p))
    requires Agree(mem, mem', SlotAddrs(At(t, p).slots[0]))
    requires mem'.Keys == mem.Keys - {At(t, p).at} + SplitAddrs(At(t, p), j, trimmed, split, postfix)
    ensures Arena(mem', Replace(t, p, SplitEdge(At(t, p), j, trimmed, split, postfix)))
  {
    hide Stored, Separate, Mirrors, Addrs, SplitEdge, HoldsSplit;
    var h := At(t, p);
    StoredAt(mem, t, p);
    OkAt(t, p);
    StoredIn(mem, t);
    OneSlotAddrs(h);
    SlotStored(mem, mem', h);
    SplitStored(mem', h, j, trimmed, split, postfix);
    SplitOk(h, j, trimmed, split, postfix);
    Commit(mem, mem', t, p, SplitEdge(h, j, trimmed, split, postfix));
  }

  lemma SlotStored(mem: Memory, mem': Memory, h: Tree)
    requires Stored(mem, h) && Separate(h) && OneSlot(h) && Agree(mem, mem', SlotAddrs(h.slots[0]))
    ensures h.slots[0].Sub? ==> Stored(mem', h.slots[0].t) && Separate(h.slots[0].t)
  {
    if h.slots[0].Sub? { StoredFrame(mem, mem', h.slots[0].t); }
  }

  lemma SplitKeyArena(mem: Memory, mem': Memory, t: Tree, p: seq<nat>, j: nat, v: Ptr, trimmed: Addr, postfix: Addr)
    requires Arena(mem, t) && ValidPath(t, p)
    requires var h := At(t, p); OneSlot(h) && h.compr && 0 < j < |h.edges|
    requires {trimmed, postfix} !! mem.Keys && trimmed != postfix
    requires var h := At(t, p);
             && postfix in mem' && Mirrors(mem'[postfix], Chain(postfix, Some(v), h.edges[j..], h.slots[0]))
             && trimmed in mem' && Mirrors(mem'[trimmed], Chain(trimmed, h.key, h.edges[..j], Sub(Chain(postfix, Some(v), h.edges[j..], h.slots[0]))))
    requires Agree(Linked(mem, t, p, trimmed), mem', Outside(t, p))
    requires Agree(mem, mem', SlotAddrs(At(t, p).slots[0]))
    requires mem'.Keys == mem.Keys - {At(t, p).at} + {trimmed, postfix}
    ensures Arena(mem', Replace(t, p, SplitKey(At(t, p), j, v, trimmed, postfix)))
  {
    hide Stored, Separate, Mirrors, Addrs;
    var h := At(t, p);
    StoredAt(mem, t, p);
    OkAt(t, p);
    StoredIn(mem, t);
    OneSlotAddrs(h);
    SlotStored(mem, mem', h);
    ChainStored(mem', postfix, Some(v), h.edges[j..], h.slots[0]);
    ChainStored(mem', trimmed, h.key, h.edges[..j], Sub(Chain(postfix, Some(v), h.edges[j..], h.slots[0])));
    SplitKeyOk(h, j, v, trimmed, postfix);
    Commit(mem, mem', t, p, SplitKey(h, j, v, trimmed, postfix));
  }

  lemma SplitKeyOk(h: Tree, j: nat, v: Ptr, trimmed: Addr, postfix: Addr)
    requires Ok(h) && OneSlot(h) && h.compr && 0 < j < |h.edges|
    ensures Ok(SplitKey(h, j, v, trimmed, postfix))
    ensures Ripe(h) ==> Ripe(SplitKey(h, j, v, trimmed, postfix))
  {
  }
}
