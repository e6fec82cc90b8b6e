/** Whole states of a radix tree and the steps of an insertion: each step takes
    a state that holds a tree to a state that holds the edited tree. */
module RaxInsertion {
  import opened RaxTree
  import opened RaxMemory
  import opened RaxEdit
  import opened RaxGrow
  import opened RaxMeaning
  import opened RaxWalk

  type Contents = map<seq<Byte>, Ptr>

  /** The fields of a radix tree.  No node lies at or beyond `brk`. */
  datatype State = State(mem: Memory, head: Addr, brk: Addr, numele: nat, numnodes: nat)

  /** Memory holds exactly the nodes of one well-shaped tree, which maps the
      strings of `m`; the counters are exact. */
  ghost predicate Kept(st: State, t: Tree, m: Contents) {
    && st.head == t.at
    && Arena(st.mem, t)
    && st.numnodes == |st.mem|
    && (forall a :: a in st.mem ==> a < st.brk)
    && Denotes(t, m)
    && st.numele == |m|
  }

  lemma KeptOk(st: State, t: Tree, m: Contents)
    requires Kept(st, t, m)
    ensures Ok(t) && Arena(st.mem, t) && st.brk !in st.mem && st.head == t.at && Denotes(t, m)
  {
  }

  // ----- The key has a place already -----

  /** Slot `k` of the node at `h` holds a value. */
  predicate HasLeaf(mem: Memory, h: Addr, k: nat) {
    h in mem && k < |mem[h].slots| && k < |mem[h].leafbitmap| && mem[h].slots[k].Val?
  }

  function AfterLeaf(st: State, h: Addr, k: nat, data: Ptr): (r: State)
    requires HasLeaf(st.mem, h, k)
  {
    st.(mem := st.mem[h := st.mem[h].(slots := st.mem[h].slots[k := Val(data)])])
  }

  lemma LeafDone(st: State, t: Tree, m: Contents, s: seq<Byte>, w: Stop, p: seq<nat>, data: Ptr) returns (t': Tree)
    requires Kept(st, t, m) && Ripe(t)
    requires Stopped(t, s, w, p) && w.inlineLeaf && w.i == |s|
    ensures w.plink.SlotLink? && HasLeaf(st.mem, w.h, w.plink.idx)
    ensures Get(m, s) == Some(st.mem[w.h].slots[w.plink.idx].v)
    ensures Kept(AfterLeaf(st, w.h, w.plink.idx, data), t', m[s := data]) && Ripe(t')
  {
    hide Stored, Separate, Addrs, Lookup, Denotes, Mirrors, Replace;
    var h, k := At(t, p), w.plink.idx;
    Standing(st.mem, t, s, w, p);
    StoppedLookup(t, s, w, p);
    DenotesAt(t, m, s);
    LeafBit(st.mem[h.at], h, k);
    LeafArena(st.mem, t, p, k, data);
    LeafMeaning(t, p, k, data, m);
    assert s == s[..w.i];
    t' := Replace(t, p, h.(slots := h.slots[k := Leaf(data)]));
    ReplaceRoot(t, p, h.(slots := h.slots[k := Leaf(data)]));
  }

  lemma LeafBit(n: RaxNode, t: Tree, k: nat)
    requires Mirrors(n, t) && NodeOk(t) && k < |t.slots| && t.slots[k].Leaf?
    ensures k < |n.slots| && k < |n.leafbitmap| && n.slots[k] == Val(t.slots[k].v)
  {
  }

  function AfterKey(st: State, h: Addr, data: Ptr): (r: State)
    requires h in st.mem
  {
    st.(mem := st.mem[h := SetData(st.mem[h], data)], numele := if st.mem[h].iskey then st.numele else st.numele + 1)
  }

  lemma KeyDone(st: State, t: Tree, m: Contents, p: seq<nat>, data: Ptr) returns (t': Tree)
    requires Kept(st, t, m) && ValidPath(t, p)
    requires RipeAround(t, p) && Ripe(At(t, p))
    ensures At(t, p).at in st.mem
    ensures Kept(AfterKey(st, At(t, p).at, data), t', m[PathLabel(t, p) := data]) && Ripe(t')
  {
    hide Stored, Separate, Addrs, Lookup, Denotes, Mirrors, Replace;
    var h := At(t, p);
    var u := h.(key := Some(data));
    NodeRecord(st.mem, t, p);
    DenotesNode(t, p, m);
    KeyArena(st.mem, st.mem[h.at := SetData(st.mem[h.at], data)], t, p, SetData(st.mem[h.at], data), Some(data));
    KeyMeaning(t, p, data, m);
    ReplaceRoot(t, p, u);
    t' := Replace(t, p, u);
    assert Ripe(u);
  }

  lemma CutCount(a: set<Addr>, b: set<Addr>, x: Addr)
    requires x in a && a !! b
    ensures |a - {x} + b| == |a| - 1 + |b|
  {
    assert (a - {x}) !! b;
  }

  lemma CutMaps(mem: Memory, mem': Memory, added: Memory, l: Link, a: Addr, x: Addr, outside: set<Addr>, inside: set<Addr>)
    requires l.SlotLink? ==> l.parent in mem && l.idx < |mem[l.parent].slots| && l.parent != x && l.parent !in inside
    requires x in mem && x !in outside && x !in inside && outside <= mem.Keys && inside <= mem.Keys
    requires added.Keys !! mem.Keys
    requires mem' == WriteLink(mem + added, l, a) - {x}
    ensures Agree(WriteLink(mem, l, a), mem', outside)
    ensures Agree(mem, mem', inside)
    ensures mem'.Keys == mem.Keys - {x} + added.Keys
    ensures forall y :: y in added ==> y in mem' && mem'[y] == added[y]
  {
  }

  /** Adding nodes, linking the first of them in place of the one at `p` and
      freeing that one touches nothing else. */
  lemma CutMemory(mem: Memory, mem': Memory, t: Tree, p: seq<nat>, a: Addr, added: Memory)
    requires Arena(mem, t) && ValidPath(t, p) && OneSlot(At(t, p))
    requires added.Keys !! mem.Keys
    requires mem' == WriteLink(mem + added, LinkOf(t, p), a) - {At(t, p).at}
    ensures Agree(Linked(mem, t, p, a), mem', Outside(t, p))
    ensures Agree(mem, mem', SlotAddrs(At(t, p).slots[0]))
    ensures mem'.Keys == mem.Keys - {At(t, p).at} + added.Keys
    ensures |mem'| == |mem| - 1 + |added|
    ensures forall x :: x in added ==> x in mem' && mem'[x] == added[x]
  {
    hide Stored, Separate, Addrs, Mirrors, Agree, WriteLink;
    var h := At(t, p);
    LinkTarget(mem, t, p);
    LinkedWrite(mem, t, p, a);
    StoredAt(mem, t, p);
    OneSlotAddrs(h);
    RootIn(h);
    StoredIn(mem, t);
    CutMaps(mem, mem', added, LinkOf(t, p), a, h.at, Outside(t, p), SlotAddrs(h.slots[0]));
    CutCount(mem.Keys, added.Keys, h.at);
    assert |mem'| == |mem'.Keys| && |added| == |added.Keys| && |mem| == |mem.Keys|;
  }

  lemma CutBound(a': set<Addr>, a: set<Addr>, x: Addr, added: set<Addr>, brk: Addr, brk': Addr)
    requires a' == a - {x} + added && brk <= brk'
    requires forall y :: y in a ==> y < brk
    requires forall y :: y in added ==> y < brk'
    ensures forall y :: y in a' ==> y < brk'
  {
  }

  // ----- The key ends inside a compressed node -----

  /** The nodes `SplitWithKey` puts in place of the node `n`. */
  function KeyCut(n: RaxNode, j: nat, data: Ptr, trimmed: Addr, postfix: Addr): (r: Memory)
    requires j <= |n.data| && |n.slots| == 1 && |n.leafbitmap| == INLINE_SLOTS
    ensures r.Keys == {trimmed, postfix}
  {
    map[postfix := SetData(ChainNode(n.data[j..], n.slots[0], n.leafbitmap[0]), data),
        trimmed := CopyKey(ChainNode(n.data[..j], Ref(postfix), false), n)]
  }

  lemma KeyCutMirrors(n: RaxNode, nd: Tree, j: nat, data: Ptr, trimmed: Addr, postfix: Addr)
    requires Mirrors(n, nd) && NodeOk(nd) && nd.compr && 0 < j < |nd.edges| && trimmed != postfix
    ensures OneSlot(nd) && |n.slots| == 1
    ensures var r := KeyCut(n, j, data, trimmed, postfix);
            && r.Keys == {trimmed, postfix} && |r| == 2
            && Mirrors(r[postfix], Chain(postfix, Some(data), nd.edges[j..], nd.slots[0]))
            && Mirrors(r[trimmed], Chain(trimmed, nd.key, nd.edges[..j], Sub(Chain(postfix, Some(data), nd.edges[j..], nd.slots[0]))))
  {
    hide Mirrors;
    CompressedRecord(n, nd);
    var r := KeyCut(n, j, data, trimmed, postfix);
    ChainMirrors(r[postfix], postfix, Some(data), nd.edges[j..], nd.slots[0]);
    ChainMirrors(r[trimmed], trimmed, nd.key, nd.edges[..j], Sub(Chain(postfix, Some(data), nd.edges[j..], nd.slots[0])));
    assert |r| == |r.Keys|;
  }

  /** The record at `h` is a compressed node with a byte `j`. */
  predicate Cuttable(mem: Memory, h: Addr, j: nat) {
    h in mem && |mem[h].slots| == 1 && |mem[h].leafbitmap| == INLINE_SLOTS && j < |mem[h].data|
  }

  lemma CuttableNode(mem: Memory, t: Tree, p: seq<nat>, j: nat)
    requires Arena(mem, t) && ValidPath(t, p) && At(t, p).compr && j < |At(t, p).edges|
    ensures OneSlot(At(t, p)) && Cuttable(mem, At(t, p).at, j) && mem[At(t, p).at].data == At(t, p).edges
    ensures Mirrors(mem[At(t, p).at], At(t, p)) && NodeOk(At(t, p))
  {
    hide Stored, Separate, Addrs, Mirrors;
    NodeRecord(mem, t, p);
    CompressedRecord(mem[At(t, p).at], At(t, p));
  }

  function MemoryAfterKeyCut(mem: Memory, h: Addr, l: Link, j: nat, data: Ptr, brk: Addr): (r: Memory)
    requires Cuttable(mem, h, j)
  {
    WriteLink(mem + KeyCut(mem[h], j, data, brk, brk + 1), l, brk) - {h}
  }

  /** The state after the node at `h` has been cut to end a key after `j` bytes. */
  function AfterKeyCut(st: State, h: Addr, l: Link, j: nat, data: Ptr): (r: State)
    requires Cuttable(st.mem, h, j)
  {
    State(MemoryAfterKeyCut(st.mem, h, l, j, data, st.brk),
          if l.HeadLink? then st.brk else st.head, st.brk + 2, st.numele + 1, st.numnodes + 1)
  }

  lemma KeyCutMemory(mem: Memory, t: Tree, p: seq<nat>, j: nat, data: Ptr, brk: Addr) returns (u: Tree)
    requires Arena(mem, t) && ValidPath(t, p) && At(t, p).compr && 0 < j < |At(t, p).edges|
    requires forall a :: a in mem ==> a < brk
    ensures OneSlot(At(t, p)) && Cuttable(mem, At(t, p).at, j)
    ensures u == SplitKey(At(t, p), j, data, brk, brk + 1) && u.at == brk
    ensures var mem' := MemoryAfterKeyCut(mem, At(t, p).at, LinkOf(t, p), j, data, brk);
            Arena(mem', Replace(t, p, u)) && |mem'| == |mem| + 1 && (forall a :: a in mem' ==> a < brk + 2)
  {
    hide Stored, Separate, Addrs, Mirrors, Replace, LinkOf, Linked, WriteLink, KeyCut, At, ValidPath;
    var nd := At(t, p);
    CuttableNode(mem, t, p, j);
    var added := KeyCut(mem[nd.at], j, data, brk, brk + 1);
    var mem' := WriteLink(mem + added, LinkOf(t, p), brk) - {nd.at};
    KeyCutMirrors(mem[nd.at], nd, j, data, brk, brk + 1);
    CutMemory(mem, mem', t, p, brk, added);
    SplitKeyArena(mem, mem', t, p, j, data, brk, brk + 1);
    CutBound(mem'.Keys, mem.Keys, nd.at, added.Keys, brk, brk + 2);
    u := SplitKey(nd, j, data, brk, brk + 1);
  }

  lemma KeyCutKept(st: State, t: Tree, m: Contents, p: seq<nat>, j: nat, data: Ptr) returns (t': Tree)
    requires Kept(st, t, m) && Ripe(t)
    requires ValidPath(t, p) && At(t, p).compr && 0 < j < |At(t, p).edges|
    requires PathLabel(t, p) + At(t, p).edges[..j] !in m
    ensures Cuttable(st.mem, At(t, p).at, j)
    ensures Kept(AfterKeyCut(st, At(t, p).at, LinkOf(t, p), j, data), t', m[PathLabel(t, p) + At(t, p).edges[..j] := data])
    ensures Ripe(t')
  {
    hide Arena, Ok, Denotes, Replace, LinkOf, MemoryAfterKeyCut, SplitKey, At, ValidPath, PathLabel, Ripe, OneSlot;
    KeptOk(st, t, m);
    LinkTarget(st.mem, t, p);
    var u := KeyCutMemory(st.mem, t, p, j, data, st.brk);
    SplitKeyMeaning(t, p, j, data, st.brk, st.brk + 1, m);
    ReplaceRoot(t, p, u);
    t' := Replace(t, p, u);
  }

  lemma SplitKeyDone(st: State, t: Tree, m: Contents, s: seq<Byte>, w: Stop, p: seq<nat>, data: Ptr) returns (t': Tree)
    requires Kept(st, t, m) && Ripe(t)
    requires Stopped(t, s, w, p) && !w.inlineLeaf && w.i == |s| && At(t, p).compr && w.splitpos != 0
    ensures Cuttable(st.mem, w.h, w.splitpos) && s !in m
    ensures Kept(AfterKeyCut(st, w.h, w.plink, w.splitpos, data), t', m[s := data]) && Ripe(t')
  {
    hide Kept, Lookup, Denotes, LinkOf, AfterKeyCut, Ripe, Ok, Arena;
    KeptOk(st, t, m);
    StoppedLookup(t, s, w, p);
    DenotesAt(t, m, s);
    assert s == s[..w.i];
    t' := KeyCutKept(st, t, m, p, w.splitpos, data);
  }

  // ----- The key goes on -----

  /** A tree into which `s` is being inserted: `s[..i]` leads to the node `h`,
      which has no edge for the next byte; all other nodes are useful. */
  ghost predicate Growing(st: State, t: Tree, m: Contents, s: seq<Byte>, i: nat, h: Addr, p: seq<nat>) {
    && Kept(st, t, m) && s !in m
    && ValidPath(t, p) && h == At(t, p).at && !At(t, p).compr
    && i <= |s| && s[..i] == PathLabel(t, p)
    && (i < |s| ==> s[i] !in At(t, p).edges)
    && RipeAround(t, p) && Ripe(At(t, p))
  }

  /** The walk stopped at a plain node. */
  lemma GrowHere(st: State, t: Tree, m: Contents, s: seq<Byte>, w: Stop, p: seq<nat>)
    requires Kept(st, t, m) && Ripe(t)
    requires Stopped(t, s, w, p) && !w.inlineLeaf && !At(t, p).compr && s !in m
    ensures Growing(st, t, m, s, w.i, w.h, p)
  {
    hide Arena, Denotes, Replace, Ripe;
    KeptOk(st, t, m);
    RipeAroundStart(t, p);
  }

  /** The state after slot `k` of the node at `h` has moved to a node of its own. */
  function AfterMaterialize(st: State, h: Addr, k: nat): (r: State)
    requires HasLeaf(st.mem, h, k)
  {
    var n := st.mem[h];
    st.(mem := st.mem[st.brk := ValueNode(n.slots[k].v)]
                     [h := n.(slots := n.slots[k := Ref(st.brk)], leafbitmap := n.leafbitmap[k := false])],
        brk := st.brk + 1, numnodes := st.numnodes + 1)
  }

  lemma MaterializeKept(st: State, t: Tree, m: Contents, p: seq<nat>, k: nat) returns (u: Tree)
    requires Kept(st, t, m) && Ripe(t) && ValidPath(t, p)
    requires k < |At(t, p).slots| && At(t, p).slots[k].Leaf?
    ensures HasLeaf(st.mem, At(t, p).at, k)
    ensures u == At(t, p).(slots := At(t, p).slots[k := Sub(ValueTree(st.brk, Some(At(t, p).slots[k].v)))])
    ensures Kept(AfterMaterialize(st, At(t, p).at, k), Replace(t, p, u), m) && Ripe(Replace(t, p, u))
  {
    hide Stored, Separate, Addrs, Lookup, Denotes, Mirrors, Replace;
    var h := At(t, p);
    NodeRecord(st.mem, t, p);
    LeafBit(st.mem[h.at], h, k);
    u := h.(slots := h.slots[k := Sub(ValueTree(st.brk, Some(h.slots[k].v)))]);
    MaterializeArena(st.mem, t, p, k, st.brk);
    MaterializeMeaning(t, p, k, st.brk, m);
    ReplaceRoot(t, p, u);
  }

  lemma MaterializeDone(st: State, t: Tree, m: Contents, s: seq<Byte>, w: Stop, p: seq<nat>) returns (t': Tree, q: seq<nat>)
    requires Kept(st, t, m) && Ripe(t)
    requires Stopped(t, s, w, p) && w.inlineLeaf && w.i < |s| && s !in m
    ensures w.plink.SlotLink? && HasLeaf(st.mem, w.h, w.plink.idx)
    ensures Growing(AfterMaterialize(st, w.h, w.plink.idx), t', m, s, w.i, st.brk, q)
  {
    hide Kept, Replace, AfterMaterialize, Ripe, Ok;
    var h, k := At(t, p), w.plink.idx;
    var u := MaterializeKept(st, t, m, p, k);
    t', q := Replace(t, p, u), p + [k];
    KeptOk(AfterMaterialize(st, w.h, k), t', m);
    ReplaceValid(t, p, u);
    PathAppend(t', p, k);
    RipeAroundStart(t', q);
  }

  /** The nodes `SplitCompressed` puts in place of the node `n`. */
  function EdgeCut(n: RaxNode, j: nat, trimmed: Addr, split: Addr, postfix: Addr): (r: Memory)
    requires j < |n.data| && |n.slots| == 1 && |n.leafbitmap| == INLINE_SLOTS
  {
    var hasPostfix := j + 1 < |n.data|;
    var tail: Memory := if hasPostfix then map[postfix := ChainNode(n.data[j + 1..], n.slots[0], n.leafbitmap[0])] else map[];
    var middle := ChainNode([n.data[j]], if hasPostfix then Ref(postfix) else n.slots[0], !hasPostfix && n.leafbitmap[0]);
    if j == 0 then tail[split := CopyKey(middle, n)]
    else tail[split := middle][trimmed := CopyKey(ChainNode(n.data[..j], Ref(split), false), n)]
  }

  lemma EdgeCutKeys(n: RaxNode, h: Tree, j: nat, trimmed: Addr, split: Addr, postfix: Addr)
    requires n.data == h.edges && j < |n.data| && |n.slots| == 1 && |n.leafbitmap| == INLINE_SLOTS
    requires trimmed != split && trimmed != postfix && split != postfix
    ensures var r := EdgeCut(n, j, trimmed, split, postfix);
            && r.Keys == SplitAddrs(h, j, trimmed, split, postfix)
            && |r| == 1 + (if j > 0 then 1 else 0) + (if j + 1 < |h.edges| then 1 else 0)
    ensures SplitAddrs(h, j, trimmed, split, postfix) <= {trimmed, split, postfix}
  {
    var r := EdgeCut(n, j, trimmed, split, postfix);
    assert r.Keys == SplitAddrs(h, j, trimmed, split, postfix);
    assert |r| == |r.Keys|;
  }

  /** The records of a cut, one by one. */
  lemma EdgeCutRecords(n: RaxNode, j: nat, trimmed: Addr, split: Addr, postfix: Addr)
    requires j < |n.data| && |n.slots| == 1 && |n.leafbitmap| == INLINE_SLOTS
    requires trimmed != split && trimmed != postfix && split != postfix
    ensures var r := EdgeCut(n, j, trimmed, split, postfix);
            var cut := j + 1 < |n.data|;
            var middle := ChainNode([n.data[j]], if cut then Ref(postfix) else n.slots[0], !cut && n.leafbitmap[0]);
            && (cut ==> postfix in r && r[postfix] == ChainNode(n.data[j + 1..], n.slots[0], n.leafbitmap[0]))
            && split in r && r[split] == (if j == 0 then CopyKey(middle, n) else middle)
            && (j > 0 ==> trimmed in r && r[trimmed] == CopyKey(ChainNode(n.data[..j], Ref(split), false), n))
  {
    hide ChainNode, CopyKey;
  }

  lemma EdgeCutHolds(n: RaxNode, h: Tree, j: nat, trimmed: Addr, split: Addr, postfix: Addr)
    requires Mirrors(n, h) && NodeOk(h) && h.compr && j < |h.edges|
    requires trimmed != split && trimmed != postfix && split != postfix
    ensures OneSlot(h) && |n.slots| == 1
    ensures HoldsSplit(EdgeCut(n, j, trimmed, split, postfix), h, j, trimmed, split, postfix)
  {
    hide Mirrors, EdgeCut;
    CompressedRecord(n, h);
    EdgeCutRecords(n, j, trimmed, split, postfix);
    var r := EdgeCut(n, j, trimmed, split, postfix);
    var rest := Rest(h, j, postfix);
    if j + 1 < |h.edges| { ChainMirrors(r[postfix], postfix, None, h.edges[j + 1..], h.slots[0]); }
    ChainMirrors(r[split], split, if j == 0 then h.key else None, [h.edges[j]], rest);
    if j > 0 { ChainMirrors(r[trimmed], trimmed, h.key, h.edges[..j], Sub(Chain(split, None, [h.edges[j]], rest))); }
  }

  lemma HoldsSplitIn(added: Memory, mem: Memory, h: Tree, j: nat, trimmed: Addr, split: Addr, postfix: Addr)
    requires OneSlot(h) && j < |h.edges| && HoldsSplit(added, h, j, trimmed, split, postfix)
    requires forall x :: x in added ==> x in mem && mem[x] == added[x]
    ensures HoldsSplit(mem, h, j, trimmed, split, postfix)
  {
    hide Mirrors, Chain;
  }

  lemma SplitEdgeRoot(h: Tree, j: nat, trimmed: Addr, split: Addr, postfix: Addr)
    requires OneSlot(h) && j < |h.edges|
    ensures SplitEdge(h, j, trimmed, split, postfix).at == if j == 0 then split else trimmed
  {
  }

  function MemoryAfterEdgeCut(mem: Memory, h: Addr, l: Link, j: nat, brk: Addr): (r: Memory)
    requires Cuttable(mem, h, j)
  {
    WriteLink(mem + EdgeCut(mem[h], j, brk, brk + 1, brk + 2), l, if j == 0 then brk + 1 else brk) - {h}
  }

  /** The state after the node at `h` has been cut around its byte `j`. */
  function AfterEdgeCut(st: State, h: Addr, l: Link, j: nat): (r: State)
    requires Cuttable(st.mem, h, j)
  {
    var top := if j == 0 then st.brk + 1 else st.brk;
    State(MemoryAfterEdgeCut(st.mem, h, l, j, st.brk),
          if l.HeadLink? then top else st.head, st.brk + 3, st.numele,
          st.numnodes + (if j > 0 then 1 else 0) + (if j + 1 < |st.mem[h].data| then 1 else 0))
  }

  /** The records that a cut adds, at fresh addresses. */
  lemma EdgeCutAdds(mem: Memory, h: Tree, j: nat, brk: Addr)
    requires Cuttable(mem, h.at, j) && Mirrors(mem[h.at], h) && NodeOk(h) && h.compr && mem[h.at].data == h.edges
    requires forall a :: a in mem ==> a < brk
    ensures OneSlot(h)
    ensures var added := EdgeCut(mem[h.at], j, brk, brk + 1, brk + 2);
      && added.Keys !! mem.Keys && added.Keys == SplitAddrs(h, j, brk, brk + 1, brk + 2) <= {brk, brk + 1, brk + 2}
      && |added| == 1 + (if j > 0 then 1 else 0) + (if j + 1 < |h.edges| then 1 else 0)
      && HoldsSplit(added, h, j, brk, brk + 1, brk + 2)
  {
    hide Mirrors, EdgeCut, HoldsSplit, SplitAddrs;
    EdgeCutHolds(mem[h.at], h, j, brk, brk + 1, brk + 2);
    EdgeCutKeys(mem[h.at], h, j, brk, brk + 1, brk + 2);
  }

  lemma EdgeCutMemory(mem: Memory, t: Tree, p: seq<nat>, j: nat, brk: Addr) returns (u: Tree)
    requires Arena(mem, t) && ValidPath(t, p) && At(t, p).compr && j < |At(t, p).edges|
    requires forall a :: a in mem ==> a < brk
    ensures OneSlot(At(t, p)) && Cuttable(mem, At(t, p).at, j) && mem[At(t, p).at].data == At(t, p).edges
    ensures u == SplitEdge(At(t, p), j, brk, brk + 1, brk + 2) && u.at == if j == 0 then brk + 1 else brk
    ensures var mem' := MemoryAfterEdgeCut(mem, At(t, p).at, LinkOf(t, p), j, brk);
            Arena(mem', Replace(t, p, u)) && EdgeCutCounted(mem, mem', j, At(t, p), brk)
  {
    hide Arena, Mirrors, Replace, LinkOf, Linked, WriteLink, EdgeCut, HoldsSplit, SplitEdge, Ok, ValidPath, At, SplitAddrs, EdgeCutCounted, NodeOk, Outside, Agree;
    var h := At(t, p);
    CuttableNode(mem, t, p, j);
    SplitEdgeRoot(h, j, brk, brk + 1, brk + 2);
    EdgeCutAdds(mem, h, j, brk);
    var added := EdgeCut(mem[h.at], j, brk, brk + 1, brk + 2);
    u := SplitEdge(h, j, brk, brk + 1, brk + 2);
    var mem' := MemoryAfterEdgeCut(mem, h.at, LinkOf(t, p), j, brk);
    EdgeCutArena(mem, mem', t, p, h, j, added, brk, u);
  }

  lemma EdgeCutArena(mem: Memory, mem': Memory, t: Tree, p: seq<nat>, h: Tree, j: nat, added: Memory, brk: Addr, u: Tree)
    requires Arena(mem, t) && ValidPath(t, p) && h == At(t, p) && OneSlot(h) && h.compr && j < |h.edges|
    requires u == SplitEdge(h, j, brk, brk + 1, brk + 2)
    requires forall a :: a in mem ==> a < brk
    requires mem' == WriteLink(mem + added, LinkOf(t, p), u.at) - {h.at}
    requires added.Keys !! mem.Keys && added.Keys == SplitAddrs(h, j, brk, brk + 1, brk + 2) <= {brk, brk + 1, brk + 2}
    requires |added| == 1 + (if j > 0 then 1 else 0) + (if j + 1 < |h.edges| then 1 else 0)
    requires HoldsSplit(added, h, j, brk, brk + 1, brk + 2)
    ensures Arena(mem', Replace(t, p, u)) && EdgeCutCounted(mem, mem', j, h, brk)
  {
    hide Arena, Replace, LinkOf, Linked, WriteLink, HoldsSplit, SplitEdge, ValidPath, At, SplitAddrs, EdgeCutCounted, Outside, Agree, OneSlot;
    CutMemory(mem, mem', t, p, u.at, added);
    HoldsSplitIn(added, mem', h, j, brk, brk + 1, brk + 2);
    SplitEdgeArena(mem, mem', t, p, j, brk, brk + 1, brk + 2);
    EdgeCutCount(mem, mem', h, j, added, brk);
  }

  /** How many nodes a cut adds, and below which address all nodes lie. */
  ghost predicate EdgeCutCounted(mem: Memory, mem': Memory, j: nat, h: Tree, brk: Addr) {
    && |mem'| == |mem| + (if j > 0 then 1 else 0) + (if j + 1 < |h.edges| then 1 else 0)
    && (forall a :: a in mem' ==> a < brk + 3)
  }

  lemma EdgeCutCount(mem: Memory, mem': Memory, h: Tree, j: nat, added: Memory, brk: Addr)
    requires forall a :: a in mem ==> a < brk
    requires mem'.Keys == mem.Keys - {h.at} + added.Keys && |mem'| == |mem| - 1 + |added|
    requires added.Keys <= {brk, brk + 1, brk + 2}
    requires |added| == 1 + (if j > 0 then 1 else 0) + (if j + 1 < |h.edges| then 1 else 0)
    ensures EdgeCutCounted(mem, mem', j, h, brk)
  {
    CutBound(mem'.Keys, mem.Keys, h.at, added.Keys, brk, brk + 3);
  }

  lemma EdgeCutKept(st: State, t: Tree, m: Contents, p: seq<nat>, j: nat) returns (u: Tree)
    requires Kept(st, t, m) && Ripe(t)
    requires ValidPath(t, p) && At(t, p).compr && j < |At(t, p).edges|
    ensures OneSlot(At(t, p)) && Cuttable(st.mem, At(t, p).at, j)
    ensures u == SplitEdge(At(t, p), j, st.brk, st.brk + 1, st.brk + 2)
    ensures Kept(AfterEdgeCut(st, At(t, p).at, LinkOf(t, p), j), Replace(t, p, u), m)
    ensures Ripe(Replace(t, p, u))
  {
    hide Arena, Ok, Denotes, Replace, LinkOf, MemoryAfterEdgeCut, SplitEdge, At, ValidPath, PathLabel, Ripe, OneSlot;
    KeptOk(st, t, m);
    LinkTarget(st.mem, t, p);
    u := EdgeCutMemory(st.mem, t, p, j, st.brk);
    SplitEdgeMeaning(t, p, j, st.brk, st.brk + 1, st.brk + 2, m);
    ReplaceRoot(t, p, u);
  }

  /** Where the split node lies in the new tree. */
  lemma SplitFocus(t: Tree, p: seq<nat>, j: nat, trimmed: Addr, split: Addr, postfix: Addr, s: seq<Byte>, i: nat) returns (q: seq<nat>)
    requires ValidPath(t, p) && OneSlot(At(t, p)) && j < |At(t, p).edges|
    requires i < |s| && s[..i] == PathLabel(t, p) + At(t, p).edges[..j] && s[i] != At(t, p).edges[j]
    ensures var t' := Replace(t, p, SplitEdge(At(t, p), j, trimmed, split, postfix));
            && ValidPath(t', q) && At(t', q).at == split && !At(t', q).compr
            && PathLabel(t', q) == s[..i] && s[i] !in At(t', q).edges
  {
    hide Replace, PathLabel, ValidPath, At;
    var u := SplitEdge(At(t, p), j, trimmed, split, postfix);
    var t' := Replace(t, p, u);
    ReplaceValid(t, p, u);
    if j == 0 {
      q := p;
      assert At(t, p).edges[..0] == [];
    } else {
      q := p + [0];
      PathAppend(t', p, 0);
      assert Label(u, 0) == At(t, p).edges[..j];
    }
  }

  lemma EdgeCutDone(st: State, t: Tree, m: Contents, s: seq<Byte>, w: Stop, p: seq<nat>) returns (t': Tree, q: seq<nat>)
    requires Kept(st, t, m) && Ripe(t)
    requires Stopped(t, s, w, p) && !w.inlineLeaf && At(t, p).compr && w.i < |s| && s !in m
    ensures Cuttable(st.mem, w.h, w.splitpos)
    ensures Growing(AfterEdgeCut(st, w.h, w.plink, w.splitpos), t', m, s, w.i, st.brk + 1, q)
  {
    hide Kept, AfterEdgeCut, Replace, Ok;
    var h, j := At(t, p), w.splitpos;
    var u := EdgeCutKept(st, t, m, p, j);
    t' := Replace(t, p, u);
    q := SplitFocus(t, p, j, st.brk, st.brk + 1, st.brk + 2, s, w.i);
    KeptOk(AfterEdgeCut(st, w.h, w.plink, j), t', m);
    RipeAroundStart(t', q);
  }

  lemma GrowingNode(st: State, t: Tree, m: Contents, s: seq<Byte>, i: nat, h: Addr, p: seq<nat>)
    requires Growing(st, t, m, s, i, h, p)
    ensures Extensible(st.mem, h) && st.brk !in st.mem
    ensures ValidPath(t, p) && h == At(t, p).at && Mirrors(st.mem[h], At(t, p)) && Ok(At(t, p)) && Ok(t)
    ensures st.mem[h].data == At(t, p).edges
  {
    hide Stored, Separate, Addrs;
    NodeRecord(st.mem, t, p);
  }

  // ----- The rest of the key in one node -----

  function AfterCompressLeaf(st: State, h: Addr, bytes: seq<Byte>, data: Ptr): (r: State)
    requires h in st.mem
  {
    st.(mem := st.mem[h := st.mem[h].(iscompr := true, data := bytes, slots := [Val(data)], leafbitmap := FIRST_LEAF)],
        numele := st.numele + 1)
  }

  lemma CompressLeafDone(st: State, t: Tree, m: Contents, s: seq<Byte>, i: nat, h: Addr, p: seq<nat>, data: Ptr) returns (t': Tree)
    requires Growing(st, t, m, s, i, h, p)
    requires h in st.mem && st.mem[h].data == [] && 1 < |s| - i <= NODE_MAX_SIZE
    ensures Kept(AfterCompressLeaf(st, h, s[i..], data), t', m[s := data]) && Ripe(t')
  {
    hide Stored, Separate, Addrs, Lookup, Denotes, Mirrors, Replace;
    var nd := At(t, p);
    GrowingNode(st, t, m, s, i, h, p);
    var u := Chain(h, nd.key, s[i..], Leaf(data));
    CompressArena(st.mem, AfterCompressLeaf(st, h, s[i..], data).mem, t, p, s[i..], Leaf(data));
    CompressMeaning(t, p, s[i..], Leaf(data), m);
    assert s == PathLabel(t, p) + s[i..];
    t' := Replace(t, p, u);
    ReplaceRoot(t, p, u);
    assert Ripe(u);
  }

  function AfterCompressChild(st: State, h: Addr, bytes: seq<Byte>): (r: State)
    requires h in st.mem
  {
    st.(mem := st.mem[st.brk := EmptyNode()][h := st.mem[h].(iscompr := true, data := bytes, slots := [Ref(st.brk)])],
        brk := st.brk + 1, numnodes := st.numnodes + 1)
  }

  lemma NoLeaves(n: RaxNode, t: Tree)
    requires Mirrors(n, t) && t.slots == []
    ensures n.leafbitmap == NO_LEAVES
  {
  }

  lemma CompressChildStep(st: State, t: Tree, m: Contents, s: seq<Byte>, i: nat, h: Addr, p: seq<nat>) returns (t': Tree)
    requires Growing(st, t, m, s, i, h, p)
    requires h in st.mem && st.mem[h].data == [] && |s| - i > NODE_MAX_SIZE
    ensures Growing(AfterCompressChild(st, h, s[i..i + NODE_MAX_SIZE]), t', m, s, i + NODE_MAX_SIZE, st.brk, p + [0])
  {
    hide Stored, Separate, Addrs, Lookup, Denotes, Mirrors, Replace;
    var nd := At(t, p);
    GrowingNode(st, t, m, s, i, h, p);
    NoLeaves(st.mem[h], nd);
    var bytes := s[i..i + NODE_MAX_SIZE];
    var y := Sub(ValueTree(st.brk, None));
    var u := Chain(h, nd.key, bytes, y);
    CompressArena(st.mem, AfterCompressChild(st, h, bytes).mem, t, p, bytes, y);
    CompressMeaning(t, p, bytes, y, m);
    t' := Replace(t, p, u);
    ReplaceRoot(t, p, u);
    ReplaceValid(t, p, u);
    RipeAroundReplace(t, p, u);
    RipeAroundDown(t', p, 0);
    PathAppend(t', p, 0);
    assert s[..i + NODE_MAX_SIZE] == s[..i] + bytes;
  }

  // ----- One more edge -----

  /** The record at `h` can take one more edge. */
  predicate Extensible(mem: Memory, h: Addr) {
    h in mem && |mem[h].slots| == |mem[h].data| && |mem[h].leafbitmap| == INLINE_SLOTS &&
    (IsInlineLeaf(mem[h], 12) ==> 12 < |mem[h].slots| && mem[h].slots[12].Val?)
  }

  /** Whether slot 12 has to move to a node of its own: 1 if so. */
  function Spill(mem: Memory, h: Addr, c: Byte): (r: nat)
    requires h in mem
  {
    if ChildPos(mem[h].data, c) <= 12 && IsInlineLeaf(mem[h], 12) then 1 else 0
  }

  /** Memory after room has been made for an edge `c` in the node at `h`. */
  function AfterOpen(mem: Memory, h: Addr, c: Byte, brk: Addr): (r: Memory)
    requires Extensible(mem, h)
    ensures h in r && |r[h].slots| == |mem[h].slots| + 1 && |r[h].leafbitmap| == INLINE_SLOTS
  {
    var n := mem[h];
    if Spill(mem, h, c) == 1 then mem[brk := ValueNode(n.slots[12].v)][h := Opened(n, c, Some(brk))]
    else mem[h := Opened(n, c, None)]
  }

  /** Memory after the new slot has become an inline leaf. */
  function FillLeaf(mem: Memory, h: Addr, pos: nat, data: Ptr): (r: Memory) {
    if h in mem && pos < |mem[h].slots| && pos < |mem[h].leafbitmap| then
      mem[h := mem[h].(slots := mem[h].slots[pos := Val(data)], leafbitmap := mem[h].leafbitmap[pos := true])]
    else mem
  }

  /** Memory after the new slot has got an empty node. */
  function FillChild(mem: Memory, h: Addr, pos: nat, child: Addr): (r: Memory) {
    if h in mem && pos < |mem[h].slots| then
      mem[child := EmptyNode()][h := mem[h].(slots := mem[h].slots[pos := Ref(child)])]
    else mem
  }

  function AfterEdgeLeaf(st: State, h: Addr, c: Byte, data: Ptr): (r: State)
    requires Extensible(st.mem, h)
  {
    var k := Spill(st.mem, h, c);
    st.(mem := FillLeaf(AfterOpen(st.mem, h, c, st.brk), h, ChildPos(st.mem[h].data, c), data),
        brk := st.brk + k, numnodes := st.numnodes + k, numele := st.numele + 1)
  }

  function AfterEdgeChild(st: State, h: Addr, c: Byte): (r: State)
    requires Extensible(st.mem, h)
  {
    var k := Spill(st.mem, h, c);
    st.(mem := FillChild(AfterOpen(st.mem, h, c, st.brk), h, ChildPos(st.mem[h].data, c), st.brk + k),
        brk := st.brk + k + 1, numnodes := st.numnodes + k + 1)
  }

  ghost function SpillAt(mem: Memory, h: Addr, c: Byte, brk: Addr): (r: Option<Addr>)
    requires h in mem
  {
    if Spill(mem, h, c) == 1 then Some(brk) else None
  }

  lemma SpillsWhen(n: RaxNode, t: Tree, pos: nat)
    requires Mirrors(n, t) && NodeOk(t)
    ensures Spills(t, pos) <==> pos <= 12 && IsInlineLeaf(n, 12)
    ensures IsInlineLeaf(n, 12) ==> 12 < |n.slots| && n.slots[12] == Val(t.slots[12].v)
  {
  }

  lemma EdgeLeafMemory(mem: Memory, h: Addr, nd: Tree, c: Byte, data: Ptr, brk: Addr)
    requires Extensible(mem, h) && Mirrors(mem[h], nd) && NodeOk(nd) && !nd.compr
    requires ChildPos(mem[h].data, c) < INLINE_SLOTS
    ensures var spill := SpillAt(mem, h, c, brk);
            && CanAdd(mem[h], nd, c, Leaf(data), spill)
            && FillLeaf(AfterOpen(mem, h, c, brk), h, ChildPos(mem[h].data, c), data)
            == (if spill.Some? then mem[brk := ValueNode(nd.slots[12].v)] else mem)[h := EdgeRecord(mem[h], nd, c, Leaf(data), spill)]
  {
    hide Mirrors, ChildPos, Opened;
    MirrorsSlots(mem[h], nd);
    SpillsWhen(mem[h], nd, ChildPos(nd.edges, c));
    var spill := SpillAt(mem, h, c, brk);
    var base := if spill.Some? then mem[brk := ValueNode(nd.slots[12].v)] else mem;
    Overwrite(base, h, Opened(mem[h], c, spill), EdgeRecord(mem[h], nd, c, Leaf(data), spill));
  }

  lemma Overwrite(mem: Memory, h: Addr, a: RaxNode, b: RaxNode)
    ensures mem[h := a][h := b] == mem[h := b]
  {
  }

  lemma OverwriteAround(mem: Memory, h: Addr, a: RaxNode, k: Addr, e: RaxNode, b: RaxNode)
    requires h != k
    ensures mem[h := a][k := e][h := b] == mem[k := e][h := b]
  {
  }

  lemma EdgeChildMemory(mem: Memory, h: Addr, nd: Tree, c: Byte, brk: Addr)
    requires Extensible(mem, h) && Mirrors(mem[h], nd) && NodeOk(nd) && !nd.compr
    requires forall a :: a in mem ==> a < brk
    ensures var spill := SpillAt(mem, h, c, brk);
            var child := brk + Spill(mem, h, c);
            var y := Sub(ValueTree(child, None));
            && CanAdd(mem[h], nd, c, y, spill)
            && FillChild(AfterOpen(mem, h, c, brk), h, ChildPos(mem[h].data, c), child)
            == (if spill.Some? then mem[brk := ValueNode(nd.slots[12].v)] else mem)[child := EmptyNode()]
               [h := EdgeRecord(mem[h], nd, c, y, spill)]
  {
    hide Mirrors, ChildPos, Opened;
    MirrorsSlots(mem[h], nd);
    SpillsWhen(mem[h], nd, ChildPos(nd.edges, c));
    var spill := SpillAt(mem, h, c, brk);
    var child := brk + Spill(mem, h, c);
    var y := Sub(ValueTree(child, None));
    var base := if spill.Some? then mem[brk := ValueNode(nd.slots[12].v)] else mem;
    OverwriteAround(base, h, Opened(mem[h], c, spill), child, EmptyNode(), EdgeRecord(mem[h], nd, c, y, spill));
  }

  lemma EdgeLeafDone(st: State, t: Tree, m: Contents, s: seq<Byte>, i: nat, h: Addr, p: seq<nat>, data: Ptr) returns (t': Tree)
    requires Growing(st, t, m, s, i, h, p)
    requires Extensible(st.mem, h) && |s| - i == 1 && ChildPos(st.mem[h].data, s[i]) < INLINE_SLOTS
    ensures Kept(AfterEdgeLeaf(st, h, s[i], data), t', m[s := data]) && Ripe(t')
  {
    hide Stored, Separate, Addrs, Lookup, Denotes, Mirrors, Replace, ChildPos, EdgeRecord, FillLeaf, AfterOpen, AddEdge, Arena, Ok;
    var nd, c := At(t, p), s[i];
    GrowingNode(st, t, m, s, i, h, p);
    OkNode(nd);
    var spill := SpillAt(st.mem, h, c, st.brk);
    EdgeLeafMemory(st.mem, h, nd, c, data, st.brk);
    var u := AddEdge(Widened(nd, c, spill), c, Leaf(data));
    AddEdgeArena(st.mem, AfterEdgeLeaf(st, h, c, data).mem, t, p, c, Leaf(data), spill);
    AddEdgeMeaning(t, p, c, Leaf(data), spill, m);
    AddEdgeOk(nd, c, Leaf(data), spill);
    EdgeUseful(Widened(nd, c, spill), c, Leaf(data));
    assert s == s[..i] + [c];
    t' := Replace(t, p, u);
    ReplaceRoot(t, p, u);
  }

  lemma EdgeUseful(t: Tree, c: Byte, y: Slot)
    requires |t.slots| == |t.edges|
    ensures AddEdge(t, c, y).slots != [] && AddEdge(t, c, y).at == t.at
    ensures var pos := ChildPos(t.edges, c);
            var u := AddEdge(t, c, y);
            && pos < |u.slots| == |u.edges| && u.slots[pos] == y && u.edges[pos] == c && u.compr == t.compr
            && (forall i :: 0 <= i < |u.slots| && i != pos ==> u.slots[i] in t.slots)
  {
  }

  lemma EdgeChildKept(st: State, t: Tree, m: Contents, p: seq<nat>, c: Byte) returns (u: Tree)
    requires Kept(st, t, m) && ValidPath(t, p) && !At(t, p).compr && c !in At(t, p).edges
    requires Extensible(st.mem, At(t, p).at) && Mirrors(st.mem[At(t, p).at], At(t, p)) && Ok(At(t, p))
    ensures var h := At(t, p).at;
            var y := Sub(ValueTree(st.brk + Spill(st.mem, h, c), None));
            var spill := SpillAt(st.mem, h, c, st.brk);
            && CanAdd(st.mem[h], At(t, p), c, y, spill)
            && u == AddEdge(Widened(At(t, p), c, spill), c, y)
            && Kept(AfterEdgeChild(st, h, c), Replace(t, p, u), m)
  {
    hide Stored, Separate, Addrs, Lookup, Denotes, Mirrors, Replace, ChildPos, EdgeRecord, FillChild, AfterOpen, AddEdge, Arena, Ok;
    var nd := At(t, p);
    var h := nd.at;
    KeptOk(st, t, m);
    OkNode(nd);
    var spill := SpillAt(st.mem, h, c, st.brk);
    var y := Sub(ValueTree(st.brk + Spill(st.mem, h, c), None));
    EdgeChildMemory(st.mem, h, nd, c, st.brk);
    u := AddEdge(Widened(nd, c, spill), c, y);
    AddEdgeArena(st.mem, AfterEdgeChild(st, h, c).mem, t, p, c, y, spill);
    AddEdgeMeaning(t, p, c, y, spill, m);
    EdgeUseful(Widened(nd, c, spill), c, y);
    ReplaceRoot(t, p, u);
  }

  /** The empty node behind a new edge is the next place to grow. */
  lemma ChildFocus(t: Tree, p: seq<nat>, u: Tree, pos: nat, a: Addr)
    requires ValidPath(t, p) && RipeAround(t, p)
    requires !u.compr && pos < |u.slots| == |u.edges| && u.slots[pos] == Sub(ValueTree(a, None))
    requires forall i :: 0 <= i < |u.slots| && i != pos && u.slots[i].Sub? ==> Ripe(u.slots[i].t) && Useful(u.slots[i].t)
    ensures var t' := Replace(t, p, u);
            var q := p + [pos];
            && ValidPath(t', q) && At(t', q) == ValueTree(a, None) && RipeAround(t', q)
            && PathLabel(t', q) == PathLabel(t, p) + [u.edges[pos]]
  {
    hide Replace, RipeAround, Ripe;
    var t' := Replace(t, p, u);
    ReplaceValid(t, p, u);
    RipeAroundReplace(t, p, u);
    RipeAroundDown(t', p, pos);
    PathAppend(t', p, pos);
  }

  lemma EdgeChildRipe(h: Tree, c: Byte, spill: Option<Addr>, y: Slot)
    requires NodeOk(h) && !h.compr && Ripe(h) && (spill.Some? ==> 12 < |h.slots| && h.slots[12].Leaf?)
    ensures var u := AddEdge(Widened(h, c, spill), c, y);
            var pos := ChildPos(h.edges, c);
            && !u.compr && pos < |u.slots| == |u.edges| && u.slots[pos] == y && u.edges[pos] == c
            && (forall i :: 0 <= i < |u.slots| && i != pos && u.slots[i].Sub? ==> Ripe(u.slots[i].t) && Useful(u.slots[i].t))
  {
    hide ChildPos, AddEdge, Ripe;
    EdgeUseful(Widened(h, c, spill), c, y);
    WidenedRipe(h, c, spill);
  }

  lemma EdgeChildStep(st: State, t: Tree, m: Contents, s: seq<Byte>, i: nat, h: Addr, p: seq<nat>) returns (t': Tree)
    requires Growing(st, t, m, s, i, h, p)
    requires Extensible(st.mem, h) && i < |s|
    ensures Growing(AfterEdgeChild(st, h, s[i]), t', m, s, i + 1, st.brk + Spill(st.mem, h, s[i]),
                    p + [ChildPos(st.mem[h].data, s[i])])
  {
    hide Kept, Mirrors, Replace, ChildPos, AfterEdgeChild, AddEdge, Ok, RipeAround, Widened;
    var nd, c := At(t, p), s[i];
    GrowingNode(st, t, m, s, i, h, p);
    OkNode(nd);
    var u := EdgeChildKept(st, t, m, p, c);
    var a := st.brk + Spill(st.mem, h, c);
    EdgeChildRipe(nd, c, SpillAt(st.mem, h, c, st.brk), Sub(ValueTree(a, None)));
    ChildFocus(t, p, u, ChildPos(nd.edges, c), a);
    t' := Replace(t, p, u);
    assert s[..i + 1] == s[..i] + [c];
  }

  lemma WidenedRipe(h: Tree, c: Byte, spill: Option<Addr>)
    requires Ripe(h) && (spill.Some? ==> 12 < |h.slots| && h.slots[12].Leaf?)
    ensures forall y :: y in Widened(h, c, spill).slots && y.Sub? ==> Ripe(y.t) && Useful(y.t)
  {
  }

  /** All bytes are in place: make the last node a key. */
  lemma GrownKeyDone(st: State, t: Tree, m: Contents, s: seq<Byte>, i: nat, h: Addr, p: seq<nat>, data: Ptr) returns (t': Tree)
    requires Growing(st, t, m, s, i, h, p) && i == |s|
    ensures h in st.mem
    ensures Kept(AfterKey(st, h, data), t', m[s := data]) && Ripe(t')
  {
    hide Kept, AfterKey, Ripe;
    t' := KeyDone(st, t, m, p, data);
    assert s == s[..i];
  }
}
