/** The radix tree as the program runs it: node records in memory, linked by
    address, walked and rewritten in place. */
module Rax {
  import opened RaxTree
  import opened RaxMemory
  import opened RaxEdit
  import opened RaxGrow
  import opened RaxMeaning
  import opened RaxWalk
  import opened RaxInsertion
  import opened RaxShrink
  import opened RaxRemoval
  import opened RaxJoin
  import opened RaxOverrun

  /** Position that keeps the edges sorted. */
  method FindChildPos(data: seq<Byte>, c: Byte) returns (pos: nat)
    ensures pos == ChildPos(data, c)
  {
    pos := 0;
    while pos < |data| && data[pos] <= c
      invariant pos <= |data|
      invariant ChildPos(data, c) == pos + ChildPos(data[pos..], c)
    {
      assert data[pos..][1..] == data[pos + 1..];
      pos := pos + 1;
    }
    assert ChildPos(data[pos..], c) == 0;
  }

  /** The slot that links to `a`. */
  method FindLink(slots: seq<Word>, a: Addr) returns (i: nat)
    requires Ref(a) in slots
    ensures i < |slots| && slots[i] == Ref(a)
  {
    i := 0;
    while slots[i] != Ref(a)
      invariant i < |slots| && Ref(a) in slots[i..]
      decreases |slots| - i
    {
      i := i + 1;
    }
  }

  class Rax {
    var mem: Memory
    var head: Addr
    /** No node lies at or beyond this address. */
    var brk: Addr
    var numele: nat
    var numnodes: nat
    ghost var tree: Tree
    ghost var contents: Contents

    ghost function St(): (st: State)
      reads this
    {
      State(mem, head, brk, numele, numnodes)
    }

    /** The fields hold a tree that means `contents`, without useless nodes. */
    ghost predicate Valid()
      reads this
    {
      Kept(St(), tree, contents) && Ripe(tree)
    }

    /** An insertion of `s` is under way: `s[..i]` leads to the node `h`. */
    ghost predicate Inserting(s: seq<Byte>, i: nat, h: Addr, p: seq<nat>)
      reads this
    {
      Growing(St(), tree, contents, s, i, h, p) && i <= |s|
    }

    constructor ()
      ensures Valid() && contents == map[]
    {
      mem := map[0 := EmptyNode()];
      head, brk, numele, numnodes := 0, 1, 0, 1;
      tree := ValueTree(0, None);
      contents := map[];
      new;
      ValueStored(mem, 0, None);
      forall s ensures Lookup(tree, s) == None { LookupNoSlots(tree, s); }
    }

    /** Follow the string as far as it goes. */
    method LowWalk(s: seq<Byte>) returns (w: Stop, ghost p: seq<nat>)
      requires head == tree.at && Arena(mem, tree)
      ensures Stopped(tree, s, w, p)
    {
      hide Walking, Stopped, Arena;
      var h, plink, i, ts := head, HeadLink, 0, [];
      p := [];
      WalkStart(mem, tree, s);
      while mem[h].data != [] && i < |s|
        invariant Walking(mem, tree, s, i, h, plink, ts, p)
        invariant WalkFacts(mem, s, i, h)
        decreases |s| - i
      {
        var n := mem[h];
        var j, len;
        if n.iscompr {
          j := MatchRun(n.data, s, i);
          if j != |n.data| {
            WalkCompressed(mem, tree, s, i, h, plink, ts, p, j);
            return Stop(i + j, h, plink, j, ts, false), p;
          }
          assert n.data == n.data[..j];
          j, len := 0, j;
        } else {
          j := FindByte(n.data, s[i]);
          if j == |n.data| {
            assert n.data == n.data[..j];
            WalkHere(mem, tree, s, i, h, plink, ts, p);
            return Stop(i, h, plink, 0, ts, false), p;
          }
          len := 1;
        }
        WalkLabel(mem, tree, s, i, h, plink, ts, p, j);
        if IsInlineLeaf(n, j) {
          WalkLeaf(mem, tree, s, i, h, plink, ts, p, j);
          return Stop(i + len, h, SlotLink(h, j), 0, ts, true), p;
        }
        WalkStep(mem, tree, s, i, h, plink, ts, p, j);
        ts, plink, h, p := ts + [h], SlotLink(h, j), n.slots[j].a, p + [j];
        i := i + len;
      }
      WalkHere(mem, tree, s, i, h, plink, ts, p);
      w := Stop(i, h, plink, 0, ts, false);
    }

    /** The value of a key, or nothing. */
    method Find(s: seq<Byte>) returns (r: Option<Ptr>)
      requires Valid()
      ensures r == Get(contents, s)
    {
      hide Stored, Lookup, Denotes, Mirrors;
      var w, p := LowWalk(s);
      StoppedLookup(tree, s, w, p);
      DenotesAt(tree, contents, s);
      Standing(mem, tree, s, w, p);
      if w.inlineLeaf && w.i == |s| {
        return Some(mem[w.h].slots[w.plink.idx].v);
      }
      if w.i != |s| || (mem[w.h].iscompr && w.splitpos != 0) || !mem[w.h].iskey {
        return None;
      }
      r := Some(GetData(mem[w.h]));
    }

    // ----- Insertion -----

    /** The key ends inside a compressed node: cut the node there. */
    method SplitWithKey(s: seq<Byte>, w: Stop, data: Ptr, ghost p: seq<nat>)
      requires Valid()
      requires Stopped(tree, s, w, p) && !w.inlineLeaf && w.i == |s| && At(tree, p).compr && w.splitpos != 0
      modifies this
      ensures Valid() && s !in old(contents) && contents == old(contents)[s := data]
    {
      hide Kept, Stopped, At, ValidPath, KeyCut, WriteLink, Ripe;
      ghost var t' := SplitKeyDone(St(), tree, contents, s, w, p, data);
      var trimmed, postfix := brk, brk + 1;
      mem := mem + KeyCut(mem[w.h], w.splitpos, data, trimmed, postfix);
      mem := WriteLink(mem, w.plink, trimmed);
      if w.plink.HeadLink? { head := trimmed; }
      mem := mem - {w.h};
      brk, numnodes, numele := brk + 2, numnodes + 1, numele + 1;
      tree, contents := t', contents[s := data];
    }

    /** The key goes on past an inline leaf: give the leaf a node of its own. */
    method MaterializeInlineLeaf(s: seq<Byte>, w: Stop, ghost p: seq<nat>) returns (h: Addr, ghost q: seq<nat>)
      requires Valid() && Stopped(tree, s, w, p) && w.inlineLeaf && w.i < |s| && s !in contents
      modifies this
      ensures Inserting(s, w.i, h, q) && contents == old(contents)
    {
      hide Kept, Ripe, Stopped, Growing;
      ghost var t';
      t', q := MaterializeDone(St(), tree, contents, s, w, p);
      var n := mem[w.h];
      h := brk;
      mem := mem[h := ValueNode(n.slots[w.plink.idx].v)];
      mem := mem[w.h := n.(slots := n.slots[w.plink.idx := Ref(h)], leafbitmap := n.leafbitmap[w.plink.idx := false])];
      brk, numnodes, tree := brk + 1, numnodes + 1, t';
    }

    /** The key leaves a compressed node: give the byte where it does a node of its own. */
    method SplitCompressed(s: seq<Byte>, w: Stop, ghost p: seq<nat>) returns (h: Addr, ghost q: seq<nat>)
      requires Valid() && Stopped(tree, s, w, p) && !w.inlineLeaf && w.i < |s| && At(tree, p).compr && s !in contents
      modifies this
      ensures Inserting(s, w.i, h, q) && contents == old(contents)
    {
      hide Kept, Ripe, Stopped, Growing, EdgeCut, WriteLink, At, ValidPath;
      ghost var t';
      t', q := EdgeCutDone(St(), tree, contents, s, w, p);
      var n, j := mem[w.h], w.splitpos;
      var trimmed, split, postfix := brk, brk + 1, brk + 2;
      var top := if j == 0 then split else trimmed;
      mem := mem + EdgeCut(n, j, trimmed, split, postfix);
      mem := WriteLink(mem, w.plink, top);
      if w.plink.HeadLink? { head := top; }
      if j > 0 { numnodes := numnodes + 1; }
      if j + 1 < |n.data| { numnodes := numnodes + 1; }
      mem := mem - {w.h};
      h := split;
      brk, tree := brk + 3, t';
    }

    /** Make room for an edge `c` in the node at `h`; the caller fills the new slot. */
    method AddChildNoAlloc(h: Addr, c: Byte) returns (pos: nat)
      requires Extensible(mem, h)
      modifies this`mem, this`brk, this`numnodes
      ensures pos == ChildPos(old(mem[h].data), c)
      ensures mem == AfterOpen(old(mem), h, c, old(brk))
      ensures brk == old(brk) + Spill(old(mem), h, c) && numnodes == old(numnodes) + Spill(old(mem), h, c)
    {
      var n := mem[h];
      pos := FindChildPos(n.data, c);
      var slots := n.slots[..pos] + [Val(0)] + n.slots[pos..];
      var bits := if pos < INLINE_SLOTS then n.leafbitmap[..pos] + [false] + n.leafbitmap[pos..INLINE_SLOTS - 1] else n.leafbitmap;
      var data := n.data[..pos] + [c] + n.data[pos..];
      if pos <= 12 && IsInlineLeaf(n, 12) {
        mem := mem[brk := ValueNode(n.slots[12].v)];
        slots := slots[13 := Ref(brk)];
        brk, numnodes := brk + 1, numnodes + 1;
      }
      mem := mem[h := n.(data := data, slots := slots, leafbitmap := bits)];
    }

    /** A node without children takes the rest of the key, or as much as fits. */
    method CompressNode(s: seq<Byte>, i: nat, h: Addr, data: Ptr, ghost p: seq<nat>)
      returns (done: bool, i': nat, h': Addr, ghost p': seq<nat>)
      requires Inserting(s, i, h, p) && h in mem && mem[h].data == [] && |s| - i > 1
      modifies this
      ensures done ==> Valid() && contents == old(contents)[s := data]
      ensures !done ==> Inserting(s, i', h', p') && i < i' && contents == old(contents)
    {
      hide Growing, Kept, Ripe;
      var n := mem[h];
      i', h', p' := i, h, p;
      if |s| - i <= NODE_MAX_SIZE {
        ghost var t' := CompressLeafDone(St(), tree, contents, s, i, h, p, data);
        mem := mem[h := n.(iscompr := true, data := s[i..], slots := [Val(data)], leafbitmap := FIRST_LEAF)];
        numele := numele + 1;
        tree, contents := t', contents[s := data];
        done := true;
      } else {
        ghost var t' := CompressChildStep(St(), tree, contents, s, i, h, p);
        h' := brk;
        mem := mem[h' := EmptyNode()];
        mem := mem[h := n.(iscompr := true, data := s[i..i + NODE_MAX_SIZE], slots := [Ref(h')])];
        brk, numnodes := brk + 1, numnodes + 1;
        i', p' := i + NODE_MAX_SIZE, p + [0];
        tree := t';
        done := false;
      }
    }

    /** A node gets an edge for the next byte, to an inline leaf or to a new node. */
    method AddNode(s: seq<Byte>, i: nat, h: Addr, data: Ptr, ghost p: seq<nat>)
      returns (done: bool, i': nat, h': Addr, ghost p': seq<nat>)
      requires Inserting(s, i, h, p) && Extensible(mem, h) && i < |s|
      modifies this
      ensures done ==> Valid() && contents == old(contents)[s := data]
      ensures !done ==> Inserting(s, i', h', p') && i < i' && contents == old(contents)
    {
      hide Growing, Kept, Ripe, AfterOpen, ChildPos;
      i', h', p' := i, h, p;
      var pos := FindChildPos(mem[h].data, s[i]);
      if |s| - i == 1 && pos < INLINE_SLOTS {
        ghost var t' := EdgeLeafDone(St(), tree, contents, s, i, h, p, data);
        pos := AddChildNoAlloc(h, s[i]);
        mem := mem[h := mem[h].(slots := mem[h].slots[pos := Val(data)], leafbitmap := mem[h].leafbitmap[pos := true])];
        numele := numele + 1;
        tree, contents := t', contents[s := data];
        done := true;
      } else {
        ghost var t' := EdgeChildStep(St(), tree, contents, s, i, h, p);
        pos := AddChildNoAlloc(h, s[i]);
        h' := brk;
        var n := mem[h];
        mem := mem[h' := EmptyNode()];
        mem := mem[h := n.(slots := n.slots[pos := Ref(h')])];
        brk, numnodes := brk + 1, numnodes + 1;
        i', p' := i + 1, p + [pos];
        tree := t';
        done := false;
      }
    }

    /** Add the nodes for the bytes that are left of the key. */
    method AppendRest(s: seq<Byte>, i0: nat, h0: Addr, data: Ptr, ghost p0: seq<nat>)
      requires Inserting(s, i0, h0, p0) && i0 < |s|
      modifies this
      ensures Valid() && contents == old(contents)[s := data]
    {
      hide Growing, Kept, Ripe, ChildPos, Mirrors, Ok;
      var i, h := i0, h0;
      ghost var p := p0;
      while i < |s|
        invariant Inserting(s, i, h, p) && contents == old(contents)
        decreases |s| - i
      {
        GrowingNode(St(), tree, contents, s, i, h, p);
        var done;
        if mem[h].data == [] && |s| - i > 1 {
          done, i, h, p := CompressNode(s, i, h, data, p);
        } else {
          done, i, h, p := AddNode(s, i, h, data, p);
        }
        if done { return; }
      }
      ghost var t' := GrownKeyDone(St(), tree, contents, s, i, h, p, data);
      if !mem[h].iskey { numele := numele + 1; }
      mem := mem[h := SetData(mem[h], data)];
      tree, contents := t', contents[s := data];
    }

    /** Insert a key.  An existing key keeps its value unless `overwrite` is set. */
    method GenericInsert(s: seq<Byte>, data: Ptr, overwrite: bool) returns (inserted: bool, prev: Option<Ptr>)
      requires Valid()
      modifies this
      ensures Valid()
      ensures inserted == (s !in old(contents)) && prev == Get(old(contents), s)
      ensures contents == if inserted || overwrite then old(contents)[s := data] else old(contents)
    {
      hide Kept, Ripe, Denotes, Arena, Lookup, Growing, Mirrors, Ok, Replace;
      KeptOk(St(), tree, contents);
      var w, p := LowWalk(s);
      StoppedLookup(tree, s, w, p);
      DenotesAt(tree, contents, s);
      Standing(mem, tree, s, w, p);
      if w.i == |s| && w.inlineLeaf {
        ghost var t' := LeafDone(St(), tree, contents, s, w, p, data);
        var n := mem[w.h];
        inserted, prev := false, Some(n.slots[w.plink.idx].v);
        if overwrite {
          mem := mem[w.h := n.(slots := n.slots[w.plink.idx := Val(data)])];
          tree, contents := t', contents[s := data];
        }
        return;
      }
      if w.i == |s| && (!mem[w.h].iscompr || w.splitpos == 0) {
        RipeAroundStart(tree, p);
        ghost var t' := KeyDone(St(), tree, contents, p, data);
        assert s[..w.i] == s == PathLabel(tree, p);
        if mem[w.h].iskey {
          inserted, prev := false, Some(GetData(mem[w.h]));
          if overwrite {
            mem := mem[w.h := SetData(mem[w.h], data)];
            tree, contents := t', contents[s := data];
          }
          return;
        }
        mem := mem[w.h := SetData(mem[w.h], data)];
        numele := numele + 1;
        tree, contents := t', contents[s := data];
        return true, None;
      }
      inserted, prev := true, None;
      if mem[w.h].iscompr && w.i == |s| {
        SplitWithKey(s, w, data, p);
        return;
      }
      var h := w.h;
      ghost var q := p;
      if w.inlineLeaf {
        h, q := MaterializeInlineLeaf(s, w, p);
      } else if mem[w.h].iscompr {
        h, q := SplitCompressed(s, w, p);
      } else {
        GrowHere(St(), tree, contents, s, w, p);
      }
      AppendRest(s, w.i, h, data, q);
    }

    /** Insert a key, or give an existing one another value. */
    method Insert(s: seq<Byte>, data: Ptr) returns (inserted: bool, prev: Option<Ptr>)
      requires Valid()
      modifies this
      ensures Valid() && contents == old(contents)[s := data]
      ensures inserted == (s !in old(contents)) && prev == Get(old(contents), s)
    {
      inserted, prev := GenericInsert(s, data, true);
    }

    /** Insert a key unless it exists. */
    method TryInsert(s: seq<Byte>, data: Ptr) returns (inserted: bool, prev: Option<Ptr>)
      requires Valid()
      modifies this
      ensures Valid() && contents == if s in old(contents) then old(contents) else old(contents)[s := data]
      ensures inserted == (s !in old(contents)) && prev == Get(old(contents), s)
    {
      inserted, prev := GenericInsert(s, data, false);
    }

    // ----- Removal -----

    /** Free the node at `h` and the nodes above it that lead nowhere else;
        `child` is the last one freed. */
    method FreeChain(h0: Addr, ts0: seq<Addr>, ghost p0: seq<nat>)
      returns (h: Addr, ts: seq<Addr>, child: Option<Addr>, ghost p: seq<nat>, ghost k: nat)
      requires Clearing(St(), mem, tree, contents, p0, h0, ts0, None, 0)
      modifies this`mem, this`numnodes
      ensures Clearing(St(), old(mem), tree, contents, p, h, ts, child, k)
      ensures p == [] || !Clearable(At(tree, p), child)
      ensures child.None? ==> p0 == [] && p == p0 && h == h0 && ts == ts0 && St() == old(St())
      ensures child.Some? ==> ValidPath(tree, p0) && p0 != [] && |p| == Anchor(tree, p0) && p == p0[..|p|] && k == p0[|p|]
    {
      hide Kept, Clearing, Clearable, Mirrors, Ok, At, ValidPath, Arena, Anchor, Joinable;
      h, ts, p, child, k := h0, ts0, p0, None, 0;
      ClearFirst(St(), mem, tree, contents, p, h, ts);
      ClearNode(St(), mem, tree, contents, p, h, ts, child, k);
      while h != head
        invariant Clearing(St(), old(mem), tree, contents, p, h, ts, child, k)
        invariant ValidPath(tree, p) && (h == head <==> p == []) && Clearable(At(tree, p), child)
        invariant child.None? ==> p == p0 && h == h0 && ts == ts0 && St() == old(St())
        invariant child.Some? ==> |p| < |p0| && p == p0[..|p|] && k == p0[|p|]
        invariant p0 != [] ==> Anchor(tree, p0) == if p == [] then 0 else Anchor(tree, p)
        decreases |ts|
      {
        AnchorStep(tree, p);
        ClearableJoin(At(tree, p[..|p| - 1]));
        ClearStep(St(), old(mem), tree, contents, p, h, ts, child, k);
        child := Some(h);
        mem := mem - {h};
        numnodes := numnodes - 1;
        h, ts, p, k := ts[|ts| - 1], ts[..|ts| - 1], p[..|p| - 1], p[|p| - 1];
        ClearNode(St(), old(mem), tree, contents, p, h, ts, child, k);
        if mem[h].iskey || (!mem[h].iscompr && |mem[h].data| != 1) { break; }
      }
    }

    /** The node at `h` holds nothing any more: free it and what it leaves
        useless, and unlink it. */
    method RemoveCleanup(h0: Addr, ts0: seq<Addr>, ghost p0: seq<nat>)
      returns (h: Addr, ts: seq<Addr>, trycompress: bool, ghost p: seq<nat>)
      requires Shrunk(St(), tree, contents, p0, h0, ts0) && At(tree, p0).slots == [] && At(tree, p0).key.None?
      modifies this
      ensures Shrunk(St(), tree, contents, p, h, ts) && Ripe(tree) && contents == old(contents)
      ensures trycompress ==> Joinable(At(tree, p))
      ensures (tree, p) == Emptied(old(tree), p0) && (trycompress <==> Single(At(tree, p)))
    {
      hide Kept, Ripe, Clearing, Clearable, Mirrors, Ok, At, ValidPath, Arena, Shrunk, Dropped, DropSlot, Joinable, Anchor, Replace, Single;
      ClearStart(St(), tree, contents, p0, h0, ts0);
      var child;
      ghost var k;
      h, ts, child, p, k := FreeChain(h0, ts0, p0);
      trycompress := false;
      if child.Some? {
        FreedSlot(St(), old(mem), tree, contents, p, h, ts, child, k);
        var i := FindLink(mem[h].slots, child.value);
        ghost var t' := UnlinkDone(St(), old(mem), tree, contents, p, h, ts, child, k);
        mem := mem[h := Dropped(mem[h], i)];
        tree := t';
        ShrunkRipe(St(), tree, contents, p, h, ts);
        ShrunkNode(St(), tree, contents, p, h, ts);
        JoinableRecord(mem[h], At(tree, p));
        SingleRecord(mem[h], At(tree, p));
        trycompress := |mem[h].data| == 1 && !mem[h].iskey;
      } else {
        ClearedHead(St(), old(mem), tree, contents, p, h, ts, k);
        NotSingle(St(), tree, contents, p, h, ts);
        ShrunkRipe(St(), tree, contents, p, h, ts);
      }
    }

    /** How many nodes of the chain from `start` fit in one node, and their bytes. */
    method ScanChain(start: Addr, ghost s: Tree) returns (nodes: nat, room: nat)
      requires start == s.at && Chained(mem, s)
      ensures nodes == 1 + Fit(s, |s.edges|) && room == FitSize(s, |s.edges|)
    {
      hide Chained, Fit, FitSize, Joinable;
      var h := start;
      ghost var c := s;
      ChainedRecord(mem, c);
      nodes, room := 1, |mem[h].data|;
      while true
        invariant h == c.at && Chained(mem, c)
        invariant nodes + Fit(c, room) == 1 + Fit(s, |s.edges|) && FitSize(c, room) == FitSize(s, |s.edges|)
        decreases c
      {
        ChainedRecord(mem, c);
        FitStep(c, room);
        if IsInlineLeaf(mem[h], 0) { return; }
        h := mem[h].slots[0].a;
        if mem[h].iskey || (!mem[h].iscompr && |mem[h].data| != 1) { return; }
        if room + |mem[h].data| > NODE_MAX_SIZE { return; }
        c := c.slots[0].t;
        nodes, room := nodes + 1, room + |mem[h].data|;
      }
    }

    /** Copy the bytes of the chain from `start` into `room` bytes and free its
        nodes; what comes after the chain is left. */
    method CopyChain(start: Addr, room: nat, ghost r: seq<nat>) returns (overrun: bool, bytes: seq<Byte>, word: Word, leaf: bool)
      requires Kept(St(), tree, contents) && Ripe(tree) && ValidPath(tree, r) && Joinable(At(tree, r)) && start == At(tree, r).at
      modifies this`mem, this`numnodes
      ensures overrun <==> |RunLabel(At(tree, r))| > room
      ensures !overrun ==> Joined(St(), old(mem), tree, contents, r, bytes, word, leaf)
    {
      hide Kept, Joining, Joined, RunLabel, Ripe, At, ValidPath, Joinable;
      var h := start;
      ghost var base, c := mem, At(tree, r);
      bytes, word, leaf := [], Val(0), false;
      JoinStart(St(), tree, contents, r);
      while true
        invariant Joining(St(), base, tree, contents, r, c, bytes) && Joinable(c) && h == c.at
        invariant |bytes| <= room
        decreases c
      {
        JoinNext(St(), base, tree, contents, r, c, bytes);
        JoinTurn(St(), base, tree, contents, r, c, bytes);
        var n := mem[h];
        if |bytes| + |n.data| > room { return true, bytes, word, leaf; }
        bytes, word, leaf := bytes + n.data, n.slots[0], IsInlineLeaf(n, 0);
        mem := mem - {h};
        numnodes := numnodes - 1;
        if leaf { return false, bytes, word, leaf; }
        h := word.a;
        if mem[h].iskey || (!mem[h].iscompr && |mem[h].data| != 1) { return false, bytes, word, leaf; }
        c := c.slots[0].t;
      }
    }

    /** The highest node that the chain of one-slot nodes around the node at
        `h` starts from, and its parent. */
    method GoUp(h0: Addr, ts0: seq<Addr>, ghost p: seq<nat>) returns (h: Addr, parent: Option<Addr>, ghost q: seq<nat>)
      requires Kept(St(), tree, contents) && ValidPath(tree, p) && h0 == At(tree, p).at && StackOf(tree, p, ts0) && Joinable(At(tree, p))
      ensures q == Top(tree, p) && Joinable(At(tree, q)) && h == At(tree, q).at
      ensures parent.None? <==> q == []
      ensures parent.Some? ==> ValidPath(tree, q[..|q| - 1]) && parent.value == At(tree, q[..|q| - 1]).at
    {
      hide Kept, At, ValidPath, StackOf, Joinable;
      var ts := ts0;
      h, q, parent := h0, p, None;
      while true
        invariant ValidPath(tree, q) && h == At(tree, q).at && StackOf(tree, q, ts) && Joinable(At(tree, q))
        invariant Top(tree, q) == Top(tree, p)
        decreases |ts|
      {
        UpStep(St(), tree, contents, q, ts);
        if ts == [] { return h, None, q; }
        parent := Some(ts[|ts| - 1]);
        ts := ts[..|ts| - 1];
        if mem[parent.value].iskey || (!mem[parent.value].iscompr && |mem[parent.value].data| != 1) { return; }
        h := parent.value;
        q := q[..|q| - 1];
      }
    }

    /** Join the chain of one-slot nodes around the node at `h` into one node.
        The first scan stops where a node would overflow, the second does not:
        `overrun` says that it copies past the end of the new node. */
    method TryCompress(h0: Addr, ts0: seq<Addr>, ghost p: seq<nat>) returns (overrun: bool)
      requires Shrunk(St(), tree, contents, p, h0, ts0) && Ripe(tree) && Joinable(At(tree, p))
      modifies this
      ensures overrun <==> Overlong(At(old(tree), Top(old(tree), p)))
      ensures !overrun ==> Valid() && contents == old(contents)
    {
      hide Kept, Joined, RunLabel, RunNodes, Ripe, At, ValidPath, StackOf, Fit, FitSize, Joinable, MemoryAfterJoin;
      var start, parent, q := GoUp(h0, ts0, p);
      ChainedStart(St(), tree, contents, q);
      var nodes, room := ScanChain(start, At(tree, q));
      RoomEnough(St(), tree, contents, q);
      overrun := false;
      if nodes > 1 {
        var bytes, word, leaf;
        overrun, bytes, word, leaf := CopyChain(start, room, q);
        if overrun { return; }
        JoinedSize(St(), old(mem), tree, contents, q, bytes, word, leaf);
        ghost var t' := JoinDone(St(), old(mem), tree, contents, q, bytes, word, leaf);
        var link := HeadLink;
        if parent.Some? {
          ghost var k := ParentSlot(St(), old(mem), tree, contents, q, bytes, word, leaf);
          var i := FindLink(mem[parent.value].slots, start);
          link := SlotLink(parent.value, i);
        }
        mem := MemoryAfterJoin(mem, brk, bytes, word, leaf, link);
        if link.HeadLink? { head := brk; }
        brk, numnodes, tree := brk + 1, numnodes + 1, t';
      }
    }

    /** The key is an inline leaf: take its slot out. */
    method RemoveLeaf(s: seq<Byte>, w: Stop, ghost p0: seq<nat>)
      returns (prev: Ptr, h: Addr, ts: seq<Addr>, trycompress: bool, ghost p: seq<nat>)
      requires Valid() && Stopped(tree, s, w, p0) && w.inlineLeaf && w.i == |s|
      modifies this
      ensures s in old(contents) && prev == old(contents)[s] && contents == old(contents) - {s}
      ensures Shrunk(St(), tree, contents, p, h, ts) && Ripe(tree)
      ensures trycompress ==> Joinable(At(tree, p))
      ensures PlaceOf(old(tree), s).Some? && (tree, p) == Bare(old(tree), PlaceOf(old(tree), s).value)
      ensures trycompress <==> Single(At(tree, p))
    {
      hide Kept, Ripe, Mirrors, Shrunk, At, ValidPath, Stopped, Dropped, DropSlot, Joinable, PlaceOf, Bare, Emptied, Single, Replace;
      KeptOk(St(), tree, contents);
      LeafBare(tree, s, w, p0);
      ghost var t' := DropLeafDone(St(), tree, contents, s, w, p0);
      h, ts, p := w.h, w.stack, p0;
      prev := mem[h].slots[w.plink.idx].v;
      numele := numele - 1;
      mem := mem[h := Dropped(mem[h], w.plink.idx)];
      tree, contents := t', contents - {s};
      ShrunkNode(St(), tree, contents, p, h, ts);
      ShrunkSize(mem[h], At(tree, p));
      SingleRecord(mem[h], At(tree, p));
      if |mem[h].data| == 0 && !mem[h].iskey {
        h, ts, trycompress, p := RemoveCleanup(h, ts, p);
      } else {
        ShrunkRipe(St(), tree, contents, p, h, ts);
        trycompress := |mem[h].data| == 1 && !mem[h].iskey;
      }
    }

    /** The key ends at a node: clear its flag. */
    method RemoveKey(s: seq<Byte>, w: Stop, ghost p0: seq<nat>)
      returns (prev: Ptr, h: Addr, ts: seq<Addr>, trycompress: bool, ghost p: seq<nat>)
      requires Valid() && Stopped(tree, s, w, p0) && !w.inlineLeaf && w.i == |s| && w.splitpos == 0 && At(tree, p0).key.Some?
      modifies this
      ensures s in old(contents) && prev == old(contents)[s] && contents == old(contents) - {s}
      ensures Shrunk(St(), tree, contents, p, h, ts) && Ripe(tree)
      ensures trycompress ==> Joinable(At(tree, p))
      ensures PlaceOf(old(tree), s).Some? && (tree, p) == Bare(old(tree), PlaceOf(old(tree), s).value)
      ensures trycompress <==> Single(At(tree, p))
    {
      hide Kept, Ripe, Mirrors, Shrunk, At, ValidPath, Stopped, Joinable, PlaceOf, Bare, Emptied, Single, Replace;
      KeptOk(St(), tree, contents);
      KeyBare(tree, s, w, p0);
      ghost var t' := ClearKeyDone(St(), tree, contents, s, w, p0);
      h, ts, p := w.h, w.stack, p0;
      prev := GetData(mem[h]);
      mem := mem[h := mem[h].(iskey := false)];
      numele := numele - 1;
      tree, contents := t', contents - {s};
      ShrunkNode(St(), tree, contents, p, h, ts);
      ShrunkSize(mem[h], At(tree, p));
      SingleRecord(mem[h], At(tree, p));
      if |mem[h].data| == 0 {
        h, ts, trycompress, p := RemoveCleanup(h, ts, p);
      } else {
        ShrunkRipe(St(), tree, contents, p, h, ts);
        trycompress := |mem[h].data| == 1;
      }
    }

    /** Remove a key; `prev` is its value.  `overrun` says that joining nodes
        afterwards copied past the end of the new node. */
    method Remove(s: seq<Byte>) returns (found: bool, prev: Option<Ptr>, overrun: bool)
      requires Valid()
      modifies this
      ensures found == (s in old(contents)) && prev == Get(old(contents), s)
      ensures !overrun ==> Valid() && contents == old(contents) - {s}
      ensures overrun <==> Overruns(old(tree), s)
      ensures (forall x :: x in old(contents) && x != s ==> |x| <= NODE_MAX_SIZE) ==> !overrun
    {
      hide Kept, Ripe, Denotes, Arena, Lookup, Mirrors, Ok, Shrunk, Joinable, PlaceOf, Bare, Single, Overlong, At;
      KeptOk(St(), tree, contents);
      NoPlace(tree, s);
      var w, p := LowWalk(s);
      StoppedLookup(tree, s, w, p);
      DenotesAt(tree, contents, s);
      Standing(mem, tree, s, w, p);
      var value, h, ts, trycompress;
      if w.i == |s| && w.inlineLeaf {
        value, h, ts, trycompress, p := RemoveLeaf(s, w, p);
      } else {
        if w.i != |s| || (mem[w.h].iscompr && w.splitpos != 0) || !mem[w.h].iskey {
          assert contents - {s} == contents;
          return false, None, false;
        }
        value, h, ts, trycompress, p := RemoveKey(s, w, p);
      }
      found, prev, overrun := true, Some(value), false;
      ShrunkKept(St(), tree, contents, p, h, ts);
      KeptOk(St(), tree, contents);
      if trycompress {
        ghost var top := Top(tree, p);
        if forall x :: x in contents ==> |x| <= NODE_MAX_SIZE { ShortKeysFit(tree, contents, top); }
        overrun := TryCompress(h, ts, p);
      }
    }
  }

  function Repeat(b: Byte, n: nat): (r: seq<Byte>) {
    seq(n, i => b)
  }

  /** Two keys of 90000 and 30001 bytes that part after 30000: removing the
      second copies 90000 bytes into a node with room for at most 65535. */
  method LongKeysOverrun(b: Byte, c: Byte, v: Ptr) returns (overrun: bool)
    requires b != c
    ensures overrun
  {
    hide Kept, Ripe, Denotes, Arena, Lookup, Ok, Overruns;
    var r := new Rax();
    ghost var u, w := Repeat(b, 30000), Repeat(b, 59999);
    var x, y := Repeat(b, 90000), Repeat(b, 30000) + [c];
    assert Long(u, b, w) == x && Short(u, c) == y;
    var _, _ := r.Insert(x, v);
    var _, _ := r.Insert(y, v);
    KeptOk(r.St(), r.tree, r.contents);
    HoldsTwo(r.tree, r.contents, x, y);
    ForkOverruns(r.tree, u, b, w, c);
    var _, _, bad := r.Remove(y);
    overrun := bad;
  }

  lemma HoldsTwo(t: Tree, m: Contents, x: seq<Byte>, y: seq<Byte>)
    requires Denotes(t, m) && forall s :: s in m <==> s == x || s == y
    ensures Holds(t, x, y)
  {
    hide Lookup;
    forall s ensures Lookup(t, s).Some? <==> s == x || s == y { assert Lookup(t, s) == Get(m, s); }
  }
}
