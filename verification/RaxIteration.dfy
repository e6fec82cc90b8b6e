/** The iterator over a radix tree. */
module RaxIteration {
  import opened RaxTree
  import opened RaxMemory
  import opened RaxEdit
  import opened RaxGrow
  import opened RaxWalk
  import opened RaxInsertion
  import opened RaxRemoval
  import opened RaxOrder
  import opened RaxCursor
  import R = Rax

  /** A buffer after writing `s` at `n`; what lies further on stays. */
  function Put<T>(buf: seq<T>, n: nat, s: seq<T>): (r: seq<T>)
    requires n <= |buf|
    ensures |r| >= n + |s| && r[..n + |s|] == buf[..n] + s
  {
    buf[..n] + s + if |buf| > n + |s| then buf[n + |s|..] else []
  }

  /** The stack and the key lead to the node at `p`. */
  ghost predicate Spot(t: Tree, p: seq<nat>, node: Addr, stack: seq<Addr>, key: seq<Byte>) {
    ValidPath(t, p) && node == At(t, p).at && StackOf(t, p, stack) && key == PathLabel(t, p)
  }

  /** The node at `p` is to be left: `key` goes through it, and `idx`, if known,
      is the slot it takes. */
  ghost predicate Hanging(t: Tree, p: seq<nat>, node: Addr, stack: seq<Addr>, key: seq<Byte>, idx: int) {
    && ValidPath(t, p) && node == At(t, p).at && StackOf(t, p, stack) && PathLabel(t, p) <= key
    && var n := At(t, p);
       if n.compr then key == Edge(t, p, 0)
       else |key| == |PathLabel(t, p)| + 1 && (idx == -1 || (0 <= idx < |n.edges| && n.edges[idx] == key[|key| - 1]))
  }

  ghost predicate ChildIndex(p: seq<nat>, idx: int) {
    idx == -1 || (p != [] && idx == p[|p| - 1])
  }

  lemma SpotNode(mem: Memory, t: Tree, p: seq<nat>, node: Addr, stack: seq<Addr>, key: seq<Byte>)
    requires Arena(mem, t) && Ok(t) && Spot(t, p, node, stack, key)
    ensures node in mem && Mirrors(mem[node], At(t, p)) && NodeOk(At(t, p)) && ValidPath(t, p)
    ensures node == t.at <==> p == []
    ensures |stack| == |p|
  {
    hide Arena, At, ValidPath, Mirrors;
    NodeRecord(mem, t, p);
    HeadOnly(mem, t, p);
  }

  lemma SpotDown(mem: Memory, t: Tree, p: seq<nat>, node: Addr, stack: seq<Addr>, key: seq<Byte>, i: nat)
    requires Arena(mem, t) && Ok(t) && Spot(t, p, node, stack, key) && i < |At(t, p).slots| && At(t, p).slots[i].Sub?
    ensures Spot(t, p + [i], At(t, p).slots[i].t.at, stack + [node], Edge(t, p, i)) && ChildIndex(p + [i], i)
    ensures At(t, p + [i]) == At(t, p).slots[i].t
  {
    hide Arena, Ok, At, ValidPath, PathLabel, Label;
    PathAppend(t, p, i);
    StackPush(t, p, stack, i);
  }

  /** Going up, the node above is left the way the one below was entered. */
  lemma SpotUp(mem: Memory, t: Tree, p: seq<nat>, node: Addr, stack: seq<Addr>, key: seq<Byte>, idx: int)
    requires Arena(mem, t) && Ok(t) && Spot(t, p, node, stack, key) && p != [] && ChildIndex(p, idx)
    ensures |stack| == |p| && Hanging(t, p[..|p| - 1], stack[|stack| - 1], stack[..|stack| - 1], key, idx)
    ensures var n := At(t, p[..|p| - 1]); !n.compr ==> |n.edges| >= 1 && key[|key| - 1] in n.edges
  {
    hide Arena, At, ValidPath, PathLabel;
    PathPrefix(t, p);
    StackPop(t, p, stack);
    OkAt(t, p[..|p| - 1]);
  }

  lemma HangingNode(mem: Memory, t: Tree, p: seq<nat>, node: Addr, stack: seq<Addr>, key: seq<Byte>, idx: int)
    requires Arena(mem, t) && Ok(t) && Hanging(t, p, node, stack, key, idx)
    ensures node in mem && Mirrors(mem[node], At(t, p)) && NodeOk(At(t, p)) && key != []
    ensures mem[node].iscompr == At(t, p).compr && mem[node].data == At(t, p).edges
    ensures |key| >= |PathLabel(t, p)| && Spot(t, p, node, stack, key[..|PathLabel(t, p)|])
    ensures |key| - |PathLabel(t, p)| == if At(t, p).compr then |At(t, p).edges| else 1
    ensures !At(t, p).compr ==> key == PathLabel(t, p) + [key[|key| - 1]]
  {
    hide Arena, At, ValidPath, PathLabel, Mirrors;
    NodeRecord(mem, t, p);
    MirrorsSlots(mem[node], At(t, p));
    OkAt(t, p);
  }

  /** The part of an iterator that says where it stands. */
  datatype Cursor = Cursor(inlineLeaf: bool, key: seq<Byte>, node: Addr, nodeChild: int, stack: seq<Addr>, data: Ptr)

  ghost predicate NodeAt(t: Tree, p: seq<nat>, c: Cursor) {
    !c.inlineLeaf && Spot(t, p, c.node, c.stack, c.key) && ChildIndex(p, c.nodeChild)
  }

  ghost predicate LeafAt(t: Tree, p: seq<nat>, k: nat, c: Cursor) {
    && c.inlineLeaf && ValidPath(t, p) && c.node == At(t, p).at && StackOf(t, p, c.stack)
    && k < |At(t, p).slots| && At(t, p).slots[k].Leaf? && c.key == Edge(t, p, k)
    && (c.nodeChild == -1 || c.nodeChild == k)
  }

  /** The iterator stands on a key and has its value. */
  ghost predicate KeyAt(t: Tree, m: Contents, p: seq<nat>, k: nat, c: Cursor) {
    && (if c.inlineLeaf then LeafAt(t, p, k, c) else NodeAt(t, p, c))
    && Get(m, c.key) == Some(c.data)
  }

  /** Slot `i` of the node at `p` was entered. */
  ghost predicate Entered(t: Tree, m: Contents, p: seq<nat>, i: nat, p': seq<nat>, k: nat, c: Cursor) {
    && ValidPath(t, p) && i < |At(t, p).slots| && c.key == Edge(t, p, i)
    && (if c.inlineLeaf then At(t, p).slots[i].Leaf?
        else p' == p + [i] && NodeAt(t, p', c) && At(t, p).slots[i] == Sub(At(t, p')))
    && (c.key in m <==> c.inlineLeaf || At(t, p').key.Some?)
    && (c.key in m ==> KeyAt(t, m, p', k, c))
  }

  /** The node is to be left; with `noup` it is the node above that was. */
  ghost predicate Leaving(t: Tree, p: seq<nat>, noup: bool, c: Cursor) {
    !c.inlineLeaf && if noup then Hanging(t, p, c.node, c.stack, c.key, c.nodeChild) else NodeAt(t, p, c)
  }

  /** How a move along the tree ended. */
  datatype Move = Ended | Found | Deeper

  /** The first byte after `c`; `idx` is where `c` stands, if known. */
  method ScanNext(data: seq<Byte>, c: Byte, idx: int) returns (i: nat)
    requires Sorted(data) && (idx == -1 || (0 <= idx < |data| && data[idx] == c))
    ensures i <= |data| && (forall k :: 0 <= k < i ==> data[k] <= c) && (i < |data| ==> c < data[i])
  {
    if idx != -1 { return idx + 1; }
    i := 0;
    while i < |data| && data[i] <= c
      invariant i <= |data| && forall k :: 0 <= k < i ==> data[k] <= c
    {
      i := i + 1;
    }
  }

  /** The last byte before `c`, or -1. */
  method ScanPrev(data: seq<Byte>, c: Byte, idx: int) returns (i: int)
    requires Sorted(data) && (idx == -1 || (0 <= idx < |data| && data[idx] == c))
    ensures -1 <= i < |data| && (forall k :: i < k < |data| ==> c <= data[k]) && (i >= 0 ==> data[i] < c)
  {
    if idx != -1 { return idx - 1; }
    i := |data| - 1;
    while i >= 0 && data[i] >= c
      invariant -1 <= i < |data| && forall k :: i < k < |data| ==> c <= data[k]
    {
      i := i - 1;
    }
  }

  /** Where a seek ends: on the first key not before the sought one, or the last
      key not after it; `eq` says whether the sought key itself counts. */
  ghost predicate Lands(m: Contents, eq: bool, lt: bool, gt: bool, ele: seq<Byte>, eof: bool, key: seq<Byte>) {
    if gt then var w := From(m, eq, ele); if eof then w == {} else Least(w, key)
    else if lt then var w := UpTo(m, eq, ele); if eof then w == {} else Greatest(w, key)
    else if eof then ele !in m else ele in m && key == ele
  }

  class RaxIterator {
    const rt: R.Rax
    var eof: bool
    var justSeeked: bool
    var inlineLeaf: bool
    /** The key is the first `keyLen` bytes of its buffer, and the stack likewise. */
    var keyBuf: seq<Byte>
    var keyLen: nat
    var data: Ptr
    var node: Addr
    /** Slot of the node in its parent, or of the leaf in the node; -1 if unknown. */
    var nodeChild: int
    var stackBuf: seq<Addr>
    var stackLen: nat
    ghost var path: seq<nat>
    ghost var slot: nat

    ghost function Key(): (k: seq<Byte>)
      reads this
    {
      if keyLen <= |keyBuf| then keyBuf[..keyLen] else []
    }

    ghost function Stack(): (k: seq<Addr>)
      reads this
    {
      if stackLen <= |stackBuf| then stackBuf[..stackLen] else []
    }

    ghost function Cur(): (c: Cursor)
      reads this
    {
      Cursor(inlineLeaf, Key(), node, nodeChild, Stack(), data)
    }

    ghost predicate Sound()
      reads this, rt
    {
      rt.Valid() && keyLen <= |keyBuf| && stackLen <= |stackBuf|
    }

    ghost predicate OnKey()
      reads this, rt
    {
      Sound() && KeyAt(rt.tree, rt.contents, path, slot, Cur())
    }

    constructor (tree: R.Rax)
      requires tree.Valid()
      ensures rt == tree && Sound() && eof
    {
      rt := tree;
      eof, justSeeked, inlineLeaf := true, false, false;
      keyBuf, keyLen, data, nodeChild, stackBuf, stackLen := [], 0, 0, -1, [], 0;
      node, path, slot := 0, [], 0;
    }

    method AddChars(s: seq<Byte>)
      requires keyLen <= |keyBuf|
      modifies this`keyBuf, this`keyLen
      ensures keyLen <= |keyBuf| && Key() == old(Key()) + s
    {
      keyBuf := Put(keyBuf, keyLen, s);
      keyLen := keyLen + |s|;
    }

    method SetInlineLeaf(v: Ptr, i: nat)
      modifies this`data, this`nodeChild, this`inlineLeaf, this`slot
      ensures data == v && nodeChild == i && inlineLeaf && slot == i
    {
      data, nodeChild, inlineLeaf, slot := v, i, true, i;
    }

    /** Make the child at `a` the current node. */
    method PushNode(a: Addr, i: nat)
      requires stackLen <= |stackBuf| && a in rt.mem
      modifies this`stackBuf, this`stackLen, this`node, this`nodeChild, this`data, this`path
      ensures stackLen <= |stackBuf| && Stack() == old(Stack()) + [old(node)] && node == a && nodeChild == i
      ensures data == (if rt.mem[a].iskey then GetData(rt.mem[a]) else 0) && path == old(path) + [i]
    {
      stackBuf := Put(stackBuf, stackLen, [node]);
      stackLen := stackLen + 1;
      node, nodeChild, path := a, i, path + [i];
      data := if rt.mem[a].iskey then GetData(rt.mem[a]) else 0;
    }

    /** Go into a slot of the current node: onto the leaf, or into the child. */
    method EnterChild(i: nat)
      requires Sound() && !inlineLeaf && Spot(rt.tree, path, node, Stack(), Key()) && i < |At(rt.tree, path).slots|
      modifies this`keyBuf, this`keyLen, this`data, this`nodeChild, this`inlineLeaf, this`slot, this`stackBuf, this`stackLen, this`node, this`path
      ensures Sound() && Entered(rt.tree, rt.contents, old(path), i, path, slot, Cur())
    {
      hide Edge, Label, At, ValidPath, Mirrors, StackOf, Spot, Kept, Ripe, Entered, LeafAt, NodeAt;
      EnterFacts(rt.St(), rt.tree, rt.contents, path, node, Stack(), Key(), i);
      var n := rt.mem[node];
      AddChars(if n.iscompr then n.data else [n.data[i]]);
      if IsInlineLeaf(n, i) {
        EnterLeaf(rt.St(), rt.tree, rt.contents, path, node, Stack(), old(Key()), i);
        SetInlineLeaf(n.slots[i].v, i);
      } else {
        EnterNode(rt.St(), rt.tree, rt.contents, path, node, Stack(), old(Key()), i, slot);
        PushNode(n.slots[i].a, i);
      }
    }

    method DelChars(count: nat)
      requires count <= keyLen <= |keyBuf|
      modifies this`keyLen
      ensures keyLen <= |keyBuf| && Key() == old(Key())[..|old(Key())| - count]
    {
      keyLen := keyLen - count;
    }

    method PopNode()
      requires 0 < stackLen <= |stackBuf| && path != []
      modifies this`stackLen, this`node, this`nodeChild, this`path
      ensures stackLen <= |stackBuf| && old(Stack()) == Stack() + [node] && nodeChild == -1 && path == old(path)[..|old(path)| - 1]
    {
      stackLen := stackLen - 1;
      node, nodeChild, path := stackBuf[stackLen], -1, path[..|path| - 1];
    }

    /** Go to the node above, unless already there, and take its bytes off the key. */
    method Retreat(noup: bool) returns (prevchild: Byte, prevchildidx: int)
      requires Sound() && Leaving(rt.tree, path, noup, Cur()) && (noup || node != rt.head)
      modifies this`keyLen, this`stackLen, this`node, this`nodeChild, this`path
      ensures Sound() && Hanging(rt.tree, path, node, Stack(), old(Key()), prevchildidx)
      ensures Spot(rt.tree, path, node, Stack(), Key()) && old(Key()) != [] && prevchild == old(Key())[|old(Key())| - 1]
      ensures if noup then path == old(path) && nodeChild == old(nodeChild) else |path| < |old(path)| && nodeChild == -1
      ensures !noup && !At(rt.tree, path).compr ==> prevchild in At(rt.tree, path).edges
    {
      hide Edge, Label, At, ValidPath, Mirrors, StackOf, Kept, Ripe, Hanging, Arena, Ok, Spot;
      RetreatFacts(rt.St(), rt.tree, rt.contents, path, noup, Cur());
      ghost var key, idx := Key(), nodeChild;
      prevchild, prevchildidx := keyBuf[keyLen - 1], nodeChild;
      if !noup {
        ghost var stack := Stack();
        PopNode();
        assert stack[..|stack| - 1] == Stack();
      }
      HangingNode(rt.mem, rt.tree, path, node, Stack(), key, idx);
      var n := rt.mem[node];
      DelChars(if n.iscompr then |n.data| else 1);
    }

    /** Go up until there is a slot to the right, and enter it. */
    method NextUp(noup0: bool) returns (r: Move)
      requires Sound() && Leaving(rt.tree, path, noup0, Cur())
      modifies this`keyBuf, this`keyLen, this`data, this`nodeChild, this`inlineLeaf, this`slot, this`stackBuf, this`stackLen, this`node, this`path
      ensures Sound()
      ensures r == Ended ==> Past(rt.contents, old(Key())) == {} && keyBuf == old(keyBuf) && stackBuf == old(stackBuf)
      ensures r == Found ==> OnKey() && Least(Past(rt.contents, old(Key())), Key())
      ensures r == Deeper ==> Past(rt.contents, old(Key())) == Greater(rt.contents, Key()) &&
                              NodeAt(rt.tree, path, Cur()) && At(rt.tree, path).slots != []
    {
      hide Edge, Label, At, ValidPath, Mirrors, StackOf, Kept, Ripe, Hanging, Arena, Ok, Spot, Leaving, NodeAt, Past, Greater, Least, KeyAt, Entered, Sorted, NextSlot;
      var noup := noup0;
      while true
        invariant Sound() && Leaving(rt.tree, path, noup, Cur())
        invariant Past(rt.contents, old(Key())) == Past(rt.contents, Key())
        invariant keyBuf == old(keyBuf) && stackBuf == old(stackBuf)
        decreases |path|, noup
      {
        LeavingHead(rt.St(), rt.tree, rt.contents, path, noup, Cur());
        if !noup && node == rt.head { return Ended; }
        ghost var key := Key();
        var oldNoup := noup;
        var prevchild, prevchildidx := Retreat(noup);
        noup := false;
        HangingData(rt.St(), rt.tree, rt.contents, path, node, Stack(), key, prevchildidx);
        var n := rt.mem[node];
        if !n.iscompr && |n.data| > (if oldNoup then 0 else 1) {
          var i := ScanNext(n.data, prevchild, prevchildidx);
          HangingNext(rt.tree, rt.contents, path, node, Stack(), key, prevchildidx, i);
          if i != |n.data| {
            ghost var q := path;
            EnterChild(i);
            EnteredNext(rt.St(), rt.tree, rt.contents, q, i, path, slot, Cur());
            return if inlineLeaf || rt.mem[node].iskey then Found else Deeper;
          }
        } else {
          HangingAlone(rt.tree, rt.contents, path, node, Stack(), key, prevchildidx);
        }
        if oldNoup { nodeChild := -1; }
        SpotLeaving(rt.tree, path, Cur());
      }
    }

    /** There is no further key: stand where the step began. */
    method Restore(keyLen': nat, stackLen': nat, node': Addr, inline: bool, data': Ptr, child: int, ghost path': seq<nat>, ghost slot': nat)
      modifies this`eof, this`keyLen, this`data, this`nodeChild, this`inlineLeaf, this`slot, this`stackLen, this`node, this`path
      ensures eof && keyLen == keyLen' && stackLen == stackLen' && node == node' && inlineLeaf == inline && data == data'
      ensures nodeChild == child && path == path' && slot == slot'
    {
      eof, keyLen, stackLen, node, inlineLeaf, data, nodeChild := true, keyLen', stackLen', node', inline, data', child;
      path, slot := path', slot';
    }

    /** A step to the next key.  With `noup` the current key is not one: only
        what does not start with it counts. */
    method NextStep(noup0: bool)
      requires Sound()
      requires !eof && !justSeeked ==> if inlineLeaf then LeafAt(rt.tree, path, slot, Cur()) && !noup0 else Leaving(rt.tree, path, noup0, Cur())
      modifies this
      ensures Sound() && (justSeeked ==> old(eof))
      ensures old(eof) || old(justSeeked) ==> eof == old(eof) && Cur() == old(Cur()) && path == old(path) && slot == old(slot)
      ensures !old(eof) && !old(justSeeked) ==>
        var w := if noup0 then Past(rt.contents, old(Key())) else Greater(rt.contents, old(Key()));
        if eof then w == {} && Cur() == old(Cur()) && path == old(path) && slot == old(slot)
        else OnKey() && Least(w, Key())
    {
      hide Edge, Label, At, ValidPath, Mirrors, StackOf, Kept, Ripe, Hanging, Arena, Ok, Spot, Leaving, NodeAt, LeafAt, Past, Greater, Least, KeyAt, Entered;
      if eof { return; }
      if justSeeked { justSeeked := false; return; }
      var origKeyLen, origStackLen, origNode, origInline, origData, origChild := keyLen, stackLen, node, inlineLeaf, data, nodeChild;
      ghost var w := if noup0 then Past(rt.contents, Key()) else Greater(rt.contents, Key());
      var noup := noup0;
      if inlineLeaf {
        LeafLeaving(rt.St(), rt.tree, rt.contents, path, slot, Cur());
        inlineLeaf := false;
        noup := true;
      }
      var r := NextFrom(noup);
      if r == Ended {
        Restore(origKeyLen, origStackLen, origNode, origInline, origData, origChild, old(path), old(slot));
      }
    }

    /** Down while there are children and no key, else up and across. */
    method NextFrom(noup0: bool) returns (r: Move)
      requires Sound() && Leaving(rt.tree, path, noup0, Cur())
      modifies this`keyBuf, this`keyLen, this`data, this`nodeChild, this`inlineLeaf, this`slot, this`stackBuf, this`stackLen, this`node, this`path
      ensures Sound() && r != Deeper
      ensures var w := if noup0 then Past(rt.contents, old(Key())) else Greater(rt.contents, old(Key()));
        if r == Ended then w == {} && keyBuf == old(keyBuf) && stackBuf == old(stackBuf)
        else OnKey() && Least(w, Key())
    {
      hide Edge, Label, At, ValidPath, Mirrors, StackOf, Kept, Ripe, Hanging, Arena, Ok, Spot, Leaving, NodeAt, LeafAt, Past, Greater, Least, KeyAt, Entered;
      ghost var w := if noup0 then Past(rt.contents, Key()) else Greater(rt.contents, Key());
      var noup := noup0;
      LeavingNode(rt.St(), rt.tree, rt.contents, path, noup, Cur());
      ghost var entered, sub := false, At(rt.tree, path);
      while true
        invariant Sound() && Leaving(rt.tree, path, noup, Cur()) && ValidPath(rt.tree, path) && sub == At(rt.tree, path)
        invariant w == if noup then Past(rt.contents, Key()) else Greater(rt.contents, Key())
        invariant if entered then !noup && sub.slots != [] else keyBuf == old(keyBuf) && stackBuf == old(stackBuf)
        decreases !entered, sub
      {
        LeavingNode(rt.St(), rt.tree, rt.contents, path, noup, Cur());
        var n := rt.mem[node];
        var children := if n.iscompr then 1 else |n.data|;
        if !noup && children > 0 {
          LeavingDown(rt.St(), rt.tree, rt.contents, path, Cur());
          ghost var q := path;
          EnterChild(0);
          EnteredNext(rt.St(), rt.tree, rt.contents, q, 0, path, slot, Cur());
          EnteredSub(rt.St(), rt.tree, rt.contents, q, 0, path, slot, Cur());
          if inlineLeaf || rt.mem[node].iskey { return Found; }
        } else {
          r := NextUp(noup);
          if r != Deeper { return; }
          noup := false;
          NodeLeaving(rt.tree, path, Cur());
        }
        entered := true;
        sub := At(rt.tree, path);
      }
    }

    /** The last key below the current node. */
    method SeekGreatest()
      requires Sound() && NodeAt(rt.tree, path, Cur()) && Useful(At(rt.tree, path))
      modifies this`keyBuf, this`keyLen, this`data, this`nodeChild, this`inlineLeaf, this`slot, this`stackBuf, this`stackLen, this`node, this`path
      ensures Sound() && Greatest(Under(rt.contents, old(Key())), Key())
      ensures if inlineLeaf then OnKey() else NodeAt(rt.tree, path, Cur())
    {
      hide Edge, Label, At, ValidPath, Mirrors, StackOf, Kept, Ripe, Hanging, Arena, Ok, Spot, NodeAt, LeafAt, Greatest, Under, KeyAt, Entered;
      GreatestNode(rt.St(), rt.tree, rt.contents, path, Cur());
      ghost var sub := At(rt.tree, path);
      while |rt.mem[node].data| != 0
        invariant Sound() && NodeAt(rt.tree, path, Cur()) && ValidPath(rt.tree, path) && sub == At(rt.tree, path) && Useful(sub)
        invariant node in rt.mem
        invariant forall z :: Greatest(Under(rt.contents, Key()), z) ==> Greatest(Under(rt.contents, old(Key())), z)
        decreases sub
      {
        GreatestNode(rt.St(), rt.tree, rt.contents, path, Cur());
        var n := rt.mem[node];
        var last := if n.iscompr then 0 else |n.data| - 1;
        ghost var q, key := path, Key();
        EnterChild(last);
        EnteredPrev(rt.St(), rt.tree, rt.contents, q, last, path, slot, Cur());
        EnteredLast(rt.St(), rt.tree, rt.contents, q, last, path, slot, Cur());
        EnteredSub(rt.St(), rt.tree, rt.contents, q, last, path, slot, Cur());
        if inlineLeaf { return; }
        sub := At(rt.tree, path);
      }
      GreatestNode(rt.St(), rt.tree, rt.contents, path, Cur());
    }

    /** The last key behind a slot of the current node. */
    method EnterLast(i: nat)
      requires Sound() && !inlineLeaf && Spot(rt.tree, path, node, Stack(), Key()) && i < |At(rt.tree, path).slots|
      modifies this`keyBuf, this`keyLen, this`data, this`nodeChild, this`inlineLeaf, this`slot, this`stackBuf, this`stackLen, this`node, this`path
      ensures Sound() && Greatest(Under(rt.contents, Edge(rt.tree, old(path), i)), Key()) && Key() in rt.contents
      ensures if inlineLeaf then OnKey() else NodeAt(rt.tree, path, Cur())
    {
      hide Edge, Label, At, ValidPath, Mirrors, StackOf, Kept, Ripe, Hanging, Arena, Ok, Spot, NodeAt, LeafAt, KeyAt, Entered;
      EnterChild(i);
      EnteredPrev(rt.St(), rt.tree, rt.contents, old(path), i, path, slot, Cur());
      if !inlineLeaf { SeekGreatest(); }
    }

    /** Stand on the current key, if it is one. */
    method StandHere(noup: bool) returns (r: Move)
      requires Sound() && if inlineLeaf then OnKey() else NodeAt(rt.tree, path, if noup then Cur().(nodeChild := -1) else Cur())
      modifies this`data, this`nodeChild
      ensures r != Deeper && (r == Found <==> Key() in rt.contents)
      ensures r == Found ==> OnKey()
      ensures r == Ended ==> Leaving(rt.tree, path, false, Cur()) && ValidPath(rt.tree, path) && Key() == PathLabel(rt.tree, path)
    {
      hide At, ValidPath, Kept, Ripe, Leaving, NodeAt, LeafAt, KeyAt;
      Unindexed(rt.tree, rt.contents, path, slot, Cur());
      if inlineLeaf { KeyAtKey(rt.tree, rt.contents, path, slot, Cur()); }
      if noup { nodeChild := -1; }
      if inlineLeaf { return Found; }
      KeyHere(rt.St(), rt.tree, rt.contents, path, slot, Cur());
      if rt.mem[node].iskey {
        data := GetData(rt.mem[node]);
        return Found;
      }
      r := Ended;
    }

    /** Leave the current node for the last key behind the slot to the left, or
        for the node above if that is a key. */
    method PrevUp(noup: bool) returns (r: Move)
      requires Sound() && Leaving(rt.tree, path, noup, Cur()) && (noup || node != rt.head)
      modifies this`keyBuf, this`keyLen, this`data, this`nodeChild, this`inlineLeaf, this`slot, this`stackBuf, this`stackLen, this`node, this`path
      ensures Sound() && r != Deeper
      ensures r == Found ==> OnKey() && Greatest(Smaller(rt.contents, old(Key())), Key())
      ensures r == Ended ==>
        && Leaving(rt.tree, path, false, Cur()) && Smaller(rt.contents, old(Key())) == Smaller(rt.contents, Key())
        && keyBuf == old(keyBuf) && stackBuf == old(stackBuf) && |path| <= |old(path)| && (!noup ==> |path| < |old(path)|)
    {
      hide Edge, Label, At, ValidPath, Mirrors, StackOf, Kept, Ripe, Hanging, Arena, Ok, Spot, Leaving, NodeAt, LeafAt, Smaller, Greatest, Under, KeyAt, Entered, Sorted;
      LeavingHead(rt.St(), rt.tree, rt.contents, path, noup, Cur());
      var prevchild, prevchildidx := Retreat(noup);
      HangingData(rt.St(), rt.tree, rt.contents, path, node, Stack(), old(Key()), prevchildidx);
      var n := rt.mem[node];
      var i := -1;
      if !n.iscompr && |n.data| > (if noup then 0 else 1) {
        i := ScanPrev(n.data, prevchild, prevchildidx);
      }
      HangingPrev(rt.tree, rt.contents, path, node, Stack(), old(Key()), prevchildidx, i);
      if i != -1 { EnterLast(i); }
      Unindexed(rt.tree, rt.contents, path, slot, Cur());
      r := StandHere(noup);
    }

    method PrevFrom(noup0: bool) returns (r: Move)
      requires Sound() && Leaving(rt.tree, path, noup0, Cur())
      modifies this`keyBuf, this`keyLen, this`data, this`nodeChild, this`inlineLeaf, this`slot, this`stackBuf, this`stackLen, this`node, this`path
      ensures Sound() && r != Deeper
      ensures var w := Smaller(rt.contents, old(Key()));
        if r == Ended then w == {} && keyBuf == old(keyBuf) && stackBuf == old(stackBuf)
        else OnKey() && Greatest(w, Key())
    {
      hide Edge, Label, At, ValidPath, StackOf, Kept, Ripe, Hanging, Arena, Ok, Spot, Leaving, NodeAt, LeafAt, Smaller, Greatest, Under, KeyAt;
      var noup := noup0;
      while true
        invariant Sound() && Leaving(rt.tree, path, noup, Cur())
        invariant Smaller(rt.contents, old(Key())) == Smaller(rt.contents, Key())
        invariant keyBuf == old(keyBuf) && stackBuf == old(stackBuf)
        decreases |path|, noup
      {
        LeavingHead(rt.St(), rt.tree, rt.contents, path, noup, Cur());
        if !noup && node == rt.head { return Ended; }
        r := PrevUp(noup);
        if r == Found { return; }
        noup := false;
      }
    }

    /** A step to the previous key. */
    method PrevStep(noup0: bool)
      requires Sound()
      requires !eof && !justSeeked ==> if inlineLeaf then LeafAt(rt.tree, path, slot, Cur()) && !noup0 else Leaving(rt.tree, path, noup0, Cur())
      modifies this
      ensures Sound() && (justSeeked ==> old(eof))
      ensures old(eof) || old(justSeeked) ==> eof == old(eof) && Cur() == old(Cur()) && path == old(path) && slot == old(slot)
      ensures !old(eof) && !old(justSeeked) ==>
        var w := Smaller(rt.contents, old(Key()));
        if eof then w == {} && Cur() == old(Cur()) && path == old(path) && slot == old(slot)
        else OnKey() && Greatest(w, Key())
    {
      hide Edge, Label, At, ValidPath, Mirrors, StackOf, Kept, Ripe, Hanging, Arena, Ok, Spot, Leaving, NodeAt, LeafAt, Smaller, Greatest, KeyAt, Entered;
      if eof { return; }
      if justSeeked { justSeeked := false; return; }
      var origKeyLen, origStackLen, origNode, origInline, origData, origChild := keyLen, stackLen, node, inlineLeaf, data, nodeChild;
      var noup := noup0;
      if inlineLeaf {
        LeafLeaving(rt.St(), rt.tree, rt.contents, path, slot, Cur());
        inlineLeaf := false;
        noup := true;
      }
      var r := PrevFrom(noup);
      if r == Ended {
        Restore(origKeyLen, origStackLen, origNode, origInline, origData, origChild, old(path), old(slot));
      }
    }

    /** A step whose result the next call of `Next` or `Prev` returns. */
    method SeekStep(gt: bool, noup: bool)
      requires Sound() && !eof
      requires if inlineLeaf then LeafAt(rt.tree, path, slot, Cur()) && !noup else Leaving(rt.tree, path, noup, Cur())
      modifies this
      ensures Sound() && justSeeked && (!eof ==> OnKey())
      ensures gt ==> var w := if noup then Past(rt.contents, old(Key())) else Greater(rt.contents, old(Key()));
                     if eof then w == {} else Least(w, Key())
      ensures !gt ==> var w := Smaller(rt.contents, old(Key())); if eof then w == {} else Greatest(w, Key())
    {
      hide Edge, Label, At, ValidPath, Kept, Ripe, Leaving, LeafAt, Smaller, Greater, Past, Greatest, Least, KeyAt;
      justSeeked := false;
      if gt { NextStep(noup); } else { PrevStep(noup); }
      justSeeked := true;
    }

    /** The walk stopped on a leaf. */
    method SeekLeaf(eq: bool, lt: bool, gt: bool, ele: seq<Byte>, w: Stop)
      requires Sound() && !eof && justSeeked && !inlineLeaf && keyLen == 0 && (eq || lt || gt) && !(lt && gt)
      requires Stopped(rt.tree, ele, w, path) && w.inlineLeaf && node == w.h && Stack() == w.stack
      modifies this
      ensures Sound() && justSeeked && (!eof ==> OnKey()) && Lands(rt.contents, eq, lt, gt, ele, eof, Key())
    {
      hide Edge, Label, At, ValidPath, Mirrors, StackOf, Kept, Ripe, Arena, Ok, Spot, Leaving, LeafAt, Smaller, Greater, Greatest, Least, KeyAt, Lands;
      SeekLeafFacts(rt.St(), rt.tree, rt.contents, path, ele, w);
      AddChars(ele[..w.i]);
      assert Key() == ele[..w.i];
      SetInlineLeaf(rt.mem[node].slots[w.plink.idx].v, w.plink.idx);
      if eq && w.i == |ele| {
        LandsSame(rt.contents, lt, gt, ele);
        return;
      }
      if lt || gt {
        if w.i == |ele| || gt { SeekStep(gt, false); }
        LandsOther(rt.contents, eq, lt, gt, ele, eof, Key());
        return;
      }
      eof := true;
      LandsNone(rt.contents, eq, ele, Key());
    }

    /** Spell the key of the current node from the nodes on the stack. */
    method RebuildKey()
      requires Sound() && keyLen == 0 && ValidPath(rt.tree, path) && node == At(rt.tree, path).at && StackOf(rt.tree, path, Stack())
      modifies this`keyBuf, this`keyLen
      ensures Sound() && Spot(rt.tree, path, node, Stack(), Key())
    {
      hide At, ValidPath, Kept, Ripe, PathLabel, StackOf;
      var ts := stackBuf[..stackLen] + [node];
      RebuildStart(rt.tree, path, ts[..stackLen]);
      var j := 1;
      while j < |ts|
        invariant Sound() && 1 <= j <= |ts| && |ts| == |path| + 1
        invariant ValidPath(rt.tree, path[..j - 1]) && Key() == PathLabel(rt.tree, path[..j - 1])
      {
        RebuildStep(rt.St(), rt.tree, rt.contents, path, ts, j);
        var n := rt.mem[ts[j - 1]];
        if n.iscompr {
          AddChars(n.data);
        } else {
          var i := R.FindLink(n.slots, ts[j]);
          AddChars([n.data[i]]);
        }
        j := j + 1;
      }
      assert path[..|path|] == path;
    }

    /** The walk stopped at a node without a slot for the next byte. */
    method SeekMissing(eq: bool, gt: bool, ele: seq<Byte>, w: Stop)
      requires Sound() && !eof && !inlineLeaf && Spot(rt.tree, path, node, Stack(), Key()) && nodeChild == -1
      requires Stopped(rt.tree, ele, w, path) && !w.inlineLeaf && !At(rt.tree, path).compr && w.i < |ele|
      modifies this
      ensures Sound() && justSeeked && (!eof ==> OnKey()) && Lands(rt.contents, eq, !gt, gt, ele, eof, Key())
    {
      hide At, ValidPath, Kept, Ripe, Leaving, Smaller, Greater, Past, Greatest, Least, KeyAt, Lands, Stopped, Spot;
      SeekMissingFacts(rt.St(), rt.tree, rt.contents, path, ele, w, Cur());
      AddChars([ele[w.i]]);
      SeekStep(gt, true);
      LandsOther(rt.contents, eq, !gt, gt, ele, eof, Key());
    }

    /** The walk stopped inside a compressed node, at a byte that differs. */
    method SeekInside(eq: bool, gt: bool, ele: seq<Byte>, w: Stop)
      requires Sound() && !eof && justSeeked && !inlineLeaf && Spot(rt.tree, path, node, Stack(), Key()) && nodeChild == -1
      requires Stopped(rt.tree, ele, w, path) && !w.inlineLeaf && At(rt.tree, path).compr && w.i < |ele|
      modifies this
      ensures Sound() && justSeeked && (!eof ==> OnKey()) && Lands(rt.contents, eq, !gt, gt, ele, eof, Key())
    {
      hide At, ValidPath, Kept, Ripe, Leaving, NodeAt, Smaller, Greater, Past, Greatest, Under, Least, KeyAt, Lands, Stopped, Spot, Edge;
      SeekInsideFacts(rt.St(), rt.tree, rt.contents, path, ele, w, Cur());
      var n := rt.mem[node];
      var nodechar, keychar := n.data[w.splitpos], ele[w.i];
      if gt && nodechar > keychar {
        SeekStep(true, false);
      } else if !gt && nodechar < keychar {
        SeekGreatest();
        if !inlineLeaf { var r := StandHere(false); }
      } else {
        AddChars(n.data);
        SeekStep(gt, true);
      }
      LandsOther(rt.contents, eq, !gt, gt, ele, eof, Key());
    }

    /** The sought string ends at the node or inside it. */
    method SeekOn(eq: bool, gt: bool, ele: seq<Byte>, w: Stop)
      requires Sound() && !eof && justSeeked && !inlineLeaf && Spot(rt.tree, path, node, Stack(), Key()) && nodeChild == -1
      requires Stopped(rt.tree, ele, w, path) && !w.inlineLeaf && w.i == |ele|
      requires !(eq && w.splitpos == 0 && At(rt.tree, path).key.Some?)
      modifies this
      ensures Sound() && justSeeked && (!eof ==> OnKey()) && Lands(rt.contents, eq, !gt, gt, ele, eof, Key())
    {
      hide At, ValidPath, Kept, Ripe, Leaving, NodeAt, Smaller, Greater, Past, Greatest, Under, Least, KeyAt, Lands, Stopped, Spot, Edge;
      SeekOnFacts(rt.St(), rt.tree, rt.contents, path, ele, w, slot, Cur());
      var n := rt.mem[node];
      if n.iscompr && n.iskey && w.splitpos != 0 && !gt {
        data := GetData(n);
      } else {
        SeekStep(gt, false);
      }
      LandsOther(rt.contents, eq, !gt, gt, ele, eof, Key());
    }

    method SeekKey(eq: bool, lt: bool, gt: bool, ele: seq<Byte>)
      requires Sound() && !eof && justSeeked && !inlineLeaf && keyLen == 0 && stackLen == 0 && nodeChild == -1
      requires (eq || lt || gt) && !(lt && gt)
      modifies this
      ensures Sound() && justSeeked && (!eof ==> OnKey()) && Lands(rt.contents, eq, lt, gt, ele, eof, Key())
    {
      hide At, ValidPath, Kept, Ripe, KeyAt, Lands, Stopped, Spot, Arena, Ok, Denotes, Mirrors, Lookup;
      KeptOk(rt.St(), rt.tree, rt.contents);
      var w, p := rt.LowWalk(ele);
      SeekFacts(rt.St(), rt.tree, rt.contents, ele, w, p, slot);
      node, stackBuf, stackLen, path := w.h, Put(stackBuf, 0, w.stack), |w.stack|, p;
      assert Stack() == w.stack;
      if w.inlineLeaf {
        SeekLeaf(eq, lt, gt, ele, w);
        return;
      }
      var n := rt.mem[node];
      if eq && w.i == |ele| && (!n.iscompr || w.splitpos == 0) && n.iskey {
        AddChars(ele);
        assert Key() == ele;
        data := GetData(n);
        LandsSame(rt.contents, lt, gt, ele);
      } else if lt || gt {
        RebuildKey();
        if w.i != |ele| && !n.iscompr {
          SeekMissing(eq, gt, ele, w);
        } else if w.i != |ele| {
          SeekInside(eq, gt, ele, w);
        } else {
          SeekOn(eq, gt, ele, w);
        }
      } else {
        eof := true;
        LandsNone(rt.contents, eq, ele, Key());
      }
    }

    /** Stand on the last key of the tree. */
    method SeekLast()
      requires Sound() && !eof && justSeeked && !inlineLeaf && keyLen == 0 && stackLen == 0 && nodeChild == -1 && rt.numele > 0
      modifies this
      ensures Sound() && justSeeked && !eof && OnKey() && Greatest(rt.contents.Keys, Key())
    {
      hide At, ValidPath, Kept, Ripe, KeyAt, NodeAt, Greatest, Under, Lookup, PathLabel, Spot;
      node, path := rt.head, [];
      HeadUseful(rt.St(), rt.tree, rt.contents, Cur());
      SeekGreatest();
      assert Under(rt.contents, []) == rt.contents.Keys by { UnderAll(rt.contents); }
      GreatestIn(rt.contents.Keys, Key());
      if !inlineLeaf { var r := StandHere(false); }
    }

    /** Place the iterator; the result is false for an unknown operator. */
    method Seek(op: string, ele: seq<Byte>) returns (ok: bool)
      requires Sound()
      modifies this
      ensures Sound() && justSeeked
      ensures ok <==> op != [] && op[0] in {'>', '<', '=', '^', '$'}
      ensures ok && !eof ==> OnKey()
      ensures ok && op[0] in {'>', '<', '='} ==>
        var eq := op[0] == '=' || (|op| > 1 && op[1] == '=');
        Lands(rt.contents, eq, op[0] == '<', op[0] == '>', ele, eof, Key())
      ensures ok && op[0] == '^' ==> if eof then rt.contents.Keys == {} else Least(rt.contents.Keys, Key())
      ensures ok && op[0] == '$' ==> if eof then rt.contents.Keys == {} else Greatest(rt.contents.Keys, Key())
      decreases op != [] && op[0] == '^'
    {
      hide At, ValidPath, Kept, Ripe, KeyAt, Lands, Lookup, Least, Greatest;
      stackLen, keyLen, nodeChild := 0, 0, -1;
      justSeeked, eof, inlineLeaf := true, false, false;
      var eq, lt, gt, first, last := false, false, false, false, false;
      if op == [] { return false; }
      if op[0] == '>' {
        gt, eq := true, |op| > 1 && op[1] == '=';
      } else if op[0] == '<' {
        lt, eq := true, |op| > 1 && op[1] == '=';
      } else if op[0] == '=' {
        eq := true;
      } else if op[0] == '^' {
        first := true;
      } else if op[0] == '$' {
        last := true;
      } else {
        return false;
      }
      ok := true;
      SizeIs(rt.St(), rt.tree, rt.contents);
      if rt.numele == 0 {
        eof := true;
        LandsEmpty(rt.contents, eq, lt, gt, ele, Key());
      } else if first {
        var done := Seek(">=", []);
        LandsFirst(rt.contents, eof, Key());
      } else if last {
        SeekLast();
      } else {
        SeekKey(eq, lt, gt, ele);
      }
    }

    /** Go to the next key; false at the end. */
    method Next() returns (more: bool)
      requires Sound() && (!eof ==> OnKey())
      modifies this
      ensures Sound() && more == !eof && (!eof ==> OnKey() && !justSeeked)
      ensures old(eof) ==> eof
      ensures !old(eof) && old(justSeeked) ==> more && Key() == old(Key())
      ensures !old(eof) && !old(justSeeked) ==>
        if more then Least(Greater(rt.contents, old(Key())), Key())
        else Greater(rt.contents, old(Key())) == {} && OnKey() && Key() == old(Key())
    {
      hide At, ValidPath, Kept, Ripe, Least, Greater, Spot;
      NextStep(false);
      more := !eof;
    }

    /** Go to the previous key; false at the end. */
    method Prev() returns (more: bool)
      requires Sound() && (!eof ==> OnKey())
      modifies this
      ensures Sound() && more == !eof && (!eof ==> OnKey() && !justSeeked)
      ensures old(eof) ==> eof
      ensures !old(eof) && old(justSeeked) ==> more && Key() == old(Key())
      ensures !old(eof) && !old(justSeeked) ==>
        if more then Greatest(Smaller(rt.contents, old(Key())), Key())
        else Smaller(rt.contents, old(Key())) == {} && OnKey() && Key() == old(Key())
    {
      hide At, ValidPath, Kept, Ripe, Greatest, Smaller, Spot;
      PrevStep(false);
      more := !eof;
    }
  }

  lemma SeekFacts(st: State, t: Tree, m: Contents, ele: seq<Byte>, w: Stop, p: seq<nat>, k: nat)
    requires Kept(st, t, m) && Ripe(t) && Stopped(t, ele, w, p)
    ensures ValidPath(t, p) && w.h == At(t, p).at && StackOf(t, p, w.stack) && w.i <= |ele|
    ensures !w.inlineLeaf ==>
      && w.h in st.mem && st.mem[w.h].iscompr == At(t, p).compr && st.mem[w.h].iskey == At(t, p).key.Some?
      && (!st.mem[w.h].iscompr ==> w.splitpos == 0)
      && (ele in m <==> w.i == |ele| && w.splitpos == 0 && st.mem[w.h].iskey)
      && (ele in m ==> KeyAt(t, m, p, k, Cursor(false, ele, w.h, -1, w.stack, GetData(st.mem[w.h]))))
  {
    hide Arena, At, ValidPath, Denotes, Ripe, Lookup, Ok, PathLabel, StackOf;
    KeptOk(st, t, m);
    NodeRecord(st.mem, t, p);
    StoppedLookup(t, ele, w, p);
    DenotesAt(t, m, ele);
    assert ele[..|ele|] == ele;
  }

  lemma HeadUseful(st: State, t: Tree, m: Contents, c: Cursor)
    requires Kept(st, t, m) && Ripe(t) && st.numele > 0
    requires !c.inlineLeaf && c.node == st.head && c.stack == [] && c.key == [] && c.nodeChild == -1
    ensures NodeAt(t, [], c) && ValidPath(t, []) && Useful(At(t, []))
  {
    hide Arena, Ok, Ripe, Lookup;
    KeptOk(st, t, m);
    var y :| y in m;
    if t.slots == [] {
      DenotesAt(t, m, y);
      LookupNoSlots(t, y);
    }
  }

  lemma UnderAll(m: Contents)
    ensures Under(m, []) == m.Keys
  {
  }

  lemma GreatestIn(w: set<seq<Byte>>, z: seq<Byte>)
    requires Greatest(w, z)
    ensures z in w
  {
  }

  lemma SizeIs(st: State, t: Tree, m: Contents)
    requires Kept(st, t, m)
    ensures st.numele == |m|
  {
  }

  lemma LandsEmpty(m: Contents, eq: bool, lt: bool, gt: bool, ele: seq<Byte>, key: seq<Byte>)
    requires |m| == 0
    ensures Lands(m, eq, lt, gt, ele, true, key) && m.Keys == {}
  {
    assert |m.Keys| == 0;
  }

  lemma LandsFirst(m: Contents, eof: bool, key: seq<Byte>)
    requires Lands(m, true, false, true, [], eof, key)
    ensures if eof then m.Keys == {} else Least(m.Keys, key)
  {
    assert From(m, true, []) == m.Keys;
  }

  lemma RebuildStart(t: Tree, p: seq<nat>, ts: seq<Addr>)
    requires ValidPath(t, p) && StackOf(t, p, ts)
    ensures |ts| == |p| && ValidPath(t, p[..0]) && PathLabel(t, p[..0]) == []
  {
  }

  lemma RebuildStep(st: State, t: Tree, m: Contents, p: seq<nat>, ts: seq<Addr>, j: nat)
    requires Kept(st, t, m) && ValidPath(t, p) && 1 <= j <= |p| && |ts| == |p| + 1
    requires StackOf(t, p, ts[..|p|]) && ts[|p|] == At(t, p).at
    ensures ValidPath(t, p[..j - 1]) && ValidPath(t, p[..j]) && ts[j - 1] in st.mem
    ensures var n := st.mem[ts[j - 1]];
      && (n.iscompr ==> PathLabel(t, p[..j]) == PathLabel(t, p[..j - 1]) + n.data)
      && (!n.iscompr ==> Ref(ts[j]) in n.slots && |n.slots| == |n.data|)
      && (!n.iscompr ==> forall i :: 0 <= i < |n.slots| && n.slots[i] == Ref(ts[j]) ==>
                           PathLabel(t, p[..j]) == PathLabel(t, p[..j - 1]) + [n.data[i]])
  {
    hide Arena, At, ValidPath, Denotes, PathLabel;
    KeptOk(st, t, m);
    var q, r := p[..j - 1], p[..j];
    StackAt(t, p, ts, j - 1);
    StackAt(t, p, ts, j);
    PathPrefix(t, r);
    assert r[..|r| - 1] == q;
    NodeRecord(st.mem, t, q);
    MirrorsSlots(st.mem[At(t, q).at], At(t, q));
    var k := p[j - 1];
    assert st.mem[At(t, q).at].slots[k] == Ref(ts[j]);
    forall i | 0 <= i < |At(t, q).slots| && st.mem[At(t, q).at].slots[i] == Ref(ts[j]) ensures i == k {
      FreedChild(st.mem, t, q, k, i);
    }
  }

  lemma StackAt(t: Tree, p: seq<nat>, ts: seq<Addr>, j: nat)
    requires ValidPath(t, p) && j <= |p| && |ts| == |p| + 1
    requires StackOf(t, p, ts[..|p|]) && ts[|p|] == At(t, p).at
    ensures ValidPath(t, p[..j]) && ts[j] == At(t, p[..j]).at
  {
    if j == |p| { assert p[..j] == p; } else { assert ts[j] == ts[..|p|][j]; }
  }

  lemma SeekMissingFacts(st: State, t: Tree, m: Contents, p: seq<nat>, ele: seq<Byte>, w: Stop, c: Cursor)
    requires Kept(st, t, m) && Ripe(t) && Stopped(t, ele, w, p) && !w.inlineLeaf && !At(t, p).compr && w.i < |ele|
    requires !c.inlineLeaf && Spot(t, p, c.node, c.stack, c.key) && c.nodeChild == -1
    ensures var e := c.key + [ele[w.i]];
      && Leaving(t, p, true, c.(key := e)) && ele !in m
      && Greater(m, ele) == Past(m, e) && Smaller(m, ele) == Smaller(m, e)
  {
    hide Arena, At, ValidPath, Denotes, PathLabel, Ripe, Greater, Past, Smaller, StackOf;
    KeptOk(st, t, m);
    StopMissing(t, m, ele, w, p);
  }

  lemma SeekInsideFacts(st: State, t: Tree, m: Contents, p: seq<nat>, ele: seq<Byte>, w: Stop, c: Cursor)
    requires Kept(st, t, m) && Ripe(t) && Stopped(t, ele, w, p) && !w.inlineLeaf && At(t, p).compr && w.i < |ele|
    requires !c.inlineLeaf && Spot(t, p, c.node, c.stack, c.key) && c.nodeChild == -1
    ensures c.node in st.mem && ele !in m && NodeAt(t, p, c) && Leaving(t, p, false, c) && ValidPath(t, p) && Useful(At(t, p))
    ensures var n := st.mem[c.node];
      && w.splitpos < |n.data| && n.data[w.splitpos] != ele[w.i] && Leaving(t, p, true, c.(key := c.key + n.data))
      && (n.data[w.splitpos] > ele[w.i] ==> Greater(m, ele) == Greater(m, c.key) && Smaller(m, ele) == Smaller(m, c.key + n.data))
      && (n.data[w.splitpos] < ele[w.i] ==> Greater(m, ele) == Past(m, c.key + n.data) &&
                                            forall z :: Greatest(Under(m, c.key), z) ==> z in m && Greatest(Smaller(m, ele), z))
  {
    hide Arena, At, ValidPath, Denotes, PathLabel, Ripe, Greater, Past, Smaller, StackOf;
    KeptOk(st, t, m);
    OkAt(t, p);
    NodeRecord(st.mem, t, p);
    if At(t, p).edges[w.splitpos] > ele[w.i] {
      StopInsideLow(t, m, ele, w, p);
    } else {
      StopInsideHigh(t, m, ele, w, p);
    }
  }

  lemma SeekOnFacts(st: State, t: Tree, m: Contents, p: seq<nat>, ele: seq<Byte>, w: Stop, k: nat, c: Cursor)
    requires Kept(st, t, m) && Ripe(t) && Stopped(t, ele, w, p) && !w.inlineLeaf && w.i == |ele|
    requires !c.inlineLeaf && Spot(t, p, c.node, c.stack, c.key) && c.nodeChild == -1
    ensures c.node in st.mem && Leaving(t, p, false, c) && ValidPath(t, p)
    ensures Greater(m, ele) == Greater(m, c.key)
    ensures ele in m <==> w.splitpos == 0 && At(t, p).key.Some?
    ensures st.mem[c.node].iskey ==> KeyAt(t, m, p, k, c.(data := GetData(st.mem[c.node])))
    ensures if w.splitpos != 0 && st.mem[c.node].iskey then st.mem[c.node].iscompr && Greatest(Smaller(m, ele), c.key)
            else Smaller(m, ele) == Smaller(m, c.key)
  {
    hide Arena, At, ValidPath, Denotes, PathLabel, Ripe, Greater, Past, Smaller, StackOf;
    KeptOk(st, t, m);
    KeyHere(st, t, m, p, k, c);
    NodeRecord(st.mem, t, p);
    assert ele[..w.i] == ele;
    if w.splitpos != 0 {
      StopInsideLow(t, m, ele, w, p);
      LeaveRunBack(t, m, p);
    } else {
      assert ele == c.key;
      NodeKey(t, m, p);
    }
  }

  lemma LandsNone(m: Contents, eq: bool, ele: seq<Byte>, key: seq<Byte>)
    requires ele !in m
    ensures Lands(m, eq, false, false, ele, true, key)
  {
  }

  lemma LandsOther(m: Contents, eq: bool, lt: bool, gt: bool, ele: seq<Byte>, eof: bool, key: seq<Byte>)
    requires !(eq && ele in m) && (lt || gt)
    requires gt ==> if eof then Greater(m, ele) == {} else Least(Greater(m, ele), key)
    requires !gt ==> if eof then Smaller(m, ele) == {} else Greatest(Smaller(m, ele), key)
    ensures Lands(m, eq, lt, gt, ele, eof, key)
  {
    assert From(m, eq, ele) == Greater(m, ele) && UpTo(m, eq, ele) == Smaller(m, ele);
  }

  lemma LandsSame(m: Contents, lt: bool, gt: bool, ele: seq<Byte>)
    requires ele in m
    ensures Lands(m, true, lt, gt, ele, false, ele)
  {
  }

  lemma SeekLeafFacts(st: State, t: Tree, m: Contents, p: seq<nat>, ele: seq<Byte>, w: Stop)
    requires Kept(st, t, m) && Ripe(t) && Stopped(t, ele, w, p) && w.inlineLeaf
    ensures w.h in st.mem && w.plink.SlotLink? && w.i <= |ele| && w.plink.idx < |st.mem[w.h].slots| && st.mem[w.h].slots[w.plink.idx].Val?
    ensures var c := Cursor(true, ele[..w.i], w.h, w.plink.idx, w.stack, st.mem[w.h].slots[w.plink.idx].v);
            KeyAt(t, m, p, w.plink.idx, c) && LeafAt(t, p, w.plink.idx, c)
    ensures Greater(m, ele) == Greater(m, ele[..w.i])
    ensures w.i == |ele| ==> ele[..w.i] == ele && ele in m
    ensures w.i < |ele| ==> ele !in m && Greatest(Smaller(m, ele), ele[..w.i])
  {
    hide Arena, At, ValidPath, Ripe, Denotes, StackOf, Greater, Smaller, Greatest, Past;
    KeptOk(st, t, m);
    var k := w.plink.idx;
    NodeRecord(st.mem, t, p);
    MirrorsSlots(st.mem[w.h], At(t, p));
    EdgeKey(t, m, p, k);
    PastLeaf(t, m, p, k, ele);
    PastLeaf(t, m, p, k, ele[..w.i]);
  }

  lemma KeyAtKey(t: Tree, m: Contents, p: seq<nat>, k: nat, c: Cursor)
    requires KeyAt(t, m, p, k, c)
    ensures c.key in m && m[c.key] == c.data
  {
  }

  /** The position in the parent is a hint that may be dropped. */
  lemma Unindexed(t: Tree, m: Contents, p: seq<nat>, k: nat, c: Cursor)
    ensures KeyAt(t, m, p, k, c) ==> KeyAt(t, m, p, k, c.(nodeChild := -1))
    ensures !c.inlineLeaf && Spot(t, p, c.node, c.stack, c.key) ==> NodeAt(t, p, c.(nodeChild := -1))
    ensures NodeAt(t, p, c) ==> NodeAt(t, p, c.(nodeChild := -1))
    ensures Spot(t, p, c.node, c.stack, c.key) ==> ValidPath(t, p) && c.key == PathLabel(t, p)
  {
  }

  lemma KeyHere(st: State, t: Tree, m: Contents, p: seq<nat>, k: nat, c: Cursor)
    requires Kept(st, t, m) && Ripe(t) && NodeAt(t, p, c)
    ensures ValidPath(t, p) && c.key == PathLabel(t, p) && Leaving(t, p, false, c)
    ensures c.node in st.mem && (st.mem[c.node].iskey <==> c.key in m)
    ensures c.key in m ==> KeyAt(t, m, p, k, c.(data := GetData(st.mem[c.node])))
  {
    hide Arena, Ok, At, Denotes, ValidPath, Ripe, PathLabel;
    KeptOk(st, t, m);
    NodeRecord(st.mem, t, p);
    NodeKey(t, m, p);
  }

  lemma GreatestNode(st: State, t: Tree, m: Contents, p: seq<nat>, c: Cursor)
    requires Kept(st, t, m) && Ripe(t) && NodeAt(t, p, c)
    ensures ValidPath(t, p) && Spot(t, p, c.node, c.stack, c.key) && c.key == PathLabel(t, p) && c.node in st.mem && !c.inlineLeaf
    ensures var n, h := st.mem[c.node], At(t, p);
      && (|n.data| == 0 <==> h.slots == [])
      && (h.slots != [] ==> (if n.iscompr then 0 else |n.data| - 1) == |h.slots| - 1)
      && (h.slots == [] && Useful(h) ==> Greatest(Under(m, c.key), c.key))
  {
    hide Arena, At, Denotes, ValidPath, Ripe, PathLabel, Greatest, Under;
    KeptOk(st, t, m);
    SpotNode(st.mem, t, p, c.node, c.stack, c.key);
    if At(t, p).slots == [] && Useful(At(t, p)) { LastHere(t, m, p); }
  }

  lemma EnteredPrev(st: State, t: Tree, m: Contents, p: seq<nat>, i: nat, p': seq<nat>, k: nat, c: Cursor)
    requires Kept(st, t, m) && Ripe(t) && Entered(t, m, p, i, p', k, c)
    ensures ValidPath(t, p) && c.key == Edge(t, p, i)
    ensures c.inlineLeaf ==> KeyAt(t, m, p', k, c) && Greatest(Under(m, c.key), c.key)
    ensures !c.inlineLeaf ==> NodeAt(t, p', c) && ValidPath(t, p') && Useful(At(t, p')) && c.node in st.mem
  {
    hide Arena, Ok, At, Denotes, ValidPath, Ripe, Edge, Greatest, Under;
    KeptOk(st, t, m);
    if c.inlineLeaf {
      LastLeaf(t, m, p, i);
    } else {
      NodeRecord(st.mem, t, p');
      RipeAt(t, p');
    }
  }

  lemma EnteredLast(st: State, t: Tree, m: Contents, p: seq<nat>, i: nat, p': seq<nat>, k: nat, c: Cursor)
    requires Kept(st, t, m) && Ripe(t) && Entered(t, m, p, i, p', k, c) && i == |At(t, p).slots| - 1
    ensures ValidPath(t, p)
    ensures forall z :: Greatest(Under(m, c.key), z) ==> Greatest(Under(m, PathLabel(t, p)), z)
  {
    hide Arena, Ok, At, Denotes, ValidPath, Ripe, Edge, Greatest, Under;
    KeptOk(st, t, m);
    forall z | Greatest(Under(m, c.key), z) ensures Greatest(Under(m, PathLabel(t, p)), z) { GoLast(t, m, p, z); }
  }

  lemma HangingPrev(t: Tree, m: Contents, p: seq<nat>, node: Addr, stack: seq<Addr>, key: seq<Byte>, idx: int, i: int)
    requires Meant(t, m) && Hanging(t, p, node, stack, key, idx) && key != [] && -1 <= i
    requires i >= 0 ==> !At(t, p).compr && i < |At(t, p).edges| && At(t, p).edges[i] < key[|key| - 1]
    requires At(t, p).compr || (forall k :: i < k < |At(t, p).edges| ==> key[|key| - 1] <= At(t, p).edges[k])
    ensures i == -1 ==> var x := PathLabel(t, p); if x in m then Greatest(Smaller(m, key), x) else Smaller(m, key) == Smaller(m, x)
    ensures i >= 0 ==> forall z :: Greatest(Under(m, Edge(t, p, i)), z) ==> Greatest(Smaller(m, key), z)
  {
    hide Ok, At, ValidPath, Denotes, Ripe, Smaller, Greatest, Under;
    if At(t, p).compr {
      LeaveRunBack(t, m, p);
    } else {
      var c := key[|key| - 1];
      assert key == PathLabel(t, p) + [c];
      GoBack(t, m, p, c, i + 1);
    }
  }

  lemma NodeLeaving(t: Tree, p: seq<nat>, c: Cursor)
    requires NodeAt(t, p, c)
    ensures Leaving(t, p, false, c) && ValidPath(t, p)
  {
  }

  /** From a leaf, what comes next does not start with it. */
  lemma LeafLeaving(st: State, t: Tree, m: Contents, p: seq<nat>, k: nat, c: Cursor)
    requires Kept(st, t, m) && Ripe(t) && LeafAt(t, p, k, c)
    ensures Leaving(t, p, true, c.(inlineLeaf := false)) && Greater(m, c.key) == Past(m, c.key)
  {
    hide Arena, At, Denotes, ValidPath, Ripe, Past, Greater, PathLabel;
    KeptOk(st, t, m);
    PastLeaf(t, m, p, k, c.key);
    OkAt(t, p);
  }

  lemma LeavingNode(st: State, t: Tree, m: Contents, p: seq<nat>, noup: bool, c: Cursor)
    requires Kept(st, t, m) && Ripe(t) && Leaving(t, p, noup, c)
    ensures ValidPath(t, p) && c.node in st.mem && Meant(t, m) && !c.inlineLeaf
    ensures var n := st.mem[c.node]; (At(t, p).slots == [] <==> (if n.iscompr then 1 else |n.data|) == 0)
    ensures !noup && At(t, p).slots == [] ==> Greater(m, c.key) == Past(m, c.key)
  {
    hide Arena, At, Denotes, ValidPath, Ripe, Past, Greater;
    KeptOk(st, t, m);
    OkAt(t, p);
    if noup {
      HangingNode(st.mem, t, p, c.node, c.stack, c.key, c.nodeChild);
    } else {
      SpotNode(st.mem, t, p, c.node, c.stack, c.key);
      if At(t, p).slots == [] { NothingBelow(t, m, p); }
    }
  }

  lemma LeavingDown(st: State, t: Tree, m: Contents, p: seq<nat>, c: Cursor)
    requires Kept(st, t, m) && Ripe(t) && Leaving(t, p, false, c) && ValidPath(t, p) && At(t, p).slots != []
    ensures Spot(t, p, c.node, c.stack, c.key)
    ensures var e := Edge(t, p, 0); if e in m then Least(Greater(m, c.key), e) else Greater(m, c.key) == Greater(m, e)
  {
    hide Arena, At, Denotes, ValidPath, Ripe, Past, Greater;
    KeptOk(st, t, m);
    GoDown(t, m, p);
  }

  lemma EnteredSub(st: State, t: Tree, m: Contents, p: seq<nat>, i: nat, p': seq<nat>, k: nat, c: Cursor)
    requires Kept(st, t, m) && Ripe(t) && Entered(t, m, p, i, p', k, c)
    ensures ValidPath(t, p) && (!c.inlineLeaf ==> ValidPath(t, p') && At(t, p') < At(t, p) && Leaving(t, p', false, c))
  {
    hide At, ValidPath, Ripe, Edge, Kept;
    SlotSmaller(At(t, p), i);
  }

  lemma SlotSmaller(t: Tree, i: nat)
    requires i < |t.slots|
    ensures t.slots[i].Sub? ==> t.slots[i].t < t
  {
    assert t.slots[i] in t.slots;
  }

  lemma SpotLeaving(t: Tree, p: seq<nat>, c: Cursor)
    requires !c.inlineLeaf && Spot(t, p, c.node, c.stack, c.key) && c.nodeChild == -1
    ensures Leaving(t, p, false, c) && NodeAt(t, p, c) && ValidPath(t, p) && c.key == PathLabel(t, p)
  {
  }

  /** At the head there is nothing to go up to, and nothing is left. */
  lemma LeavingHead(st: State, t: Tree, m: Contents, p: seq<nat>, noup: bool, c: Cursor)
    requires Kept(st, t, m) && Ripe(t) && Leaving(t, p, noup, c)
    ensures Meant(t, m) && !c.inlineLeaf
    ensures !noup && c.node == st.head ==> Past(m, c.key) == {} && Smaller(m, c.key) == {}
  {
    hide Arena, Ok, At, Denotes, Hanging;
    KeptOk(st, t, m);
    if !noup {
      SpotNode(st.mem, t, p, c.node, c.stack, c.key);
      NothingPastEmpty(m);
    }
  }

  lemma HangingData(st: State, t: Tree, m: Contents, p: seq<nat>, node: Addr, stack: seq<Addr>, key: seq<Byte>, idx: int)
    requires Kept(st, t, m) && Hanging(t, p, node, stack, key, idx)
    ensures ValidPath(t, p) && node in st.mem && st.mem[node].data == At(t, p).edges && st.mem[node].iscompr == At(t, p).compr
    ensures st.mem[node].iskey == At(t, p).key.Some?
    ensures !At(t, p).compr ==> Sorted(At(t, p).edges) && |At(t, p).slots| == |At(t, p).edges| && key != []
    ensures !At(t, p).compr ==> idx == -1 || (0 <= idx < |At(t, p).edges| && At(t, p).edges[idx] == key[|key| - 1])
  {
    hide Arena, Ok, At, Denotes, ValidPath;
    KeptOk(st, t, m);
    HangingNode(st.mem, t, p, node, stack, key, idx);
    NodeRecord(st.mem, t, p);
  }

  lemma HangingNext(t: Tree, m: Contents, p: seq<nat>, node: Addr, stack: seq<Addr>, key: seq<Byte>, idx: int, i: nat)
    requires Meant(t, m) && Hanging(t, p, node, stack, key, idx) && !At(t, p).compr && key != []
    requires i <= |At(t, p).edges| && (forall k :: 0 <= k < i ==> At(t, p).edges[k] <= key[|key| - 1])
    requires i < |At(t, p).edges| ==> key[|key| - 1] < At(t, p).edges[i]
    ensures if i == |At(t, p).edges| then Past(m, key) == Past(m, PathLabel(t, p))
            else var e := Edge(t, p, i); if e in m then Least(Past(m, key), e) else Past(m, key) == Greater(m, e)
  {
    hide Ok, At, ValidPath, Denotes, Ripe, Past, Greater, Least;
    var c := key[|key| - 1];
    assert key == PathLabel(t, p) + [c];
    GoAcross(t, m, p, c, i);
  }

  /** No slot to the right: all below the node is done. */
  lemma HangingAlone(t: Tree, m: Contents, p: seq<nat>, node: Addr, stack: seq<Addr>, key: seq<Byte>, idx: int)
    requires Meant(t, m) && Hanging(t, p, node, stack, key, idx) && key != []
    requires At(t, p).compr || At(t, p).edges == [] || (|At(t, p).edges| == 1 && key[|key| - 1] in At(t, p).edges)
    ensures Past(m, key) == Past(m, PathLabel(t, p))
  {
    hide Ok, At, ValidPath, Denotes, Ripe, Past, Greater, Least;
    if At(t, p).compr {
      LeaveRun(t, m, p);
    } else {
      HangingNext(t, m, p, node, stack, key, idx, |At(t, p).edges|);
    }
  }

  lemma EnteredNext(st: State, t: Tree, m: Contents, p: seq<nat>, i: nat, p': seq<nat>, k: nat, c: Cursor)
    requires Kept(st, t, m) && Ripe(t) && Entered(t, m, p, i, p', k, c)
    ensures ValidPath(t, p) && c.key == Edge(t, p, i)
    ensures c.key in m ==> KeyAt(t, m, p', k, c)
    ensures !c.inlineLeaf ==> c.node in st.mem
    ensures c.key in m <==> c.inlineLeaf || st.mem[c.node].iskey
    ensures c.key !in m ==> NodeAt(t, p', c) && ValidPath(t, p') && At(t, p').slots != []
  {
    hide Arena, Ok, At, Denotes, ValidPath, Ripe, Edge;
    KeptOk(st, t, m);
    if !c.inlineLeaf {
      NodeRecord(st.mem, t, p');
      RipeAt(t, p');
    }
  }

  lemma RetreatFacts(st: State, t: Tree, m: Contents, p: seq<nat>, noup: bool, c: Cursor)
    requires Kept(st, t, m) && Leaving(t, p, noup, c) && (noup || c.node != st.head)
    ensures Arena(st.mem, t) && Ok(t) && c.key != []
    ensures noup ==> Hanging(t, p, c.node, c.stack, c.key, c.nodeChild)
    ensures !noup ==>
      && |c.stack| == |p| > 0
      && Hanging(t, p[..|p| - 1], c.stack[|p| - 1], c.stack[..|p| - 1], c.key, c.nodeChild)
      && var n := At(t, p[..|p| - 1]); !n.compr ==> c.key[|c.key| - 1] in n.edges
  {
    hide Arena, Ok, At, ValidPath, Denotes, Hanging;
    KeptOk(st, t, m);
    if noup {
      HangingNode(st.mem, t, p, c.node, c.stack, c.key, c.nodeChild);
    } else {
      SpotNode(st.mem, t, p, c.node, c.stack, c.key);
      SpotUp(st.mem, t, p, c.node, c.stack, c.key, c.nodeChild);
      HangingNode(st.mem, t, p[..|p| - 1], c.stack[|p| - 1], c.stack[..|p| - 1], c.key, c.nodeChild);
    }
  }

  /** What entering slot `i` of the node at `p` relies on, and gives. */
  lemma EnterFacts(st: State, t: Tree, m: Contents, p: seq<nat>, node: Addr, stack: seq<Addr>, key: seq<Byte>, i: nat)
    requires Kept(st, t, m) && Spot(t, p, node, stack, key) && i < |At(t, p).slots|
    ensures node in st.mem
    ensures var n := st.mem[node];
      && i < |n.slots| && (!n.iscompr ==> i < |n.data|) && |n.leafbitmap| == INLINE_SLOTS
      && key + (if n.iscompr then n.data else [n.data[i]]) == Edge(t, p, i)
      && (IsInlineLeaf(n, i) <==> At(t, p).slots[i].Leaf?) && n.slots[i] == WordOf(At(t, p).slots[i])
    ensures At(t, p).slots[i].Sub? ==> At(t, p).slots[i].t.at in st.mem
  {
    hide Arena, At, ValidPath, Ripe, Denotes, StackOf, Ok;
    KeptOk(st, t, m);
    SpotNode(st.mem, t, p, node, stack, key);
    MirrorsSlots(st.mem[node], At(t, p));
    if At(t, p).slots[i].Sub? {
      SpotDown(st.mem, t, p, node, stack, key, i);
      NodeRecord(st.mem, t, p + [i]);
    }
  }

  lemma EnterLeaf(st: State, t: Tree, m: Contents, p: seq<nat>, node: Addr, stack: seq<Addr>, key: seq<Byte>, i: nat)
    requires Kept(st, t, m) && Ripe(t) && Spot(t, p, node, stack, key) && i < |At(t, p).slots| && At(t, p).slots[i].Leaf?
    ensures Entered(t, m, p, i, p, i, Cursor(true, Edge(t, p, i), node, i, stack, At(t, p).slots[i].v))
  {
    hide Arena, At, ValidPath, Ripe, Denotes, StackOf, Ok;
    KeptOk(st, t, m);
    EdgeKey(t, m, p, i);
  }

  lemma EnterNode(st: State, t: Tree, m: Contents, p: seq<nat>, node: Addr, stack: seq<Addr>, key: seq<Byte>, i: nat, k: nat)
    requires Kept(st, t, m) && Ripe(t) && Spot(t, p, node, stack, key) && i < |At(t, p).slots| && At(t, p).slots[i].Sub?
    ensures var a := At(t, p).slots[i].t.at;
      && a in st.mem
      && var d := if st.mem[a].iskey then GetData(st.mem[a]) else 0;
         Entered(t, m, p, i, p + [i], k, Cursor(false, Edge(t, p, i), a, i, stack + [node], d))
  {
    hide Arena, At, ValidPath, Ripe, Denotes, StackOf, Ok, Edge;
    KeptOk(st, t, m);
    EdgeKey(t, m, p, i);
    SpotDown(st.mem, t, p, node, stack, key, i);
    NodeRecord(st.mem, t, p + [i]);
  }

  // ----- Whole iterations -----

  /** The operators `raxSeek` knows. */
  predicate KnownOp(op: string) {
    op != [] && op[0] in {'>', '<', '=', '^', '$'}
  }

  /** The key that a seek is to find; none if there is no such key. */
  ghost predicate Sought(m: Contents, op: string, ele: seq<Byte>, z: Option<seq<Byte>>)
    requires KnownOp(op)
  {
    var key := if z.Some? then z.value else [];
    if op[0] == '^' then (if z.None? then m.Keys == {} else Least(m.Keys, key))
    else if op[0] == '$' then (if z.None? then m.Keys == {} else Greatest(m.Keys, key))
    else Lands(m, op[0] == '=' || (|op| > 1 && op[1] == '='), op[0] == '<', op[0] == '>', ele, z.None?, key)
  }

  /** The values that belong to keys. */
  ghost predicate Paired(m: Contents, ks: seq<seq<Byte>>, ds: seq<Ptr>) {
    |ds| == |ks| && forall i :: 0 <= i < |ks| ==> ks[i] in m && m[ks[i]] == ds[i]
  }

  ghost function Here(it: RaxIterator): (z: Option<seq<Byte>>)
    requires it.Sound()
    reads it, it.rt
  {
    if it.eof then None else Some(it.Key())
  }

  ghost function Above(m: Contents, z: Option<seq<Byte>>): (w: set<seq<Byte>>) {
    if z.None? then {} else From(m, true, z.value)
  }

  ghost function Beneath(m: Contents, z: Option<seq<Byte>>): (w: set<seq<Byte>>) {
    if z.None? then {} else UpTo(m, true, z.value)
  }

  /** From the key just sought to the last, in order. */
  method Climb(it: RaxIterator) returns (ks: seq<seq<Byte>>, ds: seq<Ptr>)
    requires it.Sound() && it.justSeeked && (!it.eof ==> it.OnKey())
    modifies it
    ensures Rising(ks) && Paired(it.rt.contents, ks, ds) && forall y :: y in ks <==> y in Above(it.rt.contents, old(Here(it)))
  {
    hide Least, Greater, Lands, Climbs, Kept, Ripe, Rising, Less, Upward, KeyAt, From;
    ghost var m, w := it.rt.contents, Above(it.rt.contents, Here(it));
    ClimbStart(m, Here(it), it);
    var more := it.Next();
    ks, ds := [], [];
    while more
      invariant it.Sound() && more == !it.eof && (more ==> it.OnKey() && !it.justSeeked)
      invariant if more then Climbs(m, w, ks + [it.Key()]) else Climbs(m, w, ks)
      invariant !more ==> if ks == [] then w == {} else Greater(m, ks[|ks| - 1]) == {}
      invariant Paired(m, ks, ds)
      decreases more, if more then |Greater(m, it.Key())| else 0
    {
      KeyValue(it);
      ks, ds := ks + [it.keyBuf[..it.keyLen]], ds + [it.data];
      more := it.Next();
      if more { ClimbOn(m, w, ks, it.Key()); }
    }
    AboveUpward(m, old(Here(it)));
    ClimbMeetsAll(m, w, ks);
  }

  /** From the key just sought to the first, in reverse order. */
  method Sink(it: RaxIterator) returns (ks: seq<seq<Byte>>, ds: seq<Ptr>)
    requires it.Sound() && it.justSeeked && (!it.eof ==> it.OnKey())
    modifies it
    ensures Falling(ks) && Paired(it.rt.contents, ks, ds) && forall y :: y in ks <==> y in Beneath(it.rt.contents, old(Here(it)))
  {
    hide Greatest, Smaller, Lands, Sinks, Kept, Ripe, Falling, Less, Downward, KeyAt, UpTo;
    ghost var m, w := it.rt.contents, Beneath(it.rt.contents, Here(it));
    SinkStart(m, Here(it), it);
    var more := it.Prev();
    ks, ds := [], [];
    while more
      invariant it.Sound() && more == !it.eof && (more ==> it.OnKey() && !it.justSeeked)
      invariant if more then Sinks(m, w, ks + [it.Key()]) else Sinks(m, w, ks)
      invariant !more ==> if ks == [] then w == {} else Smaller(m, ks[|ks| - 1]) == {}
      invariant Paired(m, ks, ds)
      decreases more, if more then |Smaller(m, it.Key())| else 0
    {
      KeyValue(it);
      ks, ds := ks + [it.keyBuf[..it.keyLen]], ds + [it.data];
      more := it.Prev();
      if more { SinkOn(m, w, ks, it.Key()); }
    }
    AboveUpward(m, old(Here(it)));
    SinkMeetsAll(m, w, ks);
  }

  /** Seek, then go on to the end: every key from the sought one on, with its
      value, once and in order. */
  method Forward(it: RaxIterator, op: string, ele: seq<Byte>) returns (ok: bool, ks: seq<seq<Byte>>, ds: seq<Ptr>, ghost z: Option<seq<Byte>>)
    requires it.Sound()
    modifies it
    ensures ok <==> KnownOp(op)
    ensures ok ==> Sought(it.rt.contents, op, ele, z) && Rising(ks) && Paired(it.rt.contents, ks, ds)
    ensures ok ==> forall y :: y in ks <==> z.Some? && y in it.rt.contents && (y == z.value || Less(z.value, y))
    ensures ok && op[0] == '^' ==> forall y :: y in ks <==> y in it.rt.contents
    ensures ok && op[0] == '>' ==> forall y :: y in ks <==> y in it.rt.contents && (Less(ele, y) || (y == ele && |op| > 1 && op[1] == '='))
  {
    hide Kept, Ripe, Less, KeyAt, Lands, Rising, Least, Greatest, Paired;
    ks, ds, z := [], [], None;
    ok := it.Seek(op, ele);
    if ok {
      z := Here(it);
      if it.eof && op[0] in {'>', '<', '='} { NothingLands(it.rt.contents, op, ele, it.Key()); }
      assert Sought(it.rt.contents, op, ele, z);
      ks, ds := Climb(it);
      ClimbsAll(it.rt.contents, op, ele, z);
    }
  }

  /** The same downwards. */
  method Backward(it: RaxIterator, op: string, ele: seq<Byte>) returns (ok: bool, ks: seq<seq<Byte>>, ds: seq<Ptr>, ghost z: Option<seq<Byte>>)
    requires it.Sound()
    modifies it
    ensures ok <==> KnownOp(op)
    ensures ok ==> Sought(it.rt.contents, op, ele, z) && Falling(ks) && Paired(it.rt.contents, ks, ds)
    ensures ok ==> forall y :: y in ks <==> z.Some? && y in it.rt.contents && (y == z.value || Less(y, z.value))
    ensures ok && op[0] == '$' ==> forall y :: y in ks <==> y in it.rt.contents
    ensures ok && op[0] == '<' ==> forall y :: y in ks <==> y in it.rt.contents && (Less(y, ele) || (y == ele && |op| > 1 && op[1] == '='))
  {
    hide Kept, Ripe, Less, KeyAt, Lands, Falling, Least, Greatest, Paired;
    ks, ds, z := [], [], None;
    ok := it.Seek(op, ele);
    if ok {
      z := Here(it);
      if it.eof && op[0] in {'>', '<', '='} { NothingLands(it.rt.contents, op, ele, it.Key()); }
      assert Sought(it.rt.contents, op, ele, z);
      ks, ds := Sink(it);
      SinksAll(it.rt.contents, op, ele, z);
    }
  }

  /** A seek that finds nothing stands nowhere. */
  lemma NothingLands(m: Contents, op: string, ele: seq<Byte>, key: seq<Byte>)
    requires KnownOp(op)
    ensures var eq := op[0] == '=' || (|op| > 1 && op[1] == '=');
      Lands(m, eq, op[0] == '<', op[0] == '>', ele, true, key) ==> Lands(m, eq, op[0] == '<', op[0] == '>', ele, true, [])
  {
  }

  lemma ClimbsAll(m: Contents, op: string, ele: seq<Byte>, z: Option<seq<Byte>>)
    requires KnownOp(op) && Sought(m, op, ele, z)
    ensures op[0] == '^' ==> Above(m, z) == m.Keys
    ensures op[0] == '>' ==> Above(m, z) == From(m, |op| > 1 && op[1] == '=', ele)
  {
    hide Less;
    if z.Some? && op[0] == '>' {
      forall y | y in Above(m, z) ensures y in From(m, |op| > 1 && op[1] == '=', ele) { if y != z.value && z.value != ele { LessTransitive(ele, z.value, y); } }
    }
  }

  lemma SinksAll(m: Contents, op: string, ele: seq<Byte>, z: Option<seq<Byte>>)
    requires KnownOp(op) && Sought(m, op, ele, z)
    ensures op[0] == '$' ==> Beneath(m, z) == m.Keys
    ensures op[0] == '<' ==> Beneath(m, z) == UpTo(m, |op| > 1 && op[1] == '=', ele)
  {
    hide Less;
    if z.Some? && op[0] == '<' {
      forall y | y in Beneath(m, z) ensures y in UpTo(m, |op| > 1 && op[1] == '=', ele) { if y != z.value && z.value != ele { LessTransitive(y, z.value, ele); } }
    }
  }

  lemma KeyValue(it: RaxIterator)
    requires it.OnKey()
    ensures it.Key() in it.rt.contents && it.rt.contents[it.Key()] == it.data
  {
  }

  lemma AboveUpward(m: Contents, z: Option<seq<Byte>>)
    ensures Upward(m, Above(m, z)) && Downward(m, Beneath(m, z))
  {
    if z.Some? { FromUpward(m, true, z.value); }
  }

  lemma ClimbStart(m: Contents, z: Option<seq<Byte>>, it: RaxIterator)
    requires it.Sound() && z == Here(it) && m == it.rt.contents && (!it.eof ==> it.OnKey())
    ensures Climbs(m, Above(m, z), []) && (z.Some? ==> Climbs(m, Above(m, z), [] + [z.value]))
  {
    if z.Some? { KeyValue(it); }
  }

  lemma SinkStart(m: Contents, z: Option<seq<Byte>>, it: RaxIterator)
    requires it.Sound() && z == Here(it) && m == it.rt.contents && (!it.eof ==> it.OnKey())
    ensures Sinks(m, Beneath(m, z), []) && (z.Some? ==> Sinks(m, Beneath(m, z), [] + [z.value]))
  {
    if z.Some? { KeyValue(it); }
  }

  lemma ClimbOn(m: Contents, w: set<seq<Byte>>, ks: seq<seq<Byte>>, z: seq<Byte>)
    requires Climbs(m, w, ks) && ks != [] && Least(Greater(m, ks[|ks| - 1]), z)
    ensures Climbs(m, w, ks + [z])
    ensures |Greater(m, z)| < |Greater(m, ks[|ks| - 1])|
  {
    hide Less;
    var a, b := Greater(m, z), Greater(m, ks[|ks| - 1]);
    forall y | y in a ensures y in b { LessTransitive(ks[|ks| - 1], z, y); }
    if z in a { LessApart(z, z); }
    SmallerSet(a, b, z);
  }

  lemma SinkOn(m: Contents, w: set<seq<Byte>>, ks: seq<seq<Byte>>, z: seq<Byte>)
    requires Sinks(m, w, ks) && ks != [] && Greatest(Smaller(m, ks[|ks| - 1]), z)
    ensures Sinks(m, w, ks + [z])
    ensures |Smaller(m, z)| < |Smaller(m, ks[|ks| - 1])|
  {
    hide Less;
    var a, b := Smaller(m, z), Smaller(m, ks[|ks| - 1]);
    forall y | y in a ensures y in b { LessTransitive(y, z, ks[|ks| - 1]); }
    if z in a { LessApart(z, z); }
    SmallerSet(a, b, z);
  }

  lemma SmallerSet(a: set<seq<Byte>>, b: set<seq<Byte>>, z: seq<Byte>)
    requires a <= b && z in b && z !in a
    ensures |a| < |b|
  {
    assert |b - a| > 0;
    assert b == a + (b - a);
  }
}
