/** Joining a chain of one-slot nodes into one node after a removal. */
module RaxJoin {
  import opened RaxTree
  import opened RaxMemory
  import opened RaxEdit
  import opened RaxGrow
  import opened RaxWalk
  import opened RaxInsertion
  import opened RaxShrink
  import opened RaxRemoval

  /** The highest node from which joinable nodes lead down to the one at `q`. */
  ghost function Top(t: Tree, q: seq<nat>): (r: seq<nat>)
    requires ValidPath(t, q)
    ensures ValidPath(t, r)
    decreases |q|
  {
    if q == [] then []
    else
      PathPrefix(t, q);
      if Joinable(At(t, q[..|q| - 1])) then Top(t, q[..|q| - 1]) else q
  }

  /** The record of a node tells whether it can be joined. */
  lemma JoinableRecord(n: RaxNode, t: Tree)
    requires Mirrors(n, t) && NodeOk(t)
    ensures Joinable(t) <==> !n.iskey && (n.iscompr || |n.data| == 1)
    ensures Joinable(t) ==> |n.slots| == 1 && |n.leafbitmap| == INLINE_SLOTS && n.slots[0] == WordOf(t.slots[0])
    ensures Joinable(t) ==> n.data == t.edges && n.data != [] && (IsInlineLeaf(n, 0) <==> t.slots[0].Leaf?)
  {
  }

  // ----- The second scan -----

  /** The chain from the node at `r` is being copied and freed; `c` is where the
      scan stands, `copied` what it has. */
  ghost predicate Joining(st: State, base: Memory, t: Tree, m: Contents, r: seq<nat>, c: Tree, copied: seq<Byte>) {
    && Kept(st.(mem := base, numnodes := |base|), t, m) && Ripe(t)
    && ValidPath(t, r) && Joinable(At(t, r))
    && copied + RunLabel(c) == RunLabel(At(t, r)) && RunEnd(c) == RunEnd(At(t, r))
    && Stored(base, c) && Separate(c) && Ok(c)
    && RunAddrs(c) <= RunAddrs(At(t, r)) <= base.Keys
    && st.mem == base - (RunAddrs(At(t, r)) - RunAddrs(c))
    && st.numnodes == |st.mem|
  }

  lemma JoinStart(st: State, t: Tree, m: Contents, r: seq<nat>)
    requires Kept(st, t, m) && Ripe(t) && ValidPath(t, r) && Joinable(At(t, r))
    ensures Joining(st, st.mem, t, m, r, At(t, r), [])
  {
    hide Stored, Separate, Addrs, Mirrors, Denotes, RunLabel, RunEnd, RunAddrs;
    var s := At(t, r);
    StoredAt(st.mem, t, r);
    StoredIn(st.mem, s);
    RunCount(st.mem, s);
    OkAt(t, r);
    assert [] + RunLabel(s) == RunLabel(s);
    assert st.mem - {} == st.mem;
  }

  lemma JoinNode(st: State, base: Memory, t: Tree, m: Contents, r: seq<nat>, c: Tree, copied: seq<Byte>)
    requires Joining(st, base, t, m, r, c, copied) && Joinable(c)
    ensures c.at in base && c.at in st.mem && st.mem[c.at] == base[c.at] && Mirrors(st.mem[c.at], c) && NodeOk(c)
    ensures st.numnodes > 0
  {
    assert c.at in RunAddrs(c);
    assert c.at in st.mem.Keys && |st.mem| == |st.mem.Keys|;
  }

  lemma RunSplit(c: Tree)
    requires Joinable(c)
    ensures c.slots[0].Leaf? ==> RunLabel(c) == c.edges && RunEnd(c) == c.slots[0] && RunAddrs(c) == {c.at}
    ensures c.slots[0].Sub? ==> RunLabel(c) == c.edges + RunLabel(c.slots[0].t)
    ensures c.slots[0].Sub? ==> RunEnd(c) == RunEnd(c.slots[0].t) && RunAddrs(c) == {c.at} + RunAddrs(c.slots[0].t)
    ensures c.slots[0].Sub? && !Joinable(c.slots[0].t) ==> RunEnd(c) == c.slots[0] && RunLabel(c) == c.edges && RunAddrs(c) == {c.at}
  {
  }

  lemma FreeRun(base: Memory, all: set<Addr>, rest: set<Addr>, a: Addr, rest': set<Addr>)
    requires rest <= all <= base.Keys && a in rest && rest == {a} + rest' && a !in rest'
    ensures base - (all - rest) - {a} == base - (all - rest')
    ensures |base - (all - rest) - {a}| == |base - (all - rest)| - 1
  {
    var mem := base - (all - rest);
    assert a in mem;
    FreeOne(mem, a);
  }

  lemma OkChild(c: Tree)
    requires Ok(c) && OneSlot(c) && c.slots[0].Sub?
    ensures Ok(c.slots[0].t)
  {
  }

  lemma JoinStep(st: State, base: Memory, t: Tree, m: Contents, r: seq<nat>, c: Tree, copied: seq<Byte>)
    requires Joining(st, base, t, m, r, c, copied) && Joinable(c) && c.slots[0].Sub?
    ensures st.numnodes > 0
    ensures Joining(st.(mem := st.mem - {c.at}, numnodes := st.numnodes - 1), base, t, m, r, c.slots[0].t, copied + c.edges)
  {
    hide Kept, Stored, Separate, Addrs, RunLabel, RunEnd, RunAddrs, Mirrors, At, ValidPath, Ripe, Ok;
    var d := c.slots[0].t;
    OkChild(c);
    JoinNode(st, base, t, m, r, c, copied);
    RunSplit(c);
    OnlyChildStored(base, c);
    OneSlotAddrs(c);
    RunCount(base, d);
    FreeRun(base, RunAddrs(At(t, r)), RunAddrs(c), c.at, RunAddrs(d));
    Assoc(copied, c.edges, RunLabel(d));
  }

  lemma Assoc(a: seq<Byte>, b: seq<Byte>, c: seq<Byte>)
    ensures a + (b + c) == a + b + c
  {
  }

  /** The scan has reached the end of the chain. */
  ghost predicate Joined(st: State, base: Memory, t: Tree, m: Contents, r: seq<nat>, label': seq<Byte>, word: Word, leaf: bool) {
    && Kept(st.(mem := base, numnodes := |base|), t, m) && Ripe(t)
    && ValidPath(t, r) && Joinable(At(t, r))
    && label' == RunLabel(At(t, r)) && word == WordOf(RunEnd(At(t, r))) && leaf == RunEnd(At(t, r)).Leaf?
    && st.mem == base - RunAddrs(At(t, r))
    && st.numnodes == |st.mem|
  }

  lemma JoinLast(st: State, base: Memory, t: Tree, m: Contents, r: seq<nat>, c: Tree, copied: seq<Byte>)
    requires Joining(st, base, t, m, r, c, copied) && Joinable(c)
    requires c.slots[0].Leaf? || !Joinable(c.slots[0].t)
    ensures st.numnodes > 0
    ensures Joined(st.(mem := st.mem - {c.at}, numnodes := st.numnodes - 1), base, t, m, r, copied + c.edges,
                   WordOf(c.slots[0]), c.slots[0].Leaf?)
  {
    hide Kept, Stored, Separate, Addrs, RunLabel, RunEnd, RunAddrs, Mirrors;
    JoinNode(st, base, t, m, r, c, copied);
    RunSplit(c);
    FreeRun(base, RunAddrs(At(t, r)), RunAddrs(c), c.at, {});
    assert RunAddrs(At(t, r)) - {} == RunAddrs(At(t, r));
  }

  // ----- Putting the new node in place -----

  function AfterFree(st: State, a: Addr): (r: State)
    requires st.numnodes > 0
  {
    st.(mem := st.mem - {a}, numnodes := st.numnodes - 1)
  }

  function JoinedRecord(bytes: seq<Byte>, word: Word, leaf: bool): (n: RaxNode) {
    RaxNode(false, false, 0, true, if leaf then FIRST_LEAF else NO_LEAVES, bytes, [word])
  }

  function MemoryAfterJoin(mem: Memory, a: Addr, bytes: seq<Byte>, word: Word, leaf: bool, l: Link): (r: Memory) {
    WriteLink(mem[a := JoinedRecord(bytes, word, leaf)], l, a)
  }

  function AfterJoin(st: State, bytes: seq<Byte>, word: Word, leaf: bool, l: Link): (r: State) {
    State(MemoryAfterJoin(st.mem, st.brk, bytes, word, leaf, l),
          if l.HeadLink? then st.brk else st.head, st.brk + 1, st.numele, st.numnodes + 1)
  }

  lemma JoinedMirrors(t: Tree, a: Addr)
    requires Joinable(t)
    ensures Mirrors(JoinedRecord(RunLabel(t), WordOf(RunEnd(t)), RunEnd(t).Leaf?), Merged(t, a))
  {
  }

  lemma MergedStored(mem: Memory, t: Tree, a: Addr)
    requires Joinable(t) && a in mem && mem[a] == JoinedRecord(RunLabel(t), WordOf(RunEnd(t)), RunEnd(t).Leaf?)
    requires RunEnd(t).Sub? ==> Stored(mem, RunEnd(t).t) && Separate(RunEnd(t).t)
    requires a !in SlotAddrs(RunEnd(t))
    ensures Stored(mem, Merged(t, a)) && Separate(Merged(t, a)) && Addrs(Merged(t, a)) == {a} + SlotAddrs(RunEnd(t))
  {
    JoinedMirrors(t, a);
    var u := Merged(t, a);
    AddrsSplit(u, 0);
    assert Others(u, 0) == {};
  }

  lemma JoinMemory(base: Memory, mem': Memory, t: Tree, r: seq<nat>, a: Addr)
    requires Arena(base, t) && ValidPath(t, r) && Joinable(At(t, r)) && 2 <= |RunLabel(At(t, r))| <= NODE_MAX_SIZE
    requires a !in base
    requires var s := At(t, r);
             mem' == MemoryAfterJoin(base - RunAddrs(s), a, RunLabel(s), WordOf(RunEnd(s)), RunEnd(s).Leaf?, LinkOf(t, r))
    ensures Arena(mem', Replace(t, r, Merged(At(t, r), a)))
    ensures mem'.Keys == base.Keys - RunAddrs(At(t, r)) + {a}
  {
    hide Stored, Separate, Addrs, Mirrors, LinkOf, Linked, Replace, RunLabel, RunEnd, RunAddrs, Merged, JoinedRecord;
    var s := At(t, r);
    var u := Merged(s, a);
    StoredAt(base, t, r);
    OkAt(t, r);
    StoredIn(base, t);
    RunStored(base, s);
    LinkTarget(base, t, r);
    LinkedWrite(base, t, r, a);
    JoinMaps(base, mem', RunAddrs(s), LinkOf(t, r), a, JoinedRecord(RunLabel(s), WordOf(RunEnd(s)), RunEnd(s).Leaf?), Outside(t, r), SlotAddrs(RunEnd(s)));
    if RunEnd(s).Sub? { StoredFrame(base, mem', RunEnd(s).t); }
    MergedStored(mem', s, a);
    MergedOk(s, a);
    Commit(base, mem', t, r, u);
  }

  lemma MergedOk(s: Tree, a: Addr)
    requires Ok(s) && Joinable(s) && 2 <= |RunLabel(s)| <= NODE_MAX_SIZE
    ensures Ok(Merged(s, a)) && Merged(s, a).at == a
    ensures Ripe(s) ==> Ripe(Merged(s, a))
    ensures Useful(Merged(s, a))
  {
    RunOk(s);
  }

  lemma JoinMaps(base: Memory, mem': Memory, run: set<Addr>, l: Link, a: Addr, n: RaxNode, outside: set<Addr>, inside: set<Addr>)
    requires l.SlotLink? ==> l.parent in base && l.idx < |base[l.parent].slots| && l.parent in outside
    requires outside <= base.Keys && inside <= base.Keys && run <= base.Keys
    requires outside !! run && inside !! run && outside !! inside && a !in base
    requires mem' == WriteLink((base - run)[a := n], l, a)
    ensures Agree(WriteLink(base, l, a), mem', outside)
    ensures Agree(base, mem', inside)
    ensures mem'.Keys == base.Keys - run + {a}
    ensures a in mem' && mem'[a] == n
  {
  }

  lemma JoinMeaning(t: Tree, r: seq<nat>, a: Addr, m: Contents)
    requires Ok(t) && Ripe(t) && Denotes(t, m) && ValidPath(t, r)
    requires Joinable(At(t, r)) && 2 <= |RunLabel(At(t, r))| <= NODE_MAX_SIZE
    ensures var t' := Replace(t, r, Merged(At(t, r), a));
            Ripe(t') && Denotes(t', m) && t'.at == if r == [] then a else t.at
  {
    hide Lookup, Denotes, Replace, RunLabel, Merged;
    var s := At(t, r);
    var u := Merged(s, a);
    OkAt(t, r);
    MergedOk(s, a);
    forall x ensures Lookup(u, x) == Lookup(s, x) { LookupMerged(s, a, x); }
    DenotesSame(t, r, u, m);
    RipeReplace(t, r, u);
    ReplaceRoot(t, r, u);
  }

  lemma JoinedTree(base: Memory, t: Tree, m: Contents, r: seq<nat>, a: Addr) returns (t': Tree, mem': Memory)
    requires Arena(base, t) && Ok(t) && Ripe(t) && Denotes(t, m) && ValidPath(t, r) && a !in base
    requires Joinable(At(t, r)) && 2 <= |RunLabel(At(t, r))| <= NODE_MAX_SIZE
    ensures Arena(mem', t') && Ripe(t') && Denotes(t', m)
    ensures t'.at == if LinkOf(t, r).HeadLink? then a else t.at
    ensures var s := At(t, r);
            mem' == MemoryAfterJoin(base - RunAddrs(s), a, RunLabel(s), WordOf(RunEnd(s)), RunEnd(s).Leaf?, LinkOf(t, r))
    ensures mem'.Keys == base.Keys - RunAddrs(At(t, r)) + {a}
  {
    hide Arena, Ok, Denotes, LinkOf, Replace, RunLabel, RunEnd, RunAddrs, Merged, MemoryAfterJoin, Ripe, At, ValidPath, Joinable;
    var s := At(t, r);
    mem' := MemoryAfterJoin(base - RunAddrs(s), a, RunLabel(s), WordOf(RunEnd(s)), RunEnd(s).Leaf?, LinkOf(t, r));
    t' := Replace(t, r, Merged(s, a));
    JoinMemory(base, mem', t, r, a);
    JoinMeaning(t, r, a, m);
    LinkTarget(base, t, r);
  }

  lemma JoinDone(st: State, base: Memory, t: Tree, m: Contents, r: seq<nat>, bytes: seq<Byte>, word: Word, leaf: bool) returns (t': Tree)
    requires Joined(st, base, t, m, r, bytes, word, leaf) && 2 <= |bytes| <= NODE_MAX_SIZE
    ensures Kept(AfterJoin(st, bytes, word, leaf, LinkOf(t, r)), t', m) && Ripe(t')
  {
    hide Arena, Ok, Denotes, LinkOf, RunLabel, RunEnd, RunAddrs, MemoryAfterJoin, Ripe, At, ValidPath, Joinable;
    KeptOk(st.(mem := base, numnodes := |base|), t, m);
    var mem';
    t', mem' := JoinedTree(base, t, m, r, st.brk);
    JoinCount(base, st.mem, mem', RunAddrs(At(t, r)), st.brk);
  }

  lemma JoinCount(base: Memory, mem: Memory, mem': Memory, run: set<Addr>, a: Addr)
    requires mem == base - run && mem'.Keys == base.Keys - run + {a} && a !in base
    requires forall x :: x in base ==> x < a
    ensures |mem'| == |mem| + 1
    ensures forall x :: x in mem' ==> x < a + 1
  {
    assert mem'.Keys == mem.Keys + {a} && a !in mem.Keys;
    assert |mem'| == |mem'.Keys| && |mem| == |mem.Keys|;
  }

  // ----- The way up and the first scan -----

  /** What the top of the stack says about the parent. */
  lemma UpStep(st: State, t: Tree, m: Contents, q: seq<nat>, ts: seq<Addr>)
    requires Kept(st, t, m) && ValidPath(t, q) && StackOf(t, q, ts)
    ensures ts == [] <==> q == []
    ensures q != [] ==>
      && ValidPath(t, q[..|q| - 1]) && StackOf(t, q[..|q| - 1], ts[..|ts| - 1])
      && ts[|ts| - 1] in st.mem && ts[|ts| - 1] == At(t, q[..|q| - 1]).at
      && var n := st.mem[ts[|ts| - 1]];
         (Joinable(At(t, q[..|q| - 1])) <==> !n.iskey && (n.iscompr || |n.data| == 1))
  {
    hide Arena, At, ValidPath, Denotes, Ok, StackOf;
    StackSize(t, q, ts);
    if q != [] {
      KeptOk(st, t, m);
      StackPop(t, q, ts);
      var p := q[..|q| - 1];
      NodeRecord(st.mem, t, p);
      OkNode(At(t, p));
      JoinableRecord(st.mem[At(t, p).at], At(t, p));
    }
  }

  lemma StackSize(t: Tree, q: seq<nat>, ts: seq<Addr>)
    requires ValidPath(t, q) && StackOf(t, q, ts)
    ensures |ts| == |q|
  {
  }

  /** A joinable node whose subtree is in memory, as a scan sees it. */
  ghost predicate Chained(mem: Memory, c: Tree) {
    Stored(mem, c) && Ok(c) && Joinable(c)
  }

  lemma ChainedStart(st: State, t: Tree, m: Contents, q: seq<nat>)
    requires Kept(st, t, m) && ValidPath(t, q) && Joinable(At(t, q))
    ensures Chained(st.mem, At(t, q))
  {
    hide Stored, Separate, Addrs, Mirrors, Denotes;
    StoredAt(st.mem, t, q);
    OkAt(t, q);
  }

  lemma ChainedChild(mem: Memory, c: Tree)
    requires Chained(mem, c)
    ensures c.at in mem && Mirrors(mem[c.at], c) && NodeOk(c)
    ensures c.slots[0].Sub? ==> var d := c.slots[0].t; Stored(mem, d) && Ok(d) && d.at in mem && Mirrors(mem[d.at], d) && NodeOk(d)
  {
    hide Mirrors;
    if c.slots[0].Sub? { assert Stored(mem, c.slots[0].t) && Ok(c.slots[0].t); }
  }

  lemma ChainedRecord(mem: Memory, c: Tree)
    requires Chained(mem, c)
    ensures Joinable(c) && |c.slots| == 1 && c.at in mem && |mem[c.at].slots| == 1 && |mem[c.at].leafbitmap| == INLINE_SLOTS
    ensures mem[c.at].data == c.edges && c.edges != [] && (IsInlineLeaf(mem[c.at], 0) <==> c.slots[0].Leaf?)
    ensures mem[c.at].slots[0] == WordOf(c.slots[0])
    ensures c.slots[0].Sub? ==>
      && var d := c.slots[0].t;
      && d.at in mem && mem[d.at].data == d.edges
      && (Joinable(d) <==> !mem[d.at].iskey && (mem[d.at].iscompr || |mem[d.at].data| == 1))
      && (Joinable(d) ==> Chained(mem, d))
  {
    hide Stored, Ok;
    ChainedChild(mem, c);
    JoinableRecord(mem[c.at], c);
    if c.slots[0].Sub? { JoinableRecord(mem[c.slots[0].t.at], c.slots[0].t); }
  }

  // ----- Where the new node hangs -----

  lemma RunInside(mem: Memory, t: Tree)
    requires Stored(mem, t) && Separate(t)
    ensures RunAddrs(t) <= Addrs(t)
  {
    RunCount(mem, t);
  }

  lemma ParentSlot(st: State, base: Memory, t: Tree, m: Contents, r: seq<nat>, bytes: seq<Byte>, word: Word, leaf: bool) returns (k: nat)
    requires Joined(st, base, t, m, r, bytes, word, leaf) && r != []
    ensures ValidPath(t, r[..|r| - 1])
    ensures var a := At(t, r[..|r| - 1]).at;
      && a in st.mem && k < |st.mem[a].slots| && st.mem[a].slots[k] == Ref(At(t, r).at)
      && (forall i :: 0 <= i < |st.mem[a].slots| && st.mem[a].slots[i] == Ref(At(t, r).at) ==> i == k)
      && LinkOf(t, r) == SlotLink(a, k)
  {
    hide Stored, Separate, Addrs, Denotes, RunLabel, RunEnd, RunAddrs, Joinable, Ripe, Ok;
    var q := r[..|r| - 1];
    k := r[|r| - 1];
    KeptOk(st.(mem := base, numnodes := |base|), t, m);
    PathPrefix(t, r);
    NodeRecord(base, t, q);
    StoredAt(base, t, q);
    StoredAt(base, t, r);
    RunInside(base, At(t, r));
    ChildApart(At(t, q), k);
    forall i | 0 <= i < |base[At(t, q).at].slots| && base[At(t, q).at].slots[i] == Ref(At(t, r).at) ensures i == k {
      FreedChild(base, t, q, k, i);
    }
  }

  lemma JoinSizes(st: State, base: Memory, t: Tree, m: Contents, r: seq<nat>, c: Tree, copied: seq<Byte>)
    requires Joining(st, base, t, m, r, c, copied) && Joinable(c)
    ensures |copied| + |c.edges| <= |RunLabel(At(t, r))|
  {
    RunLonger(c);
  }

  /** What the scan finds at the node where it stands, and after it. */
  lemma JoinNext(st: State, base: Memory, t: Tree, m: Contents, r: seq<nat>, c: Tree, copied: seq<Byte>)
    requires Joining(st, base, t, m, r, c, copied) && Joinable(c)
    ensures |c.slots| == 1 && c.at in st.mem
    ensures var n := st.mem[c.at];
      && n.data == c.edges && |n.slots| == 1 && n.slots[0] == WordOf(c.slots[0]) && |n.leafbitmap| == INLINE_SLOTS
      && (IsInlineLeaf(n, 0) <==> c.slots[0].Leaf?)
    ensures c.slots[0].Sub? ==>
      && var d := c.slots[0].t;
      && d.at in st.mem && d.at != c.at
      && (Joinable(d) <==> !st.mem[d.at].iskey && (st.mem[d.at].iscompr || |st.mem[d.at].data| == 1))
  {
    hide Kept, Stored, Separate, Addrs, RunLabel, RunEnd, RunAddrs, Mirrors, At, ValidPath, Ripe, Ok;
    JoinNode(st, base, t, m, r, c, copied);
    ChainedRecord(base, c);
    if c.slots[0].Sub? {
      NextKept(base, c);
      RunSplit(c);
      EndKept(st, base, t, m, r, c, copied);
    }
  }

  lemma NextKept(base: Memory, c: Tree)
    requires Stored(base, c) && Separate(c) && Joinable(c) && c.slots[0].Sub?
    ensures var d := c.slots[0].t; d.at != c.at && (Joinable(d) ==> d.at in RunAddrs(d))
    ensures var d := c.slots[0].t; !Joinable(d) ==> d.at in SlotAddrs(RunEnd(c))
  {
    hide Stored, Addrs;
    OneSlotAddrs(c);
    RootIn(c.slots[0].t);
  }

  lemma EndKept(st: State, base: Memory, t: Tree, m: Contents, r: seq<nat>, c: Tree, copied: seq<Byte>)
    requires Joining(st, base, t, m, r, c, copied)
    ensures SlotAddrs(RunEnd(c)) !! RunAddrs(At(t, r))
  {
    hide Stored, Separate, Addrs, RunLabel, RunEnd, RunAddrs, Ripe, Ok, Denotes;
    KeptOk(st.(mem := base, numnodes := |base|), t, m);
    StoredAt(base, t, r);
    RunStored(base, At(t, r));
  }

  lemma JoinedSize(st: State, base: Memory, t: Tree, m: Contents, r: seq<nat>, bytes: seq<Byte>, word: Word, leaf: bool)
    requires Joined(st, base, t, m, r, bytes, word, leaf)
    ensures ValidPath(t, r) && bytes == RunLabel(At(t, r))
  {
  }

  /** What the first scan's results say about the chain. */
  lemma RoomEnough(st: State, t: Tree, m: Contents, q: seq<nat>)
    requires Kept(st, t, m) && ValidPath(t, q) && Joinable(At(t, q))
    ensures var s := At(t, q);
      && var room := FitSize(s, |s.edges|);
      && room <= NODE_MAX_SIZE
      && (|RunLabel(s)| > room <==> |RunLabel(s)| > NODE_MAX_SIZE)
      && (Fit(s, |s.edges|) > 0 ==> |RunLabel(s)| >= 2)
      && (Overlong(s) <==> Fit(s, |s.edges|) > 0 && |RunLabel(s)| > NODE_MAX_SIZE)
  {
    hide RunLabel, Fit, FitSize, RunNodes, Stored, Separate, Addrs, Denotes;
    var s := At(t, q);
    OkAt(t, q);
    ScansAgree(s, |s.edges|);
    RunSize(s);
  }

  /** One turn of the second scan. */
  lemma JoinTurn(st: State, base: Memory, t: Tree, m: Contents, r: seq<nat>, c: Tree, copied: seq<Byte>)
    requires Joining(st, base, t, m, r, c, copied) && Joinable(c)
    ensures |c.slots| == 1 && st.numnodes > 0 && ValidPath(t, r)
    ensures |copied| + |c.edges| <= |RunLabel(At(t, r))|
    ensures
      if c.slots[0].Leaf? || !Joinable(c.slots[0].t) then
        && Joined(AfterFree(st, c.at), base, t, m, r, copied + c.edges, WordOf(c.slots[0]), c.slots[0].Leaf?)
        && copied + c.edges == RunLabel(At(t, r))
      else
        Joining(AfterFree(st, c.at), base, t, m, r, c.slots[0].t, copied + c.edges)
  {
    hide Kept, Joined, RunLabel, RunEnd, RunAddrs, At, ValidPath, Ripe, Stored, Separate, Ok;
    JoinSizes(st, base, t, m, r, c, copied);
    if c.slots[0].Leaf? || !Joinable(c.slots[0].t) {
      JoinLast(st, base, t, m, r, c, copied);
      JoinedSize(AfterFree(st, c.at), base, t, m, r, copied + c.edges, WordOf(c.slots[0]), c.slots[0].Leaf?);
    } else {
      JoinStep(st, base, t, m, r, c, copied);
    }
  }

  lemma ShrunkKept(st: State, t: Tree, m: Contents, p: seq<nat>, h: Addr, ts: seq<Addr>)
    requires Shrunk(st, t, m, p, h, ts)
    ensures Kept(st, t, m) && ValidPath(t, p)
  {
  }

  lemma ShrunkSize(n: RaxNode, t: Tree)
    requires Mirrors(n, t) && NodeOk(t)
    ensures |n.data| == 0 <==> t.slots == []
    ensures n.iskey <==> t.key.Some?
    ensures |n.data| == 1 && !n.iskey ==> Joinable(t)
    ensures |n.data| != 0 || n.iskey ==> Useful(t)
  {
  }

  // ----- When the scans agree -----

  /** Something is stored under every useful node. */
  lemma {:induction false} KeyBelow(t: Tree) returns (x: seq<Byte>)
    requires Ok(t) && Ripe(t) && Useful(t)
    ensures Lookup(t, x).Some?
  {
    if t.key.Some? {
      x := [];
    } else {
      var r: seq<Byte> := [];
      if t.slots[0].Sub? { r := KeyBelow(t.slots[0].t); }
      LookupLabel(t, 0, r);
      x := Label(t, 0) + r;
    }
  }

  /** Some key runs through a whole chain. */
  lemma KeyThrough(t: Tree, q: seq<nat>) returns (x: seq<Byte>)
    requires Ok(t) && Ripe(t) && ValidPath(t, q) && Joinable(At(t, q))
    ensures Lookup(t, x).Some? && |x| >= |RunLabel(At(t, q))|
  {
    hide Lookup, RunLabel, RunEnd;
    var s := At(t, q);
    OkAt(t, q);
    RipeAt(t, q);
    RunOk(s);
    RunLonger(s);
    var r: seq<Byte> := [];
    if RunEnd(s).Sub? { r := KeyBelow(RunEnd(s).t); }
    LookupRun(s, RunLabel(s) + r);
    assert (RunLabel(s) + r)[|RunLabel(s)|..] == r;
    LookupAt(t, q, RunLabel(s) + r);
    x := PathLabel(t, q) + (RunLabel(s) + r);
  }

  /** While no key is longer than a node, joining never overruns. */
  lemma ShortKeysFit(t: Tree, m: Contents, q: seq<nat>)
    requires Ok(t) && Ripe(t) && ValidPath(t, q) && Denotes(t, m)
    requires forall x :: x in m ==> |x| <= NODE_MAX_SIZE
    ensures !Overlong(At(t, q))
  {
    hide Lookup, RunLabel, RunEnd, Fit;
    if Joinable(At(t, q)) {
      var x := KeyThrough(t, q);
      DenotesAt(t, m, x);
    }
  }
}
