/** Walking the tree along a string: where the walk stops, and what that says
    about the string. */
module RaxWalk {
  import opened RaxTree
  import opened RaxMemory
  import opened RaxEdit
  import opened RaxGrow

  /** Where the address of a node is stored. */
  datatype Link = HeadLink | SlotLink(parent: Addr, idx: nat)

  /** Where a walk along a string stops. */
  datatype Stop = Stop(i: nat, h: Addr, plink: Link, splitpos: nat, stack: seq<Addr>, inlineLeaf: bool)

  /** The addresses of the nodes above the one at `p`, root first. */
  ghost predicate StackOf(t: Tree, p: seq<nat>, ts: seq<Addr>)
    requires ValidPath(t, p)
  {
    && |ts| == |p|
    && forall k :: 0 <= k < |p| ==> ValidPath(t, p[..k]) && ts[k] == At(t, p[..k]).at
  }

  ghost function LinkOf(t: Tree, p: seq<nat>): (l: Link)
    requires ValidPath(t, p)
  {
    if p == [] then HeadLink
    else
      PathPrefix(t, p);
      SlotLink(At(t, p[..|p| - 1]).at, p[|p| - 1])
  }

  /** What a stopped walk says about the string: the node it stopped in, how much
      of the string leads there, and why it went no further. */
  ghost predicate Stopped(t: Tree, s: seq<Byte>, w: Stop, p: seq<nat>) {
    && ValidPath(t, p)
    && StackOf(t, p, w.stack)
    && w.h == At(t, p).at
    && w.i <= |s|
    && var n := At(t, p);
       if w.inlineLeaf then
         && w.plink.SlotLink? && w.plink.parent == w.h
         && w.plink.idx < |n.slots| && n.slots[w.plink.idx].Leaf?
         && s[..w.i] == PathLabel(t, p) + Label(n, w.plink.idx)
       else
         && w.plink == LinkOf(t, p)
         && (if n.compr then
               && w.splitpos < |n.edges|
               && s[..w.i] == PathLabel(t, p) + n.edges[..w.splitpos]
               && (w.i < |s| ==> s[w.i] != n.edges[w.splitpos])
             else
               && w.splitpos == 0
               && s[..w.i] == PathLabel(t, p)
               && (w.i < |s| ==> s[w.i] !in n.edges))
  }

  /** The value a stopped walk stands on, if it stands on a key. */
  ghost function Landed(t: Tree, s: seq<Byte>, w: Stop, p: seq<nat>): (r: Option<Ptr>)
    requires Stopped(t, s, w, p)
  {
    if w.i != |s| then None
    else if w.inlineLeaf then Some(At(t, p).slots[w.plink.idx].v)
    else if w.splitpos != 0 then None
    else At(t, p).key
  }

  lemma StoppedInside(t: Tree, s: seq<Byte>, w: Stop, p: seq<nat>)
    requires Ok(t) && Stopped(t, s, w, p)
    ensures PathLabel(t, p) <= s[..w.i] <= s
    ensures Lookup(t, s) == Lookup(At(t, p), s[|PathLabel(t, p)|..])
    ensures var r := s[|PathLabel(t, p)|..];
            r[..w.i - |PathLabel(t, p)|] == s[|PathLabel(t, p)|..w.i] && (w.i < |s| ==> r[w.i - |PathLabel(t, p)|] == s[w.i])
  {
    hide Lookup;
    var l := PathLabel(t, p);
    assert l <= s[..w.i] <= s;
    assert s == l + s[|l|..];
    LookupAt(t, p, s[|l|..]);
  }

  lemma LandedLeaf(n: Tree, k: nat, r: seq<Byte>)
    requires NodeOk(n) && k < |n.slots| && n.slots[k].Leaf? && Label(n, k) <= r
    ensures Lookup(n, r) == if r == Label(n, k) then Some(n.slots[k].v) else None
  {
    var b := Label(n, k);
    assert r == b + r[|b|..];
    LookupLabel(n, k, r[|b|..]);
  }

  lemma LandedCompressed(n: Tree, j: nat, r: seq<Byte>)
    requires NodeOk(n) && n.compr && j < |n.edges|
    requires j <= |r| && r[..j] == n.edges[..j] && (j < |r| ==> r[j] != n.edges[j])
    ensures Lookup(n, r) == if r == [] then n.key else None
  {
    LookupOneSlot(n, r);
  }

  lemma LandedMissing(n: Tree, r: seq<Byte>)
    requires NodeOk(n) && !n.compr && (r != [] ==> r[0] !in n.edges)
    ensures Lookup(n, r) == if r == [] then n.key else None
  {
  }

  /** A walk stops on a key exactly when the string is one. */
  lemma StoppedLookup(t: Tree, s: seq<Byte>, w: Stop, p: seq<nat>)
    requires Ok(t) && Stopped(t, s, w, p)
    ensures Lookup(t, s) == Landed(t, s, w, p)
  {
    hide Lookup;
    var n := At(t, p);
    OkAt(t, p);
    StoppedInside(t, s, w, p);
    var l := PathLabel(t, p);
    var r := s[|l|..];
    if w.inlineLeaf {
      assert Label(n, w.plink.idx) <= r;
      LandedLeaf(n, w.plink.idx, r);
    } else if n.compr {
      LandedCompressed(n, w.splitpos, r);
    } else {
      LandedMissing(n, r);
    }
  }

  /** A walk in progress: the node at `p` is about to be entered with `s[i..]`. */
  ghost predicate Walking(mem: Memory, t: Tree, s: seq<Byte>, i: nat, h: Addr, plink: Link, ts: seq<Addr>, p: seq<nat>) {
    && ValidPath(t, p) && h == At(t, p).at && StackOf(t, p, ts)
    && plink == LinkOf(t, p)
    && h in mem && Mirrors(mem[h], At(t, p)) && NodeOk(At(t, p))
    && i <= |s| && s[..i] == PathLabel(t, p)
  }

  /** What a walk relies on at each step. */
  ghost predicate WalkFacts(mem: Memory, s: seq<Byte>, i: nat, h: Addr) {
    h in mem && i <= |s| && (mem[h].data == [] ==> !mem[h].iscompr)
  }

  lemma WalkStart(mem: Memory, t: Tree, s: seq<Byte>)
    requires Arena(mem, t)
    ensures Walking(mem, t, s, 0, t.at, HeadLink, [], [])
    ensures WalkFacts(mem, s, 0, t.at)
  {
  }

  lemma TakeMore(s: seq<Byte>, i: nat, b: seq<Byte>)
    requires i <= |s| && b <= s[i..]
    ensures i + |b| <= |s| && s[..i + |b|] == s[..i] + b
  {
    assert b == s[i..][..|b|] == s[i..i + |b|];
  }

  lemma StackPush(t: Tree, p: seq<nat>, ts: seq<Addr>, j: nat)
    requires ValidPath(t, p) && StackOf(t, p, ts) && ValidPath(t, p + [j])
    ensures StackOf(t, p + [j], ts + [At(t, p).at])
  {
    var q := p + [j];
    forall k | 0 <= k < |q|
      ensures ValidPath(t, q[..k]) && (ts + [At(t, p).at])[k] == At(t, q[..k]).at
    {
      if k < |p| {
        assert q[..k] == p[..k];
      } else {
        assert q[..k] == p;
      }
    }
  }

  lemma WalkStep(mem: Memory, t: Tree, s: seq<Byte>, i: nat, h: Addr, plink: Link, ts: seq<Addr>, p: seq<nat>, j: nat)
    requires Arena(mem, t) && Walking(mem, t, s, i, h, plink, ts, p)
    requires j < |At(t, p).slots| && !IsInlineLeaf(mem[h], j)
    requires Label(At(t, p), j) <= s[i..]
    ensures j < |mem[h].slots| && mem[h].slots[j].Ref?
    ensures Walking(mem, t, s, i + |Label(At(t, p), j)|, mem[h].slots[j].a, SlotLink(h, j), ts + [h], p + [j])
    ensures WalkFacts(mem, s, i + |Label(At(t, p), j)|, mem[h].slots[j].a)
  {
    var b := Label(At(t, p), j);
    PathAppend(t, p, j);
    StackPush(t, p, ts, j);
    StoredAt(mem, t, p + [j]);
    OkAt(t, p + [j]);
    TakeMore(s, i, b);
    assert (p + [j])[..|p|] == p;
  }

  /** The walk stops in a compressed node. */
  lemma WalkCompressed(mem: Memory, t: Tree, s: seq<Byte>, i: nat, h: Addr, plink: Link, ts: seq<Addr>, p: seq<nat>, j: nat)
    requires Walking(mem, t, s, i, h, plink, ts, p)
    requires mem[h].iscompr && j < |mem[h].data| && i + j <= |s| && mem[h].data[..j] == s[i..i + j]
    requires i + j < |s| ==> mem[h].data[j] != s[i + j]
    ensures Stopped(t, s, Stop(i + j, h, plink, j, ts, false), p)
  {
    assert s[..i + j] == s[..i] + s[i..i + j];
  }

  /** The walk stops in a node without a suitable edge, or at the end of the string. */
  lemma WalkHere(mem: Memory, t: Tree, s: seq<Byte>, i: nat, h: Addr, plink: Link, ts: seq<Addr>, p: seq<nat>)
    requires Walking(mem, t, s, i, h, plink, ts, p)
    requires i < |s| ==> !mem[h].iscompr && s[i] !in mem[h].data
    ensures Stopped(t, s, Stop(i, h, plink, 0, ts, false), p)
  {
  }

  /** The walk stops at an inline leaf. */
  lemma WalkLeaf(mem: Memory, t: Tree, s: seq<Byte>, i: nat, h: Addr, plink: Link, ts: seq<Addr>, p: seq<nat>, j: nat)
    requires Walking(mem, t, s, i, h, plink, ts, p)
    requires j < |At(t, p).slots| && IsInlineLeaf(mem[h], j)
    requires Label(At(t, p), j) <= s[i..]
    ensures Stopped(t, s, Stop(i + |Label(At(t, p), j)|, h, SlotLink(h, j), 0, ts, true), p)
  {
    TakeMore(s, i, Label(At(t, p), j));
  }

  lemma WalkLabel(mem: Memory, t: Tree, s: seq<Byte>, i: nat, h: Addr, plink: Link, ts: seq<Addr>, p: seq<nat>, j: nat)
    requires Walking(mem, t, s, i, h, plink, ts, p)
    requires if mem[h].iscompr then j == 0 && i + |mem[h].data| <= |s| && mem[h].data == s[i..i + |mem[h].data|]
             else j < |mem[h].data| && i < |s| && mem[h].data[j] == s[i]
    ensures j < |At(t, p).slots| && Label(At(t, p), j) <= s[i..]
    ensures |Label(At(t, p), j)| == if mem[h].iscompr then |mem[h].data| else 1
  {
  }

  /** Bytes of `data` that agree with `s` from position `i` on. */
  method MatchRun(data: seq<Byte>, s: seq<Byte>, i: nat) returns (j: nat)
    requires i <= |s|
    ensures j <= |data| && i + j <= |s|
    ensures data[..j] == s[i..i + j]
    ensures j < |data| && i + j < |s| ==> data[j] != s[i + j]
  {
    j := 0;
    while j < |data| && i + j < |s| && data[j] == s[i + j]
      invariant j <= |data| && i + j <= |s|
      invariant data[..j] == s[i..i + j]
    {
      assert data[..j + 1] == data[..j] + [data[j]];
      assert s[i..i + j + 1] == s[i..i + j] + [s[i + j]];
      j := j + 1;
    }
  }

  /** First position of a byte, or the length. */
  method FindByte(data: seq<Byte>, c: Byte) returns (j: nat)
    ensures j <= |data|
    ensures j < |data| ==> data[j] == c
    ensures c !in data[..j]
  {
    j := 0;
    while j < |data| && data[j] != c
      invariant j <= |data| && c !in data[..j]
    {
      j := j + 1;
    }
  }

  lemma NodeRecord(mem: Memory, t: Tree, p: seq<nat>)
    requires Arena(mem, t) && ValidPath(t, p)
    ensures At(t, p).at in mem && Mirrors(mem[At(t, p).at], At(t, p)) && Ok(At(t, p))
    ensures mem[At(t, p).at].iskey == At(t, p).key.Some?
  {
    StoredAt(mem, t, p);
    OkAt(t, p);
  }

  /** The record a walk stopped at. */
  lemma Standing(mem: Memory, t: Tree, s: seq<Byte>, w: Stop, p: seq<nat>)
    requires Arena(mem, t) && Stopped(t, s, w, p)
    ensures w.h in mem && Mirrors(mem[w.h], At(t, p)) && Ok(At(t, p))
    ensures mem[w.h].iscompr == At(t, p).compr
    ensures mem[w.h].iskey == At(t, p).key.Some?
    ensures mem[w.h].iskey ==> At(t, p).key == Some(GetData(mem[w.h]))
    ensures w.inlineLeaf ==> w.plink.idx < |mem[w.h].slots| && mem[w.h].slots[w.plink.idx] == Val(At(t, p).slots[w.plink.idx].v)
  {
    StoredAt(mem, t, p);
    OkAt(t, p);
  }

  lemma DenotesAt(t: Tree, m: map<seq<Byte>, Ptr>, s: seq<Byte>)
    requires Denotes(t, m)
    ensures Lookup(t, s) == Get(m, s)
  {
  }

  lemma DenotesNode(t: Tree, p: seq<nat>, m: map<seq<Byte>, Ptr>)
    requires Ok(t) && ValidPath(t, p) && Denotes(t, m)
    ensures PathLabel(t, p) in m <==> At(t, p).key.Some?
  {
    LookupAt(t, p, []);
    assert PathLabel(t, p) + [] == PathLabel(t, p);
  }

  /** A replacement keeps the root address unless it replaces the root. */
  lemma ReplaceRoot(t: Tree, p: seq<nat>, u: Tree)
    requires ValidPath(t, p)
    ensures Replace(t, p, u).at == if p == [] then u.at else t.at
  {
  }

  lemma CompressedRecord(n: RaxNode, t: Tree)
    requires Mirrors(n, t) && NodeOk(t) && t.compr
    ensures OneSlot(t) && n.data == t.edges && |n.slots| == 1 && n.slots[0] == WordOf(t.slots[0])
    ensures |n.leafbitmap| == INLINE_SLOTS && n.leafbitmap[0] == t.slots[0].Leaf?
    ensures t.key == if n.iskey then Some(GetData(n)) else None
  {
  }

  function WriteLink(mem: Memory, l: Link, a: Addr): (r: Memory) {
    if l.SlotLink? && l.parent in mem && l.idx < |mem[l.parent].slots| then
      mem[l.parent := mem[l.parent].(slots := mem[l.parent].slots[l.idx := Ref(a)])]
    else mem
  }

  lemma LinkTarget(mem: Memory, t: Tree, p: seq<nat>)
    requires Arena(mem, t) && ValidPath(t, p)
    ensures var l := LinkOf(t, p);
            (l.HeadLink? <==> p == []) &&
            (l.SlotLink? ==> l.parent in mem && l.idx < |mem[l.parent].slots| && l.parent != At(t, p).at && l.parent in Outside(t, p))
  {
    hide Stored, Separate, Addrs, Mirrors;
    if p != [] {
      var q, k := p[..|p| - 1], p[|p| - 1];
      PathPrefix(t, p);
      NodeRecord(mem, t, q);
      OutsideChild(mem, t, q, k);
      assert p == q + [k];
      StoredAt(mem, t, p);
      RootIn(At(t, p));
    }
  }

  lemma LinkedWrite(mem: Memory, t: Tree, p: seq<nat>, a: Addr)
    requires ValidPath(t, p)
    ensures Linked(mem, t, p, a) == WriteLink(mem, LinkOf(t, p), a)
  {
  }
}
