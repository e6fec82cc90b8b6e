/** Who keeps which part of the tree on the device: a node's `lock_ref` counts
    the holders at or below it, and the two sizes count the pages without and
    with a holder. */
module HiLocks {
  import opened HiTree

  /** Reasons to hold a node: a request, a write to the host or a load from it
      that has not been acknowledged, or a call that is under way. */
  datatype Ticket = Req(n: nat) | Write(node: Id) | Load(node: Id) | Busy

  type Holds = map<Ticket, Id>

  ghost function Holders(holds: Holds, text: map<Id, Text>, t: Text): (r: set<Ticket>) {
    set k | k in holds && holds[k] in text && t <= text[holds[k]]
  }

  ghost predicate Counted(nodes: Nodes, root: Id, v: View, holds: Holds) {
    && (forall k :: k in holds ==> holds[k] in nodes)
    && (forall n :: n in nodes && n != root ==> n in v.text && nodes[n].lockRef == |Holders(holds, v.text, v.text[n])|)
  }

  /** What is held is on the device. */
  ghost predicate Held(root: Id, v: View, holds: Holds) {
    forall k :: k in holds && holds[k] != root ==> holds[k] in v.text && v.text[holds[k]] in v.device
  }

  ghost function Loose(v: View, holds: Holds): (r: set<Text>) {
    set s | s in v.device && Holders(holds, v.text, s) == {}
  }

  ghost function Tight(v: View, holds: Holds): (r: set<Text>) {
    set s | s in v.device && Holders(holds, v.text, s) != {}
  }

  /** The prefixes of `t` longer than `lo` and not longer than `hi`. */
  ghost function Seg(t: Text, lo: nat, hi: nat): (r: set<Text>)
    requires hi <= |t|
  {
    set i | lo < i <= hi :: t[..i]
  }

  lemma InSeg(t: Text, lo: nat, hi: nat, s: Text)
    requires hi <= |t|
    ensures s in Seg(t, lo, hi) <==> s <= t && lo < |s| <= hi
  {
    if s <= t && lo < |s| <= hi { assert s == t[..|s|]; }
  }

  lemma {:induction false} SegSize(t: Text, lo: nat, hi: nat)
    requires lo <= hi <= |t|
    ensures |Seg(t, lo, hi)| == hi - lo
    decreases hi - lo
  {
    if lo < hi {
      SegSize(t, lo, hi - 1);
      forall s ensures s in Seg(t, lo, hi) <==> s in Seg(t, lo, hi - 1) || s == t[..hi] {
        InSeg(t, lo, hi, s);
        InSeg(t, lo, hi - 1, s);
      }
      assert Seg(t, lo, hi) == Seg(t, lo, hi - 1) + {t[..hi]};
      InSeg(t, lo, hi - 1, t[..hi]);
    } else {
      assert Seg(t, lo, hi) == {};
    }
  }

  /** All prefixes that end in one node have the same holders. */
  lemma SameHolders(nodes: Nodes, root: Id, v: View, holds: Holds, n: Id, s: Text)
    requires Shaped(nodes, root, v) && Counted(nodes, root, v, holds) && n in nodes && n != root && Inside(nodes, v.text, n, s)
    ensures n in v.text && Holders(holds, v.text, s) == Holders(holds, v.text, v.text[n])
  {
    hide Shaped;
    InsideHome(nodes, root, v, n, s);
    forall k | k in Holders(holds, v.text, s) ensures k in Holders(holds, v.text, v.text[n]) {
      Cover(nodes, root, v, s, holds[k]);
    }
  }

  /** `d` more on the nodes that lead to `t` and are longer than `m`. */
  ghost function Bumped(nodes: Nodes, root: Id, v: View, t: Text, m: nat, d: int): (r: Nodes) {
    map n | n in nodes ::
      if n != root && n in v.text && v.text[n] <= t && |v.text[n]| > m then nodes[n].(lockRef := nodes[n].lockRef + d) else nodes[n]
  }

  /** Between a node and its parent no other node leads to `t`. */
  lemma OnlyNode(nodes: Nodes, root: Id, v: View, t: Text, cur: Id, n: Id)
    requires Shaped(nodes, root, v) && cur in nodes && cur != root && cur in v.text && v.text[cur] <= t && nodes[cur].parent in v.text
    requires n in nodes && n != root && n in v.text && v.text[n] <= t && |v.text[nodes[cur].parent]| < |v.text[n]| <= |v.text[cur]|
    ensures n == cur
  {
    hide Shaped;
    PrefixOrder(v.text[n], v.text[cur], t);
    NodeHung(nodes, root, v, cur);
    InsideHome(nodes, root, v, cur, v.text[n]);
    InsideSelf(nodes, root, v, n);
  }

  lemma BumpStep(nodes: Nodes, root: Id, v: View, t: Text, cur: Id, d: int)
    requires Shaped(nodes, root, v) && cur in nodes && cur != root && cur in v.text && v.text[cur] <= t
    ensures nodes[cur].parent in nodes && nodes[cur].parent in v.text && v.text[nodes[cur].parent] <= t
    ensures |v.text[nodes[cur].parent]| < |v.text[cur]|
    ensures var now := Bumped(nodes, root, v, t, |v.text[cur]|, d);
      && now[cur] == nodes[cur]
      && now[cur := now[cur].(lockRef := now[cur].lockRef + d)] == Bumped(nodes, root, v, t, |v.text[nodes[cur].parent]|, d)
  {
    hide Shaped;
    NodeHung(nodes, root, v, cur);
    var lo := |v.text[nodes[cur].parent]|;
    forall n | n in nodes && n != root && n in v.text && v.text[n] <= t && lo < |v.text[n]| <= |v.text[cur]| ensures n == cur {
      OnlyNode(nodes, root, v, t, cur, n);
    }
  }

  /** A part of `t` all of whose prefixes are in `a`, or none. */
  lemma MovedStep(a: set<Text>, t: Text, lo: nat, mid: nat, all: bool)
    requires lo <= mid <= |t| && forall s :: s in Seg(t, lo, mid) ==> (s in a <==> all)
    ensures |a * Seg(t, lo, |t|)| == |a * Seg(t, mid, |t|)| + if all then mid - lo else 0
  {
    hide Seg;
    SegSize(t, lo, mid);
    forall s ensures s in Seg(t, lo, |t|) <==> s in Seg(t, lo, mid) || s in Seg(t, mid, |t|) { InSegs(t, lo, mid, s); }
    forall s | s in Seg(t, mid, |t|) ensures s !in Seg(t, lo, mid) { InSegs(t, lo, mid, s); }
    var x := if all then Seg(t, lo, mid) else {};
    assert a * Seg(t, lo, |t|) == x + a * Seg(t, mid, |t|);
  }

  lemma InSegs(t: Text, lo: nat, mid: nat, s: Text)
    requires lo <= mid <= |t|
    ensures s in Seg(t, lo, |t|) <==> s in Seg(t, lo, mid) || s in Seg(t, mid, |t|)
    ensures !(s in Seg(t, lo, mid) && s in Seg(t, mid, |t|))
  {
    InSeg(t, lo, |t|, s);
    InSeg(t, lo, mid, s);
    InSeg(t, mid, |t|, s);
  }

  /** The pages on the device whose holders are exactly `ks`. */
  ghost function HeldBy(v: View, holds: Holds, ks: set<Ticket>): (r: set<Text>) {
    set s | s in v.device && Holders(holds, v.text, s) == ks
  }

  /** What the walk up from `t` has changed when it has reached length `m`. */
  ghost predicate Moving(nodes: Nodes, root: Id, v: View, holds: Holds, ks: set<Ticket>, t: Text, m: nat, d: int, now: Nodes, moved: int) {
    && m <= |t|
    && now == Bumped(nodes, root, v, t, m, d)
    && moved == |HeldBy(v, holds, ks) * Seg(t, m, |t|)|
  }

  lemma MoveStart(nodes: Nodes, root: Id, v: View, holds: Holds, ks: set<Ticket>, t: Text, d: int)
    requires forall n :: n in nodes && n in v.text && v.text[n] <= t ==> |v.text[n]| <= |t|
    ensures Moving(nodes, root, v, holds, ks, t, |t|, d, nodes, 0)
  {
    assert Seg(t, |t|, |t|) == {};
    assert HeldBy(v, holds, ks) * Seg(t, |t|, |t|) == {};
  }

  lemma MoveStep(nodes: Nodes, root: Id, v: View, holds: Holds, ks: set<Ticket>, t: Text, cur: Id, d: int, now: Nodes, moved: int)
    requires Shaped(nodes, root, v) && Counted(nodes, root, v, holds) && Closed(v.device)
    requires cur in nodes && cur != root && cur in v.text && v.text[cur] <= t && t in v.device
    requires Moving(nodes, root, v, holds, ks, t, |v.text[cur]|, d, now, moved)
    ensures nodes[cur].parent in nodes && nodes[cur].parent in v.text && v.text[nodes[cur].parent] <= t
    ensures |v.text[nodes[cur].parent]| < |v.text[cur]| && cur in now && now[cur] == nodes[cur]
    ensures var all := Holders(holds, v.text, v.text[cur]) == ks;
      Moving(nodes, root, v, holds, ks, t, |v.text[nodes[cur].parent]|, d, now[cur := now[cur].(lockRef := now[cur].lockRef + d)],
             moved + if all then |nodes[cur].key| else 0)
  {
    hide Shaped, Counted, Seg, Bumped;
    BumpStep(nodes, root, v, t, cur, d);
    NodeHung(nodes, root, v, cur);
    var lo, mid := |v.text[nodes[cur].parent]|, |v.text[cur]|;
    var all := Holders(holds, v.text, v.text[cur]) == ks;
    forall s | s in Seg(t, lo, mid) ensures s in HeldBy(v, holds, ks) <==> all {
      InSeg(t, lo, mid, s);
      PrefixOrder(s, v.text[cur], t);
      SameHolders(nodes, root, v, holds, cur, s);
    }
    MovedStep(HeldBy(v, holds, ks), t, lo, mid, all);
    assert cur in now by { BumpKeys(nodes, root, v, t, |v.text[cur]|, d); }
  }

  lemma BumpKeys(nodes: Nodes, root: Id, v: View, t: Text, m: nat, d: int)
    ensures Bumped(nodes, root, v, t, m, d).Keys == nodes.Keys
  {
  }

  // ----- The whole state -----

  /** A node that is being written to the host has its host slots, and a ticket
      for a write or a load holds the node it names. */
  ghost predicate Flying(nodes: Nodes, holds: Holds) {
    && (forall n :: Write(n) in holds ==> holds[Write(n)] == n && n in nodes && nodes[n].hostValue.Some?)
    && (forall n :: Load(n) in holds ==> holds[Load(n)] == n)
  }

  datatype Sizes = Sizes(evictable: int, protect: int)

  ghost predicate Sized(v: View, holds: Holds, z: Sizes) {
    z.evictable == |Loose(v, holds)| && z.protect == |Tight(v, holds)|
  }

  /** The nodes mean `v`, and `holds` accounts for their locks and the sizes. */
  ghost predicate Kept(nodes: Nodes, root: Id, v: View, holds: Holds, z: Sizes) {
    && Shaped(nodes, root, v) && Tiered(nodes, root, v) && Closed(v.device)
    && Counted(nodes, root, v, holds) && Held(root, v, holds) && Flying(nodes, holds) && Sized(v, holds, z)
  }

  /** Nothing but locks differs. */
  ghost predicate Relocked(a: Nodes, b: Nodes) {
    a.Keys == b.Keys && forall n :: n in a ==> b[n] == a[n].(lockRef := b[n].lockRef)
  }

  /** Nothing but counters differs. */
  ghost predicate Recounted(a: Nodes, b: Nodes) {
    a.Keys == b.Keys && forall n :: n in a ==> b[n] == a[n].(lockRef := b[n].lockRef, hitCount := b[n].hitCount, hostRef := b[n].hostRef)
  }

  lemma RecountedTiered(a: Nodes, b: Nodes, root: Id, v: View, holds: Holds)
    requires Recounted(a, b)
    ensures Tiered(a, root, v) ==> Tiered(b, root, v)
    ensures Flying(a, holds) ==> Flying(b, holds)
  {
    if Tiered(a, root, v) {
      forall n | n in b && n != root ensures Filled(b[n]) { assert Filled(a[n]); }
      forall s | s in v.home
        ensures v.home[s] in b && v.home[s] in v.text
        ensures Shows(b[v.home[s]].value, Offset(b, v.text, v.home[s], s), v.device, s)
        ensures Shows(b[v.home[s]].hostValue, Offset(b, v.text, v.home[s], s), v.host, s)
      {
        assert Shows(a[v.home[s]].value, Offset(a, v.text, v.home[s], s), v.device, s);
      }
    }
  }

  lemma BumpedRelocked(nodes: Nodes, root: Id, v: View, t: Text, m: nat, d: int)
    ensures Relocked(nodes, Bumped(nodes, root, v, t, m, d))
  {
  }

  lemma HoldersInc(holds: Holds, v: View, k: Ticket, h: Id, s: Text)
    requires k !in holds && h in v.text
    ensures Holders(holds[k := h], v.text, s) == Holders(holds, v.text, s) + if s <= v.text[h] then {k} else {}
    ensures |Holders(holds[k := h], v.text, s)| == |Holders(holds, v.text, s)| + if s <= v.text[h] then 1 else 0
  {
    var a, b := Holders(holds, v.text, s), Holders(holds[k := h], v.text, s);
    assert b == a + if s <= v.text[h] then {k} else {};
    assert k !in a;
  }

  lemma HoldersDec(holds: Holds, v: View, k: Ticket, s: Text)
    requires k in holds && holds[k] in v.text
    ensures Holders(holds - {k}, v.text, s) == Holders(holds, v.text, s) - {k}
    ensures k in Holders(holds, v.text, s) <==> s <= v.text[holds[k]]
    ensures |Holders(holds - {k}, v.text, s)| == |Holders(holds, v.text, s)| - if s <= v.text[holds[k]] then 1 else 0
  {
    assert Holders(holds - {k}, v.text, s) == Holders(holds, v.text, s) - {k};
  }

  lemma IncCounted(nodes: Nodes, root: Id, v: View, holds: Holds, k: Ticket, h: Id)
    requires Shaped(nodes, root, v) && Counted(nodes, root, v, holds) && k !in holds && h in nodes && h in v.text
    ensures Counted(Bumped(nodes, root, v, v.text[h], 0, 1), root, v, holds[k := h])
  {
    hide Shaped, Holders;
    var now := Bumped(nodes, root, v, v.text[h], 0, 1);
    forall n | n in now && n != root ensures n in v.text && now[n].lockRef == |Holders(holds[k := h], v.text, v.text[n])| {
      HoldersInc(holds, v, k, h, v.text[n]);
      InsideSelf(nodes, root, v, n);
    }
  }

  lemma DecCounted(nodes: Nodes, root: Id, v: View, holds: Holds, k: Ticket)
    requires Shaped(nodes, root, v) && Counted(nodes, root, v, holds) && k in holds && holds[k] in v.text
    ensures Counted(Bumped(nodes, root, v, v.text[holds[k]], 0, -1), root, v, holds - {k})
  {
    hide Shaped, Holders;
    var now := Bumped(nodes, root, v, v.text[holds[k]], 0, -1);
    forall n | n in now && n != root ensures n in v.text && now[n].lockRef == |Holders(holds - {k}, v.text, v.text[n])| {
      HoldersDec(holds, v, k, v.text[n]);
      InsideSelf(nodes, root, v, n);
    }
  }

  lemma Split3(a: set<Text>, b: set<Text>)
    ensures |a - b| == |a| - |a * b|
  {
    assert a == (a - b) + (a * b);
  }

  lemma IncLoose(v: View, holds: Holds, k: Ticket, h: Id)
    requires k !in holds && h in v.text && [] !in v.device
    ensures var seg, a, b := Seg(v.text[h], 0, |v.text[h]|), Loose(v, holds), Tight(v, holds);
      Loose(v, holds[k := h]) == a - seg && Tight(v, holds[k := h]) == b + (a * seg)
  {
    hide Holders, Seg;
    var seg, holds' := Seg(v.text[h], 0, |v.text[h]|), holds[k := h];
    var a, b := Loose(v, holds), Tight(v, holds);
    forall s | s in v.device ensures s in Loose(v, holds') <==> s in a && s !in seg {
      HoldersInc(holds, v, k, h, s);
      InSeg(v.text[h], 0, |v.text[h]|, s);
    }
  }

  lemma IncSized(v: View, holds: Holds, z: Sizes, k: Ticket, h: Id, moved: int)
    requires Sized(v, holds, z) && k !in holds && h in v.text && [] !in v.device
    requires moved == |HeldBy(v, holds, {}) * Seg(v.text[h], 0, |v.text[h]|)|
    ensures Sized(v, holds[k := h], Sizes(z.evictable - moved, z.protect + moved))
  {
    hide Holders, Seg;
    var seg := Seg(v.text[h], 0, |v.text[h]|);
    var a, b := Loose(v, holds), Tight(v, holds);
    assert a == HeldBy(v, holds, {}) && a !! b;
    IncLoose(v, holds, k, h);
    Split3(a, seg);
  }

  lemma DecSized(v: View, holds: Holds, z: Sizes, k: Ticket, moved: int)
    requires Sized(v, holds, z) && k in holds && holds[k] in v.text && [] !in v.device
    requires moved == |HeldBy(v, holds, {k}) * Seg(v.text[holds[k]], 0, |v.text[holds[k]]|)|
    ensures Sized(v, holds - {k}, Sizes(z.evictable + moved, z.protect - moved))
  {
    hide Holders, Seg;
    var t := v.text[holds[k]];
    var seg, holds' := Seg(t, 0, |t|), holds - {k};
    var a, b := Loose(v, holds), Tight(v, holds);
    var c := HeldBy(v, holds, {k}) * seg;
    forall s | s in v.device ensures s in Loose(v, holds') <==> s in a || s in c {
      HoldersDec(holds, v, k, s);
      InSeg(t, 0, |t|, s);
    }
    assert a !! c;
    assert Loose(v, holds') == a + c;
    assert Tight(v, holds') == b - c;
    assert c <= b;
    Split3(b, c);
    assert b * c == c;
  }

  lemma NoEmpty(nodes: Nodes, root: Id, v: View)
    requires Shaped(nodes, root, v) && Tiered(nodes, root, v)
    ensures [] !in v.home && [] !in v.device && [] !in v.host
  {
    hide Shaped;
    if [] in v.home { HomeInside(nodes, root, v, []); }
  }

  lemma IncHeld(nodes: Nodes, root: Id, v: View, holds: Holds, k: Ticket, h: Id)
    requires Held(root, v, holds) && h in v.text && (h != root ==> v.text[h] in v.device)
    requires k.Write? ==> k == Write(h) && h in nodes && nodes[h].hostValue.Some?
    requires k.Load? ==> k == Load(h)
    ensures Held(root, v, holds[k := h])
    ensures Flying(nodes, holds) ==> Flying(nodes, holds[k := h])
  {
  }

  lemma IncDone(nodes: Nodes, root: Id, v: View, holds: Holds, z: Sizes, k: Ticket, h: Id, now: Nodes, moved: int)
    requires Kept(nodes, root, v, holds, z) && k !in holds && h in nodes && h in v.text && (h != root ==> v.text[h] in v.device)
    requires k.Write? ==> k == Write(h) && nodes[h].hostValue.Some?
    requires k.Load? ==> k == Load(h)
    requires Moving(nodes, root, v, holds, {}, v.text[h], 0, 1, now, moved)
    ensures Kept(now, root, v, holds[k := h], Sizes(z.evictable - moved, z.protect + moved))
  {
    hide Shaped, Tiered, Counted, Sized, Loose, Tight, Closed, Seg, HeldBy, Bumped, Held, Flying;
    BumpedRelocked(nodes, root, v, v.text[h], 0, 1);
    ShapeKept(nodes, now, root, v);
    RecountedTiered(nodes, now, root, v, holds);
    IncHeld(now, root, v, holds, k, h);
    NoEmpty(nodes, root, v);
    IncCounted(nodes, root, v, holds, k, h);
    IncSized(v, holds, z, k, h, moved);
  }

  lemma DecDone(nodes: Nodes, root: Id, v: View, holds: Holds, z: Sizes, k: Ticket, now: Nodes, moved: int)
    requires Kept(nodes, root, v, holds, z) && k in holds && holds[k] in v.text
    requires Moving(nodes, root, v, holds, {k}, v.text[holds[k]], 0, -1, now, moved)
    ensures Kept(now, root, v, holds - {k}, Sizes(z.evictable + moved, z.protect - moved))
  {
    hide Shaped, Tiered, Counted, Sized, Loose, Tight, Closed, Seg, HeldBy, Bumped;
    BumpedRelocked(nodes, root, v, v.text[holds[k]], 0, -1);
    ShapeKept(nodes, now, root, v);
    RecountedTiered(nodes, now, root, v, holds);
    NoEmpty(nodes, root, v);
    DecCounted(nodes, root, v, holds, k);
    DecSized(v, holds, z, k, moved);
  }

  /** Holders are unaffected by a text for a node that nobody holds. */
  lemma HoldersText(holds: Holds, text: map<Id, Text>, m: Id, t: Text, s: Text)
    requires m !in text && forall k :: k in holds ==> holds[k] in text
    ensures Holders(holds, text[m := t], s) == Holders(holds, text, s)
  {
  }

  lemma HoldsText(nodes: Nodes, root: Id, v: View, holds: Holds)
    requires Shaped(nodes, root, v) && Counted(nodes, root, v, holds)
    ensures forall k :: k in holds ==> holds[k] in v.text
  {
  }

  lemma TextSized(v: View, v': View, holds: Holds, z: Sizes, m: Id, t: Text)
    requires v'.text == v.text[m := t] && v'.device == v.device && m !in v.text && forall k :: k in holds ==> holds[k] in v.text
    requires Sized(v, holds, z)
    ensures Sized(v', holds, z)
  {
    hide Holders;
    forall s ensures Holders(holds, v'.text, s) == Holders(holds, v.text, s) { HoldersText(holds, v.text, m, t, s); }
    assert Loose(v', holds) == Loose(v, holds) && Tight(v', holds) == Tight(v, holds);
  }
}
