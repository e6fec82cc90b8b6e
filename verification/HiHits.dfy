/** How often each cached page was hit. */
module HiHits {
  import opened HiTree
  import opened HiLocks
  import opened HiSplit
  import opened HiGrow
  import opened HiPool
  import opened HiState
  import opened HiMatch
  import opened HiEvict
  import opened HiBackup
  import opened HiInsert
  import opened HiShelter

  /** The hits of the node that holds a page. */
  ghost function HitsAt(nodes: Nodes, v: View, s: Text): (n: nat) {
    if s in v.home && v.home[s] in nodes then nodes[v.home[s]].hitCount else 0
  }

  /** Pages that were on the device still are, and have been hit once more if they are
      pages of `key` after the first `lo` and up to `hi`. */
  ghost predicate Hit(n0: Nodes, v0: View, n1: Nodes, v1: View, key: Text, lo: nat, hi: nat) {
    forall s :: s in v0.device ==> s in v1.device && HitsAt(n1, v1, s) == HitsAt(n0, v0, s) + if s <= key && lo < |s| <= hi then 1 else 0
  }

  lemma HitNone(nodes: Nodes, v: View, key: Text, lo: nat)
    ensures Hit(nodes, v, nodes, v, key, lo, lo)
  {
  }

  lemma HitTrans(n0: Nodes, v0: View, n1: Nodes, v1: View, n2: Nodes, v2: View, key: Text, lo: nat, mid: nat, hi: nat)
    requires lo <= mid <= hi && Hit(n0, v0, n1, v1, key, lo, mid) && Hit(n1, v1, n2, v2, key, mid, hi)
    ensures Hit(n0, v0, n2, v2, key, lo, hi)
  {
    hide HitsAt;
  }

  /** Hits nowhere are hits of no key. */
  lemma HitAny(n0: Nodes, v0: View, n1: Nodes, v1: View, key: Text, lo: nat, key': Text, lo': nat)
    requires Hit(n0, v0, n1, v1, key, lo, lo)
    ensures Hit(n0, v0, n1, v1, key', lo', lo')
  {
    hide HitsAt;
  }

  /** Hits of a key are those of any longer one. */
  lemma HitLonger(n0: Nodes, v0: View, n1: Nodes, v1: View, t: Text, lo: nat, hi: nat, key: Text)
    requires Hit(n0, v0, n1, v1, t, lo, hi) && t <= key && hi <= |t|
    ensures Hit(n0, v0, n1, v1, key, lo, hi)
  {
    hide HitsAt;
    forall s | s <= key && |s| <= hi ensures s <= t { PrefixOrder(s, t, key); }
  }

  /** The nodes on the device keep their pages and their hits. */
  ghost predicate Unhit(n0: Nodes, v0: View, n1: Nodes, v1: View) {
    && (forall s :: s in v0.device ==> s in v1.device)
    && (forall h :: h in v0.text && h in n0 && v0.text[h] in v0.device ==>
          h in v1.text && v1.text[h] == v0.text[h] && h in n1 && n1[h].key == n0[h].key && n1[h].hitCount == n0[h].hitCount)
  }

  lemma DeviceHome(nodes: Nodes, root: Id, next: Id, v: View, holds: Holds, z: Sizes, s: Text) returns (h: Id)
    requires Stands(nodes, root, next, v, holds, z) && s in v.device
    ensures s in v.home && h == v.home[s] && h != root && h in nodes && h in v.text && v.text[h] in v.device && Inside(nodes, v.text, h, s)
  {
    hide Closed, Held, Flying, Sized, Counted, Alive;
    var tree := Alive(nodes, v.text);
    h := v.home[s];
    HomeInside(tree, root, v, s);
    AliveNode(nodes, root, v, holds, z, h);
  }

  lemma HomeOf(nodes: Nodes, root: Id, next: Id, v: View, holds: Holds, z: Sizes, h: Id, s: Text)
    requires Stands(nodes, root, next, v, holds, z) && h in v.text && h in nodes && h != root && Inside(nodes, v.text, h, s)
    ensures s in v.home && v.home[s] == h
  {
    hide Closed, Held, Flying, Sized, Counted, Alive, Tiered, Shaped;
    var tree := Alive(nodes, v.text);
    AliveNode(nodes, root, v, holds, z, h);
    InsideHome(tree, root, v, h, s);
  }

  lemma UnhitStays(n0: Nodes, root: Id, next0: Id, v0: View, holds0: Holds, z0: Sizes, n1: Nodes, next1: Id, v1: View, holds1: Holds, z1: Sizes)
    requires Stands(n0, root, next0, v0, holds0, z0) && Stands(n1, root, next1, v1, holds1, z1) && Unhit(n0, v0, n1, v1)
    ensures Hit(n0, v0, n1, v1, [], 0, 0)
  {
    hide Stands;
    forall s | s in v0.device ensures s in v1.device && HitsAt(n1, v1, s) == HitsAt(n0, v0, s) {
      var h := DeviceHome(n0, root, next0, v0, holds0, z0, s);
      HomeOf(n1, root, next1, v1, holds1, z1, h, s);
    }
  }

  lemma ThinnedUnhit(n0: Nodes, v0: View, f0: seq<Slot>, n1: Nodes, v1: View, f1: seq<Slot>)
    requires Thinned(n0, v0, f0, n1, v1, f1)
    ensures Unhit(n0, v0, n1, v1)
  {
    hide Places, Guarded;
  }

  /** A split leaves both halves the hits of the whole. */
  lemma SplitUnhit(n0: Nodes, root: Id, next0: Id, v0: View, holds: Holds, z: Sizes, c: Id, k: nat, m: Id, n1: Nodes, next1: Id, v1: View)
    requires Stands(n0, root, next0, v0, holds, z) && Stands(n1, root, next1, v1, holds, z) && Parted(n0, v0, c, k, m, n1, v1)
    requires c in v0.text && c != root && m !in v0.text && m != root && 0 < k < |n0[c].key|
    ensures Hit(n0, v0, n1, v1, [], 0, 0)
  {
    hide Stands;
    forall s | s in v0.device ensures s in v1.device && HitsAt(n1, v1, s) == HitsAt(n0, v0, s) {
      var h := DeviceHome(n0, root, next0, v0, holds, z, s);
      ParentText(n0, root, next0, v0, holds, z, c);
      var h' := if h == c && |s| <= |v0.text[c]| - |n0[c].key| + k then m else h;
      SplitInside(n0, v0, c, k, m, n1, v1, h, h', s);
      HomeOf(n1, root, next1, v1, holds, z, h', s);
    }
  }

  lemma SplitInside(n0: Nodes, v0: View, c: Id, k: nat, m: Id, n1: Nodes, v1: View, h: Id, h': Id, s: Text)
    requires Parted(n0, v0, c, k, m, n1, v1) && 0 < k < |n0[c].key| && c in v0.text && m !in v0.text && h in v0.text && h in n0
    requires v0.text[c] == v0.text[n0[c].parent] + n0[c].key && Inside(n0, v0.text, h, s)
    requires h' == if h == c && |s| <= |v0.text[c]| - |n0[c].key| + k then m else h
    ensures h' in n1 && h' in v1.text && Inside(n1, v1.text, h', s) && n1[h'].hitCount == n0[h].hitCount
  {
    if h' == m {
      PrefixOrder(s, v1.text[m], v0.text[c]);
    }
  }

  /** A hit on one node. */
  lemma OneHit(nodes: Nodes, root: Id, next: Id, v: View, holds: Holds, z: Sizes, x: Id)
    requires Stands(nodes, root, next, v, holds, z) && x in v.text && x in nodes && x != root
    ensures |nodes[x].key| <= |v.text[x]|
    ensures Hit(nodes, v, nodes[x := nodes[x].(hitCount := nodes[x].hitCount + 1)], v, v.text[x], |v.text[x]| - |nodes[x].key|, |v.text[x]|)
  {
    hide Stands;
    ParentText(nodes, root, next, v, holds, z, x);
    var lo := |v.text[x]| - |nodes[x].key|;
    var now := nodes[x := nodes[x].(hitCount := nodes[x].hitCount + 1)];
    forall s | s in v.device ensures HitsAt(now, v, s) == HitsAt(nodes, v, s) + if s <= v.text[x] && lo < |s| <= |v.text[x]| then 1 else 0 {
      var h := DeviceHome(nodes, root, next, v, holds, z, s);
      if s <= v.text[x] && lo < |s| { HomeOf(nodes, root, next, v, holds, z, x, s); }
    }
  }

  /** What an insertion keeps while it goes on. */
  ghost predicate Onward(n0: Nodes, v0: View, h0: Holds, f0: seq<Slot>, n1: Nodes, v1: View, h1: Holds, f1: seq<Slot>) {
    && Steady(v0, v1) && MoreWrites(h0, h1) && Sheltered(n0, v0, f0, n1, v1, f1) && |f1| + |v1.host| == |f0| + |v0.host|
  }

  lemma OnwardSelf(nodes: Nodes, v: View, h: Holds, free: seq<Slot>)
    ensures Onward(nodes, v, h, free, nodes, v, h, free)
  {
    hide Steady, MoreWrites, Sheltered;
    SteadySelf(v);
    MoreWritesSelf(h);
    ShelteredSelf(nodes, v, free);
  }

  lemma OnwardStep(n0: Nodes, v0: View, h0: Holds, f0: seq<Slot>, n1: Nodes, v1: View, h1: Holds, f1: seq<Slot>, n2: Nodes, v2: View, h2: Holds, f2: seq<Slot>)
    requires Onward(n0, v0, h0, f0, n1, v1, h1, f1)
    requires Steady(v1, v2) && MoreWrites(h1, h2) && Sheltered(n1, v1, f1, n2, v2, f2) && |f2| + |v2.host| == |f1| + |v1.host|
    ensures Onward(n0, v0, h0, f0, n2, v2, h2, f2)
  {
    hide Steady, MoreWrites, Sheltered;
    SteadyTrans(v0, v1, v2);
    MoreWritesTrans(h0, h1, h2);
    ShelteredTrans(n0, v0, f0, n1, v1, f1, n2, v2, f2);
  }

  /** A node on the way has been hit. */
  lemma HitReached(n0: Nodes, root: Id, v0: View, h0: Holds, dev0: map<Text, Slot>, free: seq<Slot>, key: Text, value: seq<Slot>, d: nat, x: Id, k: nat,
                   n1: Nodes, v1: View, h1: Holds, lo: nat, hi: nat)
    requires Inserting(n0, root, v0, dev0, free, key, value, d, x, k) && SameNode(n0, n1, x) && HostMoved(v0, v1) && x in v1.text
    requires h1 == h0 || (Write(x) !in h0 && h1 == h0[Write(x) := x])
    requires x in v0.text && v0.text[x] in v0.device && Hit(n0, v0, n1, v1, v0.text[x], lo, hi) && hi <= |v0.text[x]|
    ensures Inserting(n1, root, v1, dev0, free, key, value, d, x, k) && Steady(v0, v1) && MoreWrites(h0, h1) && Hit(n0, v0, n1, v1, key, lo, hi)
  {
    hide Inserting, HostMoved, Steady, MoreWrites, Hit, DeviceIs;
    InsertAt(n0, root, v0, dev0, free, key, value, d, x, k);
    MovedNode(v0, v1, x);
    MovedDevice(v0, v1);
    InsertSame(n0, root, v0, dev0, free, key, value, d, x, k, n1, v1);
    MoreWritesSelf(h0);
    MoreWritesOne(h0, h0, h1, x);
    SteadySame(v0, v1);
    HitLonger(n0, v0, n1, v1, key[..k], lo, hi, key);
  }

  // ----- New pages -----

  /** No page came into the tree. */
  ghost predicate Shrunk(v: View, v': View) {
    forall s :: s in v'.home ==> s in v.home
  }

  lemma ShrunkText(n0: Nodes, root: Id, next0: Id, v0: View, holds0: Holds, z0: Sizes, n1: Nodes, next1: Id, v1: View, holds1: Holds, z1: Sizes)
    requires Stands(n0, root, next0, v0, holds0, z0) && Stands(n1, root, next1, v1, holds1, z1)
    requires forall n :: n in v1.text ==> n in v0.text && v1.text[n] == v0.text[n]
    ensures Shrunk(v0, v1)
  {
    hide Closed, Held, Flying, Sized, Counted, Alive, Tiered, Shaped;
    var t0, t1 := Alive(n0, v0.text), Alive(n1, v1.text);
    forall s | s in v1.home ensures s in v0.home {
      HomeInside(t1, root, v1, s);
      var h := v1.home[s];
      AliveNode(n0, root, v0, holds0, z0, h);
      PrefixHome(t0, root, v0, h, s);
    }
  }

  lemma ShrunkSelf(v: View)
    ensures Shrunk(v, v)
  {
  }

  lemma ShrunkTrans(a: View, b: View, c: View)
    requires Shrunk(a, b) && Shrunk(b, c)
    ensures Shrunk(a, c)
  {
  }

  lemma MovedShrunk(n0: Nodes, root: Id, next0: Id, v0: View, holds0: Holds, z0: Sizes, n1: Nodes, next1: Id, v1: View, holds1: Holds, z1: Sizes)
    requires Stands(n0, root, next0, v0, holds0, z0) && Stands(n1, root, next1, v1, holds1, z1) && HostMoved(v0, v1)
    ensures Shrunk(v0, v1)
  {
    hide Stands, Shrunk;
    ShrunkText(n0, root, next0, v0, holds0, z0, n1, next1, v1, holds1, z1);
  }

  /** A copy on the host and a lock are no hit. */
  lemma BackedUnhit(n0: Nodes, v0: View, x: Id, n1: Nodes, n2: Nodes, v: View)
    requires x in n0 && x in n1 && n1 == n0[x := n0[x].(hostValue := n1[x].hostValue)] && Relocked(n1, n2) && v.text == v0.text && v.device == v0.device
    ensures Unhit(n0, v0, n2, v)
  {
  }

  lemma SameShrunk(v: View, v': View)
    requires SameMeaning(v, v')
    ensures Shrunk(v, v')
  {
  }

  /** Slots for an evicted node are no hit. */
  lemma RevivedUnhit(n0: Nodes, v0: View, x: Id, n: Node, v: View)
    requires x in n0 && n.key == n0[x].key && n.hitCount == n0[x].hitCount && v.text == v0.text && Steady(v0, v)
    ensures Unhit(n0, v0, n0[x := n], v)
  {
  }

  lemma AddedUnhit(nodes: Nodes, v: View, x: Id, leaf: Node, v': View)
    requires x !in nodes && leaf.parent in nodes && leaf.key != [] && Steady(v, v')
    ensures Unhit(nodes, v, AfterAdd(nodes, x, leaf), v')
  {
  }

  /** Hits of the pages of a key that were not cached before. */
  ghost predicate HitNew(v0: View, nodes: Nodes, v: View, key: Text, hits: nat) {
    forall s :: s <= key && s != [] && s !in v0.home ==> HitsAt(nodes, v, s) == hits
  }

  /** The pages of a node have its hits, and are on the device with it. */
  lemma OwnHits(nodes: Nodes, root: Id, next: Id, v: View, holds: Holds, z: Sizes, x: Id, s: Text)
    requires Stands(nodes, root, next, v, holds, z) && x in v.text && x in nodes && x != root && nodes[x].value.Some?
    requires s <= v.text[x] && |s| > |v.text[x]| - |nodes[x].key|
    ensures s in v.device && HitsAt(nodes, v, s) == nodes[x].hitCount
  {
    hide Stands;
    HomeOf(nodes, root, next, v, holds, z, x, s);
    DeviceNode(nodes, root, next, v, holds, z, x);
    StandsClosed(nodes, root, next, v, holds, z);
    ParentText(nodes, root, next, v, holds, z, x);
    ClosedAt(v.device, v.text[x], s);
  }

  /** Beyond what was on the device, no page of the key is. */
  lemma BeyondDevice(nodes: Nodes, root: Id, v: View, dev0: map<Text, Slot>, free: seq<Slot>, key: Text, value: seq<Slot>, d: nat, node: Id, i: nat, s: Text)
    requires Inserting(nodes, root, v, dev0, free, key, value, d, node, i) && d <= i && s in v.device && s <= key
    ensures |s| <= i
  {
    if |s| > i {
      assert s == key[..|s|];
      WithinLongest(dev0, key, d, |s|);
    }
  }

  /** A new leaf, hit or not: other pages are not. */
  lemma TailHits(n0: Nodes, root: Id, v0: View, dev0: map<Text, Slot>, free: seq<Slot>, key: Text, value: seq<Slot>, d: nat, node: Id, i: nat,
                 n1: Nodes, v1: View, n2: Nodes, v2: View, hi: nat)
    requires Inserting(n0, root, v0, dev0, free, key, value, d, node, i) && d <= i <= hi
    requires Hit(n0, v0, n1, v1, [], 0, 0) && Hit(n1, v1, n2, v2, key, i, hi)
    ensures Hit(n0, v0, n2, v2, key, i, i)
  {
    hide Inserting, HitsAt;
    forall s | s in v0.device ensures s in v2.device && HitsAt(n2, v2, s) == HitsAt(n0, v0, s) {
      if s <= key { BeyondDevice(n0, root, v0, dev0, free, key, value, d, node, i, s); }
    }
  }

  /** What a walk along the key has passed was in the tree. */
  lemma PassedHome(nodes: Nodes, root: Id, next: Id, v: View, holds: Holds, z: Sizes, node: Id, s: Text)
    requires Stands(nodes, root, next, v, holds, z) && node in v.text && s <= v.text[node] && s != []
    ensures s in v.home
  {
    hide Closed, Held, Flying, Sized, Counted, Tiered, Shaped;
    AliveNode(nodes, root, v, holds, z, node);
    PrefixHome(Alive(nodes, v.text), root, v, node, s);
  }

  ghost predicate Passed(v: View, key: Text, i: nat) {
    forall s :: s <= key && s != [] && |s| <= i ==> s in v.home
  }

  lemma PassedAll(nodes: Nodes, root: Id, next: Id, v: View, holds: Holds, z: Sizes, node: Id, key: Text, i: nat)
    requires Stands(nodes, root, next, v, holds, z) && node in v.text && i <= |key| && v.text[node] == key[..i]
    ensures Passed(v, key, i)
  {
    hide Stands;
    forall s | s <= key && s != [] && |s| <= i ensures s in v.home {
      PrefixOrder(s, key[..i], key);
      PassedHome(nodes, root, next, v, holds, z, node, s);
    }
  }

  /** The next pages are hit if they follow the pages hit so far, and else none is. */
  lemma HitAfter(n0: Nodes, v0: View, n1: Nodes, v1: View, n2: Nodes, v2: View, key: Text, done: nat, i: nat, k: nat, hit: bool, chunked: bool)
    requires Hit(n0, v0, n1, v1, key, 0, if chunked then 0 else done) && Hit(n1, v1, n2, v2, key, i, if hit && !chunked then k else i)
    requires done <= i <= k && (hit ==> done == i)
    ensures Hit(n0, v0, n2, v2, key, 0, if chunked then 0 else if hit then done + (k - i) else done)
  {
    hide Hit;
    if hit && !chunked {
      HitTrans(n0, v0, n1, v1, n2, v2, key, 0, i, k);
    } else {
      var m := if chunked then 0 else done;
      HitAny(n1, v1, n2, v2, key, i, key, m);
      HitTrans(n0, v0, n1, v1, n2, v2, key, 0, m, m);
    }
  }

  /** All pages of a key after the first `i` have so many hits. */
  ghost predicate HitBeyond(nodes: Nodes, v: View, key: Text, i: nat, hits: nat) {
    forall s :: s <= key && |s| > i ==> HitsAt(nodes, v, s) == hits
  }

  lemma NoneBeyond(nodes: Nodes, v: View, key: Text, hits: nat)
    ensures HitBeyond(nodes, v, key, |key|, hits)
  {
  }

  lemma NewAfter(v0: View, v1: View, nodes: Nodes, v: View, key: Text, i: nat, hits: nat)
    requires Shrunk(v0, v1) && Passed(v1, key, i) && HitBeyond(nodes, v, key, i, hits)
    ensures HitNew(v0, nodes, v, key, hits)
  {
    hide HitsAt;
  }
}
