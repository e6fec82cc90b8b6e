/** A run of the cache that loses a host copy. */
module HiOrphan {
  import opened HiTree
  import opened HiLocks
  import opened HiPool
  import opened HiState
  import opened HiMatch
  import opened HiInsert
  import opened HiLoad
  import opened HiDevice
  import opened HiEvict
  import opened HiRadix
  import opened HiPrefetch

  lemma NoPages(m: map<Text, Slot>)
    requires |m| == 0
    ensures m == map[]
  {
    assert |m.Keys| == 0;
  }

  /** Only the root can be waiting for a write while nothing is on the host. */
  lemma OnlyRootWaits(nodes: Nodes, root: Id, next: Id, v: View, holds: Holds, z: Sizes)
    requires Stands(nodes, root, next, v, holds, z) && v.host == map[] && MoreWrites(map[], holds)
    ensures forall k :: k in holds ==> holds[k] == root
  {
    hide Shaped, Alive, Sized, Closed, Held, Counted;
    var tree := Alive(nodes, v.text);
    forall k | k in holds ensures holds[k] == root {
      var n := k.node;
      assert Write(n) in holds;
      if n != root { InsideSelf(tree, root, v, n); }
    }
  }

  lemma Unheld(nodes: Nodes, root: Id, next: Id, v: View, holds: Holds, z: Sizes, t: Text)
    requires Stands(nodes, root, next, v, holds, z) && (forall k :: k in holds ==> holds[k] == root) && t != []
    ensures Holders(holds, v.text, t) == {}
  {
    hide Alive, Tiered, Closed, Counted, Sized, Flying, Held;
    var tree := Alive(nodes, v.text);
    NodeHung(tree, root, v, root);
  }

  lemma LooseGone(v: View, holds: Holds, z: Sizes, t: Text)
    requires Sized(v, holds, z) && z.evictable == 0 && Holders(holds, v.text, t) == {}
    ensures t !in v.device
  {
    assert t in v.device <==> t in Loose(v, holds);
  }

  /** The only page on the device, once nothing that could leave is left. */
  lemma PageGone(nodes: Nodes, root: Id, next: Id, v: View, v': View, holds: Holds, z: Sizes, t: Text, evicted: int)
    requires Stands(nodes, root, next, v', holds, z) && (forall k :: k in holds ==> holds[k] == root) && t != []
    requires (forall s :: s in v.device <==> s == t) && evicted == |v.device| - |v'.device| && (evicted >= 1 || z.evictable == 0)
    ensures t !in v'.device
  {
    hide Alive, Shaped, Tiered, Closed, Counted, Flying, Held, Sized;
    Unheld(nodes, root, next, v', holds, z, t);
    if z.evictable == 0 {
      LooseGone(v', holds, z, t);
    } else {
      assert v.device.Keys == {t};
      assert |v.device| == |v.device.Keys| == 1;
      NoPages(v'.device);
    }
  }

  /** The prefetch finds the page before its own, and nothing more. */
  lemma MatchesOne(nodes: Nodes, root: Id, next: Id, v: View, holds: Holds, z: Sizes, key: Text, n: nat)
    requires Stands(nodes, root, next, v, holds, z) && |key| >= 2 && v.host == map[]
    requires (forall s :: s in v.device <==> s == key[..1]) && Longest(v.home, key, n)
    ensures n == 1
  {
    hide Shaped, Alive, Sized, Closed, Held, Counted, Flying;
    var tree := Alive(nodes, v.text);
    assert key[..1] in v.device.Keys;
    if n >= 2 { HomeInside(tree, root, v, key[..n]); }
  }

  /** A prefetch is under way when another request inserts the first page, and then ends:
      the first page is on the device and all others on the host. */
  method PageBefore(key: Text, device: nat, threshold: nat) returns (c: HiRadixCache)
    requires |key| >= 2 && device >= 1
    ensures fresh(c) && c.Core() && (forall k :: k in c.holds ==> c.holds[k] == c.root)
    ensures (forall s :: s in c.view.device <==> s == key[..1]) && (forall s :: s in c.view.host <==> s <= key && 1 < |s|)
    ensures |c.hostFree| == 1 && |c.view.host| == |key| - 1 && |c.deviceFree| == device - 1
  {
    hide Stands, Pool, DeviceIs, MoreWrites, Unused, Longest, Settled, HostLess, Awaiting;
    c := new HiRadixCache(device, |key|, threshold, 0);
    RootText(c.nodes, c.root, c.nextId, c.view, c.holds, c.Both());
    var r := Start(c, c.root, key);
    var p := r.value;
    var first := key[..1];
    NoneYet(c.view.device, first);
    PoolReserve(c.view.device, c.deviceFree, 1);
    var slots := c.deviceFree[..1];
    c.deviceFree := c.deviceFree[1..];
    assert slots[0..] == slots;
    var n := InsertMeanwhile(c, p, first, slots, false, 0);
    NoPages(c.view.host);
    OnePage(c.view.device, first, slots);
    OnlyRootWaits(c.nodes, c.root, c.nextId, c.view, c.holds, c.Both());
    RootText(c.nodes, c.root, c.nextId, c.view, c.holds, c.Both());
    ghost var v, nodes, next, z, free := c.view, c.nodes, c.nextId, c.Both(), c.hostFree;
    var matched, released := Finish(c, p, |key|, |key|);
    SettledOne(nodes, c.root, next, v, c.holds, z, free, p, matched, c.view, c.hostFree);
  }

  /** Then one page is evicted, and the pages on the host are gone from the tree while their
      slots are not free. */
  method OrphanRun(key: Text, device: nat, threshold: nat) returns (c: HiRadixCache, ghost before: View)
    requires |key| >= 2 && device >= 1
    ensures c.Core() && (forall s :: s in before.host <==> s <= key && 1 < |s|) && |c.hostFree| + |before.host| == |key|
    ensures c.view.host == map[] && |c.hostFree| == 1 && |c.deviceFree| == device
  {
    hide Stands, Pool, DeviceLess, Orphan;
    c := PageBefore(key, device, threshold);
    before := c.view;
    var n := EvictPage(c, key[..1]);
    HostGone(before, c.view, c.holds, key[..1], key);
  }

  /** Evict the only page on the device. */
  method EvictPage(c: HiRadixCache, first: Text) returns (n: nat)
    requires c.Core() && first != [] && (forall s :: s in c.view.device <==> s == first) && (forall k :: k in c.holds ==> c.holds[k] == c.root)
    modifies c`nodes, c`deviceFree, c`evictableSize, c`view
    ensures c.Core() && first !in c.view.device && |c.deviceFree| == |old(c.deviceFree)| + 1 && DeviceLess(old(c.view), c.view, c.holds)
    ensures forall s :: s in old(c.view).host ==> (s !in c.view.host <==> Orphan(old(c.view), c.view, s))
  {
    hide Stands, Pool, DeviceLess, Orphan, Parking;
    n := c.Evict(1);
    PageGone(c.nodes, c.root, c.nextId, old(c.view), c.view, c.holds, c.Both(), first, n);
    OneLess(old(c.view), c.view, c.holds, first);
  }

  lemma OneLess(v: View, v': View, holds: Holds, t: Text)
    requires DeviceLess(v, v', holds) && (forall s :: s in v.device <==> s == t) && t !in v'.device
    ensures |v.device| - |v'.device| == 1
  {
    assert v.device.Keys == {t};
    assert |v.device| == |v.device.Keys|;
    assert forall s :: s !in v'.device;
    assert v'.device == map[];
  }

  lemma NoneYet(m: map<Text, Slot>, key: Text)
    requires m == map[] && |key| == 1
    ensures Longest(m, key, 0)
  {
  }

  lemma OnePage(dev: map<Text, Slot>, key: Text, value: seq<Slot>)
    requires |key| == 1 && DeviceIs(dev, map[], key, value, 0, 1)
    ensures forall s :: s in dev <==> s == key
  {
    forall s ensures s in dev <==> s == key {
      if s <= key && |s| == 1 { assert s == key; }
    }
  }

  lemma RootText(nodes: Nodes, root: Id, next: Id, v: View, holds: Holds, z: Sizes)
    requires Stands(nodes, root, next, v, holds, z)
    ensures root in nodes && root in v.text && v.text[root] == []
  {
    hide Kept, Alive;
    AliveRoot(nodes, root, v, holds, z);
    KeptParts(Alive(nodes, v.text), root, v, holds, z);
    NodeHung(Alive(nodes, v.text), root, v, root);
  }

  /** All but the first page came to the host. */
  lemma SettledOne(nodes: Nodes, root: Id, next: Id, v: View, holds: Holds, z: Sizes, free: seq<Slot>, p: Prefetch, matched: nat, v': View, free': seq<Slot>)
    requires Stands(nodes, root, next, v, holds, z) && v.host == map[] && free == [] && p.node == root && root in v.text && v.text[root] == []
    requires |p.key| >= 2 && (forall s :: s in v.device <==> s == p.key[..1]) && Settled(v, free, p, |p.key|, matched, v', free')
    ensures v'.device == v.device && (forall s :: s in v'.host <==> s <= p.key && 1 < |s|)
    ensures |free'| == 1 && |v'.host| == |p.key| - 1
  {
    hide Stands, Unused, Longest;
    assert v.text[root] + p.key[..|p.key|] == p.key;
    MatchesOne(nodes, root, next, v, holds, z, p.key, matched);
  }

  lemma HostGone(v: View, v': View, holds: Holds, first: Text, key: Text)
    requires |key| >= 2 && first == key[..1] && first in v.device && first !in v'.device && (forall s :: s in v.host <==> s <= key && 1 < |s|)
    requires DeviceLess(v, v', holds) && forall s :: s in v.host ==> (s !in v'.host <==> Orphan(v, v', s))
    ensures v'.host == map[]
  {
    forall s ensures s !in v'.host {
      if s in v.host { assert first <= s && first !in v.host && Orphan(v, v', s); }
    }
  }
}
