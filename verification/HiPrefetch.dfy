/** Prefetching pages to the host: slots are taken when the prefetch starts, and
    when it ends each of them is in the tree, free, or queued to be freed. */
module HiPrefetch {
  import opened HiTree
  import opened HiLocks
  import opened HiPool
  import opened HiState
  import opened HiMatch
  import opened HiEvict
  import opened HiBackup
  import opened HiInsert
  import opened HiLoad
  import opened HiFetch
  import opened HiShelter
  import opened HiRoom
  import opened HiRadix

  /** Pages under way: the prefix `node` stands for, followed by `key`. */
  datatype Prefetch = Prefetch(node: Id, key: Text, slots: seq<Slot>)

  /** The slots of a prefetch are its own, and its node is held. */
  ghost predicate UnderWay(c: HiRadixCache, p: Prefetch)
    reads c
  {
    && c.Core() && p.node in c.view.text && p.node in c.nodes && c.nodes[p.node].hostRef > 0
    && |p.slots| == |p.key| && Unused(c.view.host, c.hostFree, p.slots)
  }

  /** One holder more, or less, on the host. */
  method Hold(c: HiRadixCache, x: Id, refs: nat)
    requires c.Core() && x in c.view.text && x in c.nodes
    modifies c`nodes
    ensures c.Core() && c.nodes == old(c.nodes)[x := old(c.nodes)[x].(hostRef := refs)]
  {
    hide Stands, Pool;
    CountStands(c.nodes, c.root, c.nextId, c.view, c.holds, c.Both(), x, c.nodes[x].hitCount, refs);
    assert c.nodes[x].(hitCount := c.nodes[x].hitCount, hostRef := refs) == c.nodes[x].(hostRef := refs);
    c.nodes := c.nodes[x := c.nodes[x].(hostRef := refs)];
  }

  /** Reserve host slots for `key` below `node`, evicting from the host if that
      is needed. The node itself cannot be evicted meanwhile. */
  method Start(c: HiRadixCache, node: Id, key: Text) returns (r: Option<Prefetch>)
    requires c.Core() && node in c.view.text && node in c.nodes
    modifies c`nodes, c`hostFree, c`view
    ensures c.Core() && HostLess(old(c.view), c.view) && node in c.view.text && node in c.nodes
    ensures c.nodes[node].hostRef == old(c.nodes)[node].hostRef + if r.Some? then 1 else 0
    ensures r.Some? ==> UnderWay(c, r.value) && r.value.node == node && r.value.key == key
    ensures |c.hostFree| + |c.view.host| + (if r.Some? then |key| else 0) == |old(c.hostFree)| + |old(c.view).host|
    ensures old(|c.hostFree|) >= |key| ==> r.Some? && c.view == old(c.view)
    ensures r.None? ==> |c.hostFree| < |key| && Awaiting(c.nodes, c.root, c.view, {node})
    ensures r.Some? <==> |key| <= |old(c.hostFree)| + |IdleBeside(old(c.nodes), old(c.view), node)|
  {
    hide Stands, Pool, HostLess, Thinning, Awaiting, Unused, HostIdle, IdleBeside;
    HostLessSelf(c.view);
    IdleHeld(c.nodes, c.view, node, c.nodes[node].(hostRef := c.nodes[node].hostRef + 1));
    Hold(c, node, c.nodes[node].hostRef + 1);
    if |c.hostFree| < |key| {
      ghost var n0, v0, f0 := c.nodes, c.view, c.hostFree;
      ghost var last := c.EvictHost(|key|);
      HeldKept(n0, v0, f0, c.nodes, c.view, c.hostFree, last, |key|, node);
    }
    if |c.hostFree| < |key| {
      AwaitingBut(c.nodes, c.root, c.view, node, c.nodes[node].hostRef - 1);
      Hold(c, node, c.nodes[node].hostRef - 1);
      return None;
    }
    PoolReserve(c.view.host, c.hostFree, |key|);
    r := Some(Prefetch(node, key, c.hostFree[..|key|]));
    c.hostFree := c.hostFree[|key|..];
  }

  lemma AwaitingBut(nodes: Nodes, root: Id, v: View, x: Id, refs: nat)
    requires Awaiting(nodes, root, v, {}) && x in nodes
    ensures Awaiting(nodes[x := nodes[x].(hostRef := refs)], root, v, {x})
  {
  }

  /** What a held node sees of an eviction from the host. */
  lemma HeldKept(n0: Nodes, v0: View, f0: seq<Slot>, n1: Nodes, v1: View, f1: seq<Slot>, last: Id, num: nat, x: Id)
    requires Thinning(n0, v0, f0, n1, v1, f1, last, num) && x in v0.text && x in n0 && n0[x].hostRef > 0
    ensures x in v1.text && x in n1 && n1[x].hostRef == n0[x].hostRef
    ensures HostLess(v0, v1) && |f1| + |v1.host| == |f0| + |v0.host| && |f1| >= |f0|
  {
    hide Places, HostLess;
  }

  /** A prefetch goes on while another request inserts its pages. */
  method InsertMeanwhile(c: HiRadixCache, p: Prefetch, key: Text, value: seq<Slot>, chunked: bool, ghost d: nat) returns (prefixLen: nat)
    requires UnderWay(c, p) && c.Valid() && |value| == |key|
    requires Longest(c.view.device, key, d) && Unused(c.view.device, c.deviceFree, value[d..])
    modifies c`nodes, c`nextId, c`hostFree, c`view, c`evictableSize, c`protectedSize, c`holds, c`writing
    ensures UnderWay(c, p) && c.Valid() && prefixLen == d
    ensures DeviceIs(c.view.device, old(c.view).device, key, value, d, |key|) && MoreWrites(old(c.holds), c.holds)
    ensures |c.hostFree| + |c.view.host| == |old(c.hostFree)| + |old(c.view).host|
  {
    hide Stands, Pool, Unused, Longest, DeviceIs, MoreWrites, Steady, Sheltered;
    prefixLen := c.Insert(key, value, chunked, d);
    ShelteredWay(old(c.nodes), old(c.view), old(c.hostFree), c.nodes, c.view, c.hostFree, p);
  }

  lemma ShelteredWay(n0: Nodes, v0: View, f0: seq<Slot>, n1: Nodes, v1: View, f1: seq<Slot>, p: Prefetch)
    requires Sheltered(n0, v0, f0, n1, v1, f1) && p.node in v0.text && p.node in n0 && n0[p.node].hostRef > 0 && Unused(v0.host, f0, p.slots)
    ensures p.node in v1.text && p.node in n1 && n1[p.node].hostRef > 0 && Unused(v1.host, f1, p.slots)
  {
    hide Places, Unused;
    UnusedStays(v0.host, f0, v1.host, f1, p.slots);
  }

  // ----- The end of a prefetch -----

  /** A prefix that is not cached has no longer one that is. */
  lemma BeyondHome(nodes: Nodes, root: Id, next: Id, v: View, holds: Holds, z: Sizes, t: Text, lo: nat, s: Text)
    requires Stands(nodes, root, next, v, holds, z) && Longest(v.home, t, lo) && s <= t && lo < |s|
    ensures s !in v.host
  {
    hide Alive, Shaped, Tiered, Closed, Counted, Held, Flying, Sized;
    DeviceInHome(nodes, root, next, v, holds, z);
    var tree := Alive(nodes, v.text);
    assert t[..lo + 1] <= s;
    if s in v.home {
      HomeInside(tree, root, v, s);
      PrefixHome(tree, root, v, v.home[s], t[..lo + 1]);
    }
  }

  lemma HostedSize(v: View, v': View, t: Text, lo: nat, slots: seq<Slot>)
    requires HostedFrom(v, v', t, lo, slots) && forall s :: s <= t && lo < |s| ==> s !in v.host
    ensures |v'.host| == |v.host| + |slots|
  {
    hide Seg, Grows;
    forall s ensures s in Seg(t, lo, |t|) <==> s <= t && lo < |s| { InSeg(t, lo, |t|, s); }
    TakeCount(v.host, v'.host, t, lo);
  }

  lemma HostedMore(nodes: Nodes, root: Id, next: Id, v: View, holds: Holds, z: Sizes, t: Text, lo: nat, v': View, slots: seq<Slot>)
    requires Stands(nodes, root, next, v, holds, z) && Longest(v.home, t, lo) && HostedFrom(v, v', t, lo, slots)
    ensures |v'.host| == |v.host| + |slots|
  {
    hide Stands, Longest, HostedFrom;
    forall s | s <= t && lo < |s| ensures s !in v.host { BeyondHome(nodes, root, next, v, holds, z, t, lo, s); }
    HostedSize(v, v', t, lo, slots);
  }

  lemma StillHeld(a: Nodes, b: Nodes, v: View, v': View, t: Text, lo: nat, slots: seq<Slot>, x: Id)
    requires RefsKept(a, b) && HostedFrom(v, v', t, lo, slots) && x in a && x in v.text
    ensures x in b && x in v'.text && b[x].hostRef == a[x].hostRef
  {
  }

  lemma HostedSlots(v: View, v': View, t: Text, lo: nat, slots: seq<Slot>, s: Text)
    requires HostedFrom(v, v', t, lo, slots) && s in v'.host
    ensures (s in v.host && v'.host[s] == v.host[s]) || v'.host[s] in slots
  {
    hide Grows;
    if s !in v.host { assert v'.host[s] == slots[|s| - 1 - lo]; }
  }

  /** Slots that stay apart when others go to the tree and to the pool. */
  lemma StillUnused(v: View, v': View, free: seq<Slot>, slots: seq<Slot>, t: Text, lo: nat, m: nat, n: nat)
    requires Unused(v.host, free, slots) && m <= n <= |slots| && HostedFrom(v, v', t, lo, slots[m..n])
    ensures Unused(v'.host, free + slots[..m], slots[n..])
    ensures Unused(v'.host, free, slots[..m])
  {
    hide HostedFrom;
    forall s | s in v'.host ensures (s in v.host && v'.host[s] == v.host[s]) || v'.host[s] in slots[m..n] {
      HostedSlots(v, v', t, lo, slots[m..n], s);
    }
    assert forall i :: n <= i < |slots| ==> slots[i] !in slots[..m] && slots[i] !in slots[m..n];
    assert forall i :: 0 <= i < m ==> slots[i] !in slots[m..n];
  }

  lemma UnusedFirst(m: map<Text, Slot>, free: seq<Slot>, slots: seq<Slot>, n: nat)
    requires Unused(m, free, slots) && n <= |slots|
    ensures Unused(m, free, slots[..n])
  {
  }

  lemma Freed(m: map<Text, Slot>, free: seq<Slot>, slots: seq<Slot>)
    requires Pool(m, free) && Unused(m, free, slots)
    ensures Pool(m, free + slots)
  {
  }

  /** Queued slots go back to the host pool. */
  method Drain(c: HiRadixCache, slots: seq<Slot>)
    requires c.Core() && Unused(c.view.host, c.hostFree, slots)
    modifies c`hostFree
    ensures c.Core() && c.hostFree == old(c.hostFree) + slots
  {
    hide Stands, Pool, Unused;
    Freed(c.view.host, c.hostFree, slots);
    c.hostFree := c.hostFree + slots;
  }

  /** Where the slots of a prefetch went: the first `matched` to the pool, those
      up to `agreed` to the tree, the others nowhere yet. */
  ghost predicate Settled(v: View, free: seq<Slot>, p: Prefetch, agreed: nat, matched: nat, v': View, free': seq<Slot>) {
    && matched <= agreed <= |p.key| == |p.slots| && p.node in v.text
    && var t, lo := v.text[p.node] + p.key[..agreed], |v.text[p.node]| + matched;
    && Longest(v.home, t, lo) && HostedFrom(v, v', t, lo, p.slots[matched..agreed])
    && free' == free + p.slots[..matched] && |v'.host| == |v.host| + agreed - matched
    && Unused(v'.host, free', p.slots[agreed..])
  }

  /** Put what all workers have fetched into the tree, free the slots of pages the
      tree had already, and let go of the node. */
  method Finish(c: HiRadixCache, p: Prefetch, completed: nat, agreed: nat) returns (matched: nat, released: seq<Slot>)
    requires UnderWay(c, p) && agreed <= completed <= |p.key|
    modifies c`nodes, c`nextId, c`view, c`hostFree
    ensures c.Core() && Settled(old(c.view), old(c.hostFree), p, agreed, matched, c.view, c.hostFree)
    ensures released == p.slots[agreed..completed]
    ensures p.node in c.view.text && p.node in c.nodes && c.nodes[p.node].hostRef == old(c.nodes)[p.node].hostRef - 1
  {
    hide Stands, Pool, Unused, HostedFrom, RefsKept, Longest;
    ghost var base := c.view.text[p.node];
    UnusedFirst(c.view.host, c.hostFree, p.slots, agreed);
    matched := c.InsertHelperHost(p.node, p.key[..agreed], p.slots[..agreed]);
    assert p.slots[..agreed][matched..] == p.slots[matched..agreed];
    HostedMore(old(c.nodes), c.root, old(c.nextId), old(c.view), c.holds, c.Both(), base + p.key[..agreed], |base| + matched, c.view, p.slots[matched..agreed]);
    StillUnused(old(c.view), c.view, c.hostFree, p.slots, base + p.key[..agreed], |base| + matched, matched, agreed);
    Drain(c, p.slots[..matched]);
    released := p.slots[agreed..completed];
    StillHeld(old(c.nodes), c.nodes, old(c.view), c.view, base + p.key[..agreed], |base| + matched, p.slots[matched..agreed], p.node);
    Hold(c, p.node, c.nodes[p.node].hostRef - 1);
  }

  /** Give a prefetch up: the node is let go, and all slots wait to be freed. */
  method Abort(c: HiRadixCache, p: Prefetch, completed: nat) returns (released: seq<Slot>)
    requires UnderWay(c, p) && completed <= |p.key|
    modifies c`nodes
    ensures c.Core() && released == p.slots[..completed] && Unused(c.view.host, c.hostFree, p.slots)
    ensures c.nodes == old(c.nodes)[p.node := old(c.nodes)[p.node].(hostRef := old(c.nodes)[p.node].hostRef - 1)]
  {
    hide Stands, Pool, Unused;
    Hold(c, p.node, c.nodes[p.node].hostRef - 1);
    released := p.slots[..completed];
  }

  /** A prefetch from its start to the last queued slot: whether it is refused,
      given up or done, no host slot is lost and the node is held as before. */
  method Run(c: HiRadixCache, node: Id, key: Text, completed: nat, agreed: nat, aborted: bool) returns (r: Option<Prefetch>)
    requires c.Core() && node in c.view.text && node in c.nodes && agreed <= completed <= |key|
    modifies c`nodes, c`nextId, c`view, c`hostFree
    ensures c.Core() && |c.hostFree| + |c.view.host| == |old(c.hostFree)| + |old(c.view).host|
    ensures node in c.nodes && c.nodes[node].hostRef == old(c.nodes)[node].hostRef
    ensures c.view.device == old(c.view).device
    ensures r.Some? && !aborted ==> forall s :: s <= old(c.view).text[node] + key[..agreed] && |old(c.view).text[node]| < |s| ==> s in c.view.home
  {
    hide Stands, Pool, Unused, HostLess, Settled, Longest;
    r := Start(c, node, key);
    StartText(old(c.view), c.view, node);
    if r.None? { return; }
    var p := r.value;
    var released;
    if aborted {
      released := Abort(c, p, completed);
      assert released + p.slots[completed..] == p.slots;
    } else {
      ghost var nodes, next, v, free := c.nodes, c.nextId, c.view, c.hostFree;
      var matched;
      matched, released := Finish(c, p, completed, agreed);
      assert released + p.slots[completed..] == p.slots[agreed..];
      SettledAll(v, free, p, agreed, matched, c.view, c.hostFree);
      SettledHome(nodes, next, c.nodes, c.nextId, c.root, c.holds, c.Both(), v, free, p, agreed, matched, c.view, c.hostFree);
    }
    Drain(c, released + p.slots[completed..]);
  }

  lemma StartText(v: View, v': View, node: Id)
    requires HostLess(v, v') && node in v.text && node in v'.text
    ensures v'.text[node] == v.text[node] && v'.device == v.device
  {
  }

  /** Everything fetched is cached. */
  lemma SettledAt(nodes: Nodes, next: Id, nodes': Nodes, next': Id, root: Id, holds: Holds, z: Sizes, v: View, v': View, t: Text, lo: nat, slots: seq<Slot>, s: Text)
    requires Stands(nodes, root, next, v, holds, z) && Stands(nodes', root, next', v', holds, z)
    requires Longest(v.home, t, lo) && HostedFrom(v, v', t, lo, slots) && s <= t && s != []
    ensures s in v'.home
  {
    hide Alive, Shaped, Tiered, Closed, Counted, Held, Flying, Sized;
    if lo < |s| {
      DeviceInHome(nodes', root, next', v', holds, z);
    } else {
      var tree := Alive(nodes, v.text);
      HomeInside(tree, root, v, t[..lo]);
      var n := v.home[t[..lo]];
      AliveNode(nodes, root, v, holds, z, n);
      AliveNode(nodes', root, v', holds, z, n);
      assert s <= v'.text[n];
      PrefixHome(Alive(nodes', v'.text), root, v', n, s);
    }
  }

  /** Where every slot of a prefetch is. */
  lemma SettledAll(v: View, free: seq<Slot>, p: Prefetch, agreed: nat, matched: nat, v': View, free': seq<Slot>)
    requires Settled(v, free, p, agreed, matched, v', free')
    ensures v'.device == v.device && |free'| + |v'.host| + |p.slots[agreed..]| == |free| + |v.host| + |p.slots|
    ensures Unused(v'.host, free', p.slots[agreed..])
  {
    hide Unused, Longest;
  }

  lemma SettledHome(nodes: Nodes, next: Id, nodes': Nodes, next': Id, root: Id, holds: Holds, z: Sizes, v: View, free: seq<Slot>, p: Prefetch, agreed: nat, matched: nat, v': View, free': seq<Slot>)
    requires Stands(nodes, root, next, v, holds, z) && Stands(nodes', root, next', v', holds, z) && Settled(v, free, p, agreed, matched, v', free')
    ensures forall s :: s <= v.text[p.node] + p.key[..agreed] && |v.text[p.node]| < |s| ==> s in v'.home
  {
    hide Stands, Unused, Longest, HostedFrom;
    var base := v.text[p.node];
    forall s | s <= base + p.key[..agreed] && |base| < |s| ensures s in v'.home {
      SettledAt(nodes, next, nodes', next', root, holds, z, v, v', base + p.key[..agreed], |base| + matched, p.slots[matched..agreed], s);
    }
  }
}
