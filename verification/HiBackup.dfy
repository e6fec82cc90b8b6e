/** Giving nodes host slots and device slots, between whole states. */
module HiBackup {
  import opened HiTree
  import opened HiLocks
  import opened HiPayload
  import opened HiPool
  import opened HiState
  import opened HiMatch
  import opened HiEvict

  /** The device is untouched; the host gained only what is on the device, and
      lost only what is not. */
  ghost predicate HostMoved(v: View, v': View) {
    && v'.device == v.device
    && (forall s :: s in v'.host ==> (s in v.host && v'.host[s] == v.host[s]) || s in v.device)
    && (forall s :: s in v.host && s in v.device ==> s in v'.host && v'.host[s] == v.host[s])
    && (forall n :: n in v'.text ==> n in v.text && v'.text[n] == v.text[n])
    && (forall n :: n in v.text && (v.text[n] in v.device || v.text[n] == []) ==> n in v'.text)
  }

  lemma HostLessMoved(v: View, v': View, root: Id)
    requires HostLess(v, v') && root in v'.text && forall n :: n in v.text && v.text[n] == [] ==> n == root
    ensures HostMoved(v, v')
  {
  }

  lemma HostMovedSelf(v: View)
    ensures HostMoved(v, v)
  {
  }

  lemma HostMovedTrans(a: View, b: View, c: View)
    requires HostMoved(a, b) && HostMoved(b, c)
    ensures HostMoved(a, c)
  {
  }

  lemma OneRoot(nodes: Nodes, root: Id, next: Id, v: View, holds: Holds, z: Sizes)
    requires Stands(nodes, root, next, v, holds, z)
    ensures root in v.text && v.text[root] == [] && forall n :: n in v.text && v.text[n] == [] ==> n == root
  {
    hide Kept, Alive;
    forall n | n in v.text && v.text[n] == [] ensures n == root { AliveNode(nodes, root, v, holds, z, n); }
    AliveRoot(nodes, root, v, holds, z);
  }

  /** A host copy, from the front of the free list. */
  lemma BackupDone(nodes: Nodes, root: Id, next: Id, v: View, holds: Holds, z: Sizes, x: Id, free: seq<Slot>) returns (v': View)
    requires Stands(nodes, root, next, v, holds, z) && Pool(v.host, free) && x in v.text && x in nodes && x != root
    requires nodes[x].value.Some? && nodes[x].hostValue.None? && |nodes[x].value.value| <= |free|
    ensures var n := |nodes[x].value.value|;
      && n == |nodes[x].key| && Stands(Backed(nodes, x, free[..n]), root, next, v', holds, z)
      && Pool(v'.host, free[n..]) && |v'.host| == |v.host| + n && Places(v'.host, free[n..]) <= Places(v.host, free)
    ensures HostMoved(v, v') && v'.text == v.text && v'.device == v.device && Write(x) !in holds
  {
    hide Kept, Alive, Shaped, Tiered, Closed, Counted, Pool, HostMoved, Shown, Own, Places;
    AliveNode(nodes, root, v, holds, z, x);
    var t := Alive(nodes, v.text);
    KeptParts(t, root, v, holds, z);
    TieredNode(t, root, v, x);
    var n := |nodes[x].key|;
    BackedKept(t, root, v, holds, z, x, free[..n]);
    AliveUpdate(nodes, v.text, x, nodes[x].(hostValue := Some(free[..n])));
    v' := v.(host := Shown(v.host, t, v, x, free[..n]));
    BackupPool(t, root, v, x, free);
  }

  lemma ShownSpells(m: map<Text, Slot>, nodes: Nodes, root: Id, v: View, x: Id, slots: seq<Slot>)
    requires Shaped(nodes, root, v) && x in nodes && x != root && x in v.text && |slots| == |nodes[x].key| <= |v.text[x]|
    ensures Spells(Shown(m, nodes, v, x, slots), v.text[x], |v.text[x]| - |nodes[x].key|, slots)
    ensures forall s :: s in Shown(m, nodes, v, x, slots) <==> s in m || s in Own(nodes, v, x)
    ensures forall s :: s in m && s !in Own(nodes, v, x) ==> Shown(m, nodes, v, x, slots)[s] == m[s]
  {
    hide Shaped, Shown, Own;
    var lo := |v.text[x]| - |nodes[x].key|;
    var m' := Shown(m, nodes, v, x, slots);
    forall s | s <= v.text[x] && lo < |s| ensures s in m' && m'[s] == slots[|s| - 1 - lo] {
      InOwn(nodes, root, v, x, s);
      ShownAt(m, nodes, root, v, x, slots, s);
    }
    forall s ensures s in m' <==> s in m || s in Own(nodes, v, x) { ShownAt(m, nodes, root, v, x, slots, s); }
    forall s | s in m && s !in Own(nodes, v, x) ensures m'[s] == m[s] { ShownAt(m, nodes, root, v, x, slots, s); }
  }

  lemma BackupPool(nodes: Nodes, root: Id, v: View, x: Id, free: seq<Slot>)
    requires Shaped(nodes, root, v) && Tiered(nodes, root, v) && Pool(v.host, free) && x in nodes && x != root && x in v.text
    requires nodes[x].value.Some? && nodes[x].hostValue.None? && |nodes[x].key| <= |free| && |nodes[x].key| <= |v.text[x]|
    ensures var n := |nodes[x].key|;
      var host := Shown(v.host, nodes, v, x, free[..n]);
      Pool(host, free[n..]) && |host| == |v.host| + n && HostMoved(v, v.(host := host)) && Places(host, free[n..]) <= Places(v.host, free)
  {
    hide Shaped, Tiered, Pool, Shown, Seg, Spells, HostMoved, Places;
    var n := |nodes[x].key|;
    var lo := |v.text[x]| - n;
    var host := Shown(v.host, nodes, v, x, free[..n]);
    ShownSpells(v.host, nodes, root, v, x, free[..n]);
    forall s | s in Own(nodes, v, x) ensures s !in v.host && s in v.device {
      InOwn(nodes, root, v, x, s);
      OnDevice(nodes, root, v, x, s);
    }
    PoolTake(v.host, free, host, v.text[x], lo, n);
    PlacesTake(v.host, free, host, v.text[x], lo, n);
    TakeCount(v.host, host, v.text[x], lo);
    HostMovedMore(v, host, Own(nodes, v, x));
  }

  lemma HostMovedMore(v: View, host: map<Text, Slot>, more: set<Text>)
    requires forall s :: s in host <==> s in v.host || s in more
    requires forall s :: s in v.host && s !in more ==> host[s] == v.host[s]
    requires forall s :: s in more ==> s !in v.host && s in v.device
    ensures HostMoved(v, v.(host := host))
  {
  }

  /** Hits, and holders on the host, are counted beside the tree. */
  lemma CountStands(nodes: Nodes, root: Id, next: Id, v: View, holds: Holds, z: Sizes, x: Id, hits: nat, refs: nat)
    requires Stands(nodes, root, next, v, holds, z) && x in v.text && x in nodes
    ensures Stands(nodes[x := nodes[x].(hitCount := hits, hostRef := refs)], root, next, v, holds, z)
  {
    hide Shaped, Tiered, Closed, Counted, Held, Flying, Sized, Alive;
    var n := nodes[x].(hitCount := hits, hostRef := refs);
    AliveNode(nodes, root, v, holds, z, x);
    AliveUpdate(nodes, v.text, x, n);
    PayloadShape(Alive(nodes, v.text), root, v, v, x, n);
    RecountedTiered(Alive(nodes, v.text), Alive(nodes, v.text)[x := n], root, v, holds);
    PayloadCounted(Alive(nodes, v.text), root, v, v, holds, x, n);
  }

  /** The record of `x` but for locks, hits, host slots and children. */
  ghost predicate SameNode(a: Nodes, b: Nodes, x: Id) {
    x in a && x in b && b[x].parent == a[x].parent && b[x].key == a[x].key && b[x].value == a[x].value
  }

  lemma DeviceNode(nodes: Nodes, root: Id, next: Id, v: View, holds: Holds, z: Sizes, x: Id)
    requires Stands(nodes, root, next, v, holds, z) && x in v.text && x in nodes && x != root && nodes[x].value.Some?
    ensures v.text[x] in v.device && |nodes[x].value.value| == |nodes[x].key| > 0
  {
    hide Kept, Alive;
    AliveNode(nodes, root, v, holds, z, x);
    NodeSlots(nodes, root, next, v, holds, z, x, v.text[x]);
  }

  lemma PrunedAt(a: Nodes, b: Nodes, x: Id)
    requires Pruned(a, b) && x in a
    ensures x in b && b[x] == a[x].(children := b[x].children)
  {
  }

  lemma RelockedAt(a: Nodes, b: Nodes, x: Id)
    requires Relocked(a, b) && x in a
    ensures x in b && b[x] == a[x].(lockRef := b[x].lockRef, hitCount := b[x].hitCount)
  {
  }

  lemma MovedNode(v: View, v': View, x: Id)
    requires HostMoved(v, v') && x in v.text && (v.text[x] in v.device || v.text[x] == [])
    ensures x in v'.text && v'.text[x] == v.text[x]
  {
  }

  /** A node without host slots is not being written. */
  lemma NotFlying(nodes: Nodes, root: Id, next: Id, v: View, holds: Holds, z: Sizes, x: Id)
    requires Stands(nodes, root, next, v, holds, z) && x in v.text && x in nodes && nodes[x].hostValue.None?
    ensures Write(x) !in holds
  {
    hide Shaped, Tiered, Closed, Counted, Held, Sized;
    AliveNode(nodes, root, v, holds, z, x);
  }

  lemma FlyingHolds(nodes: Nodes, root: Id, next: Id, v: View, holds: Holds, z: Sizes, x: Id)
    requires Stands(nodes, root, next, v, holds, z)
    ensures Write(x) in holds ==> holds[Write(x)] == x
    ensures Load(x) in holds ==> holds[Load(x)] == x
  {
  }

  lemma PartedNode(nodes: Nodes, root: Id, v: View, c: Id, k: nat, m: Id, now: Nodes, v': View)
    requires Parted(nodes, v, c, k, m, now, v') && m !in v.text
    ensures m in v'.text && m in now && nodes[c].parent in now && nodes[c].parent in v'.text && now[m].parent == nodes[c].parent
    ensures now[m].key == nodes[c].key[..k] && v'.text[m] == v'.text[nodes[c].parent] + now[m].key
    ensures SameNode(nodes, now, nodes[c].parent)
  {
  }

  lemma MovedDevice(v: View, v': View)
    requires HostMoved(v, v')
    ensures v'.device == v.device
  {
  }
}
