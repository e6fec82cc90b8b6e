/** Pages fetched to the host, between whole states. */
module HiFetch {
  import opened HiTree
  import opened HiLocks
  import opened HiGrow
  import opened HiPool
  import opened HiState
  import opened HiMatch
  import opened HiInsert

  /** The pages of `t` beyond the first `lo` have come to the host, with `slots`;
      nothing else changed. */
  ghost predicate HostedFrom(v: View, v': View, t: Text, lo: nat, slots: seq<Slot>) {
    && v'.device == v.device && Grows(v.text, v'.text)
    && Spells(v'.host, t, lo, slots)
    && (forall s :: s in v'.host <==> s in v.host || (s <= t && lo < |s|))
    && (forall s :: s in v.host ==> v'.host[s] == v.host[s])
  }

  lemma HostedNone(v: View, v': View, t: Text, slots: seq<Slot>)
    requires SameMeaning(v, v') && slots == []
    ensures HostedFrom(v, v', t, |t|, slots)
  {
  }

  lemma HostedAfter(v: View, v1: View, v': View, t: Text, lo: nat, slots: seq<Slot>)
    requires SameMeaning(v, v1) && HostedFrom(v1, v', t, lo, slots)
    ensures HostedFrom(v, v', t, lo, slots)
  {
  }

  lemma HostHome(nodes: Nodes, root: Id, next: Id, v: View, holds: Holds, z: Sizes, cur: Id, key: Text, i: nat)
    requires Stands(nodes, root, next, v, holds, z) && cur in v.text && cur in nodes && i <= |key| && v.text[cur] == key[..i]
    requires i == |key| || key[i] !in nodes[cur].children
    ensures Longest(v.home, key, i)
  {
    hide Kept, Alive, Shaped, Tiered, Closed, Counted;
    AliveNode(nodes, root, v, holds, z, cur);
    KeptParts(Alive(nodes, v.text), root, v, holds, z);
    if cur != root { InsideSelf(Alive(nodes, v.text), root, v, cur); }
    if i < |key| { NextMissing(nodes, root, next, v, holds, z, cur, key, i); }
  }

  lemma SameHome(v: View, v': View, key: Text, i: nat)
    requires SameMeaning(v, v') && Longest(v'.home, key, i)
    ensures Longest(v.home, key, i)
  {
    LongestKeys(v'.home, v.home, key, i);
  }

  lemma HostLeafStands(nodes: Nodes, root: Id, next: Id, v: View, holds: Holds, z: Sizes, free: seq<Slot>, cur: Id, key: Text, i: nat, slots: seq<Slot>) returns (v': View)
    requires Stands(nodes, root, next, v, holds, z) && Pool(v.host, free) && cur in v.text && cur in nodes && i < |key| && v.text[cur] == key[..i]
    requires key[i] !in nodes[cur].children && |slots| == |key| - i && Unused(v.host, free, slots)
    ensures Stands(AfterAdd(nodes, next, Leaf(cur, key[i..], None, Some(slots))), root, next + 1, v', holds, z)
    ensures HostedFrom(v, v', key, i, slots) && Pool(v'.host, free)
  {
    hide Stands, Unused, Pool, NewShown, NewOwn, Seg, Spells;
    var leaf := Leaf(cur, key[i..], None, Some(slots));
    assert key[..i] + key[i..] == key;
    v' := LeafStands(nodes, root, next, v, holds, z, leaf);
    DeviceInHome(nodes, root, next, v, holds, z);
    NewShownSpells(nodes, root, next, v, holds, z, leaf, v.host, slots);
    NewShownNone(v.device, v, leaf);
    PoolAdd(v.host, free, v'.host, key, i, slots);
    forall s ensures s in Seg(key, i, |key|) <==> s <= key && i < |s| { InSeg(key, i, |key|, s); }
  }

  lemma HostedDevice(v: View, v': View, t: Text, lo: nat, slots: seq<Slot>)
    requires HostedFrom(v, v', t, lo, slots)
    ensures v'.device == v.device
  {
  }

  lemma UnusedRest(v: View, v': View, free: seq<Slot>, slots: seq<Slot>, n: nat)
    requires SameMeaning(v, v') && n <= |slots| && Unused(v.host, free, slots)
    ensures Unused(v'.host, free, slots[n..])
  {
    assert forall j :: 0 <= j < |slots| - n ==> slots[n..][j] == slots[j + n];
  }

  /** Nodes stay known, and held on the host as often as before. */
  ghost predicate RefsKept(a: Nodes, b: Nodes) {
    forall n :: n in a ==> n in b && b[n].hostRef == a[n].hostRef
  }

  lemma RefsSplit(nodes: Nodes, v: View, c: Id, k: nat, m: Id, now: Nodes, v': View)
    requires Parted(nodes, v, c, k, m, now, v')
    ensures RefsKept(nodes, now)
  {
  }

  lemma RefsAdded(nodes: Nodes, root: Id, next: Id, v: View, holds: Holds, z: Sizes, leaf: Node)
    requires Stands(nodes, root, next, v, holds, z) && leaf.parent in nodes && leaf.key != []
    ensures RefsKept(nodes, AfterAdd(nodes, next, leaf))
  {
    hide Kept, Alive;
  }

  lemma RefsTrans(a: Nodes, b: Nodes, c: Nodes)
    requires RefsKept(a, b) && RefsKept(b, c)
    ensures RefsKept(a, c)
  {
  }

  lemma FullParts(base: Text, key: Text, n: nat)
    requires n <= |key|
    ensures base + key[..n] == (base + key)[..|base| + n] && (base + key)[|base| + n..] == key[n..]
  {
  }
}
