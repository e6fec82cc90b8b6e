/** Loading evicted nodes back to the device, between whole states. */
module HiLoad {
  import opened HiTree
  import opened HiLocks
  import opened HiPayload
  import opened HiPool
  import opened HiState
  import opened HiMatch
  import opened HiEvict
  import opened HiBackup
  import opened HiInsert
  import opened HiDevice

  /** `path` leads from below `a` down to `last`, through evicted nodes. */
  ghost predicate Chain(nodes: Nodes, root: Id, v: View, a: Id, path: seq<Id>, last: Id) {
    && a in v.text && a in nodes && last in v.text
    && (forall i :: 0 <= i < |path| ==> Absent(nodes, root, v, path[i]))
    && (forall i :: 0 <= i < |path| ==> Follows(nodes, a, path, i))
    && last == if path == [] then a else path[|path| - 1]
  }

  ghost predicate Follows(nodes: Nodes, a: Id, path: seq<Id>, i: nat)
    requires i < |path|
  {
    path[i] in nodes && nodes[path[i]].parent == if i == 0 then a else path[i - 1]
  }

  ghost predicate Absent(nodes: Nodes, root: Id, v: View, n: Id) {
    n in v.text && n in nodes && n != root && nodes[n].value.None? && nodes[n].hostValue.Some? && |nodes[n].hostValue.value| == |nodes[n].key|
  }

  lemma ChainStart(nodes: Nodes, root: Id, next: Id, v: View, holds: Holds, z: Sizes, last: Id)
    requires Stands(nodes, root, next, v, holds, z) && last in v.text && last in nodes
    ensures Chain(nodes, root, v, last, [], last)
  {
  }

  /** One node further up. */
  lemma ChainUp(nodes: Nodes, root: Id, next: Id, v: View, holds: Holds, z: Sizes, a: Id, path: seq<Id>, last: Id)
    requires Stands(nodes, root, next, v, holds, z) && Chain(nodes, root, v, a, path, last) && nodes[a].value.None?
    ensures a != root && nodes[a].hostValue.Some? && nodes[a].parent in v.text && nodes[a].parent in nodes
    ensures |nodes[a].hostValue.value| == |nodes[a].key| > 0 && |v.text[a]| == |v.text[nodes[a].parent]| + |nodes[a].hostValue.value|
    ensures Chain(nodes, root, v, nodes[a].parent, [a] + path, last)
  {
    hide Stands;
    RootOn(nodes, root, next, v, holds, z);
    EvictedBacked(nodes, root, next, v, holds, z, a);
    ParentText(nodes, root, next, v, holds, z, a);
    NodeSlots(nodes, root, next, v, holds, z, a, v.text[a]);
    var p := [a] + path;
    forall i | 0 <= i < |p| ensures Absent(nodes, root, v, p[i]) { if i > 0 { assert p[i] == path[i - 1]; } }
    forall i | 0 <= i < |p| ensures Follows(nodes, nodes[a].parent, p, i) {
      if i > 0 { assert p[i] == path[i - 1] && Follows(nodes, a, path, i - 1); }
    }
  }

  /** Nothing of the chain is on the device beyond where it starts. */
  lemma ChainOff(nodes: Nodes, root: Id, next: Id, v: View, holds: Holds, z: Sizes, a: Id, path: seq<Id>, last: Id)
    requires Stands(nodes, root, next, v, holds, z) && Chain(nodes, root, v, a, path, last)
    ensures v.text[a] <= v.text[last]
    ensures forall t :: t <= v.text[last] && t in v.device ==> |t| <= |v.text[a]|
    decreases |path|
  {
    hide Stands;
    if path != [] {
      var c := path[0];
      assert Absent(nodes, root, v, c);
      ChainDown(nodes, root, v, a, path, last);
      ParentText(nodes, root, next, v, holds, z, c);
      ChainOff(nodes, root, next, v, holds, z, c, path[1..], last);
      forall t | t <= v.text[last] && t in v.device ensures |t| <= |v.text[a]| {
        if |t| > |v.text[a]| {
          PrefixOrder(t, v.text[c], v.text[last]);
          NodeSlots(nodes, root, next, v, holds, z, c, t);
        }
      }
    }
  }

  lemma ChainDown(nodes: Nodes, root: Id, v: View, a: Id, path: seq<Id>, last: Id)
    requires Chain(nodes, root, v, a, path, last) && path != []
    ensures Absent(nodes, root, v, path[0]) && nodes[path[0]].parent == a
    ensures Chain(nodes, root, v, path[0], path[1..], last)
  {
    var r := path[1..];
    assert Follows(nodes, a, path, 0);
    forall i | 0 <= i < |r| ensures Absent(nodes, root, v, r[i]) { assert r[i] == path[i + 1]; }
    forall i | 0 <= i < |r| ensures Follows(nodes, path[0], r, i) {
      assert r[i] == path[i + 1] && Follows(nodes, a, path, i + 1);
      if i > 0 { assert r[i - 1] == path[i]; }
    }
  }

  /** Locks do not matter to the chain. */
  lemma ChainRelocked(nodes: Nodes, root: Id, v: View, a: Id, path: seq<Id>, last: Id, now: Nodes)
    requires Chain(nodes, root, v, a, path, last) && Relocked(nodes, now)
    ensures Chain(now, root, v, a, path, last)
  {
    forall i | 0 <= i < |path| ensures Absent(now, root, v, path[i]) && Follows(now, a, path, i) {
      assert Absent(nodes, root, v, path[i]) && Follows(nodes, a, path, i);
    }
  }

  /** While its start is held, the chain survives an eviction. */
  lemma ChainEvicted(nodes: Nodes, root: Id, next: Id, v: View, holds: Holds, z: Sizes, a: Id, path: seq<Id>, last: Id, now: Nodes, v': View, k: Ticket)
    requires Stands(nodes, root, next, v, holds, z) && Chain(nodes, root, v, a, path, last) && k in holds && holds[k] == a
    requires Parking(nodes, now) && DeviceLess(v, v', holds)
    ensures Chain(now, root, v', a, path, last)
    decreases |path|
  {
    hide Stands, Holders;
    ChainOff(nodes, root, next, v, holds, z, a, path, last);
    forall i | 0 <= i < |path| ensures path[i] in v'.text {
      assert Absent(nodes, root, v, path[i]);
      ChainPrefix(nodes, root, next, v, holds, z, a, path, last, i);
      if path[i] !in v'.text {
        var t :| t <= v.text[path[i]] && t in v.device && t !in v'.device;
        PrefixOrder(t, v.text[a], v.text[last]);
        HolderOf(holds, v, k, t);
      }
    }
    forall i | 0 <= i < |path| ensures Absent(now, root, v', path[i]) && Follows(now, a, path, i) {
      assert Absent(nodes, root, v, path[i]) && Follows(nodes, a, path, i);
    }
  }

  lemma HolderOf(holds: Holds, v: View, k: Ticket, t: Text)
    requires k in holds && holds[k] in v.text && t <= v.text[holds[k]]
    ensures Holders(holds, v.text, t) != {}
  {
    assert k in Holders(holds, v.text, t);
  }

  lemma {:induction false} ChainPrefix(nodes: Nodes, root: Id, next: Id, v: View, holds: Holds, z: Sizes, a: Id, path: seq<Id>, last: Id, i: nat)
    requires Stands(nodes, root, next, v, holds, z) && Chain(nodes, root, v, a, path, last) && i < |path|
    ensures path[i] in v.text && v.text[path[i]] <= v.text[last]
    decreases |path|
  {
    hide Stands;
    ChainDown(nodes, root, v, a, path, last);
    ChainOff(nodes, root, next, v, holds, z, path[0], path[1..], last);
    if i > 0 {
      assert path[i] == path[1..][i - 1];
      ChainPrefix(nodes, root, next, v, holds, z, path[0], path[1..], last, i - 1);
    }
  }

  lemma {:induction false} ChainLonger(nodes: Nodes, root: Id, next: Id, v: View, holds: Holds, z: Sizes, a: Id, path: seq<Id>, last: Id, i: nat)
    requires Stands(nodes, root, next, v, holds, z) && Chain(nodes, root, v, a, path, last) && i < |path|
    ensures a in v.text && path[i] in v.text && |v.text[path[i]]| > |v.text[a]|
    decreases |path|
  {
    hide Stands;
    ChainDown(nodes, root, v, a, path, last);
    ParentText(nodes, root, next, v, holds, z, path[0]);
    if i > 0 {
      assert path[i] == path[1..][i - 1];
      ChainLonger(nodes, root, next, v, holds, z, path[0], path[1..], last, i - 1);
    }
  }

  lemma ChainRevived(nodes: Nodes, root: Id, next: Id, v: View, holds: Holds, z: Sizes, a: Id, path: seq<Id>, last: Id, slots: seq<Slot>, v': View)
    requires Stands(nodes, root, next, v, holds, z) && Chain(nodes, root, v, a, path, last) && path != [] && v'.text == v.text
    ensures path[0] in nodes && Chain(Revived(nodes, path[0], slots), root, v', path[0], path[1..], last)
  {
    hide Stands;
    ChainDown(nodes, root, v, a, path, last);
    var c, r, now := path[0], path[1..], Revived(nodes, path[0], slots);
    forall i | 0 <= i < |r| ensures Absent(now, root, v', r[i]) && Follows(now, c, r, i) {
      assert Absent(nodes, root, v, r[i]) && Follows(nodes, c, r, i);
      ChainLonger(nodes, root, next, v, holds, z, c, r, last, i);
    }
  }

  /** Slots taken from the front of the free list. */
  lemma PoolReserve(m: map<Text, Slot>, free: seq<Slot>, n: nat)
    requires Pool(m, free) && n <= |free|
    ensures Pool(m, free[n..]) && Unused(m, free[n..], free[..n])
  {
  }

  function Padded(n: nat, slots: seq<Slot>): (r: seq<Slot>) {
    seq(n, i => 0) + slots
  }

  /** Loading is inserting the slots for the part of the key that is evicted. */
  lemma LoadStart(nodes: Nodes, root: Id, next: Id, v: View, holds: Holds, z: Sizes, a: Id, path: seq<Id>, last: Id, free: seq<Slot>, slots: seq<Slot>)
    requires Stands(nodes, root, next, v, holds, z) && Chain(nodes, root, v, a, path, last) && nodes[a].value.Some?
    requires Unused(v.device, free, slots) && |v.text[last]| == |v.text[a]| + |slots|
    ensures Inserting(nodes, root, v, v.device, free, v.text[last], Padded(|v.text[a]|, slots), |v.text[a]|, a, |v.text[a]|)
  {
    hide Stands, Unused;
    var key, d := v.text[last], |v.text[a]|;
    var value := Padded(d, slots);
    ChainOff(nodes, root, next, v, holds, z, a, path, last);
    assert v.text[a] == key[..d];
    StandsClosed(nodes, root, next, v, holds, z);
    if a != root { DeviceNode(nodes, root, next, v, holds, z, a); } else { OneRoot(nodes, root, next, v, holds, z); }
    if d < |key| { assert key[..d + 1] <= key; }
    assert value[d..] == slots;
  }

  /** The next node of the chain gets its slots. */
  lemma LoadStep(nodes: Nodes, root: Id, next: Id, v: View, holds: Holds, z: Sizes, dev0: map<Text, Slot>, free: seq<Slot>, key: Text, value: seq<Slot>, d: nat,
                 a: Id, i: nat, path: seq<Id>, last: Id) returns (v': View)
    requires Stands(nodes, root, next, v, holds, z) && Pool(v.device, free) && Inserting(nodes, root, v, dev0, free, key, value, d, a, i)
    requires Chain(nodes, root, v, a, path, last) && path != [] && key == v.text[last]
    ensures path[0] in nodes && nodes[path[0]].hostValue.Some?
    ensures var c, k := path[0], i + |nodes[path[0]].hostValue.value|;
      && i < k <= |value|
      && Stands(Revived(nodes, c, value[i..k]), root, next, v', holds, z.(evictable := z.evictable + k - i))
      && Inserting(Revived(nodes, c, value[i..k]), root, v', dev0, free, key, value, d, c, k)
      && Chain(Revived(nodes, c, value[i..k]), root, v', c, path[1..], last)
    ensures Pool(v'.device, free) && v'.text == v.text && v'.host == v.host && Steady(v, v')
  {
    hide Stands, Pool, Inserting, Steady;
    var c := path[0];
    ChainDown(nodes, root, v, a, path, last);
    ChainPrefix(nodes, root, next, v, holds, z, a, path, last, 0);
    ParentText(nodes, root, next, v, holds, z, c);
    InsertAt(nodes, root, v, dev0, free, key, value, d, a, i);
    v' := InsertEvicted(nodes, root, next, v, holds, z, dev0, free, key, value, d, a, i, c);
    ChainRevived(nodes, root, next, v, holds, z, a, path, last, value[i..|v.text[c]|], v');
  }

  /** A node that is evicted is not being loaded. */
  lemma NotLoading(nodes: Nodes, root: Id, next: Id, v: View, holds: Holds, z: Sizes, x: Id)
    requires Stands(nodes, root, next, v, holds, z) && x in v.text && x in nodes && nodes[x].value.None?
    ensures Load(x) !in holds
  {
    hide Shaped, Tiered, Closed, Counted, Sized, Alive;
    RootOn(nodes, root, next, v, holds, z);
    AliveNode(nodes, root, v, holds, z, x);
  }

  lemma ChainEnd(nodes: Nodes, root: Id, v: View, a: Id, path: seq<Id>, last: Id)
    requires Chain(nodes, root, v, a, path, last) && path == []
    ensures a == last
  {
  }

  /** The pages of `t` beyond the first `lo` have come to the device, with `slots`;
      what left it to make room nobody held. */
  ghost predicate Loaded(v: View, v': View, holds: Holds, t: Text, lo: nat, slots: seq<Slot>) {
    && Spells(v'.device, t, lo, slots)
    && (forall s :: s in v'.device ==> (s in v.device && v'.device[s] == v.device[s]) || (s <= t && lo < |s|))
    && (forall s :: s in v.device && s !in v'.device ==> Holders(holds, v.text, s) == {})
  }

  lemma LoadedBy(v: View, v1: View, v': View, holds: Holds, t: Text, lo: nat, slots: seq<Slot>)
    requires DeviceLess(v, v1, holds) && lo + |slots| == |t| && DeviceIs(v'.device, v1.device, t, Padded(lo, slots), lo, |t|)
    ensures Loaded(v, v', holds, t, lo, slots)
  {
    hide Holders;
    forall s | s <= t && lo < |s| ensures s in v'.device && v'.device[s] == slots[|s| - 1 - lo] { }
  }

  lemma DeviceLessFewer(v: View, v': View, holds: Holds, k: Ticket, h: Id)
    requires k !in holds && DeviceLess(v, v', holds[k := h])
    ensures DeviceLess(v, v', holds)
  {
    forall s | s in v.device && s !in v'.device ensures Holders(holds, v.text, s) == {} {
      forall j | j in Holders(holds, v.text, s) ensures j in Holders(holds[k := h], v.text, s) { }
    }
    forall j | j in holds && holds[j] in v.text ensures holds[j] in v'.text {
      assert j in holds[k := h] && holds[k := h][j] == holds[j];
    }
  }

  lemma StandsHeld(nodes: Nodes, root: Id, next: Id, v: View, holds: Holds, z: Sizes, k: Ticket)
    requires Stands(nodes, root, next, v, holds, z) && k in holds
    ensures holds[k] in v.text && holds[k] in nodes && nodes[holds[k]].value.Some?
  {
    hide Kept, Alive;
    HeldNode(nodes, root, v, holds, z, k);
  }

  lemma ChainText(v: View, v': View, holds: Holds, nodes: Nodes, root: Id, a: Id, path: seq<Id>, last: Id)
    requires DeviceLess(v, v', holds) && Chain(nodes, root, v', a, path, last)
    ensures a in v.text && last in v.text && a in v'.text && last in v'.text && v'.text[a] == v.text[a] && v'.text[last] == v.text[last]
    ensures a in nodes && last in nodes
  {
    if path != [] { assert Absent(nodes, root, v', path[|path| - 1]); }
  }

  lemma NoBusy(a: Holds, b: Holds, h: Id)
    requires Busy !in a && b == a[Busy := h] - {Busy}
    ensures b == a
  {
  }

  lemma PaddedPart(d: nat, slots: seq<Slot>, i: nat, n: nat)
    requires i + n <= |slots|
    ensures |Padded(d, slots)| == d + |slots| && Padded(d, slots)[d + i..d + i + n] == slots[i..i + n]
  {
  }

  // ----- When pages come back -----

  /** How many pages of `t` are not on the device. */
  ghost function Missing(v: View, t: Text): (n: nat) {
    |Seg(t, 0, |t|) - v.device.Keys|
  }

  /** The pages that may leave the device while `t` is in use. */
  ghost function Spare(v: View, holds: Holds, t: Text): (r: set<Text>) {
    set s | s in Loose(v, holds) && !(s <= t)
  }

  /** There is enough to load, the quota allows it with the pages of `t` that come under
      its lock, and so many pages are free or can be made free. */
  ghost predicate Loadable(v: View, holds: Holds, free: nat, t: Text, quota: Option<int>, threshold: nat) {
    var e, spare := Missing(v, t), |Spare(v, holds, t)|;
    && e >= threshold
    && (quota.Some? ==> e <= quota.value - (|Loose(v, holds)| - spare))
    && e <= free + spare
  }

  lemma StandsSized(nodes: Nodes, root: Id, next: Id, v: View, holds: Holds, z: Sizes)
    requires Stands(nodes, root, next, v, holds, z)
    ensures z.evictable == |Loose(v, holds)|
  {
    hide Shaped, Tiered, Closed, Counted, Held, Flying, Alive, Loose;
  }

  /** What is missing is what the chain passes. */
  lemma ChainMissing(nodes: Nodes, root: Id, next: Id, v: View, holds: Holds, z: Sizes, a: Id, path: seq<Id>, last: Id)
    requires Stands(nodes, root, next, v, holds, z) && Chain(nodes, root, v, a, path, last) && nodes[a].value.Some?
    ensures Missing(v, v.text[last]) == |v.text[last]| - |v.text[a]|
  {
    hide Stands, Chain, Seg;
    ChainEnds(nodes, root, v, a, path, last);
    ChainOff(nodes, root, next, v, holds, z, a, path, last);
    StandsClosed(nodes, root, next, v, holds, z);
    if a != root { DeviceNode(nodes, root, next, v, holds, z, a); } else { OneRoot(nodes, root, next, v, holds, z); }
    var t, lo := v.text[last], |v.text[a]|;
    forall s ensures s in Seg(t, 0, |t|) - v.device.Keys <==> s in Seg(t, lo, |t|) {
      InSeg(t, 0, |t|, s);
      InSeg(t, lo, |t|, s);
      if s <= t && 0 < |s| <= lo {
        PrefixOrder(s, v.text[a], t);
        ClosedAt(v.device, v.text[a], s);
      }
    }
    assert Seg(t, 0, |t|) - v.device.Keys == Seg(t, lo, |t|);
    SegSize(t, lo, |t|);
  }

  lemma ChainEnds(nodes: Nodes, root: Id, v: View, a: Id, path: seq<Id>, last: Id)
    requires Chain(nodes, root, v, a, path, last)
    ensures a in v.text && a in nodes && last in v.text
  {
  }

  /** Holding the start of the chain leaves the spare pages loose, and no others. */
  lemma ChainSpare(nodes: Nodes, root: Id, next: Id, v: View, holds: Holds, z: Sizes, a: Id, path: seq<Id>, last: Id)
    requires Stands(nodes, root, next, v, holds, z) && Chain(nodes, root, v, a, path, last) && Busy !in holds
    ensures Loose(v, holds[Busy := a]) == Spare(v, holds, v.text[last])
  {
    hide Stands, Chain, Holders;
    ChainEnds(nodes, root, v, a, path, last);
    ChainOff(nodes, root, next, v, holds, z, a, path, last);
    var t := v.text[last];
    forall s ensures s in Loose(v, holds[Busy := a]) <==> s in Spare(v, holds, t) {
      HoldersInc(holds, v, Busy, a, s);
      if s in v.device && s <= t { PrefixOrder(s, v.text[a], t); }
    }
  }
}
