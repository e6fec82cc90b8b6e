/** The hierarchical cache as the program runs it: nodes updated in place, lock
    counts walked up to the root, slots moved between two pools. */
module HiRadix {
  import opened HiTree
  import opened HiLocks
  import opened HiSplit
  import opened HiGrow
  import opened HiPool
  import opened HiState
  import opened HiMatch
  import opened HiEvict
  import opened HiBackup
  import opened HiInsert
  import opened HiDevice
  import opened HiLoad
  import opened HiFetch
  import opened HiShelter
  import opened HiRoom
  import opened HiHits

  class HiRadixCache {
    var nodes: Nodes
    const root: Id
    var nextId: Id
    var evictableSize: int
    var protectedSize: int
    /** Nodes whose write to the host, or load from it, is not acknowledged. */
    var writing: set<Id>
    var loading: set<Id>
    var deviceFree: seq<Slot>
    var hostFree: seq<Slot>
    const writeThroughThreshold: nat
    const loadBackThreshold: nat
    ghost var view: View
    ghost var holds: Holds

    ghost function Tree(): (r: Nodes)
      reads this
    {
      Alive(nodes, view.text)
    }

    ghost function Both(): (z: Sizes)
      reads this
    {
      Sizes(evictableSize, protectedSize)
    }

    /** The tree means `view`, and `holds` accounts for its locks. */
    ghost predicate Core()
      reads this
    {
      && Stands(nodes, root, nextId, view, holds, Both())
      && Pool(view.device, deviceFree) && Pool(view.host, hostFree)
    }

    ghost predicate Valid()
      reads this
    {
      && Core()
      && (forall n :: n in writing <==> Write(n) in holds)
      && (forall n :: n in loading <==> Load(n) in holds)
      && Busy !in holds
    }

    constructor (device: nat, host: nat, threshold: nat, loadThreshold: nat)
      ensures Valid() && view.device == map[] && view.host == map[] && holds == map[]
      ensures |deviceFree| == device && |hostFree| == host
    {
      root, nextId := 0, 1;
      nodes := RootNodes();
      evictableSize, protectedSize, writing, loading := 0, 0, {}, {};
      deviceFree, hostFree := seq(device, i => i), seq(host, i => i);
      writeThroughThreshold, loadBackThreshold := threshold, loadThreshold;
      view := RootView();
      holds := map[];
      new;
      hide Stands;
      RootStands();
    }

    /** Hold a node: one more lock on it and on all above it but the root. */
    method IncLockRef(h: Id, ghost k: Ticket) returns (delta: int)
      requires Core() && k !in holds && h in view.text && h in nodes && (h == root || nodes[h].value.Some?)
      requires k.Write? ==> k == Write(h) && nodes[h].hostValue.Some?
      requires k.Load? ==> k == Load(h)
      modifies this`nodes, this`evictableSize, this`protectedSize, this`holds
      ensures Core() && holds == old(holds)[k := h] && Relocked(old(nodes), nodes)
      ensures delta == evictableSize - old(evictableSize) == old(protectedSize) - protectedSize
    {
      hide Kept, Climbing, Alive, Pool, Relocked;
      ghost var z := Both();
      ghost var moved := 0;
      var cur := h;
      delta := 0;
      ClimbStart(nodes, root, view, holds, z, {}, h, 1);
      while cur != root
        modifies this`nodes, this`evictableSize, this`protectedSize
        invariant Climbing(old(nodes), root, view, holds, z, {}, h, cur, 1, nodes, moved)
        invariant evictableSize == z.evictable - moved && protectedSize == z.protect + moved && delta == -moved
        decreases if cur in view.text then |view.text[cur]| else 0
      {
        ClimbStep(old(nodes), root, view, holds, z, {}, h, cur, 1, nodes, moved);
        var n := nodes[cur];
        moved := moved + if n.lockRef == 0 then |n.key| else 0;
        if n.lockRef == 0 {
          evictableSize := evictableSize - |n.key|;
          protectedSize := protectedSize + |n.key|;
          delta := delta - |n.key|;
        }
        nodes := nodes[cur := n.(lockRef := n.lockRef + 1)];
        cur := n.parent;
      }
      ClimbInc(old(nodes), root, view, holds, z, k, h, nodes, moved);
      holds := holds[k := h];
    }

    /** Give a hold back. */
    method DecLockRef(h: Id, ghost k: Ticket) returns (delta: int)
      requires Core() && k in holds && holds[k] == h
      modifies this`nodes, this`evictableSize, this`protectedSize, this`holds
      ensures Core() && holds == old(holds) - {k} && Relocked(old(nodes), nodes)
      ensures delta == evictableSize - old(evictableSize) == old(protectedSize) - protectedSize
    {
      hide Kept, Climbing, Alive, Pool, Relocked;
      ghost var z := Both();
      ghost var moved := 0;
      var cur := h;
      delta := 0;
      HeldNode(nodes, root, view, holds, z, k);
      ClimbStart(nodes, root, view, holds, z, {k}, h, -1);
      while cur != root
        modifies this`nodes, this`evictableSize, this`protectedSize
        invariant Climbing(old(nodes), root, view, holds, z, {k}, h, cur, -1, nodes, moved)
        invariant evictableSize == z.evictable + moved && protectedSize == z.protect - moved && delta == moved
        decreases if cur in view.text then |view.text[cur]| else 0
      {
        ClimbStep(old(nodes), root, view, holds, z, {k}, h, cur, -1, nodes, moved);
        ClimbOne(old(nodes), root, view, holds, z, k, h, cur, nodes, moved);
        var n := nodes[cur];
        moved := moved + if n.lockRef == 1 then |n.key| else 0;
        if n.lockRef == 1 {
          evictableSize := evictableSize + |n.key|;
          protectedSize := protectedSize - |n.key|;
          delta := delta + |n.key|;
        }
        nodes := nodes[cur := n.(lockRef := n.lockRef - 1)];
        cur := n.parent;
      }
      ClimbDec(old(nodes), root, view, holds, z, k, h, nodes, moved);
      holds := holds - {k};
    }

    /** Split a node: a new node above it takes the first `k` pages. */
    method SplitNode(c: Id, k: nat) returns (m: Id)
      requires Core() && c in view.text && c in nodes && c != root && 0 < k < |nodes[c].key|
      modifies this`nodes, this`nextId, this`view
      ensures Core() && m == old(nextId) && Parted(old(nodes), old(view), c, k, m, nodes, view)
    {
      hide Stands, Pool;
      ghost var v' := SplitStands(nodes, root, nextId, view, holds, Both(), c, k);
      var n := nodes[c];
      m := nextId;
      nodes := nodes[m := Upper(n, c, k)];
      nodes := nodes[c := Lower(n, m, k)];
      var p := n.parent;
      nodes := nodes[p := nodes[p].(children := nodes[p].children[n.key[0] := m])];
      nextId := nextId + 1;
      view := v';
    }

    /** A child matches in part: split it and go on to the upper half. */
    method MatchSplit(ghost key: Text, ghost i: nat, value: seq<Slot>, ghost node: Id, child: Id, n: nat) returns (value': seq<Slot>, m: Id)
      requires Core() && Walked(nodes, root, view, key, node, i, value)
      requires child in view.text && child in nodes && child != root && nodes[child].parent == node
      requires 0 < n < |nodes[child].key| && i + n <= |key| && nodes[child].key[..n] == key[i..][..n]
      requires i + n < |key| ==> key[i + n] != nodes[child].key[n]
      modifies this`nodes, this`nextId, this`view
      ensures Core() && SameMeaning(old(view), view) && Walked(nodes, root, view, key, m, i + n, value')
      ensures m in nodes && (i + n == |key| || key[i + n] !in nodes[m].children)
    {
      hide Stands, Pool, Walked, Parted, SameMeaning, SlotsTo;
      FreshText(nodes, root, nextId, view, holds, Both());
      m := SplitNode(child, n);
      WalkSplit(old(nodes), root, old(view), key, node, i, value, child, n, m, nodes, view);
      PartedMeaning(old(nodes), old(view), child, n, m, nodes, view);
      WalkedAt(nodes, root, view, key, node, i, value);
      Along(key, i, n, nodes[m].key);
      WalkOn(nodes, root, nextId, view, holds, Both(), key, node, i, value, m);
      value' := if nodes[m].value.Some? then value + nodes[m].value.value else value;
      assert forall u :: u in nodes[m].children <==> u in nodes[m].children.Keys;
    }

    /** Walk along `key` as far as the tree goes, splitting a node that matches
        only in part. */
    method MatchPrefixHelper(key: Text) returns (value: seq<Slot>, node: Id, ghost i: nat)
      requires Core()
      modifies this`nodes, this`nextId, this`view
      ensures Core() && SameMeaning(old(view), view)
      ensures Walked(nodes, root, view, key, node, i, value)
      ensures Longest(view.home, key, i) && Longest(view.device, key, |value|) && value == SlotsTo(view.device, key, |value|)
    {
      hide Stands, Pool, Walked, Parted, SameMeaning, SlotsTo, Longest;
      node, value, i := root, [], 0;
      WalkStart(nodes, root, nextId, view, holds, Both(), key);
      SameMeaningSelf(view);
      var rest := key;
      WalkedAt(nodes, root, view, key, node, i, value);
      while rest != [] && rest[0] in nodes[node].children
        invariant Core() && view == old(view) && Walked(nodes, root, view, key, node, i, value)
        invariant node in nodes && node in view.text && i <= |key| && rest == key[i..]
        decreases |rest|
      {
        WalkedAt(nodes, root, view, key, node, i, value);
        ChildNode(nodes, root, nextId, view, holds, Both(), node, rest[0]);
        var child := nodes[node].children[rest[0]];
        var n := MatchKeys(nodes[child].key, rest);
        Along(key, i, n, rest[..n]);
        if n < |nodes[child].key| {
          value, node := MatchSplit(key, i, value, node, child, n);
          i := i + n;
          break;
        }
        WalkOn(nodes, root, nextId, view, holds, Both(), key, node, i, value, child);
        if nodes[child].value.Some? { value := value + nodes[child].value.value; }
        node, i := child, i + n;
        rest := rest[n..];
      }
      WalkEnd(nodes, root, nextId, view, holds, Both(), key, node, i, value);
    }

    /** What the tree has of `key`: the slots of the pages on the device, and the
        number of further pages on the host. */
    method MatchPrefix(key: Text) returns (indices: seq<Slot>, lastDevice: Id, lastHost: Id, hostHitLength: nat)
      requires Core()
      modifies this`nodes, this`nextId, this`view
      ensures Core() && SameMeaning(old(view), view)
      ensures Longest(view.device, key, |indices|) && indices == SlotsTo(view.device, key, |indices|)
      ensures Longest(view.home, key, |indices| + hostHitLength)
      ensures lastDevice in view.text && lastDevice in nodes && nodes[lastDevice].value.Some? && view.text[lastDevice] == key[..|indices|]
      ensures lastHost in view.text && lastHost in nodes && nodes[lastHost].hostValue.Some? && view.text[lastHost] <= key[..|indices| + hostHitLength]
      ensures forall m :: m in view.text && m in nodes && view.text[lastHost] < view.text[m] <= key[..|indices| + hostHitLength] ==> nodes[m].hostValue.None?
    {
      hide Stands, Pool, Walked, SameMeaning, SlotsTo, Longest, Unbacked;
      var node;
      ghost var i;
      indices, node, i := MatchPrefixHelper(key);
      WalkedAt(nodes, root, view, key, node, i, indices);
      lastDevice, hostHitLength := FindDevice(key, i, node, indices);
      lastHost := FindBackup(node);
      UnbackedTo(nodes, view, lastHost, node, key[..i]);
    }

    /** The nearest node at or above `node` that is on the device, and the pages
        passed on the way. */
    method FindDevice(ghost key: Text, ghost i: nat, node: Id, ghost value: seq<Slot>) returns (last: Id, hostHitLength: nat)
      requires Core() && Walked(nodes, root, view, key, node, i, value) && Longest(view.home, key, i) && Longest(view.device, key, |value|)
      ensures last in view.text && last in nodes && nodes[last].value.Some?
      ensures |value| + hostHitLength == i && |value| <= |key| && view.text[last] == key[..|value|]
    {
      hide Stands, Pool, Walked, Rising;
      hostHitLength := 0;
      last := node;
      RiseStart(nodes, root, nextId, view, holds, Both(), key, i, node, value);
      while nodes[last].value.None?
        invariant hostHitLength <= i && last in nodes && last in view.text
        invariant Rising(nodes, root, view, key, i, last, i - hostHitLength)
        decreases i - hostHitLength
      {
        RiseStep(nodes, root, nextId, view, holds, Both(), key, i, last, i - hostHitLength);
        hostHitLength := hostHitLength + |nodes[last].hostValue.value|;
        last := nodes[last].parent;
        RisingAt(nodes, root, view, key, i, last, i - hostHitLength);
      }
      RisingAt(nodes, root, view, key, i, last, i - hostHitLength);
      RiseEnd(nodes, root, nextId, view, holds, Both(), key, i, last, i - hostHitLength, |value|);
    }

    /** The nearest node at or above `node` that is on the host. */
    method FindBackup(node: Id) returns (n: Id)
      requires Core() && node in view.text && node in nodes
      ensures n in view.text && n in nodes && nodes[n].hostValue.Some? && view.text[n] <= view.text[node] && Unbacked(nodes, view, n, node)
    {
      hide Stands, Pool;
      n := node;
      while nodes[n].hostValue.None?
        invariant Above(nodes, view, n, node) && Unbacked(nodes, view, n, node)
        decreases |view.text[n]|
      {
        hide Unbacked;
        AboveParent(nodes, root, nextId, view, holds, Both(), n, node);
        UnbackedParent(nodes, root, nextId, view, holds, Both(), n, node);
        n := nodes[n].parent;
      }
    }

    // ----- Leaving the host -----

    /** All nodes reached from the root, through nodes on the device only if asked. */
    method Reach(device: bool) returns (seen: set<Id>)
      requires Core()
      ensures forall n :: n in seen <==> n in view.text && Wanted(nodes, device, n)
    {
      hide Stands, Pool, Sweeping, Kids, Wanted;
      seen := {};
      var stack := {root};
      SweepStart(nodes, root, nextId, view, holds, Both(), device);
      ghost var left := view.text.Keys;
      while stack != {}
        invariant Sweeping(nodes, root, view, device, seen, stack)
        invariant left == view.text.Keys - seen
        decreases |left|
      {
        var cur :| cur in stack;
        SweepStep(nodes, root, nextId, view, holds, Both(), device, seen, stack, cur);
        seen, stack := seen + {cur}, stack - {cur} + Kids(nodes, device, cur);
        assert cur in left;
        left := left - {cur};
      }
      forall n ensures n in seen <==> n in view.text && Wanted(nodes, device, n) {
        if n in seen { SweepNode(nodes, root, view, device, seen, {}, n); }
        if n in view.text && Wanted(nodes, device, n) { SweepAll(nodes, root, nextId, view, holds, Both(), device, seen, n); }
      }
    }

    method CollectLeaves() returns (r: set<Id>)
      requires Core()
      ensures forall n :: n in r <==> n in view.text && n in nodes && nodes[n].children == map[]
    {
      hide Stands, Pool;
      var seen := Reach(false);
      r := set n | n in seen && nodes[n].children == map[];
    }

    /** Take a leaf that is only on the host out of the tree; its parent may be
        the next candidate. */
    method DropHostLeaf(heap: set<Id>, x: Id) returns (freed: nat, rest: set<Id>)
      requires Core() && HostCandidates(nodes, root, view, heap) && x in heap
      requires x in view.text && x in nodes && x != root && nodes[x].value.None? && nodes[x].children == map[] && nodes[x].hostRef == 0
      modifies this`nodes, this`hostFree, this`view
      ensures Core() && Thinned(old(nodes), old(view), old(hostFree), nodes, view, hostFree)
      ensures HostCandidates(nodes, root, view, rest) && x !in view.text && |view.text| < |old(view).text|
      ensures old(nodes)[x].hostValue.Some? && hostFree == old(hostFree) + old(nodes)[x].hostValue.value && freed == |old(nodes)[x].hostValue.value|
    {
      hide Stands, Pool, HostCandidates, Thinned;
      ghost var v' := HostLeafLeaves(nodes, root, nextId, view, holds, Both(), heap, x, hostFree);
      var p := nodes[x].parent;
      freed := |nodes[x].hostValue.value|;
      hostFree := hostFree + nodes[x].hostValue.value;
      nodes := Unlinked(nodes, x);
      view := v';
      rest := heap - {x} + if nodes[p].children == map[] && nodes[p].value.None? then {p} else {};
    }

    /** Take evicted leaves that nobody holds off the host, in any order, until
        `num` pages came free or none is left; `last` is the last one taken. */
    method EvictHost(num: nat) returns (ghost last: Id)
      requires Core()
      modifies this`nodes, this`hostFree, this`view
      ensures Core() && Thinning(old(nodes), old(view), old(hostFree), nodes, view, hostFree, last, num)
      ensures |hostFree| - |old(hostFree)| >= num || Awaiting(nodes, root, view, {})
      ensures |hostFree| - |old(hostFree)| == |HostIdle(old(nodes), old(view))| - |HostIdle(nodes, view)|
      ensures |hostFree| - |old(hostFree)| >= num || HostIdle(nodes, view) == {}
    {
      hide Stands, Pool, HostCandidates, Awaiting, Thinned, Thinning, HostIdle;
      last := root;
      ThinningStart(nodes, view, hostFree, last, num);
      var heap := CollectLeaves();
      HostCandidatesAll(nodes, root, view, heap);
      var evicted := 0;
      while evicted < num && heap != {}
        invariant Core() && HostCandidates(nodes, root, view, heap)
        invariant Thinning(old(nodes), old(view), old(hostFree), nodes, view, hostFree, last, num)
        invariant evicted == |hostFree| - |old(hostFree)|
        decreases |view.text|, |heap|
      {
        var x :| x in heap;
        HostCandidateAt(nodes, root, view, heap, x);
        if x == root { break; }
        if nodes[x].value.Some? || nodes[x].hostRef > 0 {
          heap := heap - {x};
          continue;
        }
        ghost var n0, v0, f0 := nodes, view, hostFree;
        var freed;
        freed, heap := DropHostLeaf(heap, x);
        ThinningOn(old(nodes), old(view), old(hostFree), n0, v0, f0, nodes, view, hostFree, last, x, num);
        evicted, last := evicted + freed, x;
      }
      if evicted < num {
        HostCandidatesDone(nodes, root, nextId, view, holds, Both(), heap);
        NoneIdle(nodes, root, nextId, view, holds, Both());
      }
      ThinningThinned(old(nodes), old(view), old(hostFree), nodes, view, hostFree, last, num);
      ThinnedIdle(old(nodes), root, nextId, old(view), holds, Both(), old(hostFree), nodes, view, hostFree);
    }

    // ----- Writing through to the host -----

    /** Make room on the host for a copy of `x`. */
    method MakeHostRoom(x: Id, need: nat)
      requires Core() && x in view.text && x in nodes && x != root && nodes[x].value.Some? && |hostFree| < need
      modifies this`nodes, this`hostFree, this`view
      ensures Core() && HostMoved(old(view), view) && x in view.text && x in nodes && nodes[x] == old(nodes)[x].(children := nodes[x].children)
      ensures |hostFree| + |view.host| == old(|hostFree| + |view.host|)
      ensures Sheltered(old(nodes), old(view), old(hostFree), nodes, view, hostFree)
      ensures need <= |hostFree| <==> need <= |old(hostFree)| + |HostIdle(old(nodes), old(view))|
      ensures Hit(old(nodes), old(view), nodes, view, [], 0, 0) && Shrunk(old(view), view)
    {
      hide Stands, Pool, HostLess, HostMoved, Pruned, Sheltered, Guarded, Needed, HostIdle, Awaiting, Hit, Unhit, Shrunk;
      OneRoot(nodes, root, nextId, view, holds, Both());
      DeviceNode(nodes, root, nextId, view, holds, Both(), x);
      ghost var last := EvictHost(need);
      ShelteredThinned(old(nodes), old(view), old(hostFree), nodes, view, hostFree, last, need);
      OneRoot(nodes, root, nextId, view, holds, Both());
      HostLessMoved(old(view), view, root);
      PrunedAt(old(nodes), nodes, x);
      MovedNode(old(view), view, x);
      ThinnedUnhit(old(nodes), old(view), old(hostFree), nodes, view, hostFree);
      UnhitStays(old(nodes), root, nextId, old(view), holds, Both(), nodes, nextId, view, holds, Both());
      MovedShrunk(old(nodes), root, nextId, old(view), holds, Both(), nodes, nextId, view, holds, Both());
    }

    /** Start copying a node to the host, where there is room; the node is held
        until the copy is acknowledged. */
    method StartWrite(x: Id, need: nat)
      requires Valid() && x in view.text && x in nodes && x != root && nodes[x].value.Some? && nodes[x].hostValue.None?
      requires need == |nodes[x].value.value| <= |hostFree|
      modifies this`nodes, this`hostFree, this`view, this`evictableSize, this`protectedSize, this`holds, this`writing
      ensures Valid() && HostMoved(old(view), view) && SameNode(old(nodes), nodes, x) && x in view.text
      ensures holds == old(holds)[Write(x) := x]
      ensures |hostFree| + |view.host| == old(|hostFree| + |view.host|)
      ensures Sheltered(old(nodes), old(view), old(hostFree), nodes, view, hostFree)
      ensures nodes[x].hostValue == Some(old(hostFree)[..need]) && hostFree == old(hostFree)[need..]
      ensures Hit(old(nodes), old(view), nodes, view, [], 0, 0) && Shrunk(old(view), view)
    {
      hide Stands, Pool, HostMoved, Relocked, Sheltered, Places, Hit, Unhit, Shrunk;
      ghost var v' := BackupDone(nodes, root, nextId, view, holds, Both(), x, hostFree);
      ShelteredNode(nodes, view, hostFree, x, nodes[x].(hostValue := Some(hostFree[..need])), v', hostFree[need..]);
      nodes := nodes[x := nodes[x].(hostValue := Some(hostFree[..need]))];
      hostFree := hostFree[need..];
      view := v';
      writing := writing + {x};
      ghost var nodes1 := nodes;
      var delta := IncLockRef(x, Write(x));
      RelockedAt(nodes1, nodes, x);
      ShelteredLocks(nodes1, nodes, view, hostFree);
      ShelteredTrans(old(nodes), old(view), old(hostFree), nodes1, view, hostFree, nodes, view, hostFree);
      BackedUnhit(old(nodes), old(view), x, nodes1, nodes, view);
      UnhitStays(old(nodes), root, nextId, old(view), old(holds), old(Both()), nodes, nextId, view, holds, Both());
      MovedShrunk(old(nodes), root, nextId, old(view), old(holds), old(Both()), nodes, nextId, view, holds, Both());
    }

    /** The host has room for a copy of `x`, or can make it. */
    ghost predicate RoomFor(x: Id)
      reads this
    {
      x in nodes && |nodes[x].key| <= |hostFree| + |HostIdle(nodes, view)|
    }

    /** Copy a node to the host, making room there if need be. */
    method WriteBackup(x: Id) returns (n: nat)
      requires Valid() && x in view.text && x in nodes && x != root && nodes[x].value.Some? && nodes[x].hostValue.None?
      modifies this`nodes, this`hostFree, this`view, this`evictableSize, this`protectedSize, this`holds, this`writing
      ensures Valid() && HostMoved(old(view), view) && SameNode(old(nodes), nodes, x) && x in view.text
      ensures holds == if n > 0 then old(holds)[Write(x) := x] else old(holds)
      ensures |hostFree| + |view.host| == old(|hostFree| + |view.host|)
      ensures Sheltered(old(nodes), old(view), old(hostFree), nodes, view, hostFree)
      ensures n == (if old(RoomFor(x)) then |old(nodes)[x].key| else 0) && (n > 0 <==> nodes[x].hostValue.Some?)
      ensures Hit(old(nodes), old(view), nodes, view, [], 0, 0) && Shrunk(old(view), view)
    {
      hide Stands, Pool, HostMoved, Sheltered, HostIdle, Hit, Shrunk;
      HitNone(nodes, view, [], 0);
      ShrunkSelf(view);
      var need := |nodes[x].value.value|;
      ShelteredSelf(nodes, view, hostFree);
      HostMovedSelf(view);
      DeviceNode(nodes, root, nextId, view, holds, Both(), x);
      if |hostFree| < need { MakeHostRoom(x, need); }
      if |hostFree| < need { return 0; }
      ghost var v1, nodes1, free1 := view, nodes, hostFree;
      StartWrite(x, need);
      HitTrans(old(nodes), old(view), nodes1, v1, nodes, view, [], 0, 0, 0);
      ShrunkTrans(old(view), v1, view);
      HostMovedTrans(old(view), v1, view);
      ShelteredTrans(old(nodes), old(view), old(hostFree), nodes1, v1, free1, nodes, view, hostFree);
      n := need;
    }

    /** A hit on `x` has it written to the host: it has no copy there, it was hit often
        enough, and there is room. */
    ghost predicate WritesThrough(x: Id, chunked: bool)
      reads this
    {
      !chunked && x in nodes && nodes[x].hostValue.None? && nodes[x].hitCount + 1 >= writeThroughThreshold && RoomFor(x)
    }

    /** Count a hit; a node hit often enough is written to the host. */
    method IncHitCount(x: Id, chunked: bool)
      requires Valid() && x in view.text && x in nodes && x != root && nodes[x].value.Some?
      modifies this`nodes, this`hostFree, this`view, this`evictableSize, this`protectedSize, this`holds, this`writing
      ensures Valid() && HostMoved(old(view), view) && SameNode(old(nodes), nodes, x) && x in view.text
      ensures holds == if old(WritesThrough(x, chunked)) then old(holds)[Write(x) := x] else old(holds)
      ensures nodes[x].hostValue.Some? <==> old(nodes)[x].hostValue.Some? || old(WritesThrough(x, chunked))
      ensures Write(x) in old(holds) ==> !old(WritesThrough(x, chunked))
      ensures |nodes[x].key| <= |old(view).text[x]|
      ensures var t := old(view).text[x];
        var lo := |t| - |nodes[x].key|;
        Hit(old(nodes), old(view), nodes, view, t, lo, if chunked then lo else |t|) && Shrunk(old(view), view)
      ensures |hostFree| + |view.host| == old(|hostFree| + |view.host|)
      ensures Sheltered(old(nodes), old(view), old(hostFree), nodes, view, hostFree)
    {
      hide Stands, Pool, HostMoved, Sheltered, Hit, HostIdle, Shrunk;
      HostMovedSelf(view);
      ShelteredSelf(nodes, view, hostFree);
      ShrunkSelf(view);
      ghost var t := view.text[x];
      OneHit(nodes, root, nextId, view, holds, Both(), x);
      ghost var lo := |t| - |nodes[x].key|;
      HitNone(nodes, view, t, lo);
      if chunked { return; }
      CountStands(nodes, root, nextId, view, holds, Both(), x, nodes[x].hitCount + 1, nodes[x].hostRef);
      assert nodes[x].(hitCount := nodes[x].hitCount + 1, hostRef := nodes[x].hostRef) == nodes[x].(hitCount := nodes[x].hitCount + 1);
      ShelteredNode(nodes, view, hostFree, x, nodes[x].(hitCount := nodes[x].hitCount + 1), view, hostFree);
      IdleSame(nodes, view, x, nodes[x].(hitCount := nodes[x].hitCount + 1));
      nodes := nodes[x := nodes[x].(hitCount := nodes[x].hitCount + 1)];
      ghost var nodes1 := nodes;
      if nodes[x].hostValue.None? && nodes[x].hitCount >= writeThroughThreshold {
        NotFlying(nodes, root, nextId, view, holds, Both(), x);
        DeviceNode(nodes, root, nextId, view, holds, Both(), x);
        var n := WriteBackup(x);
        ShelteredTrans(old(nodes), old(view), old(hostFree), nodes1, old(view), old(hostFree), nodes, view, hostFree);
        HitAny(nodes1, old(view), nodes, view, [], 0, t, |t|);
        HitTrans(old(nodes), old(view), nodes1, old(view), nodes, view, t, lo, |t|, |t|);
      }
    }

    /** The copy of a node to the host is complete. */
    method AckWrite(id: Id)
      requires Valid() && id in writing
      modifies this`nodes, this`evictableSize, this`protectedSize, this`holds, this`writing
      ensures Valid() && Relocked(old(nodes), nodes) && holds == old(holds) - {Write(id)} && writing == old(writing) - {id}
    {
      hide Stands, Pool;
      FlyingHolds(nodes, root, nextId, view, holds, Both(), id);
      writing := writing - {id};
      var delta := DecLockRef(id, Write(id));
    }

    /** The copy of a node from the host is complete. */
    method AckLoad(id: Id)
      requires Valid() && id in loading
      modifies this`nodes, this`evictableSize, this`protectedSize, this`holds, this`loading
      ensures Valid() && Relocked(old(nodes), nodes) && holds == old(holds) - {Load(id)} && loading == old(loading) - {id}
    {
      hide Stands, Pool;
      FlyingHolds(nodes, root, nextId, view, holds, Both(), id);
      loading := loading - {id};
      var delta := DecLockRef(id, Load(id));
    }

    // ----- Inserting -----

    /** The node below `node` that matches the next pages, split off if need be. */
    method MatchChild(node: Id, rest: Text) returns (x: Id, n: nat)
      requires Core() && node in view.text && node in nodes && rest != [] && rest[0] in nodes[node].children
      modifies this`nodes, this`nextId, this`view
      ensures Core() && SameMeaning(old(view), view) && SameNode(old(nodes), nodes, node) && node in view.text && RefsKept(old(nodes), nodes)
      ensures 0 < n <= |rest| && x in view.text && x in nodes && x != root && nodes[x].parent == node
      ensures nodes[x].key == rest[..n] && view.text[x] == view.text[node] + rest[..n]
      ensures Hit(old(nodes), old(view), nodes, view, [], 0, 0)
    {
      hide Stands, Pool, Parted, SameMeaning, Hit;
      SameMeaningSelf(view);
      HitNone(nodes, view, [], 0);
      ChildNode(nodes, root, nextId, view, holds, Both(), node, rest[0]);
      var child := nodes[node].children[rest[0]];
      n := MatchKeys(nodes[child].key, rest);
      if n < |nodes[child].key| {
        FreshText(nodes, root, nextId, view, holds, Both());
        x := SplitNode(child, n);
        PartedMeaning(old(nodes), old(view), child, n, x, nodes, view);
        PartedNode(old(nodes), root, old(view), child, n, x, nodes, view);
        RefsSplit(old(nodes), old(view), child, n, x, nodes, view);
        SplitUnhit(old(nodes), root, old(nextId), old(view), holds, Both(), child, n, x, nodes, nextId, view);
      } else {
        x := child;
      }
    }

    /** Give an evicted node on the way of an insertion the slots of the key. */
    method InsertValue(x: Id, slots: seq<Slot>, ghost dev0: map<Text, Slot>, ghost key: Text, ghost value: seq<Slot>, ghost d: nat, ghost node: Id, ghost i: nat, ghost k: nat)
      requires Core() && Inserting(nodes, root, view, dev0, deviceFree, key, value, d, node, i)
      requires x in view.text && x in nodes && x != root && nodes[x].parent == node && nodes[x].value.None? && view.text[x] <= key
      requires i <= |view.text[x]| == k <= |value| && slots == value[i..k]
      modifies this`nodes, this`evictableSize, this`view
      ensures Core() && Steady(old(view), view) && view.host == old(view).host && d <= i
      ensures Sheltered(old(nodes), old(view), old(hostFree), nodes, view, hostFree)
      ensures Inserting(nodes, root, view, dev0, deviceFree, key, value, d, x, k)
      ensures Hit(old(nodes), old(view), nodes, view, [], 0, 0) && Shrunk(old(view), view)
    {
      hide Stands, Pool, Steady, Inserting, Sheltered, Hit, Shrunk, Unhit;
      ghost var z := Both();
      ghost var v' := InsertEvicted(nodes, root, nextId, view, holds, Both(), dev0, deviceFree, key, value, d, node, i, x);
      ShelteredNode(nodes, view, hostFree, x, nodes[x].(value := Some(slots)), v', hostFree);
      nodes := nodes[x := nodes[x].(value := Some(slots))];
      evictableSize := evictableSize + |slots|;
      view := v';
      RevivedUnhit(old(nodes), old(view), x, nodes[x], view);
      UnhitStays(old(nodes), root, nextId, old(view), holds, z, nodes, nextId, view, holds, Both());
      ShrunkText(old(nodes), root, nextId, old(view), holds, z, nodes, nextId, view, holds, Both());
    }

    /** Add a leaf for the rest of a key. */
    method InsertRest(node: Id, rest: Text, slots: seq<Slot>, ghost dev0: map<Text, Slot>, ghost key: Text, ghost value: seq<Slot>, ghost d: nat, ghost i: nat)
      returns (x: Id)
      requires Core() && Inserting(nodes, root, view, dev0, deviceFree, key, value, d, node, i)
      requires node in nodes && i < |key| == |value| && key[i] !in nodes[node].children && rest == key[i..] && slots == value[i..]
      modifies this`nodes, this`nextId, this`evictableSize, this`view
      ensures Core() && Steady(old(view), view) && view.host == old(view).host && d <= i && x != root && x == old(nextId)
      ensures Sheltered(old(nodes), old(view), old(hostFree), nodes, view, hostFree)
      ensures Inserting(nodes, root, view, dev0, deviceFree, key, value, d, x, |key|)
      ensures Hit(old(nodes), old(view), nodes, view, [], 0, 0) && x in nodes && nodes[x].hitCount == 0 && nodes[x].key == rest && nodes[x].value.Some?
    {
      hide Stands, Pool, Steady, Inserting, Sheltered, Hit, Unhit;
      ghost var z := Both();
      FreshText(nodes, root, nextId, view, holds, Both());
      ghost var v' := InsertLeaf(nodes, root, nextId, view, holds, Both(), dev0, deviceFree, key, value, d, node, i);
      InsertAt(nodes, root, view, dev0, deviceFree, key, value, d, node, i);
      x := nextId;
      RefsAdded(nodes, root, nextId, view, holds, Both(), Leaf(node, rest, Some(slots), None));
      ShelteredStep(nodes, view, AfterAdd(nodes, x, Leaf(node, rest, Some(slots), None)), v', hostFree);
      nodes := AfterAdd(nodes, x, Leaf(node, rest, Some(slots), None));
      evictableSize := evictableSize + |slots|;
      nextId := nextId + 1;
      view := v';
      AddedUnhit(old(nodes), old(view), x, Leaf(node, rest, Some(slots), None), view);
      UnhitStays(old(nodes), root, old(nextId), old(view), holds, z, nodes, nextId, view, holds, Both());
    }

    /** A hit on the node that an insertion has reached. */
    method HitNode(x: Id, chunked: bool, ghost dev0: map<Text, Slot>, ghost key: Text, ghost value: seq<Slot>, ghost d: nat, ghost k: nat)
      requires Valid() && Inserting(nodes, root, view, dev0, deviceFree, key, value, d, x, k) && x != root
      modifies this`nodes, this`hostFree, this`view, this`evictableSize, this`protectedSize, this`holds, this`writing
      ensures Valid() && Steady(old(view), view) && MoreWrites(old(holds), holds)
      ensures Inserting(nodes, root, view, dev0, deviceFree, key, value, d, x, k)
      ensures |hostFree| + |view.host| == old(|hostFree| + |view.host|)
      ensures Sheltered(old(nodes), old(view), old(hostFree), nodes, view, hostFree)
      ensures x in old(nodes) && |old(nodes)[x].key| <= k
      ensures var lo := k - |old(nodes)[x].key|; Hit(old(nodes), old(view), nodes, view, key, lo, if chunked then lo else k)
      ensures Shrunk(old(view), view)
    {
      hide Stands, Pool, Steady, Inserting, MoreWrites, HostMoved, DeviceIs, Sheltered, Hit, Shrunk, HostIdle, WritesThrough, RoomFor;
      InsertAt(nodes, root, view, dev0, deviceFree, key, value, d, x, k);
      DeviceNode(nodes, root, nextId, view, holds, Both(), x);
      IncHitCount(x, chunked);
      ghost var lo := k - |nodes[x].key|;
      HitReached(old(nodes), root, old(view), old(holds), dev0, deviceFree, key, value, d, x, k, nodes, view, holds, lo, if chunked then lo else k);
    }

    /** The next node on the way of an insertion, split off if need be. */
    method InsertFind(node: Id, key: Text, ghost value: seq<Slot>, ghost dev0: map<Text, Slot>, ghost d: nat, i: nat) returns (x: Id, n: nat)
      requires Valid() && Inserting(nodes, root, view, dev0, deviceFree, key, value, d, node, i)
      requires node in nodes && i < |key| && key[i] in nodes[node].children
      modifies this`nodes, this`nextId, this`view
      ensures Valid() && Steady(old(view), view) && view.host == old(view).host
      ensures Sheltered(old(nodes), old(view), old(hostFree), nodes, view, hostFree)
      ensures Inserting(nodes, root, view, dev0, deviceFree, key, value, d, node, i)
      ensures 0 < n && i + n <= |key| && x in view.text && x in nodes && x != root && nodes[x].parent == node && view.text[x] == key[..i + n]
      ensures |nodes[x].key| == n && Hit(old(nodes), old(view), nodes, view, [], 0, 0) && Shrunk(old(view), view)
    {
      hide Stands, Pool, Steady, Inserting, SameMeaning, DeviceIs, Sheltered, RefsKept, Hit, Shrunk;
      InsertAt(nodes, root, view, dev0, deviceFree, key, value, d, node, i);
      x, n := MatchChild(node, key[i..]);
      SameText(old(view), view, node);
      ShelteredSame(old(nodes), old(view), nodes, view, hostFree);
      SteadySame(old(view), view);
      InsertSame(old(nodes), root, old(view), dev0, deviceFree, key, value, d, node, i, nodes, view);
      Along(key, i, n, nodes[x].key);
      SameShrunk(old(view), view);
    }

    /** A node on the device is a hit, an evicted one gets the slots of the key. */
    method InsertTake(x: Id, key: Text, value: seq<Slot>, chunked: bool, ghost dev0: map<Text, Slot>, ghost d: nat, ghost node: Id, i: nat, k: nat)
      returns (hit: bool)
      requires Valid() && Inserting(nodes, root, view, dev0, deviceFree, key, value, d, node, i)
      requires i < k <= |key| == |value| && x in view.text && x in nodes && x != root && nodes[x].parent == node && view.text[x] == key[..k]
      requires |nodes[x].key| == k - i
      modifies this`nodes, this`hostFree, this`view, this`evictableSize, this`protectedSize, this`holds, this`writing
      ensures Valid() && Steady(old(view), view) && MoreWrites(old(holds), holds)
      ensures Inserting(nodes, root, view, dev0, deviceFree, key, value, d, x, k)
      ensures if hit then k <= d else d <= i
      ensures |hostFree| + |view.host| == old(|hostFree| + |view.host|)
      ensures Sheltered(old(nodes), old(view), old(hostFree), nodes, view, hostFree)
      ensures Hit(old(nodes), old(view), nodes, view, key, i, if hit && !chunked then k else i) && Shrunk(old(view), view)
    {
      hide Stands, Pool, Steady, Inserting, MoreWrites, DeviceIs, Sheltered, Hit, Shrunk;
      MoreWritesSelf(holds);
      hit := nodes[x].value.Some?;
      if hit {
        InsertResident(nodes, root, nextId, view, holds, Both(), dev0, deviceFree, key, value, d, node, i, x);
        HitNode(x, chunked, dev0, key, value, d, k);
      } else {
        InsertValue(x, value[i..k], dev0, key, value, d, node, i, k);
        HitAny(old(nodes), old(view), nodes, view, [], 0, key, i);
      }
    }

    /** One node further. */
    method InsertStep(node: Id, key: Text, value: seq<Slot>, chunked: bool, ghost dev0: map<Text, Slot>, ghost d: nat, i: nat)
      returns (x: Id, k: nat, hit: bool)
      requires Valid() && Inserting(nodes, root, view, dev0, deviceFree, key, value, d, node, i)
      requires node in nodes && i < |key| && key[i] in nodes[node].children
      modifies this`nodes, this`nextId, this`hostFree, this`view, this`evictableSize, this`protectedSize, this`holds, this`writing
      ensures Valid() && Steady(old(view), view) && MoreWrites(old(holds), holds)
      ensures i < k <= |key| && Inserting(nodes, root, view, dev0, deviceFree, key, value, d, x, k)
      ensures if hit then k <= d else d <= i
      ensures |hostFree| + |view.host| == old(|hostFree| + |view.host|)
      ensures Sheltered(old(nodes), old(view), old(hostFree), nodes, view, hostFree)
      ensures Hit(old(nodes), old(view), nodes, view, key, i, if hit && !chunked then k else i) && Shrunk(old(view), view)
    {
      hide Stands, Pool, Steady, Inserting, MoreWrites, DeviceIs, Sheltered, Hit, Shrunk;
      InsertAt(nodes, root, view, dev0, deviceFree, key, value, d, node, i);
      var n;
      x, n := InsertFind(node, key, value, dev0, d, i);
      k := i + n;
      ghost var v1, nodes1 := view, nodes;
      hit := InsertTake(x, key, value, chunked, dev0, d, node, i, k);
      HitAny(old(nodes), old(view), nodes1, v1, [], 0, key, i);
      HitTrans(old(nodes), old(view), nodes1, v1, nodes, view, key, i, i, if hit && !chunked then k else i);
      ShrunkTrans(old(view), v1, view);
      SteadyTrans(old(view), v1, view);
      ShelteredTrans(old(nodes), old(view), old(hostFree), nodes1, v1, old(hostFree), nodes, view, hostFree);
    }

    /** The rest of the key becomes a leaf, hit for the first time. */
    method InsertTail(node: Id, key: Text, value: seq<Slot>, chunked: bool, ghost dev0: map<Text, Slot>, ghost d: nat, i: nat) returns (x: Id)
      requires Valid() && Inserting(nodes, root, view, dev0, deviceFree, key, value, d, node, i)
      requires node in nodes && i < |key| == |value| && key[i] !in nodes[node].children
      modifies this`nodes, this`nextId, this`hostFree, this`view, this`evictableSize, this`protectedSize, this`holds, this`writing
      ensures Valid() && Steady(old(view), view) && MoreWrites(old(holds), holds) && d <= i
      ensures Inserting(nodes, root, view, dev0, deviceFree, key, value, d, x, |key|)
      ensures |hostFree| + |view.host| == old(|hostFree| + |view.host|)
      ensures Sheltered(old(nodes), old(view), old(hostFree), nodes, view, hostFree)
      ensures Hit(old(nodes), old(view), nodes, view, key, i, i)
      ensures HitBeyond(nodes, view, key, i, if chunked then 0 else 1)
    {
      hide Stands, Pool, Steady, Inserting, MoreWrites, DeviceIs, Sheltered, HitsAt, Shrunk;
      x := InsertRest(node, key[i..], value[i..], dev0, key, value, d, i);
      ghost var v1, nodes1 := view, nodes;
      InsertAt(nodes, root, view, dev0, deviceFree, key, value, d, x, |key|);
      assert key[..|key|] == key;
      forall s | s <= key && |s| > i ensures s in view.device && HitsAt(nodes, view, s) == 0 {
        OwnHits(nodes, root, nextId, view, holds, Both(), x, s);
      }
      HitNode(x, chunked, dev0, key, value, d, |key|);
      TailHits(old(nodes), root, old(view), dev0, deviceFree, key, value, d, node, i, nodes1, v1, nodes, view, if chunked then i else |key|);
      SteadyTrans(old(view), v1, view);
      ShelteredTrans(old(nodes), old(view), old(hostFree), nodes1, v1, old(hostFree), nodes, view, hostFree);
    }

    /** Follow `key` through the tree; `prefixLen` of the `i` pages on the way were on the
        device already. */
    method InsertWalk(key: Text, value: seq<Slot>, chunked: bool, ghost dev0: map<Text, Slot>, ghost d: nat) returns (node: Id, i: nat, prefixLen: nat)
      requires Valid() && |value| == |key| && dev0 == view.device
      requires Longest(view.device, key, d) && Unused(view.device, deviceFree, value[d..])
      modifies this`nodes, this`nextId, this`hostFree, this`view, this`evictableSize, this`protectedSize, this`holds, this`writing
      ensures Valid() && i <= |key| && node in nodes && Inserting(nodes, root, view, dev0, deviceFree, key, value, d, node, i)
      ensures i < |key| ==> key[i] !in nodes[node].children
      ensures prefixLen == if i <= d then i else d
      ensures Onward(old(nodes), old(view), old(holds), old(hostFree), nodes, view, holds, hostFree)
      ensures Hit(old(nodes), old(view), nodes, view, key, 0, if chunked then 0 else prefixLen) && Shrunk(old(view), view)
    {
      hide Stands, Pool, Steady, Inserting, MoreWrites, HostMoved, DeviceIs, Unused, Sheltered, Hit, Shrunk, Longest, Onward;
      HitNone(nodes, view, key, 0);
      ShrunkSelf(view);
      node, i, prefixLen := root, 0, 0;
      OnwardSelf(nodes, view, holds, hostFree);
      InsertStart(nodes, root, nextId, view, holds, Both(), deviceFree, key, value, d);
      InsertAt(nodes, root, view, dev0, deviceFree, key, value, d, node, i);
      while i < |key| && key[i] in nodes[node].children
        invariant Valid() && i <= |key| && node in nodes
        invariant Inserting(nodes, root, view, dev0, deviceFree, key, value, d, node, i)
        invariant prefixLen == if i <= d then i else d
        invariant Onward(old(nodes), old(view), old(holds), old(hostFree), nodes, view, holds, hostFree)
        invariant Hit(old(nodes), old(view), nodes, view, key, 0, if chunked then 0 else prefixLen) && Shrunk(old(view), view)
        decreases |key| - i
      {
        ghost var v1, h1, nodes1, free1 := view, holds, nodes, hostFree;
        var k, hit;
        node, k, hit := InsertStep(node, key, value, chunked, dev0, d, i);
        HitAfter(old(nodes), old(view), nodes1, v1, nodes, view, key, prefixLen, i, k, hit, chunked);
        ShrunkTrans(old(view), v1, view);
        if hit { prefixLen := prefixLen + (k - i); }
        i := k;
        InsertAt(nodes, root, view, dev0, deviceFree, key, value, d, node, i);
        OnwardStep(old(nodes), old(view), old(holds), old(hostFree), nodes1, v1, h1, free1, nodes, view, holds, hostFree);
      }
    }

    /** Cache the slots `value` for the pages of `key`.  The result is the number
        of leading pages that were on the device already; for those the tree
        keeps its own slots, for all others it takes those of `value`. */
    method Insert(key: Text, value: seq<Slot>, chunked: bool, ghost d: nat) returns (prefixLen: nat)
      requires Valid() && |value| == |key|
      requires Longest(view.device, key, d) && Unused(view.device, deviceFree, value[d..])
      modifies this`nodes, this`nextId, this`hostFree, this`view, this`evictableSize, this`protectedSize, this`holds, this`writing
      ensures Valid() && prefixLen == d
      ensures DeviceIs(view.device, old(view).device, key, value, d, |key|)
      ensures Steady(old(view), view) && MoreWrites(old(holds), holds)
      ensures |hostFree| + |view.host| == old(|hostFree| + |view.host|)
      ensures Sheltered(old(nodes), old(view), old(hostFree), nodes, view, hostFree)
      ensures Hit(old(nodes), old(view), nodes, view, key, 0, if chunked then 0 else d)
      ensures HitNew(old(view), nodes, view, key, if chunked then 0 else 1)
    {
      hide Stands, Pool, Steady, Inserting, MoreWrites, HostMoved, DeviceIs, Unused, Sheltered, Hit, HitsAt, Shrunk, Longest, Passed, HitBeyond, HitNew;
      ghost var dev0 := view.device;
      var node, i;
      node, i, prefixLen := InsertWalk(key, value, chunked, dev0, d);
      InsertAt(nodes, root, view, dev0, deviceFree, key, value, d, node, i);
      PassedAll(nodes, root, nextId, view, holds, Both(), node, key, i);
      ghost var v1, h1, nodes1, free1 := view, holds, nodes, hostFree;
      if i < |key| {
        node := InsertTail(node, key, value, chunked, dev0, d, i);
        HitAfter(old(nodes), old(view), nodes1, v1, nodes, view, key, prefixLen, i, i, false, chunked);
        OnwardStep(old(nodes), old(view), old(holds), old(hostFree), nodes1, v1, h1, free1, nodes, view, holds, hostFree);
      } else {
        NoneBeyond(nodes, view, key, if chunked then 0 else 1);
      }
      NewAfter(old(view), v1, nodes, view, key, i, if chunked then 0 else 1);
      InsertAt(nodes, root, view, dev0, deviceFree, key, value, d, node, |key|);
    }

    // ----- Leaving the device -----

    /** The nodes on the device with no child there, but for the root. */
    method CollectLeavesDevice() returns (r: set<Id>)
      requires Core()
      ensures forall n :: n in r <==> n in view.text && n != root && DevLeaf(nodes, n)
    {
      hide Stands, Pool;
      var seen := Reach(true);
      r := set n | n in seen && n != root && DevLeaf(nodes, n);
    }

    /** A node that is on the host too leaves the device. */
    method EvictBackuped(x: Id, ghost heap: set<Id>) returns (n: nat)
      requires Core() && Removable(nodes, root, view, x) && nodes[x].value.Some? && nodes[x].hostValue.Some? && Candidates(nodes, root, view, heap)
      modifies this`nodes, this`deviceFree, this`evictableSize, this`view
      ensures Core() && DeviceLess(old(view), view, holds) && Parking(old(nodes), nodes) && n > 0
      ensures n == |deviceFree| - |old(deviceFree)| == |old(view).device| - |view.device| == old(evictableSize) - evictableSize
      ensures x in nodes && nodes[x].parent in nodes
      ensures Candidates(nodes, root, view, heap - {x} + if ChildrenOut(nodes, nodes[x].parent) then {nodes[x].parent} else {})
    {
      hide Stands, Pool, DeviceLess, Candidates;
      ghost var v' := ParkStands(nodes, root, nextId, view, holds, Both(), x, deviceFree);
      CandidatesParked(nodes, root, nextId, view, holds, Both(), heap, x, v');
      var slots := nodes[x].value.value;
      n := |slots|;
      deviceFree := deviceFree + slots;
      evictableSize := evictableSize - n;
      nodes := nodes[x := nodes[x].(value := None)];
      view := v';
    }

    /** A node that is only on the device leaves the tree.  What is below it is on
        the host only, and gone from the tree without its slots being freed:
        nothing is lost exactly when the node has no children. */
    method EvictRegular(x: Id, ghost heap: set<Id>) returns (n: nat)
      requires Core() && Removable(nodes, root, view, x) && nodes[x].value.Some? && nodes[x].hostValue.None? && Candidates(nodes, root, view, heap)
      modifies this`nodes, this`deviceFree, this`evictableSize, this`view
      ensures Core() && DeviceLess(old(view), view, holds) && Parking(old(nodes), nodes) && n > 0
      ensures n == |deviceFree| - |old(deviceFree)| == |old(view).device| - |view.device| == old(evictableSize) - evictableSize
      ensures x in nodes && nodes[x].parent in nodes
      ensures Candidates(nodes, root, view, heap - {x} + if ChildrenOut(nodes, nodes[x].parent) then {nodes[x].parent} else {})
      ensures view.host == old(view).host <==> old(nodes)[x].children == map[]
    {
      hide Stands, Pool, DeviceLess, Candidates;
      ghost var v' := RegularStands(nodes, root, nextId, view, holds, Both(), x, deviceFree, hostFree);
      LessText(nodes, root, nextId, view, holds, Both(), v');
      CandidatesCut(nodes, root, nextId, view, holds, Both(), heap, x, v');
      ParentShorter(nodes, root, nextId, view, holds, Both(), x);
      var slots := nodes[x].value.value;
      n := |slots|;
      deviceFree := deviceFree + slots;
      evictableSize := evictableSize - |nodes[x].key|;
      nodes := Unlinked(nodes, x);
      view := v';
    }

    /** Take pages that nobody holds off the device, in any order, until `num` are
        free or none is left. */
    method Evict(num: nat) returns (evicted: nat)
      requires Core()
      modifies this`nodes, this`deviceFree, this`evictableSize, this`view
      ensures Core() && DeviceLess(old(view), view, holds) && Parking(old(nodes), nodes)
      ensures evicted == |deviceFree| - |old(deviceFree)| == |old(view).device| - |view.device| == old(evictableSize) - evictableSize
      ensures evicted >= num || evictableSize == 0
      ensures forall s :: s in old(view).host ==> (s !in view.host <==> Orphan(old(view), view, s))
    {
      hide Stands, Pool, DeviceLess, Candidates, Removable, Parking, Orphan;
      DeviceNotEmpty(nodes, root, nextId, view, holds, Both());
      DeviceLessSelf(view, holds);
      ParkingSelf(nodes);
      var heap := CollectLeavesDevice();
      assert Candidates(nodes, root, view, heap) by { CandidatesAll(nodes, root, view, heap); }
      evicted := 0;
      while evicted < num && heap != {}
        invariant Core() && DeviceLess(old(view), view, holds) && Candidates(nodes, root, view, heap) && Parking(old(nodes), nodes)
        invariant evicted == |deviceFree| - |old(deviceFree)| == |old(view).device| - |view.device| == old(evictableSize) - evictableSize
        decreases |view.device|, |heap|
      {
        var x :| x in heap;
        CandidateAt(nodes, root, nextId, view, holds, Both(), heap, x);
        if nodes[x].lockRef > 0 {
          heap := heap - {x};
          continue;
        }
        ghost var v1, nodes1 := view, nodes;
        var n;
        if nodes[x].hostValue.None? {
          n := EvictRegular(x, heap);
        } else {
          n := EvictBackuped(x, heap);
        }
        DeviceLessTrans(old(view), v1, view, holds);
        ParkingTrans(old(nodes), nodes1, nodes);
        evicted := evicted + n;
        var p := nodes[x].parent;
        heap := heap - {x} + if ChildrenOut(nodes, p) then {p} else {};
      }
      if heap == {} { NothingLoose(nodes, root, nextId, view, holds, Both()); }
      HostLost(nodes, root, nextId, old(view), view, holds, Both());
    }

    // ----- Loading back -----

    /** The evicted nodes from `last` up, and the first node above that is not. */
    method FindEvicted(last: Id) returns (a: Id, path: seq<Id>, total: nat)
      requires Core() && last in view.text && last in nodes
      ensures Chain(nodes, root, view, a, path, last) && a in nodes && nodes[a].value.Some? && a in view.text
      ensures |view.text[last]| == |view.text[a]| + total
    {
      hide Stands, Pool, Chain;
      a, path, total := last, [], 0;
      ChainStart(nodes, root, nextId, view, holds, Both(), last);
      while nodes[a].value.None?
        invariant a in nodes && a in view.text && Chain(nodes, root, view, a, path, last) && |view.text[last]| == |view.text[a]| + total
        decreases |view.text[a]|
      {
        ChainUp(nodes, root, nextId, view, holds, Both(), a, path, last);
        path, total := [a] + path, total + |nodes[a].hostValue.value|;
        a := nodes[a].parent;
      }
    }

    /** Take `total` slots from the device pool, evicting if need be, unless they
        are too few to bother or too many.  The chain from `a` to `last` stays,
        because `a` is held. */
    method AllocDevice(total: nat, quota: Option<int>, delta: int, ghost a: Id, ghost path: seq<Id>, ghost last: Id) returns (r: Option<seq<Slot>>)
      requires Core() && Chain(nodes, root, view, a, path, last) && Busy in holds && holds[Busy] == a
      modifies this`nodes, this`deviceFree, this`evictableSize, this`view
      ensures Core() && DeviceLess(old(view), view, holds) && Chain(nodes, root, view, a, path, last)
      ensures r.Some? <==> total >= loadBackThreshold && (quota.Some? ==> total <= quota.value + delta) && total <= |old(deviceFree)| + old(evictableSize)
      ensures r.Some? ==> |r.value| == total >= loadBackThreshold && Unused(view.device, deviceFree, r.value)
    {
      hide Stands, Pool, Chain, DeviceLess, Parking, Unused;
      DeviceLessSelf(view, holds);
      if total < loadBackThreshold || (quota.Some? && total > quota.value + delta) { return None; }
      if |deviceFree| < total {
        var n := Evict(total);
        ChainEvicted(old(nodes), root, nextId, old(view), holds, old(Both()), a, path, last, nodes, view, Busy);
      }
      StandsSized(nodes, root, nextId, view, holds, Both());
      if |deviceFree| < total { return None; }
      PoolReserve(view.device, deviceFree, total);
      r := Some(deviceFree[..total]);
      deviceFree := deviceFree[total..];
    }

    /** Give the nodes of a chain their slots, from the top down. */
    method FillChain(a: Id, path: seq<Id>, ghost last: Id, slots: seq<Slot>)
      requires Core() && Chain(nodes, root, view, a, path, last) && a in nodes && a in view.text && last in view.text && nodes[a].value.Some?
      requires Unused(view.device, deviceFree, slots) && |view.text[last]| == |view.text[a]| + |slots|
      modifies this`nodes, this`evictableSize, this`view
      ensures Core() && Steady(old(view), view) && view.text == old(view).text && view.host == old(view).host
      ensures DeviceIs(view.device, old(view).device, view.text[last], Padded(|view.text[a]|, slots), |view.text[a]|, |view.text[last]|)
      ensures last in nodes && (last == root || nodes[last].value.Some?)
    {
      hide Stands, Pool, Chain, Inserting, Steady, DeviceIs, Unused;
      ghost var key, d, dev0, text := view.text[last], |view.text[a]|, view.device, view.text;
      ghost var value := Padded(d, slots);
      LoadStart(nodes, root, nextId, view, holds, Both(), a, path, last, deviceFree, slots);
      SteadySelf(view);
      ghost var cur := a;
      var offset, j := 0, 0;
      assert path[0..] == path;
      while j < |path|
        modifies this`nodes, this`view
        invariant Stands(nodes, root, nextId, view, holds, Sizes(evictableSize + offset, protectedSize))
        invariant Pool(view.device, deviceFree) && view.text == text && view.host == old(view).host && Steady(old(view), view)
        invariant 0 <= offset <= |slots| && j <= |path|
        invariant Inserting(nodes, root, view, dev0, deviceFree, key, value, d, cur, d + offset)
        invariant Chain(nodes, root, view, cur, path[j..], last)
      {
        ghost var z, v1 := Sizes(evictableSize + offset, protectedSize), view;
        ghost var v' := LoadStep(nodes, root, nextId, view, holds, z, dev0, deviceFree, key, value, d, cur, d + offset, path[j..], last);
        var c := path[j];
        var n := |nodes[c].hostValue.value|;
        PaddedPart(d, slots, offset, n);
        nodes := nodes[c := nodes[c].(value := Some(slots[offset..offset + n]))];
        view := v';
        SteadyTrans(old(view), v1, view);
        cur := c;
        assert path[j..][1..] == path[j + 1..];
        offset, j := offset + n, j + 1;
      }
      ChainEnd(nodes, root, view, cur, path[j..], last);
      InsertAt(nodes, root, view, dev0, deviceFree, key, value, d, cur, d + offset);
      evictableSize := evictableSize + |slots|;
    }

    /** Find room on the device for the evicted part of a chain, or leave it. */
    method ReserveChain(a: Id, path: seq<Id>, ghost last: Id, total: nat, quota: Option<int>) returns (r: Option<seq<Slot>>)
      requires Valid() && Chain(nodes, root, view, a, path, last) && a in nodes && a in view.text && nodes[a].value.Some?
      modifies this`nodes, this`deviceFree, this`evictableSize, this`protectedSize, this`view, this`holds
      ensures Valid() && holds == old(holds) && DeviceLess(old(view), view, holds) && Chain(nodes, root, view, a, path, last)
      ensures r.Some? ==> |r.value| == total >= loadBackThreshold && Unused(view.device, deviceFree, r.value)
      ensures total == Missing(old(view), old(view).text[last]) ==>
        (r.Some? <==> Loadable(old(view), old(holds), |old(deviceFree)|, old(view).text[last], quota, loadBackThreshold))
      ensures a in nodes && a in view.text && nodes[a].value.Some?
    {
      hide Stands, Pool, Chain, DeviceLess, Unused, Relocked, Loose, Spare, Missing;
      ChainEnds(nodes, root, view, a, path, last);
      StandsSized(nodes, root, nextId, view, holds, Both());
      ChainSpare(nodes, root, nextId, view, holds, Both(), a, path, last);
      var delta := IncLockRef(a, Busy);
      StandsSized(nodes, root, nextId, view, holds, Both());
      ChainRelocked(old(nodes), root, view, a, path, last, nodes);
      r := AllocDevice(total, quota, delta, a, path, last);
      DeviceLessFewer(old(view), view, old(holds), Busy, a);
      ghost var nodes1 := nodes;
      StandsHeld(nodes, root, nextId, view, holds, Both(), Busy);
      delta := DecLockRef(a, Busy);
      ChainRelocked(nodes1, root, view, a, path, last, nodes);
      RelockedAt(nodes1, nodes, a);
      NoBusy(old(holds), holds, a);
    }

    /** Bring an evicted node back to the device, with all evicted nodes above it,
        or none at all; the node is held until the copy is acknowledged. */
    method LoadBack(node: Id, quota: Option<int>) returns (r: Option<seq<Slot>>)
      requires Valid() && node in view.text && node in nodes && nodes[node].value.None?
      modifies this`nodes, this`deviceFree, this`evictableSize, this`protectedSize, this`view, this`holds, this`loading
      ensures Valid() && node in view.text && view.text[node] == old(view).text[node] && node in nodes
      ensures r.Some? <==> Loadable(old(view), old(holds), |old(deviceFree)|, old(view).text[node], quota, loadBackThreshold)
      ensures r.Some? ==> |r.value| == Missing(old(view), old(view).text[node])
      ensures r.None? ==> holds == old(holds) && DeviceLess(old(view), view, holds)
      ensures r.Some? ==> holds == old(holds)[Load(node) := node] && Load(node) !in old(holds)
      ensures r.Some? ==> |r.value| <= |view.text[node]| && Loaded(old(view), view, old(holds), view.text[node], |view.text[node]| - |r.value|, r.value)
    {
      hide Stands, Pool, Chain, DeviceLess, Unused, Relocked, Loaded, DeviceIs, Steady, Missing, Loadable;
      NotLoading(nodes, root, nextId, view, holds, Both(), node);
      var a, path, total := FindEvicted(node);
      ChainMissing(nodes, root, nextId, view, holds, Both(), a, path, node);
      r := ReserveChain(a, path, node, total, quota);
      ChainText(old(view), view, holds, nodes, root, a, path, node);
      if r.None? { return; }
      ghost var v1 := view;
      FillChain(a, path, node, r.value);
      LoadedBy(old(view), v1, view, holds, view.text[node], |view.text[a]|, r.value);
      loading := loading + {node};
      ghost var nodes1 := nodes;
      var delta := IncLockRef(node, Load(node));
      RelockedAt(nodes1, nodes, node);
    }

    // ----- Pages fetched to the host -----

    /** Follow `key` below `node` as far as the tree goes. */
    method WalkBelow(node: Id, key: Text) returns (cur: Id, matched: nat)
      requires Core() && node in view.text && node in nodes
      modifies this`nodes, this`nextId, this`view
      ensures Core() && SameMeaning(old(view), view) && cur in view.text && cur in nodes && RefsKept(old(nodes), nodes)
      ensures matched <= |key| && view.text[cur] == old(view).text[node] + key[..matched]
      ensures matched == |key| || key[matched] !in nodes[cur].children
    {
      hide Stands, Pool, SameMeaning;
      cur, matched := node, 0;
      SameMeaningSelf(view);
      while matched < |key| && key[matched] in nodes[cur].children
        invariant Core() && SameMeaning(old(view), view) && cur in view.text && cur in nodes && RefsKept(old(nodes), nodes)
        invariant matched <= |key| && view.text[cur] == old(view).text[node] + key[..matched]
        decreases |key| - matched
      {
        ghost var v1 := view;
        var x, n := MatchChild(cur, key[matched..]);
        SameText(v1, view, cur);
        SameMeaningTrans(old(view), v1, view);
        Along(key, matched, n, nodes[x].key);
        cur, matched := x, matched + n;
      }
    }

    /** Cache host slots for the pages of `key` below `node`.  The result is the
        number of leading pages that were cached already, and whose slots are not
        taken over. */
    method InsertHelperHost(node: Id, key: Text, slots: seq<Slot>) returns (matched: nat)
      requires Core() && node in view.text && node in nodes && |slots| == |key| && Unused(view.host, hostFree, slots)
      modifies this`nodes, this`nextId, this`view
      ensures Core() && matched <= |key| && RefsKept(old(nodes), nodes)
      ensures Longest(old(view).home, old(view).text[node] + key, |old(view).text[node]| + matched)
      ensures HostedFrom(old(view), view, old(view).text[node] + key, |old(view).text[node]| + matched, slots[matched..])
    {
      hide Stands, Pool, SameMeaning, Longest, Unused, HostedFrom, RefsKept;
      ghost var base := view.text[node];
      ghost var full := base + key;
      var cur;
      cur, matched := WalkBelow(node, key);
      ghost var lo := |base| + matched;
      FullParts(base, key, matched);
      HostHome(nodes, root, nextId, view, holds, Both(), cur, full, lo);
      SameHome(old(view), view, full, lo);
      if matched < |key| {
        ghost var v1, nodes1 := view, nodes;
        UnusedRest(old(view), view, hostFree, slots, matched);
        AddHostLeaf(cur, key[matched..], slots[matched..], full, lo);
        RefsTrans(old(nodes), nodes1, nodes);
        HostedAfter(old(view), v1, view, full, lo, slots[matched..]);
      } else {
        HostedNone(old(view), view, full, slots[matched..]);
      }
    }

    /** Add a leaf that is only on the host. */
    method AddHostLeaf(cur: Id, rest: Text, slots: seq<Slot>, ghost full: Text, ghost lo: nat)
      requires Core() && cur in view.text && cur in nodes && lo < |full| && view.text[cur] == full[..lo] && rest == full[lo..]
      requires rest[0] !in nodes[cur].children && |slots| == |rest| && Unused(view.host, hostFree, slots)
      modifies this`nodes, this`nextId, this`view
      ensures Core() && HostedFrom(old(view), view, full, lo, slots) && RefsKept(old(nodes), nodes)
    {
      hide Stands, Pool, Unused, HostedFrom;
      ghost var v' := HostLeafStands(nodes, root, nextId, view, holds, Both(), hostFree, cur, full, lo, slots);
      HostedDevice(view, v', full, lo, slots);
      RefsAdded(nodes, root, nextId, view, holds, Both(), Leaf(cur, rest, None, Some(slots)));
      nodes := AfterAdd(nodes, nextId, Leaf(cur, rest, None, Some(slots)));
      nextId := nextId + 1;
      view := v';
    }
  }
}
