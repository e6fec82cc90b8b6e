/** How much the host can give up. */
module HiRoom {
  import opened HiTree
  import opened HiLocks
  import opened HiPool
  import opened HiState
  import opened HiMatch
  import opened HiEvict

  /** A page that is on the host alone, with nobody holding its node or one below. */
  ghost predicate Idle(nodes: Nodes, v: View, s: Text) {
    s in v.host && s !in v.device && forall n :: n in v.text && n in nodes && nodes[n].hostRef > 0 ==> !(s <= v.text[n])
  }

  ghost function HostIdle(nodes: Nodes, v: View): (r: set<Text>) {
    set s | s in v.host && Idle(nodes, v, s)
  }

  /** A cached page that is not on the device is on the host. */
  lemma SomeTier(nodes: Nodes, root: Id, next: Id, v: View, holds: Holds, z: Sizes, n: Id, s: Text)
    requires Stands(nodes, root, next, v, holds, z) && n in v.text && s <= v.text[n] && s != [] && s !in v.device
    ensures s in v.host && s in v.home
  {
    hide Closed, Held, Flying, Sized, Counted;
    var tree := Alive(nodes, v.text);
    AliveNode(nodes, root, v, holds, z, n);
    PrefixHome(tree, root, v, n, s);
    HomeInside(tree, root, v, s);
  }

  lemma IdleStays(n0: Nodes, v0: View, f0: seq<Slot>, n1: Nodes, v1: View, f1: seq<Slot>, s: Text)
    requires Thinned(n0, v0, f0, n1, v1, f1) && s in v1.host
    ensures Idle(n0, v0, s) <==> Idle(n1, v1, s)
  {
    hide Places;
  }

  lemma IdleGoes(n0: Nodes, v0: View, f0: seq<Slot>, n1: Nodes, root: Id, next: Id, v1: View, holds: Holds, z: Sizes, f1: seq<Slot>, s: Text)
    requires Thinned(n0, v0, f0, n1, v1, f1) && Stands(n1, root, next, v1, holds, z) && s in v0.host && s !in v1.host && s != []
    ensures Idle(n0, v0, s)
  {
    hide Places, Stands;
    forall n | n in v0.text && n in n0 && n0[n].hostRef > 0 ensures !(s <= v0.text[n]) {
      if s <= v0.text[n] { SomeTier(n1, root, next, v1, holds, z, n, s); }
    }
  }

  lemma HostPages(nodes: Nodes, root: Id, next: Id, v: View, holds: Holds, z: Sizes)
    requires Stands(nodes, root, next, v, holds, z)
    ensures [] !in v.host
  {
    hide Closed, Held, Flying, Sized, Counted, Alive;
    if [] in v.host { HomeInside(Alive(nodes, v.text), root, v, []); }
  }

  lemma IdleSplit(n0: Nodes, v0: View, n1: Nodes, v1: View)
    requires forall s :: s in v1.host ==> s in v0.host && (Idle(n0, v0, s) <==> Idle(n1, v1, s))
    requires forall s :: s in v0.host && s !in v1.host ==> Idle(n0, v0, s)
    ensures |HostIdle(n0, v0)| - |HostIdle(n1, v1)| == |v0.host| - |v1.host|
  {
    hide Idle, HostIdle;
    forall s ensures s in HostIdle(n0, v0) <==> s in v0.host && Idle(n0, v0, s) { IdleIn(n0, v0, s); }
    forall s ensures s in HostIdle(n1, v1) <==> s in v1.host && Idle(n1, v1, s) { IdleIn(n1, v1, s); }
    SplitSizes(HostIdle(n0, v0), HostIdle(n1, v1), v0.host.Keys, v1.host.Keys);
    KeysSize(v0.host);
    KeysSize(v1.host);
  }

  lemma IdleIn(nodes: Nodes, v: View, s: Text)
    ensures s in HostIdle(nodes, v) <==> s in v.host && Idle(nodes, v, s)
  {
    hide Idle;
  }

  lemma SplitSizes(a: set<Text>, b: set<Text>, all: set<Text>, some: set<Text>)
    requires b <= some <= all && (forall s :: s in some ==> (s in a <==> s in b)) && (forall s :: s in all && s !in some ==> s in a) && a <= all
    ensures |a| - |b| == |all| - |some|
  {
    var gone := all - some;
    assert a == b + gone;
    assert all == some + gone;
  }

  /** Thinning the host out frees idle pages, and only those. */
  lemma ThinnedIdle(n0: Nodes, root: Id, next: Id, v0: View, holds: Holds, z: Sizes, f0: seq<Slot>, n1: Nodes, v1: View, f1: seq<Slot>)
    requires Thinned(n0, v0, f0, n1, v1, f1) && Stands(n0, root, next, v0, holds, z) && Stands(n1, root, next, v1, holds, z)
    ensures |f1| - |f0| == |HostIdle(n0, v0)| - |HostIdle(n1, v1)|
  {
    hide Places, Stands, Idle, Guarded, Pruned, HostIdle;
    HostPages(n0, root, next, v0, holds, z);
    forall s | s in v1.host ensures s in v0.host && (Idle(n0, v0, s) <==> Idle(n1, v1, s)) { IdleStays(n0, v0, f0, n1, v1, f1, s); }
    forall s | s in v0.host && s !in v1.host ensures Idle(n0, v0, s) { IdleGoes(n0, v0, f0, n1, root, next, v1, holds, z, f1, s); }
    IdleSplit(n0, v0, n1, v1);
  }

  /** A deepest node at or below `x`. */
  lemma {:induction false} Deepest(text: map<Id, Text>, x: Id) returns (d: Id)
    requires x in text
    ensures d in text && text[x] <= text[d] && forall n :: n in text && text[d] <= text[n] ==> |text[n]| <= |text[d]|
    decreases |text|
  {
    if n :| n in text && text[x] <= text[n] && |text[n]| > |text[x]| {
      TextLess(text, x);
      d := Deepest(text - {x}, n);
      assert forall m :: m in text && m != x ==> m in text - {x} && (text - {x})[m] == text[m];
    } else {
      d := x;
    }
  }

  lemma LeafBelow(nodes: Nodes, root: Id, next: Id, v: View, holds: Holds, z: Sizes, x: Id) returns (d: Id)
    requires Stands(nodes, root, next, v, holds, z) && x in v.text
    ensures d in v.text && d in nodes && v.text[x] <= v.text[d] && nodes[d].children == map[]
  {
    hide Tiered, Closed, Held, Flying, Sized, Counted;
    var tree := Alive(nodes, v.text);
    d := Deepest(v.text, x);
    AliveNode(nodes, root, v, holds, z, d);
    forall u | u in nodes[d].children ensures false {
      NodeChild(tree, root, v, d, u);
      NodeHung(tree, root, v, nodes[d].children[u]);
    }
  }

  /** When no leaf may leave the host, no page may. */
  lemma NoneIdle(nodes: Nodes, root: Id, next: Id, v: View, holds: Holds, z: Sizes)
    requires Stands(nodes, root, next, v, holds, z) && Awaiting(nodes, root, v, {})
    ensures HostIdle(nodes, v) == {}
  {
    hide Stands;
    forall s | s in v.host ensures !Idle(nodes, v, s) {
      if Idle(nodes, v, s) { IdleLeaf(nodes, root, next, v, holds, z, s); }
    }
  }

  lemma IdleLeaf(nodes: Nodes, root: Id, next: Id, v: View, holds: Holds, z: Sizes, s: Text)
    requires Stands(nodes, root, next, v, holds, z) && Idle(nodes, v, s)
    ensures !Awaiting(nodes, root, v, {})
  {
    hide Closed, Held, Flying, Sized, Counted, Shaped, Alive;
    var tree := Alive(nodes, v.text);
    HomeInside(tree, root, v, s);
    var d := LeafBelow(nodes, root, next, v, holds, z, v.home[s]);
    AliveNode(nodes, root, v, holds, z, d);
    StandsClosed(nodes, root, next, v, holds, z);
    ClosedAt(v.device, v.text[d], s);
  }

  lemma ThinningThinned(n0: Nodes, v0: View, f0: seq<Slot>, n1: Nodes, v1: View, f1: seq<Slot>, last: Id, num: nat)
    requires Thinning(n0, v0, f0, n1, v1, f1, last, num)
    ensures Thinned(n0, v0, f0, n1, v1, f1)
  {
  }

  /** Only holders on the host matter for that. */
  lemma IdleSame(nodes: Nodes, v: View, x: Id, n: Node)
    requires x in nodes && n.hostRef == nodes[x].hostRef
    ensures HostIdle(nodes[x := n], v) == HostIdle(nodes, v)
  {
    forall s | s in v.host ensures Idle(nodes[x := n], v, s) <==> Idle(nodes, v, s) { }
  }

  /** Idle pages off the way to a node. */
  ghost function IdleBeside(nodes: Nodes, v: View, x: Id): (r: set<Text>)
    requires x in v.text
  {
    set s | s in HostIdle(nodes, v) && !(s <= v.text[x])
  }

  /** Holding a node leaves those. */
  lemma IdleHeld(nodes: Nodes, v: View, x: Id, n: Node)
    requires x in nodes && x in v.text && n.hostRef > 0
    ensures HostIdle(nodes[x := n], v) == IdleBeside(nodes, v, x)
  {
    var now := nodes[x := n];
    forall s | s in v.host ensures Idle(now, v, s) <==> Idle(nodes, v, s) && !(s <= v.text[x]) {
      if Idle(now, v, s) { assert x in now && now[x].hostRef > 0; }
    }
  }
}
