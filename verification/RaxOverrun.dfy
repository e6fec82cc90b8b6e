/** When a removal copies past the end of the node it joins a chain into, told
    from the tree before the removal. */
module RaxOverrun {
  import opened RaxTree
  import opened RaxMemory
  import opened RaxEdit
  import opened RaxInsertion
  import opened RaxWalk
  import opened RaxShrink
  import opened RaxRemoval
  import opened RaxJoin

  // ----- Where a key is -----

  /** In the node at `p`, or in the inline leaf in slot `k` of that node. */
  datatype Place = NodeKey(p: seq<nat>) | LeafKey(p: seq<nat>, k: nat)

  ghost predicate PlaceIn(t: Tree, x: Place) {
    && ValidPath(t, x.p)
    && (x.NodeKey? ==> At(t, x.p).key.Some?)
    && (x.LeafKey? ==> x.k < |At(t, x.p).slots| && At(t, x.p).slots[x.k].Leaf?)
  }

  /** A place of a subtree as a place of the tree. */
  function Deeper(q: seq<nat>, x: Option<Place>): (r: Option<Place>) {
    if x.None? then None else Some(x.value.(p := q + x.value.p))
  }

  ghost function PlaceOf(t: Tree, s: seq<Byte>): (r: Option<Place>)
    ensures r.Some? ==> PlaceIn(t, r.value)
  {
    if s == [] then (if t.key.Some? then Some(NodeKey([])) else None)
    else
      var i := Pick(t, s);
      if i >= |t.slots| then None
      else match t.slots[i]
        case Leaf(_) => if s == Label(t, i) then Some(LeafKey([], i)) else None
        case Sub(c) =>
          var x := PlaceOf(c, s[|Label(t, i)|..]);
          assert x.Some? ==> ([i] + x.value.p)[1..] == x.value.p;
          Deeper([i], x)
  }

  lemma PlaceLabel(t: Tree, i: nat, r: seq<Byte>)
    requires NodeOk(t) && i < |t.slots| && t.slots[i].Sub?
    ensures PlaceOf(t, Label(t, i) + r) == Deeper([i], PlaceOf(t.slots[i].t, r))
  {
    PickLabel(t, i, r);
  }

  lemma DeeperTwice(q: seq<nat>, r: seq<nat>, x: Option<Place>)
    ensures Deeper(q, Deeper(r, x)) == Deeper(q + r, x) && Deeper([], x) == x
  {
    if x.Some? {
      assert q + (r + x.value.p) == q + r + x.value.p;
      assert [] + x.value.p == x.value.p;
    }
  }

  lemma {:induction false} PlaceAt(t: Tree, p: seq<nat>, r: seq<Byte>)
    requires Ok(t) && ValidPath(t, p)
    ensures PlaceOf(t, PathLabel(t, p) + r) == Deeper(p, PlaceOf(At(t, p), r))
  {
    hide PlaceOf, Deeper;
    DeeperTwice([], [], PlaceOf(At(t, p), r));
    if p == [] {
      assert [] + r == r;
    } else {
      var k := t.slots[p[0]].t;
      PlaceAt(k, p[1..], r);
      PlaceLabel(t, p[0], PathLabel(k, p[1..]) + r);
      assert PathLabel(t, p) + r == Label(t, p[0]) + (PathLabel(k, p[1..]) + r);
      DeeperTwice([p[0]], p[1..], PlaceOf(At(t, p), r));
      assert [p[0]] + p[1..] == p;
    }
  }

  /** The walk stops where the key is. */
  lemma StoppedPlace(t: Tree, s: seq<Byte>, w: Stop, p: seq<nat>)
    requires Ok(t) && Stopped(t, s, w, p) && w.i == |s|
    ensures w.inlineLeaf ==> PlaceOf(t, s) == Some(LeafKey(p, w.plink.idx))
    ensures !w.inlineLeaf && w.splitpos == 0 && At(t, p).key.Some? ==> PlaceOf(t, s) == Some(NodeKey(p))
  {
    var n := At(t, p);
    OkAt(t, p);
    assert s[..w.i] == s;
    if w.inlineLeaf {
      PlaceAt(t, p, Label(n, w.plink.idx));
      PickLabel(n, w.plink.idx, []);
      assert Label(n, w.plink.idx) + [] == Label(n, w.plink.idx);
      assert p + [] == p;
    } else if w.splitpos == 0 && n.key.Some? {
      assert PathLabel(t, p) + [] == s;
      PlaceAt(t, p, []);
      assert p + [] == p;
    }
  }

  lemma NoPlace(t: Tree, s: seq<Byte>)
    requires Ok(t)
    ensures PlaceOf(t, s).Some? <==> Lookup(t, s).Some?
  {
    if s != [] {
      PickCases(t, s);
      var i := Pick(t, s);
      if i < |t.slots| && t.slots[i].Sub? { NoPlace(t.slots[i].t, s[|Label(t, i)|..]); }
    }
  }

  // ----- What is left before nodes are joined -----

  /** How much is left of the path to an empty node once the chain that led only
      to it has been freed. */
  ghost function Anchor(t: Tree, p: seq<nat>): (n: nat)
    requires ValidPath(t, p) && p != []
    ensures n < |p| && ValidPath(t, p[..n]) && p[n] < |At(t, p[..n]).slots|
    decreases |p|
  {
    PathPrefix(t, p);
    var q := p[..|p| - 1];
    if q == [] || !Joinable(At(t, q)) then |q|
    else
      var n := Anchor(t, q);
      assert q[..n] == p[..n];
      n
  }

  /** The tree without an empty node and what led only to it, and the node that
      lost a slot. */
  ghost function Emptied(t: Tree, p: seq<nat>): (r: (Tree, seq<nat>))
    requires ValidPath(t, p)
    ensures ValidPath(r.0, r.1)
  {
    if p == [] then (t, [])
    else
      var q := p[..Anchor(t, p)];
      var u := DropSlot(At(t, q), p[|q|]);
      ReplaceValid(t, q, u);
      (Replace(t, q, u), q)
  }

  /** The node that holds the key, without it. */
  ghost function Lost(t: Tree, x: Place): (u: Tree)
    requires PlaceIn(t, x)
  {
    if x.LeafKey? then DropSlot(At(t, x.p), x.k) else At(t, x.p).(key := None)
  }

  /** The tree once the node at `p` has become `u`, freed if that holds nothing. */
  ghost function Settled(t: Tree, p: seq<nat>, u: Tree): (r: (Tree, seq<nat>))
    requires ValidPath(t, p)
    ensures ValidPath(r.0, r.1)
  {
    ReplaceValid(t, p, u);
    if u.slots == [] && u.key.None? then Emptied(Replace(t, p, u), p) else (Replace(t, p, u), p)
  }

  ghost function Bare(t: Tree, x: Place): (r: (Tree, seq<nat>))
    requires PlaceIn(t, x)
    ensures ValidPath(r.0, r.1)
  {
    Settled(t, x.p, Lost(t, x))
  }

  lemma LeafBare(t: Tree, s: seq<Byte>, w: Stop, p: seq<nat>)
    requires Ok(t) && Stopped(t, s, w, p) && w.inlineLeaf && w.i == |s|
    ensures PlaceOf(t, s).Some? && Bare(t, PlaceOf(t, s).value) == Settled(t, p, DropSlot(At(t, p), w.plink.idx))
  {
    hide Settled, PlaceOf, DropSlot;
    StoppedPlace(t, s, w, p);
  }

  lemma KeyBare(t: Tree, s: seq<Byte>, w: Stop, p: seq<nat>)
    requires Ok(t) && Stopped(t, s, w, p) && !w.inlineLeaf && w.i == |s| && w.splitpos == 0 && At(t, p).key.Some?
    ensures PlaceOf(t, s).Some? && Bare(t, PlaceOf(t, s).value) == Settled(t, p, At(t, p).(key := None))
  {
    hide Settled, PlaceOf;
    StoppedPlace(t, s, w, p);
  }

  lemma SingleRecord(n: RaxNode, t: Tree)
    requires Mirrors(n, t)
    ensures |n.data| == 1 && !n.iskey <==> Single(t)
  {
  }

  /** One turn of the way up from an empty node. */
  lemma AnchorStep(t: Tree, p: seq<nat>)
    requires ValidPath(t, p) && p != []
    ensures ValidPath(t, p[..|p| - 1])
    ensures var q := p[..|p| - 1]; Anchor(t, p) == if q == [] || !Joinable(At(t, q)) then |q| else Anchor(t, q)
  {
    PathPrefix(t, p);
  }

  lemma ClearableJoin(t: Tree)
    ensures forall a :: Clearable(t, Some(a)) <==> Joinable(t)
  {
  }

  /** A node that asks to be joined with its neighbours. */
  predicate Single(t: Tree) {
    |t.edges| == 1 && t.key.None?
  }

  lemma NotSingle(st: State, t: Tree, m: Contents, p: seq<nat>, h: Addr, ts: seq<Addr>)
    requires Shrunk(st, t, m, p, h, ts) && ValidPath(t, p) && At(t, p).slots == []
    ensures !Single(At(t, p))
  {
    ShrunkNode(st, t, m, p, h, ts);
  }

  /** Removing `s` asks for a join, and the chain around the node that asks is
      longer than a node although its first two nodes would fit in one. */
  ghost predicate Overruns(t: Tree, s: seq<Byte>) {
    PlaceOf(t, s).Some? &&
    var r := Bare(t, PlaceOf(t, s).value);
    Single(At(r.0, r.1)) && Overlong(At(r.0, Top(r.0, r.1)))
  }

  // ----- Two keys that part -----

  /** The only keys are `x` and `y`. */
  ghost predicate Holds(t: Tree, x: seq<Byte>, y: seq<Byte>) {
    forall s :: Lookup(t, s).Some? <==> s == x || s == y
  }

  lemma SlotKey(t: Tree, i: nat) returns (r: seq<Byte>)
    requires Ok(t) && Ripe(t) && i < |t.slots|
    ensures LookupSlot(t.slots[i], r).Some? && Lookup(t, Label(t, i) + r).Some? && Label(t, i) != []
  {
    r := [];
    if t.slots[i].Sub? { r := KeyBelow(t.slots[i].t); }
    LookupLabel(t, i, r);
    PickLabel(t, i, r);
  }

  /** Each slot begins one of the keys. */
  lemma SlotHolds(t: Tree, x: seq<Byte>, y: seq<Byte>, i: nat)
    requires Ok(t) && Ripe(t) && Holds(t, x, y) && i < |t.slots|
    ensures Label(t, i) != [] && (Label(t, i) <= x || Label(t, i) <= y)
  {
    hide Lookup;
    var r := SlotKey(t, i);
    assert Label(t, i) <= Label(t, i) + r;
  }

  /** All keys of a node with one slot pass through it. */
  lemma OnlySlot(t: Tree, x: seq<Byte>, y: seq<Byte>)
    requires Ok(t) && Joinable(t) && Holds(t, x, y)
    ensures t.edges <= x && t.edges <= y
    ensures t.slots[0].Sub? ==> Holds(t.slots[0].t, x[|t.edges|..], y[|t.edges|..])
    ensures t.slots[0].Leaf? ==> x == y == t.edges
  {
    hide Lookup;
    var l := t.edges;
    assert Lookup(t, x).Some? && Lookup(t, y).Some?;
    LookupOneSlot(t, x);
    LookupOneSlot(t, y);
    if t.slots[0].Sub? {
      forall s ensures Lookup(t.slots[0].t, s).Some? <==> s == x[|l|..] || s == y[|l|..] {
        LookupOneSlot(t, l + s);
        assert (l + s)[|l|..] == s;
        assert x == l + x[|l|..] && y == l + y[|l|..];
      }
    }
  }

  /** The nodes that hold one key form a chain. */
  lemma {:induction false} OneKey(t: Tree, x: seq<Byte>)
    requires Ok(t) && Ripe(t) && Useful(t) && Holds(t, x, x) && x != []
    ensures Joinable(t) && RunLabel(t) == x
    decreases t
  {
    hide Lookup, Holds;
    KeyNone(t, x, x);
    forall i | 0 <= i < |t.slots| ensures Label(t, i) <= x { SlotHolds(t, x, x, i); }
    OneWay(t, x);
    OnlySlot(t, x, x);
    if t.slots[0].Sub? {
      var c, y := t.slots[0].t, x[|t.edges|..];
      if y == [] { KeySome(c, y, y); } else { OneKey(c, y); }
      assert x == t.edges + y;
    }
  }

  /** Slots that begin the same string are the same. */
  lemma OneWay(t: Tree, x: seq<Byte>)
    requires NodeOk(t) && t.slots != [] && forall i :: 0 <= i < |t.slots| ==> Label(t, i) <= x
    ensures OneSlot(t)
  {
    if !t.compr {
      HeadOf(Label(t, 0), x);
      forall i | 0 <= i < |t.slots| ensures t.edges[i] == x[0] { assert Label(t, i) == [t.edges[i]]; }
      OneByte(t.edges, x[0]);
    }
  }

  lemma OneByte(edges: seq<Byte>, b: Byte)
    requires Sorted(edges) && edges != [] && forall i :: 0 <= i < |edges| ==> edges[i] == b
    ensures |edges| == 1
  {
    FirstThree(edges);
  }

  lemma FirstThree(edges: seq<Byte>)
    requires Sorted(edges)
    ensures |edges| > 1 ==> edges[0] < edges[1]
    ensures |edges| > 2 ==> edges[1] < edges[2]
  {
  }

  lemma TwoBytes(edges: seq<Byte>, a: Byte, b: Byte)
    requires Sorted(edges) && a in edges && b in edges && a != b && forall i :: 0 <= i < |edges| ==> edges[i] == a || edges[i] == b
    ensures edges == [a, b] || edges == [b, a]
  {
    FirstThree(edges);
  }

  lemma KeyNone(t: Tree, x: seq<Byte>, y: seq<Byte>)
    requires Holds(t, x, y) && x != [] && y != []
    ensures t.key.None?
  {
    assert Lookup(t, []).None?;
  }

  lemma KeySome(t: Tree, x: seq<Byte>, y: seq<Byte>)
    requires Holds(t, x, y) && x == []
    ensures t.key.Some?
  {
    assert Lookup(t, []).Some?;
  }

  /** Strings that part after `u`, at `b` and `c`. */
  function Long(u: seq<Byte>, b: Byte, v: seq<Byte>): (x: seq<Byte>) {
    u + ([b] + v)
  }

  function Short(u: seq<Byte>, c: Byte): (y: seq<Byte>) {
    u + [c]
  }

  /** The node where two keys part. */
  lemma ForkNode(n: Tree, b: Byte, v: seq<Byte>, c: Byte) returns (k: nat)
    requires Ok(n) && Ripe(n) && Useful(n) && Holds(n, Long([], b, v), Short([], c)) && b != c
    ensures n.key.None? && !n.compr && |n.slots| == 2 && k < 2 && n.edges[k] == c && n.edges[1 - k] == b
    ensures n.slots[k].Sub? ==> n.slots[k].t.slots == [] && n.slots[k].t.key.Some?
  {
    hide Lookup, Holds;
    var x, y := Long([], b, v), Short([], c);
    assert y == [c] && x == [b] + v;
    KeyNone(n, x, y);
    forall i | 0 <= i < |n.slots| ensures Label(n, i) != [] && (Label(n, i) <= x || Label(n, i) <= y) { SlotHolds(n, x, y, i); }
    ForkShape(n, x, y);
    k := if n.edges[0] == c then 0 else 1;
    if n.slots[k].Sub? { ForkLeaf(n, x, c, k); }
  }

  lemma ForkShape(n: Tree, x: seq<Byte>, y: seq<Byte>)
    requires Ok(n) && n.key.None? && Holds(n, x, y) && x != [] && |y| == 1 && x[0] != y[0]
    requires forall i :: 0 <= i < |n.slots| ==> Label(n, i) != [] && (Label(n, i) <= x || Label(n, i) <= y)
    ensures !n.compr && |n.slots| == 2 && (n.edges == [x[0], y[0]] || n.edges == [y[0], x[0]])
  {
    assert Lookup(n, x).Some? && Lookup(n, y).Some?;
    PickCases(n, x);
    PickCases(n, y);
    var i, j := Pick(n, x), Pick(n, y);
    assert Label(n, i) <= x && Label(n, j) <= y;
    HeadOf(Label(n, i), x);
    HeadOf(Label(n, j), y);
    assert !n.compr;
    assert n.edges[i] == x[0] && n.edges[j] == y[0];
    forall l | 0 <= l < |n.edges| ensures n.edges[l] == x[0] || n.edges[l] == y[0] { assert Label(n, l) == [n.edges[l]]; }
    TwoBytes(n.edges, x[0], y[0]);
  }

  lemma HeadOf(l: seq<Byte>, x: seq<Byte>)
    requires l != [] && l <= x
    ensures x != [] && l[0] == x[0]
  {
  }

  lemma ForkLeaf(n: Tree, x: seq<Byte>, c: Byte, k: nat)
    requires Ok(n) && Ripe(n) && Holds(n, x, [c]) && x != [] && x[0] != c && !n.compr && k < |n.slots| && n.edges[k] == c && n.slots[k].Sub?
    ensures n.slots[k].t.slots == [] && n.slots[k].t.key.Some?
  {
    hide Lookup;
    var u := n.slots[k].t;
    assert Label(n, k) == [c];
    forall r ensures Lookup(u, r).Some? <==> r == [] {
      LookupLabel(n, k, r);
      assert ([c] + r)[0] == c;
      assert [c] + r == [c] <==> r == [];
    }
    assert Holds(u, [], []);
    KeySome(u, [], []);
    if u.slots != [] { SlotHolds(u, [], [], 0); }
  }

  /** Above it, a chain. */
  lemma {:induction false} ForkPath(t: Tree, u: seq<Byte>, b: Byte, v: seq<Byte>, c: Byte) returns (p: seq<nat>)
    requires Ok(t) && Ripe(t) && Useful(t) && Holds(t, Long(u, b, v), Short(u, c)) && b != c
    ensures ValidPath(t, p) && PathLabel(t, p) == u && Holds(At(t, p), Long([], b, v), Short([], c))
    ensures forall i :: 0 <= i < |p| ==> ValidPath(t, p[..i]) && Joinable(At(t, p[..i]))
    ensures p == [] <==> u == []
    decreases t
  {
    hide Lookup, Holds, PathLabel, Label;
    var x, y := Long(u, b, v), Short(u, c);
    if u == [] {
      p := [];
      assert PathLabel(t, p) == [] by { NoPath(t); }
    } else {
      KeyNone(t, x, y);
      forall i | 0 <= i < |t.slots| ensures Label(t, i) != [] && (Label(t, i) <= x || Label(t, i) <= y) { SlotHolds(t, x, y, i); }
      ForkAbove(t, x, y);
      OnlySlot(t, x, y);
      var l := t.edges;
      ForkRest(u, b, v, c, l);
      var d := t.slots[0].t;
      var q := ForkPath(d, u[|l|..], b, v, c);
      p := [0] + q;
      ForkDown(t, q);
      assert u == l + u[|l|..];
    }
  }

  lemma NoPath(t: Tree)
    ensures PathLabel(t, []) == []
  {
  }

  lemma ForkDown(t: Tree, q: seq<nat>)
    requires NodeOk(t) && Joinable(t) && |t.slots| > 0 && t.slots[0].Sub? && ValidPath(t.slots[0].t, q)
    requires forall i :: 0 <= i < |q| ==> ValidPath(t.slots[0].t, q[..i]) && Joinable(At(t.slots[0].t, q[..i]))
    ensures var p, d := [0] + q, t.slots[0].t;
      && ValidPath(t, p) && PathLabel(t, p) == t.edges + PathLabel(d, q) && At(t, p) == At(d, q)
      && forall i :: 0 <= i < |p| ==> ValidPath(t, p[..i]) && Joinable(At(t, p[..i]))
  {
    var p := [0] + q;
    assert p[1..] == q;
    forall i | 0 <= i < |p| ensures ValidPath(t, p[..i]) && Joinable(At(t, p[..i])) {
      if i > 0 { assert p[..i][1..] == q[..i - 1] && p[..i][0] == 0; }
    }
  }

  lemma ForkAbove(t: Tree, x: seq<Byte>, y: seq<Byte>)
    requires NodeOk(t) && Useful(t) && t.key.None? && x != [] && y != [] && x[0] == y[0]
    requires forall i :: 0 <= i < |t.slots| ==> Label(t, i) != [] && (Label(t, i) <= x || Label(t, i) <= y)
    ensures Joinable(t)
  {
    if !t.compr {
      forall i | 0 <= i < |t.slots| ensures Label(t, i) <= x { assert Label(t, i) == [t.edges[i]]; }
      OneWay(t, x);
    }
  }

  lemma ForkRest(u: seq<Byte>, b: Byte, v: seq<Byte>, c: Byte, l: seq<Byte>)
    requires b != c && l <= Long(u, b, v) && l <= Short(u, c)
    ensures l <= u && Long(u, b, v)[|l|..] == Long(u[|l|..], b, v) && Short(u, c)[|l|..] == Short(u[|l|..], c)
    ensures !(Long(u, b, v) == l == Short(u, c))
  {
    assert Long(u, b, v)[|u|] == b && Short(u, c)[|u|] == c;
    assert forall i :: 0 <= i < |l| ==> l[i] == Long(u, b, v)[i] == Short(u, c)[i];
  }

  // ----- Removing the shorter key -----

  lemma PlaceChild(n: Tree, k: nat, c: Byte)
    requires NodeOk(n) && !n.compr && k < |n.slots| && n.edges[k] == c
    ensures PlaceOf(n, [c]) == if n.slots[k].Leaf? then Some(LeafKey([], k)) else Deeper([k], PlaceOf(n.slots[k].t, []))
  {
    assert Label(n, k) + [] == [c] == Label(n, k);
    PickLabel(n, k, []);
  }

  lemma BareLeaf(t: Tree, p: seq<nat>, k: nat)
    requires PlaceIn(t, LeafKey(p, k)) && DropSlot(At(t, p), k).slots != []
    ensures Bare(t, LeafKey(p, k)) == (Replace(t, p, DropSlot(At(t, p), k)), p)
  {
    hide Replace;
  }

  lemma BareNode(t: Tree, p: seq<nat>, k: nat)
    requires ValidPath(t, p) && |At(t, p).slots| == 2 && k < 2 && At(t, p).slots[k].Sub?
    requires At(t, p).slots[k].t.slots == [] && At(t, p).slots[k].t.key.Some?
    ensures PlaceIn(t, NodeKey(p + [k])) && Bare(t, NodeKey(p + [k])) == (Replace(t, p, DropSlot(At(t, p), k)), p)
  {
    hide Replace, At, ValidPath, PathLabel;
    var n, q := At(t, p), p + [k];
    PathAppend(t, p, k);
    var u := At(t, q).(key := None);
    var n' := n.(slots := n.slots[k := Sub(u)]);
    ReplaceChild(t, p, k, u);
    ReplaceValid(t, q, u);
    ReplaceValid(t, p, n');
    var t' := Replace(t, q, u);
    assert q[..|q| - 1] == p;
    assert Anchor(t', q) == |p|;
    assert q[..|p|] == p && q[|p|] == k;
    DropSame(n, k, u);
    assert Emptied(t', q) == (Replace(t', p, DropSlot(n', k)), p);
  }

  lemma DropSame(n: Tree, k: nat, u: Tree)
    requires k < |n.slots|
    ensures DropSlot(n.(slots := n.slots[k := Sub(u)]), k) == DropSlot(n, k)
  {
    var s := n.slots[k := Sub(u)];
    assert s[..k] == n.slots[..k] && s[k + 1..] == n.slots[k + 1..];
  }

  /** What removing the shorter of two keys leaves before nodes are joined. */
  lemma ForkBare(t: Tree, p: seq<nat>, k: nat, c: Byte)
    requires Ok(t) && ValidPath(t, p) && !At(t, p).compr && |At(t, p).slots| == |At(t, p).edges| == 2 && k < 2 && At(t, p).edges[k] == c
    requires At(t, p).slots[k].Sub? ==> At(t, p).slots[k].t.slots == [] && At(t, p).slots[k].t.key.Some?
    ensures var x := PlaceOf(t, PathLabel(t, p) + [c]);
      x.Some? && Bare(t, x.value) == (Replace(t, p, DropSlot(At(t, p), k)), p)
  {
    hide Replace, At, PathLabel, PlaceOf, Bare, Ok;
    var n := At(t, p);
    OkAt(t, p);
    OkNode(n);
    PlaceAt(t, p, [c]);
    PlaceChild(n, k, c);
    assert p + [] == p && [k] + [] == [k];
    if n.slots[k].Leaf? { BareLeaf(t, p, k); } else { PlaceHere(n.slots[k].t); BareNode(t, p, k); }
  }

  lemma PlaceHere(t: Tree)
    requires t.key.Some?
    ensures PlaceOf(t, []) == Some(NodeKey([]))
  {
  }

  /** Joinable nodes above lead up to the root. */
  lemma {:induction false} TopIsRoot(t: Tree, p: seq<nat>)
    requires ValidPath(t, p) && forall i :: 0 <= i < |p| ==> ValidPath(t, p[..i]) && Joinable(At(t, p[..i]))
    ensures Top(t, p) == []
    decreases |p|
  {
    if p != [] {
      var q := p[..|p| - 1];
      forall i | 0 <= i < |q| ensures ValidPath(t, q[..i]) && Joinable(At(t, q[..i])) { assert q[..i] == p[..i]; }
      TopIsRoot(t, q);
    }
  }

  /** Replacing a node below leaves joinable nodes joinable. */
  lemma {:induction false} JoinableAbove(t: Tree, p: seq<nat>, u: Tree, i: nat)
    requires ValidPath(t, p) && i < |p| && ValidPath(t, p[..i]) && Joinable(At(t, p[..i]))
    ensures ValidPath(Replace(t, p, u), p[..i]) && Joinable(At(Replace(t, p, u), p[..i]))
    ensures At(Replace(t, p, u), p[..i]).edges == At(t, p[..i]).edges
    decreases i
  {
    if i > 0 {
      assert p[..i][1..] == p[1..][..i - 1] && p[..i][0] == p[0];
      JoinableAbove(t.slots[p[0]].t, p[1..], u, i - 1);
    }
  }

  lemma ForkDropped(t: Tree, p: seq<nat>, k: nat, b: Byte, v: seq<Byte>, c: Byte)
    requires Ok(t) && ValidPath(t, p) && Holds(t, Long(PathLabel(t, p), b, v), Short(PathLabel(t, p), c)) && b != c
    requires !At(t, p).compr && |At(t, p).slots| == |At(t, p).edges| == 2 && k < 2 && At(t, p).edges[k] == c
    ensures Holds(Replace(t, p, DropSlot(At(t, p), k)), Long(PathLabel(t, p), b, v), Long(PathLabel(t, p), b, v))
  {
    hide Lookup, Replace, At, Ok, DropSlot;
    var n, l := At(t, p), PathLabel(t, p);
    OkAt(t, p);
    DropSlotOk(n, k);
    var u := DropSlot(n, k);
    var x, y := Long(l, b, v), Short(l, c);
    forall s ensures Lookup(Replace(t, p, u), s).Some? <==> s == x {
      LookupReplace(t, p, u, s);
      if l <= s {
        var r := s[|l|..];
        LookupDropSlot(n, k, r);
        assert s == l + r;
        assert Label(n, k) == [c];
        PartsLater(l, b, v, c, r);
      }
    }
  }

  lemma PartsLater(l: seq<Byte>, b: Byte, v: seq<Byte>, c: Byte, r: seq<Byte>)
    requires b != c
    ensures l + r == Long(l, b, v) ==> !([c] <= r)
    ensures l + r == Short(l, c) ==> [c] <= r
    ensures l <= Long(l, b, v)
  {
    assert (l + r)[|l|..] == r && Long(l, b, v)[|l|..] == [b] + v && Short(l, c)[|l|..] == [c];
    assert ([b] + v)[0] == b;
  }

  lemma ForkFits(t: Tree, p: seq<nat>, u: Tree)
    requires Ok(t) && ValidPath(t, p) && p != [] && |PathLabel(t, p)| < NODE_MAX_SIZE && Single(u) && OneSlot(u)
    requires forall i :: 0 <= i < |p| ==> ValidPath(t, p[..i]) && Joinable(At(t, p[..i]))
    ensures var t' := Replace(t, p, u); Joinable(t') && Fit(t', |t'.edges|) > 0
  {
    var t' := Replace(t, p, u);
    assert p[..0] == [];
    assert Joinable(t) && p[0] == 0;
    assert Label(t, 0) == t.edges;
    if |p| == 1 {
      assert p[1..] == [];
    } else {
      assert p[..1] == [0];
      var d := t.slots[0].t;
      assert At(t, p[..1]) == d by { assert [0][1..] == []; }
      assert Label(d, p[1..][0]) == d.edges;
    }
  }

  /** Two keys part after `u`, a node that is short of full; the longer does not
      fit in a node.  However the tree came about, removing the shorter key
      overruns. */
  lemma ForkOverruns(t: Tree, u: seq<Byte>, b: Byte, v: seq<Byte>, c: Byte)
    requires Ok(t) && Ripe(t) && Holds(t, Long(u, b, v), Short(u, c)) && b != c
    requires 0 < |u| < NODE_MAX_SIZE < |Long(u, b, v)|
    ensures Overruns(t, Short(u, c))
  {
    hide Lookup, Holds, Replace, Ok, Ripe, DropSlot, Overlong, PlaceOf, Bare, RunLabel;
    var x := Long(u, b, v);
    HoldsUseful(t, x, Short(u, c));
    var p := ForkPath(t, u, b, v, c);
    var n := At(t, p);
    OkAt(t, p);
    var k := ForkNode(n, b, v, c);
    OkNode(n);
    var w := DropSlot(n, k);
    var t' := Replace(t, p, w);
    ForkBare(t, p, k, c);
    DropTwo(n, k);
    ReplaceValid(t, p, w);
    ForkDropped(t, p, k, b, v, c);
    DropSlotOk(n, k);
    OkReplace(t, p, w);
    RipeReplace(t, p, w);
    HoldsUseful(t', x, x);
    OneKey(t', x);
    forall i | 0 <= i < |p| ensures ValidPath(t', p[..i]) && Joinable(At(t', p[..i])) { JoinableAbove(t, p, w, i); }
    TopIsRoot(t', p);
    ForkFits(t, p, w);
    LongEnough(t');
  }

  lemma LongEnough(t: Tree)
    requires Joinable(t) && Fit(t, |t.edges|) > 0 && |RunLabel(t)| > NODE_MAX_SIZE
    ensures Overlong(t)
  {
  }

  lemma DropTwo(n: Tree, k: nat)
    requires n.key.None? && !n.compr && |n.slots| == |n.edges| == 2 && k < 2
    ensures var u := DropSlot(n, k); Single(u) && OneSlot(u) && Useful(u)
  {
  }

  lemma HoldsUseful(t: Tree, x: seq<Byte>, y: seq<Byte>)
    requires Ok(t) && Holds(t, x, y) && x != []
    ensures Useful(t)
  {
    assert Lookup(t, x).Some?;
  }
}
