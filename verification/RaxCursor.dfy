/** What each move of an iterator leaves to be visited. */
module RaxCursor {
  import opened RaxTree
  import opened RaxWalk
  import opened RaxInsertion
  import opened RaxOrder

  /** The tree means `m` and has no useless node. */
  ghost predicate Meant(t: Tree, m: Contents) {
    Ok(t) && Ripe(t) && Denotes(t, m)
  }

  ghost function Edge(t: Tree, p: seq<nat>, i: nat): (r: seq<Byte>)
    requires ValidPath(t, p)
  {
    PathLabel(t, p) + Label(At(t, p), i)
  }

  /** A key below a node runs through one of its slots. */
  lemma SlotOfKey(t: Tree, m: Contents, p: seq<nat>, y: seq<Byte>) returns (i: nat)
    requires Meant(t, m) && ValidPath(t, p) && y in m && PathLabel(t, p) <= y && y != PathLabel(t, p)
    ensures i < |At(t, p).slots| && Edge(t, p, i) <= y
    ensures At(t, p).slots[i].Leaf? ==> y == Edge(t, p, i)
  {
    hide Lookup, Denotes, Ripe, At, ValidPath, PathLabel, Label;
    var x, n := PathLabel(t, p), At(t, p);
    var r := y[|x|..];
    assert y == x + r && r != [];
    OkAt(t, p);
    LookupAt(t, p, r);
    DenotesAt(t, m, y);
    i := SlotOfRest(n, r);
    assert Edge(t, p, i) <= y;
  }

  lemma SlotOfRest(n: Tree, r: seq<Byte>) returns (i: nat)
    requires NodeOk(n) && r != [] && Lookup(n, r).Some?
    ensures i < |n.slots| && Label(n, i) <= r
    ensures n.slots[i].Leaf? ==> r == Label(n, i)
  {
    i := Pick(n, r);
    PickCases(n, r);
  }

  /** What ends at a slot or at a node is a key exactly when it holds one. */
  lemma EdgeKey(t: Tree, m: Contents, p: seq<nat>, i: nat)
    requires Meant(t, m) && ValidPath(t, p) && i < |At(t, p).slots|
    ensures var y := At(t, p).slots[i]; Get(m, Edge(t, p, i)) == match y case Leaf(v) => Some(v) case Sub(c) => c.key
  {
    hide Denotes, Ripe, At, ValidPath, PathLabel, Label;
    var n := At(t, p);
    OkAt(t, p);
    LookupLabel(n, i, []);
    assert Label(n, i) + [] == Label(n, i);
    LookupAt(t, p, Label(n, i));
    DenotesAt(t, m, Edge(t, p, i));
  }

  lemma NodeKey(t: Tree, m: Contents, p: seq<nat>)
    requires Meant(t, m) && ValidPath(t, p)
    ensures Get(m, PathLabel(t, p)) == At(t, p).key
  {
    LookupAt(t, p, []);
    assert PathLabel(t, p) + [] == PathLabel(t, p);
    DenotesAt(t, m, PathLabel(t, p));
  }

  /** Slots are in byte order. */
  lemma SlotOrder(t: Tree, p: seq<nat>, i: nat, j: nat)
    requires Ok(t) && ValidPath(t, p) && i < j < |At(t, p).slots|
    ensures Beyond(Edge(t, p, i), Edge(t, p, j))
  {
    hide At, ValidPath, PathLabel;
    var n := At(t, p);
    OkAt(t, p);
    BeyondByte(PathLabel(t, p), n.edges[i], n.edges[j]);
  }

  lemma EdgeBelow(t: Tree, p: seq<nat>, i: nat)
    requires Ok(t) && ValidPath(t, p) && i < |At(t, p).slots|
    ensures PathLabel(t, p) <= Edge(t, p, i) && PathLabel(t, p) != Edge(t, p, i)
  {
    hide At, ValidPath, PathLabel;
    OkAt(t, p);
    PickLabel(At(t, p), i, []);
  }

  // ----- Forward -----

  /** Going down to the first slot skips no key. */
  lemma FirstSlot(t: Tree, m: Contents, p: seq<nat>, y: seq<Byte>)
    requires Meant(t, m) && ValidPath(t, p) && At(t, p).slots != [] && y in m && Less(PathLabel(t, p), y)
    ensures y == Edge(t, p, 0) || Less(Edge(t, p, 0), y)
  {
    hide At, ValidPath, PathLabel, Label, Edge, Ripe, Denotes, Beyond, Common, Ok;
    var x, e := PathLabel(t, p), Edge(t, p, 0);
    EdgeBelow(t, p, 0);
    if Beyond(x, y) {
      BeyondMore(x, y, e, y);
    } else {
      var i := SlotOfKey(t, m, p, y);
      if i != 0 {
        SlotOrder(t, p, 0, i);
        BeyondMore(e, Edge(t, p, i), e, y);
      }
    }
  }

  lemma GoDown(t: Tree, m: Contents, p: seq<nat>)
    requires Meant(t, m) && ValidPath(t, p) && At(t, p).slots != []
    ensures var x, e := PathLabel(t, p), Edge(t, p, 0);
            if e in m then Least(Greater(m, x), e) else Greater(m, x) == Greater(m, e)
  {
    hide At, ValidPath, PathLabel, Label, Edge, Ripe, Denotes, Beyond, Common, Ok;
    var x, e := PathLabel(t, p), Edge(t, p, 0);
    EdgeBelow(t, p, 0);
    forall y | y in m && Less(x, y) ensures y == e || Less(e, y) { FirstSlot(t, m, p, y); }
    forall y | y in m && Less(e, y) ensures Less(x, y) { LessTransitive(x, e, y); }
  }

  /** A node without slots has nothing below it. */
  lemma NothingBelow(t: Tree, m: Contents, p: seq<nat>)
    requires Meant(t, m) && ValidPath(t, p) && At(t, p).slots == []
    ensures Greater(m, PathLabel(t, p)) == Past(m, PathLabel(t, p))
  {
    hide At, ValidPath, PathLabel, Label, Ripe, Denotes, Beyond, Common, Ok;
    var x := PathLabel(t, p);
    forall y | y in m && Less(x, y) ensures Beyond(x, y) {
      if !Beyond(x, y) { var i := SlotOfKey(t, m, p, y); }
    }
  }

  /** `j` is the first slot after the byte `c`. */
  ghost predicate NextSlot(n: Tree, c: Byte, j: nat) {
    && j <= |n.edges|
    && (forall i :: 0 <= i < j ==> n.edges[i] <= c)
    && (j < |n.edges| ==> c < n.edges[j])
  }

  lemma LaterByte(x: seq<Byte>, c: Byte, d: Byte, y: seq<Byte>)
    requires x + [d] <= y && Beyond(x + [c], y)
    ensures c < d
  {
    hide Beyond, Common;
    Apart(x + [c], y);
    if d < c {
      BeyondByte(x, d, c);
      BeyondMore(x + [d], x + [c], y, x + [c]);
    }
  }

  /** A key beyond what starts with `c` runs through a later slot, or past the node. */
  lemma LaterSlot(t: Tree, m: Contents, p: seq<nat>, c: Byte, y: seq<Byte>) returns (i: nat)
    requires Meant(t, m) && ValidPath(t, p) && !At(t, p).compr && y in m && Beyond(PathLabel(t, p) + [c], y)
    ensures Beyond(PathLabel(t, p), y) ||
            (i < |At(t, p).slots| && Edge(t, p, i) <= y && i < |At(t, p).edges| && c < At(t, p).edges[i])
  {
    hide At, ValidPath, PathLabel, Ripe, Denotes, Common;
    var x, n := PathLabel(t, p), At(t, p);
    i := 0;
    OkAt(t, p);
    Trichotomy(x, y);
    BeyondLess(x, x + [c], y);
    Apart(x + [c], y);
    if x <= y {
      i := SlotOfKey(t, m, p, y);
      LaterByte(x, c, n.edges[i], y);
    } else if !Beyond(x, y) {
      LessApart(x, y);
    }
  }

  lemma GoAcross(t: Tree, m: Contents, p: seq<nat>, c: Byte, j: nat)
    requires Meant(t, m) && ValidPath(t, p) && !At(t, p).compr && NextSlot(At(t, p), c, j)
    ensures var x, n := PathLabel(t, p), At(t, p);
            if j == |n.edges| then Past(m, x + [c]) == Past(m, x)
            else var e := Edge(t, p, j); if e in m then Least(Past(m, x + [c]), e) else Past(m, x + [c]) == Greater(m, e)
  {
    hide At, ValidPath, PathLabel, Ripe, Denotes, Beyond, Common;
    var x, n := PathLabel(t, p), At(t, p);
    OkAt(t, p);
    forall y | y in m && Beyond(x, y) ensures Beyond(x + [c], y) { BeyondMore(x, y, x + [c], y); }
    if j < |n.edges| {
      var e := Edge(t, p, j);
      BeyondByte(x, c, n.edges[j]);
      forall y | y in m && Less(e, y) ensures Beyond(x + [c], y) { AfterBeyond(x + [c], e, y); }
      forall y | y in m && Beyond(x + [c], y) ensures y == e || Less(e, y) {
        var i := LaterSlot(t, m, p, c, y);
        if Beyond(x, y) {
          BeyondMore(x, y, e, y);
        } else if i != j {
          SlotOrder(t, p, j, i);
          BeyondMore(e, Edge(t, p, i), e, y);
        }
      }
    } else {
      forall y | y in m && Beyond(x + [c], y) ensures Beyond(x, y) { var i := LaterSlot(t, m, p, c, y); }
    }
  }

  lemma AfterBeyond(a: seq<Byte>, b: seq<Byte>, c: seq<Byte>)
    requires Beyond(a, b) && Less(b, c)
    ensures Beyond(a, c)
  {
    hide Beyond, Common;
    if b <= c {
      BeyondMore(a, b, a, c);
    } else {
      LessTransitive(a, b, c);
      if a <= c {
        BeyondMore(a, b, c, b);
        LessApart(b, c);
      }
    }
  }

  /** All that is below a compressed node is behind its bytes. */
  lemma LeaveRun(t: Tree, m: Contents, p: seq<nat>)
    requires Meant(t, m) && ValidPath(t, p) && At(t, p).compr
    ensures Past(m, Edge(t, p, 0)) == Past(m, PathLabel(t, p))
  {
    hide At, ValidPath, PathLabel, Label, Edge, Ripe, Denotes, Beyond, Common;
    var x, e := PathLabel(t, p), Edge(t, p, 0);
    OkAt(t, p);
    EdgeBelow(t, p, 0);
    forall y | y in m && Beyond(x, y) ensures Beyond(e, y) { BeyondMore(x, y, e, y); }
    forall y | y in m && Beyond(e, y) ensures Beyond(x, y) {
      BeyondLess(x, e, y);
      if !Beyond(x, y) {
        var i := SlotOfKey(t, m, p, y);
        Apart(e, y);
      }
    }
  }

  // ----- Backward -----

  /** `j` is the last slot before the byte `c`, plus one. */
  ghost predicate PrevSlot(n: Tree, c: Byte, j: nat) {
    && j <= |n.edges|
    && (forall i :: j <= i < |n.edges| ==> c <= n.edges[i])
    && (j > 0 ==> n.edges[j - 1] < c)
  }

  /** The greatest key below a node runs through its last slot. */
  lemma GoLast(t: Tree, m: Contents, p: seq<nat>, z: seq<Byte>)
    requires Meant(t, m) && ValidPath(t, p) && At(t, p).slots != []
    requires Greatest(Under(m, Edge(t, p, |At(t, p).slots| - 1)), z)
    ensures Greatest(Under(m, PathLabel(t, p)), z)
  {
    hide At, ValidPath, PathLabel, Label, Edge, Ripe, Denotes, Beyond, Common, Ok;
    var x, l := PathLabel(t, p), |At(t, p).slots| - 1;
    var e := Edge(t, p, l);
    EdgeBelow(t, p, l);
    forall y | y in m && x <= y ensures y == z || Less(y, z) {
      if y == x {
        assert x <= z;
      } else {
        var i := SlotOfKey(t, m, p, y);
        if i != l {
          SlotOrder(t, p, i, l);
          BeyondMore(Edge(t, p, i), e, y, z);
        }
      }
    }
  }

  /** Nothing below: the greatest key is the node's own. */
  lemma LastHere(t: Tree, m: Contents, p: seq<nat>)
    requires Meant(t, m) && ValidPath(t, p) && At(t, p).slots == [] && At(t, p).key.Some?
    ensures Greatest(Under(m, PathLabel(t, p)), PathLabel(t, p))
  {
    hide At, ValidPath, PathLabel, Label, Ripe, Denotes, Beyond, Common, Ok;
    var x := PathLabel(t, p);
    NodeKey(t, m, p);
    forall y | y in m && x <= y ensures y == x {
      if y != x { var i := SlotOfKey(t, m, p, y); }
    }
  }

  lemma LastLeaf(t: Tree, m: Contents, p: seq<nat>, i: nat)
    requires Meant(t, m) && ValidPath(t, p) && i < |At(t, p).slots| && At(t, p).slots[i].Leaf?
    ensures Greatest(Under(m, Edge(t, p, i)), Edge(t, p, i))
    ensures forall y :: y in m && Edge(t, p, i) <= y ==> y == Edge(t, p, i)
  {
    hide At, ValidPath, PathLabel, Label, Edge, Ripe, Denotes, Beyond, Common, Ok;
    var e := Edge(t, p, i);
    EdgeKey(t, m, p, i);
    EdgeBelow(t, p, i);
    forall y | y in m && e <= y ensures y == e {
      var k := SlotOfKey(t, m, p, y);
      if k < i { SlotOrder(t, p, k, i); BeyondMore(Edge(t, p, k), e, y, y); Apart(y, y); }
      if i < k { SlotOrder(t, p, i, k); BeyondMore(e, Edge(t, p, k), y, y); Apart(y, y); }
    }
  }

  lemma EarlierByte(x: seq<Byte>, c: Byte, d: Byte, y: seq<Byte>)
    requires x + [d] <= y && Less(y, x + [c])
    ensures d < c
  {
    hide Beyond, Common;
    LessApart(y, x + [c]);
    if c < d {
      BeyondByte(x, c, d);
      BeyondMore(x + [c], x + [d], x + [c], y);
    }
  }

  /** A key before what starts with `c` is not below the node, or is the node's
      own, or runs through an earlier slot. */
  lemma EarlierSlot(t: Tree, m: Contents, p: seq<nat>, c: Byte, y: seq<Byte>) returns (i: nat)
    requires Meant(t, m) && ValidPath(t, p) && !At(t, p).compr && y in m && Less(y, PathLabel(t, p) + [c])
    ensures Less(y, PathLabel(t, p)) || y == PathLabel(t, p) ||
            (i < |At(t, p).slots| && Edge(t, p, i) <= y && i < |At(t, p).edges| && At(t, p).edges[i] < c)
  {
    hide At, ValidPath, PathLabel, Ripe, Denotes, Common, Beyond;
    var x, n := PathLabel(t, p), At(t, p);
    i := 0;
    OkAt(t, p);
    Trichotomy(x, y);
    if x <= y && y != x {
      i := SlotOfKey(t, m, p, y);
      EarlierByte(x, c, n.edges[i], y);
    } else if Beyond(x, y) {
      BeyondMore(x, y, x + [c], y);
      LessApart(y, x + [c]);
    }
  }

  lemma BeforeMore(x: seq<Byte>, e: seq<Byte>, y: seq<Byte>)
    requires x <= e && Less(y, x)
    ensures Less(y, e)
  {
    if x != e { LessTransitive(y, x, e); }
  }

  lemma GoBack(t: Tree, m: Contents, p: seq<nat>, c: Byte, j: nat)
    requires Meant(t, m) && ValidPath(t, p) && !At(t, p).compr && PrevSlot(At(t, p), c, j)
    ensures var x := PathLabel(t, p);
            j == 0 ==> if x in m then Greatest(Smaller(m, x + [c]), x) else Smaller(m, x + [c]) == Smaller(m, x)
    ensures j > 0 ==> forall z :: Greatest(Under(m, Edge(t, p, j - 1)), z) ==> Greatest(Smaller(m, PathLabel(t, p) + [c]), z)
  {
    hide At, ValidPath, PathLabel, Ripe, Denotes, Beyond, Common;
    var x, n := PathLabel(t, p), At(t, p);
    OkAt(t, p);
    if j == 0 {
      forall y | y in m && Less(y, x) ensures Less(y, x + [c]) { BeforeMore(x, x + [c], y); }
      forall y | y in m && Less(y, x + [c]) ensures y == x || Less(y, x) { var i := EarlierSlot(t, m, p, c, y); }
    } else {
      forall z | Greatest(Under(m, Edge(t, p, j - 1)), z) ensures Greatest(Smaller(m, x + [c]), z) { GoBackTo(t, m, p, c, j, z); }
    }
  }

  lemma GoBackTo(t: Tree, m: Contents, p: seq<nat>, c: Byte, j: nat, z: seq<Byte>)
    requires Meant(t, m) && ValidPath(t, p) && !At(t, p).compr && PrevSlot(At(t, p), c, j) && 0 < j
    requires j <= |At(t, p).slots| && Greatest(Under(m, Edge(t, p, j - 1)), z)
    ensures Greatest(Smaller(m, PathLabel(t, p) + [c]), z)
  {
    hide At, ValidPath, PathLabel, Ripe, Denotes, Beyond, Common;
    var x, n := PathLabel(t, p), At(t, p);
    OkAt(t, p);
    var e := Edge(t, p, j - 1);
    BeyondByte(x, n.edges[j - 1], c);
    BeyondMore(e, x + [c], z, x + [c]);
    EdgeBelow(t, p, j - 1);
    forall y | y in m && Less(y, x + [c]) ensures y == z || Less(y, z) {
      var i := EarlierSlot(t, m, p, c, y);
      if Less(y, x) {
        BeforeMore(x, z, y);
      } else if y != x && i != j - 1 {
        SlotOrder(t, p, i, j - 1);
        BeyondMore(Edge(t, p, i), e, y, z);
      }
    }
  }

  lemma LeaveRunBack(t: Tree, m: Contents, p: seq<nat>)
    requires Meant(t, m) && ValidPath(t, p) && At(t, p).compr
    ensures var x, e := PathLabel(t, p), Edge(t, p, 0);
            if x in m then Greatest(Smaller(m, e), x) else Smaller(m, e) == Smaller(m, x)
  {
    hide At, ValidPath, PathLabel, Label, Edge, Ripe, Denotes, Beyond, Common;
    var x, e := PathLabel(t, p), Edge(t, p, 0);
    OkAt(t, p);
    EdgeBelow(t, p, 0);
    forall y | y in m && Less(y, x) ensures Less(y, e) { BeforeMore(x, e, y); }
    forall y | y in m && Less(y, e) ensures y == x || Less(y, x) { BeforeRun(t, m, p, y); }
  }

  lemma BeforeRun(t: Tree, m: Contents, p: seq<nat>, y: seq<Byte>)
    requires Meant(t, m) && ValidPath(t, p) && At(t, p).compr && y in m && Less(y, Edge(t, p, 0))
    ensures y == PathLabel(t, p) || Less(y, PathLabel(t, p))
  {
    hide At, ValidPath, PathLabel, Label, Edge, Ripe, Denotes, Beyond, Common;
    var x, e := PathLabel(t, p), Edge(t, p, 0);
    OkAt(t, p);
    EdgeBelow(t, p, 0);
    LessApart(y, e);
    Trichotomy(x, y);
    if Beyond(x, y) { BeyondMore(x, y, e, y); }
    if x <= y && x != y { var i := SlotOfKey(t, m, p, y); }
  }

  // ----- Seeking -----

  /** A leaf has nothing below it. */
  lemma PastLeaf(t: Tree, m: Contents, p: seq<nat>, i: nat, s: seq<Byte>)
    requires Meant(t, m) && ValidPath(t, p) && i < |At(t, p).slots| && At(t, p).slots[i].Leaf? && Edge(t, p, i) <= s
    ensures Greater(m, s) == Past(m, Edge(t, p, i))
    ensures s != Edge(t, p, i) ==> s !in m && Greatest(Smaller(m, s), Edge(t, p, i))
  {
    hide At, ValidPath, PathLabel, Label, Edge, Ripe, Denotes, Beyond, Common, Ok;
    var e := Edge(t, p, i);
    LastLeaf(t, m, p, i);
    EdgeKey(t, m, p, i);
    forall y | y in m ensures Less(s, y) <==> Beyond(e, y) { AroundLeaf(e, s, y); }
    forall y | y in m && Less(y, s) ensures y == e || Less(y, e) {
      Trichotomy(e, y);
      if Beyond(e, y) { AroundLeaf(e, s, y); LessApart(y, s); }
    }
  }

  lemma AroundLeaf(e: seq<Byte>, s: seq<Byte>, y: seq<Byte>)
    requires e <= s && (e <= y ==> y == e)
    ensures Less(s, y) <==> Beyond(e, y)
  {
    hide Common;
    if Beyond(e, y) { BeyondMore(e, y, s, y); }
    if Less(s, y) && !(s <= y) { BeyondLess(e, s, y); }
  }

  /** No key starts with `e`: then all that starts with it looks alike. */
  lemma Gap(m: Contents, e: seq<Byte>, s: seq<Byte>)
    requires e <= s && forall y :: y in m ==> !(e <= y)
    ensures Greater(m, s) == Past(m, e) && Smaller(m, s) == Smaller(m, e) && s !in m
  {
    hide Beyond, Common;
    forall y | y in m ensures (Less(s, y) <==> Beyond(e, y)) && (Less(y, s) <==> Less(y, e)) {
      AroundLeaf(e, s, y);
      Trichotomy(s, y);
      Trichotomy(e, y);
      if Less(s, y) { LessApart(s, y); Apart(e, y); } else { NotAfter(e, s, y); }
    }
  }

  lemma NotAfter(e: seq<Byte>, s: seq<Byte>, y: seq<Byte>)
    requires e <= s && !(e <= y) && !Beyond(e, y)
    ensures Less(y, s) && Less(y, e)
  {
    hide Beyond, Common;
    Trichotomy(e, y);
    BeforeMore(e, s, y);
  }

  /** The walk stopped at a node that has no slot for the next byte. */
  lemma StopMissing(t: Tree, m: Contents, s: seq<Byte>, w: Stop, p: seq<nat>)
    requires Meant(t, m) && Stopped(t, s, w, p) && !w.inlineLeaf && !At(t, p).compr && w.i < |s|
    ensures var e := PathLabel(t, p) + [s[w.i]];
            Greater(m, s) == Past(m, e) && Smaller(m, s) == Smaller(m, e) && s !in m
  {
    hide At, ValidPath, PathLabel, Ripe, Denotes, Beyond, Common;
    var x, n, c := PathLabel(t, p), At(t, p), s[w.i];
    OkAt(t, p);
    assert s[..w.i] + [c] <= s;
    forall y | y in m ensures !(x + [c] <= y) {
      if x + [c] <= y {
        var i := SlotOfKey(t, m, p, y);
      }
    }
    Gap(m, x + [c], s);
  }

  /** Keys below a compressed node start with all its bytes. */
  lemma BelowRun(t: Tree, m: Contents, p: seq<nat>, y: seq<Byte>)
    requires Meant(t, m) && ValidPath(t, p) && At(t, p).compr && y in m && PathLabel(t, p) <= y && y != PathLabel(t, p)
    ensures Edge(t, p, 0) <= y
  {
    OkAt(t, p);
    var i := SlotOfKey(t, m, p, y);
  }

  /** A string between a compressed node and the first key below it. */
  lemma BeforeFirst(t: Tree, m: Contents, p: seq<nat>, s: seq<Byte>)
    requires Meant(t, m) && ValidPath(t, p) && At(t, p).compr
    requires PathLabel(t, p) <= s && s != PathLabel(t, p) && Less(s, Edge(t, p, 0))
    ensures Greater(m, s) == Greater(m, PathLabel(t, p)) && s !in m
    ensures Smaller(m, s) == Smaller(m, Edge(t, p, 0))
  {
    hide At, ValidPath, PathLabel, Label, Edge, Ripe, Denotes, Beyond, Common, Ok;
    var x, e := PathLabel(t, p), Edge(t, p, 0);
    forall y | y in m && Less(x, y) ensures Less(s, y) {
      if Beyond(x, y) {
        BeyondMore(x, y, s, y);
      } else {
        BelowRun(t, m, p, y);
        if e != y { LessTransitive(s, e, y); }
      }
    }
    forall y | y in m && Less(s, y) ensures Less(x, y) { LessTransitive(x, s, y); }
    forall y | y in m && Less(y, s) ensures Less(y, e) { LessTransitive(y, s, e); }
    forall y | y in m && Less(y, e) ensures Less(y, s) {
      BeforeRun(t, m, p, y);
      if y != x { LessTransitive(y, x, s); }
    }
    if s in m { BelowRun(t, m, p, s); LessApart(s, e); }
  }

  /** A string after all that is below a compressed node, but not past it. */
  lemma AfterLast(t: Tree, m: Contents, p: seq<nat>, s: seq<Byte>)
    requires Meant(t, m) && ValidPath(t, p) && At(t, p).compr
    requires PathLabel(t, p) <= s && s != PathLabel(t, p) && Beyond(Edge(t, p, 0), s)
    ensures Greater(m, s) == Past(m, Edge(t, p, 0)) && s !in m
    ensures forall z :: Greatest(Under(m, PathLabel(t, p)), z) ==> Greatest(Smaller(m, s), z)
  {
    hide At, ValidPath, PathLabel, Label, Edge, Ripe, Denotes, Beyond, Common, Ok;
    var x, e := PathLabel(t, p), Edge(t, p, 0);
    LeaveRun(t, m, p);
    forall y | y in m && Less(s, y) ensures Beyond(e, y) { AfterBeyond(e, s, y); }
    forall y | y in m && Beyond(e, y) ensures Less(s, y) {
      assert y in Past(m, x);
      BeyondMore(x, y, s, y);
    }
    if s in m { BelowRun(t, m, p, s); Apart(e, s); }
    forall z | Greatest(Under(m, x), z) ensures Greatest(Smaller(m, s), z) { LastBefore(t, m, p, s, z); }
  }

  lemma LastBefore(t: Tree, m: Contents, p: seq<nat>, s: seq<Byte>, z: seq<Byte>)
    requires Meant(t, m) && ValidPath(t, p) && At(t, p).compr
    requires PathLabel(t, p) <= s && s != PathLabel(t, p) && Beyond(Edge(t, p, 0), s)
    requires Greatest(Under(m, PathLabel(t, p)), z)
    ensures Greatest(Smaller(m, s), z)
  {
    hide At, ValidPath, PathLabel, Label, Edge, Ripe, Denotes, Beyond, Common, Ok;
    var x, e := PathLabel(t, p), Edge(t, p, 0);
    if z != x {
      BelowRun(t, m, p, z);
      BeyondMore(e, s, z, s);
    }
    forall y | y in m && Less(y, s) ensures y == z || Less(y, z) {
      Trichotomy(x, y);
      if Beyond(x, y) { BeyondMore(x, y, s, y); LessApart(y, s); }
      if !(x <= y) { BeforeMore(x, z, y); }
    }
  }

  /** The walk stopped inside a compressed node, before all its keys. */
  lemma StopInsideLow(t: Tree, m: Contents, s: seq<Byte>, w: Stop, p: seq<nat>)
    requires Meant(t, m) && Stopped(t, s, w, p) && !w.inlineLeaf && At(t, p).compr
    requires w.i == |s| ==> w.splitpos != 0
    requires w.i < |s| ==> s[w.i] < At(t, p).edges[w.splitpos]
    ensures Greater(m, s) == Greater(m, PathLabel(t, p)) && s !in m
    ensures Smaller(m, s) == Smaller(m, Edge(t, p, 0))
  {
    hide At, ValidPath, PathLabel, Ripe, Denotes, Beyond, Common, Ok;
    var x, n, e := PathLabel(t, p), At(t, p), Edge(t, p, 0);
    assert e[..w.i] == s[..w.i];
    if w.i < |s| {
      assert e[w.i] == n.edges[w.splitpos];
      BeyondAt(s, e, w.i);
    } else {
      assert s == s[..w.i] && s <= e;
    }
    BeforeFirst(t, m, p, s);
  }

  /** ... or after them all. */
  lemma StopInsideHigh(t: Tree, m: Contents, s: seq<Byte>, w: Stop, p: seq<nat>)
    requires Meant(t, m) && Stopped(t, s, w, p) && !w.inlineLeaf && At(t, p).compr
    requires w.i < |s| && s[w.i] > At(t, p).edges[w.splitpos]
    ensures Greater(m, s) == Past(m, Edge(t, p, 0)) && s !in m
    ensures forall z :: Greatest(Under(m, PathLabel(t, p)), z) ==> Greatest(Smaller(m, s), z)
  {
    hide At, ValidPath, PathLabel, Ripe, Denotes, Beyond, Common, Ok;
    var x, n, e := PathLabel(t, p), At(t, p), Edge(t, p, 0);
    assert e[..w.i] == s[..w.i];
    assert e[w.i] == n.edges[w.splitpos];
    BeyondAt(e, s, w.i);
    AfterLast(t, m, p, s);
  }
}
