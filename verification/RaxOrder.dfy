/** Byte order on keys, and the parts of a key set that an iteration looks at. */
module RaxOrder {
  import opened RaxTree
  import opened RaxInsertion

  /** Length of the longest common prefix. */
  ghost function Common(a: seq<Byte>, b: seq<Byte>): (i: nat)
    ensures i <= |a| && i <= |b| && a[..i] == b[..i]
    ensures i < |a| && i < |b| ==> a[i] != b[i]
  {
    if a == [] || b == [] || a[0] != b[0] then 0
    else
      var i := 1 + Common(a[1..], b[1..]);
      assert a[..i] == [a[0]] + a[1..][..i - 1] && b[..i] == [b[0]] + b[1..][..i - 1];
      i
  }

  /** `b` comes after `a` and everything that starts with `a`. */
  ghost predicate Beyond(a: seq<Byte>, b: seq<Byte>) {
    var i := Common(a, b);
    i < |a| && i < |b| && a[i] < b[i]
  }

  /** The order of `memcmp`, shorter first. */
  ghost predicate Less(a: seq<Byte>, b: seq<Byte>) {
    (a <= b && a != b) || Beyond(a, b)
  }

  lemma CommonIs(a: seq<Byte>, b: seq<Byte>, i: nat)
    requires i <= |a| && i <= |b| && a[..i] == b[..i]
    requires i < |a| && i < |b| ==> a[i] != b[i]
    requires i == |a| || i == |b| || a[i] != b[i]
    ensures Common(a, b) == i
  {
    var j := Common(a, b);
    assert forall k :: 0 <= k < i ==> a[k] == a[..i][k] && b[k] == b[..i][k];
    assert forall k :: 0 <= k < j ==> a[k] == a[..j][k] && b[k] == b[..j][k];
  }

  /** A first difference decides. */
  lemma BeyondAt(a: seq<Byte>, b: seq<Byte>, i: nat)
    requires i < |a| && i < |b| && a[..i] == b[..i] && a[i] < b[i]
    ensures Beyond(a, b)
  {
    CommonIs(a, b, i);
  }

  lemma BeyondMore(a: seq<Byte>, b: seq<Byte>, a': seq<Byte>, b': seq<Byte>)
    requires Beyond(a, b) && a <= a' && b <= b'
    ensures Beyond(a', b')
  {
    var i := Common(a, b);
    assert a'[..i] == a[..i] && b'[..i] == b[..i];
    BeyondAt(a', b', i);
  }

  /** Two strings are equal, one is a prefix of the other, or they part. */
  lemma Trichotomy(a: seq<Byte>, b: seq<Byte>)
    ensures a == b || Less(a, b) || Less(b, a)
    ensures a <= b || b <= a || Beyond(a, b) || Beyond(b, a)
  {
    var i := Common(a, b);
    CommonIs(b, a, i);
    if i == |a| { assert a == a[..i] == b[..i]; }
    if i == |b| { assert b == b[..i] == a[..i]; }
  }

  /** The four cases of `Trichotomy` exclude each other. */
  lemma Apart(a: seq<Byte>, b: seq<Byte>)
    requires Beyond(a, b)
    ensures !(a <= b) && !(b <= a) && !Beyond(b, a) && a != b && !Less(b, a)
  {
    var i := Common(a, b);
    CommonIs(b, a, i);
  }

  lemma LessApart(a: seq<Byte>, b: seq<Byte>)
    requires Less(a, b)
    ensures a != b && !Less(b, a)
  {
    if Beyond(a, b) { Apart(a, b); }
    if Beyond(b, a) { Apart(b, a); }
  }

  /** Prefixes of what parts have parted or are prefixes of the other. */
  lemma BeyondLess(a: seq<Byte>, b: seq<Byte>, c: seq<Byte>)
    requires a <= b
    ensures Beyond(b, c) ==> Less(a, c)
    ensures Beyond(c, b) ==> Less(c, a) || a <= c
  {
    Trichotomy(a, c);
    if Beyond(b, c) {
      if c <= a { Apart(b, c); }
      if Beyond(c, a) { BeyondMore(c, a, c, b); Apart(b, c); }
    }
    if Beyond(c, b) {
      if Beyond(a, c) { BeyondMore(a, c, b, c); Apart(b, c); }
    }
  }

  lemma LessTransitive(a: seq<Byte>, b: seq<Byte>, c: seq<Byte>)
    requires Less(a, b) && Less(b, c)
    ensures Less(a, c)
  {
    if Beyond(a, b) {
      if Beyond(b, c) {
        var i, j := Common(a, b), Common(b, c);
        var k := if i < j then i else j;
        assert a[..k] == a[..i][..k] == b[..i][..k] == b[..k];
        assert c[..k] == c[..j][..k] == b[..j][..k] == b[..k];
        if i < j { assert b[i] == b[..j][i] == c[..j][i]; }
        if j < i { assert b[j] == b[..i][j] == a[..i][j]; }
        BeyondAt(a, c, k);
      } else {
        BeyondMore(a, b, a, c);
      }
    } else if Beyond(b, c) {
      BeyondLess(a, b, c);
    }
  }

  /** Different next bytes part two strings. */
  lemma BeyondByte(x: seq<Byte>, c: Byte, d: Byte)
    requires c < d
    ensures Beyond(x + [c], x + [d])
  {
    assert (x + [c])[..|x|] == x == (x + [d])[..|x|];
    BeyondAt(x + [c], x + [d], |x|);
  }

  // ----- Parts of a key set -----

  ghost function Greater(m: Contents, x: seq<Byte>): (r: set<seq<Byte>>) {
    set y | y in m && Less(x, y)
  }

  ghost function Past(m: Contents, x: seq<Byte>): (r: set<seq<Byte>>) {
    set y | y in m && Beyond(x, y)
  }

  ghost function Smaller(m: Contents, x: seq<Byte>): (r: set<seq<Byte>>) {
    set y | y in m && Less(y, x)
  }

  ghost function Under(m: Contents, x: seq<Byte>): (r: set<seq<Byte>>) {
    set y | y in m && x <= y
  }

  ghost predicate Least(w: set<seq<Byte>>, z: seq<Byte>) {
    z in w && forall y :: y in w ==> y == z || Less(z, y)
  }

  ghost predicate Greatest(w: set<seq<Byte>>, z: seq<Byte>) {
    z in w && forall y :: y in w ==> y == z || Less(y, z)
  }

  lemma NothingPastEmpty(m: Contents)
    ensures Past(m, []) == {} && Smaller(m, []) == {}
  {
  }

  // ----- Whole iterations -----

  /** `ks` starts at the least of `w`, and each key is followed by the next one. */
  ghost predicate Climbs(m: Contents, w: set<seq<Byte>>, ks: seq<seq<Byte>>) {
    && (ks != [] ==> Least(w, ks[0]))
    && (forall i :: 0 <= i < |ks| - 1 ==> Least(Greater(m, ks[i]), ks[i + 1]))
  }

  ghost predicate Sinks(m: Contents, w: set<seq<Byte>>, ks: seq<seq<Byte>>) {
    && (ks != [] ==> Greatest(w, ks[0]))
    && (forall i :: 0 <= i < |ks| - 1 ==> Greatest(Smaller(m, ks[i]), ks[i + 1]))
  }

  /** With a key, `w` has all greater ones. */
  ghost predicate Upward(m: Contents, w: set<seq<Byte>>) {
    w <= m.Keys && forall y, z :: y in w && z in m && Less(y, z) ==> z in w
  }

  ghost predicate Downward(m: Contents, w: set<seq<Byte>>) {
    w <= m.Keys && forall y, z :: y in w && z in m && Less(z, y) ==> z in w
  }

  ghost predicate Rising(ks: seq<seq<Byte>>) {
    forall i, j :: 0 <= i < j < |ks| ==> Less(ks[i], ks[j])
  }

  ghost predicate Falling(ks: seq<seq<Byte>>) {
    forall i, j :: 0 <= i < j < |ks| ==> Less(ks[j], ks[i])
  }

  /** A climb to the end meets every key of `w`, once and in order. */
  lemma {:induction false} ClimbMeetsAll(m: Contents, w: set<seq<Byte>>, ks: seq<seq<Byte>>)
    requires Upward(m, w) && Climbs(m, w, ks)
    requires if ks == [] then w == {} else Greater(m, ks[|ks| - 1]) == {}
    ensures Rising(ks) && forall y :: y in ks <==> y in w
    decreases |ks|
  {
    hide Less;
    if ks != [] {
      var w', r := Greater(m, ks[0]), ks[1..];
      assert Upward(m, w') by {
        forall y, z | y in w' && z in m && Less(y, z) ensures z in w' { LessTransitive(ks[0], y, z); }
      }
      assert Climbs(m, w', r) by {
        forall i | 0 <= i < |r| - 1 ensures Least(Greater(m, r[i]), r[i + 1]) { assert ks[i + 1] == r[i]; }
      }
      ClimbMeetsAll(m, w', r);
      assert ks == [ks[0]] + r;
      forall j | 0 < j < |ks| ensures Less(ks[0], ks[j]) { assert ks[j] == r[j - 1] && r[j - 1] in r; }
      forall i, j | 0 <= i < j < |ks| ensures Less(ks[i], ks[j]) {
        if i > 0 { assert ks[i] == r[i - 1] && ks[j] == r[j - 1]; }
      }
      forall y ensures y in ks <==> y in w { assert y in ks <==> y == ks[0] || y in r; }
    }
  }

  lemma {:induction false} SinkMeetsAll(m: Contents, w: set<seq<Byte>>, ks: seq<seq<Byte>>)
    requires Downward(m, w) && Sinks(m, w, ks)
    requires if ks == [] then w == {} else Smaller(m, ks[|ks| - 1]) == {}
    ensures Falling(ks) && forall y :: y in ks <==> y in w
    decreases |ks|
  {
    hide Less;
    if ks != [] {
      var w', r := Smaller(m, ks[0]), ks[1..];
      assert Downward(m, w') by {
        forall y, z | y in w' && z in m && Less(z, y) ensures z in w' { LessTransitive(z, y, ks[0]); }
      }
      assert Sinks(m, w', r) by {
        forall i | 0 <= i < |r| - 1 ensures Greatest(Smaller(m, r[i]), r[i + 1]) { assert ks[i + 1] == r[i]; }
      }
      SinkMeetsAll(m, w', r);
      assert ks == [ks[0]] + r;
      forall j | 0 < j < |ks| ensures Less(ks[j], ks[0]) { assert ks[j] == r[j - 1] && r[j - 1] in r; }
      forall i, j | 0 <= i < j < |ks| ensures Less(ks[j], ks[i]) {
        if i > 0 { assert ks[i] == r[i - 1] && ks[j] == r[j - 1]; }
      }
      forall y ensures y in ks <==> y in w { assert y in ks <==> y == ks[0] || y in r; }
    }
  }

  /** The keys a seek selects, seen from the sought one. */
  ghost function From(m: Contents, eq: bool, ele: seq<Byte>): (w: set<seq<Byte>>)
    ensures forall y :: y in w <==> y in m && (Less(ele, y) || (eq && y == ele))
  {
    set y | y in m && (Less(ele, y) || (eq && y == ele))
  }

  ghost function UpTo(m: Contents, eq: bool, ele: seq<Byte>): (w: set<seq<Byte>>)
    ensures forall y :: y in w <==> y in m && (Less(y, ele) || (eq && y == ele))
  {
    set y | y in m && (Less(y, ele) || (eq && y == ele))
  }

  lemma FromUpward(m: Contents, eq: bool, ele: seq<Byte>)
    ensures Upward(m, From(m, eq, ele)) && Downward(m, UpTo(m, eq, ele))
  {
    hide Less;
    forall y, z | y in From(m, eq, ele) && z in m && Less(y, z) ensures z in From(m, eq, ele) {
      if y != ele { LessTransitive(ele, y, z); }
    }
    forall y, z | y in UpTo(m, eq, ele) && z in m && Less(z, y) ensures z in UpTo(m, eq, ele) {
      if y != ele { LessTransitive(z, y, ele); }
    }
  }
}
