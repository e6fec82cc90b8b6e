/** Slots move between a free list and the prefixes they are shown for. */
module HiPool {
  import opened HiTree
  import opened HiLocks
  import opened HiPayload

  /** Every slot is in one place: free, or shown for one prefix. */
  ghost predicate Pool(m: map<Text, Slot>, free: seq<Slot>) {
    && (forall s, t :: s in m && t in m && s != t ==> m[s] != m[t])
    && (forall s :: s in m ==> m[s] !in free)
    && (forall i, j :: 0 <= i < j < |free| ==> free[i] != free[j])
  }

  /** All slots of the pool, free or shown. */
  ghost function Places(m: map<Text, Slot>, free: seq<Slot>): (r: set<Slot>) {
    m.Values + set x | x in free
  }

  /** `slots` are those of the prefixes of `t` longer than `lo`. */
  ghost predicate Spells(m: map<Text, Slot>, t: Text, lo: nat, slots: seq<Slot>) {
    && lo + |slots| == |t|
    && forall s :: s <= t && lo < |s| ==> s in m && m[s] == slots[|s| - 1 - lo]
  }

  lemma SpellsAt(m: map<Text, Slot>, t: Text, lo: nat, slots: seq<Slot>, i: nat)
    requires Spells(m, t, lo, slots) && i < |slots|
    ensures lo + |slots| == |t| && t[..lo + 1 + i] in m && m[t[..lo + 1 + i]] == slots[i] && t[..lo + 1 + i] in Seg(t, lo, |t|)
  {
    assert t[..lo + 1 + i] <= t;
    InSeg(t, lo, |t|, t[..lo + 1 + i]);
  }

  /** Giving the slots of some prefixes back. */
  lemma PoolDrop(m: map<Text, Slot>, free: seq<Slot>, t: Text, lo: nat, slots: seq<Slot>)
    requires Pool(m, free) && Spells(m, t, lo, slots)
    ensures Pool(m - Seg(t, lo, |t|), free + slots)
  {
    hide Seg, Spells;
    var m', free' := m - Seg(t, lo, |t|), free + slots;
    forall i, j | 0 <= i < j < |free'| ensures free'[i] != free'[j] {
      if j >= |free| {
        SpellsAt(m, t, lo, slots, j - |free|);
        if i >= |free| {
          SpellsAt(m, t, lo, slots, i - |free|);
          assert |t[..lo + 1 + (i - |free|)]| < |t[..lo + 1 + (j - |free|)]|;
        }
      }
    }
    forall s | s in m' ensures m'[s] !in free' {
      forall i | 0 <= i < |slots| ensures slots[i] != m'[s] { SpellsAt(m, t, lo, slots, i); }
    }
  }

  /** Taking free slots for new prefixes. */
  lemma PoolTake(m: map<Text, Slot>, free: seq<Slot>, m': map<Text, Slot>, t: Text, lo: nat, n: nat)
    requires Pool(m, free) && n <= |free| && lo + n == |t|
    requires forall s :: s in m' <==> s in m || s in Seg(t, lo, |t|)
    requires forall s :: s in Seg(t, lo, |t|) ==> s !in m
    requires forall s :: s in m ==> m'[s] == m[s]
    requires Spells(m', t, lo, free[..n])
    ensures Pool(m', free[n..])
  {
    hide Seg, Spells;
    forall s | s in Seg(t, lo, |t|) ensures lo < |s| <= |t| && m'[s] == free[|s| - 1 - lo] && s == t[..|s|] {
      InSeg(t, lo, |t|, s);
      assert s == t[..|s|] && |free[..n]| == n;
      SpellsAt(m', t, lo, free[..n], |s| - 1 - lo);
    }
    forall s, u | s in m' && u in m' && s != u ensures m'[s] != m'[u] { }
  }

  lemma PlacesDrop(m: map<Text, Slot>, free: seq<Slot>, t: Text, lo: nat, slots: seq<Slot>)
    requires Spells(m, t, lo, slots)
    ensures Places(m - Seg(t, lo, |t|), free + slots) <= Places(m, free)
  {
    hide Seg, Spells;
    forall x | x in slots ensures x in m.Values {
      var i :| 0 <= i < |slots| && slots[i] == x;
      SpellsAt(m, t, lo, slots, i);
    }
  }

  lemma PlacesTake(m: map<Text, Slot>, free: seq<Slot>, m': map<Text, Slot>, t: Text, lo: nat, n: nat)
    requires n <= |free| && lo + n == |t| && Spells(m', t, lo, free[..n])
    requires forall s :: s in m' <==> s in m || s in Seg(t, lo, |t|)
    requires forall s :: s in m && s !in Seg(t, lo, |t|) ==> m'[s] == m[s]
    ensures Places(m', free[n..]) <= Places(m, free)
  {
    hide Seg, Spells;
    forall s | s in Seg(t, lo, |t|) ensures m'[s] in free {
      InSeg(t, lo, |t|, s);
      assert s == t[..|s|] && |free[..n]| == n;
      SpellsAt(m', t, lo, free[..n], |s| - 1 - lo);
    }
  }

  lemma PoolLess(m: map<Text, Slot>, free: seq<Slot>, gone: set<Text>)
    requires Pool(m, free)
    ensures Pool(m - gone, free)
  {
  }

  /** As many slots are free as prefixes lost theirs. */
  lemma DropCount(m: map<Text, Slot>, t: Text, lo: nat, slots: seq<Slot>)
    requires Spells(m, t, lo, slots)
    ensures |m - Seg(t, lo, |t|)| == |m| - |slots|
  {
    hide Seg;
    var seg := Seg(t, lo, |t|);
    forall s | s in seg ensures s in m { InSeg(t, lo, |t|, s); }
    SegSize(t, lo, |t|);
    assert (m - seg).Keys == m.Keys - seg;
    KeysSize(m);
    KeysSize(m - seg);
    LessSize(m.Keys, seg);
  }

  lemma KeysSize<T>(m: map<Text, T>)
    ensures |m| == |m.Keys|
  {
  }

  lemma TakeCount(m: map<Text, Slot>, m': map<Text, Slot>, t: Text, lo: nat)
    requires lo <= |t| && (forall s :: s in m' <==> s in m || s in Seg(t, lo, |t|)) && (forall s :: s in Seg(t, lo, |t|) ==> s !in m)
    ensures |m'| == |m| + |t| - lo
  {
    hide Seg;
    SegSize(t, lo, |t|);
    KeysSize(m);
    KeysSize(m');
    assert m'.Keys == m.Keys + Seg(t, lo, |t|);
    MoreSize(m.Keys, Seg(t, lo, |t|));
  }
}
