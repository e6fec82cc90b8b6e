/** The memory of tool calls over whole runs: what was used last is in front, and an id has
    the text it was last given. */
module ToolRecency {
  import opened DsmlText
  import opened ToolItems

  /** What happens to the memory: an id is looked up, or a block remembered under it. */
  datatype Act = Look(id: string) | Keep(x: Item)

  function Done(items: seq<Item>, a: Act, maxEntries: nat, maxBytes: nat): (r: seq<Item>) {
    match a
    case Look(id) => Touched(items, id)
    case Keep(x) => Put(items, x, maxEntries, maxBytes)
  }

  function After(acts: seq<Act>, maxEntries: nat, maxBytes: nat): (r: seq<Item>) {
    if acts == [] then [] else Done(After(acts[..|acts| - 1], maxEntries, maxBytes), acts[|acts| - 1], maxEntries, maxBytes)
  }

  predicate Uses(a: Act, id: string) {
    match a
    case Look(i) => i == id
    case Keep(x) => x.id == id && x.id != "" && x.dsml != ""
  }

  predicate Gives(a: Act, id: string) {
    a.Keep? && Uses(a, id)
  }

  /** When an id was last used, from one on; zero for never. */
  function LastUse(acts: seq<Act>, id: string): (n: nat)
    ensures n <= |acts| && (n > 0 ==> Uses(acts[n - 1], id))
    ensures forall i :: n <= i < |acts| ==> !Uses(acts[i], id)
  {
    if acts == [] then 0 else if Uses(acts[|acts| - 1], id) then |acts| else LastUse(acts[..|acts| - 1], id)
  }

  /** The text an id was last given. */
  function LastGiven(acts: seq<Act>, id: string): (r: string) {
    if acts == [] then ""
    else if Gives(acts[|acts| - 1], id) then acts[|acts| - 1].x.dsml
    else LastGiven(acts[..|acts| - 1], id)
  }

  /** Recent use first, each id with the text it was last given. */
  ghost predicate Recent(items: seq<Item>, acts: seq<Act>) {
    && (forall i :: 0 <= i < |items| ==> LastUse(acts, items[i].id) > 0 && LastGiven(acts, items[i].id) == items[i].dsml)
    && (forall i, j :: 0 <= i < j < |items| ==> LastUse(acts, items[i].id) > LastUse(acts, items[j].id))
  }

  lemma RecentUnique(items: seq<Item>, acts: seq<Act>)
    requires Recent(items, acts)
    ensures Unique(items)
  {
    hide LastUse;
  }

  // ----- One act -----

  lemma OtherStays(acts: seq<Act>, a: Act, id: string)
    requires !Uses(a, id)
    ensures LastUse(acts + [a], id) == LastUse(acts, id) && LastGiven(acts + [a], id) == LastGiven(acts, id)
  {
    assert (acts + [a])[..|acts|] == acts;
  }

  lemma UsedNow(acts: seq<Act>, a: Act, id: string)
    requires Uses(a, id)
    ensures LastUse(acts + [a], id) == |acts| + 1
    ensures LastGiven(acts + [a], id) == if a.Look? then LastGiven(acts, id) else a.x.dsml
  {
    assert (acts + [a])[..|acts|] == acts;
  }

  lemma RecentDrop(items: seq<Item>, acts: seq<Act>, i: nat)
    requires Recent(items, acts) && i < |items|
    ensures Recent(Drop(items, i), acts) && forall k :: 0 <= k < |items| - 1 ==> Drop(items, i)[k].id != items[i].id
  {
    hide LastUse, LastGiven, Drop;
    var r := Drop(items, i);
    assert forall k :: 0 <= k < |r| ==> r[k] == items[if k < i then k else k + 1];
  }

  lemma RecentFront(items: seq<Item>, acts: seq<Act>, k: nat)
    requires Recent(items, acts) && k <= |items|
    ensures Recent(items[..k], acts)
  {
    hide LastUse, LastGiven;
  }

  lemma RecentOthers(items: seq<Item>, acts: seq<Act>, a: Act)
    requires Recent(items, acts) && forall k :: 0 <= k < |items| ==> !Uses(a, items[k].id)
    ensures Recent(items, acts + [a]) && forall k :: 0 <= k < |items| ==> LastUse(acts + [a], items[k].id) <= |acts|
  {
    hide LastUse, LastGiven, Uses;
    forall k | 0 <= k < |items|
      ensures LastUse(acts + [a], items[k].id) == LastUse(acts, items[k].id) <= |acts| && LastGiven(acts + [a], items[k].id) == LastGiven(acts, items[k].id)
    {
      OtherStays(acts, a, items[k].id);
    }
  }

  lemma RecentCons(x: Item, items: seq<Item>, acts: seq<Act>)
    requires Recent(items, acts) && LastUse(acts, x.id) > 0 && LastGiven(acts, x.id) == x.dsml
    requires forall k :: 0 <= k < |items| ==> LastUse(acts, items[k].id) < LastUse(acts, x.id)
    ensures Recent([x] + items, acts)
  {
    hide LastUse, LastGiven;
    var r := [x] + items;
    assert r[0] == x && forall k :: 0 < k < |r| ==> r[k] == items[k - 1];
  }

  /** Using an id brings it to the front, with the others behind it as they were. */
  lemma UsedFirst(rest: seq<Item>, acts: seq<Act>, a: Act, x: Item)
    requires Recent(rest, acts) && Uses(a, x.id) && forall k :: 0 <= k < |rest| ==> rest[k].id != x.id
    requires x.dsml == if a.Look? then LastGiven(acts, x.id) else a.x.dsml
    ensures Recent([x] + rest, acts + [a])
  {
    hide LastUse, LastGiven, Recent;
    assert forall k :: 0 <= k < |rest| ==> !Uses(a, rest[k].id);
    RecentOthers(rest, acts, a);
    UsedNow(acts, a, x.id);
    RecentCons(x, rest, acts + [a]);
  }

  lemma NothingUsed(items: seq<Item>, acts: seq<Act>, a: Act)
    requires Recent(items, acts) && forall k :: 0 <= k < |items| ==> !Uses(a, items[k].id)
    ensures Recent(items, acts + [a])
  {
    hide Recent;
    RecentOthers(items, acts, a);
  }

  lemma LookKeeps(items: seq<Item>, acts: seq<Act>, id: string)
    requires Recent(items, acts)
    ensures Recent(Touched(items, id), acts + [Look(id)])
  {
    hide LastUse, LastGiven, Where, Drop;
    var w := Where(items, id);
    if w.Some? {
      RecentDrop(items, acts, w.value);
      UsedFirst(Drop(items, w.value), acts, Look(id), items[w.value]);
    } else {
      NothingUsed(items, acts, Look(id));
    }
  }

  lemma AddedRecent(items: seq<Item>, acts: seq<Act>, x: Item)
    requires Recent(items, acts) && x.id != "" && x.dsml != ""
    ensures Recent(Added(items, x), acts + [Keep(x)])
  {
    hide LastUse, LastGiven, Where, Drop;
    var w := Where(items, x.id);
    if w.Some? {
      RecentDrop(items, acts, w.value);
      UsedFirst(Drop(items, w.value), acts, Keep(x), Added(items, x)[0]);
    } else {
      UsedFirst(items, acts, Keep(x), x);
    }
  }

  lemma KeepKeeps(items: seq<Item>, acts: seq<Act>, x: Item, maxEntries: nat, maxBytes: nat)
    requires Recent(items, acts)
    ensures Recent(Put(items, x, maxEntries, maxBytes), acts + [Keep(x)])
  {
    hide Recent, Pruned, Added, Bytes;
    if x.id == "" || x.dsml == "" {
      NothingUsed(items, acts, Keep(x));
    } else {
      var all := Added(items, x);
      AddedRecent(items, acts, x);
      PrunedIsLongest(all, maxEntries, maxBytes);
      var r := Pruned(all, maxEntries, maxBytes);
      assert r == all[..|r|];
      RecentFront(all, acts + [Keep(x)], |r|);
    }
  }

  // ----- Runs -----

  /** After every run, the items are in the order of their last use, and each id has the text
      it was last given. */
  lemma {:induction false} RecentFirst(acts: seq<Act>, maxEntries: nat, maxBytes: nat)
    ensures Recent(After(acts, maxEntries, maxBytes), acts)
  {
    hide LastUse, LastGiven, Touched, Put;
    if acts != [] {
      var n := |acts| - 1;
      var front, a := acts[..n], acts[n];
      var items := After(front, maxEntries, maxBytes);
      RecentFirst(front, maxEntries, maxBytes);
      assert acts == front + [a];
      match a
      case Look(id) => LookKeeps(items, front, id);
      case Keep(x) => KeepKeeps(items, front, x, maxEntries, maxBytes);
    }
  }

  /** So what goes is what has not been used for longest: an id that is forgotten by a put was
      used before every one that stays. */
  lemma OldestGoes(acts: seq<Act>, x: Item, maxEntries: nat, maxBytes: nat, gone: string, stays: string)
    requires var items := After(acts, maxEntries, maxBytes);
      && Known(items, gone) && !Known(Put(items, x, maxEntries, maxBytes), gone) && Known(Put(items, x, maxEntries, maxBytes), stays)
    ensures LastUse(acts + [Keep(x)], gone) < LastUse(acts + [Keep(x)], stays)
  {
    hide LastUse, LastGiven, Pruned, Where, Bytes, Drop;
    var items := After(acts, maxEntries, maxBytes);
    var all, r := Added(items, x), Put(items, x, maxEntries, maxBytes);
    RecentFirst(acts, maxEntries, maxBytes);
    AddedRecent(items, acts, x);
    AddedKnows(items, acts, x, gone);
    PrunedIsLongest(all, maxEntries, maxBytes);
    var i, j := Where(all, gone).value, Where(r, stays).value;
    assert forall k :: 0 <= k < |r| ==> r[k] == all[k];
    assert all[j].id == stays && j < i;
  }

  /** Adding forgets nothing. */
  lemma AddedKnows(items: seq<Item>, acts: seq<Act>, x: Item, id: string)
    requires Recent(items, acts) && Known(items, id)
    ensures Known(Added(items, x), id)
  {
    hide LastUse, LastGiven, Where, Recent;
    var w, v, r := Where(items, x.id), Where(items, id), Added(items, x);
    RecentUnique(items, acts);
    if w.None? {
      assert r[v.value + 1].id == id;
    } else {
      assert r[if v.value == w.value then 0 else if v.value < w.value then v.value + 1 else v.value].id == id;
    }
  }

  /** A call of this process stays one while its text does; others are as they were. */
  lemma AddedIs(items: seq<Item>, x: Item, other: string)
    requires Unique(items)
    ensures var r := Added(items, x);
      && r != [] && r[0].id == x.id && r[0].dsml == x.dsml
      && (r[0].ram <==> x.ram || (Known(items, x.id) && TextOf(items, x.id) == x.dsml && RamOf(items, x.id)))
      && (other != x.id ==> (Known(r, other) <==> Known(items, other)) && TextOf(r, other) == TextOf(items, other) && RamOf(r, other) == RamOf(items, other))
  {
    hide Where;
    var w, v, r := Where(items, x.id), Where(items, other), Added(items, x);
    if other != x.id {
      if v.Some? {
        var k := if w.None? || v.value < w.value then v.value + 1 else v.value;
        assert r[k] == items[v.value];
        AddedUnique(items, x);
        WhereIs(r, other, k);
      } else {
        assert forall k :: 0 <= k < |r| ==> r[k].id != other;
      }
    }
  }

  lemma AddedUnique(items: seq<Item>, x: Item)
    requires Unique(items)
    ensures Unique(Added(items, x))
  {
    hide Where;
  }
}
