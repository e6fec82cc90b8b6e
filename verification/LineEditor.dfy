/** The editor of one line, with pasted text folded away. */
module LineEditor {
  import opened Folds
  import opened PasteText

  const FOLD_THRESHOLD: nat := 200
  const MAX_PASTE: nat := 1048576

  /** Text that is folded when it is pasted. */
  predicate Foldable(s: string) {
    '\n' in s || |s| >= FOLD_THRESHOLD
  }

  /** A range with its neighbours: where a new one goes. */
  ghost predicate Parts(folds: seq<Fold>, f: Fold, k: nat) {
    && k <= |folds|
    && (forall i :: 0 <= i < k ==> folds[i].0 <= f.0)
    && (forall i :: k <= i < |folds| ==> f.0 < folds[i].0)
  }

  ghost predicate Disjoint(folds: seq<Fold>, f: Fold) {
    forall i :: 0 <= i < |folds| ==> f.1 <= folds[i].0 || folds[i].1 <= f.0
  }

  lemma AddOrdered(folds: seq<Fold>, f: Fold, k: nat, n: nat)
    requires Ordered(folds, 0, n) && f.0 < f.1 <= n && Parts(folds, f, k) && Disjoint(folds, f)
    ensures Ordered(folds[..k] + [f] + folds[k..], 0, n)
  {
    hide Ordered;
    OrderedMeans(folds, 0, n);
    var r := folds[..k] + [f] + folds[k..];
    assert forall i :: 0 <= i < |r| ==> r[i] == if i < k then folds[i] else if i == k then f else folds[i - 1];
    OrderedMeans(r, 0, n);
  }

  /** No range reaches into what was just inserted. */
  lemma {:induction false} InsertedApart(folds: seq<Fold>, lo: nat, n: nat, pos: nat, len: nat)
    requires Ordered(folds, lo, n)
    ensures Disjoint(AfterInsert(folds, pos, len), (pos, pos + len))
  {
    if folds != [] {
      InsertedApart(folds[1..], folds[0].1, n, pos, len);
    }
  }

  // ----- Ranges adjusted one by one -----

  ghost function InsertSoFar(r: seq<Fold>, j: nat, at: nat, len: nat): (s: seq<Fold>)
    requires j <= |r|
  {
    r[..j] + AfterInsert(r[j..], at, len)
  }

  lemma InsertEnds(r: seq<Fold>, at: nat, len: nat)
    ensures InsertSoFar(r, 0, at, len) == AfterInsert(r, at, len) && InsertSoFar(r, |r|, at, len) == r
  {
    assert r[0..] == r && r[..0] == [] && r[|r|..] == [] && r[..|r|] == r;
  }

  lemma InsertStep(r: seq<Fold>, j: nat, at: nat, len: nat)
    requires j < |r|
    ensures at <= r[j].0 ==> InsertSoFar(r[j := (r[j].0 + len, r[j].1 + len)], j + 1, at, len) == InsertSoFar(r, j, at, len)
    ensures r[j].0 < at < r[j].1 ==> InsertSoFar(r[..j] + r[j + 1..], j, at, len) == InsertSoFar(r, j, at, len)
    ensures r[j].1 <= at && r[j].0 < at ==> InsertSoFar(r, j + 1, at, len) == InsertSoFar(r, j, at, len)
  {
    var rest := AfterInsert(r[j + 1..], at, len);
    var g: Fold := (r[j].0 + len, r[j].1 + len);
    assert r[j..][0] == r[j] && r[j..][1..] == r[j + 1..];
    assert (r[..j] + r[j + 1..])[..j] == r[..j] && (r[..j] + r[j + 1..])[j..] == r[j + 1..];
    assert r[j := g][..j + 1] == r[..j] + [g] && r[j := g][j + 1..] == r[j + 1..];
    assert r[..j + 1] == r[..j] + [r[j]];
  }

  ghost function DeleteSoFar(r: seq<Fold>, j: nat, at: nat, len: nat): (s: seq<Fold>)
    requires j <= |r|
  {
    r[..j] + AfterDelete(r[j..], at, len)
  }

  lemma DeleteEnds(r: seq<Fold>, at: nat, len: nat)
    ensures DeleteSoFar(r, 0, at, len) == AfterDelete(r, at, len) && DeleteSoFar(r, |r|, at, len) == r
  {
    assert r[0..] == r && r[..0] == [] && r[|r|..] == [] && r[..|r|] == r;
  }

  lemma DeleteStep(r: seq<Fold>, j: nat, at: nat, len: nat)
    requires j < |r|
    ensures at + len <= r[j].0 ==> DeleteSoFar(r[j := (r[j].0 - len, r[j].1 - len)], j + 1, at, len) == DeleteSoFar(r, j, at, len)
    ensures at + len > r[j].0 && at >= r[j].1 ==> DeleteSoFar(r, j + 1, at, len) == DeleteSoFar(r, j, at, len)
    ensures at + len > r[j].0 && at < r[j].1 ==> DeleteSoFar(r[..j] + r[j + 1..], j, at, len) == DeleteSoFar(r, j, at, len)
  {
    var rest := AfterDelete(r[j + 1..], at, len);
    assert r[j..][0] == r[j] && r[j..][1..] == r[j + 1..];
    assert (r[..j] + r[j + 1..])[..j] == r[..j] && (r[..j] + r[j + 1..])[j..] == r[j + 1..];
    if at + len <= r[j].0 {
      var g: Fold := (r[j].0 - len, r[j].1 - len);
      assert r[j := g][..j + 1] == r[..j] + [g] && r[j := g][j + 1..] == r[j + 1..];
    }
    assert r[..j + 1] == r[..j] + [r[j]];
  }

  class Editor {
    const limit: nat
    /** Bytes to the next and the previous place of the cursor. */
    const next: (string, nat) -> nat
    const prev: (string, nat) -> nat
    const fold: array<Fold>
    var text: string
    var pos: nat
    var count: nat

    ghost predicate Steps()
    {
      forall s, p: nat :: (p < |s| ==> 0 < next(s, p) <= |s| - p) && (0 < p <= |s| ==> 0 < prev(s, p) <= p)
    }

    ghost predicate Shape()
      reads this`count
    {
      fold.Length == MAX_FOLDS && count <= MAX_FOLDS && Steps()
    }

    ghost predicate Valid()
      reads this, fold
    {
      Shape() && pos <= |text| && Ordered(Ranges(), 0, |text|)
    }

    function Ranges(): (r: seq<Fold>)
      requires count <= fold.Length
      reads this`count, fold
    {
      fold[..count]
    }

    /** The texts that are not shown. */
    ghost function Hidden(): (r: seq<string>)
      requires Valid()
      reads this, fold
    {
      Contents(text, Ranges(), 0)
    }

    constructor (limit: nat, next: (string, nat) -> nat, prev: (string, nat) -> nat)
      requires forall s, p: nat :: (p < |s| ==> 0 < next(s, p) <= |s| - p) && (0 < p <= |s| ==> 0 < prev(s, p) <= p)
      ensures Valid() && text == "" && Ranges() == [] && fresh(fold)
    {
      this.limit, this.next, this.prev := limit, next, prev;
      fold := new Fold[MAX_FOLDS](_ => (0, 0));
      text, pos, count := "", 0, 0;
    }

    // ----- The list of ranges -----

    /** Move the ranges that start later. */
    method MakeRoom(start: nat) returns (j: nat)
      requires Shape() && count < MAX_FOLDS
      modifies fold
      ensures j <= count && (j > 0 ==> fold[j - 1].0 <= start) && (forall i :: 0 <= i < j ==> fold[i] == old(fold[i]))
      ensures forall i :: j < i <= count ==> fold[i] == old(fold[i - 1]) && start < fold[i].0
    {
      hide Steps;
      j := count;
      while j > 0 && start < fold[j - 1].0
        invariant j <= count
        invariant forall i :: 0 <= i < j ==> fold[i] == old(fold[i])
        invariant forall i :: j < i <= count ==> fold[i] == old(fold[i - 1]) && start < fold[i].0
      {
        fold[j] := fold[j - 1];
        j := j - 1;
      }
    }

    method FoldAdd(start: nat, end: nat) returns (ghost k: nat)
      requires Shape()
      modifies this`count, fold
      ensures start >= end || old(count) == MAX_FOLDS ==> Shape() && Ranges() == old(Ranges())
      ensures start < end && old(count) < MAX_FOLDS ==> Shape() && SortedBy(old(Ranges()), start, k) && Ranges() == old(Ranges())[..k] + [(start, end)] + old(Ranges())[k..]
    {
      hide Steps;
      k := 0;
      if start >= end || count == MAX_FOLDS { return; }
      ghost var before := Ranges();
      var j := MakeRoom(start);
      assert forall i :: j <= i < |before| ==> before[i] == fold[i + 1];
      fold[j] := (start, end);
      count := count + 1;
      k := j;
      assert Ranges()[..k] == before[..k] && Ranges()[k + 1..] == before[k..];
    }

    ghost predicate SortedBy(folds: seq<Fold>, start: nat, k: nat) {
      && k <= |folds| && (k > 0 ==> folds[k - 1].0 <= start)
      && (forall i :: k <= i < |folds| ==> start < folds[i].0)
    }

    method FoldRemove(j: nat)
      requires Shape() && j < count
      modifies this`count, fold
      ensures Shape() && Ranges() == old(Ranges())[..j] + old(Ranges())[j + 1..] && count == old(count) - 1
    {
      hide Steps;
      ghost var before := Ranges();
      var i := j;
      while i < count - 1
        invariant j <= i <= count - 1
        invariant forall m :: 0 <= m < i ==> fold[m] == before[if m < j then m else m + 1]
        invariant forall m :: i < m < count ==> fold[m] == before[m]
        modifies fold
      {
        fold[i] := fold[i + 1];
        i := i + 1;
      }
      count := count - 1;
    }

    method AdjustAfterInsert(at: nat, len: nat)
      requires Shape()
      modifies this`count, fold
      ensures Shape() && Ranges() == AfterInsert(old(Ranges()), at, len)
    {
      hide Steps, InsertSoFar;
      var j := 0;
      InsertEnds(Ranges(), at, len);
      while j < count
        invariant Shape() && 0 <= j <= count && InsertSoFar(Ranges(), j, at, len) == AfterInsert(old(Ranges()), at, len)
        decreases count - j
      {
        ghost var r := Ranges();
        var f := fold[j];
        InsertStep(r, j, at, len);
        if at <= f.0 {
          fold[j] := (f.0 + len, f.1 + len);
          assert Ranges() == r[j := (f.0 + len, f.1 + len)];
          j := j + 1;
        } else if at < f.1 {
          FoldRemove(j);
        } else {
          j := j + 1;
        }
      }
      InsertEnds(Ranges(), at, len);
    }

    method AdjustAfterDelete(at: nat, len: nat)
      requires Shape()
      modifies this`count, fold
      ensures Shape() && Ranges() == AfterDelete(old(Ranges()), at, len)
    {
      hide Steps, DeleteSoFar;
      var end := at + len;
      var j := 0;
      DeleteEnds(Ranges(), at, len);
      while j < count
        invariant Shape() && 0 <= j <= count && DeleteSoFar(Ranges(), j, at, len) == AfterDelete(old(Ranges()), at, len)
        decreases count - j
      {
        ghost var r := Ranges();
        var f := fold[j];
        DeleteStep(r, j, at, len);
        if end <= f.0 {
          fold[j] := (f.0 - len, f.1 - len);
          assert Ranges() == r[j := (f.0 - len, f.1 - len)];
          j := j + 1;
        } else if at >= f.1 {
          j := j + 1;
        } else {
          FoldRemove(j);
        }
      }
      DeleteEnds(Ranges(), at, len);
    }
  
    // ----- Edits -----

    /** Insert at the cursor; only the range around the cursor, if any, is given up. */
    method Insert(c: string) returns (ok: bool)
      requires Valid()
      modifies this, fold
      ensures Valid() && ok == (|old(text)| + |c| <= limit)
      ensures !ok ==> text == old(text) && pos == old(pos) && Ranges() == old(Ranges())
      ensures ok ==> text == Inserted(old(text), old(pos), c) && pos == old(pos) + |c| && Ranges() == AfterInsert(old(Ranges()), old(pos), |c|)
      ensures ok ==> Ordered(Clear(old(Ranges()), old(pos)), 0, |old(text)|) && Hidden() == Contents(old(text), Clear(old(Ranges()), old(pos)), 0)
    {
      hide Steps, Ordered, AfterInsert, Clear, Contents;
      if |text| + |c| > limit { return false; }
      ghost var r := Ranges();
      OrderedInserted(text, r, pos, c);
      var at := pos;
      text := Inserted(text, pos, c);
      pos := pos + |c|;
      AdjustAfterInsert(at, |c|);
      ok := true;
    }

    /** Delete bytes; only the ranges that lose bytes are given up. */
    method Cut(at: nat, len: nat)
      requires Valid() && at + len <= |text|
      modifies this`text, this`count, fold
      ensures Shape() && text == Deleted(old(text), at, len) && Ranges() == AfterDelete(old(Ranges()), at, len)
      ensures Ordered(Ranges(), 0, |text|) && Ordered(Untouched(old(Ranges()), at, len), 0, |old(text)|)
      ensures Contents(text, Ranges(), 0) == Contents(old(text), Untouched(old(Ranges()), at, len), 0)
    {
      hide Steps, Ordered, AfterDelete, Untouched, Contents;
      OrderedDeleted(text, Ranges(), at, len);
      AdjustAfterDelete(at, len);
      text := Deleted(text, at, len);
    }

    /** To the right of a range the cursor jumps over it. */
    method NextLength(p: nat) returns (n: nat)
      requires Valid() && p < |text|
      ensures 0 < n <= |text| - p && ((forall i :: 0 <= i < |Ranges()| ==> Ranges()[i].0 != p) ==> n == next(text, p))
      ensures forall i :: 0 <= i < |Ranges()| && Ranges()[i].0 == p ==> p + n == Ranges()[i].1
    {
      hide Ordered;
      OrderedMeans(Ranges(), 0, |text|);
      for j := 0 to count
        invariant forall i :: 0 <= i < j ==> fold[i].0 != p
      {
        if fold[j].0 == p { return fold[j].1 - fold[j].0; }
      }
      n := next(text, p);
    }

    method PrevLength(p: nat) returns (n: nat)
      requires Valid() && 0 < p <= |text|
      ensures 0 < n <= p && ((forall i :: 0 <= i < |Ranges()| ==> Ranges()[i].1 != p) ==> n == prev(text, p))
      ensures forall i :: 0 <= i < |Ranges()| && Ranges()[i].1 == p ==> p - n == Ranges()[i].0
    {
      hide Ordered;
      OrderedMeans(Ranges(), 0, |text|);
      for j := 0 to count
        invariant forall i :: 0 <= i < j ==> fold[i].1 != p
      {
        if fold[j].1 == p { return fold[j].1 - fold[j].0; }
      }
      n := prev(text, p);
    }

    method MoveLeft()
      requires Valid()
      modifies this`pos
      ensures Valid() && (old(pos) > 0 ==> pos < old(pos)) && (old(pos) == 0 ==> pos == 0)
      ensures forall i :: 0 <= i < |Ranges()| && Ranges()[i].1 == old(pos) ==> pos == Ranges()[i].0
    {
      OrderedMeans(Ranges(), 0, |text|);
      if pos > 0 {
        var n := PrevLength(pos);
        pos := pos - n;
      }
    }

    method MoveRight()
      requires Valid()
      modifies this`pos
      ensures Valid() && (old(pos) < |text| ==> pos > old(pos)) && (old(pos) == |text| ==> pos == |text|)
      ensures forall i :: 0 <= i < |Ranges()| && Ranges()[i].0 == old(pos) ==> pos == Ranges()[i].1
    {
      OrderedMeans(Ranges(), 0, |text|);
      if pos != |text| {
        var n := NextLength(pos);
        pos := pos + n;
      }
    }

    method Delete()
      requires Valid()
      modifies this, fold
      ensures Valid() && pos == old(pos)
      ensures old(pos) == |old(text)| ==> text == old(text) && Ranges() == old(Ranges())
      ensures old(pos) < |old(text)| ==> |text| < |old(text)| && CutBy(old(text), old(Ranges()), text, Ranges(), pos, |old(text)| - |text|)
    {
      hide Steps, Ordered;
      if pos < |text| {
        var n := NextLength(pos);
        Cut(pos, n);
      }
    }

    method Backspace()
      requires Valid()
      modifies this, fold
      ensures Valid() && pos <= old(pos)
      ensures old(pos) == 0 ==> text == old(text) && Ranges() == old(Ranges())
      ensures old(pos) > 0 ==> pos < old(pos) && CutBy(old(text), old(Ranges()), text, Ranges(), pos, old(pos) - pos)
    {
      hide Steps, Ordered;
      if pos > 0 {
        var n := PrevLength(pos);
        Cut(pos - n, n);
        pos := pos - n;
      }
    }

    /** Back over spaces, or over what is not a space. */
    method Skip(from: nat, spaces: bool) returns (p: nat)
      requires Valid() && from <= |text|
      ensures p <= from && (p > 0 ==> (text[p - 1] == ' ') != spaces)
    {
      hide Steps, Ordered;
      p := from;
      while p > 0 && (text[p - 1] == ' ') == spaces
        invariant p <= from
      {
        var n := PrevLength(p);
        p := p - n;
      }
    }

    method DeletePrevWord()
      requires Valid()
      modifies this, fold
      ensures Valid() && pos <= old(pos) && CutBy(old(text), old(Ranges()), text, Ranges(), pos, old(pos) - pos)
      ensures pos > 0 ==> old(text)[pos - 1] == ' '
    {
      hide Steps, Ordered;
      var p := Skip(pos, true);
      p := Skip(p, false);
      Cut(p, pos - p);
      pos := p;
    }

    /** What is shown: the gaps as they are and a marker for each range; and where the
        cursor is in it. */
    method Render() returns (out: string, cursor: nat)
      requires Valid()
      ensures out == Shown(text, Ranges(), 0) && cursor == Cursor(text, Ranges(), 0, pos)
    {
      out, cursor := RenderWith(text, Ranges(), pos);
    }

    /** Insert text and fold it away. */
    method InsertFolded(c: string)
      requires Valid() && c != "" && count < MAX_FOLDS && |text| + |c| <= limit
      modifies this, fold
      ensures Valid() && text == Inserted(old(text), old(pos), c) && pos == old(pos) + |c|
      ensures exists k: nat :: k <= |AfterInsert(old(Ranges()), old(pos), |c|)| && Ranges() == WithFold(AfterInsert(old(Ranges()), old(pos), |c|), (old(pos), pos), k)
    {
      hide Steps, Ordered, AfterInsert, Clear, Contents;
      var start := pos;
      ghost var before, n := Ranges(), |text|;
      var _ := Insert(c);
      InsertedApart(before, 0, n, start, |c|);
      ghost var mid := Ranges();
      InsertCount(before, start, |c|);
      ghost var k := FoldAdd(start, start + |c|);
      AddHere(mid, (start, start + |c|), k, |text|);
      assert k <= |mid| && Ranges() == WithFold(mid, (start, pos), k);
    }

    /** Read a paste from the terminal.  Too much text, or text when no more ranges can be
        kept, is dropped; text that is long or of several lines is folded. */
    method Paste(input: string) returns (ok: bool)
      requires Valid()
      modifies this, fold
      ensures Valid() && ok == (Pasted(input) != "" && old(count) < MAX_FOLDS && |old(text)| + |Pasted(input)| <= limit && |Pasted(input)| <= MAX_PASTE)
      ensures !ok ==> text == old(text) && pos == old(pos) && Ranges() == old(Ranges())
      ensures ok ==> var c := Normalized(Pasted(input)); text == Inserted(old(text), old(pos), c) && pos == old(pos) + |c|
      ensures ok ==> var c := Normalized(Pasted(input));
        var r := AfterInsert(old(Ranges()), old(pos), |c|);
        if Foldable(c) then exists k: nat :: k <= |r| && Ranges() == WithFold(r, (old(pos), pos), k) else Ranges() == r
    {
      hide Steps, Ordered, AfterInsert, Clear, Contents, Pasted, Normalized;
      var data := ReadPaste(input);
      var room := if limit > |text| then limit - |text| else 0;
      if room > MAX_PASTE { room := MAX_PASTE; }
      if count == MAX_FOLDS { room := 0; }
      if |data| > room || data == "" { return false; }
      var c := Normalize(data);
      NormalizedIs(data);
      if Foldable(c) { InsertFolded(c); } else { var _ := Insert(c); }
      ok := true;
    }
  }

  ghost function WithFold(folds: seq<Fold>, f: Fold, k: nat): (r: seq<Fold>)
    requires k <= |folds|
  {
    folds[..k] + [f] + folds[k..]
  }

  lemma {:induction false} InsertCount(folds: seq<Fold>, pos: nat, len: nat)
    ensures |AfterInsert(folds, pos, len)| <= |folds|
  {
    if folds != [] { InsertCount(folds[1..], pos, len); }
  }

  lemma AddHere(folds: seq<Fold>, f: Fold, k: nat, n: nat)
    requires Ordered(folds, 0, n) && f.0 < f.1 <= n && Disjoint(folds, f)
    requires k <= |folds| && (k > 0 ==> folds[k - 1].0 <= f.0) && (forall i :: k <= i < |folds| ==> f.0 < folds[i].0)
    ensures Ordered(WithFold(folds, f, k), 0, n)
  {
    hide Ordered;
    OrderedMeans(folds, 0, n);
    AddOrdered(folds, f, k, n);
  }

  lemma OrderedInserted(text: string, folds: seq<Fold>, pos: nat, c: string)
    requires Ordered(folds, 0, |text|) && pos <= |text|
    ensures Ordered(AfterInsert(folds, pos, |c|), 0, |Inserted(text, pos, c)|) && Ordered(Clear(folds, pos), 0, |text|)
    ensures Contents(Inserted(text, pos, c), AfterInsert(folds, pos, |c|), 0) == Contents(text, Clear(folds, pos), 0)
  {
    hide Contents, AfterInsert, Clear, Ordered;
    InsertOrdered(folds, 0, |text|, pos, |c|);
    OrderedWider(AfterInsert(folds, pos, |c|), if pos <= 0 then |c| else 0, |text| + |c|, 0, |text| + |c|);
    InsertKeeps(text, folds, 0, pos, c, 0, 0);
  }

  lemma OrderedDeleted(text: string, folds: seq<Fold>, pos: nat, len: nat)
    requires Ordered(folds, 0, |text|) && pos + len <= |text|
    ensures Ordered(AfterDelete(folds, pos, len), 0, |Deleted(text, pos, len)|) && Ordered(Untouched(folds, pos, len), 0, |text|)
    ensures Contents(Deleted(text, pos, len), AfterDelete(folds, pos, len), 0) == Contents(text, Untouched(folds, pos, len), 0)
  {
    hide Contents, AfterDelete, Untouched, Ordered;
    DeleteOrdered(folds, 0, |text|, pos, len);
    DeleteKeeps(text, folds, 0, pos, len, 0, 0);
  }

  /** Bytes are gone from `at` on, the ranges they were in are given up, and the others
      hide what they hid. */
  ghost predicate CutBy(text: string, folds: seq<Fold>, now: string, ranges: seq<Fold>, at: nat, len: nat)
    requires at + len <= |text|
  {
    && now == Deleted(text, at, len) && Ordered(ranges, 0, |now|) && Ordered(Untouched(folds, at, len), 0, |text|)
    && Contents(now, ranges, 0) == Contents(text, Untouched(folds, at, len), 0)
  }

  // ----- Rendering -----

  method RenderWith(text: string, r: seq<Fold>, pos: nat) returns (out: string, cursor: nat)
    requires Ordered(r, 0, |text|) && pos <= |text|
    ensures out == Shown(text, r, 0) && cursor == Cursor(text, r, 0, pos)
  {
    hide Marker, Shown, Cursor, Ordered;
    out, cursor := "", 0;
    var src: nat, placed, j: nat := 0, false, 0;
    assert r[0..] == r;
    while j < |r|
      invariant j <= |r| && src <= |text| && Ordered(r[j..], src, |text|) && out + Shown(text, r[j..], src) == Shown(text, r, 0)
      invariant placed ==> cursor == Cursor(text, r, 0, pos)
      invariant !placed ==> src <= pos && |out| + Cursor(text, r[j..], src, pos) == Cursor(text, r, 0, pos)
    {
      var f := r[j];
      assert r[j..][0] == f && r[j..][1..] == r[j + 1..];
      ShownFirst(text, r[j..], src);
      if !placed { CursorFirst(text, r[j..], src, pos); }
      var mark := Mark(text[f.0..f.1]);
      if !placed && pos <= f.0 { cursor, placed := |out| + (pos - src), true; }
      ghost var before := out;
      out := out + text[src..f.0];
      if !placed && pos < f.1 { cursor, placed := |out| + |mark|, true; }
      out := out + mark;
      if !placed && pos == f.1 { cursor, placed := |out|, true; }
      Regroup(before, text[src..f.0], mark, Shown(text, r[j + 1..], f.1));
      src, j := f.1, j + 1;
    }
    assert r[j..] == [];
    ShownLast(text, src);
    if !placed {
      CursorLast(text, src, pos);
      cursor := |out| + (pos - src);
    }
    out := out + text[src..];
  }

  lemma Regroup(a: string, b: string, c: string, d: string)
    ensures a + (b + c + d) == a + b + c + d
  {
  }

  method Mark(hidden: string) returns (s: string)
    ensures s == Marker(hidden)
  {
    hide Decimal;
    var lines := 1;
    for j := 0 to |hidden|
      invariant lines == Lines(hidden[..j])
    {
      assert hidden[..j + 1][..j] == hidden[..j];
      if hidden[j] == '\n' { lines := lines + 1; }
    }
    assert hidden[..|hidden|] == hidden;
    s := if lines > 1 then "[... " + Decimal(lines) + " pasted lines ...]" else "[... " + Decimal(|hidden|) + " pasted chars ...]";
  }

  lemma ShownFirst(text: string, folds: seq<Fold>, src: nat)
    requires Ordered(folds, src, |text|) && src <= |text| && folds != []
    ensures var f := folds[0]; src <= f.0 < f.1 <= |text| && Ordered(folds[1..], f.1, |text|) && Shown(text, folds, src) == text[src..f.0] + Marker(text[f.0..f.1]) + Shown(text, folds[1..], f.1)
  {
  }

  lemma ShownLast(text: string, src: nat)
    requires src <= |text|
    ensures Shown(text, [], src) == text[src..]
  {
  }

  lemma CursorFirst(text: string, folds: seq<Fold>, src: nat, pos: nat)
    requires Ordered(folds, src, |text|) && src <= pos <= |text| && folds != []
    ensures var f := folds[0];
      Cursor(text, folds, src, pos) == if pos <= f.0 then pos - src else if pos <= f.1 then f.0 - src + |Marker(text[f.0..f.1])|
        else f.0 - src + |Marker(text[f.0..f.1])| + Cursor(text, folds[1..], f.1, pos)
  {
  }

  lemma CursorLast(text: string, src: nat, pos: nat)
    requires src <= pos <= |text|
    ensures Cursor(text, [], src, pos) == pos - src
  {
  }
}
