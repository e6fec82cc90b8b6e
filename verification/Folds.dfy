/** Ranges of an edited line that are shown as a marker, kept in step with the edits. */
module Folds {

  /** A range, from the first byte to the one after the last. */
  type Fold = f: (nat, nat) | f.0 <= f.1 witness (0, 0)

  const MAX_FOLDS: nat := 16

  /** Not empty, in order and apart, and all between `lo` and `n`. */
  ghost predicate Ordered(folds: seq<Fold>, lo: nat, n: nat) {
    folds != [] ==> lo <= folds[0].0 < folds[0].1 <= n && Ordered(folds[1..], folds[0].1, n)
  }

  lemma {:induction false} OrderedMeans(folds: seq<Fold>, lo: nat, n: nat)
    ensures Ordered(folds, lo, n) <==>
      && (forall i :: 0 <= i < |folds| ==> lo <= folds[i].0 < folds[i].1 <= n)
      && (forall i, j :: 0 <= i < j < |folds| ==> folds[i].1 <= folds[j].0)
  {
    if folds != [] {
      var f, rest := folds[0], folds[1..];
      OrderedMeans(rest, f.1, n);
      assert forall i :: 0 < i < |folds| ==> folds[i] == rest[i - 1];
      assert forall i :: 0 <= i < |rest| ==> rest[i] == folds[i + 1];
    }
  }

  lemma {:induction false} OrderedWider(folds: seq<Fold>, lo: nat, n: nat, l: nat, m: nat)
    requires Ordered(folds, lo, n) && l <= lo && n <= m
    ensures Ordered(folds, l, m)
  {
    if folds != [] { OrderedWider(folds[1..], folds[0].1, n, folds[0].1, m); }
  }

  /** The texts that are not shown. */
  ghost function Contents(text: string, folds: seq<Fold>, lo: nat): (r: seq<string>)
    requires Ordered(folds, lo, |text|)
  {
    if folds == [] then [] else [text[folds[0].0..folds[0].1]] + Contents(text, folds[1..], folds[0].1)
  }

  // ----- What edits do to ranges -----

  function AfterInsert(folds: seq<Fold>, pos: nat, len: nat): (r: seq<Fold>) {
    if folds == [] then []
    else
      var f, rest := folds[0], AfterInsert(folds[1..], pos, len);
      if pos <= f.0 then [(f.0 + len, f.1 + len)] + rest else if pos < f.1 then rest else [f] + rest
  }

  function AfterDelete(folds: seq<Fold>, pos: nat, len: nat): (r: seq<Fold>) {
    if folds == [] then []
    else
      var f, rest := folds[0], AfterDelete(folds[1..], pos, len);
      if pos + len <= f.0 then [(f.0 - len, f.1 - len)] + rest else if pos >= f.1 then [f] + rest else rest
  }

  /** The ranges that `pos` is not inside of. */
  function Clear(folds: seq<Fold>, pos: nat): (r: seq<Fold>) {
    if folds == [] then []
    else if folds[0].0 < pos < folds[0].1 then Clear(folds[1..], pos)
    else [folds[0]] + Clear(folds[1..], pos)
  }

  /** The ranges that a deletion does not touch. */
  function Untouched(folds: seq<Fold>, pos: nat, len: nat): (r: seq<Fold>) {
    if folds == [] then []
    else if pos + len <= folds[0].0 || pos >= folds[0].1 then [folds[0]] + Untouched(folds[1..], pos, len)
    else Untouched(folds[1..], pos, len)
  }

  function Inserted(text: string, pos: nat, c: string): (r: string)
    requires pos <= |text|
  {
    text[..pos] + c + text[pos..]
  }

  function Deleted(text: string, pos: nat, len: nat): (r: string)
    requires pos + len <= |text|
  {
    text[..pos] + text[pos + len..]
  }

  /** After an insertion the ranges are in order. */
  lemma {:induction false} InsertOrdered(folds: seq<Fold>, lo: nat, n: nat, pos: nat, len: nat)
    requires Ordered(folds, lo, n)
    ensures Ordered(AfterInsert(folds, pos, len), if pos <= lo then lo + len else lo, n + len)
    ensures Ordered(Clear(folds, pos), lo, n)
  {
    if folds != [] {
      var f := folds[0];
      InsertOrdered(folds[1..], f.1, n, pos, len);
      if f.0 < pos < f.1 {
        OrderedWider(AfterInsert(folds[1..], pos, len), f.1 + len, n + len, lo, n + len);
        OrderedWider(Clear(folds[1..], pos), f.1, n, lo, n);
      }
    }
  }

  /** The range that an insertion is made inside of is shown again; the rest hides what it hid. */
  lemma {:induction false} InsertKeeps(text: string, folds: seq<Fold>, lo: nat, pos: nat, c: string, l: nat, m: nat)
    requires Ordered(folds, lo, |text|) && pos <= |text|
    requires Ordered(AfterInsert(folds, pos, |c|), l, |Inserted(text, pos, c)|) && Ordered(Clear(folds, pos), m, |text|)
    ensures Contents(Inserted(text, pos, c), AfterInsert(folds, pos, |c|), l) == Contents(text, Clear(folds, pos), m)
  {
    if folds != [] {
      var f, all := folds[0], Inserted(text, pos, c);
      if f.0 < pos < f.1 {
        InsertKeeps(text, folds[1..], f.1, pos, c, l, m);
      } else {
        var g := if pos <= f.0 then (f.0 + |c|, f.1 + |c|) else f;
        assert all[g.0..g.1] == text[f.0..f.1];
        InsertKeeps(text, folds[1..], f.1, pos, c, g.1, f.1);
      }
    }
  }

  lemma {:induction false} DeleteOrdered(folds: seq<Fold>, lo: nat, n: nat, pos: nat, len: nat)
    requires Ordered(folds, lo, n) && pos + len <= n
    ensures Ordered(AfterDelete(folds, pos, len), if pos + len <= lo then lo - len else if lo <= pos then lo else pos, n - len)
    ensures Ordered(Untouched(folds, pos, len), lo, n)
  {
    if folds != [] {
      var f := folds[0];
      DeleteOrdered(folds[1..], f.1, n, pos, len);
      var rest, clear := AfterDelete(folds[1..], pos, len), Untouched(folds[1..], pos, len);
      var l := if pos + len <= lo then lo - len else if lo <= pos then lo else pos;
      if !(pos + len <= f.0 || pos >= f.1) {
        var k := if pos + len <= f.1 then f.1 - len else pos;
        OrderedWider(rest, k, n - len, l, n - len);
        OrderedWider(clear, f.1, n, lo, n);
      }
    }
  }

  /** Ranges that a deletion touches are shown again; the rest hides what it hid. */
  lemma {:induction false} DeleteKeeps(text: string, folds: seq<Fold>, lo: nat, pos: nat, len: nat, l: nat, m: nat)
    requires Ordered(folds, lo, |text|) && pos + len <= |text|
    requires Ordered(AfterDelete(folds, pos, len), l, |Deleted(text, pos, len)|) && Ordered(Untouched(folds, pos, len), m, |text|)
    ensures Contents(Deleted(text, pos, len), AfterDelete(folds, pos, len), l) == Contents(text, Untouched(folds, pos, len), m)
  {
    if folds != [] {
      var f, all := folds[0], Deleted(text, pos, len);
      if pos + len <= f.0 || pos >= f.1 {
        var g: Fold := if pos + len <= f.0 then (f.0 - len, f.1 - len) else f;
        assert all[g.0..g.1] == text[f.0..f.1];
        DeleteKeeps(text, folds[1..], f.1, pos, len, g.1, f.1);
      } else {
        DeleteKeeps(text, folds[1..], f.1, pos, len, l, m);
      }
    }
  }

  // ----- What is shown -----

  function Lines(s: string): (n: nat) {
    if s == "" then 1 else Lines(s[..|s| - 1]) + if s[|s| - 1] == '\n' then 1 else 0
  }

  function Decimal(n: nat): (s: string) {
    if n < 10 then [('0' as int + n) as char] else Decimal(n / 10) + [('0' as int + n % 10) as char]
  }

  function Marker(hidden: string): (s: string) {
    if Lines(hidden) > 1 then "[... " + Decimal(Lines(hidden)) + " pasted lines ...]" else "[... " + Decimal(|hidden|) + " pasted chars ...]"
  }

  /** The text from `src` on, with markers for the ranges. */
  ghost function Shown(text: string, folds: seq<Fold>, src: nat): (r: string)
    requires Ordered(folds, src, |text|) && src <= |text|
    decreases |folds|
  {
    if folds == [] then text[src..]
    else
      var f := folds[0];
      text[src..f.0] + Marker(text[f.0..f.1]) + Shown(text, folds[1..], f.1)
  }

  /** Where a place of the text is in what is shown from `src` on. */
  ghost function Cursor(text: string, folds: seq<Fold>, src: nat, pos: nat): (r: nat)
    requires Ordered(folds, src, |text|) && src <= pos <= |text|
    decreases |folds|
  {
    if folds == [] || pos <= folds[0].0 then pos - src
    else
      var f := folds[0];
      f.0 - src + |Marker(text[f.0..f.1])| + if pos <= f.1 then 0 else Cursor(text, folds[1..], f.1, pos)
  }

  /** The cursor is in what is shown, and moves with the place. */
  lemma {:induction false} CursorMoves(text: string, folds: seq<Fold>, src: nat, p: nat, q: nat)
    requires Ordered(folds, src, |text|) && src <= p <= q <= |text|
    ensures Cursor(text, folds, src, p) <= Cursor(text, folds, src, q) <= |Shown(text, folds, src)|
    decreases |folds|
  {
    hide Marker;
    if folds != [] {
      var f := folds[0];
      if q > f.1 { CursorMoves(text, folds[1..], f.1, if p > f.1 then p else f.1, q); }
    }
  }

  /** The ranges that end at or before `pos`. */
  function Upto(folds: seq<Fold>, pos: nat): (r: seq<Fold>) {
    if folds == [] || folds[0].1 > pos then [] else [folds[0]] + Upto(folds[1..], pos)
  }

  lemma {:induction false} UptoOrdered(folds: seq<Fold>, lo: nat, n: nat, pos: nat)
    requires Ordered(folds, lo, n)
    ensures Ordered(Upto(folds, pos), lo, pos)
  {
    if folds != [] && folds[0].1 <= pos { UptoOrdered(folds[1..], folds[0].1, n, pos); }
  }

  ghost predicate Visible(folds: seq<Fold>, pos: nat) {
    forall i :: 0 <= i < |folds| ==> !(folds[i].0 < pos < folds[i].1)
  }

  /** Before the cursor stands what is shown of the text before it. */
  lemma {:induction false} CursorSplits(text: string, folds: seq<Fold>, src: nat, pos: nat)
    requires Ordered(folds, src, |text|) && src <= pos <= |text| && Visible(folds, pos) && Ordered(Upto(folds, pos), src, pos)
    ensures Cursor(text, folds, src, pos) <= |Shown(text, folds, src)|
    ensures Shown(text, folds, src)[..Cursor(text, folds, src, pos)] == Shown(text[..pos], Upto(folds, pos), src)
    decreases |folds|
  {
    hide Marker;
    CursorMoves(text, folds, src, pos, pos);
    if folds == [] {
      assert text[src..][..pos - src] == text[..pos][src..];
    } else {
      var f := folds[0];
      var gap, mark, rest := text[src..f.0], Marker(text[f.0..f.1]), Shown(text, folds[1..], f.1);
      if pos <= f.0 {
        assert (gap + mark + rest)[..pos - src] == gap[..pos - src] == text[..pos][src..];
      } else {
        assert text[..pos][src..f.0] == gap && text[..pos][f.0..f.1] == text[f.0..f.1];
        var more := if pos == f.1 then 0 else Cursor(text, folds[1..], f.1, pos);
        NothingMore(text, folds[1..], f.1);
        CursorSplits(text, folds[1..], f.1, pos);
        assert (gap + mark + rest)[..|gap| + |mark| + more] == gap + mark + rest[..more];
        assert Upto(folds, pos)[1..] == Upto(folds[1..], pos);
      }
    }
  }

  lemma NothingMore(text: string, folds: seq<Fold>, pos: nat)
    requires Ordered(folds, pos, |text|) && pos <= |text|
    ensures Cursor(text, folds, pos, pos) == 0
  {
  }
}
