/** How much of unfinished text may already be sent: not half a character, half
    an entity or half a tag. */
module StreamText {
  import opened DsmlText
  import opened DsmlTracker

  // ----- Characters of more than one byte -----

  predicate IsCont(c: char) {
    '\U{80}' <= c < '\U{C0}'
  }

  /** Bytes in the character that `c` leads. */
  function Need(c: char): (n: nat)
    ensures 1 <= n <= 4 && (n > 1 ==> !IsCont(c) && c >= '\U{C2}')
  {
    if '\U{C2}' <= c <= '\U{DF}' then 2
    else if '\U{E0}' <= c <= '\U{EF}' then 3
    else if '\U{F0}' <= c <= '\U{F4}' then 4
    else 1
  }

  predicate Led(s: string, i: nat) {
    exists j :: 0 <= j < i && j < |s| && i < j + Need(s[j])
  }

  /** Whole characters, of which only the last may be cut short. */
  ghost predicate Proper(s: string) {
    && (forall i :: 0 <= i < |s| && IsCont(s[i]) ==> Led(s, i))
    && (forall j, k :: 0 <= j < k < |s| && k < j + Need(s[j]) ==> IsCont(s[k]))
  }

  /** The character that starts at `j` goes on at `i`. */
  predicate Straddles(s: string, j: nat, i: nat) {
    j < |s| && j < i < j + Need(s[j])
  }

  predicate Boundary(s: string, i: nat) {
    i < |s| ==> !IsCont(s[i])
  }

  /** Back over at most `left` continuation bytes. */
  function Back(s: string, start: nat, p: nat, left: nat): (r: nat)
    requires p <= |s|
    ensures r <= p && p - r <= left && (start <= p ==> start <= r)
    ensures forall i :: r <= i < p ==> IsCont(s[i])
    ensures r > start && p - r < left ==> !IsCont(s[r - 1])
  {
    if p > start && left > 0 && IsCont(s[p - 1]) then Back(s, start, p - 1, left - 1) else p
  }

  function Utf8Safe(s: string, start: nat, limit: nat): (r: nat)
    requires limit <= |s|
    ensures r <= limit && (start <= limit ==> start <= r)
    ensures r == limit || r == start || s[r] >= '\U{C2}'
  {
    if limit <= start then limit
    else
      var p := Back(s, start, limit, 4);
      if p == limit then if Need(s[limit - 1]) > 1 then limit - 1 else limit
      else if p == start then start
      else if limit - (p - 1) < Need(s[p - 1]) then p - 1 else limit
  }

  method Utf8SafeLen(s: string, start: nat, limit: nat, final: bool) returns (r: nat)
    requires limit <= |s|
    ensures r == if final then limit else Utf8Safe(s, start, limit)
  {
    if final || limit <= start { return limit; }
    var p, cont := limit, 0;
    while p > start && cont < 4 && IsCont(s[p - 1])
      invariant start <= p <= limit && cont == limit - p <= 4
      invariant Back(s, start, limit, 4) == Back(s, start, p, 4 - cont)
    {
      p, cont := p - 1, cont + 1;
    }
    if p == limit { return if Need(s[limit - 1]) > 1 then limit - 1 else limit; }
    if p == start && IsCont(s[p]) { return start; }
    var lead := p - 1;
    var need := Need(s[lead]);
    r := if limit - lead < need then lead else limit;
  }

  /** In proper text, the only byte to stop at is the start of the character that
      goes on at the limit. */
  lemma Utf8SafeIs(s: string, start: nat, limit: nat)
    requires Proper(s) && Boundary(s, start) && start <= limit <= |s|
    ensures var r := Utf8Safe(s, start, limit);
      && start <= r <= limit
      && (r < limit ==> Straddles(s, r, limit))
      && (r == limit ==> forall j :: start <= j < limit ==> !Straddles(s, j, limit))
  {
    hide Led;
    if start < limit {
      var p := Back(s, start, limit, 4);
      if p < limit {
        var j := Leader(s, limit - 1);
        assert p > j && j >= start;
        OneStraddler(s, limit, p - 1);
      } else {
        OneStraddler(s, limit, limit - 1);
      }
    }
  }

  /** At most four bytes are held back. */
  lemma Utf8Near(s: string, start: nat, limit: nat)
    requires start <= limit <= |s|
    ensures start <= Utf8Safe(s, start, limit) <= limit <= Utf8Safe(s, start, limit) + 4
  {
  }

  lemma Leader(s: string, i: nat) returns (j: nat)
    requires Proper(s) && i < |s| && IsCont(s[i])
    ensures j < i < j + Need(s[j]) && !IsCont(s[j])
    ensures forall k :: j < k <= i ==> IsCont(s[k])
  {
    assert Led(s, i);
    j :| 0 <= j < i && j < |s| && i < j + Need(s[j]);
  }

  /** Only the last byte that starts a character can straddle. */
  lemma OneStraddler(s: string, limit: nat, lead: nat)
    requires Proper(s) && lead < limit <= |s| && !IsCont(s[lead])
    ensures forall j :: 0 <= j < lead ==> !Straddles(s, j, limit)
    ensures forall j :: lead < j < limit && IsCont(s[j]) ==> !Straddles(s, j, limit)
  {
  }

  // ----- The last of a character -----

  /** Where `c` stands last in `[lo, hi)`. */
  function LastIn(s: string, lo: nat, hi: nat, c: char): (r: Option<nat>)
    requires hi <= |s|
    ensures r.Some? ==> lo <= r.value < hi && s[r.value] == c
    ensures forall i :: lo <= i < hi && (r.None? || i > r.value) ==> s[i] != c
  {
    if hi <= lo then None
    else if s[hi - 1] == c then Some(hi - 1)
    else LastIn(s, lo, hi - 1, c)
  }

  method FindLast(s: string, lo: nat, hi: nat, c: char) returns (r: Option<nat>)
    requires hi <= |s|
    ensures r == LastIn(s, lo, hi, c)
  {
    var i := hi;
    while i > lo
      invariant 0 <= i <= hi && LastIn(s, lo, hi, c) == LastIn(s, lo, i, c)
    {
      if s[i - 1] == c { return Some(i - 1); }
      i := i - 1;
    }
    r := None;
  }

  lemma LastInIs(s: string, lo: nat, hi: nat, c: char, m: nat)
    requires lo <= m < hi <= |s| && s[m] == c && forall i :: m < i < hi ==> s[i] != c
    ensures LastIn(s, lo, hi, c) == Some(m)
  {
  }

  // ----- Entities -----

  /** A beginning of an entity, but not all of it. */
  predicate HalfEntity(s: string) {
    exists k :: 0 <= k < ENTITIES && 0 < |s| < |Entity(k)| && s <= Entity(k)
  }

  function EntitySafe(raw: string, start: nat, limit: nat): (r: nat)
    requires limit <= |raw|
  {
    var m := LastIn(raw, if limit > start + 6 then limit - 6 else start, limit, '&');
    if m.Some? && HalfEntity(raw[m.value..limit]) then m.value else limit
  }

  method EntitySafeLen(raw: string, start: nat, limit: nat) returns (r: nat)
    requires limit <= |raw|
    ensures r == EntitySafe(raw, start, limit)
  {
    hide Entity;
    var m := FindLast(raw, if limit > start + 6 then limit - 6 else start, limit, '&');
    if m.Some? {
      var tail := raw[m.value..limit];
      var k := 0;
      while k < ENTITIES
        invariant k <= ENTITIES
        invariant forall j :: 0 <= j < k ==> !(|tail| < |Entity(j)| && tail <= Entity(j))
      {
        if |tail| < |Entity(k)| && tail <= Entity(k) { return m.value; }
        k := k + 1;
      }
    }
    r := limit;
  }

  lemma HalfEntityAt(raw: string, g: nat, limit: nat)
    requires g < limit <= |raw| && HalfEntity(raw[g..limit])
    ensures raw[g] == '&' && limit - g < 6
    ensures forall i :: g < i < limit ==> raw[i] != '&' && raw[i] != '<'
  {
    hide Entity;
    var t := raw[g..limit];
    var k :| 0 <= k < ENTITIES && 0 < |t| < |Entity(k)| && t <= Entity(k);
    assert forall i :: g <= i < limit ==> raw[i] == t[i - g] == Entity(k)[i - g];
  }

  /** The only place to stop is where an entity has begun but not ended. */
  lemma EntitySafeIs(raw: string, start: nat, limit: nat)
    requires start <= limit <= |raw|
    ensures var r := EntitySafe(raw, start, limit);
      && start <= r <= limit
      && (r < limit ==> HalfEntity(raw[r..limit]))
      && forall g :: start <= g < limit && HalfEntity(raw[g..limit]) ==> r == g
  {
    hide HalfEntity;
    var lo := if limit > start + 6 then limit - 6 else start;
    forall g | start <= g < limit && HalfEntity(raw[g..limit]) ensures EntitySafe(raw, start, limit) == g {
      HalfEntityAt(raw, g, limit);
      LastInIs(raw, lo, limit, '&', g);
    }
  }

  /** No entity of the whole lies across the seam. */
  ghost predicate Seam(u: string, v: string) {
    forall g, k :: 0 <= g < |u| && 0 <= k < ENTITIES && Full(u + v, g, Entity(k)) ==> g + |Entity(k)| <= |u|
  }

  lemma SeamOn(u: string, v: string, n: nat)
    requires Seam(u, v) && n <= |u|
    ensures Seam(u[n..], v)
  {
    hide Entity;
    forall g, k | 0 <= g < |u| - n && 0 <= k < ENTITIES && Full(u[n..] + v, g, Entity(k)) ensures g + |Entity(k)| <= |u| - n {
      assert (u[n..] + v)[g..] == (u + v)[n + g..];
      assert Full(u + v, n + g, Entity(k));
    }
  }

  /** Text may be decoded in two parts if no entity is torn. */
  lemma {:induction false} UnescapeParts(u: string, v: string)
    requires Seam(u, v)
    ensures Unescape(u + v) == Unescape(u) + Unescape(v)
    decreases |u|
  {
    hide Entity, Seam, UnitLength, UnitChar, Unescape;
    if u == "" {
      assert u + v == v;
      UnescapeEmpty();
    } else {
      var n := UnitLength(u);
      FirstUnit(u, v);
      SeamOn(u, v, n);
      UnescapeParts(u[n..], v);
      assert (u + v)[n..] == u[n..] + v;
      UnescapeFirst(u);
      UnescapeFirst(u + v);
      assert [UnitChar(u)] + (Unescape(u[n..]) + Unescape(v)) == ([UnitChar(u)] + Unescape(u[n..])) + Unescape(v);
    }
  }

  lemma UnescapeEmpty()
    ensures Unescape("") == ""
  {
  }

  lemma UnescapeFirst(s: string)
    requires s != ""
    ensures Unescape(s) == [UnitChar(s)] + Unescape(s[UnitLength(s)..])
  {
    hide UnitLength, UnitChar;
  }

  lemma FirstUnit(u: string, v: string)
    requires Seam(u, v) && u != ""
    ensures UnitLength(u + v) == UnitLength(u) && UnitChar(u + v) == UnitChar(u)
  {
    hide Entity, EntityIn;
    var e, f := EntityIn(u + v), EntityIn(u);
    assert (u + v)[0..] == u + v;
    assert f.Some? ==> Entity(f.value) <= u + v;
    if e.Some? {
      assert Full(u + v, 0, Entity(e.value));
      assert Entity(e.value) <= u;
      if f != e { EntitiesApart(e.value, f.value); EntitiesApart(f.value, e.value); }
    }
  }

  // ----- Tags -----

  predicate Tag(lit: string) {
    |lit| > 1 && lit[0] == '<' && NoAngle(lit[1..]) && '&' !in lit
  }

  lemma PartialTag(raw: string, m: nat, lit: string)
    requires Tag(lit) && m < |raw| && Partial(raw, m, lit)
    ensures raw[m] == '<' && forall i :: m < i < |raw| ==> raw[i] != '<'
  {
    assert raw[m..][0] == raw[m];
    forall i | m < i < |raw| ensures raw[i] != '<' {
      assert raw[m..][i - m] == raw[i];
      assert lit[1..][i - m - 1] == lit[i - m];
    }
  }

  function CloseSafe(raw: string, start: nat, close: string): (r: nat) {
    var m := LastIn(raw, if |raw| > start + |close| then |raw| - |close| else start, |raw|, '<');
    if m.Some? && Partial(raw, m.value, close) then m.value else |raw|
  }

  /** The only place to stop is where the close tag has begun. */
  lemma CloseSafeIs(raw: string, start: nat, close: string)
    requires Tag(close) && start <= |raw|
    ensures var r := CloseSafe(raw, start, close);
      && start <= r <= |raw|
      && (r < |raw| ==> raw[r] == '<' && Partial(raw, r, close))
      && forall m :: start <= m < |raw| && Partial(raw, m, close) ==> r == m
  {
    hide Tag;
    var lo := if |raw| > start + |close| then |raw| - |close| else start;
    forall m | start <= m < |raw| && Partial(raw, m, close) ensures CloseSafe(raw, start, close) == m {
      PartialTag(raw, m, close);
      LastInIs(raw, lo, |raw|, '<', m);
    }
  }

  /** How far a parameter's value may be sent. */
  function ParamSafe(raw: string, start: nat, close: string, isString: bool): (r: nat)
    requires start <= |raw|
  {
    var c := CloseSafe(raw, start, close);
    Utf8Safe(raw, start, if isString then EntitySafe(raw, start, c) else c)
  }

  method ParamSafeLen(raw: string, start: nat, close: string, isString: bool) returns (r: nat)
    requires start <= |raw|
    ensures r == ParamSafe(raw, start, close, isString)
  {
    var limit := |raw|;
    var m := FindLast(raw, if |raw| > start + |close| then |raw| - |close| else start, |raw|, '<');
    if m.Some? && Partial(raw, m.value, close) { limit := m.value; }
    if isString { limit := EntitySafeLen(raw, start, limit); }
    r := Utf8SafeLen(raw, start, limit, false);
  }

  lemma SafeInside(raw: string, start: nat, close: string, isString: bool)
    requires start <= |raw|
    ensures ParamSafe(raw, start, close, isString) <= |raw|
  {
  }

  /** Before the bytes of an incomplete character are held back. */
  function TextSafe(raw: string, start: nat, close: string, isString: bool): (r: nat)
    requires start <= |raw|
    ensures r <= |raw| && ParamSafe(raw, start, close, isString) == Utf8Safe(raw, start, r)
  {
    var c := CloseSafe(raw, start, close);
    if isString then EntitySafe(raw, start, c) else c
  }

  lemma TextSafeIs(raw: string, start: nat, close: string, isString: bool)
    requires Tag(close) && start <= |raw|
    ensures var c, d := CloseSafe(raw, start, close), TextSafe(raw, start, close, isString);
      && start <= d <= c <= |raw|
      && (d < c ==> isString && raw[d] == '&')
      && (c < |raw| ==> raw[c] == '<')
      && (isString ==> forall g :: start <= g < c && HalfEntity(raw[g..c]) ==> d == g)
      && (!isString ==> d == c)
  {
    hide Tag, CloseSafe, EntitySafe, HalfEntity;
    var c, d := CloseSafe(raw, start, close), TextSafe(raw, start, close, isString);
    CloseSafeIs(raw, start, close);
    if isString {
      EntitySafeIs(raw, start, c);
      if d < c { HalfEntityAt(raw, d, c); }
    }
  }

  /** What may be sent ends where the value goes on with a new unit. */
  lemma ParamSafeEnds(raw: string, start: nat, close: string, isString: bool)
    requires Tag(close) && start <= |raw|
    ensures var r := ParamSafe(raw, start, close, isString);
      && start <= r <= CloseSafe(raw, start, close) <= |raw|
      && (r == |raw| || r == start || raw[r] == '<' || raw[r] == '&' || raw[r] >= '\U{C2}')
  {
    hide Tag, CloseSafe, ParamSafe, TextSafe;
    TextSafeIs(raw, start, close, isString);
  }

  /** No close tag of a longer text starts before what may be sent ends. */
  lemma NoCloseBefore(a: string, b: string, start: nat, close: string, isString: bool, i: nat)
    requires Tag(close) && start <= |a| && Find(a, start, close).None?
    requires start <= i < ParamSafe(a, start, close, isString)
    ensures !Full(a + b, i, close)
  {
    hide Tag, CloseSafe, ParamSafe, Find;
    ParamSafeEnds(a, start, close, isString);
    CloseSafeIs(a, start, close);
    FullMore(a, b, i, close);
  }

  // ----- Sending a value in parts -----

  lemma EntityAcross(a: string, b: string, start: nat, close: string, g: nat, k: nat)
    requires Tag(close) && start <= |a| && k < ENTITIES
    requires var l := ParamSafe(a, start, close, true); start < l && start <= g < l && Full(a + b, g, Entity(k))
    ensures g + |Entity(k)| <= ParamSafe(a, start, close, true)
  {
    hide Tag, CloseSafe, ParamSafe, TextSafe, Entity, HalfEntity;
    var x, l, e := a + b, ParamSafe(a, start, close, true), Entity(k);
    ParamSafeEnds(a, start, close, true);
    if l < g + |e| {
      FullChars(x, g, e, l);
      TextSafeIs(a, start, close, true);
      if l == |a| { HalfAtEnd(a, b, g, k); }
    }
  }

  lemma FullChars(x: string, g: nat, e: string, l: nat)
    requires Full(x, g, e) && g <= l < g + |e|
    ensures l < |x| && x[l] == e[l - g]
  {
    assert x[g..][l - g] == x[l];
  }

  lemma HalfAtEnd(a: string, b: string, g: nat, k: nat)
    requires g < |a| < g + |Entity(k)| && k < ENTITIES && Full(a + b, g, Entity(k))
    ensures HalfEntity(a[g..|a|])
  {
    hide Entity;
    assert (a + b)[g..] == a[g..] + b;
    assert a[g..|a|] == a[g..];
    assert a[g..|a|] <= Entity(k);
  }

  /** What may be sent of a string does not end inside an entity. */
  lemma SentSeam(a: string, b: string, start: nat, close: string, e: nat)
    requires Tag(close) && start <= |a| && e <= |a + b|
    requires var l := ParamSafe(a, start, close, true); start < l <= e
    ensures var l := ParamSafe(a, start, close, true); Seam((a + b)[start..l], (a + b)[l..e])
  {
    hide Tag, CloseSafe, ParamSafe, Entity;
    var x, l := a + b, ParamSafe(a, start, close, true);
    var u, v := x[start..l], x[l..e];
    assert u + v == x[start..e];
    forall g, k | 0 <= g < |u| && 0 <= k < ENTITIES && Full(u + v, g, Entity(k)) ensures g + |Entity(k)| <= |u| {
      assert (u + v)[g..] == x[start + g..e];
      FullOut(x, start + g, e, Entity(k));
      EntityAcross(a, b, start, close, start + g, k);
    }
  }

  lemma FullOut(x: string, i: nat, e: nat, lit: string)
    requires i <= e <= |x| && lit <= x[i..e]
    ensures Full(x, i, lit)
  {
    assert x[i..][..e - i] == x[i..e];
  }

  lemma PartialLess(a: string, b: string, m: nat, lit: string)
    requires m < |a| && Partial(a + b, m, lit)
    ensures Partial(a, m, lit)
  {
    assert (a + b)[m..] == a[m..] + b;
  }

  lemma CloseAgain(a: string, b: string, start: nat, close: string, l: nat)
    requires Tag(close) && start <= l <= CloseSafe(a, start, close) && start <= |a|
    ensures l <= |a| && l <= CloseSafe(a + b, start, close) == CloseSafe(a + b, l, close)
  {
    hide Tag, CloseSafe, Partial;
    var x := a + b;
    CloseSafeIs(a, start, close);
    CloseSafeIs(x, start, close);
    CloseSafeIs(x, l, close);
    var c := CloseSafe(x, start, close);
    if c < l { PartialLess(a, b, c, close); }
  }

  lemma NoAmpersand(raw: string, m: nat, d: nat, lit: string)
    requires Tag(lit) && Partial(raw, m, lit) && m <= d < |raw|
    ensures raw[d] != '&'
  {
    assert raw[m..][d - m] == raw[d];
  }

  lemma HalfHeld(a: string, b: string, start: nat, close: string, d: nat)
    requires Tag(close) && start <= d < |a|
    requires var c := CloseSafe(a + b, start, close); d < c <= |a + b| && HalfEntity((a + b)[d..c])
    ensures TextSafe(a, start, close, true) == d
  {
    hide Tag, CloseSafe, TextSafe, HalfEntity, Partial;
    var x := a + b;
    var c, c' := CloseSafe(x, start, close), CloseSafe(a, start, close);
    CloseSafeIs(a, start, close);
    CloseSafeIs(x, start, close);
    TextSafeIs(a, start, close, true);
    if |a| <= c {
      HalfShorter(a, b, d, c);
      NotClosing(a, d, c', close);
    } else {
      PartialLess(a, b, c, close);
      SameSlice(a, b, d, c);
    }
  }

  lemma SameSlice(a: string, b: string, d: nat, c: nat)
    requires d <= c <= |a|
    ensures (a + b)[d..c] == a[d..c]
  {
  }

  lemma HalfShorter(a: string, b: string, d: nat, c: nat)
    requires d < |a| <= c <= |a + b| && HalfEntity((a + b)[d..c])
    ensures HalfEntity(a[d..|a|]) && a[d] == '&' && forall i :: d < i < |a| ==> a[i] != '<'
  {
    hide HalfEntity;
    HalfCut((a + b)[d..c], |a| - d);
    assert (a + b)[d..c][..|a| - d] == a[d..|a|];
    HalfEntityAt(a, d, |a|);
  }

  lemma NotClosing(a: string, d: nat, c: nat, close: string)
    requires Tag(close) && d < |a| && a[d] == '&' && (forall i :: d < i < |a| ==> a[i] != '<')
    requires c <= |a| && (c < |a| ==> a[c] == '<' && Partial(a, c, close))
    ensures c == |a|
  {
    hide Tag, Partial;
    if c < d { NoAmpersand(a, c, d, close); }
  }

  lemma HalfCut(t: string, n: nat)
    requires HalfEntity(t) && 0 < n <= |t|
    ensures HalfEntity(t[..n])
  {
    hide Entity;
    var k :| 0 <= k < ENTITIES && 0 < |t| < |Entity(k)| && t <= Entity(k);
    assert t[..n] <= Entity(k);
  }

  lemma TextAgain(a: string, b: string, start: nat, close: string, isString: bool, l: nat)
    requires Tag(close) && start <= |a| && start <= l <= TextSafe(a, start, close, isString)
    ensures l <= |a| && l <= TextSafe(a + b, start, close, isString) == TextSafe(a + b, l, close, isString)
  {
    hide Tag, CloseSafe, EntitySafe, HalfEntity;
    var x := a + b;
    TextSafeIs(a, start, close, isString);
    CloseAgain(a, b, start, close, l);
    var c := CloseSafe(x, start, close);
    CloseSafeIs(x, start, close);
    if isString {
      EntitySafeIs(x, start, c);
      EntitySafeIs(x, l, c);
      var d := EntitySafe(x, start, c);
      if d < l { HalfHeld(a, b, start, close, d); }
    }
  }

  /** A place between two characters. */
  ghost predicate Between(x: string, start: nat, l: nat) {
    Boundary(x, l) && forall j :: start <= j < l ==> !Straddles(x, j, l)
  }

  lemma Utf8Again(x: string, start: nat, l: nat, d: nat)
    requires Proper(x) && start <= l <= d <= |x| && Boundary(x, start) && Between(x, start, l)
    ensures l <= Utf8Safe(x, start, d) == Utf8Safe(x, l, d)
  {
    hide Led, Utf8Safe, IsCont;
    Utf8SafeIs(x, start, d);
    Utf8SafeIs(x, l, d);
    var r, q := Utf8Safe(x, start, d), Utf8Safe(x, l, d);
    if r < d && q < d { StraddleOnce(x, r, q, d); }
    if r < l { StraddleSooner(x, r, l, d); }
  }

  lemma StraddleSooner(x: string, j: nat, l: nat, d: nat)
    requires j < l <= d && Straddles(x, j, d)
    ensures Straddles(x, j, l)
  {
  }

  lemma StraddleOnce(x: string, j: nat, k: nat, d: nat)
    requires Proper(x) && d <= |x| && Straddles(x, j, d) && Straddles(x, k, d)
    ensures j == k
  {
    hide Led;
  }

  lemma ProperPrefix(a: string, b: string)
    requires Proper(a + b)
    ensures Proper(a)
  {
    forall i | 0 <= i < |a| && IsCont(a[i]) ensures Led(a, i) {
      assert IsCont((a + b)[i]);
      var j := Leader(a + b, i);
      assert j < |a| && i < j + Need(a[j]);
    }
    forall j, k | 0 <= j < k < |a| && k < j + Need(a[j]) ensures IsCont(a[k]) {
      assert (a + b)[j] == a[j] && (a + b)[k] == a[k];
    }
  }

  /** What is held back leaves off between two characters of any longer text. */
  lemma SafeBetween(a: string, b: string, start: nat, limit: nat)
    requires Proper(a + b) && Boundary(a + b, start) && start <= limit <= |a|
    ensures Between(a + b, start, Utf8Safe(a, start, limit))
  {
    hide Proper, Utf8Safe, IsCont;
    var x, r := a + b, Utf8Safe(a, start, limit);
    ProperPrefix(a, b);
    Utf8SafeIs(a, start, limit);
    if r < limit {
      LeadBetween(x, start, r);
    } else {
      forall j | start <= j < limit ensures !Straddles(x, j, limit) {
        assert !Straddles(a, j, limit);
      }
      if !Boundary(x, limit) { CharAcross(x, start, limit); }
    }
  }

  lemma CharAcross(x: string, start: nat, limit: nat)
    requires Proper(x) && Boundary(x, start) && start <= limit && !Boundary(x, limit)
    ensures exists j :: start <= j < limit && Straddles(x, j, limit)
  {
    hide Proper;
    var j := Leader(x, limit);
    assert start <= j && Straddles(x, j, limit);
  }

  lemma LeadBetween(x: string, start: nat, r: nat)
    requires Proper(x) && r < |x| && Need(x[r]) > 1
    ensures Between(x, start, r)
  {
    hide Led;
  }

  /** Going on from what was sent ends where sending all at once does. */
  lemma ParamAgain(a: string, b: string, start: nat, close: string, isString: bool)
    requires Tag(close) && start <= |a| && Proper(a + b) && Boundary(a + b, start)
    ensures var l := ParamSafe(a, start, close, isString);
      && start <= l <= |a| && Between(a + b, start, l)
      && l <= ParamSafe(a + b, start, close, isString) == ParamSafe(a + b, l, close, isString)
  {
    hide Tag, Proper, TextSafe, ParamSafe, Utf8Safe, CloseSafe, Between;
    var x, l, d := a + b, ParamSafe(a, start, close, isString), TextSafe(a, start, close, isString);
    TextSafeIs(a, start, close, isString);
    SafeBetween(a, b, start, d);
    TextAgain(a, b, start, close, isString, l);
    TextSafeIs(x, start, close, isString);
    Utf8Again(x, start, l, TextSafe(x, start, close, isString));
  }

  // ----- Ordinary text -----

  /** Without the white space at its end. */
  function Trim(raw: string, start: nat, limit: nat): (r: nat)
    requires limit <= |raw|
    ensures r <= limit && (start <= limit ==> start <= r)
    ensures forall i :: r <= i < limit ==> IsSpace(raw[i])
    ensures r > start ==> !IsSpace(raw[r - 1])
  {
    if limit > start && IsSpace(raw[limit - 1]) then Trim(raw, start, limit - 1) else limit
  }

  method TrimSpace(raw: string, start: nat, limit: nat) returns (r: nat)
    requires limit <= |raw|
    ensures r == Trim(raw, start, limit)
  {
    r := limit;
    while r > start && IsSpace(raw[r - 1])
      invariant r <= limit && Trim(raw, start, limit) == Trim(raw, start, r)
    {
      r := r - 1;
    }
  }

  const MARKER_WINDOW: nat := 80

  /** Text that may still turn out to be a tool marker, or the space before it, is
      held back. */
  function HeldFrom(raw: string, start: nat): (r: nat)
    requires start <= |raw|
    ensures r <= |raw|
  {
    var limit := Trim(raw, start, |raw|);
    var m := LastIn(raw, if |raw| - start > MARKER_WINDOW then |raw| - MARKER_WINDOW else start, |raw|, '<');
    Trim(raw, start, if m.Some? && m.value < limit then m.value else limit)
  }

  function TextLimit(raw: string, start: nat, hasTools: bool, final: bool): (r: nat)
    ensures r <= |raw|
  {
    if |raw| <= start then |raw|
    else if hasTools && FindStart(raw, start).Some? then Trim(raw, start, FindStart(raw, start).value.0)
    else if final then |raw|
    else Utf8Safe(raw, start, if hasTools then HeldFrom(raw, start) else |raw|)
  }

  method TextSafeLimit(raw: string, start: nat, hasTools: bool, final: bool) returns (r: nat)
    ensures r == TextLimit(raw, start, hasTools, final)
  {
    hide Utf8Safe, FindStart;
    if |raw| <= start { return |raw|; }
    var limit := |raw|;
    if hasTools {
      var tool := FindToolStart(raw, start);
      if tool.Some? {
        limit := TrimSpace(raw, start, tool.value.0);
        r := Utf8SafeLen(raw, start, limit, true);
        return;
      }
      if !final {
        limit := TrimSpace(raw, start, limit);
        var m := FindLast(raw, if |raw| - start > MARKER_WINDOW then |raw| - MARKER_WINDOW else start, |raw|, '<');
        if m.Some? && m.value < limit { limit := m.value; }
        limit := TrimSpace(raw, start, limit);
      }
    }
    r := Utf8SafeLen(raw, start, limit, final);
  }

  lemma {:induction false} TrimIs(x: string, start: nat, t: nat, r: nat)
    requires start <= r <= t <= |x| && (forall i :: r <= i < t ==> IsSpace(x[i])) && (r > start ==> !IsSpace(x[r - 1]))
    ensures Trim(x, start, t) == r
    decreases t
  {
    hide IsSpace;
    if r < t { TrimIs(x, start, t - 1, r); }
  }

  lemma TrimAgain(x: string, start: nat, l: nat, t: nat)
    requires t <= |x| && start <= l <= Trim(x, start, t)
    ensures Trim(x, l, t) == Trim(x, start, t)
  {
    hide IsSpace;
    TrimIs(x, l, t, Trim(x, start, t));
  }

  lemma NotTrimmed(x: string, start: nat, t: nat, i: nat)
    requires start <= i < t <= |x| && !IsSpace(x[i])
    ensures i < Trim(x, start, t)
  {
  }

  lemma {:induction false} TrimMore(a: string, b: string, start: nat, t: nat)
    requires t <= |a|
    ensures Trim(a + b, start, t) == Trim(a, start, t)
  {
    hide IsSpace;
    if t > start && IsSpace(a[t - 1]) { TrimMore(a, b, start, t - 1); }
  }

  /** Nothing that may be sent reaches into a marker that has begun. */
  lemma HeldIs(raw: string, start: nat, m: nat, k: nat)
    requires start <= |raw| && k < SYNTAXES
    ensures start <= HeldFrom(raw, start) <= Trim(raw, start, |raw|)
    ensures start <= m < |raw| && Partial(raw, m, SyntaxAt(k).toolCallsStart) ==> HeldFrom(raw, start) <= Trim(raw, start, m)
  {
    hide SyntaxAt, Partial;
    var lit := SyntaxAt(k).toolCallsStart;
    if start <= m < |raw| && Partial(raw, m, lit) {
      StartTag(k);
      PartialTag(raw, m, lit);
      PartialShort(raw, m, lit);
      LastInIs(raw, if |raw| - start > MARKER_WINDOW then |raw| - MARKER_WINDOW else start, |raw|, '<', m);
      assert !IsSpace(raw[m]);
    }
  }

  lemma PartialShort(raw: string, m: nat, lit: string)
    requires Partial(raw, m, lit)
    ensures |raw| - m < |lit|
  {
  }

  lemma StartTag(k: nat)
    ensures Tag(SyntaxAt(k).toolCallsStart) && |SyntaxAt(k).toolCallsStart| <= MARKER_WINDOW
    ensures Tag(SyntaxAt(k).paramEnd)
  {
    hide SyntaxAt;
    var m := Mark(k);
    TagAngles(k);
    assert SyntaxAt(k).toolCallsStart == "<" + m + "tool_calls>";
    assert SyntaxAt(k).paramEnd == "</" + m + "parameter>";
  }

  lemma NoStartBefore(a: string, b: string, start: nat, i: nat)
    requires start <= |a| && FindStart(a, start).None? && start <= i < HeldFrom(a, start)
    ensures StartAt(a + b, i).None?
  {
    hide SyntaxAt, Full, Partial, HeldFrom;
    var f := StartAt(a + b, i);
    HeldIs(a, start, i, 0);
    assert StartAt(a, i).None?;
    if f.Some? {
      FullMore(a, b, i, SyntaxAt(f.value).toolCallsStart);
      HeldIs(a, start, i, f.value);
    }
  }

  /** The space before a marker is not sent either. */
  lemma HeldBeforeSpace(a: string, b: string, start: nat, t: nat)
    requires start <= |a| && FindStart(a, start).None? && start <= t <= |a + b| && StartAt(a + b, t).Some?
    ensures HeldFrom(a, start) <= Trim(a + b, start, t)
  {
    hide SyntaxAt, Full, Partial, HeldFrom, IsSpace;
    var x, lim, k := a + b, Trim(a, start, |a|), StartAt(a + b, t).value;
    HeldIs(a, start, t, k);
    if t < |a| {
      assert StartAt(a, t).None?;
      FullMore(a, b, t, SyntaxAt(k).toolCallsStart);
      TrimMore(a, b, start, t);
    } else if lim > start {
      NotTrimmed(x, start, t, lim - 1);
    }
  }

  // ----- UTF-8 -----

  /** A character as section 4 of RFC 3629 spells it. */
  predicate IsChar(c: string) {
    || (|c| == 1 && c[0] <= '\U{7F}')
    || (|c| == 2 && '\U{C2}' <= c[0] <= '\U{DF}' && IsCont(c[1]))
    || (|c| == 3 && '\U{E0}' <= c[0] <= '\U{EF}' && IsCont(c[1]) && IsCont(c[2])
        && (c[0] == '\U{E0}' ==> c[1] >= '\U{A0}') && (c[0] == '\U{ED}' ==> c[1] <= '\U{9F}'))
    || (|c| == 4 && '\U{F0}' <= c[0] <= '\U{F4}' && IsCont(c[1]) && IsCont(c[2]) && IsCont(c[3])
        && (c[0] == '\U{F0}' ==> c[1] >= '\U{90}') && (c[0] == '\U{F4}' ==> c[1] <= '\U{8F}'))
  }

  function Flat(chars: seq<string>): (s: string) {
    if chars == [] then "" else chars[0] + Flat(chars[1..])
  }

  lemma ProperCons(c: string, s: string)
    requires IsChar(c) && Proper(s)
    ensures Proper(c + s)
  {
    var x, n := c + s, |c|;
    assert Need(c[0]) == n && !IsCont(c[0]) && forall i :: 1 <= i < n ==> IsCont(c[i]) && Need(c[i]) == 1;
    forall i | 0 <= i < |x| && IsCont(x[i]) ensures Led(x, i) {
      if i < n {
        assert 0 < i < 0 + Need(x[0]);
      } else {
        var j := Leader(s, i - n);
        assert x[j + n] == s[j] && i < j + n + Need(x[j + n]);
      }
    }
    forall j, k | 0 <= j < k < |x| && k < j + Need(x[j]) ensures IsCont(x[k]) {
      if j >= n { assert x[j] == s[j - n] && x[k] == s[k - n]; }
    }
  }

  /** Any beginning of UTF-8 text is proper, wherever it is cut. */
  lemma {:induction false} Utf8IsProper(chars: seq<string>, n: nat)
    requires (forall i :: 0 <= i < |chars| ==> IsChar(chars[i])) && n <= |Flat(chars)|
    ensures Proper(Flat(chars)[..n])
  {
    hide IsChar, Proper;
    assert Flat(chars)[..n] + Flat(chars)[n..] == Flat(chars);
    FlatProper(chars);
    ProperPrefix(Flat(chars)[..n], Flat(chars)[n..]);
  }

  lemma {:induction false} FlatProper(chars: seq<string>)
    requires forall i :: 0 <= i < |chars| ==> IsChar(chars[i])
    ensures Proper(Flat(chars))
  {
    hide IsChar;
    if chars != [] {
      FlatProper(chars[1..]);
      ProperCons(chars[0], Flat(chars[1..]));
    }
  }
}
