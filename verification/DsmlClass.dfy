/** Which bytes of a tool call are syntax and which are payload, told from the text itself,
    against what the tracker says. */
module DsmlClass {
  import opened DsmlText
  import opened DsmlRender
  import opened DsmlTracker
  import R = DsmlRoundTrip
  import Q = JsonSqueeze

  // ----- Values -----

  /** The text ends inside a close tag, at least two bytes in. */
  ghost predicate Held(w: string, close: string) {
    exists q :: 0 <= q <= |w| && HalfClosed(w, q, close)
  }

  /** The text ends inside a JSON string. */
  predicate InQuotes(w: string) {
    Q.State(w, false, false).0
  }

  /** What follows when `w` of a value has come: more of it, or the rest of its close tag. */
  ghost function ValueClass(isString: bool, w: string, close: string): (d: Decode) {
    if isString then (if Held(w, close) then Structure else StringPayload)
    else if InQuotes(w) then JsonString
    else if Held(w, close) then Structure
    else JsonStructure
  }

  lemma HeldFrom(raw: string, p: nat, close: string)
    requires p < |raw|
    ensures Held(raw[p..], close) <==> HalfClosed(raw, p, close) || Held(raw[p + 1..], close)
  {
    var w, v := raw[p..], raw[p + 1..];
    assert w[0..] == raw[p..];
    if Held(w, close) {
      var q :| 0 <= q <= |w| && HalfClosed(w, q, close);
      if q > 0 {
        assert v[q - 1..] == w[q..];
        assert HalfClosed(v, q - 1, close);
      }
    }
    if HalfClosed(raw, p, close) { assert HalfClosed(w, 0, close); }
    if Held(v, close) {
      var q :| 0 <= q <= |v| && HalfClosed(v, q, close);
      assert w[q + 1..] == v[q..];
      assert HalfClosed(w, q + 1, close);
    }
  }

  lemma NothingHeld(close: string)
    ensures !Held("", close)
  {
  }

  lemma {:induction false} StringOpen(t: Track, raw: string)
    requires t.mode == StringBody && t.pos <= |raw| && Find(raw, t.pos, SyntaxAt(t.syn).paramEnd).None?
    ensures Scan(t, raw).decode == ValueClass(true, raw[t.pos..], SyntaxAt(t.syn).paramEnd)
    decreases |raw| - t.pos
  {
    hide SyntaxAt, Find, HalfClosed, Held, Full;
    var close := SyntaxAt(t.syn).paramEnd;
    if t.pos == |raw| {
      assert raw[t.pos..] == "";
      NothingHeld(close);
    } else {
      HeldFrom(raw, t.pos, close);
      if !HalfClosed(raw, t.pos, close) { StringOpen(t.(pos := t.pos + 1), raw); }
    }
  }

  lemma NotHalf(raw: string, p: nat, e: nat, close: string)
    requires p < e && Full(raw, e, close)
    ensures !HalfClosed(raw, p, close)
  {
  }

  lemma {:induction false} StringCloses(t: Track, raw: string, e: nat)
    requires t.mode == StringBody && Find(raw, t.pos, SyntaxAt(t.syn).paramEnd) == Some(e)
    ensures e + |SyntaxAt(t.syn).paramEnd| <= |raw|
    ensures Scan(t, raw) == Scan(t.(mode := Structural, decode := Structure, pos := e + |SyntaxAt(t.syn).paramEnd|), raw)
    decreases |raw| - t.pos
  {
    hide SyntaxAt, Find, HalfClosed, Full;
    var close := SyntaxAt(t.syn).paramEnd;
    TagLengths(t.syn);
    FullInside(raw, e, close);
    if t.pos < e {
      NotHalf(raw, t.pos, e, close);
      FindLater(raw, t.pos, e, close);
      StringCloses(t.(pos := t.pos + 1), raw, e);
    }
  }

  lemma FindLater(raw: string, p: nat, e: nat, lit: string)
    requires Find(raw, p, lit) == Some(e) && p < e
    ensures Find(raw, p + 1, lit) == Some(e) && !Full(raw, p, lit)
  {
    hide Full;
  }

  // ----- Literals -----

  /** The first close tag outside strings. */
  function CloseOut(raw: string, p: nat, inString: bool, escaped: bool, close: string): (r: Option<nat>)
    ensures r.Some? ==> p <= r.value && Full(raw, r.value, close)
    decreases |raw| - p
  {
    if p >= |raw| then None
    else if !inString && Full(raw, p, close) then Some(p)
    else
      var q := Q.Next(raw[p], inString, escaped);
      CloseOut(raw, p + 1, q.0, q.1, close)
  }

  /** A literal is looked through as the quotes in it are paired. */
  lemma ConsumeIs(t: Track, c: char)
    requires t.escaped ==> t.inString
    ensures var q := Q.Next(c, t.inString, t.escaped); Consume(t, c) == t.(inString := q.0, escaped := q.1) && (q.1 ==> q.0)
  {
  }

  lemma {:induction false} NoQuotesStay(w: string, inString: bool, escaped: bool)
    requires '"' !in w
    ensures Q.State(w, inString, escaped).0 == inString
  {
    if w != "" {
      var q := Q.Next(w[0], inString, escaped);
      Q.OneMore(w, inString, escaped);
      NoQuotesStay(w[1..], q.0, q.1);
    }
  }

  lemma CloseQuotes(k: nat)
    ensures '"' !in SyntaxAt(k).paramEnd
  {
    var m := Mark(k);
    assert SyntaxAt(k).paramEnd == "</" + m + "parameter>";
    assert '"' !in m;
  }

  lemma HalfQuotes(raw: string, p: nat, k: nat, inString: bool, escaped: bool)
    requires HalfClosed(raw, p, SyntaxAt(k).paramEnd)
    ensures Q.State(raw[p..], inString, escaped).0 == inString
  {
    hide SyntaxAt;
    CloseQuotes(k);
    var close := SyntaxAt(k).paramEnd;
    assert forall c :: c in raw[p..] ==> c in close;
    NoQuotesStay(raw[p..], inString, escaped);
  }

  /** As above for a literal that has been looked through up to `t.pos`. */
  lemma {:induction false} JsonOpen(t: Track, raw: string)
    requires t.mode == JsonParam && t.pos <= |raw| && (t.escaped ==> t.inString)
    requires CloseOut(raw, t.pos, t.inString, t.escaped, SyntaxAt(t.syn).paramEnd).None?
    ensures var close, q := SyntaxAt(t.syn).paramEnd, Q.State(raw[t.pos..], t.inString, t.escaped).0;
      Scan(t, raw).decode == if q then JsonString else if Held(raw[t.pos..], close) then Structure else JsonStructure
    decreases |raw| - t.pos
  {
    hide SyntaxAt, HalfClosed, Held, Full, Q.State, Consume;
    var close, p := SyntaxAt(t.syn).paramEnd, t.pos;
    if p == |raw| {
      assert raw[p..] == "";
      Q.Nothing(t.inString, t.escaped);
      NothingHeld(close);
    } else {
      HeldFrom(raw, p, close);
      if HalfClosed(raw, p, close) { HalfQuotes(raw, p, t.syn, t.inString, t.escaped); }
      if t.inString || !HalfClosed(raw, p, close) {
        ConsumeIs(t, raw[p]);
        Q.OneMore(raw[p..], t.inString, t.escaped);
        assert raw[p..][1..] == raw[p + 1..] && raw[p..][0] == raw[p];
        JsonOpen(Consume(t, raw[p]).(pos := p + 1), raw);
      }
    }
  }

  lemma {:induction false} JsonCloses(t: Track, raw: string, e: nat) returns (u: Track)
    requires t.mode == JsonParam && (t.escaped ==> t.inString)
    requires CloseOut(raw, t.pos, t.inString, t.escaped, SyntaxAt(t.syn).paramEnd) == Some(e)
    ensures e + |SyntaxAt(t.syn).paramEnd| <= |raw|
    ensures u.mode == Structural && u.syn == t.syn && u.pos == e + |SyntaxAt(t.syn).paramEnd| && Scan(t, raw) == Scan(u, raw)
    decreases |raw| - t.pos
  {
    hide SyntaxAt, HalfClosed, Full, Consume;
    var close, p := SyntaxAt(t.syn).paramEnd, t.pos;
    TagLengths(t.syn);
    FullInside(raw, e, close);
    if !t.inString && Full(raw, p, close) {
      u := t.(mode := Structural, decode := Structure, pos := p + |close|);
    } else {
      if p < e { NotHalf(raw, p, e, close); }
      ConsumeIs(t, raw[p]);
      u := JsonCloses(Consume(t, raw[p]).(pos := p + 1), raw, e);
    }
  }

  // ----- Tags -----

  /** A tag that opens something: it starts so, and ends at its only closing angle. */
  ghost predicate Opening(u: string, start: string) {
    start <= u && |start| < |u| && u[|u| - 1] == '>' && forall i :: 0 <= i < |u| - 1 ==> u[i] != '>'
  }

  lemma InvokeOpening(name: string)
    ensures Opening(InvokeTag(name), LONG.invokeStart)
  {
    hide SyntaxAt, AttrText;
    R.LongTags();
    AttrTextPlain(name);
    var u := InvokeTag(name);
    var body := LONG.invokeStart + (" name=\"" + (AttrText(name) + "\""));
    assert u == body + ">";
    assert '>' !in body;
    assert forall i :: 0 <= i < |u| - 1 ==> u[i] == body[i];
  }

  lemma ParamOpening(a: Arg)
    ensures Opening(ParamTag(a), LONG.paramStart)
  {
    hide SyntaxAt, AttrText;
    R.LongTags();
    AttrTextPlain(a.key);
    var u, f := ParamTag(a), if a.isString then "true" else "false";
    var body := LONG.paramStart + (" name=\"" + (AttrText(a.key) + ("\" string=\"" + (f + "\""))));
    assert u == body + ">";
    assert '>' !in body;
    assert forall i :: 0 <= i < |u| - 1 ==> u[i] == body[i];
  }

  /** Which tag `x` can start with, when all that is known is that it starts as `u` does. */
  lemma OtherTag(x: string, u: string, lit: string)
    requires x <= u && lit <= x
    ensures lit <= u
  {
  }

  /** The four tags of a block apart: none starts another. */
  lemma LongApart()
    ensures var s := LONG;
      && !(s.toolCallsEnd <= s.invokeEnd) && !(s.invokeEnd <= s.toolCallsEnd)
      && |s.toolCallsEnd| > 1 && |s.invokeEnd| > 1 && |s.invokeStart| > 1 && |s.paramStart| > 1
      && s.toolCallsEnd[1] == '/' && s.invokeEnd[1] == '/' && s.invokeStart[1] == BAR[0] && s.paramStart[1] == BAR[0]
      && !(s.invokeStart <= s.paramStart) && !(s.paramStart <= s.invokeStart)
      && s.toolCallsEnd[0] == '<' && s.invokeEnd[0] == '<' && s.invokeStart[0] == '<' && s.paramStart[0] == '<'
  {
    var s, m := LONG, LONG_MARK;
    assert s.toolCallsEnd[2 + |m|] == 't' && s.invokeEnd[2 + |m|] == 'i';
    assert s.invokeStart[1 + |m|] == 'i' && s.paramStart[1 + |m|] == 'p';
  }

  ghost predicate At(t: Track, raw: string) {
    t.mode == Structural && t.syn == 0 && t.pos <= |raw|
  }

  /** Part of a closing tag is syntax. */
  lemma EndPart(t: Track, raw: string, u: string)
    requires At(t, raw) && (u == LONG.toolCallsEnd || u == LONG.invokeEnd) && raw[t.pos..] <= u && |raw| - t.pos < |u|
    ensures Scan(t, raw).decode == Structure
  {
    hide SyntaxAt, Find, Attr;
    LongApart();
    var p := t.pos;
    if p < |raw| {
      assert raw[p..][0] == raw[p] == '<';
      forall lit | lit in [LONG.toolCallsEnd, LONG.invokeEnd, LONG.invokeStart, LONG.paramStart] && Full(raw, p, lit) ensures lit <= u { OtherTag(raw[p..], u, lit); }
    }
  }

  lemma EndWhole(t: Track, raw: string, rest: string)
    requires At(t, raw) && raw[t.pos..] == LONG.invokeEnd + rest
    ensures Step(t, raw) == Go(t.(pos := t.pos + |LONG.invokeEnd|))
  {
    hide SyntaxAt, Find, Attr;
    LongApart();
    var p := t.pos;
    assert raw[p..][0] == raw[p] == '<';
    assert Full(raw, p, LONG.invokeEnd);
    Incomparable(raw[p..], LONG.invokeEnd, LONG.toolCallsEnd);
  }

  lemma Incomparable(x: string, u: string, v: string)
    requires u <= x && !(u <= v) && !(v <= u)
    ensures !(v <= x)
  {
    if |v| <= |x| {
      assert |v| <= |u| ==> x[..|v|] == u[..|v|];
      assert |u| <= |v| ==> x[..|v|][..|u|] == u;
    }
  }

  lemma DoneWhole(t: Track, raw: string)
    requires At(t, raw) && LONG.toolCallsEnd <= raw[t.pos..]
    ensures Scan(t, raw).decode == Outside
  {
    hide SyntaxAt, Find, Attr;
    LongApart();
    var p := t.pos;
    assert raw[p..][0] == raw[p] == '<';
  }

  lemma AngleIn(raw: string, p: nat, u: string, q: nat)
    requires p <= q && p <= |raw| && raw[p..] <= u && Full(raw, q, ">")
    ensures q - p < |raw| - p <= |u| && u[q - p] == '>'
  {
    FullInside(raw, q, ">");
    assert raw[q..][0] == raw[q];
    assert raw[p..][q - p] == raw[q] == u[q - p];
  }

  lemma NoAngleYet(raw: string, p: nat, u: string, start: string)
    requires Opening(u, start) && p <= |raw| && raw[p..] <= u && |raw| - p < |u|
    ensures Find(raw, p, ">").None?
  {
    hide Find;
    var q := Find(raw, p, ">");
    if q.Some? { AngleIn(raw, p, u, q.value); }
  }

  lemma AngleAtEnd(raw: string, p: nat, u: string, start: string)
    requires Opening(u, start) && p <= |raw| && u <= raw[p..]
    ensures Find(raw, p, ">") == Some(p + |u| - 1) && p + |u| <= |raw| && raw[p..p + |u|] == u
  {
    hide Find;
    var n := p + |u| - 1;
    assert forall i :: p <= i < n ==> raw[i] == raw[p..][i - p] == u[i - p];
    assert raw[n] == raw[p..][|u| - 1] == '>';
    R.FindChar(raw, p, n, '>');
  }

  lemma StartsOnly(x: string, start: string)
    requires start <= x && (start == LONG.invokeStart || start == LONG.paramStart)
    ensures !(LONG.toolCallsEnd <= x) && !(LONG.invokeEnd <= x) && (start == LONG.paramStart ==> !(LONG.invokeStart <= x))
    ensures x != "" && x[0] == '<'
  {
    hide SyntaxAt;
    LongApart();
    assert x[1] == start[1] == BAR[0];
    if start == LONG.paramStart { Incomparable(x, start, LONG.invokeStart); }
  }

  /** Part of an opening tag is syntax. */
  lemma OpenPart(t: Track, raw: string, u: string, start: string)
    requires At(t, raw) && Opening(u, start) && (start == LONG.invokeStart || start == LONG.paramStart)
    requires raw[t.pos..] <= u && |raw| - t.pos < |u|
    ensures Scan(t, raw).decode == Structure
  {
    hide SyntaxAt, Find, Attr;
    var p := t.pos;
    NoAngleYet(raw, p, u, start);
    StartsOnly(u, start);
    if p < |raw| {
      assert raw[p..][0] == raw[p] == '<';
      forall lit | lit in [LONG.toolCallsEnd, LONG.invokeEnd] ensures !Full(raw, p, lit) { if Full(raw, p, lit) { OtherTag(raw[p..], u, lit); } }
    }
  }

  lemma InvokeWhole(t: Track, raw: string, u: string)
    requires At(t, raw) && Opening(u, LONG.invokeStart) && u <= raw[t.pos..]
    ensures Step(t, raw) == Go(t.(pos := t.pos + |u|))
  {
    hide SyntaxAt, Find, Attr;
    var p := t.pos;
    AngleAtEnd(raw, p, u, LONG.invokeStart);
    assert LONG.invokeStart <= raw[p..];
    StartsOnly(raw[p..], LONG.invokeStart);
    assert raw[p..][0] == raw[p];
  }

  /** A parameter's tag opens a string or a literal, as it says. */
  lemma ParamWhole(t: Track, raw: string, u: string)
    requires At(t, raw) && Opening(u, LONG.paramStart) && u <= raw[t.pos..]
    ensures Step(t, raw) == Go(if Attr(u, "string") == Some("true") then t.(mode := StringBody, decode := StringPayload, pos := t.pos + |u|)
                               else t.(mode := JsonParam, decode := JsonStructure, pos := t.pos + |u|, inString := false, escaped := false))
  {
    hide SyntaxAt, Find, Attr;
    var p := t.pos;
    AngleAtEnd(raw, p, u, LONG.paramStart);
    assert LONG.paramStart <= raw[p..];
    StartsOnly(raw[p..], LONG.paramStart);
    assert raw[p..][0] == raw[p];
  }
}
