/** The tracker against the slow recogniser that looks at all of the text each time. */
module DsmlSlow {
  import opened DsmlText
  import opened DsmlTracker
  import opened DsmlClass
  import Q = JsonSqueeze

  // ----- The recogniser -----

  /** The text ends in a part of `lit`, of at least so many bytes but not all of it. */
  ghost predicate EndsIn(raw: string, lit: string, least: nat) {
    exists n :: least <= n <= |raw| && n < |lit| && raw[|raw| - n..] == lit[..n]
  }

  method SuffixPartial(raw: string, lit: string, least: nat) returns (found: bool)
    ensures found <==> raw != "" && EndsIn(raw, lit, least)
  {
    if raw == "" || lit == "" { return false; }
    var max := if |raw| < |lit| then |raw| else |lit| - 1;
    var n := least;
    while n <= max
      invariant least <= n && forall m :: least <= m < n && m <= max ==> raw[|raw| - m..] != lit[..m]
    {
      if raw[|raw| - n..] == lit[..n] { return true; }
      n := n + 1;
    }
    return false;
  }

  ghost function SlowJson(raw: string, pos: nat, inString: bool, escaped: bool, close: string): (d: Decode)
    decreases |raw| - pos
  {
    if pos >= |raw| then (if !inString && raw != "" && EndsIn(raw, close, 2) then Structure else if inString then JsonString else JsonStructure)
    else if !inString && Full(raw, pos, close) then Structure
    else
      var q := Q.Next(raw[pos], inString, escaped);
      SlowJson(raw, pos + 1, q.0, q.1, close)
  }

  method ScanJson(raw: string, from: nat, close: string) returns (d: Decode)
    ensures d == SlowJson(raw, from, false, false, close)
  {
    hide Full;
    var pos, inString, escaped := from, false, false;
    while pos < |raw|
      invariant SlowJson(raw, from, false, false, close) == SlowJson(raw, pos, inString, escaped, close)
      invariant escaped ==> inString
    {
      if !inString && Full(raw, pos, close) { return Structure; }
      var c := raw[pos];
      pos := pos + 1;
      if inString {
        if escaped {
          escaped := false;
        } else if c == '\\' {
          escaped := true;
        } else if c == '"' {
          inString := false;
        }
      } else if c == '"' {
        inString := true;
      }
    }
    if !inString {
      var half := SuffixPartial(raw, close, 2);
      if half { return Structure; }
    }
    return if inString then JsonString else JsonStructure;
  }

  /** What a parameter's value from `pos` on leaves: a class, or the place after its close tag. */
  datatype After = Told(d: Decode) | Left(pos: nat)

  ghost function SlowValue(raw: string, pos: nat, isString: bool, close: string): (r: After)
    ensures r.Left? ==> pos + |close| <= r.pos <= |raw|
  {
    var f := Find(raw, pos, close);
    var next := if f.None? then Told(Structure) else Left(f.value + |close|);
    if isString then
      if f.None? then Told(if raw != "" && EndsIn(raw, close, 2) then Structure else StringPayload) else next
    else
      var d := SlowJson(raw, pos, false, false, close);
      if d == Structure then next else Told(d)
  }

  ghost function SlowFrom(raw: string, pos: nat, k: nat): (d: Decode)
    decreases |raw| - pos
  {
    TagLengths(k);
    var s := SyntaxAt(k);
    if pos >= |raw| then Structure
    else if IsSpace(raw[pos]) then SlowFrom(raw, pos + 1, k)
    else if Full(raw, pos, s.toolCallsEnd) then Outside
    else if Full(raw, pos, s.invokeEnd) then SlowFrom(raw, pos + |s.invokeEnd|, k)
    else if Full(raw, pos, s.invokeStart) then
      var q := Find(raw, pos, ">");
      if q.None? then Structure else SlowFrom(raw, q.value + 1, k)
    else if Full(raw, pos, s.paramStart) then
      var q := Find(raw, pos, ">");
      if q.None? then Structure
      else
        FullInside(raw, q.value, ">");
        match SlowValue(raw, q.value + 1, Attr(raw[pos..q.value + 1], "string") == Some("true"), s.paramEnd)
        case Told(d) => d
        case Left(next) => SlowFrom(raw, next, k)
    else Structure
  }

  ghost function Slow(raw: string): (d: Decode) {
    var f := FindStart(raw, 0);
    if f.None? then Outside else SlowFrom(raw, f.value.0 + |SyntaxAt(f.value.1).toolCallsStart|, f.value.1)
  }

  // ----- Where both agree -----

  /** No literal on the way has a close tag inside its quotes, unless it is still open. */
  ghost predicate Clear(raw: string, pos: nat, k: nat)
    decreases |raw| - pos
  {
    TagLengths(k);
    var s := SyntaxAt(k);
    if pos >= |raw| then true
    else if IsSpace(raw[pos]) then Clear(raw, pos + 1, k)
    else if Full(raw, pos, s.toolCallsEnd) then true
    else if Full(raw, pos, s.invokeEnd) then Clear(raw, pos + |s.invokeEnd|, k)
    else if Full(raw, pos, s.invokeStart) then
      var q := Find(raw, pos, ">");
      q.Some? ==> Clear(raw, q.value + 1, k)
    else if Full(raw, pos, s.paramStart) then
      var q := Find(raw, pos, ">");
      if q.None? then true
      else
        FullInside(raw, q.value, ">");
        var isString := Attr(raw[pos..q.value + 1], "string") == Some("true");
        var r := SlowValue(raw, q.value + 1, isString, s.paramEnd);
        && (!isString && SlowJson(raw, q.value + 1, false, false, s.paramEnd) == Structure ==>
          Find(raw, q.value + 1, s.paramEnd) == CloseOut(raw, q.value + 1, false, false, s.paramEnd))
        && (r.Left? ==> Clear(raw, r.pos, k))
    else true
  }

  /** No part of a close tag reaches back over a closing angle. */
  lemma HeldIs(raw: string, p: nat, k: nat)
    requires 0 < p <= |raw| && raw[p - 1] == '>'
    ensures EndsIn(raw, SyntaxAt(k).paramEnd, 2) <==> Held(raw[p..], SyntaxAt(k).paramEnd)
  {
    hide SyntaxAt, Held, HalfClosed;
    var close := SyntaxAt(k).paramEnd;
    if EndsIn(raw, close, 2) {
      var n :| 2 <= n <= |raw| && n < |close| && raw[|raw| - n..] == close[..n];
      EndIsHeld(raw, p, k, n);
    }
    if Held(raw[p..], close) { HeldIsEnd(raw, p, close); }
  }

  lemma EndIsHeld(raw: string, p: nat, k: nat, n: nat)
    requires 0 < p <= |raw| && raw[p - 1] == '>' && 2 <= n <= |raw| && n < |SyntaxAt(k).paramEnd| && raw[|raw| - n..] == SyntaxAt(k).paramEnd[..n]
    ensures Held(raw[p..], SyntaxAt(k).paramEnd)
  {
    hide SyntaxAt;
    var close, w := SyntaxAt(k).paramEnd, raw[p..];
    AngleLast(k);
    assert forall i :: |raw| - n <= i < |raw| ==> raw[i] == raw[|raw| - n..][i - (|raw| - n)] == close[i - (|raw| - n)] != '>';
    var q := |w| - n;
    assert w[q..] == raw[|raw| - n..];
    assert HalfClosed(w, q, close);
  }

  lemma HeldIsEnd(raw: string, p: nat, close: string)
    requires p <= |raw| && Held(raw[p..], close)
    ensures EndsIn(raw, close, 2)
  {
    var w := raw[p..];
    var q :| 0 <= q <= |w| && HalfClosed(w, q, close);
    var n := |w| - q;
    assert raw[|raw| - n..] == w[q..] == close[..n];
  }

  lemma AngleLast(k: nat)
    ensures var close := SyntaxAt(k).paramEnd; forall i :: 0 <= i < |close| - 1 ==> close[i] != '>'
  {
    var m, close := Mark(k), SyntaxAt(k).paramEnd;
    assert close == ("</" + m + "parameter") + ">";
    assert '>' !in m;
  }

  lemma {:induction false} JsonIs(raw: string, pos: nat, inString: bool, escaped: bool, close: string)
    requires pos <= |raw|
    ensures SlowJson(raw, pos, inString, escaped, close) ==
      if CloseOut(raw, pos, inString, escaped, close).Some? then Structure
      else if Q.State(raw[pos..], inString, escaped).0 then JsonString
      else if raw != "" && EndsIn(raw, close, 2) then Structure
      else JsonStructure
    decreases |raw| - pos
  {
    hide Full, EndsIn, Q.State;
    if pos == |raw| {
      assert raw[pos..] == "";
      Q.Nothing(inString, escaped);
    } else {
      var q := Q.Next(raw[pos], inString, escaped);
      Q.OneMore(raw[pos..], inString, escaped);
      assert raw[pos..][0] == raw[pos] && raw[pos..][1..] == raw[pos + 1..];
      JsonIs(raw, pos + 1, q.0, q.1, close);
    }
  }

  /** A value: the tracker says the same of it, or leaves it at the same place. */
  lemma ValueAgrees(v: Track, raw: string, isString: bool) returns (u: Track)
    requires 0 < v.pos <= |raw| && raw[v.pos - 1] == '>'
    requires if isString then v.mode == StringBody else v.mode == JsonParam && !v.inString && !v.escaped
    requires var close := SyntaxAt(v.syn).paramEnd;
      !isString && SlowJson(raw, v.pos, false, false, close) == Structure ==> Find(raw, v.pos, close) == CloseOut(raw, v.pos, false, false, close)
    ensures match SlowValue(raw, v.pos, isString, SyntaxAt(v.syn).paramEnd)
      case Told(d) => Scan(v, raw).decode == d
      case Left(next) => u.mode == Structural && u.syn == v.syn && u.pos == next && Scan(v, raw) == Scan(u, raw)
  {
    hide SyntaxAt, Scan, Find, Full, Held, EndsIn, Q.State, CloseOut, SlowJson;
    var close, p := SyntaxAt(v.syn).paramEnd, v.pos;
    var f, c := Find(raw, p, close), CloseOut(raw, p, false, false, close);
    u := v;
    HeldIs(raw, p, v.syn);
    if isString {
      if f.None? {
        StringOpen(v, raw);
      } else {
        StringCloses(v, raw, f.value);
        u := v.(mode := Structural, decode := Structure, pos := f.value + |close|);
      }
    } else {
      JsonIs(raw, p, false, false, close);
      if c.None? { JsonOpen(v, raw); } else { u := JsonCloses(v, raw, c.value); }
    }
  }

  lemma {:induction false} FromAgrees(t: Track, raw: string)
    requires t.mode == Structural && t.pos <= |raw| && Clear(raw, t.pos, t.syn)
    ensures Scan(t, raw).decode == SlowFrom(raw, t.pos, t.syn)
    decreases |raw| - t.pos
  {
    hide SyntaxAt, Find, Full, Attr, IsSpace, SlowValue, SlowJson, CloseOut;
    var s, p := SyntaxAt(t.syn), t.pos;
    TagLengths(t.syn);
    Progress(t, raw);
    if p < |raw| && Step(t, raw).Go? {
      var v := Step(t, raw).t;
      if v.mode == Structural {
        FromAgrees(v, raw);
      } else if v.mode != Done {
        var q := Find(raw, p, ">");
        AngleAt(raw, q.value);
        var u := ValueAgrees(v, raw, v.mode == StringBody);
        if SlowValue(raw, v.pos, v.mode == StringBody, s.paramEnd).Left? { FromAgrees(u, raw); }
      }
    }
  }

  /** On every text where no finished literal has a close tag in its quotes, following the
      text and looking at all of it give the same class. */
  lemma TrackerIsSlow(raw: string)
    requires var f := FindStart(raw, 0); f.Some? ==> Clear(raw, f.value.0 + |SyntaxAt(f.value.1).toolCallsStart|, f.value.1)
    ensures Scan(Start(), raw).decode == Slow(raw)
  {
    hide SyntaxAt, Find, Full, Attr, IsSpace, SlowFrom, Clear, FindStart;
    var f := FindStart(raw, 0);
    Progress(Start(), raw);
    if f.Some? { FromAgrees(Step(Start(), raw).t, raw); }
  }

  // ----- Where they do not -----

  lemma {:induction false} InsideStays(raw: string, p: nat, e: nat, close: string)
    requires p <= e <= |raw| && forall i :: p <= i < e ==> raw[i] != '"' && raw[i] != '\\'
    ensures CloseOut(raw, p, true, false, close) == CloseOut(raw, e, true, false, close)
    decreases e - p
  {
    if p < e { InsideStays(raw, p + 1, e, close); }
  }

  /** A close tag between quotes, and one after them. */
  function Quoted(close: string): (w: string) {
    "\"" + (close + ("\"" + close))
  }

  lemma CloseChars(k: nat)
    ensures var close := SyntaxAt(k).paramEnd; |close| > 1 && close[0] == '<' && '"' !in close && '\\' !in close
  {
    TagAngles(k);
    var m := Mark(k);
    assert SyntaxAt(k).paramEnd == "</" + m + "parameter>";
    assert '"' !in m && '\\' !in m;
  }

  lemma QuotedPlaces(raw: string, p: nat, close: string, rest: string)
    requires p <= |raw| && raw[p..] == Quoted(close) + rest && |close| > 1 && close[0] == '<' && '"' !in close && '\\' !in close
    ensures var n := |close|;
      && p + 2 + n + n <= |raw| && raw[p] == '"' && Full(raw, p + 1, close) && raw[p + 1 + n] == '"' && Full(raw, p + 2 + n, close)
      && (forall i :: p + 1 <= i < p + 1 + n ==> raw[i] != '"' && raw[i] != '\\')
      && !Full(raw, p, close) && |Quoted(close)| == 2 + n + n
  {
    var n, x := |close|, raw[p..];
    assert x[0] == raw[p] && x[1 + n] == raw[p + 1 + n];
    assert x[1..] == raw[p + 1..] && x[1..][..n] == close;
    assert x[2 + n..] == raw[p + 2 + n..] && x[2 + n..][..n] == close;
    assert forall i :: p + 1 <= i < p + 1 + n ==> raw[i] == x[i - p] == close[i - p - 1];
  }

  lemma QuotedClose(raw: string, p: nat, k: nat, rest: string)
    requires p <= |raw| && raw[p..] == Quoted(SyntaxAt(k).paramEnd) + rest
    ensures var close := SyntaxAt(k).paramEnd;
      && Find(raw, p, close) == Some(p + 1) && CloseOut(raw, p, false, false, close) == Some(p + 2 + |close|)
  {
    hide SyntaxAt, Full, Quoted;
    var close := SyntaxAt(k).paramEnd;
    CloseChars(k);
    QuotedPlaces(raw, p, close, rest);
    InsideStays(raw, p + 1, p + 1 + |close|, close);
    assert Q.Next(raw[p], false, false) == (true, false) && Q.Next(raw[p + 1 + |close|], true, false) == (false, false);
    assert CloseOut(raw, p, false, false, close) == CloseOut(raw, p + 1, true, false, close);
    assert Find(raw, p + 1, close) == Some(p + 1);
  }

  /** The tracker takes the close tag in the quotes as payload, the recogniser goes on behind
      it: for every text that opens a literal, the end of the block is the end for one only. */
  lemma QuotedDiffers(v: Track, raw: string)
    requires v.mode == JsonParam && !v.inString && !v.escaped && v.pos <= |raw|
    requires raw[v.pos..] == Quoted(SyntaxAt(v.syn).paramEnd) + SyntaxAt(v.syn).toolCallsEnd
    ensures Scan(v, raw).decode == Outside
    ensures var r := SlowValue(raw, v.pos, false, SyntaxAt(v.syn).paramEnd); r.Left? && SlowFrom(raw, r.pos, v.syn) == Structure
  {
    hide SyntaxAt, Find, Full, Quoted, Scan, CloseOut, EndsIn, SlowFrom, SlowJson, Q.State;
    var s, p := SyntaxAt(v.syn), v.pos;
    CloseChars(v.syn);
    QuotedPlaces(raw, p, s.paramEnd, s.toolCallsEnd);
    QuotedClose(raw, p, v.syn, s.toolCallsEnd);
    var u := JsonCloses(v, raw, p + 2 + |s.paramEnd|);
    EndsThere(u, raw, p);
    JsonIs(raw, p, false, false, s.paramEnd);
    QuoteStops(raw, p + 1 + |s.paramEnd|, v.syn);
  }

  lemma EndsThere(u: Track, raw: string, p: nat)
    requires p <= |raw| && raw[p..] == Quoted(SyntaxAt(u.syn).paramEnd) + SyntaxAt(u.syn).toolCallsEnd
    requires u.mode == Structural && u.pos == p + |Quoted(SyntaxAt(u.syn).paramEnd)|
    ensures Scan(u, raw).decode == Outside
  {
    hide SyntaxAt, Quoted, Find, Attr;
    var s, x := SyntaxAt(u.syn), raw[p..];
    assert raw[u.pos..] == x[|Quoted(s.paramEnd)|..] == s.toolCallsEnd;
    TagsApart(u.syn);
    TagLengths(u.syn);
    assert raw[u.pos] == raw[u.pos..][0];
  }

  lemma QuoteStops(raw: string, p: nat, k: nat)
    requires p < |raw| && raw[p] == '"'
    ensures SlowFrom(raw, p, k) == Structure
  {
    var m, s := Mark(k), SyntaxAt(k);
    assert raw[p..][0] == '"';
    assert s.toolCallsEnd[0] == '<' && s.invokeEnd[0] == '<' && s.invokeStart[0] == '<' && s.paramStart[0] == '<';
  }

  // ----- The recogniser itself -----

  /** Look at all of the text. */
  method StateForText(raw: string) returns (d: Decode)
    ensures d == Slow(raw)
  {
    hide SyntaxAt, Find, Full, Attr, IsSpace, FindStart, SlowValue;
    if raw == "" {
      NothingFound();
      return Outside;
    }
    var f := FindToolStart(raw, 0);
    if f.None? { return Outside; }
    var k := f.value.1;
    var pos := f.value.0 + |SyntaxAt(k).toolCallsStart|;
    var s := SyntaxAt(k);
    TagLengths(k);
    while true
      invariant Slow(raw) == SlowFrom(raw, pos, k)
      decreases |raw| - pos
    {
      if pos >= |raw| { return Structure; }
      if IsSpace(raw[pos]) {
        pos := pos + 1;
      } else if Full(raw, pos, s.toolCallsEnd) {
        return Outside;
      } else if Full(raw, pos, s.invokeEnd) {
        pos := pos + |s.invokeEnd|;
      } else if Full(raw, pos, s.invokeStart) || Full(raw, pos, s.paramStart) {
        var q := FindLit(raw, pos, ">");
        if q.None? { return Structure; }
        if Full(raw, pos, s.invokeStart) {
          pos := q.value + 1;
        } else {
          FullInside(raw, q.value, ">");
          var r := PassValue(raw, q.value + 1, Attr(raw[pos..q.value + 1], "string") == Some("true"), s.paramEnd);
          if r.Told? { return r.d; }
          pos := r.pos;
        }
      } else {
        return Structure;
      }
    }
  }

  method PassValue(raw: string, pos: nat, isString: bool, close: string) returns (r: After)
    requires pos <= |raw|
    ensures r == SlowValue(raw, pos, isString, close)
  {
    hide Find, Full, EndsIn, SlowJson;
    var d := Structure;
    if !isString {
      d := ScanJson(raw, pos, close);
      if d != Structure { return Told(d); }
    }
    var f := FindLit(raw, pos, close);
    if f.Some? { return Left(f.value + |close|); }
    if isString {
      var half := SuffixPartial(raw, close, 2);
      return Told(if half then Structure else StringPayload);
    }
    return Told(Structure);
  }

  lemma NothingFound()
    ensures FindStart("", 0).None?
  {
    hide SyntaxAt;
    if FindStart("", 0).Some? { TagLengths(FindStart("", 0).value.1); }
  }
}
