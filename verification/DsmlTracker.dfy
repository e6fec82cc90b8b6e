/** Following generated text to tell protocol syntax from payload. */
module DsmlTracker {
  import opened DsmlText

  datatype Mode = Search | Structural | StringBody | JsonParam | Done

  /** What the next token belongs to. */
  datatype Decode = Outside | Structure | StringPayload | JsonStructure | JsonString

  datatype Track = Track(mode: Mode, decode: Decode, syn: nat, pos: nat, inString: bool, escaped: bool)

  function Start(): (t: Track) {
    Track(Search, Outside, 0, 0, false, false)
  }

  // ----- One step -----

  /** A step either goes on or ends the update. */
  datatype Next = Go(t: Track) | Stop(t: Track)

  function HoldFrom(n: nat): (r: nat) {
    if n > HoldLength() then n - HoldLength() else 0
  }

  function StepSearch(t: Track, raw: string): (r: Next) {
    var f := FindStart(raw, t.pos);
    if f.None? then Stop(t.(pos := HoldFrom(|raw|), decode := Outside))
    else Go(t.(mode := Structural, decode := Structure, syn := f.value.1, pos := f.value.0 + |SyntaxAt(f.value.1).toolCallsStart|))
  }

  predicate HalfClosed(raw: string, pos: nat, lit: string) {
    Partial(raw, pos, lit) && |raw| - pos >= 2
  }

  function StepString(t: Track, raw: string): (r: Next) {
    var close := SyntaxAt(t.syn).paramEnd;
    if t.pos >= |raw| then Stop(t.(decode := StringPayload))
    else if Full(raw, t.pos, close) then Go(t.(mode := Structural, decode := Structure, pos := t.pos + |close|))
    else if HalfClosed(raw, t.pos, close) then Stop(t.(decode := Structure))
    else Go(t.(pos := t.pos + 1))
  }

  /** A character of a JSON value. */
  function Consume(t: Track, c: char): (r: Track) {
    if t.inString then
      if t.escaped then t.(escaped := false)
      else if c == '\\' then t.(escaped := true)
      else if c == '"' then t.(inString := false)
      else t
    else if c == '"' then t.(inString := true)
    else t
  }

  function StepJson(t: Track, raw: string): (r: Next) {
    var close := SyntaxAt(t.syn).paramEnd;
    if t.pos >= |raw| then Stop(t.(decode := if t.inString then JsonString else JsonStructure))
    else if !t.inString && Full(raw, t.pos, close) then Go(t.(mode := Structural, decode := Structure, pos := t.pos + |close|))
    else if !t.inString && HalfClosed(raw, t.pos, close) then Stop(t.(decode := Structure))
    else Go(Consume(t, raw[t.pos]).(pos := t.pos + 1))
  }

  function StepStructural(t: Track, raw: string): (r: Next) {
    var syn := SyntaxAt(t.syn);
    if t.pos >= |raw| then Stop(t.(decode := Structure))
    else if IsSpace(raw[t.pos]) then Go(t.(pos := t.pos + 1))
    else if Full(raw, t.pos, syn.toolCallsEnd) then Go(t.(mode := Done, pos := t.pos + |syn.toolCallsEnd|))
    else if Full(raw, t.pos, syn.invokeEnd) then Go(t.(pos := t.pos + |syn.invokeEnd|))
    else if Full(raw, t.pos, syn.invokeStart) then
      var q := Find(raw, t.pos, ">");
      if q.None? then Stop(t.(decode := Structure)) else Go(t.(pos := q.value + 1))
    else if Full(raw, t.pos, syn.paramStart) then
      var q := Find(raw, t.pos, ">");
      if q.None? then Stop(t.(decode := Structure))
      else if Attr(raw[t.pos..q.value + 1], "string") == Some("true") then Go(t.(mode := StringBody, decode := StringPayload, pos := q.value + 1))
      else Go(t.(mode := JsonParam, decode := JsonStructure, pos := q.value + 1, inString := false, escaped := false))
    else Stop(t.(decode := Structure))
  }

  function Step(t: Track, raw: string): (r: Next) {
    match t.mode
    case Done => Stop(t.(decode := Outside))
    case Search => StepSearch(t, raw)
    case StringBody => StepString(t, raw)
    case JsonParam => StepJson(t, raw)
    case Structural => StepStructural(t, raw)
  }

  lemma TagLengths(k: nat)
    ensures var s := SyntaxAt(k);
      && 0 < |s.toolCallsStart| <= HoldLength()
      && |s.toolCallsEnd| > 1 && |s.invokeStart| > 1 && |s.invokeEnd| > 1 && |s.paramStart| > 1 && |s.paramEnd| > 1
  {
  }

  /** A step that goes on moves forward, and not past the end. */
  lemma Progress(t: Track, raw: string)
    ensures Step(t, raw).Go? ==> t.pos < Step(t, raw).t.pos <= |raw|
  {
    hide SyntaxAt, Attr, FindStart, Find;
    TagLengths(t.syn);
    if t.mode == Search {
      var f := FindStart(raw, t.pos);
      if f.Some? { TagLengths(f.value.1); }
    }
  }

  /** An update: steps until one ends it. */
  function Scan(t: Track, raw: string): (r: Track)
    decreases |raw| - t.pos
  {
    Progress(t, raw);
    match Step(t, raw)
    case Stop(s) => s
    case Go(s) => Scan(s, raw)
  }

  // ----- What the tags look like -----

  predicate NoAngle(s: string) {
    forall i :: 0 <= i < |s| ==> s[i] != '<'
  }

  lemma NoAngleTail(mark: string, a: string)
    requires NoAngle(mark) && NoAngle(a)
    ensures NoAngle(mark + a) && NoAngle("/" + mark + a)
  {
  }

  function Mark(k: nat): (m: string)
    ensures SyntaxAt(k) == Spelling(m) && NoAngle(m) && '&' !in m && |m| <= 10
  {
    if k == 0 then LONG_MARK else if k == 1 then SHORT_MARK else ""
  }

  /** An opening angle starts each tag and stands nowhere else in it. */
  lemma TagAngles(k: nat)
    ensures var s := SyntaxAt(k);
      && s.toolCallsStart[0] == '<' && NoAngle(s.toolCallsStart[1..])
      && |s.paramEnd| > 1 && s.paramEnd[0] == '<' && NoAngle(s.paramEnd[1..])
  {
    var m := Mark(k);
    NoAngleTail(m, "tool_calls>");
    NoAngleTail(m, "parameter>");
    assert SyntaxAt(k).toolCallsStart[1..] == m + "tool_calls>";
    assert SyntaxAt(k).paramEnd[1..] == "/" + m + "parameter>";
  }

  /** None of the tags that structure a block begins another. */
  lemma TagsApart(k: nat)
    ensures var s := SyntaxAt(k);
      && !(s.invokeEnd <= s.toolCallsEnd) && !(s.invokeStart <= s.toolCallsEnd) && !(s.paramStart <= s.toolCallsEnd)
      && !(s.invokeStart <= s.invokeEnd) && !(s.paramStart <= s.invokeEnd) && !(s.paramStart <= s.invokeStart)
    ensures var s := SyntaxAt(k);
      && !IsSpace(s.toolCallsEnd[0]) && !IsSpace(s.invokeEnd[0]) && !IsSpace(s.invokeStart[0]) && !IsSpace(s.paramStart[0])
  {
    var m, s := Mark(k), SyntaxAt(k);
    assert s.toolCallsEnd[1] == '/' && s.toolCallsEnd[2 + |m|] == 't';
    assert s.invokeEnd[1] == '/' && s.invokeEnd[2 + |m|] == 'i';
    assert s.invokeStart[1 + |m|] == 'i' && s.paramStart[1 + |m|] == 'p';
    assert |m| > 0 ==> s.invokeStart[1] == m[0] && s.paramStart[1] == m[0] && m[0] != '/';
  }

  lemma StartsApart(j: nat, k: nat)
    requires j < k < SYNTAXES
    ensures !(SyntaxAt(k).toolCallsStart <= SyntaxAt(j).toolCallsStart)
  {
    assert SyntaxAt(0).toolCallsStart[1] == BAR[0] && SyntaxAt(1).toolCallsStart[1] == 'D' && SyntaxAt(2).toolCallsStart[1] == 't';
  }

  // ----- Searching again in longer text -----

  lemma {:induction false} FindStartSkip(raw: string, p: nat, q: nat)
    requires p <= q && forall i :: p <= i < q && i <= |raw| ==> StartAt(raw, i).None?
    ensures FindStart(raw, p) == FindStart(raw, q)
    decreases q - p
  {
    if p < q && p <= |raw| { FindStartSkip(raw, p + 1, q); }
  }

  lemma Inner(a: string, i: nat, j: nat, lit: string)
    requires i < j < |a| && Partial(a, i, lit)
    ensures a[j] == lit[j - i] == lit[1..][j - i - 1]
  {
    assert a[j] == a[i..][j - i];
  }

  /** A tag that the end of `a` interrupts has no angle in its way. */
  lemma NoAngleAfter(a: string, b: string, i: nat, j: nat, k: nat)
    requires i < j < |a| && a[j] == '<' && Full(a + b, i, SyntaxAt(k).toolCallsStart)
    ensures Full(a, i, SyntaxAt(k).toolCallsStart)
  {
    hide SyntaxAt;
    var lit := SyntaxAt(k).toolCallsStart;
    TagAngles(k);
    FullMore(a, b, i, lit);
    if Partial(a, i, lit) { Inner(a, i, j, lit); }
  }

  /** What is found stays found. */
  lemma FindStartMore(a: string, b: string, p: nat)
    requires FindStart(a, p).Some?
    ensures FindStart(a + b, p) == FindStart(a, p)
  {
    hide SyntaxAt, Full;
    var i, k := FindStart(a, p).value.0, FindStart(a, p).value.1;
    var x := a + b;
    StartHere(a, i, k);
    assert StartAt(x, i) == Some(k) by { StartMore(a, b, i, k); }
    forall i' | p <= i' < i ensures StartAt(x, i').None? {
      assert StartAt(a, i').None?;
      if StartAt(x, i').Some? { NoAngleAfter(a, b, i', i, StartAt(x, i').value); }
    }
    FindStartSkip(x, p, i);
  }

  lemma StartHere(a: string, i: nat, k: nat)
    requires i <= |a| && StartAt(a, i) == Some(k)
    ensures i < |a| && a[i] == '<'
  {
    hide SyntaxAt;
    TagAngles(k);
    TagLengths(k);
  }

  lemma StartMore(a: string, b: string, i: nat, k: nat)
    requires i <= |a| && StartAt(a, i) == Some(k)
    ensures StartAt(a + b, i) == Some(k)
  {
    hide SyntaxAt;
    FullMore(a, b, i, SyntaxAt(k).toolCallsStart);
    forall j | 0 <= j < k ensures !Full(a + b, i, SyntaxAt(j).toolCallsStart) {
      FullMore(a, b, i, SyntaxAt(j).toolCallsStart);
      StartsApart(j, k);
    }
  }

  /** What is not found can only start where the held part does, or later. */
  lemma FindStartLater(a: string, b: string, p: nat)
    requires FindStart(a, p).None? && p <= HoldFrom(|a|)
    ensures FindStart(a + b, p) == FindStart(a + b, HoldFrom(|a|))
  {
    hide SyntaxAt, Full;
    var x, q := a + b, HoldFrom(|a|);
    forall i | p <= i < q ensures StartAt(x, i).None? {
      assert StartAt(a, i).None?;
      if StartAt(x, i).Some? {
        var k := StartAt(x, i).value;
        TagLengths(k);
        FullInBoth(a, b, i, SyntaxAt(k).toolCallsStart);
      }
    }
    FindStartSkip(x, p, q);
  }

  lemma FullInBoth(a: string, b: string, i: nat, lit: string)
    requires i + |lit| <= |a| && Full(a + b, i, lit)
    ensures Full(a, i, lit)
  {
    assert (a + b)[i..][..|lit|] == a[i..][..|lit|];
  }

  lemma {:induction false} FindMore(a: string, b: string, p: nat, c: char)
    requires Find(a, p, [c]).Some?
    ensures Find(a + b, p, [c]) == Find(a, p, [c])
    decreases |a| - p
  {
    FullMore(a, b, p, [c]);
    if !Full(a, p, [c]) { FindMore(a, b, p + 1, c); }
  }

  // ----- One step in longer text -----

  /** A close tag would end the value here. */
  predicate Payload(t: Track) {
    t.mode == StringBody || (t.mode == JsonParam && !t.inString)
  }

  /** The last character may open a close tag, yet it is taken as payload. */
  predicate Lone(t: Track, a: string) {
    Payload(t) && t.pos + 1 == |a| && a[t.pos] == '<'
  }

  lemma CloseAt(t: Track, a: string, b: string)
    requires Payload(t) && t.pos < |a| && !Lone(t, a)
    requires Full(a, t.pos, SyntaxAt(t.syn).paramEnd) || !HalfClosed(a, t.pos, SyntaxAt(t.syn).paramEnd)
    ensures var close := SyntaxAt(t.syn).paramEnd;
      && (Full(a + b, t.pos, close) <==> Full(a, t.pos, close))
      && (!Full(a, t.pos, close) ==> !HalfClosed(a + b, t.pos, close))
  {
    hide SyntaxAt;
    var close := SyntaxAt(t.syn).paramEnd;
    TagAngles(t.syn);
    FullMore(a, b, t.pos, close);
    assert (a + b)[t.pos..] == a[t.pos..] + b;
    assert a[t.pos..][0] == a[t.pos];
  }

  lemma PayloadMore(t: Track, a: string, b: string)
    requires (t.mode == StringBody || t.mode == JsonParam) && !Lone(t, a) && Step(t, a).Go?
    ensures Step(t, a + b) == Step(t, a)
  {
    hide SyntaxAt, Full, HalfClosed;
    if Payload(t) { CloseAt(t, a, b); }
  }

  lemma TagMore(a: string, b: string, pos: nat, lit: string, other: string)
    requires Full(a, pos, lit) && !Full(a, pos, other) && !(lit <= other)
    ensures !Full(a + b, pos, other)
  {
    FullMore(a, b, pos, other);
  }

  lemma AngleMore(a: string, b: string, pos: nat)
    requires Find(a, pos, ">").Some?
    ensures Find(a + b, pos, ">") == Find(a, pos, ">")
    ensures var q := Find(a, pos, ">").value; q < |a| && (a + b)[pos..q + 1] == a[pos..q + 1]
  {
    FindMore(a, b, pos, '>');
    FullInside(a, Find(a, pos, ">").value, ">");
  }

  lemma StructuralMore(t: Track, a: string, b: string)
    requires t.mode == Structural && Step(t, a).Go?
    ensures Step(t, a + b) == Step(t, a)
  {
    hide SyntaxAt, Full, Find, Attr;
    var p, s, x := t.pos, SyntaxAt(t.syn), a + b;
    if !IsSpace(a[p]) {
      TagsApart(t.syn);
      if Full(a, p, s.toolCallsEnd) {
        FullMore(a, b, p, s.toolCallsEnd);
      } else if Full(a, p, s.invokeEnd) {
        TagMore(a, b, p, s.invokeEnd, s.toolCallsEnd);
        FullMore(a, b, p, s.invokeEnd);
      } else if Full(a, p, s.invokeStart) {
        TagMore(a, b, p, s.invokeStart, s.toolCallsEnd);
        TagMore(a, b, p, s.invokeStart, s.invokeEnd);
        FullMore(a, b, p, s.invokeStart);
        AngleMore(a, b, p);
      } else {
        TagMore(a, b, p, s.paramStart, s.toolCallsEnd);
        TagMore(a, b, p, s.paramStart, s.invokeEnd);
        TagMore(a, b, p, s.paramStart, s.invokeStart);
        FullMore(a, b, p, s.paramStart);
        AngleMore(a, b, p);
      }
    }
  }

  /** A step that goes on would go on in the same way if the text were longer,
      unless it takes a lone angle. */
  lemma StepMore(t: Track, a: string, b: string)
    requires Step(t, a).Go? && !Lone(t, a)
    ensures Step(t, a + b) == Step(t, a)
  {
    hide StepString, StepJson, StepStructural, Payload, FindStart, SyntaxAt;
    match t.mode
    case Search => FindStartMore(a, b, t.pos);
    case Structural => StructuralMore(t, a, b);
    case Done =>
    case StringBody => PayloadMore(t, a, b);
    case JsonParam => PayloadMore(t, a, b);
  }

  // ----- Updates -----

  /** Steps that differ at most in what they say about the next token. */
  predicate Alike(r: Next, q: Next) {
    if r.Stop? then q == r else q == Go(r.t.(decode := q.t.decode))
  }

  lemma StringDecode(t: Track, d: Decode, raw: string)
    ensures Alike(StepString(t, raw), StepString(t.(decode := d), raw))
  {
    hide SyntaxAt, Full, HalfClosed;
  }

  lemma JsonDecode(t: Track, d: Decode, raw: string)
    ensures Alike(StepJson(t, raw), StepJson(t.(decode := d), raw))
  {
    hide SyntaxAt, Full, HalfClosed;
  }

  lemma StructuralDecode(t: Track, d: Decode, raw: string)
    ensures Alike(StepStructural(t, raw), StepStructural(t.(decode := d), raw))
  {
    hide SyntaxAt, Attr, Full, Find, IsSpace;
  }

  lemma StepDecode(t: Track, d: Decode, raw: string)
    ensures Alike(Step(t, raw), Step(t.(decode := d), raw))
  {
    hide SyntaxAt, FindStart, StepString, StepJson, StepStructural;
    StringDecode(t, d, raw);
    JsonDecode(t, d, raw);
    StructuralDecode(t, d, raw);
  }

  /** An update does not look at what the last one said about the next token. */
  lemma {:induction false} DecodeFree(t: Track, d: Decode, raw: string)
    ensures Scan(t.(decode := d), raw) == Scan(t, raw)
    decreases |raw| - t.pos
  {
    hide Step;
    StepDecode(t, d, raw);
    if Step(t, raw).Go? {
      Progress(t, raw);
      DecodeFree(Step(t, raw).t, Step(t.(decode := d), raw).t.decode, raw);
    }
  }

  lemma StopsHere(t: Track, a: string)
    requires Step(t, a).Stop?
    ensures var s := Step(t, a).t; s == t.(decode := s.decode, pos := if t.mode == Search then HoldFrom(|a|) else t.pos)
    ensures t.mode == Search ==> FindStart(a, t.pos).None?
  {
    hide SyntaxAt, Attr, Full, HalfClosed, FindStart, Find, IsSpace;
  }

  /** Where an update ends, the next one may begin. */
  lemma StopResumes(t: Track, a: string, b: string)
    requires Step(t, a).Stop? && (t.mode == Search ==> t.pos <= HoldFrom(|a|))
    ensures Scan(Step(t, a).t, a + b) == Scan(t, a + b)
  {
    hide Step, Scan, FindStart, HoldFrom;
    var s := Step(t, a).t;
    StopsHere(t, a);
    if t.mode == Search {
      FindStartLater(a, b, t.pos);
      SearchesAgree(t, s.(decode := t.decode), a + b);
      DecodeFree(s, t.decode, a + b);
    } else {
      DecodeFree(t, s.decode, a + b);
    }
  }

  lemma SearchesAgree(t: Track, u: Track, raw: string)
    requires t.mode == Search && u == t.(pos := u.pos) && FindStart(raw, t.pos) == FindStart(raw, u.pos)
    ensures Scan(t, raw) == Scan(u, raw)
  {
    hide SyntaxAt, FindStart;
  }

  /** The update ended by taking a lone angle as payload. */
  predicate Torn(s: Track, a: string) {
    Payload(s) && s.pos == |a| && a != "" && a[|a| - 1] == '<'
  }

  lemma LoneTorn(t: Track, a: string)
    requires Lone(t, a)
    ensures Torn(Scan(t, a), a)
  {
    hide SyntaxAt;
    TagAngles(t.syn);
    var s := t.(pos := |a|);
    assert Step(t, a) == Go(s) by { LoneStep(t, a); }
  }

  lemma LoneStep(t: Track, a: string)
    requires Lone(t, a)
    ensures Step(t, a) == Go(t.(pos := |a|))
  {
    hide SyntaxAt;
    TagLengths(t.syn);
  }

  /** Two updates on growing text do what one does on the whole text, unless the
      first ended in a lone angle. */
  lemma {:induction false} Resume(t: Track, a: string, b: string)
    requires (t.mode == Search ==> t.pos <= HoldFrom(|a|)) && !Torn(Scan(t, a), a)
    ensures Scan(Scan(t, a), a + b) == Scan(t, a + b)
    decreases |a| - t.pos
  {
    hide Step, Torn, Lone;
    if Step(t, a).Stop? {
      StopResumes(t, a, b);
    } else {
      Progress(t, a);
      if Lone(t, a) { LoneTorn(t, a); }
      StepMore(t, a, b);
      GoLeavesSearch(t, a);
      Resume(Step(t, a).t, a, b);
    }
  }

  lemma GoLeavesSearch(t: Track, a: string)
    requires Step(t, a).Go?
    ensures Step(t, a).t.mode != Search
  {
    hide SyntaxAt, Attr, Full, HalfClosed, FindStart, Find, IsSpace;
  }

  // ----- When splitting the text shows -----

  /** What a close tag has left after its angle. */
  function Rest(k: nat): (r: string)
    ensures SyntaxAt(k).paramEnd == "<" + r && NoAngle(r) && r != ""
  {
    TagAngles(k);
    SyntaxAt(k).paramEnd[1..]
  }

  lemma AtEnd(t: Track, a: string)
    requires t.pos == |a| && t.mode != Search
    ensures var s := Scan(t, a); s == t.(decode := s.decode)
  {
    hide SyntaxAt, Attr, Full, Find;
  }

  lemma LastStep(t: Track, a: string)
    requires t.pos < |a| && Step(t, a).Go? && Step(t, a).t.pos == |a| && Payload(Step(t, a).t) && a[|a| - 1] == '<'
    ensures Lone(t, a)
  {
    hide SyntaxAt, Attr, Full, Find, HalfClosed, FindStart;
    if t.mode == Structural && Find(a, t.pos, ">").Some? { AngleAt(a, Find(a, t.pos, ">").value); }
  }

  lemma AngleAt(a: string, q: nat)
    requires Full(a, q, ">")
    ensures q < |a| && a[q] == '>'
  {
  }

  lemma StopNotTorn(t: Track, a: string)
    requires t.pos < |a| && Step(t, a).Stop?
    ensures !Torn(Step(t, a).t, a)
  {
    hide Step;
    StopsHere(t, a);
  }

  /** The whole text closes the value ... */
  lemma {:induction false} TornOnce(t: Track, a: string)
    requires t.pos < |a| && Torn(Scan(t, a), a)
    ensures Scan(t, a + Rest(Scan(t, a).syn)).mode == Structural
    decreases |a| - t.pos
  {
    hide Step, Torn, Lone, SyntaxAt, Rest;
    if Lone(t, a) {
      LoneCloses(t, a);
    } else if Step(t, a).Stop? {
      StopNotTorn(t, a);
    } else {
      var s := Step(t, a).t;
      Progress(t, a);
      GoLeavesSearch(t, a);
      if s.pos == |a| {
        AtEnd(s, a);
        TornMeans(Scan(s, a), a);
        LastStep(t, a);
      }
      StepMore(t, a, Rest(Scan(t, a).syn));
      TornOnce(s, a);
    }
  }

  lemma TornMeans(s: Track, a: string)
    requires Torn(s, a)
    ensures Payload(s) && |a| > 0 && a[|a| - 1] == '<'
  {
  }

  lemma LoneCloses(t: Track, a: string)
    requires Lone(t, a)
    ensures Scan(t, a).syn == t.syn && Scan(t, a + Rest(t.syn)).mode == Structural
  {
    hide SyntaxAt, Rest, Step;
    LoneStep(t, a);
    AtEnd(t.(pos := |a|), a);
    var x := a + Rest(t.syn);
    var s := Step(t, x).t;
    LoneClose(t, a);
    AtEnd(s, x);
  }

  lemma LoneClose(t: Track, a: string)
    requires Lone(t, a)
    ensures var x := a + Rest(t.syn); Step(t, x) == Go(t.(mode := Structural, decode := Structure, pos := |x|))
  {
    hide SyntaxAt, Rest;
    var x, close := a + Rest(t.syn), SyntaxAt(t.syn).paramEnd;
    assert x[t.pos..] == [a[t.pos]] + Rest(t.syn);
    assert x[t.pos..] == close;
  }

  /** ... which, taken apart there, never closes. */
  lemma {:induction false} NeverCloses(t: Track, raw: string)
    requires (t.mode == StringBody || t.mode == JsonParam) && t.pos <= |raw| && NoAngle(raw[t.pos..])
    ensures Scan(t, raw).mode == t.mode
    decreases |raw| - t.pos
  {
    hide Step, NoAngle;
    if t.pos < |raw| {
      var s := Step(t, raw).t;
      StaysInside(t, raw);
      if Step(t, raw).Go? {
        assert NoAngle(raw[s.pos..]) by { NoAngleOn(raw, t.pos); }
        NeverCloses(s, raw);
      }
    } else {
      AtEnd(t, raw);
    }
  }

  lemma NoAngleOn(raw: string, p: nat)
    requires p < |raw| && NoAngle(raw[p..])
    ensures NoAngle(raw[p + 1..])
  {
    assert raw[p + 1..] == raw[p..][1..];
  }

  lemma StaysInside(t: Track, raw: string)
    requires (t.mode == StringBody || t.mode == JsonParam) && t.pos < |raw| && NoAngle(raw[t.pos..])
    ensures var s := Step(t, raw).t; s.mode == t.mode && (Step(t, raw).Go? ==> s.pos == t.pos + 1)
  {
    hide SyntaxAt;
    TagAngles(t.syn);
    assert raw[t.pos..][0] != '<';
  }

  lemma TornApart(s: Track, a: string)
    requires Torn(s, a)
    ensures Scan(s, a + Rest(s.syn)).mode == s.mode
  {
    hide SyntaxAt, Rest, Scan;
    assert (a + Rest(s.syn))[|a|..] == Rest(s.syn);
    NeverCloses(s, a + Rest(s.syn));
  }

  /** Text `a` may be followed and looked at again with more text behind it. */
  ghost predicate Splits(a: string) {
    forall b :: Scan(Scan(Start(), a), a + b) == Scan(Start(), a + b)
  }

  /** Text can be cut anywhere but after an angle that was taken as payload. */
  lemma SplitsUnlessTorn(a: string)
    ensures Splits(a) <==> !Torn(Scan(Start(), a), a)
  {
    hide Scan, Rest;
    var s := Scan(Start(), a);
    if Torn(s, a) {
      TornOnce(Start(), a);
      TornApart(s, a);
      assert Scan(s, a + Rest(s.syn)) != Scan(Start(), a + Rest(s.syn));
    } else {
      forall b ensures Scan(s, a + b) == Scan(Start(), a + b) { Resume(Start(), a, b); }
    }
  }

  /** The state after the text has arrived in these chunks, with an update each. */
  function Follow(chunks: seq<string>): (t: Track) {
    if chunks == [] then Start() else Scan(Follow(chunks[..|chunks| - 1]), Joined(chunks))
  }

  /** However the text arrives, the state is the one a single look at all of it
      gives, if no chunk but the last ended in a torn tag. */
  lemma {:induction false} ChunksDoNotMatter(chunks: seq<string>)
    requires chunks != []
    requires forall i :: 0 < i < |chunks| ==> !Torn(Scan(Start(), Joined(chunks[..i])), Joined(chunks[..i]))
    ensures Follow(chunks) == Scan(Start(), Joined(chunks))
  {
    hide Scan, Torn;
    var n := |chunks| - 1;
    var front := chunks[..n];
    if n > 0 {
      forall i | 0 < i < |front| ensures !Torn(Scan(Start(), Joined(front[..i])), Joined(front[..i])) {
        assert front[..i] == chunks[..i];
      }
      ChunksDoNotMatter(front);
      Resume(Start(), Joined(front), chunks[n]);
    }
  }

  /** The case where it matters: one byte too few before the cut. */
  lemma ChunksMayMatter(a: string)
    requires Torn(Scan(Start(), a), a)
    ensures exists b :: b != "" && Follow([a, b]) != Scan(Start(), Joined([a, b]))
  {
    hide Scan, Rest;
    var s := Scan(Start(), a);
    var b := Rest(s.syn);
    TornOnce(Start(), a);
    TornApart(s, a);
    TwoChunks(a, b);
    assert Follow([a, b]) != Scan(Start(), Joined([a, b]));
  }

  lemma TwoChunks(a: string, b: string)
    ensures Joined([a, b]) == a + b && Follow([a, b]) == Scan(Scan(Start(), a), a + b)
  {
    hide Scan;
    assert [a, b][..1] == [a] && [a][..0] == [];
    assert Joined([]) == "" && Follow([]) == Start();
    assert Joined([a]) == "" + a == a;
    assert Joined([a, b]) == a + b;
    assert Follow([a]) == Scan(Start(), a);
  }

  // ----- An example -----

  const PLAIN := SyntaxAt(2)
  const TORN_EXAMPLE := PLAIN.toolCallsStart + (PLAIN.paramStart + "><")

  lemma PlainTags()
    ensures |PLAIN.toolCallsStart| > 1 && PLAIN.toolCallsStart[1] == 't'
    ensures |PLAIN.paramStart| > 1 && PLAIN.paramStart[1] == 'p'
    ensures |PLAIN.invokeStart| > 1 && PLAIN.invokeStart[1] == 'i'
    ensures |PLAIN.toolCallsEnd| > 1 && PLAIN.toolCallsEnd[1] == '/' && |PLAIN.invokeEnd| > 1 && PLAIN.invokeEnd[1] == '/'
  {
  }

  lemma PlainParam()
    ensures forall i :: 0 <= i < |PLAIN.paramStart| ==> PLAIN.paramStart[i] != '>' && PLAIN.paramStart[i] != 's'
  {
    assert PLAIN.paramStart == "<" + "parameter";
  }

  lemma OtherStarts()
    ensures |SyntaxAt(0).toolCallsStart| > 1 && SyntaxAt(0).toolCallsStart[1] == BAR[0]
    ensures |SyntaxAt(1).toolCallsStart| > 1 && SyntaxAt(1).toolCallsStart[1] == 'D'
  {
  }

  lemma NotAt(raw: string, i: nat, lit: string)
    requires i + 1 < |raw| && |lit| > 1 && raw[i + 1] != lit[1]
    ensures !Full(raw, i, lit)
  {
    assert raw[i..][1] == raw[i + 1];
  }

  lemma Prefixed(raw: string, i: nat, lit: string, rest: string)
    requires i <= |raw| && raw[i..] == lit + rest
    ensures Full(raw, i, lit)
  {
  }

  function ExampleBlock(): (t: Track) {
    Track(Structural, Structure, 2, |PLAIN.toolCallsStart|, false, false)
  }

  function ExampleValue(): (t: Track)
    ensures Lone(t, TORN_EXAMPLE)
  {
    Track(JsonParam, JsonStructure, 2, |TORN_EXAMPLE| - 1, false, false)
  }

  lemma ExampleStart()
    ensures Step(Start(), TORN_EXAMPLE) == Go(ExampleBlock())
  {
    hide Full, SyntaxAt;
    var x := TORN_EXAMPLE;
    PlainTags();
    OtherStarts();
    NotAt(x, 0, SyntaxAt(0).toolCallsStart);
    NotAt(x, 0, SyntaxAt(1).toolCallsStart);
    assert x[0..] == x;
    Prefixed(x, 0, PLAIN.toolCallsStart, PLAIN.paramStart + "><");
    assert StartAt(x, 0) == Some(2);
  }

  lemma ExampleAngle()
    ensures Find(TORN_EXAMPLE, |PLAIN.toolCallsStart|, ">") == Some(|TORN_EXAMPLE| - 2)
  {
    hide Find, SyntaxAt;
    var x, p := TORN_EXAMPLE, |PLAIN.toolCallsStart|;
    var q := Find(x, p, ">");
    PlainParam();
    Prefixed(x, |x| - 2, ">", "<");
    AngleAt(x, q.value);
    assert forall i :: p <= i < |x| - 2 ==> x[i] == PLAIN.paramStart[i - p];
  }

  lemma ExampleAttr()
    ensures Attr(PLAIN.paramStart + ">", "string") == None
  {
    hide Find, SyntaxAt;
    var tag := PLAIN.paramStart + ">";
    PlainParam();
    forall i | 0 <= i ensures !Full(tag, i, "string" + "=\"") {
      assert i < |tag| ==> tag[i..][0] != 's';
    }
  }

  lemma ExampleParam()
    ensures StepStructural(ExampleBlock(), TORN_EXAMPLE) == Go(ExampleValue())
  {
    hide Attr, Find, SyntaxAt, Full;
    var x, p := TORN_EXAMPLE, |PLAIN.toolCallsStart|;
    PlainTags();
    TagsApart(2);
    NotAt(x, p, PLAIN.toolCallsEnd);
    NotAt(x, p, PLAIN.invokeEnd);
    NotAt(x, p, PLAIN.invokeStart);
    Prefixed(x, p, PLAIN.paramStart, "><");
    ExampleAngle();
    assert x[p..|x| - 1] == PLAIN.paramStart + ">";
    ExampleAttr();
  }

  /** A chunk that ends in a torn tag. */
  lemma ExampleTorn()
    ensures Torn(Scan(Start(), TORN_EXAMPLE), TORN_EXAMPLE)
  {
    hide Scan, SyntaxAt, StepStructural, StepSearch, Torn, Lone, ExampleValue;
    ExampleStart();
    ExampleParam();
    LoneTorn(ExampleValue(), TORN_EXAMPLE);
    ScanStep(Start(), TORN_EXAMPLE);
    ScanStep(ExampleBlock(), TORN_EXAMPLE);
  }

  // ----- The tracker object -----

  class Tracker {
    var mode: Mode
    var decode: Decode
    var syn: nat
    var pos: nat
    var inString: bool
    var escaped: bool

    function Value(): (t: Track)
      reads this
    {
      Track(mode, decode, syn, pos, inString, escaped)
    }

    constructor ()
      ensures Value() == Start()
    {
      mode, decode, syn, pos, inString, escaped := Search, Outside, 0, 0, false, false;
    }

    /** Look for the start of a block. */
    method Seek(raw: string) returns (more: bool)
      requires mode == Search
      modifies this`mode, this`decode, this`syn, this`pos
      ensures more ==> Scan(Value(), raw) == Scan(old(Value()), raw) && mode == Structural && old(pos) < pos <= |raw|
      ensures !more ==> Value() == Scan(old(Value()), raw)
    {
      hide Scan, FindStart, SyntaxAt;
      ghost var t := Value();
      Progress(t, raw);
      ScanStep(t, raw);
      var f := None;
      if pos <= |raw| { f := FindToolStart(raw, pos); } else { FindStartPast(raw, pos); }
      if f.None? {
        var hold := HoldLength();
        pos := if |raw| > hold then |raw| - hold else 0;
        decode := Outside;
        return false;
      }
      syn := f.value.1;
      pos := f.value.0 + |SyntaxAt(syn).toolCallsStart|;
      mode := Structural;
      decode := Structure;
      more := true;
    }

    /** Pass a string value up to its close tag. */
    method PassString(raw: string) returns (more: bool)
      requires mode == StringBody
      modifies this`mode, this`decode, this`pos
      ensures more ==> Scan(Value(), raw) == Scan(old(Value()), raw) && mode == Structural && old(pos) < pos <= |raw|
      ensures !more ==> Value() == Scan(old(Value()), raw)
    {
      hide Scan, SyntaxAt, Full, HalfClosed;
      ghost var t := Value();
      while pos < |raw|
        modifies this`mode, this`decode, this`pos
        invariant mode == StringBody && decode == t.decode && t.pos <= pos
        invariant Scan(Value(), raw) == Scan(t, raw)
      {
        Progress(Value(), raw);
        ScanStep(Value(), raw);
        if Full(raw, pos, SyntaxAt(syn).paramEnd) {
          pos := pos + |SyntaxAt(syn).paramEnd|;
          mode := Structural;
          decode := Structure;
          return true;
        }
        if HalfClosed(raw, pos, SyntaxAt(syn).paramEnd) {
          decode := Structure;
          return false;
        }
        pos := pos + 1;
      }
      ScanStep(Value(), raw);
      decode := StringPayload;
      more := false;
    }

    method ConsumeChar(c: char)
      modifies this`inString, this`escaped, this`pos
      ensures Value() == Consume(old(Value()), c).(pos := old(pos) + 1)
    {
      pos := pos + 1;
      if inString {
        if escaped {
          escaped := false;
        } else if c == '\\' {
          escaped := true;
        } else if c == '"' {
          inString := false;
        }
      } else if c == '"' {
        inString := true;
      }
    }

    /** Pass a JSON value; a close tag inside one of its strings is payload. */
    method PassJson(raw: string) returns (more: bool)
      requires mode == JsonParam
      modifies this`mode, this`decode, this`pos, this`inString, this`escaped
      ensures more ==> Scan(Value(), raw) == Scan(old(Value()), raw) && mode == Structural && old(pos) < pos <= |raw|
      ensures !more ==> Value() == Scan(old(Value()), raw)
    {
      hide Scan, SyntaxAt, Full, HalfClosed;
      ghost var t := Value();
      while pos < |raw|
        modifies this`mode, this`decode, this`pos, this`inString, this`escaped
        invariant mode == JsonParam && decode == t.decode && t.pos <= pos
        invariant Scan(Value(), raw) == Scan(t, raw)
      {
        Progress(Value(), raw);
        ScanStep(Value(), raw);
        if !inString {
          if Full(raw, pos, SyntaxAt(syn).paramEnd) {
            pos := pos + |SyntaxAt(syn).paramEnd|;
            mode := Structural;
            decode := Structure;
            return true;
          }
          if HalfClosed(raw, pos, SyntaxAt(syn).paramEnd) {
            decode := Structure;
            return false;
          }
        }
        ConsumeChar(raw[pos]);
      }
      ScanStep(Value(), raw);
      decode := if inString then JsonString else JsonStructure;
      more := false;
    }

    method SkipSpaces(raw: string)
      requires mode == Structural
      modifies this`pos
      ensures Scan(Value(), raw) == Scan(old(Value()), raw) && old(pos) <= pos
      ensures pos < |raw| ==> !IsSpace(raw[pos])
    {
      hide Scan, SyntaxAt, Full, Find, Attr, IsSpace;
      while pos < |raw| && IsSpace(raw[pos])
        modifies this`pos
        invariant old(pos) <= pos && Scan(Value(), raw) == Scan(old(Value()), raw)
      {
        ScanStep(Value(), raw);
        pos := pos + 1;
      }
    }

    /** Enter a parameter's value. */
    method Enter(tag: string, after: nat)
      modifies this`mode, this`decode, this`pos, this`inString, this`escaped
      ensures mode == (if Attr(tag, "string") == Some("true") then StringBody else JsonParam)
      ensures decode == (if mode == StringBody then StringPayload else JsonStructure)
      ensures pos == after
      ensures mode == StringBody ==> inString == old(inString) && escaped == old(escaped)
      ensures mode == JsonParam ==> !inString && !escaped
    {
      hide Attr;
      pos := after;
      if Attr(tag, "string") == Some("true") {
        mode, decode := StringBody, StringPayload;
      } else {
        mode, decode, inString, escaped := JsonParam, JsonStructure, false, false;
      }
    }

    /** Pass one tag of the block. */
    method PassTag(raw: string) returns (more: bool)
      requires mode == Structural && (pos < |raw| ==> !IsSpace(raw[pos]))
      modifies this`mode, this`decode, this`pos, this`inString, this`escaped
      ensures more ==> Scan(Value(), raw) == Scan(old(Value()), raw) && old(pos) < pos <= |raw|
      ensures more ==> mode == Structural || mode == StringBody || mode == JsonParam
      ensures !more ==> Value() == Scan(old(Value()), raw)
    {
      hide Scan, SyntaxAt, Full, Find, Attr, IsSpace;
      Progress(Value(), raw);
      ScanStep(Value(), raw);
      more := true;
      var tags := SyntaxAt(syn);
      if pos >= |raw| {
        decode := Structure;
        more := false;
      } else if Full(raw, pos, tags.toolCallsEnd) {
        ScanStep(Step(Value(), raw).t, raw);
        mode, decode, pos := Done, Outside, pos + |tags.toolCallsEnd|;
        more := false;
      } else if Full(raw, pos, tags.invokeEnd) {
        pos := pos + |tags.invokeEnd|;
      } else if Full(raw, pos, tags.invokeStart) || Full(raw, pos, tags.paramStart) {
        var q := FindLit(raw, pos, ">");
        if q.None? {
          decode := Structure;
          more := false;
        } else if Full(raw, pos, tags.invokeStart) {
          pos := q.value + 1;
        } else {
          FullInside(raw, q.value, ">");
          Enter(raw[pos..q.value + 1], q.value + 1);
        }
      } else {
        decode := Structure;
        more := false;
      }
    }

    /** Follow the text on from where the last update stopped. */
    method Update(raw: string)
      modifies this
      ensures Value() == Scan(old(Value()), raw)
    {
      hide Scan;
      ghost var t := Value();
      var more := true;
      while more
        invariant more ==> Scan(Value(), raw) == Scan(t, raw)
        invariant !more ==> Value() == Scan(t, raw)
        decreases more, |raw| - pos
      {
        match mode
        case Done =>
          ScanStep(Value(), raw);
          decode := Outside;
          more := false;
        case Search =>
          more := Seek(raw);
        case StringBody =>
          more := PassString(raw);
        case JsonParam =>
          more := PassJson(raw);
        case Structural =>
          SkipSpaces(raw);
          more := PassTag(raw);
      }
    }
  }

  lemma FindStartPast(raw: string, p: nat)
    requires p > |raw|
    ensures FindStart(raw, p).None?
  {
  }

  lemma ScanStep(t: Track, raw: string)
    ensures Step(t, raw).Go? ==> Scan(t, raw) == Scan(Step(t, raw).t, raw)
    ensures Step(t, raw).Stop? ==> Scan(t, raw) == Step(t, raw).t
  {
    hide Step;
  }
}
