/** What an update that is not the last may hold back: the start of a tag or of an entity, a
    cut character, space before a block, and no more. */
module StreamHeld {
  import opened DsmlText
  import opened StreamText
  import opened Stream
  import C = StreamChunks
  import T = DsmlTracker

  /** The bytes of a character that may be waited for. */
  const CHAR: nat := 4

  /** Space up to the end or to an angle near the end, with a cut character before it. */
  ghost predicate SpaceHeld(raw: string, emit: nat, from: nat, to: nat) {
    && from <= to <= |raw| && from <= emit + CHAR && (forall i :: from <= i < to ==> IsSpace(raw[i]))
    && (to == |raw| || (raw[to] == '<' && |raw| - to <= MARKER_WINDOW))
  }

  /** Part of a close tag at the end, with part of an entity and a cut character before it. */
  ghost predicate ValueHeld(raw: string, pos: nat, close: string, isString: bool, d: nat, c: nat) {
    && d <= c <= |raw| && d <= pos + CHAR
    && (c < |raw| ==> Partial(raw, c, close))
    && (d < c ==> isString && HalfEntity(raw[d..c]))
  }

  /** A tag that has not come to its end. */
  ghost predicate TagHeld(raw: string, pos: nat, end: string, start: string) {
    pos >= |raw| || Partial(raw, pos, end) || Partial(raw, pos, start) || (Full(raw, pos, start) && Find(raw, pos, ">").None?)
  }

  ghost predicate ToolHeld(t: Tool, raw: string) {
    var y := SyntaxAt(t.syn);
    match t.state
    case BetweenInvokes => TagHeld(raw, t.pos, y.toolCallsEnd, y.invokeStart)
    case BetweenParams => TagHeld(raw, t.pos, y.invokeEnd, y.paramStart)
    case ParamValue => t.pos >= |raw| || (Find(raw, t.pos, y.paramEnd).None? && exists d, c :: ValueHeld(raw, t.pos, y.paramEnd, t.isString, d, c))
    case _ => true
  }

  /** What a status waits for, with all of `raw` seen. */
  ghost predicate Waiting(t: Status, raw: string, tools: bool) {
    match t.mode
    case Thinking =>
      if !t.checked then |raw| < |THINK_OPEN| && raw <= THINK_OPEN
      else Find(raw, t.emit, THINK_CLOSE).None? && |raw| <= t.emit + |THINK_CLOSE| - 1 + CHAR
    case Text =>
      if tools then FindStart(raw, t.emit).None? && exists from, to :: SpaceHeld(raw, t.emit, from, to)
      else |raw| <= t.emit + CHAR
    case Calls => t.tool.active && ToolHeld(t.tool, raw)
    case Suppress => true
  }

  lemma ThinkingWaits(s: Status, raw: string)
    requires s.mode == Thinking && s.checked && StepThinking(s, raw, false).Stop?
    ensures var t := StepThinking(s, raw, false).s; Find(raw, s.emit, THINK_CLOSE).None? && |raw| <= t.emit + |THINK_CLOSE| - 1 + CHAR && t.emit >= s.emit
  {
    hide Find, Utf8Safe;
    var hold := |THINK_CLOSE| - 1;
    if |raw| > hold && s.emit <= |raw| - hold { Utf8Near(raw, s.emit, |raw| - hold); }
  }

  lemma {:induction false} NoneFrom(raw: string, p: nat, q: nat, lit: string)
    requires Find(raw, p, lit).None? && p <= q
    ensures Find(raw, q, lit).None?
    decreases q - p
  {
    hide Full;
    if p < q && p <= |raw| { NoneFrom(raw, p + 1, q, lit); } else if p < q { FindShort(raw, q, lit); }
  }

  lemma NoStartFrom(raw: string, p: nat, q: nat)
    requires FindStart(raw, p).None? && p <= q
    ensures FindStart(raw, q).None?
  {
    hide StartAt;
    assert forall i :: p <= i <= |raw| ==> StartAt(raw, i).None?;
  }

  lemma TextWaits(s: Status, raw: string, tools: bool)
    requires s.mode == Text && StepText(s, raw, tools, false).Stop?
    ensures Waiting(StepText(s, raw, tools, false).s, raw, tools)
  {
    hide FindStart, Utf8Safe, HeldFrom, SpaceHeld;
    var t := StepText(s, raw, tools, false).s;
    if tools { NoStartFrom(raw, s.emit, t.emit); }
    if |raw| <= s.emit {
      SpaceNone(raw, t.emit);
    } else if tools {
      var from := HeldFrom(raw, s.emit);
      var to := HeldParts(raw, s.emit);
      Utf8Near(raw, s.emit, from);
      SpaceBefore(raw, t.emit, from, to);
    } else {
      Utf8Near(raw, s.emit, |raw|);
    }
  }

  lemma SpaceNone(raw: string, emit: nat)
    requires |raw| <= emit
    ensures SpaceHeld(raw, emit, |raw|, |raw|)
  {
  }

  lemma SpaceBefore(raw: string, emit: nat, from: nat, to: nat)
    requires from <= to <= |raw| && from <= emit + CHAR && (forall i :: from <= i < to ==> IsSpace(raw[i]))
    requires to == |raw| || (raw[to] == '<' && |raw| - to <= MARKER_WINDOW)
    ensures SpaceHeld(raw, emit, from, to)
  {
  }

  lemma HeldParts(raw: string, start: nat) returns (to: nat)
    requires start <= |raw|
    ensures start <= HeldFrom(raw, start) <= to <= |raw| && forall i :: HeldFrom(raw, start) <= i < to ==> IsSpace(raw[i])
    ensures to == |raw| || (raw[to] == '<' && |raw| - to <= MARKER_WINDOW)
  {
    hide IsSpace, Trim, LastIn;
    var limit := Trim(raw, start, |raw|);
    var m := LastIn(raw, if |raw| - start > MARKER_WINDOW then |raw| - MARKER_WINDOW else start, |raw|, '<');
    to := if m.Some? && m.value < limit then m.value else |raw|;
  }

  lemma ValueWaits(s: Status, raw: string)
    requires s.tool.pos < |raw| && s.tool.state == ParamValue && StepValue(s, raw).Stop?
    ensures var t := StepValue(s, raw).s; t.mode == s.mode && t.tool == s.tool.(pos := t.tool.pos) && ToolHeld(t.tool, raw)
  {
    hide Find, ParamSafe, CloseSafe, EntitySafe, HalfEntity, ValueHeld, SyntaxAt, Value, Arg, Partial;
    var p, close := s.tool.pos, SyntaxAt(s.tool.syn).paramEnd;
    var t := StepValue(s, raw).s;
    var limit := ParamSafe(raw, p, close, s.tool.isString);
    NoneFrom(raw, p, t.tool.pos, close);
    var c, d := CloseSafe(raw, p, close), TextSafe(raw, p, close, s.tool.isString);
    ValueParts(raw, p, s.tool.syn, s.tool.isString);
    assert limit <= t.tool.pos;
    assert ValueHeld(raw, t.tool.pos, close, s.tool.isString, d, c) by { HeldValue(raw, t.tool.pos, close, s.tool.isString, d, c); }
  }

  lemma HeldValue(raw: string, pos: nat, close: string, isString: bool, d: nat, c: nat)
    requires d <= c <= |raw| && d <= pos + CHAR && (c < |raw| ==> Partial(raw, c, close)) && (d < c ==> isString && HalfEntity(raw[d..c]))
    ensures ValueHeld(raw, pos, close, isString, d, c)
  {
  }

  lemma ValueParts(raw: string, p: nat, k: nat, isString: bool)
    requires p <= |raw|
    ensures var close := SyntaxAt(k).paramEnd;
      var c, d := CloseSafe(raw, p, close), TextSafe(raw, p, close, isString);
      && p <= d <= c <= |raw| && d <= ParamSafe(raw, p, close, isString) + CHAR
      && (c < |raw| ==> Partial(raw, c, close)) && (d < c ==> isString && HalfEntity(raw[d..c]))
  {
    hide CloseSafe, EntitySafe, HalfEntity, SyntaxAt, Utf8Safe, Partial;
    var close := SyntaxAt(k).paramEnd;
    CloseIsTag(k);
    CloseSafeIs(raw, p, close);
    var c, d := CloseSafe(raw, p, close), TextSafe(raw, p, close, isString);
    if isString { EntitySafeIs(raw, p, c); }
    Utf8Near(raw, p, d);
  }

  lemma CloseIsTag(k: nat)
    ensures Tag(SyntaxAt(k).paramEnd)
  {
    hide SyntaxAt;
    T.TagAngles(k);
    var m := T.Mark(k);
    assert SyntaxAt(k).paramEnd == "</" + m + "parameter>";
  }

  lemma TagsWait(s: Status, raw: string)
    requires s.tool.pos < |raw| && (s.tool.state == BetweenInvokes || s.tool.state == BetweenParams)
    requires (if s.tool.state == BetweenInvokes then StepInvokes(s, raw) else StepParams(s, raw)).Stop?
    ensures (if s.tool.state == BetweenInvokes then StepInvokes(s, raw) else StepParams(s, raw)).s == s && ToolHeld(s.tool, raw)
  {
    hide Find, SyntaxAt, Full, Partial, Attr, IsSpace, Arg, Prefix;
  }

  lemma CallsWait(s: Status, raw: string)
    requires s.mode == Calls && StepCalls(s, raw).Stop?
    ensures Waiting(StepCalls(s, raw).s, raw, true) && Waiting(StepCalls(s, raw).s, raw, false)
  {
    hide StepInvokes, StepParams, StepValue, Find, SyntaxAt, TagHeld, ValueHeld;
    if s.tool.active && s.tool.pos < |raw| {
      if s.tool.state == ParamValue {
        ValueWaits(s, raw);
      } else if s.tool.state == BetweenInvokes || s.tool.state == BetweenParams {
        TagsWait(s, raw);
      }
    } else if s.tool.active {
      EndWaits(s.tool, raw);
    }
  }

  lemma EndWaits(t: Tool, raw: string)
    requires t.pos >= |raw|
    ensures ToolHeld(t, raw)
  {
    hide Find, SyntaxAt, Full, Partial;
  }

  lemma StepWaits(s: Status, raw: string, tools: bool)
    requires Step(s, raw, tools, false).Stop?
    ensures Waiting(Step(s, raw, tools, false).s, raw, tools)
  {
    hide StepThinking, StepText, StepCalls, Find, FindStart, SpaceHeld, ToolHeld;
    match s.mode
    case Thinking =>
      if s.checked { ThinkingStops(s, raw, tools); }
    case Text => TextWaits(s, raw, tools);
    case Calls => CallsWait(s, raw);
    case Suppress =>
  }

  lemma ThinkingStops(s: Status, raw: string, tools: bool)
    requires s.mode == Thinking && s.checked && StepThinking(s, raw, false).Stop?
    ensures Waiting(StepThinking(s, raw, false).s, raw, tools)
  {
    hide Find, Utf8Safe;
    ThinkingWaits(s, raw);
    NoneFrom(raw, s.emit, StepThinking(s, raw, false).s.emit, THINK_CLOSE);
  }

  /** After every update, all that has not been sent is what must be waited for. */
  lemma {:induction false} UpdateWaits(s: Status, raw: string, tools: bool)
    ensures Waiting(Scan(s, raw, tools, false), raw, tools)
    decreases Rank(s), if s.tool.pos <= |raw| then |raw| - s.tool.pos else 0
  {
    hide Step, Waiting;
    ScanStep(s, raw, tools, false);
    var r := Step(s, raw, tools, false);
    if r.Go? {
      Progress(s, raw, tools, false);
      UpdateWaits(r.s, raw, tools);
    } else {
      StepWaits(s, raw, tools);
    }
  }

  // ----- Plain text -----

  lemma PlainStep(s: Status, raw: string)
    requires s.mode == Text && s.emit <= |raw| && s.out == Out("", raw[..s.emit], map[], map[])
    ensures var t := Scan(s, raw, false, false); t.mode == Text && t.emit <= |raw| && t.out == Out("", raw[..t.emit], map[], map[])
  {
    hide Utf8Safe, FindStart;
    ScanStep(s, raw, false, false);
    var t := Step(s, raw, false, false).s;
    if t.emit > s.emit { assert raw[..s.emit] + raw[s.emit..t.emit] == raw[..t.emit]; }
  }

  /** Without reasoning and tools, all but the last bytes have been sent at any time, and in
      their order. */
  lemma {:induction false} PlainSoon(chunks: seq<string>)
    requires chunks != []
    ensures var x, t := Joined(chunks), C.Follow(chunks, false, false);
      t.emit <= |x| <= t.emit + CHAR && t.out == Out("", x[..t.emit], map[], map[]) && t.mode == Text
  {
    hide Scan;
    var n := |chunks| - 1;
    var front, x := chunks[..n], Joined(chunks);
    var s := C.Follow(front, false, false);
    assert x == Joined(front) + chunks[n];
    if n > 0 { PlainSoon(front); } else { NothingYet(front); }
    assert x[..s.emit] == Joined(front)[..s.emit];
    PlainStep(s, x);
    UpdateWaits(s, x, false);
  }

  lemma NothingYet(chunks: seq<string>)
    requires chunks == []
    ensures C.Follow(chunks, false, false) == Start(false) && Joined(chunks) == ""
  {
  }
}
