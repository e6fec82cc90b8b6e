/** No delta of a streamed answer ends inside a character, a tag or an entity. */
module StreamWhole {
  import opened DsmlText
  import opened StreamText
  import opened Stream
  import opened StreamChunks
  import A = StreamParse
  import T = DsmlTracker

  /** No `lit` lies across `m`. */
  ghost predicate NoneAcross(x: string, m: nat, lit: string) {
    forall i :: 0 <= i < m < i + |lit| ==> !Full(x, i, lit)
  }

  /** Text of this status may be cut at `m` of the whole text `x`. */
  ghost predicate Clean(s: Status, tools: bool, x: string, m: nat) {
    && Boundary(x, m)
    && (s.mode == Thinking ==> NoneAcross(x, m, THINK_CLOSE))
    && (s.mode == Text && tools ==> forall k :: 0 <= k < SYNTAXES ==> NoneAcross(x, m, SyntaxAt(k).toolCallsStart))
    && (s.mode == Calls ==> NoneAcross(x, m, SyntaxAt(s.tool.syn).paramEnd))
    && (s.mode == Calls && s.tool.isString ==> forall k :: 0 <= k < ENTITIES ==> NoneAcross(x, m, Entity(k)))
  }

  /** Where a status goes on sending. */
  function Next(s: Status): (m: nat) {
    if s.mode == Calls then s.tool.pos else s.emit
  }

  ghost predicate Sending(s: Status) {
    s.mode == Thinking || s.mode == Text || (s.mode == Calls && s.tool.state == ParamValue)
  }

  /** What every status of a run keeps: what it sent ends cleanly. */
  ghost predicate Whole(s: Status, tools: bool, x: string) {
    Sending(s) ==> Clean(s, tools, x, Next(s))
  }

  /** How far a step sends, if it sends text. */
  function SentTo(s: Status, raw: string, tools: bool): (r: Option<nat>) {
    match s.mode
    case Thinking =>
      if !s.checked then None
      else
        var q := Find(raw, s.emit, THINK_CLOSE);
        var m := if q.Some? then q.value else ReasonLimit(raw, s.emit);
        if m > s.emit then Some(m) else None
    case Text =>
      var m := TextLimit(raw, s.emit, tools, false);
      if m > s.emit then Some(m) else None
    case Calls =>
      if !s.tool.active || s.tool.pos >= |raw| || s.tool.state != ParamValue then None
      else
        var close := SyntaxAt(s.tool.syn).paramEnd;
        var e := Find(raw, s.tool.pos, close);
        var m := if e.Some? then e.value else ParamSafe(raw, s.tool.pos, close, s.tool.isString);
        if m > s.tool.pos then Some(m) else None
    case Suppress => None
  }

  // ----- Nothing across -----

  /** What does not lie across an earlier place, and does not begin after it, does
      not lie across a later one. */
  lemma NoneLater(x: string, l: nat, m: nat, lit: string)
    requires NoneAcross(x, l, lit) && l <= m && forall i :: l <= i < m ==> !Full(x, i, lit)
    ensures NoneAcross(x, m, lit)
  {
  }

  /** Only the last character can be a closing angle. */
  predicate Closing(lit: string) {
    |lit| > 1 && lit[0] == '<' && forall i :: 0 <= i < |lit| - 1 ==> lit[i] != '>'
  }

  lemma AfterAngle(x: string, m: nat, lit: string)
    requires 0 < m <= |x| && x[m - 1] == '>' && Closing(lit)
    ensures NoneAcross(x, m, lit)
  {
    hide Full;
    forall i | 0 <= i < m < i + |lit| ensures !Full(x, i, lit) {
      if Full(x, i, lit) { FullChars(x, i, lit, m - 1); }
    }
  }

  /** A tag or an entity does not go on with an opening angle. */
  lemma BeforeAngle(x: string, m: nat, lit: string)
    requires m < |x| && x[m] == '<' && forall i :: 1 <= i < |lit| ==> lit[i] != '<'
    ensures NoneAcross(x, m, lit)
  {
    hide Full;
    forall i | 0 <= i < m < i + |lit| ensures !Full(x, i, lit) {
      if Full(x, i, lit) { FullChars(x, i, lit, m); }
    }
  }

  lemma TagInner(lit: string)
    requires Tag(lit)
    ensures forall i :: 1 <= i < |lit| ==> lit[i] != '<'
  {
    assert forall i :: 1 <= i < |lit| ==> lit[i] == lit[1..][i - 1];
  }

  lemma EntityAfterAngle(x: string, m: nat, k: nat)
    requires 0 < m <= |x| && x[m - 1] == '>' && k < ENTITIES
    ensures NoneAcross(x, m, Entity(k))
  {
    hide Full, Entity;
    NoAngleIn(k);
    forall i | 0 <= i < m < i + |Entity(k)| ensures !Full(x, i, Entity(k)) {
      if Full(x, i, Entity(k)) { FullChars(x, i, Entity(k), m - 1); }
    }
  }

  lemma NoAngleIn(k: nat)
    ensures forall i :: 0 <= i < |Entity(k)| ==> Entity(k)[i] != '>'
  {
  }

  lemma Closings(k: nat)
    ensures Closing(THINK_CLOSE) && Closing(SyntaxAt(k).toolCallsStart) && Closing(SyntaxAt(k).paramEnd)
  {
    hide SyntaxAt;
    var m := T.Mark(k);
    T.TagAngles(k);
    assert SyntaxAt(k).toolCallsStart == "<" + m + "tool_calls>" && SyntaxAt(k).paramEnd == "</" + m + "parameter>";
    MarkPlain(k);
  }

  lemma MarkPlain(k: nat)
    ensures '>' !in T.Mark(k)
  {
  }

  // ----- Reasoning -----

  lemma CheckWhole(s: Status, a: string, b: string, tools: bool)
    requires s.mode == Thinking && Whole(s, tools, a + b) && Fits(s, |a|, a + b) && Proper(a + b)
    ensures Whole(CheckOpen(s, a, false).s, tools, a + b)
  {
    hide Proper, Boundary, Full, Closing;
    CheckFits(s, a, b);
    if THINK_OPEN <= a {
      Closings(0);
      assert (a + b)[6] == THINK_OPEN[6];
      AfterAngle(a + b, 7, THINK_CLOSE);
    }
  }

  lemma AngleCut(x: string, m: nat, lit: string)
    requires Tag(lit) && Full(x, m, lit)
    ensures Boundary(x, m) && m < |x| && x[m] == '<' && NoneAcross(x, m, lit)
  {
    hide Tag, NoneAcross;
    TagFirst(x, m, lit);
    TagInner(lit);
    BeforeAngle(x, m, lit);
  }

  /** The end of a tag that closes. */
  lemma TagEnd(x: string, q: nat, lit: string)
    requires Full(x, q, lit) && lit != "" && lit[|lit| - 1] == '>'
    ensures 0 < q + |lit| <= |x| && x[q + |lit| - 1] == '>'
  {
    FullChars(x, q, lit, q + |lit| - 1);
  }

  lemma ThinkClosed(s: Status, a: string, b: string, tools: bool)
    requires s.mode == Thinking && s.checked && Fits(s, |a|, a + b) && Proper(a + b) && Find(a, s.emit, THINK_CLOSE).Some?
    ensures Clean(s, tools, a + b, Find(a, s.emit, THINK_CLOSE).value)
    ensures Whole(StepThinking(s, a, false).s, tools, a + b)
  {
    hide Proper, Boundary, Full, Find, NoneAcross, SyntaxAt, Closing, Tag;
    var x, q := a + b, Find(a, s.emit, THINK_CLOSE).value;
    CloseTag();
    FullInside(a, q, THINK_CLOSE);
    FullMore(a, b, q, THINK_CLOSE);
    AngleCut(x, q, THINK_CLOSE);
    ThinkFits(s, a, b);
    TagEnd(x, q, THINK_CLOSE);
    forall k | 0 <= k < SYNTAXES ensures NoneAcross(x, q + 8, SyntaxAt(k).toolCallsStart) {
      Closings(k);
      AfterAngle(x, q + 8, SyntaxAt(k).toolCallsStart);
    }
  }

  lemma ThinkOpen(s: Status, a: string, b: string, tools: bool)
    requires s.mode == Thinking && s.checked && Whole(s, tools, a + b) && Fits(s, |a|, a + b) && Proper(a + b)
    requires Find(a, s.emit, THINK_CLOSE).None?
    ensures var l := ReasonLimit(a, s.emit); l > s.emit ==> Clean(s, tools, a + b, l)
    ensures Whole(StepThinking(s, a, false).s, tools, a + b)
  {
    hide Proper, Boundary, Full, Find, NoneAcross, Utf8Safe;
    var x, l := a + b, ReasonLimit(a, s.emit);
    ThinkFits(s, a, b);
    if l > s.emit {
      forall i | s.emit <= i < l ensures !Full(x, i, THINK_CLOSE) {
        if Full(x, i, THINK_CLOSE) { T.FullInBoth(a, b, i, THINK_CLOSE); }
      }
      NoneLater(x, s.emit, l, THINK_CLOSE);
    }
  }

  // ----- Content -----

  lemma TextBlock(s: Status, a: string, b: string)
    requires s.mode == Text && Whole(s, true, a + b) && Fits(s, |a|, a + b) && FindStart(a, s.emit).Some?
    ensures var m := TextLimit(a, s.emit, true, false); m > s.emit ==> Clean(s, true, a + b, m)
  {
    hide FindStart, SyntaxAt, Full, NoneAcross, IsSpace, HeldFrom, Utf8Safe;
    var x, f, m := a + b, FindStart(a, s.emit).value, TextLimit(a, s.emit, true, false);
    StartInside(a, f.0);
    T.StartHere(a, f.0, f.1);
    T.FindStartMore(a, b, s.emit);
    SpaceOrAngle(x, m);
    forall k | 0 <= k < SYNTAXES ensures m > s.emit ==> NoneAcross(x, m, SyntaxAt(k).toolCallsStart) {
      if m > s.emit {
        forall i | s.emit <= i < m ensures !Full(x, i, SyntaxAt(k).toolCallsStart) { assert StartAt(x, i).None?; }
        NoneLater(x, s.emit, m, SyntaxAt(k).toolCallsStart);
      }
    }
  }

  lemma SpaceOrAngle(x: string, m: nat)
    ensures m < |x| && (IsSpace(x[m]) || x[m] == '<') ==> Boundary(x, m)
  {
  }

  lemma TextOpen(s: Status, a: string, b: string, tools: bool)
    requires s.mode == Text && Whole(s, tools, a + b) && Fits(s, |a|, a + b) && Proper(a + b)
    requires tools ==> FindStart(a, s.emit).None?
    ensures var m := TextLimit(a, s.emit, tools, false); m > s.emit ==> Clean(s, tools, a + b, m)
    ensures Whole(StepText(s, a, tools, false).s, tools, a + b)
  {
    hide FindStart, SyntaxAt, Full, NoneAcross, HeldFrom, Utf8Safe, Proper, Boundary, StartAt;
    var x, m := a + b, TextLimit(a, s.emit, tools, false);
    TextFits(s, a, b, tools);
    if m > s.emit && tools {
      HeldIs(a, s.emit, 0, 0);
      forall k | 0 <= k < SYNTAXES ensures NoneAcross(x, m, SyntaxAt(k).toolCallsStart) {
        forall i | s.emit <= i < m ensures !Full(x, i, SyntaxAt(k).toolCallsStart) { NoStartBefore(a, b, s.emit, i); }
        NoneLater(x, s.emit, m, SyntaxAt(k).toolCallsStart);
      }
    }
  }

  // ----- Argument values -----

  lemma ValueClosed(s: Status, a: string, b: string, tools: bool)
    requires s.mode == Calls && s.tool.pos < |a| && Find(a, s.tool.pos, SyntaxAt(s.tool.syn).paramEnd).Some?
    ensures Clean(s, tools, a + b, Find(a, s.tool.pos, SyntaxAt(s.tool.syn).paramEnd).value)
  {
    hide SyntaxAt, Find, Full, NoneAcross, Boundary, Tag, Entity;
    var x, close := a + b, SyntaxAt(s.tool.syn).paramEnd;
    var e := Find(a, s.tool.pos, close).value;
    StartTag(s.tool.syn);
    FullInside(a, e, close);
    FullMore(a, b, e, close);
    AngleCut(x, e, close);
    forall k | 0 <= k < ENTITIES ensures NoneAcross(x, e, Entity(k)) { BeforeAngle(x, e, Entity(k)); }
  }

  lemma ValueOpen(s: Status, a: string, b: string, tools: bool)
    requires s.mode == Calls && s.tool.state == ParamValue && Whole(s, tools, a + b) && Fits(s, |a|, a + b) && Proper(a + b)
    requires s.tool.pos < |a| && Find(a, s.tool.pos, SyntaxAt(s.tool.syn).paramEnd).None?
    ensures var l := ParamSafe(a, s.tool.pos, SyntaxAt(s.tool.syn).paramEnd, s.tool.isString); l > s.tool.pos ==> Clean(s, tools, a + b, l)
  {
    hide SyntaxAt, Find, Full, NoneAcross, Boundary, Tag, Entity, ParamSafe, Proper;
    var x, p, close, k := a + b, s.tool.pos, SyntaxAt(s.tool.syn).paramEnd, s.tool.isString;
    var l := ParamSafe(a, p, close, k);
    StartTag(s.tool.syn);
    ParamAgain(a, b, p, close, k);
    if l > p {
      forall i | p <= i < l ensures !Full(x, i, close) { NoCloseBefore(a, b, p, close, k, i); }
      NoneLater(x, p, l, close);
      if k {
        forall j | 0 <= j < ENTITIES ensures NoneAcross(x, l, Entity(j)) { EntityCut(a, b, p, close, j); }
      }
    }
  }

  lemma EntityCut(a: string, b: string, p: nat, close: string, j: nat)
    requires Tag(close) && p <= |a| && p < ParamSafe(a, p, close, true) && j < ENTITIES && NoneAcross(a + b, p, Entity(j))
    ensures NoneAcross(a + b, ParamSafe(a, p, close, true), Entity(j))
  {
    hide Full, Tag, Entity, ParamSafe;
    var x, l := a + b, ParamSafe(a, p, close, true);
    forall g | 0 <= g < l < g + |Entity(j)| ensures !Full(x, g, Entity(j)) {
      if p <= g && Full(x, g, Entity(j)) { EntityAcross(a, b, p, close, g, j); }
    }
  }

  lemma ValueWhole(s: Status, a: string, b: string, tools: bool)
    requires s.mode == Calls && s.tool.state == ParamValue && Whole(s, tools, a + b) && Fits(s, |a|, a + b) && Proper(a + b) && s.tool.pos < |a|
    ensures Whole(StepValue(s, a).s, tools, a + b)
  {
    hide SyntaxAt, Find, Full, NoneAcross, Boundary, ParamSafe, Proper, Entity, Arg, Value, Cut, ValueSoFar;
    var close := SyntaxAt(s.tool.syn).paramEnd;
    if Find(a, s.tool.pos, close).None? {
      ValueOpen(s, a, b, tools);
      SoFarKeeps(s, a, ParamSafe(a, s.tool.pos, close, s.tool.isString));
    }
  }

  lemma ParamWhole(s: Status, a: string, b: string, tools: bool)
    requires s.mode == Calls && s.tool.state == BetweenParams && Fits(s, |a|, a + b) && Proper(a + b) && s.tool.pos < |a|
    ensures Whole(StepParams(s, a).s, tools, a + b)
  {
    hide SyntaxAt, Find, Full, Partial, NoneAcross, Boundary, Proper, Entity, Arg, Attr, IsSpace, Prefix, Cut;
    ParamsFit(s, a, b);
    var x, q := a + b, Find(a, s.tool.pos, ">");
    if q.Some? {
      AngleFound(a, s.tool.pos);
      T.AngleAt(a, q.value);
      Closings(s.tool.syn);
      AfterAngle(x, q.value + 1, SyntaxAt(s.tool.syn).paramEnd);
      forall k | 0 <= k < ENTITIES ensures NoneAcross(x, q.value + 1, Entity(k)) { EntityAfterAngle(x, q.value + 1, k); }
    }
  }

  lemma InvokeWhole(s: Status, a: string, x: string, tools: bool)
    requires s.mode == Calls && s.tool.state == BetweenInvokes && s.tool.pos < |a|
    ensures Whole(StepInvokes(s, a).s, tools, x)
  {
    hide SyntaxAt, Find, Full, Partial, Attr, IsSpace, Arg, Cut, Clean;
  }

  lemma CallsWhole(s: Status, a: string, b: string, tools: bool)
    requires s.mode == Calls && Whole(s, tools, a + b) && Fits(s, |a|, a + b) && Proper(a + b)
    ensures Whole(StepCalls(s, a).s, tools, a + b)
  {
    hide StepInvokes, StepParams, StepValue, Clean, Proper;
    if s.tool.pos < |a| {
      match s.tool.state
      case BetweenInvokes => InvokeWhole(s, a, a + b, tools);
      case BetweenParams => ParamWhole(s, a, b, tools);
      case ParamValue => ValueWhole(s, a, b, tools);
      case _ =>
    }
  }

  // ----- Steps and updates -----

  lemma ThinkClean(s: Status, a: string, b: string, tools: bool)
    requires s.mode == Thinking && s.checked && Whole(s, tools, a + b) && Fits(s, |a|, a + b) && Proper(a + b)
    ensures SentTo(s, a, tools).Some? ==> Clean(s, tools, a + b, SentTo(s, a, tools).value)
    ensures Whole(StepThinking(s, a, false).s, tools, a + b)
  {
    hide Find, Clean, Whole, Fits, Proper, ReasonLimit, StepThinking;
    if Find(a, s.emit, THINK_CLOSE).Some? { ThinkClosed(s, a, b, tools); } else { ThinkOpen(s, a, b, tools); }
  }

  lemma TextClean(s: Status, a: string, b: string, tools: bool)
    requires s.mode == Text && Whole(s, tools, a + b) && Fits(s, |a|, a + b) && Proper(a + b)
    ensures SentTo(s, a, tools).Some? ==> Clean(s, tools, a + b, SentTo(s, a, tools).value)
    ensures Whole(StepText(s, a, tools, false).s, tools, a + b)
  {
    hide FindStart, Clean, Fits, Proper, TextLimit, SyntaxAt, Cut;
    if tools && FindStart(a, s.emit).Some? { TextBlock(s, a, b); } else { TextOpen(s, a, b, tools); }
  }

  lemma CallsClean(s: Status, a: string, b: string, tools: bool)
    requires s.mode == Calls && Whole(s, tools, a + b) && Fits(s, |a|, a + b) && Proper(a + b)
    ensures SentTo(s, a, tools).Some? ==> Clean(s, tools, a + b, SentTo(s, a, tools).value)
  {
    hide Find, Clean, Whole, Proper, ParamSafe, SyntaxAt;
    if s.tool.pos < |a| && s.tool.state == ParamValue {
      if Find(a, s.tool.pos, SyntaxAt(s.tool.syn).paramEnd).Some? { ValueClosed(s, a, b, tools); } else { ValueOpen(s, a, b, tools); }
    }
  }

  lemma StepWhole(s: Status, a: string, b: string, tools: bool)
    requires Whole(s, tools, a + b) && Fits(s, |a|, a + b) && Proper(a + b)
    ensures SentTo(s, a, tools).Some? ==> Clean(s, tools, a + b, SentTo(s, a, tools).value)
    ensures Whole(Step(s, a, tools, false).s, tools, a + b)
  {
    hide Clean, Fits, Proper, CheckOpen, StepThinking, StepText, StepCalls, Find, TextLimit, ParamSafe, SyntaxAt;
    match s.mode
    case Thinking => if s.checked { ThinkClean(s, a, b, tools); } else { CheckWhole(s, a, b, tools); }
    case Text => TextClean(s, a, b, tools);
    case Calls => CallsClean(s, a, b, tools); CallsWhole(s, a, b, tools);
    case Suppress =>
  }

  /** Text sent by a step from `from`, up to `end`. */
  datatype Send = Send(from: Status, end: nat)

  /** All that an update sends. */
  function Sends(s: Status, raw: string, tools: bool): (r: seq<Send>)
    decreases Rank(s), if s.tool.pos <= |raw| then |raw| - s.tool.pos else 0
  {
    var m := SentTo(s, raw, tools);
    var here := if m.Some? then [Send(s, m.value)] else [];
    match Step(s, raw, tools, false)
    case Stop(_) => here
    case Go(t) => Progress(s, raw, tools, false); here + Sends(t, raw, tools)
  }

  ghost predicate AllClean(sends: seq<Send>, tools: bool, x: string) {
    forall i :: 0 <= i < |sends| ==> Clean(sends[i].from, tools, x, sends[i].end)
  }

  lemma {:induction false} UpdateWhole(s: Status, a: string, b: string, tools: bool)
    requires Whole(s, tools, a + b) && Fits(s, |a|, a + b) && Proper(a + b)
    ensures AllClean(Sends(s, a, tools), tools, a + b)
    ensures Whole(Scan(s, a, tools, false), tools, a + b)
    decreases Rank(s), if s.tool.pos <= |a| then |a| - s.tool.pos else 0
  {
    hide Step, Whole, Fits, Proper, Clean, SentTo;
    StepWhole(s, a, b, tools);
    if Step(s, a, tools, false).Go? {
      Progress(s, a, tools, false);
      StepFits(s, a, b, tools);
      UpdateWhole(Step(s, a, tools, false).s, a, b, tools);
    }
  }

  lemma {:induction false} FollowWhole(chunks: seq<string>, rest: string, thinking: bool, tools: bool)
    requires Proper(Joined(chunks) + rest)
    ensures Whole(Follow(chunks, thinking, tools), tools, Joined(chunks) + rest)
    decreases |chunks|
  {
    hide Scan, Proper, Fits, Whole;
    if chunks == [] {
      assert Joined(chunks) + rest == rest;
      StartWhole(thinking, tools, rest);
    } else {
      var front, last := chunks[..|chunks| - 1], chunks[|chunks| - 1];
      var a := Joined(chunks);
      assert Joined(front) + (last + rest) == a + rest;
      FollowWhole(front, last + rest, thinking, tools);
      FollowThenFinish(front, last + rest, thinking, tools);
      FitsLonger(Follow(front, thinking, tools), |Joined(front)|, |a|, a + rest);
      UpdateWhole(Follow(front, thinking, tools), a, rest, tools);
    }
  }

  lemma StartWhole(thinking: bool, tools: bool, x: string)
    requires Proper(x)
    ensures Whole(Start(thinking), tools, x)
  {
    hide Proper;
    AfterAscii(x, 0);
  }

  /** Whatever update of whatever run: each delta it sends ends between two
      characters of the text, however the text goes on, and inside no close tag,
      no start tag and no entity. */
  lemma NothingSplit(chunks: seq<string>, rest: string, thinking: bool, tools: bool)
    requires chunks != [] && Proper(Joined(chunks) + rest)
    ensures AllClean(Sends(Follow(chunks[..|chunks| - 1], thinking, tools), Joined(chunks), tools), tools, Joined(chunks) + rest)
  {
    hide Scan, Proper, Fits, Whole, Sends, AllClean;
    var front, last := chunks[..|chunks| - 1], chunks[|chunks| - 1];
    var a := Joined(chunks);
    assert Joined(front) + (last + rest) == a + rest;
    FollowWhole(front, last + rest, thinking, tools);
    FollowThenFinish(front, last + rest, thinking, tools);
    FitsLonger(Follow(front, thinking, tools), |Joined(front)|, |a|, a + rest);
    UpdateWhole(Follow(front, thinking, tools), a, rest, tools);
  }

  // ----- What a send adds -----

  /** The text between where the status stood and where the send ends. */
  function Piece(s: Status, raw: string, tools: bool): (r: string) {
    var m := SentTo(s, raw, tools);
    if m.Some? && Next(s) <= m.value <= |raw| then raw[Next(s)..m.value] else ""
  }

  /** A step adds its piece to what was sent, and to nothing else. */
  lemma PieceIsSent(s: Status, raw: string, tools: bool)
    requires s.mode == Thinking || s.mode == Text ==> s.emit <= |raw|
    ensures var o := Step(s, raw, tools, false).s.out;
      && o.reasoning == s.out.reasoning + (if s.mode == Thinking then Piece(s, raw, tools) else "")
      && o.content == s.out.content + (if s.mode == Text then Piece(s, raw, tools) else "")
  {
    hide Find, FindStart, TextLimit, StepCalls, SyntaxAt, ParamSafe;
    match s.mode
    case Thinking => ThinkPiece(s, raw, tools);
    case Text =>
    case Calls => A.CallsStepKeeps(s, raw);
    case Suppress =>
  }

  lemma ThinkPiece(s: Status, raw: string, tools: bool)
    requires s.mode == Thinking && s.emit <= |raw|
    ensures var o := Step(s, raw, tools, false).s.out;
      o.reasoning == s.out.reasoning + Piece(s, raw, tools) && o.content == s.out.content
  {
    hide Find;
    if s.checked {
      var q := Find(raw, s.emit, THINK_CLOSE);
      if q.Some? { FullInside(raw, q.value, THINK_CLOSE); }
    }
  }

  /** A value's piece, encoded, goes to the arguments of its call; the end of a
      string adds its quote. */
  lemma ValuePiece(s: Status, raw: string, tools: bool)
    requires s.mode == Calls && s.tool.active && s.tool.pos < |raw| && s.tool.state == ParamValue
    ensures var r, u := Step(s, raw, tools, false), Arg(s.out, s.tool.index, Value(s.tool.isString, Piece(s, raw, tools)));
      r.s.out == if r.Go? && s.tool.isString then Arg(u, s.tool.index, "\"") else u
  {
    hide Find, SyntaxAt, ParamSafe, Arg, Value;
    var p, close := s.tool.pos, SyntaxAt(s.tool.syn).paramEnd;
    var e := Find(raw, p, close);
    NothingAdded(s.out, s.tool.index, s.tool.isString);
    assert raw[p..p] == "";
    if e.Some? { FullInside(raw, e.value, close); } else { SafeInside(raw, p, close, s.tool.isString); }
  }

  lemma NothingAdded(o: Out, i: nat, isString: bool)
    ensures Arg(o, i, Value(isString, "")) == o
  {
  }
}
