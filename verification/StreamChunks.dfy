/** A streamed answer does not depend on how the text arrived. */
module StreamChunks {
  import opened DsmlText
  import opened StreamText
  import opened Json
  import opened Stream
  import T = DsmlTracker

  // ----- Searching in longer text -----

  lemma {:induction false} FindSkip(x: string, p: nat, q: nat, lit: string)
    requires p <= q && forall i :: p <= i < q ==> !Full(x, i, lit)
    ensures Find(x, p, lit) == Find(x, q, lit)
    decreases q - p
  {
    hide Full;
    if p < q && p <= |x| { FindSkip(x, p + 1, q, lit); }
  }

  lemma FindHere(x: string, p: nat, lit: string)
    requires Full(x, p, lit)
    ensures Find(x, p, lit) == Some(p)
  {
  }

  /** A tag that is found stays the first one. */
  lemma FindTagMore(a: string, b: string, p: nat, lit: string)
    requires Tag(lit) && Find(a, p, lit).Some?
    ensures Find(a + b, p, lit) == Find(a, p, lit)
  {
    hide Tag, Full, Partial, Find;
    var q := Find(a, p, lit).value;
    FullInside(a, q, lit);
    FullMore(a, b, q, lit);
    TagFirst(a, q, lit);
    forall i | p <= i < q ensures !Full(a + b, i, lit) {
      FullMore(a, b, i, lit);
      if Partial(a, i, lit) { PartialTag(a, i, lit); }
    }
    FindSkip(a + b, p, q, lit);
    FindHere(a + b, q, lit);
  }

  lemma TagFirst(a: string, q: nat, lit: string)
    requires Tag(lit) && Full(a, q, lit)
    ensures q < |a| && a[q] == '<'
  {
    assert a[q..][0] == a[q];
  }

  lemma CutMore(a: string, b: string, i: nat, j: nat)
    requires j <= |a|
    ensures Cut(a + b, i, j) == Cut(a, i, j)
  {
  }

  lemma CutParts(x: string, i: nat, l: nat, j: nat)
    requires i <= l <= j <= |x|
    ensures Cut(x, i, l) + Cut(x, l, j) == Cut(x, i, j)
  {
  }

  // ----- Steps that go on -----

  lemma CheckMore(s: Status, a: string, b: string)
    requires CheckOpen(s, a, false).Go?
    ensures CheckOpen(s, a + b, true) == CheckOpen(s, a, false)
  {
  }

  lemma CloseTag()
    ensures Tag(THINK_CLOSE)
  {
  }

  lemma ThinkMore(s: Status, a: string, b: string)
    requires StepThinking(s, a, false).Go?
    ensures StepThinking(s, a + b, true) == StepThinking(s, a, false)
  {
    hide Find, ReasonLimit, Full, Tag;
    CloseTag();
    FindTagMore(a, b, s.emit, THINK_CLOSE);
    var q := Find(a, s.emit, THINK_CLOSE).value;
    FullInside(a, q, THINK_CLOSE);
    CutMore(a, b, s.emit, q);
  }

  lemma TextMore(s: Status, a: string, b: string, tools: bool)
    requires StepText(s, a, tools, false).Go?
    ensures StepText(s, a + b, tools, true) == StepText(s, a, tools, false)
  {
    hide FindStart, SyntaxAt, StartAt, Utf8Safe, HeldFrom;
    T.FindStartMore(a, b, s.emit);
    var t := FindStart(a, s.emit).value.0;
    StartInside(a, t);
    TrimMore(a, b, s.emit, t);
    CutMore(a, b, s.emit, Trim(a, s.emit, t));
  }

  lemma StartInside(a: string, i: nat)
    requires i <= |a| && StartAt(a, i).Some?
    ensures i < |a|
  {
    hide SyntaxAt;
    T.TagLengths(StartAt(a, i).value);
  }

  lemma StartInvokeMore(s: Status, a: string, b: string)
    requires s.tool.pos <= |a| && StartInvoke(s, a).Go?
    ensures StartInvoke(s, a + b) == StartInvoke(s, a)
  {
    hide Find, Attr, Arg;
    T.AngleMore(a, b, s.tool.pos);
    CutMore(a, b, s.tool.pos, Find(a, s.tool.pos, ">").value + 1);
  }

  lemma StartParamMore(s: Status, a: string, b: string)
    requires s.tool.pos <= |a| && StartParam(s, a).Go?
    ensures StartParam(s, a + b) == StartParam(s, a)
  {
    hide Find, Attr, Arg, Prefix;
    T.AngleMore(a, b, s.tool.pos);
    CutMore(a, b, s.tool.pos, Find(a, s.tool.pos, ">").value + 1);
  }

  /** Whether a tag stands here is settled unless the text ends inside it. */
  lemma TagSettled(a: string, b: string, p: nat, lit: string)
    requires p < |a| && !Partial(a, p, lit)
    ensures Full(a + b, p, lit) == Full(a, p, lit) && !Partial(a + b, p, lit)
  {
    hide Full;
    FullMore(a, b, p, lit);
    if Partial(a + b, p, lit) { PartialLess(a, b, p, lit); }
  }

  lemma InvokesMore(s: Status, a: string, b: string)
    requires s.tool.pos < |a| && StepInvokes(s, a).Go?
    ensures StepInvokes(s, a + b) == StepInvokes(s, a)
  {
    hide SyntaxAt, Full, Partial, StartInvoke, IsSpace;
    var p, y := s.tool.pos, SyntaxAt(s.tool.syn);
    if !IsSpace(a[p]) {
      if Full(a, p, y.toolCallsEnd) {
        FullMore(a, b, p, y.toolCallsEnd);
      } else {
        TagSettled(a, b, p, y.toolCallsEnd);
        TagSettled(a, b, p, y.invokeStart);
        if Full(a, p, y.invokeStart) { StartInvokeMore(s, a, b); }
      }
    }
  }

  lemma ParamsMore(s: Status, a: string, b: string)
    requires s.tool.pos < |a| && StepParams(s, a).Go?
    ensures StepParams(s, a + b) == StepParams(s, a)
  {
    hide SyntaxAt, Full, Partial, StartParam, IsSpace, Arg;
    var p, y := s.tool.pos, SyntaxAt(s.tool.syn);
    if !IsSpace(a[p]) {
      if Full(a, p, y.invokeEnd) {
        FullMore(a, b, p, y.invokeEnd);
      } else {
        TagSettled(a, b, p, y.invokeEnd);
        TagSettled(a, b, p, y.paramStart);
        if Full(a, p, y.paramStart) { StartParamMore(s, a, b); }
      }
    }
  }

  lemma ValueMore(s: Status, a: string, b: string)
    requires s.tool.pos < |a| && StepValue(s, a).Go?
    ensures StepValue(s, a + b) == StepValue(s, a)
  {
    hide SyntaxAt, Full, Find, Arg, Value, ParamSafe, Tag;
    var close := SyntaxAt(s.tool.syn).paramEnd;
    StartTag(s.tool.syn);
    FindTagMore(a, b, s.tool.pos, close);
    var e := Find(a, s.tool.pos, close).value;
    FullInside(a, e, close);
    CutMore(a, b, s.tool.pos, e);
  }

  lemma CallsMore(s: Status, a: string, b: string)
    requires StepCalls(s, a).Go?
    ensures StepCalls(s, a + b) == StepCalls(s, a)
  {
    hide StepInvokes, StepParams, StepValue;
    match s.tool.state
    case BetweenInvokes => InvokesMore(s, a, b);
    case BetweenParams => ParamsMore(s, a, b);
    case ParamValue => ValueMore(s, a, b);
    case _ =>
  }

  /** A step that goes on would go on in the same way at the end of the text. */
  lemma StepMore(s: Status, a: string, b: string, tools: bool)
    requires Step(s, a, tools, false).Go?
    ensures Step(s, a + b, tools, true) == Step(s, a, tools, false)
  {
    hide CheckOpen, StepThinking, StepText, StepCalls;
    match s.mode
    case Thinking => if s.checked { ThinkMore(s, a, b); } else { CheckMore(s, a, b); }
    case Text => TextMore(s, a, b, tools);
    case Calls => CallsMore(s, a, b);
    case Suppress =>
  }

  // ----- Steps that wait -----

  lemma ThinkWait(s: Status, a: string, b: string)
    requires s.emit <= |a| && StepThinking(s, a, false).Stop?
    ensures StepThinking(StepThinking(s, a, false).s, a + b, true) == StepThinking(s, a + b, true)
  {
    hide Find, Full, Utf8Safe;
    var x, l := a + b, ReasonLimit(a, s.emit);
    if l > s.emit {
      forall i | s.emit <= i < l ensures !Full(x, i, THINK_CLOSE) {
        if Full(x, i, THINK_CLOSE) { T.FullInBoth(a, b, i, THINK_CLOSE); }
      }
      FindSkip(x, s.emit, l, THINK_CLOSE);
      var q := Find(x, s.emit, THINK_CLOSE);
      if q.Some? { FullInside(x, q.value, THINK_CLOSE); }
      ReasonOn(s.out, a, b, s.emit, l, if q.Some? then q.value else |x|);
    }
  }

  lemma ReasonOn(o: Out, a: string, b: string, i: nat, l: nat, j: nat)
    requires i <= l <= |a| && l <= j <= |a + b|
    ensures Reason(Reason(o, Cut(a, i, l)), Cut(a + b, l, j)) == Reason(o, Cut(a + b, i, j))
  {
    hide Cut, Reason;
    CutMore(a, b, i, l);
    CutParts(a + b, i, l, j);
    ReasonTwice(o, Cut(a, i, l), Cut(a + b, l, j));
  }

  lemma TellOn(o: Out, a: string, b: string, i: nat, l: nat, j: nat)
    requires i <= l <= |a| && l <= j <= |a + b|
    ensures Tell(Tell(o, Cut(a, i, l)), Cut(a + b, l, j)) == Tell(o, Cut(a + b, i, j))
  {
    hide Cut, Tell;
    CutMore(a, b, i, l);
    CutParts(a + b, i, l, j);
    TellTwice(o, Cut(a, i, l), Cut(a + b, l, j));
  }

  lemma TellNothing(o: Out, x: string, i: nat)
    ensures Tell(o, Cut(x, i, i)) == o
  {
    assert o.content + "" == o.content;
  }

  /** Where the content that may be sent ends, seen from later. */
  lemma LimitAgain(a: string, b: string, start: nat, tools: bool, l: nat)
    requires start < l <= TextLimit(a, start, tools, false) && (tools ==> FindStart(a, start).None?)
    ensures var x := a + b;
      && (tools ==> FindStart(x, l) == FindStart(x, start))
      && l <= TextLimit(x, start, tools, true) == TextLimit(x, l, tools, true)
  {
    hide FindStart, HeldFrom, SyntaxAt, StartAt, Trim;
    var x := a + b;
    if tools {
      HeldIs(a, start, 0, 0);
      forall i | start <= i < l && i <= |x| ensures StartAt(x, i).None? { NoStartBefore(a, b, start, i); }
      T.FindStartSkip(x, start, l);
      var f := FindStart(x, l);
      if f.Some? {
        StartInside(x, f.value.0);
        HeldBeforeSpace(a, b, start, f.value.0);
        TrimAgain(x, start, l, f.value.0);
      }
    }
  }

  lemma TextWait(s: Status, a: string, b: string, tools: bool)
    requires s.emit <= |a| && StepText(s, a, tools, false).Stop?
    ensures StepText(StepText(s, a, tools, false).s, a + b, tools, true) == StepText(s, a + b, tools, true)
  {
    hide FindStart, TextLimit, SyntaxAt, Cut, Tell;
    var x, l := a + b, TextLimit(a, s.emit, tools, false);
    if l > s.emit {
      LimitAgain(a, b, s.emit, tools, l);
      var m := TextLimit(x, s.emit, tools, true);
      TellOn(s.out, a, b, s.emit, l, m);
      if m == l { TellNothing(Tell(s.out, Cut(a, s.emit, l)), x, l); }
    }
  }

  /** The encoded value may be sent in parts. */
  lemma ValueParts(a: string, b: string, start: nat, close: string, isString: bool, e: nat)
    requires Tag(close) && start <= |a| && e <= |a + b|
    requires var l := ParamSafe(a, start, close, isString); start < l <= e && l <= |a|
    ensures var l := ParamSafe(a, start, close, isString);
      Value(isString, Cut(a, start, l)) + Value(isString, Cut(a + b, l, e)) == Value(isString, Cut(a + b, start, e))
  {
    hide Tag, ParamSafe, Unescape, JsonText, Seam;
    var x, l := a + b, ParamSafe(a, start, close, isString);
    CutMore(a, b, start, l);
    CutParts(x, start, l, e);
    if isString {
      SentSeam(a, b, start, close, e);
      UnescapeParts(x[start..l], x[l..e]);
      JsonParts(Unescape(x[start..l]), Unescape(x[l..e]));
    }
  }

  lemma ValueAgain(s: Status, a: string, b: string)
    requires s.tool.pos < |a| && Proper(a + b) && Boundary(a + b, s.tool.pos)
    requires Find(a, s.tool.pos, SyntaxAt(s.tool.syn).paramEnd).None?
    ensures var x, close := a + b, SyntaxAt(s.tool.syn).paramEnd;
      var l := ParamSafe(a, s.tool.pos, close, s.tool.isString);
      && s.tool.pos <= l <= |a|
      && Find(x, l, close) == Find(x, s.tool.pos, close)
      && l <= ParamSafe(x, s.tool.pos, close, s.tool.isString) == ParamSafe(x, l, close, s.tool.isString)
  {
    hide Tag, ParamSafe, Find, Full, SyntaxAt, Proper, Between;
    var x, p, close := a + b, s.tool.pos, SyntaxAt(s.tool.syn).paramEnd;
    StartTag(s.tool.syn);
    ParamAgain(a, b, p, close, s.tool.isString);
    var l := ParamSafe(a, p, close, s.tool.isString);
    forall i | p <= i < l ensures !Full(x, i, close) { NoCloseBefore(a, b, p, close, s.tool.isString, i); }
    FindSkip(x, p, l, close);
  }

  lemma ValueWaitOn(s: Status, a: string, b: string, l: nat, j: nat)
    requires s.tool.pos < l <= |a| && l <= j <= |a + b|
    requires var k := s.tool.isString; Value(k, Cut(a, s.tool.pos, l)) + Value(k, Cut(a + b, l, j)) == Value(k, Cut(a + b, s.tool.pos, j))
    ensures ValueEnd(ValueSoFar(s, a, l), a + b, j) == ValueEnd(s, a + b, j)
    ensures ValueSoFar(ValueSoFar(s, a, l), a + b, j) == ValueSoFar(s, a + b, j)
  {
    hide Value, Cut, Arg, SyntaxAt;
    var k := s.tool.isString;
    ArgTwice(s.out, s.tool.index, Value(k, Cut(a, s.tool.pos, l)), Value(k, Cut(a + b, l, j)));
    CutMore(a, b, s.tool.pos, l);
  }

  lemma ValueWait(s: Status, a: string, b: string)
    requires s.tool.pos < |a| && Proper(a + b) && Boundary(a + b, s.tool.pos) && s.tool.active && s.tool.state == ParamValue
    requires StepValue(s, a).Stop?
    ensures StepCalls(StepValue(s, a).s, a + b) == StepValue(s, a + b)
  {
    hide Tag, ParamSafe, Find, SyntaxAt, Proper, Value, Fragment, Cut, Full, ValueEnd, ValueSoFar;
    var x, p, close, k := a + b, s.tool.pos, SyntaxAt(s.tool.syn).paramEnd, s.tool.isString;
    ValueAgain(s, a, b);
    StartTag(s.tool.syn);
    var l, e := ParamSafe(a, p, close, k), Find(x, p, close);
    SoFarKeeps(s, a, l);
    if l > p {
      var j := if e.Some? then e.value else ParamSafe(x, p, close, k);
      if e.Some? { FullInside(x, j, close); TagLong(close); } else { ParamSafeEnds(x, p, close, k); }
      ValueParts(a, b, p, close, k, j);
      ValueWaitOn(s, a, b, l, j);
      SoFarKeeps(ValueSoFar(s, a, l), x, j);
    }
  }

  lemma SoFarKeeps(s: Status, raw: string, limit: nat)
    ensures var t := ValueSoFar(s, raw, limit); t == s.(out := t.out, tool := s.tool.(pos := if limit > s.tool.pos then limit else s.tool.pos))
    ensures limit <= s.tool.pos ==> ValueSoFar(s, raw, limit) == s
  {
    hide Arg, Value, Cut;
  }

  lemma TagLong(lit: string)
    requires Tag(lit)
    ensures |lit| > 1
  {
  }

  // ----- Updates -----

  /** Positions lie in the text, between two characters of it. */
  ghost predicate Fits(s: Status, n: nat, x: string) {
    && (s.mode == Thinking || s.mode == Text ==> s.emit <= n && Boundary(x, s.emit))
    && (s.mode == Calls ==> s.tool.active && s.tool.pos <= n && (s.tool.state == ParamValue ==> Boundary(x, s.tool.pos)))
  }

  lemma CallsWait(s: Status, a: string, b: string)
    requires s.mode == Calls && Fits(s, |a|, a + b) && Proper(a + b) && StepCalls(s, a).Stop?
    ensures StepCalls(StepCalls(s, a).s, a + b) == StepCalls(s, a + b)
  {
    hide StepValue, SyntaxAt, Full, Partial, Find, Attr, Arg, Proper, IsSpace;
    if s.tool.pos < |a| && s.tool.state == ParamValue { ValueWait(s, a, b); }
  }

  lemma StepWaits(s: Status, a: string, b: string, tools: bool)
    requires Fits(s, |a|, a + b) && Proper(a + b) && Step(s, a, tools, false).Stop?
    ensures var t := Step(s, a, tools, false).s;
      Step(t, a + b, tools, true) == Step(s, a + b, tools, true)
  {
    hide StepThinking, StepText, StepCalls, Proper, CheckOpen;
    StopKeepsMode(s, a, tools);
    match s.mode
    case Thinking => if s.checked { ThinkWait(s, a, b); } else { CheckWait(s, a); }
    case Text => TextWait(s, a, b, tools);
    case Calls => CallsWait(s, a, b);
    case Suppress =>
  }

  lemma CheckWait(s: Status, a: string)
    requires CheckOpen(s, a, false).Stop?
    ensures CheckOpen(s, a, false).s == s
  {
  }

  lemma StopKeepsMode(s: Status, a: string, tools: bool)
    requires Step(s, a, tools, false).Stop? && (s.mode == Calls ==> s.tool.active)
    ensures var t := Step(s, a, tools, false).s; t.mode == s.mode && t.checked == s.checked
  {
    hide SyntaxAt, Full, Partial, Find, Attr, Arg, IsSpace, ReasonLimit, TextLimit, FindStart, ParamSafe, Cut;
  }

  lemma AfterAscii(x: string, i: nat)
    requires Proper(x) && (0 < i <= |x| ==> x[i - 1] < '\U{80}')
    ensures Boundary(x, i)
  {
    if !Boundary(x, i) {
      var j := Leader(x, i);
      AsciiNeeds(x[i - 1]);
    }
  }

  lemma AsciiNeeds(c: char)
    ensures c < '\U{80}' ==> Need(c) == 1 && !IsCont(c)
  {
  }

  lemma FullAscii(x: string, q: nat, lit: string)
    requires Proper(x) && Full(x, q, lit) && lit != "" && lit[|lit| - 1] < '\U{80}'
    ensures Boundary(x, q + |lit|)
  {
    hide Proper;
    assert x[q..][|lit| - 1] == x[q + |lit| - 1];
    AfterAscii(x, q + |lit|);
  }

  lemma CheckFits(s: Status, a: string, b: string)
    requires s.mode == Thinking && Fits(s, |a|, a + b) && Proper(a + b)
    ensures Fits(CheckOpen(s, a, false).s, |a|, a + b)
  {
    hide Proper, Boundary;
    if THINK_OPEN <= a {
      assert (a + b)[0..] == a + b;
      FullAscii(a + b, 0, THINK_OPEN);
    }
  }

  lemma ThinkFits(s: Status, a: string, b: string)
    requires s.mode == Thinking && Fits(s, |a|, a + b) && Proper(a + b)
    ensures Fits(StepThinking(s, a, false).s, |a|, a + b)
  {
    hide Proper, Boundary, Find, Full, Utf8Safe;
    var q := Find(a, s.emit, THINK_CLOSE);
    if q.Some? {
      FullInside(a, q.value, THINK_CLOSE);
      FullMore(a, b, q.value, THINK_CLOSE);
      FullAscii(a + b, q.value, THINK_CLOSE);
    } else if |a| > 7 && s.emit <= |a| - 7 {
      SafeBetween(a, b, s.emit, |a| - 7);
    }
  }

  lemma TextFits(s: Status, a: string, b: string, tools: bool)
    requires s.mode == Text && Fits(s, |a|, a + b) && Proper(a + b)
    ensures Fits(StepText(s, a, tools, false).s, |a|, a + b)
  {
    hide Proper, Boundary, FindStart, HeldFrom, Utf8Safe, SyntaxAt;
    var f := FindStart(a, s.emit);
    if tools && f.Some? {
      FullInside(a, f.value.0, SyntaxAt(f.value.1).toolCallsStart);
    } else {
      HeldIs(a, s.emit, 0, 0);
      SafeBetween(a, b, s.emit, if tools then HeldFrom(a, s.emit) else |a|);
    }
  }

  lemma ParamsFit(s: Status, a: string, b: string)
    requires s.mode == Calls && s.tool.state == BetweenParams && Fits(s, |a|, a + b) && Proper(a + b) && s.tool.pos < |a|
    ensures Fits(StepParams(s, a).s, |a|, a + b)
  {
    hide Proper, Boundary, Find, Full, Partial, SyntaxAt, Attr, Arg, IsSpace, Prefix;
    ParamsProgress(s, a);
    var q := Find(a, s.tool.pos, ">");
    if q.Some? {
      AngleFound(a, s.tool.pos);
      FullMore(a, b, q.value, ">");
      FullAscii(a + b, q.value, ">");
    }
  }

  lemma ValueFits(s: Status, a: string, b: string)
    requires s.mode == Calls && s.tool.state == ParamValue && Fits(s, |a|, a + b) && Proper(a + b) && s.tool.pos < |a|
    ensures Fits(StepValue(s, a).s, |a|, a + b)
  {
    hide Proper, Boundary, Find, Full, SyntaxAt, Arg, Value, Cut, ParamSafe, Tag, ValueSoFar;
    var close := SyntaxAt(s.tool.syn).paramEnd;
    ValueProgress(s, a);
    StartTag(s.tool.syn);
    ParamAgain(a, b, s.tool.pos, close, s.tool.isString);
    SoFarKeeps(s, a, ParamSafe(a, s.tool.pos, close, s.tool.isString));
  }

  lemma CallsFit(s: Status, a: string, b: string)
    requires s.mode == Calls && Fits(s, |a|, a + b) && Proper(a + b)
    ensures Fits(StepCalls(s, a).s, |a|, a + b)
  {
    hide Proper, Boundary, StepInvokes, StepParams, StepValue;
    if s.tool.pos < |a| {
      match s.tool.state
      case BetweenInvokes => InvokesFit(s, a, b);
      case BetweenParams => ParamsFit(s, a, b);
      case ParamValue => ValueFits(s, a, b);
      case _ =>
    }
  }

  lemma InvokesFit(s: Status, a: string, b: string)
    requires s.mode == Calls && s.tool.state == BetweenInvokes && Fits(s, |a|, a + b) && s.tool.pos < |a|
    ensures Fits(StepInvokes(s, a).s, |a|, a + b)
  {
    hide Boundary, Find, Full, Partial, SyntaxAt, Attr, Arg, IsSpace;
    InvokesProgress(s, a);
  }

  lemma StepFits(s: Status, a: string, b: string, tools: bool)
    requires Fits(s, |a|, a + b) && Proper(a + b)
    ensures Fits(Step(s, a, tools, false).s, |a|, a + b)
  {
    hide Proper, Fits, CheckOpen, StepThinking, StepText, StepCalls;
    match s.mode
    case Thinking => if s.checked { ThinkFits(s, a, b); } else { CheckFits(s, a, b); }
    case Text => TextFits(s, a, b, tools);
    case Calls => CallsFit(s, a, b);
    case Suppress =>
  }

  /** An update and the final one do what the final one does alone. */
  lemma {:induction false} Resume(s: Status, a: string, b: string, tools: bool)
    requires Fits(s, |a|, a + b) && Proper(a + b)
    ensures Scan(Scan(s, a, tools, false), a + b, tools, true) == Scan(s, a + b, tools, true)
    ensures Fits(Scan(s, a, tools, false), |a|, a + b)
    decreases Rank(s), if s.tool.pos <= |a| then |a| - s.tool.pos else 0
  {
    hide Step, Fits, Proper;
    StepFits(s, a, b, tools);
    if Step(s, a, tools, false).Stop? {
      StepWaits(s, a, b, tools);
    } else {
      Progress(s, a, tools, false);
      StepMore(s, a, b, tools);
      Resume(Step(s, a, tools, false).s, a, b, tools);
    }
  }

  /** The state after the text has arrived in these chunks. */
  function Follow(chunks: seq<string>, thinking: bool, tools: bool): (s: Status) {
    if chunks == [] then Start(thinking)
    else Scan(Follow(chunks[..|chunks| - 1], thinking, tools), Joined(chunks), tools, false)
  }

  lemma {:induction false} FollowThenFinish(chunks: seq<string>, rest: string, thinking: bool, tools: bool)
    requires Proper(Joined(chunks) + rest)
    ensures var x := Joined(chunks) + rest;
      && Fits(Follow(chunks, thinking, tools), |Joined(chunks)|, x)
      && Scan(Follow(chunks, thinking, tools), x, tools, true) == Scan(Start(thinking), x, tools, true)
    decreases |chunks|
  {
    hide Scan, Proper, Fits;
    if chunks == [] {
      assert Joined(chunks) + rest == rest;
      StartFits(thinking, rest);
    } else {
      var front, last := chunks[..|chunks| - 1], chunks[|chunks| - 1];
      var a := Joined(chunks);
      assert Joined(front) + (last + rest) == a + rest;
      FollowThenFinish(front, last + rest, thinking, tools);
      FitsLonger(Follow(front, thinking, tools), |Joined(front)|, |a|, a + rest);
      Resume(Follow(front, thinking, tools), a, rest, tools);
    }
  }

  lemma StartFits(thinking: bool, x: string)
    requires Proper(x)
    ensures Fits(Start(thinking), 0, x)
  {
    AfterAscii(x, 0);
  }

  lemma FitsLonger(s: Status, n: nat, m: nat, x: string)
    requires Fits(s, n, x) && n <= m
    ensures Fits(s, m, x)
  {
  }

  /** However the text arrives, what has been sent at the end is what sending it
      all at once would send. */
  lemma ChunksDoNotMatter(chunks: seq<string>, thinking: bool, tools: bool)
    requires Proper(Joined(chunks))
    ensures Scan(Follow(chunks, thinking, tools), Joined(chunks), tools, true) == Scan(Start(thinking), Joined(chunks), tools, true)
  {
    hide Scan, Proper;
    assert Joined(chunks) + "" == Joined(chunks);
    FollowThenFinish(chunks, "", thinking, tools);
  }
}
