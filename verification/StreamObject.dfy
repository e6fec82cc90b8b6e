/** The object that follows one streamed answer. */
module StreamObject {
  import opened DsmlText
  import opened StreamText
  import opened Json
  import opened Stream

  class OpenaiStream {
    var mode: Mode
    var emit: nat
    var checked: bool
    var tool: Tool
    var out: Out

    function Value(): (s: Status)
      reads this
    {
      Status(mode, emit, checked, tool, out)
    }

    constructor (thinking: bool)
      ensures Value() == Start(thinking)
    {
      mode := if thinking then Thinking else Text;
      emit, checked, tool, out := 0, false, NO_TOOL, Nothing();
    }

    /** Skip an opening tag once it is known whether there is one. */
    method FollowOpen(raw: string, final: bool) returns (more: bool)
      requires mode == Thinking && emit <= |raw|
      modifies this`emit, this`checked
      ensures more == checked && emit <= |raw|
      ensures old(checked) ==> Value() == old(Value())
      ensures !old(checked) ==> CheckOpen(old(Value()), raw, final) == if more then Go(Value()) else Stop(Value())
    {
      if !checked {
        if |raw| < |THINK_OPEN| && raw <= THINK_OPEN && !final { return false; }
        if |raw| >= |THINK_OPEN| && raw[..|THINK_OPEN|] == THINK_OPEN { emit := |THINK_OPEN|; }
        checked := true;
      }
      more := true;
    }

    method FollowThinking(raw: string, final: bool) returns (more: bool)
      requires mode == Thinking && checked && emit <= |raw|
      modifies this`mode, this`emit, this`out
      ensures StepThinking(old(Value()), raw, final) == if more then Go(Value()) else Stop(Value())
      ensures more ==> mode == Text && emit <= |raw|
    {
      hide Utf8Safe, Find;
      var close := FindLit(raw, emit, THINK_CLOSE);
      var limit := |raw|;
      if close.Some? {
        limit := close.value;
        FullInside(raw, limit, THINK_CLOSE);
      } else if !final {
        var hold := |THINK_CLOSE| - 1;
        limit := if |raw| > hold then |raw| - hold else emit;
        limit := Utf8SafeLen(raw, emit, limit, false);
      }
      ReasonNothing(out);
      if limit > emit {
        out := Reason(out, raw[emit..limit]);
        emit := limit;
      }
      if close.Some? {
        emit := close.value + |THINK_CLOSE|;
        mode := Text;
        return true;
      }
      if final { mode := Suppress; }
      more := false;
    }

    method FollowText(raw: string, tools: bool, final: bool)
      requires mode == Text && emit <= |raw|
      modifies this`mode, this`emit, this`out, this`tool
      ensures StepText(old(Value()), raw, tools, final) == if mode == Calls then Go(Value()) else Stop(Value())
    {
      hide FindStart, TextLimit, SyntaxAt;
      var start := None;
      if tools { start := FindToolStart(raw, emit); }
      var limit := TextSafeLimit(raw, emit, tools, final);
      if limit > emit {
        out := Tell(out, raw[emit..limit]);
        emit := limit;
      }
      if start.Some? {
        emit := start.value.0;
        tool := NO_TOOL.(syn := start.value.1, pos := emit + |SyntaxAt(start.value.1).toolCallsStart|, active := true);
        mode := Calls;
      } else if final {
        mode := Suppress;
      }
    }

    // ----- Tool calls -----

    /** The state once the end of the calls has been noticed. */
    function Shown(): (s: Status)
      reads this
    {
      if tool.active then Value() else Value().(mode := Suppress)
    }

    method SkipSpaces(raw: string, ghost tools: bool, ghost final: bool)
      requires mode == Calls && tool.active && (tool.state == BetweenInvokes || tool.state == BetweenParams)
      modifies this`tool
      ensures Scan(Value(), raw, tools, final) == Scan(old(Value()), raw, tools, final)
      ensures tool == old(tool).(pos := tool.pos) && old(tool.pos) <= tool.pos
      ensures tool.pos < |raw| ==> !IsSpace(raw[tool.pos])
    {
      hide Scan, SyntaxAt, Full, Partial, Find, Attr, IsSpace, Arg;
      while tool.pos < |raw| && IsSpace(raw[tool.pos])
        invariant tool == old(tool).(pos := tool.pos) && old(tool.pos) <= tool.pos
        invariant Scan(Value(), raw, tools, final) == Scan(old(Value()), raw, tools, final)
      {
        ScanStep(Value(), raw, tools, final);
        tool := tool.(pos := tool.pos + 1);
      }
    }

    method FailCalls()
      modifies this`tool
      ensures tool == old(tool).(active := false, state := ToolError)
    {
      tool := tool.(active := false, state := ToolError);
    }

    method BeginInvoke(raw: string) returns (more: bool)
      requires mode == Calls && tool.active && tool.pos < |raw|
      modifies this`tool, this`out
      ensures StartInvoke(old(Value()), raw) == if more then Go(Shown()) else Stop(Value())
      ensures !more ==> tool.active
    {
      hide Find, Attr, Arg;
      var q := FindLit(raw, tool.pos, ">");
      if q.None? { return false; }
      AngleFound(raw, tool.pos);
      var name := Attr(raw[tool.pos..q.value + 1], "name");
      if name.None? {
        FailCalls();
        return true;
      }
      out := Arg(Open(out, tool.index, name.value), tool.index, "{");
      tool := tool.(emittedAny := true, argsOpen := true, firstParam := true, pos := q.value + 1, state := BetweenParams);
      more := true;
    }

    method FollowInvokes(raw: string) returns (more: bool)
      requires mode == Calls && tool.active && tool.pos < |raw| && !IsSpace(raw[tool.pos])
      modifies this`tool, this`out
      ensures StepInvokes(old(Value()), raw) == if more then Go(Shown()) else Stop(Value())
      ensures !more ==> tool.active
    {
      hide SyntaxAt, Full, Partial, StartInvoke, IsSpace;
      var tags := SyntaxAt(tool.syn);
      more := true;
      if Full(raw, tool.pos, tags.toolCallsEnd) {
        tool := tool.(pos := tool.pos + |tags.toolCallsEnd|, active := false, state := ToolDone);
      } else if Partial(raw, tool.pos, tags.toolCallsEnd) || Partial(raw, tool.pos, tags.invokeStart) {
        more := false;
      } else if Full(raw, tool.pos, tags.invokeStart) {
        more := BeginInvoke(raw);
      } else {
        FailCalls();
      }
    }

    method BeginParam(raw: string) returns (more: bool)
      requires mode == Calls && tool.active && tool.pos < |raw|
      modifies this`tool, this`out
      ensures StartParam(old(Value()), raw) == if more then Go(Shown()) else Stop(Value())
      ensures !more ==> tool.active
    {
      hide Find, Attr, Arg, Prefix;
      var q := FindLit(raw, tool.pos, ">");
      if q.None? { return false; }
      AngleFound(raw, tool.pos);
      var tag := raw[tool.pos..q.value + 1];
      var name, kind := Attr(tag, "name"), Attr(tag, "string");
      if name.None? || kind.None? {
        FailCalls();
        return true;
      }
      var isString := kind.value == "true";
      out := Arg(out, tool.index, Prefix(tool, name.value, isString));
      tool := tool.(firstParam := false, isString := isString, pos := q.value + 1, state := ParamValue);
      more := true;
    }

    method FollowParams(raw: string) returns (more: bool)
      requires mode == Calls && tool.active && tool.pos < |raw| && !IsSpace(raw[tool.pos])
      modifies this`tool, this`out
      ensures StepParams(old(Value()), raw) == if more then Go(Shown()) else Stop(Value())
      ensures !more ==> tool.active
    {
      hide SyntaxAt, Full, Partial, StartParam, IsSpace, Arg;
      var tags := SyntaxAt(tool.syn);
      more := true;
      if Full(raw, tool.pos, tags.invokeEnd) {
        if tool.argsOpen { out := Arg(out, tool.index, "}"); }
        tool := tool.(argsOpen := false, pos := tool.pos + |tags.invokeEnd|, index := tool.index + 1, state := BetweenInvokes);
      } else if Partial(raw, tool.pos, tags.invokeEnd) || Partial(raw, tool.pos, tags.paramStart) {
        more := false;
      } else if Full(raw, tool.pos, tags.paramStart) {
        more := BeginParam(raw);
      } else {
        FailCalls();
      }
    }

    method SendValue(t: string)
      modifies this`out
      ensures out == Arg(old(out), tool.index, Stream.Value(tool.isString, t))
    {
      hide Arg;
      var text := t;
      if tool.isString {
        var plain := UnescapeText(t);
        text := EscapeText(plain);
      }
      out := Arg(out, tool.index, text);
    }

    method FollowValue(raw: string) returns (more: bool)
      requires mode == Calls && tool.active && tool.pos < |raw|
      modifies this`tool, this`out
      ensures StepValue(old(Value()), raw) == if more then Go(Shown()) else Stop(Value())
      ensures !more ==> tool.active
    {
      hide SyntaxAt, Find, Full, ParamSafe, Arg, Stream.Value;
      var close := SyntaxAt(tool.syn).paramEnd;
      var e := FindLit(raw, tool.pos, close);
      if e.Some? {
        FullInside(raw, e.value, close);
        SendValue(raw[tool.pos..e.value]);
        if tool.isString { out := Arg(out, tool.index, "\""); }
        tool := tool.(pos := e.value + |close|, state := BetweenParams);
        return true;
      }
      var limit := ParamSafeLen(raw, tool.pos, close, tool.isString);
      SafeInside(raw, tool.pos, close, tool.isString);
      if limit > tool.pos {
        SendValue(raw[tool.pos..limit]);
        tool := tool.(pos := limit);
      }
      more := false;
    }

    method FollowOne(raw: string) returns (more: bool)
      requires mode == Calls && tool.active && tool.pos < |raw|
      requires tool.state == BetweenInvokes || tool.state == BetweenParams ==> !IsSpace(raw[tool.pos])
      modifies this`tool, this`out
      ensures StepCalls(old(Value()), raw) == if more then Go(Shown()) else Stop(Value())
      ensures !more ==> tool.active
    {
      hide StepInvokes, StepParams, StepValue, IsSpace;
      more := false;
      if tool.state == BetweenInvokes {
        more := FollowInvokes(raw);
      } else if tool.state == BetweenParams {
        more := FollowParams(raw);
      } else if tool.state == ParamValue {
        more := FollowValue(raw);
      }
    }

    method FollowCalls(raw: string, ghost tools: bool, ghost final: bool)
      requires mode == Calls
      modifies this`tool, this`out
      ensures Shown() == Scan(old(Value()), raw, tools, final)
    {
      hide Scan, StepCalls, IsSpace, Advances;
      ghost var s := Value();
      if !tool.active { Inactive(s, raw, tools, final); }
      while tool.active && tool.pos < |raw|
        invariant Scan(Shown(), raw, tools, final) == Scan(s, raw, tools, final)
        decreases tool.active, |raw| - tool.pos
      {
        if tool.state == BetweenInvokes || tool.state == BetweenParams { SkipSpaces(raw, tools, final); }
        ghost var t := Value();
        ScanStep(t, raw, tools, final);
        if tool.pos >= |raw| { break; }
        CallsProgress(t, raw);
        var more := FollowOne(raw);
        if !more { return; }
        GoesOn(t, Shown(), raw);
      }
      AtRest(Shown(), raw, tools, final);
    }

    /** Send what the text so far allows; with `final`, all that is left. */
    method Update(raw: string, tools: bool, final: bool)
      requires mode == Thinking || mode == Text ==> emit <= |raw|
      modifies this
      ensures Value() == Scan(old(Value()), raw, tools, final)
    {
      hide Scan, CheckOpen, StepThinking, StepText, StepCalls;
      ScanStep(Value(), raw, tools, final);
      if mode == Thinking {
        var more := FollowOpen(raw, final);
        if !more { return; }
        ScanStep(Value(), raw, tools, final);
        more := FollowThinking(raw, final);
        if !more { return; }
      }
      if mode == Text {
        ScanStep(Value(), raw, tools, final);
        FollowText(raw, tools, final);
      }
      if mode == Calls {
        FollowCalls(raw, tools, final);
        if !tool.active { mode := Suppress; }
      }
    }
  }

  lemma Inactive(s: Status, raw: string, tools: bool, final: bool)
    requires s.mode == Calls && !s.tool.active
    ensures Scan(s, raw, tools, final) == Scan(s.(mode := Suppress), raw, tools, final)
  {
  }

  lemma AtRest(s: Status, raw: string, tools: bool, final: bool)
    requires s.mode == Suppress || (s.mode == Calls && s.tool.active && s.tool.pos >= |raw|)
    ensures Scan(s, raw, tools, final) == s
  {
  }

  lemma GoesOn(s: Status, t: Status, raw: string)
    requires s.mode == Calls && Advances(s, Go(t), raw)
    ensures t.mode == Suppress || s.tool.pos < t.tool.pos
  {
  }

  lemma ReasonNothing(o: Out)
    ensures Reason(o, "") == o
  {
    assert o.reasoning + "" == o.reasoning;
  }
}
