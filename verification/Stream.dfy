/** Turning generated text into the deltas of a streamed answer: reasoning, content
    and, for each tool call, its name and the text of its arguments. */
module Stream {
  import opened DsmlText
  import opened StreamText
  import opened Json
  import T = DsmlTracker

  // ----- What has been sent -----

  datatype Out = Out(reasoning: string, content: string, names: map<nat, string>, args: map<nat, string>)

  function Nothing(): (o: Out) {
    Out("", "", map[], map[])
  }

  function Reason(o: Out, t: string): (r: Out) {
    o.(reasoning := o.reasoning + t)
  }

  function Tell(o: Out, t: string): (r: Out) {
    o.(content := o.content + t)
  }

  function Open(o: Out, i: nat, name: string): (r: Out) {
    o.(names := o.names[i := name])
  }

  /** A fragment of arguments; an empty one is not sent. */
  function Arg(o: Out, i: nat, t: string): (r: Out) {
    if t == "" then o else o.(args := o.args[i := (if i in o.args then o.args[i] else "") + t])
  }

  lemma ReasonTwice(o: Out, u: string, v: string)
    ensures Reason(Reason(o, u), v) == Reason(o, u + v)
  {
    assert o.reasoning + u + v == o.reasoning + (u + v);
  }

  lemma TellTwice(o: Out, u: string, v: string)
    ensures Tell(Tell(o, u), v) == Tell(o, u + v)
  {
    assert o.content + u + v == o.content + (u + v);
  }

  lemma ArgTwice(o: Out, i: nat, u: string, v: string)
    ensures Arg(Arg(o, i, u), i, v) == Arg(o, i, u + v)
  {
    var w := if i in o.args then o.args[i] else "";
    assert w + u + v == w + (u + v);
    if u == "" { assert u + v == v; }
    if v == "" { assert u + v == u; }
    if u != "" && v != "" {
      assert o.args[i := w + u][i := w + u + v] == o.args[i := w + u + v];
    }
  }

  // ----- State -----

  datatype Mode = Thinking | Text | Calls | Suppress

  datatype ToolState = BetweenInvokes | BetweenParams | ParamValue | ToolDone | ToolError

  datatype Tool = Tool(state: ToolState, syn: nat, pos: nat, index: nat, active: bool, emittedAny: bool, argsOpen: bool, firstParam: bool, isString: bool)

  datatype Status = Status(mode: Mode, emit: nat, checked: bool, tool: Tool, out: Out)

  const NO_TOOL := Tool(BetweenInvokes, 0, 0, 0, false, false, false, false, false)

  function Start(thinking: bool): (s: Status) {
    Status(if thinking then Thinking else Text, 0, false, NO_TOOL, Nothing())
  }

  datatype Next = Go(s: Status) | Stop(s: Status)

  function Cut(raw: string, i: nat, j: nat): (r: string) {
    if i <= j <= |raw| then raw[i..j] else ""
  }

  // ----- Reasoning -----

  function CheckOpen(s: Status, raw: string, final: bool): (r: Next) {
    if |raw| < |THINK_OPEN| && raw <= THINK_OPEN && !final then Stop(s)
    else Go(s.(checked := true, emit := if THINK_OPEN <= raw then |THINK_OPEN| else s.emit))
  }

  function ReasonLimit(raw: string, emit: nat): (r: nat) {
    var hold := |THINK_CLOSE| - 1;
    var limit := if |raw| > hold then |raw| - hold else emit;
    if limit <= |raw| then Utf8Safe(raw, emit, limit) else limit
  }

  function StepThinking(s: Status, raw: string, final: bool): (r: Next) {
    var q := Find(raw, s.emit, THINK_CLOSE);
    if q.Some? then Go(s.(mode := Text, emit := q.value + |THINK_CLOSE|, out := Reason(s.out, Cut(raw, s.emit, q.value))))
    else if final then Stop(s.(mode := Suppress, emit := if |raw| > s.emit then |raw| else s.emit, out := Reason(s.out, Cut(raw, s.emit, |raw|))))
    else
      var limit := ReasonLimit(raw, s.emit);
      if limit > s.emit then Stop(s.(emit := limit, out := Reason(s.out, Cut(raw, s.emit, limit)))) else Stop(s)
  }

  // ----- Content -----

  function StepText(s: Status, raw: string, tools: bool, final: bool): (r: Next) {
    var f := if tools then FindStart(raw, s.emit) else None;
    var limit := TextLimit(raw, s.emit, tools, final);
    var sent := if limit > s.emit then s.(emit := limit, out := Tell(s.out, Cut(raw, s.emit, limit))) else s;
    if f.Some? then
      var at := f.value.0 + |SyntaxAt(f.value.1).toolCallsStart|;
      Go(sent.(mode := Calls, emit := f.value.0, tool := NO_TOOL.(syn := f.value.1, pos := at, active := true)))
    else if final then Stop(sent.(mode := Suppress))
    else Stop(sent)
  }

  // ----- Tool calls -----

  function Fail(s: Status): (r: Status) {
    s.(mode := Suppress, tool := s.tool.(active := false, state := ToolError))
  }

  function MoveTo(s: Status, p: nat): (r: Status) {
    s.(tool := s.tool.(pos := p))
  }

  function Fragment(s: Status, t: string): (r: Status) {
    s.(out := Arg(s.out, s.tool.index, t))
  }

  function StartInvoke(s: Status, raw: string): (r: Next)
    requires s.tool.pos <= |raw|
  {
    var q := Find(raw, s.tool.pos, ">");
    if q.None? then Stop(s)
    else
      var name := Attr(Cut(raw, s.tool.pos, q.value + 1), "name");
      if name.None? then Go(Fail(s))
      else
        var o := Arg(Open(s.out, s.tool.index, name.value), s.tool.index, "{");
        Go(s.(out := o, tool := s.tool.(emittedAny := true, argsOpen := true, firstParam := true, pos := q.value + 1, state := BetweenParams)))
  }

  function StepInvokes(s: Status, raw: string): (r: Next)
    requires s.tool.pos < |raw|
  {
    var p, y := s.tool.pos, SyntaxAt(s.tool.syn);
    if IsSpace(raw[p]) then Go(MoveTo(s, p + 1))
    else if Full(raw, p, y.toolCallsEnd) then
      Go(s.(mode := Suppress, tool := s.tool.(pos := p + |y.toolCallsEnd|, active := false, state := ToolDone)))
    else if Partial(raw, p, y.toolCallsEnd) || Partial(raw, p, y.invokeStart) then Stop(s)
    else if Full(raw, p, y.invokeStart) then StartInvoke(s, raw)
    else Go(Fail(s))
  }

  function Prefix(t: Tool, name: string, isString: bool): (r: string) {
    (if t.firstParam then "" else ",") + JsonString(name) + ":" + (if isString then "\"" else "")
  }

  function StartParam(s: Status, raw: string): (r: Next)
    requires s.tool.pos <= |raw|
  {
    var q := Find(raw, s.tool.pos, ">");
    if q.None? then Stop(s)
    else
      var tag := Cut(raw, s.tool.pos, q.value + 1);
      var name, kind := Attr(tag, "name"), Attr(tag, "string");
      if name.None? || kind.None? then Go(Fail(s))
      else
        var isString := kind.value == "true";
        var t := s.tool.(firstParam := false, isString := isString, pos := q.value + 1, state := ParamValue);
        Go(Fragment(s, Prefix(s.tool, name.value, isString)).(tool := t))
  }

  function StepParams(s: Status, raw: string): (r: Next)
    requires s.tool.pos < |raw|
  {
    var p, y := s.tool.pos, SyntaxAt(s.tool.syn);
    if IsSpace(raw[p]) then Go(MoveTo(s, p + 1))
    else if Full(raw, p, y.invokeEnd) then
      var t := s.tool.(argsOpen := false, pos := p + |y.invokeEnd|, index := s.tool.index + 1, state := BetweenInvokes);
      Go((if s.tool.argsOpen then Fragment(s, "}") else s).(tool := t))
    else if Partial(raw, p, y.invokeEnd) || Partial(raw, p, y.paramStart) then Stop(s)
    else if Full(raw, p, y.paramStart) then StartParam(s, raw)
    else Go(Fail(s))
  }

  /** A value as it stands in the arguments. */
  function Value(isString: bool, t: string): (r: string) {
    if isString then JsonText(Unescape(t)) else t
  }

  function ValueEnd(s: Status, raw: string, e: nat): (r: Status) {
    var u := Fragment(s, Value(s.tool.isString, Cut(raw, s.tool.pos, e)));
    (if s.tool.isString then Fragment(u, "\"") else u).(tool := s.tool.(pos := e + |SyntaxAt(s.tool.syn).paramEnd|, state := BetweenParams))
  }

  function ValueSoFar(s: Status, raw: string, limit: nat): (r: Status) {
    if limit > s.tool.pos then MoveTo(Fragment(s, Value(s.tool.isString, Cut(raw, s.tool.pos, limit))), limit) else s
  }

  function StepValue(s: Status, raw: string): (r: Next)
    requires s.tool.pos < |raw|
  {
    var p, close := s.tool.pos, SyntaxAt(s.tool.syn).paramEnd;
    var e := Find(raw, p, close);
    if e.Some? then Go(ValueEnd(s, raw, e.value))
    else Stop(ValueSoFar(s, raw, ParamSafe(raw, p, close, s.tool.isString)))
  }

  function StepCalls(s: Status, raw: string): (r: Next) {
    if !s.tool.active then Stop(s.(mode := Suppress))
    else if s.tool.pos >= |raw| then Stop(s)
    else match s.tool.state
      case BetweenInvokes => StepInvokes(s, raw)
      case BetweenParams => StepParams(s, raw)
      case ParamValue => StepValue(s, raw)
      case _ => Stop(s)
  }

  function Step(s: Status, raw: string, tools: bool, final: bool): (r: Next) {
    match s.mode
    case Thinking => if s.checked then StepThinking(s, raw, final) else CheckOpen(s, raw, final)
    case Text => StepText(s, raw, tools, final)
    case Calls => StepCalls(s, raw)
    case Suppress => Stop(s)
  }

  // ----- An update -----

  function Rank(s: Status): (n: nat) {
    match s.mode
    case Thinking => if s.checked then 3 else 4
    case Text => 2
    case Calls => 1
    case Suppress => 0
  }

  /** A step inside the calls moves on or ends them. */
  predicate Advances(s: Status, r: Next, raw: string) {
    r.Go? ==> r.s.mode == Suppress || (r.s.mode == s.mode && s.tool.pos < r.s.tool.pos <= |raw|)
  }

  lemma AngleFound(raw: string, p: nat)
    requires Find(raw, p, ">").Some?
    ensures p <= Find(raw, p, ">").value < |raw|
  {
  }

  lemma InvokesProgress(s: Status, raw: string)
    requires s.tool.pos < |raw|
    ensures Advances(s, StepInvokes(s, raw), raw)
  {
    hide SyntaxAt, Attr, Find, IsSpace, Arg, Full, Partial;
    T.TagLengths(s.tool.syn);
    if Find(raw, s.tool.pos, ">").Some? { AngleFound(raw, s.tool.pos); }
  }

  lemma StartParamProgress(s: Status, raw: string)
    requires s.tool.pos < |raw|
    ensures Advances(s, StartParam(s, raw), raw)
  {
    hide Attr, Find, Arg, Prefix;
    if Find(raw, s.tool.pos, ">").Some? { AngleFound(raw, s.tool.pos); }
  }

  lemma ParamsProgress(s: Status, raw: string)
    requires s.tool.pos < |raw|
    ensures Advances(s, StepParams(s, raw), raw)
  {
    hide SyntaxAt, IsSpace, Arg, Full, Partial, StartParam;
    var close := SyntaxAt(s.tool.syn).invokeEnd;
    T.TagLengths(s.tool.syn);
    if Full(raw, s.tool.pos, close) { FullInside(raw, s.tool.pos, close); }
    StartParamProgress(s, raw);
  }

  lemma ValueProgress(s: Status, raw: string)
    requires s.tool.pos < |raw|
    ensures Advances(s, StepValue(s, raw), raw)
  {
    hide SyntaxAt, Find, Arg, Full, Value, ParamSafe;
    var close := SyntaxAt(s.tool.syn).paramEnd;
    var e := Find(raw, s.tool.pos, close);
    T.TagLengths(s.tool.syn);
    if e.Some? { FullInside(raw, e.value, close); }
  }

  lemma CallsProgress(s: Status, raw: string)
    ensures Advances(s, StepCalls(s, raw), raw)
  {
    hide StepInvokes, StepParams, StepValue;
    if s.tool.pos < |raw| {
      InvokesProgress(s, raw);
      ParamsProgress(s, raw);
      ValueProgress(s, raw);
    }
  }

  lemma Progress(s: Status, raw: string, tools: bool, final: bool)
    requires Step(s, raw, tools, final).Go?
    ensures var t := Step(s, raw, tools, final).s;
      Rank(t) < Rank(s) || (Rank(t) == Rank(s) == 1 && s.tool.pos < t.tool.pos <= |raw|)
  {
    hide StepCalls, Utf8Safe, Find, FindStart, SyntaxAt, TextLimit;
    if s.mode == Calls { CallsProgress(s, raw); }
  }

  function Scan(s: Status, raw: string, tools: bool, final: bool): (r: Status)
    decreases Rank(s), if s.tool.pos <= |raw| then |raw| - s.tool.pos else 0
  {
    match Step(s, raw, tools, final)
    case Stop(t) => t
    case Go(t) => Progress(s, raw, tools, final); Scan(t, raw, tools, final)
  }

  lemma ScanStep(s: Status, raw: string, tools: bool, final: bool)
    ensures var r := Step(s, raw, tools, final); Scan(s, raw, tools, final) == if r.Go? then Scan(r.s, raw, tools, final) else r.s
  {
    hide Step;
  }
}
