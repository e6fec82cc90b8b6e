/** The chat prompt.  Every turn is rendered anew from the whole history, and what the
    server has already evaluated must be a prefix of it. */
module ChatPrompt {
  import opened DsmlText
  import opened DsmlRender

  /** `raw` is the remembered text of the calls, if there is one. */
  datatype Message = Message(role: string, content: string, reasoning: string, raw: string, calls: seq<Call>)

  /** What a request sets: whether the model thinks, the text put first for the longest
      thinking, and the text that describes the tools; both may be empty. */
  datatype Setup = Setup(think: bool, preface: string, tools: string)

  const LOW := ['\U{E2}', '\U{96}', '\U{81}']

  function Begin(): (s: string) {
    "<" + BAR + "begin" + LOW + "of" + LOW + "sentence" + BAR + ">"
  }

  function End(): (s: string) {
    "<" + BAR + "end" + LOW + "of" + LOW + "sentence" + BAR + ">"
  }

  function UserTag(): (s: string) {
    "<" + BAR + "User" + BAR + ">"
  }

  function AssistantTag(): (s: string) {
    "<" + BAR + "Assistant" + BAR + ">"
  }

  // ----- Roles -----

  datatype Role = System | User | Tool | Assistant | Ignored

  function RoleOf(role: string): (r: Role) {
    if role == "system" || role == "developer" then System
    else if role == "user" then User
    else if role == "tool" || role == "function" then Tool
    else if role == "assistant" then Assistant
    else Ignored
  }

  predicate Asks(m: Message) {
    var r := RoleOf(m.role); r == User || r == Tool
  }

  predicate UsesTools(m: Message) {
    var r := RoleOf(m.role); (r == Assistant && m.calls != []) || r == Tool
  }

  predicate ToolContext(msgs: seq<Message>, tools: string) {
    tools != "" || exists i :: 0 <= i < |msgs| && UsesTools(msgs[i])
  }

  method UsesToolContext(msgs: seq<Message>, tools: string) returns (r: bool)
    ensures r == ToolContext(msgs, tools)
  {
    if tools != "" { return true; }
    for i := 0 to |msgs|
      invariant forall j :: 0 <= j < i ==> !UsesTools(msgs[j])
    {
      if UsesTools(msgs[i]) { return true; }
    }
    r := false;
  }

  // ----- The specification -----

  /** The system messages, with an empty line between them. */
  function SystemText(msgs: seq<Message>): (r: string) {
    if msgs == [] then ""
    else
      var n := |msgs| - 1;
      var s := SystemText(msgs[..n]);
      if RoleOf(msgs[n].role) == System then Spaced(s) + msgs[n].content else s
  }

  function Spaced(s: string): (r: string) {
    if s != "" then s + "\n\n" else s
  }

  function Head(msgs: seq<Message>, setup: Setup): (r: string) {
    var s := SystemText(msgs);
    Begin() + setup.preface + if setup.tools != "" then Spaced(s) + setup.tools else s
  }

  /** The place of the last message from the user or a tool; -1 for none. */
  function LastUser(msgs: seq<Message>): (r: int)
    ensures -1 <= r < |msgs|
  {
    if msgs == [] then -1 else if Asks(msgs[|msgs| - 1]) then |msgs| - 1 else LastUser(msgs[..|msgs| - 1])
  }

  /** An answer is due. */
  function Waits(msgs: seq<Message>): (r: bool) {
    if msgs == [] then false
    else
      var m := msgs[|msgs| - 1];
      Asks(m) || (RoleOf(m.role) != Assistant && Waits(msgs[..|msgs| - 1]))
  }

  /** The last that was said is the result of a tool. */
  function WaitsTool(msgs: seq<Message>): (r: bool) {
    if msgs == [] then false
    else
      var m := msgs[|msgs| - 1];
      var r := RoleOf(m.role);
      r == Tool || (r != Assistant && r != User && WaitsTool(msgs[..|msgs| - 1]))
  }

  function TextChar(c: char): (r: string) {
    if c == '&' then "&amp;" else if c == '<' then "&lt;" else if c == '>' then "&gt;" else [c]
  }

  function TextEscaped(s: string): (r: string) {
    if s == "" then "" else TextEscaped(s[..|s| - 1]) + TextChar(s[|s| - 1])
  }

  function CallsText(m: Message): (r: string) {
    if m.calls == [] then "" else if m.raw != "" then m.raw else Block(m.calls)
  }

  /** What stands before an answer; `opens` says that its reasoning is shown. */
  function AnswerHead(m: Message, think: bool, opens: bool): (r: string) {
    AssistantTag() + if think && opens then THINK_OPEN + m.reasoning + THINK_CLOSE else THINK_CLOSE
  }

  function AnswerText(m: Message, waits: bool, think: bool, opens: bool): (r: string) {
    (if waits then AnswerHead(m, think, opens) else "") + m.content + CallsText(m) + End()
  }

  function ToolText(m: Message, waitsTool: bool): (r: string) {
    (if waitsTool then "" else UserTag()) + "<tool_result>" + TextEscaped(m.content) + "</tool_result>"
  }

  function One(m: Message, waits: bool, waitsTool: bool, think: bool, opens: bool): (r: string) {
    match RoleOf(m.role)
    case User => UserTag() + m.content
    case Tool => ToolText(m, waitsTool)
    case Assistant => AnswerText(m, waits, think, opens)
    case _ => ""
  }

  function Body(msgs: seq<Message>, think: bool, context: bool, last: int): (r: string) {
    if msgs == [] then ""
    else
      var n := |msgs| - 1;
      Body(msgs[..n], think, context, last) + One(msgs[n], Waits(msgs[..n]), WaitsTool(msgs[..n]), think, context || n > last)
  }

  function Tail(waits: bool, think: bool): (r: string) {
    if waits then AssistantTag() + (if think then THINK_OPEN else THINK_CLOSE) else ""
  }

  function Prompt(msgs: seq<Message>, setup: Setup): (r: string) {
    Head(msgs, setup) + Body(msgs, setup.think, ToolContext(msgs, setup.tools), LastUser(msgs)) + Tail(Waits(msgs), setup.think)
  }

  // ----- The renderer -----

  method AppendTextEscaped(b: string, s: string) returns (r: string)
    ensures r == b + TextEscaped(s)
  {
    hide TextChar;
    r := b;
    for i := 0 to |s|
      invariant r == b + TextEscaped(s[..i])
    {
      assert s[..i + 1][..i] == s[..i];
      r := r + TextChar(s[i]);
    }
    assert s[..|s|] == s;
  }

  method RenderSystem(msgs: seq<Message>) returns (s: string, last: int)
    ensures s == SystemText(msgs) && last == LastUser(msgs)
  {
    s, last := "", -1;
    for i := 0 to |msgs|
      invariant s == SystemText(msgs[..i])
    {
      assert msgs[..i + 1][..i] == msgs[..i];
      if RoleOf(msgs[i].role) == System {
        if s != "" { s := s + "\n\n"; }
        s := s + msgs[i].content;
      }
    }
    for i := 0 to |msgs|
      invariant last == LastUser(msgs[..i])
    {
      assert msgs[..i + 1][..i] == msgs[..i];
      if Asks(msgs[i]) { last := i; }
    }
    assert msgs[..|msgs|] == msgs;
  }

  method RenderTool(b: string, m: Message, waitsTool: bool) returns (out: string)
    ensures out == b + ToolText(m, waitsTool)
  {
    hide UserTag, TextEscaped;
    out := b;
    if !waitsTool { out := out + UserTag(); }
    out := out + "<tool_result>";
    out := AppendTextEscaped(out, m.content);
    out := out + "</tool_result>";
  }

  method RenderAnswer(b: string, m: Message, waits: bool, think: bool, opens: bool) returns (out: string)
    ensures out == b + AnswerText(m, waits, think, opens)
  {
    hide AssistantTag, End, Block;
    out := b;
    if waits {
      out := out + AssistantTag();
      if think && opens {
        out := out + THINK_OPEN;
        out := out + m.reasoning;
        out := out + THINK_CLOSE;
      } else {
        out := out + THINK_CLOSE;
      }
    }
    assert out == b + if waits then AnswerHead(m, think, opens) else "";
    out := out + m.content;
    out := AppendCalls(out, m.raw, m.calls);
    out := out + End();
  }

  /** One message, given what came before. */
  method RenderOne(b: string, m: Message, waits: bool, waitsTool: bool, think: bool, opens: bool) returns (out: string, waitsNow: bool, waitsToolNow: bool)
    ensures out == b + One(m, waits, waitsTool, think, opens)
    ensures waitsNow == (Asks(m) || (RoleOf(m.role) != Assistant && waits))
    ensures waitsToolNow == (RoleOf(m.role) == Tool || (RoleOf(m.role) != Assistant && RoleOf(m.role) != User && waitsTool))
  {
    hide RoleOf, UserTag, ToolText, AnswerText;
    out, waitsNow, waitsToolNow := b, waits, waitsTool;
    match RoleOf(m.role) {
      case User =>
        out := out + UserTag();
        out := out + m.content;
        waitsNow, waitsToolNow := true, false;
      case Tool =>
        out := RenderTool(out, m, waitsTool);
        waitsNow, waitsToolNow := true, true;
      case Assistant =>
        out := RenderAnswer(out, m, waits, think, opens);
        waitsNow, waitsToolNow := false, false;
      case _ =>
    }
  }

  method RenderHead(system: string, setup: Setup) returns (out: string)
    ensures out == Begin() + setup.preface + if setup.tools != "" then Spaced(system) + setup.tools else system
  {
    hide Begin;
    var s := system;
    if setup.tools != "" {
      if s != "" { s := s + "\n\n"; }
      s := s + setup.tools;
    }
    out := Begin();
    out := out + setup.preface;
    out := out + s;
  }

  method RenderBody(b: string, msgs: seq<Message>, think: bool, context: bool, last: int) returns (out: string, waits: bool)
    ensures out == b + Body(msgs, think, context, last) && waits == Waits(msgs)
  {
    hide One, RoleOf;
    out, waits := b, false;
    var waitsTool := false;
    for i := 0 to |msgs|
      invariant out == b + Body(msgs[..i], think, context, last)
      invariant waits == Waits(msgs[..i]) && waitsTool == WaitsTool(msgs[..i])
    {
      assert msgs[..i + 1][..i] == msgs[..i];
      out, waits, waitsTool := RenderOne(out, msgs[i], waits, waitsTool, think, context || i > last);
    }
    assert msgs[..|msgs|] == msgs;
  }

  method Render(msgs: seq<Message>, setup: Setup) returns (out: string)
    ensures out == Prompt(msgs, setup)
  {
    hide Begin, SystemText, LastUser, ToolContext, AssistantTag, Body, Waits;
    var context := UsesToolContext(msgs, setup.tools);
    var system, last := RenderSystem(msgs);
    out := RenderHead(system, setup);
    var waits;
    out, waits := RenderBody(out, msgs, setup.think, context, last);
    if waits {
      out := out + AssistantTag();
      out := out + if setup.think then THINK_OPEN else THINK_CLOSE;
    }
  }

  // ----- Longer histories -----

  /** The text that completes the prompt to the turn it asked for. */
  function Suffix(think: bool, m: Message): (r: string) {
    (if think then m.reasoning + THINK_CLOSE else "") + m.content + CallsText(m) + End()
  }

  method CheckpointSuffix(think: bool, content: string, reasoning: string, raw: string, calls: seq<Call>) returns (r: string)
    ensures r == Suffix(think, Message("assistant", content, reasoning, raw, calls))
  {
    hide End, Block;
    r := "";
    if think {
      r := r + reasoning;
      r := r + THINK_CLOSE;
    }
    r := r + content;
    r := AppendCalls(r, raw, calls);
    r := r + End();
  }

  /** The later messages add nothing to the system text: none is a system message, but
      for empty ones when that text is empty. */
  ghost predicate SystemStays(a: seq<Message>, b: seq<Message>) {
    forall i :: 0 <= i < |b| && RoleOf(b[i].role) == System ==> SystemText(a) == "" && b[i].content == ""
  }

  /** Some message is an answer to a question. */
  ghost predicate Answered(msgs: seq<Message>) {
    exists i :: 0 <= i < |msgs| && RoleOf(msgs[i].role) == Assistant && Waits(msgs[..i])
  }

  lemma {:induction false} SystemSame(a: seq<Message>, b: seq<Message>)
    ensures SystemText(a + b) == SystemText(a) <==> SystemStays(a, b)
    ensures |SystemText(a + b)| >= |SystemText(a)|
  {
    hide RoleOf;
    if b == [] {
      assert a + b == a;
    } else {
      var n := |b| - 1;
      SystemSame(a, b[..n]);
      assert (a + b)[..|a| + n] == a + b[..n];
    }
  }

  lemma {:induction false} BodyMore(a: seq<Message>, b: seq<Message>, think: bool, context: bool, last: int)
    ensures Body(a, think, context, last) <= Body(a + b, think, context, last)
  {
    hide One, RoleOf, Waits, WaitsTool;
    if b == [] {
      assert a + b == a;
    } else {
      var n := |b| - 1;
      BodyMore(a, b[..n], think, context, last);
      assert (a + b)[..|a| + n] == a + b[..n];
    }
  }

  /** While an answer is due, every assistant message is before the last question. */
  lemma {:induction false} AnswersBefore(msgs: seq<Message>, i: nat)
    requires Waits(msgs) && i < |msgs| && RoleOf(msgs[i].role) == Assistant
    ensures i < LastUser(msgs)
  {
    hide RoleOf;
    var n := |msgs| - 1;
    if !Asks(msgs[n]) {
      assert i < n;
      AnswersBefore(msgs[..n], i);
    }
  }

  /** The same answers show their reasoning in both renderings. */
  ghost predicate SameOpening(msgs: seq<Message>, c: bool, k: int, d: bool, l: int) {
    forall i :: 0 <= i < |msgs| && RoleOf(msgs[i].role) == Assistant && Waits(msgs[..i]) ==> ((c || i > k) <==> (d || i > l))
  }

  lemma {:induction false} BodySame(msgs: seq<Message>, think: bool, c: bool, k: int, d: bool, l: int)
    requires !think || SameOpening(msgs, c, k, d, l)
    ensures Body(msgs, think, c, k) == Body(msgs, think, d, l)
  {
    hide RoleOf, Waits, WaitsTool;
    if msgs != [] {
      var n := |msgs| - 1;
      assert forall i :: 0 <= i < n ==> msgs[..n][..i] == msgs[..i];
      BodySame(msgs[..n], think, c, k, d, l);
      OneSame(msgs[n], Waits(msgs[..n]), WaitsTool(msgs[..n]), think, c || n > k, d || n > l);
    }
  }

  lemma OneSame(m: Message, waits: bool, waitsTool: bool, think: bool, o: bool, p: bool)
    requires !think || o == p || !(RoleOf(m.role) == Assistant && waits)
    ensures One(m, waits, waitsTool, think, o) == One(m, waits, waitsTool, think, p)
  {
    hide RoleOf, AssistantTag, End, CallsText, ToolText, UserTag;
  }

  /** Tool context shows reasoning that was left out, and so makes the text longer. */
  lemma {:induction false} BodyLonger(msgs: seq<Message>, last: int)
    requires forall i :: 0 <= i < |msgs| && RoleOf(msgs[i].role) == Assistant ==> i <= last
    ensures |Body(msgs, true, false, last)| <= |Body(msgs, true, true, last)|
    ensures Answered(msgs) ==> |Body(msgs, true, false, last)| < |Body(msgs, true, true, last)|
  {
    hide RoleOf, Waits, WaitsTool, One;
    if msgs != [] {
      var n := |msgs| - 1;
      assert forall i :: 0 <= i < n ==> msgs[..n][..i] == msgs[..i];
      BodyLonger(msgs[..n], last);
      OneLonger(msgs[n], Waits(msgs[..n]), WaitsTool(msgs[..n]), n > last);
    }
  }

  lemma OneLonger(m: Message, waits: bool, waitsTool: bool, opens: bool)
    requires RoleOf(m.role) == Assistant ==> !opens
    ensures |One(m, waits, waitsTool, true, opens)| <= |One(m, waits, waitsTool, true, true)|
    ensures RoleOf(m.role) == Assistant && waits ==> |One(m, waits, waitsTool, true, opens)| < |One(m, waits, waitsTool, true, true)|
  {
    hide RoleOf, AssistantTag, End, CallsText, ToolText, UserTag;
  }

  lemma {:induction false} LastUserMore(a: seq<Message>, b: seq<Message>)
    ensures (exists i :: 0 <= i < |b| && Asks(b[i])) ==> LastUser(a + b) >= |a|
    ensures (forall i :: 0 <= i < |b| ==> !Asks(b[i])) ==> LastUser(a + b) == LastUser(a)
  {
    hide Asks;
    if b == [] {
      assert a + b == a;
    } else {
      var n := |b| - 1;
      LastUserMore(a, b[..n]);
      assert (a + b)[..|a| + n] == a + b[..n];
    }
  }

  // ----- Checkpoints -----

  /** The prompt and then the turn that answers it. */
  lemma AnswerAdds(msgs: seq<Message>, setup: Setup, m: Message)
    requires RoleOf(m.role) == Assistant && Waits(msgs)
    ensures var all, t, d := msgs + [m], setup.think, ToolContext(msgs + [m], setup.tools);
      && Prompt(msgs, setup) + Suffix(t, m) == Head(msgs, setup) + (Body(msgs, t, ToolContext(msgs, setup.tools), LastUser(msgs)) + AnswerText(m, true, t, true))
      && Prompt(all, setup) == Head(msgs, setup) + (Body(msgs, t, d, LastUser(msgs)) + AnswerText(m, true, t, true))
  {
    hide Suffix, AnswerText, ToolContext, Body, LastUser, Head, Tail, RoleOf, Waits;
    var all, t := msgs + [m], setup.think;
    var h, b := Head(msgs, setup), Body(msgs, t, ToolContext(msgs, setup.tools), LastUser(msgs));
    AnswerIs(t, m);
    assert h + b + Tail(true, t) + Suffix(t, m) == h + (b + (Tail(true, t) + Suffix(t, m)));
    AnswerHeads(msgs, setup, m);
    AnswerBody(msgs, t, ToolContext(all, setup.tools), m);
    assert Prompt(all, setup) == h + Body(all, t, ToolContext(all, setup.tools), LastUser(all)) + Tail(false, t);
    assert Tail(false, t) == "" by { NoTail(t); }
  }

  lemma NoTail(think: bool)
    ensures Tail(false, think) == ""
  {
  }

  lemma AnswerHeads(msgs: seq<Message>, setup: Setup, m: Message)
    requires RoleOf(m.role) == Assistant
    ensures Head(msgs + [m], setup) == Head(msgs, setup) && !Waits(msgs + [m]) && LastUser(msgs + [m]) == LastUser(msgs)
  {
    hide Begin, Spaced, SystemText, LastUser;
    AnswerNoSystem(msgs, m);
    AssistantDoesNotAsk(m);
    LastUserMore(msgs, [m]);
  }

  lemma AnswerBody(msgs: seq<Message>, think: bool, context: bool, m: Message)
    requires RoleOf(m.role) == Assistant && Waits(msgs)
    ensures Body(msgs + [m], think, context, LastUser(msgs)) == Body(msgs, think, context, LastUser(msgs)) + AnswerText(m, true, think, true)
  {
    hide AnswerText, ToolText, LastUser, Waits, WaitsTool;
    assert (msgs + [m])[..|msgs|] == msgs;
    BodyLast(msgs + [m], think, context, LastUser(msgs));
  }

  lemma AnswerNoSystem(msgs: seq<Message>, m: Message)
    requires RoleOf(m.role) == Assistant
    ensures SystemText(msgs + [m]) == SystemText(msgs)
  {
    SystemSame(msgs, [m]);
  }

  lemma BodyLast(msgs: seq<Message>, think: bool, context: bool, last: int)
    requires msgs != []
    ensures var n := |msgs| - 1;
      Body(msgs, think, context, last) == Body(msgs[..n], think, context, last) + One(msgs[n], Waits(msgs[..n]), WaitsTool(msgs[..n]), think, context || n > last)
  {
  }

  lemma AnswerIs(think: bool, m: Message)
    ensures Tail(true, think) + Suffix(think, m) == AnswerText(m, true, think, true)
  {
    hide AssistantTag, End, CallsText;
  }

  /** With tools, the prompt and the rewritten turn are the rendering of the history with
      that turn, unless the turn is the first use of tools and an older answer exists. */
  lemma ToolCheckpoint(msgs: seq<Message>, setup: Setup, m: Message)
    requires RoleOf(m.role) == Assistant && Waits(msgs)
    ensures Prompt(msgs, setup) + Suffix(setup.think, m) == Prompt(msgs + [m], setup)
       <==> !setup.think || (ToolContext(msgs, setup.tools) <==> ToolContext(msgs + [m], setup.tools)) || !Answered(msgs)
  {
    hide RoleOf, Prompt, Suffix, Head, Body, AnswerText, Waits;
    var c, d, l, t := ToolContext(msgs, setup.tools), ToolContext(msgs + [m], setup.tools), LastUser(msgs), setup.think;
    AnswerAdds(msgs, setup, m);
    forall i | 0 <= i < |msgs| && RoleOf(msgs[i].role) == Assistant ensures i < l { AnswersBefore(msgs, i); }
    if !t || c == d || !Answered(msgs) {
      BodySame(msgs, t, c, l, d, l);
    } else {
      assert c ==> d by { if c { ContextLater(msgs, [m], setup.tools); } }
      BodyLonger(msgs, l);
    }
  }

  function Said(role: string, content: string): (m: Message) {
    Message(role, content, "", "", [])
  }

  /** A question, an answer and a question: the first tool turn after them brings the
      reasoning of the answer back, so what was evaluated no longer starts the prompt. */
  lemma FirstToolTurnDiffers(a: string, b: string, c: string, preface: string, m: Message)
    requires RoleOf(m.role) == Assistant && m.calls != []
    ensures var msgs, setup := [Said("user", a), Said("assistant", b), Said("user", c)], Setup(true, preface, "");
      Waits(msgs) && Prompt(msgs, setup) + Suffix(true, m) != Prompt(msgs + [m], setup)
  {
    hide Prompt, Suffix;
    var msgs, setup := [Said("user", a), Said("assistant", b), Said("user", c)], Setup(true, preface, "");
    assert msgs[..1] == [Said("user", a)];
    assert RoleOf(msgs[1].role) == Assistant && Waits(msgs[..1]);
    assert !ToolContext(msgs, "");
    assert UsesTools((msgs + [m])[3]);
    ToolCheckpoint(msgs, setup, m);
  }

  /** What the finished turn is rewritten to when its reasoning is not kept. */
  function Rewritten(prompt: string, content: string): (r: string) {
    (if |prompt| >= |THINK_OPEN| then prompt[..|prompt| - |THINK_OPEN|] else "") + THINK_CLOSE + content + End()
  }

  ghost predicate ToolFree(msgs: seq<Message>, setup: Setup) {
    !ToolContext(msgs, setup.tools)
  }

  lemma ToolFreePart(a: seq<Message>, b: seq<Message>, setup: Setup)
    requires ToolFree(a + b, setup)
    ensures ToolFree(a, setup) && (forall i :: 0 <= i < |b| ==> !UsesTools(b[i]))
  {
    hide UsesTools;
    assert forall i :: 0 <= i < |a| ==> (a + b)[i] == a[i];
    assert forall i :: 0 <= i < |b| ==> (a + b)[|a| + i] == b[i];
  }

  /** A later prompt starts with the head, the older messages and the turn. */
  lemma LaterStarts(msgs: seq<Message>, setup: Setup, m: Message, more: seq<Message>)
    requires RoleOf(m.role) == Assistant && Waits(msgs) && SystemStays(msgs, more)
    ensures var all := msgs + [m] + more;
      var c, l, t := ToolContext(all, setup.tools), LastUser(all), setup.think;
      Head(msgs, setup) + (Body(msgs, t, c, l) + AnswerText(m, true, t, c || |msgs| > l)) <= Prompt(all, setup)
  {
    hide RoleOf, AnswerText, ToolText, ToolContext, Body, LastUser, WaitsTool, SystemText, Begin, Spaced, Tail;
    var some := msgs + [m];
    var all := some + more;
    var c, l, t := ToolContext(all, setup.tools), LastUser(all), setup.think;
    SystemSame(msgs, [m]);
    SystemSame(some, more);
    assert some[..|msgs|] == msgs;
    BodyLast(some, t, c, l);
    BodyMore(some, more, t, c, l);
    PrefixMore(Head(msgs, setup), Body(some, t, c, l), Body(all, t, c, l), Tail(Waits(all), t));
  }

  lemma PrefixMore(h: string, a: string, b: string, tail: string)
    requires a <= b
    ensures h + a <= h + b + tail
  {
  }

  lemma RewrittenIs(msgs: seq<Message>, setup: Setup, content: string)
    requires setup.think && Waits(msgs)
    ensures var b := Body(msgs, true, ToolContext(msgs, setup.tools), LastUser(msgs));
      Rewritten(Prompt(msgs, setup), content) == Head(msgs, setup) + (b + (AssistantTag() + (THINK_CLOSE + content + End())))
  {
    hide AssistantTag, End, Head, Body, ToolContext, LastUser, Waits;
    var b := Body(msgs, true, ToolContext(msgs, setup.tools), LastUser(msgs));
    var p := Prompt(msgs, setup);
    assert p == (Head(msgs, setup) + b + AssistantTag()) + THINK_OPEN;
    assert p[..|p| - |THINK_OPEN|] == Head(msgs, setup) + b + AssistantTag();
  }

  /** Without tools, the prompt with its turn rewritten starts every later prompt that
      asks again, and no later prompt that does not. */
  lemma ThinkCheckpoint(msgs: seq<Message>, setup: Setup, m: Message, more: seq<Message>)
    requires setup.think && RoleOf(m.role) == Assistant && Waits(msgs)
    requires SystemStays(msgs, more) && ToolFree(msgs + [m] + more, setup)
    ensures Rewritten(Prompt(msgs, setup), m.content) <= Prompt(msgs + [m] + more, setup) <==> exists i :: 0 <= i < |more| && Asks(more[i])
  {
    hide RoleOf, Prompt, Rewritten, Head, Body, Waits, SystemStays, ToolContext, Asks, LastUser, AnswerText, AssistantTag, End;
    ToolFreePart(msgs + [m], more, setup);
    ToolFreePart(msgs, [m], setup);
    assert m.calls == [] by {
      assert [m][0] == m;
      NoCalls(m);
    }
    RewrittenIs(msgs, setup, m.content);
    LaterStarts(msgs, setup, m, more);
    LaterBody(msgs, m, more);
    var x, all := Head(msgs, setup), msgs + [m] + more;
    var b := Body(msgs, true, false, LastUser(msgs));
    if exists i :: 0 <= i < |more| && Asks(more[i]) {
      ClosedAnswer(m);
    } else {
      OpenAnswer(m);
      assert x + (b + (AssistantTag() + (THINK_CLOSE + m.content + End()))) == (x + b + AssistantTag()) + (THINK_CLOSE + (m.content + End()));
      assert x + (b + (AssistantTag() + (THINK_OPEN + (m.reasoning + THINK_CLOSE + m.content + End())))) == (x + b + AssistantTag()) + (THINK_OPEN + (m.reasoning + THINK_CLOSE + m.content + End()));
      OpenIsNotClosed(x + b + AssistantTag(), m.content + End(), m.reasoning + THINK_CLOSE + m.content + End(), Prompt(all, setup));
    }
  }

  lemma NoCalls(m: Message)
    requires RoleOf(m.role) == Assistant && !UsesTools(m)
    ensures m.calls == []
  {
  }

  /** Older answers stay as they are, and the new one shows its reasoning until a question follows. */
  lemma LaterBody(msgs: seq<Message>, m: Message, more: seq<Message>)
    requires RoleOf(m.role) == Assistant && Waits(msgs)
    ensures var l, k := LastUser(msgs), LastUser(msgs + [m] + more);
      && Body(msgs, true, false, k) == Body(msgs, true, false, l)
      && (|msgs| > k <==> !exists i :: 0 <= i < |more| && Asks(more[i]))
  {
    hide RoleOf, Body, Waits, Asks, LastUser;
    var l, k := LastUser(msgs), LastUser(msgs + [m] + more);
    AssistantDoesNotAsk(m);
    LastUserMore(msgs, [m]);
    LastUserMore(msgs + [m], more);
    forall i | 0 <= i < |msgs| && RoleOf(msgs[i].role) == Assistant ensures i < l { AnswersBefore(msgs, i); }
    BodySame(msgs, true, false, k, false, l);
  }

  lemma ClosedAnswer(m: Message)
    requires m.calls == []
    ensures AnswerText(m, true, true, false) == AssistantTag() + (THINK_CLOSE + m.content + End())
  {
    hide AssistantTag, End;
  }

  lemma OpenAnswer(m: Message)
    requires m.calls == []
    ensures AnswerText(m, true, true, true) == AssistantTag() + (THINK_OPEN + (m.reasoning + THINK_CLOSE + m.content + End()))
  {
    hide AssistantTag, End;
  }

  lemma AssistantDoesNotAsk(m: Message)
    requires RoleOf(m.role) == Assistant
    ensures !Asks(m)
  {
  }

  lemma OpenIsNotClosed(x: string, a: string, b: string, p: string)
    requires x + (THINK_OPEN + b) <= p
    ensures !(x + (THINK_CLOSE + a) <= p)
  {
    assert (x + (THINK_OPEN + b))[|x| + 1] == 't' && (x + (THINK_CLOSE + a))[|x| + 1] == '/';
  }

  /** With tools, or without thinking, every later prompt starts with what was evaluated. */
  lemma NextPromptExtends(msgs: seq<Message>, setup: Setup, m: Message, more: seq<Message>)
    requires RoleOf(m.role) == Assistant && Waits(msgs) && SystemStays(msgs, more)
    requires !setup.think || ToolContext(msgs, setup.tools)
    ensures Prompt(msgs, setup) + Suffix(setup.think, m) <= Prompt(msgs + [m] + more, setup)
  {
    hide RoleOf, Prompt, Suffix, Head, Body, AnswerText, Waits, SystemStays, LastUser;
    var all, t := msgs + [m] + more, setup.think;
    AnswerAdds(msgs, setup, m);
    LaterStarts(msgs, setup, m, more);
    if t {
      ContextLater(msgs, [m] + more, setup.tools);
      assert msgs + ([m] + more) == all;
    }
    BodySame(msgs, t, ToolContext(msgs, setup.tools), LastUser(msgs), ToolContext(all, setup.tools), LastUser(all));
    AnswerOpens(m, t, ToolContext(all, setup.tools) || |msgs| > LastUser(all));
  }

  lemma ContextLater(msgs: seq<Message>, more: seq<Message>, tools: string)
    requires ToolContext(msgs, tools)
    ensures ToolContext(msgs + more, tools)
  {
    hide UsesTools;
    if tools == "" {
      var i :| 0 <= i < |msgs| && UsesTools(msgs[i]);
      assert (msgs + more)[i] == msgs[i];
    }
  }

  lemma AnswerOpens(m: Message, think: bool, opens: bool)
    requires !think || opens
    ensures AnswerText(m, true, think, opens) == AnswerText(m, true, think, true)
  {
  }

  lemma SystemLast(msgs: seq<Message>, m: Message)
    ensures SystemText(msgs + [m]) == if RoleOf(m.role) == System then Spaced(SystemText(msgs)) + m.content else SystemText(msgs)
  {
    assert (msgs + [m])[..|msgs|] == msgs;
  }

  /** A body whose first message is a question after a system message. */
  lemma BodyStarts(msgs: seq<Message>, think: bool, context: bool, last: int)
    requires |msgs| == 2 && RoleOf(msgs[0].role) == System && RoleOf(msgs[1].role) == User
    ensures var b := Body(msgs, think, context, last); b != "" && b[0] == '<'
  {
    hide RoleOf, Waits, WaitsTool, AnswerText, ToolText;
    BodyLast(msgs, think, context, last);
    BodyLast(msgs[..1], think, context, last);
    assert msgs[..1][..0] == [];
  }

  /** A system message that comes later is moved to the front, so what was evaluated no
      longer starts the prompt. */
  lemma LaterSystemDiffers(s: string, a: string, t: string, m: Message, setup: Setup)
    requires s != "" && setup.tools == "" && RoleOf(m.role) == Assistant
    ensures var msgs := [Said("system", s), Said("user", a)];
      !(Prompt(msgs, setup) <= Prompt(msgs + [m] + [Said("system", t)], setup))
  {
    hide Begin, Tail, Body, ToolContext, LastUser, Waits, SystemText;
    var first, second, last := Said("system", s), Said("user", a), Said("system", t);
    var msgs := [first, second];
    var all := msgs + [m] + [last];
    assert SystemText(msgs) == s && SystemText(all) == s + "\n\n" + t by {
      assert [] + [first] == [first] && [first] + [second] == msgs && SystemText([]) == "" by { SystemNone(); }
      SystemLast([], first);
      SystemLast([first], second);
      SystemLast(msgs, m);
      SystemLast(msgs + [m], last);
    }
    BodyStarts(msgs, setup.think, ToolContext(msgs, ""), LastUser(msgs));
    var h := Begin() + setup.preface + s;
    assert Head(msgs, setup) == h && Head(all, setup) == h + ("\n\n" + t);
    assert Prompt(msgs, setup)[|h|] == '<';
    assert Prompt(all, setup)[|h|] == '\n';
  }

  lemma SystemNone()
    ensures SystemText([]) == ""
  {
  }
}
