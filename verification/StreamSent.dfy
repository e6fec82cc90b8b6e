/** What a finished stream has sent, told from the text alone: with or without thinking,
    with or without tools. */
module StreamSent {
  import opened DsmlText
  import opened StreamText
  import opened Stream
  import C = StreamChunks
  import P = DsmlParse
  import S = StreamParse
  import K = StreamCalls
  import O = StreamObject
  import R = DsmlRoundTrip

  /** All that is sent of `x`. */
  function Delivered(x: string, thinking: bool, tools: bool): (o: Out) {
    Scan(Start(thinking), x, tools, true).out
  }

  /** Where the answer begins: after the reasoning, if there is to be any. */
  function AnswerFrom(x: string, thinking: bool): (n: Option<nat>)
    ensures n.Some? ==> n.value <= |x|
  {
    if !thinking then Some(0) else if S.Closed(x).None? then None else Some(S.Closed(x).value + |THINK_CLOSE|)
  }

  /** Where it ends: before the first block, without the space there, or with the text. */
  function AnswerTo(x: string, n: nat, tools: bool): (m: nat)
    requires n <= |x|
    ensures n <= m <= |x|
  {
    if tools then S.ContentEnd(x, n) else |x|
  }

  function ReasoningOf(x: string, thinking: bool): (r: string) {
    if !thinking then "" else x[S.Opened(x)..if S.Closed(x).Some? then S.Closed(x).value else |x|]
  }

  /** The status in which the answer is sent. */
  function AnswerStatus(x: string, thinking: bool): (s: Status)
    requires AnswerFrom(x, thinking).Some?
  {
    if thinking then S.Answer(x) else Start(false)
  }

  lemma ReachesAnswer(x: string, thinking: bool, tools: bool)
    requires AnswerFrom(x, thinking).Some?
    ensures var s := AnswerStatus(x, thinking);
      && s.mode == Text && s.emit == AnswerFrom(x, thinking).value && s.out == Out(ReasoningOf(x, thinking), "", map[], map[])
      && Delivered(x, thinking, tools) == Scan(s, x, tools, true).out
  {
    hide Scan, Find;
    if thinking {
      ScanStep(Start(true), x, tools, true);
      ScanStep(S.Reasoning(x), x, tools, true);
    }
  }

  lemma NeverAnswers(x: string, tools: bool)
    requires S.Closed(x).None?
    ensures Delivered(x, true, tools) == Out(ReasoningOf(x, true), "", map[], map[])
  {
    hide Scan, Find;
    ScanStep(Start(true), x, tools, true);
    ScanStep(S.Reasoning(x), x, tools, true);
  }

  /** Reasoning is the text between the think tags, content the text after them up to the first
      block, and without a block there are no calls; without thinking all text is content, and
      without tools no block is looked for. */
  lemma DeliveredIs(x: string, thinking: bool, tools: bool)
    ensures var o, n := Delivered(x, thinking, tools), AnswerFrom(x, thinking);
      && o.reasoning == ReasoningOf(x, thinking)
      && o.content == (if n.None? then "" else x[n.value..AnswerTo(x, n.value, tools)])
      && (n.None? || !tools || FindStart(x, n.value).None? ==> o.names == map[] && o.args == map[])
  {
    hide Scan, FindStart, SyntaxAt, S.Closed, ReasoningOf, Delivered;
    var n := AnswerFrom(x, thinking);
    if n.None? {
      NeverAnswers(x, tools);
    } else {
      var s := AnswerStatus(x, thinking);
      ReachesAnswer(x, thinking, tools);
      ScanStep(s, x, tools, true);
      if tools && FindStart(x, s.emit).Some? { S.StartWithin(x, s.emit); }
      var r := StepText(s, x, tools, true);
      assert r.s.out.reasoning == ReasoningOf(x, thinking) && r.s.out.content == x[s.emit..AnswerTo(x, s.emit, tools)];
      if r.Go? { S.CallsKeepText(r.s, x, tools, true); }
    }
  }

  /** Without thinking and without tools the text itself is sent. */
  lemma PlainText(x: string)
    ensures Delivered(x, false, false) == Out("", x, map[], map[])
  {
    hide Delivered;
    DeliveredIs(x, false, false);
    assert x[0..|x|] == x;
  }

  /** The same for text that arrives in chunks. */
  lemma DeliveredInChunks(chunks: seq<string>, thinking: bool, tools: bool)
    requires Proper(Joined(chunks))
    ensures var x := Joined(chunks);
      Scan(C.Follow(chunks, thinking, tools), x, tools, true).out == Delivered(x, thinking, tools)
  {
    hide Scan, Proper;
    C.ChunksDoNotMatter(chunks, thinking, tools);
  }

  /** Without thinking: the first block is the one the parser takes. */
  ghost predicate FirstIsTaken(x: string) {
    S.BlockTag(x).Some? ==> FindStart(x, 0).Some? && FindStart(x, 0).value.0 == S.BlockTag(x).value
  }

  lemma NoneFirst(x: string)
    requires S.BlockTag(x).None?
    ensures FindStart(x, 0).None?
  {
    hide FindStart, S.BlockTag, SyntaxAt, S.TagAt;
    S.BlockTagIs(x);
    var f := FindStart(x, 0);
    if f.Some? { S.StartIsTag(x, f.value.0); }
  }

  /** The calls of an answer without thinking, as in `StreamCalls.CallsStreamed`. */
  lemma PlainCalls(x: string)
    requires P.ParseMessage(x).Some? && FirstIsTaken(x)
    ensures K.SameCalls(Delivered(x, false, true), P.ParseMessage(x).value.calls) <==> K.AllKinds(x)
  {
    hide Scan, FindStart, S.BlockTag, P.FindBlock, P.ParseMessage, K.SameCalls;
    S.BlockTagIs(x);
    if S.BlockTag(x).None? { NoneFirst(x); }
    ReachesAnswer(x, false, true);
    K.CallsFrom(Start(false), x);
  }

  /** What the parser looks for reasoning in. */
  function BeforeBlock(x: string): (s: string) {
    var f := P.FindBlock(x, 0);
    if f.None? then x else x[..Trim(x, 0, f.value.0)]
  }

  /** The content of an answer without thinking is what it is parsed as exactly if no reasoning
      is closed before the block, and the block the parser takes is the first. */
  lemma PlainAgrees(x: string)
    requires P.ParseMessage(x).Some?
    ensures S.Agree(Delivered(x, false, true), P.ParseMessage(x).value) <==> FirstIsTaken(x) && S.Closed(BeforeBlock(x)).None?
  {
    hide S.Closed, Delivered, P.FindBlock, P.SplitReasoning, P.ParseMessage, FirstIsTaken;
    S.MessageIs(x);
    S.SplitIs(BeforeBlock(x));
    if S.Closed(BeforeBlock(x)).None? { OpenAgrees(x); } else { ClosedDiffers(x); }
  }

  lemma OpenAgrees(x: string)
    ensures (Delivered(x, false, true).reasoning == "" && Delivered(x, false, true).content == BeforeBlock(x)) <==> FirstIsTaken(x)
  {
    hide Find, S.Closed, S.BlockTag, SyntaxAt, S.TagAt, Delivered, IsSpace, P.FindBlock, FindStart, Trim;
    S.BlockTagIs(x);
    DeliveredIs(x, false, true);
    var f := P.FindBlock(x, 0);
    if f.None? {
      NoneFirst(x);
      assert x[0..|x|] == x;
    } else {
      var p := S.BlockTag(x).value;
      var g := FirstStart(x, p, f.value.1);
      TrimSame(x, f.value.0, p);
      if g < p { S.Further(x, 0, g, p); }
      assert x[0..Trim(x, 0, g)] == x[..Trim(x, 0, g)];
    }
  }

  /** A start tag of any spelling stands at or before the one the parser takes. */
  lemma FirstStart(x: string, p: nat, k: nat) returns (g: nat)
    requires k < SYNTAXES && S.TagAt(x, p, k)
    ensures FindStart(x, 0).Some? && g == FindStart(x, 0).value.0 <= p < |x| && StartAt(x, g).Some?
  {
    hide SyntaxAt, S.TagAt, FindStart, StartAt;
    S.TagHead(x, p, k);
    S.StartIsTag(x, p);
    g := FindStart(x, 0).value.0;
  }

  /** Reasoning that is closed before the block is sent as content. */
  lemma ClosedDiffers(x: string)
    requires S.Closed(BeforeBlock(x)).Some?
    ensures var s := BeforeBlock(x);
      var e, q := S.Opened(s), S.Closed(s).value;
      Delivered(x, false, true).reasoning != s[e..q] || Delivered(x, false, true).content != s[q + |THINK_CLOSE|..]
  {
    hide Find, S.Closed, S.BlockTag, SyntaxAt, S.TagAt, Delivered, IsSpace, P.FindBlock, FindStart, Trim;
    S.BlockTagIs(x);
    DeliveredIs(x, false, true);
    var f, s := P.FindBlock(x, 0), BeforeBlock(x);
    var e, q := S.Opened(s), S.Closed(s).value;
    if f.None? {
      NoneFirst(x);
    } else if e == q {
      var p := S.BlockTag(x).value;
      var g := FirstStart(x, p, f.value.1);
      TrimSame(x, f.value.0, p);
      S.TagHead(x, p, f.value.1);
      assert x[0..Trim(x, 0, g)] == x[..Trim(x, 0, g)];
      if g < p { TagRepeats(x, g, p, s, q, Trim(x, 0, g)); }
    }
  }

  /** The text after the closed reasoning is no repetition of the text before the first tag. */
  lemma TagRepeats(x: string, g: nat, p: nat, s: string, q: nat, m: nat)
    requires g < p < |x| && x[p] == '<' && StartAt(x, g).Some? && (forall i :: 0 <= i < g ==> StartAt(x, i).None?)
    requires s == x[..Trim(x, 0, p)] && S.Closed(s) == Some(q) && q == S.Opened(s) && m <= g
    ensures x[..m] != s[q + |THINK_CLOSE|..]
  {
    hide Find, SyntaxAt, StartAt, IsSpace, Trim, S.TagAt;
    S.StartIsTag(x, g);
    var j: nat :| j < SYNTAXES && S.TagAt(x, g, j);
    var n := q + |THINK_CLOSE|;
    TagBefore(x, g, j, p);
    AfterClose(x, s, q, g, j);
    if x[..m] == s[n..] {
      TagMoves(x, s, n, g, j, m);
      S.StartIsTag(x, g - n);
    }
  }
  /** A tag before another ends before the space in front of that one. */
  lemma TagBefore(x: string, g: nat, k: nat, p: nat)
    requires S.TagAt(x, g, k) && g < p < |x| && x[p] == '<'
    ensures g + |SyntaxAt(k).toolCallsStart| <= Trim(x, 0, p)
  {
    hide SyntaxAt, IsSpace, Trim;
    var lit := SyntaxAt(k).toolCallsStart;
    S.TagHead(x, g, k);
    var i := g + |lit| - 1;
    LastAngle(k);
    R.CharsOf(x, g, lit, i);
    assert x[g..][|lit| - 1] == x[i];
    NotTrimmed(x, 0, p, i);
  }

  lemma LastAngle(k: nat)
    ensures var lit := SyntaxAt(k).toolCallsStart; lit != "" && lit[|lit| - 1] == '>' && !IsSpace('>')
  {
  }

  /** No start tag stands in the tags around empty reasoning. */
  lemma AfterClose(x: string, s: string, q: nat, g: nat, k: nat)
    requires s <= x && S.Closed(s) == Some(q) && q == S.Opened(s) && S.TagAt(x, g, k)
    ensures g >= q + |THINK_CLOSE|
  {
    hide SyntaxAt, Find, S.TagAt;
    S.CloseChars(s, q);
    S.SecondChar(x, g, k);
    S.TagHead(x, g, k);
    assert forall i :: 0 <= i < |s| ==> x[i] == s[i];
    assert q > 0 ==> q == 7 && s[..7] == THINK_OPEN;
    assert q > 0 ==> s[1] == s[..7][1] && s[2] == s[..7][2] && forall i :: 0 < i < 7 ==> s[i] == s[..7][i] != '<';
  }

  lemma TagMoves(x: string, s: string, n: nat, g: nat, k: nat, m: nat)
    requires s <= x && n <= |s| && m <= |x| && x[..m] == s[n..] && S.TagAt(x, g, k) && n <= g && g + |SyntaxAt(k).toolCallsStart| <= |s|
    ensures S.TagAt(x, g - n, k)
  {
    hide SyntaxAt;
    var lit := SyntaxAt(k).toolCallsStart;
    assert x[g..][..|lit|] == s[n..][g - n..][..|lit|] == x[..m][g - n..][..|lit|] == x[g - n..][..|lit|];
  }

  lemma TrimSame(x: string, start: nat, p: nat)
    requires start <= p <= |x| && forall i :: start <= i < p ==> IsSpace(x[i])
    ensures Trim(x, 0, start) == Trim(x, 0, p)
  {
    hide IsSpace;
    TrimIs(x, 0, start, Trim(x, 0, p));
  }

  lemma {:induction false} JoinedStarts(chunks: seq<string>, i: nat)
    requires i <= |chunks|
    ensures Joined(chunks[..i]) <= Joined(chunks)
    decreases |chunks|
  {
    if i < |chunks| {
      var front := chunks[..|chunks| - 1];
      JoinedStarts(front, i);
      assert front[..i] == chunks[..i];
    } else {
      assert chunks[..i] == chunks;
    }
  }

  /** While chunks arrive, nothing beyond the text so far counts as sent. */
  lemma SentInside(chunks: seq<string>, i: nat, thinking: bool, tools: bool)
    requires Proper(Joined(chunks)) && i <= |chunks|
    ensures var s := C.Follow(chunks[..i], thinking, tools); s.mode == Thinking || s.mode == Text ==> s.emit <= |Joined(chunks[..i])|
  {
    hide Scan, Proper;
    JoinedStarts(chunks, i);
    var a := Joined(chunks[..i]);
    var rest := Joined(chunks)[|a|..];
    assert a + rest == Joined(chunks);
    C.FollowThenFinish(chunks[..i], rest, thinking, tools);
  }

  /** A stream that is fed the chunks of a text and then finished has sent what the text says. */
  method Feed(chunks: seq<string>, thinking: bool, tools: bool) returns (o: Out)
    requires Proper(Joined(chunks))
    ensures o == Delivered(Joined(chunks), thinking, tools)
  {
    hide Scan, Proper, Start;
    var st := new O.OpenaiStream(thinking);
    var i, text := 0, "";
    while i < |chunks|
      invariant 0 <= i <= |chunks| && text == Joined(chunks[..i]) && st.Value() == C.Follow(chunks[..i], thinking, tools) && fresh(st)
    {
      assert chunks[..i + 1][..i] == chunks[..i];
      SentInside(chunks, i, thinking, tools);
      text := text + chunks[i];
      st.Update(text, tools, false);
      i := i + 1;
    }
    SentInside(chunks, i, thinking, tools);
    assert chunks[..i] == chunks;
    DeliveredInChunks(chunks, thinking, tools);
    st.Update(text, tools, true);
    o := st.out;
  }
}
