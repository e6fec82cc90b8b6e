/** What is streamed against what the whole text is parsed as. */
module StreamParse {
  import opened DsmlText
  import opened StreamText
  import opened Stream
  import C = StreamChunks
  import P = DsmlParse
  import R = DsmlRender
  import D = DsmlRoundTrip
  import T = DsmlTracker

  // ----- Where reasoning begins and ends -----

  function Opened(x: string): (e: nat)
    ensures e <= |x|
  {
    if THINK_OPEN <= x then |THINK_OPEN| else 0
  }

  function Closed(x: string): (q: Option<nat>)
    ensures q.Some? ==> Opened(x) <= q.value && q.value + |THINK_CLOSE| <= |x|
  {
    var q := Find(x, Opened(x), THINK_CLOSE);
    if q.Some? then FullInside(x, q.value, THINK_CLOSE); q else q
  }

  lemma {:induction false} FindShift(x: string, k: nat, i: nat, lit: string)
    requires k <= |x|
    ensures var r, q := Find(x[k..], i, lit), Find(x, k + i, lit);
      (r.Some? <==> q.Some?) && (r.Some? ==> q.value == k + r.value)
    decreases |x| - i
  {
    if i <= |x| - k {
      assert x[k..][i..] == x[k + i..];
      FindShift(x, k, i + 1, lit);
    }
  }

  lemma SplitIs(s: string)
    ensures var e, q := Opened(s), Closed(s);
      P.SplitReasoning(s) == if q.Some? then (s[q.value + |THINK_CLOSE|..], Some(s[e..q.value])) else (s, None)
  {
    hide Find;
    var e, q := Opened(s), Closed(s);
    FindShift(s, e, 0, THINK_CLOSE);
    assert s[0..] == s;
    if q.Some? {
      assert s[e..][..q.value - e] == s[e..q.value];
      assert s[e..][q.value - e + |THINK_CLOSE|..] == s[q.value + |THINK_CLOSE|..];
    }
  }

  // ----- What the stream sends in the end -----

  lemma {:induction false} CallsKeepText(s: Status, raw: string, tools: bool, final: bool)
    requires s.mode == Calls || s.mode == Suppress
    ensures var t := Scan(s, raw, tools, final).out; t.reasoning == s.out.reasoning && t.content == s.out.content
    decreases Rank(s), if s.tool.pos <= |raw| then |raw| - s.tool.pos else 0
  {
    hide StepCalls;
    if s.mode == Calls {
      CallsStepKeeps(s, raw);
      if Step(s, raw, tools, final).Go? {
        Progress(s, raw, tools, final);
        CallsKeepText(Step(s, raw, tools, final).s, raw, tools, final);
      }
    }
  }

  predicate KeepsText(s: Status, t: Status) {
    t.out.reasoning == s.out.reasoning && t.out.content == s.out.content && (t.mode == s.mode || t.mode == Suppress)
  }

  lemma InvokesKeep(s: Status, raw: string)
    requires s.tool.pos < |raw|
    ensures KeepsText(s, StepInvokes(s, raw).s)
  {
    hide SyntaxAt, Full, Partial, Find, Attr, IsSpace, Cut;
  }

  lemma ParamsKeep(s: Status, raw: string)
    requires s.tool.pos < |raw|
    ensures KeepsText(s, StepParams(s, raw).s)
  {
    hide SyntaxAt, Full, Partial, Find, Attr, IsSpace, Cut, Prefix;
  }

  lemma ValueKeeps(s: Status, raw: string)
    requires s.tool.pos < |raw|
    ensures KeepsText(s, StepValue(s, raw).s)
  {
    hide SyntaxAt, Find, ParamSafe, Value, Cut;
  }

  lemma CallsStepKeeps(s: Status, raw: string)
    ensures KeepsText(s, StepCalls(s, raw).s)
  {
    hide StepInvokes, StepParams, StepValue;
    if s.tool.pos < |raw| {
      InvokesKeep(s, raw);
      ParamsKeep(s, raw);
      ValueKeeps(s, raw);
    }
  }

  /** The whole of `x`, looked at once. */
  function Sent(x: string): (o: Out) {
    Scan(Start(true), x, true, true).out
  }

  /** After the opening tag, if there is one. */
  function Reasoning(x: string): (s: Status) {
    Start(true).(checked := true, emit := Opened(x))
  }

  lemma SentChecked(x: string)
    ensures Sent(x) == Scan(Reasoning(x), x, true, true).out
  {
    hide Scan, StepThinking;
    ScanStep(Start(true), x, true, true);
  }

  lemma SentThinking(x: string)
    requires Closed(x).None?
    ensures Sent(x).reasoning == x[Opened(x)..] && Sent(x).content == ""
  {
    hide Scan, Find;
    SentChecked(x);
    ScanStep(Reasoning(x), x, true, true);
  }

  /** After the closing tag. */
  function Answer(x: string): (s: Status)
    requires Closed(x).Some?
  {
    var q := Closed(x).value;
    Reasoning(x).(mode := Text, emit := q + |THINK_CLOSE|, out := Reason(Nothing(), x[Opened(x)..q]))
  }

  lemma SentClosed(x: string)
    requires Closed(x).Some?
    ensures Sent(x) == Scan(Answer(x), x, true, true).out
  {
    hide Scan, Find;
    SentChecked(x);
    ScanStep(Reasoning(x), x, true, true);
  }

  /** Where the content that is sent ends. */
  function ContentEnd(x: string, n: nat): (m: nat)
    requires n <= |x|
    ensures n <= m <= |x|
  {
    var f := FindStart(x, n);
    if f.Some? then Trim(x, n, f.value.0) else |x|
  }

  lemma StartWithin(x: string, n: nat)
    requires FindStart(x, n).Some?
    ensures n < |x|
  {
    hide FindStart;
    C.StartInside(x, FindStart(x, n).value.0);
  }

  lemma SentText(x: string)
    requires Closed(x).Some?
    ensures var n := Closed(x).value + |THINK_CLOSE|;
      Sent(x).reasoning == x[Opened(x)..Closed(x).value] && Sent(x).content == x[n..ContentEnd(x, n)]
  {
    hide Scan, FindStart, SyntaxAt, Closed;
    var s, n := Answer(x), Closed(x).value + |THINK_CLOSE|;
    SentClosed(x);
    ScanStep(s, x, true, true);
    if FindStart(x, n).Some? { StartWithin(x, n); }
    var r := StepText(s, x, true, true);
    assert r.s.out.reasoning == x[Opened(x)..Closed(x).value] && r.s.out.content == x[n..ContentEnd(x, n)];
    if r.Go? { CallsKeepText(r.s, x, true, true); }
  }

  // ----- The block the parser takes -----

  /** Where the start tag of that block stands. */
  function BlockTag(x: string): (r: Option<nat>) {
    var f := P.FindBlock(x, 0);
    if f.None? then None
    else
      var at := Find(x[f.value.0..], 0, SyntaxAt(f.value.1).toolCallsStart);
      if at.None? then None else Some(f.value.0 + at.value)
  }

  predicate TagAt(x: string, i: nat, k: nat) {
    Full(x, i, SyntaxAt(k).toolCallsStart)
  }

  lemma TagHead(x: string, i: nat, k: nat)
    requires TagAt(x, i, k)
    ensures i < |x| && x[i] == '<'
    ensures forall j :: i < j < i + |SyntaxAt(k).toolCallsStart| ==> j < |x| && x[j] != '<'
  {
    hide SyntaxAt;
    var lit := SyntaxAt(k).toolCallsStart;
    T.TagAngles(k);
    T.TagLengths(k);
    assert x[i..][0] == x[i];
    forall j | i < j < i + |lit| ensures j < |x| && x[j] != '<' {
      assert x[i..][j - i] == x[j];
      assert lit[1..][j - i - 1] == lit[j - i];
    }
  }

  /** A block that begins at `start`, perhaps with two line breaks before its tag. */
  ghost predicate BlockAt(x: string, start: nat, k: nat, p: nat) {
    && start <= p <= |x| && k < SYNTAXES && TagAt(x, p, k)
    && (forall i :: start <= i < p ==> IsSpace(x[i]))
    && Find(x[start..], 0, SyntaxAt(k).toolCallsStart) == Some(p - start)
  }

  lemma BrokenBlock(x: string, start: nat, k: nat)
    requires Full(x, start, "\n\n" + SyntaxAt(k).toolCallsStart) && k < SYNTAXES
    ensures BlockAt(x, start, k, start + 2)
  {
    hide SyntaxAt, Find;
    var lit := SyntaxAt(k).toolCallsStart;
    T.TagAngles(k);
    T.TagLengths(k);
    assert x[start..][0] == x[start] == '\n' && x[start..][1] == x[start + 1] == '\n';
    assert x[start..][2..] == x[start + 2..];
    var y := x[start..];
    assert !Full(y, 0, lit) by { assert y[0..][0] == y[0]; }
    assert !Full(y, 1, lit) by { assert y[1..][0] == y[1]; }
    R.FirstFind(y, 2, lit);
  }

  lemma BareBlock(x: string, start: nat, k: nat)
    requires TagAt(x, start, k) && k < SYNTAXES
    ensures BlockAt(x, start, k, start)
  {
    hide SyntaxAt, Find;
    assert x[start..][0..] == x[start..];
    R.FirstFind(x[start..], 0, SyntaxAt(k).toolCallsStart);
  }

  lemma {:induction false} BlockFrom(x: string, k: nat)
    requires k <= SYNTAXES
    ensures var f := P.FindBlock(x, k);
      && (f.None? ==> forall i, j :: 0 <= i && k <= j < SYNTAXES ==> !TagAt(x, i, j))
      && (f.Some? ==> exists p :: BlockAt(x, f.value.0, f.value.1, p))
    decreases SYNTAXES - k
  {
    hide SyntaxAt, Find, BlockAt, Full;
    if k < SYNTAXES {
      var lit := SyntaxAt(k).toolCallsStart;
      var p, q := Find(x, 0, "\n\n" + lit), Find(x, 0, lit);
      if p.Some? { BrokenBlock(x, p.value, k); }
      else if q.Some? { BareBlock(x, q.value, k); }
      else { BlockFrom(x, k + 1); }
    }
  }

  lemma BlockTagIs(x: string)
    ensures var f, p := P.FindBlock(x, 0), BlockTag(x);
      && (f.Some? <==> p.Some?)
      && (f.None? ==> forall i, j :: 0 <= i && 0 <= j < SYNTAXES ==> !TagAt(x, i, j))
      && (f.Some? ==> BlockAt(x, f.value.0, f.value.1, p.value))
  {
    hide SyntaxAt, Find, TagAt, IsSpace;
    BlockFrom(x, 0);
    var f := P.FindBlock(x, 0);
    if f.Some? {
      var p :| BlockAt(x, f.value.0, f.value.1, p);
    }
  }

  // ----- Comparing -----

  /** Reasoning that is not there counts as empty. */
  ghost predicate Agree(o: Out, m: P.Message) {
    o.reasoning == (if m.reasoning.Some? then m.reasoning.value else "") && o.content == m.content
  }

  /** What the parser takes for reasoning and content. */
  function Parsed(x: string): (r: (string, Option<string>)) {
    var f := P.FindBlock(x, 0);
    P.SplitReasoning(if f.None? then x else x[..Trim(x, 0, f.value.0)])
  }

  lemma MessageIs(x: string)
    requires P.ParseMessage(x).Some?
    ensures var m := P.ParseMessage(x).value; m.content == Parsed(x).0 && m.reasoning == Parsed(x).1
  {
    hide P.FindBlock, P.ParseBlock, P.SplitReasoning, Trim, SyntaxAt;
  }

  lemma CloseChars(x: string, q: nat)
    requires Full(x, q, THINK_CLOSE)
    ensures q + 8 <= |x| && x[q..q + 8] == THINK_CLOSE
    ensures x[q] == '<' && x[q + 1] == '/' && x[q + 7] == '>' && forall i :: q < i < q + 8 ==> x[i] != '<'
  {
    FullAt(x, q, THINK_CLOSE);
    assert forall i :: q <= i < q + 8 ==> x[i] == x[q..q + 8][i - q];
  }

  lemma SecondChar(x: string, i: nat, k: nat)
    requires TagAt(x, i, k)
    ensures i + 2 < |x| && x[i + 1] != '/' && !(x[i + 1] == 't' && x[i + 2] == 'h')
  {
    var lit := SyntaxAt(k).toolCallsStart;
    assert |lit| > 2 && x[i..][1] == x[i + 1] && x[i..][2] == x[i + 2];
    assert lit[1] == BAR[0] || lit[1] == 'D' || (lit[1] == 't' && lit[2] == 'o');
  }

  /** A start tag lies wholly on one side of the tags around reasoning. */
  lemma TagBeside(x: string, i: nat, k: nat)
    requires TagAt(x, i, k) && Closed(x).Some?
    ensures Opened(x) <= i && (i < Closed(x).value || Closed(x).value + 8 <= i)
  {
    hide SyntaxAt, TagAt, Find;
    TagHead(x, i, k);
    SecondChar(x, i, k);
    CloseChars(x, Closed(x).value);
    if THINK_OPEN <= x { OpenChars(x); }
  }

  lemma OpenChars(x: string)
    requires THINK_OPEN <= x
    ensures x[0] == '<' && x[1] == 't' && x[2] == 'h' && forall i :: 1 <= i < 7 ==> x[i] != '<'
  {
    assert forall i :: 0 <= i < 7 ==> x[i] == THINK_OPEN[i];
  }

  lemma FullPrefix(x: string, t: nat, i: nat, lit: string)
    requires t <= |x|
    ensures Full(x[..t], i, lit) <==> Full(x, i, lit) && i + |lit| <= t
  {
    if i + |lit| <= t {
      FullAt(x, i, lit);
      FullAt(x[..t], i, lit);
      assert x[..t][i..i + |lit|] == x[i..i + |lit|];
    } else if Full(x[..t], i, lit) {
      FullInside(x[..t], i, lit);
    }
  }

  lemma ClosedIn(x: string, t: nat)
    requires Closed(x).Some? && Closed(x).value + 8 <= t <= |x|
    ensures Opened(x[..t]) == Opened(x) && Closed(x[..t]) == Closed(x)
  {
    hide Find, Full;
    var s, e, q := x[..t], Opened(x), Closed(x).value;
    assert THINK_OPEN <= s <==> THINK_OPEN <= x;
    FullPrefix(x, t, q, THINK_CLOSE);
    forall i | e <= i < q ensures !Full(s, i, THINK_CLOSE) { FullPrefix(x, t, i, THINK_CLOSE); }
    C.FindSkip(s, e, q, THINK_CLOSE);
    C.FindHere(s, q, THINK_CLOSE);
  }

  lemma ClosedOut(x: string, t: nat)
    requires t <= |x| && (Closed(x).None? || t <= Closed(x).value)
    ensures Closed(x[..t]).None?
  {
    hide Find, Full;
    var s := x[..t];
    var q := Find(s, Opened(s), THINK_CLOSE);
    if q.Some? {
      var i := q.value;
      FullPrefix(x, t, i, THINK_CLOSE);
      CloseChars(x, i);
      if THINK_OPEN <= x { OpenChars(x); }
    }
  }

  /** The text before the block, wherever one stands after the reasoning. */
  lemma ParsedBlock(x: string, n: nat)
    requires Closed(x).Some? && n == Closed(x).value + 8 && BlockTag(x).Some? && n <= BlockTag(x).value
    ensures BlockTag(x).value <= |x|
    ensures Parsed(x) == (x[n..Trim(x, n, BlockTag(x).value)], Some(x[Opened(x)..Closed(x).value]))
  {
    hide Find, Full, P.FindBlock, P.SplitReasoning, Closed, BlockTag, SyntaxAt, TagAt;
    BlockTagIs(x);
    var start, p, q := P.FindBlock(x, 0).value.0, BlockTag(x).value, Closed(x).value;
    ClosedAt(x);
    CloseChars(x, q);
    assert n <= start;
    var t := Trim(x, n, p);
    TrimIs(x, 0, start, t);
    ClosedIn(x, t);
    SplitIs(x[..t]);
    assert x[..t][n..] == x[n..t] && x[..t][Opened(x)..q] == x[Opened(x)..q];
  }

  lemma ClosedAt(x: string)
    requires Closed(x).Some?
    ensures Full(x, Closed(x).value, THINK_CLOSE)
  {
    hide Find;
  }

  /** The block the parser takes is the first one after the reasoning. */
  ghost predicate SameBlock(x: string)
    requires Closed(x).Some?
  {
    var n := Closed(x).value + |THINK_CLOSE|;
    BlockTag(x).Some? ==> FindStart(x, n).Some? && FindStart(x, n).value.0 == BlockTag(x).value
  }

  lemma NoBlock(x: string)
    requires Closed(x).Some? && BlockTag(x).None?
    ensures FindStart(x, Closed(x).value + 8).None?
    ensures Parsed(x) == (x[Closed(x).value + 8..], Some(x[Opened(x)..Closed(x).value]))
  {
    hide Find, P.FindBlock, P.SplitReasoning, Closed, BlockTag, SyntaxAt, TagAt, FindStart;
    BlockTagIs(x);
    SplitIs(x);
    var f := FindStart(x, Closed(x).value + 8);
    if f.Some? { StartIsTag(x, f.value.0); }
  }

  lemma StartIsTag(x: string, i: nat)
    ensures StartAt(x, i).Some? <==> exists k :: 0 <= k < SYNTAXES && TagAt(x, i, k)
  {
    hide SyntaxAt, Full;
    var f := StartAt(x, i);
    if f.Some? { assert TagAt(x, i, f.value); }
  }

  lemma BlockLater(x: string)
    requires Closed(x).Some? && BlockTag(x).Some? && Closed(x).value + 8 <= BlockTag(x).value
    ensures Parsed(x).1 == Some(Sent(x).reasoning)
    ensures Sent(x).content == Parsed(x).0 <==> SameBlock(x)
  {
    hide Find, Closed, BlockTag, SyntaxAt, TagAt, FindStart, Parsed, Sent, IsSpace, Trim;
    var n, p := Closed(x).value + 8, BlockTag(x).value;
    ParsedBlock(x, n);
    SentText(x);
    BlockTagIs(x);
    var k := P.FindBlock(x, 0).value.1;
    TagHead(x, p, k);
    StartIsTag(x, p);
    var f := FindStart(x, n);
    assert f.Some? && f.value.0 <= p;
    if f.value.0 < p { Further(x, n, f.value.0, p); }
  }

  lemma Further(x: string, n: nat, s: nat, p: nat)
    requires n <= s < p <= |x| && StartAt(x, s).Some?
    ensures Trim(x, n, s) <= s < Trim(x, n, p)
  {
    hide SyntaxAt, StartAt;
    T.StartHere(x, s, StartAt(x, s).value);
    NotTrimmed(x, n, p, s);
  }

  lemma BlockEarlier(x: string)
    requires Closed(x).Some? && BlockTag(x).Some? && BlockTag(x).value < Closed(x).value + 8
    ensures Sent(x).reasoning != "" && Parsed(x).1.None? && !SameBlock(x)
  {
    hide Find, Closed, BlockTag, SyntaxAt, TagAt, FindStart, Sent, IsSpace, P.FindBlock, P.SplitReasoning;
    BlockTagIs(x);
    var f := P.FindBlock(x, 0).value;
    TagBeside(x, BlockTag(x).value, f.1);
    SentText(x);
    var t := Trim(x, 0, f.0);
    ClosedOut(x, t);
    SplitIs(x[..t]);
  }

  lemma NeverClosed(x: string)
    requires Closed(x).None?
    ensures Parsed(x).1.None? && (Sent(x).reasoning == "" && Parsed(x).0 == "" <==> x == "")
  {
    hide Find, Closed, BlockTag, SyntaxAt, TagAt, Sent, IsSpace, P.FindBlock, P.SplitReasoning;
    BlockTagIs(x);
    var f := P.FindBlock(x, 0);
    var s := if f.None? then x else x[..Trim(x, 0, f.value.0)];
    if f.Some? { ClosedOut(x, Trim(x, 0, f.value.0)); TagHead(x, BlockTag(x).value, f.value.1); }
    SplitIs(s);
    SentThinking(x);
    if Opened(x) == |x| { NoTagAlone(x); }
  }

  /** Text that is nothing but an opening tag holds no block. */
  lemma NoTagAlone(x: string)
    requires Opened(x) == |x|
    ensures P.FindBlock(x, 0).None?
  {
    hide SyntaxAt, TagAt, P.FindBlock;
    BlockTagIs(x);
    var f := P.FindBlock(x, 0);
    if f.Some? {
      TagHead(x, BlockTag(x).value, f.value.1);
      SecondChar(x, BlockTag(x).value, f.value.1);
      OpenChars(x);
    }
  }

  /** With tools, what is streamed of a text that parses is what it is parsed as,
      exactly if the reasoning is closed and the block the parser takes, which
      prefers the longest spelling anywhere, is the first after it. */
  lemma StreamedIsParsed(x: string)
    requires P.ParseMessage(x).Some?
    ensures Agree(Sent(x), P.ParseMessage(x).value) <==> x == "" || (Closed(x).Some? && SameBlock(x))
  {
    hide Closed, BlockTag, FindStart, Sent, Parsed, P.ParseMessage, SameBlock;
    MessageIs(x);
    if Closed(x).None? {
      NeverClosed(x);
      SentThinking(x);
    } else if BlockTag(x).None? {
      NoBlock(x);
      SentText(x);
      NoBlockIsSame(x);
    } else if BlockTag(x).value < Closed(x).value + 8 {
      BlockEarlier(x);
    } else {
      BlockLater(x);
    }
  }

  lemma NoBlockIsSame(x: string)
    requires Closed(x).Some? && BlockTag(x).None?
    ensures SameBlock(x)
  {
    hide Closed, BlockTag, FindStart;
  }

  /** One closing tag, and no start tag but, perhaps, one after it. */
  lemma OneBlockAgrees(x: string, at: nat)
    requires P.ParseMessage(x).Some? && Closed(x).Some? && Closed(x).value + |THINK_CLOSE| <= at
    requires forall i, k :: 0 <= i && 0 <= k < SYNTAXES && TagAt(x, i, k) ==> i == at
    ensures Agree(Sent(x), P.ParseMessage(x).value)
  {
    hide Closed, BlockTag, FindStart, Sent, P.ParseMessage, SyntaxAt, TagAt, P.FindBlock, StartAt, Find;
    StreamedIsParsed(x);
    BlockTagIs(x);
    var n := Closed(x).value + |THINK_CLOSE|;
    var f, p := FindStart(x, n), BlockTag(x);
    if p.Some? {
      StartIsTag(x, at);
      StartIsTag(x, f.value.0);
    }
  }

  /** The same for text that arrives in chunks. */
  lemma StreamedInChunks(chunks: seq<string>)
    requires Proper(Joined(chunks)) && P.ParseMessage(Joined(chunks)).Some?
    ensures var x := Joined(chunks);
      Agree(Scan(C.Follow(chunks, true, true), x, true, true).out, P.ParseMessage(x).value)
      <==> x == "" || (Closed(x).Some? && SameBlock(x))
  {
    hide Scan, Proper, Closed, Agree, P.ParseMessage, SameBlock;
    C.ChunksDoNotMatter(chunks, true, true);
    StreamedIsParsed(Joined(chunks));
  }

  // ----- Where they differ -----

  const PLAIN_START := SyntaxAt(2).toolCallsStart

  lemma BlockTagOf(pre: string, y: string)
    requires Find(pre, 0, R.LONG.toolCallsStart).None? && "\n\n" + R.LONG.toolCallsStart <= y
    ensures BlockTag(pre + y) == Some(|pre| + 2)
  {
    hide SyntaxAt, Find, P.FindBlock;
    D.BlockFound(pre, y);
  }

  lemma BlockBegins(calls: seq<R.Call>, post: string)
    requires calls != []
    ensures "\n\n" + R.LONG.toolCallsStart <= R.Block(calls) + post
  {
    hide SyntaxAt, R.Block, R.CallsThen;
    D.BlockOpens(calls, post);
    D.Cuts("\n\n", R.LONG.toolCallsStart, "\n" + R.CallsThen(calls, R.LONG.toolCallsEnd + post));
  }

  lemma BlockParses(pre: string, calls: seq<R.Call>, post: string)
    requires calls != [] && Find(pre, 0, R.LONG.toolCallsStart).None?
    ensures var x := pre + (R.Block(calls) + post);
      P.ParseMessage(x).Some? && BlockTag(x) == Some(|pre| + 2) && x != ""
  {
    hide SyntaxAt, Find, P.ParseMessage, R.Block, BlockTag, P.SplitReasoning, D.ReadCalls;
    D.BlockReads(pre, calls, post);
    BlockBegins(calls, post);
    BlockTagOf(pre, R.Block(calls) + post);
  }

  /** A plain start tag before the block: the stream stops at the first tag, the
      parser takes the block. */
  lemma SpellingsDiffer(calls: seq<R.Call>, post: string)
    requires calls != []
    ensures var x := THINK_CLOSE + PLAIN_START + (R.Block(calls) + post);
      P.ParseMessage(x).Some? && !Agree(Sent(x), P.ParseMessage(x).value)
  {
    hide SyntaxAt, Find, FindStart, P.ParseMessage, R.Block, BlockTag, Sent, Agree, Closed;
    var pre := THINK_CLOSE + PLAIN_START;
    var x := pre + (R.Block(calls) + post);
    NoLongTag();
    BlockParses(pre, calls, post);
    StreamedIsParsed(x);
    ClosedFirst(x, PLAIN_START + (R.Block(calls) + post));
    PlainFirst(x, R.Block(calls) + post);
  }

  lemma NoLongTag()
    ensures Find(THINK_CLOSE + PLAIN_START, 0, R.LONG.toolCallsStart).None?
  {
    hide Find;
    var x, lit := THINK_CLOSE + PLAIN_START, R.LONG.toolCallsStart;
    assert |lit| > 1 && lit[0] == '<' && lit[1] == BAR[0];
    forall i | 0 <= i ensures !Full(x, i, lit) {
      if i + 1 < |x| { assert x[i..][1] == x[i + 1]; }
    }
  }

  lemma ClosedFirst(x: string, y: string)
    requires x == THINK_CLOSE + y
    ensures Closed(x) == Some(0)
  {
    hide Find;
    assert x[0..] == x && x[1] == '/';
    C.FindHere(x, 0, THINK_CLOSE);
  }

  lemma PlainFirst(x: string, y: string)
    requires x == THINK_CLOSE + PLAIN_START + y
    ensures FindStart(x, 8).Some? && FindStart(x, 8).value.0 == 8
  {
    hide FindStart, SyntaxAt, StartAt;
    assert x[8..] == PLAIN_START + y;
    assert TagAt(x, 8, 2);
    StartIsTag(x, 8);
  }

  /** A block inside the reasoning: the parser takes it, the stream sends it. */
  lemma ReasoningDiffers(calls: seq<R.Call>, post: string)
    requires calls != []
    ensures var x := "" + (R.Block(calls) + (THINK_CLOSE + post));
      P.ParseMessage(x).Some? && !Agree(Sent(x), P.ParseMessage(x).value)
  {
    hide SyntaxAt, FindStart, P.ParseMessage, R.Block, BlockTag, Sent, Agree, Closed;
    var x := "" + (R.Block(calls) + (THINK_CLOSE + post));
    T.TagLengths(0);
    FindShort("", 0, R.LONG.toolCallsStart);
    BlockParses("", calls, THINK_CLOSE + post);
    StreamedIsParsed(x);
  }
}
