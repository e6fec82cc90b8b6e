/** A reader of chat prompts: from the text alone it tells who said what. */
module PromptReader {
  import opened DsmlText
  import opened DsmlRender
  import opened StreamText
  import opened ChatPrompt

  // ----- Marks -----

  datatype Mark = Begins | Asking | Answering | Ending

  function TagOf(m: Mark): (t: string) {
    match m
    case Begins => ""
    case Asking => UserTag()
    case Answering => AssistantTag()
    case Ending => End()
  }

  /** The mark that the text starts with. */
  function MarkIn(x: string): (m: Option<Mark>)
    ensures m.Some? ==> m.value != Begins && TagOf(m.value) <= x
  {
    if UserTag() <= x then Some(Asking) else if AssistantTag() <= x then Some(Answering) else if End() <= x then Some(Ending) else None
  }

  predicate TagFree(x: string) {
    x == "" || (MarkIn(x).None? && TagFree(x[1..]))
  }

  /** The text before the first mark. */
  function Upto(x: string): (n: nat)
    ensures n <= |x|
  {
    if x == "" || MarkIn(x).Some? then 0 else 1 + Upto(x[1..])
  }

  datatype Segment = Segment(mark: Mark, text: string)

  /** The text between marks, each with the mark before it. */
  function Segments(mark: Mark, x: string): (r: seq<Segment>)
    ensures r != []
    decreases |x|
  {
    var n := Upto(x);
    var m := MarkIn(x[n..]);
    if m.None? then [Segment(mark, x[..n])]
    else
      TagLong(m.value);
      [Segment(mark, x[..n])] + Segments(m.value, x[n..][|TagOf(m.value)|..])
  }

  ghost predicate TagShaped(t: string) {
    |t| >= 8 && t[0] == '<' && t[1] == BAR[0] && forall i :: 1 <= i < |t| ==> t[i] != '<'
  }

  lemma UserShaped()
    ensures TagShaped(UserTag())
  {
  }

  lemma AssistantShaped()
    ensures TagShaped(AssistantTag())
  {
  }

  lemma EndShaped()
    ensures TagShaped(End())
  {
  }

  lemma TagLong(m: Mark)
    requires m != Begins
    ensures TagShaped(TagOf(m)) && |TagOf(m)| > 0
  {
    hide UserTag, AssistantTag, End;
    UserShaped();
    AssistantShaped();
    EndShaped();
  }

  // ----- Turns -----

  /** What was asked, the result of a tool, or an answer with the reasoning shown with it. */
  datatype Turn = Question(text: string) | Result(text: string) | Answer(reasoning: Option<string>, text: string)

  const RESULT_OPEN := "<tool_result>"
  const RESULT_CLOSE := "</tool_result>"

  function ReadResults(t: string): (r: seq<Turn>) {
    var e := Find(t, 0, RESULT_CLOSE);
    if !(RESULT_OPEN <= t) || e.None? || e.value < |RESULT_OPEN| then []
    else
      FullInside(t, e.value, RESULT_CLOSE);
      [Result(Unescape(t[|RESULT_OPEN|..e.value]))] + ReadResults(t[e.value + |RESULT_CLOSE|..])
  }

  function ReadAsking(t: string): (r: seq<Turn>) {
    if RESULT_OPEN <= t then ReadResults(t) else [Question(t)]
  }

  function ReadAnswer(t: string): (r: Turn) {
    if THINK_OPEN <= t then
      var q := Find(t, |THINK_OPEN|, THINK_CLOSE);
      if q.None? then Answer(None, t)
      else
        FullInside(t, q.value, THINK_CLOSE);
        Answer(Some(t[|THINK_OPEN|..q.value]), t[q.value + |THINK_CLOSE|..])
    else if THINK_CLOSE <= t then Answer(None, t[|THINK_CLOSE|..])
    else Answer(None, t)
  }

  /** A segment and the mark after it: an answer is what the end mark ends. */
  function ReadSegment(s: Segment, next: Option<Mark>): (r: seq<Turn>) {
    match s.mark
    case Asking => ReadAsking(s.text)
    case Answering => if next == Some(Ending) then [ReadAnswer(s.text)] else []
    case _ => if next == Some(Ending) then [Answer(None, s.text)] else []
  }

  function ReadSegments(s: seq<Segment>, next: Option<Mark>): (r: seq<Turn>) {
    if s == [] then []
    else ReadSegments(s[..|s| - 1], Some(s[|s| - 1].mark)) + ReadSegment(s[|s| - 1], next)
  }

  /** The turns of a prompt after its head. */
  function Turns(x: string): (r: seq<Turn>) {
    ReadSegments(Segments(Begins, x), None)
  }

  /** Whether the prompt ends by asking for an answer, and whether with reasoning. */
  function Awaited(x: string): (r: Option<bool>) {
    var s := Segments(Begins, x);
    var last := s[|s| - 1];
    if last.mark == Answering then Some(last.text == THINK_OPEN) else None
  }

  // ----- Splitting gives back what was put together -----

  function Flat(s: seq<Segment>): (x: string) {
    if s == [] then "" else TagOf(s[0].mark) + s[0].text + Flat(s[1..])
  }

  ghost predicate Marked(s: seq<Segment>) {
    forall i :: 0 <= i < |s| ==> TagFree(s[i].text) && (i > 0 ==> s[i].mark != Begins)
  }

  /** A mark cannot begin in a text without marks and end in a mark after it. */
  lemma NotAcross(t: string, y: string, m: Mark)
    requires t != "" && m != Begins && !(TagOf(m) <= t) && (y == "" || y[0] == '<')
    ensures !(TagOf(m) <= t + y)
  {
    hide TagOf;
    var tag := TagOf(m);
    TagLong(m);
    assert |t| < |tag| && y != "" ==> (t + y)[|t|] != tag[|t|];
    assert |tag| <= |t| ==> (t + y)[..|tag|] == t[..|tag|];
  }

  lemma NoneAcross(t: string, y: string)
    requires t != "" && MarkIn(t).None? && (y == "" || y[0] == '<')
    ensures MarkIn(t + y).None?
  {
    hide UserTag, AssistantTag, End;
    NotAcross(t, y, Asking);
    NotAcross(t, y, Answering);
    NotAcross(t, y, Ending);
  }

  lemma {:induction false} UptoIs(t: string, y: string)
    requires TagFree(t) && (y == "" || MarkIn(y).Some?)
    ensures Upto(t + y) == |t|
  {
    hide MarkIn, TagOf;
    if y != "" { MarkFirst(y); }
    if t == "" {
      assert t + y == y;
    } else {
      NoneAcross(t, y);
      UptoIs(t[1..], y);
      assert (t + y)[1..] == t[1..] + y;
    }
  }

  lemma MarkFirst(y: string)
    requires MarkIn(y).Some?
    ensures y != "" && y[0] == '<'
  {
    TagLong(MarkIn(y).value);
  }

  lemma MarkIs(m: Mark, y: string)
    requires m != Begins
    ensures MarkIn(TagOf(m) + y) == Some(m)
  {
    var x := TagOf(m) + y;
    assert x[4] == TagOf(m)[4];
    assert UserTag()[4] == 'U' && AssistantTag()[4] == 'A' && End()[4] == 'e';
    assert TagOf(m) <= x;
  }

  lemma {:induction false} SegmentsBack(s: seq<Segment>)
    requires s != [] && Marked(s)
    ensures Segments(s[0].mark, s[0].text + Flat(s[1..])) == s
    decreases |s|
  {
    hide MarkIn, TagOf, Upto, TagFree;
    var t, rest := s[0].text, s[1..];
    var y := Flat(rest);
    var x := t + y;
    if rest == [] {
      NoMark();
      UptoIs(t, y);
      assert x == t && x[|t|..] == "";
      assert s == [Segment(s[0].mark, t)];
    } else {
      var m := rest[0].mark;
      var z := rest[0].text + Flat(rest[1..]);
      assert y == TagOf(m) + z;
      MarkIs(m, z);
      UptoIs(t, y);
      assert x[|t|..] == y && y[|TagOf(m)|..] == z && x[..|t|] == t;
      SegmentsBack(rest);
      assert s == [s[0]] + rest;
    }
  }

  lemma NoMark()
    ensures MarkIn("").None?
  {
    TagLong(Asking);
    TagLong(Answering);
    TagLong(Ending);
  }

  // ----- A history as segments -----

  /** More text in the last segment. */
  function Longer(s: seq<Segment>, t: string): (r: seq<Segment>)
    requires s != []
  {
    s[..|s| - 1] + [Segment(s[|s| - 1].mark, s[|s| - 1].text + t)]
  }

  function ResultText(m: Message): (t: string) {
    RESULT_OPEN + TextEscaped(m.content) + RESULT_CLOSE
  }

  function AnswerShown(m: Message, think: bool, opens: bool): (t: string) {
    (if think && opens then THINK_OPEN + m.reasoning + THINK_CLOSE else THINK_CLOSE) + (m.content + CallsText(m))
  }

  function Spoken(s: seq<Segment>, m: Message, waits: bool, waitsTool: bool, think: bool, opens: bool): (r: seq<Segment>)
    requires s != []
    ensures r != []
  {
    match RoleOf(m.role)
    case User => s + [Segment(Asking, m.content)]
    case Tool => if waitsTool then Longer(s, ResultText(m)) else s + [Segment(Asking, ResultText(m))]
    case Assistant =>
      (if waits then s + [Segment(Answering, AnswerShown(m, think, opens))] else Longer(s, m.content + CallsText(m))) + [Segment(Ending, "")]
    case _ => s
  }

  function Talk(msgs: seq<Message>, think: bool, context: bool, last: int): (r: seq<Segment>)
    ensures r != []
  {
    if msgs == [] then [Segment(Begins, "")]
    else
      var n := |msgs| - 1;
      Spoken(Talk(msgs[..n], think, context, last), msgs[n], Waits(msgs[..n]), WaitsTool(msgs[..n]), think, context || n > last)
  }

  lemma {:induction false} FlatJoin(a: seq<Segment>, b: seq<Segment>)
    ensures Flat(a + b) == Flat(a) + Flat(b)
    decreases |a|
  {
    hide TagOf;
    if a == [] {
      assert a + b == b;
    } else {
      FlatJoin(a[1..], b);
      assert (a + b)[1..] == a[1..] + b;
      var u := TagOf(a[0].mark) + a[0].text;
      assert u + (Flat(a[1..]) + Flat(b)) == (u + Flat(a[1..])) + Flat(b);
    }
  }

  lemma FlatOne(g: Segment)
    ensures Flat([g]) == TagOf(g.mark) + g.text
  {
    hide TagOf;
    assert [g][1..] == [];
    assert TagOf(g.mark) + g.text + "" == TagOf(g.mark) + g.text;
  }

  lemma FlatLonger(s: seq<Segment>, t: string)
    requires s != []
    ensures Flat(Longer(s, t)) == Flat(s) + t
  {
    hide TagOf, Flat;
    var n := |s| - 1;
    var g := s[n];
    assert s == s[..n] + [g];
    FlatJoin(s[..n], [g]);
    FlatJoin(s[..n], [Segment(g.mark, g.text + t)]);
    FlatOne(g);
    FlatOne(Segment(g.mark, g.text + t));
    assert Flat(s[..n]) + (TagOf(g.mark) + (g.text + t)) == Flat(s[..n]) + (TagOf(g.mark) + g.text) + t;
  }

  lemma SpokenFlat(s: seq<Segment>, m: Message, waits: bool, waitsTool: bool, think: bool, opens: bool)
    requires s != []
    ensures Flat(Spoken(s, m, waits, waitsTool, think, opens)) == Flat(s) + One(m, waits, waitsTool, think, opens)
  {
    hide Flat, RoleOf, Longer, CallsText, TextEscaped, UserTag, AssistantTag, End;
    match RoleOf(m.role)
    case User =>
      FlatJoin(s, [Segment(Asking, m.content)]);
      FlatOne(Segment(Asking, m.content));
    case Tool =>
      if waitsTool {
        FlatLonger(s, ResultText(m));
        assert ToolText(m, true) == ResultText(m);
      } else {
        FlatJoin(s, [Segment(Asking, ResultText(m))]);
        FlatOne(Segment(Asking, ResultText(m)));
        assert ToolText(m, false) == UserTag() + ResultText(m);
      }
    case Assistant =>
      AnswerFlat(s, m, waits, think, opens);
    case _ =>
  }

  lemma AnswerFlat(s: seq<Segment>, m: Message, waits: bool, think: bool, opens: bool)
    requires s != []
    ensures var u := if waits then s + [Segment(Answering, AnswerShown(m, think, opens))] else Longer(s, m.content + CallsText(m));
      Flat(u + [Segment(Ending, "")]) == Flat(s) + AnswerText(m, waits, think, opens)
  {
    hide Flat, Longer, CallsText, AssistantTag, End;
    var g, e := Segment(Answering, AnswerShown(m, think, opens)), Segment(Ending, "");
    var u := if waits then s + [g] else Longer(s, m.content + CallsText(m));
    FlatJoin(u, [e]);
    FlatOne(e);
    FlatOne(g);
    FlatJoin(s, [g]);
    FlatLonger(s, m.content + CallsText(m));
    assert End() + "" == End();
    if waits {
      assert AnswerText(m, true, think, opens) == AssistantTag() + AnswerShown(m, think, opens) + End();
    } else {
      assert AnswerText(m, false, think, opens) == m.content + CallsText(m) + End();
    }
  }

  /** The rendered messages are the segments put together. */
  lemma {:induction false} TalkFlat(msgs: seq<Message>, think: bool, context: bool, last: int)
    ensures Flat(Talk(msgs, think, context, last)) == Body(msgs, think, context, last)
  {
    hide Spoken, One, Waits, WaitsTool, Flat;
    if msgs == [] {
      FlatOne(Segment(Begins, ""));
    } else {
      var n := |msgs| - 1;
      TalkFlat(msgs[..n], think, context, last);
      SpokenFlat(Talk(msgs[..n], think, context, last), msgs[n], Waits(msgs[..n]), WaitsTool(msgs[..n]), think, context || n > last);
    }
  }

  // ----- Texts without marks -----

  /** Every angle is followed by something that no mark has there. */
  ghost predicate Quiet(x: string) {
    forall i :: 0 <= i < |x| && x[i] == '<' ==> i + 1 < |x| && x[i + 1] != BAR[0]
  }

  lemma QuietJoin(a: string, b: string)
    requires Quiet(a) && Quiet(b)
    ensures Quiet(a + b)
  {
    var x := a + b;
    forall i | 0 <= i < |x| && x[i] == '<' ensures i + 1 < |x| && x[i + 1] != BAR[0] {
      if i >= |a| { assert x[i] == b[i - |a|]; }
    }
  }

  lemma QuietNone(x: string)
    requires x != "" && (x[0] != '<' || (|x| > 1 && x[1] != BAR[0]))
    ensures MarkIn(x).None?
  {
    hide UserTag, AssistantTag, End;
    UserShaped();
    AssistantShaped();
    EndShaped();
  }

  lemma {:induction false} QuietThen(q: string, t: string)
    requires Quiet(q) && TagFree(t)
    ensures TagFree(q + t)
  {
    hide MarkIn;
    if q == "" {
      assert q + t == t;
    } else {
      var x := q + t;
      assert x[0] == q[0] && x[1..] == q[1..] + t;
      if q[0] == '<' { assert q[1] != BAR[0] && x[1] == q[1]; }
      QuietNone(x);
      assert Quiet(q[1..]) by { assert forall i :: 0 <= i < |q| - 1 ==> q[1..][i] == q[i + 1]; }
      QuietThen(q[1..], t);
    }
  }

  lemma {:induction false} FreeThen(t: string, y: string)
    requires TagFree(t) && TagFree(y) && (y == "" || y[0] == '<')
    ensures TagFree(t + y)
  {
    hide MarkIn;
    if t == "" {
      assert t + y == y;
    } else {
      NoneAcross(t, y);
      assert (t + y)[1..] == t[1..] + y;
      FreeThen(t[1..], y);
    }
  }

  lemma Quiets()
    ensures Quiet(THINK_OPEN) && Quiet(THINK_CLOSE) && Quiet(RESULT_OPEN) && Quiet(RESULT_CLOSE)
  {
  }

  lemma {:induction false} EscapedQuiet(c: string)
    ensures Quiet(TextEscaped(c)) && forall i :: 0 <= i < |TextEscaped(c)| ==> TextEscaped(c)[i] != '<'
  {
    if c != "" { EscapedQuiet(c[..|c| - 1]); }
  }

  lemma ResultQuiet(m: Message)
    ensures Quiet(ResultText(m)) && ResultText(m) != "" && ResultText(m)[0] == '<'
  {
    hide Quiet, TextEscaped;
    Quiets();
    EscapedQuiet(m.content);
    QuietJoin(RESULT_OPEN, TextEscaped(m.content));
    QuietJoin(RESULT_OPEN + TextEscaped(m.content), RESULT_CLOSE);
  }

  /** No text of a turn holds a mark, or a tag that would be taken for another part. */
  ghost predicate Clean(turn: Turn) {
    match turn
    case Question(t) => TagFree(t) && !(RESULT_OPEN <= t)
    case Result(t) => true
    case Answer(r, t) => TagFree(t) && (r.Some? ==> TagFree(r.value) && Find(r.value, 0, THINK_CLOSE).None?)
  }

  ghost predicate AllClean(turns: seq<Turn>) {
    forall i :: 0 <= i < |turns| ==> Clean(turns[i])
  }

  lemma ShownFree(m: Message, think: bool, opens: bool)
    requires TagFree(m.content + CallsText(m)) && (think && opens ==> TagFree(m.reasoning))
    ensures TagFree(AnswerShown(m, think, opens))
  {
    hide TagFree, CallsText;
    Quiets();
    var c := m.content + CallsText(m);
    QuietThen(THINK_CLOSE, c);
    if think && opens {
      FreeThen(m.reasoning, THINK_CLOSE + c);
      QuietThen(THINK_OPEN, m.reasoning + (THINK_CLOSE + c));
    }
    assert THINK_OPEN + (m.reasoning + (THINK_CLOSE + c)) == THINK_OPEN + m.reasoning + THINK_CLOSE + c;
  }

  // ----- Reading parts back -----

  lemma EscapedLast(s: string, c: char)
    ensures TextEscaped(s + [c]) == TextEscaped(s) + TextChar(c)
  {
    hide TextChar;
    assert (s + [c])[..|s|] == s;
  }

  lemma {:induction false} EscapedMore(c: char, s: string)
    ensures TextEscaped([c] + s) == TextChar(c) + TextEscaped(s)
  {
    hide TextChar, TextEscaped;
    EscapedNone();
    if s == "" {
      EscapedLast("", c);
      assert [c] + s == "" + [c];
    } else {
      var n := |s| - 1;
      var front, last := s[..n], s[n];
      EscapedMore(c, front);
      EscapedLast(front, last);
      EscapedLast([c] + front, last);
      assert s == front + [last] && [c] + s == [c] + front + [last];
      assert TextChar(c) + (TextEscaped(front) + TextChar(last)) == (TextChar(c) + TextEscaped(front)) + TextChar(last);
    }
  }

  lemma EscapedUnit(c: char, y: string)
    ensures TextChar(c) + y != "" && UnitLength(TextChar(c) + y) == |TextChar(c)| && UnitChar(TextChar(c) + y) == c
  {
    var x := TextChar(c) + y;
    if c == '&' { assert Entity(0) <= x; }
    else if c == '<' { assert Entity(1) <= x && x[1] == 'l'; }
    else if c == '>' { assert Entity(2) <= x && x[1] == 'g'; }
    else { assert x[0] == c; }
  }

  /** A tool's result reads back as it was. */
  lemma {:induction false} EscapedBack(s: string)
    ensures Unescape(TextEscaped(s)) == s
  {
    hide TextChar, UnitLength, UnitChar, Unescape, TextEscaped;
    if s == "" {
      UnescapeEmpty();
      assert TextEscaped("") == "" by { EscapedNone(); }
    } else {
      var rest := TextEscaped(s[1..]);
      assert s == [s[0]] + s[1..];
      EscapedMore(s[0], s[1..]);
      EscapedUnit(s[0], rest);
      var x := TextChar(s[0]) + rest;
      UnescapeFirst(x);
      assert x[|TextChar(s[0])|..] == rest;
      EscapedBack(s[1..]);
    }
  }

  lemma EscapedNone()
    ensures TextEscaped("") == ""
  {
  }

  function AllResults(cs: seq<Message>): (t: string) {
    if cs == [] then "" else ResultText(cs[0]) + AllResults(cs[1..])
  }

  function ResultTurns(cs: seq<Message>): (r: seq<Turn>) {
    if cs == [] then [] else [Result(cs[0].content)] + ResultTurns(cs[1..])
  }

  /** The end of a result is where it is looked for. */
  lemma ResultEnds(m: Message, y: string)
    ensures var t := ResultText(m) + y; Find(t, 0, RESULT_CLOSE) == Some(|RESULT_OPEN| + |TextEscaped(m.content)|)
  {
    hide TextEscaped, Find;
    var e := TextEscaped(m.content);
    var t, n := ResultText(m) + y, |RESULT_OPEN| + |e|;
    EscapedQuiet(m.content);
    assert t[n..] == RESULT_CLOSE + y;
    forall i | 0 <= i < n ensures !Full(t, i, RESULT_CLOSE) {
      if i == 0 {
        assert t[0..][1] == t[1] == 't';
      } else if i < |RESULT_OPEN| {
        assert t[i..][0] == t[i] == RESULT_OPEN[i];
      } else {
        assert t[i..][0] == t[i] == e[i - |RESULT_OPEN|];
      }
    }
    FirstFind(t, n, RESULT_CLOSE);
  }

  lemma {:induction false} ResultsBack(cs: seq<Message>)
    ensures ReadResults(AllResults(cs)) == ResultTurns(cs)
  {
    hide TextEscaped, Find, Unescape;
    if cs == [] {
      assert !(RESULT_OPEN <= "");
    } else {
      var m, y := cs[0], AllResults(cs[1..]);
      var e := TextEscaped(m.content);
      var t, n := ResultText(m) + y, |RESULT_OPEN| + |TextEscaped(m.content)|;
      ResultEnds(m, y);
      ResultsBack(cs[1..]);
      assert t[|RESULT_OPEN|..n] == e && t[n + |RESULT_CLOSE|..] == y;
      EscapedBack(m.content);
      assert RESULT_OPEN <= t;
    }
  }

  lemma {:induction false} ResultsJoin(cs: seq<Message>, m: Message)
    ensures AllResults(cs + [m]) == AllResults(cs) + ResultText(m) && ResultTurns(cs + [m]) == ResultTurns(cs) + [Result(m.content)]
  {
    hide ResultText;
    if cs == [] {
      assert cs + [m] == [m] && [m][1..] == [];
      assert ResultText(m) + "" == ResultText(m) == "" + ResultText(m);
    } else {
      ResultsJoin(cs[1..], m);
      assert (cs + [m])[1..] == cs[1..] + [m];
      assert ResultText(cs[0]) + (AllResults(cs[1..]) + ResultText(m)) == (ResultText(cs[0]) + AllResults(cs[1..])) + ResultText(m);
    }
  }

  lemma OpenedBack(r: string, c: string)
    requires Find(r, 0, THINK_CLOSE).None?
    ensures ReadAnswer(THINK_OPEN + (r + (THINK_CLOSE + c))) == Answer(Some(r), c)
  {
    hide Find;
    var t, n := THINK_OPEN + (r + (THINK_CLOSE + c)), |THINK_OPEN| + |r|;
    assert t[n..] == THINK_CLOSE + c;
    forall i | |THINK_OPEN| <= i < n ensures !Full(t, i, THINK_CLOSE) {
      NoCloseIn(r, c, i - |THINK_OPEN|);
      assert t[i..] == r[i - |THINK_OPEN|..] + (THINK_CLOSE + c);
    }
    FindFrom(t, |THINK_OPEN|, n, THINK_CLOSE);
    assert t[|THINK_OPEN|..n] == r && t[n + |THINK_CLOSE|..] == c;
  }

  lemma ClosedBack(c: string)
    ensures ReadAnswer(THINK_CLOSE + c) == Answer(None, c)
  {
    hide Find;
    var t := THINK_CLOSE + c;
    assert t[1] == '/' && t[|THINK_CLOSE|..] == c;
  }

  lemma AnswerBack(m: Message, think: bool, opens: bool)
    requires think && opens ==> Find(m.reasoning, 0, THINK_CLOSE).None?
    ensures ReadAnswer(AnswerShown(m, think, opens)) == Answer(if think && opens then Some(m.reasoning) else None, m.content + CallsText(m))
  {
    hide CallsText, Find, ReadAnswer;
    var c, r := m.content + CallsText(m), m.reasoning;
    if think && opens {
      assert AnswerShown(m, think, opens) == THINK_OPEN + (r + (THINK_CLOSE + c));
      OpenedBack(r, c);
    } else {
      ClosedBack(c);
    }
  }

  lemma NoCloseIn(r: string, c: string, i: nat)
    requires i < |r| && Find(r, 0, THINK_CLOSE).None?
    ensures !(THINK_CLOSE <= r[i..] + (THINK_CLOSE + c))
  {
    hide Find;
    var y := r[i..] + (THINK_CLOSE + c);
    assert !Full(r, i, THINK_CLOSE);
    var k := |r| - i;
    if k >= |THINK_CLOSE| {
      assert y[..|THINK_CLOSE|] == r[i..][..|THINK_CLOSE|];
    } else {
      assert y[k] == '<' && THINK_CLOSE[k] != '<';
    }
  }

  lemma FindFrom(t: string, from: nat, n: nat, lit: string)
    requires from <= n && Full(t, n, lit) && forall i :: from <= i < n ==> !Full(t, i, lit)
    ensures Find(t, from, lit) == Some(n)
  {
    hide Find, Full;
  }

  // ----- Reading a history back -----

  /** What a message says: `shows` tells whether an answer's reasoning is to be seen. */
  function Heard(m: Message, waits: bool, shows: bool): (r: seq<Turn>) {
    match RoleOf(m.role)
    case User => [Question(m.content)]
    case Tool => [Result(m.content)]
    case Assistant => [Answer(if waits && shows then Some(m.reasoning) else None, m.content + CallsText(m))]
    case _ => []
  }

  /** The conversation: each question, result and answer in its place.  Reasoning is part of an
      answer to a question when the model thinks and tools are in use, or no question follows. */
  function Conversation(msgs: seq<Message>, think: bool, context: bool, last: int): (r: seq<Turn>) {
    if msgs == [] then []
    else
      var n := |msgs| - 1;
      Conversation(msgs[..n], think, context, last) + Heard(msgs[n], Waits(msgs[..n]), think && (context || n > last))
  }

  ghost predicate Reads(s: seq<Segment>, turns: seq<Turn>) {
    forall next :: next != Some(Ending) ==> ReadSegments(s, next) == turns
  }

  ghost predicate Resulted(t: string) {
    exists cs :: cs != [] && t == AllResults(cs)
  }

  /** The segments so far say these turns, and their last one is open for more. */
  ghost predicate Good(s: seq<Segment>, turns: seq<Turn>, waits: bool, waitsTool: bool) {
    && s != [] && s[0].mark == Begins && Marked(s) && Reads(s, turns) && (waitsTool ==> waits)
    && var g := s[|s| - 1];
    && (if waits then g.mark == Asking else (g.mark == Begins || g.mark == Ending) && g.text == "")
    && (waitsTool ==> Resulted(g.text))
  }

  lemma ReadMore(s: seq<Segment>, g: Segment, next: Option<Mark>)
    ensures ReadSegments(s + [g], next) == ReadSegments(s, Some(g.mark)) + ReadSegment(g, next)
  {
    hide ReadSegment;
    assert (s + [g])[..|s|] == s;
  }

  lemma MarkedMore(s: seq<Segment>, g: Segment)
    requires Marked(s) && TagFree(g.text) && (s != [] ==> g.mark != Begins)
    ensures Marked(s + [g])
  {
    hide TagFree;
  }

  lemma AsksMore(s: seq<Segment>, turns: seq<Turn>, waits: bool, waitsTool: bool, text: string, more: seq<Turn>)
    requires Good(s, turns, waits, waitsTool) && TagFree(text) && ReadAsking(text) == more
    ensures Marked(s + [Segment(Asking, text)]) && Reads(s + [Segment(Asking, text)], turns + more)
  {
    hide ReadSegments, ReadAsking, TagFree, Resulted;
    var g := Segment(Asking, text);
    MarkedMore(s, g);
    forall next | next != Some(Ending) ensures ReadSegments(s + [g], next) == turns + more { ReadMore(s, g, next); }
  }

  lemma UserReads(s: seq<Segment>, turns: seq<Turn>, waits: bool, waitsTool: bool, m: Message)
    requires Good(s, turns, waits, waitsTool) && Clean(Question(m.content)) && RoleOf(m.role) == User
    ensures Good(s + [Segment(Asking, m.content)], turns + [Question(m.content)], true, false)
  {
    hide ReadSegments, TagFree, Resulted, Marked, Reads, RoleOf;
    AsksMore(s, turns, waits, waitsTool, m.content, [Question(m.content)]);
  }

  lemma ResultFree(t: string)
    requires Quiet(t)
    ensures TagFree(t)
  {
    QuietThen(t, "");
    assert t + "" == t;
  }

  lemma NewResultReads(s: seq<Segment>, turns: seq<Turn>, waits: bool, m: Message)
    requires Good(s, turns, waits, false)
    ensures Good(s + [Segment(Asking, ResultText(m))], turns + [Result(m.content)], true, true)
  {
    hide ReadSegments, TagFree, Marked, Reads, ResultText, ReadResults;
    var t := ResultText(m);
    ResultQuiet(m);
    ResultFree(t);
    OneResult(m);
    AsksMore(s, turns, waits, false, t, [Result(m.content)]);
  }

  lemma OneResult(m: Message)
    ensures AllResults([m]) == ResultText(m) && Resulted(ResultText(m)) && ReadAsking(ResultText(m)) == [Result(m.content)]
  {
    hide TextEscaped, ReadResults;
    assert [m][1..] == [] && ResultText(m) + "" == ResultText(m);
    ResultsBack([m]);
    assert AllResults([m]) == ResultText(m) && [m] != [];
    assert ResultTurns([m]) == [Result(m.content)];
    assert RESULT_OPEN <= ResultText(m);
  }

  lemma SplitLast(s: seq<Segment>)
    requires s != []
    ensures s == s[..|s| - 1] + [s[|s| - 1]]
  {
  }

  lemma ResultMore(t: string, m: Message)
    requires Resulted(t)
    ensures Resulted(t + ResultText(m)) && ReadAsking(t + ResultText(m)) == ReadAsking(t) + [Result(m.content)]
  {
    hide TextEscaped, ReadResults;
    var cs :| cs != [] && t == AllResults(cs);
    ResultsJoin(cs, m);
    ResultsBack(cs);
    ResultsBack(cs + [m]);
    assert cs + [m] != [] && t + ResultText(m) == AllResults(cs + [m]);
    assert RESULT_OPEN <= t && RESULT_OPEN <= t + ResultText(m);
  }

  lemma NextResultReads(s: seq<Segment>, turns: seq<Turn>, m: Message)
    requires Good(s, turns, true, true)
    ensures Good(Longer(s, ResultText(m)), turns + [Result(m.content)], true, true)
  {
    hide ReadSegments, TagFree, Resulted, ResultText, ReadAsking;
    var n := |s| - 1;
    var front, g := s[..n], s[n];
    var h := Segment(Asking, g.text + ResultText(m));
    ResultMore(g.text, m);
    assert TagFree(h.text) by { ResultQuiet(m); FreeResult(g.text, ResultText(m)); }
    SplitLast(s);
    assert Longer(s, ResultText(m)) == front + [h];
    assert Marked(front + [h]);
    forall next | next != Some(Ending) ensures ReadSegments(front + [h], next) == turns + [Result(m.content)] {
      ReadMore(front, g, next);
      ReadMore(front, h, next);
      assert ReadSegments(s, next) == turns;
      var r := ReadSegments(front, Some(Asking));
      assert r + (ReadAsking(g.text) + [Result(m.content)]) == (r + ReadAsking(g.text)) + [Result(m.content)];
    }
  }

  lemma FreeResult(t: string, q: string)
    requires TagFree(t) && Quiet(q) && q != "" && q[0] == '<'
    ensures TagFree(t + q)
  {
    ResultFree(q);
    FreeThen(t, q);
  }

  /** An answer and its end mark. */
  lemma AnswerReads(front: seq<Segment>, g: Segment, before: seq<Turn>, turn: Turn)
    requires Marked(front + [g]) && (front + [g])[0].mark == Begins && ReadSegments(front, Some(g.mark)) == before && ReadSegment(g, Some(Ending)) == [turn]
    ensures Good(front + [g] + [Segment(Ending, "")], before + [turn], false, false)
  {
    hide ReadSegments, ReadSegment, Resulted, TagFree;
    var e := Segment(Ending, "");
    assert TagFree("") by { FreeNone(); }
    MarkedMore(front + [g], e);
    forall next | next != Some(Ending) ensures ReadSegments(front + [g] + [e], next) == before + [turn] {
      ReadMore(front + [g], e, next);
      ReadMore(front, g, Some(Ending));
      NothingEnds(next);
    }
  }

  lemma FreeNone()
    ensures TagFree("")
  {
  }

  lemma NothingEnds(next: Option<Mark>)
    requires next != Some(Ending)
    ensures ReadSegment(Segment(Ending, ""), next) == []
  {
  }

  lemma PromptedReads(s: seq<Segment>, turns: seq<Turn>, waitsTool: bool, m: Message, think: bool, opens: bool)
    requires Good(s, turns, true, waitsTool) && AllClean(Heard(m, true, think && opens)) && RoleOf(m.role) == Assistant
    ensures Good(s + [Segment(Answering, AnswerShown(m, think, opens))] + [Segment(Ending, "")], turns + Heard(m, true, think && opens), false, false)
  {
    hide ReadSegments, TagFree, Resulted, CallsText, AnswerShown, Find, RoleOf, ReadAnswer;
    var g := Segment(Answering, AnswerShown(m, think, opens));
    assert Clean(Heard(m, true, think && opens)[0]);
    ShownFree(m, think, opens);
    AnswerBack(m, think, opens);
    MarkedMore(s, g);
    AnswerReads(s, g, turns, ReadAnswer(g.text));
  }

  lemma UnpromptedReads(s: seq<Segment>, turns: seq<Turn>, m: Message, shows: bool)
    requires Good(s, turns, false, false) && AllClean(Heard(m, false, shows)) && RoleOf(m.role) == Assistant
    ensures Good(Longer(s, m.content + CallsText(m)) + [Segment(Ending, "")], turns + Heard(m, false, shows), false, false)
  {
    hide ReadSegments, TagFree, Resulted, CallsText, Find, RoleOf;
    var n, c := |s| - 1, m.content + CallsText(m);
    var front, g := s[..n], s[n];
    var h := Segment(g.mark, c);
    assert Clean(Heard(m, false, shows)[0]);
    assert "" + c == c;
    SplitLast(s);
    assert Longer(s, c) == front + [h];
    assert Marked(front + [h]);
    ReadMore(front, g, None);
    assert ReadSegments(s, None) == turns;
    assert ReadSegments(front, Some(g.mark)) + [] == ReadSegments(front, Some(g.mark));
    AnswerReads(front, h, turns, Answer(None, c));
  }

  lemma SpokenReads(s: seq<Segment>, turns: seq<Turn>, m: Message, waits: bool, waitsTool: bool, think: bool, opens: bool)
    requires Good(s, turns, waits, waitsTool) && AllClean(Heard(m, waits, think && opens))
    ensures var role := RoleOf(m.role);
      Good(Spoken(s, m, waits, waitsTool, think, opens), turns + Heard(m, waits, think && opens), Asks(m) || (role != Assistant && waits), role == Tool || (role != Assistant && role != User && waitsTool))
  {
    hide Good, Clean, RoleOf, ResultText, AnswerShown, CallsText, Longer;
    GoodTool(s, turns, waits, waitsTool);
    match RoleOf(m.role)
    case User =>
      assert Clean(Heard(m, waits, think && opens)[0]);
      UserReads(s, turns, waits, waitsTool, m);
    case Tool => if waitsTool { NextResultReads(s, turns, m); } else { NewResultReads(s, turns, waits, m); }
    case Assistant => if waits { PromptedReads(s, turns, waitsTool, m, think, opens); } else { UnpromptedReads(s, turns, m, think && opens); }
    case _ => assert turns + [] == turns;
  }

  lemma GoodTool(s: seq<Segment>, turns: seq<Turn>, waits: bool, waitsTool: bool)
    requires Good(s, turns, waits, waitsTool)
    ensures waitsTool ==> waits
  {
    hide Marked, Reads;
  }

  lemma {:induction false} TalkReads(msgs: seq<Message>, think: bool, context: bool, last: int)
    requires AllClean(Conversation(msgs, think, context, last))
    ensures Good(Talk(msgs, think, context, last), Conversation(msgs, think, context, last), Waits(msgs), WaitsTool(msgs))
  {
    hide Good, Spoken, Heard, Clean, Asks, RoleOf;
    if msgs == [] {
      StartReads();
    } else {
      var n := |msgs| - 1;
      CleanParts(Conversation(msgs[..n], think, context, last), Heard(msgs[n], Waits(msgs[..n]), think && (context || n > last)));
      TalkReads(msgs[..n], think, context, last);
      SpokenReads(Talk(msgs[..n], think, context, last), Conversation(msgs[..n], think, context, last), msgs[n], Waits(msgs[..n]), WaitsTool(msgs[..n]), think, context || n > last);
    }
  }

  lemma CleanParts(a: seq<Turn>, b: seq<Turn>)
    ensures AllClean(a + b) <==> AllClean(a) && AllClean(b)
  {
    hide Clean;
    var all := a + b;
    if AllClean(all) {
      assert forall i :: 0 <= i < |a| ==> all[i] == a[i];
      assert forall i :: 0 <= i < |b| ==> all[|a| + i] == b[i];
    }
  }

  lemma StartReads()
    ensures Good([Segment(Begins, "")], [], false, false)
  {
    var s := [Segment(Begins, "")];
    assert s[..0] == [];
    forall next | next != Some(Ending) ensures ReadSegments(s, next) == [] { }
  }

  lemma BodyReads(msgs: seq<Message>, think: bool, context: bool, last: int)
    requires AllClean(Conversation(msgs, think, context, last))
    ensures var y := Body(msgs, think, context, last) + Tail(Waits(msgs), think);
      Turns(y) == Conversation(msgs, think, context, last) && Awaited(y) == if Waits(msgs) then Some(think) else None
  {
    hide Body, Tail, Talk, Good, Turns, Awaited, Waits, WaitsTool, Flat, Marked, ReadSegments, Conversation, AllClean;
    var s, turns := Talk(msgs, think, context, last), Conversation(msgs, think, context, last);
    TalkReads(msgs, think, context, last);
    TalkFlat(msgs, think, context, last);
    if Waits(msgs) {
      DueReads(s, turns, WaitsTool(msgs), think);
      SegmentsTell(s + [Segment(Answering, if think then THINK_OPEN else THINK_CLOSE)]);
    } else {
      GoodTool(s, turns, false, WaitsTool(msgs));
      NotDue(s, turns);
      SegmentsTell(s);
      NoTail(think);
      assert Flat(s) + "" == Flat(s);
    }
  }

  lemma SegmentsTell(s: seq<Segment>)
    requires s != [] && Marked(s) && s[0].mark == Begins
    ensures Turns(Flat(s)) == ReadSegments(s, None)
    ensures var g := s[|s| - 1]; Awaited(Flat(s)) == if g.mark == Answering then Some(g.text == THINK_OPEN) else None
  {
    hide Segments, Marked, Flat, ReadSegments;
    WholeBack(s);
  }

  lemma DueReads(s: seq<Segment>, turns: seq<Turn>, waitsTool: bool, think: bool)
    requires Good(s, turns, true, waitsTool)
    ensures var g := Segment(Answering, if think then THINK_OPEN else THINK_CLOSE);
      && Marked(s + [g]) && (s + [g])[0].mark == Begins && ReadSegments(s + [g], None) == turns && Flat(s + [g]) == Flat(s) + Tail(true, think)
  {
    hide ReadSegments, TagFree, Resulted, Flat, AssistantTag;
    var g := Segment(Answering, if think then THINK_OPEN else THINK_CLOSE);
    Quiets();
    ResultFree(g.text);
    MarkedMore(s, g);
    ReadMore(s, g, None);
    assert ReadSegments(s, Some(Answering)) == turns && turns + [] == turns;
    FlatJoin(s, [g]);
    FlatOne(g);
  }

  lemma NotDue(s: seq<Segment>, turns: seq<Turn>)
    requires Good(s, turns, false, false)
    ensures s != [] && Marked(s) && s[0].mark == Begins && ReadSegments(s, None) == turns && s[|s| - 1].mark != Answering
  {
    hide ReadSegments, TagFree, Resulted;
  }

  lemma WholeBack(s: seq<Segment>)
    requires s != [] && Marked(s) && s[0].mark == Begins
    ensures Segments(Begins, Flat(s)) == s
  {
    hide Segments, Marked;
    SegmentsBack(s);
    assert "" + s[0].text + Flat(s[1..]) == s[0].text + Flat(s[1..]);
  }

  // ----- All that is read is clean -----

  lemma NoTagIn(x: string, y: string)
    requires x <= y && MarkIn(y).None?
    ensures MarkIn(x).None?
  {
    hide UserTag, AssistantTag, End;
  }

  /** Part of a text without marks has none. */
  lemma {:induction false} FreeFront(x: string, n: nat)
    requires TagFree(x) && n <= |x|
    ensures TagFree(x[..n])
  {
    hide MarkIn;
    if n > 0 {
      NoTagIn(x[..n], x);
      FreeFront(x[1..], n - 1);
      assert x[..n][1..] == x[1..][..n - 1];
    }
  }

  lemma {:induction false} FreeBack(x: string, n: nat)
    requires TagFree(x) && n <= |x|
    ensures TagFree(x[n..])
  {
    hide MarkIn;
    if n > 0 {
      FreeBack(x[1..], n - 1);
      assert x[n..] == x[1..][n - 1..];
    } else {
      assert x[0..] == x;
    }
  }

  lemma {:induction false} UptoFree(x: string)
    ensures TagFree(x[..Upto(x)])
  {
    hide MarkIn;
    var n := Upto(x);
    if n > 0 {
      UptoFree(x[1..]);
      NoTagIn(x[..n], x);
      assert x[..n][1..] == x[1..][..n - 1];
    }
  }

  lemma {:induction false} SegmentsFree(mark: Mark, x: string)
    ensures forall i :: 0 <= i < |Segments(mark, x)| ==> TagFree(Segments(mark, x)[i].text)
    decreases |x|
  {
    hide MarkIn, TagFree, TagOf, Upto;
    var n := Upto(x);
    UptoFree(x);
    var m := MarkIn(x[n..]);
    if m.Some? {
      TagLong(m.value);
      SegmentsFree(m.value, x[n..][|TagOf(m.value)|..]);
    }
  }

  lemma AnswerClean(t: string)
    requires TagFree(t)
    ensures Clean(ReadAnswer(t))
  {
    hide TagFree, Find;
    if THINK_OPEN <= t {
      var q := Find(t, |THINK_OPEN|, THINK_CLOSE);
      if q.Some? {
        FullInside(t, q.value, THINK_CLOSE);
        var r := t[|THINK_OPEN|..q.value];
        FreeFront(t, q.value);
        FreeBack(t[..q.value], |THINK_OPEN|);
        assert t[..q.value][|THINK_OPEN|..] == r;
        FreeBack(t, q.value + |THINK_CLOSE|);
        NoneInside(t, |THINK_OPEN|, q.value);
      }
    } else if THINK_CLOSE <= t {
      FreeBack(t, |THINK_CLOSE|);
    }
  }

  /** No close tag stands before the first one. */
  lemma NoneInside(t: string, from: nat, q: nat)
    requires from <= q <= |t| && Find(t, from, THINK_CLOSE) == Some(q)
    ensures Find(t[from..q], 0, THINK_CLOSE).None?
  {
    hide Find;
    var r := t[from..q];
    var e := Find(r, 0, THINK_CLOSE);
    if e.Some? { FullOutside(t, from, q, e.value); }
  }

  lemma FullOutside(t: string, from: nat, q: nat, i: nat)
    requires from <= q <= |t| && Full(t[from..q], i, THINK_CLOSE)
    ensures Full(t, from + i, THINK_CLOSE) && from + i < q
  {
    var r := t[from..q];
    FullInside(r, i, THINK_CLOSE);
    assert t[from + i..][..|THINK_CLOSE|] == r[i..][..|THINK_CLOSE|];
  }

  lemma {:induction false} ResultsClean(t: string)
    ensures AllClean(ReadResults(t))
    decreases |t|
  {
    hide Find, Unescape;
    if RESULT_OPEN <= t {
      var e := Find(t, |RESULT_OPEN|, RESULT_CLOSE);
      if e.Some? {
        FullInside(t, e.value, RESULT_CLOSE);
        ResultsClean(t[e.value + |RESULT_CLOSE|..]);
      }
    }
  }

  lemma SegmentClean(g: Segment, next: Option<Mark>)
    requires TagFree(g.text)
    ensures AllClean(ReadSegment(g, next))
  {
    hide TagFree, ReadResults, ReadAnswer;
    AnswerClean(g.text);
    if g.mark == Asking && RESULT_OPEN <= g.text { ResultsClean(g.text); }
  }

  lemma {:induction false} ReadClean(s: seq<Segment>, next: Option<Mark>)
    requires forall i :: 0 <= i < |s| ==> TagFree(s[i].text)
    ensures AllClean(ReadSegments(s, next))
  {
    hide TagFree, ReadSegment, AllClean;
    if s == [] {
      assert AllClean([]) by { NothingClean(); }
    } else {
      var n := |s| - 1;
      ReadClean(s[..n], Some(s[n].mark));
      SegmentClean(s[n], next);
      CleanParts(ReadSegments(s[..n], Some(s[n].mark)), ReadSegment(s[n], next));
    }
  }

  lemma NothingClean()
    ensures AllClean([])
  {
  }

  lemma TurnsClean(x: string)
    ensures AllClean(Turns(x))
  {
    hide Segments, ReadSegments, TagFree, AllClean;
    SegmentsFree(Begins, x);
    ReadClean(Segments(Begins, x), None);
  }

  /** Splitting a rendered history at its marks gives the conversation back, in order - each
      question, each tool's result, each answer with the reasoning that is shown - exactly if
      no text that is shown holds a mark or a tag that is taken for another part; and then the
      end asks for an answer exactly if one is due. */
  lemma PromptReads(msgs: seq<Message>, setup: Setup)
    ensures var turns, y := Conversation(msgs, setup.think, ToolContext(msgs, setup.tools), LastUser(msgs)), Prompt(msgs, setup)[|Head(msgs, setup)|..];
      && Head(msgs, setup) <= Prompt(msgs, setup)
      && (Turns(y) == turns <==> AllClean(turns))
      && (AllClean(turns) ==> Awaited(y) == if Waits(msgs) then Some(setup.think) else None)
  {
    hide Head, Body, Tail, Turns, Awaited, Conversation, ToolContext, LastUser, Waits, AllClean;
    var think, c, l := setup.think, ToolContext(msgs, setup.tools), LastUser(msgs);
    var h, y := Head(msgs, setup), Body(msgs, think, c, l) + Tail(Waits(msgs), think);
    assert Prompt(msgs, setup) == h + y;
    assert (h + y)[|h|..] == y;
    TurnsClean(y);
    if AllClean(Conversation(msgs, think, c, l)) { BodyReads(msgs, think, c, l); }
  }

  // ----- What is due -----

  /** The last question, if there is one. */
  lemma {:induction false} LastUserIs(msgs: seq<Message>)
    ensures var r := LastUser(msgs);
      && (r >= 0 ==> Asks(msgs[r]))
      && (forall i :: r < i < |msgs| ==> !Asks(msgs[i]))
  {
    hide Asks;
    if msgs != [] && !Asks(msgs[|msgs| - 1]) { LastUserIs(msgs[..|msgs| - 1]); }
  }

  /** No message after `i` has one of the roles. */
  ghost predicate NoneAfter(msgs: seq<Message>, i: nat, roles: set<Role>) {
    forall j :: i < j < |msgs| ==> RoleOf(msgs[j].role) !in roles
  }

  /** An answer is due after a question that no answer follows. */
  ghost predicate Unanswered(msgs: seq<Message>) {
    exists i: nat :: i < |msgs| && Asks(msgs[i]) && NoneAfter(msgs, i, {Assistant})
  }

  lemma {:induction false} WaitsIs(msgs: seq<Message>)
    ensures Waits(msgs) <==> Unanswered(msgs)
  {
    hide RoleOf, Asks;
    if msgs != [] {
      var n := |msgs| - 1;
      var front := msgs[..n];
      WaitsIs(front);
      if Asks(msgs[n]) {
        assert NoneAfter(msgs, n, {Assistant});
      } else {
        if Waits(front) && RoleOf(msgs[n].role) != Assistant {
          var i: nat :| i < |front| && Asks(front[i]) && NoneAfter(front, i, {Assistant});
          assert NoneAfter(msgs, i, {Assistant}) && Asks(msgs[i]);
        }
        if Unanswered(msgs) {
          var i: nat :| i < |msgs| && Asks(msgs[i]) && NoneAfter(msgs, i, {Assistant});
          assert i < n && NoneAfter(front, i, {Assistant}) && Asks(front[i]);
        }
      }
    }
  }

  /** A tool has spoken, and neither the user nor the model since. */
  ghost predicate ToolSpoke(msgs: seq<Message>) {
    exists i: nat :: i < |msgs| && RoleOf(msgs[i].role) == Tool && NoneAfter(msgs, i, {Assistant, User})
  }

  lemma {:induction false} WaitsToolIs(msgs: seq<Message>)
    ensures WaitsTool(msgs) <==> ToolSpoke(msgs)
  {
    hide RoleOf;
    if msgs != [] {
      var n := |msgs| - 1;
      var front := msgs[..n];
      WaitsToolIs(front);
      if RoleOf(msgs[n].role) == Tool {
        assert NoneAfter(msgs, n, {Assistant, User});
      } else {
        if WaitsTool(msgs) {
          var i: nat :| i < |front| && RoleOf(front[i].role) == Tool && NoneAfter(front, i, {Assistant, User});
          assert NoneAfter(msgs, i, {Assistant, User}) && RoleOf(msgs[i].role) == Tool;
        }
        if ToolSpoke(msgs) {
          var i: nat :| i < |msgs| && RoleOf(msgs[i].role) == Tool && NoneAfter(msgs, i, {Assistant, User});
          assert i < n && NoneAfter(front, i, {Assistant, User}) && RoleOf(front[i].role) == Tool;
        }
      }
    }
  }

  // ----- The head -----

  /** The texts of the system messages, in order. */
  function Systems(msgs: seq<Message>): (r: seq<string>) {
    if msgs == [] then [] else (if RoleOf(msgs[0].role) == System then [msgs[0].content] else []) + Systems(msgs[1..])
  }

  /** Texts with an empty line between them. */
  function Paragraphs(ps: seq<string>): (r: string) {
    if ps == [] then "" else if |ps| == 1 then ps[0] else ps[0] + "\n\n" + Paragraphs(ps[1..])
  }

  /** Empty texts at the start do not count. */
  function FromFirst(ps: seq<string>): (r: seq<string>)
    ensures r == [] || r[0] != ""
  {
    if ps == [] || ps[0] != "" then ps else FromFirst(ps[1..])
  }

  lemma {:induction false} ParagraphsMore(ps: seq<string>, p: string)
    requires ps != []
    ensures Paragraphs(ps + [p]) == Paragraphs(ps) + "\n\n" + p
  {
    if |ps| == 1 {
      assert (ps + [p])[1..] == [p];
    } else {
      ParagraphsMore(ps[1..], p);
      assert (ps + [p])[1..] == ps[1..] + [p];
      assert ps[0] + "\n\n" + (Paragraphs(ps[1..]) + "\n\n" + p) == ps[0] + "\n\n" + Paragraphs(ps[1..]) + "\n\n" + p;
    }
  }

  lemma {:induction false} FromFirstMore(ps: seq<string>, p: string)
    ensures FromFirst(ps + [p]) == if FromFirst(ps) == [] then (if p == "" then [] else [p]) else FromFirst(ps) + [p]
  {
    if ps == [] {
      assert ps + [p] == [p] && [p][1..] == [];
    } else {
      assert (ps + [p])[1..] == ps[1..] + [p];
      if ps[0] == "" { FromFirstMore(ps[1..], p); }
    }
  }

  lemma {:induction false} SystemsMore(msgs: seq<Message>, m: Message)
    ensures Systems(msgs + [m]) == Systems(msgs) + if RoleOf(m.role) == System then [m.content] else []
  {
    hide RoleOf;
    if msgs == [] {
      assert msgs + [m] == [m] && [m][1..] == [];
    } else {
      SystemsMore(msgs[1..], m);
      assert (msgs + [m])[1..] == msgs[1..] + [m];
    }
  }

  lemma OneMore(ps: seq<string>, p: string)
    ensures Paragraphs(FromFirst(ps + [p])) == Spaced(Paragraphs(FromFirst(ps))) + p
    ensures Paragraphs(FromFirst(ps)) == "" <==> FromFirst(ps) == []
  {
    var q := FromFirst(ps);
    FromFirstMore(ps, p);
    if q != [] { ParagraphsMore(q, p); }
  }

  lemma {:induction false} SystemIs(msgs: seq<Message>)
    ensures SystemText(msgs) == Paragraphs(FromFirst(Systems(msgs)))
  {
    hide RoleOf, Paragraphs, FromFirst, Systems, Spaced;
    if msgs == [] {
      assert Systems([]) == [] && Paragraphs(FromFirst([])) == "" by { NoSystems(); }
    } else {
      var n := |msgs| - 1;
      SystemIs(msgs[..n]);
      assert msgs == msgs[..n] + [msgs[n]];
      SystemsMore(msgs[..n], msgs[n]);
      OneMore(Systems(msgs[..n]), msgs[n].content);
      assert Systems(msgs[..n]) + [] == Systems(msgs[..n]);
    }
  }

  lemma NoSystems()
    ensures Systems([]) == [] && Paragraphs(FromFirst([])) == ""
  {
  }

  /** The head is the begin mark, the preface, and the system texts and the text about tools as
      paragraphs. */
  lemma HeadIs(msgs: seq<Message>, setup: Setup)
    ensures Head(msgs, setup) == Begin() + setup.preface + Paragraphs(FromFirst(Systems(msgs) + if setup.tools != "" then [setup.tools] else []))
  {
    hide Paragraphs, FromFirst, Systems, SystemText, Begin, Spaced;
    SystemIs(msgs);
    OneMore(Systems(msgs), setup.tools);
    assert Systems(msgs) + [] == Systems(msgs);
  }

  /** What the renderer writes reads back as the conversation. */
  method RenderRead(msgs: seq<Message>, setup: Setup) returns (out: string)
    ensures Head(msgs, setup) <= out
    ensures var turns, y := Conversation(msgs, setup.think, ToolContext(msgs, setup.tools), LastUser(msgs)), out[|Head(msgs, setup)|..];
      && (Turns(y) == turns <==> AllClean(turns))
      && (AllClean(turns) ==> Awaited(y) == if Waits(msgs) then Some(setup.think) else None)
  {
    hide Prompt, Head, AllClean, Turns, Awaited, Conversation, ToolContext, LastUser, Waits;
    out := Render(msgs, setup);
    PromptReads(msgs, setup);
  }
}
