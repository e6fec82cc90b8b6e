/** A written block of tool calls, cut anywhere: the tracker says of the next byte what it is. */
module DsmlPieces {
  import opened DsmlText
  import opened DsmlRender
  import opened DsmlTracker
  import opened DsmlClass
  import R = DsmlRoundTrip
  import Q = JsonSqueeze
  import J = JsonValue

  // ----- A block in pieces -----

  /** Syntax, or a parameter with its tags. */
  datatype Piece = Plain(text: string) | Param(arg: Arg)

  function ValueAndClose(a: Arg): (u: string) {
    ValueText(a) + LONG.paramEnd
  }

  function PieceText(p: Piece): (u: string) {
    match p
    case Plain(u) => u
    case Param(a) => ParamTag(a) + ValueAndClose(a)
  }

  function Flat(ps: seq<Piece>): (x: string) {
    if ps == [] then "" else PieceText(ps[0]) + Flat(ps[1..])
  }

  function ArgPieces(args: seq<Arg>, rest: seq<Piece>): (r: seq<Piece>) {
    if args == [] then rest else [Param(args[0]), Plain("\n")] + ArgPieces(args[1..], rest)
  }

  function CallPieces(calls: seq<Call>): (r: seq<Piece>) {
    if calls == [] then [Plain(LONG.toolCallsEnd)]
    else [Plain(InvokeTag(calls[0].name)), Plain("\n")] + ArgPieces(calls[0].args, [Plain(LONG.invokeEnd), Plain("\n")] + CallPieces(calls[1..]))
  }

  /** What the next byte belongs to when `k` bytes of the pieces have come: payload inside the
      value of a parameter, syntax elsewhere, and nothing of the block after its end. */
  ghost function ClassIn(ps: seq<Piece>, k: nat): (d: Decode) {
    if ps == [] then Outside
    else if k >= |PieceText(ps[0])| then ClassIn(ps[1..], k - |PieceText(ps[0])|)
    else match ps[0]
      case Plain(u) => Structure
      case Param(a) =>
        if k < |ParamTag(a)| then Structure else ValueClass(a.isString, ValueAndClose(a)[..k - |ParamTag(a)|], LONG.paramEnd)
  }

  /** The same for a whole block, with two line breaks and its start tag before the pieces. */
  ghost function ClassAt(calls: seq<Call>, n: int): (d: Decode) {
    var start := 2 + |LONG.toolCallsStart|;
    if n < start then Outside else ClassIn([Plain("\n")] + CallPieces(calls), n - start)
  }

  lemma FlatTwo(a: Piece, b: Piece, rest: seq<Piece>)
    ensures Flat([a, b] + rest) == PieceText(a) + (PieceText(b) + Flat(rest))
  {
    hide PieceText;
    var all := [a, b] + rest;
    assert all[1..] == [b] + rest && ([b] + rest)[1..] == rest;
  }

  lemma {:induction false} ArgsFlat(args: seq<Arg>, rest: seq<Piece>)
    ensures Flat(ArgPieces(args, rest)) == ArgsThen(args, Flat(rest))
  {
    hide Flat, ParamTag, ValueText, SyntaxAt;
    if args != [] {
      var a, more := args[0], ArgPieces(args[1..], rest);
      ArgsFlat(args[1..], rest);
      FlatTwo(Param(a), Plain("\n"), more);
      assert (ParamTag(a) + (ValueText(a) + LONG.paramEnd)) + ("\n" + Flat(more)) == ParamTag(a) + (ValueText(a) + (LONG.paramEnd + ("\n" + Flat(more))));
    }
  }

  lemma {:induction false} CallsFlat(calls: seq<Call>)
    ensures Flat(CallPieces(calls)) == CallsThen(calls, LONG.toolCallsEnd)
  {
    hide Flat, InvokeTag, SyntaxAt, ArgPieces, ArgsThen;
    if calls == [] {
      FlatEnd();
    } else {
      var c, more := calls[0], CallPieces(calls[1..]);
      var tail := [Plain(LONG.invokeEnd), Plain("\n")] + more;
      CallsFlat(calls[1..]);
      FlatTwo(Plain(LONG.invokeEnd), Plain("\n"), more);
      ArgsFlat(c.args, tail);
      FlatTwo(Plain(InvokeTag(c.name)), Plain("\n"), ArgPieces(c.args, tail));
    }
  }

  lemma FlatEnd()
    ensures Flat([Plain(LONG.toolCallsEnd)]) == LONG.toolCallsEnd
  {
    var p := Plain(LONG.toolCallsEnd);
    assert [p][1..] == [];
    assert LONG.toolCallsEnd + "" == LONG.toolCallsEnd;
  }

  lemma BlockFlat(calls: seq<Call>)
    requires calls != []
    ensures Block(calls) == ("\n\n" + LONG.toolCallsStart) + Flat([Plain("\n")] + CallPieces(calls))
  {
    hide SyntaxAt, CallPieces, CallsThen;
    CallsFlat(calls);
    var ps := [Plain("\n")] + CallPieces(calls);
    assert ps[1..] == CallPieces(calls);
  }

  // ----- Pieces one by one -----

  /** A string whose kind can be read, or a literal whose quotes are paired. */
  ghost predicate Trackable(a: Arg) {
    if a.isString then !R.EndsWith(a.key, "string=") else !InQuotes(a.value)
  }

  /** Writing an angle as an escape changes nothing for the quotes around it. */
  lemma {:induction false} MaskedQuotes(s: string, close: string, inString: bool, escaped: bool)
    requires close != "" && close[0] == '<'
    ensures Q.State(Masked(s, close, JSON_LESS), inString, escaped).0 == Q.State(s, inString, escaped).0
  {
    hide Q.State, Masked;
    MaskedNothing(close);
    if s != "" {
      var head := if close <= s then JSON_LESS else [s[0]];
      var q := Q.Next(s[0], inString, escaped);
      MaskedStep(s, close, JSON_LESS);
      Q.OneMore(s, inString, escaped);
      Q.StripJoin(head, Masked(s[1..], close, JSON_LESS), inString, escaped);
      if close <= s { AngleState(inString, escaped); } else { OneState(s[0], inString, escaped); }
      assert Q.State(head, inString, escaped) == q;
      MaskedQuotes(s[1..], close, q.0, q.1);
    }
  }

  lemma MaskedNothing(close: string)
    ensures Masked("", close, JSON_LESS) == ""
  {
  }

  lemma OneState(c: char, inString: bool, escaped: bool)
    ensures Q.State([c], inString, escaped) == Q.Next(c, inString, escaped)
  {
    hide Q.State;
    Q.OneMore([c], inString, escaped);
    var q := Q.Next(c, inString, escaped);
    Q.Nothing(q.0, q.1);
  }

  lemma AngleState(inString: bool, escaped: bool)
    ensures Q.State(JSON_LESS, inString, escaped) == Q.Next('<', inString, escaped)
  {
    hide Q.State;
    var x := JSON_LESS;
    Q.StripJoin("\\u", "003c", inString, escaped);
    Q.StripJoin("\\", "u", inString, escaped);
    Q.StripJoin("00", "3c", inString, false);
    Q.StripJoin("0", "0", inString, false);
    Q.StripJoin("3", "c", inString, false);
    assert "\\u" == "\\" + "u" && "00" == "0" + "0" && "3c" == "3" + "c" && "003c" == "00" + "3c" && x == "\\u" + "003c";
    var q := Q.Next('\\', inString, escaped);
    OneState('\\', inString, escaped);
    OneState('u', q.0, q.1);
    OneState('0', inString, false);
    OneState('3', inString, false);
    OneState('c', inString, false);
  }

  lemma LiteralQuotes(a: Arg)
    requires !a.isString
    ensures InQuotes(ValueText(a)) <==> InQuotes(a.value)
  {
    hide SyntaxAt, Masked, Q.State;
    TagAngles(0);
    MaskedQuotes(a.value, LONG.paramEnd, false, false);
  }

  /** Every literal that is a JSON value can be followed. */
  lemma JsonTrackable(a: Arg)
    requires !a.isString && J.ValueLength(a.value) == Some(|a.value|)
    ensures Trackable(a)
  {
    hide J.SkipValue, Q.State, Q.Ends;
    Q.EndsNone();
    var r := J.SkipValue(a.value, 0).value;
    Q.SqueezeValue(true, a.value, 0, "");
    assert Q.Read(a.value, r) == a.value;
  }

  ghost predicate Inner(p: Piece) {
    match p
    case Plain(u) => u == "\n" || u == LONG.invokeEnd || exists name :: u == InvokeTag(name)
    case Param(a) => true
  }

  ghost predicate Formed(ps: seq<Piece>) {
    ps != [] && if |ps| == 1 then ps[0] == Plain(LONG.toolCallsEnd) else Inner(ps[0]) && Formed(ps[1..])
  }

  ghost predicate Fine(p: Piece) {
    p.Param? ==> Trackable(p.arg)
  }

  /** Not all of the first piece has come. */
  lemma PiecePart(t: Track, raw: string, p: Piece, k: nat)
    requires At(t, raw) && (Inner(p) || p == Plain(LONG.toolCallsEnd)) && Fine(p) && k < |PieceText(p)| && raw[t.pos..] == PieceText(p)[..k]
    ensures Scan(t, raw).decode == ClassIn([p], k)
  {
    hide SyntaxAt, InvokeTag, ParamTag, ValueText, Scan;
    match p
    case Plain(u) =>
      if u == "\n" {
        NothingYet(t, raw);
      } else if u == LONG.invokeEnd || u == LONG.toolCallsEnd {
        EndPart(t, raw, u);
      } else {
        var name :| u == InvokeTag(name);
        InvokeOpening(name);
        OpenPart(t, raw, u, LONG.invokeStart);
      }
    case Param(a) => ParamPart(t, raw, a, k);
  }

  lemma NothingYet(t: Track, raw: string)
    requires At(t, raw) && t.pos == |raw|
    ensures Scan(t, raw).decode == Structure
  {
    hide SyntaxAt, Find, Attr;
  }

  lemma ParamPart(t: Track, raw: string, a: Arg, k: nat)
    requires At(t, raw) && Trackable(a) && k < |PieceText(Param(a))| && raw[t.pos..] == PieceText(Param(a))[..k]
    ensures Scan(t, raw).decode == if k < |ParamTag(a)| then Structure else ValueClass(a.isString, ValueAndClose(a)[..k - |ParamTag(a)|], LONG.paramEnd)
  {
    hide SyntaxAt, ParamTag, ValueText, Scan, Step, Find, Attr, ValueClass, Trackable;
    var u, p := ParamTag(a), t.pos;
    ParamOpening(a);
    if k < |u| {
      assert PieceText(Param(a))[..k] == u[..k];
      OpenPart(t, raw, u, LONG.paramStart);
    } else {
      var w := ValueAndClose(a)[..k - |u|];
      assert raw[p..] == u + w;
      var v := ParamOpens(t, raw, a);
      assert raw[v.pos..] == w;
      ValuePart(v, raw, a, w);
    }
  }

  /** The value begins. */
  lemma ParamOpens(t: Track, raw: string, a: Arg) returns (v: Track)
    requires At(t, raw) && Trackable(a) && ParamTag(a) <= raw[t.pos..]
    ensures v.syn == 0 && v.pos == t.pos + |ParamTag(a)| <= |raw| && Scan(t, raw) == Scan(v, raw)
    ensures if a.isString then v.mode == StringBody else v.mode == JsonParam && !v.inString && !v.escaped
  {
    hide SyntaxAt, ParamTag, ValueText, Find, Attr, Step, R.EndsWith;
    ParamOpening(a);
    ParamWhole(t, raw, ParamTag(a));
    R.ParamKind(a);
    v := Step(t, raw).t;
    assert |ParamTag(a)| <= |raw[t.pos..]|;
  }

  lemma NoCloseYet(a: Arg, w: string)
    requires w <= ValueAndClose(a) && w != ValueAndClose(a)
    ensures Find(w, 0, LONG.paramEnd).None?
  {
    hide SyntaxAt, Find, Masked, Stand;
    var all, close := ValueAndClose(a), LONG.paramEnd;
    R.LongStands(a.isString);
    MaskedCloses(a.value, close, if a.isString then Entity(1) else JSON_LESS, "");
    assert close + "" == close;
    var q := Find(w, 0, close);
    if q.Some? {
      FullInside(w, q.value, close);
      FullInPrefix(all, w, q.value, close);
    }
  }

  lemma FullInPrefix(x: string, w: string, q: nat, lit: string)
    requires w <= x && Full(w, q, lit)
    ensures Full(x, q, lit)
  {
    assert x == w + x[|w|..];
    FullMore(w, x[|w|..], q, lit);
  }

  lemma FindShifted(raw: string, p: nat, lit: string)
    requires p <= |raw|
    ensures Find(raw, p, lit) == (var f := Find(raw[p..], 0, lit); if f.None? then None else Some(p + f.value))
  {
    FindAlong(raw, p, 0, lit);
  }

  lemma {:induction false} FindAlong(raw: string, p: nat, i: nat, lit: string)
    requires p <= |raw|
    ensures Find(raw, p + i, lit) == (var f := Find(raw[p..], i, lit); if f.None? then None else Some(p + f.value))
    decreases |raw| - i
  {
    hide Full;
    if i <= |raw| - p {
      FullAlong(raw, p, i, lit);
      FindAlong(raw, p, i + 1, lit);
    }
  }

  lemma FullAlong(raw: string, p: nat, i: nat, lit: string)
    requires p + i <= |raw|
    ensures Full(raw, p + i, lit) <==> Full(raw[p..], i, lit)
  {
    assert raw[p..][i..] == raw[p + i..];
  }

  lemma ValuePart(v: Track, raw: string, a: Arg, w: string)
    requires v.syn == 0 && v.pos <= |raw| && raw[v.pos..] == w && w <= ValueAndClose(a) && w != ValueAndClose(a)
    requires if a.isString then v.mode == StringBody else v.mode == JsonParam && !v.inString && !v.escaped
    ensures Scan(v, raw).decode == ValueClass(a.isString, w, LONG.paramEnd)
  {
    hide SyntaxAt, Find, ValueText, Scan, Held;
    NoCloseYet(a, w);
    FindShifted(raw, v.pos, LONG.paramEnd);
    if a.isString {
      StringOpen(v, raw);
    } else {
      NoCloseOut(raw, v.pos, false, false, LONG.paramEnd);
      JsonOpen(v, raw);
    }
  }

  lemma {:induction false} NoCloseOut(raw: string, p: nat, inString: bool, escaped: bool, close: string)
    requires Find(raw, p, close).None?
    ensures CloseOut(raw, p, inString, escaped, close).None?
    decreases |raw| - p
  {
    hide Full, Find;
    if p < |raw| {
      var q := Q.Next(raw[p], inString, escaped);
      NoneLater(raw, p, close);
      NoCloseOut(raw, p + 1, q.0, q.1, close);
    }
  }

  lemma NoneLater(raw: string, p: nat, lit: string)
    requires Find(raw, p, lit).None?
    ensures Find(raw, p + 1, lit).None? && !Full(raw, p, lit)
  {
    hide Full;
  }

  /** The value ends. */
  lemma ValueCloses(v: Track, raw: string, a: Arg) returns (u: Track)
    requires v.syn == 0 && v.pos <= |raw| && ValueAndClose(a) <= raw[v.pos..] && Trackable(a)
    requires if a.isString then v.mode == StringBody else v.mode == JsonParam && !v.inString && !v.escaped
    ensures At(u, raw) && u.pos == v.pos + |ValueAndClose(a)| && Scan(v, raw) == Scan(u, raw)
  {
    hide SyntaxAt, Find, ValueText, Scan, R.EndsWith;
    var x := ValueText(a);
    var e := v.pos + |x|;
    FirstClose(raw, v.pos, a);
    TagLengths(0);
    if a.isString {
      StringCloses(v, raw, e);
      u := v.(mode := Structural, decode := Structure, pos := e + |LONG.paramEnd|);
    } else {
      assert raw[v.pos..][..|x|] == raw[v.pos..e] == x;
      LiteralQuotes(a);
      CloseOutAt(raw, v.pos, false, false, e, LONG.paramEnd);
      u := JsonCloses(v, raw, e);
    }
  }

  /** No close tag stands in a value as it is written. */
  lemma FirstClose(raw: string, p: nat, a: Arg)
    requires p <= |raw| && ValueAndClose(a) <= raw[p..]
    ensures Find(raw, p, LONG.paramEnd) == Some(p + |ValueText(a)|) && p + |ValueAndClose(a)| <= |raw|
  {
    hide SyntaxAt, Find, Masked, Stand;
    var all, close := ValueAndClose(a), LONG.paramEnd;
    var rest := raw[p..][|all|..];
    R.LongStands(a.isString);
    MaskedCloses(a.value, close, if a.isString then Entity(1) else JSON_LESS, rest);
    assert raw[p..] == ValueText(a) + (close + rest);
    FindShifted(raw, p, close);
  }

  lemma {:induction false} CloseOutAt(raw: string, p: nat, inString: bool, escaped: bool, e: nat, close: string)
    requires p <= e < |raw| && Find(raw, p, close) == Some(e) && !Q.State(raw[p..e], inString, escaped).0
    ensures CloseOut(raw, p, inString, escaped, close) == Some(e)
    decreases e - p
  {
    hide Full, Find, Q.State;
    if p == e {
      assert raw[p..e] == "";
      Q.Nothing(inString, escaped);
    } else {
      var q := Q.Next(raw[p], inString, escaped);
      assert raw[p..e][1..] == raw[p + 1..e];
      Q.OneMore(raw[p..e], inString, escaped);
      FindLater(raw, p, e, close);
      CloseOutAt(raw, p + 1, q.0, q.1, e, close);
    }
  }

  /** All of the first piece has come. */
  lemma PieceWhole(t: Track, raw: string, p: Piece) returns (u: Track)
    requires At(t, raw) && Inner(p) && Fine(p) && PieceText(p) <= raw[t.pos..]
    ensures At(u, raw) && u.pos == t.pos + |PieceText(p)| && Scan(t, raw) == Scan(u, raw)
  {
    hide SyntaxAt, InvokeTag, ParamTag, ValueText, Scan, Trackable, ValueAndClose;
    match p
    case Plain(w) => u := TagWhole(t, raw, w);
    case Param(a) =>
      var x := raw[t.pos..];
      assert ParamTag(a) <= x && ValueAndClose(a) <= x[|ParamTag(a)|..];
      var v := ParamOpens(t, raw, a);
      assert raw[v.pos..] == x[|ParamTag(a)|..];
      u := ValueCloses(v, raw, a);
  }

  lemma TagWhole(t: Track, raw: string, w: string) returns (u: Track)
    requires At(t, raw) && Inner(Plain(w)) && w <= raw[t.pos..]
    ensures At(u, raw) && u.pos == t.pos + |w| && Scan(t, raw) == Scan(u, raw)
  {
    hide SyntaxAt, InvokeTag, Step;
    var x := raw[t.pos..];
    u := t.(pos := t.pos + |w|);
    if w == "\n" {
      Blank(t, raw);
    } else if w == LONG.invokeEnd {
      assert x == w + x[|w|..];
      EndWhole(t, raw, x[|w|..]);
    } else {
      var name :| w == InvokeTag(name);
      InvokeOpening(name);
      InvokeWhole(t, raw, w);
    }
  }

  lemma Blank(t: Track, raw: string)
    requires At(t, raw) && "\n" <= raw[t.pos..]
    ensures Step(t, raw) == Go(t.(pos := t.pos + 1))
  {
    hide SyntaxAt, Find, Attr;
    assert raw[t.pos..][0] == raw[t.pos];
  }

  // ----- Whole blocks -----

  ghost predicate AllFine(ps: seq<Piece>) {
    forall i :: 0 <= i < |ps| ==> Fine(ps[i])
  }

  /** The tracker from inside a block on. */
  lemma {:induction false} PiecesTell(t: Track, raw: string, ps: seq<Piece>, post: string, k: nat)
    requires At(t, raw) && Formed(ps) && AllFine(ps) && k <= |Flat(ps)| + |post| && raw[t.pos..] == (Flat(ps) + post)[..k]
    ensures Scan(t, raw).decode == ClassIn(ps, k)
    decreases |ps|
  {
    hide SyntaxAt, PieceText, Fine, Inner, Scan;
    var p, rest := ps[0], Flat(ps[1..]);
    var u := PieceText(p);
    assert Flat(ps) + post == u + (rest + post);
    if k < |u| {
      PiecePart(t, raw, p, k);
      OnlyFirst(ps, k);
    } else {
      assert raw[t.pos..] == u + (rest + post)[..k - |u|];
      if |ps| == 1 {
        LastPiece(t, raw, ps, k);
      } else {
        var v := PieceWhole(t, raw, p);
        assert raw[v.pos..] == raw[t.pos..][|u|..];
        PiecesTell(v, raw, ps[1..], post, k - |u|);
      }
    }
  }

  lemma OnlyFirst(ps: seq<Piece>, k: nat)
    requires ps != [] && k < |PieceText(ps[0])|
    ensures ClassIn([ps[0]], k) == ClassIn(ps, k)
  {
    hide PieceText, ValueClass;
  }

  lemma LastPiece(t: Track, raw: string, ps: seq<Piece>, k: nat)
    requires At(t, raw) && ps == [Plain(LONG.toolCallsEnd)] && k >= |PieceText(ps[0])| && PieceText(ps[0]) <= raw[t.pos..]
    ensures Scan(t, raw).decode == ClassIn(ps, k)
  {
    hide SyntaxAt, Scan;
    DoneWhole(t, raw);
    assert ps[1..] == [];
  }

  /** Where the tracker goes wrong at the latest: at the start of a string it takes for a literal, or
      at the end of a literal it takes to go on. */
  ghost function WrongAt(ps: seq<Piece>): (k: nat)
    requires !AllFine(ps)
  {
    var p := ps[0];
    if !Fine(p) then (if p.arg.isString then |ParamTag(p.arg)| else |PieceText(p)|)
    else |PieceText(p)| + WrongAt(ps[1..])
  }

  lemma {:induction false} WrongInside(ps: seq<Piece>)
    requires !AllFine(ps)
    ensures WrongAt(ps) <= |Flat(ps)|
  {
    hide PieceText, Trackable, ParamTag;
    if Fine(ps[0]) { WrongInside(ps[1..]); } else { TagFirst(ps[0].arg); }
  }

  lemma TagFirst(a: Arg)
    ensures |ParamTag(a)| <= |PieceText(Param(a))|
  {
    hide ParamTag, ValueText, SyntaxAt;
  }

  lemma {:induction false} PiecesDiffer(t: Track, raw: string, ps: seq<Piece>)
    requires At(t, raw) && Formed(ps) && !AllFine(ps) && WrongAt(ps) <= |Flat(ps)| && raw[t.pos..] == Flat(ps)[..WrongAt(ps)]
    ensures Scan(t, raw).decode != ClassIn(ps, WrongAt(ps))
    decreases |ps|
  {
    hide SyntaxAt, PieceText, Fine, Inner, Scan, ParamTag;
    var p, k, rest := ps[0], WrongAt(ps), ps[1..];
    var u := PieceText(p);
    if Fine(p) {
      WrongInside(rest);
      assert raw[t.pos..] == u + Flat(rest)[..k - |u|];
      LastFine(ps);
      var v := PieceWhole(t, raw, p);
      assert raw[v.pos..] == raw[t.pos..][|u|..];
      PiecesDiffer(v, raw, rest);
    } else {
      FirstDiffers(t, raw, ps);
    }
  }

  /** The end of a block is no parameter. */
  lemma LastFine(ps: seq<Piece>)
    requires Formed(ps) && !AllFine(ps)
    ensures |ps| > 1
  {
    hide SyntaxAt, Trackable;
  }

  lemma FirstDiffers(t: Track, raw: string, ps: seq<Piece>)
    requires At(t, raw) && Formed(ps) && !Fine(ps[0]) && WrongAt(ps) <= |Flat(ps)| && raw[t.pos..] == Flat(ps)[..WrongAt(ps)]
    ensures Scan(t, raw).decode != ClassIn(ps, WrongAt(ps))
  {
    hide SyntaxAt, ParamTag, ValueText, Scan, Trackable, ClassIn, Inner;
    var a := ps[0].arg;
    assert ps[0] == Param(a);
    var x := PieceText(ps[0]);
    TagFirst(a);
    assert Flat(ps) == x + Flat(ps[1..]);
    if a.isString {
      assert raw[t.pos..] == ParamTag(a);
      StringMistaken(t, raw, a);
      StringFirst(ps, a);
    } else {
      assert raw[t.pos..] == x;
      LiteralGoesOn(t, raw, a);
      LastFine(ps);
      ClassNext(ps);
    }
  }

  /** A string whose kind cannot be read is taken for a literal. */
  lemma StringMistaken(t: Track, raw: string, a: Arg)
    requires At(t, raw) && a.isString && !Trackable(a) && raw[t.pos..] == ParamTag(a)
    ensures Scan(t, raw).decode == JsonStructure
  {
    hide SyntaxAt, ParamTag, Find, Attr, R.EndsWith, Step, Held, Full;
    ParamOpening(a);
    ParamWhole(t, raw, ParamTag(a));
    R.ParamKind(a);
    var v := Step(t, raw).t;
    assert v.pos == |raw| && raw[v.pos..] == "";
    NothingHeld(LONG.paramEnd);
    JsonOpen(v, raw);
  }

  lemma StringFirst(ps: seq<Piece>, a: Arg)
    requires ps != [] && ps[0] == Param(a) && a.isString
    ensures ClassIn(ps, |ParamTag(a)|) == StringPayload
  {
    hide ParamTag, ValueText, SyntaxAt, Held;
    assert ValueAndClose(a)[..0] == "";
    TagLengths(0);
    NothingHeld(LONG.paramEnd);
  }

  /** A literal that ends inside quotes does not end for the tracker. */
  lemma LiteralGoesOn(t: Track, raw: string, a: Arg)
    requires At(t, raw) && !a.isString && !Trackable(a) && raw[t.pos..] == PieceText(Param(a))
    ensures Scan(t, raw).decode == JsonString
  {
    hide SyntaxAt, ParamTag, ValueText, Find, Attr, Step, Held, Full, Scan, Q.State;
    var x, close := ValueText(a), LONG.paramEnd;
    var v := LiteralOpens(t, raw, a);
    var e := v.pos + |x|;
    assert raw[v.pos..] == raw[t.pos..][|ParamTag(a)|..] == ValueAndClose(a);
    FirstClose(raw, v.pos, a);
    TagLengths(0);
    assert raw[v.pos..e] == raw[v.pos..][..|x|] == x;
    LiteralQuotes(a);
    NoCloseInQuotes(raw, v.pos, false, false, e, close);
    CloseQuotes(0);
    QuotesStay(x, close);
    JsonOpen(v, raw);
  }

  lemma QuotesStay(x: string, close: string)
    requires InQuotes(x) && '"' !in close
    ensures InQuotes(x + close)
  {
    hide Q.State;
    var q := Q.State(x, false, false);
    Q.StripJoin(x, close, false, false);
    NoQuotesStay(close, q.0, q.1);
  }

  lemma LiteralOpens(t: Track, raw: string, a: Arg) returns (v: Track)
    requires At(t, raw) && !a.isString && ParamTag(a) <= raw[t.pos..]
    ensures v.syn == 0 && v.pos == t.pos + |ParamTag(a)| <= |raw| && Scan(t, raw) == Scan(v, raw)
    ensures v.mode == JsonParam && !v.inString && !v.escaped
  {
    hide SyntaxAt, ParamTag, Find, Attr, Step, R.EndsWith;
    ParamOpening(a);
    ParamWhole(t, raw, ParamTag(a));
    R.ParamKind(a);
    R.KindTrue(a);
    v := Step(t, raw).t;
    assert |ParamTag(a)| <= |raw[t.pos..]|;
  }

  lemma {:induction false} NoCloseInQuotes(raw: string, p: nat, inString: bool, escaped: bool, e: nat, close: string)
    requires p <= e < |raw| == e + |close| && Find(raw, p, close) == Some(e) && Q.State(raw[p..e], inString, escaped).0
    ensures CloseOut(raw, p, inString, escaped, close).None?
    decreases e - p
  {
    hide Full, Find, Q.State;
    var q := Q.Next(raw[p], inString, escaped);
    if p == e {
      assert raw[p..e] == "";
      Q.Nothing(inString, escaped);
      FindShort(raw, p + 1, close);
      NoCloseOut(raw, p + 1, q.0, q.1, close);
    } else {
      assert raw[p..e][1..] == raw[p + 1..e];
      Q.OneMore(raw[p..e], inString, escaped);
      FindLater(raw, p, e, close);
      NoCloseInQuotes(raw, p + 1, q.0, q.1, e, close);
    }
  }

  lemma ClassNext(ps: seq<Piece>)
    requires Formed(ps) && |ps| > 1
    ensures ClassIn(ps, |PieceText(ps[0])|) == Structure
  {
    hide SyntaxAt, Inner, ValueClass;
    var p, rest := ps[1], ps[1..];
    assert rest[0] == p;
    SomeText(p);
    match p
    case Plain(w) =>
    case Param(a) => ParamOpening(a);
  }

  lemma SomeText(p: Piece)
    requires Inner(p) || p == Plain(LONG.toolCallsEnd)
    ensures PieceText(p) != ""
  {
    hide SyntaxAt, InvokeTag, ParamTag, ValueText;
    TagLengths(0);
    match p
    case Plain(w) =>
      if w != "\n" && w != LONG.invokeEnd && w != LONG.toolCallsEnd {
        var name :| w == InvokeTag(name);
        InvokeOpening(name);
      }
    case Param(a) => ParamOpening(a);
  }

  // ----- Blocks in a message -----

  ghost predicate AllTrackable(calls: seq<Call>) {
    forall i, j :: 0 <= i < |calls| && 0 <= j < |calls[i].args| ==> Trackable(calls[i].args[j])
  }

  lemma FormedTwo(a: Piece, b: Piece, rest: seq<Piece>)
    requires Inner(a) && Inner(b) && Fine(b) && Formed(rest)
    ensures Formed([a, b] + rest) && (AllFine([a, b] + rest) <==> Fine(a) && AllFine(rest))
  {
    hide Inner, Fine;
    var all := [a, b] + rest;
    assert all[1..] == [b] + rest && ([b] + rest)[1..] == rest;
    if AllFine(all) {
      assert Fine(all[0]);
      assert forall i :: 0 <= i < |rest| ==> rest[i] == all[i + 2];
    }
  }

  lemma {:induction false} ArgsFormed(args: seq<Arg>, rest: seq<Piece>)
    requires Formed(rest)
    ensures Formed(ArgPieces(args, rest))
    ensures AllFine(ArgPieces(args, rest)) <==> AllFine(rest) && forall j :: 0 <= j < |args| ==> Trackable(args[j])
  {
    hide Formed, AllFine, Trackable;
    if args != [] {
      ArgsFormed(args[1..], rest);
      FormedTwo(Param(args[0]), Plain("\n"), ArgPieces(args[1..], rest));
      assert args == [args[0]] + args[1..];
    }
  }

  lemma {:induction false} CallsFormed(calls: seq<Call>)
    ensures Formed(CallPieces(calls)) && (AllFine(CallPieces(calls)) <==> AllTrackable(calls))
  {
    hide Trackable, ArgPieces, SyntaxAt, InvokeTag;
    if calls != [] {
      var c, more := calls[0], CallPieces(calls[1..]);
      CallsFormed(calls[1..]);
      var tail := [Plain(LONG.invokeEnd), Plain("\n")] + more;
      FormedTwo(Plain(LONG.invokeEnd), Plain("\n"), more);
      ArgsFormed(c.args, tail);
      FormedTwo(Plain(InvokeTag(c.name)), Plain("\n"), ArgPieces(c.args, tail));
      TrackableFrom(calls);
    }
  }

  lemma TrackableFrom(calls: seq<Call>)
    requires calls != []
    ensures AllTrackable(calls) <==> AllTrackable(calls[1..]) && forall j :: 0 <= j < |calls[0].args| ==> Trackable(calls[0].args[j])
  {
    hide Trackable;
    assert forall i :: 0 < i < |calls| ==> calls[i] == calls[1..][i - 1];
  }

  lemma BlockFormed(calls: seq<Call>)
    ensures var ps := [Plain("\n")] + CallPieces(calls); Formed(ps) && (AllFine(ps) <==> AllTrackable(calls))
  {
    hide Trackable, CallPieces, SyntaxAt;
    CallsFormed(calls);
    var ps := [Plain("\n")] + CallPieces(calls);
    assert ps[1..] == CallPieces(calls);
    assert forall i :: 0 <= i < |ps| - 1 ==> ps[1..][i] == ps[i + 1];
  }

  // ----- Finding the block -----

  lemma NoBreak(k: nat)
    ensures '\n' !in SyntaxAt(k).toolCallsStart
  {
    var m := Mark(k);
    assert SyntaxAt(k).toolCallsStart == "<" + m + "tool_calls>";
    assert '\n' !in m;
  }

  lemma StartStays(pre: string, w: string, i: nat)
    requires StartAt(pre + w, i).Some? && i + |SyntaxAt(StartAt(pre + w, i).value).toolCallsStart| <= |pre|
    ensures StartAt(pre, i).Some?
  {
    hide SyntaxAt;
    FullInBoth(pre, w, i, SyntaxAt(StartAt(pre + w, i).value).toolCallsStart);
  }

  /** No start tag reaches into the line breaks before a block. */
  lemma NoStartBefore(pre: string, w: string, i: nat)
    requires FindStart(pre, 0).None? && i < |pre| + 2 && (|w| > 0 ==> w[0] == '\n') && (|w| > 1 ==> w[1] == '\n')
    ensures StartAt(pre + w, i).None?
  {
    hide SyntaxAt, Full, FindStart;
    var x := pre + w;
    if StartAt(x, i).Some? {
      var k := StartAt(x, i).value;
      var lit := SyntaxAt(k).toolCallsStart;
      NoBreak(k);
      TagLengths(k);
      FullInside(x, i, lit);
      if i + |lit| <= |pre| {
        StartStays(pre, w, i);
      } else {
        R.CharsOf(x, i, lit, if i <= |pre| then |pre| else i);
      }
    }
  }

  lemma StartFound(pre: string, w: string)
    requires FindStart(pre, 0).None? && "\n\n" + LONG.toolCallsStart <= w
    ensures FindStart(pre + w, 0) == Some((|pre| + 2, 0))
  {
    hide SyntaxAt;
    var x, n := pre + w, |pre| + 2;
    forall i | 0 <= i < n ensures StartAt(x, i).None? { NoStartBefore(pre, w, i); }
    FindStartSkip(x, 0, n);
    assert x[n..] == w[2..];
    assert w[2..][..|LONG.toolCallsStart|] == LONG.toolCallsStart;
  }

  /** A part of the start tag is no start tag of another spelling. */
  lemma StartNotYet(pre: string, w: string)
    requires FindStart(pre, 0).None? && w <= "\n\n" + LONG.toolCallsStart && |w| < 2 + |LONG.toolCallsStart|
    ensures FindStart(pre + w, 0).None?
  {
    hide SyntaxAt, Full;
    var x := pre + w;
    forall i | 0 <= i <= |x| ensures StartAt(x, i).None? {
      if i < |pre| + 2 { NoStartBefore(pre, w, i); } else { NoStartIn(x, i, w, |pre|); }
    }
  }

  lemma FirstAngle(k: nat)
    ensures var lit := SyntaxAt(k).toolCallsStart; forall j :: 0 < j < |lit| ==> lit[j] != '<'
  {
    hide SyntaxAt;
    TagAngles(k);
    var lit := SyntaxAt(k).toolCallsStart;
    forall j | 0 < j < |lit| ensures lit[j] != '<' { assert lit[j] == lit[1..][j - 1]; }
  }

  lemma NoStartIn(x: string, i: nat, w: string, p: nat)
    requires p <= |x| && x[p..] == w && p + 2 <= i <= |x| && w <= "\n\n" + LONG.toolCallsStart && |w| < 2 + |LONG.toolCallsStart|
    ensures StartAt(x, i).None?
  {
    hide SyntaxAt, Full;
    var lit := LONG.toolCallsStart;
    FirstAngle(0);
    if StartAt(x, i).Some? {
      var k := StartAt(x, i).value;
      var other := SyntaxAt(k).toolCallsStart;
      StartHere(x, i, k);
      assert x[i] == w[i - p] == lit[i - p - 2];
      SecondByte(k);
      FullInside(x, i, other);
      R.CharsOf(x, i, other, i + 1);
      assert k != 0 ==> x[i + 1] == w[3] == lit[1];
      assert k != 0 ==> x[i..][1] == x[i + 1];
      OtherSecond(x, i, k);
    }
  }

  /** The three start tags differ in their second byte. */
  lemma SecondByte(k: nat)
    requires k < SYNTAXES
    ensures |SyntaxAt(k).toolCallsStart| > 1 && (k != 0 ==> SyntaxAt(k).toolCallsStart[1] != LONG.toolCallsStart[1])
  {
    assert SyntaxAt(0).toolCallsStart[1] == BAR[0] && SyntaxAt(1).toolCallsStart[1] == 'D' && SyntaxAt(2).toolCallsStart[1] == 't';
  }

  lemma OtherSecond(x: string, i: nat, k: nat)
    requires Full(x, i, SyntaxAt(k).toolCallsStart) && |SyntaxAt(k).toolCallsStart| > 1
    ensures i + 1 < |x| && x[i + 1] == SyntaxAt(k).toolCallsStart[1]
  {
    hide SyntaxAt;
    assert x[i..][1] == x[i + 1];
  }

  // ----- The law -----

  /** The tracker says what comes after the first `n` bytes of the message. */
  ghost predicate Tells(pre: string, calls: seq<Call>, post: string, n: nat) {
    n <= |pre + (Block(calls) + post)| ==> Scan(Start(), (pre + (Block(calls) + post))[..n]).decode == ClassAt(calls, n - |pre|)
  }

  /** The pieces of a block begin. */
  lemma Enters(pre: string, calls: seq<Call>, post: string, n: nat) returns (t: Track)
    requires calls != [] && FindStart(pre, 0).None? && |pre| + 2 + |LONG.toolCallsStart| <= n <= |pre + (Block(calls) + post)|
    ensures var raw, ps, k := (pre + (Block(calls) + post))[..n], [Plain("\n")] + CallPieces(calls), n - (|pre| + 2 + |LONG.toolCallsStart|);
      && At(t, raw) && k <= |Flat(ps)| + |post| && raw[t.pos..] == (Flat(ps) + post)[..k] && Scan(Start(), raw) == Scan(t, raw)
  {
    hide SyntaxAt, Block, Flat, CallPieces, FindStart;
    var head, flat := "\n\n" + LONG.toolCallsStart, Flat([Plain("\n")] + CallPieces(calls));
    var x, start := pre + (Block(calls) + post), |pre| + |head|;
    BlockFlat(calls);
    assert x == pre + (head + (flat + post));
    var k := n - start;
    var w := head + (flat + post)[..k];
    var raw := x[..n];
    assert raw == pre + w;
    StartFound(pre, w);
    t := Step(Start(), raw).t;
    assert raw[start..] == (flat + post)[..k];
  }

  lemma Before(pre: string, calls: seq<Call>, post: string, n: nat)
    requires calls != [] && FindStart(pre, 0).None? && n <= |pre + (Block(calls) + post)| && n < |pre| + 2 + |LONG.toolCallsStart|
    ensures Scan(Start(), (pre + (Block(calls) + post))[..n]).decode == Outside
  {
    hide SyntaxAt, Block, Flat, CallPieces, FindStart;
    var x, head := pre + (Block(calls) + post), "\n\n" + LONG.toolCallsStart;
    var raw := x[..n];
    BlockFlat(calls);
    if n <= |pre| {
      assert pre == raw + pre[n..];
      NotBefore(raw, pre[n..]);
    } else {
      var w := head[..n - |pre|];
      assert raw == pre + w;
      StartNotYet(pre, w);
    }
  }

  lemma NotBefore(a: string, b: string)
    requires FindStart(a + b, 0).None?
    ensures FindStart(a, 0).None?
  {
    hide FindStart;
    if FindStart(a, 0).Some? { FindStartMore(a, b, 0); }
  }

  /** Wherever the message is cut, the tracker says what the next byte is, if every value
      can be followed. */
  lemma MessageTells(pre: string, calls: seq<Call>, post: string, n: nat)
    requires calls != [] && FindStart(pre, 0).None? && AllTrackable(calls)
    ensures Tells(pre, calls, post, n)
  {
    hide SyntaxAt, Block, Flat, CallPieces, FindStart, AllTrackable, ClassIn, Scan, Formed, AllFine;
    var start := |pre| + 2 + |LONG.toolCallsStart|;
    if n <= |pre + (Block(calls) + post)| {
      if n < start {
        Before(pre, calls, post, n);
      } else {
        var t := Enters(pre, calls, post, n);
        BlockFormed(calls);
        PiecesTell(t, (pre + (Block(calls) + post))[..n], [Plain("\n")] + CallPieces(calls), post, n - start);
      }
    }
  }

  /** And only then: a value that cannot be followed makes it wrong somewhere. */
  lemma TellsIff(pre: string, calls: seq<Call>, post: string)
    requires calls != [] && FindStart(pre, 0).None?
    ensures (forall n :: Tells(pre, calls, post, n)) <==> AllTrackable(calls)
  {
    hide Tells, AllTrackable, FindStart;
    if AllTrackable(calls) {
      forall n ensures Tells(pre, calls, post, n) { MessageTells(pre, calls, post, n); }
    } else {
      var n := Misses(pre, calls, post);
    }
  }

  lemma Misses(pre: string, calls: seq<Call>, post: string) returns (n: nat)
    requires calls != [] && FindStart(pre, 0).None? && !AllTrackable(calls)
    ensures !Tells(pre, calls, post, n)
  {
    hide SyntaxAt, Block, Flat, CallPieces, FindStart, AllTrackable, ClassIn, Scan, Formed, AllFine, WrongAt;
    var ps := [Plain("\n")] + CallPieces(calls);
    BlockFormed(calls);
    WrongInside(ps);
    BlockFlat(calls);
    var start := |pre| + 2 + |LONG.toolCallsStart|;
    n := start + WrongAt(ps);
    var t := Enters(pre, calls, post, n);
    var raw := (pre + (Block(calls) + post))[..n];
    assert (Flat(ps) + post)[..WrongAt(ps)] == Flat(ps)[..WrongAt(ps)];
    PiecesDiffer(t, raw, ps);
  }

  /** The same for a tracker that has been updated with each chunk as it came. */
  method Watch(pre: string, calls: seq<Call>, post: string, chunks: seq<string>) returns (d: Decode)
    requires calls != [] && FindStart(pre, 0).None? && AllTrackable(calls) && Joined(chunks) <= pre + (Block(calls) + post)
    requires forall i :: 0 < i < |chunks| ==> !Torn(Scan(Start(), Joined(chunks[..i])), Joined(chunks[..i]))
    ensures d == ClassAt(calls, |Joined(chunks)| - |pre|)
  {
    hide SyntaxAt, Block, ClassAt, FindStart, AllTrackable, Scan, Torn;
    var tracker := new Tracker();
    var i, text := 0, "";
    while i < |chunks|
      invariant i <= |chunks| && text == Joined(chunks[..i]) && tracker.Value() == Follow(chunks[..i])
    {
      i := i + 1;
      assert chunks[..i][..i - 1] == chunks[..i - 1];
      text := text + chunks[i - 1];
      tracker.Update(text);
    }
    assert chunks[..i] == chunks;
    d := tracker.decode;
    if chunks != [] {
      ChunksDoNotMatter(chunks);
      assert (pre + (Block(calls) + post))[..|text|] == text;
      MessageTells(pre, calls, post, |text|);
    } else {
      NothingTold(calls, 0 - |pre|);
    }
  }

  lemma NothingTold(calls: seq<Call>, n: int)
    requires n <= 0
    ensures ClassAt(calls, n) == Outside
  {
  }
}
