/** Stop strings: generation ends at the first one, and no byte of it is sent. */
module StopScan {
  import opened DsmlText
  import opened StreamText

  /** The stop strings of a request; `maxLen` is the length of the longest. */
  datatype StopList = StopList(v: seq<string>, maxLen: nat)

  ghost predicate Listed(stops: StopList) {
    && (forall k :: 0 <= k < |stops.v| ==> 0 < |stops.v[k]| <= stops.maxLen)
    && (stops.v == [] ==> stops.maxLen == 0)
    && (stops.v != [] ==> exists k :: 0 <= k < |stops.v| && |stops.v[k]| == stops.maxLen)
  }

  /** Take a stop string unless it is empty. */
  function Push(stops: StopList, s: string): (r: StopList)
    requires Listed(stops)
    ensures Listed(r) && (forall t :: t in r.v <==> t in stops.v || (t == s && s != ""))
  {
    if s == "" then stops
    else
      var r := StopList(stops.v + [s], if |s| > stops.maxLen then |s| else stops.maxLen);
      assert r.v[|stops.v|] == s && (forall k :: 0 <= k < |stops.v| ==> r.v[k] == stops.v[k]);
      r
  }

  // ----- Where the first stop string stands -----

  /** A stop string stands at `i`. */
  predicate Hit(stops: StopList, text: string, i: nat) {
    exists k :: 0 <= k < |stops.v| && Full(text, i, stops.v[k])
  }

  function FirstHit(stops: StopList, text: string, from: nat): (r: Option<nat>)
    ensures r.Some? ==> from <= r.value <= |text| && Hit(stops, text, r.value)
    ensures forall i :: from <= i && (r.None? || i < r.value) ==> !Hit(stops, text, i)
    decreases |text| - from
  {
    if from > |text| then None
    else if Hit(stops, text, from) then Some(from)
    else FirstHit(stops, text, from + 1)
  }

  /** A search of one string after another finds the earliest of all. */
  method FindFrom(stops: StopList, text: string, from: nat) returns (r: Option<(nat, nat)>)
    requires from <= |text|
    ensures r.None? <==> FirstHit(stops, text, from) == None
    ensures r.Some? ==> FirstHit(stops, text, from) == Some(r.value.0)
    ensures r.Some? ==> exists k :: 0 <= k < |stops.v| && |stops.v[k]| == r.value.1 && Full(text, r.value.0, stops.v[k])
                                  && (forall m :: 0 <= m < k ==> !Full(text, r.value.0, stops.v[m]))
  {
    r := None;
    var i := 0;
    while i < |stops.v|
      invariant 0 <= i <= |stops.v|
      invariant r.None? ==> forall m, p :: 0 <= m < i && from <= p ==> !Full(text, p, stops.v[m])
      invariant r.Some? ==> from <= r.value.0 && (forall m, p :: 0 <= m < i && from <= p < r.value.0 ==> !Full(text, p, stops.v[m]))
      invariant r.Some? ==> exists k :: 0 <= k < i && |stops.v[k]| == r.value.1 && Full(text, r.value.0, stops.v[k])
                                    && (forall m :: 0 <= m < k ==> !Full(text, r.value.0, stops.v[m]))
    {
      var p := FindLit(text, from, stops.v[i]);
      if p.Some? && (r.None? || p.value < r.value.0) { r := Some((p.value, |stops.v[i]|)); }
      i := i + 1;
    }
    FirstIs(stops, text, from, if r.Some? then Some(r.value.0) else None);
  }

  lemma FirstIs(stops: StopList, text: string, from: nat, r: Option<nat>)
    requires r.Some? ==> from <= r.value && Hit(stops, text, r.value)
    requires forall m, p :: 0 <= m < |stops.v| && from <= p && (r.None? || p < r.value) ==> !Full(text, p, stops.v[m])
    ensures FirstHit(stops, text, from) == r
  {
    var f := FirstHit(stops, text, from);
    assert forall p :: from <= p && (r.None? || p < r.value) ==> !Hit(stops, text, p);
  }

  // ----- The window -----

  /** What may still belong to a stop string that is not complete. */
  function Hold(stops: StopList): (n: nat) {
    if stops.maxLen > 1 then stops.maxLen - 1 else 0
  }

  function Less(n: nat, hold: nat): (r: nat) {
    if n > hold then n - hold else 0
  }

  function SafeLength(stops: StopList, length: nat): (r: nat) {
    if stops.v == [] || stops.maxLen <= 1 then length else Less(length, stops.maxLen - 1)
  }

  /** Text without a stop string has none before the window, whatever follows. */
  lemma NoneBefore(stops: StopList, text: string, more: string, i: nat)
    requires Listed(stops) && FirstHit(stops, text, 0) == None && i < Less(|text|, Hold(stops))
    ensures !Hit(stops, text + more, i)
  {
    forall k | 0 <= k < |stops.v| ensures !Full(text + more, i, stops.v[k]) {
      assert !Hit(stops, text, i);
      FullMore(text, more, i, stops.v[k]);
    }
  }

  /** So the search of the window finds the first stop string of the whole text. */
  lemma WindowEnough(stops: StopList, text: string, more: string, from: nat)
    requires Listed(stops) && FirstHit(stops, text, 0) == None && from <= Less(|text|, Hold(stops))
    ensures FirstHit(stops, text + more, from) == FirstHit(stops, text + more, 0)
  {
    forall i | 0 <= i < from ensures !Hit(stops, text + more, i) { NoneBefore(stops, text, more, i); }
    FirstSame(stops, text + more, from);
  }

  lemma FirstSame(stops: StopList, text: string, from: nat)
    requires forall i :: 0 <= i < from ==> !Hit(stops, text, i)
    ensures FirstHit(stops, text, from) == FirstHit(stops, text, 0)
  {
    var a, b := FirstHit(stops, text, from), FirstHit(stops, text, 0);
    assert a.Some? ==> Hit(stops, text, a.value);
    assert b.Some? ==> Hit(stops, text, b.value);
  }

  // ----- What generation keeps -----

  /** The text kept when the pieces come one after another. */
  ghost function Final(stops: StopList, text: string, pieces: seq<string>): (r: string)
    decreases |pieces|
  {
    if pieces == [] then text
    else
      var t := text + pieces[0];
      var p := FirstHit(stops, t, 0);
      if p.Some? then t[..p.value] else Final(stops, t, pieces[1..])
  }

  /** How many pieces are taken. */
  ghost function Taken(stops: StopList, text: string, pieces: seq<string>): (r: nat)
    ensures r <= |pieces|
    decreases |pieces|
  {
    if pieces == [] then 0
    else
      var t := text + pieces[0];
      1 + if FirstHit(stops, t, 0).Some? then 0 else Taken(stops, t, pieces[1..])
  }

  /** No character goes on at the end of the first `n` bytes. */
  ghost predicate WholeAt(text: string, n: nat) {
    forall j :: 0 <= j < n ==> !Straddles(text, j, n)
  }

  /** What has been sent ends nowhere inside a character. */
  ghost predicate Cuts(all: string, deltas: seq<string>) {
    forall i :: 0 < i <= |deltas| ==> WholeAt(all, |Joined(deltas[..i])|)
  }

  /** The same, but for the end of the text, where a character may be cut short. */
  ghost predicate CutsBefore(all: string, deltas: seq<string>) {
    forall i :: 0 < i <= |deltas| ==> |Joined(deltas[..i])| == |all| || WholeAt(all, |Joined(deltas[..i])|)
  }

  ghost predicate Heads(stops: StopList) {
    forall k :: 0 <= k < |stops.v| && stops.v[k] != "" ==> !IsCont(stops.v[k][0])
  }

  lemma JoinedMore(deltas: seq<string>, d: string)
    ensures Joined(deltas + [d]) == Joined(deltas) + d
    ensures forall i :: 0 <= i <= |deltas| ==> (deltas + [d])[..i] == deltas[..i]
  {
    assert (deltas + [d])[..|deltas|] == deltas;
  }

  lemma CutsMore(all: string, deltas: seq<string>, d: string)
    requires Cuts(all, deltas) && WholeAt(all, |Joined(deltas)| + |d|)
    ensures Cuts(all, deltas + [d])
  {
    hide WholeAt;
    JoinedMore(deltas, d);
    var more := deltas + [d];
    forall i | 0 < i <= |more| ensures WholeAt(all, |Joined(more[..i])|) {
      if i <= |deltas| { assert more[..i] == deltas[..i]; } else { assert more[..i] == more; }
    }
  }

  lemma CutsLonger(all: string, more: string, deltas: seq<string>)
    requires Cuts(all, deltas) && |Joined(deltas)| <= |all|
    ensures Cuts(all + more, deltas)
  {
    hide WholeAt;
    forall i | 0 < i <= |deltas| ensures WholeAt(all + more, |Joined(deltas[..i])|) {
      JoinedGrows(deltas, i);
      WholeLonger(all, more, |Joined(deltas[..i])|);
    }
  }

  lemma WholeLonger(all: string, more: string, n: nat)
    requires n <= |all|
    ensures WholeAt(all + more, n) <==> WholeAt(all, n)
  {
    assert forall j :: 0 <= j < n ==> (Straddles(all + more, j, n) <==> Straddles(all, j, n));
  }

  lemma {:induction false} JoinedGrows(deltas: seq<string>, i: nat)
    requires i <= |deltas|
    ensures |Joined(deltas[..i])| <= |Joined(deltas)|
  {
    if i == |deltas| {
      assert deltas[..i] == deltas;
    } else {
      var d := deltas[..|deltas| - 1];
      JoinedGrows(d, i);
      assert d[..i] == deltas[..i];
    }
  }

  lemma ProperPart(all: string, n: nat)
    requires Proper(all) && n <= |all|
    ensures Proper(all[..n])
  {
    forall i | 0 <= i < n && IsCont(all[..n][i]) ensures Led(all[..n], i) {
      var j := Leader(all, i);
      assert all[..n][j] == all[j];
    }
  }

  lemma WholeIsBoundary(all: string, n: nat)
    requires Proper(all) && n <= |all|
    ensures WholeAt(all, n) ==> Boundary(all, n)
    ensures n < |all| && Boundary(all, n) ==> WholeAt(all, n)
  {
    if n < |all| && IsCont(all[n]) {
      var j := Leader(all, n);
      assert Straddles(all, j, n);
    }
  }

  // ----- The loop over the pieces -----

  /** Send what is safe up to a limit. */
  method Send(text: string, deltas: seq<string>, sent: nat, limit: nat, final: bool) returns (more: seq<string>, now: nat)
    requires sent <= limit <= |text| && Joined(deltas) == text[..sent]
    ensures sent <= now <= limit <= now + 4 && Joined(more) == text[..now] && (final ==> now == limit) && deltas <= more
    ensures Proper(text) && Cuts(text, deltas) && WholeAt(text, sent) && (final ==> WholeAt(text, limit)) ==> Cuts(text, more) && WholeAt(text, now)
  {
    hide Utf8Safe, Cuts, WholeAt, Proper;
    more, now := deltas, sent;
    Utf8Near(text, sent, limit);
    var streamed := Utf8SafeLen(text, sent, limit, final);
    if streamed > sent {
      more := deltas + [text[sent..streamed]];
      now := streamed;
      JoinedMore(deltas, text[sent..streamed]);
      if Proper(text) && Cuts(text, deltas) && WholeAt(text, sent) && (final ==> WholeAt(text, limit)) {
        SafeIsWhole(text, sent, limit);
        CutsMore(text, deltas, text[sent..streamed]);
      }
    }
  }

  lemma SafeIsWhole(text: string, sent: nat, limit: nat)
    requires sent <= limit <= |text| && Proper(text) && WholeAt(text, sent)
    ensures Utf8Safe(text, sent, limit) > sent ==> WholeAt(text, Utf8Safe(text, sent, limit))
  {
    hide Utf8Safe;
    WholeIsBoundary(text, sent);
    Utf8SafeIs(text, sent, limit);
    var r := Utf8Safe(text, sent, limit);
    if r == limit > sent {
      forall j | 0 <= j < limit ensures !Straddles(text, j, limit) { assert j < sent ==> !Straddles(text, j, sent); }
    } else if r < limit {
      WholeIsBoundary(text, r);
      assert !IsCont(text[r]);
    }
  }

  /** By the time piece `i` is dealt with, `upTo[i]` deltas have been sent, and they leave no
      more than may belong to a stop string, and a cut character. */
  ghost predicate Timely(stops: StopList, pieces: seq<string>, deltas: seq<string>, upTo: seq<nat>) {
    && |upTo| <= |pieces|
    && forall i :: 0 <= i < |upTo| ==> upTo[i] <= |deltas| && |Joined(pieces[..i + 1])| <= |Joined(deltas[..upTo[i]])| + Hold(stops) + 4
  }

  lemma TimelyMore(stops: StopList, pieces: seq<string>, deltas: seq<string>, upTo: seq<nat>, more: seq<string>)
    requires Timely(stops, pieces, deltas, upTo) && deltas <= more
    ensures Timely(stops, pieces, more, upTo)
  {
    forall i | 0 <= i < |upTo| ensures more[..upTo[i]] == deltas[..upTo[i]] { }
  }

  lemma TimelyNext(stops: StopList, pieces: seq<string>, deltas: seq<string>, upTo: seq<nat>, more: seq<string>)
    requires Timely(stops, pieces, deltas, upTo) && deltas <= more && |upTo| < |pieces|
    requires |Joined(pieces[..|upTo| + 1])| <= |Joined(more)| + Hold(stops) + 4
    ensures Timely(stops, pieces, more, upTo + [|more|])
  {
    hide Hold;
    TimelyMore(stops, pieces, deltas, upTo, more);
    assert more[..|more|] == more;
    var all := upTo + [|more|];
    assert forall i :: 0 <= i < |upTo| ==> all[i] == upTo[i];
  }

  ghost predicate Going(stops: StopList, pieces: seq<string>, n: nat, text: string, scanFrom: nat, sent: nat, deltas: seq<string>) {
    && n <= |pieces| && text == Joined(pieces[..n]) && FirstHit(stops, text, 0) == None
    && Final(stops, "", pieces) == Final(stops, text, pieces[n..])
    && Taken(stops, "", pieces) == n + Taken(stops, text, pieces[n..])
    && scanFrom <= Less(|text|, Hold(stops)) && sent <= Less(|text|, Hold(stops)) && Joined(deltas) == text[..sent]
    && (Heads(stops) && Proper(text) ==> Cuts(text, deltas) && WholeAt(text, sent))
  }

  /** The next piece has come. */
  lemma Grown(stops: StopList, pieces: seq<string>, n: nat, text: string, scanFrom: nat, sent: nat, deltas: seq<string>)
    requires Listed(stops) && n < |pieces| && Going(stops, pieces, n, text, scanFrom, sent, deltas)
    ensures var t := text + pieces[n];
      && t == Joined(pieces[..n + 1]) && FirstHit(stops, t, scanFrom) == FirstHit(stops, t, 0)
      && Final(stops, "", pieces) == (var p := FirstHit(stops, t, 0); if p.Some? then t[..p.value] else Final(stops, t, pieces[n + 1..]))
      && Taken(stops, "", pieces) == n + 1 + (if FirstHit(stops, t, 0).Some? then 0 else Taken(stops, t, pieces[n + 1..]))
      && scanFrom <= SafeLength(stops, |t|) && sent <= SafeLength(stops, |t|) == Less(|t|, Hold(stops)) && Joined(deltas) == t[..sent]
      && (FirstHit(stops, t, 0).Some? ==> sent <= FirstHit(stops, t, 0).value)
      && (Heads(stops) && Proper(t) ==> Cuts(t, deltas) && WholeAt(t, sent))
      && (Heads(stops) && Proper(t) && FirstHit(stops, t, 0).Some? ==> WholeAt(t, FirstHit(stops, t, 0).value))
  {
    hide Proper, Cuts, WholeAt, Hit, Heads;
    var t := text + pieces[n];
    assert pieces[n..][0] == pieces[n] && pieces[n..][1..] == pieces[n + 1..];
    assert pieces[..n + 1][..n] == pieces[..n];
    WindowEnough(stops, text, pieces[n], scanFrom);
    WindowEnough(stops, text, pieces[n], sent);
    if Heads(stops) && Proper(t) { GrownCuts(stops, text, pieces[n], sent, deltas); }
  }

  lemma GrownCuts(stops: StopList, text: string, piece: string, sent: nat, deltas: seq<string>)
    requires Listed(stops) && Heads(stops) && Proper(text + piece) && sent <= |text| && Joined(deltas) == text[..sent]
    requires Proper(text) ==> Cuts(text, deltas) && WholeAt(text, sent)
    ensures Cuts(text + piece, deltas) && WholeAt(text + piece, sent)
    ensures FirstHit(stops, text + piece, 0).Some? ==> WholeAt(text + piece, FirstHit(stops, text + piece, 0).value)
  {
    hide FirstHit, Proper, Cuts, WholeAt;
    var t := text + piece;
    ProperPart(t, |text|);
    assert t[..|text|] == text;
    CutsLonger(text, piece, deltas);
    WholeLonger(text, piece, sent);
    var p := FirstHit(stops, t, 0);
    if p.Some? {
      var k :| 0 <= k < |stops.v| && Full(t, p.value, stops.v[k]);
      assert t[p.value] == t[p.value..][0] == stops.v[k][0];
      WholeIsBoundary(t, p.value);
    }
  }

  lemma Starts(stops: StopList, pieces: seq<string>)
    requires Listed(stops)
    ensures Going(stops, pieces, 0, "", 0, 0, [])
  {
    hide Hit;
    assert pieces[..0] == [] && pieces[0..] == pieces;
    forall i: nat ensures !Hit(stops, "", i) { NoHitEmpty(stops, i); }
  }

  lemma NoHitEmpty(stops: StopList, i: nat)
    requires Listed(stops)
    ensures !Hit(stops, "", i)
  {
  }

  lemma CutsEnd(all: string, deltas: seq<string>)
    requires Cuts(all, deltas)
    ensures CutsBefore(all, deltas)
  {
  }

  /** The rest of the text is sent when generation ends. */
  lemma Flushed(text: string, before: seq<string>, sent: nat, deltas: seq<string>)
    requires sent <= |text| && Joined(before) == text[..sent]
    requires deltas == before + (if |text| > sent then [text[sent..]] else [])
    ensures Joined(deltas) == text && (Cuts(text, before) ==> CutsBefore(text, deltas))
  {
    hide WholeAt;
    JoinedMore(before, text[sent..]);
    assert text[..sent] + text[sent..] == text && before + [] == before;
    if Cuts(text, before) {
      forall i | 0 < i <= |deltas| ensures |Joined(deltas[..i])| == |text| || WholeAt(text, |Joined(deltas[..i])|) {
        if i <= |before| { assert deltas[..i] == before[..i]; } else { assert deltas[..i] == deltas; }
      }
    }
  }

  lemma EndsHere(stops: StopList, pieces: seq<string>, text: string)
    requires text == Joined(pieces) && Final(stops, "", pieces) == Final(stops, text, []) && Taken(stops, "", pieces) == |pieces| + Taken(stops, text, [])
    ensures Final(stops, "", pieces) == text && pieces[..Taken(stops, "", pieces)] == pieces
  {
  }

  /** The pieces of text come one by one.  What is sent is in the end exactly the kept
      text, and the kept text is what a search of the whole text after every piece
      would keep. */
  method Generate(stops: StopList, pieces: seq<string>) returns (text: string, deltas: seq<string>, hit: bool, ghost upTo: seq<nat>)
    requires Listed(stops)
    ensures text == Final(stops, "", pieces) && Joined(deltas) == text
    ensures hit <==> FirstHit(stops, Joined(pieces[..Taken(stops, "", pieces)]), 0).Some?
    ensures Heads(stops) && Proper(Joined(pieces[..Taken(stops, "", pieces)])) ==> CutsBefore(Joined(pieces[..Taken(stops, "", pieces)]), deltas)
    ensures Timely(stops, pieces, deltas, upTo) && |upTo| == Taken(stops, "", pieces) - if hit then 1 else 0
  {
    hide Proper, Cuts, CutsBefore, WholeAt, Hit, Full, Heads, FirstHit, Final, Taken, Listed, Timely, Hold;
    text, deltas, hit, upTo := "", [], false, [];
    NothingTimely(stops, pieces);
    var scanFrom, sent, n := 0, 0, 0;
    Starts(stops, pieces);
    while n < |pieces|
      invariant Going(stops, pieces, n, text, scanFrom, sent, deltas) && !hit
      invariant Timely(stops, pieces, deltas, upTo) && |upTo| == n
    {
      Grown(stops, pieces, n, text, scanFrom, sent, deltas);
      text := text + pieces[n];
      n := n + 1;
      var found := FindFrom(stops, text, scanFrom);
      hit := found.Some?;
      var limit := if hit then found.value.0 else SafeLength(stops, |text|);
      ghost var before := deltas;
      deltas, sent := Send(text, deltas, sent, limit, hit);
      TimelyMore(stops, pieces, before, upTo, deltas);
      if !hit && stops.maxLen > 1 { scanFrom := Less(|text|, stops.maxLen - 1); }
      if hit {
        ghost var all := text;
        text := text[..found.value.0];
        assert text[..sent] == text;
        if Cuts(all, deltas) { CutsEnd(all, deltas); }
        return;
      }
      HeldLess(|text|, Hold(stops));
      TimelyNext(stops, pieces, before, upTo, deltas);
      upTo := upTo + [|deltas|];
    }
    assert pieces[..n] == pieces && pieces[n..] == [];
    EndsHere(stops, pieces, text);
    ghost var before := deltas;
    if |text| > sent { deltas := deltas + [text[sent..]]; }
    Flushed(text, before, sent, deltas);
    TimelyMore(stops, pieces, before, upTo, deltas);
  }

  lemma NothingTimely(stops: StopList, pieces: seq<string>)
    ensures Timely(stops, pieces, [], [])
  {
  }

  lemma HeldLess(n: nat, hold: nat)
    ensures n <= Less(n, hold) + hold
  {
  }

  // ----- How the text is cut into pieces -----

  /** A stop string ends inside another, and no stop string stands at the start of
      what comes before its end. */
  ghost predicate NestedAt(stops: StopList, u: string, v: string, o: nat) {
    u in stops.v && v in stops.v && 0 < o && o + |u| < |v| && Full(v, o, u) && !Hit(stops, v[..o + |u|], 0)
  }

  ghost predicate Nested(stops: StopList) {
    exists u, v, o: nat :: NestedAt(stops, u, v, o)
  }

  /** The kept text is the same however the text comes in pieces. */
  ghost predicate CutsDoNotMatter(stops: StopList) {
    forall pieces :: Final(stops, "", pieces) == Final(stops, "", [Joined(pieces)])
  }

  lemma FinalOnce(stops: StopList, text: string)
    ensures Final(stops, "", [text]) == (var p := FirstHit(stops, text, 0); if p.Some? then text[..p.value] else text)
  {
    assert "" + text == text;
  }

  lemma HitMore(stops: StopList, text: string, more: string, i: nat)
    requires Hit(stops, text, i)
    ensures Hit(stops, text + more, i)
  {
    var k :| 0 <= k < |stops.v| && Full(text, i, stops.v[k]);
    FullMore(text, more, i, stops.v[k]);
  }

  /** More text brings the first stop string forward only by nesting. */
  lemma FirstStays(stops: StopList, text: string, more: string)
    requires FirstHit(stops, text, 0).Some? && !Nested(stops)
    ensures FirstHit(stops, text + more, 0) == FirstHit(stops, text, 0)
  {
    var p := FirstHit(stops, text, 0).value;
    HitMore(stops, text, more, p);
    var q := FirstHit(stops, text + more, 0).value;
    if q < p { EarlierNests(stops, text, more, q, p); }
  }

  lemma EarlierNests(stops: StopList, text: string, more: string, q: nat, p: nat)
    requires q < p <= |text| && Hit(stops, text, p) && !Hit(stops, text, q) && Hit(stops, text + more, q)
    ensures Nested(stops)
  {
    hide Full;
    var a :| 0 <= a < |stops.v| && Full(text, p, stops.v[a]);
    var b :| 0 <= b < |stops.v| && Full(text + more, q, stops.v[b]);
    var u, v, o := stops.v[a], stops.v[b], p - q;
    FullMore(text, more, q, v);
    Inside(text, more, q, v, o, u);
    FullInside(text, p, u);
    HeadOfText(stops, text, q, v, o + |u|);
    assert NestedAt(stops, u, v, o);
  }

  /** What stands in the text after `q` stands in the unfinished `v` there. */
  lemma Inside(text: string, more: string, q: nat, v: string, o: nat, u: string)
    requires q <= |text| && |text| - q < |v| && Full(text + more, q, v) && Full(text, q + o, u)
    ensures o + |u| < |v| && Full(v, o, u)
  {
    var all := text + more;
    assert v == all[q..][..|v|];
    assert u == text[q + o..][..|u|];
    forall i | 0 <= i < |u| ensures v[o..][i] == u[i] { assert v[o + i] == all[q + o + i] == text[q + o + i]; }
    assert v[o..][..|u|] == u;
  }

  lemma HeadOfText(stops: StopList, text: string, q: nat, v: string, n: nat)
    requires q <= |text| && text[q..] <= v && n <= |text| - q && n <= |v| && !Hit(stops, text, q)
    ensures !Hit(stops, v[..n], 0)
  {
    forall k | 0 <= k < |stops.v| ensures !Full(v[..n], 0, stops.v[k]) { HeadFull(text, q, v, n, stops.v[k]); }
  }

  lemma HeadFull(text: string, q: nat, v: string, n: nat, w: string)
    requires q <= |text| && text[q..] <= v && n <= |text| - q && n <= |v|
    ensures Full(v[..n], 0, w) ==> Full(text, q, w)
  {
    assert v[..n][0..] == v[..n] == text[q..][..n];
  }

  lemma {:induction false} NoCutMatters(stops: StopList, text: string, pieces: seq<string>)
    requires !Nested(stops) && FirstHit(stops, text, 0) == None
    ensures Final(stops, text, pieces) == Final(stops, "", [text + Joined(pieces)])
    decreases |pieces|
  {
    hide Nested, Hit, FirstHit;
    FinalOnce(stops, text + Joined(pieces));
    if pieces == [] {
      assert text + "" == text;
    } else {
      var t, rest := text + pieces[0], pieces[1..];
      JoinedFirst(pieces);
      assert text + Joined(pieces) == t + Joined(rest);
      var p := FirstHit(stops, t, 0);
      if p.Some? {
        FirstStays(stops, t, Joined(rest));
        assert (t + Joined(rest))[..p.value] == t[..p.value];
      } else {
        NoCutMatters(stops, t, rest);
      }
    }
  }

  lemma {:induction false} JoinedFirst(pieces: seq<string>)
    requires pieces != []
    ensures Joined(pieces) == pieces[0] + Joined(pieces[1..])
  {
    var n := |pieces| - 1;
    if n > 0 {
      JoinedFirst(pieces[..n]);
      var mid := Joined(pieces[..n][1..]);
      assert Joined(pieces[1..]) == mid + pieces[n] by {
        assert pieces[1..][..n - 1] == pieces[..n][1..] && pieces[1..][n - 1] == pieces[n];
      }
      assert (pieces[0] + mid) + pieces[n] == pieces[0] + (mid + pieces[n]);
    } else {
      assert pieces[..0] == [] && pieces[1..] == [] && "" + pieces[0] == pieces[0] + "";
    }
  }

  /** A nested stop string shows when its end is where the text is cut. */
  lemma NestingShows(stops: StopList, u: string, v: string, o: nat)
    requires Listed(stops) && NestedAt(stops, u, v, o)
    ensures var n := o + |u|; Final(stops, "", [v[..n], v[n..]]) != Final(stops, "", [Joined([v[..n], v[n..]])])
  {
    hide Listed;
    var n := o + |u|;
    var pieces := [v[..n], v[n..]];
    JoinedFirst(pieces);
    JoinedFirst(pieces[1..]);
    assert pieces[1..][1..] == [];
    assert Joined(pieces) == v;
    FinalOnce(stops, v);
    StopAt(stops, v, v, 0);
    FullCut(v, o, u);
    StopAt(stops, v[..n], u, o);
    assert "" + v[..n] == v[..n];
    assert FirstHit(stops, v[..n], 0).Some? && FirstHit(stops, v[..n], 0).value > 0;
  }

  lemma FullCut(v: string, o: nat, u: string)
    requires Full(v, o, u)
    ensures Full(v[..o + |u|], o, u)
  {
    assert v[..o + |u|][o..] == v[o..][..|u|] == u;
  }

  lemma StopAt(stops: StopList, text: string, u: string, i: nat)
    requires u in stops.v && Full(text, i, u)
    ensures Hit(stops, text, i) && FirstHit(stops, text, 0).Some? && FirstHit(stops, text, 0).value <= i
  {
    var k :| 0 <= k < |stops.v| && stops.v[k] == u;
    assert Hit(stops, text, i);
  }

  /** The pieces do not matter exactly where no stop string is nested in another. */
  lemma CutsMatterIffNested(stops: StopList)
    requires Listed(stops)
    ensures CutsDoNotMatter(stops) <==> !Nested(stops)
  {
    hide Hit, FirstHit, Final, Listed, Joined;
    if Nested(stops) {
      var u, v, o: nat :| NestedAt(stops, u, v, o);
      NestingShows(stops, u, v, o);
      var n := o + |u|;
      assert exists pieces :: Final(stops, "", pieces) != Final(stops, "", [Joined(pieces)]) by {
        assert Final(stops, "", [v[..n], v[n..]]) != Final(stops, "", [Joined([v[..n], v[n..]])]);
      }
    } else {
      forall pieces ensures Final(stops, "", pieces) == Final(stops, "", [Joined(pieces)]) {
        Starts(stops, pieces);
        NoCutMatters(stops, "", pieces);
        assert "" + Joined(pieces) == Joined(pieces);
      }
    }
  }

  /** The stop strings `abc` and `b`: after `ab` the text is kept up to the `b`, but
      all of `abc` at once is cut before the `a`. */
  lemma CutsMayMatter()
    ensures var stops := Push(Push(StopList([], 0), "abc"), "b"); NestedAt(stops, "b", "abc", 1) && !CutsDoNotMatter(stops)
  {
    hide Final, Joined;
    var stops := Push(Push(StopList([], 0), "abc"), "b");
    assert stops.v == ["abc", "b"];
    assert "abc"[1..] == "bc" && "abc"[..2] == "ab" && "ab"[0..] == "ab";
    assert |"abc"| > |"ab"| && "b"[0] != "ab"[0] && "b" <= "bc";
    assert NestedAt(stops, "b", "abc", 1);
    CutsMatterIffNested(stops);
  }

  // ----- When the search fires -----

  ghost function TextAfter(text: string, pieces: seq<string>, k: nat): (r: string)
    requires k <= |pieces|
  {
    text + Joined(pieces[..k])
  }

  /** The search fires with the first piece that completes a stop string, and keeps the
      text up to the earliest one. */
  lemma {:induction false} FiresFirst(stops: StopList, text: string, pieces: seq<string>)
    ensures var n := Taken(stops, text, pieces);
      && (forall k :: 0 < k < n ==> FirstHit(stops, TextAfter(text, pieces, k), 0).None?)
      && (n < |pieces| ==> n > 0 && FirstHit(stops, TextAfter(text, pieces, n), 0).Some?)
      && Final(stops, text, pieces) == (var t := TextAfter(text, pieces, n);
           var p := FirstHit(stops, t, 0); if n > 0 && p.Some? then t[..p.value] else t)
    decreases |pieces|
  {
    hide Hit, FirstHit;
    var n := Taken(stops, text, pieces);
    assert pieces[..0] == [] && text + "" == text;
    if pieces != [] {
      var t, rest := text + pieces[0], pieces[1..];
      FiresFirst(stops, t, rest);
      forall k | 0 < k <= |pieces| ensures TextAfter(text, pieces, k) == TextAfter(t, rest, k - 1) {
        JoinedFirst(pieces[..k]);
        assert pieces[..k][1..] == rest[..k - 1];
      }
      assert TextAfter(t, rest, 0) == t by { assert rest[..0] == [] && t + "" == t; }
      forall k | 0 < k < n ensures FirstHit(stops, TextAfter(text, pieces, k), 0).None? {
        assert TextAfter(text, pieces, k) == TextAfter(t, rest, k - 1);
      }
    }
  }
}
