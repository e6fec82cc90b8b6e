/** What a terminal sends for a paste: the text, and then an end marker. */
module PasteText {
  import opened DsmlText

  const PASTE_END := ['\U{1B}', '[', '2', '0', '1', '~']

  /** The text ends with the first `k` bytes of the marker. */
  predicate EndsIn(s: string, k: nat) {
    k <= 6 && k <= |s| && s[|s| - k..] == PASTE_END[..k]
  }

  /** The escape byte is only at the start of the marker, so there is one such `k`. */
  lemma EndsOnce(s: string, j: nat, k: nat)
    requires EndsIn(s, j) && EndsIn(s, k) && 0 < j && 0 < k
    ensures j == k
  {
    if j < k { EscapeOnce(s, j, k); } else if k < j { EscapeOnce(s, k, j); }
  }

  lemma EscapeOnce(s: string, j: nat, k: nat)
    requires EndsIn(s, j) && EndsIn(s, k) && 0 < j <= k
    ensures j == k
  {
    var n := |s|;
    assert s[n - j] == s[n - j..][0] == PASTE_END[..j][0] == PASTE_END[0];
    assert s[n - j] == s[n - k..][k - j] == PASTE_END[..k][k - j] == PASTE_END[k - j];
  }

  lemma EndsMore(s: string, c: char, k: nat)
    requires k < 6
    ensures EndsIn(s + [c], k + 1) <==> EndsIn(s, k) && c == PASTE_END[k]
  {
    var t := s + [c];
    if k <= |s| {
      assert t[|t| - k - 1..] == s[|s| - k..] + [c];
      assert PASTE_END[..k + 1] == PASTE_END[..k] + [PASTE_END[k]];
      assert t[|t| - k - 1..][..k] == s[|s| - k..] && t[|t| - k - 1..][k] == c;
      assert PASTE_END[..k + 1][..k] == PASTE_END[..k];
    }
  }

  /** As much of a marker as the text ends with, short of all of it. */
  function Open(s: string, k: nat): (r: nat)
    ensures r <= k && r <= |s|
  {
    if k == 0 then 0 else if EndsIn(s, k) then k else Open(s, k - 1)
  }

  /** Everything before the end marker; without one, all but the start of one. */
  function Pasted(input: string): (r: string) {
    var f := Find(input, 0, PASTE_END);
    if f.Some? then input[..f.value] else input[..|input| - Open(input, 5)]
  }

  /** `k` bytes of a marker are pending after `s`, and no whole one has come. */
  ghost predicate Pending(s: string, k: nat) {
    && k < 6 && EndsIn(s, k) && (forall m :: k < m < 6 ==> !EndsIn(s, m))
    && (forall p: nat :: !Full(s, p, PASTE_END))
  }

  /** Read up to the marker.  A byte that breaks a marker off can only start a new one. */
  method ReadPaste(input: string) returns (data: string)
    ensures data == Pasted(input)
  {
    hide EndsIn, Full, Find;
    data := "";
    var i, k := 0, 0;
    StartPending();
    while i < |input|
      invariant 0 <= i <= |input| && Pending(input[..i], k) && k <= i && data == input[..i - k]
    {
      var c := input[i];
      var s := input[..i];
      assert input[..i + 1] == s + [c];
      PendingData(s, k);
      i := i + 1;
      if c == PASTE_END[k] {
        MarkGrows(s, k, c);
        k := k + 1;
        if k == 6 {
          MarkFound(input, i);
          return;
        }
      } else {
        MarkBreaks(s, k, c);
        data := data + PASTE_END[..k];
        if k > 0 && c == PASTE_END[0] {
          k := 1;
        } else {
          k := 0;
          data := data + [c];
        }
      }
    }
    assert input[..i] == input;
    NoMark(input, k);
  }

  lemma StartPending()
    ensures Pending(""[..0], 0)
  {
    assert ""[..0] == "";
  }

  lemma PendingData(s: string, k: nat)
    requires Pending(s, k) && k <= |s|
    ensures s == s[..|s| - k] + PASTE_END[..k]
  {
    assert s == s[..|s| - k] + s[|s| - k..];
  }

  /** A marker in a longer text was there before, or ends it. */
  lemma FullAtEnd(s: string, c: char, p: nat)
    requires Full(s + [c], p, PASTE_END)
    ensures Full(s, p, PASTE_END) || (p + 6 == |s| + 1 && EndsIn(s + [c], 6))
  {
    var t := s + [c];
    assert t[p..][..6] == PASTE_END;
    if p + 6 <= |s| {
      assert s[p..][..6] == t[p..][..6];
    } else {
      assert t[|t| - 6..] == PASTE_END == PASTE_END[..6];
    }
  }

  lemma MarkGrows(s: string, k: nat, c: char)
    requires Pending(s, k) && c == PASTE_END[k]
    ensures EndsIn(s + [c], k + 1) && (k + 1 < 6 ==> Pending(s + [c], k + 1))
  {
    hide EndsIn, Full;
    var t := s + [c];
    EndsMore(s, c, k);
    if k + 1 < 6 {
      forall m | k + 1 < m < 6 ensures !EndsIn(t, m) { EndsMore(s, c, m - 1); }
      forall p: nat ensures !Full(t, p, PASTE_END) {
        EndsMore(s, c, 5);
        if Full(t, p, PASTE_END) { FullAtEnd(s, c, p); }
      }
    }
  }

  lemma MarkBreaks(s: string, k: nat, c: char)
    requires Pending(s, k) && c != PASTE_END[k]
    ensures Pending(s + [c], if k > 0 && c == PASTE_END[0] then 1 else 0)
  {
    hide EndsIn, Full;
    var t := s + [c];
    EndsNothing(s);
    EndsNothing(t);
    EndsMore(s, c, 0);
    forall m | 1 < m < 6 ensures !EndsIn(t, m) { NotLonger(s, k, c, m); }
    forall p: nat ensures !Full(t, p, PASTE_END) {
      NotLonger(s, k, c, 6);
      if Full(t, p, PASTE_END) { FullAtEnd(s, c, p); }
    }
  }

  lemma EndsNothing(s: string)
    ensures EndsIn(s, 0)
  {
  }

  lemma NotLonger(s: string, k: nat, c: char, m: nat)
    requires Pending(s, k) && c != PASTE_END[k] && 1 < m <= 6
    ensures !EndsIn(s + [c], m)
  {
    hide EndsIn, Full;
    EndsMore(s, c, m - 1);
    if EndsIn(s, m - 1) && k > 0 { EndsOnce(s, m - 1, k); }
  }

  lemma MarkFound(input: string, i: nat)
    requires 6 <= i <= |input| && Pending(input[..i - 1], 5) && EndsIn(input[..i], 6)
    ensures Find(input, 0, PASTE_END) == Some(i - 6)
  {
    hide Find;
    assert input[i - 6..][..6] == input[..i][i - 6..] == PASTE_END;
    forall p: nat | p < i - 6 ensures !Full(input, p, PASTE_END) {
      assert input[..i - 1][p..][..6] == input[p..][..6];
      assert !Full(input[..i - 1], p, PASTE_END);
    }
    var f := Find(input, 0, PASTE_END);
    assert Full(input, i - 6, PASTE_END);
  }

  lemma NoMark(input: string, k: nat)
    requires Pending(input, k)
    ensures Find(input, 0, PASTE_END).None? && Open(input, 5) == k
  {
    hide EndsIn, Full;
    OpenIs(input, 5, k);
  }

  lemma {:induction false} OpenIs(s: string, n: nat, k: nat)
    requires k <= n < 6 && EndsIn(s, k) && (forall m :: k < m < 6 ==> !EndsIn(s, m))
    ensures Open(s, n) == k
  {
    if n > k { OpenIs(s, n - 1, k); }
  }

  // ----- Line ends -----

  /** A carriage return, with or without a line feed, becomes a line feed. */
  function Normalized(s: string): (r: string) {
    if s == "" then ""
    else if s[0] == '\r' then "\n" + Normalized(s[if |s| > 1 && s[1] == '\n' then 2 else 1..])
    else [s[0]] + Normalized(s[1..])
  }

  lemma {:induction false} NormalizedIs(s: string)
    ensures '\r' !in Normalized(s) && |Normalized(s)| <= |s| && (s != "" ==> Normalized(s) != "")
    ensures '\r' !in s ==> Normalized(s) == s
  {
    if s != "" {
      if s[0] == '\r' {
        NormalizedIs(s[if |s| > 1 && s[1] == '\n' then 2 else 1..]);
      } else {
        NormalizedIs(s[1..]);
        assert s == [s[0]] + s[1..];
      }
    }
  }

  lemma NormalStep(s: string, r: nat)
    requires r < |s|
    ensures var step := if s[r] == '\r' && r + 1 < |s| && s[r + 1] == '\n' then 2 else 1;
      Normalized(s[r..]) == [if s[r] == '\r' then '\n' else s[r]] + Normalized(s[r + step..])
  {
    assert s[r..][0] == s[r] && s[r..][1..] == s[r + 1..];
    if r + 1 < |s| { assert s[r..][1] == s[r + 1] && s[r..][2..] == s[r + 2..]; }
  }

  method Normalize(s: string) returns (t: string)
    ensures t == Normalized(s)
  {
    hide Normalized;
    t := "";
    var r := 0;
    assert s[0..] == s && "" + Normalized(s) == Normalized(s);
    while r < |s|
      invariant 0 <= r <= |s| && t + Normalized(s[r..]) == Normalized(s)
    {
      NormalStep(s, r);
      if s[r] == '\r' {
        t := t + ['\n'];
        r := r + if r + 1 < |s| && s[r + 1] == '\n' then 2 else 1;
      } else {
        t := t + [s[r]];
        r := r + 1;
      }
    }
    assert Normalized(s[r..]) == "" by { NormalNone(s[r..]); }
  }

  lemma NormalNone(s: string)
    ensures s == "" ==> Normalized(s) == ""
  {
  }
}
