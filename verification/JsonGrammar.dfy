/** The texts that are JSON values, as section 2 of RFC 8259 builds them, are exactly those
    that are skipped. */
module JsonGrammar {
  import opened DsmlText
  import opened Json
  import opened JsonValue
  import S = JsonSqueeze
  import J = JsonNumber

  // ----- The grammar -----

  /** A value: a word or a number, a string with its closing quote, or a list in brackets. */
  datatype Tree = Bare(text: string) | Quoted(body: string) | Hollow(named: bool, space: string) | Nest(named: bool, items: Items)

  datatype Items = Last(item: Item) | More(item: Item, rest: Items)

  datatype Item = Item(name: Name, before: string, value: Tree, after: string)

  datatype Name = NoName | Named(before: string, body: string, after: string)

  function Close(named: bool): (s: string) {
    if named then "}" else "]"
  }

  function Text(t: Tree): (s: string) {
    match t
    case Bare(w) => w
    case Quoted(b) => "\"" + b
    case Hollow(named, w) => (if named then "{" else "[") + (w + Close(named))
    case Nest(named, items) => (if named then "{" else "[") + (ItemsText(items) + Close(named))
  }

  function NameText(n: Name): (s: string) {
    match n
    case NoName => ""
    case Named(a, b, c) => a + ("\"" + (b + (c + ":")))
  }

  function ItemText(i: Item): (s: string) {
    NameText(i.name) + (i.before + (Text(i.value) + i.after))
  }

  function ItemsText(all: Items): (s: string) {
    match all
    case Last(i) => ItemText(i)
    case More(i, rest) => ItemText(i) + ("," + ItemsText(rest))
  }

  ghost predicate IsString(b: string) {
    Unquote(b).Some? && Unquote(b).value.1 == |b|
  }

  ghost predicate GoodName(n: Name, named: bool) {
    match n
    case NoName => !named
    case Named(a, b, c) => named && S.Blank(a) && IsString(b) && S.Blank(c)
  }

  ghost predicate Good(t: Tree) {
    match t
    case Bare(w) => w != "" && BareLength(w) == |w|
    case Quoted(b) => IsString(b)
    case Hollow(named, w) => S.Blank(w)
    case Nest(named, items) => GoodItems(items, named)
  }

  ghost predicate GoodItem(i: Item, named: bool) {
    GoodName(i.name, named) && S.Blank(i.before) && Good(i.value) && S.Blank(i.after)
  }

  ghost predicate GoodItems(all: Items, named: bool) {
    match all
    case Last(i) => GoodItem(i, named)
    case More(i, rest) => GoodItem(i, named) && GoodItems(rest, named)
  }

  function Max(a: nat, b: nat): (r: nat) {
    if a < b then b else a
  }

  function Height(t: Tree): (n: nat) {
    match t
    case Bare(w) => 0
    case Quoted(b) => 0
    case Hollow(named, w) => 1
    case Nest(named, items) => 1 + ItemsHeight(items)
  }

  function ItemsHeight(all: Items): (n: nat) {
    match all
    case Last(i) => Height(i.value)
    case More(i, rest) => Max(Height(i.value), ItemsHeight(rest))
  }

  // ----- Every JSON value is skipped -----

  lemma FirstChar(t: Tree)
    requires Good(t)
    ensures Text(t) != "" && !IsSpace(Text(t)[0])
  {
    S.NotSpaces();
    match t
    case Bare(w) =>
      S.EndsNone();
      S.BareStop(w, "");
      assert w[..|w|] == w;
    case Quoted(b) =>
    case Hollow(named, w) =>
    case Nest(named, items) =>
  }

  lemma StringSkips(b: string, t: string)
    requires IsString(b)
    ensures ReadText("\"" + (b + t)) == Some((Unquote(b).value.0, t))
  {
    hide Unquote;
    S.StringPart(b, t);
    assert b[..|b|] == b;
    var x := "\"" + (b + t);
    assert x[1..] == b + t && x[1 + |b|..] == t;
  }

  lemma NameSkips(n: Name, t: string)
    requires GoodName(n, true)
    ensures SkipName(NameText(n) + t) == Some(t)
  {
    hide ReadText, SkipSpace, Unquote;
    S.NotSpaces();
    match n
    case Named(a, b, c) =>
      var u := c + (":" + t);
      var x := "\"" + (b + u);
      assert NameText(n) + t == a + x;
      StringSkips(b, u);
      S.BlankSkipped(a, x);
      S.BlankSkipped(c, ":" + t);
      assert (":" + t)[1..] == t;
  }

  /** Whatever follows it, unless it is a word or a number that would go on. */
  lemma {:induction false} TreeSkips(t: Tree, w: string, depth: nat, rest: string)
    requires Good(t) && depth + Height(t) <= MAX_NESTING && S.Blank(w) && (t.Bare? ==> S.Ends(rest))
    ensures SkipValue(w + (Text(t) + rest), depth) == Some(rest)
    decreases t, 1
  {
    hide SkipValue, IsSpace, S.Blank, S.Ends, Good, BareLength;
    FirstChar(t);
    S.SpaceBefore(w, Text(t) + rest, depth);
    match t
    case Bare(b) => BareSkips(b, depth, rest);
    case Quoted(b) => QuotedSkips(b, depth, rest);
    case Hollow(named, b) => HollowSkips(named, b, depth, rest);
    case Nest(named, items) =>
      NestGood(named, items);
      ItemsSkip(items, named, depth + 1, rest);
      NestSkips(named, items, depth, rest);
  }

  lemma NestGood(named: bool, items: Items)
    requires Good(Nest(named, items))
    ensures GoodItems(items, named)
  {
  }

  lemma BareSkips(b: string, depth: nat, rest: string)
    requires Good(Bare(b)) && S.Ends(rest)
    ensures SkipValue(b + rest, depth) == Some(rest)
  {
    hide BareLength, SkipItems, ReadText, S.Ends;
    FirstChar(Bare(b));
    S.BareStop(b, rest);
    assert b[..|b|] == b;
    var x := b + rest;
    S.Tight(x);
    assert x[|b|..] == rest;
    BareFirst(b);
  }

  /** A word or a number does not start as other values do. */
  lemma BareFirst(b: string)
    requires b != "" && BareLength(b) == |b|
    ensures b[0] != '"' && b[0] != '{' && b[0] != '['
  {
    if b[0] == '"' || b[0] == '{' || b[0] == '[' { NoBare(b); }
  }

  lemma NoBare(b: string)
    requires b != "" && b[0] in "\"{[}]"
    ensures BareLength(b) == 0
  {
    assert b[0..] == b;
    assert !J.Opens(b, "infinity") && !J.Opens(b, "inf") && !J.Opens(b, "nan") && !J.Opens(b, "0x") by { assert J.Lower(b[0]) == b[0]; }
  }

  lemma QuotedSkips(b: string, depth: nat, rest: string)
    requires Good(Quoted(b))
    ensures SkipValue(("\"" + b) + rest, depth) == Some(rest)
  {
    hide ReadText, SkipItems, BareLength, IsString;
    StringSkips(b, rest);
    assert ("\"" + b) + rest == "\"" + (b + rest);
    S.NotSpaces();
    S.Tight("\"" + (b + rest));
  }

  lemma HollowSkips(named: bool, w: string, depth: nat, rest: string)
    requires Good(Hollow(named, w)) && depth < MAX_NESTING
    ensures SkipValue(Text(Hollow(named, w)) + rest, depth) == Some(rest)
  {
    hide SkipItems, SkipSpace, IsSpace, ReadText, SkipValue, S.Blank;
    var y := Text(Hollow(named, w)) + rest;
    var z := Close(named) + rest;
    S.NotSpaces();
    assert y[1..] == w + z;
    S.BlankSkipped(w, z);
    NestIs(y, depth);
    assert z[1..] == rest;
  }

  lemma NestSkips(named: bool, items: Items, depth: nat, rest: string)
    requires GoodItems(items, named) && depth < MAX_NESTING && SkipItems(ItemsText(items) + (Close(named) + rest), depth + 1, named) == Some(rest)
    ensures SkipValue(Text(Nest(named, items)) + rest, depth) == Some(rest)
  {
    hide SkipItems, SkipSpace, IsSpace, ReadText, SkipValue, GoodItems, ItemsText;
    var y := Text(Nest(named, items)) + rest;
    var x := ItemsText(items) + (Close(named) + rest);
    assert y[1..] == x;
    NestIs(y, depth);
    ItemsStart(items, named, Close(named) + rest);
    var z := SkipSpace(x);
    SpaceFirst(x, depth + 1, named);
  }

  /** Space before the first item makes no difference. */
  lemma SpaceFirst(x: string, depth: nat, named: bool)
    ensures SkipItems(SkipSpace(x), depth, named) == SkipItems(x, depth, named)
  {
    hide ReadText, IsSpace;
    SpaceTwice(x);
  }

  lemma {:induction false} SpaceTwice(x: string)
    ensures SkipSpace(SkipSpace(x)) == SkipSpace(x)
  {
    if x != "" && IsSpace(x[0]) { SpaceTwice(x[1..]); }
  }

  /** The text of items does not start with a closing bracket. */
  lemma ItemsStart(items: Items, named: bool, u: string)
    requires GoodItems(items, named)
    ensures var z := SkipSpace(ItemsText(items) + u); z != "" && z[0] != '}' && z[0] != ']'
  {
    hide SkipSpace, IsSpace, Text, Good;
    var i := items.item;
    var v := if items.Last? then u else "," + (ItemsText(items.rest) + u);
    var x := ItemText(i) + v;
    assert ItemsText(items) + u == x;
    ItemStart(i, named, v);
  }

  lemma ItemStart(i: Item, named: bool, v: string)
    requires GoodItem(i, named)
    ensures var z := SkipSpace(ItemText(i) + v); z != "" && z[0] != '}' && z[0] != ']'
  {
    hide SkipSpace, IsSpace, Text, Good;
    S.NotSpaces();
    if named {
      var u := i.before + (Text(i.value) + i.after) + v;
      var x := "\"" + (i.name.body + (i.name.after + ":")) + u;
      assert ItemText(i) + v == i.name.before + x;
      S.BlankSkipped(i.name.before, x);
    } else {
      var x := Text(i.value) + (i.after + v);
      assert ItemText(i) + v == i.before + x;
      FirstChar(i.value);
      NoBracket(i.value);
      S.BlankSkipped(i.before, x);
    }
  }

  lemma NoBracket(t: Tree)
    requires Good(t)
    ensures Text(t) != "" && Text(t)[0] != '}' && Text(t)[0] != ']'
  {
    match t
    case Bare(b) => if b[0] == '}' || b[0] == ']' { NoBare(b); }
    case _ =>
  }

  /** Items one after the other, up to the closing bracket. */
  lemma {:induction false} ItemsSkip(all: Items, named: bool, depth: nat, rest: string)
    requires GoodItems(all, named) && depth + ItemsHeight(all) <= MAX_NESTING
    ensures SkipItems(ItemsText(all) + (Close(named) + rest), depth, named) == Some(rest)
    decreases all, 0
  {
    hide SkipItems, SkipValue, S.Blank, Good, Text, S.Ends, ItemText, GoodName;
    var i := all.item;
    var more := if all.Last? then Close(named) + rest else "," + (ItemsText(all.rest) + (Close(named) + rest));
    assert ItemsText(all) + (Close(named) + rest) == ItemText(i) + more;
    EndsSpaced(i.after, more);
    TreeSkips(i.value, i.before, depth, i.after + more);
    if all.More? { ItemsSkip(all.rest, named, depth, rest); }
    ItemSkips(i, named, depth, more, rest);
  }

  lemma EndsSpaced(w: string, z: string)
    requires S.Blank(w) && z != "" && (z[0] == ',' || z[0] == '}' || z[0] == ']')
    ensures S.Ends(w + z)
  {
    S.NotSpaces();
    S.SpaceAfter(w, z);
  }

  lemma ItemSkips(i: Item, named: bool, depth: nat, more: string, rest: string)
    requires GoodName(i.name, named) && S.Blank(i.after) && SkipValue(i.before + (Text(i.value) + (i.after + more)), depth) == Some(i.after + more)
    requires more == Close(named) + rest || (more != "" && more[0] == ',' && SkipItems(more[1..], depth, named) == Some(rest))
    ensures SkipItems(ItemText(i) + more, depth, named) == Some(rest)
  {
    hide SkipItems, SkipValue, SkipName, SkipSpace, IsSpace, S.Blank, Text, NameText, ItemText;
    var u := i.after + more;
    var v := i.before + (Text(i.value) + u);
    var x := NameText(i.name) + v;
    ItemThen(i, more);
    S.NotSpaces();
    if named { NameSkips(i.name, v); } else { NoNameReads(v); }
    S.ItemsAre(x, depth, named, v, u);
    S.BlankSkipped(i.after, more);
    assert more == Close(named) + rest ==> more[1..] == rest;
  }

  // ----- All that is skipped is a JSON value -----

  /** A tree for a text, and the space before it. */
  ghost predicate Reads(x: string, depth: nat, w: string, t: Tree, r: string) {
    x == w + (Text(t) + r) && S.Blank(w) && Good(t) && depth + Height(t) <= MAX_NESTING && (t.Bare? ==> BareLength(Text(t) + r) == |Text(t)|)
  }

  ghost predicate ReadsItems(x: string, depth: nat, named: bool, items: Items, r: string) {
    x == ItemsText(items) + (Close(named) + r) && GoodItems(items, named) && depth + ItemsHeight(items) <= MAX_NESTING
  }

  lemma {:induction false} TreeOf(x: string, depth: nat) returns (w: string, t: Tree)
    requires SkipValue(x, depth).Some? && depth <= MAX_NESTING
    ensures Reads(x, depth, w, t, SkipValue(x, depth).value)
    decreases |x|, 1
  {
    hide SkipValue, SkipItems, Reads, Good, S.Blank, BareLength, ReadText;
    var r := SkipValue(x, depth).value;
    var y := SkipSpace(x);
    S.SpaceLeaves(x);
    w := S.Read(x, y);
    ValueIs(x, depth);
    if y[0] == '"' {
      t := StringOf(y);
    } else if y[0] == '{' || y[0] == '[' {
      t := NestOf(y, depth);
    } else {
      t := BareOf(y);
    }
    ReadsAre(x, depth, w, t, r);
  }

  lemma ReadsAre(x: string, depth: nat, w: string, t: Tree, r: string)
    requires x == w + (Text(t) + r) && S.Blank(w) && Good(t) && depth + Height(t) <= MAX_NESTING && (t.Bare? ==> BareLength(Text(t) + r) == |Text(t)|)
    ensures Reads(x, depth, w, t, r)
  {
  }

  lemma ValueIs(x: string, depth: nat)
    requires SkipValue(x, depth).Some?
    ensures var y, r := SkipSpace(x), SkipValue(x, depth).value;
      && y != ""
      && (y[0] == '"' ==> ReadText(y).Some? && r == ReadText(y).value.1)
      && (y[0] == '{' || y[0] == '[' ==> |y| <= |x| && SkipValue(y, depth) == Some(r))
      && (y[0] != '"' && y[0] != '{' && y[0] != '[' ==> BareLength(y) > 0 && r == y[BareLength(y)..])
  {
    hide SkipItems, BareLength, ReadText;
    SpaceTwice(x);
    S.SpaceLeaves(x);
  }

  lemma BareOf(y: string) returns (t: Tree)
    requires y != "" && BareLength(y) > 0
    ensures t.Bare? && Good(t) && Height(t) == 0 && y == Text(t) + y[BareLength(y)..] && |Text(t)| == BareLength(y)
  {
    hide BareLength;
    var n := BareLength(y);
    S.EndsNone();
    S.BareStop(y, "");
    assert y[..n] + "" == y[..n];
    t := Bare(y[..n]);
  }

  lemma StringOf(y: string) returns (t: Tree)
    requires y != "" && y[0] == '"' && ReadText(y).Some?
    ensures t.Quoted? && Good(t) && Height(t) == 0 && y == Text(t) + ReadText(y).value.1
  {
    hide Unquote;
    var m := Unquote(y[1..]).value.1;
    var b := y[1..][..m];
    S.StringPart(y[1..], "");
    assert b + "" == b;
    t := Quoted(b);
    assert y == ("\"" + b) + y[1 + m..];
  }

  lemma {:induction false} NestOf(y: string, depth: nat) returns (t: Tree)
    requires y != "" && (y[0] == '{' || y[0] == '[') && SkipValue(y, depth).Some? && depth <= MAX_NESTING
    ensures !t.Bare? && Good(t) && depth + Height(t) <= MAX_NESTING && y == Text(t) + SkipValue(y, depth).value
    decreases |y|, 0
  {
    hide SkipValue, SkipItems, SkipSpace, IsSpace, S.Blank, Good, Text, Height, ReadsItems;
    NestIs(y, depth);
    var named := y[0] == '{';
    var z := SkipSpace(y[1..]);
    if z != "" && z[0] == (if named then '}' else ']') {
      t := HollowReads(y, depth, named);
    } else {
      SpaceFirst(y[1..], depth + 1, named);
      var items := ItemsOf(y[1..], depth + 1, named);
      t := Nest(named, items);
      NestReads(y, depth, named, items, SkipItems(y[1..], depth + 1, named).value);
    }
  }

  lemma HollowText(y: string, named: bool, w: string, z: string)
    requires y != "" && (y[0] == if named then '{' else '[') && y[1..] == w + z && z != "" && z[0] == if named then '}' else ']'
    ensures y == Text(Hollow(named, w)) + z[1..]
  {
    assert z == Close(named) + z[1..];
    assert y == [y[0]] + (w + (Close(named) + z[1..]));
  }

  lemma HollowReads(y: string, depth: nat, named: bool) returns (t: Tree)
    requires y != "" && (y[0] == if named then '{' else '[') && depth < MAX_NESTING
    requires var z := SkipSpace(y[1..]); z != "" && z[0] == if named then '}' else ']'
    ensures t.Hollow? && Good(t) && depth + Height(t) <= MAX_NESTING && y == Text(t) + SkipSpace(y[1..])[1..]
  {
    hide SkipSpace, S.Blank, Text;
    var z := SkipSpace(y[1..]);
    S.SpaceLeaves(y[1..]);
    t := Hollow(named, S.Read(y[1..], z));
    HollowText(y, named, t.space, z);
  }

  lemma NestReads(y: string, depth: nat, named: bool, items: Items, r: string)
    requires y != "" && (y[0] == if named then '{' else '[') && ReadsItems(y[1..], depth + 1, named, items, r)
    ensures Good(Nest(named, items)) && depth + Height(Nest(named, items)) <= MAX_NESTING && y == Text(Nest(named, items)) + r
  {
    hide ItemsText, GoodItems;
    assert y == [y[0]] + (ItemsText(items) + (Close(named) + r));
  }

  lemma NameParts(x: string)
    requires SkipName(x).Some?
    ensures var a := SkipSpace(x);
      && a != "" && a[0] == '"' && ReadText(a).Some?
      && var c := SkipSpace(ReadText(a).value.1); c != "" && c[0] == ':' && c[1..] == SkipName(x).value
  {
    hide SkipSpace, Unquote;
  }

  lemma NameOf(x: string) returns (n: Name)
    requires SkipName(x).Some?
    ensures GoodName(n, true) && x == NameText(n) + SkipName(x).value
  {
    hide Unquote, S.Blank, ReadText, SkipSpace, SkipName, IsString;
    NameParts(x);
    var a := SkipSpace(x);
    var t := StringOf(a);
    var b := ReadText(a).value.1;
    var c := SkipSpace(b);
    S.SpaceLeaves(x);
    S.SpaceLeaves(b);
    n := Named(S.Read(x, a), t.body, S.Read(b, c));
    NameThen(n, x, a, b, c);
  }

  lemma NameThen(n: Name, x: string, a: string, b: string, c: string)
    requires n.Named? && x == n.before + a && a == ("\"" + n.body) + b && b == n.after + c && c != "" && c[0] == ':'
    ensures x == NameText(n) + c[1..]
  {
    assert c == ":" + c[1..];
    assert x == n.before + ("\"" + (n.body + (n.after + (":" + c[1..]))));
  }

  lemma {:induction false} ItemsOf(x: string, depth: nat, named: bool) returns (items: Items)
    requires SkipItems(x, depth, named).Some? && depth <= MAX_NESTING
    ensures ReadsItems(x, depth, named, items, SkipItems(x, depth, named).value)
    decreases |x|, 2
  {
    hide SkipValue, SkipItems, SkipName, SkipSpace, IsSpace, Reads, ReadsItems, S.Blank, GoodName, NameText;
    var r := SkipItems(x, depth, named).value;
    var v, u := S.ItemsRead(x, depth, named);
    var n := NoName;
    if named { n := NameOf(x); } else { NoNameReads(x); }
    var w, t := TreeOf(v, depth);
    var y := SkipSpace(u);
    S.SpaceLeaves(u);
    var i := Item(n, w, t, S.Read(u, y));
    if y[0] == ',' {
      var rest := ItemsOf(y[1..], depth, named);
      items := More(i, rest);
      MoreReads(x, depth, named, v, u, y, i, rest, r);
    } else {
      items := Last(i);
      LastReads(x, depth, named, v, u, y, i, r);
    }
  }

  lemma NoNameReads(x: string)
    ensures GoodName(NoName, false) && x == NameText(NoName) + x
  {
  }

  lemma ItemThen(i: Item, u: string)
    ensures ItemText(i) + u == NameText(i.name) + (i.before + (Text(i.value) + (i.after + u)))
  {
    hide NameText, Text;
  }

  lemma LastReads(x: string, depth: nat, named: bool, v: string, u: string, y: string, i: Item, r: string)
    requires x == NameText(i.name) + v && GoodName(i.name, named) && Reads(v, depth, i.before, i.value, u)
    requires u == i.after + y && S.Blank(i.after) && y == Close(named) + r
    ensures ReadsItems(x, depth, named, Last(i), r)
  {
    hide S.Blank, GoodName, NameText, Good, Text, ItemText;
    ItemThen(i, y);
    assert GoodItem(i, named);
    assert x == ItemText(i) + y;
    assert ItemsText(Last(i)) == ItemText(i);
    assert ItemsHeight(Last(i)) == Height(i.value);
  }

  lemma MoreReads(x: string, depth: nat, named: bool, v: string, u: string, y: string, i: Item, rest: Items, r: string)
    requires x == NameText(i.name) + v && GoodName(i.name, named) && Reads(v, depth, i.before, i.value, u)
    requires u == i.after + y && S.Blank(i.after) && y != "" && y[0] == ',' && ReadsItems(y[1..], depth, named, rest, r)
    ensures ReadsItems(x, depth, named, More(i, rest), r)
  {
    hide S.Blank, GoodName, NameText, Good, Text, ItemText;
    ItemThen(i, y);
    assert y == "," + (ItemsText(rest) + (Close(named) + r));
    assert GoodItem(i, named);
    assert x == ItemText(i) + y == (ItemText(i) + ("," + ItemsText(rest))) + (Close(named) + r);
    assert ItemsText(More(i, rest)) == ItemText(i) + ("," + ItemsText(rest));
    assert ItemsHeight(More(i, rest)) == Max(Height(i.value), ItemsHeight(rest));
  }

  /** A text is skipped up to `r` exactly if it is a JSON value, nested no deeper than allowed,
      with space before it and `r` behind it; a word or a number takes all it can. */
  lemma SkippedIsJson(x: string, depth: nat, r: string)
    requires depth <= MAX_NESTING
    ensures SkipValue(x, depth) == Some(r) <==> exists w, t :: Reads(x, depth, w, t, r)
  {
    hide SkipValue, Reads;
    if SkipValue(x, depth) == Some(r) {
      var w, t := TreeOf(x, depth);
    }
    forall w, t | Reads(x, depth, w, t, r) ensures SkipValue(x, depth) == Some(r) { ReadsSkip(x, depth, w, t, r); }
  }

  lemma ReadsSkip(x: string, depth: nat, w: string, t: Tree, r: string)
    requires Reads(x, depth, w, t, r)
    ensures SkipValue(x, depth) == Some(r)
  {
    hide SkipItems, BareLength, ReadText, S.Blank, IsSpace;
    if t.Bare? {
      var y := Text(t) + r;
      FirstChar(t);
      S.BlankSkipped(w, y);
      BareFirst(t.text);
      assert y[|t.text|..] == r;
    } else {
      TreeSkips(t, w, depth, r);
    }
  }

  // ----- Words and numbers of the standard -----

  /** A number as section 6 of RFC 8259 writes it: digits, perhaps a fraction, perhaps an
      exponent with its sign. */
  datatype Decimal = Decimal(minus: bool, whole: string, part: string, mark: string, sign: string, power: string)

  ghost predicate AllDigits(s: string) {
    s != "" && forall i :: 0 <= i < |s| ==> J.IsDigit(s[i])
  }

  ghost predicate GoodDecimal(n: Decimal) {
    && AllDigits(n.whole) && (n.part == "" || AllDigits(n.part))
    && ((n.mark == "" && n.sign == "" && n.power == "") || ((n.mark == "e" || n.mark == "E") && (n.sign == "" || n.sign == "+" || n.sign == "-") && AllDigits(n.power)))
  }

  function ScaleText(n: Decimal): (s: string) {
    n.mark + (n.sign + n.power)
  }

  function PartText(n: Decimal): (s: string) {
    if n.part == "" then "" else "." + n.part
  }

  function DecimalText(n: Decimal): (s: string) {
    (if n.minus then "-" else "") + (n.whole + (PartText(n) + ScaleText(n)))
  }

  lemma {:induction false} DigitsAll(w: string, u: string)
    requires (w == "" || AllDigits(w)) && (u == "" || !J.IsDigit(u[0]))
    ensures J.Digits(false, w + u) == |w|
  {
    if w == "" {
      assert w + u == u;
    } else {
      var x := w + u;
      assert x[0] == w[0] && x[1..] == w[1..] + u;
      assert forall i :: 0 <= i < |w| - 1 ==> w[1..][i] == w[i + 1];
      DigitsAll(w[1..], u);
    }
  }

  lemma ScaleRead(n: Decimal)
    requires GoodDecimal(n)
    ensures J.Exponent('e', ScaleText(n)) == |ScaleText(n)|
    ensures ScaleText(n) == "" || ScaleText(n)[0] == 'e' || ScaleText(n)[0] == 'E'
  {
    hide J.Digits, J.IsDigit;
    if n.mark != "" {
      var y := ScaleText(n);
      assert y[1..] == n.sign + n.power;
      assert n.power[0] != '+' && n.power[0] != '-' by { assert J.IsDigit(n.power[0]); SignsApart(n.power[0]); }
      assert n.sign + n.power == if n.sign == "" then n.power else n.sign + n.power;
      var s := |n.sign|;
      assert y[1 + s..] == n.power + "";
      DigitsAll(n.power, "");
    }
  }

  lemma SignsApart(c: char)
    requires J.IsDigit(c)
    ensures c != '+' && c != '-' && c != '.'
  {
  }

  lemma MantissaRead(n: Decimal)
    requires GoodDecimal(n)
    ensures J.Mantissa(false, n.whole + (PartText(n) + ScaleText(n))) == |n.whole| + |PartText(n)|
  {
    hide J.Digits, ScaleText;
    ScaleRead(n);
    var u := PartText(n) + ScaleText(n);
    var y := n.whole + u;
    if n.part == "" {
      assert u == ScaleText(n);
      DigitsAll(n.whole, u);
      assert u != "" ==> y[|n.whole|] == u[0];
    } else {
      DigitsAll(n.whole, u);
      assert y[|n.whole|] == '.' && y[|n.whole| + 1..] == n.part + ScaleText(n);
      DigitsAll(n.part, ScaleText(n));
    }
  }

  lemma UnsignedRead(n: Decimal)
    requires GoodDecimal(n)
    ensures var v := n.whole + (PartText(n) + ScaleText(n)); v != "" && J.IsDigit(v[0]) && J.Unsigned(v) == |v|
  {
    hide J.Mantissa, J.Exponent, ScaleText, PartText, J.Digits, J.Opens, J.Payload;
    var v := n.whole + (PartText(n) + ScaleText(n));
    MantissaRead(n);
    ScaleRead(n);
    var m := |n.whole| + |PartText(n)|;
    assert v[m..] == ScaleText(n);
    assert v[0] == n.whole[0] && J.IsDigit(n.whole[0]);
    NoNames(v, n);
  }

  /** Every number of the standard is one here. */
  lemma DecimalRead(n: Decimal)
    requires GoodDecimal(n)
    ensures Good(Bare(DecimalText(n)))
  {
    hide J.Unsigned, ScaleText, PartText, GoodDecimal;
    UnsignedRead(n);
    var v := n.whole + (PartText(n) + ScaleText(n));
    SignedRead(n.minus, v);
  }

  lemma SignedRead(minus: bool, v: string)
    requires v != "" && J.IsDigit(v[0]) && J.Unsigned(v) == |v|
    ensures var x := (if minus then "-" else "") + v; x != "" && BareLength(x) == |x|
  {
    hide J.Unsigned, WordLength;
    var x := (if minus then "-" else "") + v;
    NoWord(x, if minus then '-' else v[0]);
    if minus {
      assert x[0] == '-' && x[1..] == v;
      assert J.Sign(x) == 1;
    } else {
      assert x == v && x[0..] == v;
      assert J.Sign(x) == 0;
    }
  }

  lemma NoWord(x: string, c: char)
    requires x != "" && x[0] == c && (c == '-' || J.IsDigit(c))
    ensures WordLength(x) == 0
  {
  }

  /** No digit opens a name, and what follows a first zero is no `x`. */
  lemma NoNames(v: string, n: Decimal)
    requires GoodDecimal(n) && v == n.whole + (PartText(n) + ScaleText(n))
    ensures !J.Opens(v, "infinity") && !J.Opens(v, "inf") && !J.Opens(v, "nan") && !J.Opens(v, "0x")
  {
    assert J.IsDigit(v[0]);
    assert J.Lower(v[0]) == v[0];
    if |v| > 1 { SecondChar(v, n); }
  }

  lemma SecondChar(v: string, n: Decimal)
    requires GoodDecimal(n) && v == n.whole + (PartText(n) + ScaleText(n)) && |v| > 1
    ensures J.Lower(v[1]) != 'x'
  {
    hide J.Digits, J.Exponent;
    ScaleRead(n);
    if |n.whole| > 1 {
      assert v[1] == n.whole[1] && J.IsDigit(v[1]);
    } else if n.part == "" {
      assert v[1] == ScaleText(n)[0];
    } else {
      assert v[1] == '.';
    }
  }
}
