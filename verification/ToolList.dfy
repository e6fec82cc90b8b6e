/** The records of the tool-call memory and the lists they form: one through all
    entries by recency, and one for each block through the entries that name it. */
module ToolList {
  import opened DsmlText
  import opened ToolItems

  type Ref = nat

  datatype Entry = Entry(id: string, block: Ref, bytes: nat, stamp: nat, ram: bool, prev: Option<Ref>, next: Option<Ref>, blockNext: Option<Ref>)

  datatype Block = Block(dsml: string, bytes: nat, refs: nat, entries: Option<Ref>)

  type Entries = map<Ref, Entry>
  type Blocks = map<Ref, Block>

  function Nth(s: seq<Ref>, i: int): (r: Option<Ref>) {
    if 0 <= i < |s| then Some(s[i]) else None
  }

  ghost predicate Distinct(s: seq<Ref>) {
    forall i, j :: 0 <= i < j < |s| ==> s[i] != s[j]
  }

  // ----- The list by recency -----

  ghost predicate Linked(es: Entries, order: seq<Ref>, head: Option<Ref>, tail: Option<Ref>) {
    && Distinct(order) && head == Nth(order, 0) && tail == Nth(order, |order| - 1)
    && (forall i :: 0 <= i < |order| ==> order[i] in es && es[order[i]].prev == Nth(order, i - 1) && es[order[i]].next == Nth(order, i + 1))
  }

  /** Everything but the links by recency. */
  ghost predicate SameButLinks(a: Entries, b: Entries) {
    && (forall r :: r in b <==> r in a)
    && (forall r :: r in a ==> b[r] == a[r].(prev := b[r].prev, next := b[r].next))
  }

  function UnlinkNext(es: Entries, e: Ref): (r: Entries)
    requires e in es
  {
    var n := es[e];
    if n.prev.Some? && n.prev.value in es then es[n.prev.value := es[n.prev.value].(next := n.next)] else es
  }

  function UnlinkPrev(es: Entries, e: Ref, n: Entry): (r: Entries) {
    if n.next.Some? && n.next.value in es then es[n.next.value := es[n.next.value].(prev := n.prev)] else es
  }

  /** The entries with `e` taken out of the list. */
  function UnlinkedEs(es: Entries, e: Ref): (r: Entries)
    requires e in es
  {
    var a := UnlinkPrev(UnlinkNext(es, e), e, es[e]);
    if e in a then a[e := a[e].(prev := None, next := None)] else a
  }

  /** What becomes of each entry. */
  lemma UnlinkedIs(es: Entries, e: Ref, r: Ref)
    requires e in es && r in es && es[e].prev != Some(e) && es[e].next != Some(e)
    ensures r in UnlinkedEs(es, e)
    ensures UnlinkedEs(es, e)[r] == if r == e then es[r].(prev := None, next := None)
      else es[r].(prev := if es[e].next == Some(r) then es[e].prev else es[r].prev, next := if es[e].prev == Some(r) then es[e].next else es[r].next)
  {
  }

  lemma UnlinkedKeys(es: Entries, e: Ref, r: Ref)
    requires e in es
    ensures r in UnlinkedEs(es, e) <==> r in es
  {
  }

  lemma Apart(s: seq<Ref>, i: nat, j: nat)
    requires Distinct(s) && i < |s| && j < |s|
    ensures s[i] == s[j] <==> i == j
  {
  }

  lemma LinkedAt(es: Entries, order: seq<Ref>, head: Option<Ref>, tail: Option<Ref>, i: nat)
    requires Linked(es, order, head, tail) && i < |order|
    ensures order[i] in es && es[order[i]].prev == Nth(order, i - 1) && es[order[i]].next == Nth(order, i + 1)
    ensures es[order[i]].prev != Some(order[i]) && es[order[i]].next != Some(order[i])
  {
    if i > 0 { Apart(order, i - 1, i); }
    if i + 1 < |order| { Apart(order, i + 1, i); }
  }

  lemma DropDistinct(s: seq<Ref>, i: nat)
    requires Distinct(s) && i < |s|
    ensures Distinct(Drop(s, i))
  {
  }

  lemma Unlinks(es: Entries, order: seq<Ref>, head: Option<Ref>, tail: Option<Ref>, i: nat)
    requires Linked(es, order, head, tail) && i < |order|
    ensures order[i] in es && SameButLinks(es, UnlinkedEs(es, order[i]))
    ensures var e := es[order[i]];
      Linked(UnlinkedEs(es, order[i]), Drop(order, i), if e.prev.Some? then head else e.next, if e.next.Some? then tail else e.prev)
  {
    hide UnlinkedEs, Linked;
    LinkedAt(es, order, head, tail, i);
    LinkedParts(es, order, head, tail);
    DropDistinct(order, i);
    var r, s := UnlinkedEs(es, order[i]), Drop(order, i);
    forall x ensures x in r <==> x in es { UnlinkedKeys(es, order[i], x); }
    forall x | x in es ensures r[x] == es[x].(prev := r[x].prev, next := r[x].next) { UnlinkedIs(es, order[i], x); }
    forall j | 0 <= j < |s| ensures s[j] in r && r[s[j]].prev == Nth(s, j - 1) && r[s[j]].next == Nth(s, j + 1) {
      UnlinkedOne(es, order, head, tail, i, j);
    }
    LinkedFrom(r, s, Nth(s, 0), Nth(s, |s| - 1));
  }

  lemma UnlinkedOne(es: Entries, order: seq<Ref>, head: Option<Ref>, tail: Option<Ref>, i: nat, j: nat)
    requires Linked(es, order, head, tail) && i < |order| && j < |order| - 1
    ensures order[i] in es
    ensures var r, s := UnlinkedEs(es, order[i]), Drop(order, i);
      s[j] in r && r[s[j]].prev == Nth(s, j - 1) && r[s[j]].next == Nth(s, j + 1)
  {
    hide UnlinkedEs, Linked, Distinct;
    var k := if j < i then j else j + 1;
    LinkedParts(es, order, head, tail);
    LinkedAt(es, order, head, tail, i);
    LinkedAt(es, order, head, tail, k);
    UnlinkedIs(es, order[i], order[k]);
    Apart(order, i, k);
    if i > 0 { Apart(order, i - 1, k); }
    if i + 1 < |order| { Apart(order, i + 1, k); }
  }

  lemma LinkedParts(es: Entries, order: seq<Ref>, head: Option<Ref>, tail: Option<Ref>)
    requires Linked(es, order, head, tail)
    ensures Distinct(order) && head == Nth(order, 0) && tail == Nth(order, |order| - 1)
  {
  }

  lemma LinkedFrom(es: Entries, order: seq<Ref>, head: Option<Ref>, tail: Option<Ref>)
    requires Distinct(order) && head == Nth(order, 0) && tail == Nth(order, |order| - 1)
    requires forall i :: 0 <= i < |order| ==> order[i] in es && es[order[i]].prev == Nth(order, i - 1) && es[order[i]].next == Nth(order, i + 1)
    ensures Linked(es, order, head, tail)
  {
  }

  /** The entries with `e` put in front. */
  function LinkedEs(es: Entries, e: Ref, head: Option<Ref>): (r: Entries)
    requires e in es
  {
    var a := es[e := es[e].(prev := None, next := head)];
    if head.Some? && head.value in a then a[head.value := a[head.value].(prev := Some(e))] else a
  }

  lemma LinkedIs(es: Entries, e: Ref, head: Option<Ref>, r: Ref)
    requires e in es && head != Some(e)
    ensures r in LinkedEs(es, e, head) <==> r in es
    ensures r in es ==> LinkedEs(es, e, head)[r] == if r == e then es[r].(prev := None, next := head)
      else es[r].(prev := if head == Some(r) then Some(e) else es[r].prev)
  {
  }

  lemma Links(es: Entries, order: seq<Ref>, head: Option<Ref>, tail: Option<Ref>, e: Ref)
    requires Linked(es, order, head, tail) && e in es && e !in order
    ensures SameButLinks(es, LinkedEs(es, e, head))
    ensures Linked(LinkedEs(es, e, head), [e] + order, Some(e), if head.Some? then tail else Some(e))
  {
    hide LinkedEs, Linked;
    LinkedParts(es, order, head, tail);
    var r, s := LinkedEs(es, e, head), [e] + order;
    forall x ensures x in r <==> x in es { LinkedIs(es, e, head, x); }
    forall x | x in es ensures r[x] == es[x].(prev := r[x].prev, next := r[x].next) { LinkedIs(es, e, head, x); }
    forall j | 0 <= j < |s| ensures s[j] in r && r[s[j]].prev == Nth(s, j - 1) && r[s[j]].next == Nth(s, j + 1) {
      LinkedIs(es, e, head, s[j]);
      if j > 0 {
        LinkedAt(es, order, head, tail, j - 1);
        Apart(order, 0, j - 1);
      }
    }
    assert Distinct(s);
    LinkedFrom(r, s, Nth(s, 0), Nth(s, |s| - 1));
  }

  // ----- The lists of the blocks -----

  ghost predicate Chained(es: Entries, first: Option<Ref>, chain: seq<Ref>) {
    && Distinct(chain) && first == Nth(chain, 0)
    && (forall i :: 0 <= i < |chain| ==> chain[i] in es && es[chain[i]].blockNext == Nth(chain, i + 1))
  }

  ghost predicate SameButChain(a: Entries, b: Entries) {
    && (forall r :: r in b <==> r in a)
    && (forall r :: r in a ==> b[r] == a[r].(blockNext := b[r].blockNext))
  }

  /** The entries with `e` taken out of a block's list, after `before`. */
  function CutEs(es: Entries, before: Option<Ref>, e: Ref): (r: Entries)
    requires e in es
  {
    var a := if before.Some? && before.value in es then es[before.value := es[before.value].(blockNext := es[e].blockNext)] else es;
    a[e := a[e].(blockNext := None)]
  }

  lemma CutIs(es: Entries, before: Option<Ref>, e: Ref, r: Ref)
    requires e in es && before != Some(e)
    ensures r in CutEs(es, before, e) <==> r in es
    ensures r in es ==> CutEs(es, before, e)[r] == es[r].(blockNext := if r == e then None else if before == Some(r) then es[e].blockNext else es[r].blockNext)
  {
  }

  lemma ChainedAt(es: Entries, first: Option<Ref>, chain: seq<Ref>, j: nat)
    requires Chained(es, first, chain) && j < |chain|
    ensures Distinct(chain) && first == Nth(chain, 0) && chain[j] in es && es[chain[j]].blockNext == Nth(chain, j + 1) && Nth(chain, j - 1) != Some(chain[j])
  {
    if j > 0 { Apart(chain, j - 1, j); }
  }

  lemma Cuts(es: Entries, first: Option<Ref>, chain: seq<Ref>, j: nat)
    requires Chained(es, first, chain) && j < |chain|
    ensures chain[j] in es && SameButChain(es, CutEs(es, Nth(chain, j - 1), chain[j]))
    ensures Chained(CutEs(es, Nth(chain, j - 1), chain[j]), if j == 0 then es[chain[j]].blockNext else first, Drop(chain, j))
    ensures forall r :: r in es && r !in chain ==> CutEs(es, Nth(chain, j - 1), chain[j])[r] == es[r]
  {
    hide CutEs, Chained;
    ChainedAt(es, first, chain, j);
    DropDistinct(chain, j);
    var b, e := Nth(chain, j - 1), chain[j];
    var r, s := CutEs(es, b, e), Drop(chain, j);
    forall x ensures x in r <==> x in es { CutIs(es, b, e, x); }
    forall x | x in es ensures r[x] == es[x].(blockNext := r[x].blockNext) && (x !in chain ==> r[x] == es[x]) { CutIs(es, b, e, x); }
    forall i | 0 <= i < |s| ensures s[i] in r && r[s[i]].blockNext == Nth(s, i + 1) {
      var k := if i < j then i else i + 1;
      CutIs(es, b, e, chain[k]);
      ChainedAt(es, first, chain, k);
      Apart(chain, j, k);
      if j > 0 { Apart(chain, j - 1, k); }
    }
    ChainedFrom(r, Nth(s, 0), s);
  }

  lemma ChainedFrom(es: Entries, first: Option<Ref>, chain: seq<Ref>)
    requires Distinct(chain) && first == Nth(chain, 0)
    requires forall i :: 0 <= i < |chain| ==> chain[i] in es && es[chain[i]].blockNext == Nth(chain, i + 1)
    ensures Chained(es, first, chain)
  {
  }

  lemma ChainedFrame(a: Entries, b: Entries, first: Option<Ref>, chain: seq<Ref>)
    requires Chained(a, first, chain) && forall r :: r in chain ==> r in b && b[r].blockNext == a[r].blockNext
    ensures Chained(b, first, chain)
  {
  }
}
