/** Chains of XML tags from `lib/xmltag.c`: the order in which children are added, put right again,
and sorted in place.
 */
module XmlTags {
  import opened Sequences
  import opened Slices

  /** A `struct xml_tag`, with `key` for what a comparison of tags looks at. */
  class XmlTag {
    const name: string
    const key: int
    var next: XmlTag?
    var childs: map<string, XmlTag>     // the first of the children of each name

    constructor (name: string, key: int)
      ensures this.name == name && this.key == key && next == null && childs == map[]
    {
      this.name, this.key, next, childs := name, key, null, map[];
    }
  }

  type Compare = (int, int) -> int

  /** The comparison is a total preorder, as `strcmp` on the values of an attribute. */
  ghost predicate Preorder(cmp: Compare) {
    forall k {:trigger Open(k)} :: Open(k) ==>
      && (forall a, b :: cmp(a, b) <= 0 || cmp(b, a) <= 0)
      && (forall a, b :: cmp(a, b) <= 0 <==> cmp(b, a) >= 0)
      && (forall a, b, c :: cmp(a, b) <= 0 && cmp(b, c) <= 0 ==> cmp(a, c) <= 0)
  }

  lemma Total(cmp: Compare, a: int, b: int)
    requires Preorder(cmp)
    ensures cmp(a, b) <= 0 || cmp(b, a) <= 0
  {
    assert Open(0);
  }

  lemma Transitive(cmp: Compare, a: int, b: int, c: int)
    requires Preorder(cmp) && cmp(a, b) <= 0 && cmp(b, c) <= 0
    ensures cmp(a, c) <= 0
  {
    assert Open(0);
  }

  lemma NotEqual(cmp: Compare, a: int, x: int, y: int, k: int)
    requires Preorder(cmp) && cmp(a, y) <= 0 && !(cmp(a, x) <= 0) && cmp(x, k) == 0
    ensures cmp(y, k) != 0
  {
    assert Open(0);
  }

  lemma Reflexive(cmp: Compare, a: int)
    requires Preorder(cmp)
    ensures cmp(a, a) <= 0
  {
    assert Open(0);
  }

  // ---------------------------------------------------------------- chains

  /** The `next` pointers of some tags. */
  type Links = map<XmlTag, XmlTag?>

  /** The links are those of the tags `q`. */
  ghost predicate Mirrors(h: Links, q: seq<XmlTag>)
    reads set x | x in q
  {
    forall i :: 0 <= i < |q| ==> q[i] in h && h[q[i]] == q[i].next
  }

  lemma LinksOf(q: seq<XmlTag>) returns (h: Links)
    ensures Mirrors(h, q)
  {
    h := map[];
    for k := 0 to |q|
      invariant forall i :: 0 <= i < k ==> q[i] in h && h[q[i]] == q[i].next
    {
      h := h[q[k] := q[k].next];
    }
  }

  /** The tags are linked in this order, and the last one to `end`. */
  predicate Linked(h: Links, q: seq<XmlTag>, end: XmlTag?) {
    && (forall i :: 0 <= i < |q| ==> q[i] in h && (i + 1 < |q| ==> h[q[i]] == q[i + 1]))
    && (q != [] ==> h[q[|q| - 1]] == end)
  }

  /** The chain from `head` has just the tags `q`. */
  predicate Chain(h: Links, head: XmlTag?, q: seq<XmlTag>) {
    Distinct(q) && Linked(h, q, null) && head == First(q, null)
  }

  /** The chain from `head` has just the tags `q`, as their fields say. */
  ghost predicate ChainOf(head: XmlTag?, q: seq<XmlTag>)
    reads set x | x in q
  {
    && Distinct(q) && head == First(q, null)
    && (forall i :: 0 <= i < |q| - 1 ==> q[i].next == q[i + 1])
    && (q != [] ==> q[|q| - 1].next == null)
  }

  lemma ChainMirrored(h: Links, head: XmlTag?, q: seq<XmlTag>)
    requires Mirrors(h, q)
    ensures ChainOf(head, q) <==> Chain(h, head, q)
  {
  }

  lemma MirrorsPart(h: Links, all: seq<XmlTag>, q: seq<XmlTag>)
    requires Mirrors(h, all) && forall i :: 0 <= i < |q| ==> q[i] in all
    ensures Mirrors(h, q)
  {
    forall i | 0 <= i < |q|
      ensures q[i] in h && h[q[i]] == q[i].next
    {
      var j :| 0 <= j < |all| && all[j] == q[i];
    }
  }

  function First(q: seq<XmlTag>, end: XmlTag?): XmlTag? {
    if q == [] then end else q[0]
  }

  // ---------------------------------------------------------------- merging sequences

  ghost predicate InOrder(q: seq<XmlTag>, cmp: Compare) {
    forall i, j :: 0 <= i < j < |q| ==> cmp(q[i].key, q[j].key) <= 0
  }

  function EqualTo(cmp: Compare, k: int): XmlTag -> bool {
    (t: XmlTag) => cmp(t.key, k) == 0
  }

  /** The tags that compare equal to `k`, in order. */
  function Peers(q: seq<XmlTag>, cmp: Compare, k: int): seq<XmlTag> {
    Only(q, EqualTo(cmp, k))
  }

  function Merged(a: seq<XmlTag>, b: seq<XmlTag>, cmp: Compare): seq<XmlTag>
    decreases |a| + |b|
  {
    if a == [] then b
    else if b == [] then a
    else if cmp(a[0].key, b[0].key) <= 0 then [a[0]] + Merged(a[1..], b, cmp)
    else [b[0]] + Merged(a, b[1..], cmp)
  }

  lemma {:induction false} MergedMember(a: seq<XmlTag>, b: seq<XmlTag>, cmp: Compare, x: XmlTag)
    ensures x in Merged(a, b, cmp) <==> x in a || x in b
    decreases |a| + |b|
  {
    if a != [] && b != [] {
      if cmp(a[0].key, b[0].key) <= 0 {
        MergedMember(a[1..], b, cmp, x);
      } else {
        MergedMember(a, b[1..], cmp, x);
      }
    }
  }

  lemma {:induction false} MergedInOrder(a: seq<XmlTag>, b: seq<XmlTag>, cmp: Compare)
    requires Preorder(cmp) && InOrder(a, cmp) && InOrder(b, cmp)
    ensures InOrder(Merged(a, b, cmp), cmp)
    decreases |a| + |b|
  {
    if a != [] && b != [] {
      if cmp(a[0].key, b[0].key) <= 0 {
        MergedInOrder(a[1..], b, cmp);
        var m := Merged(a[1..], b, cmp);
        forall y | y in m
          ensures y in a[1..] || y in b
        {
          MergedMember(a[1..], b, cmp, y);
        }
        LeastInOrder(a, b, m, cmp);
      } else {
        MergedInOrder(a, b[1..], cmp);
        Total(cmp, a[0].key, b[0].key);
        var m := Merged(a, b[1..], cmp);
        forall y | y in m
          ensures y in b[1..] || y in a
        {
          MergedMember(a, b[1..], cmp, y);
        }
        LeastInOrder(b, a, m, cmp);
      }
    }
  }

  /** The least of two chains goes before what is merged from the rest. */
  lemma LeastInOrder(a: seq<XmlTag>, b: seq<XmlTag>, m: seq<XmlTag>, cmp: Compare)
    requires Preorder(cmp) && InOrder(a, cmp) && InOrder(b, cmp) && a != [] && b != [] && cmp(a[0].key, b[0].key) <= 0
    requires InOrder(m, cmp) && forall y :: y in m ==> y in a[1..] || y in b
    ensures InOrder([a[0]] + m, cmp)
  {
    forall j | 0 <= j < |m|
      ensures cmp(a[0].key, m[j].key) <= 0
    {
      assert m[j] in m;
      if m[j] in a[1..] {
        var i :| 0 <= i < |a| - 1 && a[1..][i] == m[j];
        assert cmp(a[0].key, a[i + 1].key) <= 0;
      } else {
        var i :| 0 <= i < |b| && b[i] == m[j];
        if i > 0 {
          Transitive(cmp, a[0].key, b[0].key, b[i].key);
        }
      }
    }
  }

  /** Equal tags of the first chain come before those of the second. */
  lemma {:induction false} MergedPeers(a: seq<XmlTag>, b: seq<XmlTag>, cmp: Compare, k: int)
    requires Preorder(cmp) && InOrder(a, cmp) && InOrder(b, cmp)
    ensures Peers(Merged(a, b, cmp), cmp, k) == Peers(a, cmp, k) + Peers(b, cmp, k)
    decreases |a| + |b|
  {
    if a != [] && b != [] {
      if cmp(a[0].key, b[0].key) <= 0 {
        MergedPeers(a[1..], b, cmp, k);
        OnlyCons(a[0], Merged(a[1..], b, cmp), EqualTo(cmp, k));
        Associative(if cmp(a[0].key, k) == 0 then [a[0]] else [], Peers(a[1..], cmp, k), Peers(b, cmp, k));
      } else {
        MergedPeers(a, b[1..], cmp, k);
        OnlyCons(b[0], Merged(a, b[1..], cmp), EqualTo(cmp, k));
        if cmp(b[0].key, k) == 0 {
          LaterThan(a, b[0], cmp, k);
        }
      }
    }
  }

  /** A chain that begins behind a tag equal to `k` has no tag equal to `k`. */
  lemma LaterThan(a: seq<XmlTag>, x: XmlTag, cmp: Compare, k: int)
    requires Preorder(cmp) && InOrder(a, cmp) && a != [] && cmp(a[0].key, x.key) > 0 && cmp(x.key, k) == 0
    ensures Peers(a, cmp, k) == []
  {
    forall y | y in a
      ensures cmp(y.key, k) != 0
    {
      var i :| 0 <= i < |a| && a[i] == y;
      Reflexive(cmp, a[0].key);
      NotEqual(cmp, a[0].key, x.key, y.key, k);
    }
    OnlyNone(a, EqualTo(cmp, k));
  }

  // ---------------------------------------------------------------- merging in place

  predicate Apart(a: seq<XmlTag>, b: seq<XmlTag>) {
    forall x :: x in a ==> x !in b
  }

  /** The dummy head and the tags merged so far, the rests of both chains, and the links of all
      but the last merged tag. */
  ghost predicate Merging(h: Links, done: seq<XmlTag>, a: seq<XmlTag>, b: seq<XmlTag>, last: XmlTag, xt1: XmlTag?, xt2: XmlTag?) {
    && done != [] && last == done[|done| - 1] && last in h
    && Distinct(done) && Apart(done, a) && Apart(done, b) && Apart(a, b)
    && (forall i :: 0 <= i < |done| - 1 ==> done[i] in h && h[done[i]] == done[i + 1])
    && Chain(h, xt1, a) && Chain(h, xt2, b)
  }

  /** Moving the first tag of a chain behind the merged ones keeps all tags apart. */
  lemma ApartMoved(done: seq<XmlTag>, a: seq<XmlTag>, b: seq<XmlTag>)
    requires a != [] && Distinct(done) && Distinct(a) && Apart(done, a) && Apart(done, b) && Apart(a, b)
    ensures Distinct(done + [a[0]]) && Distinct(a[1..])
    ensures Apart(done + [a[0]], a[1..]) && Apart(done + [a[0]], b) && Apart(a[1..], b)
  {
    var d := done + [a[0]];
    assert a[0] in a;
    forall i, j | 0 <= i < j < |d|
      ensures d[i] != d[j]
    {
      assert i < |done| && done[i] in done;
    }
    forall x | x in d
      ensures x !in a[1..] && x !in b
    {
      assert x in done || x == a[0];
      assert x in done ==> x !in a;
    }
    forall x | x in a[1..]
      ensures x !in b
    {
      assert x in a;
    }
  }

  /** A link of another tag does not matter to a chain. */
  lemma ChainKept(h: Links, head: XmlTag?, q: seq<XmlTag>, x: XmlTag, v: XmlTag?)
    requires Chain(h, head, q) && x !in q
    ensures Chain(h[x := v], head, q)
  {
    assert forall i :: 0 <= i < |q| ==> q[i] in q;
  }

  lemma ChainTail(h: Links, head: XmlTag?, q: seq<XmlTag>)
    requires Chain(h, head, q) && q != []
    ensures q[0] in h && Chain(h, h[q[0]], q[1..])
  {
    var t := q[1..];
    assert forall i :: 0 <= i < |t| ==> t[i] == q[i + 1];
    assert t != [] ==> t[|t| - 1] == q[|q| - 1];
  }

  /** The first tag of the rest of a chain is linked behind the merged ones. */
  lemma MergingFirst(h: Links, done: seq<XmlTag>, a: seq<XmlTag>, b: seq<XmlTag>, last: XmlTag, xt1: XmlTag?, xt2: XmlTag?)
    requires Merging(h, done, a, b, last, xt1, xt2) && a != []
    ensures a[0] in h && Merging(h[last := a[0]], done + [a[0]], a[1..], b, a[0], h[a[0]], xt2)
  {
    ApartMoved(done, a, b);
    assert last in done;
    ChainKept(h, xt1, a, last, a[0]);
    ChainKept(h, xt2, b, last, a[0]);
    ChainTail(h[last := a[0]], xt1, a);
    assert a[0] in a && last !in a;
  }

  lemma ApartBack(a: seq<XmlTag>, b: seq<XmlTag>)
    requires Apart(a, b)
    ensures Apart(b, a)
  {
    forall x | x in b
      ensures x !in a
    {
      assert x in a ==> x !in b;
    }
  }

  lemma MergingSecond(h: Links, done: seq<XmlTag>, a: seq<XmlTag>, b: seq<XmlTag>, last: XmlTag, xt1: XmlTag?, xt2: XmlTag?)
    requires Merging(h, done, a, b, last, xt1, xt2) && b != []
    ensures b[0] in h && Merging(h[last := b[0]], done + [b[0]], a, b[1..], b[0], xt1, h[b[0]])
  {
    ApartBack(a, b);
    MergingFirst(h, done, b, a, last, xt2, xt1);
    ApartBack(b[1..], a);
  }

  /** What is left of one chain is linked behind the merged tags. */
  lemma MergingRest(h: Links, done: seq<XmlTag>, rest: seq<XmlTag>, last: XmlTag, xt: XmlTag?)
    requires Merging(h, done, rest, [], last, xt, null)
    ensures var h' := h[last := xt]; done[0] in h' && Chain(h', h'[done[0]], done[1..] + rest)
  {
    var h' := h[last := xt];
    assert last in done;
    ChainKept(h, xt, rest, last, xt);
    var q := done[1..] + rest;
    forall i, j | 0 <= i < j < |q|
      ensures q[i] != q[j]
    {
      assert i < |done| - 1 ==> q[i] in done;
      assert j >= |done| - 1 ==> q[j] in rest;
    }
    forall i | 0 <= i < |q|
      ensures q[i] in h' && (i + 1 < |q| ==> h'[q[i]] == q[i + 1])
    {
      var n := |done| - 1;
      if i < n {
        assert q[i] == done[i + 1] && (i + 1 < n ==> q[i + 1] == done[i + 2]);
        assert i + 1 == n && rest != [] ==> q[i + 1] == rest[0];
      } else {
        assert q[i] == rest[i - n] && q[i] in rest;
      }
    }
  }

  lemma MergingStart(h: Links, dummy: XmlTag, a: seq<XmlTag>, b: seq<XmlTag>, xt1: XmlTag?, xt2: XmlTag?)
    requires Chain(h, xt1, a) && Chain(h, xt2, b) && Apart(a, b) && dummy in h && dummy !in a && dummy !in b
    ensures Merging(h, [dummy], a, b, dummy, xt1, xt2)
  {
  }

  /** The merge of `a` and `b` has linked the tags `done` behind the dummy head. */
  ghost predicate Progress(h: Links, done: seq<XmlTag>, p: seq<XmlTag>, q: seq<XmlTag>, last: XmlTag, xt1: XmlTag?, xt2: XmlTag?,
                           dummy: XmlTag, all: seq<XmlTag>, m: seq<XmlTag>, cmp: Compare) {
    forall k {:trigger Open(k)} :: Open(k) ==>
      && Merging(h, done, p, q, last, xt1, xt2) && done[0] == dummy && last in all
      && (forall i :: 0 <= i < |p| ==> p[i] in all) && (forall i :: 0 <= i < |q| ==> q[i] in all)
      && done[1..] + Merged(p, q, cmp) == m
  }

  lemma ProgressStart(h: Links, dummy: XmlTag, a: seq<XmlTag>, b: seq<XmlTag>, xt1: XmlTag?, xt2: XmlTag?, all: seq<XmlTag>, cmp: Compare)
    requires Chain(h, xt1, a) && Chain(h, xt2, b) && Apart(a, b) && dummy in h && dummy !in a && dummy !in b && all == [dummy] + a + b
    ensures Progress(h, [dummy], a, b, dummy, xt1, xt2, dummy, all, Merged(a, b, cmp), cmp)
  {
    MergingStart(h, dummy, a, b, xt1, xt2);
    assert [dummy][1..] + Merged(a, b, cmp) == Merged(a, b, cmp);
  }

  lemma ProgressLeft(h: Links, done: seq<XmlTag>, p: seq<XmlTag>, q: seq<XmlTag>, last: XmlTag, xt1: XmlTag?, xt2: XmlTag?,
                     dummy: XmlTag, all: seq<XmlTag>, m: seq<XmlTag>, cmp: Compare)
    requires Progress(h, done, p, q, last, xt1, xt2, dummy, all, m, cmp)
    ensures last in all && (xt1 != null <==> p != []) && (xt2 != null <==> q != []) && (xt1 != null ==> xt1 == p[0]) && (xt2 != null ==> xt2 == q[0])
    ensures (p != [] ==> p[0] in all && p[0] != last) && (q != [] ==> q[0] in all && q[0] != last)
  {
    assert Open(0);
    assert last in done;
    assert (p != [] ==> p[0] in p) && (q != [] ==> q[0] in q);
  }

  lemma ProgressFirst(h: Links, done: seq<XmlTag>, p: seq<XmlTag>, q: seq<XmlTag>, last: XmlTag, xt1: XmlTag?, xt2: XmlTag?,
                      dummy: XmlTag, all: seq<XmlTag>, m: seq<XmlTag>, cmp: Compare)
    requires Progress(h, done, p, q, last, xt1, xt2, dummy, all, m, cmp) && p != [] && q != [] && cmp(p[0].key, q[0].key) <= 0
    ensures p[0] in h && Progress(h[last := p[0]], done + [p[0]], p[1..], q, p[0], h[p[0]], xt2, dummy, all, m, cmp)
  {
    assert Open(0);
    MergingFirst(h, done, p, q, last, xt1, xt2);
    assert (done + [p[0]])[1..] + Merged(p[1..], q, cmp) == done[1..] + ([p[0]] + Merged(p[1..], q, cmp));
    assert p[0] in p;
  }

  lemma ProgressSecond(h: Links, done: seq<XmlTag>, p: seq<XmlTag>, q: seq<XmlTag>, last: XmlTag, xt1: XmlTag?, xt2: XmlTag?,
                       dummy: XmlTag, all: seq<XmlTag>, m: seq<XmlTag>, cmp: Compare)
    requires Progress(h, done, p, q, last, xt1, xt2, dummy, all, m, cmp) && p != [] && q != [] && cmp(p[0].key, q[0].key) > 0
    ensures q[0] in h && Progress(h[last := q[0]], done + [q[0]], p, q[1..], q[0], xt1, h[q[0]], dummy, all, m, cmp)
  {
    assert Open(0);
    MergingSecond(h, done, p, q, last, xt1, xt2);
    assert (done + [q[0]])[1..] + Merged(p, q[1..], cmp) == done[1..] + ([q[0]] + Merged(p, q[1..], cmp));
    assert q[0] in q;
  }

  lemma ProgressEnd(h: Links, done: seq<XmlTag>, p: seq<XmlTag>, q: seq<XmlTag>, last: XmlTag, xt1: XmlTag?, xt2: XmlTag?,
                    dummy: XmlTag, all: seq<XmlTag>, m: seq<XmlTag>, cmp: Compare)
    requires Progress(h, done, p, q, last, xt1, xt2, dummy, all, m, cmp) && (p == [] || q == [])
    ensures var h' := h[last := if xt1 != null then xt1 else xt2]; dummy in h' && Chain(h', h'[dummy], m)
  {
    assert Open(0);
    if p != [] {
      MergingRest(h, done, p, last, xt1);
    } else {
      assert Merging(h, done, q, [], last, xt2, null);
      MergingRest(h, done, q, last, xt2);
    }
  }

  method Link(xt: XmlTag, v: XmlTag?, ghost h: Links, ghost all: seq<XmlTag>)
    requires xt in all && Mirrors(h, all)
    modifies xt`next
    ensures xt.next == v && Mirrors(h[xt := v], all)
  {
    xt.next := v;
  }

  /** `xml_tag_sort_merge`: links the tags of two sorted chains into one, those of the first chain
      before equal ones of the second. */
  method SortMerge(head1: XmlTag?, head2: XmlTag?, cmp: Compare, ghost a: seq<XmlTag>, ghost b: seq<XmlTag>) returns (head: XmlTag?)
    requires ChainOf(head1, a) && ChainOf(head2, b) && Apart(a, b)
    modifies (set x | x in a)`next, (set x | x in b)`next
    ensures ChainOf(head, Merged(a, b, cmp))
  {
    var dummy := new XmlTag("", 0);
    ghost var all, m := [dummy] + a + b, Merged(a, b, cmp);
    ghost var h: Links := LinksOf(all);
    assert all[0] == dummy;
    MirrorsPart(h, all, a);
    MirrorsPart(h, all, b);
    ChainMirrored(h, head1, a);
    ChainMirrored(h, head2, b);
    var xt: XmlTag := dummy;
    var xt1, xt2 := head1, head2;
    ghost var done, p, q := [dummy], a, b;
    ProgressStart(h, dummy, a, b, xt1, xt2, all, cmp);
    while xt1 != null && xt2 != null
      invariant fresh(dummy) && Mirrors(h, all) && Progress(h, done, p, q, xt, xt1, xt2, dummy, all, m, cmp)
      decreases |p| + |q|
    {
      ProgressLeft(h, done, p, q, xt, xt1, xt2, dummy, all, m, cmp);
      if cmp(xt1.key, xt2.key) <= 0 {
        ProgressFirst(h, done, p, q, xt, xt1, xt2, dummy, all, m, cmp);
        Link(xt, xt1, h, all);
        h := h[xt := xt1];
        xt := xt1;
        xt1 := xt1.next;
        done, p := done + [p[0]], p[1..];
      } else {
        ProgressSecond(h, done, p, q, xt, xt1, xt2, dummy, all, m, cmp);
        Link(xt, xt2, h, all);
        h := h[xt := xt2];
        xt := xt2;
        xt2 := xt2.next;
        done, q := done + [q[0]], q[1..];
      }
    }
    ProgressLeft(h, done, p, q, xt, xt1, xt2, dummy, all, m, cmp);
    ProgressEnd(h, done, p, q, xt, xt1, xt2, dummy, all, m, cmp);
    Link(xt, if xt1 != null then xt1 else xt2, h, all);
    h := h[xt := if xt1 != null then xt1 else xt2];
    head := dummy.next;
    MergedInside(a, b, cmp, all);
    MirrorsPart(h, all, m);
    ChainMirrored(h, head, m);
  }

  lemma MergedInside(a: seq<XmlTag>, b: seq<XmlTag>, cmp: Compare, all: seq<XmlTag>)
    requires forall x :: x in a || x in b ==> x in all
    ensures forall i :: 0 <= i < |Merged(a, b, cmp)| ==> Merged(a, b, cmp)[i] in all
  {
    var m := Merged(a, b, cmp);
    forall i | 0 <= i < |m|
      ensures m[i] in all
    {
      MergedMember(a, b, cmp, m[i]);
    }
  }

  // ---------------------------------------------------------------- sorting in place

  function At(q: seq<XmlTag>, i: nat): XmlTag? {
    if i < |q| then q[i] else null
  }

  lemma NextAt(head: XmlTag?, q: seq<XmlTag>, i: nat)
    requires ChainOf(head, q) && i < |q|
    ensures q[i] in q && q[i].next == At(q, i + 1)
  {
    if i + 1 == |q| {
      assert q[|q| - 1] == q[i];
    }
  }

  /** A chain that is cut after its first tags makes two. */
  lemma ChainCut(h: Links, head: XmlTag?, q: seq<XmlTag>, n: nat)
    requires Chain(h, head, q) && 0 < n < |q|
    ensures var h' := h[q[n - 1] := null];
      Chain(h', head, q[..n]) && Chain(h', q[n], q[n..]) && Apart(q[..n], q[n..])
  {
    var a, b := q[..n], q[n..];
    assert forall i :: 0 <= i < n ==> a[i] == q[i];
    assert forall i :: 0 <= i < |b| ==> b[i] == q[n + i];
    assert b[|b| - 1] == q[|q| - 1];
  }

  /** `out` is `q` in order, and tags that compare equal are in the order they had. */
  ghost predicate SortedFrom(out: seq<XmlTag>, q: seq<XmlTag>, cmp: Compare) {
    InOrder(out, cmp) && |out| == |q| && forall k :: Peers(out, cmp, k) == Peers(q, cmp, k)
  }

  predicate SameTags(out: seq<XmlTag>, q: seq<XmlTag>) {
    (forall i :: 0 <= i < |out| ==> out[i] in q) && (forall i :: 0 <= i < |q| ==> q[i] in out)
  }

  lemma {:induction false} MergedLength(a: seq<XmlTag>, b: seq<XmlTag>, cmp: Compare)
    ensures |Merged(a, b, cmp)| == |a| + |b|
    decreases |a| + |b|
  {
    if a != [] && b != [] {
      if cmp(a[0].key, b[0].key) <= 0 {
        MergedLength(a[1..], b, cmp);
      } else {
        MergedLength(a, b[1..], cmp);
      }
    }
  }

  lemma MergedSorted(a: seq<XmlTag>, b: seq<XmlTag>, a0: seq<XmlTag>, b0: seq<XmlTag>, cmp: Compare)
    requires Preorder(cmp) && SortedFrom(a, a0, cmp) && SortedFrom(b, b0, cmp)
    ensures SortedFrom(Merged(a, b, cmp), a0 + b0, cmp)
  {
    MergedInOrder(a, b, cmp);
    MergedLength(a, b, cmp);
    forall k
      ensures Peers(Merged(a, b, cmp), cmp, k) == Peers(a0 + b0, cmp, k)
    {
      MergedPeers(a, b, cmp, k);
      OnlyConcat(a0, b0, EqualTo(cmp, k));
    }
  }

  lemma MergedTags(a: seq<XmlTag>, b: seq<XmlTag>, a0: seq<XmlTag>, b0: seq<XmlTag>, cmp: Compare)
    requires SameTags(a, a0) && SameTags(b, b0)
    ensures SameTags(Merged(a, b, cmp), a0 + b0)
  {
    var m := Merged(a, b, cmp);
    forall i | 0 <= i < |m|
      ensures m[i] in a0 + b0
    {
      MergedMember(a, b, cmp, m[i]);
    }
    forall i | 0 <= i < |a0 + b0|
      ensures (a0 + b0)[i] in m
    {
      MergedMember(a, b, cmp, (a0 + b0)[i]);
    }
  }

  lemma ApartSame(a: seq<XmlTag>, b: seq<XmlTag>, a0: seq<XmlTag>, b0: seq<XmlTag>)
    requires SameTags(a, a0) && SameTags(b, b0) && Apart(a0, b0)
    ensures Apart(a, b)
  {
    forall x | x in a
      ensures x !in b
    {
      var i :| 0 <= i < |a| && a[i] == x;
      assert x in a0;
    }
  }

  /** The loop of `xml_tag_sort_real`: one pointer moves on at half the speed of the other and stops
      where both halves have tags. */
  method Middle(tag: XmlTag, ghost q: seq<XmlTag>) returns (xt1: XmlTag, ghost n: nat)
    requires ChainOf(tag, q) && |q| > 1
    ensures 0 < n < |q| && xt1 == q[n - 1]
  {
    NextAt(tag, q, 0);
    NextAt(tag, q, 1);
    xt1, n := tag, 1;
    var xt2 := tag.next.next;
    while xt2 != null
      invariant 0 < n < |q| && 2 * n <= |q| + 1 && xt1 == q[n - 1] && xt2 == At(q, 2 * n)
      decreases |q| - n
    {
      NextAt(tag, q, 2 * n);
      xt2 := xt2.next;
      if xt2 == null {
        break;
      }
      NextAt(tag, q, 2 * n + 1);
      NextAt(tag, q, n - 1);
      xt1 := xt1.next;
      xt2 := xt2.next;
      n := n + 1;
    }
  }

  /** `xml_tag_sort_real`: sorts a chain in place, by halves. */
  method SortReal(tag: XmlTag?, cmp: Compare, ghost q: seq<XmlTag>) returns (head: XmlTag?, ghost out: seq<XmlTag>)
    requires Preorder(cmp) && ChainOf(tag, q)
    modifies (set x | x in q)`next
    ensures ChainOf(head, out) && SortedFrom(out, q, cmp) && SameTags(out, q)
    decreases |q|, 1
  {
    if tag == null {
      return null, q;
    }
    NextAt(tag, q, 0);
    if tag.next == null {
      return tag, q;
    }
    ghost var n;
    var xt1;
    xt1, n := Middle(tag, q);
    var xt2 := Cut(tag, xt1, q, n);
    assert q[..n] + q[n..] == q;
    head, out := SortHalves(tag, xt2, cmp, q[..n], q[n..]);
  }

  method SortHalves(xt1: XmlTag?, xt2: XmlTag?, cmp: Compare, ghost a0: seq<XmlTag>, ghost b0: seq<XmlTag>)
    returns (head: XmlTag?, ghost out: seq<XmlTag>)
    requires Preorder(cmp) && ChainOf(xt1, a0) && ChainOf(xt2, b0) && Apart(a0, b0) && a0 != [] && b0 != []
    modifies (set x | x in a0 + b0)`next
    ensures ChainOf(head, out) && SortedFrom(out, a0 + b0, cmp) && SameTags(out, a0 + b0)
    decreases |a0 + b0|, 0
  {
    var h1, h2;
    ghost var a, b;
    h1, a := SortReal(xt1, cmp, a0);
    h2, b := SortReal(xt2, cmp, b0);
    ApartSame(a, b, a0, b0);
    head := SortMerge(h1, h2, cmp, a, b);
    out := Merged(a, b, cmp);
    MergedSorted(a, b, a0, b0, cmp);
    MergedTags(a, b, a0, b0, cmp);
  }

  /** The chain is cut behind the tag `xt1`. */
  method Cut(tag: XmlTag, xt1: XmlTag, ghost q: seq<XmlTag>, ghost n: nat) returns (xt2: XmlTag?)
    requires ChainOf(tag, q) && 0 < n < |q| && xt1 == q[n - 1]
    modifies xt1`next
    ensures ChainOf(tag, q[..n]) && ChainOf(xt2, q[n..]) && Apart(q[..n], q[n..])
  {
    ghost var h: Links := LinksOf(q);
    ChainMirrored(h, tag, q);
    ChainCut(h, tag, q, n);
    NextAt(tag, q, n - 1);
    xt2 := xt1.next;
    Link(xt1, null, h, q);
    MirrorsPart(h[xt1 := null], q, q[..n]);
    MirrorsPart(h[xt1 := null], q, q[n..]);
    ChainMirrored(h[xt1 := null], tag, q[..n]);
    ChainMirrored(h[xt1 := null], xt2, q[n..]);
  }

  /** `xml_tag_sort_with_data`: sorts the children of a name, and stores the new first one. */
  method Sort(tag: XmlTag, name: string, cmp: Compare, ghost q: seq<XmlTag>) returns (ghost out: seq<XmlTag>)
    requires Preorder(cmp) && (name in tag.childs ==> ChainOf(tag.childs[name], q)) && (name !in tag.childs ==> q == [])
    modifies tag`childs, (set x | x in q)`next
    ensures if name in old(tag.childs)
            then name in tag.childs && tag.childs == old(tag.childs)[name := tag.childs[name]] && ChainOf(tag.childs[name], out)
            else tag.childs == old(tag.childs)
    ensures SortedFrom(out, q, cmp) && SameTags(out, q)
  {
    if name !in tag.childs {
      return q;
    }
    var first := tag.childs[name];
    var xt;
    xt, out := SortReal(first, cmp, q);
    assert out != [];
    if first != xt {
      tag.childs := tag.childs[name := xt];
    }
  }

  // ---------------------------------------------------------------- the order of children

  /** `xml_tag_add_child`: a new child goes right behind the first of its name. */
  function Added(q: seq<XmlTag>, x: XmlTag): seq<XmlTag> {
    if q == [] then [x] else [q[0], x] + q[1..]
  }

  function AddedAll(xs: seq<XmlTag>): seq<XmlTag> {
    if xs == [] then [] else Added(AddedAll(xs[..|xs| - 1]), xs[|xs| - 1])
  }

  function Reverse(q: seq<XmlTag>): seq<XmlTag> {
    if q == [] then [] else Reverse(q[1..]) + [q[0]]
  }

  /** `xml_tag_reorder`: all but the first are reversed. */
  function Reordered(q: seq<XmlTag>): seq<XmlTag> {
    if q == [] then [] else [q[0]] + Reverse(q[1..])
  }

  lemma {:induction false} AddedFirst(xs: seq<XmlTag>)
    requires xs != []
    ensures AddedAll(xs) != [] && AddedAll(xs)[0] == xs[0]
  {
    if |xs| > 1 {
      AddedFirst(xs[..|xs| - 1]);
    } else {
      assert xs[..|xs| - 1] == [];
    }
  }

  /** Children that have been added one by one come back to that order. */
  lemma {:induction false} ReorderRestores(xs: seq<XmlTag>)
    ensures Reordered(AddedAll(xs)) == xs
  {
    if |xs| > 1 {
      var a, x := xs[..|xs| - 1], xs[|xs| - 1];
      ReorderRestores(a);
      AddedFirst(a);
      var q := AddedAll(a);
      assert Added(q, x)[1..] == [x] + q[1..];
      assert ([x] + q[1..])[1..] == q[1..];
      assert Reordered(Added(q, x)) == Reordered(q) + [x];
    } else if |xs| == 1 {
      assert xs[..0] == [] && AddedAll(xs) == [xs[0]];
      assert [xs[0]][1..] == [];
    }
  }

  /** Linking a tag behind the first one of a chain. */
  lemma ChainAdded(h: Links, head: XmlTag?, q: seq<XmlTag>, x: XmlTag)
    requires Chain(h, head, q) && q != [] && x !in q
    ensures q[0] in h && Chain(h[x := h[q[0]]][q[0] := x], head, Added(q, x))
  {
    var r := Added(q, x);
    var g := h[x := h[q[0]]][q[0] := x];
    assert forall i :: 2 <= i < |r| ==> r[i] == q[i - 1] && r[i] in q;
    forall i, j | 0 <= i < j < |r|
      ensures r[i] != r[j]
    {
      assert i == 0 || i == 1 || (r[i] == q[i - 1] && r[j] == q[j - 1]);
      assert i == 0 && j > 1 ==> r[j] == q[j - 1] && q[0] != q[j - 1];
    }
    forall i | 0 <= i < |r|
      ensures r[i] in g && (i + 1 < |r| ==> g[r[i]] == r[i + 1])
    {
      if i >= 2 {
        assert r[i] == q[i - 1] && q[i - 1] != q[0] && (i + 1 < |r| ==> r[i + 1] == q[i]);
      }
    }
    assert |q| > 1 ==> r[|r| - 1] == q[|q| - 1] && q[|q| - 1] != q[0];
  }

  /** `xml_tag_add_child`: the child becomes the first of its name, or the second behind the first. */
  method AddChild(tag: XmlTag, child: XmlTag, ghost q: seq<XmlTag>)
    requires child.next == null && child !in q
    requires (child.name in tag.childs ==> q != [] && ChainOf(tag.childs[child.name], q)) && (child.name !in tag.childs ==> q == [])
    modifies tag`childs, child`next, (set x | x in q)`next
    ensures child.name in tag.childs && ChainOf(tag.childs[child.name], Added(q, child))
    ensures tag.childs == old(tag.childs)[child.name := tag.childs[child.name]]
  {
    if child.name !in tag.childs {
      tag.childs := tag.childs[child.name := child];
    } else {
      AddSecond(tag.childs[child.name], child, q);
    }
  }

  /** A tag is linked right behind the first of a chain. */
  method LinkSecond(first: XmlTag, x: XmlTag, ghost h: Links, ghost all: seq<XmlTag>)
    requires first in all && x in all && first != x && Mirrors(h, all)
    modifies first`next, x`next
    ensures first in h && Mirrors(h[x := h[first]][first := x], all)
    ensures x.next == old(first.next)
  {
    assert first in h && h[first] == first.next;
    Link(x, first.next, h, all);
    Link(first, x, h[x := h[first]], all);
  }

  /** The part of `xml_tag_add_child` that links the child behind the first tag of its name. */
  method AddSecond(prev: XmlTag, child: XmlTag, ghost q: seq<XmlTag>)
    requires ChainOf(prev, q) && child !in q
    modifies prev`next, child`next
    ensures ChainOf(prev, Added(q, child))
  {
    assert prev == q[0] && child != prev;
    ghost var all := q + [child];
    ghost var h: Links := LinksOf(all);
    assert all[0] == prev && all[|q|] == child;
    MirrorsPart(h, all, q);
    ChainMirrored(h, prev, q);
    ChainAdded(h, prev, q, child);
    LinkSecond(prev, child, h, all);
    h := h[child := h[prev]][prev := child];
    AddedInside(q, child);
    MirrorsPart(h, all, Added(q, child));
    ChainMirrored(h, prev, Added(q, child));
  }

  lemma AddedInside(q: seq<XmlTag>, x: XmlTag)
    ensures forall i :: 0 <= i < |Added(q, x)| ==> Added(q, x)[i] in q + [x]
  {
    forall i | 0 <= i < |Added(q, x)|
      ensures Added(q, x)[i] in q + [x]
    {
      assert i >= 2 ==> Added(q, x)[i] == q[i - 1];
    }
  }

  /** The first `i` tags have been taken: all but the first of them are reversed behind it. */
  ghost predicate Reordering(h: Links, tag: XmlTag, q: seq<XmlTag>, i: nat, xt: XmlTag?) {
    && 0 < i <= |q| && tag == q[0] && Distinct(q)
    && Chain(h, tag, [tag] + Reverse(q[1..i])) && Chain(h, xt, q[i..])
  }

  lemma {:induction false} ReverseMembers(q: seq<XmlTag>, x: XmlTag)
    ensures x in Reverse(q) <==> x in q
    ensures |Reverse(q)| == |q|
  {
    if q != [] {
      ReverseMembers(q[1..], x);
    }
  }

  lemma {:induction false} ReverseEnd(q: seq<XmlTag>, x: XmlTag)
    ensures Reverse(q + [x]) == [x] + Reverse(q)
  {
    if q == [] {
      assert [] + [x] == [x] && [x][1..] == [];
    } else {
      assert (q + [x])[1..] == q[1..] + [x];
      ReverseEnd(q[1..], x);
    }
  }

  /** One more tag is linked right behind the first. */
  lemma ReorderStep(h: Links, tag: XmlTag, q: seq<XmlTag>, i: nat, xt: XmlTag)
    requires Reordering(h, tag, q, i, xt) && i < |q|
    ensures xt in h && tag in h && Reordering(h[xt := h[tag]][tag := xt], tag, q, i + 1, h[xt])
  {
    var done, rest := Reverse(q[1..i]), q[i..];
    assert rest[0] == q[i] && xt == q[i];
    var g := h[xt := h[tag]][tag := xt];
    assert q[1..i + 1] == q[1..i] + [xt];
    ReverseEnd(q[1..i], xt);
    ReverseMembers(q[1..i], xt);
    ChainAdded(h, tag, [tag] + done, xt);
    assert Added([tag] + done, xt) == [tag] + ([xt] + done);
    ChainTail(h, xt, rest);
    assert rest[1..] == q[i + 1..];
    ChainKept(h, h[xt], rest[1..], xt, h[tag]);
    ChainKept(h[xt := h[tag]], h[xt], rest[1..], tag, xt);
  }

  /** `xml_tag_reorder`. */
  method Reorder(tag: XmlTag?, ghost q: seq<XmlTag>)
    requires ChainOf(tag, q)
    modifies (set x | x in q)`next
    ensures ChainOf(tag, Reordered(q))
  {
    if tag == null {
      return;
    }
    NextAt(tag, q, 0);
    if tag.next == null || tag.next.next == null {
      ShortChain(tag, q);
      return;
    }
    ReorderAll(tag, q);
  }

  lemma ShortChain(tag: XmlTag, q: seq<XmlTag>)
    requires ChainOf(tag, q) && (tag.next == null || tag.next.next == null)
    ensures Reordered(q) == q
  {
    NextAt(tag, q, 0);
    if |q| > 1 {
      NextAt(tag, q, 1);
      assert |q| == 2 && q[1..][1..] == [];
      assert Reverse(q[1..]) == [q[1]];
    } else {
      assert q == [q[0]] && q[1..] == [];
    }
  }

  /** The part of `xml_tag_reorder` for more than two tags. */
  method ReorderAll(tag: XmlTag, ghost q: seq<XmlTag>)
    requires ChainOf(tag, q) && |q| > 2
    modifies (set x | x in q)`next
    ensures ChainOf(tag, Reordered(q))
  {
    ghost var h: Links := LinksOf(q);
    NextAt(tag, q, 0);
    NextAt(tag, q, 1);
    var xt := tag.next;
    var next := xt.next;
    ReorderStart(h, tag, q) by {
      ChainMirrored(h, tag, q);
    }
    Link(xt, null, h, q);
    h := h[xt := null];
    ReorderRest(tag, next, h, q);
  }

  /** The loop of `xml_tag_reorder`, from the third tag on. */
  method ReorderRest(tag: XmlTag, third: XmlTag?, ghost h0: Links, ghost q: seq<XmlTag>)
    requires |q| > 2 && Mirrors(h0, q) && Reordering(h0, tag, q, 2, third)
    modifies (set x | x in q)`next
    ensures ChainOf(tag, Reordered(q))
  {
    var xt := third;
    ghost var h: Links := h0;
    ghost var i := 2;
    while xt != null
      invariant i <= |q| && Mirrors(h, q) && Reordering(h, tag, q, i, xt)
      decreases |q| - i
    {
      ReorderReady(h, tag, q, i, xt);
      ReorderStep(h, tag, q, i, xt);
      var next := xt.next;
      LinkSecond(tag, xt, h, q);
      h := h[xt := h[tag]][tag := xt];
      xt := next;
      i := i + 1;
    }
    assert i == |q| && q[1..i] == q[1..];
    ReorderedInside(q);
    MirrorsPart(h, q, Reordered(q));
    ChainMirrored(h, tag, Reordered(q));
  }

  lemma ReorderReady(h: Links, tag: XmlTag, q: seq<XmlTag>, i: nat, xt: XmlTag)
    requires Reordering(h, tag, q, i, xt) && Mirrors(h, q)
    ensures i < |q| && xt == q[i] && xt in q && tag in q && xt != tag && xt in h && h[xt] == xt.next
  {
    assert xt == q[i..][0];
  }

  lemma ReorderedInside(q: seq<XmlTag>)
    ensures forall i :: 0 <= i < |Reordered(q)| ==> Reordered(q)[i] in q
  {
    forall i | 0 <= i < |Reordered(q)|
      ensures Reordered(q)[i] in q
    {
      if i > 0 {
        ReverseMembers(q[1..], Reordered(q)[i]);
      }
    }
  }

  lemma ReorderStart(h: Links, tag: XmlTag, q: seq<XmlTag>)
    requires Chain(h, tag, q) && |q| > 2
    ensures Reordering(h[q[1] := null], tag, q, 2, q[2])
  {
    ChainCut(h, tag, q, 2);
    assert q[1..2] == [q[1]] && [q[1]][1..] == [];
    assert q[..2] == [tag] + Reverse(q[1..2]);
  }
}
