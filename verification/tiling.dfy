/** The ordered partition of the first key axis that `slicer.c` keeps, as a sequence of entries,
and the owners that its slices and their interval lists give to the points of the plane.
 */
module Tiling {
  import opened Slices
  import opened MapData

  /** A `struct slicer_entry` and the address of the list link that holds it. */
  datatype Entry = Entry(link: nat, slice: Slice, data: Data)

  // ---------------------------------------------------------------- the partition

  ghost predicate Tiles(ops: Ops, q: seq<Entry>, begin: nat, end: nat) {
    && q != [] && q[0].slice.begin == begin && q[|q| - 1].slice.end == end
    && (forall i :: 0 <= i < |q| ==> Fits(ops, q[i].slice) && NonEmpty(q[i].slice))
    && (forall i :: 0 <= i < |q| - 1 ==> q[i].slice.end != 0 && q[i + 1].slice.begin == q[i].slice.end + 1)
  }

  lemma {:induction false} TilesBefore(ops: Ops, q: seq<Entry>, begin: nat, end: nat, i: nat, j: nat)
    requires Tiles(ops, q, begin, end) && i < j < |q|
    ensures Before(q[i].slice, q[j].slice)
    decreases j
  {
    if i + 1 < j {
      TilesBefore(ops, q, begin, end, i, j - 1);
    }
  }

  /** The slices of a partition are in order, so no two overlap. */
  lemma TilesOrdered(ops: Ops, q: seq<Entry>, begin: nat, end: nat)
    requires Tiles(ops, q, begin, end)
    ensures forall i, j :: 0 <= i < j < |q| ==> Before(q[i].slice, q[j].slice)
  {
    forall i, j | 0 <= i < j < |q|
      ensures Before(q[i].slice, q[j].slice)
    {
      TilesBefore(ops, q, begin, end, i, j);
    }
  }

  /** No point between the bounds is left out. */
  lemma {:induction false} TilesCover(ops: Ops, q: seq<Entry>, begin: nat, end: nat, p: nat) returns (i: nat)
    requires Tiles(ops, q, begin, end) && In(Slice(begin, end), p)
    ensures i < |q| && In(q[i].slice, p)
    decreases |q|
  {
    if In(q[0].slice, p) {
      i := 0;
    } else {
      i := TilesCover(ops, q[1..], q[1].slice.begin, end, p);
      i := i + 1;
    }
  }

  /** A tile may be replaced by tiles of its own extent. */
  lemma TilesSplice(ops: Ops, q: seq<Entry>, begin: nat, end: nat, i: nat, p: seq<Entry>)
    requires Tiles(ops, q, begin, end) && i < |q|
    requires Tiles(ops, p, q[i].slice.begin, q[i].slice.end)
    ensures Tiles(ops, q[..i] + p + q[i + 1..], begin, end)
  {
    var r := q[..i] + p + q[i + 1..];
    var d := |p| - 1;
    forall k | 0 <= k < |r|
      ensures Fits(ops, r[k].slice) && NonEmpty(r[k].slice)
      ensures k < |r| - 1 ==> r[k].slice.end != 0 && r[k + 1].slice.begin == r[k].slice.end + 1
    {
      if k < i {
        assert r[k] == q[k];
        assert k + 1 == i ==> r[k + 1] == p[0];
        assert k + 1 < i ==> r[k + 1] == q[k + 1];
      } else if k <= i + d {
        assert r[k] == p[k - i];
        assert k < i + d ==> r[k + 1] == p[k + 1 - i];
        assert k == i + d && k < |r| - 1 ==> r[k + 1] == q[i + 1];
      } else {
        assert r[k] == q[k - d];
        assert k < |r| - 1 ==> r[k + 1] == q[k + 1 - d];
      }
    }
    assert r[0] == if i == 0 then p[0] else q[0];
    assert r[|r| - 1] == if i == |q| - 1 then p[d] else q[|q| - 1];
  }

  /** Neighbouring tiles may be replaced by one tile. */
  lemma TilesGlue(ops: Ops, q: seq<Entry>, begin: nat, end: nat, from: nat, to: nat, e: Entry)
    requires Tiles(ops, q, begin, end) && from < to < |q|
    requires e.slice == Slice(q[from].slice.begin, q[to].slice.end)
    ensures Tiles(ops, q[..from] + [e] + q[to + 1..], begin, end)
  {
    TilesBefore(ops, q, begin, end, from, to);
    var r := q[..from] + [e] + q[to + 1..];
    forall k | 0 <= k < |r|
      ensures Fits(ops, r[k].slice) && NonEmpty(r[k].slice)
      ensures k < |r| - 1 ==> r[k].slice.end != 0 && r[k + 1].slice.begin == r[k].slice.end + 1
    {
      if k < from {
        assert r[k] == q[k] && (k + 1 < from ==> r[k + 1] == q[k + 1]);
      } else if k == from {
        assert k < |r| - 1 ==> r[k + 1] == q[to + 1];
      } else {
        assert r[k] == q[k + to - from] && (k < |r| - 1 ==> r[k + 1] == q[k + 1 + to - from]);
      }
    }
    assert r[0] == if from == 0 then e else q[0];
    assert r[|r| - 1] == if to == |q| - 1 then e else q[|q| - 1];
  }

  // ---------------------------------------------------------------- ownership in the plane

  ghost predicate Owns(q: seq<Entry>, x: nat, y: nat, o: nat) {
    exists e :: e in q && In(e.slice, x) && ListOwns(EntsOf(e.data), y, o)
  }

  ghost predicate Covers(q: seq<Entry>, x: nat) {
    exists e :: e in q && In(e.slice, x)
  }

  ghost predicate Lists(ops: Ops, q: seq<Entry>) {
    forall e :: e in q ==> Sorted(ops, EntsOf(e.data))
  }

  /** No point of the plane has two owners. */
  lemma OwnsUnique(ops: Ops, dops: Ops, q: seq<Entry>, begin: nat, end: nat, x: nat, y: nat, o: nat, p: nat)
    requires Tiles(ops, q, begin, end) && Lists(dops, q)
    requires Owns(q, x, y, o) && Owns(q, x, y, p)
    ensures o == p
  {
    var d :| d in q && In(d.slice, x) && ListOwns(EntsOf(d.data), y, o);
    var e :| e in q && In(e.slice, x) && ListOwns(EntsOf(e.data), y, p);
    var i :| 0 <= i < |q| && q[i] == d;
    var j :| 0 <= j < |q| && q[j] == e;
    if i < j {
      TilesBefore(ops, q, begin, end, i, j);
    }
    if j < i {
      TilesBefore(ops, q, begin, end, j, i);
    }
    OwnerUnique(dops, EntsOf(d.data), y, o, p);
  }

  lemma OwnsConcat(a: seq<Entry>, b: seq<Entry>, x: nat, y: nat, o: nat)
    ensures Owns(a + b, x, y, o) <==> Owns(a, x, y, o) || Owns(b, x, y, o)
    ensures Covers(a + b, x) <==> Covers(a, x) || Covers(b, x)
  {
  }

  lemma OwnsOne(e: Entry, x: nat, y: nat, o: nat)
    ensures Owns([e], x, y, o) <==> In(e.slice, x) && ListOwns(EntsOf(e.data), y, o)
    ensures Covers([e], x) <==> In(e.slice, x)
  {
    assert e in [e];
  }

  /** Only points of the axis have owners. */
  lemma OwnsInside(ops: Ops, q: seq<Entry>, begin: nat, end: nat, x: nat, y: nat, o: nat)
    requires Tiles(ops, q, begin, end) && Owns(q, x, y, o)
    ensures In(Slice(begin, end), x)
  {
    var e :| e in q && In(e.slice, x);
    var i :| 0 <= i < |q| && q[i] == e;
    if 0 < i {
      TilesBefore(ops, q, begin, end, 0, i);
    }
    if i < |q| - 1 {
      TilesBefore(ops, q, begin, end, i, |q| - 1);
    }
  }

  // ---------------------------------------------------------------- what the lists hold

  ghost function NodesIn(q: seq<Entry>, m: Mark): nat {
    if q == [] then 0 else NodesOf(q[0].data, m) + NodesIn(q[1..], m)
  }

  ghost function RecsIn(q: seq<Entry>, r: nat): nat {
    if q == [] then 0 else RecsOf(q[0].data, r) + RecsIn(q[1..], r)
  }

  /** How many slices have data, as `slicer->count` is meant to count them. */
  ghost function NonNull(q: seq<Entry>): nat {
    if q == [] then 0 else Is(q[0].data.Queue?) + NonNull(q[1..])
  }

  lemma {:induction false} NodesInConcat(a: seq<Entry>, b: seq<Entry>, m: Mark)
    ensures NodesIn(a + b, m) == NodesIn(a, m) + NodesIn(b, m)
  {
    if a == [] {
      assert a + b == b;
    } else {
      NodesInConcat(a[1..], b, m);
      assert (a + b)[1..] == a[1..] + b;
    }
  }

  lemma {:induction false} RecsInConcat(a: seq<Entry>, b: seq<Entry>, r: nat)
    ensures RecsIn(a + b, r) == RecsIn(a, r) + RecsIn(b, r)
  {
    if a == [] {
      assert a + b == b;
    } else {
      RecsInConcat(a[1..], b, r);
      assert (a + b)[1..] == a[1..] + b;
    }
  }

  lemma {:induction false} NonNullConcat(a: seq<Entry>, b: seq<Entry>)
    ensures NonNull(a + b) == NonNull(a) + NonNull(b)
  {
    if a == [] {
      assert a + b == b;
    } else {
      NonNullConcat(a[1..], b);
      assert (a + b)[1..] == a[1..] + b;
    }
  }

  /** Entry `e` between `a` and `b` adds what its list holds. */
  lemma HeldInMiddle(a: seq<Entry>, e: Entry, b: seq<Entry>)
    ensures forall m :: NodesIn(a + [e] + b, m) == NodesIn(a + b, m) + NodesOf(e.data, m)
    ensures forall r :: RecsIn(a + [e] + b, r) == RecsIn(a + b, r) + RecsOf(e.data, r)
    ensures NonNull(a + [e] + b) == NonNull(a + b) + Is(e.data.Queue?)
  {
    forall m
      ensures NodesIn(a + [e] + b, m) == NodesIn(a + b, m) + NodesOf(e.data, m)
    {
      NodesInConcat(a + [e], b, m);
      NodesInConcat(a, [e], m);
      NodesInConcat(a, b, m);
    }
    forall r
      ensures RecsIn(a + [e] + b, r) == RecsIn(a + b, r) + RecsOf(e.data, r)
    {
      RecsInConcat(a + [e], b, r);
      RecsInConcat(a, [e], r);
      RecsInConcat(a, b, r);
    }
    NonNullConcat(a + [e], b);
    NonNullConcat(a, [e]);
    NonNullConcat(a, b);
  }

  // ---------------------------------------------------------------- changing a region

  predicate Gains(key: Slice, cur: Ent, x: nat, y: nat, o: nat) {
    In(key, x) && In(cur.slice, y) && o == cur.owner
  }

  /** From the entries `a` to `b` exactly the points of the rectangle change. An addition that
      found a crossing may have stopped anywhere in between. */
  ghost predicate Changed(key: Slice, ch: Change, found: bool, a: seq<Entry>, b: seq<Entry>) {
    match ch
    case Adding(cur) =>
      forall x: nat, y: nat, o: nat ::
        && (Owns(a, x, y, o) ==> Owns(b, x, y, o))
        && (Owns(b, x, y, o) ==> Owns(a, x, y, o) || Gains(key, cur, x, y, o))
        && (!found && Gains(key, cur, x, y, o) && Covers(a, x) ==> Owns(b, x, y, o))
    case Deleting(cur, who) =>
      forall x: nat, y: nat, o: nat ::
        Owns(b, x, y, o) <==> Owns(a, x, y, o) && !(In(key, x) && Hits(cur, who, y, o))
  }

  lemma ChangedConcat(key: Slice, ch: Change, fa: bool, a: seq<Entry>, a': seq<Entry>, fb: bool, b: seq<Entry>, b': seq<Entry>, f: bool)
    requires Changed(key, ch, fa, a, a') && Changed(key, ch, fb, b, b') && (fa || fb ==> f)
    ensures Changed(key, ch, f, a + b, a' + b')
  {
    forall x: nat, y: nat, o: nat
      ensures Owns(a + b, x, y, o) <==> Owns(a, x, y, o) || Owns(b, x, y, o)
      ensures Owns(a' + b', x, y, o) <==> Owns(a', x, y, o) || Owns(b', x, y, o)
      ensures Covers(a + b, x) <==> Covers(a, x) || Covers(b, x)
    {
      OwnsConcat(a, b, x, y, o);
      OwnsConcat(a', b', x, y, o);
    }
  }

  /** The rectangle meets an occupied point. */
  ghost predicate Crosses(key: Slice, cur: Slice, q: seq<Entry>) {
    exists x: nat, y: nat, o: nat :: Owns(q, x, y, o) && In(key, x) && In(cur, y)
  }

  /** The reported owner and interval are those of an occupied point of the rectangle. */
  ghost predicate CrossedBy(key: Slice, cur: Slice, q: seq<Entry>, c: Crossing) {
    exists x: nat, y: nat :: Owns(q, x, y, c.owner) && In(key, x) && In(cur, y) && In(c.slice, y)
  }

  lemma CrossesConcat(key: Slice, cur: Slice, a: seq<Entry>, b: seq<Entry>)
    ensures Crosses(key, cur, a + b) <==> Crosses(key, cur, a) || Crosses(key, cur, b)
    ensures forall c :: CrossedBy(key, cur, a + b, c) <==> CrossedBy(key, cur, a, c) || CrossedBy(key, cur, b, c)
  {
    forall x: nat, y: nat, o: nat
      ensures Owns(a + b, x, y, o) <==> Owns(a, x, y, o) || Owns(b, x, y, o)
    {
      OwnsConcat(a, b, x, y, o);
    }
  }

  /** A crossing in a list whose slice meets the key is a crossing in the plane. */
  lemma CrossesOne(ops: Ops, dops: Ops, key: Slice, cur: Slice, e: Entry)
    requires Fits(ops, key) && NonEmpty(key) && Fits(ops, e.slice) && NonEmpty(e.slice) && !Apart(e.slice, key)
    requires SliceOk(dops, cur) && Sorted(dops, EntsOf(e.data))
    ensures Crosses(key, cur, [e]) <==> Meets(EntsOf(e.data), cur)
    ensures forall c: Ent :: c in EntsOf(e.data) && !Apart(c.slice, cur) ==> CrossedBy(key, cur, [e], Crossing(true, c.slice, c.owner))
  {
    SliceCmpMeaning(ops, e.slice, key);
    SliceCmpMeets(ops, e.slice, key);
    var x: nat :| In(e.slice, x) && In(key, x);
    forall c: Ent | c in EntsOf(e.data) && !Apart(c.slice, cur)
      ensures CrossedBy(key, cur, [e], Crossing(true, c.slice, c.owner))
    {
      SliceCmpMeaning(dops, c.slice, cur);
      SliceCmpMeets(dops, c.slice, cur);
      var y: nat :| In(c.slice, y) && In(cur, y);
      assert ListOwns(EntsOf(e.data), y, c.owner);
      OwnsOne(e, x, y, c.owner);
    }
    if Crosses(key, cur, [e]) {
      var x': nat, y: nat, o: nat :| Owns([e], x', y, o) && In(key, x') && In(cur, y);
      OwnsOne(e, x', y, o);
      var c :| c in EntsOf(e.data) && c.owner == o && In(c.slice, y);
    }
  }

  /** The pieces `p` of a cut carry the lists `l`, `m` and `r`; a side that is not cut off has none. */
  ghost predicate PiecesAre(c: Cross, l: Data, m: Data, r: Data, p: seq<Entry>) {
    && c.mid.Some?
    && var k := Is(c.left.Some?);
       && |p| == k + 1 + Is(c.right.Some?)
       && (if c.left.Some? then p[0].slice == c.left.value && p[0].data == l else l.Null?)
       && p[k].slice == c.mid.value && p[k].data == m
       && (if c.right.Some? then p[k + 1].slice == c.right.value && p[k + 1].data == r else r.Null?)
  }

  lemma PiecesHeld(c: Cross, l: Data, m: Data, r: Data, p: seq<Entry>)
    requires PiecesAre(c, l, m, r, p)
    ensures forall k :: NodesIn(p, k) == NodesOf(l, k) + NodesOf(m, k) + NodesOf(r, k)
    ensures forall k :: RecsIn(p, k) == RecsOf(l, k) + RecsOf(m, k) + RecsOf(r, k)
    ensures NonNull(p) == Is(l.Queue?) + Is(m.Queue?) + Is(r.Queue?)
  {
    var k := Is(c.left.Some?);
    assert p == p[..k] + [p[k]] + p[k + 1..];
    HeldInMiddle(p[..k], p[k], p[k + 1..]);
    if c.left.Some? && c.right.Some? {
      assert p[..k] + p[k + 1..] == [p[0]] + [p[2]] + [];
      HeldInMiddle([p[0]], p[2], []);
      assert [p[0]] + [] == [p[0]];
      HeldInMiddle([], p[0], []);
    } else if c.left.Some? {
      assert p[..k] + p[k + 1..] == [] + [p[0]] + [];
      HeldInMiddle([], p[0], []);
    } else if c.right.Some? {
      assert p[..k] + p[k + 1..] == [] + [p[1]] + [];
      HeldInMiddle([], p[1], []);
    }
  }

  /** The pieces of one slice: a copy of the list on both sides of the changed one. */
  ghost predicate PiecesOf(c: Cross, e: Entry, r: Data, p: seq<Entry>) {
    && c.mid.Some?
    && var l := Is(c.left.Some?);
       && |p| == l + 1 + Is(c.right.Some?)
       && (c.left.Some? ==> p[0].slice == c.left.value && EntsOf(p[0].data) == EntsOf(e.data))
       && p[l].slice == c.mid.value && p[l].data == r
       && (c.right.Some? ==> p[l + 1].slice == c.right.value && EntsOf(p[l + 1].data) == EntsOf(e.data))
  }

  lemma PiecesTile(ops: Ops, x: Cross, e: Entry, r: Data, p: seq<Entry>)
    requires CutShape(ops, e.slice, x) && PiecesOf(x, e, r, p)
    ensures Tiles(ops, p, e.slice.begin, e.slice.end)
  {
  }

  lemma PiecesOwn(key: Slice, x: Cross, e: Entry, r: Data, p: seq<Entry>, px: nat, y: nat, o: nat)
    requires CrossExact(e.slice, key, x) && PiecesOf(x, e, r, p)
    ensures Owns(p, px, y, o) <==> In(e.slice, px) && ListOwns(if In(key, px) then EntsOf(r) else EntsOf(e.data), y, o)
  {
    var l := Is(x.left.Some?);
    assert forall k :: 0 <= k < |p| ==> p[k] in p;
    assert forall f :: f in p ==> f == p[l] || (x.left.Some? && f == p[0]) || (x.right.Some? && f == p[l + 1]);
  }

  lemma PiecesChanged(dops: Ops, key: Slice, x: Cross, ch: Change, cross: Crossing, cross': Crossing, e: Entry, r: Data, p: seq<Entry>)
    requires CrossExact(e.slice, key, x) && PiecesOf(x, e, r, p)
    requires Sorted(dops, EntsOf(e.data)) && DataChanged(dops, ch, cross, cross', e.data, r)
    ensures Changed(key, ch, cross'.found, [e], p) && Lists(dops, p)
  {
    forall px: nat, y: nat, o: nat
      ensures Owns(p, px, y, o) <==> In(e.slice, px) && ListOwns(if In(key, px) then EntsOf(r) else EntsOf(e.data), y, o)
      ensures Owns([e], px, y, o) <==> In(e.slice, px) && ListOwns(EntsOf(e.data), y, o)
      ensures Covers([e], px) <==> In(e.slice, px)
    {
      PiecesOwn(key, x, e, r, p, px, y, o);
      OwnsOne(e, px, y, o);
    }
  }

  // ---------------------------------------------------------------- slices without intervals

  /** The data is NULL or an empty list, as `map_data_is_null` tests it. */
  predicate IsNull(e: Entry) {
    CellsOf(e.data) == []
  }

  /** The two queues have the same slices with intervals. */
  ghost predicate SameFull(a: seq<Entry>, b: seq<Entry>) {
    forall e :: !IsNull(e) ==> (e in a <==> e in b)
  }

  lemma SameFullOwns(a: seq<Entry>, b: seq<Entry>)
    requires SameFull(a, b)
    ensures forall x: nat, y: nat, o: nat :: Owns(a, x, y, o) <==> Owns(b, x, y, o)
  {
    forall x: nat, y: nat, o: nat
      ensures Owns(a, x, y, o) <==> Owns(b, x, y, o)
    {
      if Owns(a, x, y, o) {
        var e :| e in a && In(e.slice, x) && ListOwns(EntsOf(e.data), y, o);
        assert e in b;
      }
      if Owns(b, x, y, o) {
        var e :| e in b && In(e.slice, x) && ListOwns(EntsOf(e.data), y, o);
        assert e in a;
      }
    }
  }

  ghost predicate NoPair(q: seq<Entry>) {
    forall k :: 0 < k < |q| ==> !IsNull(q[k - 1]) || !IsNull(q[k])
  }

  lemma {:induction false} NullHolds(q: seq<Entry>)
    requires forall e :: e in q ==> IsNull(e)
    ensures forall m :: NodesIn(q, m) == 0
    ensures forall r :: RecsIn(q, r) == 0
  {
    if q != [] {
      NullHolds(q[1..]);
      assert IsNull(q[0]);
    }
  }

}
