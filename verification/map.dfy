/** The two-dimensional map of `map.c`: owners of the points of a plane, kept as interval lists in
the slices of a slicer.
 */
module Maps {
  import opened Slices
  import opened MapData
  import opened MapStore
  import opened Tiling
  import opened Slicers

  // ---------------------------------------------------------------- one link is taken out

  function WithoutCell(d: Data, j: nat): Data
    requires d.Queue? && j < |d.cells|
  {
    Queue(d.id, d.cells[..j] + d.cells[j + 1..])
  }

  function PutData(q: seq<Entry>, i: nat, d: Data): seq<Entry>
    requires i < |q|
  {
    q[i := q[i].(data := d)]
  }

  lemma PutAsExchange(q: seq<Entry>, i: nat, d: Data)
    requires i < |q|
    ensures PutData(q, i, d) == Exchanged(q, i, [q[i].(data := d)])
  {
  }

  /** New data for a slice leaves the partition and the tree as they are. */
  lemma PutKeeps(ops: Ops, q: seq<Entry>, tree: map<Slice, nat>, next: nat, i: nat, d: Data)
    requires Tiles(ops, q, 0, LastKey(ops)) && Agree(q, tree, next) && i < |q|
    ensures Tiles(ops, PutData(q, i, d), 0, LastKey(ops)) && Agree(PutData(q, i, d), tree, next)
  {
    var f := q[i].(data := d);
    PutAsExchange(q, i, d);
    TilesSplice(ops, q, 0, LastKey(ops), i, [f]);
    PutAgrees(ops, q, tree, next, i, d);
  }

  lemma PutMembers(q: seq<Entry>, i: nat, d: Data)
    requires i < |q|
    ensures forall e :: e in q <==> e == q[i] || e in Except(q, i)
    ensures forall e :: e in PutData(q, i, d) <==> e == q[i].(data := d) || e in Except(q, i)
  {
    var r := PutData(q, i, d);
    ExceptMembers(q, i);
    ExceptMembers(r, i);
    assert Except(r, i) == Except(q, i);
  }

  lemma PutSlices(q: seq<Entry>, i: nat, d: Data)
    requires i < |q|
    ensures forall e :: e in q ==> exists f :: f in PutData(q, i, d) && f.slice == e.slice
  {
    var r := PutData(q, i, d);
    forall e | e in q
      ensures exists f :: f in r && f.slice == e.slice
    {
      var k :| 0 <= k < |q| && q[k] == e;
      assert r[k] in r && r[k].slice == e.slice;
    }
  }

  lemma PutAgrees(ops: Ops, q: seq<Entry>, tree: map<Slice, nat>, next: nat, i: nat, d: Data)
    requires Tiles(ops, q, 0, LastKey(ops)) && Agree(q, tree, next) && i < |q|
    ensures Agree(PutData(q, i, d), tree, next)
  {
    assert Open(0);
    var f := q[i].(data := d);
    var r := PutData(q, i, d);
    PutMembers(q, i, d);
    RestApart(ops, q, 0, LastKey(ops), i);
    PutSlices(q, i, d);
    forall e | e in Except(q, i)
      ensures e.link != f.link
    {
      assert e in q && q[i] in q;
    }
  }

  /** Taking out a link whose interval is owned by `o` changes no point of another owner. */
  lemma TakenOwns(q: seq<Entry>, i: nat, j: nat, o: nat)
    requires i < |q| && q[i].data.Queue? && j < |q[i].data.cells| && q[i].data.cells[j].ent.owner == o
    ensures var r := PutData(q, i, WithoutCell(q[i].data, j));
      forall x: nat, y: nat, p: nat :: (Owns(r, x, y, p) ==> Owns(q, x, y, p)) && (p != o && Owns(q, x, y, p) ==> Owns(r, x, y, p))
  {
    var cells := q[i].data.cells;
    var d := WithoutCell(q[i].data, j);
    var r := PutData(q, i, d);
    PutMembers(q, i, d);
    assert cells == cells[..j] + [cells[j]] + cells[j + 1..];
    EntsConcat(cells[..j] + [cells[j]], cells[j + 1..]);
    EntsConcat(cells[..j], [cells[j]]);
    EntsConcat(cells[..j], cells[j + 1..]);
    assert Ents([cells[j]]) == [cells[j].ent];
    forall x: nat, y: nat, p: nat
      ensures (Owns(r, x, y, p) ==> Owns(q, x, y, p)) && (p != o && Owns(q, x, y, p) ==> Owns(r, x, y, p))
    {
      if Owns(r, x, y, p) {
        var e :| e in r && In(e.slice, x) && ListOwns(EntsOf(e.data), y, p);
        assert e in Except(q, i) ==> e in q;
        assert q[i] in q;
      }
      if p != o && Owns(q, x, y, p) {
        var e :| e in q && In(e.slice, x) && ListOwns(EntsOf(e.data), y, p);
        assert r[i] in r;
      }
    }
  }

  lemma TakenSorted(dops: Ops, d: Data, j: nat)
    requires d.Queue? && j < |d.cells| && Sorted(dops, EntsOf(d))
    ensures Sorted(dops, EntsOf(WithoutCell(d, j)))
  {
    var ents := EntsOf(d);
    var a, b := ents[..j], ents[j + 1..];
    assert EntsOf(WithoutCell(d, j)) == a + b;
    assert ents == ents[..j + 1] + b && ents[..j + 1] == a + [ents[j]];
    SortedConcat(dops, ents[..j + 1], b);
    SortedConcat(dops, a, [ents[j]]);
    assert a != [] && b != [] ==> Before(ents[j - 1].slice, ents[j + 1].slice);
    SortedConcat(dops, a, b);
  }

  /** A link taken out takes its node and its reference with it. */
  lemma TakenHeld(q: seq<Entry>, i: nat, j: nat)
    requires i < |q| && q[i].data.Queue? && j < |q[i].data.cells|
    ensures var r, c := PutData(q, i, WithoutCell(q[i].data, j)), q[i].data.cells[j];
      && (forall m :: NodesIn(q, m) == NodesIn(r, m) + Is(m == MarkOf(q[i].data.id, c)))
      && (forall k :: RecsIn(q, k) == RecsIn(r, k) + Is(k == c.ent.rec))
      && NonNull(r) == NonNull(q)
  {
    var id, cells := q[i].data.id, q[i].data.cells;
    var f := q[i].(data := WithoutCell(q[i].data, j));
    PutAsExchange(q, i, f.data);
    HeldInExchanged(q, i, [f]);
    PlacedHeld(id, cells[..j] + cells[j + 1..], j, j, cells[j]);
    assert (cells[..j] + cells[j + 1..])[..j] == cells[..j] && (cells[..j] + cells[j + 1..])[j..] == cells[j + 1..];
    assert Placed(cells[..j] + cells[j + 1..], j, j, cells[j]) == cells;
    HeldWindow(id, cells[..j] + cells[j + 1..], j, j);
    assert [f] == [f] + [];
    HeldInMiddle([], f, []);
    assert [] + [f] + [] == [f];
  }

  /** A counted node is that of some link. */
  lemma {:induction false} MarkFound(id: nat, cells: seq<Cell>, m: Mark) returns (j: nat)
    requires MarkCount(id, cells, m) > 0
    ensures j < |cells| && MarkOf(id, cells[j]) == m
  {
    if MarkOf(id, cells[0]) == m {
      j := 0;
    } else {
      j := MarkFound(id, cells[1..], m);
      j := j + 1;
    }
  }

  lemma {:induction false} NodeFound(q: seq<Entry>, m: Mark) returns (i: nat, j: nat)
    requires NodesIn(q, m) > 0
    ensures i < |q| && q[i].data.Queue? && j < |q[i].data.cells| && MarkOf(q[i].data.id, q[i].data.cells[j]) == m
  {
    if NodesOf(q[0].data, m) > 0 {
      i := 0;
      j := MarkFound(q[0].data.id, q[0].data.cells, m);
    } else {
      i, j := NodeFound(q[1..], m);
      i := i + 1;
    }
  }

  /** The node of a link names that link and its owner alone. */
  lemma NodeOwner(index: map<nat, seq<Node>>, next: nat, q: seq<Entry>, i: nat, j: nat, o: nat, n: Node)
    requires Unique(index, next) && NodesBooked(index, q) && NodesIn(q, Mark(o, n)) > 0
    requires i < |q| && q[i].data.Queue? && j < |q[i].data.cells| && n.link == q[i].data.cells[j].link
    ensures MarkOf(q[i].data.id, q[i].data.cells[j]) == Mark(o, n)
  {
    assert Open(0);
    var k := MarkOf(q[i].data.id, q[i].data.cells[j]);
    TakenHeld(q, i, j);
    assert NodesIn(q, k) > 0 && Surplus(index, q, k) >= 0;
    assert Surplus(index, q, Mark(o, n)) >= 0;
  }

  lemma TakenInv(ops: Ops, dops: Ops, q: seq<Entry>, tree: map<Slice, nat>, next: nat, i: nat, j: nat)
    requires Tiles(ops, q, 0, LastKey(ops)) && Agree(q, tree, next) && Lists(dops, q)
    requires i < |q| && q[i].data.Queue? && j < |q[i].data.cells|
    ensures var r := PutData(q, i, WithoutCell(q[i].data, j));
      Tiles(ops, r, 0, LastKey(ops)) && Agree(r, tree, next) && Lists(dops, r)
  {
    var d := WithoutCell(q[i].data, j);
    PutKeeps(ops, q, tree, next, i, d);
    PutMembers(q, i, d);
    assert q[i] in q;
    TakenSorted(dops, q[i].data, j);
  }

  lemma TakenBooked(refs: map<nat, nat>, refs': map<nat, nat>, index: map<nat, seq<Node>>, tracked: bool, q: seq<Entry>, i: nat, j: nat)
    requires i < |q| && q[i].data.Queue? && j < |q[i].data.cells|
    requires RefsBooked(refs, q, None) && (tracked ==> NodesBooked(index, q))
    requires forall r: nat :: RefCount(refs', r) == RefCount(refs, r) - Is(r == q[i].data.cells[j].ent.rec)
    ensures var r := PutData(q, i, WithoutCell(q[i].data, j));
      RefsBooked(refs', r, None) && (tracked ==> NodesBooked(index, r)) && NonNull(r) == NonNull(q)
  {
    assert Open(0);
    TakenHeld(q, i, j);
    var r := PutData(q, i, WithoutCell(q[i].data, j));
    forall m
      ensures Surplus(index, r, m) >= Surplus(index, q, m)
    {
    }
  }

  /** The link that `m` names has gone, and with it only points of its owner. */
  ghost predicate Taken(q: seq<Entry>, r: seq<Entry>, m: Mark) {
    && (forall k :: NodesIn(r, k) == NodesIn(q, k) - Is(k == m))
    && (forall x: nat, y: nat, p: nat :: Owns(r, x, y, p) ==> Owns(q, x, y, p))
    && (forall x: nat, y: nat, p: nat :: p != m.owner && Owns(q, x, y, p) ==> Owns(r, x, y, p))
    && NonNull(r) == NonNull(q)
  }

  lemma TakenMeaning(q: seq<Entry>, i: nat, j: nat)
    requires i < |q| && q[i].data.Queue? && j < |q[i].data.cells|
    ensures Taken(q, PutData(q, i, WithoutCell(q[i].data, j)), MarkOf(q[i].data.id, q[i].data.cells[j]))
  {
    TakenHeld(q, i, j);
    TakenOwns(q, i, j, q[i].data.cells[j].ent.owner);
  }

  lemma ListTaken(dops: Ops, d: Data, j: nat, y: nat, p: nat)
    requires d.Queue? && j < |d.cells| && Sorted(dops, EntsOf(d))
    ensures ListOwns(EntsOf(WithoutCell(d, j)), y, p) <==> ListOwns(EntsOf(d), y, p) && !In(d.cells[j].ent.slice, y)
  {
    var ents := EntsOf(d);
    var a, b := ents[..j], ents[j + 1..];
    assert EntsOf(WithoutCell(d, j)) == a + b && ents == a + [ents[j]] + b;
    forall c: Ent | c in a + b
      ensures Before(c.slice, ents[j].slice) || Before(ents[j].slice, c.slice)
    {
      var k :| 0 <= k < |ents| && k != j && ents[k] == c;
    }
    ListOwnsConcat(a + [ents[j]], b, y, p);
    ListOwnsConcat(a, [ents[j]], y, p);
    ListOwnsConcat(a, b, y, p);
  }

  /** Only one slice has the key. */
  lemma OwnsHere(ops: Ops, q: seq<Entry>, i: nat, x: nat, y: nat, p: nat)
    requires Tiles(ops, q, 0, LastKey(ops)) && i < |q| && In(q[i].slice, x)
    ensures Owns(q, x, y, p) <==> ListOwns(EntsOf(q[i].data), y, p)
  {
    TilesOrdered(ops, q, 0, LastKey(ops));
    forall e: Entry | e in q && e != q[i]
      ensures !In(e.slice, x)
    {
      var k :| 0 <= k < |q| && q[k] == e;
      assert Before(q[k].slice, q[i].slice) || Before(q[i].slice, q[k].slice);
    }
    assert q[i] in q;
  }

  /** The link `j` of slice `i` is the one that `m` names. */
  predicate LinkAt(q: seq<Entry>, i: nat, j: nat, m: Mark) {
    i < |q| && q[i].data.Queue? && j < |q[i].data.cells| && MarkOf(q[i].data.id, q[i].data.cells[j]) == m
  }

  /** Exactly the points of one interval have lost their owner. */
  ghost predicate Unlinked(q: seq<Entry>, r: seq<Entry>, m: Mark) {
    exists i: nat, j: nat :: LinkAt(q, i, j, m)
      && r == PutData(q, i, WithoutCell(q[i].data, j))
      && forall x: nat, y: nat, p: nat :: Owns(r, x, y, p) <==> Owns(q, x, y, p) && !Rect(q[i].slice, q[i].data.cells[j].ent.slice, x, y)
  }

  lemma TakenPoints(ops: Ops, dops: Ops, q: seq<Entry>, i: nat, j: nat)
    requires Tiles(ops, q, 0, LastKey(ops)) && Lists(dops, q)
    requires i < |q| && q[i].data.Queue? && j < |q[i].data.cells|
    ensures Unlinked(q, PutData(q, i, WithoutCell(q[i].data, j)), MarkOf(q[i].data.id, q[i].data.cells[j]))
  {
    var d := WithoutCell(q[i].data, j);
    var r := PutData(q, i, d);
    PutAsExchange(q, i, d);
    TilesSplice(ops, q, 0, LastKey(ops), i, [q[i].(data := d)]);
    PutMembers(q, i, d);
    forall x: nat, y: nat, p: nat
      ensures Owns(r, x, y, p) <==> Owns(q, x, y, p) && !Rect(q[i].slice, q[i].data.cells[j].ent.slice, x, y)
    {
      if In(q[i].slice, x) {
        OwnsHere(ops, q, i, x, y, p);
        OwnsHere(ops, r, i, x, y, p);
        assert q[i] in q;
        ListTaken(dops, q[i].data, j, y, p);
      }
    }
    assert LinkAt(q, i, j, MarkOf(q[i].data.id, q[i].data.cells[j]));
  }

  // ---------------------------------------------------------------- an owner is taken out

  /** From list `a` to list `b` only intervals of `o` have gone, among them those before position `j`. */
  ghost predicate Purging(a: seq<Ent>, b: seq<Ent>, j: nat, o: nat) {
    && (forall c :: c in b ==> c in a)
    && (forall c :: c in a && c.owner != o ==> c in b)
    && (forall k :: 0 <= k < j && k < |b| ==> b[k].owner != o)
  }

  /** The lists before slice `i` have been purged. */
  ghost predicate Purged(q: seq<Entry>, r: seq<Entry>, i: nat, o: nat) {
    && |q| == |r|
    && (forall k :: 0 <= k < |q| ==> r[k].slice == q[k].slice && Purging(EntsOf(q[k].data), EntsOf(r[k].data), 0, o))
    && (forall k :: 0 <= k < i && k < |q| ==> OwnerFree(EntsOf(r[k].data), o))
  }

  lemma PurgeStep(q: seq<Entry>, r: seq<Entry>, i: nat, j: nat, o: nat)
    requires Purged(q, r, i, o) && i < |r| && r[i].data.Queue? && j < |r[i].data.cells| && r[i].data.cells[j].ent.owner == o
    requires Purging(EntsOf(q[i].data), EntsOf(r[i].data), j, o)
    ensures var r' := PutData(r, i, WithoutCell(r[i].data, j));
      Purged(q, r', i, o) && Purging(EntsOf(q[i].data), EntsOf(r'[i].data), j, o)
  {
    var a, b := EntsOf(r[i].data), EntsOf(WithoutCell(r[i].data, j));
    assert a[j].owner == o && b == a[..j] + a[j + 1..] && a == a[..j] + [a[j]] + a[j + 1..];
    assert forall c :: c in b ==> c in a;
    assert forall c :: c in a && c.owner != o ==> c in b;
  }

  /** An interval in the list of a slice. */
  ghost predicate Carries(q: seq<Entry>, s: Slice, c: Ent) {
    exists e :: e in q && e.slice == s && c in EntsOf(e.data)
  }

  lemma OwnsCarried(q: seq<Entry>, x: nat, y: nat, p: nat)
    ensures Owns(q, x, y, p) <==> exists s, c :: Carries(q, s, c) && In(s, x) && c.owner == p && In(c.slice, y)
  {
    if Owns(q, x, y, p) {
      var e :| e in q && In(e.slice, x) && ListOwns(EntsOf(e.data), y, p);
      var c :| c in EntsOf(e.data) && c.owner == p && In(c.slice, y);
      assert Carries(q, e.slice, c);
    }
    if s, c :| Carries(q, s, c) && In(s, x) && c.owner == p && In(c.slice, y) {
      var e :| e in q && e.slice == s && c in EntsOf(e.data);
      assert ListOwns(EntsOf(e.data), y, p);
    }
  }

  /** Without the intervals of `o` the map has the points of all others. */
  lemma PurgedOwns(q: seq<Entry>, r: seq<Entry>, o: nat)
    requires Purged(q, r, |q|, o)
    ensures forall s, c :: Carries(r, s, c) <==> Carries(q, s, c) && c.owner != o
    ensures forall x: nat, y: nat, p: nat :: Owns(r, x, y, p) <==> Owns(q, x, y, p) && p != o
  {
    forall s, c
      ensures Carries(r, s, c) <==> Carries(q, s, c) && c.owner != o
    {
      PurgedCarries(q, r, o, s, c);
    }
    forall x: nat, y: nat, p: nat
      ensures Owns(r, x, y, p) <==> Owns(q, x, y, p) && p != o
    {
      OwnsCarried(q, x, y, p);
      OwnsCarried(r, x, y, p);
    }
  }

  lemma PurgedCarries(q: seq<Entry>, r: seq<Entry>, o: nat, s: Slice, c: Ent)
    requires Purged(q, r, |q|, o)
    ensures Carries(r, s, c) <==> Carries(q, s, c) && c.owner != o
  {
    if Carries(r, s, c) {
      var f :| f in r && f.slice == s && c in EntsOf(f.data);
      var k :| 0 <= k < |r| && r[k] == f;
      assert q[k] in q;
    }
    if Carries(q, s, c) && c.owner != o {
      var e :| e in q && e.slice == s && c in EntsOf(e.data);
      var k :| 0 <= k < |q| && q[k] == e;
      assert r[k] in r;
    }
  }

  // ---------------------------------------------------------------- gaps that an addition bridges

  /** At some point of the key the owner holds both neighbours of the new interval. */
  ghost predicate BridgesAcross(key: Slice, d: Slice, o: nat, q: seq<Entry>) {
    && 0 < d.begin && 0 < d.end
    && exists x: nat :: In(key, x) && Owns(q, x, d.begin - 1, o) && Owns(q, x, d.end + 1, o)
  }

  /** In no list of the key has `s` a neighbour of the owner `o` behind a gap. */
  ghost predicate SnugIn(dops: Ops, key: Slice, s: Slice, o: nat, q: seq<Entry>) {
    forall e :: e in q && !Apart(e.slice, key) ==> Snug(dops, EntsOf(e.data), s, o)
  }

  lemma BridgeSeen(ops: Ops, dops: Ops, key: Slice, cur: Ent, q: seq<Entry>)
    requires Tiles(ops, q, 0, LastKey(ops)) && Lists(dops, q) && Fits(ops, key)
    requires SliceOk(dops, cur.slice) && SnugIn(dops, key, cur.slice, cur.owner, q)
    requires BridgesUnder(dops, key, Adding(cur), q)
    ensures BridgesAcross(key, cur.slice, cur.owner, q)
  {
    var e :| e in q && !Apart(e.slice, key) && BridgesGap(dops, EntsOf(e.data), cur);
    ListBridgeSeen(dops, EntsOf(e.data), cur);
    SliceCmpMeaning(ops, e.slice, key);
    SliceCmpMeets(ops, e.slice, key);
    var x: nat :| In(e.slice, x) && In(key, x);
    assert Owns(q, x, cur.slice.begin - 1, cur.owner) && Owns(q, x, cur.slice.end + 1, cur.owner);
  }

  lemma ListBridgeSeen(dops: Ops, ents: seq<Ent>, cur: Ent)
    requires Sorted(dops, ents) && SliceOk(dops, cur.slice) && Snug(dops, ents, cur.slice, cur.owner)
    requires BridgesGap(dops, ents, cur)
    ensures 0 < cur.slice.begin && 0 < cur.slice.end
    ensures ListOwns(ents, cur.slice.begin - 1, cur.owner) && ListOwns(ents, cur.slice.end + 1, cur.owner)
  {
    var i :| 0 < i < |ents| && BridgesAt(dops, ents[i - 1], cur, ents[i]);
    assert ents[i - 1] in ents && ents[i] in ents;
    if dops == TimeOps {
      JoinTimes(ents[i - 1].slice, cur.slice);
      JoinTimes(cur.slice, ents[i].slice);
    } else {
      BridgePlace(ents, i, cur.slice);
    }
  }

  lemma BridgePlace(ents: seq<Ent>, i: nat, s: Slice)
    requires Sorted(InetOps, ents) && 0 < i < |ents| && Before(ents[i - 1].slice, s) && Before(s, ents[i].slice)
    ensures PlaceOf(ents, i, s)
  {
    assert forall j :: 0 <= j < i - 1 ==> Before(ents[j].slice, ents[i - 1].slice);
    assert forall j :: i < j < |ents| ==> Before(ents[i].slice, ents[j].slice);
  }

  lemma BridgeMade(ops: Ops, dops: Ops, key: Slice, cur: Ent, q: seq<Entry>)
    requires Tiles(ops, q, 0, LastKey(ops)) && Lists(dops, q) && Fits(ops, key) && NonEmpty(key)
    requires SliceOk(dops, cur.slice) && SnugIn(dops, key, cur.slice, cur.owner, q)
    requires BridgesAcross(key, cur.slice, cur.owner, q) && !Crosses(key, cur.slice, q)
    ensures BridgesUnder(dops, key, Adding(cur), q)
  {
    var k, x := BridgeEntry(ops, q, key, cur);
    BridgeFree(ops, q, k, x, key, cur);
    var e := q[k];
    assert BridgesGap(dops, EntsOf(e.data), cur) by {
      assert e in q;
      ListBridged(dops, EntsOf(e.data), cur);
    }
    assert e in q && !Apart(e.slice, key);
  }

  /** The slice of a point at which the owner holds both neighbours. */
  lemma BridgeEntry(ops: Ops, q: seq<Entry>, key: Slice, cur: Ent) returns (k: nat, x: nat)
    requires Tiles(ops, q, 0, LastKey(ops)) && BridgesAcross(key, cur.slice, cur.owner, q)
    ensures k < |q| && In(q[k].slice, x) && In(key, x)
    ensures cur.slice.begin > 0 && cur.slice.end > 0
    ensures ListOwns(EntsOf(q[k].data), cur.slice.begin - 1, cur.owner) && ListOwns(EntsOf(q[k].data), cur.slice.end + 1, cur.owner)
  {
    var d := cur.slice;
    x :| In(key, x) && Owns(q, x, d.begin - 1, cur.owner) && Owns(q, x, d.end + 1, cur.owner);
    OwnsInside(ops, q, 0, LastKey(ops), x, d.begin - 1, cur.owner);
    k := TilesCover(ops, q, 0, LastKey(ops), x);
    OwnsAt(ops, q, 0, LastKey(ops), k, x);
  }

  lemma BridgeFree(ops: Ops, q: seq<Entry>, k: nat, x: nat, key: Slice, cur: Ent)
    requires Tiles(ops, q, 0, LastKey(ops)) && k < |q| && In(q[k].slice, x) && In(key, x) && !Crosses(key, cur.slice, q)
    ensures forall y: nat, o: nat :: In(cur.slice, y) ==> !ListOwns(EntsOf(q[k].data), y, o)
  {
    OwnsAt(ops, q, 0, LastKey(ops), k, x);
    forall y: nat, o: nat | In(cur.slice, y)
      ensures !ListOwns(EntsOf(q[k].data), y, o)
    {
      assert ListOwns(EntsOf(q[k].data), y, o) <==> Owns(q, x, y, o);
    }
  }

  /** An owner on both sides of an interval that meets nothing has a gap of exactly that interval. */
  lemma ListBridged(dops: Ops, ents: seq<Ent>, cur: Ent)
    requires Sorted(dops, ents) && SliceOk(dops, cur.slice) && 0 < cur.slice.begin && 0 < cur.slice.end
    requires ListOwns(ents, cur.slice.begin - 1, cur.owner) && ListOwns(ents, cur.slice.end + 1, cur.owner)
    requires forall y: nat, o: nat :: In(cur.slice, y) ==> !ListOwns(ents, y, o)
    ensures BridgesGap(dops, ents, cur)
  {
    var d := cur.slice;
    var i := OwnerIndex(ents, d.begin - 1, cur.owner);
    var j := OwnerIndex(ents, d.end + 1, cur.owner);
    assert ents[i] in ents && ents[j] in ents;
    assert !ListOwns(ents, d.begin, cur.owner) && !ListOwns(ents, d.end, cur.owner);
    assert ents[i].slice.end == d.begin - 1 && ents[j].slice.begin == d.end + 1;
    assert i < j;
    if i + 1 < j {
      GapFilled(dops, ents, i, j);
    }
    assert BridgesAt(dops, ents[i], cur, ents[i + 1]);
  }

  lemma OwnerIndex(ents: seq<Ent>, y: nat, o: nat) returns (i: nat)
    requires ListOwns(ents, y, o)
    ensures i < |ents| && ents[i].owner == o && In(ents[i].slice, y)
  {
    var a :| a in ents && a.owner == o && In(a.slice, y);
    i :| 0 <= i < |ents| && ents[i] == a;
  }

  /** Between two intervals that are not neighbours in the list there is an owned point. */
  lemma GapFilled(dops: Ops, ents: seq<Ent>, i: nat, j: nat)
    requires Sorted(dops, ents) && i + 1 < j < |ents|
    ensures ents[i].slice.end != 0 && ents[j].slice.begin != 0
    ensures exists y: nat, o: nat :: ents[i].slice.end < y < ents[j].slice.begin && ListOwns(ents, y, o)
  {
    var c := ents[i + 1];
    assert Before(ents[i].slice, c.slice) && Before(c.slice, ents[j].slice);
    assert c in ents && In(c.slice, c.slice.begin);
    assert ListOwns(ents, c.slice.begin, c.owner);
  }

  /** What `map_add` of the rectangle `key`, `d` for `o` makes of the map. A crossing is found
      exactly when the rectangle meets an occupied point; then only points of the rectangle may
      have got an owner. Otherwise exactly the points of the rectangle get the owner `o`. The
      back-index stays exact unless the new intervals bridge a gap of `o`, and only then. */
  ghost predicate AddResult(ops: Ops, tracked: bool, key: Slice, d: Slice, o: nat, c: Crossing, s0: Snapshot, s: Snapshot) {
    && AddPoints(ops, key, d, o, c, s0.queue, s.queue)
    && Excess(s) >= Excess(s0) && (!c.found ==> Excess(s) == Excess(s0))
    && (tracked && BackIndexed(s0.index, s0.queue) ==>
          && (!BridgesAcross(key, d, o, s0.queue) ==> BackIndexed(s.index, s.queue))
          && (!c.found && NonEmpty(key) && BridgesAcross(key, d, o, s0.queue) ==> !BackIndexed(s.index, s.queue)))
  }

  ghost predicate AddPoints(ops: Ops, key: Slice, d: Slice, o: nat, c: Crossing, q: seq<Entry>, r: seq<Entry>) {
    && (c.found <==> Crosses(key, d, q))
    && (c.found ==> CrossedBy(key, d, q, c))
    && (forall x: nat, y: nat, p: nat :: Owns(q, x, y, p) ==> Owns(r, x, y, p))
    && (forall x: nat, y: nat, p: nat :: Owns(r, x, y, p) ==> Owns(q, x, y, p) || (p == o && Rect(key, d, x, y)))
    && (!c.found ==> forall x: nat, y: nat :: OnAxis(ops, x) && Rect(key, d, x, y) ==> Owns(r, x, y, o))
  }

  lemma AddPointsMeaning(ops: Ops, key: Slice, cur: Ent, cross: Crossing, c: Crossing, q: seq<Entry>, r: seq<Entry>)
    requires Tiles(ops, q, 0, LastKey(ops)) && !cross.found
    requires Changed(key, Adding(cur), c.found, q, r) && CrossStep(key, Adding(cur), cross, c, q)
    ensures AddPoints(ops, key, cur.slice, cur.owner, c, q, r)
  {
    forall x: nat, y: nat | !c.found && OnAxis(ops, x) && Rect(key, cur.slice, x, y)
      ensures Owns(r, x, y, cur.owner)
    {
      var i := TilesCover(ops, q, 0, LastKey(ops), x);
      assert q[i] in q && Covers(q, x);
    }
  }

  lemma AddIndexMeaning(index: map<nat, seq<Node>>, q: seq<Entry>, index': map<nat, seq<Node>>, r: seq<Entry>, bridged: bool)
    requires BackIndexed(index, q) && SurplusStep(index, q, index', r, bridged)
    ensures BackIndexed(index', r) <==> !bridged
  {
  }

  lemma AddMeaning(ops: Ops, dops: Ops, tracked: bool, key: Slice, cur: Ent, cross: Crossing, c: Crossing, s0: Snapshot, s: Snapshot)
    requires Tiles(ops, s0.queue, 0, LastKey(ops)) && Lists(dops, s0.queue) && Fits(ops, key)
    requires SliceOk(dops, cur.slice) && (NonEmpty(key) ==> SnugIn(dops, key, cur.slice, cur.owner, s0.queue))
    requires !cross.found && Outcome(dops, tracked, key, Adding(cur), cross, c, s0, s)
    ensures AddResult(ops, tracked, key, cur.slice, cur.owner, c, s0, s)
  {
    assert AddPoints(ops, key, cur.slice, cur.owner, c, s0.queue, s.queue) by {
      assert Open(0);
      AddPointsMeaning(ops, key, cur, cross, c, s0.queue, s.queue);
    }
    if tracked && BackIndexed(s0.index, s0.queue) {
      var bridged := OutcomeIndex(dops, tracked, key, Adding(cur), cross, c, s0, s);
      AddIndexMeaning(s0.index, s0.queue, s.index, s.queue, bridged);
      if bridged {
        BridgeSeen(ops, dops, key, cur, s0.queue);
      } else if !c.found && NonEmpty(key) && BridgesAcross(key, cur.slice, cur.owner, s0.queue) {
        BridgeMade(ops, dops, key, cur, s0.queue);
      }
    }
    assert Excess(s) >= Excess(s0) && (!c.found ==> Excess(s) == Excess(s0)) by {
      assert Open(0);
    }
  }

  lemma OutcomeIndex(dops: Ops, tracked: bool, key: Slice, ch: Change, cross: Crossing, c: Crossing, s0: Snapshot, s: Snapshot) returns (b: bool)
    requires tracked && Outcome(dops, tracked, key, ch, cross, c, s0, s)
    ensures SurplusStep(s0.index, s0.queue, s.index, s.queue, b)
    ensures b ==> BridgesUnder(dops, key, ch, s0.queue)
    ensures BridgesUnder(dops, key, ch, s0.queue) && !c.found ==> b
  {
    assert Open(0);
    b :| SurplusStep(s0.index, s0.queue, s.index, s.queue, b)
         && (b ==> BridgesUnder(dops, key, ch, s0.queue)) && (BridgesUnder(dops, key, ch, s0.queue) && !c.found ==> b);
  }

  lemma DelMeaning(dops: Ops, tracked: bool, key: Slice, d: Slice, who: Option<nat>, c: Crossing, s0: Snapshot, s: Snapshot)
    requires Outcome(dops, tracked, key, Deleting(d, who), Crossing(false, Slice(0, 0), 0), c, s0, s)
    ensures forall x: nat, y: nat, p: nat :: Owns(s.queue, x, y, p) <==> Owns(s0.queue, x, y, p) && !(In(key, x) && Hits(d, who, y, p))
    ensures Excess(s) == Excess(s0)
    ensures tracked && BackIndexed(s0.index, s0.queue) ==> BackIndexed(s.index, s.queue)
  {
    assert Open(0);
    if tracked {
      var bridged := OutcomeIndex(dops, tracked, key, Deleting(d, who), Crossing(false, Slice(0, 0), 0), c, s0, s);
    }
  }

  // ---------------------------------------------------------------- looking up

  lemma FoundSorted(dops: Ops, q: seq<Entry>, d: Data)
    requires Lists(dops, q) && exists e :: e in q && d == e.data
    ensures Sorted(dops, EntsOf(d))
  {
  }

  /** The loop of `map_find` over one list. */
  method FindIn(dops: Ops, cells: seq<Cell>, y: nat) returns (r: Option<nat>)
    requires Sorted(dops, Ents(cells)) && y <= Top(dops)
    ensures forall o: nat :: r == Some(o) <==> ListOwns(Ents(cells), y, o)
  {
    var i := 0;
    while i < |cells|
      invariant i <= |cells|
      invariant forall k :: 0 <= k < i ==> !In(Ents(cells)[k].slice, y)
    {
      var entry := cells[i].ent;
      assert entry == Ents(cells)[i];
      SliceCmpPointMeaning(dops, entry.slice, y);
      var n := SliceCmpPoint(dops, entry.slice, y);
      if n == 0 {
        forall o: nat | ListOwns(Ents(cells), y, o)
          ensures o == entry.owner
        {
          assert ListOwns(Ents(cells), y, entry.owner);
          OwnerUnique(dops, Ents(cells), y, o, entry.owner);
        }
        return Some(entry.owner);
      }
      if n > 0 {
        break;
      }
      i := i + 1;
    }
    forall e | e in Ents(cells)
      ensures !In(e.slice, y)
    {
      var k :| 0 <= k < |cells| && Ents(cells)[k] == e;
      assert i < k ==> Before(Ents(cells)[i].slice, Ents(cells)[k].slice);
    }
    r := None;
  }

  /** A list has an interval of `o` that meets `d`. */
  ghost predicate SearchHit(list: Data, d: Slice, o: nat) {
    exists e :: e in EntsOf(list) && !Apart(e.slice, d) && e.owner == o
  }

  /** `map_data_search`: the owners in one list go before those found already. */
  method SearchIn(dops: Ops, cells: seq<Cell>, d: Slice, found: seq<nat>) returns (r: seq<nat>)
    requires Sorted(dops, Ents(cells)) && Fits(dops, d) && NonEmpty(d)
    ensures forall o: nat :: o in r <==> o in found || exists e :: e in Ents(cells) && !Apart(e.slice, d) && e.owner == o
  {
    r := found;
    for i := 0 to |cells|
      invariant forall o: nat :: o in r <==> o in found || exists k :: 0 <= k < i && !Apart(Ents(cells)[k].slice, d) && Ents(cells)[k].owner == o
    {
      var entry := cells[i].ent;
      assert entry == Ents(cells)[i];
      SliceCmpMeaning(dops, d, entry.slice);
      if SliceCmp(dops, d, entry.slice) == 0 {
        r := [entry.owner] + r;
      }
    }
  }

  /** The loop of `map_search`. */
  method SearchLists(dops: Ops, lists: seq<Data>, d: Slice) returns (found: seq<nat>)
    requires (forall l :: l in lists ==> Sorted(dops, EntsOf(l))) && Fits(dops, d) && NonEmpty(d)
    ensures forall o: nat :: o in found <==> exists k :: 0 <= k < |lists| && SearchHit(lists[k], d, o)
  {
    found := [];
    for i := 0 to |lists|
      invariant forall o: nat :: o in found <==> exists k :: 0 <= k < i && SearchHit(lists[k], d, o)
    {
      assert lists[i] in lists;
      found := SearchIn(dops, CellsOf(lists[i]), d, found);
      assert forall o: nat :: SearchHit(lists[i], d, o) <==> exists e :: e in EntsOf(lists[i]) && !Apart(e.slice, d) && e.owner == o;
    }
  }

  /** The lists that a search collects are those of the slices that meet the key. */
  lemma SearchedLists(dops: Ops, q: seq<Entry>, key: Slice, lists: seq<Data>)
    requires Lists(dops, q) && IsSearch(q, key, lists)
    ensures forall l :: l in lists <==> l.Queue? && exists e :: e in q && !Apart(e.slice, key) && e.data == l
    ensures forall l :: l in lists ==> Sorted(dops, EntsOf(l))
  {
    var lo, hi :| 0 <= lo <= hi <= |q| && lists == DataIn(q[lo..hi])
                  && forall k :: 0 <= k < |q| ==> (lo <= k < hi <==> !Apart(q[k].slice, key));
    DataInMembers(q[lo..hi]);
    assert forall e :: e in q[lo..hi] <==> e in q && !Apart(e.slice, key);
  }

  lemma {:induction false} DataInMembers(q: seq<Entry>)
    ensures forall l :: l in DataIn(q) <==> l.Queue? && exists e :: e in q && e.data == l
  {
    if q != [] {
      DataInMembers(q[1..]);
      assert q == [q[0]] + q[1..];
    }
  }

  lemma SearchMeaning(ops: Ops, dops: Ops, q: seq<Entry>, key: Slice, d: Slice, lists: seq<Data>, found: seq<nat>)
    requires Tiles(ops, q, 0, LastKey(ops)) && Lists(dops, q) && Fits(ops, key) && NonEmpty(key) && Fits(dops, d) && NonEmpty(d)
    requires forall l :: l in lists <==> l.Queue? && exists e :: e in q && !Apart(e.slice, key) && e.data == l
    requires forall o: nat :: o in found <==> exists k :: 0 <= k < |lists| && SearchHit(lists[k], d, o)
    ensures forall o: nat :: o in found <==> exists x: nat, y: nat :: Owns(q, x, y, o) && Rect(key, d, x, y)
  {
    forall o: nat | o in found
      ensures exists x: nat, y: nat :: Owns(q, x, y, o) && Rect(key, d, x, y)
    {
      var k :| 0 <= k < |lists| && SearchHit(lists[k], d, o);
      SearchedPoint(ops, dops, q, key, d, lists[k], o);
    }
    forall x: nat, y: nat, o: nat | Owns(q, x, y, o) && Rect(key, d, x, y)
      ensures o in found
    {
      SearchedOwner(q, key, d, lists, x, y, o);
    }
  }

  lemma SearchedOwner(q: seq<Entry>, key: Slice, d: Slice, lists: seq<Data>, x: nat, y: nat, o: nat)
    requires forall l :: l in lists <==> l.Queue? && exists e :: e in q && !Apart(e.slice, key) && e.data == l
    requires Owns(q, x, y, o) && Rect(key, d, x, y)
    ensures exists k :: 0 <= k < |lists| && SearchHit(lists[k], d, o)
  {
    var e :| e in q && In(e.slice, x) && ListOwns(EntsOf(e.data), y, o);
    assert e.data in lists && SearchHit(e.data, d, o);
    var k :| 0 <= k < |lists| && lists[k] == e.data;
  }

  lemma SearchedPoint(ops: Ops, dops: Ops, q: seq<Entry>, key: Slice, d: Slice, l: Data, o: nat)
    requires Tiles(ops, q, 0, LastKey(ops)) && Lists(dops, q) && Fits(ops, key) && NonEmpty(key) && Fits(dops, d) && NonEmpty(d)
    requires exists e :: e in q && !Apart(e.slice, key) && e.data == l
    requires SearchHit(l, d, o)
    ensures exists x: nat, y: nat :: Owns(q, x, y, o) && Rect(key, d, x, y)
  {
    var e :| e in q && !Apart(e.slice, key) && e.data == l;
    var c :| c in EntsOf(l) && !Apart(c.slice, d) && c.owner == o;
    SliceCmpMeaning(ops, e.slice, key);
    SliceCmpMeets(ops, e.slice, key);
    SliceCmpMeaning(dops, c.slice, d);
    SliceCmpMeets(dops, c.slice, d);
    var x: nat :| In(e.slice, x) && In(key, x);
    var y: nat :| In(c.slice, y) && In(d, y);
    assert ListOwns(EntsOf(l), y, o);
    assert Owns(q, x, y, o) && Rect(key, d, x, y);
  }

  // ---------------------------------------------------------------- the map

  /** Every pool entry lists exactly the links that carry it, each once. */
  ghost predicate BackIndexed(index: map<nat, seq<Node>>, q: seq<Entry>) {
    forall m :: Surplus(index, q, m) == 0
  }

  /** A point of the map gets the owner `o` in the rectangle of `key` and `d`. */
  predicate Rect(key: Slice, d: Slice, x: nat, y: nat) {
    In(key, x) && In(d, y)
  }

  /** A deletion may begin at 1 only where it takes away no point from an owner of the point before. */
  ghost predicate ZeroKept(q: seq<Entry>, key: Slice, d: Slice, who: Option<nat>) {
    d.begin == 1 ==> forall x: nat, o: nat :: In(key, x) && Owns(q, x, 0, o) ==> who.Some? && who.value != o
  }

  /** That is so exactly when all cuts of the deletion are safe. */
  lemma CutsAtPoints(ops: Ops, dops: Ops, q: seq<Entry>, key: Slice, d: Slice, who: Option<nat>)
    requires Tiles(ops, q, 0, LastKey(ops)) && Lists(dops, q) && Fits(ops, key) && NonEmpty(key) && SliceOk(dops, d)
    ensures ZeroKept(q, key, d, who) <==> forall e :: e in q && !Apart(e.slice, key) ==> CutsSafe(dops, EntsOf(e.data), d, who)
  {
    if ZeroKept(q, key, d, who) {
      forall e | e in q && !Apart(e.slice, key)
        ensures CutsSafe(dops, EntsOf(e.data), d, who)
      {
        CutsAtSlice(ops, dops, q, key, d, who, e);
      }
    }
    if forall e :: e in q && !Apart(e.slice, key) ==> CutsSafe(dops, EntsOf(e.data), d, who) {
      forall x: nat, o: nat | In(key, x) && Owns(q, x, 0, o) && d.begin == 1
        ensures who.Some? && who.value != o
      {
        var e :| e in q && In(e.slice, x) && ListOwns(EntsOf(e.data), 0, o);
        CutsSafeMeaning(dops, EntsOf(e.data), d, who);
      }
    }
  }

  lemma CutsAtSlice(ops: Ops, dops: Ops, q: seq<Entry>, key: Slice, d: Slice, who: Option<nat>, e: Entry)
    requires Tiles(ops, q, 0, LastKey(ops)) && Lists(dops, q) && Fits(ops, key) && NonEmpty(key) && SliceOk(dops, d)
    requires ZeroKept(q, key, d, who) && e in q && !Apart(e.slice, key)
    ensures CutsSafe(dops, EntsOf(e.data), d, who)
  {
    var i :| 0 <= i < |q| && q[i] == e;
    SliceCmpMeaning(ops, q[i].slice, key);
    SliceCmpMeets(ops, q[i].slice, key);
    var x: nat :| In(e.slice, x) && In(key, x);
    CutsSafeMeaning(dops, EntsOf(e.data), d, who);
    assert forall o: nat :: ListOwns(EntsOf(e.data), 0, o) ==> Owns(q, x, 0, o);
  }

  class Map {
    const slicer: Slicer

    /** `time_map_init` and `inet_map_init`: the second axis is the other one. */
    constructor (ops: Ops, tracked: bool)
      ensures Inv() && slicer.ops == ops && slicer.store.ops == Dual(ops) && slicer.store.tracked == tracked
      ensures fresh(slicer) && fresh(slicer.store)
      ensures forall x: nat, y: nat, o: nat :: !Owns(slicer.queue, x, y, o)
      ensures BackIndexed(slicer.store.index, slicer.queue) && slicer.count == 0
    {
      var store := new Store(Dual(ops), tracked);
      slicer := new Slicer(ops, store);
      new;
      NothingHeld(slicer.queue[0]);
    }

    ghost predicate Inv()
      reads this, slicer, slicer.store
    {
      slicer.Inv(None)
    }

    ghost predicate Owner(x: nat, y: nat, o: nat)
      reads this, slicer, slicer.store
    {
      Owns(slicer.queue, x, y, o)
    }

    /** `map_add`. In a list of address intervals the new one must not have a neighbour of its owner
        behind a gap. */
    method Add(key: Slice, d: Slice, o: nat) returns (cross: Crossing)
      requires Inv() && Fits(slicer.ops, key) && key.begin != 1 && SliceOk(slicer.store.ops, d)
      requires NonEmpty(key) ==> SnugIn(slicer.store.ops, key, d, o, slicer.queue)
      modifies slicer, slicer.store
      ensures Inv()
      ensures AddResult(slicer.ops, slicer.store.tracked, key, d, o, cross, old(slicer.Snap()), slicer.Snap())
    {
      ghost var s0 := slicer.Snap();
      assert Tiles(slicer.ops, slicer.queue, 0, LastKey(slicer.ops)) && Lists(slicer.store.ops, slicer.queue) by {
        slicer.InvParts(None);
      }
      var entry := slicer.Pin(d, o);
      cross := slicer.ApplyChange(key, Adding(entry), Crossing(false, Slice(0, 0), 0), Some(entry.rec));
      slicer.Unpin(entry);
      AddMeaning(slicer.ops, slicer.store.ops, slicer.store.tracked, key, entry, Crossing(false, Slice(0, 0), 0), cross, s0, slicer.Snap());
    }

    /** `map_del`: takes ownership away at exactly the points of the rectangle whose owner matches. */
    method Del(key: Slice, d: Slice, who: Option<nat>)
      requires Inv() && Fits(slicer.ops, key) && key.begin != 1 && SliceOk(slicer.store.ops, d)
      requires ZeroKept(slicer.queue, key, d, who)
      modifies slicer, slicer.store
      ensures Inv()
      ensures forall x: nat, y: nat, p: nat ::
        Owns(slicer.queue, x, y, p) <==> Owns(old(slicer.queue), x, y, p) && !(In(key, x) && Hits(d, who, y, p))
      ensures slicer.count - NonNull(slicer.queue) == old(slicer.count - NonNull(slicer.queue))
      ensures slicer.store.tracked && old(BackIndexed(slicer.store.index, slicer.queue)) ==> BackIndexed(slicer.store.index, slicer.queue)
    {
      ghost var s0 := slicer.Snap();
      DelCuts(key, d, who);
      var cross := slicer.ApplyChange(key, Deleting(d, who), Crossing(false, Slice(0, 0), 0), None);
      DelMeaning(slicer.store.ops, slicer.store.tracked, key, d, who, cross, s0, slicer.Snap());
    }

    lemma DelCuts(key: Slice, d: Slice, who: Option<nat>)
      requires Inv() && Fits(slicer.ops, key) && SliceOk(slicer.store.ops, d)
      requires ZeroKept(slicer.queue, key, d, who)
      ensures NonEmpty(key) ==> ChangesOk(slicer.store.ops, key, Deleting(d, who), slicer.queue, None)
    {
      slicer.InvParts(None);
      if NonEmpty(key) {
        CutsAtPoints(slicer.ops, slicer.store.ops, slicer.queue, key, d, who);
      }
    }

    /** `map_find`: the owner of a point. */
    method Find(x: nat, y: nat) returns (r: Option<nat>)
      requires Inv() && x <= Top(slicer.ops) && y <= Top(slicer.store.ops)
      ensures forall o: nat :: r == Some(o) <==> Owner(x, y, o)
    {
      assert Lists(slicer.store.ops, slicer.queue) && Tiles(slicer.ops, slicer.queue, 0, LastKey(slicer.ops)) by {
        slicer.InvParts(None);
      }
      var d := slicer.Find(x);
      if d == Null {
        return None;
      }
      assert Sorted(slicer.store.ops, EntsOf(d)) by {
        FoundSorted(slicer.store.ops, slicer.queue, d);
      }
      r := FindIn(slicer.store.ops, d.cells, y);
    }

    /** `map_search`: the owners of the points of a rectangle. */
    method Search(key: Slice, d: Slice) returns (found: seq<nat>)
      requires Inv() && Fits(slicer.ops, key) && NonEmpty(key) && Fits(slicer.store.ops, d) && NonEmpty(d)
      ensures forall o: nat :: o in found <==> exists x: nat, y: nat :: Owner(x, y, o) && Rect(key, d, x, y)
    {
      assert Lists(slicer.store.ops, slicer.queue) && Tiles(slicer.ops, slicer.queue, 0, LastKey(slicer.ops)) by {
        slicer.InvParts(None);
      }
      var lists := slicer.Search(key);
      SearchedLists(slicer.store.ops, slicer.queue, key, lists);
      found := SearchLists(slicer.store.ops, lists, d);
      SearchMeaning(slicer.ops, slicer.store.ops, slicer.queue, key, d, lists, found);
    }

    /** `map_node_remove`: the link that a node of the pool entry `o` names leaves its list. */
    method NodeRemove(n: Node, ghost o: nat)
      requires Inv() && slicer.store.tracked && NodesIn(slicer.queue, Mark(o, n)) > 0
      modifies slicer`queue, slicer.store`refs
      ensures Inv() && Taken(old(slicer.queue), slicer.queue, Mark(o, n))
      ensures Unlinked(old(slicer.queue), slicer.queue, Mark(o, n))
    {
      var i, j := FindLink(n, o);
      assert Tiles(slicer.ops, slicer.queue, 0, LastKey(slicer.ops)) && Lists(slicer.store.ops, slicer.queue)
          && MarkOf(slicer.queue[i].data.id, slicer.queue[i].data.cells[j]) == Mark(o, n) by {
        slicer.InvParts(None);
        NodeOwner(slicer.store.index, slicer.store.next, slicer.queue, i, j, o, n);
      }
      Unlink(i, j);
      TakenMeaning(old(slicer.queue), i, j);
      TakenPoints(slicer.ops, slicer.store.ops, old(slicer.queue), i, j);
    }

    /** `map_remove_custom` with a comparison of owners: all links of an owner leave their lists. */
    method RemoveOwner(o: nat)
      requires Inv()
      modifies slicer`queue, slicer.store`refs
      ensures Inv() && Purged(old(slicer.queue), slicer.queue, |slicer.queue|, o)
    {
      ghost var q := slicer.queue;
      for i := 0 to |slicer.queue|
        invariant Inv() && Purged(q, slicer.queue, i, o) && |slicer.queue| == |q|
      {
        PurgeList(i, o, q);
      }
    }

    /** `map_data_remove_custom`. */
    method PurgeList(i: nat, o: nat, ghost q: seq<Entry>)
      requires Inv() && Purged(q, slicer.queue, i, o) && i < |slicer.queue|
      modifies slicer`queue, slicer.store`refs
      ensures Inv() && Purged(q, slicer.queue, i + 1, o)
    {
      var j := 0;
      while j < |CellsOf(slicer.queue[i].data)|
        invariant Inv() && Purged(q, slicer.queue, i, o) && i < |slicer.queue|
        invariant j <= |CellsOf(slicer.queue[i].data)|
        invariant Purging(EntsOf(q[i].data), EntsOf(slicer.queue[i].data), j, o)
        decreases |CellsOf(slicer.queue[i].data)| - j
      {
        assert EntsOf(slicer.queue[i].data)[j] == CellsOf(slicer.queue[i].data)[j].ent;
        if CellsOf(slicer.queue[i].data)[j].ent.owner == o {
          PurgeStep(q, slicer.queue, i, j, o);
          Unlink(i, j);
        } else {
          j := j + 1;
        }
      }
    }

    method Unlink(i: nat, j: nat)
      requires Inv() && i < |slicer.queue| && slicer.queue[i].data.Queue? && j < |slicer.queue[i].data.cells|
      modifies slicer`queue, slicer.store`refs
      ensures Inv() && slicer.queue == PutData(old(slicer.queue), i, WithoutCell(old(slicer.queue)[i].data, j))
    {
      ghost var q, refs := slicer.queue, slicer.store.refs;
      ghost var r := PutData(q, i, WithoutCell(q[i].data, j));
      assert Tiles(slicer.ops, r, 0, LastKey(slicer.ops)) && Lists(slicer.store.ops, r) && Agree(r, slicer.tree, slicer.next) by {
        slicer.InvParts(None);
        TakenInv(slicer.ops, slicer.store.ops, q, slicer.tree, slicer.next, i, j);
      }
      assert slicer.Books(None) && slicer.count >= NonNull(q) by {
        slicer.InvParts(None);
      }
      Cut(i, j);
      TakenBooked(refs, slicer.store.refs, slicer.store.index, slicer.store.tracked, q, i, j);
      slicer.InvIntro(None);
    }

    method Cut(i: nat, j: nat)
      requires slicer.store.Valid() && RefsBooked(slicer.store.refs, slicer.queue, None)
      requires i < |slicer.queue| && slicer.queue[i].data.Queue? && j < |slicer.queue[i].data.cells|
      modifies slicer`queue, slicer.store`refs
      ensures slicer.store.Valid()
      ensures slicer.queue == PutData(old(slicer.queue), i, WithoutCell(old(slicer.queue)[i].data, j))
      ensures forall r: nat :: RefCount(slicer.store.refs, r) == RefCount(old(slicer.store.refs), r) - Is(r == old(slicer.queue)[i].data.cells[j].ent.rec)
    {
      assert Open(0);
      TakenHeld(slicer.queue, i, j);
      var d := slicer.queue[i].data;
      slicer.store.EntryUnref(d.cells[j].ent);
      slicer.queue := PutData(slicer.queue, i, WithoutCell(d, j));
    }

    method FindLink(n: Node, ghost o: nat) returns (i: nat, j: nat)
      requires NodesIn(slicer.queue, Mark(o, n)) > 0
      ensures i < |slicer.queue| && slicer.queue[i].data.Queue? && j < |slicer.queue[i].data.cells|
      ensures slicer.queue[i].data.id == n.queue && slicer.queue[i].data.cells[j].link == n.link
    {
      ghost var wi, wj := NodeFound(slicer.queue, Mark(o, n));
      i :| 0 <= i < |slicer.queue| && slicer.queue[i].data.Queue? && slicer.queue[i].data.id == n.queue
           && exists k :: 0 <= k < |slicer.queue[i].data.cells| && slicer.queue[i].data.cells[k].link == n.link;
      j :| 0 <= j < |slicer.queue[i].data.cells| && slicer.queue[i].data.cells[j].link == n.link;
    }
  }

  function Dual(ops: Ops): Ops {
    match ops
    case TimeOps => InetOps
    case InetOps => TimeOps
  }
}
