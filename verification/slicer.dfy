/** The partition of a key axis and its changes, from `slicer.c`. The data operations of a slicer
are those of `map.c`, its only user: the data of a slice is an interval list in a `Store`.
 */
module Slicers {
  import opened Sequences
  import opened Slices
  import opened MapData
  import opened MapStore
  import opened Tiling

  /** The end of the initial slice: times have no last key, addresses end at `IPV4_MAX`. */
  function LastKey(ops: Ops): nat {
    match ops
    case TimeOps => 0
    case InetOps => IPV4_MAX
  }

  predicate OnAxis(ops: Ops, p: nat) {
    In(Slice(0, LastKey(ops)), p)
  }

  /** The tree has one key for each slice of the list, with the link of that slice. */
  ghost predicate Agree(q: seq<Entry>, tree: map<Slice, nat>, next: nat) {
    forall k {:trigger Open(k)} :: Open(k) ==>
      && (forall e :: e in q ==> e.slice in tree && tree[e.slice] == e.link && e.link < next)
      && (forall s {:trigger s in tree} :: s in tree ==> exists e :: e in q && e.slice == s)
      && (forall e, f :: e in q && f in q && e.link == f.link ==> e == f)
  }

  lemma AgreeInsert(q: seq<Entry>, r: seq<Entry>, tree: map<Slice, nat>, next: nat, f: Entry)
    requires Agree(q, tree, next) && f.slice !in tree && f.link == next
    requires forall e :: e in r <==> e == f || e in q
    ensures Agree(r, tree[f.slice := next], next + 1)
  {
    assert Open(0);
    var to := tree[f.slice := next];
    forall s {:trigger s in to} | s in to
      ensures exists e :: e in r && e.slice == s
    {
      if s == f.slice {
        assert f in r;
      } else {
        assert s in tree;
        var e :| e in q && e.slice == s;
        assert e in r;
      }
    }
  }

  lemma AgreeRemove(q: seq<Entry>, r: seq<Entry>, tree: map<Slice, nat>, next: nat, f: Entry)
    requires Agree(q, tree, next) && f in q
    requires forall e :: e in q <==> e == f || e in r
    requires forall e :: e in r ==> e.slice != f.slice
    ensures Agree(r, tree - {f.slice}, next)
  {
    assert Open(0);
    var to := tree - {f.slice};
    forall s {:trigger s in to} | s in to
      ensures exists e :: e in r && e.slice == s
    {
      assert s in tree;
      var e :| e in q && e.slice == s;
      assert e in r;
    }
  }

  lemma Inserted<T>(q: seq<T>, i: nat, f: T)
    requires i <= |q|
    ensures forall e :: e in q[..i] + [f] + q[i..] <==> e == f || e in q
  {
    assert q == q[..i] + q[i..];
  }

  // ---------------------------------------------------------------- the books of a slicer

  /** Every reference is that of a list link, or that of the one pinned entry. */
  ghost predicate RefsBooked(refs: map<nat, nat>, q: seq<Entry>, pin: Option<nat>) {
    forall k {:trigger Open(k)} :: Open(k) ==>
      forall r: nat :: RefCount(refs, r) == RecsIn(q, r) + Is(pin == Some(r))
  }

  /** How many nodes a pool entry has too many for the link that `m` names. */
  ghost function Surplus(index: map<nat, seq<Node>>, q: seq<Entry>, m: Mark): int {
    NodeCount(index, m) - NodesIn(q, m)
  }

  /** Every link has its node. */
  ghost predicate NodesBooked(index: map<nat, seq<Node>>, q: seq<Entry>) {
    forall k {:trigger Open(k)} :: Open(k) ==>
      forall m :: Surplus(index, q, m) >= 0
  }

  ghost predicate SurplusPlus(index: map<nat, seq<Node>>, q: seq<Entry>, index': map<nat, seq<Node>>, q': seq<Entry>, lost: Option<Mark>) {
    forall m :: Surplus(index', q', m) == Surplus(index, q, m) + Is(lost == Some(m))
  }

  lemma NothingHeld(e: Entry)
    requires e.data.Null?
    ensures RefsBooked(map[], [e], None) && NodesBooked(map[], [e])
    ensures forall m :: Surplus(map[], [e], m) == 0
  {
    assert IsNull(e);
    NullHolds([e]);
    forall m
      ensures Surplus(map[], [e], m) == 0
    {
      assert NodeCount(map[], m) == 0;
    }
  }

  function Except<T>(q: seq<T>, i: nat): seq<T>
    requires i < |q|
  {
    q[..i] + q[i + 1..]
  }

  function Exchanged<T>(q: seq<T>, i: nat, p: seq<T>): seq<T>
    requires i < |q|
  {
    q[..i] + p + q[i + 1..]
  }

  lemma HeldInExchanged(q: seq<Entry>, i: nat, p: seq<Entry>)
    requires i < |q|
    ensures forall m :: NodesIn(Exchanged(q, i, p), m) + NodesOf(q[i].data, m) == NodesIn(q, m) + NodesIn(p, m)
    ensures forall r :: RecsIn(Exchanged(q, i, p), r) + RecsOf(q[i].data, r) == RecsIn(q, r) + RecsIn(p, r)
    ensures NonNull(Exchanged(q, i, p)) + Is(q[i].data.Queue?) == NonNull(q) + NonNull(p)
  {
    var a, b := q[..i], q[i + 1..];
    assert q == a + [q[i]] + b;
    HeldInMiddle(a, q[i], b);
    forall m
      ensures NodesIn(a + p + b, m) == NodesIn(a + b, m) + NodesIn(p, m)
    {
      NodesInConcat(a + p, b, m);
      NodesInConcat(a, p, m);
      NodesInConcat(a, b, m);
    }
    forall r
      ensures RecsIn(a + p + b, r) == RecsIn(a + b, r) + RecsIn(p, r)
    {
      RecsInConcat(a + p, b, r);
      RecsInConcat(a, p, r);
      RecsInConcat(a, b, r);
    }
    NonNullConcat(a + p, b);
    NonNullConcat(a, p);
    NonNullConcat(a, b);
  }

  lemma RefsExchanged(refs: map<nat, nat>, refs': map<nat, nat>, q: seq<Entry>, i: nat, p: seq<Entry>, pin: Option<nat>)
    requires i < |q| && RefsBooked(refs, q, pin)
    requires forall r: nat :: RefCount(refs', r) + RecsOf(q[i].data, r) == RefCount(refs, r) + RecsIn(p, r)
    ensures RefsBooked(refs', Exchanged(q, i, p), pin)
  {
    assert Open(0);
    HeldInExchanged(q, i, p);
  }

  lemma NodesExchanged(index: map<nat, seq<Node>>, index': map<nat, seq<Node>>, q: seq<Entry>, i: nat, p: seq<Entry>, lost: Option<Mark>)
    requires i < |q| && NodesBooked(index, q)
    requires forall m :: NodeCount(index', m) + NodesOf(q[i].data, m) == NodeCount(index, m) + NodesIn(p, m) + Is(lost == Some(m))
    ensures SurplusPlus(index, q, index', Exchanged(q, i, p), lost) && NodesBooked(index', Exchanged(q, i, p))
  {
    assert Open(0);
    HeldInExchanged(q, i, p);
    forall m
      ensures Surplus(index', Exchanged(q, i, p), m) == Surplus(index, q, m) + Is(lost == Some(m)) >= 0
    {
    }
  }

  lemma RefsListed(refs: map<nat, nat>, q: seq<Entry>, i: nat, pin: Option<nat>)
    requires i < |q| && RefsBooked(refs, q, pin)
    ensures forall r: nat :: RefCount(refs, r) >= RecsOf(q[i].data, r) + Is(pin == Some(r))
  {
    assert Open(0);
    HeldInExchanged(q, i, []);
  }

  lemma NodesListed(index: map<nat, seq<Node>>, q: seq<Entry>, i: nat)
    requires i < |q| && NodesBooked(index, q)
    ensures forall m :: NodeCount(index, m) >= NodesOf(q[i].data, m)
  {
    assert Open(0);
    HeldInExchanged(q, i, []);
    forall m
      ensures NodeCount(index, m) >= NodesOf(q[i].data, m)
    {
      assert Surplus(index, q, m) >= 0;
    }
  }

  lemma SuffixStep(q: seq<Entry>, i: nat)
    requires i < |q|
    ensures q[i..] != [] && q[i..][0] == q[i] && Exchanged(q[i..], 0, []) == q[i + 1..]
    ensures forall m :: NodesIn([], m) == 0
    ensures forall r :: RecsIn([], r) == 0
  {
  }

  /** The books of a slicer without any data. */
  lemma NothingBooked(refs: map<nat, nat>, index: map<nat, seq<Node>>, e: Entry)
    requires e.data.Null?
    ensures RefsBooked(refs, [], None) ==> RefsBooked(refs, [e], None)
    ensures NodesBooked(index, [e])
    ensures forall m :: Surplus(index, [e], m) == Surplus(index, [], m)
  {
    assert Open(0);
    HeldInExchanged([e], 0, []);
    assert Exchanged([e], 0, []) == [];
    assert forall m :: NodesIn([e], m) == 0;
    assert forall r :: RecsIn([e], r) == 0;
    forall m
      ensures Surplus(index, [e], m) == Surplus(index, [], m) >= 0
    {
    }
  }

  // ---------------------------------------------------------------- the tree while a slice is cut

  lemma OthersApart(ops: Ops, q: seq<Entry>, begin: nat, end: nat, i: nat, k: nat)
    requires Tiles(ops, q, begin, end) && i < |q| && k < |q| && k != i
    ensures Apart(q[k].slice, q[i].slice) && q[k].slice != q[i].slice
  {
    if k < i {
      TilesBefore(ops, q, begin, end, k, i);
    } else {
      TilesBefore(ops, q, begin, end, i, k);
    }
  }

  lemma ExceptMembers<T>(q: seq<T>, i: nat)
    requires i < |q|
    ensures forall e :: e in q <==> e == q[i] || e in Except(q, i)
  {
    assert q == q[..i] + [q[i]] + q[i + 1..];
  }

  /** The other slices of a partition are apart from slice `i`. */
  lemma RestApart(ops: Ops, q: seq<Entry>, begin: nat, end: nat, i: nat)
    requires Tiles(ops, q, begin, end) && i < |q|
    ensures forall e :: e in Except(q, i) ==> Apart(e.slice, q[i].slice) && e.slice != q[i].slice
  {
    forall e | e in Except(q, i)
      ensures Apart(e.slice, q[i].slice) && e.slice != q[i].slice
    {
      var k :| 0 <= k < |q| - 1 && Except(q, i)[k] == e;
      OthersApart(ops, q, begin, end, i, if k < i then k else k + 1);
    }
  }

  /** No key of the tree compares equal to the slice. */
  ghost predicate FreeFor(tree: map<Slice, nat>, slice: Slice) {
    forall s {:trigger s in tree} :: s in tree ==> Apart(s, slice)
  }

  lemma AgreeDetached(ops: Ops, q: seq<Entry>, last: nat, tree: map<Slice, nat>, next: nat, i: nat)
    requires Tiles(ops, q, 0, last) && Agree(q, tree, next) && i < |q|
    ensures Agree(Except(q, i), tree - {q[i].slice}, next)
    ensures FreeFor(tree - {q[i].slice}, q[i].slice)
  {
    assert Open(0);
    RestApart(ops, q, 0, last, i);
    ExceptMembers(q, i);
    AgreeRemove(q, Except(q, i), tree, next, q[i]);
  }

  function SliceSet(s: Option<Slice>): set<Slice> {
    if s.Some? then {s.value} else {}
  }

  /** The pieces of a slice find room in the tree from which the slice was taken. */
  lemma CutRoom(ops: Ops, a: Slice, x: Cross, tree: map<Slice, nat>)
    requires CutShape(ops, a, x) && FreeFor(tree, a)
    ensures x.left.Some? ==> FreeFor(tree, x.left.value)
  {
  }

  lemma CutRoomLeft(ops: Ops, a: Slice, x: Cross, t0: map<Slice, nat>, t1: map<Slice, nat>)
    requires CutShape(ops, a, x) && FreeFor(t0, a) && t1.Keys == t0.Keys + SliceSet(x.left)
    ensures FreeFor(t1, x.mid.value)
  {
    forall s {:trigger s in t1} | s in t1
      ensures Apart(s, x.mid.value)
    {
      assert s in t0.Keys || x.left == Some(s);
      assert s in t0.Keys ==> s in t0;
    }
  }

  lemma CutRoomMid(ops: Ops, a: Slice, x: Cross, t0: map<Slice, nat>, t1: map<Slice, nat>, t2: map<Slice, nat>)
    requires CutShape(ops, a, x) && FreeFor(t0, a)
    requires t1.Keys == t0.Keys + SliceSet(x.left) && t2.Keys == t1.Keys + SliceSet(x.mid)
    ensures x.right.Some? ==> FreeFor(t2, x.right.value)
  {
    if x.right.Some? {
      forall s {:trigger s in t2} | s in t2
        ensures Apart(s, x.right.value)
      {
        assert s in t0.Keys || x.left == Some(s) || x.mid == Some(s);
        assert s in t0.Keys ==> s in t0;
      }
    }
  }

  ghost predicate IsPiece(piece: Option<Slice>, d: Data, p: seq<Entry>) {
    if piece.Some? then |p| == 1 && p[0].slice == piece.value && p[0].data == d else p == []
  }

  lemma PiecesJoined(x: Cross, l: Data, m: Data, r: Data, a: seq<Entry>, b: seq<Entry>, c: seq<Entry>)
    requires x.mid.Some? && (x.left.None? ==> l.Null?) && (x.right.None? ==> r.Null?)
    requires IsPiece(x.left, l, a) && IsPiece(x.mid, m, b) && IsPiece(x.right, r, c)
    ensures PiecesAre(x, l, m, r, a + b + c)
  {
    var p := a + b + c;
    assert p[|a|] == b[0];
    assert x.left.Some? ==> p[0] == a[0];
    assert x.right.Some? ==> p[|a| + 1] == c[0];
  }

  lemma ThreeInserted<T>(q: seq<T>, i: nat, a: seq<T>, b: seq<T>, c: seq<T>, q1: seq<T>, q2: seq<T>, q3: seq<T>)
    requires i < |q|
    requires q1 == Except(q, i)[..i] + a + Except(q, i)[i..]
    requires q2 == q1[..i + |a|] + b + q1[i + |a|..]
    requires q3 == q2[..i + |a| + |b|] + c + q2[i + |a| + |b|..]
    ensures q3 == Exchanged(q, i, a + b + c)
  {
    assert Except(q, i)[..i] == q[..i] && Except(q, i)[i..] == q[i + 1..];
    assert q1[..i + |a|] == q[..i] + a && q1[i + |a|..] == q[i + 1..];
    assert q2[..i + |a| + |b|] == q[..i] + a + b && q2[i + |a| + |b|..] == q[i + 1..];
  }

  // ---------------------------------------------------------------- one slice is changed

  /** The crossing after a region has been visited, given the crossing before. */
  ghost predicate CrossStep(key: Slice, ch: Change, cross: Crossing, cross': Crossing, q: seq<Entry>) {
    match ch
    case Adding(cur) =>
      && (cross'.found <==> cross.found || Crosses(key, cur.slice, q))
      && (cross.found ==> cross' == cross)
      && (!cross.found && cross'.found ==> CrossedBy(key, cur.slice, q, cross'))
    case Deleting(_, _) => cross' == cross
  }

  lemma PiecesMeaning(ops: Ops, dops: Ops, key: Slice, x: Cross, ch: Change, cross: Crossing, cross': Crossing,
                      e: Entry, m: Data, p: seq<Entry>)
    requires Fits(ops, key) && NonEmpty(key) && Fits(ops, e.slice) && NonEmpty(e.slice) && !Apart(e.slice, key)
    requires CutShape(ops, e.slice, x) && CrossExact(e.slice, key, x)
    requires PiecesOf(x, e, m, p) && DataChanged(dops, ch, cross, cross', e.data, m)
    requires Sorted(dops, EntsOf(e.data)) && ChangeOk(dops, ch, e.data)
    ensures Tiles(ops, p, e.slice.begin, e.slice.end) && Lists(dops, p)
    ensures Changed(key, ch, cross'.found, [e], p)
    ensures CrossStep(key, ch, cross, cross', [e])
  {
    PiecesTile(ops, x, e, m, p);
    PiecesChanged(dops, key, x, ch, cross, cross', e, m, p);
    if ch.Adding? {
      CrossesOne(ops, dops, key, ch.cur.slice, e);
    }
  }

  lemma ListsExchanged(dops: Ops, q: seq<Entry>, i: nat, p: seq<Entry>)
    requires i < |q| && Lists(dops, q) && Lists(dops, p)
    ensures Lists(dops, Exchanged(q, i, p))
  {
  }

  // ---------------------------------------------------------------- a region is changed

  /** Slices apart from the key keep their points. */
  lemma ApartUnchanged(key: Slice, ch: Change, f: bool, q: seq<Entry>)
    requires forall e :: e in q ==> Apart(e.slice, key)
    ensures Changed(key, ch, f, q, q)
    ensures ch.Adding? ==> !Crosses(key, ch.cur.slice, q)
  {
    forall x: nat | Covers(q, x)
      ensures !In(key, x)
    {
    }
    forall x: nat, y: nat, o: nat
      ensures Owns(q, x, y, o) ==> Covers(q, x)
    {
    }
  }

  /** The slices beyond one that is apart from the key are apart from it too. */
  lemma FarApart(ops: Ops, q: seq<Entry>, last: nat, hit: nat, k: nat, key: Slice, j: nat)
    requires Tiles(ops, q, 0, last) && hit < |q| && k < |q| && j < |q| && NonEmpty(key)
    requires !Apart(q[hit].slice, key) && Apart(q[k].slice, key)
    requires hit < k <= j || j <= k < hit
    ensures Apart(q[j].slice, key)
  {
    if hit < k {
      TilesBefore(ops, q, 0, last, hit, k);
      if k < j {
        TilesBefore(ops, q, 0, last, k, j);
      }
    } else {
      TilesBefore(ops, q, 0, last, k, hit);
      if j < k {
        TilesBefore(ops, q, 0, last, j, k);
      }
    }
  }

  ghost predicate BridgesIn(dops: Ops, ch: Change, q: seq<Entry>) {
    ch.Adding? && exists e :: e in q && BridgesGap(dops, EntsOf(e.data), ch.cur)
  }

  /** No node goes short, and none is left over unless a gap was bridged. */
  ghost predicate SurplusStep(index: map<nat, seq<Node>>, q: seq<Entry>, index': map<nat, seq<Node>>, q': seq<Entry>, bridged: bool) {
    && (forall m :: Surplus(index', q', m) >= Surplus(index, q, m))
    && (!bridged ==> forall m :: Surplus(index', q', m) == Surplus(index, q, m))
    && (bridged ==> exists m :: Surplus(index', q', m) > Surplus(index, q, m))
  }

  lemma SurplusSteps(x0: map<nat, seq<Node>>, q0: seq<Entry>, x1: map<nat, seq<Node>>, q1: seq<Entry>, b: bool,
                     x2: map<nat, seq<Node>>, q2: seq<Entry>, lost: Option<Mark>)
    requires SurplusStep(x0, q0, x1, q1, b) && SurplusPlus(x1, q1, x2, q2, lost)
    ensures SurplusStep(x0, q0, x2, q2, b || lost.Some?)
  {
    forall m
      ensures Surplus(x2, q2, m) == Surplus(x1, q1, m) + Is(lost == Some(m)) >= Surplus(x0, q0, m)
    {
    }
    if b {
      var m :| Surplus(x1, q1, m) > Surplus(x0, q0, m);
      assert Surplus(x2, q2, m) > Surplus(x0, q0, m);
    } else if lost.Some? {
      assert Surplus(x2, q2, lost.value) > Surplus(x0, q0, lost.value);
    }
  }

  /** The state of `slicer_apply_change` when the slices `lo .. hi` of `q` have become `mid`. */
  ghost predicate Region(dops: Ops, key: Slice, ch: Change, cross: Crossing, cross': Crossing, q: seq<Entry>, lo: nat, hi: nat, mid: seq<Entry>, bridged: bool) {
    && lo <= hi <= |q|
    && Changed(key, ch, cross'.found, q[lo..hi], mid)
    && CrossStep(key, ch, cross, cross', q[lo..hi])
    && (bridged ==> BridgesIn(dops, ch, q[lo..hi]))
    && (BridgesIn(dops, ch, q[lo..hi]) && !cross'.found ==> bridged)
  }

  lemma RegionStart(dops: Ops, key: Slice, ch: Change, cross: Crossing, q: seq<Entry>, k: nat)
    requires k <= |q|
    ensures Region(dops, key, ch, cross, cross, q, k, k, [], false)
  {
    ApartUnchanged(key, ch, cross.found, []);
    assert q[k..k] == [];
  }

  lemma RegionRight(dops: Ops, key: Slice, ch: Change, cross: Crossing, c1: Crossing, c2: Crossing, q: seq<Entry>, lo: nat, hi: nat,
                    mid: seq<Entry>, p: seq<Entry>, b: bool, lost: Option<Mark>)
    requires Region(dops, key, ch, cross, c1, q, lo, hi, mid, b) && hi < |q|
    requires Changed(key, ch, c2.found, [q[hi]], p) && CrossStep(key, ch, c1, c2, [q[hi]])
    requires lost.Some? <==> ch.Adding? && !c2.found && BridgesGap(dops, EntsOf(q[hi].data), ch.cur)
    ensures Region(dops, key, ch, cross, c2, q, lo, hi + 1, mid + p, b || lost.Some?)
  {
    assert q[lo..hi + 1] == q[lo..hi] + [q[hi]];
    ChangedConcat(key, ch, c1.found, q[lo..hi], mid, c2.found, [q[hi]], p, c2.found);
    if ch.Adding? {
      CrossesConcat(key, ch.cur.slice, q[lo..hi], [q[hi]]);
    }
    assert forall e :: e in q[lo..hi + 1] <==> e in q[lo..hi] || e == q[hi];
  }

  lemma RegionLeft(dops: Ops, key: Slice, ch: Change, cross: Crossing, c1: Crossing, c2: Crossing, q: seq<Entry>, lo: nat, hi: nat,
                   mid: seq<Entry>, p: seq<Entry>, b: bool, lost: Option<Mark>)
    requires Region(dops, key, ch, cross, c1, q, lo, hi, mid, b) && 0 < lo
    requires Changed(key, ch, c2.found, [q[lo - 1]], p) && CrossStep(key, ch, c1, c2, [q[lo - 1]])
    requires lost.Some? <==> ch.Adding? && !c2.found && BridgesGap(dops, EntsOf(q[lo - 1].data), ch.cur)
    ensures Region(dops, key, ch, cross, c2, q, lo - 1, hi, p + mid, b || lost.Some?)
  {
    assert q[lo - 1..hi] == [q[lo - 1]] + q[lo..hi];
    ChangedConcat(key, ch, c2.found, [q[lo - 1]], p, c1.found, q[lo..hi], mid, c2.found);
    if ch.Adding? {
      CrossesConcat(key, ch.cur.slice, [q[lo - 1]], q[lo..hi]);
    }
    assert forall e :: e in q[lo - 1..hi] <==> e in q[lo..hi] || e == q[lo - 1];
  }

  /** Some slice that meets the key has a gap that the addition bridges. */
  ghost predicate BridgesUnder(dops: Ops, key: Slice, ch: Change, q: seq<Entry>) {
    NonEmpty(key) && ch.Adding? && exists e :: e in q && !Apart(e.slice, key) && BridgesGap(dops, EntsOf(e.data), ch.cur)
  }

  lemma RegionWhole(dops: Ops, key: Slice, ch: Change, cross: Crossing, cross': Crossing, q: seq<Entry>, lo: nat, hi: nat, mid: seq<Entry>, b: bool)
    requires Region(dops, key, ch, cross, cross', q, lo, hi, mid, b)
    requires forall e :: e in q[..lo] || e in q[hi..] ==> Apart(e.slice, key)
    requires forall e :: e in q[lo..hi] ==> !Apart(e.slice, key)
    requires NonEmpty(key)
    ensures Changed(key, ch, cross'.found, q, q[..lo] + mid + q[hi..])
    ensures CrossStep(key, ch, cross, cross', q)
    ensures b ==> BridgesUnder(dops, key, ch, q)
    ensures BridgesUnder(dops, key, ch, q) && !cross'.found ==> b
  {
    assert q == q[..lo] + q[lo..hi] + q[hi..];
    ApartUnchanged(key, ch, cross'.found, q[..lo]);
    ApartUnchanged(key, ch, cross'.found, q[hi..]);
    ChangedConcat(key, ch, cross'.found, q[..lo], q[..lo], cross'.found, q[lo..hi], mid, cross'.found);
    ChangedConcat(key, ch, cross'.found, q[..lo] + q[lo..hi], q[..lo] + mid, cross'.found, q[hi..], q[hi..], cross'.found);
    if ch.Adding? {
      CrossesConcat(key, ch.cur.slice, q[..lo] + q[lo..hi], q[hi..]);
      CrossesConcat(key, ch.cur.slice, q[..lo], q[lo..hi]);
    }
    assert forall e :: e in q <==> e in q[..lo] || e in q[lo..hi] || e in q[hi..];
  }

  /** What the data operations need on the lists of the key; the entry to add is pinned meanwhile. */
  ghost predicate ChangesOk(dops: Ops, key: Slice, ch: Change, q: seq<Entry>, pin: Option<nat>) {
    && (ch.Adding? ==> pin == Some(ch.cur.rec))
    && forall e :: e in q && !Apart(e.slice, key) ==> ChangeOk(dops, ch, e.data)
  }

  lemma EmptyKey(ops: Ops, key: Slice)
    requires Fits(ops, key)
    ensures BeginEndCmp(ops, key.begin, key.end) > 0 <==> !NonEmpty(key)
  {
  }

  /** The first slice begins at 0, so a key that begins at 1 always makes a wrong cut. */
  lemma OneCutsWrong(ops: Ops, q: seq<Entry>, key: Slice)
    requires Tiles(ops, q, 0, LastKey(ops)) && Fits(ops, key) && NonEmpty(key) && key.begin == 1
    ensures !Apart(q[0].slice, key) && !CrossExact(q[0].slice, key, SliceCross(ops, q[0].slice, key))
  {
    SliceCrossExact(ops, q[0].slice, key);
  }

  predicate KeyOk(ops: Ops, key: Slice) {
    Fits(ops, key) && NonEmpty(key) && key.begin != 1
  }

  /** What `slicer_apply_change` works on, apart from the tree and the reference counts. */
  datatype Snapshot = Snapshot(queue: seq<Entry>, index: map<nat, seq<Node>>, count: int)

  /** The surplus of the count over the slices that have data. */
  ghost function Excess(s: Snapshot): int {
    s.count - NonNull(s.queue)
  }

  /** Entry `i` of `s1` has become `p` in `s2`. */
  ghost predicate Step(dops: Ops, tracked: bool, key: Slice, ch: Change, c1: Crossing, c2: Crossing,
                       s1: Snapshot, i: nat, p: seq<Entry>, lost: Option<Mark>, s2: Snapshot) {
    i < |s1.queue| && forall k {:trigger Open(k)} :: Open(k) ==>
      && s2.queue == Exchanged(s1.queue, i, p)
      && Changed(key, ch, c2.found, [s1.queue[i]], p)
      && CrossStep(key, ch, c1, c2, [s1.queue[i]])
      && Excess(s2) >= Excess(s1) && (!c2.found ==> Excess(s2) == Excess(s1))
      && (tracked ==> SurplusPlus(s1.index, s1.queue, s2.index, s2.queue, lost))
      && (lost.Some? <==> ch.Adding? && !c2.found && BridgesGap(dops, EntsOf(s1.queue[i].data), ch.cur))
  }

  /** The loops of `slicer_apply_change` have turned the slices `lo .. hi` of `s0` into `mid`. */
  ghost predicate Applied(dops: Ops, tracked: bool, key: Slice, ch: Change, cross: Crossing, c: Crossing,
                          s0: Snapshot, lo: nat, hi: nat, mid: seq<Entry>, bridged: bool, s: Snapshot) {
    forall k {:trigger Open(k)} :: Open(k) ==>
      && Region(dops, key, ch, cross, c, s0.queue, lo, hi, mid, bridged)
      && s.queue == s0.queue[..lo] + mid + s0.queue[hi..]
      && (forall e :: e in s0.queue[lo..hi] ==> !Apart(e.slice, key))
      && Excess(s) >= Excess(s0) && (!c.found ==> Excess(s) == Excess(s0))
      && (tracked ==> SurplusStep(s0.index, s0.queue, s.index, s.queue, bridged))
  }

  lemma AppliedStart(dops: Ops, tracked: bool, key: Slice, ch: Change, cross: Crossing, s0: Snapshot, k: nat)
    requires k <= |s0.queue|
    ensures Applied(dops, tracked, key, ch, cross, cross, s0, k, k, [], false, s0)
  {
    RegionStart(dops, key, ch, cross, s0.queue, k);
    assert s0.queue == s0.queue[..k] + [] + s0.queue[k..];
  }

  lemma AppliedAt(dops: Ops, tracked: bool, key: Slice, ch: Change, cross: Crossing, c: Crossing,
                  s0: Snapshot, lo: nat, hi: nat, mid: seq<Entry>, bridged: bool, s: Snapshot)
    requires Applied(dops, tracked, key, ch, cross, c, s0, lo, hi, mid, bridged, s)
    ensures lo <= hi <= |s0.queue| && |s.queue| == lo + |mid| + |s0.queue| - hi
    ensures forall k :: 0 <= k < lo ==> s.queue[k] == s0.queue[k] && s0.queue[k] in s0.queue
    ensures hi < |s0.queue| ==> s.queue[lo + |mid|] == s0.queue[hi] && s0.queue[hi] in s0.queue
  {
    assert Open(0);
  }

  lemma ExchangedRight<T>(q: seq<T>, lo: nat, hi: nat, mid: seq<T>, r: seq<T>, p: seq<T>)
    requires lo <= hi < |q| && r == q[..lo] + mid + q[hi..]
    ensures Exchanged(r, lo + |mid|, p) == q[..lo] + (mid + p) + q[hi + 1..]
    ensures forall e :: e in q[lo..hi + 1] <==> e in q[lo..hi] || e == q[hi]
  {
    assert r[..lo + |mid|] == q[..lo] + mid && r[lo + |mid| + 1..] == q[hi + 1..];
    assert q[lo..hi + 1] == q[lo..hi] + [q[hi]];
  }

  lemma ExchangedLeft<T>(q: seq<T>, lo: nat, hi: nat, mid: seq<T>, r: seq<T>, p: seq<T>)
    requires 0 < lo <= hi <= |q| && r == q[..lo] + mid + q[hi..]
    ensures Exchanged(r, lo - 1, p) == q[..lo - 1] + (p + mid) + q[hi..]
    ensures forall e :: e in q[lo - 1..hi] <==> e in q[lo..hi] || e == q[lo - 1]
  {
    assert r[..lo - 1] == q[..lo - 1] && r[lo..] == mid + q[hi..];
    assert q[lo - 1..hi] == [q[lo - 1]] + q[lo..hi];
  }

  lemma AppliedRight(dops: Ops, tracked: bool, key: Slice, ch: Change, cross: Crossing, c1: Crossing, c2: Crossing,
                     s0: Snapshot, lo: nat, hi: nat, mid: seq<Entry>, b: bool, s1: Snapshot, p: seq<Entry>, lost: Option<Mark>, s2: Snapshot)
    requires Applied(dops, tracked, key, ch, cross, c1, s0, lo, hi, mid, b, s1)
    requires Step(dops, tracked, key, ch, c1, c2, s1, lo + |mid|, p, lost, s2)
    requires !Apart(s1.queue[lo + |mid|].slice, key)
    ensures Applied(dops, tracked, key, ch, cross, c2, s0, lo, hi + 1, mid + p, b || lost.Some?, s2)
  {
    assert Open(0);
    AppliedAt(dops, tracked, key, ch, cross, c1, s0, lo, hi, mid, b, s1);
    RegionRight(dops, key, ch, cross, c1, c2, s0.queue, lo, hi, mid, p, b, lost);
    ExchangedRight(s0.queue, lo, hi, mid, s1.queue, p);
    if tracked {
      SurplusSteps(s0.index, s0.queue, s1.index, s1.queue, b, s2.index, s2.queue, lost);
    }
  }

  lemma AppliedLeft(dops: Ops, tracked: bool, key: Slice, ch: Change, cross: Crossing, c1: Crossing, c2: Crossing,
                    s0: Snapshot, lo: nat, hi: nat, mid: seq<Entry>, b: bool, s1: Snapshot, p: seq<Entry>, lost: Option<Mark>, s2: Snapshot)
    requires Applied(dops, tracked, key, ch, cross, c1, s0, lo, hi, mid, b, s1) && 0 < lo
    requires Step(dops, tracked, key, ch, c1, c2, s1, lo - 1, p, lost, s2)
    requires !Apart(s1.queue[lo - 1].slice, key)
    ensures Applied(dops, tracked, key, ch, cross, c2, s0, lo - 1, hi, p + mid, b || lost.Some?, s2)
  {
    assert Open(0);
    AppliedAt(dops, tracked, key, ch, cross, c1, s0, lo, hi, mid, b, s1);
    RegionLeft(dops, key, ch, cross, c1, c2, s0.queue, lo, hi, mid, p, b, lost);
    ExchangedLeft(s0.queue, lo, hi, mid, s1.queue, p);
    if tracked {
      SurplusSteps(s0.index, s0.queue, s1.index, s1.queue, b, s2.index, s2.queue, lost);
    }
  }

  /** What `slicer_apply_change` makes of the whole map. */
  ghost predicate Outcome(dops: Ops, tracked: bool, key: Slice, ch: Change, cross: Crossing, c: Crossing, s0: Snapshot, s: Snapshot) {
    forall k {:trigger Open(k)} :: Open(k) ==>
      && Changed(key, ch, c.found, s0.queue, s.queue)
      && CrossStep(key, ch, cross, c, s0.queue)
      && Excess(s) >= Excess(s0) && (!c.found ==> Excess(s) == Excess(s0))
      && (tracked ==> exists b :: SurplusStep(s0.index, s0.queue, s.index, s.queue, b)
                                  && (b ==> BridgesUnder(dops, key, ch, s0.queue))
                                  && (BridgesUnder(dops, key, ch, s0.queue) && !c.found ==> b))
  }

  lemma AppliedWhole(ops: Ops, dops: Ops, tracked: bool, key: Slice, ch: Change, cross: Crossing, c: Crossing,
                     s0: Snapshot, hit: nat, lo: nat, hi: nat, mid: seq<Entry>, b: bool, s: Snapshot)
    requires Tiles(ops, s0.queue, 0, LastKey(ops)) && NonEmpty(key)
    requires Applied(dops, tracked, key, ch, cross, c, s0, lo, hi, mid, b, s)
    requires hit < |s0.queue| && !Apart(s0.queue[hit].slice, key) && lo <= hit <= hi <= |s0.queue|
    requires hi < |s0.queue| ==> Apart(s0.queue[hi].slice, key)
    requires 0 < lo ==> Apart(s0.queue[lo - 1].slice, key)
    ensures Outcome(dops, tracked, key, ch, cross, c, s0, s)
  {
    var q := s0.queue;
    forall e | e in q[..lo] || e in q[hi..]
      ensures Apart(e.slice, key)
    {
      if e in q[hi..] {
        var j :| hi <= j < |q| && q[j] == e;
        FarApart(ops, q, LastKey(ops), hit, hi, key, j);
      } else {
        var j :| 0 <= j < lo && q[j] == e;
        FarApart(ops, q, LastKey(ops), hit, lo - 1, key, j);
      }
    }
    assert Open(0);
    RegionWhole(dops, key, ch, cross, c, q, lo, hi, mid, b);
  }

  lemma NothingChanged(dops: Ops, tracked: bool, key: Slice, ch: Change, cross: Crossing, s: Snapshot)
    requires !NonEmpty(key)
    ensures Outcome(dops, tracked, key, ch, cross, cross, s, s)
  {
    assert SurplusStep(s.index, s.queue, s.index, s.queue, false);
  }

  /** The owners at a point are those in the list of its slice. */
  lemma OwnsAt(ops: Ops, q: seq<Entry>, begin: nat, end: nat, i: nat, x: nat)
    requires Tiles(ops, q, begin, end) && i < |q| && In(q[i].slice, x)
    ensures forall y: nat, o: nat :: Owns(q, x, y, o) <==> ListOwns(EntsOf(q[i].data), y, o)
    ensures exists e :: e in q && In(e.slice, x) && q[i].data == e.data
  {
    forall e | e in q && In(e.slice, x)
      ensures e == q[i]
    {
      var k :| 0 <= k < |q| && q[k] == e;
      if k != i {
        OthersApart(ops, q, begin, end, i, k);
      }
    }
    assert q[i] in q;
  }

  /** Every key is found: the tree has a slice that compares equal to it. */
  lemma AlwaysFound(ops: Ops, q: seq<Entry>, tree: map<Slice, nat>, next: nat, x: nat)
    requires Tiles(ops, q, 0, LastKey(ops)) && Agree(q, tree, next) && x <= Top(ops)
    ensures exists k :: k in tree && SliceCmpPoint(ops, k, x) == 0
  {
    assert Open(0);
    var i := TilesCover(ops, q, 0, LastKey(ops), x);
    assert q[i] in q && q[i].slice in tree;
    SliceCmpPointMeaning(ops, q[i].slice, x);
  }

  function DataIn(q: seq<Entry>): seq<Data> {
    if q == [] then [] else (if q[0].data.Null? then [] else [q[0].data]) + DataIn(q[1..])
  }

  lemma {:induction false} DataInConcat(a: seq<Entry>, b: seq<Entry>)
    ensures DataIn(a + b) == DataIn(a) + DataIn(b)
  {
    if a == [] {
      assert a + b == b;
    } else {
      DataInConcat(a[1..], b);
      var c := a + b;
      assert c[0] == a[0] && c[1..] == a[1..] + b;
      Associative(if a[0].data != Null then [a[0].data] else [], DataIn(a[1..]), DataIn(b));
    }
  }

  /** A window of slices that meet the key, between two that do not, has all that do. */
  lemma WindowIsAll(ops: Ops, q: seq<Entry>, hit: nat, lo: nat, hi: nat, key: Slice)
    requires Tiles(ops, q, 0, LastKey(ops)) && NonEmpty(key) && lo <= hit < hi <= |q|
    requires forall k :: lo <= k < hi ==> !Apart(q[k].slice, key)
    requires hi < |q| ==> Apart(q[hi].slice, key)
    requires 0 < lo ==> Apart(q[lo - 1].slice, key)
    ensures forall k :: 0 <= k < |q| ==> (lo <= k < hi <==> !Apart(q[k].slice, key))
  {
    forall k | 0 <= k < |q| && !(lo <= k < hi)
      ensures Apart(q[k].slice, key)
    {
      FarApart(ops, q, LastKey(ops), hit, if k < lo then lo - 1 else hi, key, k);
    }
  }

  /** `found` has the lists of exactly the slices that meet the key, in order. */
  ghost predicate IsSearch(q: seq<Entry>, key: Slice, found: seq<Data>) {
    exists lo, hi :: 0 <= lo <= hi <= |q| && found == DataIn(q[lo..hi])
                     && forall k :: 0 <= k < |q| ==> (lo <= k < hi <==> !Apart(q[k].slice, key))
  }

  lemma SearchWhole(ops: Ops, q: seq<Entry>, hit: nat, lo: nat, hi: nat, key: Slice, left: seq<Data>, right: seq<Data>)
    requires Tiles(ops, q, 0, LastKey(ops)) && NonEmpty(key) && lo <= hit < hi <= |q|
    requires forall k :: lo <= k < hit ==> !Apart(q[k].slice, key)
    requires forall k :: hit <= k < hi ==> !Apart(q[k].slice, key)
    requires hi < |q| ==> Apart(q[hi].slice, key)
    requires 0 < lo ==> Apart(q[lo - 1].slice, key)
    requires left == DataIn(q[lo..hit]) && right == DataIn(q[hit..hi])
    ensures IsSearch(q, key, left + right)
  {
    WindowIsAll(ops, q, hit, lo, hi, key);
    DataInConcat(q[lo..hit], q[hit..hi]);
    assert q[lo..hi] == q[lo..hit] + q[hit..hi];
  }

  // ---------------------------------------------------------------- glueing null slices

  /** Neighbouring null slices `from .. to` of `q` have become one. */
  ghost predicate Glued(q: seq<Entry>, from: nat, to: nat, r: seq<Entry>) {
    && from < to < |q| && (forall k :: from <= k <= to ==> IsNull(q[k]))
    && from < |r| && r == q[..from] + [r[from]] + q[to + 1..]
    && r[from].slice == Slice(q[from].slice.begin, q[to].slice.end) && r[from].data == Null
  }

  lemma GluedTiles(ops: Ops, dops: Ops, q: seq<Entry>, last: nat, from: nat, to: nat, r: seq<Entry>)
    requires Tiles(ops, q, 0, last) && Lists(dops, q) && Glued(q, from, to, r)
    ensures Tiles(ops, r, 0, last) && Lists(dops, r) && SameFull(q, r)
  {
    assert Tiles(ops, r, 0, last) by {
      TilesGlue(ops, q, 0, last, from, to, r[from]);
      assert r == q[..from] + [r[from]] + q[to + 1..];
    }
    GluedMembers(q, from, to, r);
  }

  lemma GluedMembers(q: seq<Entry>, from: nat, to: nat, r: seq<Entry>)
    requires Glued(q, from, to, r)
    ensures forall f :: !IsNull(f) ==> (f in q <==> f in r)
    ensures forall f :: f in r ==> f in q || EntsOf(f.data) == []
  {
    var a, w, b, e := q[..from], q[from..to + 1], q[to + 1..], r[from];
    assert q == a + w + b && r == a + [e] + b;
    assert forall f :: f in w ==> IsNull(f);
    assert forall f :: f in q <==> f in a || f in w || f in b;
    assert forall f :: f in r <==> f in a || f == e || f in b;
  }

  lemma GluedHeld(q: seq<Entry>, from: nat, to: nat, r: seq<Entry>)
    requires Glued(q, from, to, r)
    ensures forall m :: NodesIn(r, m) == NodesIn(q, m)
    ensures forall k :: RecsIn(r, k) == RecsIn(q, k)
    ensures NonNull(r) + NonNull(q[from..to + 1]) == NonNull(q)
  {
    var a, w, b, e := q[..from], q[from..to + 1], q[to + 1..], r[from];
    assert q == a + w + b && r == a + [e] + b;
    HeldInMiddle(a, e, b);
    assert forall f :: f in w ==> IsNull(f);
    NullHolds(w);
    forall m
      ensures NodesIn(a + b, m) == NodesIn(q, m)
    {
      NodesInConcat(a + w, b, m);
      NodesInConcat(a, w, m);
      NodesInConcat(a, b, m);
    }
    forall k
      ensures RecsIn(a + b, k) == RecsIn(q, k)
    {
      RecsInConcat(a + w, b, k);
      RecsInConcat(a, w, k);
      RecsInConcat(a, b, k);
    }
    NonNullConcat(a + w, b);
    NonNullConcat(a, w);
    NonNullConcat(a, b);
  }

  lemma GluedBooks(refs: map<nat, nat>, index: map<nat, seq<Node>>, q: seq<Entry>, from: nat, to: nat, r: seq<Entry>, pin: Option<nat>)
    requires Glued(q, from, to, r)
    ensures RefsBooked(refs, q, pin) ==> RefsBooked(refs, r, pin)
    ensures NodesBooked(index, q) ==> NodesBooked(index, r)
    ensures NonNull(r) + NonNull(q[from..to + 1]) == NonNull(q)
    ensures forall m :: Surplus(index, r, m) == Surplus(index, q, m)
  {
    assert Open(0);
    GluedHeld(q, from, to, r);
    forall m
      ensures Surplus(index, r, m) == Surplus(index, q, m)
    {
    }
  }

  /** `slicer_glue_null` has passed the first `i` slices; `from .. to` is the run of null slices
      that ends there, if there is one, and `to` is set when it is longer than one slice. */
  ghost predicate GlueRun(q: seq<Entry>, i: int, from: int, to: int) {
    && 0 <= i <= |q|
    && (if from == -1 then to == -1 else 0 <= from < i && to == if from + 1 < i then i - 1 else -1)
    && var start := if from == -1 then i else from;
       && (forall k :: 0 < k < start ==> !IsNull(q[k - 1]) || !IsNull(q[k]))
       && (0 < start ==> !IsNull(q[start - 1]))
       && (forall k :: start <= k < i ==> IsNull(q[k]))
  }

  ghost predicate GlueDone(index: map<nat, seq<Node>>, q: seq<Entry>, r: seq<Entry>) {
    SameFull(q, r) && forall m :: Surplus(index, r, m) == Surplus(index, q, m)
  }

  lemma GlueRunNext(q: seq<Entry>, i: int, from: int, to: int)
    requires GlueRun(q, i, from, to) && i < |q|
    ensures IsNull(q[i]) && from == -1 ==> GlueRun(q, i + 1, i, -1)
    ensures IsNull(q[i]) && from != -1 ==> GlueRun(q, i + 1, from, i)
    ensures !IsNull(q[i]) && to == -1 ==> GlueRun(q, i + 1, -1, -1)
  {
  }

  lemma GlueRunGlued(q: seq<Entry>, i: int, from: int, to: int, r: seq<Entry>)
    requires GlueRun(q, i, from, to) && to != -1 && Glued(q, from, to, r)
    ensures i < |q| && !IsNull(q[i]) ==> GlueRun(r, from + 2, -1, -1)
    ensures i == |q| ==> NoPair(r)
    ensures |r| == |q| - (to - from) && from < |r|
  {
    assert forall k :: 0 <= k < from ==> r[k] == q[k];
    assert i < |q| ==> r[from + 1] == q[i];
  }

  lemma GlueProgress(ops: Ops, dops: Ops, index: map<nat, seq<Node>>, q0: seq<Entry>, q: seq<Entry>, last: nat, i: int, from: int, to: int, r: seq<Entry>)
    requires Tiles(ops, q, 0, last) && Lists(dops, q) && GlueDone(index, q0, q)
    requires GlueRun(q, i, from, to) && to != -1 && (i < |q| ==> !IsNull(q[i])) && Glued(q, from, to, r)
    ensures GlueDone(index, q0, r) && |r| == |q| - (to - from)
    ensures i < |q| ==> GlueRun(r, from + 2, -1, -1)
    ensures i == |q| ==> NoPair(r)
  {
    GlueRunGlued(q, i, from, to, r);
    GluedTiles(ops, dops, q, last, from, to, r);
    GluedBooks(map[], index, q, from, to, r, None);
    GlueDoneStep(index, q0, q, r);
  }

  lemma GlueDoneStep(index: map<nat, seq<Node>>, q0: seq<Entry>, q: seq<Entry>, r: seq<Entry>)
    requires GlueDone(index, q0, q) && SameFull(q, r)
    requires forall m :: Surplus(index, r, m) == Surplus(index, q, m)
    ensures GlueDone(index, q0, r)
  {
  }

  lemma GlueSeq(q: seq<Entry>, from: nat, to: nat, r: seq<Entry>)
    requires from < to < |q| && (forall k :: from <= k <= to ==> IsNull(q[k])) && from < |r|
    requires var rest := q[..from] + q[to + 1..]; r == rest[..from] + [r[from]] + rest[from..]
    requires r[from].slice == Slice(q[from].slice.begin, q[to].slice.end) && r[from].data == Null
    ensures Glued(q, from, to, r)
  {
    var rest := q[..from] + q[to + 1..];
    assert rest[..from] == q[..from] && rest[from..] == q[to + 1..];
  }

  lemma AgreeDropped(ops: Ops, q: seq<Entry>, last: nat, tree: map<Slice, nat>, next: nat, from: nat, k: nat)
    requires Tiles(ops, q, 0, last) && from <= k < |q|
    requires Agree(q[..from] + q[k..], tree, next)
    ensures Agree(q[..from] + q[k + 1..], tree - {q[k].slice}, next)
  {
    var r0, r1 := q[..from] + q[k..], q[..from] + q[k + 1..];
    assert q[k..] == [q[k]] + q[k + 1..];
    forall e | e in r1
      ensures e.slice != q[k].slice
    {
      var j :| 0 <= j < |q| && j != k && q[j] == e;
      OthersApart(ops, q, 0, last, k, j);
    }
    AgreeRemove(r0, r1, tree, next, q[k]);
  }

  lemma GlueApart(ops: Ops, q: seq<Entry>, last: nat, from: nat, to: nat, j: nat)
    requires Tiles(ops, q, 0, last) && from < to < |q| && j < |q| && (j < from || to < j)
    ensures Apart(q[j].slice, Slice(q[from].slice.begin, q[to].slice.end))
  {
    if j < from {
      TilesBefore(ops, q, 0, last, j, from);
    } else {
      TilesBefore(ops, q, 0, last, to, j);
    }
  }

  /** Every key of the tree is that of an entry of the list. */
  lemma TreeIndex(q: seq<Entry>, tree: map<Slice, nat>, next: nat, k: Slice) returns (j: nat)
    requires Agree(q, tree, next) && k in tree
    ensures j < |q| && q[j].slice == k
  {
    assert Open(0);
    var e :| e in q && e.slice == k;
    j :| 0 <= j < |q| && q[j] == e;
  }

  /** The glued slice finds room in the tree from which its parts were taken. */
  lemma GlueRoom(ops: Ops, q: seq<Entry>, last: nat, tree: map<Slice, nat>, next: nat, from: nat, to: nat)
    requires Tiles(ops, q, 0, last) && from < to < |q|
    requires Agree(q[..from] + q[to + 1..], tree, next)
    ensures FreeFor(tree, Slice(q[from].slice.begin, q[to].slice.end))
    ensures NonEmpty(Slice(q[from].slice.begin, q[to].slice.end))
  {
    TilesBefore(ops, q, 0, last, from, to);
    forall k {:trigger k in tree} | k in tree
      ensures Apart(k, Slice(q[from].slice.begin, q[to].slice.end))
    {
      var j := TreeIndex(q[..from] + q[to + 1..], tree, next, k);
      GlueApart(ops, q, last, from, to, if j < from then j else j + to + 1 - from);
    }
  }

  lemma DropStep(q: seq<Entry>, from: nat, k: nat)
    requires from <= k < |q|
    ensures var r := q[..from] + q[k..];
      from < |r| && r[from] == q[k] && Except(r, from) == q[..from] + q[k + 1..]
  {
  }

  lemma DropCount(q: seq<Entry>, from: nat, k: nat)
    requires from <= k < |q|
    ensures NonNull(q[from..k + 1]) == NonNull(q[from..k]) + Is(q[k].data.Queue?)
  {
    NonNullConcat(q[from..k], [q[k]]);
    assert q[from..k + 1] == q[from..k] + [q[k]];
  }

  class Slicer {
    const ops: Ops
    const store: Store
    var queue: seq<Entry>
    var tree: map<Slice, nat>
    var count: int
    var next: nat       // the next unused address of a list link

    /** `slicer_new` and `slicer_init`: one slice without data covers the axis. */
    constructor (ops: Ops, store: Store)
      requires store.Valid() && store.refs == map[] && store.index == map[]
      ensures this.ops == ops && this.store == store
      ensures Inv(None) && queue == [Entry(0, Slice(0, LastKey(ops)), Null)] && count == 0
    {
      this.ops, this.store := ops, store;
      var s := Slice(0, LastKey(ops));
      queue, tree, count, next := [Entry(0, s, Null)], map[s := 0], 0, 1;
      new;
      NothingHeld(queue[0]);
    }

    ghost predicate Books(pin: Option<nat>)
      reads this, store
    {
      && store.Valid()
      && RefsBooked(store.refs, queue, pin)
      && (store.tracked ==> NodesBooked(store.index, queue))
    }

    ghost function Snap(): Snapshot
      reads this, store
    {
      Snapshot(queue, store.index, count)
    }

    ghost predicate Inv(pin: Option<nat>)
      reads this, store
    {
      forall k {:trigger Open(k)} :: Open(k) ==>
        && Tiles(ops, queue, 0, LastKey(ops))
        && Lists(store.ops, queue)
        && Agree(queue, tree, next)
        && Books(pin)
        && count >= NonNull(queue)
    }

    lemma InvParts(pin: Option<nat>)
      requires Inv(pin)
      ensures Tiles(ops, queue, 0, LastKey(ops)) && Lists(store.ops, queue)
      ensures Agree(queue, tree, next) && Books(pin) && count >= NonNull(queue)
    {
      assert Open(0);
    }

    lemma InvIntro(pin: Option<nat>)
      requires Tiles(ops, queue, 0, LastKey(ops)) && Lists(store.ops, queue)
      requires Agree(queue, tree, next) && Books(pin) && count >= NonNull(queue)
      ensures Inv(pin)
    {
    }

    /** `insert_before`: a new entry at position `i` of the list and in the tree. */
    method InsertBefore(i: nat, slice: Slice, data: Data)
      requires i <= |queue| && Agree(queue, tree, next) && FreeFor(tree, slice) && NonEmpty(slice)
      modifies this`queue, this`tree, this`next
      ensures queue == old(queue)[..i] + [Entry(old(next), slice, data)] + old(queue)[i..]
      ensures Agree(queue, tree, next) && tree.Keys == old(tree).Keys + {slice}
    {
      assert Open(0);
      Inserted(queue, i, Entry(next, slice, data));
      AgreeInsert(queue, queue[..i] + [Entry(next, slice, data)] + queue[i..], tree, next, Entry(next, slice, data));
      queue := queue[..i] + [Entry(next, slice, data)] + queue[i..];
      tree := tree[slice := next];
      next := next + 1;
    }

    /** `insert_before` of one piece of a cut, if the cut leaves it. */
    method InsertPiece(i: nat, piece: Option<Slice>, data: Data) returns (n: nat, ghost p: seq<Entry>)
      requires i <= |queue| && Agree(queue, tree, next)
      requires piece.Some? ==> FreeFor(tree, piece.value) && NonEmpty(piece.value)
      modifies this`queue, this`tree, this`next
      ensures queue == old(queue)[..i] + p + old(queue)[i..] && |p| == n
      ensures IsPiece(piece, data, p)
      ensures Agree(queue, tree, next) && tree.Keys == old(tree).Keys + SliceSet(piece)
    {
      n, p := 0, [];
      if piece.Some? {
        InsertBefore(i, piece.value, data);
        n, p := 1, [queue[i]];
      }
    }

    /** The list and the tree in `change_data`: entry `i` leaves both, its pieces enter both. */
    method Exchange(i: nat, x: Cross, l: Data, m: Data, r: Data) returns (n: nat, ghost p: seq<Entry>)
      requires i < |queue| && Agree(queue, tree, next) && Tiles(ops, queue, 0, LastKey(ops))
      requires CutShape(ops, queue[i].slice, x)
      requires (x.left.None? ==> l.Null?) && (x.right.None? ==> r.Null?)
      modifies this`queue, this`tree, this`next
      ensures Agree(queue, tree, next) && |p| == n
      ensures queue == Exchanged(old(queue), i, p)
      ensures PiecesAre(x, l, m, r, p)
    {
      var cur := queue[i].slice;
      AgreeDetached(ops, queue, LastKey(ops), tree, next, i);
      tree := tree - {cur};
      queue := Except(queue, i);
      ghost var t0 := tree;
      CutRoom(ops, cur, x, tree);
      var n1, n2, n3;
      ghost var p1, p2, p3;
      n1, p1 := InsertPiece(i, x.left, l);
      ghost var q1, t1 := queue, tree;
      CutRoomLeft(ops, cur, x, t0, t1);
      n2, p2 := InsertPiece(i + n1, x.mid, m);
      ghost var q2 := queue;
      CutRoomMid(ops, cur, x, t0, t1, tree);
      n3, p3 := InsertPiece(i + n1 + n2, x.right, r);
      n, p := n1 + n2 + n3, p1 + p2 + p3;
      ThreeInserted(old(queue), i, p1, p2, p3, q1, q2, queue);
      PiecesJoined(x, l, m, r, p1, p2, p3);
    }

    /** `Recast` of the list of entry `i`. */
    method RecastAt(i: nat, x: Cross, ch: Change, cross: Crossing, ghost pin: Option<nat>)
      returns (l: Data, m: Data, r: Data, cross': Crossing, ghost lost: Option<Mark>)
      requires i < |queue| && Books(pin) && Sorted(store.ops, EntsOf(queue[i].data))
      requires ChangeOk(store.ops, ch, queue[i].data) && (ch.Adding? ==> pin == Some(ch.cur.rec))
      modifies store
      ensures store.Valid()
      ensures if x.left.Some? then EntsOf(l) == EntsOf(queue[i].data) else l.Null?
      ensures DataChanged(store.ops, ch, cross, cross', queue[i].data, m) && (ch.Adding? && !cross'.found ==> m.Queue?)
      ensures if x.right.Some? then EntsOf(r) == EntsOf(queue[i].data) else r.Null?
      ensures forall q ::
        RefCount(store.refs, q) + RecsOf(queue[i].data, q) == RefCount(old(store.refs), q) + RecsOf(l, q) + RecsOf(m, q) + RecsOf(r, q)
      ensures store.tracked ==> forall q ::
        NodeCount(store.index, q) + NodesOf(queue[i].data, q)
          == NodeCount(old(store.index), q) + NodesOf(l, q) + NodesOf(m, q) + NodesOf(r, q) + Is(lost == Some(q))
      ensures lost.Some? <==> ch.Adding? && !cross'.found && BridgesGap(store.ops, EntsOf(queue[i].data), ch.cur)
    {
      RefsListed(store.refs, queue, i, pin);
      if store.tracked {
        NodesListed(store.index, queue, i);
      }
      assert ch.Adding? ==> RefCount(store.refs, ch.cur.rec) > 0;
      l, m, r, cross', lost := store.Recast(queue[i].data, x, ch, cross);
    }

    /** The part of `change_data` that replaces entry `i` by the pieces of the cut `x`. */
    method Replace(i: nat, x: Cross, ch: Change, cross: Crossing, ghost pin: Option<nat>)
      returns (n: nat, cross': Crossing, ghost p: seq<Entry>, ghost m: Data, ghost lost: Option<Mark>)
      requires i < |queue| && Books(pin) && Agree(queue, tree, next) && Tiles(ops, queue, 0, LastKey(ops))
      requires CutShape(ops, queue[i].slice, x) && Sorted(store.ops, EntsOf(queue[i].data))
      requires ChangeOk(store.ops, ch, queue[i].data) && (ch.Adding? ==> pin == Some(ch.cur.rec))
      modifies this`queue, this`tree, this`next, this`count, store
      ensures Books(pin) && Agree(queue, tree, next)
      ensures queue == Exchanged(old(queue), i, p) && |p| == n
      ensures PiecesOf(x, old(queue)[i], m, p) && DataChanged(store.ops, ch, cross, cross', old(queue)[i].data, m)
      ensures count - NonNull(queue) >= old(count) - NonNull(old(queue))
      ensures !cross'.found ==> count - NonNull(queue) == old(count) - NonNull(old(queue))
      ensures store.tracked ==> SurplusPlus(old(store.index), old(queue), store.index, queue, lost)
      ensures lost.Some? <==> ch.Adding? && !cross'.found && BridgesGap(store.ops, EntsOf(old(queue)[i].data), ch.cur)
    {
      var e := queue[i];
      var l, r, mid;
      l, mid, r, cross', lost := RecastAt(i, x, ch, cross, pin);
      n, p := Exchange(i, x, l, mid, r);
      m := mid;
      PiecesHeld(x, l, m, r, p);
      RefsExchanged(old(store.refs), store.refs, old(queue), i, p, pin);
      if store.tracked {
        NodesExchanged(old(store.index), store.index, old(queue), i, p, lost);
      }
      HeldInExchanged(old(queue), i, p);
      count := count - Is(e.data.Queue?) + Is(l.Queue?) + (if ch.Adding? then 1 else Is(mid.Queue?)) + Is(r.Queue?);
    }

    /** `change_data`: if entry `i` meets the key, its pieces take its place, the middle one with
        changed data. Returns the number of pieces. */
    method ChangeData(i: nat, key: Slice, ch: Change, cross: Crossing, ghost pin: Option<nat>)
      returns (n: nat, cross': Crossing, ghost p: seq<Entry>, ghost lost: Option<Mark>)
      requires i < |queue| && Inv(pin) && Fits(ops, key) && NonEmpty(key) && key.begin != 1
      requires (!Apart(queue[i].slice, key) ==> ChangeOk(store.ops, ch, queue[i].data)) && (ch.Adding? ==> pin == Some(ch.cur.rec))
      modifies this`queue, this`tree, this`next, this`count, store
      ensures Inv(pin)
      ensures Apart(old(queue)[i].slice, key) ==> n == 0 && cross' == cross && Snap() == old(Snap())
      ensures !Apart(old(queue)[i].slice, key) ==>
        n == |p| > 0 && Step(store.ops, store.tracked, key, ch, cross, cross', old(Snap()), i, p, lost, Snap())
    {
      InvParts(pin);
      var e := queue[i];
      var x := Cut(e.slice, key);
      if x.None? {
        return 0, cross, [], None;
      }
      ghost var m;
      n, cross', p, m, lost := Replace(i, x.value, ch, cross, pin);
      PiecesMeaning(ops, store.ops, key, x.value, ch, cross, cross', e, m, p);
      TilesSplice(ops, old(queue), 0, LastKey(ops), i, p);
      ListsExchanged(store.ops, old(queue), i, p);
      InvIntro(pin);
    }

    /** The comparison and the cut at the start of `change_data`. */
    method Cut(a: Slice, key: Slice) returns (x: Option<Cross>)
      requires Fits(ops, a) && NonEmpty(a) && Fits(ops, key) && NonEmpty(key) && CutSafe(ops, a, key)
      ensures x.None? <==> Apart(a, key)
      ensures x.Some? ==> CutShape(ops, a, x.value) && CrossExact(a, key, x.value)
    {
      SliceCmpMeaning(ops, a, key);
      if SliceCmp(ops, a, key) != 0 {
        return None;
      }
      SliceCrossShape(ops, a, key);
      SliceCrossExact(ops, a, key);
      x := Some(SliceCross(ops, a, key));
    }

    /** `g_tree_lookup` of a slice: the position of some entry that compares equal to it. */
    method Lookup(s: Slice) returns (i: nat)
      requires Tiles(ops, queue, 0, LastKey(ops)) && Agree(queue, tree, next)
      requires Fits(ops, s) && NonEmpty(s)
      ensures i < |queue| && !Apart(queue[i].slice, s)
    {
      assert Open(0);
      ghost var w := TilesCover(ops, queue, 0, LastKey(ops), s.begin);
      SliceCmpMeaning(ops, s, queue[w].slice);
      assert queue[w].slice in tree && SliceCmp(ops, s, queue[w].slice) == 0;
      var k :| k in tree && SliceCmp(ops, s, k) == 0;
      i := Locate(k);
      SliceCmpMeaning(ops, s, queue[i].slice);
    }

    /** One turn of the forward loop of `slicer_apply_change`. */
    method Forward(key: Slice, ch: Change, ghost cross: Crossing, c1: Crossing, ghost pin: Option<nat>, i: nat,
                   ghost s0: Snapshot, ghost lo: nat, ghost hi: nat, ghost mid: seq<Entry>, ghost b: bool)
      returns (n: nat, c2: Crossing, ghost hi': nat, ghost mid': seq<Entry>, ghost b': bool)
      requires Inv(pin) && KeyOk(ops, key) && ChangesOk(store.ops, key, ch, s0.queue, pin)
      requires Applied(store.ops, store.tracked, key, ch, cross, c1, s0, lo, hi, mid, b, Snap())
      requires i == lo + |mid| < |queue|
      modifies this`queue, this`tree, this`next, this`count, store
      ensures Inv(pin) && hi < |s0.queue|
      ensures n == 0 ==> hi' == hi && mid' == mid && Apart(s0.queue[hi].slice, key)
      ensures n > 0 ==> hi' == hi + 1 && |mid'| == |mid| + n
      ensures Applied(store.ops, store.tracked, key, ch, cross, c2, s0, lo, hi', mid', b', Snap())
    {
      ghost var s1 := Snap();
      AppliedAt(store.ops, store.tracked, key, ch, cross, c1, s0, lo, hi, mid, b, s1);
      ghost var p, lost;
      n, c2, p, lost := ChangeData(i, key, ch, c1, pin);
      hi', mid', b' := hi, mid, b;
      if n > 0 {
        AppliedRight(store.ops, store.tracked, key, ch, cross, c1, c2, s0, lo, hi, mid, b, s1, p, lost, Snap());
        hi', mid', b' := hi + 1, mid + p, b || lost.Some?;
      }
    }

    /** One turn of the backward loop of `slicer_apply_change`. */
    method Backward(key: Slice, ch: Change, ghost cross: Crossing, c1: Crossing, ghost pin: Option<nat>, i: nat,
                    ghost s0: Snapshot, ghost lo: nat, ghost hi: nat, ghost mid: seq<Entry>, ghost b: bool)
      returns (n: nat, c2: Crossing, ghost lo': nat, ghost mid': seq<Entry>, ghost b': bool)
      requires Inv(pin) && KeyOk(ops, key) && ChangesOk(store.ops, key, ch, s0.queue, pin)
      requires Applied(store.ops, store.tracked, key, ch, cross, c1, s0, lo, hi, mid, b, Snap())
      requires i + 1 == lo
      modifies this`queue, this`tree, this`next, this`count, store
      ensures Inv(pin) && i < |s0.queue|
      ensures n == 0 ==> lo' == lo && Apart(s0.queue[i].slice, key)
      ensures n > 0 ==> lo' == i
      ensures Applied(store.ops, store.tracked, key, ch, cross, c2, s0, lo', hi, mid', b', Snap())
    {
      ghost var s1 := Snap();
      AppliedAt(store.ops, store.tracked, key, ch, cross, c1, s0, lo, hi, mid, b, s1);
      ghost var p, lost;
      n, c2, p, lost := ChangeData(i, key, ch, c1, pin);
      lo', mid', b' := lo, mid, b;
      if n > 0 {
        AppliedLeft(store.ops, store.tracked, key, ch, cross, c1, c2, s0, lo, hi, mid, b, s1, p, lost, Snap());
        lo', mid', b' := i, p + mid, b || lost.Some?;
      }
    }

    /** The forward loop of `slicer_apply_change`, from the entry that the tree found. */
    method ForwardAll(key: Slice, ch: Change, cross: Crossing, ghost pin: Option<nat>, hit: nat, ghost s0: Snapshot)
      returns (cross': Crossing, ghost hi: nat, ghost mid: seq<Entry>, ghost bridged: bool)
      requires Inv(pin) && KeyOk(ops, key) && ChangesOk(store.ops, key, ch, queue, pin)
      requires s0 == Snap() && hit < |queue|
      modifies this`queue, this`tree, this`next, this`count, store
      ensures Inv(pin) && hit <= hi <= |s0.queue|
      ensures Applied(store.ops, store.tracked, key, ch, cross, cross', s0, hit, hi, mid, bridged, Snap())
      ensures hi < |s0.queue| ==> Apart(s0.queue[hi].slice, key)
    {
      AppliedStart(store.ops, store.tracked, key, ch, cross, s0, hit);
      cross', hi, mid, bridged := cross, hit, [], false;
      var i, n := hit, 1;
      while i < |queue| && n > 0
        invariant Inv(pin) && hit <= hi <= |s0.queue| && i == hit + |mid|
        invariant Applied(store.ops, store.tracked, key, ch, cross, cross', s0, hit, hi, mid, bridged, Snap())
        invariant n == 0 ==> hi < |s0.queue| && Apart(s0.queue[hi].slice, key)
        decreases |s0.queue| - hi, n
      {
        n, cross', hi, mid, bridged := Forward(key, ch, cross, cross', pin, i, s0, hit, hi, mid, bridged);
        i := i + n;
      }
      AppliedAt(store.ops, store.tracked, key, ch, cross, cross', s0, hit, hi, mid, bridged, Snap());
    }

    /** The backward loop of `slicer_apply_change`, from the entry before that. */
    method BackwardAll(key: Slice, ch: Change, ghost cross: Crossing, c1: Crossing, ghost pin: Option<nat>, hit: nat,
                       ghost s0: Snapshot, ghost hi: nat, ghost mid: seq<Entry>, ghost bridged: bool)
      returns (cross': Crossing, ghost lo: nat, ghost mid': seq<Entry>, ghost bridged': bool)
      requires Inv(pin) && KeyOk(ops, key) && ChangesOk(store.ops, key, ch, s0.queue, pin)
      requires Applied(store.ops, store.tracked, key, ch, cross, c1, s0, hit, hi, mid, bridged, Snap()) && hit <= |s0.queue|
      modifies this`queue, this`tree, this`next, this`count, store
      ensures Inv(pin) && lo <= hit
      ensures Applied(store.ops, store.tracked, key, ch, cross, cross', s0, lo, hi, mid', bridged', Snap())
      ensures 0 < lo ==> Apart(s0.queue[lo - 1].slice, key)
    {
      cross', lo, mid', bridged' := c1, hit, mid, bridged;
      var j, n := hit, 1;
      while j > 0 && n > 0
        invariant Inv(pin) && lo <= hit && 0 <= j <= lo && (n > 0 ==> j == lo)
        invariant Applied(store.ops, store.tracked, key, ch, cross, cross', s0, lo, hi, mid', bridged', Snap())
        invariant n == 0 ==> j + 1 == lo && j < |s0.queue| && Apart(s0.queue[j].slice, key)
        decreases j
      {
        j := j - 1;
        n, cross', lo, mid', bridged' := Backward(key, ch, cross, cross', pin, j, s0, lo, hi, mid', bridged');
      }
    }

    /** `slicer_apply_change`: changes the data of all slices that meet the key, cutting the first
        and the last, starting from whichever the tree finds. */
    method ApplyChange(key: Slice, ch: Change, cross: Crossing, ghost pin: Option<nat>) returns (cross': Crossing)
      requires Inv(pin) && Fits(ops, key) && key.begin != 1
      requires NonEmpty(key) ==> ChangesOk(store.ops, key, ch, queue, pin)
      modifies this`queue, this`tree, this`next, this`count, store
      ensures Inv(pin)
      ensures Outcome(store.ops, store.tracked, key, ch, cross, cross', old(Snap()), Snap())
    {
      ghost var s0 := Snap();
      InvParts(pin);
      EmptyKey(ops, key);
      if BeginEndCmp(ops, key.begin, key.end) > 0 {
        NothingChanged(store.ops, store.tracked, key, ch, cross, s0);
        return cross;
      }
      var hit := Lookup(key);
      ghost var lo, hi, mid, bridged;
      cross', hi, mid, bridged := ForwardAll(key, ch, cross, pin, hit, s0);
      cross', lo, mid, bridged := BackwardAll(key, ch, cross, cross', pin, hit, s0, hi, mid, bridged);
      AppliedWhole(ops, store.ops, store.tracked, key, ch, cross, cross', s0, hit, lo, hi, mid, bridged, Snap());
    }

    /** `slicer_entry_free`: the data of the first of the slices `q` is freed. */
    method FreeFirst(d: Data, ghost q: seq<Entry>)
      requires q != [] && d == q[0].data && store.Valid() && RefsBooked(store.refs, q, None)
      requires store.tracked ==> NodesBooked(store.index, q)
      modifies store`refs, store`index
      ensures store.Valid() && RefsBooked(store.refs, q[1..], None)
      ensures store.tracked ==> NodesBooked(store.index, q[1..]) && SurplusPlus(old(store.index), q, store.index, q[1..], None)
    {
      SuffixStep(q, 0);
      RefsListed(store.refs, q, 0, None);
      if store.tracked {
        NodesListed(store.index, q, 0);
      }
      if d.Queue? {
        store.DataFree(d);
      }
      RefsExchanged(old(store.refs), store.refs, q, 0, [], None);
      if store.tracked {
        NodesExchanged(old(store.index), store.index, q, 0, [], None);
      }
    }

    /** The data of the slices before `i` have been freed; `x0` was the back-index at the start. */
    ghost predicate FreeRest(i: nat, x0: map<nat, seq<Node>>)
      reads this, store
      requires i <= |queue|
    {
      && store.Valid() && RefsBooked(store.refs, queue[i..], None)
      && (store.tracked ==> NodesBooked(store.index, queue[i..]) && SurplusPlus(x0, queue, store.index, queue[i..], None))
    }

    lemma FreeStart()
      requires Inv(None)
      ensures FreeRest(0, store.index)
    {
      InvParts(None);
      assert queue[0..] == queue;
    }

    method FreeNext(i: nat, ghost x0: map<nat, seq<Node>>)
      requires i < |queue| && FreeRest(i, x0)
      modifies store`refs, store`index
      ensures FreeRest(i + 1, x0)
    {
      assert queue[i..][1..] == queue[i + 1..];
      FreeFirst(queue[i].data, queue[i..]);
    }

    /** `slicer_destroy` on the data of the slices. */
    method FreeAll()
      requires Inv(None)
      modifies store`refs, store`index
      ensures FreeRest(|queue|, old(store.index))
    {
      FreeStart();
      for i := 0 to |queue|
        invariant FreeRest(i, old(store.index))
      {
        FreeNext(i, old(store.index));
      }
    }

    /** `map_clear`, followed by the initialization of the next use. */
    method Clear()
      requires Inv(None)
      modifies this`queue, this`tree, this`count, this`next, store`refs, store`index
      ensures Inv(None) && queue == [Entry(old(next), Slice(0, LastKey(ops)), Null)] && count == 0
      ensures store.tracked ==> forall m :: Surplus(store.index, queue, m) == Surplus(old(store.index), old(queue), m)
    {
      FreeAll();
      var e := Entry(next, Slice(0, LastKey(ops)), Null);
      NothingBooked(store.refs, store.index, e);
      queue, tree, count, next := [e], map[e.slice := next], 0, next + 1;
      InvIntro(None);
    }

    /** The position of the entry whose link the tree gives for the key `k`. */
    method Locate(k: Slice) returns (i: nat)
      requires Agree(queue, tree, next) && k in tree
      ensures i < |queue| && queue[i].slice == k
    {
      assert Open(0);
      ghost var e :| e in queue && e.slice == k;
      ghost var j :| 0 <= j < |queue| && queue[j] == e;
      assert queue[j].link == tree[k];
      i :| 0 <= i < |queue| && queue[i].link == tree[k];
    }

    /** `slicer_find`: the data at a point of the axis. Every key has its slice. */
    method Find(point: nat) returns (d: Data)
      requires Inv(None) && point <= Top(ops)
      ensures exists e :: e in queue && In(e.slice, point) && d == e.data
      ensures forall y: nat, o: nat :: Owns(queue, point, y, o) <==> ListOwns(EntsOf(d), y, o)
    {
      InvParts(None);
      AlwaysFound(ops, queue, tree, next, point);
      if k :| k in tree && SliceCmpPoint(ops, k, point) == 0 {
        var i := Locate(k);
        SliceCmpPointMeaning(ops, k, point);
        d := queue[i].data;
        OwnsAt(ops, queue, 0, LastKey(ops), i, point);
      } else {
        assert false;
      }
    }

    /** `slicer_search`: the data, as far as there is any, of the slices that meet a key, collected
        in both directions from the entry that the tree finds. */
    method Search(key: Slice) returns (found: seq<Data>)
      requires Inv(None) && Fits(ops, key) && NonEmpty(key)
      ensures IsSearch(queue, key, found)
    {
      assert Tiles(ops, queue, 0, LastKey(ops)) && Agree(queue, tree, next) by {
        InvParts(None);
      }
      var hit := Lookup(key);
      var right, hi := SearchRight(ops, queue, hit, key);
      var left, lo := SearchLeft(ops, queue, hit, key);
      SearchWhole(ops, queue, hit, lo, hi, key, left, right);
      found := left + right;
    }

    /** `slicer_glue`: the null slices `from .. to` give way to one. */
    method Glue(from: nat, to: nat, ghost pin: Option<nat>)
      requires Inv(pin) && from < to < |queue|
      requires forall k :: from <= k <= to ==> IsNull(queue[k])
      modifies this`queue, this`tree, this`next, this`count
      ensures Inv(pin) && Glued(old(queue), from, to, queue)
      ensures count - NonNull(queue) == old(count - NonNull(queue))
    {
      ghost var q := queue;
      InvParts(pin);
      Merge(from, to);
      GluedBooks(store.refs, store.index, q, from, to, queue, pin);
      GluedTiles(ops, store.ops, q, LastKey(ops), from, to, queue);
      InvIntro(pin);
    }

    /** A new map entry with the reference that `map_add` holds during the change. */
    method Pin(slice: Slice, owner: nat) returns (e: Ent)
      requires Inv(None)
      modifies store`next, store`refs
      ensures Inv(Some(e.rec)) && e.slice == slice && e.owner == owner
    {
      assert Open(0);
      InvParts(None);
      e := store.EntryNew(slice, owner);
    }

    /** That reference is given back. */
    method Unpin(e: Ent)
      requires Inv(Some(e.rec))
      modifies store`refs
      ensures Inv(None)
    {
      assert Open(0);
      InvParts(Some(e.rec));
      assert RefCount(store.refs, e.rec) > 0;
      store.EntryUnref(e);
    }

    /** `slicer_glue_null`: every run of neighbouring null slices becomes one. */
    method GlueNull(ghost pin: Option<nat>)
      requires Inv(pin)
      modifies this`queue, this`tree, this`next, this`count
      ensures Inv(pin) && NoPair(queue) && SameFull(old(queue), queue)
      ensures count - NonNull(queue) == old(count - NonNull(queue))
      ensures forall m :: Surplus(store.index, queue, m) == Surplus(store.index, old(queue), m)
    {
      var i, from, to := 0, -1, -1;
      while i < |queue|
        invariant Inv(pin) && GlueRun(queue, i, from, to)
        invariant GlueDone(store.index, old(queue), queue)
        invariant count - NonNull(queue) == old(count - NonNull(queue))
        decreases |queue| - i
      {
        GlueRunNext(queue, i, from, to);
        if IsNull(queue[i]) {
          if from != -1 {
            to := i;
          } else {
            from, to := i, -1;
          }
          i := i + 1;
        } else if to == -1 {
          from := -1;
          i := i + 1;
        } else {
          GlueAt(i, from, to, old(queue), pin);
          i := from + 2;
          from, to := -1, -1;
        }
      }
      if to != -1 {
        GlueAt(i, from, to, old(queue), pin);
      }
    }

    method GlueAt(ghost i: int, from: int, to: int, ghost q: seq<Entry>, ghost pin: Option<nat>)
      requires Inv(pin) && GlueRun(queue, i, from, to) && to != -1 && (i < |queue| ==> !IsNull(queue[i]))
      requires GlueDone(store.index, q, queue)
      modifies this`queue, this`tree, this`next, this`count
      ensures Inv(pin) && GlueDone(store.index, q, queue) && |queue| == old(|queue|) - (to - from)
      ensures i < old(|queue|) ==> GlueRun(queue, from + 2, -1, -1)
      ensures i == old(|queue|) ==> NoPair(queue)
      ensures count - NonNull(queue) == old(count - NonNull(queue))
    {
      ghost var was := queue;
      assert Tiles(ops, queue, 0, LastKey(ops)) && Lists(store.ops, queue) by {
        InvParts(pin);
      }
      Glue(from, to, pin);
      GlueProgress(ops, store.ops, store.index, q, was, LastKey(ops), i, from, to, queue);
    }

    /** `slicer_glue` on the list and the tree. */
    method Merge(from: nat, to: nat)
      requires Agree(queue, tree, next) && Tiles(ops, queue, 0, LastKey(ops)) && from < to < |queue|
      requires forall k :: from <= k <= to ==> IsNull(queue[k])
      modifies this`queue, this`tree, this`next, this`count
      ensures Agree(queue, tree, next) && Glued(old(queue), from, to, queue)
      ensures count == old(count) - NonNull(old(queue)[from..to + 1])
    {
      ghost var q := queue;
      var s := Slice(queue[from].slice.begin, queue[to].slice.end);
      Unlink(from, to);
      InsertBefore(from, s, Null);
      GlueSeq(q, from, to, queue);
    }

    /** One step of the loop of `slicer_glue`: entry `k` of `q`, now at position `from`, goes. */
    method DropEntry(from: nat, ghost k: nat, ghost q: seq<Entry>)
      requires from <= k < |q| && queue == q[..from] + q[k..] && Agree(queue, tree, next) && Tiles(ops, q, 0, LastKey(ops))
      modifies this`queue, this`tree, this`count
      ensures queue == q[..from] + q[k + 1..] && Agree(queue, tree, next)
      ensures count == old(count) - Is(q[k].data.Queue?)
    {
      DropStep(q, from, k);
      AgreeDropped(ops, q, LastKey(ops), tree, next, from, k);
      var entry := queue[from];
      tree := tree - {entry.slice};
      queue := Except(queue, from);
      count := count - Is(entry.data.Queue?);
    }

    /** The loop of `slicer_glue`. */
    method DropEntries(from: nat, to: nat)
      requires Agree(queue, tree, next) && Tiles(ops, queue, 0, LastKey(ops)) && from < to < |queue|
      modifies this`queue, this`tree, this`count
      ensures queue == old(queue)[..from] + old(queue)[to + 1..] && Agree(queue, tree, next)
      ensures count == old(count) - NonNull(old(queue)[from..to + 1])
    {
      ghost var q := queue;
      assert queue == q[..from] + q[from..];
      for k := from to to + 1
        invariant queue == q[..from] + q[k..] && Agree(queue, tree, next)
        invariant count == old(count) - NonNull(q[from..k])
      {
        DropCount(q, from, k);
        DropEntry(from, k, q);
      }
    }

    /** The part of `slicer_glue` that takes the null slices out of the list and the tree. */
    method Unlink(from: nat, to: nat)
      requires Agree(queue, tree, next) && Tiles(ops, queue, 0, LastKey(ops)) && from < to < |queue|
      modifies this`queue, this`tree, this`count
      ensures queue == old(queue)[..from] + old(queue)[to + 1..] && Agree(queue, tree, next)
      ensures FreeFor(tree, Slice(old(queue)[from].slice.begin, old(queue)[to].slice.end))
      ensures NonEmpty(Slice(old(queue)[from].slice.begin, old(queue)[to].slice.end))
      ensures count == old(count) - NonNull(old(queue)[from..to + 1])
    {
      DropEntries(from, to);
      GlueRoom(ops, old(queue), LastKey(ops), tree, next, from, to);
    }
  }

  /** The forward half of `slicer_search`. */
  method SearchRight(ops: Ops, q: seq<Entry>, hit: nat, key: Slice) returns (found: seq<Data>, ghost hi: nat)
    requires hit < |q| && !Apart(q[hit].slice, key) && Fits(ops, key) && NonEmpty(key)
    requires forall k :: 0 <= k < |q| ==> Fits(ops, q[k].slice) && NonEmpty(q[k].slice)
    ensures hit < hi <= |q| && found == DataIn(q[hit..hi])
    ensures forall k :: hit <= k < hi ==> !Apart(q[k].slice, key)
    ensures hi < |q| ==> Apart(q[hi].slice, key)
  {
    found := if q[hit].data != Null then [q[hit].data] else [];
    assert q[hit..hit + 1] == [q[hit]];
    hi := hit + 1;
    var i := hit + 1;
    while i < |q|
      invariant i == hi && hit < hi <= |q| && found == DataIn(q[hit..hi])
      invariant forall k :: hit <= k < hi ==> !Apart(q[k].slice, key)
    {
      var meets := Meeting(ops, key, q[i].slice);
      if !meets {
        break;
      }
      DataInConcat(q[hit..i], [q[i]]);
      assert q[hit..i + 1] == q[hit..i] + [q[i]];
      found := if q[i].data != Null then found + [q[i].data] else found;
      i, hi := i + 1, hi + 1;
    }
  }

  /** The backward half of `slicer_search`. */
  method SearchLeft(ops: Ops, q: seq<Entry>, hit: nat, key: Slice) returns (found: seq<Data>, ghost lo: nat)
    requires hit < |q| && Fits(ops, key) && NonEmpty(key)
    requires forall k :: 0 <= k < |q| ==> Fits(ops, q[k].slice) && NonEmpty(q[k].slice)
    ensures lo <= hit && found == DataIn(q[lo..hit])
    ensures forall k :: lo <= k < hit ==> !Apart(q[k].slice, key)
    ensures 0 < lo ==> Apart(q[lo - 1].slice, key)
  {
    found, lo := [], hit;
    var j := hit;
    while j > 0
      invariant j == lo && lo <= hit && found == DataIn(q[lo..hit])
      invariant forall k :: lo <= k < hit ==> !Apart(q[k].slice, key)
    {
      var meets := Meeting(ops, key, q[j - 1].slice);
      if !meets {
        break;
      }
      DataInConcat([q[j - 1]], q[j..hit]);
      assert q[j - 1..hit] == [q[j - 1]] + q[j..hit];
      found := if q[j - 1].data != Null then [q[j - 1].data] + found else found;
      j, lo := j - 1, lo - 1;
    }
  }

  method Meeting(ops: Ops, a: Slice, b: Slice) returns (r: bool)
    requires Fits(ops, a) && Fits(ops, b) && NonEmpty(a) && NonEmpty(b)
    ensures r <==> !Apart(b, a)
  {
    SliceCmpMeaning(ops, a, b);
    r := SliceCmp(ops, a, b) == 0;
  }
}
