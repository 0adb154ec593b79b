/** Units and their maps from times to addresses, from `mbbunit.c`: the fold of the prioritised
positive and negative networks of a unit.
 */
module Units {
  import opened Slices
  import opened MapData
  import opened MapStore
  import opened Tiling
  import opened Slicers
  import opened Maps
  import opened Inets
  import opened Separators
  import opened Transposition
  import opened InetMaps
  import opened Umaps

  // ---------------------------------------------------------------- which points an entry covers

  /** The times of a unit, those of its consumer where it has none of its own. */
  datatype Times = Times(start: int, end: int)

  function KeyOf(e: PoolEntry, p: Times): Slice
    requires OwnTime(e.start, p.start) >= 0 && OwnTime(e.end, p.end) >= 0
  {
    Slice(OwnTime(e.start, p.start), OwnTime(e.end, p.end))
  }

  function DKeyOf(e: PoolEntry): Slice
    requires InetOk(e.inet)
  {
    Slice(RangeOf(e.inet).min, RangeOf(e.inet).max)
  }

  /** What the comparators and cuts of the map need: times that fit and no start at 1, and not the
      network 0.0.0.0/32; see `Slices.TimeCmpOrders`, `Slices.SliceCrossExact` and
      `Inets.RangeAsSlice`. */
  predicate EntryOk(e: PoolEntry, p: Times) {
    && InetOk(e.inet) && NiceOk(e) && !(e.inet.mask >= 32 && e.inet.addr == 0)
    && OwnTime(e.start, p.start) >= 0 && OwnTime(e.end, p.end) >= 0
    && Fits(TimeOps, KeyOf(e, p)) && KeyOf(e, p).begin != 1
  }

  /** The entry covers the address `x` at the time `t`. */
  predicate Reaches(e: PoolEntry, p: Times, t: nat, x: nat) {
    && (OwnTime(e.start, p.start) == 0 || OwnTime(e.start, p.start) <= t)
    && (OwnTime(e.end, p.end) == 0 || t <= OwnTime(e.end, p.end))
    && InNet(e.inet, x)
  }

  /** The times of an entry are its own as far as it has any, and otherwise those of its unit. */
  lemma ReachesTimes(e: PoolEntry, p: Times, t: nat, x: nat)
    ensures e.start >= 0 && e.end >= 0 ==> (Reaches(e, p, t, x) <==> In(Slice(e.start, e.end), t) && InNet(e.inet, x))
    ensures e.start >= 0 > e.end && p.end >= 0 ==> (Reaches(e, p, t, x) <==> In(Slice(e.start, p.end), t) && InNet(e.inet, x))
    ensures e.start < 0 <= e.end && p.start >= 0 ==> (Reaches(e, p, t, x) <==> In(Slice(p.start, e.end), t) && InNet(e.inet, x))
    ensures e.start < 0 && e.end < 0 && p.start >= 0 && p.end >= 0 ==> (Reaches(e, p, t, x) <==> In(Slice(p.start, p.end), t) && InNet(e.inet, x))
  {
  }

  lemma ReachesRect(e: PoolEntry, p: Times, t: nat, x: nat)
    requires EntryOk(e, p)
    ensures Reaches(e, p, t, x) <==> Rect(KeyOf(e, p), DKeyOf(e), t, x)
  {
    RangeMeaning(e.inet);
    RangeAsSlice(e.inet);
  }

  /** The network 0.0.0.1/32: its range begins at 1, and `dec(1)` is the sign for infinity. */
  predicate IsOne(e: PoolEntry) {
    e.inet.mask >= 32 && e.inet.addr == 1
  }

  lemma DKeyOk(e: PoolEntry, p: Times)
    requires EntryOk(e, p)
    ensures SliceOk(InetOps, DKeyOf(e)) && (DKeyOf(e).begin == 1 <==> IsOne(e))
  {
    RangeMeaning(e.inet);
    RangeAsSlice(e.inet);
  }

  /** Any other network that has the address 0 has the address 1 too, and the other way round. */
  lemma ZeroWithOne(e: PoolEntry, p: Times, t: nat)
    requires EntryOk(e, p)
    ensures Reaches(e, p, t, 0) ==> !IsOne(e)
    ensures !IsOne(e) ==> (Reaches(e, p, t, 0) <==> Reaches(e, p, t, 1))
  {
    ReachesRect(e, p, t, 0);
    ReachesRect(e, p, t, 1);
    RangeMeaning(e.inet);
    RangeAsSlice(e.inet);
  }

  // ---------------------------------------------------------------- who gets a point

  /** The last entry that covers the point decides: it is positive and is `o`. */
  ghost predicate Awarded(es: seq<PoolEntry>, p: Times, t: nat, x: nat, o: nat) {
    es != [] &&
    var e := es[|es| - 1];
    if Reaches(e, p, t, x) then e.flag && e.id == o else Awarded(es[..|es| - 1], p, t, x, o)
  }

  /** The entry `k` covers the point and no later one does. */
  ghost predicate LastToReach(es: seq<PoolEntry>, p: Times, k: nat, t: nat, x: nat) {
    && k < |es| && Reaches(es[k], p, t, x)
    && forall m :: k < m < |es| ==> !Reaches(es[m], p, t, x)
  }

  lemma {:induction false} AwardedMeaning(es: seq<PoolEntry>, p: Times, t: nat, x: nat, o: nat)
    ensures Awarded(es, p, t, x, o) <==> exists k: nat :: LastToReach(es, p, k, t, x) && es[k].flag && es[k].id == o
  {
    if es != [] {
      var n := |es| - 1;
      var a := es[..n];
      AwardedMeaning(a, p, t, x, o);
      if Reaches(es[n], p, t, x) {
        assert LastToReach(es, p, n, t, x);
      } else {
        assert forall k: nat :: LastToReach(es, p, k, t, x) ==> k < n && LastToReach(a, p, k, t, x);
        assert forall k: nat :: LastToReach(a, p, k, t, x) ==> LastToReach(es, p, k, t, x);
      }
    }
  }

  /** The positive entries `j` and `k` cover the point, and no negative entry between them does. */
  ghost predicate Contested(es: seq<PoolEntry>, p: Times, j: nat, k: nat, t: nat, x: nat) {
    && j < k < |es| && es[j].flag && es[k].flag
    && Reaches(es[j], p, t, x) && Reaches(es[k], p, t, x)
    && forall m :: j < m < k && Reaches(es[m], p, t, x) ==> es[m].flag
  }

  /** A positive entry meets an awarded point exactly when it contests it. */
  lemma ContestedMeaning(es: seq<PoolEntry>, p: Times, k: nat, t: nat, x: nat)
    requires k < |es| && es[k].flag && Reaches(es[k], p, t, x)
    ensures (exists o: nat :: Awarded(es[..k], p, t, x, o)) <==> exists j: nat :: Contested(es, p, j, k, t, x)
    ensures forall o: nat :: Awarded(es[..k], p, t, x, o) ==> exists j: nat :: Contested(es, p, j, k, t, x) && es[j].id == o
  {
    var a := es[..k];
    forall o: nat | Awarded(a, p, t, x, o)
      ensures exists j: nat :: Contested(es, p, j, k, t, x) && es[j].id == o
    {
      AwardedMeaning(a, p, t, x, o);
      var j: nat :| LastToReach(a, p, j, t, x) && a[j].flag && a[j].id == o;
      assert forall m :: j < m < k ==> es[m] == a[m];
      assert Contested(es, p, j, k, t, x) && es[j].id == o;
    }
    if j: nat :| Contested(es, p, j, k, t, x) {
      var l := LastOf(a, p, j, t, x);
      assert a[l] == es[l];
      AwardedMeaning(a, p, t, x, a[l].id);
    }
  }

  lemma {:induction false} LastOf(es: seq<PoolEntry>, p: Times, j: nat, t: nat, x: nat) returns (l: nat)
    requires j < |es| && Reaches(es[j], p, t, x)
    ensures j <= l && LastToReach(es, p, l, t, x)
  {
    l := |es| - 1;
    while !Reaches(es[l], p, t, x)
      invariant j <= l < |es| && forall m :: l < m < |es| ==> !Reaches(es[m], p, t, x)
      decreases l
    {
      l := l - 1;
    }
  }

  // ---------------------------------------------------------------- the map built so far

  ghost predicate EntriesOk(es: seq<PoolEntry>, p: Times) {
    IdsDistinct(es) && forall k :: 0 <= k < |es| ==> EntryOk(es[k], p)
  }

  /** The map has exactly the awarded points. */
  ghost predicate Built(es: seq<PoolEntry>, p: Times, q: seq<Entry>) {
    forall k {:trigger Open(k)} :: Open(k) ==>
      forall t: nat, x: nat, o: nat :: Owns(q, t, x, o) <==> Awarded(es, p, t, x, o)
  }

  lemma {:induction false} AwardedId(es: seq<PoolEntry>, p: Times, t: nat, x: nat, o: nat)
    requires Awarded(es, p, t, x, o)
    ensures exists k :: 0 <= k < |es| && es[k].id == o
  {
    AwardedMeaning(es, p, t, x, o);
    var k: nat :| LastToReach(es, p, k, t, x) && es[k].flag && es[k].id == o;
  }

  /** Whoever is awarded the address 1 is awarded the address 0 too. */
  ghost predicate OneWithZero(es: seq<PoolEntry>, p: Times) {
    forall t: nat, o: nat :: Awarded(es, p, t, 1, o) ==> Awarded(es, p, t, 0, o)
  }

  /** Without the network 0.0.0.1/32 the two addresses go together. */
  lemma {:induction false} AwardedZero(es: seq<PoolEntry>, p: Times, t: nat, o: nat)
    requires forall k :: 0 <= k < |es| ==> EntryOk(es[k], p) && !IsOne(es[k])
    ensures Awarded(es, p, t, 0, o) <==> Awarded(es, p, t, 1, o)
  {
    if es != [] {
      ZeroWithOne(es[|es| - 1], p, t);
      AwardedZero(es[..|es| - 1], p, t, o);
    }
  }

  /** Every interval has a point. */
  lemma CellPoint(dops: Ops, q: seq<Entry>, e: Entry, c: Ent)
    requires Tiles(TimeOps, q, 0, 0) && Lists(dops, q) && e in q && c in EntsOf(e.data)
    ensures Owns(q, e.slice.begin, c.slice.begin, c.owner)
  {
    var i :| 0 <= i < |q| && q[i] == e;
    assert In(e.slice, e.slice.begin) && In(c.slice, c.slice.begin);
    assert ListOwns(EntsOf(e.data), c.slice.begin, c.owner);
  }

  /** The owners are entries met so far. */
  lemma BuiltShape(es: seq<PoolEntry>, p: Times, q: seq<Entry>)
    requires EntriesOk(es, p) && Built(es, p, q) && Tiles(TimeOps, q, 0, 0) && Lists(InetOps, q)
    ensures UnitOwned(q, Ids(es))
  {
    assert Open(0);
    forall e, c | e in q && c in EntsOf(e.data)
      ensures c.owner in Ids(es)
    {
      CellPoint(InetOps, q, e, c);
      AwardedId(es, p, e.slice.begin, c.slice.begin, c.owner);
      var k :| 0 <= k < |es| && es[k].id == c.owner;
      assert Ids(es)[k] == c.owner;
    }
  }

  /** The map can be walked by `map_add_map`, as no interval begins at address 1, exactly when the
      entries award the address 1 nowhere without the address 0. */
  lemma WalkableExactly(es: seq<PoolEntry>, p: Times, q: seq<Entry>)
    requires Built(es, p, q) && Tiles(TimeOps, q, 0, 0) && Lists(InetOps, q)
    ensures UnitMap(q) <==> OneWithZero(es, p)
  {
    assert Open(0);
    if OneWithZero(es, p) {
      forall e, c | e in q && c in EntsOf(e.data)
        ensures c.slice.begin != 1
      {
        CellPoint(InetOps, q, e, c);
        if c.slice.begin == 1 {
          OneNotFirst(q, e, c);
        }
      }
    }
    if UnitMap(q) {
      forall t: nat, o: nat | Owns(q, t, 1, o)
        ensures Owns(q, t, 0, o)
      {
        var e :| e in q && In(e.slice, t) && ListOwns(EntsOf(e.data), 1, o);
        var c :| c in EntsOf(e.data) && c.owner == o && In(c.slice, 1);
        assert In(c.slice, 0);
      }
    }
  }

  lemma OneNotFirst(q: seq<Entry>, e: Entry, c: Ent)
    requires Tiles(TimeOps, q, 0, 0) && Lists(InetOps, q) && e in q && c in EntsOf(e.data) && c.slice.begin == 1
    ensures !Owns(q, e.slice.begin, 0, c.owner)
  {
    var i :| 0 <= i < |q| && q[i] == e;
    assert In(e.slice, e.slice.begin);
    OwnsAt(TimeOps, q, 0, 0, i, e.slice.begin);
    var ents := EntsOf(e.data);
    var j :| 0 <= j < |ents| && ents[j] == c;
    forall d | d in ents
      ensures !In(d.slice, 0)
    {
      var k :| 0 <= k < |ents| && ents[k] == d;
      assert ents[k].slice == d.slice && ents[j].slice == c.slice;
      assert j <= k;
    }
  }

  lemma Prefix(es: seq<PoolEntry>, k: nat)
    requires k < |es|
    ensures es[..k + 1] == es[..k] + [es[k]] && es[..k + 1][..k] == es[..k] && es[..k + 1][k] == es[k]
  {
  }

  /** A negative entry takes its points away. */
  lemma BuiltNegative(es: seq<PoolEntry>, p: Times, k: nat, q: seq<Entry>, r: seq<Entry>)
    requires k < |es| && EntriesOk(es, p) && !es[k].flag && Built(es[..k], p, q)
    requires forall t: nat, x: nat, o: nat :: Owns(r, t, x, o) <==> Owns(q, t, x, o) && !(In(KeyOf(es[k], p), t) && Hits(DKeyOf(es[k]), None, x, o))
    ensures Built(es[..k + 1], p, r)
  {
    assert Open(0);
    Prefix(es, k);
    forall t: nat, x: nat, o: nat
      ensures Owns(r, t, x, o) <==> Awarded(es[..k + 1], p, t, x, o)
    {
      ReachesRect(es[k], p, t, x);
    }
  }

  /** A positive entry without a crossing gets all its points. */
  lemma BuiltPositive(es: seq<PoolEntry>, p: Times, k: nat, q: seq<Entry>, cross: Crossing, r: seq<Entry>)
    requires k < |es| && EntriesOk(es, p) && es[k].flag && Built(es[..k], p, q) && !cross.found
    requires AddPoints(TimeOps, KeyOf(es[k], p), DKeyOf(es[k]), es[k].id, cross, q, r)
    ensures Built(es[..k + 1], p, r)
  {
    assert Open(0);
    Prefix(es, k);
    forall t: nat, x: nat, o: nat
      ensures Owns(r, t, x, o) <==> Awarded(es[..k + 1], p, t, x, o)
    {
      ReachesRect(es[k], p, t, x);
      assert Rect(KeyOf(es[k], p), DKeyOf(es[k]), t, x) ==> !Owns(q, t, x, o);
    }
  }

  ghost predicate NoneContested(es: seq<PoolEntry>, p: Times, n: nat) {
    forall j: nat, k: nat, t: nat, x: nat :: k < n ==> !Contested(es, p, j, k, t, x)
  }

  /** The entry `k` is the first to contest a point, and `id` is that of an entry it contests. */
  ghost predicate FirstContested(es: seq<PoolEntry>, p: Times, id: nat, e: PoolEntry) {
    exists j: nat, k: nat, t: nat, x: nat ::
      Contested(es, p, j, k, t, x) && es[j].id == id && es[k] == e && NoneContested(es, p, k)
  }

  /** A positive entry finds a crossing exactly when it contests a point. */
  lemma CrossesContested(es: seq<PoolEntry>, p: Times, k: nat, q: seq<Entry>, cross: Crossing, r: seq<Entry>)
    requires k < |es| && EntriesOk(es, p) && es[k].flag && Built(es[..k], p, q) && NoneContested(es, p, k)
    requires AddPoints(TimeOps, KeyOf(es[k], p), DKeyOf(es[k]), es[k].id, cross, q, r)
    ensures cross.found ==> FirstContested(es, p, cross.owner, es[k])
    ensures !cross.found ==> NoneContested(es, p, k + 1)
  {
    assert Open(0);
    var key, dkey := KeyOf(es[k], p), DKeyOf(es[k]);
    if cross.found {
      var t: nat, x: nat :| Owns(q, t, x, cross.owner) && In(key, t) && In(dkey, x);
      ReachesRect(es[k], p, t, x);
      ContestedMeaning(es, p, k, t, x);
      var j: nat :| Contested(es, p, j, k, t, x) && es[j].id == cross.owner;
    } else {
      forall j: nat, t: nat, x: nat
        ensures !Contested(es, p, j, k, t, x)
      {
        if Contested(es, p, j, k, t, x) {
          ReachesRect(es[k], p, t, x);
          ContestedMeaning(es, p, k, t, x);
          var o: nat :| Awarded(es[..k], p, t, x, o);
          assert Owns(q, t, x, o);
          assert Crosses(key, dkey, q);
        }
      }
    }
  }

  lemma NegativeContestsNone(es: seq<PoolEntry>, p: Times, k: nat)
    requires k < |es| && !es[k].flag && NoneContested(es, p, k)
    ensures NoneContested(es, p, k + 1)
  {
  }

  /** An entry that comes later owns nothing yet. */
  lemma LaterFree(es: seq<PoolEntry>, p: Times, k: nat, q: seq<Entry>)
    requires k < |es| && EntriesOk(es, p) && UnitOwned(q, Ids(es[..k]))
    ensures forall e :: e in q ==> OwnerFree(EntsOf(e.data), es[k].id)
  {
    forall e, c | e in q && c in EntsOf(e.data)
      ensures c.owner != es[k].id
    {
      assert c.owner in Ids(es[..k]);
      var i :| 0 <= i < |Ids(es[..k])| && Ids(es[..k])[i] == c.owner;
      assert es[i].id == c.owner;
    }
  }

  // ---------------------------------------------------------------- which cuts are safe

  /** The negative entry `k`, if it is for 0.0.0.1/32, does not take the address 1 from an owner of
      the address 0. */
  ghost predicate CutOkAt(es: seq<PoolEntry>, p: Times, k: nat)
    requires k < |es|
  {
    IsOne(es[k]) ==> forall t: nat, o: nat :: Reaches(es[k], p, t, 1) ==> !Awarded(es[..k], p, t, 0, o)
  }

  /** All negative entries are so, as far as the map is built at all. */
  ghost predicate CutsOk(es: seq<PoolEntry>, p: Times) {
    forall k: nat :: k < |es| && !es[k].flag && NoneContested(es, p, k) ==> CutOkAt(es, p, k)
  }

  /** All cuts that a deletion makes split their interval correctly. */
  ghost predicate CutsExact(q: seq<Entry>, key: Slice, d: Slice) {
    forall s, c :: s in q && !Apart(s.slice, key) && c in EntsOf(s.data) && !Apart(c.slice, d) ==>
      CrossExact(c.slice, d, SliceCross(InetOps, c.slice, d))
  }

  lemma CutsExactSafe(q: seq<Entry>, key: Slice, d: Slice)
    requires Lists(InetOps, q) && SliceOk(InetOps, d)
    ensures CutsExact(q, key, d) <==> forall s :: s in q && !Apart(s.slice, key) ==> CutsSafe(InetOps, EntsOf(s.data), d, None)
  {
    forall s, c | s in q && c in EntsOf(s.data) && !Apart(c.slice, d)
      ensures CrossExact(c.slice, d, SliceCross(InetOps, c.slice, d)) <==> CutSafe(InetOps, c.slice, d)
    {
      var ents := EntsOf(s.data);
      var j :| 0 <= j < |ents| && ents[j] == c;
      SliceCrossExact(InetOps, c.slice, d);
    }
  }

  lemma KeptAwarded(es: seq<PoolEntry>, p: Times, k: nat, q: seq<Entry>)
    requires k < |es| && EntryOk(es[k], p) && Built(es[..k], p, q)
    ensures ZeroKept(q, KeyOf(es[k], p), DKeyOf(es[k]), None) <==> CutOkAt(es, p, k)
  {
    assert Open(0);
    DKeyOk(es[k], p);
    forall t: nat
      ensures IsOne(es[k]) ==> (Reaches(es[k], p, t, 1) <==> In(KeyOf(es[k], p), t))
    {
      ReachesRect(es[k], p, t, 1);
      RangeMeaning(es[k].inet);
    }
  }

  /** A negative entry cuts the map correctly exactly on that condition. */
  lemma CutsExactly(es: seq<PoolEntry>, p: Times, k: nat, q: seq<Entry>)
    requires k < |es| && EntryOk(es[k], p) && Built(es[..k], p, q) && Tiles(TimeOps, q, 0, 0) && Lists(InetOps, q)
    requires NonEmpty(KeyOf(es[k], p))
    ensures CutsExact(q, KeyOf(es[k], p), DKeyOf(es[k])) <==> CutOkAt(es, p, k)
  {
    DKeyOk(es[k], p);
    KeptAwarded(es, p, k, q);
    CutsExactSafe(q, KeyOf(es[k], p), DKeyOf(es[k]));
    CutsAtPoints(TimeOps, InetOps, q, KeyOf(es[k], p), DKeyOf(es[k]), None);
  }

  /** Lists without 0.0.0.1/32 meet both conditions. */
  lemma WithoutOne(es: seq<PoolEntry>, p: Times)
    requires forall k :: 0 <= k < |es| ==> EntryOk(es[k], p) && !IsOne(es[k])
    ensures CutsOk(es, p) && OneWithZero(es, p)
  {
    forall t: nat, o: nat | Awarded(es, p, t, 1, o)
      ensures Awarded(es, p, t, 0, o)
    {
      AwardedZero(es, p, t, o);
    }
  }

  // ---------------------------------------------------------------- units

  /** A map from times to addresses that stands for the entries `es`. */
  ghost predicate Building(m: Map, es: seq<PoolEntry>, p: Times)
    reads m, m.slicer, m.slicer.store
  {
    && m.Inv() && m.slicer.ops == TimeOps && m.slicer.store.ops == InetOps && !m.slicer.store.tracked
    && Built(es, p, m.slicer.queue)
  }

  lemma BuildingShape(m: Map, es: seq<PoolEntry>, p: Times)
    requires Building(m, es, p) && EntriesOk(es, p)
    ensures UnitOwned(m.slicer.queue, Ids(es))
    ensures UnitMap(m.slicer.queue) <==> OneWithZero(es, p)
  {
    m.slicer.InvParts(None);
    BuiltShape(es, p, m.slicer.queue);
    WalkableExactly(es, p, m.slicer.queue);
  }

  lemma BuildingPoints(m: Map, es: seq<PoolEntry>, p: Times)
    requires Building(m, es, p)
    ensures forall t: nat, x: nat, o: nat :: Owns(m.slicer.queue, t, x, o) <==> Awarded(es, p, t, x, o)
  {
    assert Open(0);
  }

  /** `unit_map_add_inet`: a positive entry is added to the map, a negative one deleted from it. */
  method AddInet(m: Map, e: PoolEntry, p: Times, ghost es: seq<PoolEntry>, ghost k: nat) returns (cross: Crossing)
    requires EntriesOk(es, p) && k < |es| && e == es[k] && Building(m, es[..k], p) && NoneContested(es, p, k)
    requires !e.flag ==> CutOkAt(es, p, k)
    modifies m.slicer, m.slicer.store
    ensures cross.found ==> FirstContested(es, p, cross.owner, e)
    ensures !cross.found ==> Building(m, es[..k + 1], p) && NoneContested(es, p, k + 1)
  {
    ghost var q := m.slicer.queue;
    var key, dkey := KeyOf(e, p), DKeyOf(e);
    DKeyOk(e, p);
    if e.flag {
      BuildingShape(m, es[..k], p);
      LaterFree(es, p, k, q);
      cross := m.Add(key, dkey, e.id);
      CrossesContested(es, p, k, q, cross, m.slicer.queue);
      if !cross.found {
        BuiltPositive(es, p, k, q, cross, m.slicer.queue);
      }
    } else {
      KeptAwarded(es, p, k, q);
      m.Del(key, dkey, None);
      cross := Crossing(false, Slice(0, 0), 0);
      NegativeContestsNone(es, p, k);
      BuiltNegative(es, p, k, q, m.slicer.queue);
    }
  }

  /** The loop of `mbb_unit_map_rebuild`. */
  method Build(es: seq<PoolEntry>, p: Times) returns (m: Map, pp: Option<(nat, PoolEntry)>)
    requires EntriesOk(es, p) && CutsOk(es, p)
    ensures fresh(m.slicer) && fresh(m.slicer.store)
    ensures pp.None? <==> NoneContested(es, p, |es|)
    ensures pp.None? ==> Building(m, es, p)
    ensures pp.Some? ==> FirstContested(es, p, pp.value.0, pp.value.1)
  {
    m := new Map(TimeOps, false);
    assert Building(m, es[..0], p);
    for k := 0 to |es|
      invariant fresh(m.slicer) && fresh(m.slicer.store)
      invariant Building(m, es[..k], p) && NoneContested(es, p, k)
    {
      var cross := AddInet(m, es[k], p, es, k);
      if cross.found {
        return m, Some((cross.owner, es[k]));
      }
    }
    assert es[..|es|] == es;
    pp := None;
  }

  /** Taking an entry out of a unit's map and its separator keeps them together. */
  lemma RemovedShape(es: seq<PoolEntry>, id: nat, q: seq<Entry>, r: seq<Entry>)
    requires IdsDistinct(es) && UnitOwned(q, Ids(es)) && Purged(q, r, |q|, id)
    ensures UnitOwned(r, Ids(Without(es, id)))
  {
    PurgedOwns(q, r, id);
    forall e, c | e in r && c in EntsOf(e.data)
      ensures c.owner in Ids(Without(es, id))
    {
      assert Carries(r, e.slice, c) && Carries(q, e.slice, c);
      IdKept(es, id, c.owner);
    }
  }

  lemma IdKept(es: seq<PoolEntry>, id: nat, o: nat)
    requires IdsDistinct(es) && o in Ids(es) && o != id
    ensures o in Ids(Without(es, id))
  {
    WithoutMembers(es, id);
    var i :| 0 <= i < |Ids(es)| && Ids(es)[i] == o;
    assert es[i] in Without(es, id);
    var k :| 0 <= k < |Without(es, id)| && Without(es, id)[k] == es[i];
    assert Ids(Without(es, id))[k] == o;
  }

  /** A map from times to addresses whose owners are among the entries `es`. */
  ghost predicate TableFor(m: Map, es: seq<PoolEntry>)
    reads m, m.slicer, m.slicer.store
  {
    && m.Inv() && m.slicer.ops == TimeOps && m.slicer.store.ops == InetOps && !m.slicer.store.tracked
    && UnitOwned(m.slicer.queue, Ids(es))
  }

  method RemoveFromTable(m: Map, id: nat, ghost es: seq<PoolEntry>)
    requires TableFor(m, es) && IdsDistinct(es)
    modifies m.slicer`queue, m.slicer.store`refs
    ensures TableFor(m, Without(es, id))
    ensures forall t: nat, x: nat, o: nat :: Owns(m.slicer.queue, t, x, o) <==> Owns(old(m.slicer.queue), t, x, o) && o != id
  {
    m.RemoveOwner(id);
    RemovedShape(es, id, old(m.slicer.queue), m.slicer.queue);
    PurgedOwns(old(m.slicer.queue), m.slicer.queue, id);
  }

  class Unit {
    const id: nat
    const sep: Separator
    var start: int
    var end: int
    var consumer: Option<Times>
    var table: Map?       // `unit->map`, null without a slicer

    constructor (id: nat, start: int, end: int)
      ensures this.id == id && this.start == start && this.end == end && consumer == None
      ensures fresh(sep) && sep.queue == [] && table == null
    {
      this.id, this.start, this.end, consumer, table := id, start, end, None, null;
      sep := new Separator();
    }

    /** `mbb_unit_get_start` and `mbb_unit_get_end`. */
    function TimesOf(): Times
      reads this`start, this`end, this`consumer
    {
      Times(if start >= 0 || consumer == None then start else consumer.value.start,
            if end >= 0 || consumer == None then end else consumer.value.end)
    }

    /** A unit has its own times as far as it has any, and otherwise those of its consumer if it has one. */
    lemma TimesMeaning()
      ensures start >= 0 ==> TimesOf().start == start
      ensures end >= 0 ==> TimesOf().end == end
      ensures consumer == None ==> TimesOf() == Times(start, end)
      ensures consumer.Some? && start < 0 ==> TimesOf().start == consumer.value.start
      ensures consumer.Some? && end < 0 ==> TimesOf().end == consumer.value.end
    {
    }

    /** The map gives the point to the entry `o`. */
    ghost predicate Point(t: nat, x: nat, o: nat)
      reads this, table, if table == null then {} else {table.slicer}
    {
      table != null && Owns(table.slicer.queue, t, x, o)
    }

    /** A map that there is belongs to the unit's entries. */
    ghost predicate TableOk()
      reads this, sep, table, if table == null then {} else {table.slicer, table.slicer.store}
    {
      table != null ==> TableFor(table, sep.queue)
    }

    /** `mbb_unit_map_rebuild`: makes the map anew from the entries in their order. It succeeds
        exactly when no entry contests a point; then each point belongs to the last entry that
        covers it, if that is positive. Otherwise the old map stays, and the result names the first
        entry that contests a point and one that it contests. */
    method Rebuild() returns (ok: bool, pp: Option<(nat, PoolEntry)>)
      requires EntriesOk(sep.queue, TimesOf()) && CutsOk(sep.queue, TimesOf())
      modifies this`table
      ensures ok <==> NoneContested(sep.queue, TimesOf(), |sep.queue|)
      ensures ok ==> TableOk() && forall t: nat, x: nat, o: nat :: Point(t, x, o) <==> Awarded(sep.queue, TimesOf(), t, x, o)
      ensures !ok ==> table == old(table) && pp.Some? && FirstContested(sep.queue, TimesOf(), pp.value.0, pp.value.1)
    {
      if |sep.queue| == 0 {
        table := null;
        return true, None;
      }
      var m;
      m, pp := Build(sep.queue, TimesOf());
      ok := pp == None;
      if ok {
        BuildingShape(m, sep.queue, TimesOf());
        BuildingPoints(m, sep.queue, TimesOf());
        table := m;
      }
    }

    ghost predicate Listed(id: nat)
      reads this, sep
    {
      exists e :: e in sep.queue && e.id == id
    }

    /** The part of `mbb_unit_del_inet` that is about the unit. */
    method DropInet(id: nat)
      requires TableOk() && IdsDistinct(sep.queue)
      modifies sep, if table == null then {} else {table.slicer, table.slicer.store}
      ensures TableOk() && sep.queue == Without(old(sep.queue), id)
      ensures forall t: nat, x: nat, o: nat :: Point(t, x, o) <==> old(Point(t, x, o)) && o != id
    {
      sep.Del(id);
      if table != null {
        RemoveFromTable(table, id, old(sep.queue));
      }
    }

    /** The part that is about both maps. */
    method RemoveInet(id: nat, g: Map)
      requires Global(g) && TableOk() && IdsDistinct(sep.queue)
      modifies sep, g.slicer, g.slicer.store
      modifies if table == null then {} else {table.slicer, table.slicer.store}
      ensures Global(g) && TableOk() && sep.queue == Without(old(sep.queue), id)
      ensures UnitGone([id], old(g.slicer.queue), g.slicer.queue)
      ensures forall t: nat, x: nat, o: nat :: Point(t, x, o) <==> old(Point(t, x, o)) && o != id
    {
      assert table != null ==> table.slicer != g.slicer && table.slicer.store != g.slicer.store;
      DropInet(id);
      GlobalKept(g);
      TakeInet(g, id, table, sep.queue);
    }

    /** `mbb_unit_del_inet`: an entry of the unit leaves it, its map, the global map and the pool. */
    method DelInet(id: nat, g: Map, pool: map<nat, PoolEntry>) returns (pool': map<nat, PoolEntry>)
      requires Global(g) && TableOk() && IdsDistinct(sep.queue)
      modifies sep, g.slicer, g.slicer.store
      modifies if table == null then {} else {table.slicer, table.slicer.store}
      ensures Global(g) && TableOk()
      ensures pool' == if old(Listed(id)) then pool - {id} else pool
      ensures old(Listed(id)) ==> sep.queue == Without(old(sep.queue), id) && UnitGone([id], old(g.slicer.queue), g.slicer.queue)
      ensures old(Listed(id)) ==> forall t: nat, x: nat, o: nat :: Point(t, x, o) <==> old(Point(t, x, o)) && o != id
      ensures !old(Listed(id)) ==> unchanged(sep, g.slicer, g.slicer.store) && (table != null ==> unchanged(table.slicer, table.slicer.store))
    {
      pool' := pool;
      var has := sep.Has(id);
      if has {
        RemoveInet(id, g);
        pool' := pool' - {id};
      }
    }

    /** `mbb_unit_clear_inet`: all entries of the unit leave the global map and the pool, and the
        unit loses its map. */
    method ClearInet(g: Map, pool: map<nat, PoolEntry>) returns (pool': map<nat, PoolEntry>)
      requires Global(g)
      modifies this`table, sep, g.slicer, g.slicer.store
      ensures Global(g) && UnitGone(Ids(old(sep.queue)), old(g.slicer.queue), g.slicer.queue)
      ensures sep.queue == [] && table == null
      ensures forall id :: (id in pool' <==> id in pool && id !in Ids(old(sep.queue))) && (id in pool' ==> pool'[id] == pool[id])
    {
      DelUnit(g, Ids(sep.queue));
      pool' := pool;
      for k := 0 to |sep.queue|
        invariant forall id :: (id in pool' <==> id in pool && id !in Ids(sep.queue)[..k]) && (id in pool' ==> pool'[id] == pool[id])
      {
        assert Ids(sep.queue)[..k + 1] == Ids(sep.queue)[..k] + [sep.queue[k].id];
        pool' := pool' - {sep.queue[k].id};
      }
      assert Ids(sep.queue)[..|sep.queue|] == Ids(sep.queue);
      sep.queue := [];
      table := null;
    }

    /** `mbb_unit_add_inet`: a new entry takes its place among the others. */
    method AddEntry(e: PoolEntry, pool: map<nat, PoolEntry>) returns (pool': map<nat, PoolEntry>)
      requires InOrder(sep.queue) && IdsDistinct(sep.queue) && NiceOk(e)
      modifies sep
      ensures InOrder(sep.queue) && IdsDistinct(sep.queue)
      ensures sep.queue == if old(Listed(e.id)) then old(sep.queue) else Insert(old(sep.queue), e)
      ensures pool' == if old(Listed(e.id)) then pool else pool[e.id := e]
    {
      pool' := pool;
      var has := sep.Has(e.id);
      if !has {
        InsertInOrder(sep.queue, e);
        InsertDistinct(sep.queue, e);
        sep.Add(e);
        pool' := pool'[e.id := e];
      }
    }
  }

  // ---------------------------------------------------------------- reloading

  /** No entry of another unit has a point that is awarded. */
  ghost predicate NoFoe(es: seq<PoolEntry>, p: Times, q: seq<Entry>) {
    forall x: nat, t: nat, o: nat, foe: nat :: Awarded(es, p, t, x, o) && Owns(q, x, t, foe) ==> foe in Ids(es)
  }

  /** The entries `es` have lost the points they had, and have those they are awarded if `ok`. */
  ghost predicate Reloaded(es: seq<PoolEntry>, p: Times, ok: bool, q: seq<Entry>, r: seq<Entry>) {
    forall x: nat, t: nat, o: nat ::
      Owns(r, x, t, o) <==> (Owns(q, x, t, o) && o !in Ids(es)) || (ok && Awarded(es, p, t, x, o))
  }

  /** What the maps need of a unit's entries: their cuts are safe, and if they make a map, no address
      range of it begins at 1. */
  ghost predicate Mappable(es: seq<PoolEntry>, p: Times) {
    EntriesOk(es, p) && CutsOk(es, p) && (NoneContested(es, p, |es|) ==> OneWithZero(es, p))
  }

  /** Some awarded point belongs to the entry `foe` of another unit. */
  ghost predicate IsFoe(es: seq<PoolEntry>, p: Times, q: seq<Entry>, foe: nat) {
    foe !in Ids(es) && exists x: nat, t: nat, o: nat :: Awarded(es, p, t, x, o) && Owns(q, x, t, foe)
  }

  /** `mbb_map_reload_unit`: rebuilds the map of a unit and maps the unit anew. A contested unit
      leaves the global map as it is; one that meets another unit is unmapped. The answer names the
      entries of a contest, or an entry of the other unit. */
  method ReloadUnit(g: Map, u: Unit, autoGlue: bool) returns (ok: bool, pp: Option<(nat, PoolEntry)>, foe: Option<nat>)
    requires Global(g) && Mappable(u.sep.queue, u.TimesOf())
    modifies u`table, g.slicer, g.slicer.store
    ensures Global(g)
    ensures ok <==> NoneContested(u.sep.queue, u.TimesOf(), |u.sep.queue|) && NoFoe(u.sep.queue, u.TimesOf(), old(g.slicer.queue))
    ensures if NoneContested(u.sep.queue, u.TimesOf(), |u.sep.queue|)
            then Reloaded(u.sep.queue, u.TimesOf(), ok, old(g.slicer.queue), g.slicer.queue)
            else g.slicer.queue == old(g.slicer.queue)
    ensures pp.Some? <==> !NoneContested(u.sep.queue, u.TimesOf(), |u.sep.queue|)
    ensures pp.Some? ==> FirstContested(u.sep.queue, u.TimesOf(), pp.value.0, pp.value.1)
    ensures foe.Some? <==> !ok && pp.None?
    ensures foe.Some? ==> IsFoe(u.sep.queue, u.TimesOf(), old(g.slicer.queue), foe.value) && (autoGlue ==> NoPair(g.slicer.queue))
  {
    ghost var q := g.slicer.queue;
    var built;
    built, pp := u.Rebuild();
    foe := None;
    if !built {
      return false, pp, None;
    }
    pp := None;
    if u.table == null {
      DelUnit(g, Ids(u.sep.queue));
      ok := true;
    } else {
      ok, foe := Remap(g, u, autoGlue);
    }
  }

  /** What does not touch the global map leaves it as it is. */
  twostate lemma GlobalKept(g: Map)
    requires old(Global(g)) && unchanged(g.slicer, g.slicer.store)
    ensures Global(g)
  {
  }

  /** `mbb_map_del_inet`, seen from a unit. */
  method TakeInet(g: Map, id: nat, ghost m: Map?, ghost es: seq<PoolEntry>)
    requires Global(g) && (m != null ==> TableFor(m, es))
    modifies g.slicer, g.slicer.store
    ensures Global(g) && UnitGone([id], old(g.slicer.queue), g.slicer.queue)
    ensures m != null ==> TableFor(m, es)
  {
    InetMaps.DelInet(g, id);
    assert m != null ==> m.slicer != g.slicer && m.slicer.store != g.slicer.store;
  }

  method Remap(g: Map, u: Unit, autoGlue: bool) returns (ok: bool, foe: Option<nat>)
    requires Global(g) && u.table != null && TableFor(u.table, u.sep.queue) && OneWithZero(u.sep.queue, u.TimesOf())
    requires forall t: nat, x: nat, o: nat :: u.Point(t, x, o) <==> Awarded(u.sep.queue, u.TimesOf(), t, x, o)
    modifies g.slicer, g.slicer.store
    ensures Global(g)
    ensures ok <==> NoFoe(u.sep.queue, u.TimesOf(), old(g.slicer.queue))
    ensures Reloaded(u.sep.queue, u.TimesOf(), ok, old(g.slicer.queue), g.slicer.queue)
    ensures foe.Some? <==> !ok
    ensures foe.Some? ==> IsFoe(u.sep.queue, u.TimesOf(), old(g.slicer.queue), foe.value) && (autoGlue ==> NoPair(g.slicer.queue))
  {
    ghost var q, r, es, p := g.slicer.queue, u.table.slicer.queue, u.sep.queue, u.TimesOf();
    assert forall t: nat, x: nat, o: nat :: Owns(r, t, x, o) <==> u.Point(t, x, o);
    assert UnitMap(r) by {
      u.table.slicer.InvParts(None);
      WalkableExactly(es, p, r);
    }
    var cross;
    ok, cross := RemapUnit(g, u.table, Ids(u.sep.queue), autoGlue);
    assert forall t: nat, x: nat, o: nat :: Owns(r, t, x, o) <==> Awarded(es, p, t, x, o);
    assert forall x: nat, t: nat, o: nat :: g.Owner(x, t, o) <==> Owns(g.slicer.queue, x, t, o);
    foe := if cross.found then Some(cross.owner) else None;
    if !ok {
      FoeSeen(es, p, r, q, cross.owner);
    }
  }

  lemma FoeSeen(es: seq<PoolEntry>, p: Times, u: seq<Entry>, q: seq<Entry>, foe: nat)
    requires forall t: nat, x: nat, o: nat :: Owns(u, t, x, o) <==> Awarded(es, p, t, x, o)
    requires foe !in Ids(es) && ClashesWith(u, q, foe)
    ensures IsFoe(es, p, q, foe)
  {
    var x: nat, t: nat, o: nat :| Owns(u, t, x, o) && Owns(q, x, t, foe);
    assert Awarded(es, p, t, x, o);
  }
}
