/** The flattened form of an address map that `mbbinetmap.c` builds for the statistics: an array of
address ranges, searched by bisection, with a list of time ranges for each, latest first.
 */
module Umaps {
  import opened Slices
  import opened MapData
  import opened MapStore
  import opened Tiling
  import opened Slicers
  import opened Maps
  import opened Transposition
  import opened InetMaps

  /** A `struct umap_data_entry`; the links `next` make a list of them. */
  datatype UmapData = UmapData(unit: nat, min: nat, max: nat)

  /** A `struct umap_entry`. */
  datatype UmapEntry = UmapEntry(data: seq<UmapData>, min: nat, max: nat)

  /** The time range contains `t`; a `max` of 0 is open-ended. */
  predicate During(d: UmapData, t: nat) {
    d.min <= t && (d.max == 0 || t <= d.max)
  }

  /** Time ranges in descending order; only the first may be open-ended. */
  ghost predicate Descending(data: seq<UmapData>) {
    && (forall i :: 0 <= i < |data| ==> if data[i].max == 0 then i == 0 else data[i].min <= data[i].max)
    && (forall i, j :: 0 <= i < j < |data| ==> data[j].max < data[i].min)
  }

  ghost predicate DataShows(data: seq<UmapData>, t: nat, unit: nat) {
    exists d :: d in data && During(d, t) && d.unit == unit
  }

  /** Address ranges in ascending order, none without data. */
  ghost predicate UmapOk(m: seq<UmapEntry>) {
    && (forall i :: 0 <= i < |m| ==> m[i].min <= m[i].max && m[i].data != [] && Descending(m[i].data))
    && (forall i, j :: 0 <= i < j < |m| ==> m[i].max < m[j].min)
  }

  /** The flattened map has `unit` at the address `x` and the time `t`. */
  ghost predicate Shows(m: seq<UmapEntry>, x: nat, t: nat, unit: nat) {
    exists e :: e in m && e.min <= x <= e.max && DataShows(e.data, t, unit)
  }

  // ---------------------------------------------------------------- searching

  /** `umap_bsearch`. */
  method Bsearch(m: seq<UmapEntry>, ip: nat) returns (r: Option<nat>)
    requires UmapOk(m)
    ensures r.Some? ==> r.value < |m| && m[r.value].min <= ip <= m[r.value].max
    ensures r.None? ==> forall i :: 0 <= i < |m| ==> !(m[i].min <= ip <= m[i].max)
  {
    var min, max := 0, |m| - 1;
    while min <= max
      invariant 0 <= min <= |m| && -1 <= max < |m|
      invariant forall i :: 0 <= i < min ==> m[i].max < ip
      invariant forall i :: max < i < |m| ==> ip < m[i].min
      decreases max - min
    {
      var n := (min + max) / 2;
      if ip < m[n].min {
        max := n - 1;
      } else if ip > m[n].max {
        min := n + 1;
      } else {
        return Some(n);
      }
    }
    r := None;
  }

  /** `umap_data_search`. */
  method DataSearch(data: seq<UmapData>, t: nat) returns (r: Option<nat>)
    requires data != [] && Descending(data)
    ensures forall unit: nat :: r == Some(unit) <==> DataShows(data, t, unit)
  {
    var i := 0;
    if data[0].max == 0 {
      if t >= data[0].min {
        Shown(data, t, 0);
        return Some(data[0].unit);
      }
      i := 1;
      if i == |data| {
        return None;
      }
    }
    while i < |data|
      invariant i <= |data| && (i == 0 ==> data[0].max != 0)
      invariant forall k :: 0 <= k < i ==> t < data[k].min
    {
      if t > data[i].max {
        forall d | d in data
          ensures !During(d, t)
        {
          var k :| 0 <= k < |data| && data[k] == d;
          assert i < k ==> data[k].max < data[i].min;
        }
        return None;
      }
      if t >= data[i].min {
        Shown(data, t, i);
        return Some(data[i].unit);
      }
      i := i + 1;
    }
    r := None;
  }

  /** At most one range contains a time. */
  lemma Shown(data: seq<UmapData>, t: nat, i: nat)
    requires Descending(data) && i < |data| && During(data[i], t)
    ensures forall unit: nat :: DataShows(data, t, unit) <==> unit == data[i].unit
  {
    assert data[i] in data;
    forall d | d in data && During(d, t)
      ensures d == data[i]
    {
      var k :| 0 <= k < |data| && data[k] == d;
      assert k <= i && i <= k;
    }
  }

  /** `mbb_umap_find`. */
  method Find(m: seq<UmapEntry>, ip: nat, t: nat) returns (r: Option<nat>)
    requires UmapOk(m)
    ensures forall unit: nat :: r == Some(unit) <==> Shows(m, ip, t, unit)
  {
    var i := Bsearch(m, ip);
    if i.None? {
      return None;
    }
    assert m[i.value] in m;
    forall e | e in m && e.min <= ip <= e.max
      ensures e == m[i.value]
    {
      var k :| 0 <= k < |m| && m[k] == e;
      assert k <= i.value && i.value <= k;
    }
    r := DataSearch(m[i.value].data, t);
  }

  // ---------------------------------------------------------------- building

  function DataOf(c: Ent, unitOf: nat -> nat): UmapData {
    UmapData(unitOf(c.owner), c.slice.begin, c.slice.end)
  }

  /** `umap_get_data`: each interval of a list goes before those already read. */
  method GetData(cells: seq<Cell>, unitOf: nat -> nat) returns (data: seq<UmapData>)
    requires Sorted(TimeOps, Ents(cells))
    ensures Descending(data) && (data == [] <==> cells == [])
    ensures forall t: nat, unit: nat :: DataShows(data, t, unit) <==> exists o: nat :: ListOwns(Ents(cells), t, o) && unitOf(o) == unit
  {
    data := [];
    for i := 0 to |cells|
      invariant |data| == i && forall k :: 0 <= k < i ==> data[k] == DataOf(Ents(cells)[i - 1 - k], unitOf)
    {
      var entry := cells[i].ent;
      assert entry == Ents(cells)[i];
      data := [UmapData(unitOf(entry.owner), entry.slice.begin, entry.slice.end)] + data;
    }
    DataMeaning(Ents(cells), unitOf, data);
  }

  lemma DataMeaning(ents: seq<Ent>, unitOf: nat -> nat, data: seq<UmapData>)
    requires Sorted(TimeOps, ents) && |data| == |ents|
    requires forall k :: 0 <= k < |data| ==> data[k] == DataOf(ents[|ents| - 1 - k], unitOf)
    ensures Descending(data)
    ensures forall t: nat, unit: nat :: DataShows(data, t, unit) <==> exists o: nat :: ListOwns(ents, t, o) && unitOf(o) == unit
  {
    forall i | 0 <= i < |data|
      ensures if data[i].max == 0 then i == 0 else data[i].min <= data[i].max
    {
      assert 0 < i ==> Before(ents[|ents| - 1 - i].slice, ents[|ents| - i].slice);
      assert SliceOk(TimeOps, ents[|ents| - 1 - i].slice);
    }
    forall i, j | 0 <= i < j < |data|
      ensures data[j].max != 0 && data[j].max < data[i].min
    {
      assert Before(ents[|ents| - 1 - j].slice, ents[|ents| - 1 - i].slice);
    }
    forall t: nat, unit: nat
      ensures DataShows(data, t, unit) <==> exists o: nat :: ListOwns(ents, t, o) && unitOf(o) == unit
    {
      DataPoint(ents, unitOf, data, t, unit);
    }
  }

  lemma DataPoint(ents: seq<Ent>, unitOf: nat -> nat, data: seq<UmapData>, t: nat, unit: nat)
    requires |data| == |ents|
    requires forall k :: 0 <= k < |data| ==> data[k] == DataOf(ents[|ents| - 1 - k], unitOf)
    ensures DataShows(data, t, unit) <==> exists o: nat :: ListOwns(ents, t, o) && unitOf(o) == unit
  {
    if DataShows(data, t, unit) {
      var d :| d in data && During(d, t) && d.unit == unit;
      var k :| 0 <= k < |data| && data[k] == d;
      assert ListOwns(ents, t, ents[|ents| - 1 - k].owner);
    }
    if o: nat :| ListOwns(ents, t, o) && unitOf(o) == unit {
      var c :| c in ents && c.owner == o && In(c.slice, t);
      var k :| 0 <= k < |ents| && ents[k] == c;
      assert data[|ents| - 1 - k] in data;
    }
  }

  /** The entry of one slice, if it has intervals. */
  ghost predicate EntryFor(e: Entry, u: seq<UmapEntry>, unitOf: nat -> nat) {
    if IsNull(e) then u == [] else
      && |u| == 1 && u[0].min == e.slice.begin && u[0].max == e.slice.end && u[0].data != [] && Descending(u[0].data)
      && forall t: nat, unit: nat :: DataShows(u[0].data, t, unit) <==> exists o: nat :: ListOwns(EntsOf(e.data), t, o) && unitOf(o) == unit
  }

  /** The array stands for the slices. */
  ghost predicate Flat(q: seq<Entry>, m: seq<UmapEntry>, unitOf: nat -> nat) {
    forall x: nat, t: nat, unit: nat :: Shows(m, x, t, unit) <==> exists o: nat :: Owns(q, x, t, o) && unitOf(o) == unit
  }

  /** The slices up to `i` have been flattened. */
  ghost predicate Flattening(q: seq<Entry>, i: nat, m: seq<UmapEntry>, unitOf: nat -> nat)
    requires i <= |q|
  {
    && UmapOk(m) && Flat(q[..i], m, unitOf)
    && (i < |q| ==> forall k :: 0 <= k < |m| ==> m[k].max < q[i].slice.begin)
  }

  lemma FlatteningStep(q: seq<Entry>, i: nat, m: seq<UmapEntry>, u: seq<UmapEntry>, unitOf: nat -> nat)
    requires Tiles(InetOps, q, 0, LastKey(InetOps)) && i < |q| && Flattening(q, i, m, unitOf) && EntryFor(q[i], u, unitOf)
    ensures Flattening(q, i + 1, m + u, unitOf)
  {
    assert q[i].slice.end != 0 && q[i].slice.begin <= q[i].slice.end;
    assert q[..i + 1] == q[..i] + [q[i]];
    forall x: nat, t: nat, unit: nat
      ensures Shows(m + u, x, t, unit) <==> exists o: nat :: Owns(q[..i + 1], x, t, o) && unitOf(o) == unit
    {
      ShowsStep(q, i, m, u, unitOf, x, t, unit);
    }
  }

  lemma ShowsStep(q: seq<Entry>, i: nat, m: seq<UmapEntry>, u: seq<UmapEntry>, unitOf: nat -> nat, x: nat, t: nat, unit: nat)
    requires i < |q| && Flat(q[..i], m, unitOf) && EntryFor(q[i], u, unitOf) && q[i].slice.end != 0
    ensures Shows(m + u, x, t, unit) <==> exists o: nat :: Owns(q[..i + 1], x, t, o) && unitOf(o) == unit
  {
    assert q[..i + 1] == q[..i] + [q[i]];
    assert Shows(m + u, x, t, unit) <==> Shows(m, x, t, unit) || Shows(u, x, t, unit);
    assert !IsNull(q[i]) ==> u == [u[0]];
    assert Shows(u, x, t, unit) <==> In(q[i].slice, x) && exists o: nat :: ListOwns(EntsOf(q[i].data), t, o) && unitOf(o) == unit;
    forall o: nat
      ensures Owns(q[..i + 1], x, t, o) <==> Owns(q[..i], x, t, o) || (In(q[i].slice, x) && ListOwns(EntsOf(q[i].data), t, o))
    {
      OwnsConcat(q[..i], [q[i]], x, t, o);
      OwnsOne(q[i], x, t, o);
    }
  }

  /** `umap_init`: appends the entries of all slices that have intervals. */
  method Init(g: Map, unitOf: nat -> nat) returns (m: seq<UmapEntry>)
    requires g.Inv() && g.slicer.ops == InetOps && g.slicer.store.ops == TimeOps
    ensures UmapOk(m) && Flat(g.slicer.queue, m, unitOf)
  {
    g.slicer.InvParts(None);
    m := [];
    for i := 0 to |g.slicer.queue|
      invariant Flattening(g.slicer.queue, i, m, unitOf)
    {
      ghost var u := [];
      ghost var m0 := m;
      var cells := CellsOf(g.slicer.queue[i].data);
      if cells != [] {
        var data := GetData(cells, unitOf);
        u := [UmapEntry(data, g.slicer.queue[i].slice.begin, g.slicer.queue[i].slice.end)];
        m := m + [UmapEntry(data, g.slicer.queue[i].slice.begin, g.slicer.queue[i].slice.end)];
      }
      FlatteningStep(g.slicer.queue, i, m0, u, unitOf);
    }
    assert g.slicer.queue[..|g.slicer.queue|] == g.slicer.queue;
  }

  /** `mbb_umap_create`: the flattened form of the global map, NULL when it has no owner at all.
      A slicer whose counter is 0 has no slice with data. */
  method Create(g: Map, unitOf: nat -> nat) returns (r: Option<seq<UmapEntry>>)
    requires g.Inv() && g.slicer.ops == InetOps && g.slicer.store.ops == TimeOps
    ensures r.Some? ==> UmapOk(r.value) && Flat(g.slicer.queue, r.value, unitOf) && r.value != []
    ensures r.None? <==> Vacant(g.slicer.queue)
  {
    if g.slicer.count == 0 {
      g.slicer.InvParts(None);
      NothingCounted(g.slicer.queue);
      return None;
    }
    var m := Init(g, unitOf);
    FlatEmpty(g.slicer.queue, m, unitOf);
    r := if m == [] then None else Some(m);
  }

  /** No point has an owner. */
  ghost predicate Vacant(q: seq<Entry>) {
    forall x: nat, y: nat, o: nat :: !Owns(q, x, y, o)
  }

  lemma FlatEmpty(q: seq<Entry>, m: seq<UmapEntry>, unitOf: nat -> nat)
    requires UmapOk(m) && Flat(q, m, unitOf)
    ensures m == [] <==> Vacant(q)
  {
    if m == [] {
      forall x: nat, t: nat, o: nat
        ensures !Owns(q, x, t, o)
      {
        assert !Shows(m, x, t, unitOf(o));
      }
    } else {
      var d := m[0].data[0];
      assert m[0] in m && d in m[0].data && During(d, d.min);
      assert DataShows(m[0].data, d.min, d.unit);
      assert Shows(m, m[0].min, d.min, d.unit);
    }
  }

  lemma NothingCounted(q: seq<Entry>)
    requires NonNull(q) == 0
    ensures Vacant(q)
  {
    forall e | e in q
      ensures e.data.Null?
    {
      var i :| 0 <= i < |q| && q[i] == e;
      HeldInExchanged(q, i, []);
    }
  }

  /** `mbb_umap_from_unit`: the flattened form of one unit's map, by way of an address map of its own. */
  method FromUnit(u: Map, unitOf: nat -> nat) returns (r: Option<seq<UmapEntry>>)
    requires u.Inv() && u.slicer.ops == TimeOps && UnitMap(u.slicer.queue)
    ensures r.Some? ==> UmapOk(r.value) && r.value != []
    ensures r.Some? ==> forall x: nat, t: nat, unit: nat ::
      Shows(r.value, x, t, unit) <==> exists o: nat :: u.Owner(t, x, o) && unitOf(o) == unit
    ensures r.None? <==> Vacant(u.slicer.queue)
  {
    if u.slicer.count == 0 {
      u.slicer.InvParts(None);
      NothingCounted(u.slicer.queue);
      return None;
    }
    var addresses := new Map(InetOps, false);
    var ok, cross := AddMap(addresses, u);
    if !ok {
      assert false;     // no two rectangles of a unit map cross
    }
    var m := Init(addresses, unitOf);
    FlatEmpty(addresses.slicer.queue, m, unitOf);
    FlatTransposed(u.slicer.queue, addresses.slicer.queue, m, unitOf);
    r := if m == [] then None else Some(m);
  }

  lemma FlatTransposed(u: seq<Entry>, g: seq<Entry>, m: seq<UmapEntry>, unitOf: nat -> nat)
    requires Flat(g, m, unitOf) && forall x: nat, t: nat, o: nat :: Owns(g, x, t, o) <==> Owns(u, t, x, o)
    ensures forall x: nat, t: nat, unit: nat :: Shows(m, x, t, unit) <==> exists o: nat :: Owns(u, t, x, o) && unitOf(o) == unit
  {
    forall x: nat, t: nat, unit: nat
      ensures Shows(m, x, t, unit) <==> exists o: nat :: Owns(u, t, x, o) && unitOf(o) == unit
    {
      if Shows(m, x, t, unit) {
        var o: nat :| Owns(g, x, t, o) && unitOf(o) == unit;
        assert Owns(u, t, x, o);
      }
      if o: nat :| Owns(u, t, x, o) && unitOf(o) == unit {
        assert Owns(g, x, t, o);
      }
    }
  }

  /** What `mbb_umap_find` and `map_find` return, when the flattened map shows at a point what the
      map `q` has at its point: the unit of the owner, or NULL both times. */
  lemma AnswersAgree(q: seq<Entry>, k: nat, l: nat, m: seq<UmapEntry>, unitOf: nat -> nat, x: nat, t: nat, a: Option<nat>, b: Option<nat>)
    requires forall unit: nat :: Shows(m, x, t, unit) <==> exists o: nat :: Owns(q, k, l, o) && unitOf(o) == unit
    requires forall unit: nat :: a == Some(unit) <==> Shows(m, x, t, unit)
    requires forall o: nat :: b == Some(o) <==> Owns(q, k, l, o)
    ensures a == if b.Some? then Some(unitOf(b.value)) else None
  {
    if b.Some? {
      assert Owns(q, k, l, b.value);
      assert Shows(m, x, t, unitOf(b.value));
    }
    assert forall o: nat :: Owns(q, k, l, o) ==> b == Some(o);
  }

  /** `mbb_umap_create` and `mbb_umap_find` find the unit of the owner that `map_find` finds in the
      global map, and nothing where it finds none. */
  method FindBoth(g: Map, unitOf: nat -> nat, x: nat, t: nat) returns (a: Option<nat>, b: Option<nat>)
    requires g.Inv() && g.slicer.ops == InetOps && g.slicer.store.ops == TimeOps && x <= Top(InetOps) && t <= Top(TimeOps)
    ensures forall o: nat :: b == Some(o) <==> g.Owner(x, t, o)
    ensures a == if b.Some? then Some(unitOf(b.value)) else None
  {
    b := g.Find(x, t);
    a := None;
    var m := Create(g, unitOf);
    if m.Some? {
      a := Find(m.value, x, t);
      AnswersAgree(g.slicer.queue, x, t, m.value, unitOf, x, t, a, b);
    }
  }

  /** The same for `mbb_umap_from_unit` and the map of a unit. */
  method FindBothInUnit(u: Map, unitOf: nat -> nat, x: nat, t: nat) returns (a: Option<nat>, b: Option<nat>)
    requires u.Inv() && u.slicer.ops == TimeOps && u.slicer.store.ops == InetOps && UnitMap(u.slicer.queue)
    requires x <= Top(InetOps) && t <= Top(TimeOps)
    ensures forall o: nat :: b == Some(o) <==> u.Owner(t, x, o)
    ensures a == if b.Some? then Some(unitOf(b.value)) else None
  {
    b := u.Find(t, x);
    a := None;
    var m := FromUnit(u, unitOf);
    if m.Some? {
      a := Find(m.value, x, t);
      AnswersAgree(u.slicer.queue, t, x, m.value, unitOf, x, t, a, b);
    }
  }
}
