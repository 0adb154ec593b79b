/** The global map from addresses to times of `mbbinetmap.c`: mapping and unmapping units. */
module InetMaps {
  import opened Slices
  import opened MapData
  import opened MapStore
  import opened Tiling
  import opened Slicers
  import opened Maps
  import opened Transposition

  lemma TimesStep(list: seq<Node>, i: nat)
    requires i < |list|
    ensures forall n :: Times(list[i..], n) == Is(list[i] == n) + Times(list[i + 1..], n)
  {
    assert list[i..][1..] == list[i + 1..];
  }

  /** Without nodes of a pool entry there are no points that it owns. */
  lemma OwnerGone(q: seq<Entry>, o: nat)
    requires forall n :: NodesIn(q, Mark(o, n)) == 0
    ensures forall x: nat, y: nat :: !Owns(q, x, y, o)
    ensures forall e :: e in q ==> OwnerFree(EntsOf(e.data), o)
  {
    forall e, c | e in q && c in EntsOf(e.data)
      ensures c.owner != o
    {
      var i :| 0 <= i < |q| && q[i] == e;
      var j :| 0 <= j < |CellsOf(e.data)| && EntsOf(e.data)[j] == c;
      TakenHeld(q, i, j);
      var m := MarkOf(e.data.id, e.data.cells[j]);
      assert m == Mark(m.owner, m.node) && NodesIn(q, m) > 0;
    }
  }

  /** Some of the nodes of `o` are gone; those in `list` are still there. */
  ghost predicate HalfGone(q: seq<Entry>, r: seq<Entry>, o: nat, list: seq<Node>) {
    && (forall m :: NodesIn(r, m) == if m.owner == o then Times(list, m.node) else NodesIn(q, m))
    && OthersSame(q, r, o)
    && NonNull(r) == NonNull(q)
  }

  /** Only `o` may have lost points. */
  ghost predicate OthersSame(q: seq<Entry>, r: seq<Entry>, o: nat) {
    && (forall x: nat, y: nat, p: nat :: Owns(r, x, y, p) ==> Owns(q, x, y, p))
    && (forall x: nat, y: nat, p: nat :: p != o && Owns(q, x, y, p) ==> Owns(r, x, y, p))
  }

  lemma HalfGoneStep(q: seq<Entry>, r: seq<Entry>, r': seq<Entry>, o: nat, list: seq<Node>, i: nat)
    requires i < |list| && HalfGone(q, r, o, list[i..]) && Taken(r, r', Mark(o, list[i]))
    ensures HalfGone(q, r', o, list[i + 1..])
  {
    TimesStep(list, i);
  }

  lemma IndexCleared(index: map<nat, seq<Node>>, next: nat, q: seq<Entry>, r: seq<Entry>, o: nat)
    requires BackIndexed(index, q) && Unique(index, next) && HalfGone(q, r, o, [])
    ensures BackIndexed(index[o := []], r) && NodesBooked(index[o := []], r) && Unique(index[o := []], next)
  {
    var to := index[o := []];
    forall m
      ensures NodeCount(to, m) == if m.owner == o then 0 else NodeCount(index, m)
    {
    }
    UniqueDel(index, to, next);
    forall m
      ensures Surplus(to, r, m) == 0
    {
      assert Surplus(index, q, m) == 0;
    }
  }

  /** `mbb_map_del_inet`: takes all links of a pool entry out of the map, through its node list. */
  method DelInet(g: Map, o: nat)
    requires g.Inv() && g.slicer.store.tracked && BackIndexed(g.slicer.store.index, g.slicer.queue)
    modifies g.slicer, g.slicer.store
    ensures g.Inv() && BackIndexed(g.slicer.store.index, g.slicer.queue)
    ensures OthersSame(old(g.slicer.queue), g.slicer.queue, o)
    ensures forall x: nat, y: nat :: !Owns(g.slicer.queue, x, y, o)
    ensures forall e :: e in g.slicer.queue ==> OwnerFree(EntsOf(e.data), o)
    ensures NonNull(g.slicer.queue) == NonNull(old(g.slicer.queue)) && g.slicer.count == old(g.slicer.count)
    ensures NodeList(g.slicer.store.index, o) == []
  {
    ghost var q := g.slicer.queue;
    var list := NodeList(g.slicer.store.index, o);
    assert list[0..] == list;
    HalfGoneStart(g.slicer.store.index, q, o);
    for i := 0 to |list|
      invariant g.Inv() && HalfGone(q, g.slicer.queue, o, list[i..])
      invariant g.slicer.store.index == old(g.slicer.store.index) && g.slicer.count == old(g.slicer.count)
    {
      ghost var r := g.slicer.queue;
      TimesStep(list, i);
      assert NodesIn(r, Mark(o, list[i])) > 0;
      g.NodeRemove(list[i], o);
      HalfGoneStep(q, r, g.slicer.queue, o, list, i);
    }
    ClearIndex(g, q, o);
    OwnerGone(g.slicer.queue, o);
  }

  lemma HalfGoneStart(index: map<nat, seq<Node>>, q: seq<Entry>, o: nat)
    requires BackIndexed(index, q)
    ensures HalfGone(q, q, o, NodeList(index, o))
  {
    forall m
      ensures NodesIn(q, m) == if m.owner == o then Times(NodeList(index, o), m.node) else NodesIn(q, m)
    {
      assert Surplus(index, q, m) == 0;
    }
  }

  method ClearIndex(g: Map, ghost q: seq<Entry>, o: nat)
    requires g.Inv() && BackIndexed(g.slicer.store.index, q) && HalfGone(q, g.slicer.queue, o, [])
    modifies g.slicer.store`index
    ensures g.Inv() && BackIndexed(g.slicer.store.index, g.slicer.queue)
    ensures NodeList(g.slicer.store.index, o) == []
  {
    g.slicer.InvParts(None);
    IndexCleared(g.slicer.store.index, g.slicer.store.next, q, g.slicer.queue, o);
    g.slicer.store.index := g.slicer.store.index[o := []];
    g.slicer.InvIntro(None);
  }

  // ---------------------------------------------------------------- mapping a unit

  ghost predicate Indexed(g: Map)
    reads g, g.slicer, g.slicer.store
  {
    g.slicer.store.tracked ==> BackIndexed(g.slicer.store.index, g.slicer.queue)
  }

  /** What `map_add_map` of the unit map `u` makes of the global map. */
  ghost predicate MapAdded(u: seq<Entry>, g0: seq<Entry>, ok: bool, cross: Crossing, g: seq<Entry>) {
    && (ok <==> !Clashes(u, g0)) && (ok <==> !cross.found)
    && (ok ==> Transposed(u, g0, g))
    && (!ok ==> PartlyTransposed(u, g0, g) && ClashesWith(u, g0, cross.owner))
  }

  /** The walk has come to interval `j` of slice `i`; `kept` says that the back-index is exact and
      will remain so. */
  ghost predicate Walking(g: Map, u: seq<Entry>, i: nat, j: nat, g0: seq<Entry>, kept: bool)
    requires i <= |u| && (i < |u| ==> j <= |EntsOf(u[i].data)|)
    reads g, g.slicer, g.slicer.store
  {
    && g.Inv() && g.slicer.ops == InetOps && g.slicer.store.ops == TimeOps
    && Mapped(u, i, j, g0, g.slicer.queue)
    && (kept ==> Indexed(g) && Unmapped(u, g0))
  }

  /** The walk has been stopped by a crossing. */
  ghost predicate Stopped(g: Map, u: seq<Entry>, g0: seq<Entry>, kept: bool, cross: Crossing)
    reads g, g.slicer, g.slicer.store
  {
    && g.Inv() && (kept ==> Indexed(g))
    && PartlyTransposed(u, g0, g.slicer.queue) && ClashesWith(u, g0, cross.owner)
  }

  /** The walk has come to interval `j` of slice `i`, or has been stopped; see `Slices.Open`. */
  ghost predicate Walked(g: Map, u: seq<Entry>, i: nat, j: nat, g0: seq<Entry>, kept: bool, cross: Crossing)
    requires i <= |u| && (i < |u| ==> j <= |EntsOf(u[i].data)|)
    reads g, g.slicer, g.slicer.store
  {
    forall k {:trigger Open(k)} :: Open(k) ==>
      UnitMap(u) && if cross.found then Stopped(g, u, g0, kept, cross) else Walking(g, u, i, j, g0, kept)
  }

  const NoCrossing := Crossing(false, Slice(0, 0), 0)

  /** One call of `map_add` in the walk. */
  method AddRectangle(g: Map, ghost u: seq<Entry>, ghost i: nat, ghost j: nat, c: Ent, dkey: Slice, ghost g0: seq<Entry>, ghost kept: bool)
    returns (cross: Crossing)
    requires i < |u| && j < |EntsOf(u[i].data)| && c == EntsOf(u[i].data)[j] && dkey == u[i].slice
    requires Walked(g, u, i, j, g0, kept, NoCrossing)
    modifies g.slicer, g.slicer.store
    ensures Walked(g, u, i, j + 1, g0, kept, cross)
  {
    assert Open(0);
    ghost var r := g.slicer.queue;
    assert u[i] in u && c in EntsOf(u[i].data);
    if kept {
      MappedNoBridge(u, i, j, g0, r);
    }
    cross := g.Add(c.slice, dkey, c.owner);
    if cross.found {
      MappedCrossed(u, i, j, g0, r, cross, g.slicer.queue);
    } else {
      assert Tiles(InetOps, g.slicer.queue, 0, LastKey(InetOps)) by {
        g.slicer.InvParts(None);
      }
      MappedNextCell(u, i, j, g0, r, cross, g.slicer.queue);
    }
  }

  lemma WalkedOn(g: Map, u: seq<Entry>, i: nat, j: nat, g0: seq<Entry>, kept: bool, cross: Crossing)
    requires i <= |u| && (i < |u| ==> j <= |EntsOf(u[i].data)|) && Walked(g, u, i, j, g0, kept, cross) && !cross.found
    ensures Walked(g, u, i, j, g0, kept, NoCrossing)
  {
    assert Open(0);
  }

  /** A walk that has been stopped is stopped for all that would follow. */
  lemma WalkedStop(g: Map, u: seq<Entry>, i: nat, j: nat, k: nat, g0: seq<Entry>, kept: bool, cross: Crossing)
    requires i <= |u| && (i < |u| ==> j <= |EntsOf(u[i].data)|) && Walked(g, u, i, j, g0, kept, cross) && cross.found && k <= |u|
    ensures Walked(g, u, k, 0, g0, kept, cross)
  {
    assert Open(0);
  }

  lemma WalkedSlice(g: Map, u: seq<Entry>, i: nat, n: nat, g0: seq<Entry>, kept: bool)
    requires i < |u| && n == |EntsOf(u[i].data)| && Walked(g, u, i, n, g0, kept, NoCrossing)
    ensures Walked(g, u, i + 1, 0, g0, kept, NoCrossing)
  {
    assert Open(0);
    MappedNextSlice(u, i, g0, g.slicer.queue);
  }

  /** One turn of the inner loop. */
  method AddInterval(g: Map, ghost u: seq<Entry>, ghost i: nat, ghost j: nat, c: Ent, dkey: Slice, ghost g0: seq<Entry>, ghost kept: bool)
    returns (cross: Crossing)
    requires i < |u| && j < |EntsOf(u[i].data)| && c == EntsOf(u[i].data)[j] && dkey == u[i].slice
    requires Walked(g, u, i, j, g0, kept, NoCrossing)
    modifies g.slicer, g.slicer.store
    ensures if cross.found then Walked(g, u, i + 1, 0, g0, kept, cross) else Walked(g, u, i, j + 1, g0, kept, NoCrossing)
  {
    cross := AddRectangle(g, u, i, j, c, dkey, g0, kept);
    if cross.found {
      WalkedStop(g, u, i, j + 1, i + 1, g0, kept, cross);
    } else {
      WalkedOn(g, u, i, j + 1, g0, kept, cross);
    }
  }

  /** The walk has come to the interval `j`, or has left the slice; see `Slices.Open`. */
  ghost predicate InSlice(g: Map, u: seq<Entry>, i: nat, j: nat, g0: seq<Entry>, kept: bool, cross: Crossing)
    reads g, g.slicer, g.slicer.store
  {
    i < |u| && j <= |EntsOf(u[i].data)| && if cross.found then Walked(g, u, i + 1, 0, g0, kept, cross) else Walked(g, u, i, j, g0, kept, NoCrossing)
  }

  method AddNext(g: Map, ghost u: seq<Entry>, ghost i: nat, cells: seq<Cell>, j: nat, dkey: Slice, ghost g0: seq<Entry>, ghost kept: bool)
    returns (cross: Crossing)
    requires InSlice(g, u, i, j, g0, kept, NoCrossing) && cells == CellsOf(u[i].data) && j < |cells| && dkey == u[i].slice
    modifies g.slicer, g.slicer.store
    ensures InSlice(g, u, i, j + 1, g0, kept, cross)
  {
    assert EntsOf(u[i].data)[j] == cells[j].ent;
    cross := AddInterval(g, u, i, j, cells[j].ent, dkey, g0, kept);
  }

  /** The inner loop of `map_add_map`: the intervals of one time slice. */
  method AddSlice(g: Map, ghost u: seq<Entry>, ghost i: nat, cells: seq<Cell>, dkey: Slice, ghost g0: seq<Entry>, ghost kept: bool)
    returns (cross: Crossing)
    requires i < |u| && cells == CellsOf(u[i].data) && dkey == u[i].slice
    requires Walked(g, u, i, 0, g0, kept, NoCrossing)
    modifies g.slicer, g.slicer.store
    ensures Walked(g, u, i + 1, 0, g0, kept, cross)
  {
    for j := 0 to |cells|
      invariant InSlice(g, u, i, j, g0, kept, NoCrossing)
    {
      cross := AddNext(g, u, i, cells, j, dkey, g0, kept);
      if cross.found {
        return;
      }
    }
    cross := NoCrossing;
    WalkedSlice(g, u, i, |cells|, g0, kept);
  }

  /** The outer loop of `map_add_map`: the time slices in ascending order. */
  method AddSlices(g: Map, u: Map, ghost g0: seq<Entry>, ghost kept: bool) returns (cross: Crossing)
    requires u.slicer != g.slicer && Walked(g, u.slicer.queue, 0, 0, g0, kept, NoCrossing)
    requires u.slicer.queue != []
    modifies g.slicer, g.slicer.store
    ensures Walked(g, u.slicer.queue, |u.slicer.queue|, 0, g0, kept, cross)
  {
    ghost var q := u.slicer.queue;
    for i := 0 to |u.slicer.queue|
      invariant u.slicer.queue == q && Walked(g, q, i, 0, g0, kept, NoCrossing)
    {
      cross := AddSlice(g, q, i, CellsOf(u.slicer.queue[i].data), u.slicer.queue[i].slice, g0, kept);
      if cross.found {
        WalkedStop(g, q, i + 1, 0, |q|, g0, kept, cross);
        return;
      }
      WalkedOn(g, q, i + 1, 0, g0, kept, cross);
    }
    cross := NoCrossing;
  }

  /** `map_add_map`: adds the rectangles of a unit map, in the order of times, until one crosses. */
  method AddMap(g: Map, u: Map) returns (ok: bool, cross: Crossing)
    requires g.Inv() && g.slicer.ops == InetOps && g.slicer.store.ops == TimeOps && u.slicer.ops == TimeOps
    requires UnitMap(u.slicer.queue)
    modifies g.slicer, g.slicer.store
    ensures g.Inv() && MapAdded(u.slicer.queue, old(g.slicer.queue), ok, cross, g.slicer.queue)
    ensures old(Indexed(g)) && Unmapped(u.slicer.queue, old(g.slicer.queue)) ==> Indexed(g)
  {
    ghost var q, g0 := u.slicer.queue, g.slicer.queue;
    ghost var kept := Indexed(g) && Unmapped(q, g0);
    MappedStart(q, g0);
    cross := AddSlices(g, u, g0, kept);
    ok := !cross.found;
    WalkedWhole(g, q, g0, kept, cross);
  }

  lemma WalkedWhole(g: Map, u: seq<Entry>, g0: seq<Entry>, kept: bool, cross: Crossing)
    requires Walked(g, u, |u|, 0, g0, kept, cross)
    ensures g.Inv() && MapAdded(u, g0, !cross.found, cross, g.slicer.queue)
    ensures kept ==> Indexed(g)
  {
    assert Open(0);
    if cross.found {
      ClashSeen(u, g0, cross.owner);
    } else {
      MappedWhole(u, g0, g.slicer.queue);
    }
  }

  lemma ClashSeen(u: seq<Entry>, g0: seq<Entry>, owner: nat)
    requires ClashesWith(u, g0, owner)
    ensures Clashes(u, g0)
  {
  }

  // ---------------------------------------------------------------- units

  /** The global map: addresses to times, with a back-index that is exact. */
  ghost predicate Global(g: Map)
    reads g, g.slicer, g.slicer.store
  {
    && g.Inv() && g.slicer.ops == InetOps && g.slicer.store.ops == TimeOps
    && g.slicer.store.tracked && Indexed(g)
  }

  /** From `q` to `r` the pool entries in `sep` lose all their points and the others none. */
  ghost predicate UnitGone(sep: seq<nat>, q: seq<Entry>, r: seq<Entry>) {
    forall x: nat, y: nat, p: nat :: Owns(r, x, y, p) <==> Owns(q, x, y, p) && p !in sep
  }

  /** The owners in the map of a unit are pool entries of that unit. */
  ghost predicate UnitOwned(u: seq<Entry>, sep: seq<nat>) {
    forall e, c :: e in u && c in EntsOf(e.data) ==> c.owner in sep
  }

  /** No pool entry of the unit has a point. */
  ghost predicate UnitAbsent(sep: seq<nat>, q: seq<Entry>) {
    forall x: nat, y: nat, p: nat :: p in sep ==> !Owns(q, x, y, p)
  }

  /** What `mbb_map_add_unit` makes of the global map: all of the unit's rectangles or no change. */
  ghost predicate UnitAdded(u: seq<Entry>, sep: seq<nat>, q: seq<Entry>, ok: bool, cross: Crossing, r: seq<Entry>) {
    && (ok <==> !Clashes(u, q)) && (ok <==> !cross.found)
    && (ok ==> Transposed(u, q, r))
    && (!ok ==> ClashesWith(u, q, cross.owner) && cross.owner !in sep)
    && (!ok ==> forall x: nat, y: nat, p: nat :: Owns(r, x, y, p) <==> Owns(q, x, y, p))
  }

  lemma UnitRolledBack(u: seq<Entry>, sep: seq<nat>, q: seq<Entry>, cross: Crossing, r: seq<Entry>, r': seq<Entry>)
    requires UnitOwned(u, sep) && UnitAbsent(sep, q)
    requires MapAdded(u, q, false, cross, r) && UnitGone(sep, r, r')
    ensures UnitAdded(u, sep, q, false, cross, r')
  {
    forall x: nat, y: nat, p: nat
      ensures Owns(r', x, y, p) <==> Owns(q, x, y, p)
      ensures Owns(u, y, x, p) ==> p in sep
    {
    }
  }

  lemma UnitGoneStep(sep: seq<nat>, k: nat, q: seq<Entry>, r: seq<Entry>, r': seq<Entry>)
    requires k < |sep| && UnitGone(sep[..k], q, r) && OthersSame(r, r', sep[k])
    requires forall x: nat, y: nat :: !Owns(r', x, y, sep[k])
    ensures UnitGone(sep[..k + 1], q, r')
  {
    assert sep[..k + 1] == sep[..k] + [sep[k]];
  }

  /** `mbb_map_del_unit`: takes all entries of a unit out of the global map. */
  method DelUnit(g: Map, sep: seq<nat>)
    requires Global(g)
    modifies g.slicer, g.slicer.store
    ensures Global(g) && UnitGone(sep, old(g.slicer.queue), g.slicer.queue)
  {
    ghost var q := g.slicer.queue;
    for k := 0 to |sep|
      invariant Global(g) && UnitGone(sep[..k], q, g.slicer.queue)
    {
      ghost var r := g.slicer.queue;
      DelInet(g, sep[k]);
      UnitGoneStep(sep, k, q, r, g.slicer.queue);
    }
    assert sep[..|sep|] == sep;
  }

  /** `mbb_map_add_unit`: maps a unit that is not mapped, or rolls back. */
  method AddUnit(g: Map, u: Map, sep: seq<nat>) returns (ok: bool, cross: Crossing)
    requires Global(g) && u.slicer.ops == TimeOps && UnitMap(u.slicer.queue)
    requires UnitOwned(u.slicer.queue, sep) && UnitAbsent(sep, g.slicer.queue)
    modifies g.slicer, g.slicer.store
    ensures Global(g) && UnitAdded(u.slicer.queue, sep, old(g.slicer.queue), ok, cross, g.slicer.queue)
  {
    ghost var q, g0 := u.slicer.queue, g.slicer.queue;
    ok, cross := AddMap(g, u);
    if !ok {
      ghost var r := g.slicer.queue;
      DelUnit(g, sep);
      UnitRolledBack(q, sep, g0, cross, r, g.slicer.queue);
    }
  }

  /** `map_add_unit`: the handler unmaps the unit first, so it may be mapped already. Its answer names
      an entry of another unit that has a point of this one. */
  method RemapUnit(g: Map, u: Map, sep: seq<nat>, autoGlue: bool) returns (ok: bool, cross: Crossing)
    requires Global(g) && u.slicer.ops == TimeOps && UnitMap(u.slicer.queue) && UnitOwned(u.slicer.queue, sep)
    modifies g.slicer, g.slicer.store
    ensures Global(g)
    ensures ok <==> forall x: nat, t: nat, o: nat, p: nat :: Owns(u.slicer.queue, t, x, o) && Owns(old(g.slicer.queue), x, t, p) ==> p in sep
    ensures cross.found <==> !ok
    ensures !ok ==> cross.owner !in sep && ClashesWith(u.slicer.queue, old(g.slicer.queue), cross.owner)
    ensures !ok && autoGlue ==> NoPair(g.slicer.queue)
    ensures forall x: nat, t: nat, o: nat ::
      Owns(g.slicer.queue, x, t, o) <==> (Owns(old(g.slicer.queue), x, t, o) && o !in sep) || (ok && Owns(u.slicer.queue, t, x, o))
  {
    ghost var q, g0 := u.slicer.queue, g.slicer.queue;
    DelUnit(g, sep);
    ghost var g1 := g.slicer.queue;
    ok, cross := AddUnit(g, u, sep);
    if !ok {
      ghost var g2 := g.slicer.queue;
      DelUnit(g, sep);
      ghost var g3 := g.slicer.queue;
      if autoGlue {
        GlueMap(g);
        SameFullOwns(g3, g.slicer.queue);
      }
    }
  }

  /** `map_glue_null` on the global map. */
  method GlueMap(g: Map)
    requires Global(g)
    modifies g.slicer, g.slicer.store
    ensures Global(g) && NoPair(g.slicer.queue) && SameFull(old(g.slicer.queue), g.slicer.queue)
  {
    g.slicer.GlueNull(None);
  }

  /** A node stands for a link, and a link for at least one point. */
  lemma NodePoint(ops: Ops, dops: Ops, index: map<nat, seq<Node>>, q: seq<Entry>, o: nat)
    requires BackIndexed(index, q) && Tiles(ops, q, 0, LastKey(ops)) && Lists(dops, q) && NodeList(index, o) != []
    ensures exists x: nat, y: nat :: Owns(q, x, y, o)
  {
    var m := Mark(o, NodeList(index, o)[0]);
    assert Surplus(index, q, m) == 0 && NodeCount(index, m) > 0;
    var i, j := NodeFound(q, m);
    var c := EntsOf(q[i].data)[j];
    assert c == q[i].data.cells[j].ent && q[i] in q && c in EntsOf(q[i].data);
    assert c.owner == o && In(c.slice, c.slice.begin) && In(q[i].slice, q[i].slice.begin);
    assert ListOwns(EntsOf(q[i].data), c.slice.begin, o);
    assert Owns(q, q[i].slice.begin, c.slice.begin, o);
  }

  lemma NoNodePoint(index: map<nat, seq<Node>>, q: seq<Entry>, o: nat)
    requires BackIndexed(index, q) && NodeList(index, o) == []
    ensures forall x: nat, y: nat :: !Owns(q, x, y, o)
  {
    forall n
      ensures NodesIn(q, Mark(o, n)) == 0
    {
      assert Surplus(index, q, Mark(o, n)) == 0;
    }
    OwnerGone(q, o);
  }

  /** `mbb_unit_mapped`: the node lists of its pool entries tell whether a unit has a point. */
  method UnitMapped(g: Map, sep: seq<nat>) returns (r: bool)
    requires Global(g)
    ensures r <==> !UnitAbsent(sep, g.slicer.queue)
  {
    g.slicer.InvParts(None);
    r := false;
    for k := 0 to |sep|
      invariant UnitAbsent(sep[..k], g.slicer.queue)
    {
      if NodeList(g.slicer.store.index, sep[k]) != [] {
        NodePoint(g.slicer.ops, g.slicer.store.ops, g.slicer.store.index, g.slicer.queue, sep[k]);
        return true;
      }
      NoNodePoint(g.slicer.store.index, g.slicer.queue, sep[k]);
      assert sep[..k + 1] == sep[..k] + [sep[k]];
    }
    assert sep[..|sep|] == sep;
  }

  /** The books of the global map: each map entry has as many references as links, and each pool
      entry has exactly one node for every link that carries it, and no other. */
  lemma MapBooks(g: Map)
    requires Global(g)
    ensures forall r: nat :: RefCount(g.slicer.store.refs, r) == RecsIn(g.slicer.queue, r)
    ensures forall o: nat, n: Node :: Times(NodeList(g.slicer.store.index, o), n) == NodesIn(g.slicer.queue, Mark(o, n)) <= 1
  {
    g.slicer.InvParts(None);
    BooksOpened(g.slicer.store.refs, g.slicer.store.index, g.slicer.store.next, g.slicer.queue);
  }

  lemma BooksOpened(refs: map<nat, nat>, index: map<nat, seq<Node>>, next: nat, q: seq<Entry>)
    requires RefsBooked(refs, q, None) && BackIndexed(index, q) && Unique(index, next)
    ensures forall r: nat :: RefCount(refs, r) == RecsIn(q, r)
    ensures forall o: nat, n: Node :: Times(NodeList(index, o), n) == NodesIn(q, Mark(o, n)) <= 1
  {
    assert Open(0);
    forall o: nat, n: Node
      ensures Times(NodeList(index, o), n) == NodesIn(q, Mark(o, n)) <= 1
    {
      assert Surplus(index, q, Mark(o, n)) == 0;
    }
  }
}
