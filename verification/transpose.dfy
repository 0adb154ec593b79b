/** Transposing a unit's map from times to addresses into a map from addresses to times: what the
rectangles added so far are, and what adding the next one means.
 */
module Transposition {
  import opened Slices
  import opened MapData
  import opened MapStore
  import opened Tiling
  import opened Slicers
  import opened Maps

  /** A map from times to addresses that `map_add_map` can walk. An interval that begins at address
      1 cannot be a key, see `Slices.CutSafe`. */
  ghost predicate UnitMap(u: seq<Entry>) {
    && Tiles(TimeOps, u, 0, LastKey(TimeOps)) && Lists(InetOps, u)
    && forall e, c :: e in u && c in EntsOf(e.data) ==> c.slice.begin != 1
  }

  /** The owner `o` has the point in one of the rectangles before interval `j` of slice `i`. */
  ghost predicate Done(u: seq<Entry>, i: nat, j: nat, t: nat, x: nat, o: nat)
    requires i <= |u| && (i < |u| ==> j <= |EntsOf(u[i].data)|)
  {
    || Owns(u[..i], t, x, o)
    || (i < |u| && In(u[i].slice, t) && ListOwns(EntsOf(u[i].data)[..j], x, o))
  }

  lemma DoneNextCell(u: seq<Entry>, i: nat, j: nat, t: nat, x: nat, o: nat)
    requires i < |u| && j < |EntsOf(u[i].data)|
    ensures var c := EntsOf(u[i].data)[j];
      Done(u, i, j + 1, t, x, o) <==> Done(u, i, j, t, x, o) || (In(u[i].slice, t) && In(c.slice, x) && o == c.owner)
  {
    var ents := EntsOf(u[i].data);
    assert ents[..j + 1] == ents[..j] + [ents[j]];
    ListOwnsConcat(ents[..j], [ents[j]], x, o);
    assert ents[j] in [ents[j]];
  }

  lemma DoneNextSlice(u: seq<Entry>, i: nat, t: nat, x: nat, o: nat)
    requires i < |u|
    ensures Done(u, i + 1, 0, t, x, o) <==> Done(u, i, |EntsOf(u[i].data)|, t, x, o)
  {
    var ents := EntsOf(u[i].data);
    assert ents[..|ents|] == ents;
    assert u[..i + 1] == u[..i] + [u[i]];
    OwnsConcat(u[..i], [u[i]], t, x, o);
    OwnsOne(u[i], t, x, o);
    assert i + 1 < |u| ==> !ListOwns(EntsOf(u[i + 1].data)[..0], x, o);
  }

  /** The next rectangle has no point in common with those before it. */
  lemma DoneApart(u: seq<Entry>, i: nat, j: nat, t: nat, x: nat, o: nat)
    requires UnitMap(u) && i < |u| && j < |EntsOf(u[i].data)|
    requires In(u[i].slice, t) && In(EntsOf(u[i].data)[j].slice, x)
    ensures !Done(u, i, j, t, x, o)
  {
    forall e | e in u[..i]
      ensures !In(e.slice, t)
    {
      var k :| 0 <= k < i && u[k] == e;
      TilesBefore(TimeOps, u, 0, LastKey(TimeOps), k, i);
    }
    var ents := EntsOf(u[i].data);
    assert u[i] in u;
    forall c | c in ents[..j]
      ensures !In(c.slice, x)
    {
      var k :| 0 <= k < j && ents[k] == c;
      assert Before(ents[k].slice, ents[j].slice);
    }
  }

  /** Nothing done so far reaches beyond the time slice `i`. */
  lemma DoneNotLater(u: seq<Entry>, i: nat, j: nat, t: nat, x: nat, o: nat)
    requires UnitMap(u) && i < |u| && j <= |EntsOf(u[i].data)|
    requires u[i].slice.end != 0 && t == u[i].slice.end + 1
    ensures !Done(u, i, j, t, x, o)
  {
    forall e | e in u[..i]
      ensures !In(e.slice, t)
    {
      var k :| 0 <= k < i && u[k] == e;
      TilesBefore(TimeOps, u, 0, LastKey(TimeOps), k, i);
    }
  }

  /** From `g0` to `g` the rectangles before interval `j` of slice `i` have been added, none of
      which met a point of `g0`. */
  ghost predicate Mapped(u: seq<Entry>, i: nat, j: nat, g0: seq<Entry>, g: seq<Entry>)
    requires i <= |u| && (i < |u| ==> j <= |EntsOf(u[i].data)|)
  {
    forall k {:trigger Open(k)} :: Open(k) ==>
      && (forall x: nat, t: nat, o: nat :: Owns(g, x, t, o) <==> Owns(g0, x, t, o) || (OnAxis(InetOps, x) && Done(u, i, j, t, x, o)))
      && (forall x: nat, t: nat, o: nat, p: nat :: Done(u, i, j, t, x, o) ==> !Owns(g0, x, t, p))
  }

  lemma MappedStart(u: seq<Entry>, g0: seq<Entry>)
    requires |u| > 0
    ensures Mapped(u, 0, 0, g0, g0)
  {
    forall x: nat, t: nat, o: nat
      ensures !Done(u, 0, 0, t, x, o)
    {
    }
  }

  lemma MappedNextSlice(u: seq<Entry>, i: nat, g0: seq<Entry>, g: seq<Entry>)
    requires i < |u| && Mapped(u, i, |EntsOf(u[i].data)|, g0, g)
    ensures Mapped(u, i + 1, 0, g0, g)
  {
    assert Open(0);
    forall x: nat, t: nat, o: nat
      ensures Owns(g, x, t, o) <==> Owns(g0, x, t, o) || (OnAxis(InetOps, x) && Done(u, i + 1, 0, t, x, o))
    {
      DoneNextSlice(u, i, t, x, o);
    }
    forall x: nat, t: nat, o: nat, p: nat {:trigger Done(u, i + 1, 0, t, x, o), Owns(g0, x, t, p)} | Done(u, i + 1, 0, t, x, o)
      ensures !Owns(g0, x, t, p)
    {
      DoneNextSlice(u, i, t, x, o);
    }
  }

  /** The rectangle meets a point of `g` exactly when it meets one of `g0`. */
  lemma MappedCrosses(u: seq<Entry>, i: nat, j: nat, g0: seq<Entry>, g: seq<Entry>)
    requires UnitMap(u) && i < |u| && j < |EntsOf(u[i].data)| && Mapped(u, i, j, g0, g)
    ensures var c := EntsOf(u[i].data)[j];
      && (Crosses(c.slice, u[i].slice, g) <==> Crosses(c.slice, u[i].slice, g0))
      && (forall cross :: CrossedBy(c.slice, u[i].slice, g, cross) ==> CrossedBy(c.slice, u[i].slice, g0, cross))
  {
    assert Open(0);
    var c := EntsOf(u[i].data)[j];
    forall x: nat, t: nat, o: nat | In(u[i].slice, t) && In(c.slice, x)
      ensures Owns(g, x, t, o) <==> Owns(g0, x, t, o)
    {
      DoneApart(u, i, j, t, x, o);
    }
  }

  lemma MappedNextCell(u: seq<Entry>, i: nat, j: nat, g0: seq<Entry>, g: seq<Entry>, cross: Crossing, g': seq<Entry>)
    requires UnitMap(u) && i < |u| && j < |EntsOf(u[i].data)| && Mapped(u, i, j, g0, g)
    requires Tiles(InetOps, g', 0, LastKey(InetOps)) && !cross.found
    requires var c := EntsOf(u[i].data)[j]; AddPoints(InetOps, c.slice, u[i].slice, c.owner, cross, g, g')
    ensures Mapped(u, i, j + 1, g0, g')
  {
    MappedCrosses(u, i, j, g0, g);
    assert Open(0);
    var c := EntsOf(u[i].data)[j];
    assert !Crosses(c.slice, u[i].slice, g0);
    forall x: nat, t: nat, o: nat
      ensures Owns(g', x, t, o) <==> Owns(g0, x, t, o) || (OnAxis(InetOps, x) && Done(u, i, j + 1, t, x, o))
    {
      DoneNextCell(u, i, j, t, x, o);
      if Owns(g', x, t, o) {
        OwnsInside(InetOps, g', 0, LastKey(InetOps), x, t, o);
      }
      assert Rect(c.slice, u[i].slice, x, t) <==> In(u[i].slice, t) && In(c.slice, x);
    }
    forall x: nat, t: nat, o: nat, p: nat {:trigger Done(u, i, j + 1, t, x, o), Owns(g0, x, t, p)} | Done(u, i, j + 1, t, x, o)
      ensures !Owns(g0, x, t, p)
    {
      DoneNextCell(u, i, j, t, x, o);
    }
  }

  /** No owner of the unit map has a point of `g0` yet. */
  ghost predicate Unmapped(u: seq<Entry>, g0: seq<Entry>) {
    forall e, c, x: nat, t: nat :: e in u && c in EntsOf(e.data) ==> !Owns(g0, x, t, c.owner)
  }

  /** The order of the walk never bridges a gap: nothing later has been added yet. */
  lemma MappedNoBridge(u: seq<Entry>, i: nat, j: nat, g0: seq<Entry>, g: seq<Entry>)
    requires UnitMap(u) && i < |u| && j < |EntsOf(u[i].data)| && Mapped(u, i, j, g0, g) && Unmapped(u, g0)
    ensures var c := EntsOf(u[i].data)[j]; !BridgesAcross(c.slice, u[i].slice, c.owner, g)
  {
    assert Open(0);
    var c := EntsOf(u[i].data)[j];
    assert u[i] in u && c in EntsOf(u[i].data);
    forall x: nat, t: nat | u[i].slice.end != 0 && t == u[i].slice.end + 1
      ensures !Owns(g, x, t, c.owner)
    {
      DoneNotLater(u, i, j, t, x, c.owner);
    }
  }

  // ---------------------------------------------------------------- the whole walk

  lemma OnInetAxis(u: seq<Entry>, t: nat, x: nat, o: nat)
    requires UnitMap(u) && Owns(u, t, x, o)
    ensures OnAxis(InetOps, x)
  {
    var e :| e in u && In(e.slice, t) && ListOwns(EntsOf(e.data), x, o);
    var c :| c in EntsOf(e.data) && c.owner == o && In(c.slice, x);
  }

  /** Each rectangle of the unit map is one of the rectangles of the walk. */
  lemma DoneInside(u: seq<Entry>, i: nat, j: nat, t: nat, x: nat, o: nat)
    requires i < |u| && j < |EntsOf(u[i].data)|
    ensures Done(u, i, j, t, x, o) ==> Owns(u, t, x, o)
    ensures In(u[i].slice, t) && In(EntsOf(u[i].data)[j].slice, x) ==> Owns(u, t, x, EntsOf(u[i].data)[j].owner)
  {
    assert u == u[..i] + u[i..] && u[i] in u;
    OwnsConcat(u[..i], u[i..], t, x, o);
    var ents := EntsOf(u[i].data);
    assert ents == ents[..j] + ents[j..] && ents[j] in ents;
    ListOwnsConcat(ents[..j], ents[j..], x, o);
    assert In(ents[j].slice, x) ==> ListOwns(ents, x, ents[j].owner);
  }

  /** The two maps have an occupied point in common. */
  ghost predicate Clashes(u: seq<Entry>, g0: seq<Entry>) {
    exists x: nat, t: nat, o: nat, p: nat :: Owns(u, t, x, o) && Owns(g0, x, t, p)
  }

  /** A common point at which `owner` has `g0`. */
  ghost predicate ClashesWith(u: seq<Entry>, g0: seq<Entry>, owner: nat) {
    exists x: nat, t: nat, o: nat :: Owns(u, t, x, o) && Owns(g0, x, t, owner)
  }

  /** `g` has the points of `g0` and, transposed, those of `u`. */
  ghost predicate Transposed(u: seq<Entry>, g0: seq<Entry>, g: seq<Entry>) {
    forall x: nat, t: nat, o: nat :: Owns(g, x, t, o) <==> Owns(g0, x, t, o) || Owns(u, t, x, o)
  }

  /** `g` has the points of `g0` and some of those of `u`. */
  ghost predicate PartlyTransposed(u: seq<Entry>, g0: seq<Entry>, g: seq<Entry>) {
    && (forall x: nat, t: nat, o: nat :: Owns(g0, x, t, o) ==> Owns(g, x, t, o))
    && (forall x: nat, t: nat, o: nat :: Owns(g, x, t, o) ==> Owns(g0, x, t, o) || Owns(u, t, x, o))
  }

  lemma MappedWhole(u: seq<Entry>, g0: seq<Entry>, g: seq<Entry>)
    requires UnitMap(u) && Mapped(u, |u|, 0, g0, g)
    ensures Transposed(u, g0, g) && !Clashes(u, g0)
  {
    assert Open(0);
    assert u[..|u|] == u;
    forall x: nat, t: nat, o: nat
      ensures Done(u, |u|, 0, t, x, o) <==> Owns(u, t, x, o)
      ensures Owns(u, t, x, o) ==> OnAxis(InetOps, x)
    {
      if Owns(u, t, x, o) {
        OnInetAxis(u, t, x, o);
      }
    }
  }

  lemma MappedCrossed(u: seq<Entry>, i: nat, j: nat, g0: seq<Entry>, g: seq<Entry>, cross: Crossing, g': seq<Entry>)
    requires UnitMap(u) && i < |u| && j < |EntsOf(u[i].data)| && Mapped(u, i, j, g0, g) && cross.found
    requires var c := EntsOf(u[i].data)[j]; AddPoints(InetOps, c.slice, u[i].slice, c.owner, cross, g, g')
    ensures PartlyTransposed(u, g0, g') && ClashesWith(u, g0, cross.owner)
  {
    var c := EntsOf(u[i].data)[j];
    MappedCrosses(u, i, j, g0, g);
    var x0: nat, t0: nat :| Owns(g0, x0, t0, cross.owner) && In(c.slice, x0) && In(u[i].slice, t0);
    DoneInside(u, i, j, t0, x0, c.owner);
    assert Open(0);
    forall x: nat, t: nat, o: nat
      ensures Owns(g0, x, t, o) ==> Owns(g', x, t, o)
      ensures Owns(g', x, t, o) ==> Owns(g0, x, t, o) || Owns(u, t, x, o)
    {
      DoneInside(u, i, j, t, x, o);
    }
  }
}
