/** Reloading the whole map from the units, as the module `map_reload` does, and what the statistics
then find for an address and a time.
 */
module Reloads {
  import opened Slices
  import opened MapData
  import opened MapStore
  import opened Tiling
  import opened Slicers
  import opened Maps
  import opened Separators
  import opened InetMaps
  import opened Umaps
  import opened Units

  /** What a unit contributes: its entries in their order and its times. */
  datatype Plan = Plan(entries: seq<PoolEntry>, times: Times)

  function PlanOf(u: Unit): Plan
    reads u`start, u`end, u`consumer, u.sep
  {
    Plan(u.sep.queue, u.TimesOf())
  }

  ghost predicate Wins(p: Plan, t: nat, x: nat, o: nat) {
    Awarded(p.entries, p.times, t, x, o)
  }

  /** No entry of the unit contests another. */
  ghost predicate Consistent(p: Plan) {
    NoneContested(p.entries, p.times, |p.entries|)
  }

  ghost predicate Overlaps(a: Plan, b: Plan) {
    exists t: nat, x: nat, o: nat, p: nat :: Wins(a, t, x, o) && Wins(b, t, x, p)
  }

  /** A unit is mapped when it is consistent and overlaps none of the units mapped before it. */
  ghost predicate Accepted(ps: seq<Plan>, k: nat)
    requires k < |ps|
    decreases k
  {
    Consistent(ps[k]) && forall j :: 0 <= j < k && Accepted(ps, j) ==> !Overlaps(ps[j], ps[k])
  }

  /** One of the first `n` units is mapped and has the point through its entry `o`. */
  ghost predicate Served(ps: seq<Plan>, n: nat, x: nat, t: nat, o: nat)
    requires n <= |ps|
  {
    exists k: nat :: k < n && Accepted(ps, k) && Wins(ps[k], t, x, o)
  }

  /** The entries of all units have numbers of their own. */
  ghost predicate AllDistinct(ps: seq<Plan>) {
    forall j, k, o :: 0 <= j < k < |ps| && o in Ids(ps[j].entries) ==> o !in Ids(ps[k].entries)
  }

  /** The map serves the first `n` units; see `Slices.Open`. */
  ghost predicate Serving(ps: seq<Plan>, n: nat, q: seq<Entry>)
    requires n <= |ps|
  {
    forall k {:trigger Open(k)} :: Open(k) ==> forall x: nat, t: nat, o: nat :: Owns(q, x, t, o) <==> Served(ps, n, x, t, o)
  }

  lemma WinnerListed(p: Plan, t: nat, x: nat, o: nat)
    requires Wins(p, t, x, o)
    ensures o in Ids(p.entries)
  {
    AwardedId(p.entries, p.times, t, x, o);
    var k :| 0 <= k < |p.entries| && p.entries[k].id == o;
    assert Ids(p.entries)[k] == o;
  }

  lemma ServedEarlier(ps: seq<Plan>, n: nat, x: nat, t: nat, o: nat)
    requires AllDistinct(ps) && n < |ps| && Served(ps, n, x, t, o)
    ensures o !in Ids(ps[n].entries)
  {
    var k: nat :| k < n && Accepted(ps, k) && Wins(ps[k], t, x, o);
    WinnerListed(ps[k], t, x, o);
  }

  lemma ServedNext(ps: seq<Plan>, n: nat, x: nat, t: nat, o: nat)
    requires n < |ps|
    ensures Served(ps, n + 1, x, t, o) <==> Served(ps, n, x, t, o) || (Accepted(ps, n) && Wins(ps[n], t, x, o))
  {
  }

  lemma FoeFound(ps: seq<Plan>, n: nat, q: seq<Entry>, x: nat, t: nat, o: nat, foe: nat) returns (j: nat)
    requires AllDistinct(ps) && n < |ps| && Serving(ps, n, q)
    requires Wins(ps[n], t, x, o) && Owns(q, x, t, foe)
    ensures foe !in Ids(ps[n].entries) && j < n && Accepted(ps, j) && Overlaps(ps[j], ps[n])
  {
    assert Open(0);
    ServedEarlier(ps, n, x, t, foe);
    j :| j < n && Accepted(ps, j) && Wins(ps[j], t, x, foe);
  }

  lemma FoeMet(ps: seq<Plan>, n: nat, q: seq<Entry>, j: nat)
    requires AllDistinct(ps) && n < |ps| && Serving(ps, n, q)
    requires j < n && Accepted(ps, j) && Overlaps(ps[j], ps[n])
    ensures !NoFoe(ps[n].entries, ps[n].times, q)
  {
    assert Open(0);
    var t: nat, x: nat, p: nat, o: nat :| Wins(ps[j], t, x, p) && Wins(ps[n], t, x, o);
    assert Served(ps, n, x, t, p);
    ServedEarlier(ps, n, x, t, p);
    assert Awarded(ps[n].entries, ps[n].times, t, x, o) && Owns(q, x, t, p);
  }

  ghost predicate Clear(ps: seq<Plan>, n: nat)
    requires n < |ps|
  {
    forall j :: 0 <= j < n && Accepted(ps, j) ==> !Overlaps(ps[j], ps[n])
  }

  /** The unit meets no mapped unit exactly when no foe is in its way. */
  lemma NoFoeMeaning(ps: seq<Plan>, n: nat, q: seq<Entry>)
    requires AllDistinct(ps) && n < |ps| && Serving(ps, n, q)
    ensures NoFoe(ps[n].entries, ps[n].times, q) <==> Clear(ps, n)
  {
    if Clear(ps, n) {
      if !NoFoe(ps[n].entries, ps[n].times, q) {
        var x: nat, t: nat, o: nat, foe: nat :|
          Awarded(ps[n].entries, ps[n].times, t, x, o) && Owns(q, x, t, foe) && foe !in Ids(ps[n].entries);
        var j := FoeFound(ps, n, q, x, t, o, foe);
        assert false;
      }
    } else {
      var j :| 0 <= j < n && Accepted(ps, j) && Overlaps(ps[j], ps[n]);
      FoeMet(ps, n, q, j);
    }
  }

  lemma ServingNext(ps: seq<Plan>, n: nat, q: seq<Entry>, ok: bool, r: seq<Entry>)
    requires AllDistinct(ps) && n < |ps| && Serving(ps, n, q)
    requires ok <==> Consistent(ps[n]) && NoFoe(ps[n].entries, ps[n].times, q)
    requires if Consistent(ps[n]) then Reloaded(ps[n].entries, ps[n].times, ok, q, r) else r == q
    ensures Serving(ps, n + 1, r)
  {
    NoFoeMeaning(ps, n, q);
    assert Open(0);
    assert ok <==> Accepted(ps, n);
    forall x: nat, t: nat, o: nat
      ensures Owns(r, x, t, o) <==> Served(ps, n + 1, x, t, o)
    {
      ServedNext(ps, n, x, t, o);
      if Owns(q, x, t, o) {
        ServedEarlier(ps, n, x, t, o);
      }
    }
  }

  /** `map_clear` on the global map. */
  method ClearMap(g: Map)
    requires Global(g)
    modifies g.slicer, g.slicer.store
    ensures Global(g) && Vacant(g.slicer.queue)
  {
    g.slicer.Clear();
    NothingCounted(g.slicer.queue);
  }

  /** `mbb_map_reload`: clears the global map and maps the units one after the other. */
  method Reload(g: Map, units: seq<Unit>, autoGlue: bool, ghost ps: seq<Plan>)
    requires Global(g) && |ps| == |units| && AllDistinct(ps)
    requires forall k :: 0 <= k < |units| ==> PlanOf(units[k]) == ps[k] && Mappable(ps[k].entries, ps[k].times)
    modifies (set u | u in units)`table, g.slicer, g.slicer.store
    ensures Global(g) && Serving(ps, |ps|, g.slicer.queue)
  {
    ClearMap(g);
    ServingNone(ps, g.slicer.queue);
    for n := 0 to |units|
      invariant Global(g) && Serving(ps, n, g.slicer.queue)
    {
      ghost var q := g.slicer.queue;
      assert PlanOf(units[n]) == ps[n];
      var ok, pp, foe := ReloadUnit(g, units[n], autoGlue);
      ServingNext(ps, n, q, ok, g.slicer.queue);
    }
  }

  lemma ServingNone(ps: seq<Plan>, q: seq<Entry>)
    requires Vacant(q)
    ensures Serving(ps, 0, q)
  {
  }

  /** The last entry of the unit to cover the point is positive. */
  ghost predicate Claims(p: Plan, x: nat, t: nat) {
    exists i: nat :: LastToReach(p.entries, p.times, i, t, x) && p.entries[i].flag
  }

  lemma ClaimsMeaning(p: Plan, x: nat, t: nat)
    ensures Claims(p, x, t) <==> exists o: nat :: Wins(p, t, x, o)
  {
    if i: nat :| LastToReach(p.entries, p.times, i, t, x) && p.entries[i].flag {
      AwardedMeaning(p.entries, p.times, t, x, p.entries[i].id);
      assert Wins(p, t, x, p.entries[i].id);
    }
    if o: nat :| Wins(p, t, x, o) {
      AwardedMeaning(p.entries, p.times, t, x, o);
    }
  }

  /** The numbers of the entries of each unit lead to that unit. */
  ghost predicate UnitsOf(ps: seq<Plan>, unitOf: nat -> nat) {
    forall j, o :: 0 <= j < |ps| && o in Ids(ps[j].entries) ==> unitOf(o) == j
  }

  /** The unit `k` is mapped, and its last entry to cover the point is positive. */
  ghost predicate Bills(ps: seq<Plan>, x: nat, t: nat, k: nat) {
    k < |ps| && Accepted(ps, k) && Claims(ps[k], x, t)
  }

  /** After a reload the statistics find, for an address and a time, exactly the mapped unit whose
      last entry to cover that point is positive. */
  lemma BilledUnit(ps: seq<Plan>, q: seq<Entry>, m: seq<UmapEntry>, unitOf: nat -> nat, x: nat, t: nat, k: nat)
    requires Serving(ps, |ps|, q) && Flat(q, m, unitOf) && UnitsOf(ps, unitOf)
    ensures Shows(m, x, t, k) <==> Bills(ps, x, t, k)
  {
    if Shows(m, x, t, k) {
      var j, o := ShownUnit(ps, q, m, unitOf, x, t, k);
      ClaimsMeaning(ps[k], x, t);
    }
    if Bills(ps, x, t, k) {
      ClaimsMeaning(ps[k], x, t);
      var o: nat :| Wins(ps[k], t, x, o);
      WinnerListed(ps[k], t, x, o);
      assert Served(ps, |ps|, x, t, o);
      assert Open(0);
    }
  }

  lemma ShownUnit(ps: seq<Plan>, q: seq<Entry>, m: seq<UmapEntry>, unitOf: nat -> nat, x: nat, t: nat, k: nat) returns (j: nat, o: nat)
    requires Serving(ps, |ps|, q) && Flat(q, m, unitOf) && UnitsOf(ps, unitOf) && Shows(m, x, t, k)
    ensures j == k < |ps| && Accepted(ps, j) && Wins(ps[j], t, x, o)
  {
    assert Open(0);
    o :| Owns(q, x, t, o) && unitOf(o) == k;
    j :| j < |ps| && Accepted(ps, j) && Wins(ps[j], t, x, o);
    WinnerListed(ps[j], t, x, o);
  }

  /** `mbb_map_reload`, and then `mbb_umap_create`: the flattened map has at each point exactly the
      unit that bills it, and is NULL if no unit bills any. */
  method ReloadFlat(g: Map, units: seq<Unit>, autoGlue: bool, unitOf: nat -> nat, ghost ps: seq<Plan>) returns (m: Option<seq<UmapEntry>>)
    requires Global(g) && |ps| == |units| && AllDistinct(ps) && UnitsOf(ps, unitOf)
    requires forall k :: 0 <= k < |units| ==> PlanOf(units[k]) == ps[k] && Mappable(ps[k].entries, ps[k].times)
    modifies (set u | u in units)`table, g.slicer, g.slicer.store
    ensures Global(g)
    ensures m.Some? ==> UmapOk(m.value) && forall x: nat, t: nat, k: nat :: Shows(m.value, x, t, k) <==> Bills(ps, x, t, k)
    ensures m.None? <==> forall x: nat, t: nat, k: nat :: !Bills(ps, x, t, k)
  {
    Reload(g, units, autoGlue, ps);
    m := Create(g, unitOf);
    FlatBills(ps, g.slicer.queue, m, unitOf);
  }

  lemma FlatBills(ps: seq<Plan>, q: seq<Entry>, m: Option<seq<UmapEntry>>, unitOf: nat -> nat)
    requires Serving(ps, |ps|, q) && UnitsOf(ps, unitOf)
    requires m.Some? ==> UmapOk(m.value) && Flat(q, m.value, unitOf) && m.value != []
    requires m.None? <==> Vacant(q)
    ensures m.Some? ==> forall x: nat, t: nat, k: nat :: Shows(m.value, x, t, k) <==> Bills(ps, x, t, k)
    ensures m.None? <==> forall x: nat, t: nat, k: nat :: !Bills(ps, x, t, k)
  {
    var ms := if m.Some? then m.value else [];
    assert Flat(q, ms, unitOf);
    FlatEmpty(q, ms, unitOf);
    forall x: nat, t: nat, k: nat
      ensures Shows(ms, x, t, k) <==> Bills(ps, x, t, k)
    {
      BilledUnit(ps, q, ms, unitOf, x, t, k);
    }
    if ms != [] {
      var d := ms[0].data[0];
      assert ms[0] in ms && d in ms[0].data && During(d, d.min);
      assert DataShows(ms[0].data, d.min, d.unit);
      assert Shows(ms, ms[0].min, d.min, d.unit);
    }
  }

  /** After a reload `mbb_umap_find` answers with the unit that bills the point, or NULL. */
  method FindBilled(g: Map, units: seq<Unit>, autoGlue: bool, unitOf: nat -> nat, x: nat, t: nat, ghost ps: seq<Plan>) returns (r: Option<nat>)
    requires Global(g) && |ps| == |units| && AllDistinct(ps) && UnitsOf(ps, unitOf)
    requires forall k :: 0 <= k < |units| ==> PlanOf(units[k]) == ps[k] && Mappable(ps[k].entries, ps[k].times)
    modifies (set u | u in units)`table, g.slicer, g.slicer.store
    ensures Global(g) && forall k: nat :: r == Some(k) <==> Bills(ps, x, t, k)
  {
    var m := ReloadFlat(g, units, autoGlue, unitOf, ps);
    r := None;
    if m.Some? {
      r := Find(m.value, x, t);
    }
  }
}
