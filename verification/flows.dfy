/** The statistics of traffic, from `netflow/calcstat.c`: each flow in a router's file is billed to
the units of its two addresses, on the links through which it came and went.
 */
module Flows {
  import opened Sequences
  import opened Slices
  import opened Maps
  import opened Gateways
  import opened InetMaps
  import opened Umaps
  import opened Units
  import opened Reloads
  import opened Stats

  /** A `struct flow_data`, apart from the ports and the protocol. */
  datatype FlowData = FlowData(srcaddr: nat, dstaddr: nat, exaddr: nat, nbytes: nat, input: nat, output: nat, begin: nat)

  /** The fields `id` and `local` of a unit. */
  datatype UnitInfo = UnitInfo(id: nat, local: bool)

  /** A plain calculation takes all flows, an update those of a window of time. */
  datatype Window = All | During(start: nat, end: nat)

  // ---------------------------------------------------------------- links

  ghost function LinksOf(gws: map<nat, Gateway>): set<GwLink>
    reads gws.Values
  {
    set gw, gl | gw in gws.Values && gl in gw.Links() :: gl
  }

  ghost predicate AllValid(gws: map<nat, Gateway>)
    reads gws.Values, LinksOf(gws)
  {
    forall a :: a in gws ==> gws[a].Valid()
  }

  /** The number `id` is that of the link at the time `t` in the queue `n` of the gateway with the
      address `a`; for the time 0 it is that of the first, see `MbbTimes.RCmpMeaning`. */
  ghost predicate Via(gws: map<nat, Gateway>, a: nat, n: nat, t: nat, id: nat)
    reads gws.Values, LinksOf(gws)
  {
    && a in gws && n in gws[a].ht
    && var q := gws[a].ht[n];
    assert forall gl :: gl in q ==> gl in gws[a].Links();
    if t > 0 then exists gl :: gl in q && In(gl.Span(), t) && gl.id == id
    else q != [] && q[0].id == id
  }

  /** `get_link_id`, with `mbb_gateway_find_link`. */
  method GetLinkId(gws: map<nat, Gateway>, a: nat, n: nat, t: nat) returns (id: int)
    requires AllValid(gws)
    ensures forall k: nat :: id == k <==> Via(gws, a, n, t, k)
  {
    id := -1;
    if a in gws {
      var gl := gws[a].GetLink(n, t);
      ghost var q := gws[a].Queue(n);
      if gl != null {
        id := gl.id;
        assert t > 0 ==> gl in q && In(gl.Span(), t);
        assert t > 0 ==> forall l :: l in q && In(l.Span(), t) ==> l == gl;
      } else {
        assert t > 0 ==> forall l :: l in q ==> !In(l.Span(), t);
      }
    }
  }

  // ---------------------------------------------------------------- what a flow adds

  /** A unit with the number `id` bills the point. */
  ghost predicate BilledAs(ps: seq<Plan>, infos: seq<UnitInfo>, x: nat, t: nat, id: nat) {
    exists k: nat :: k < |infos| && Bills(ps, x, t, k) && infos[k].id == id
  }

  /** Some local unit bills the point. */
  ghost predicate IsLocal(ps: seq<Plan>, infos: seq<UnitInfo>, x: nat, t: nat) {
    exists k: nat :: k < |infos| && Bills(ps, x, t, k) && infos[k].local
  }

  /** At the time `t` the traffic of `x` with `partner` on the link `n` of the gateway `a` is billed to the
      unit and link of the key: that of `x`, unless the partner's is local. */
  ghost predicate Billed(ps: seq<Plan>, infos: seq<UnitInfo>, gws: map<nat, Gateway>, t: nat, x: nat, partner: nat, a: nat, n: nat, key: DoubleKey)
    reads gws.Values, LinksOf(gws)
  {
    HourOf(t) == key.point && BilledAs(ps, infos, x, t, key.aid) && !IsLocal(ps, infos, partner, t) && Via(gws, a, n, t, key.bid)
  }

  /** The bytes of a flow that belong to a counter: received by its unit, and sent by it. */
  ghost function Share(ps: seq<Plan>, infos: seq<UnitInfo>, gws: map<nat, Gateway>, f: FlowData, key: DoubleKey): Bytes
    reads gws.Values, LinksOf(gws)
  {
    Bytes(if Billed(ps, infos, gws, f.begin, f.dstaddr, f.srcaddr, f.exaddr, f.input, key) then f.nbytes else 0,
          if Billed(ps, infos, gws, f.begin, f.srcaddr, f.dstaddr, f.exaddr, f.output, key) then f.nbytes else 0)
  }

  /** The sum of the shares of all flows, or of those that begin in a window of time. */
  ghost function Shares(ps: seq<Plan>, infos: seq<UnitInfo>, gws: map<nat, Gateway>, fs: seq<FlowData>, window: Window, key: DoubleKey): Bytes
    reads gws.Values, LinksOf(gws)
  {
    if fs == [] then Zero else
      var rest, f := Shares(ps, infos, gws, fs[..|fs| - 1], window, key), fs[|fs| - 1];
      if window.During? && !(window.start <= f.begin < window.end) then rest
      else Add(rest, Share(ps, infos, gws, f, key))
  }

  /** The flattened map shows who bills what. */
  ghost predicate Shown(ps: seq<Plan>, infos: seq<UnitInfo>, m: seq<UmapEntry>) {
    UmapOk(m) && |infos| == |ps| && forall x: nat, t: nat, k: nat :: Shows(m, x, t, k) <==> Bills(ps, x, t, k)
  }

  /** The counter to which one direction of a flow is billed. */
  lemma HalfBilled(ps: seq<Plan>, infos: seq<UnitInfo>, gws: map<nat, Gateway>, t: nat, x: nat, partner: nat, a: nat, n: nat,
                   una: Option<nat>, unb: Option<nat>)
    requires |infos| == |ps|
    requires forall k: nat :: una == Some(k) <==> Bills(ps, x, t, k)
    requires forall k: nat :: unb == Some(k) <==> Bills(ps, partner, t, k)
    ensures (una.Some? ==> una.value < |infos|) && (unb.Some? ==> unb.value < |infos|)
    ensures forall key :: Billed(ps, infos, gws, t, x, partner, a, n, key) <==>
      una.Some? && !(unb.Some? && infos[unb.value].local) && key.point == HourOf(t) && key.aid == infos[una.value].id && Via(gws, a, n, t, key.bid)
  {
    assert una.Some? ==> Bills(ps, x, t, una.value);
    assert unb.Some? ==> Bills(ps, partner, t, unb.value);
    assert forall id: nat :: BilledAs(ps, infos, x, t, id) <==> una.Some? && infos[una.value].id == id;
    assert IsLocal(ps, infos, partner, t) <==> unb.Some? && infos[unb.value].local;
  }

  /** One half of `process_flow_data`, for the traffic of `x` with `partner`. */
  method FeedHalf(f: FlowData, link: nat, bytes: Bytes, una: Option<nat>, unb: Option<nat>, infos: seq<UnitInfo>, gws: map<nat, Gateway>,
                  pool: StatPool, ghost ps: seq<Plan>, ghost x: nat, ghost partner: nat, ghost es: seq<StatEntry>)
    returns (ghost es': seq<StatEntry>)
    requires AllValid(gws) && pool.TablesOf() == FedAll(es) && |infos| == |ps|
    requires forall k: nat :: una == Some(k) <==> Bills(ps, x, f.begin, k)
    requires forall k: nat :: unb == Some(k) <==> Bills(ps, partner, f.begin, k)
    modifies pool
    ensures pool.TablesOf() == FedAll(es')
    ensures forall key :: Get(pool.ulstat, key) == var c := old(Get(pool.ulstat, key));
      if old(Billed(ps, infos, gws, f.begin, x, partner, f.exaddr, link, key)) then Add(c, bytes) else c
  {
    es' := es;
    HalfBilled(ps, infos, gws, f.begin, x, partner, f.exaddr, link, una, unb);
    if una.Some? && !(unb.Some? && infos[unb.value].local) {
      var id := GetLinkId(gws, f.exaddr, link, f.begin);
      assert forall k: nat :: Via(gws, f.exaddr, link, f.begin, k) == old(Via(gws, f.exaddr, link, f.begin, k));
      if id >= 0 {
        var e := StatEntry(f.begin, infos[una.value].id, id, bytes);
        pool.Feed(e, es);
        CounterFed(es, e);
        es' := es + [e];
      }
    }
  }

  lemma CounterFed(es: seq<StatEntry>, e: StatEntry)
    ensures forall key :: Get(FedAll(es + [e]).ulstat, key) == var c := Get(FedAll(es).ulstat, key);
      if key == DoubleKey(HourOf(e.point), e.unitId, e.linkId) then Add(c, e.bytes) else c
  {
    assert (es + [e])[..|es|] == es;
  }

  lemma AddBoth(c: Bytes, sent: bool, received: bool, n: nat)
    requires Narrow(c)
    ensures var c1 := if sent then Add(c, Bytes(0, n)) else c;
      Grown(c, if received then Add(c1, Bytes(n, 0)) else c1, if received then n else 0, if sent then n else 0)
  {
  }

  /** The second counter is the first with what was received and sent, 64 bits wide. */
  predicate Grown(c: Bytes, c': Bytes, received: nat, sent: nat) {
    c' == Bytes((c.input + received) % 0x1_0000_0000_0000_0000, (c.output + sent) % 0x1_0000_0000_0000_0000)
  }

  lemma GrownAdd(c: Bytes, c': Bytes, d: Bytes)
    ensures Grown(c, c', d.input, d.output) <==> c' == Add(c, d)
  {
  }

  /** `process_flow_data` once the units are found. */
  method FeedBoth(f: FlowData, una: Option<nat>, unb: Option<nat>, infos: seq<UnitInfo>, gws: map<nat, Gateway>, pool: StatPool,
                  ghost ps: seq<Plan>, ghost es: seq<StatEntry>) returns (ghost es': seq<StatEntry>)
    requires AllValid(gws) && pool.TablesOf() == FedAll(es) && |infos| == |ps|
    requires forall k: nat :: una == Some(k) <==> Bills(ps, f.srcaddr, f.begin, k)
    requires forall k: nat :: unb == Some(k) <==> Bills(ps, f.dstaddr, f.begin, k)
    modifies pool
    ensures pool.TablesOf() == FedAll(es')
    ensures forall key :: Grown(old(Get(pool.ulstat, key)), Get(pool.ulstat, key),
      old(Share(ps, infos, gws, f, key).input), old(Share(ps, infos, gws, f, key).output))
  {
    ghost var was := pool.ulstat;
    CountersNarrow(es);
    es' := FeedHalf(f, f.output, Bytes(0, f.nbytes), una, unb, infos, gws, pool, ps, f.srcaddr, f.dstaddr, es);
    ghost var mid := pool.ulstat;
    es' := FeedHalf(f, f.input, Bytes(f.nbytes, 0), unb, una, infos, gws, pool, ps, f.dstaddr, f.srcaddr, es');
    assert forall k: nat :: Via(gws, f.exaddr, f.input, f.begin, k) == old(Via(gws, f.exaddr, f.input, f.begin, k));
    forall key
      ensures Grown(Get(was, key), Get(pool.ulstat, key), old(Share(ps, infos, gws, f, key).input), old(Share(ps, infos, gws, f, key).output))
    {
      var sent := old(Billed(ps, infos, gws, f.begin, f.srcaddr, f.dstaddr, f.exaddr, f.output, key));
      var received := old(Billed(ps, infos, gws, f.begin, f.dstaddr, f.srcaddr, f.exaddr, f.input, key));
      assert Get(mid, key) == if sent then Add(Get(was, key), Bytes(0, f.nbytes)) else Get(was, key);
      assert Get(pool.ulstat, key) == if received then Add(Get(mid, key), Bytes(f.nbytes, 0)) else Get(mid, key);
      AddBoth(Get(was, key), sent, received, f.nbytes);
    }
  }

  /** `process_flow_data`: the bytes go to the unit that bills the source on the link of `output`, as sent,
      unless the destination is local, and to that of the destination on the link of `input`, as
      received, unless the source is; no other counter changes. */
  method ProcessFlow(f: FlowData, m: seq<UmapEntry>, infos: seq<UnitInfo>, gws: map<nat, Gateway>, pool: StatPool,
                     ghost ps: seq<Plan>, ghost es: seq<StatEntry>) returns (ghost es': seq<StatEntry>)
    requires AllValid(gws) && Shown(ps, infos, m) && pool.TablesOf() == FedAll(es)
    modifies pool
    ensures pool.TablesOf() == FedAll(es')
    ensures forall key :: Grown(old(Get(pool.ulstat, key)), Get(pool.ulstat, key),
      if key.point == HourOf(f.begin) && BilledAs(ps, infos, f.dstaddr, f.begin, key.aid) && !IsLocal(ps, infos, f.srcaddr, f.begin)
        && old(Via(gws, f.exaddr, f.input, f.begin, key.bid)) then f.nbytes else 0,
      if key.point == HourOf(f.begin) && BilledAs(ps, infos, f.srcaddr, f.begin, key.aid) && !IsLocal(ps, infos, f.dstaddr, f.begin)
        && old(Via(gws, f.exaddr, f.output, f.begin, key.bid)) then f.nbytes else 0)
  {
    var una := Find(m, f.srcaddr, f.begin);
    var unb := Find(m, f.dstaddr, f.begin);
    assert forall n, k: nat :: Via(gws, f.exaddr, n, f.begin, k) == old(Via(gws, f.exaddr, n, f.begin, k));
    es' := FeedBoth(f, una, unb, infos, gws, pool, ps, es);
  }

  // ---------------------------------------------------------------- a list of flows

  /** The calls of `plain_task_work` or `update_task_work` on one file: each counter is the sum of its
      shares of all flows, or of those that begin in the window of time. */
  method ProcessFile(fs: seq<FlowData>, window: Window, m: seq<UmapEntry>, infos: seq<UnitInfo>, gws: map<nat, Gateway>, ghost ps: seq<Plan>)
    returns (pool: StatPool, ghost es: seq<StatEntry>)
    requires AllValid(gws) && Shown(ps, infos, m)
    ensures fresh(pool) && pool.TablesOf() == FedAll(es)
    ensures forall key :: Get(pool.ulstat, key) == old(Shares(ps, infos, gws, fs, window, key))
  {
    pool := new StatPool();
    es := [];
    for i := 0 to |fs|
      invariant fresh(pool) && pool.TablesOf() == FedAll(es)
      invariant forall key :: Get(pool.ulstat, key) == old(Shares(ps, infos, gws, fs[..i], window, key))
    {
      assert fs[..i + 1][..i] == fs[..i];
      if window.All? || window.start <= fs[i].begin < window.end {
        assert forall n, k :: Via(gws, fs[i].exaddr, n, fs[i].begin, k) == old(Via(gws, fs[i].exaddr, n, fs[i].begin, k));
        ghost var was := pool.ulstat;
        es := ProcessFlow(fs[i], m, infos, gws, pool, ps, es);
        forall key
          ensures Get(pool.ulstat, key) == Add(Get(was, key), old(Share(ps, infos, gws, fs[i], key)))
        {
          var share := old(Share(ps, infos, gws, fs[i], key));
          assert Grown(Get(was, key), Get(pool.ulstat, key), share.input, share.output);
          GrownAdd(Get(was, key), Get(pool.ulstat, key), share);
        }
      }
    }
    assert fs[..|fs|] == fs;
  }

  /** Windows that adjoin add up, so that a flow at their common end counts once. */
  lemma {:induction false} WindowsAddUp(ps: seq<Plan>, infos: seq<UnitInfo>, gws: map<nat, Gateway>, fs: seq<FlowData>, a: nat, b: nat, c: nat, key: DoubleKey)
    requires a <= b <= c
    ensures Shares(ps, infos, gws, fs, During(a, c), key)
      == Add(Shares(ps, infos, gws, fs, During(a, b), key), Shares(ps, infos, gws, fs, During(b, c), key))
  {
    if fs != [] {
      var rest, f := fs[..|fs| - 1], fs[|fs| - 1];
      WindowsAddUp(ps, infos, gws, rest, a, b, c, key);
      AddShifts(Shares(ps, infos, gws, rest, During(a, b), key), Shares(ps, infos, gws, rest, During(b, c), key), Share(ps, infos, gws, f, key));
    }
  }

  /** A window counts every flow from its first second to the one before its end, and no other. */
  lemma {:induction false} WindowMeaning(ps: seq<Plan>, infos: seq<UnitInfo>, gws: map<nat, Gateway>, fs: seq<FlowData>, start: nat, end: nat, key: DoubleKey)
    ensures (forall f :: f in fs ==> start <= f.begin <= end - 1) ==>
      Shares(ps, infos, gws, fs, During(start, end), key) == Shares(ps, infos, gws, fs, All, key)
    ensures (forall f :: f in fs ==> f.begin < start || f.begin >= end) ==> Shares(ps, infos, gws, fs, During(start, end), key) == Zero
  {
    if fs != [] {
      assert forall f :: f in fs[..|fs| - 1] ==> f in fs;
      WindowMeaning(ps, infos, gws, fs[..|fs| - 1], start, end, key);
    }
  }

  /** A reload of the map and a calculation for one file. NULL stands for the answer "empty inet map",
      which comes exactly when no unit bills anything. */
  method Calculate(g: Map, units: seq<Unit>, autoGlue: bool, unitOf: nat -> nat, infos: seq<UnitInfo>, gws: map<nat, Gateway>,
                   fs: seq<FlowData>, window: Window, ghost ps: seq<Plan>) returns (pool: StatPool?)
    requires Global(g) && |ps| == |units| == |infos| && AllDistinct(ps) && UnitsOf(ps, unitOf) && AllValid(gws)
    requires forall k :: 0 <= k < |units| ==> PlanOf(units[k]) == ps[k] && Mappable(ps[k].entries, ps[k].times) && infos[k].id == units[k].id
    modifies (set u | u in units)`table, g.slicer, g.slicer.store
    ensures Global(g)
    ensures pool == null <==> forall x: nat, t: nat, k: nat :: !Bills(ps, x, t, k)
    ensures pool != null ==> forall key :: Get(pool.ulstat, key) == old(Shares(ps, infos, gws, fs, window, key))
  {
    var m := ReloadFlat(g, units, autoGlue, unitOf, ps);
    assert unchanged(gws.Values);
    assert unchanged(LinksOf(gws));
    assert forall key :: Shares(ps, infos, gws, fs, window, key) == old(Shares(ps, infos, gws, fs, window, key));
    if m.None? {
      return null;
    }
    ghost var es;
    pool, es := ProcessFile(fs, window, m.value, infos, gws, ps);
  }
}
