/** The traffic accumulator of `mbbstat.c`: bytes per hour and unit, per hour and link, and per hour,
unit and link. Counters are 64 bits wide and wrap around.
 */
module Stats {
  import opened Sequences

  const WRAP: nat := 0x1_0000_0000_0000_0000

  /** The counters of a `struct stat_rec`, and the amounts of a fed entry. */
  datatype Bytes = Bytes(input: nat, output: nat)

  datatype SingleKey = SingleKey(point: int, id: nat)

  datatype DoubleKey = DoubleKey(point: int, aid: nat, bid: nat)

  /** A `struct mbb_stat_entry`. */
  datatype StatEntry = StatEntry(point: int, unitId: nat, linkId: nat, bytes: Bytes)

  function Add(a: Bytes, b: Bytes): Bytes {
    Bytes((a.input + b.input) % WRAP, (a.output + b.output) % WRAP)
  }

  const Zero := Bytes(0, 0)

  /** The remainder of C: it has the sign of the dividend. */
  function Rem(t: int, d: nat): int
    requires d > 0
  {
    if t >= 0 then t % d else -((-t) % d)
  }

  /** `mbb_stat_extract_hour`. */
  function HourOf(t: int): int {
    t - Rem(t, 3600)
  }

  /** The hour is a multiple of 3600 not beyond the time, and less than an hour away, for every
      time from 0 on; before that it lies beyond the time unless it is the time. */
  lemma HourMeaning(t: int)
    ensures HourOf(t) % 3600 == 0 && -3600 < HourOf(t) - t < 3600
    ensures HourOf(t) <= t <==> t >= 0 || t % 3600 == 0
  {
    if t < 0 {
      var q := (-t) / 3600;
      assert -t == 3600 * q + (-t) % 3600 && HourOf(t) == -(3600 * q);
      assert t == 3600 * (-q) - (-t) % 3600;
    }
  }

  // ---------------------------------------------------------------- tables

  function Get<K>(t: map<K, Bytes>, k: K): Bytes {
    if k in t then t[k] else Zero
  }

  /** `rec_update`: a record that is missing is created with zero counters. */
  function Update<K>(t: map<K, Bytes>, k: K, d: Bytes): map<K, Bytes> {
    t[k := Add(Get(t, k), d)]
  }

  /** The sum of the records under some keys. */
  function SumOf<K>(t: map<K, Bytes>, keys: seq<K>): Bytes {
    if keys == [] then Zero else Add(Get(t, keys[0]), SumOf(t, keys[1..]))
  }

  /** Wrapping a part of a sum does not change the wrapped sum. */
  lemma WrapPart(x: nat, y: nat)
    ensures (x % WRAP + y) % WRAP == (x + y) % WRAP
  {
    var s := x % WRAP + y;
    assert x + y == WRAP * (x / WRAP + s / WRAP) + s % WRAP;
  }

  lemma WrapShifts(a: nat, b: nat, d: nat)
    ensures ((a + d) % WRAP + b) % WRAP == ((a + b) % WRAP + d) % WRAP
    ensures (a + (b + d) % WRAP) % WRAP == ((a + b) % WRAP + d) % WRAP
  {
    WrapPart(a + d, b);
    WrapPart(a + b, d);
    WrapPart(b + d, a);
  }

  lemma AddShifts(a: Bytes, b: Bytes, d: Bytes)
    ensures Add(Add(a, d), b) == Add(Add(a, b), d)
    ensures Add(a, Add(b, d)) == Add(Add(a, b), d)
  {
    WrapShifts(a.input, b.input, d.input);
    WrapShifts(a.output, b.output, d.output);
  }

  lemma {:induction false} SumUnchanged<K>(t: map<K, Bytes>, k: K, d: Bytes, keys: seq<K>)
    requires k !in keys
    ensures SumOf(Update(t, k, d), keys) == SumOf(t, keys)
  {
    if keys != [] {
      assert keys[0] != k;
      SumUnchanged(t, k, d, keys[1..]);
    }
  }

  /** An update adds its amount to every sum that has its key once. */
  lemma {:induction false} SumUpdated<K>(t: map<K, Bytes>, k: K, d: Bytes, keys: seq<K>)
    requires k in keys && Distinct(keys)
    ensures SumOf(Update(t, k, d), keys) == Add(SumOf(t, keys), d)
  {
    if keys[0] == k {
      assert k !in keys[1..];
      SumUnchanged(t, k, d, keys[1..]);
      AddShifts(Get(t, k), SumOf(t, keys[1..]), d);
    } else {
      SumUpdated(t, k, d, keys[1..]);
      AddShifts(Get(t, keys[0]), SumOf(t, keys[1..]), d);
    }
  }

  // ---------------------------------------------------------------- the three tables

  datatype Tables = Tables(ustat: map<SingleKey, Bytes>, lstat: map<SingleKey, Bytes>, ulstat: map<DoubleKey, Bytes>)

  const NoTables := Tables(map[], map[], map[])

  /** What `mbb_stat_feed` makes of the tables. */
  function Fed(t: Tables, e: StatEntry): Tables {
    var h := HourOf(e.point);
    Tables(Update(t.ustat, SingleKey(h, e.unitId), e.bytes),
           Update(t.lstat, SingleKey(h, e.linkId), e.bytes),
           Update(t.ulstat, DoubleKey(h, e.unitId, e.linkId), e.bytes))
  }

  function FedAll(es: seq<StatEntry>): Tables {
    if es == [] then NoTables else Fed(FedAll(es[..|es| - 1]), es[|es| - 1])
  }

  function TotalOf(es: seq<StatEntry>): Bytes {
    if es == [] then Zero else Add(TotalOf(es[..|es| - 1]), es[|es| - 1].bytes)
  }

  function EntryKey(e: StatEntry): DoubleKey {
    DoubleKey(HourOf(e.point), e.unitId, e.linkId)
  }

  function AtKey(k: DoubleKey): StatEntry -> bool {
    (e: StatEntry) => EntryKey(e) == k
  }

  /** The counters of an hour, unit and link are the sum of the entries for just these. */
  lemma {:induction false} CounterMeaning(es: seq<StatEntry>, k: DoubleKey)
    ensures Get(FedAll(es).ulstat, k) == TotalOf(Only(es, AtKey(k)))
  {
    if es != [] {
      var a, e := es[..|es| - 1], es[|es| - 1];
      CounterMeaning(a, k);
      assert es == a + [e];
      OnlyConcat(a, [e], AtKey(k));
      var before := Only(a, AtKey(k));
      if EntryKey(e) == k {
        assert Only([e], AtKey(k)) == [e];
        assert (before + [e])[..|before|] == before;
      } else {
        assert Only([e], AtKey(k)) == [] && before + [] == before;
      }
    }
  }

  /** A counter is never wider than its 64 bits. */
  predicate Narrow(b: Bytes) {
    b.input < WRAP && b.output < WRAP
  }

  lemma CountersNarrow(es: seq<StatEntry>)
    ensures forall k :: Narrow(Get(FedAll(es).ulstat, k))
  {
    forall k
      ensures Narrow(Get(FedAll(es).ulstat, k))
    {
      CounterMeaning(es, k);
      TotalNarrow(Only(es, AtKey(k)));
    }
  }

  lemma TotalNarrow(es: seq<StatEntry>)
    ensures Narrow(TotalOf(es))
  {
  }

  function UnitKeys(h: int, unit: nat, links: seq<nat>): seq<DoubleKey> {
    seq(|links|, i requires 0 <= i < |links| => DoubleKey(h, unit, links[i]))
  }

  function LinkKeys(h: int, link: nat, units: seq<nat>): seq<DoubleKey> {
    seq(|units|, i requires 0 <= i < |units| => DoubleKey(h, units[i], link))
  }

  ghost predicate CoversLinks(t: Tables, h: int, unit: nat, links: seq<nat>) {
    Distinct(links) && forall l :: DoubleKey(h, unit, l) in t.ulstat ==> l in links
  }

  ghost predicate CoversUnits(t: Tables, h: int, link: nat, units: seq<nat>) {
    Distinct(units) && forall u :: DoubleKey(h, u, link) in t.ulstat ==> u in units
  }

  /** In every hour each unit has the sum over its links. */
  lemma {:induction false} UnitsBalance(es: seq<StatEntry>, h: int, unit: nat, links: seq<nat>)
    requires CoversLinks(FedAll(es), h, unit, links)
    ensures Get(FedAll(es).ustat, SingleKey(h, unit)) == SumOf(FedAll(es).ulstat, UnitKeys(h, unit, links))
  {
    var keys := UnitKeys(h, unit, links);
    if es == [] {
      SumOfNothing<DoubleKey>(keys);
    } else {
      var t, e := FedAll(es[..|es| - 1]), es[|es| - 1];
      var k := DoubleKey(HourOf(e.point), e.unitId, e.linkId);
      assert forall l :: DoubleKey(h, unit, l) in t.ulstat ==> DoubleKey(h, unit, l) in FedAll(es).ulstat;
      UnitsBalance(es[..|es| - 1], h, unit, links);
      if SingleKey(h, unit) == SingleKey(HourOf(e.point), e.unitId) {
        assert k in FedAll(es).ulstat;
        var i :| 0 <= i < |links| && links[i] == e.linkId;
        assert keys[i] == k;
        SumUpdated(t.ulstat, k, e.bytes, keys);
      } else {
        SumUnchanged(t.ulstat, k, e.bytes, keys);
      }
    }
  }

  /** In every hour each link has the sum over the units. */
  lemma {:induction false} LinksBalance(es: seq<StatEntry>, h: int, link: nat, units: seq<nat>)
    requires CoversUnits(FedAll(es), h, link, units)
    ensures Get(FedAll(es).lstat, SingleKey(h, link)) == SumOf(FedAll(es).ulstat, LinkKeys(h, link, units))
  {
    var keys := LinkKeys(h, link, units);
    if es == [] {
      SumOfNothing<DoubleKey>(keys);
    } else {
      var t, e := FedAll(es[..|es| - 1]), es[|es| - 1];
      var k := DoubleKey(HourOf(e.point), e.unitId, e.linkId);
      assert forall u :: DoubleKey(h, u, link) in t.ulstat ==> DoubleKey(h, u, link) in FedAll(es).ulstat;
      LinksBalance(es[..|es| - 1], h, link, units);
      if SingleKey(h, link) == SingleKey(HourOf(e.point), e.linkId) {
        assert k in FedAll(es).ulstat;
        var i :| 0 <= i < |units| && units[i] == e.unitId;
        assert keys[i] == k;
        SumUpdated(t.ulstat, k, e.bytes, keys);
      } else {
        SumUnchanged(t.ulstat, k, e.bytes, keys);
      }
    }
  }

  lemma {:induction false} SumOfNothing<K>(keys: seq<K>)
    ensures SumOf(map[], keys) == Zero
  {
    if keys != [] {
      SumOfNothing(keys[1..]);
    }
  }

  ghost predicate Covers<K>(t: map<K, Bytes>, keys: seq<K>) {
    Distinct(keys) && forall k :: k in t ==> k in keys
  }

  /** The grand total of each table is what has been fed. */
  lemma {:induction false} GrandTotals(es: seq<StatEntry>, us: seq<SingleKey>, ls: seq<SingleKey>, uls: seq<DoubleKey>)
    requires var t := FedAll(es); Covers(t.ustat, us) && Covers(t.lstat, ls) && Covers(t.ulstat, uls)
    ensures var t := FedAll(es); SumOf(t.ustat, us) == SumOf(t.lstat, ls) == SumOf(t.ulstat, uls) == TotalOf(es)
  {
    if es == [] {
      SumOfNothing(us);
      SumOfNothing(ls);
      SumOfNothing(uls);
    } else {
      var t, e := FedAll(es[..|es| - 1]), es[|es| - 1];
      var h := HourOf(e.point);
      assert forall k :: k in t.ustat ==> k in FedAll(es).ustat;
      assert forall k :: k in t.lstat ==> k in FedAll(es).lstat;
      assert forall k :: k in t.ulstat ==> k in FedAll(es).ulstat;
      GrandTotals(es[..|es| - 1], us, ls, uls);
      assert SingleKey(h, e.unitId) in FedAll(es).ustat && SingleKey(h, e.linkId) in FedAll(es).lstat;
      assert DoubleKey(h, e.unitId, e.linkId) in FedAll(es).ulstat;
      SumUpdated(t.ustat, SingleKey(h, e.unitId), e.bytes, us);
      SumUpdated(t.lstat, SingleKey(h, e.linkId), e.bytes, ls);
      SumUpdated(t.ulstat, DoubleKey(h, e.unitId, e.linkId), e.bytes, uls);
    }
  }

  /** The counters are what is fed, modulo 2 to the power of 64. */
  lemma {:induction false} TotalExact(es: seq<StatEntry>)
    ensures TotalOf(es) == Bytes(PlainIn(es) % 0x1_0000_0000_0000_0000, PlainOut(es) % 0x1_0000_0000_0000_0000)
  {
    if es != [] {
      var a, e := es[..|es| - 1], es[|es| - 1];
      TotalExact(a);
      WrapPart(PlainIn(a), e.bytes.input);
      WrapPart(PlainOut(a), e.bytes.output);
    }
  }

  function PlainIn(es: seq<StatEntry>): nat {
    if es == [] then 0 else PlainIn(es[..|es| - 1]) + es[|es| - 1].bytes.input
  }

  function PlainOut(es: seq<StatEntry>): nat {
    if es == [] then 0 else PlainOut(es[..|es| - 1]) + es[|es| - 1].bytes.output
  }

  class StatPool {
    var ustat: map<SingleKey, Bytes>
    var lstat: map<SingleKey, Bytes>
    var ulstat: map<DoubleKey, Bytes>

    constructor ()
      ensures TablesOf() == FedAll([])
    {
      ustat, lstat, ulstat := map[], map[], map[];
    }

    function TablesOf(): Tables
      reads this
    {
      Tables(ustat, lstat, ulstat)
    }

    /** `mbb_stat_feed`. */
    method Feed(e: StatEntry, ghost es: seq<StatEntry>)
      requires TablesOf() == FedAll(es)
      modifies this
      ensures TablesOf() == FedAll(es + [e])
    {
      var h := HourOf(e.point);
      ustat := Update(ustat, SingleKey(h, e.unitId), e.bytes);
      lstat := Update(lstat, SingleKey(h, e.linkId), e.bytes);
      ulstat := Update(ulstat, DoubleKey(h, e.unitId, e.linkId), e.bytes);
      assert (es + [e])[..|es|] == es;
    }
  }
}
