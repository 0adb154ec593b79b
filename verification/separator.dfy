/** The entries of the inet pool and the priority order in which a unit keeps its own, from
`mbbinetpool.c` and `separator.c`.
 */
module Separators {
  import opened Sequences
  import opened Slices
  import opened MapData
  import opened Inets

  /** A `struct mbb_inet_pool_entry`, apart from its node list, which is in `Store.index`. A time
      below 0 is that of the owner. */
  datatype PoolEntry = PoolEntry(id: nat, inet: Inet, flag: bool, start: int, end: int, nice: nat)

  /** `mbb_inet_pool_entry_get_start` and `mbb_inet_pool_entry_get_end`. */
  function OwnTime(time: int, parent: int): int {
    if time >= 0 then time else parent
  }

  /** `entry_cmp`: `nice` is an unsigned number converted to `gint`. */
  function EntryCmp(a: PoolEntry, b: PoolEntry): int {
    var d := ToGint(ToGint(a.nice) - ToGint(b.nice));
    if d != 0 then d else Is(b.flag) - Is(a.flag)
  }

  predicate NiceOk(e: PoolEntry) {
    e.nice <= INT_MAX
  }

  /** `a` has priority: a lower `nice`, or the same and only `a` is positive. */
  predicate Precedes(a: PoolEntry, b: PoolEntry) {
    a.nice < b.nice || (a.nice == b.nice && a.flag && !b.flag)
  }

  /** `entry_cmp` orders entries by priority as long as every `nice` up to theirs fits a `gint`. */
  lemma EntryCmpMeaning(a: PoolEntry, b: PoolEntry)
    requires NiceOk(a) && NiceOk(b)
    ensures EntryCmp(a, b) < 0 <==> Precedes(a, b)
    ensures EntryCmp(a, b) > 0 <==> Precedes(b, a)
    ensures EntryCmp(a, b) == 0 <==> Ranked(a) == Ranked(b)
  {
  }

  lemma NiceLimit(n: nat)
    requires n <= 0xffff_ffff
    ensures (forall a: PoolEntry, b: PoolEntry :: a.nice <= n && b.nice <= n ==> (EntryCmp(a, b) < 0 <==> Precedes(a, b))) <==> n <= INT_MAX
  {
    if n > INT_MAX {
      var a := PoolEntry(1, Inet(0, 0), true, 0, 0, INT_MAX + 1);
      var b := PoolEntry(2, Inet(0, 0), true, 0, 0, 0);
      assert ToGint(a.nice) == -INT_MAX - 1;
      assert EntryCmp(a, b) < 0 && !Precedes(a, b);
    }
  }

  /** The place of an entry among the priorities. */
  function Ranked(e: PoolEntry): nat {
    2 * e.nice + Is(!e.flag)
  }

  ghost predicate InOrder(q: seq<PoolEntry>) {
    && (forall k :: 0 <= k < |q| ==> NiceOk(q[k]))
    && (forall i, j :: 0 <= i < j < |q| ==> Ranked(q[i]) <= Ranked(q[j]))
  }

  /** Where `separator_add` puts an entry: before the first that it precedes. */
  function Insert(q: seq<PoolEntry>, e: PoolEntry): seq<PoolEntry> {
    if q == [] then [e] else if EntryCmp(e, q[0]) < 0 then [e] + q else [q[0]] + Insert(q[1..], e)
  }

  function OfRank(rank: nat): PoolEntry -> bool {
    (e: PoolEntry) => Ranked(e) == rank
  }

  /** The entries of one rank, in order. */
  function Peers(q: seq<PoolEntry>, rank: nat): seq<PoolEntry> {
    Only(q, OfRank(rank))
  }

  lemma {:induction false} InsertMembers(q: seq<PoolEntry>, e: PoolEntry)
    ensures forall f :: f in Insert(q, e) <==> f == e || f in q
    ensures |Insert(q, e)| == |q| + 1
  {
    if q != [] && EntryCmp(e, q[0]) >= 0 {
      InsertMembers(q[1..], e);
    }
  }

  lemma {:induction false} InsertInOrder(q: seq<PoolEntry>, e: PoolEntry)
    requires InOrder(q) && NiceOk(e)
    ensures InOrder(Insert(q, e))
  {
    if q != [] {
      EntryCmpMeaning(e, q[0]);
      if EntryCmp(e, q[0]) >= 0 {
        var r := Insert(q[1..], e);
        InsertInOrder(q[1..], e);
        InsertMembers(q[1..], e);
        forall k | 0 <= k < |r|
          ensures Ranked(q[0]) <= Ranked(r[k])
        {
          assert r[k] in r;
          assert r[k] != e ==> r[k] in q[1..];
        }
      }
    }
  }

  /** A new entry goes behind those of its own rank. */
  lemma {:induction false} InsertPeers(q: seq<PoolEntry>, e: PoolEntry, rank: nat)
    requires InOrder(q) && NiceOk(e)
    ensures Peers(Insert(q, e), rank) == Peers(q, rank) + if Ranked(e) == rank then [e] else []
  {
    if q != [] {
      EntryCmpMeaning(e, q[0]);
      if EntryCmp(e, q[0]) < 0 {
        if Ranked(e) == rank {
          OnlyNone(q, OfRank(rank));
        }
        OnlyCons(e, q, OfRank(rank));
      } else {
        InsertPeers(q[1..], e, rank);
        OnlyCons(q[0], Insert(q[1..], e), OfRank(rank));
        Associative(if Ranked(q[0]) == rank then [q[0]] else [], Peers(q[1..], rank), if Ranked(e) == rank then [e] else []);
      }
    }
  }

  /** The separator after the entries `es` have been added one by one. */
  function AddAll(es: seq<PoolEntry>): seq<PoolEntry> {
    if es == [] then [] else Insert(AddAll(es[..|es| - 1]), es[|es| - 1])
  }

  /** Additions sort the entries by rank, and entries of one rank stay in the order of arrival. */
  lemma {:induction false} AddedStable(es: seq<PoolEntry>, rank: nat)
    requires forall k :: 0 <= k < |es| ==> NiceOk(es[k])
    ensures InOrder(AddAll(es)) && Peers(AddAll(es), rank) == Peers(es, rank)
  {
    if es != [] {
      var a, e := es[..|es| - 1], es[|es| - 1];
      AddedStable(a, rank);
      InsertInOrder(AddAll(a), e);
      InsertPeers(AddAll(a), e, rank);
      assert es == a + [e];
      OnlyConcat(a, [e], OfRank(rank));
    }
  }

  /** Without the entry `id`. */
  function Without(q: seq<PoolEntry>, id: nat): seq<PoolEntry> {
    if q == [] then [] else if q[0].id == id then q[1..] else [q[0]] + Without(q[1..], id)
  }

  function Ids(q: seq<PoolEntry>): seq<nat> {
    seq(|q|, i requires 0 <= i < |q| => q[i].id)
  }

  ghost predicate IdsDistinct(q: seq<PoolEntry>) {
    forall i, j :: 0 <= i < j < |q| ==> q[i].id != q[j].id
  }

  lemma {:induction false} WithoutMembers(q: seq<PoolEntry>, id: nat)
    requires IdsDistinct(q)
    ensures forall f :: f in Without(q, id) <==> f in q && f.id != id
    ensures IdsDistinct(Without(q, id))
  {
    if q != [] {
      assert forall k :: 0 <= k < |q| - 1 ==> q[1..][k].id != q[0].id;
      WithoutMembers(q[1..], id);
      if q[0].id != id {
        var w := Without(q[1..], id);
        assert forall k :: 0 <= k < |w| ==> w[k] in w && w[k].id != q[0].id;
      }
    }
  }

  lemma {:induction false} WithoutInOrder(q: seq<PoolEntry>, id: nat)
    requires InOrder(q) && IdsDistinct(q)
    ensures InOrder(Without(q, id))
  {
    if q != [] && q[0].id != id {
      WithoutInOrder(q[1..], id);
      WithoutMembers(q[1..], id);
      var w := Without(q[1..], id);
      assert Without(q, id) == [q[0]] + w;
      forall k | 0 <= k < |w|
        ensures Ranked(q[0]) <= Ranked(w[k])
      {
        assert w[k] in w && w[k] in q[1..];
      }
    }
  }

  lemma {:induction false} InsertDistinct(q: seq<PoolEntry>, e: PoolEntry)
    requires IdsDistinct(q) && forall f :: f in q ==> f.id != e.id
    ensures IdsDistinct(Insert(q, e))
  {
    if q != [] && EntryCmp(e, q[0]) >= 0 {
      InsertDistinct(q[1..], e);
      InsertMembers(q[1..], e);
      var r := Insert(q[1..], e);
      forall k | 0 <= k < |r|
        ensures r[k].id != q[0].id
      {
        assert r[k] in r && q[0] in q;
      }
    }
  }

  /** Taking the new entry out again restores the order. */
  lemma {:induction false} InsertUndone(q: seq<PoolEntry>, e: PoolEntry)
    requires forall f :: f in q ==> f.id != e.id
    ensures Without(Insert(q, e), e.id) == q
  {
    if q != [] {
      assert q[0] in q;
      if EntryCmp(e, q[0]) >= 0 {
        InsertUndone(q[1..], e);
      } else {
        assert ([e] + q)[1..] == q;
      }
    }
  }

  /** The place has not been found among the first `i` entries. */
  ghost predicate Passed(q: seq<PoolEntry>, e: PoolEntry, i: nat) {
    i <= |q| && Insert(q, e) == q[..i] + Insert(q[i..], e)
  }

  lemma PassedStop(q: seq<PoolEntry>, e: PoolEntry, i: nat)
    requires Passed(q, e, i) && i < |q| && EntryCmp(e, q[i]) < 0
    ensures Insert(q, e) == q[..i] + [e] + q[i..]
  {
    assert q[i..] == [q[i]] + q[i + 1..];
    InsertOpened(q[i], q[i + 1..], e);
    Associative(q[..i], [e], q[i..]);
  }

  lemma PassedNext(q: seq<PoolEntry>, e: PoolEntry, i: nat)
    requires Passed(q, e, i) && i < |q| && EntryCmp(e, q[i]) >= 0
    ensures Passed(q, e, i + 1)
  {
    assert q[i..] == [q[i]] + q[i + 1..];
    InsertOpened(q[i], q[i + 1..], e);
    assert q[..i + 1] == q[..i] + [q[i]];
    Associative(q[..i], [q[i]], Insert(q[i + 1..], e));
  }

  lemma InsertOpened(f: PoolEntry, q: seq<PoolEntry>, e: PoolEntry)
    ensures Insert([f] + q, e) == if EntryCmp(e, f) < 0 then [e] + ([f] + q) else [f] + Insert(q, e)
  {
    assert ([f] + q)[1..] == q;
  }

  class Separator {
    var queue: seq<PoolEntry>

    constructor ()
      ensures queue == []
    {
      queue := [];
    }

    method Has(id: nat) returns (r: bool)
      ensures r <==> exists e :: e in queue && e.id == id
    {
      r := false;
      for i := 0 to |queue|
        invariant forall k :: 0 <= k < i ==> queue[k].id != id
      {
        if queue[i].id == id {
          assert queue[i] in queue;
          return true;
        }
      }
    }

    /** `separator_add`. */
    method Add(e: PoolEntry)
      modifies this
      ensures queue == Insert(old(queue), e)
    {
      var i := 0;
      while i < |queue|
        invariant queue == old(queue) && Passed(queue, e, i)
      {
        if EntryCmp(e, queue[i]) < 0 {
          PassedStop(queue, e, i);
          queue := queue[..i] + [e] + queue[i..];
          return;
        }
        PassedNext(queue, e, i);
        i := i + 1;
      }
      assert queue[..i] == queue;
      queue := queue + [e];
    }

    /** `separator_del`: the first occurrence of the entry goes. */
    method Del(id: nat)
      modifies this
      ensures queue == Without(old(queue), id)
    {
      var i := 0;
      while i < |queue| && queue[i].id != id
        invariant i <= |queue|
        invariant Without(queue, id) == queue[..i] + Without(queue[i..], id)
      {
        assert queue[i..][1..] == queue[i + 1..] && queue[..i + 1] == queue[..i] + [queue[i]];
        i := i + 1;
      }
      if i < |queue| {
        assert queue[i..][0] == queue[i] && queue[i..][1..] == queue[i + 1..];
        queue := queue[..i] + queue[i + 1..];
      } else {
        assert queue[..i] == queue;
      }
    }

    /** `mbb_unit_sep_reorder`: an entry whose `nice` has just been set to that of `e` gets its
        new place; the others keep theirs. */
    method Reorder(e: PoolEntry, ghost was: seq<PoolEntry>)
      requires InOrder(was) && IdsDistinct(was) && NiceOk(e)
      requires exists k :: 0 <= k < |was| && was[k].id == e.id && queue == was[k := e]
      modifies this
      ensures queue == Insert(Without(was, e.id), e)
      ensures InOrder(queue) && IdsDistinct(queue) && Without(queue, e.id) == Without(was, e.id)
      ensures forall f :: f in queue <==> f == e || (f in was && f.id != e.id)
    {
      ghost var k :| 0 <= k < |was| && was[k].id == e.id && queue == was[k := e];
      WithoutChanged(was, k, e);
      Del(e.id);
      Add(e);
      WithoutInOrder(was, e.id);
      WithoutMembers(was, e.id);
      InsertInOrder(Without(was, e.id), e);
      InsertDistinct(Without(was, e.id), e);
      InsertUndone(Without(was, e.id), e);
      InsertMembers(Without(was, e.id), e);
    }
  }

  lemma {:induction false} WithoutChanged(q: seq<PoolEntry>, k: nat, e: PoolEntry)
    requires IdsDistinct(q) && k < |q| && q[k].id == e.id
    ensures Without(q[k := e], e.id) == Without(q, e.id)
  {
    if k > 0 {
      assert q[k := e][1..] == q[1..][k - 1 := e];
      WithoutChanged(q[1..], k - 1, e);
    }
  }
}
