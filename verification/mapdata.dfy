/** The interval lists of `map.c` and what they hold.

A list link, a queue and a map entry are named by numbers that are never used twice.
 */
module MapData {
  import opened Slices

  /** A `struct map_entry` apart from its reference count, which is in `Store.refs`. */
  datatype Ent = Ent(rec: nat, slice: Slice, owner: nat)

  /** A link of an interval list: its address and the entry it points at. */
  datatype Cell = Cell(link: nat, ent: Ent)

  /** The data of a slice of the first axis: NULL or a list of intervals of the second. */
  datatype Data = Null | Queue(id: nat, cells: seq<Cell>)

  /** A `MapNode`, and the pool entry in whose `node_list` it is. */
  datatype Node = Node(queue: nat, link: nat)
  datatype Mark = Mark(owner: nat, node: Node)

  /** A `struct map_cross`. */
  datatype Crossing = Crossing(found: bool, slice: Slice, owner: nat)

  function CellsOf(d: Data): seq<Cell> {
    if d.Null? then [] else d.cells
  }

  function Ents(cells: seq<Cell>): seq<Ent> {
    seq(|cells|, i requires 0 <= i < |cells| => cells[i].ent)
  }

  function EntsOf(d: Data): seq<Ent> {
    Ents(CellsOf(d))
  }

  lemma EntsConcat(a: seq<Cell>, b: seq<Cell>)
    ensures Ents(a + b) == Ents(a) + Ents(b)
  {
  }

  // ---------------------------------------------------------------- ownership of points

  ghost predicate ListOwns(ents: seq<Ent>, y: nat, o: nat) {
    exists e :: e in ents && e.owner == o && In(e.slice, y)
  }

  predicate SliceOk(ops: Ops, s: Slice) {
    Fits(ops, s) && NonEmpty(s) && (ops == InetOps ==> s.end != 0)
  }

  ghost predicate Sorted(ops: Ops, ents: seq<Ent>) {
    && (forall i :: 0 <= i < |ents| ==> SliceOk(ops, ents[i].slice))
    && (forall i, j :: 0 <= i < j < |ents| ==> Before(ents[i].slice, ents[j].slice))
  }

  ghost predicate OwnerFree(ents: seq<Ent>, o: nat) {
    forall e :: e in ents ==> e.owner != o
  }

  ghost predicate Meets(ents: seq<Ent>, s: Slice) {
    exists e :: e in ents && !Apart(e.slice, s)
  }

  /** In a sorted list no point has two owners. */
  lemma OwnerUnique(ops: Ops, ents: seq<Ent>, y: nat, o: nat, p: nat)
    requires Sorted(ops, ents) && ListOwns(ents, y, o) && ListOwns(ents, y, p)
    ensures o == p
  {
    var c :| c in ents && c.owner == o && In(c.slice, y);
    var d :| d in ents && d.owner == p && In(d.slice, y);
    var i :| 0 <= i < |ents| && ents[i] == c;
    var j :| 0 <= j < |ents| && ents[j] == d;
    assert i <= j && j <= i;
  }

  lemma ListOwnsConcat(a: seq<Ent>, b: seq<Ent>, y: nat, o: nat)
    ensures ListOwns(a + b, y, o) <==> ListOwns(a, y, o) || ListOwns(b, y, o)
  {
  }

  // ---------------------------------------------------------------- replacing a window

  /** Two lists make a sorted list when they are sorted and meet in order. */
  lemma SortedConcat(ops: Ops, a: seq<Ent>, b: seq<Ent>)
    ensures Sorted(ops, a + b) <==>
      Sorted(ops, a) && Sorted(ops, b) && (a != [] && b != [] ==> Before(a[|a| - 1].slice, b[0].slice))
  {
    var c := a + b;
    assert forall i :: 0 <= i < |b| ==> c[|a| + i] == b[i];
    if Sorted(ops, c) {
      assert forall i :: 0 <= i < |a| ==> c[i] == a[i];
      forall i, j | 0 <= i < j < |b|
        ensures Before(b[i].slice, b[j].slice)
      {
        assert c[|a| + i] == b[i] && c[|a| + j] == b[j];
      }
    }
  }

  /** The window `w` of a sorted list gives way to one entry `m` that fits in its place. */
  lemma SplicedSorted(ops: Ops, a: seq<Ent>, w: seq<Ent>, b: seq<Ent>, m: Ent)
    requires Sorted(ops, a + w + b) && SliceOk(ops, m.slice)
    requires a != [] ==> Before(a[|a| - 1].slice, m.slice)
    requires b != [] ==> Before(m.slice, b[0].slice)
    ensures Sorted(ops, a + [m] + b)
  {
    SortedConcat(ops, a + w, b);
    SortedConcat(ops, a, w);
    SortedConcat(ops, a, [m]);
    SortedConcat(ops, a + [m], b);
  }

  /** If `m` covers `cur` and the window, only the points of `cur` change owner. */
  lemma SplicedOwns(a: seq<Ent>, w: seq<Ent>, b: seq<Ent>, cur: Ent, m: Ent, y: nat, o: nat)
    requires m.owner == cur.owner && forall e :: e in w ==> e.owner == cur.owner
    requires In(m.slice, y) <==> In(cur.slice, y) || exists e :: e in w && In(e.slice, y)
    ensures ListOwns(a + [m] + b, y, o) <==> ListOwns(a + w + b, y, o) || (o == cur.owner && In(cur.slice, y))
  {
    ListOwnsConcat(a + w, b, y, o);
    ListOwnsConcat(a, w, y, o);
    ListOwnsConcat(a + [m], b, y, o);
    ListOwnsConcat(a, [m], y, o);
    assert m in [m];
  }

  // ---------------------------------------------------------------- what a list holds

  function MarkOf(id: nat, c: Cell): Mark {
    Mark(c.ent.owner, Node(id, c.link))
  }

  /** How many cells are the link that `m` names. */
  ghost function MarkCount(id: nat, cells: seq<Cell>, m: Mark): nat {
    if cells == [] then 0 else Is(MarkOf(id, cells[0]) == m) + MarkCount(id, cells[1..], m)
  }

  /** How many of the links point at the entry `r`. */
  ghost function RecCount(ents: seq<Ent>, r: nat): nat {
    if ents == [] then 0 else Is(ents[0].rec == r) + RecCount(ents[1..], r)
  }

  ghost function NodesOf(d: Data, m: Mark): nat {
    if d.Null? then 0 else MarkCount(d.id, d.cells, m)
  }

  ghost function RecsOf(d: Data, r: nat): nat {
    RecCount(EntsOf(d), r)
  }

  lemma {:induction false} MarkCountConcat(id: nat, a: seq<Cell>, b: seq<Cell>, m: Mark)
    ensures MarkCount(id, a + b, m) == MarkCount(id, a, m) + MarkCount(id, b, m)
  {
    if a == [] {
      assert a + b == b;
    } else {
      MarkCountConcat(id, a[1..], b, m);
      assert (a + b)[1..] == a[1..] + b;
    }
  }

  lemma {:induction false} RecCountConcat(a: seq<Ent>, b: seq<Ent>, r: nat)
    ensures RecCount(a + b, r) == RecCount(a, r) + RecCount(b, r)
  {
    if a == [] {
      assert a + b == b;
    } else {
      RecCountConcat(a[1..], b, r);
      assert (a + b)[1..] == a[1..] + b;
    }
  }

  lemma HeldConcat(id: nat, a: seq<Cell>, b: seq<Cell>)
    ensures Ents(a + b) == Ents(a) + Ents(b)
    ensures forall m :: MarkCount(id, a + b, m) == MarkCount(id, a, m) + MarkCount(id, b, m)
    ensures forall r :: RecCount(Ents(a + b), r) == RecCount(Ents(a), r) + RecCount(Ents(b), r)
  {
    EntsConcat(a, b);
    forall m ensures MarkCount(id, a + b, m) == MarkCount(id, a, m) + MarkCount(id, b, m) {
      MarkCountConcat(id, a, b, m);
    }
    forall r ensures RecCount(Ents(a + b), r) == RecCount(Ents(a), r) + RecCount(Ents(b), r) {
      RecCountConcat(Ents(a), Ents(b), r);
    }
  }

  lemma HeldOne(id: nat, c: Cell)
    ensures Ents([c]) == [c.ent]
    ensures forall m :: MarkCount(id, [c], m) == Is(m == MarkOf(id, c))
    ensures forall r :: RecCount(Ents([c]), r) == Is(r == c.ent.rec)
  {
    assert Ents([c]) == [c.ent];
  }

  lemma HeldStep(id: nat, cells: seq<Cell>, i: nat)
    requires i < |cells|
    ensures forall m :: MarkCount(id, cells[i..], m) == Is(m == MarkOf(id, cells[i])) + MarkCount(id, cells[i + 1..], m)
    ensures forall r :: RecCount(Ents(cells[i..]), r) == Is(r == cells[i].ent.rec) + RecCount(Ents(cells[i + 1..]), r)
  {
    assert cells[i..] == [cells[i]] + cells[i + 1..];
    HeldConcat(id, [cells[i]], cells[i + 1..]);
    HeldOne(id, cells[i]);
  }

  lemma {:induction false} RecCountMember(ents: seq<Ent>, e: Ent)
    requires e in ents
    ensures RecCount(ents, e.rec) > 0
  {
    if ents[0] != e {
      RecCountMember(ents[1..], e);
    }
  }

  // ---------------------------------------------------------------- joining and placing

  /** The second interval begins where the first ends, as `map_data_split` tests it. */
  predicate Touch(ops: Ops, a: Slice, b: Slice) {
    Cmp(ops, b.begin, a.end) == 1
  }

  function Join(a: Slice, b: Slice): Slice {
    Slice(a.begin, b.end)
  }

  /** For times, touching intervals are adjacent and their join adds no point. */
  lemma JoinTimes(a: Slice, b: Slice)
    requires SliceOk(TimeOps, a) && SliceOk(TimeOps, b) && Before(a, b)
    ensures Touch(TimeOps, a, b) <==> b.begin == a.end + 1
    ensures SliceOk(TimeOps, Join(a, b))
    ensures Touch(TimeOps, a, b) <==> forall y: nat :: In(Join(a, b), y) <==> In(a, y) || In(b, y)
  {
    assert Touch(TimeOps, a, b) <==> b.begin == a.end + 1;
    if b.begin != a.end + 1 {
      assert In(Join(a, b), a.end + 1) && !In(a, a.end + 1) && !In(b, a.end + 1);
    }
  }

  /** For addresses the same test accepts any gap, so that two intervals of one owner would be
      joined over the addresses between them: the join is right exactly when there are none. */
  lemma JoinInets(a: Slice, b: Slice)
    requires SliceOk(InetOps, a) && SliceOk(InetOps, b) && Before(a, b)
    ensures Touch(InetOps, a, b)
    ensures (forall y: nat :: In(Join(a, b), y) <==> In(a, y) || In(b, y)) <==> b.begin == a.end + 1
  {
    if b.begin != a.end + 1 {
      assert In(Join(a, b), a.end + 1) && !In(a, a.end + 1) && !In(b, a.end + 1);
    }
  }

  /** The place of `cur` in a sorted list that it does not meet. */
  ghost predicate PlaceOf(ents: seq<Ent>, i: nat, s: Slice) {
    && i <= |ents|
    && (forall j :: 0 <= j < i ==> Before(ents[j].slice, s))
    && (forall j :: i <= j < |ents| ==> Before(s, ents[j].slice))
  }

  /** The neighbours of the place `i` with the owner `o` are adjacent to `s`. */
  predicate SnugAt(ents: seq<Ent>, i: nat, s: Slice, o: nat) {
    && (0 < i <= |ents| && ents[i - 1].owner == o ==> s.begin == ents[i - 1].slice.end + 1)
    && (i < |ents| && ents[i].owner == o ==> ents[i].slice.begin == s.end + 1)
  }

  /** The same for the place that `s` has in the list. It matters to addresses only: for times the
      test of `map_data_split` makes sure of it. */
  ghost predicate Snug(ops: Ops, ents: seq<Ent>, s: Slice, o: nat) {
    ops == InetOps ==> forall i: nat :: PlaceOf(ents, i, s) ==> SnugAt(ents, i, s, o)
  }

  lemma SnugPlace(ents: seq<Ent>, i: nat, s: Slice, o: nat)
    requires Sorted(InetOps, ents) && SliceOk(InetOps, s) && PlaceOf(ents, i, s)
    ensures Snug(InetOps, ents, s, o) <==> SnugAt(ents, i, s, o)
  {
    forall j: nat | PlaceOf(ents, j, s)
      ensures j == i
    {
      assert j < i ==> Before(ents[j].slice, s) && Before(s, ents[j].slice);
      assert i < j ==> Before(ents[i].slice, s) && Before(s, ents[i].slice);
    }
  }

  function Placed(cells: seq<Cell>, lo: nat, hi: nat, c: Cell): seq<Cell>
    requires lo <= hi <= |cells|
  {
    cells[..lo] + [c] + cells[hi..]
  }

  /** The entries `lo .. hi` on either side of the place of `cur` give way to `c`: exactly the
      neighbours of the owner of `cur` that touch it. */
  predicate Joins(ops: Ops, ents: seq<Ent>, i: nat, lo: nat, hi: nat, cur: Ent, c: Ent) {
    && i - 1 <= lo <= i <= hi <= i + 1 && hi <= |ents|
    && (lo < i <==> 0 < i <= |ents| && ents[i - 1].owner == cur.owner && Touch(ops, ents[i - 1].slice, cur.slice))
    && (i < hi <==> i < |ents| && ents[i].owner == cur.owner && Touch(ops, cur.slice, ents[i].slice))
    && c.owner == cur.owner
    && c.slice.begin == (if lo < i then ents[lo].slice.begin else cur.slice.begin)
    && c.slice.end == (if i < hi then ents[i].slice.end else cur.slice.end)
  }

  ghost predicate JoinsPoints(w: seq<Ent>, cur: Ent, c: Ent) {
    && (forall e :: e in w ==> e.owner == cur.owner)
    && (forall y: nat :: In(c.slice, y) <==> In(cur.slice, y) || exists e :: e in w && In(e.slice, y))
  }

  /** The join covers only the points of its parts if and only if no gap lies between them. */
  lemma JoinsMeaning(ops: Ops, ents: seq<Ent>, i: nat, lo: nat, hi: nat, cur: Ent, c: Ent)
    requires Sorted(ops, ents) && PlaceOf(ents, i, cur.slice) && SliceOk(ops, cur.slice)
    requires Joins(ops, ents, i, lo, hi, cur, c)
    ensures SliceOk(ops, c.slice) && (JoinsPoints(ents[lo..hi], cur, c) <==> Snug(ops, ents, cur.slice, cur.owner))
  {
    assert ents[lo..hi] == (if lo < i then [ents[lo]] else []) + (if i < hi then [ents[i]] else []);
    if ops == TimeOps {
      JoinedTimes(ents, i, lo, hi, cur, c);
    } else {
      SnugPlace(ents, i, cur.slice, cur.owner);
      if SnugAt(ents, i, cur.slice, cur.owner) {
        JoinedSnug(ents, i, lo, hi, cur, c);
      } else {
        var y := JoinedGap(ents, i, lo, hi, cur, c);
      }
    }
  }

  lemma JoinedTimes(ents: seq<Ent>, i: nat, lo: nat, hi: nat, cur: Ent, c: Ent)
    requires Sorted(TimeOps, ents) && PlaceOf(ents, i, cur.slice) && SliceOk(TimeOps, cur.slice)
    requires Joins(TimeOps, ents, i, lo, hi, cur, c)
    ensures SliceOk(TimeOps, c.slice) && JoinsPoints(ents[lo..hi], cur, c)
  {
    if lo < i {
      JoinTimes(ents[lo].slice, cur.slice);
    }
    if i < hi {
      JoinTimes(cur.slice, ents[i].slice);
    }
    if lo < i < hi {
      JoinTimes(Join(ents[lo].slice, cur.slice), ents[i].slice);
      assert ents[lo..hi] == [ents[lo], ents[i]];
    } else if lo < hi {
      assert ents[lo..hi] == [ents[lo]];
    }
  }

  lemma JoinedSnug(ents: seq<Ent>, i: nat, lo: nat, hi: nat, cur: Ent, c: Ent)
    requires Sorted(InetOps, ents) && PlaceOf(ents, i, cur.slice) && SliceOk(InetOps, cur.slice)
    requires Joins(InetOps, ents, i, lo, hi, cur, c) && SnugAt(ents, i, cur.slice, cur.owner)
    ensures JoinsPoints(ents[lo..hi], cur, c)
  {
    if lo < i {
      JoinInets(ents[lo].slice, cur.slice);
    }
    if i < hi {
      JoinInets(cur.slice, ents[i].slice);
    }
    if lo < i < hi {
      JoinInets(Join(ents[lo].slice, cur.slice), ents[i].slice);
      assert ents[lo..hi] == [ents[lo], ents[i]];
    } else if lo < hi {
      assert ents[lo..hi] == [ents[lo]];
    }
  }

  /** A point of the join that neither the new interval nor any interval of the list has. */
  lemma JoinedGap(ents: seq<Ent>, i: nat, lo: nat, hi: nat, cur: Ent, c: Ent) returns (y: nat)
    requires Sorted(InetOps, ents) && PlaceOf(ents, i, cur.slice) && SliceOk(InetOps, cur.slice)
    requires Joins(InetOps, ents, i, lo, hi, cur, c) && !SnugAt(ents, i, cur.slice, cur.owner)
    ensures In(c.slice, y) && !In(cur.slice, y) && forall e :: e in ents ==> !In(e.slice, y)
  {
    if lo < i && cur.slice.begin != ents[i - 1].slice.end + 1 {
      y := ents[i - 1].slice.end + 1;
    } else {
      y := cur.slice.end + 1;
    }
    forall e | e in ents
      ensures !In(e.slice, y)
    {
      var k :| 0 <= k < |ents| && ents[k] == e;
      assert k < i - 1 ==> Before(ents[k].slice, ents[i - 1].slice);
      assert i < k ==> Before(ents[i].slice, ents[k].slice);
    }
  }

  lemma JoinFits(ops: Ops, ents: seq<Ent>, i: nat, lo: nat, hi: nat, cur: Ent, c: Ent)
    requires Sorted(ops, ents) && PlaceOf(ents, i, cur.slice)
    requires Joins(ops, ents, i, lo, hi, cur, c)
    ensures 0 < lo ==> Before(ents[lo - 1].slice, c.slice)
    ensures hi < |ents| ==> Before(c.slice, ents[hi].slice)
  {
    assert i < hi < |ents| ==> Before(ents[hi - 1].slice, ents[hi].slice);
    assert 0 < lo < i ==> Before(ents[lo - 1].slice, ents[lo].slice);
  }

  lemma PlacedSorted(ops: Ops, cells: seq<Cell>, lo: nat, hi: nat, c: Cell)
    requires lo <= hi <= |cells| && Sorted(ops, Ents(cells)) && SliceOk(ops, c.ent.slice)
    requires 0 < lo ==> Before(Ents(cells)[lo - 1].slice, c.ent.slice)
    requires hi < |cells| ==> Before(c.ent.slice, Ents(cells)[hi].slice)
    ensures Sorted(ops, Ents(Placed(cells, lo, hi, c)))
  {
    var a, w, b := Ents(cells)[..lo], Ents(cells)[lo..hi], Ents(cells)[hi..];
    assert Ents(cells) == a + w + b;
    assert Ents(Placed(cells, lo, hi, c)) == a + [c.ent] + b;
    SplicedSorted(ops, a, w, b, c.ent);
  }

  lemma PlacedOwns(cells: seq<Cell>, lo: nat, hi: nat, cur: Ent, c: Cell)
    requires lo <= hi <= |cells| && c.ent.owner == cur.owner && JoinsPoints(Ents(cells)[lo..hi], cur, c.ent)
    ensures forall y: nat, o: nat ::
      ListOwns(Ents(Placed(cells, lo, hi, c)), y, o) <==> ListOwns(Ents(cells), y, o) || (o == cur.owner && In(cur.slice, y))
  {
    var ents := Ents(cells);
    var a, w, b := ents[..lo], ents[lo..hi], ents[hi..];
    assert ents == a + w + b;
    assert Ents(Placed(cells, lo, hi, c)) == a + [c.ent] + b;
    forall y: nat, o: nat
      ensures ListOwns(a + [c.ent] + b, y, o) <==> ListOwns(ents, y, o) || (o == cur.owner && In(cur.slice, y))
    {
      SplicedOwns(a, w, b, cur, c.ent, y, o);
    }
  }

  /** The list stays sorted, and exactly the points of `cur` get an owner if and only if every
      neighbour of the same owner is adjacent, as far as it is joined. */
  lemma PlacedMeaning(ops: Ops, cells: seq<Cell>, i: nat, lo: nat, hi: nat, cur: Ent, c: Cell)
    requires Sorted(ops, Ents(cells)) && PlaceOf(Ents(cells), i, cur.slice) && SliceOk(ops, cur.slice)
    requires Joins(ops, Ents(cells), i, lo, hi, cur, c.ent)
    ensures Sorted(ops, Ents(Placed(cells, lo, hi, c)))
    ensures PointsAdded(Ents(cells), cur, Ents(Placed(cells, lo, hi, c))) <==> Snug(ops, Ents(cells), cur.slice, cur.owner)
  {
    JoinsMeaning(ops, Ents(cells), i, lo, hi, cur, c.ent);
    JoinFits(ops, Ents(cells), i, lo, hi, cur, c.ent);
    PlacedSorted(ops, cells, lo, hi, c);
    if Snug(ops, Ents(cells), cur.slice, cur.owner) {
      PlacedOwns(cells, lo, hi, cur, c);
    } else {
      SnugPlace(Ents(cells), i, cur.slice, cur.owner);
      var y := JoinedGap(Ents(cells), i, lo, hi, cur, c.ent);
      assert Placed(cells, lo, hi, c)[lo] == c && Ents(Placed(cells, lo, hi, c))[lo] == c.ent;
      assert ListOwns(Ents(Placed(cells, lo, hi, c)), y, cur.owner) && !ListOwns(Ents(cells), y, cur.owner);
    }
  }

  /** Exactly the points of `cur` have got an owner. */
  ghost predicate PointsAdded(ents: seq<Ent>, cur: Ent, r: seq<Ent>) {
    forall y: nat, o: nat :: ListOwns(r, y, o) <==> ListOwns(ents, y, o) || (o == cur.owner && In(cur.slice, y))
  }

  predicate BridgesAt(ops: Ops, a: Ent, cur: Ent, b: Ent) {
    && a.owner == cur.owner == b.owner
    && Before(a.slice, cur.slice) && Touch(ops, a.slice, cur.slice)
    && Before(cur.slice, b.slice) && Touch(ops, cur.slice, b.slice)
  }

  /** The new interval fills the gap between two intervals of its own owner. */
  ghost predicate BridgesGap(ops: Ops, ents: seq<Ent>, cur: Ent) {
    exists i :: 0 < i < |ents| && BridgesAt(ops, ents[i - 1], cur, ents[i])
  }

  lemma BridgeAtPlace(ops: Ops, ents: seq<Ent>, i: nat, lo: nat, hi: nat, cur: Ent, c: Ent)
    requires Sorted(ops, ents) && SliceOk(ops, cur.slice) && PlaceOf(ents, i, cur.slice)
    requires Joins(ops, ents, i, lo, hi, cur, c)
    ensures lo < i < hi <==> BridgesGap(ops, ents, cur)
  {
    if lo < i < hi {
      assert BridgesAt(ops, ents[i - 1], cur, ents[i]);
    }
    if BridgesGap(ops, ents, cur) {
      var k :| 0 < k < |ents| && BridgesAt(ops, ents[k - 1], cur, ents[k]);
      assert k - 1 < i <= k;
    }
  }

  lemma PlacedHeld(id: nat, cells: seq<Cell>, lo: nat, hi: nat, c: Cell)
    requires lo <= hi <= |cells|
    ensures forall m :: MarkCount(id, Placed(cells, lo, hi, c), m) + MarkCount(id, cells[lo..hi], m)
                        == MarkCount(id, cells, m) + Is(m == MarkOf(id, c))
    ensures forall r :: RecCount(Ents(Placed(cells, lo, hi, c)), r) + RecCount(Ents(cells[lo..hi]), r)
                        == RecCount(Ents(cells), r) + Is(r == c.ent.rec)
  {
    assert cells == cells[..lo] + cells[lo..hi] + cells[hi..];
    HeldConcat(id, cells[..lo] + cells[lo..hi], cells[hi..]);
    HeldConcat(id, cells[..lo], cells[lo..hi]);
    HeldConcat(id, cells[..lo] + [c], cells[hi..]);
    HeldConcat(id, cells[..lo], [c]);
    HeldOne(id, c);
  }

  /** The window of a placement holds no, one or two cells. */
  lemma HeldWindow(id: nat, cells: seq<Cell>, lo: nat, hi: nat)
    requires lo <= hi <= |cells| && hi - lo <= 2
    ensures forall m :: MarkCount(id, cells[lo..hi], m) == Is(lo < hi && MarkOf(id, cells[lo]) == m) + Is(lo + 1 < hi && MarkOf(id, cells[lo + 1]) == m)
    ensures forall r :: RecCount(Ents(cells[lo..hi]), r) == Is(lo < hi && cells[lo].ent.rec == r) + Is(lo + 1 < hi && cells[lo + 1].ent.rec == r)
    ensures forall r :: RecCount(Ents(cells), r) >= RecCount(Ents(cells[lo..hi]), r)
  {
    if hi == lo + 1 {
      assert cells[lo..hi] == [cells[lo]];
      HeldOne(id, cells[lo]);
    } else if hi == lo + 2 {
      assert cells[lo..hi] == [cells[lo]] + [cells[lo + 1]];
      HeldConcat(id, [cells[lo]], [cells[lo + 1]]);
      HeldOne(id, cells[lo]);
      HeldOne(id, cells[lo + 1]);
    }
    assert cells == cells[..lo] + cells[lo..hi] + cells[hi..];
    HeldConcat(id, cells[..lo] + cells[lo..hi], cells[hi..]);
    HeldConcat(id, cells[..lo], cells[lo..hi]);
  }

  // ---------------------------------------------------------------- deleting from a list

  /** A deletion of the points of `cur` owned by `who`, or by anybody when `who` is NULL. */
  predicate Hits(cur: Slice, who: Option<nat>, y: nat, o: nat) {
    In(cur, y) && (who.None? || who.value == o)
  }

  /** Every cut that the deletion makes in the list is safe. */
  ghost predicate CutsSafe(ops: Ops, ents: seq<Ent>, cur: Slice, who: Option<nat>) {
    forall e :: e in ents && (who.None? || who.value == e.owner) && !Apart(e.slice, cur) ==> CutSafe(ops, e.slice, cur)
  }

  /** That is so exactly when `cur` does not begin at 1 or no interval to be cut has the point 0. */
  lemma CutsSafeMeaning(ops: Ops, ents: seq<Ent>, cur: Slice, who: Option<nat>)
    requires Sorted(ops, ents) && SliceOk(ops, cur)
    ensures CutsSafe(ops, ents, cur, who) <==> (cur.begin == 1 ==> forall o: nat :: ListOwns(ents, 0, o) ==> who.Some? && who.value != o)
  {
    assert forall e :: e in ents ==> SliceOk(ops, e.slice);
    if cur.begin == 1 {
      if CutsSafe(ops, ents, cur, who) {
        forall o: nat | ListOwns(ents, 0, o)
          ensures who.Some? && who.value != o
        {
          var e :| e in ents && e.owner == o && In(e.slice, 0);
        }
      } else {
        var e :| e in ents && (who.None? || who.value == e.owner) && !CutSafe(ops, e.slice, cur);
        assert SliceOk(ops, e.slice) && !CutSafe(ops, e.slice, cur) && In(e.slice, 0);
        assert ListOwns(ents, 0, e.owner);
      }
    }
  }

  /** What deletion leaves of one entry: exactly the points not hit, in order, within its slice. */
  ghost predicate Survives(ops: Ops, e: Ent, cur: Slice, who: Option<nat>, left: seq<Ent>) {
    && Sorted(ops, left)
    && (forall k :: 0 <= k < |left| ==> Within(left[k].slice, e.slice))
    && (forall y: nat, o: nat :: ListOwns(left, y, o) <==> o == e.owner && In(e.slice, y) && !Hits(cur, who, y, o))
  }

  /** What deletion leaves of the first links, followed by the links still to be visited. */
  ghost predicate DelDone(ops: Ops, ents: seq<Ent>, i: nat, cur: Slice, who: Option<nat>, done: seq<Ent>) {
    && i <= |ents| && Sorted(ops, done)
    && (done != [] && i < |ents| ==> Before(done[|done| - 1].slice, ents[i].slice))
    && (forall y: nat, o: nat :: ListOwns(done, y, o) <==> ListOwns(ents[..i], y, o) && !Hits(cur, who, y, o))
  }

  lemma DelDoneStep(ops: Ops, ents: seq<Ent>, i: nat, cur: Slice, who: Option<nat>, done: seq<Ent>, left: seq<Ent>)
    requires Sorted(ops, ents) && DelDone(ops, ents, i, cur, who, done)
    requires i < |ents| && Survives(ops, ents[i], cur, who, left)
    ensures DelDone(ops, ents, i + 1, cur, who, done + left)
  {
    SortedConcat(ops, done, left);
    assert ents[..i + 1] == ents[..i] + [ents[i]];
    forall y: nat, o: nat
      ensures ListOwns(done + left, y, o) <==> ListOwns(ents[..i + 1], y, o) && !Hits(cur, who, y, o)
    {
      ListOwnsConcat(done, left, y, o);
      ListOwnsConcat(ents[..i], [ents[i]], y, o);
      assert ents[i] in [ents[i]];
    }
    if i + 1 < |ents| {
      assert Before(ents[i].slice, ents[i + 1].slice);
    }
  }

  function PieceEnts(owner: nat, recs: seq<nat>, c: Cross): seq<Ent>
    requires |recs| == 2
  {
    (if c.left.Some? then [Ent(recs[0], c.left.value, owner)] else []) +
    (if c.right.Some? then [Ent(recs[1], c.right.value, owner)] else [])
  }

  lemma PiecesSurvive(ops: Ops, e: Ent, cur: Slice, who: Option<nat>, recs: seq<nat>)
    requires SliceOk(ops, e.slice) && SliceOk(ops, cur) && CutSafe(ops, e.slice, cur) && |recs| == 2
    requires who.None? || who.value == e.owner
    requires !Apart(e.slice, cur)
    ensures Survives(ops, e, cur, who, PieceEnts(e.owner, recs, SliceCross(ops, e.slice, cur)))
  {
    var c := SliceCross(ops, e.slice, cur);
    SliceCrossExact(ops, e.slice, cur);
    SliceCrossShape(ops, e.slice, cur);
    var left := PieceEnts(e.owner, recs, c);
    forall y: nat, o: nat
      ensures ListOwns(left, y, o) <==> o == e.owner && In(e.slice, y) && !Hits(cur, who, y, o)
    {
      assert c.left.Some? ==> left[0] == Ent(recs[0], c.left.value, e.owner) && left[0] in left;
      assert c.right.Some? ==> left[|left| - 1] == Ent(recs[1], c.right.value, e.owner) && left[|left| - 1] in left;
    }
  }

  lemma UntouchedSurvives(ops: Ops, e: Ent, cur: Slice, who: Option<nat>)
    requires SliceOk(ops, e.slice) && SliceOk(ops, cur)
    requires (who.Some? && who.value != e.owner) || Apart(e.slice, cur)
    ensures Survives(ops, e, cur, who, [e])
  {
    forall y: nat, o: nat
      ensures ListOwns([e], y, o) <==> o == e.owner && In(e.slice, y) && !Hits(cur, who, y, o)
    {
      assert e in [e];
    }
  }

  // ---------------------------------------------------------------- the outcome on one list

  /** What `slicer_apply_change` does to the data of the slices it covers. */
  datatype Change = Adding(cur: Ent) | Deleting(slice: Slice, who: Option<nat>)

  /** What the operation made of one list: the outcome and the new content. */
  ghost predicate DataChanged(dops: Ops, ch: Change, cross: Crossing, cross': Crossing, d: Data, r: Data) {
    match ch
    case Adding(cur) =>
      && (cross.found ==> cross' == cross)
      && (!cross.found ==> (cross'.found <==> Meets(EntsOf(d), cur.slice)))
      && (!cross.found && cross'.found ==>
            exists e :: e in EntsOf(d) && !Apart(e.slice, cur.slice) && cross' == Crossing(true, e.slice, e.owner))
      && (cross'.found ==> EntsOf(r) == EntsOf(d))
      && (!cross'.found ==> Sorted(dops, EntsOf(r)) && forall y: nat, o: nat ::
            ListOwns(EntsOf(r), y, o) <==> ListOwns(EntsOf(d), y, o) || (o == cur.owner && In(cur.slice, y)))
    case Deleting(cur, who) =>
      && cross' == cross && Sorted(dops, EntsOf(r))
      && forall y: nat, o: nat :: ListOwns(EntsOf(r), y, o) <==> ListOwns(EntsOf(d), y, o) && !Hits(cur, who, y, o)
  }

}
