/** The operations of `map.c` on one interval list, with the reference counts of the map entries
and the calls of `node_add` and `node_del` that keep the back-index of `mbbinetpool.c`.
 */
module MapStore {
  import opened Slices
  import opened MapData

  function NodeList(index: map<nat, seq<Node>>, o: nat): seq<Node> {
    if o in index then index[o] else []
  }

  ghost function Times(s: seq<Node>, n: Node): nat {
    if s == [] then 0 else Is(s[0] == n) + Times(s[1..], n)
  }

  /** `g_list_delete_link` of the link that `g_list_find_custom` gives, if any. */
  function RemoveFirst(s: seq<Node>, n: Node): (r: seq<Node>)
    ensures forall k :: Times(r, k) == if k == n && Times(s, k) > 0 then Times(s, k) - 1 else Times(s, k)
  {
    if s == [] then []
    else if s[0] == n then s[1..]
    else
      var r := RemoveFirst(s[1..], n);
      assert ([s[0]] + r)[1..] == r;
      [s[0]] + r
  }

  /** The reference count of an entry; a freed entry has none. */
  function RefCount(refs: map<nat, nat>, r: nat): nat {
    if r in refs then refs[r] else 0
  }

  /** How often a pool entry lists a node. */
  ghost function NodeCount(index: map<nat, seq<Node>>, m: Mark): nat {
    Times(NodeList(index, m.owner), m.node)
  }

  ghost predicate AllHeld(ents: seq<Ent>, refs: map<nat, nat>) {
    forall e :: e in ents ==> RefCount(refs, e.rec) > 0
  }

  /** A placement trades the references of the window and of `cur` for that of `c`. */
  ghost predicate RefsMoved(was: map<nat, nat>, now: map<nat, nat>, w: seq<Cell>, cur: Ent, c: Cell) {
    forall q :: RefCount(now, q) + RecCount(Ents(w), q) + Is(q == cur.rec) == RefCount(was, q) + Is(q == c.ent.rec)
  }

  /** A placement trades the nodes of the window for that of `c`, except that `lost` stays. */
  ghost predicate NodesMoved(was: map<nat, seq<Node>>, now: map<nat, seq<Node>>, id: nat, w: seq<Cell>, c: Cell, lost: Option<Mark>) {
    forall m :: NodeCount(now, m) + MarkCount(id, w, m) == NodeCount(was, m) + Is(m == MarkOf(id, c)) + Is(lost == Some(m))
  }

  ghost predicate RefsKept(was: map<nat, nat>, now: map<nat, nat>, d: Data, r: Data) {
    forall q :: RefCount(now, q) + RecsOf(d, q) == RefCount(was, q) + RecsOf(r, q)
  }

  ghost predicate NodesKept(was: map<nat, seq<Node>>, now: map<nat, seq<Node>>, d: Data, r: Data, lost: Option<Mark>) {
    forall m :: NodeCount(now, m) + NodesOf(d, m) == NodeCount(was, m) + NodesOf(r, m) + Is(lost == Some(m))
  }

  /** A crossing is reported exactly when `cur` meets an entry of the list, and names such an entry. */
  ghost predicate AddOutcome(d: Data, cur: Ent, cross: Crossing, r: Data, cross': Crossing) {
    && (cross.found ==> cross' == cross)
    && (!cross.found ==> (cross'.found <==> Meets(EntsOf(d), cur.slice)))
    && (!cross.found && cross'.found ==>
          exists e :: e in EntsOf(d) && !Apart(e.slice, cur.slice) && cross' == Crossing(true, e.slice, e.owner))
    && (cross'.found ==> r == d)
    && (!cross'.found ==> cross' == cross)
  }

  /** The list stays sorted, and exactly the points of `cur` get an owner if and only if every
      neighbour of the same owner is adjacent. */
  ghost predicate AddContent(ops: Ops, d: Data, cur: Ent, r: Data) {
    && r.Queue? && Sorted(ops, EntsOf(r))
    && (PointsAdded(EntsOf(d), cur, EntsOf(r)) <==> Snug(ops, EntsOf(d), cur.slice, cur.owner))
  }

  lemma AllHeldIn(refs: map<nat, nat>, d: Data)
    requires forall q :: RefCount(refs, q) >= RecsOf(d, q)
    ensures AllHeld(EntsOf(d), refs)
  {
    forall e | e in EntsOf(d)
      ensures RefCount(refs, e.rec) > 0
    {
      RecCountMember(EntsOf(d), e);
    }
  }

  /** What the data operations need: bounds that the comparators order, for an addition to an address
      list no neighbour of the same owner behind a gap, and for a deletion safe cuts. */
  ghost predicate ChangeOk(dops: Ops, ch: Change, d: Data) {
    match ch
    case Adding(cur) =>
      SliceOk(dops, cur.slice) && Snug(dops, EntsOf(d), cur.slice, cur.owner)
    case Deleting(cur, who) =>
      SliceOk(dops, cur) && CutsSafe(dops, EntsOf(d), cur, who)
  }

  /** No node is listed twice, and nodes with the same link are the same. */
  ghost predicate Unique(index: map<nat, seq<Node>>, next: nat) {
    forall k {:trigger Open(k)} :: Open(k) ==>
      && (forall m :: NodeCount(index, m) > 0 ==> NodeCount(index, m) == 1 && m.node.link < next)
      && (forall m, n :: NodeCount(index, m) > 0 && NodeCount(index, n) > 0 && m.node.link == n.node.link ==> m == n)
  }

  lemma UniqueLater(index: map<nat, seq<Node>>, next: nat, later: nat)
    requires Unique(index, next) && next <= later
    ensures Unique(index, later)
  {
    assert Open(0);
  }

  lemma UniqueAdd(index: map<nat, seq<Node>>, index': map<nat, seq<Node>>, next: nat, mark: Mark)
    requires Unique(index, next) && mark.node.link == next
    requires forall m :: NodeCount(index', m) == NodeCount(index, m) + Is(m == mark)
    ensures Unique(index', next + 1)
  {
    assert Open(0);
  }

  lemma UniqueDel(index: map<nat, seq<Node>>, index': map<nat, seq<Node>>, next: nat)
    requires Unique(index, next)
    requires forall m :: NodeCount(index', m) <= NodeCount(index, m)
    ensures Unique(index', next)
  {
    assert Open(0);
  }

  lemma UniqueNone(next: nat)
    ensures Unique(map[], next)
  {
    assert forall m :: NodeCount(map[], m) == 0;
  }

  class Store {
    const ops: Ops        // the operations of the second axis
    const tracked: bool   // the handlers node_add and node_del are installed
    var next: nat         // the next unused name
    var refs: map<nat, nat>
    var index: map<nat, seq<Node>>

    constructor (ops: Ops, tracked: bool)
      ensures this.ops == ops && this.tracked == tracked
      ensures Valid() && refs == map[] && index == map[]
    {
      this.ops, this.tracked := ops, tracked;
      next, refs, index := 1, map[], map[];
      UniqueNone(1);
    }

    /** An entry with no references is freed, and names are used once. */
    ghost predicate Valid()
      reads this
    {
      && (forall r :: r in refs ==> 0 < refs[r] && r < next)
      && Unique(index, next)
    }

    method EntryNew(slice: Slice, owner: nat) returns (e: Ent)
      requires Valid()
      modifies this`next, this`refs
      ensures Valid() && next == old(next) + 1
      ensures e == Ent(old(next), slice, owner) && e.rec !in old(refs)
      ensures forall r :: RefCount(refs, r) == RefCount(old(refs), r) + Is(r == e.rec)
    {
      e := Ent(next, slice, owner);
      refs := refs[next := 1];
      UniqueLater(index, next, next + 1);
      next := next + 1;
    }

    method EntryRef(e: Ent)
      requires Valid() && RefCount(refs, e.rec) > 0
      modifies this`refs
      ensures Valid()
      ensures forall r :: RefCount(refs, r) == RefCount(old(refs), r) + Is(r == e.rec)
    {
      refs := refs[e.rec := refs[e.rec] + 1];
    }

    method EntryUnref(e: Ent)
      requires Valid() && RefCount(refs, e.rec) > 0
      modifies this`refs
      ensures Valid()
      ensures forall r :: RefCount(refs, r) == RefCount(old(refs), r) - Is(r == e.rec)
    {
      if refs[e.rec] == 1 {
        refs := refs - {e.rec};
      } else {
        refs := refs[e.rec := refs[e.rec] - 1];
      }
    }

    /** `mbb_inet_pool_map_add_handler`, called when it is installed. */
    method NodeAdd(owner: nat, n: Node)
      modifies this`index
      ensures !tracked ==> index == old(index)
      ensures tracked ==> forall m ::
        NodeCount(index, m) == NodeCount(old(index), m) + Is(m == Mark(owner, n))
    {
      if tracked {
        index := index[owner := [n] + NodeList(index, owner)];
      }
    }

    /** `mbb_inet_pool_map_del_handler`, called when it is installed. */
    method NodeDel(owner: nat, n: Node)
      requires Valid()
      modifies this`index
      ensures Valid()
      ensures !tracked ==> index == old(index)
      ensures tracked ==> forall m ::
        NodeCount(index, m) == if m == Mark(owner, n) && NodeCount(old(index), m) > 0
                               then NodeCount(old(index), m) - 1 else NodeCount(old(index), m)
    {
      if tracked {
        index := index[owner := RemoveFirst(NodeList(index, owner), n)];
        UniqueDel(old(index), index, next);
      }
    }

    /** `map_data_split`: one entry for two that touch and have the same owner. */
    method Split(mea: Ent, meb: Ent) returns (m: Option<Ent>)
      requires Valid()
      requires forall r :: RefCount(refs, r) >= Is(r == mea.rec) + Is(r == meb.rec)
      modifies this`next, this`refs
      ensures Valid()
      ensures m.Some? <==> mea.owner == meb.owner && Touch(ops, mea.slice, meb.slice)
      ensures m.None? ==> next == old(next) && refs == old(refs)
      ensures m.Some? ==> m.value == Ent(old(next), Slice(mea.slice.begin, meb.slice.end), mea.owner)
      ensures m.Some? ==> next == old(next) + 1
      ensures m.Some? ==> forall r ::
        RefCount(refs, r) + Is(r == mea.rec) + Is(r == meb.rec)
          == RefCount(old(refs), r) + Is(r == m.value.rec)
    {
      if mea.owner != meb.owner {
        return None;
      }
      if Cmp(ops, meb.slice.begin, mea.slice.end) != 1 {
        return None;
      }
      var e := EntryNew(Slice(mea.slice.begin, meb.slice.end), mea.owner);
      assert forall r :: RefCount(refs, r) == RefCount(old(refs), r) + Is(r == e.rec);
      assert RefCount(refs, mea.rec) > 0;
      EntryUnref(mea);
      assert RefCount(refs, meb.rec) > 0;
      EntryUnref(meb);
      m := Some(e);
    }

    /** A new link in queue `id`, which takes over a reference to `e`. */
    method LinkNew(id: nat, e: Ent) returns (c: Cell)
      requires Valid()
      modifies this`next, this`index
      ensures Valid() && c == Cell(old(next), e) && next == old(next) + 1
      ensures !tracked ==> index == old(index)
      ensures tracked ==> forall m ::
        NodeCount(index, m) == NodeCount(old(index), m) + Is(m == MarkOf(id, c))
    {
      c := Cell(next, e);
      NodeAdd(e.owner, Node(id, c.link));
      if tracked {
        UniqueAdd(old(index), index, next, MarkOf(id, c));
      } else {
        UniqueLater(index, next, next + 1);
      }
      next := next + 1;
    }

    /** A copy of a list: a new queue of new links to the same entries. */
    method DataDup(d: Data) returns (r: Data)
      requires Valid() && AllHeld(EntsOf(d), refs)
      modifies this`next, this`refs, this`index
      ensures Valid() && old(next) <= next
      ensures (r.Null? <==> d.Null?) && EntsOf(r) == EntsOf(d)
      ensures forall q :: RefCount(refs, q) == RefCount(old(refs), q) + RecsOf(r, q)
      ensures tracked ==> forall m :: NodeCount(index, m) == NodeCount(old(index), m) + NodesOf(r, m)
    {
      if d.Null? {
        return Null;
      }
      var id := next;
      UniqueLater(index, next, next + 1);
      next := next + 1;
      var cells: seq<Cell> := [];
      for i := 0 to |d.cells|
        invariant Valid() && old(next) <= next
        invariant Ents(cells) == Ents(d.cells)[..i]
        invariant AllHeld(Ents(d.cells), refs)
        invariant forall q :: RefCount(refs, q) == RefCount(old(refs), q) + RecCount(Ents(cells), q)
        invariant tracked ==> forall m :: NodeCount(index, m) == NodeCount(old(index), m) + MarkCount(id, cells, m)
      {
        assert Ents(d.cells)[i] == d.cells[i].ent;
        var c := LinkNew(id, d.cells[i].ent);
        EntryRef(c.ent);
        HeldConcat(id, cells, [c]);
        HeldOne(id, c);
        cells := cells + [c];
      }
      r := Queue(id, cells);
    }

    method DataFree(d: Data)
      requires Valid() && d.Queue?
      requires forall q :: RefCount(refs, q) >= RecsOf(d, q)
      requires tracked ==> forall m :: NodeCount(index, m) >= NodesOf(d, m)
      modifies this`refs, this`index
      ensures Valid()
      ensures forall q :: RefCount(refs, q) + RecsOf(d, q) == RefCount(old(refs), q)
      ensures tracked ==> forall m :: NodeCount(index, m) + NodesOf(d, m) == NodeCount(old(index), m)
    {
      for i := 0 to |d.cells|
        invariant Valid()
        invariant forall q :: RefCount(refs, q) + RecsOf(d, q) == RefCount(old(refs), q) + RecCount(Ents(d.cells[i..]), q)
        invariant tracked ==> forall m ::
          NodeCount(index, m) + NodesOf(d, m) == NodeCount(old(index), m) + MarkCount(d.id, d.cells[i..], m)
      {
        var c := d.cells[i];
        HeldStep(d.id, d.cells, i);
        NodeDel(c.ent.owner, Node(d.id, c.link));
        assert RefCount(refs, c.ent.rec) > 0;
        EntryUnref(c.ent);
      }
    }

    /** The end of `map_data_add` when `cur` comes after all links. */
    method PlaceLast(id: nat, cells: seq<Cell>, cur: Ent)
      returns (r: seq<Cell>, ghost lo: nat, ghost hi: nat, ghost c: Cell)
      requires Valid() && cells != []
      requires forall q :: RefCount(refs, q) >= RecCount(Ents(cells), q) + Is(q == cur.rec)
      modifies this`next, this`refs, this`index
      ensures Valid() && old(next) <= next
      ensures Joins(ops, Ents(cells), |cells|, lo, hi, cur, c.ent) && r == Placed(cells, lo, hi, c)
      ensures RefsMoved(old(refs), refs, cells[lo..hi], cur, c)
      ensures !tracked ==> index == old(index)
      ensures tracked ==> NodesMoved(old(index), index, id, cells[lo..hi], c, None)
    {
      var i := |cells|;
      var last := cells[i - 1];
      HeldWindow(id, cells, i - 1, i);
      var t := Split(last.ent, cur);
      if t.None? {
        var l := LinkNew(id, cur);
        r, lo, hi, c := cells + [l], i, i, l;
      } else {
        var l := last.(ent := t.value);
        r, lo, hi, c := cells[i - 1 := l], i - 1, i, l;
      }
      HeldWindow(id, cells, lo, hi);
    }

    /** The end of `map_data_add` when `cur` comes before link `i`. A join on both sides deletes
        that link without calling `node_del`. */
    method PlaceBefore(id: nat, cells: seq<Cell>, i: nat, cur: Ent)
      returns (r: seq<Cell>, ghost lo: nat, ghost hi: nat, ghost c: Cell, ghost lost: Option<Mark>)
      requires Valid() && i < |cells|
      requires forall q :: RefCount(refs, q) >= RecCount(Ents(cells), q) + Is(q == cur.rec)
      modifies this`next, this`refs, this`index
      ensures Valid() && old(next) <= next
      ensures Joins(ops, Ents(cells), i, lo, hi, cur, c.ent) && r == Placed(cells, lo, hi, c)
      ensures RefsMoved(old(refs), refs, cells[lo..hi], cur, c)
      ensures !tracked ==> index == old(index)
      ensures tracked ==> NodesMoved(old(index), index, id, cells[lo..hi], c, lost)
      ensures lost == if lo < i < hi then Some(MarkOf(id, cells[i])) else None
    {
      if i == 0 {
        r, lo, hi, c := PlaceFirst(id, cells, cur);
        lost := None;
      } else {
        r, lo, hi, c, lost := PlaceBetween(id, cells, i, cur);
      }
    }

    /** The same when there is no link before. */
    method PlaceFirst(id: nat, cells: seq<Cell>, cur: Ent) returns (r: seq<Cell>, ghost lo: nat, ghost hi: nat, ghost c: Cell)
      requires Valid() && cells != []
      requires forall q :: RefCount(refs, q) >= RecCount(Ents(cells), q) + Is(q == cur.rec)
      modifies this`next, this`refs, this`index
      ensures Valid() && old(next) <= next
      ensures Joins(ops, Ents(cells), 0, lo, hi, cur, c.ent) && r == Placed(cells, lo, hi, c)
      ensures RefsMoved(old(refs), refs, cells[lo..hi], cur, c)
      ensures !tracked ==> index == old(index)
      ensures tracked ==> NodesMoved(old(index), index, id, cells[lo..hi], c, None)
    {
      HeldWindow(id, cells, 0, 1);
      var t := Split(cur, cells[0].ent);
      if t.None? {
        var l := LinkNew(id, cur);
        r, lo, hi, c := [l] + cells, 0, 0, l;
      } else {
        var l := cells[0].(ent := t.value);
        r, lo, hi, c := cells[0 := l], 0, 1, l;
      }
      HeldWindow(id, cells, lo, hi);
    }

    /** The same between two links. */
    method PlaceBetween(id: nat, cells: seq<Cell>, i: nat, cur: Ent)
      returns (r: seq<Cell>, ghost lo: nat, ghost hi: nat, ghost c: Cell, ghost lost: Option<Mark>)
      requires Valid() && 0 < i < |cells|
      requires forall q :: RefCount(refs, q) >= RecCount(Ents(cells), q) + Is(q == cur.rec)
      modifies this`next, this`refs, this`index
      ensures Valid() && old(next) <= next
      ensures Joins(ops, Ents(cells), i, lo, hi, cur, c.ent) && r == Placed(cells, lo, hi, c)
      ensures RefsMoved(old(refs), refs, cells[lo..hi], cur, c)
      ensures !tracked ==> index == old(index)
      ensures tracked ==> NodesMoved(old(index), index, id, cells[lo..hi], c, lost)
      ensures lost == if lo < i < hi then Some(MarkOf(id, cells[i])) else None
    {
      lost := None;
      HeldWindow(id, cells, i - 1, i + 1);
      var t := Split(cur, cells[i].ent);
      if t.Some? {
        var u := Split(cells[i - 1].ent, t.value);
        if u.None? {
          var l := cells[i].(ent := t.value);
          r, lo, hi, c := cells[i := l], i, i + 1, l;
        } else {
          var l := cells[i - 1].(ent := u.value);
          r, lo, hi, c := cells[..i - 1] + [l] + cells[i + 1..], i - 1, i + 1, l;
          lost := Some(MarkOf(id, cells[i]));
        }
      } else {
        var u := Split(cells[i - 1].ent, cur);
        if u.None? {
          var l := LinkNew(id, cur);
          r, lo, hi, c := cells[..i] + [l] + cells[i..], i, i, l;
        } else {
          var l := cells[i - 1].(ent := u.value);
          r, lo, hi, c := cells[i - 1 := l], i - 1, i, l;
        }
      }
      HeldWindow(id, cells, lo, hi);
    }

    /** `map_data_add`: unless a crossing is known already, looks for one and otherwise adds
        `cur` to the list. `lost` is the node of a link that is deleted unannounced. */
    method DataAdd(d: Data, cur: Ent, cross: Crossing) returns (r: Data, cross': Crossing, ghost lost: Option<Mark>)
      requires Valid() && SliceOk(ops, cur.slice) && Sorted(ops, EntsOf(d))
      requires forall q :: RefCount(refs, q) >= RecsOf(d, q) + Is(q == cur.rec)
      modifies this`next, this`refs, this`index
      ensures Valid() && old(next) <= next
      ensures AddOutcome(d, cur, cross, r, cross')
      ensures !cross'.found ==> AddContent(ops, d, cur, r)
      ensures RefsKept(old(refs), refs, d, r)
      ensures !tracked ==> index == old(index)
      ensures tracked ==> NodesKept(old(index), index, d, r, lost)
      ensures lost.Some? <==> !cross'.found && BridgesGap(ops, EntsOf(d), cur)
    {
      lost := None;
      cross' := cross;
      if cross.found {
        return d, cross, None;
      }
      EntryRef(cur);
      if CellsOf(d) == [] {
        var id := if d.Queue? then d.id else next;
        UniqueLater(index, next, next + 1);
        next := if d.Queue? then next else next + 1;
        var c := LinkNew(id, cur);
        r := Queue(id, [c]);
        HeldOne(id, c);
        return;
      }
      var i, met := Scan(d.cells, cur);
      if met {
        var entry := d.cells[i].ent;
        assert entry == Ents(d.cells)[i];
        EntryUnref(cur);
        return d, Crossing(true, entry.slice, entry.owner), None;
      }
      r, lost := AddAt(d, i, cur);
    }

    /** The loop of `map_data_add`: the first link that does not come before `cur`. */
    method Scan(cells: seq<Cell>, cur: Ent) returns (i: nat, met: bool)
      requires SliceOk(ops, cur.slice) && Sorted(ops, Ents(cells))
      ensures met ==> i < |cells| && !Apart(Ents(cells)[i].slice, cur.slice)
      ensures !met ==> PlaceOf(Ents(cells), i, cur.slice) && !Meets(Ents(cells), cur.slice)
    {
      i := 0;
      while i < |cells|
        invariant i <= |cells| && forall j :: 0 <= j < i ==> Before(Ents(cells)[j].slice, cur.slice)
      {
        var entry := cells[i].ent;
        assert entry == Ents(cells)[i];
        SliceCmpMeaning(ops, cur.slice, entry.slice);
        var n := SliceCmp(ops, cur.slice, entry.slice);
        if n > 0 {
          i := i + 1;
          continue;
        }
        if n < 0 {
          break;
        }
        return i, true;
      }
      met := false;
    }

    /** `cur` has been referenced once more and gets its place at `i`. */
    method AddAt(d: Data, i: nat, cur: Ent) returns (r: Data, ghost lost: Option<Mark>)
      requires Valid() && d.Queue? && d.cells != [] && i <= |d.cells|
      requires SliceOk(ops, cur.slice) && Sorted(ops, EntsOf(d)) && PlaceOf(EntsOf(d), i, cur.slice)
      requires forall q :: RefCount(refs, q) >= RecsOf(d, q) + Is(q == cur.rec)
      modifies this`next, this`refs, this`index
      ensures Valid() && old(next) <= next
      ensures AddContent(ops, d, cur, r)
      ensures forall q :: RefCount(refs, q) + RecsOf(d, q) + Is(q == cur.rec) == RefCount(old(refs), q) + RecsOf(r, q)
      ensures !tracked ==> index == old(index)
      ensures tracked ==> NodesKept(old(index), index, d, r, lost)
      ensures lost.Some? <==> BridgesGap(ops, EntsOf(d), cur)
    {
      ghost var lo, hi, c;
      var cells;
      if i == |d.cells| {
        lost := None;
        cells, lo, hi, c := PlaceLast(d.id, d.cells, cur);
      } else {
        cells, lo, hi, c, lost := PlaceBefore(d.id, d.cells, i, cur);
      }
      r := Queue(d.id, cells);
      PlacedMeaning(ops, d.cells, i, lo, hi, cur, c);
      PlacedHeld(d.id, d.cells, lo, hi, c);
      BridgeAtPlace(ops, EntsOf(d), i, lo, hi, cur, c.ent);
    }

    /** One turn of the loop of `map_data_del`: what becomes of the link `c`. */
    method DelLink(id: nat, c: Cell, cur: Slice, who: Option<nat>) returns (left: seq<Cell>)
      requires Valid() && SliceOk(ops, c.ent.slice) && SliceOk(ops, cur)
      requires (who.None? || who.value == c.ent.owner) && !Apart(c.ent.slice, cur) ==> CutSafe(ops, c.ent.slice, cur)
      requires RefCount(refs, c.ent.rec) > 0
      requires tracked ==> NodeCount(index, MarkOf(id, c)) > 0
      modifies this`next, this`refs, this`index
      ensures Valid() && old(next) <= next
      ensures Survives(ops, c.ent, cur, who, Ents(left))
      ensures forall q :: RefCount(refs, q) + Is(q == c.ent.rec) == RefCount(old(refs), q) + RecCount(Ents(left), q)
      ensures !tracked ==> index == old(index)
      ensures tracked ==> forall m :: NodeCount(index, m) + Is(m == MarkOf(id, c)) == NodeCount(old(index), m) + MarkCount(id, left, m)
    {
      var entry := c.ent;
      SliceCmpMeaning(ops, entry.slice, cur);
      if (who.Some? && who.value != entry.owner) || SliceCmp(ops, entry.slice, cur) != 0 {
        UntouchedSurvives(ops, entry, cur, who);
        HeldOne(id, c);
        return [c];
      }
      var x := SliceCross(ops, entry.slice, cur);
      NodeDel(entry.owner, Node(id, c.link));
      left := [];
      ghost var recs := [0, 0];
      if x.left.Some? {
        var l := PieceNew(id, x.left.value, entry.owner);
        left := [l];
        recs := [l.ent.rec, 0];
        HeldOne(id, l);
      }
      if x.right.Some? {
        var l := PieceNew(id, x.right.value, entry.owner);
        HeldConcat(id, left, [l]);
        HeldOne(id, l);
        left := left + [l];
        recs := [recs[0], l.ent.rec];
      }
      EntryUnref(entry);
      assert Ents(left) == PieceEnts(entry.owner, recs, x);
      PiecesSurvive(ops, entry, cur, who, recs);
    }

    /** A new entry on a new link. */
    method PieceNew(id: nat, slice: Slice, owner: nat) returns (c: Cell)
      requires Valid()
      modifies this`next, this`refs, this`index
      ensures Valid() && old(next) <= next && c.ent.slice == slice && c.ent.owner == owner
      ensures forall q :: RefCount(refs, q) == RefCount(old(refs), q) + Is(q == c.ent.rec)
      ensures !tracked ==> index == old(index)
      ensures tracked ==> forall m :: NodeCount(index, m) == NodeCount(old(index), m) + Is(m == MarkOf(id, c))
    {
      var tmp := EntryNew(slice, owner);
      c := LinkNew(id, tmp);
    }

    /** `map_data_del`: takes the points of `cur` from the list; an empty list becomes NULL. */
    method DataDel(d: Data, cur: Slice, who: Option<nat>) returns (r: Data)
      requires Valid() && Sorted(ops, EntsOf(d)) && SliceOk(ops, cur) && CutsSafe(ops, EntsOf(d), cur, who)
      requires forall q :: RefCount(refs, q) >= RecsOf(d, q)
      requires tracked ==> forall m :: NodeCount(index, m) >= NodesOf(d, m)
      modifies this`next, this`refs, this`index
      ensures Valid() && old(next) <= next
      ensures r.Null? <==> EntsOf(r) == []
      ensures Sorted(ops, EntsOf(r))
      ensures forall y: nat, o: nat :: ListOwns(EntsOf(r), y, o) <==> ListOwns(EntsOf(d), y, o) && !Hits(cur, who, y, o)
      ensures RefsKept(old(refs), refs, d, r)
      ensures !tracked ==> index == old(index)
      ensures tracked ==> NodesKept(old(index), index, d, r, None)
    {
      if d.Null? {
        return Null;
      }
      var done: seq<Cell> := [];
      for i := 0 to |d.cells|
        invariant Valid() && old(next) <= next
        invariant DelDone(ops, Ents(d.cells), i, cur, who, Ents(done))
        invariant forall q :: RefCount(refs, q) + RecsOf(d, q) == RefCount(old(refs), q) + RecCount(Ents(done), q) + RecCount(Ents(d.cells[i..]), q)
        invariant !tracked ==> index == old(index)
        invariant tracked ==> forall m ::
          NodeCount(index, m) + NodesOf(d, m) == NodeCount(old(index), m) + MarkCount(d.id, done, m) + MarkCount(d.id, d.cells[i..], m)
      {
        var c := d.cells[i];
        assert c.ent == Ents(d.cells)[i] && c.ent in EntsOf(d);
        HeldStep(d.id, d.cells, i);
        var left := DelLink(d.id, c, cur, who);
        DelDoneStep(ops, Ents(d.cells), i, cur, who, Ents(done), Ents(left));
        HeldConcat(d.id, done, left);
        done := done + left;
      }
      r := if done == [] then Null else Queue(d.id, done);
    }

    /** The data that `insert_add` gives a slice: a copy of `d` with `cur` added. */
    method CopyAdd(d: Data, cur: Ent, cross: Crossing) returns (r: Data, cross': Crossing, ghost lost: Option<Mark>)
      requires Valid() && SliceOk(ops, cur.slice) && Sorted(ops, EntsOf(d)) && AllHeld(EntsOf(d), refs)
      requires Snug(ops, EntsOf(d), cur.slice, cur.owner)
      requires RefCount(refs, cur.rec) > 0
      modifies this`next, this`refs, this`index
      ensures Valid() && DataChanged(ops, Adding(cur), cross, cross', d, r)
      ensures !cross'.found ==> r.Queue?
      ensures forall q :: RefCount(refs, q) == RefCount(old(refs), q) + RecsOf(r, q)
      ensures tracked ==> forall m :: NodeCount(index, m) == NodeCount(old(index), m) + NodesOf(r, m) + Is(lost == Some(m))
      ensures lost.Some? <==> !cross'.found && BridgesGap(ops, EntsOf(d), cur)
    {
      var data := DataDup(d);
      assert RefCount(refs, cur.rec) >= RecsOf(data, cur.rec) + 1;
      r, cross', lost := DataAdd(data, cur, cross);
    }

    /** The data that `insert_del` gives a slice: a copy of `d` with the points of `cur` deleted. */
    method CopyDel(d: Data, cur: Slice, who: Option<nat>, ghost cross: Crossing) returns (r: Data)
      requires Valid() && SliceOk(ops, cur) && CutsSafe(ops, EntsOf(d), cur, who) && Sorted(ops, EntsOf(d)) && AllHeld(EntsOf(d), refs)
      modifies this`next, this`refs, this`index
      ensures Valid() && DataChanged(ops, Deleting(cur, who), cross, cross, d, r)
      ensures forall q :: RefCount(refs, q) == RefCount(old(refs), q) + RecsOf(r, q)
      ensures tracked ==> forall m :: NodeCount(index, m) == NodeCount(old(index), m) + NodesOf(r, m)
    {
      var data := DataDup(d);
      r := DataDel(data, cur, who);
    }

    /** The lists that `change_data` gives the pieces of a slice with the list `d`: copies on the
        sides that the cut leaves, the changed copy in the middle. The list `d` is freed. */
    method Recast(d: Data, x: Cross, ch: Change, cross: Crossing) returns (l: Data, m: Data, r: Data, cross': Crossing, ghost lost: Option<Mark>)
      requires Valid() && ChangeOk(ops, ch, d) && Sorted(ops, EntsOf(d))
      requires forall q :: RefCount(refs, q) >= RecsOf(d, q)
      requires tracked ==> forall q :: NodeCount(index, q) >= NodesOf(d, q)
      requires ch.Adding? ==> RefCount(refs, ch.cur.rec) > 0
      modifies this`next, this`refs, this`index
      ensures Valid()
      ensures if x.left.Some? then EntsOf(l) == EntsOf(d) else l.Null?
      ensures DataChanged(ops, ch, cross, cross', d, m) && (ch.Adding? && !cross'.found ==> m.Queue?)
      ensures if x.right.Some? then EntsOf(r) == EntsOf(d) else r.Null?
      ensures forall q :: RefCount(refs, q) + RecsOf(d, q) == RefCount(old(refs), q) + RecsOf(l, q) + RecsOf(m, q) + RecsOf(r, q)
      ensures tracked ==> forall q :: NodeCount(index, q) + NodesOf(d, q)
                                      == NodeCount(old(index), q) + NodesOf(l, q) + NodesOf(m, q) + NodesOf(r, q) + Is(lost == Some(q))
      ensures lost.Some? <==> ch.Adding? && !cross'.found && BridgesGap(ops, EntsOf(d), ch.cur)
    {
      AllHeldIn(refs, d);
      l := SideCopy(d, x.left);
      AllHeldIn(refs, d);
      match ch {
        case Adding(cur) =>
          assert RefCount(refs, cur.rec) > 0;
          m, cross', lost := CopyAdd(d, cur, cross);
        case Deleting(cur, who) =>
          m := CopyDel(d, cur, who, cross);
          cross', lost := cross, None;
      }
      AllHeldIn(refs, d);
      r := SideCopy(d, x.right);
      if d != Null {
        DataFree(d);
      }
    }

    /** A copy for the piece on one side of a cut, if there is one. */
    method SideCopy(d: Data, side: Option<Slice>) returns (r: Data)
      requires Valid() && AllHeld(EntsOf(d), refs)
      modifies this`next, this`refs, this`index
      ensures Valid()
      ensures if side.Some? then EntsOf(r) == EntsOf(d) else r.Null?
      ensures forall q :: RefCount(refs, q) == RefCount(old(refs), q) + RecsOf(r, q)
      ensures tracked ==> forall m :: NodeCount(index, m) == NodeCount(old(index), m) + NodesOf(r, m)
    {
      r := Null;
      if side.Some? {
        r := DataDup(d);
      }
    }
  }
}
