/** Times with 0 as an infinite bound, from `mbbtime.c`. */
module MbbTimes {
  import opened Slices

  function TimeCmp(a: int, b: int): int {
    if a < b then -1 else if a > b then 1 else 0
  }

  /** A begin against an end. */
  function BeCmp(ta: int, tb: int): int {
    if ta == 0 || tb == 0 then -1 else TimeCmp(ta, tb)
  }

  /** An end against a begin. */
  function EbCmp(ta: int, tb: int): int {
    if ta == 0 || tb == 0 then 1 else TimeCmp(ta, tb)
  }

  function BbCmp(ta: int, tb: int): int {
    if ta == 0 && tb == 0 then 0 else if ta == 0 then -1 else if tb == 0 then 1 else TimeCmp(ta, tb)
  }

  function EeCmp(ta: int, tb: int): int {
    if ta == 0 && tb == 0 then 0 else if ta == 0 then 1 else if tb == 0 then -1 else TimeCmp(ta, tb)
  }

  function BMin(ta: int, tb: int): int {
    if BbCmp(ta, tb) < 0 then ta else tb
  }

  function BMax(ta: int, tb: int): int {
    if BbCmp(ta, tb) > 0 then ta else tb
  }

  function EMin(ta: int, tb: int): int {
    if EeCmp(ta, tb) < 0 then ta else tb
  }

  function EMax(ta: int, tb: int): int {
    if EeCmp(ta, tb) > 0 then ta else tb
  }

  /** A time against a span. */
  function RCmp(t: int, ta: int, tb: int): int {
    if EbCmp(t, ta) < 0 then -1 else if BeCmp(t, tb) > 0 then 1 else 0
  }

  /** `mbb_time_rcmp` tells whether a time is in a span, for every time but 0, for which it cannot
      tell anything: as a bound it is infinite. */
  lemma RCmpMeaning(t: nat)
    ensures (forall s: Slice :: NonEmpty(s) ==>
      && (RCmp(t, s.begin, s.end) == 0 <==> In(s, t))
      && (RCmp(t, s.begin, s.end) < 0 <==> s.begin != 0 && t < s.begin)) <==> t > 0
    ensures t == 0 ==> forall s: Slice :: RCmp(t, s.begin, s.end) == 0
  {
    if t == 0 {
      var s := Slice(1, 1);
      assert NonEmpty(s) && RCmp(t, s.begin, s.end) == 0 && !In(s, t);
    }
  }

  /** The common part of two spans, and the span that holds both. */
  lemma SpanMeets(a: Slice, b: Slice, t: nat)
    ensures In(Slice(BMax(a.begin, b.begin), EMin(a.end, b.end)), t) <==> In(a, t) && In(b, t)
    ensures In(a, t) || In(b, t) ==> In(Slice(BMin(a.begin, b.begin), EMax(a.end, b.end)), t)
    ensures !Apart(a, b) && In(Slice(BMin(a.begin, b.begin), EMax(a.end, b.end)), t) ==> In(a, t) || In(b, t)
  {
  }

  /** A span that ends before another begins is the only reason why the two comparisons tell. */
  lemma SpanOrder(a: Slice, b: Slice)
    ensures EbCmp(a.end, b.begin) < 0 <==> Before(a, b)
    ensures BeCmp(a.begin, b.end) > 0 <==> Before(b, a)
    ensures BeCmp(a.begin, a.end) > 0 <==> !NonEmpty(a)
  {
  }
}

/** The time queues of the links of a gateway, from `mbbgateway.c`. */
module Gateways {
  import opened Slices
  import opened MbbTimes

  /** A `struct mbb_gwlink`: the times at which an operator has a link of a gateway. */
  class GwLink {
    const id: int
    const link: nat
    var start: nat
    var end: nat

    constructor (id: int, link: nat, start: nat, end: nat)
      ensures this.id == id && this.link == link && this.start == start && this.end == end
    {
      this.id, this.link, this.start, this.end := id, link, start, end;
    }

    function Span(): Slice
      reads this
    {
      Slice(start, end)
    }
  }

  /** The queue is in the order of time, and no two of its links share a time. */
  ghost predicate InTime(q: seq<GwLink>)
    reads set gl | gl in q
  {
    && (forall i :: 0 <= i < |q| ==> NonEmpty(q[i].Span()))
    && (forall i, j :: 0 <= i < j < |q| ==> Before(q[i].Span(), q[j].Span()))
  }

  /** Some link of the queue shares a time with `gl`, or cannot be told apart from it. */
  ghost predicate Collides(gl: GwLink, q: seq<GwLink>)
    reads gl, set l | l in q
  {
    exists l :: l in q && !Apart(l.Span(), gl.Span())
  }

  /** The same, but for `gl` itself. */
  ghost predicate Meets(gl: GwLink, q: seq<GwLink>)
    reads gl, set l | l in q
  {
    exists l :: l in q && l != gl && !Apart(l.Span(), gl.Span())
  }

  /** Some link of the queue, other than `gl`, stands in the way of `gl`; `rival` is the first. */
  ghost predicate FirstMeeting(gl: GwLink, q: seq<GwLink>, rival: GwLink)
    reads gl, set l | l in q
  {
    exists k :: 0 <= k < |q| && q[k] == rival && !Apart(q[k].Span(), gl.Span())
                && forall i :: 0 <= i < k ==> Before(q[i].Span(), gl.Span())
  }

  lemma InTimeSplit(q: seq<GwLink>, k: nat, gl: GwLink)
    requires InTime(q) && k <= |q| && NonEmpty(gl.Span())
    requires forall i :: 0 <= i < k ==> Before(q[i].Span(), gl.Span())
    requires forall i :: k <= i < |q| ==> Before(gl.Span(), q[i].Span())
    ensures InTime(q[..k] + [gl] + q[k..])
  {
    var r := q[..k] + [gl] + q[k..];
    forall i, j | 0 <= i < j < |r|
      ensures Before(r[i].Span(), r[j].Span())
    {
      assert r[i] == if i < k then q[i] else if i == k then gl else q[i - 1];
      assert r[j] == if j < k then q[j] else if j == k then gl else q[j - 1];
    }
    forall i | 0 <= i < |r|
      ensures NonEmpty(r[i].Span())
    {
      assert r[i] == if i < k then q[i] else if i == k then gl else q[i - 1];
    }
  }

  /** A link takes part in its queue only once. */
  lemma InTimeOnce(q: seq<GwLink>)
    requires InTime(q)
    ensures forall i, j :: 0 <= i < j < |q| ==> q[i] != q[j]
  {
  }

  lemma InTimeWithout(q: seq<GwLink>, k: nat)
    requires InTime(q) && k < |q|
    ensures InTime(q[..k] + q[k + 1..]) && q[k] !in q[..k] + q[k + 1..]
    ensures forall l :: l in q <==> l == q[k] || l in q[..k] + q[k + 1..]
  {
    InTimeOnce(q);
    assert q == q[..k] + [q[k]] + q[k + 1..];
  }

  predicate TakenOut(q: seq<GwLink>, k: int, gl: GwLink, r: seq<GwLink>) {
    0 <= k < |q| && q[k] == gl && r == q[..k] + q[k + 1..]
  }

  /** The queue is in time but for `gl`, which is in it at most once. */
  ghost predicate InTimeBut(q: seq<GwLink>, gl: GwLink)
    reads set l | l in q
  {
    && (forall i :: 0 <= i < |q| && q[i] != gl ==> NonEmpty(q[i].Span()))
    && (forall i, j :: 0 <= i < j < |q| ==> q[i] != q[j])
    && (forall i, j :: 0 <= i < j < |q| && q[i] != gl && q[j] != gl ==> Before(q[i].Span(), q[j].Span()))
  }

  lemma ButWithout(q: seq<GwLink>, k: nat)
    requires k < |q| && InTimeBut(q, q[k])
    ensures InTime(q[..k] + q[k + 1..]) && q[k] !in q[..k] + q[k + 1..]
    ensures forall l :: l in q <==> l == q[k] || l in q[..k] + q[k + 1..]
  {
    var r := q[..k] + q[k + 1..];
    assert forall i :: 0 <= i < |r| ==> r[i] == if i < k then q[i] else q[i + 1];
    assert q == q[..k] + [q[k]] + q[k + 1..];
  }

  /** `gw_queue_insert_gl`: a link is put in its place exactly when no other is in its way. */
  method InsertGl(q: seq<GwLink>, gl: GwLink) returns (ok: bool, r: seq<GwLink>, rival: GwLink?)
    requires InTime(q) && NonEmpty(gl.Span())
    ensures ok <==> !Collides(gl, q)
    ensures ok ==> InTime(r) && exists k :: 0 <= k <= |q| && r == q[..k] + [gl] + q[k..]
    ensures !ok ==> r == q && rival != null && FirstMeeting(gl, q, rival)
  {
    var k := 0;
    while k < |q|
      invariant k <= |q| && forall i :: 0 <= i < k ==> Before(q[i].Span(), gl.Span())
    {
      SpanOrder(gl.Span(), q[k].Span());
      if BeCmp(gl.start, q[k].end) <= 0 {
        if EbCmp(gl.end, q[k].start) < 0 {
          break;
        }
        assert q[k] in q;
        return false, q, q[k];
      }
      k := k + 1;
    }
    forall i | k <= i < |q|
      ensures Before(gl.Span(), q[i].Span())
    {
      assert k < i ==> Before(q[k].Span(), q[i].Span());
    }
    InTimeSplit(q, k, gl);
    ok, r, rival := true, q[..k] + [gl] + q[k..], null;
  }

  /** The part of `mbb_gateway_reorder_link` on the queue: link `k` is taken out and put in its new
      place, or back where it was. */
  method Reordered(q: seq<GwLink>, k: nat) returns (ok: bool, r: seq<GwLink>)
    requires k < |q| && InTimeBut(q, q[k]) && NonEmpty(q[k].Span())
    ensures ok <==> !Meets(q[k], q)
    ensures ok ==> InTime(r) && forall l :: l in r <==> l in q
    ensures !ok ==> r == q
  {
    if |q| == 1 {
      return true, q;
    }
    ButWithout(q, k);
    var gl, rest := q[k], q[..k] + q[k + 1..];
    var rival;
    ok, r, rival := InsertGl(rest, gl);
    if ok {
      InsertedMembers(rest, gl, r);
    } else {
      r := rest[..k] + [gl] + rest[k..];
      assert r == q;
    }
  }

  class Gateway {
    var ht: map<nat, seq<GwLink>>       // empty where the original has no table

    constructor ()
      ensures ht == map[] && Valid()
    {
      ht := map[];
    }

    function Queue(link: nat): seq<GwLink>
      reads this
    {
      if link in ht then ht[link] else []
    }

    ghost function Links(): set<GwLink>
      reads this
    {
      set k, gl | k in ht && gl in ht[k] :: gl
    }

    /** Every queue is in time, has at least one link and only links with its number. */
    ghost predicate Valid()
      reads this, Links()
    {
      forall k :: k in ht ==> ht[k] != [] && InTime(ht[k]) && forall gl :: gl in ht[k] ==> gl.link == k
    }

    /** `mbb_gateway_can_add`: would `gl` find a place, as a new link or with its times changed? */
    method CanAdd(gl: GwLink, create: bool) returns (r: bool)
      requires if create then Valid() else ValidBut(gl)
      ensures r <==> if create then !Collides(gl, Queue(gl.link)) else !Meets(gl, Queue(gl.link))
    {
      if gl.link !in ht {
        return true;
      }
      var q := ht[gl.link];
      var k := 0;
      while k < |q|
        invariant k <= |q| && forall i :: 0 <= i < k ==> (!create && q[i] == gl) || Before(q[i].Span(), gl.Span())
      {
        SpanOrder(gl.Span(), q[k].Span());
        if create || q[k] != gl {
          if EbCmp(gl.end, q[k].start) < 0 {
            assert forall i :: k < i < |q| && (create || q[i] != gl) ==> Before(q[k].Span(), q[i].Span());
            return true;
          }
          if BeCmp(gl.start, q[k].end) <= 0 {
            assert q[k] in q;
            return false;
          }
        }
        k := k + 1;
      }
      r := true;
    }

    /** `mbb_gateway_add_link`. */
    method AddLink(gl: GwLink) returns (ok: bool, rival: GwLink?)
      requires Valid() && NonEmpty(gl.Span())
      modifies this
      ensures Valid() && (ok <==> !Collides(gl, old(Queue(gl.link))))
      ensures ok ==> exists k :: 0 <= k <= |old(Queue(gl.link))| && Queue(gl.link) == old(Queue(gl.link))[..k] + [gl] + old(Queue(gl.link))[k..]
      ensures !ok ==> ht == old(ht) && rival != null && FirstMeeting(gl, Queue(gl.link), rival)
      ensures forall k :: k != gl.link ==> Queue(k) == old(Queue(k))
    {
      if gl.link in ht {
        var r;
        ok, r, rival := InsertGl(ht[gl.link], gl);
        if ok {
          Replace(gl.link, r);
        }
      } else {
        assert [gl] == [][..0] + [gl] + [][0..];
        ht := ht[gl.link := [gl]];
        ok, rival := true, null;
      }
    }

    /** A queue gives way to another one that is in time. */
    method Replace(link: nat, r: seq<GwLink>)
      requires Valid() && r != [] && InTime(r) && forall gl :: gl in r ==> gl.link == link
      modifies this
      ensures Valid() && ht == old(ht)[link := r]
    {
      ht := ht[link := r];
    }

    method IndexOf(gl: GwLink) returns (k: nat)
      requires gl.link in ht
      ensures k <= |ht[gl.link]| && (k < |ht[gl.link]| ==> ht[gl.link][k] == gl)
      ensures k == |ht[gl.link]| ==> gl !in ht[gl.link]
    {
      k := 0;
      while k < |ht[gl.link]| && ht[gl.link][k] != gl
        invariant k <= |ht[gl.link]| && forall i :: 0 <= i < k ==> ht[gl.link][i] != gl
      {
        k := k + 1;
      }
    }

    /** `mbb_gateway_del_link`: the link goes, and an empty queue with it. */
    method DelLink(gl: GwLink)
      requires Valid()
      modifies this
      ensures Valid()
      ensures gl !in old(Queue(gl.link)) ==> ht == old(ht)
      ensures gl in old(Queue(gl.link)) ==> exists k :: TakenOut(old(Queue(gl.link)), k, gl, Queue(gl.link))
      ensures gl !in Queue(gl.link) && forall k :: k != gl.link ==> Queue(k) == old(Queue(k))
    {
      if gl.link !in ht {
        return;
      }
      var k := IndexOf(gl);
      if k < |ht[gl.link]| {
        var q := ht[gl.link];
        InTimeWithout(q, k);
        var r := q[..k] + q[k + 1..];
        if |r| == 0 {
          ht := ht - {gl.link};
        } else {
          Replace(gl.link, r);
        }
        assert TakenOut(old(Queue(gl.link)), k, gl, Queue(gl.link));
      }
    }

    /** All but `gl`, whose times may just have been changed, are in their place. */
    ghost predicate ValidBut(gl: GwLink)
      reads this, Links()
    {
      && (forall k :: k in ht ==> ht[k] != [] && forall l :: l in ht[k] ==> l.link == k)
      && (forall k :: k in ht && k != gl.link ==> InTime(ht[k]))
      && InTimeBut(Queue(gl.link), gl)
    }

    /** `mbb_gateway_reorder_link`: a link whose times have changed gets its new place, or the
        queues stay exactly as they were. */
    method ReorderLink(gl: GwLink) returns (ok: bool)
      requires ValidBut(gl) && NonEmpty(gl.Span())
      modifies this
      ensures ok <==> gl in old(Queue(gl.link)) && !Meets(gl, old(Queue(gl.link)))
      ensures ok ==> Valid() && forall l :: l in Queue(gl.link) <==> l in old(Queue(gl.link))
      ensures !ok ==> ht == old(ht)
      ensures forall k :: k != gl.link ==> Queue(k) == old(Queue(k))
    {
      if gl.link !in ht {
        return false;
      }
      var k := IndexOf(gl);
      if k == |ht[gl.link]| {
        return false;
      }
      var r;
      ok, r := Reordered(ht[gl.link], k);
      ht := ht[gl.link := r];
    }

    /** The new times of `gl` are in nobody's way. */
    ghost predicate Room(gl: GwLink, s: Slice)
      reads this, Links()
    {
      gl in Queue(gl.link) && forall l :: l in Queue(gl.link) && l != gl ==> Apart(l.Span(), s)
    }

    /** The part of `gwlink_mod_time` that swaps the times, and swaps them back. */
    method SwapTimes(gl: GwLink, s: nat, e: nat) returns (ok: bool)
      requires Valid() && NonEmpty(Slice(s, e))
      modifies this, gl
      ensures Valid() && (ok <==> old(Room(gl, Slice(s, e))))
      ensures gl.Span() == if ok then Slice(s, e) else old(gl.Span())
      ensures ok ==> forall l :: l in Queue(gl.link) <==> l in old(Queue(gl.link))
      ensures !ok ==> ht == old(ht)
      ensures forall k :: k != gl.link ==> Queue(k) == old(Queue(k))
    {
      InTimeOnce(Queue(gl.link));
      var start, end := s, e;
      start, gl.start := gl.start, start;
      end, gl.end := gl.end, end;
      assert ValidBut(gl);
      ok := ReorderLink(gl);
      if !ok {
        start, gl.start := gl.start, start;
        end, gl.end := gl.end, end;
        assert forall k :: k in ht ==> forall i :: 0 <= i < |ht[k]| ==> ht[k][i].Span() == old(ht[k][i].Span());
      }
    }

    /** `gwlink_mod_time`: an unset time (below 0) is kept. The new times are taken exactly when
        they are in order, the link belongs to the gateway and no other of its links stands in the
        way; otherwise the link and the queues are as before. */
    method ModTime(gl: GwLink, start: int, end: int) returns (ok: bool)
      requires Valid()
      modifies this, gl
      ensures Valid()
      ensures var s := Slice(if start < 0 then old(gl.start) else start, if end < 0 then old(gl.end) else end);
        && (ok <==> NonEmpty(s) && old(Room(gl, s)))
        && gl.Span() == if ok then s else old(gl.Span())
      ensures ok ==> forall l :: l in Queue(gl.link) <==> l in old(Queue(gl.link))
      ensures !ok ==> ht == old(ht)
      ensures forall k :: k != gl.link ==> Queue(k) == old(Queue(k))
    {
      var s := if start < 0 then gl.start else start;
      var e := if end < 0 then gl.end else end;
      SpanOrder(Slice(s, e), Slice(s, e));
      if BeCmp(s, e) > 0 {
        return false;
      }
      ok := SwapTimes(gl, s, e);
    }

    /** `mbb_gateway_get_link`: the link that has the time `t`; the time 0 is in every span. */
    method GetLink(link: nat, t: nat) returns (r: GwLink?)
      requires Valid()
      ensures t > 0 ==> forall gl: GwLink :: r == gl <==> gl in Queue(link) && In(gl.Span(), t)
      ensures t == 0 ==> if Queue(link) == [] then r == null else r == Queue(link)[0]
    {
      RCmpMeaning(t);
      if link !in ht {
        return null;
      }
      var q := ht[link];
      for k := 0 to |q|
        invariant forall i :: 0 <= i < k ==> !In(q[i].Span(), t)
        invariant t == 0 ==> k == 0
      {
        var gl := q[k];
        assert gl in q;
        var n := RCmp(t, gl.start, gl.end);
        if n == 0 {
          forall l: GwLink | l in q && t > 0 && In(l.Span(), t)
            ensures l == gl
          {
            var i :| 0 <= i < |q| && q[i] == l;
            assert Before(q[i].Span(), q[k].Span()) || Before(q[k].Span(), q[i].Span()) || i == k;
          }
          return gl;
        }
        if n < 0 {
          forall l: GwLink | l in q
            ensures !In(l.Span(), t)
          {
            var i :| 0 <= i < |q| && q[i] == l;
            assert k < i ==> Before(q[k].Span(), q[i].Span());
          }
          return null;
        }
      }
      r := null;
    }
  }

  lemma InsertedMembers(q: seq<GwLink>, gl: GwLink, r: seq<GwLink>)
    requires exists k :: 0 <= k <= |q| && r == q[..k] + [gl] + q[k..]
    ensures forall l :: l in r <==> l == gl || l in q
  {
    var k :| 0 <= k <= |q| && r == q[..k] + [gl] + q[k..];
    assert q == q[..k] + q[k..];
  }
}
