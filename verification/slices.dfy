/** Slices of a key axis and the comparators of `slicer.c`, `timeslicer.c` and `inetslicer.c`.

A key is the number the daemon stores in a pointer: a time or an IPv4 address. The number 0 is
the NULL pointer. As the begin of a slice it stands for minus infinity, as the end of a slice
for plus infinity.
 */
module Slices {

  const IPV4_MAX: nat := 0xffff_ffff
  const INT_MAX: int := 0x7fff_ffff

  /** A large definition is guarded by `Open`: the verifier looks into it only where a proof
      mentions `Open(0)`. */
  predicate Open(k: int) {
    true
  }

  function Is(b: bool): nat {
    if b then 1 else 0
  }

  datatype Option<+T> = None | Some(value: T)

  datatype Slice = Slice(begin: nat, end: nat)

  /** The two key types: `time_ops` and `inet_ops`. */
  datatype Ops = TimeOps | InetOps

  /** Conversion of a 64-bit difference to `gint`: the low 32 bits, read as a signed number. */
  function ToGint(d: int): (r: int)
    ensures -INT_MAX - 1 <= r <= INT_MAX
    ensures -INT_MAX - 1 <= d <= INT_MAX ==> r == d
  {
    if -INT_MAX - 1 <= d <= INT_MAX then d
    else
      var low := d % 0x1_0000_0000;
      if low > INT_MAX then low - 0x1_0000_0000 else low
  }

  function Cmp(ops: Ops, a: nat, b: nat): int {
    match ops
    case TimeOps => ToGint(a - b)
    case InetOps => if a < b then -1 else if a > b then 1 else 0
  }

  function Inc(ops: Ops, p: nat): nat {
    match ops
    case TimeOps => p + 1
    case InetOps => if p < IPV4_MAX then p + 1 else p
  }

  function Dec(ops: Ops, p: nat): nat {
    if p > 0 then p - 1 else p
  }

  /** The largest key for which `Cmp` orders all keys up to it. */
  function Top(ops: Ops): nat {
    match ops
    case TimeOps => INT_MAX
    case InetOps => IPV4_MAX
  }

  /** `time_cmp` returns a 64-bit difference as an int: it orders the times up to `t`
      exactly when `t` itself fits an int. */
  lemma TimeCmpOrders(t: nat)
    ensures (forall a: nat, b: nat :: a <= t && b <= t ==> (Cmp(TimeOps, a, b) < 0 <==> a < b)) <==> t <= INT_MAX
  {
    if t > INT_MAX {
      assert !(Cmp(TimeOps, INT_MAX + 1, 0) < 0 <==> INT_MAX + 1 < 0) by {
        assert (INT_MAX + 1) % 0x1_0000_0000 == INT_MAX + 1;
        assert Cmp(TimeOps, INT_MAX + 1, 0) == -INT_MAX - 1;
      }
    }
  }

  // ---------------------------------------------------------------- comparators of slicer.c

  function BeginEndCmp(ops: Ops, begin: nat, end: nat): int {
    if begin == 0 || end == 0 then -1 else Cmp(ops, begin, end)
  }

  function EndBeginCmp(ops: Ops, end: nat, begin: nat): int {
    if end == 0 || begin == 0 then 1 else Cmp(ops, end, begin)
  }

  function BeginBeginCmp(ops: Ops, begin1: nat, begin2: nat): int {
    if begin1 == 0 && begin2 == 0 then 0
    else if begin1 == 0 then -1
    else if begin2 == 0 then 1
    else Cmp(ops, begin1, begin2)
  }

  function EndEndCmp(ops: Ops, end1: nat, end2: nat): int {
    if end1 == 0 && end2 == 0 then 0
    else if end1 == 0 then 1
    else if end2 == 0 then -1
    else Cmp(ops, end1, end2)
  }

  function SliceCmp(ops: Ops, a: Slice, b: Slice): int {
    if EndBeginCmp(ops, a.end, b.begin) < 0 then -1
    else if BeginEndCmp(ops, a.begin, b.end) > 0 then 1
    else 0
  }

  function SliceCmpPoint(ops: Ops, s: Slice, point: nat): int {
    if s.begin != 0 && Cmp(ops, point, s.begin) < 0 then 1
    else if s.end != 0 && Cmp(ops, s.end, point) < 0 then -1
    else 0
  }

  // ---------------------------------------------------------------- meaning of a slice

  /** The point belongs to the slice. */
  predicate In(s: Slice, p: nat) {
    (s.begin == 0 || s.begin <= p) && (s.end == 0 || p <= s.end)
  }

  /** `a` ends before `b` begins. */
  predicate Before(a: Slice, b: Slice) {
    a.end != 0 && b.begin != 0 && a.end < b.begin
  }

  predicate Apart(a: Slice, b: Slice) {
    Before(a, b) || Before(b, a)
  }

  predicate NonEmpty(s: Slice) {
    s.begin == 0 || s.end == 0 || s.begin <= s.end
  }

  /** The bounds are keys that the comparators order; a finite time end can be incremented. */
  predicate Fits(ops: Ops, s: Slice) {
    s.begin <= Top(ops) && s.end <= Top(ops) && (ops == TimeOps ==> s.end < Top(ops))
  }

  lemma SliceCmpMeaning(ops: Ops, a: Slice, b: Slice)
    requires Fits(ops, a) && Fits(ops, b)
    ensures SliceCmp(ops, a, b) < 0 <==> Before(a, b)
    ensures NonEmpty(a) && NonEmpty(b) ==> (SliceCmp(ops, a, b) > 0 <==> Before(b, a))
    ensures NonEmpty(a) && NonEmpty(b) ==> (SliceCmp(ops, a, b) == 0 <==> !Apart(a, b))
  {
  }

  /** `slice_cmp` finds two non-empty slices equal exactly when they share a point. */
  lemma SliceCmpMeets(ops: Ops, a: Slice, b: Slice)
    requires Fits(ops, a) && Fits(ops, b) && NonEmpty(a) && NonEmpty(b)
    ensures SliceCmp(ops, a, b) == 0 <==> exists p: nat :: In(a, p) && In(b, p)
  {
    SliceCmpMeaning(ops, a, b);
    if !Apart(a, b) {
      var p := if a.begin <= b.begin then b.begin else a.begin;
      assert In(a, p) && In(b, p);
    }
  }

  lemma SliceCmpPointMeaning(ops: Ops, s: Slice, p: nat)
    requires Fits(ops, s) && NonEmpty(s) && p <= Top(ops)
    ensures SliceCmpPoint(ops, s, p) == 0 <==> In(s, p)
    ensures SliceCmpPoint(ops, s, p) > 0 <==> s.begin != 0 && p < s.begin
    ensures SliceCmpPoint(ops, s, p) < 0 <==> s.end != 0 && s.end < p
  {
  }

  // ---------------------------------------------------------------- slice_cross

  /** What `slice_cross` leaves in its array of three pointers. */
  datatype Cross = Cross(left: Option<Slice>, mid: Option<Slice>, right: Option<Slice>)

  function SliceCross(ops: Ops, a: Slice, b: Slice): Cross {
    if SliceCmp(ops, a, b) != 0 then
      Cross(None, None, None)
    else
      var cutLeft := BeginBeginCmp(ops, a.begin, b.begin) < 0;
      var cutRight := EndEndCmp(ops, b.end, a.end) < 0;
      Cross(
        if cutLeft then Some(Slice(a.begin, Dec(ops, b.begin))) else None,
        Some(Slice(if cutLeft then b.begin else a.begin, if cutRight then b.end else a.end)),
        if cutRight then Some(Slice(Inc(ops, b.end), a.end)) else None)
  }

  /** The three pieces cover `a` exactly once and only the middle one lies in `b`. */
  ghost predicate CrossExact(a: Slice, b: Slice, c: Cross) {
    && c.mid.Some?
    && (forall p: nat :: In(c.mid.value, p) <==> In(a, p) && In(b, p))
    && (c.left.Some? ==> Before(c.left.value, c.mid.value))
    && (c.right.Some? ==> Before(c.mid.value, c.right.value))
    && (forall p: nat :: (c.left.Some? && In(c.left.value, p)) || (c.right.Some? && In(c.right.value, p)) <==> In(a, p) && !In(b, p))
  }

  /** The cut points survive `dec` and `inc`: a begin of 1 decrements to 0, the sign for
      infinity, and the largest address has no increment. */
  predicate CutSafe(ops: Ops, a: Slice, b: Slice) {
    && !(a.begin == 0 && b.begin == 1)
    && !(ops == InetOps && a.end == 0 && b.end == IPV4_MAX)
  }

  /** `slice_cross` splits two overlapping slices correctly exactly when the cut is safe. */
  lemma SliceCrossExact(ops: Ops, a: Slice, b: Slice)
    requires Fits(ops, a) && Fits(ops, b) && NonEmpty(a) && NonEmpty(b) && !Apart(a, b)
    ensures CrossExact(a, b, SliceCross(ops, a, b)) <==> CutSafe(ops, a, b)
  {
    SliceCmpMeaning(ops, a, b);
    var c := SliceCross(ops, a, b);
    if a.begin == 0 && b.begin == 1 {
      assert c.left == Some(Slice(0, 0));
    } else if ops == InetOps && a.end == 0 && b.end == IPV4_MAX {
      assert c.right == Some(Slice(IPV4_MAX, 0));
    }
  }

  /** Every point of `a` is a point of `b`, as the bounds show it. */
  predicate Within(a: Slice, b: Slice) {
    && (b.begin == 0 || (a.begin != 0 && b.begin <= a.begin))
    && (b.end == 0 || (a.end != 0 && a.end <= b.end))
  }

  /** The shape of a cut of `a`: up to three pieces that follow one another. */
  ghost predicate CutShape(ops: Ops, a: Slice, c: Cross) {
    && c.mid.Some? && Fits(ops, c.mid.value) && NonEmpty(c.mid.value) && Within(c.mid.value, a)
    && (c.left.Some? ==>
          && Fits(ops, c.left.value) && NonEmpty(c.left.value) && Within(c.left.value, a)
          && c.left.value.begin == a.begin && c.left.value.end != 0 && c.mid.value.begin == c.left.value.end + 1)
    && (c.right.Some? ==>
          && Fits(ops, c.right.value) && NonEmpty(c.right.value) && Within(c.right.value, a)
          && c.right.value.end == a.end && c.mid.value.end != 0 && c.right.value.begin == c.mid.value.end + 1)
    && (c.left.None? ==> c.mid.value.begin == a.begin)
    && (c.right.None? ==> c.mid.value.end == a.end)
  }

  ghost predicate CutOk(ops: Ops, a: Slice, b: Slice) {
    && Fits(ops, a) && NonEmpty(a) && Fits(ops, b) && NonEmpty(b)
    && !Apart(a, b) && CutSafe(ops, a, b)
  }

  lemma SliceCrossShape(ops: Ops, a: Slice, b: Slice)
    requires CutOk(ops, a, b)
    ensures CutShape(ops, a, SliceCross(ops, a, b))
    ensures SliceCross(ops, a, b).mid.Some? && Within(SliceCross(ops, a, b).mid.value, b)
  {
    SliceCmpMeaning(ops, a, b);
  }
}
