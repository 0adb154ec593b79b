/** IPv4 addresses and networks: the ranges of `range.c`, and printing and reading of `inet.c`.

A string is read up to its end, where the original finds the NUL character.
 */
module Inets {
  import opened Slices

  /** A `struct inet`: an address and the length of its prefix. */
  datatype Inet = Inet(addr: nat, mask: nat)

  /** A `struct range`. */
  datatype Range = Range(min: nat, max: nat)

  predicate InetOk(n: Inet) {
    n.addr <= IPV4_MAX && n.mask < 256
  }

  // ---------------------------------------------------------------- bit operations on 32-bit numbers

  function Pow2(k: nat): (r: nat)
    ensures r > 0
  {
    if k == 0 then 1 else 2 * Pow2(k - 1)
  }

  function BitAnd(a: nat, b: nat): nat {
    if a == 0 || b == 0 then 0 else 2 * BitAnd(a / 2, b / 2) + (a % 2) * (b % 2)
  }

  function BitOr(a: nat, b: nat): nat
    decreases a + b
  {
    if a == 0 then b else if b == 0 then a else 2 * BitOr(a / 2, b / 2) + (if a % 2 == 1 || b % 2 == 1 then 1 else 0)
  }

  function BitNot(a: nat): nat
    requires a <= IPV4_MAX
  {
    IPV4_MAX - a
  }

  function ShiftRight(a: nat, k: nat): nat
    decreases k
  {
    if k == 0 then a else ShiftRight(a / 2, k - 1)
  }

  lemma {:induction false} PowSum(m: nat, k: nat)
    ensures Pow2(m + k) == Pow2(m) * Pow2(k)
  {
    if m > 0 {
      PowSum(m - 1, k);
      assert Pow2(m) * Pow2(k) == 2 * (Pow2(m - 1) * Pow2(k));
    }
  }

  lemma PowerValues()
    ensures Pow2(8) == 0x100 && Pow2(16) == 0x1_0000 && Pow2(24) == 0x100_0000 && Pow2(32) == 0x1_0000_0000
  {
    assert Pow2(4) == 16;
    PowSum(4, 4);
    PowSum(8, 8);
    PowSum(16, 8);
    PowSum(16, 16);
  }

  lemma {:induction false} AndOnes(a: nat, n: nat)
    requires a < Pow2(n)
    ensures BitAnd(a, Pow2(n) - 1) == a
    decreases n
  {
    if a > 0 {
      AndOnes(a / 2, n - 1);
      assert (Pow2(n) - 1) / 2 == Pow2(n - 1) - 1;
    }
  }

  /** The part of `a` above its low `k` bits. */
  function High(a: nat, k: nat): nat
    decreases k
  {
    if k == 0 then a else 2 * High(a / 2, k - 1)
  }

  lemma {:induction false} HighBounds(a: nat, k: nat)
    ensures High(a, k) <= a < High(a, k) + Pow2(k)
    decreases k
  {
    if k > 0 {
      HighBounds(a / 2, k - 1);
    }
  }

  lemma {:induction false} Pow2Grows(k: nat, n: nat)
    requires k <= n
    ensures Pow2(k) <= Pow2(n)
  {
    if k < n {
      Pow2Grows(k, n - 1);
    }
  }

  lemma {:induction false} AndHigh(a: nat, k: nat, n: nat)
    requires k <= n && a < Pow2(n)
    ensures Pow2(k) <= Pow2(n)
    ensures BitAnd(a, Pow2(n) - Pow2(k)) == High(a, k)
    decreases k
  {
    Pow2Grows(k, n);
    if k == 0 {
      AndOnes(a, n);
    } else {
      AndHigh(a / 2, k - 1, n - 1);
      assert (Pow2(n) - Pow2(k)) / 2 == Pow2(n - 1) - Pow2(k - 1);
      HighBounds(a, k);
    }
  }

  lemma {:induction false} OrLow(a: nat, k: nat, b: nat)
    requires High(a, k) == a && b < Pow2(k)
    ensures BitOr(a, b) == a + b
    decreases k
  {
    if k > 0 && a > 0 && b > 0 {
      OrLow(a / 2, k - 1, b / 2);
    }
  }

  lemma {:induction false} HighHigh(a: nat, b: nat, k: nat, j: nat)
    requires k <= j && High(a, k) == High(b, k)
    ensures High(a, j) == High(b, j)
    decreases k
  {
    if k > 0 {
      HighHigh(a / 2, b / 2, k - 1, j - 1);
    }
  }

  lemma {:induction false} HighIdle(a: nat, k: nat)
    ensures High(High(a, k), k) == High(a, k)
    decreases k
  {
    if k > 0 {
      HighIdle(a / 2, k - 1);
    }
  }

  /** Two numbers have the same high part exactly when they lie in the same aligned block. */
  lemma {:induction false} HighBlock(a: nat, b: nat, k: nat)
    ensures High(a, k) == High(b, k) <==> High(a, k) <= b < High(a, k) + Pow2(k)
    decreases k
  {
    if k > 0 {
      HighBlock(a / 2, b / 2, k - 1);
    }
  }

  // ---------------------------------------------------------------- ranges

  /** `inet2range`. */
  function RangeOf(n: Inet): (r: Range)
    requires InetOk(n)
  {
    if n.mask >= 32 then Range(n.addr, n.addr)
    else
      var tmp := ShiftRight(IPV4_MAX, n.mask);
      LowMask(n.mask);
      var ip := BitAnd(n.addr, BitNot(tmp));
      Range(ip, BitOr(ip, tmp))
  }

  lemma {:induction false} ShiftOnes(m: nat, k: nat)
    ensures ShiftRight(Pow2(m + k) - 1, m) == Pow2(k) - 1
    decreases m
  {
    if m > 0 {
      assert (Pow2(m + k) - 1) / 2 == Pow2(m - 1 + k) - 1;
      ShiftOnes(m - 1, k);
    }
  }

  lemma LowMask(mask: nat)
    requires mask < 32
    ensures ShiftRight(IPV4_MAX, mask) == Pow2(32 - mask) - 1
    ensures ShiftRight(IPV4_MAX, mask) <= IPV4_MAX
    ensures BitNot(ShiftRight(IPV4_MAX, mask)) == Pow2(32) - Pow2(32 - mask)
  {
    PowerValues();
    ShiftOnes(mask, 32 - mask);
    Pow2Grows(32 - mask, 32);
  }

  /** The number of low address bits that a network leaves open. */
  function HostBits(n: Inet): nat {
    if n.mask >= 32 then 0 else 32 - n.mask
  }

  /** An address is in a network when it has the network's prefix. */
  predicate InNet(n: Inet, x: nat) {
    High(x, HostBits(n)) == High(n.addr, HostBits(n))
  }

  lemma RangeForm(n: Inet)
    requires InetOk(n)
    ensures RangeOf(n) == Range(High(n.addr, HostBits(n)), High(n.addr, HostBits(n)) + Pow2(HostBits(n)) - 1)
  {
    if n.mask < 32 {
      var k := 32 - n.mask;
      LowMask(n.mask);
      PowerValues();
      AndHigh(n.addr, k, 32);
      HighIdle(n.addr, k);
      OrLow(High(n.addr, k), k, Pow2(k) - 1);
    }
  }

  /** `inet2range` gives the aligned block of `2^(32-mask)` addresses with the prefix. */
  lemma RangeMeaning(n: Inet)
    requires InetOk(n)
    ensures var r := RangeOf(n);
      && r.min == High(r.min, HostBits(n)) && r.max == r.min + Pow2(HostBits(n)) - 1
      && r.min <= n.addr <= r.max <= IPV4_MAX
      && forall x: nat :: r.min <= x <= r.max <==> InNet(n, x)
  {
    var k := HostBits(n);
    RangeForm(n);
    HighIdle(n.addr, k);
    HighBounds(n.addr, k);
    PowerValues();
    BlockFits(n.addr, k, 32);
    forall x: nat
      ensures High(n.addr, k) <= x < High(n.addr, k) + Pow2(k) <==> InNet(n, x)
    {
      HighBlock(n.addr, x, k);
    }
  }

  lemma {:induction false} BlockFits(a: nat, k: nat, n: nat)
    requires k <= n && a < Pow2(n)
    ensures High(a, k) + Pow2(k) <= Pow2(n)
    decreases k
  {
    if k > 0 {
      BlockFits(a / 2, k - 1, n - 1);
    }
  }

  predicate Inside(a: Range, b: Range) {
    b.min <= a.min && a.max <= b.max
  }

  /** `range_cmp`. */
  function RangeCmp(a: Range, b: Range): int {
    if a.max < b.min then -1 else if a.min > b.max then 1 else 0
  }

  /** Two networks are nested or disjoint; `range_cmp` finds them equal when they are nested. */
  lemma NestedOrDisjoint(a: Inet, b: Inet)
    requires InetOk(a) && InetOk(b)
    ensures RangeCmp(RangeOf(a), RangeOf(b)) == 0 <==> Inside(RangeOf(a), RangeOf(b)) || Inside(RangeOf(b), RangeOf(a))
    ensures RangeCmp(RangeOf(a), RangeOf(b)) == 0 <==> exists x: nat :: InNet(a, x) && InNet(b, x)
  {
    RangeMeaning(a);
    RangeMeaning(b);
    var ra, rb := RangeOf(a), RangeOf(b);
    if x: nat :| InNet(a, x) && InNet(b, x) {
      if HostBits(a) <= HostBits(b) {
        NestedIn(a, b, x);
      } else {
        NestedIn(b, a, x);
      }
    }
    if RangeCmp(ra, rb) == 0 {
      var x := if ra.min <= rb.min then rb.min else ra.min;
      assert InNet(a, x) && InNet(b, x);
    }
  }

  lemma NestedIn(a: Inet, b: Inet, x: nat)
    requires InetOk(a) && InetOk(b) && HostBits(a) <= HostBits(b) && InNet(a, x) && InNet(b, x)
    ensures Inside(RangeOf(a), RangeOf(b))
  {
    RangeMeaning(a);
    RangeMeaning(b);
    forall y: nat | InNet(a, y)
      ensures InNet(b, y)
    {
      HighHigh(y, x, HostBits(a), HostBits(b));
    }
    assert InNet(a, RangeOf(a).min) && InNet(a, RangeOf(a).max);
  }

  /** As the key of a slice a range denotes its network exactly when it does not end at address 0,
      which stands for infinity: the one network it fails for is 0.0.0.0/32. */
  lemma RangeAsSlice(n: Inet)
    requires InetOk(n)
    ensures (forall x: nat :: In(Slice(RangeOf(n).min, RangeOf(n).max), x) <==> InNet(n, x)) <==> RangeOf(n).max != 0
    ensures RangeOf(n).max == 0 <==> n.addr == 0 && n.mask >= 32
    ensures RangeOf(n).min == 1 <==> n.addr == 1 && n.mask >= 32
  {
    RangeMeaning(n);
    if n.mask < 32 {
      HighEven(n.addr, HostBits(n));
      Pow2Grows(1, HostBits(n));
    }
    if RangeOf(n).max == 0 {
      assert In(Slice(0, 0), 1) && !InNet(n, 1);
    }
  }

  lemma HighEven(a: nat, k: nat)
    requires k > 0
    ensures High(a, k) % 2 == 0
  {
  }

  // ---------------------------------------------------------------- printing

  predicate Digit(c: char) {
    '0' <= c <= '9'
  }

  predicate AllDigits(s: string) {
    forall i :: 0 <= i < |s| ==> Digit(s[i])
  }

  function DigitValue(c: char): (r: nat)
    requires Digit(c)
  {
    (c - '0') as int
  }

  function DigitChar(d: nat): (c: char)
    requires d < 10
    ensures Digit(c) && DigitValue(c) == d
  {
    '0' + d as char
  }

  /** A number printed with `%d`. */
  function Decimal(n: nat): string {
    if n < 10 then [DigitChar(n)] else Decimal(n / 10) + [DigitChar(n % 10)]
  }

  lemma {:induction false} DecimalDigits(n: nat)
    ensures Decimal(n) != [] && AllDigits(Decimal(n))
  {
    if n >= 10 {
      DecimalDigits(n / 10);
    }
  }

  /** The number that digits spell. */
  function Number(s: string): nat
    requires AllDigits(s)
  {
    if s == [] then 0 else Number(s[..|s| - 1]) * 10 + DigitValue(s[|s| - 1])
  }

  lemma {:induction false} NumberOfDecimal(n: nat)
    ensures Decimal(n) != [] && AllDigits(Decimal(n)) && Number(Decimal(n)) == n
  {
    DecimalDigits(n);
    if n >= 10 {
      NumberOfDecimal(n / 10);
      assert Decimal(n)[..|Decimal(n)| - 1] == Decimal(n / 10);
    }
  }

  /** It has the part of `Slices.Open` for the texts of bytes. */
  predicate Close(k: int) {
    true
  }

  /** Digits that spell the byte. */
  ghost predicate ByteText(d: string, b: nat) {
    forall k {:trigger Close(k)} :: Close(k) ==> b < 256 && d != [] && AllDigits(d) && Number(d) == b
  }

  lemma ByteTextOf(b: nat)
    requires b < 256
    ensures ByteText(Decimal(b), b)
  {
    NumberOfDecimal(b);
  }

  /** Byte `i` of an address, counted from the left. */
  function ByteOf(ip: nat, i: nat): nat
    requires i < 4
  {
    (match i case 0 => ip / 0x1000000 case 1 => ip / 0x10000 case 2 => ip / 0x100 case 3 => ip) % 256
  }

  /** `ipv4toa`. */
  function Ipv4Text(ip: nat): string {
    Decimal(ByteOf(ip, 0)) + "." + Decimal(ByteOf(ip, 1)) + "." + Decimal(ByteOf(ip, 2)) + "." + Decimal(ByteOf(ip, 3))
  }

  lemma BytesShifted(ip: nat)
    ensures ByteOf(ip, 3) == ip % 256 && ByteOf(ip, 2) == ip / 256 % 256
    ensures ByteOf(ip, 1) == ip / 256 / 256 % 256 && ByteOf(ip, 0) == ip / 256 / 256 / 256 % 256
  {
  }

  method Ipv4ToA(addr: nat) returns (s: string)
    ensures s == Ipv4Text(addr)
  {
    BytesShifted(addr);
    var ip := addr;
    var b0 := ip % 256;
    ip := ip / 256;
    var b1 := ip % 256;
    ip := ip / 256;
    var b2 := ip % 256;
    ip := ip / 256;
    var b3 := ip % 256;
    s := Decimal(b3) + "." + Decimal(b2) + "." + Decimal(b1) + "." + Decimal(b0);
  }

  /** `inettoa`. */
  function InetText(n: Inet): string {
    Ipv4Text(n.addr) + if n.mask < 32 then "/" + Decimal(n.mask) else ""
  }

  // ---------------------------------------------------------------- reading

  /** The end of the digits that start at `p`. */
  function DigitsEnd(s: string, p: nat): (e: nat)
    requires p <= |s|
    ensures p <= e <= |s| && AllDigits(s[p..e]) && (e < |s| ==> !Digit(s[e]))
    decreases |s| - p
  {
    if p < |s| && Digit(s[p]) then
      var e := DigitsEnd(s, p + 1);
      assert s[p..e] == [s[p]] + s[p + 1..e];
      e
    else p
  }

  datatype Read<+T> = Failed | Read(value: T, end: nat)

  /** The digits at `p` as a byte; it fails without digits and above 255. */
  function ByteAt(s: string, p: nat): (r: Read<nat>)
    requires p <= |s|
    ensures r.Read? ==> p < r.end <= |s| && r.value < 256
  {
    var e := DigitsEnd(s, p);
    if e == p || Number(s[p..e]) > 255 then Failed else Read(Number(s[p..e]), e)
  }

  /** The outcome of reading a byte. */
  ghost predicate ReadsByte(s: string, p: nat, r: Read<nat>)
    requires p <= |s|
  {
    && (r.Read? ==> p < r.end <= |s| && r.value < 256)
    && forall k {:trigger Open(k)} :: Open(k) ==> r == ByteAt(s, p)
  }

  lemma {:induction false} NumberGrows(s: string, i: nat)
    requires AllDigits(s) && i <= |s|
    ensures Number(s[..i]) <= Number(s)
    decreases |s|
  {
    if i < |s| {
      assert s[..|s| - 1][..i] == s[..i];
      NumberGrows(s[..|s| - 1], i);
    } else {
      assert s[..i] == s;
    }
  }

  /** `read_byte`: the check of each step is the check of the whole number. */
  method ReadByte(s: string, p: nat) returns (r: Read<nat>)
    requires p <= |s|
    ensures ReadsByte(s, p, r)
  {
    if p == |s| || !Digit(s[p]) {
      return Failed;
    }
    var num, q := 0, p;
    ghost var e := DigitsEnd(s, p);
    while q < |s| && Digit(s[q])
      invariant p <= q <= e && AllDigits(s[p..e]) && num == Number(s[p..e][..q - p]) && num <= 255
    {
      assert s[p..e][..q + 1 - p][..q - p] == s[p..e][..q - p];
      num := num * 10 + DigitValue(s[q]);
      if num > 255 {
        NumberGrows(s[p..e], q + 1 - p);
        return Failed;
      }
      q := q + 1;
    }
    assert s[p..e][..e - p] == s[p..e];
    r := Read(num, q);
  }

  /** The last `4 - n` bytes of an address, each but the first of all after a point. */
  function Ipv4From(s: string, p: nat, n: nat, ip: nat): (r: Read<nat>)
    requires p <= |s| && n <= 4
    ensures r.Read? ==> p <= r.end <= |s|
    decreases 4 - n, |s|
  {
    if n == 4 then Read(ip, p)
    else if n > 0 && (p == |s| || s[p] != '.') then Failed
    else
      match ByteAt(s, if n > 0 then p + 1 else p)
      case Failed => Failed
      case Read(b, e) => Ipv4From(s, e, n + 1, 256 * ip + b)
  }

  function ShiftIn(ip: nat, b: nat): nat {
    BitOr(ip * 256 % 0x1_0000_0000, b)
  }

  lemma OrShifted(a: nat, k: nat, b: nat)
    requires b < Pow2(k)
    ensures BitOr(Pow2(k) * a, b) == Pow2(k) * a + b
  {
    HighOfShifted(a, k);
    OrLow(Pow2(k) * a, k, b);
  }

  lemma ShiftInMeaning(ip: nat, b: nat)
    requires ip < 0x100_0000 && b < 256
    ensures ShiftIn(ip, b) == 256 * ip + b
  {
    var k := 8;
    assert Pow2(k) == 256 by {
      PowerValues();
    }
    OrShifted(ip, k, b);
    assert ip * 256 % 0x1_0000_0000 == Pow2(k) * ip;
  }

  /** The number has `n` bytes. */
  ghost predicate BytesFit(ip: nat, n: nat) {
    forall k {:trigger Open(k)} :: Open(k) ==> ip < Pow2(8 * n)
  }

  lemma ShiftStep(n: nat, ip: nat, b: nat)
    requires n < 4 && BytesFit(ip, n) && b < 256
    ensures ShiftIn(ip, b) == 256 * ip + b && BytesFit(256 * ip + b, n + 1)
  {
    assert Open(0);
    PowerValues();
    PowSum(8 * n, 8);
    Pow2Grows(8 * n, 24);
    ShiftInMeaning(ip, b);
  }

  lemma {:induction false} HighOfShifted(a: nat, k: nat)
    ensures High(Pow2(k) * a, k) == Pow2(k) * a
    decreases k
  {
    if k > 0 {
      assert Pow2(k) * a == 2 * (Pow2(k - 1) * a);
      HighOfShifted(a, k - 1);
    }
  }

  /** Reading the rest of the address gives `r`. */
  ghost predicate Reads(s: string, p: nat, n: nat, ip: nat, r: Read<nat>)
    requires p <= |s| && n <= 4
  {
    forall k {:trigger Open(k)} :: Open(k) ==> Ipv4From(s, p, n, ip) == r
  }

  function FieldBegin(p: nat, n: nat): nat {
    if n > 0 then p + 1 else p
  }

  /** One field more: without a point or a byte the result is failure. */
  lemma ReadsField(s: string, p: nat, n: nat, ip: nat, b: Read<nat>, r: Read<nat>)
    requires p <= |s| && n < 4 && (n == 0 || (p < |s| && s[p] == '.')) && ReadsByte(s, FieldBegin(p, n), b)
    ensures Reads(s, p, n, ip, r) <==> if b.Failed? then r == Failed else Reads(s, b.end, n + 1, 256 * ip + b.value, r)
  {
    assert Open(0);
  }

  lemma ReadsNoField(s: string, p: nat, n: nat, ip: nat, r: Read<nat>)
    requires p <= |s| && 0 < n < 4 && (p == |s| || s[p] != '.')
    ensures Reads(s, p, n, ip, r) <==> r == Failed
  {
    assert Open(0);
  }

  lemma ReadsAll(s: string, p: nat, ip: nat, r: Read<nat>)
    requires p <= |s|
    ensures Reads(s, p, 4, ip, r) <==> r == Read(ip, p)
  {
    assert Open(0);
  }

  method PushByte(ip: nat, b: nat, ghost n: nat) returns (r: nat)
    requires n < 4 && BytesFit(ip, n) && b < 256
    ensures r == 256 * ip + b && BytesFit(r, n + 1)
  {
    ShiftStep(n, ip, b);
    r := ShiftIn(ip, b);
  }

  /** `strtoipv4`. */
  method StrToIpv4(s: string) returns (r: Read<nat>)
    ensures Reads(s, 0, 0, 0, r)
  {
    var p: nat, ip: nat := 0, 0;
    ghost var whole := Ipv4From(s, 0, 0, 0);
    for n := 0 to 4
      invariant p <= |s| && Reads(s, 0, 0, 0, whole) && Reads(s, p, n, ip, whole) && BytesFit(ip, n)
    {
      ghost var p0 := p;
      if n > 0 {
        if p == |s| || s[p] != '.' {
          ReadsNoField(s, p, n, ip, whole);
          return Failed;
        }
        p := p + 1;
      }
      var byte := ReadByte(s, p);
      ReadsField(s, p0, n, ip, byte, whole);
      if byte.Failed? {
        return Failed;
      }
      ip := PushByte(ip, byte.value, n);
      p := byte.end;
    }
    ReadsAll(s, p, ip, whole);
    r := Read(ip, p);
  }

  function InetAt(s: string): (r: Read<Inet>) {
    match Ipv4From(s, 0, 0, 0)
    case Failed => Failed
    case Read(ip, e) =>
      if e == |s| || s[e] != '/' then Read(Inet(ip, 32), e)
      else
        match ByteAt(s, e + 1)
        case Failed => Failed
        case Read(mask, f) => if mask > 32 then Failed else Read(Inet(ip, mask), f)
  }

  /** `strtoinet`. */
  method StrToInet(s: string) returns (r: Read<Inet>)
    ensures r == InetAt(s)
  {
    var ip := StrToIpv4(s);
    assert Open(0);
    if ip.Failed? {
      return Failed;
    }
    var p := ip.end;
    if p == |s| || s[p] != '/' {
      return Read(Inet(ip.value, 32), p);
    }
    var mask := ReadByte(s, p + 1);
    if mask.Failed? || mask.value > 32 {
      return Failed;
    }
    r := Read(Inet(ip.value, mask.value), mask.end);
  }

  // ---------------------------------------------------------------- the round trip

  lemma {:induction false} DigitsRead(s: string, p: nat, e: nat)
    requires p <= e <= |s| && AllDigits(s[p..e]) && (e < |s| ==> !Digit(s[e]))
    ensures DigitsEnd(s, p) == e
    decreases e - p
  {
    if p < e {
      assert s[p] == s[p..e][0] && s[p + 1..e] == s[p..e][1..];
      DigitsRead(s, p + 1, e);
    }
  }

  /** A printed byte is read back whole, unless a digit follows. */
  lemma ByteRead(s: string, p: nat, d: string, b: nat)
    requires ByteText(d, b) && Has(s, p, d) && Stops(s, p + |d|)
    ensures ReadsByte(s, p, Read(b, p + |d|))
  {
    assert Open(0) && Close(0);
    DigitsRead(s, p, p + |d|);
  }

  /** The string has `d` at `p`. */
  predicate Has(s: string, p: nat, d: string) {
    p + |d| <= |s| && s[p..p + |d|] == d
  }

  predicate Stops(s: string, e: nat) {
    e < |s| ==> !Digit(s[e])
  }

  /** A byte after a point. */
  lemma FieldRead(s: string, p: nat, n: nat, ip: nat, d: string, b: nat, r: Read<nat>)
    requires n < 4 && p < |s| && (n > 0 ==> s[p] == '.')
    requires var q := FieldBegin(p, n); ByteText(d, b) && Has(s, q, d) && Stops(s, q + |d|) && Reads(s, q + |d|, n + 1, 256 * ip + b, r)
    ensures Reads(s, p, n, ip, r)
  {
    ByteRead(s, FieldBegin(p, n), d, b);
    ReadsField(s, p, n, ip, Read(b, FieldBegin(p, n) + |d|), r);
  }

  /** The string has two fields at `p`: the first after a point unless it is that of byte 0. */
  predicate PairAt(s: string, p: nat, n: nat, d: string, f: string) {
    var q := FieldBegin(p, n);
    var m := q + |d|;
    && p < |s| && (n > 0 ==> s[p] == '.') && Has(s, q, d)
    && m < |s| && s[m] == '.' && Has(s, m + 1, f) && Stops(s, m + 1 + |f|)
  }

  lemma PairRead(s: string, p: nat, n: nat, ip: nat, d: string, f: string, b: nat, c: nat, r: Read<nat>)
    requires n < 3 && PairAt(s, p, n, d, f) && ByteText(d, b) && ByteText(f, c)
    requires Reads(s, FieldBegin(p, n) + |d| + 1 + |f|, n + 2, 256 * (256 * ip + b) + c, r)
    ensures Reads(s, p, n, ip, r)
  {
    var m := FieldBegin(p, n) + |d|;
    FieldRead(s, m, n + 1, 256 * ip + b, f, c, r);
    FieldRead(s, p, n, ip, d, b, r);
  }

  lemma FieldsRead(s: string, d3: string, d2: string, d1: string, d0: string, e: nat, b3: nat, b2: nat, b1: nat, b0: nat)
    requires PairAt(s, 0, 0, d3, d2) && PairAt(s, |d3| + 1 + |d2|, 2, d1, d0) && e == |d3| + 1 + |d2| + 1 + |d1| + 1 + |d0|
    requires ByteText(d3, b3) && ByteText(d2, b2) && ByteText(d1, b1) && ByteText(d0, b0)
    ensures Reads(s, 0, 0, 0, Read(256 * (256 * (256 * b3 + b2) + b1) + b0, e))
  {
    var r := Read(256 * (256 * (256 * b3 + b2) + b1) + b0, e);
    ReadsAll(s, e, r.value, r);
    PairRead(s, |d3| + 1 + |d2|, 2, 256 * b3 + b2, d1, d0, b1, b0, r);
    PairRead(s, 0, 0, 0, d3, d2, b3, b2, r);
  }

  lemma Places(d3: string, d2: string, d1: string, d0: string, rest: string)
    requires rest != [] ==> !Digit(rest[0])
    ensures var t := d3 + "." + d2 + "." + d1 + "." + d0;
      && PairAt(t + rest, 0, 0, d3, d2) && PairAt(t + rest, |d3| + 1 + |d2|, 2, d1, d0)
      && |t| == |d3| + 1 + |d2| + 1 + |d1| + 1 + |d0|
  {
  }

  lemma BytesOf(ip: nat)
    requires ip <= IPV4_MAX
    ensures 256 * (256 * (256 * ByteOf(ip, 0) + ByteOf(ip, 1)) + ByteOf(ip, 2)) + ByteOf(ip, 3) == ip
  {
  }

  lemma Ipv4Read(ip: nat, rest: string)
    requires ip <= IPV4_MAX && (rest != [] ==> !Digit(rest[0]))
    ensures Reads(Ipv4Text(ip) + rest, 0, 0, 0, Read(ip, |Ipv4Text(ip)|))
  {
    BytesOf(ip);
    BytesRead(ByteOf(ip, 0), ByteOf(ip, 1), ByteOf(ip, 2), ByteOf(ip, 3), rest);
  }

  lemma BytesRead(b3: nat, b2: nat, b1: nat, b0: nat, rest: string)
    requires b3 < 256 && b2 < 256 && b1 < 256 && b0 < 256 && (rest != [] ==> !Digit(rest[0]))
    ensures var t := Decimal(b3) + "." + Decimal(b2) + "." + Decimal(b1) + "." + Decimal(b0);
      Reads(t + rest, 0, 0, 0, Read(256 * (256 * (256 * b3 + b2) + b1) + b0, |t|))
  {
    ByteTextOf(b3);
    ByteTextOf(b2);
    ByteTextOf(b1);
    ByteTextOf(b0);
    TextRead(Decimal(b3), Decimal(b2), Decimal(b1), Decimal(b0), b3, b2, b1, b0, rest);
  }

  lemma TextRead(d3: string, d2: string, d1: string, d0: string, b3: nat, b2: nat, b1: nat, b0: nat, rest: string)
    requires ByteText(d3, b3) && ByteText(d2, b2) && ByteText(d1, b1) && ByteText(d0, b0)
    requires rest != [] ==> !Digit(rest[0])
    ensures var t := d3 + "." + d2 + "." + d1 + "." + d0;
      Reads(t + rest, 0, 0, 0, Read(256 * (256 * (256 * b3 + b2) + b1) + b0, |t|))
  {
    Places(d3, d2, d1, d0, rest);
    FieldsRead(d3 + "." + d2 + "." + d1 + "." + d0 + rest, d3, d2, d1, d0, |d3 + "." + d2 + "." + d1 + "." + d0|, b3, b2, b1, b0);
  }

  /** `strtoinet` undoes `inettoa`, and stops where the text of the network ends, unless what
      follows would continue it. */
  lemma InetRoundTrip(n: Inet, rest: string)
    requires n.addr <= IPV4_MAX && n.mask <= 32
    requires rest != [] ==> !Digit(rest[0]) && (n.mask == 32 ==> rest[0] != '/')
    ensures InetAt(InetText(n) + rest) == Read(n, |InetText(n)|)
  {
    var a := Ipv4Text(n.addr);
    if n.mask < 32 {
      var d := Decimal(n.mask);
      ByteTextOf(n.mask);
      Ipv4Read(n.addr, "/" + d + rest);
      MaskRead(n.addr, a, d, n.mask, rest);
    } else {
      Ipv4Read(n.addr, rest);
      InetBare(a + rest, n.addr, |a|);
      assert a + "" == a;
    }
  }

  lemma MaskRead(ip: nat, a: string, d: string, mask: nat, rest: string)
    requires ByteText(d, mask) && mask <= 32 && (rest != [] ==> !Digit(rest[0]))
    requires Reads(a + ("/" + d + rest), 0, 0, 0, Read(ip, |a|))
    ensures InetAt(a + ("/" + d) + rest) == Read(Inet(ip, mask), |a + ("/" + d)|)
  {
    var s := a + ("/" + d + rest);
    MaskPlace(a, d, rest);
    ByteRead(s, |a| + 1, d, mask);
    InetWhole(s, ip, |a|, mask, |a| + 1 + |d|);
  }

  lemma MaskPlace(a: string, d: string, rest: string)
    requires rest != [] ==> !Digit(rest[0])
    ensures var s := a + ("/" + d + rest);
      && a + ("/" + d) + rest == s && |a + ("/" + d)| == |a| + 1 + |d|
      && s[|a|] == '/' && Has(s, |a| + 1, d) && Stops(s, |a| + 1 + |d|)
  {
  }

  lemma InetWhole(s: string, ip: nat, e: nat, mask: nat, f: nat)
    requires e < |s| && s[e] == '/' && mask <= 32
    requires Reads(s, 0, 0, 0, Read(ip, e)) && ReadsByte(s, e + 1, Read(mask, f))
    ensures InetAt(s) == Read(Inet(ip, mask), f)
  {
    assert Open(0);
  }

  lemma InetBare(s: string, ip: nat, e: nat)
    requires e <= |s| && (e < |s| ==> s[e] != '/') && Reads(s, 0, 0, 0, Read(ip, e))
    ensures InetAt(s) == Read(Inet(ip, 32), e)
  {
    assert Open(0);
  }

  lemma {:induction false} Ipv4FromFits(s: string, p: nat, n: nat, ip: nat)
    requires p <= |s| && n <= 4 && ip < Pow2(8 * n)
    ensures Ipv4From(s, p, n, ip).Read? ==> Ipv4From(s, p, n, ip).value <= IPV4_MAX
    decreases 4 - n
  {
    PowerValues();
    if n == 4 {
      assert 8 * n == 32;
    } else if n == 0 || (p < |s| && s[p] == '.') {
      var b := ByteAt(s, if n > 0 then p + 1 else p);
      if b.Read? {
        PowSum(8 * n, 8);
        Ipv4FromFits(s, b.end, n + 1, 256 * ip + b.value);
      }
    }
  }

  /** Every network that can be read is printed as a text that is read as that network. */
  lemma InetReadAgain(s: string)
    requires InetAt(s).Read?
    ensures var n := InetAt(s).value; InetAt(InetText(n)) == Read(n, |InetText(n)|)
  {
    Ipv4FromFits(s, 0, 0, 0);
    var n := InetAt(s).value;
    InetRoundTrip(n, "");
    assert InetText(n) + "" == InetText(n);
  }

  // ---------------------------------------------------------------- what can be read

  /** Digits that spell a number up to 255, maybe with zeros before it. */
  predicate Spells(d: string) {
    d != [] && AllDigits(d) && Number(d) <= 255
  }

  predicate FourBytes(a: string, ip: nat, d3: string, d2: string, d1: string, d0: string) {
    && Spells(d3) && Spells(d2) && Spells(d1) && Spells(d0)
    && a == d3 + "." + d2 + "." + d1 + "." + d0 && ip == 256 * (256 * (256 * Number(d3) + Number(d2)) + Number(d1)) + Number(d0)
  }

  /** Four numbers with points between them, see `Slices.Open`. */
  ghost predicate AddressText(a: string, ip: nat) {
    forall k {:trigger Open(k)} :: Open(k) ==> exists d3, d2, d1, d0 :: FourBytes(a, ip, d3, d2, d1, d0)
  }

  /** An address, or an address and a number up to 32 after a slash; no digit goes on with it. */
  ghost predicate NetworkText(w: string, rest: string, n: Inet) {
    || (n.mask == 32 && AddressText(w, n.addr) && (rest != [] ==> !Digit(rest[0]) && rest[0] != '/'))
    || (n.mask <= 32 && (rest != [] ==> !Digit(rest[0]))
        && exists a, d :: w == a + ("/" + d) && AddressText(a, n.addr) && Spells(d) && Number(d) == n.mask)
  }

  lemma SpellsByte(d: string)
    requires Spells(d)
    ensures ByteText(d, Number(d))
  {
  }

  lemma FourRead(a: string, ip: nat, d3: string, d2: string, d1: string, d0: string, rest: string)
    requires FourBytes(a, ip, d3, d2, d1, d0) && (rest != [] ==> !Digit(rest[0]))
    ensures Reads(a + rest, 0, 0, 0, Read(ip, |a|))
  {
    SpellsByte(d3);
    SpellsByte(d2);
    SpellsByte(d1);
    SpellsByte(d0);
    TextRead(d3, d2, d1, d0, Number(d3), Number(d2), Number(d1), Number(d0), rest);
  }

  lemma SpelledRead(a: string, ip: nat, rest: string)
    requires AddressText(a, ip) && (rest != [] ==> !Digit(rest[0]))
    ensures Reads(a + rest, 0, 0, 0, Read(ip, |a|))
  {
    assert Open(0);
    var d3, d2, d1, d0 :| FourBytes(a, ip, d3, d2, d1, d0);
    FourRead(a, ip, d3, d2, d1, d0, rest);
  }

  lemma MaskedRead(a: string, d: string, ip: nat, rest: string)
    requires AddressText(a, ip) && Spells(d) && Number(d) <= 32 && (rest != [] ==> !Digit(rest[0]))
    ensures InetAt(a + ("/" + d) + rest) == Read(Inet(ip, Number(d)), |a + ("/" + d)|)
  {
    SpellsByte(d);
    assert ("/" + d + rest)[0] == '/';
    SpelledRead(a, ip, "/" + d + rest);
    MaskRead(ip, a, d, Number(d), rest);
  }

  /** Such a text is read. */
  lemma NetworkRead(w: string, rest: string, n: Inet)
    requires NetworkText(w, rest, n)
    ensures InetAt(w + rest) == Read(n, |w|)
  {
    if n.mask == 32 && AddressText(w, n.addr) && (rest != [] ==> !Digit(rest[0]) && rest[0] != '/') {
      SpelledRead(w, n.addr, rest);
      InetBare(w + rest, n.addr, |w|);
    } else {
      var a, d :| w == a + ("/" + d) && AddressText(a, n.addr) && Spells(d) && Number(d) == n.mask;
      MaskedRead(a, d, n.addr, rest);
    }
  }

  /** What was read as a byte spells it. */
  lemma ByteSpelled(s: string, p: nat)
    requires p <= |s| && ByteAt(s, p).Read?
    ensures var r := ByteAt(s, p); Spells(s[p..r.end]) && Number(s[p..r.end]) == r.value && (r.end < |s| ==> !Digit(s[r.end]))
  {
  }

  /** The text `s[p..q]` is the field `d` of byte `n`. */
  predicate FieldAt(s: string, p: nat, q: nat, n: nat, d: string) {
    var b := FieldBegin(p, n);
    b <= q <= |s| && s[b..q] == d && (n > 0 ==> p < |s| && s[p] == '.') && Spells(d) && (q < |s| ==> !Digit(s[q]))
  }

  lemma FieldSpelled(s: string, p: nat, n: nat, ip: nat, r: Read<nat>) returns (d: string, q: nat)
    requires p <= |s| && n < 4 && Reads(s, p, n, ip, r) && r.Read?
    ensures FieldAt(s, p, q, n, d) && Reads(s, q, n + 1, 256 * ip + Number(d), r)
  {
    assert Open(0);
    var b := FieldBegin(p, n);
    ByteSpelled(s, b);
    q := ByteAt(s, b).end;
    d := s[b..q];
  }

  /** The four fields of what was read as an address. */
  predicate FieldsAt(s: string, ip: nat, e: nat, q3: nat, q2: nat, q1: nat, d3: string, d2: string, d1: string, d0: string) {
    && FieldAt(s, 0, q3, 0, d3) && FieldAt(s, q3, q2, 1, d2) && FieldAt(s, q2, q1, 2, d1) && FieldAt(s, q1, e, 3, d0)
    && ip == 256 * (256 * (256 * Number(d3) + Number(d2)) + Number(d1)) + Number(d0)
  }

  lemma AddressFields(s: string, ip: nat, e: nat) returns (q3: nat, q2: nat, q1: nat, d3: string, d2: string, d1: string, d0: string)
    requires Reads(s, 0, 0, 0, Read(ip, e))
    ensures FieldsAt(s, ip, e, q3, q2, q1, d3, d2, d1, d0)
  {
    var r, q0 := Read(ip, e), 0;
    d3, q3 := FieldSpelled(s, 0, 0, 0, r);
    d2, q2 := FieldSpelled(s, q3, 1, Number(d3), r);
    var i2 := 256 * Number(d3) + Number(d2);
    d1, q1 := FieldSpelled(s, q2, 2, i2, r);
    var i1 := 256 * i2 + Number(d1);
    d0, q0 := FieldSpelled(s, q1, 3, i1, r);
    ReadsAll(s, q0, 256 * i1 + Number(d0), r);
  }

  lemma FourSpelled(s: string, ip: nat, e: nat, q3: nat, q2: nat, q1: nat, d3: string, d2: string, d1: string, d0: string)
    requires FieldsAt(s, ip, e, q3, q2, q1, d3, d2, d1, d0)
    ensures AddressText(s[..e], ip)
  {
    assert s[..e] == d3 + "." + d2 + "." + d1 + "." + d0;
    assert FourBytes(s[..e], ip, d3, d2, d1, d0);
  }

  /** The address and what comes of the text after it. */
  lemma InetParts(s: string) returns (ip: nat, e: nat, q3: nat, q2: nat, q1: nat, d3: string, d2: string, d1: string, d0: string)
    requires InetAt(s).Read?
    ensures FieldsAt(s, ip, e, q3, q2, q1, d3, d2, d1, d0)
    ensures var r := InetAt(s);
      if e < |s| && s[e] == '/' then ByteAt(s, e + 1) == Read(r.value.mask, r.end) && r.value.mask <= 32 && r.value.addr == ip
      else r == Read(Inet(ip, 32), e)
  {
    var r := Ipv4From(s, 0, 0, 0);
    ip, e := r.value, r.end;
    q3, q2, q1, d3, d2, d1, d0 := AddressFields(s, ip, e);
  }

  /** What was read is such a text. */
  lemma NetworkSpelled(s: string)
    requires InetAt(s).Read?
    ensures var r := InetAt(s); r.end <= |s| && NetworkText(s[..r.end], s[r.end..], r.value)
  {
    var ip, e, q3, q2, q1, d3, d2, d1, d0 := InetParts(s);
    FourSpelled(s, ip, e, q3, q2, q1, d3, d2, d1, d0);
    if e < |s| && s[e] == '/' {
      ByteSpelled(s, e + 1);
      MaskSpelled(s, ip, e, InetAt(s).value.mask, InetAt(s).end);
    }
  }

  lemma MaskSpelled(s: string, ip: nat, e: nat, mask: nat, f: nat)
    requires e < f <= |s| && s[e] == '/' && AddressText(s[..e], ip) && Spells(s[e + 1..f]) && Number(s[e + 1..f]) == mask <= 32
    requires f < |s| ==> !Digit(s[f])
    ensures NetworkText(s[..f], s[f..], Inet(ip, mask))
  {
    assert s[..f] == s[..e] + ("/" + s[e + 1..f]);
  }

  /** The texts that can be read are exactly the networks in digits; everything else is refused. */
  lemma InetExact(s: string, n: Inet, e: nat)
    ensures InetAt(s) == Read(n, e) <==> e <= |s| && NetworkText(s[..e], s[e..], n)
  {
    if InetAt(s).Read? {
      NetworkSpelled(s);
    }
    if e <= |s| && NetworkText(s[..e], s[e..], n) {
      NetworkRead(s[..e], s[e..], n);
      assert s[..e] + s[e..] == s;
    }
  }
}
