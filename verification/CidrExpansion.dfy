/** Enumeration of the addresses of a CIDR block (RFC 4632) by big-endian byte increments. */
module CidrExpansion {
  import opened Basics
  import opened Powers

  /** An address of 4 or 16 bytes, most significant byte first. */
  type Address = seq<Byte>

  // ---------------------------------------------------------------- addresses as numbers

  function Value(a: Address): nat {
    if a == [] then 0 else 256 * Value(a[..|a| - 1]) + (a[|a| - 1] as int)
  }

  lemma Pow2Bytes(n: nat)
    ensures Pow2(8 * (n + 1)) == 256 * Pow2(8 * n)
  {
    var m := 8 * n;
    assert Pow2(m + 8) == 2 * Pow2(m + 7) == 4 * Pow2(m + 6) == 8 * Pow2(m + 5);
    assert Pow2(m + 5) == 2 * Pow2(m + 4) == 4 * Pow2(m + 3) == 8 * Pow2(m + 2) == 16 * Pow2(m + 1) == 32 * Pow2(m);
  }

  lemma {:induction false} ValueBound(a: Address)
    ensures Value(a) < Pow2(8 * |a|)
  {
    if a != [] {
      ValueBound(a[..|a| - 1]);
      Pow2Bytes(|a| - 1);
    }
  }

  /** Addresses of the same length are determined by their number. */
  lemma {:induction false} ValueIsInjective(a: Address, b: Address)
    requires |a| == |b| && Value(a) == Value(b)
    ensures a == b
  {
    if a != [] {
      var x, y := a[|a| - 1] as int, b[|b| - 1] as int;
      assert 256 * (Value(a[..|a| - 1]) - Value(b[..|b| - 1])) == y - x;
      ValueIsInjective(a[..|a| - 1], b[..|b| - 1]);
      assert a == a[..|a| - 1] + [a[|a| - 1]] && b == b[..|b| - 1] + [b[|b| - 1]];
    }
  }

  // ---------------------------------------------------------------- nextIP

  function Successor(a: Address): (r: Address)
    ensures |r| == |a|
  {
    if a == [] then []
    else if a[|a| - 1] < 255 then a[..|a| - 1] + [a[|a| - 1] + 1]
    else Successor(a[..|a| - 1]) + [0]
  }

  /** The carry chain adds one modulo 256^n. */
  lemma {:induction false} SuccessorAddsOne(a: Address)
    ensures Value(Successor(a)) == (if Value(a) + 1 == Pow2(8 * |a|) then 0 else Value(a) + 1)
  {
    if a != [] {
      var init := a[..|a| - 1];
      SuccessorAddsOne(init);
      Pow2Bytes(|init|);
      ValueBound(init);
      ValueBound(a);
      var r := Successor(a);
      assert r[..|r| - 1] == if a[|a| - 1] < 255 then init else Successor(init);
    }
  }

  function Zeros(n: nat): Address {
    seq(n, _ => 0)
  }

  /** Trailing 255s turn into 0s and the byte before them goes up by one. */
  lemma {:induction false} SuccessorShape(s: Address, i: int)
    requires -1 <= i < |s| && (i >= 0 ==> s[i] < 255) && forall j :: i < j < |s| ==> s[j] == 255
    ensures Successor(s) == (if i < 0 then [] else s[..i] + [s[i] + 1]) + Zeros(|s| - 1 - i)
  {
    if i < |s| - 1 {
      SuccessorShape(s[..|s| - 1], i);
      assert Zeros(|s| - 1 - i) == Zeros(|s| - 2 - i) + [0];
      assert i >= 0 ==> s[..|s| - 1][..i] == s[..i];
    } else if s != [] {
      assert Zeros(0) == [];
    }
  }

  method NextIP(ip: array<Byte>) returns (next: array<Byte>)
    ensures fresh(next) && next.Length == ip.Length
    ensures next[..] == Successor(ip[..])
  {
    next := new Byte[ip.Length](i requires 0 <= i < ip.Length reads ip => ip[i]);
    ghost var s := ip[..];
    var i := next.Length - 1;
    while i >= 0
      invariant -1 <= i < next.Length
      invariant forall j :: 0 <= j <= i ==> next[j] == s[j]
      invariant forall j :: i < j < next.Length ==> next[j] == 0 && s[j] == 255
    {
      next[i] := ((next[i] as int) + 1) % 256;
      if next[i] != 0 {
        break;
      }
      i := i - 1;
    }
    SuccessorShape(s, i);
  }

  // ---------------------------------------------------------------- networks

  /** A network as ParseCIDR returns it: the address is masked to its prefix. */
  datatype Network = Network(ip: Address, prefix: nat) {
    ghost predicate Valid() {
      && |ip| in {4, 16}
      && prefix <= 8 * |ip|
      && Value(ip) % BlockSize() == 0
    }

    function HostBits(): nat
      requires prefix <= 8 * |ip|
    {
      8 * |ip| - prefix
    }

    function BlockSize(): (p: nat)
      requires prefix <= 8 * |ip|
      ensures p > 0
    {
      Pow2(HostBits())
    }
  }

  /** Number of mask bits that fall into byte i. */
  function MaskBits(prefix: nat, i: nat): (k: nat)
    ensures k <= 8
  {
    if prefix <= 8 * i then 0 else if prefix >= 8 * i + 8 then 8 else prefix - 8 * i
  }

  /** Number of values that the host bits of byte i can take. */
  function HostValues(prefix: nat, i: nat): (size: nat)
    ensures size > 0
  {
    Pow2(8 - MaskBits(prefix, i))
  }

  /** x & mask, for a mask byte that clears the bits below `size`, a power of two. */
  function Masked(x: Byte, size: nat): nat
    requires size > 0
  {
    size * ((x as int) / size)
  }

  predicate SameUnderMask(a: Address, b: Address, prefix: nat) {
    && |a| == |b|
    && forall i :: 0 <= i < |a| ==> Masked(a[i], HostValues(prefix, i)) == Masked(b[i], HostValues(prefix, i))
  }

  /** Byte-wise comparison under the mask. */
  predicate Contains(net: Network, a: Address) {
    SameUnderMask(net.ip, a, net.prefix)
  }

  lemma SameMultiple(p: nat, a: nat, b: nat)
    requires p > 0
    ensures p * a == p * b <==> a == b
  {
    if a < b { LessTimes(p, a, b); }
    if b < a { LessTimes(p, b, a); }
  }

  lemma LessTimes(p: nat, a: nat, b: nat)
    requires p > 0 && a < b
    ensures p * a < p * b
  {
  }

  lemma {:induction false} Pow2Add(a: nat, b: nat)
    ensures Pow2(a + b) == Pow2(a) * Pow2(b)
  {
    if a > 0 { Pow2Add(a - 1, b); }
  }

  lemma SplitQuotient(hi: nat, lo: nat, p: nat, q: nat)
    requires p > 0 && q > 0 && p * q == 256 && lo < 256
    ensures (256 * hi + lo) / p == q * hi + lo / p
    ensures lo / p < q
  {
    var r := lo % p;
    assert 256 * hi + lo == p * (q * hi + lo / p) + r;
    QuotientIs(256 * hi + lo, p, q * hi + lo / p, r);
    if lo / p >= q { LessEqualTimes(p, q, lo / p); }
  }

  lemma LessEqualTimes(p: nat, a: nat, b: nat)
    requires a <= b
    ensures p * a <= p * b
  {
  }

  lemma QuotientIs(n: nat, d: nat, q: nat, r: nat)
    requires d > 0 && n == d * q + r && r < d
    ensures n / d == q
  {
    if n / d < q { LessEqualTimes(d, n / d + 1, q); }
    if n / d > q { LessEqualTimes(d, q + 1, n / d); }
  }

  lemma DropByte(hi: nat, lo: nat, p: nat)
    requires p > 0 && lo < 256
    ensures (256 * hi + lo) / (256 * p) == hi / p
  {
    var r := hi % p;
    assert 256 * hi + lo == (256 * p) * (hi / p) + (256 * r + lo);
    QuotientIs(256 * hi + lo, 256 * p, hi / p, 256 * r + lo);
  }

  lemma SameSplit(hi1: nat, hi2: nat, lo1: nat, lo2: nat, q: nat)
    requires lo1 < q && lo2 < q
    ensures q * hi1 + lo1 == q * hi2 + lo2 <==> hi1 == hi2 && lo1 == lo2
  {
    if hi1 < hi2 { LessEqualTimes(q, hi1 + 1, hi2); }
    if hi2 < hi1 { LessEqualTimes(q, hi2 + 1, hi1); }
  }

  lemma PartialByte(a: nat, b: nat, x: Byte, y: Byte, p: nat, q: nat)
    requires p > 0 && q > 0 && p * q == 256
    ensures (256 * a + (x as int)) / p == (256 * b + (y as int)) / p <==> a == b && Masked(x, p) == Masked(y, p)
  {
    SplitQuotient(a, x as int, p, q);
    SplitQuotient(b, y as int, p, q);
    SameSplit(a, b, (x as int) / p, (y as int) / p, q);
    SameMultiple(p, (x as int) / p, (y as int) / p);
  }

  ghost predicate SamePrefix(a: Address, b: Address, prefix: nat)
    requires |a| == |b| && prefix <= 8 * |a|
  {
    Value(a) / Pow2(8 * |a| - prefix) == Value(b) / Pow2(8 * |a| - prefix)
  }

  lemma SamePrefixHostByte(a: Address, b: Address, prefix: nat)
    requires |a| == |b| > 0 && prefix <= 8 * (|a| - 1)
    ensures SamePrefix(a, b, prefix) <==> SamePrefix(a[..|a| - 1], b[..|b| - 1], prefix)
  {
    var n := |a| - 1;
    HostByte(Value(a[..n]), a[n], 8 * n - prefix);
    HostByte(Value(b[..n]), b[n], 8 * n - prefix);
  }

  lemma SamePrefixPartialByte(a: Address, b: Address, prefix: nat)
    requires |a| == |b| > 0 && 8 * (|a| - 1) < prefix <= 8 * |a|
    ensures SamePrefix(a, b, prefix)
      <==> SamePrefix(a[..|a| - 1], b[..|b| - 1], 8 * (|a| - 1))
           && Masked(a[|a| - 1], HostValues(prefix, |a| - 1)) == Masked(b[|b| - 1], HostValues(prefix, |a| - 1))
  {
    var n := |a| - 1;
    var k := prefix - 8 * n;
    Pow2Add(8 - k, k);
    assert Pow2(8) == 256;
    PartialByte(Value(a[..n]), Value(b[..n]), a[n], b[n], Pow2(8 - k), Pow2(k));
  }

  /** Comparing bytes under the mask is comparing the numbers without their host bits. */
  lemma {:induction false} MaskIsQuotient(a: Address, b: Address, prefix: nat)
    requires |a| == |b| && prefix <= 8 * |a|
    ensures SameUnderMask(a, b, prefix) <==> SamePrefix(a, b, prefix)
  {
    if a != [] {
      var n := |a| - 1;
      if prefix <= 8 * n {
        MaskIsQuotient(a[..n], b[..n], prefix);
        LastByteMasked(a, b, prefix, prefix);
        NoMaskBits(a[n], b[n], prefix, n);
        SamePrefixHostByte(a, b, prefix);
      } else {
        MaskIsQuotient(a[..n], b[..n], 8 * n);
        LastByteMasked(a, b, prefix, 8 * n);
        SamePrefixPartialByte(a, b, prefix);
      }
    }
  }

  lemma NoMaskBits(x: Byte, y: Byte, prefix: nat, n: nat)
    requires prefix <= 8 * n
    ensures Masked(x, HostValues(prefix, n)) == Masked(y, HostValues(prefix, n))
  {
    assert Pow2(8) == 256;
  }

  lemma HostByte(hi: nat, x: Byte, h: nat)
    ensures (256 * hi + (x as int)) / Pow2(h + 8) == hi / Pow2(h)
  {
    Pow2Add(8, h);
    assert Pow2(8) == 256;
    DropByte(hi, x as int, Pow2(h));
  }

  lemma LastByteMasked(a: Address, b: Address, prefix: nat, prefix0: nat)
    requires |a| == |b| > 0
    requires prefix0 == prefix <= 8 * (|a| - 1) || (prefix0 == 8 * (|a| - 1) < prefix)
    ensures var n := |a| - 1;
      SameUnderMask(a, b, prefix) <==>
        && SameUnderMask(a[..n], b[..n], prefix0)
        && Masked(a[n], HostValues(prefix, n)) == Masked(b[n], HostValues(prefix, n))
  {
    var n := |a| - 1;
    forall i | 0 <= i < n ensures HostValues(prefix, i) == HostValues(prefix0, i) { }
    if SameUnderMask(a[..n], b[..n], prefix0) {
      forall i | 0 <= i < n ensures Masked(a[i], HostValues(prefix, i)) == Masked(b[i], HostValues(prefix, i)) {
        assert a[..n][i] == a[i] && b[..n][i] == b[i];
      }
    }
  }

  /** A block is the interval of BlockSize numbers from the network address on. */
  lemma BlockIsInterval(net: Network, a: Address)
    requires net.Valid() && |a| == |net.ip|
    ensures Contains(net, a) <==> Value(net.ip) <= Value(a) < Value(net.ip) + net.BlockSize()
  {
    MaskIsQuotient(net.ip, a, net.prefix);
    SameQuotient(Value(net.ip), Value(a), net.BlockSize());
  }

  lemma Division(v: nat, size: nat)
    requires size > 0
    ensures size * (v / size) <= v < size * (v / size) + size
  {
  }

  lemma SameQuotient(lo: nat, v: nat, size: nat)
    requires size > 0 && lo % size == 0
    ensures lo / size == v / size <==> lo <= v < lo + size
  {
    var q := lo / size;
    assert lo == size * q;
    if lo <= v < lo + size {
      QuotientIs(v, size, q, v - lo);
    }
    Division(v, size);
  }

  lemma MultipleFits(lo: nat, size: nat, m: nat, total: nat)
    requires size > 0 && lo % size == 0 && total == size * m && lo < total
    ensures lo + size <= total
    ensures m >= 2 ==> size < total
  {
    var q := lo / size;
    assert lo == size * q;
    if q >= m { LessEqualTimes(size, m, q); }
    LessEqualTimes(size, q + 1, m);
    assert size * (q + 1) == lo + size;
    if m >= 2 { LessTimes(size, 1, m); }
  }

  lemma BlockFits(net: Network)
    requires net.Valid()
    ensures Value(net.ip) + net.BlockSize() <= Pow2(8 * |net.ip|)
    ensures net.prefix >= 1 ==> net.BlockSize() < Pow2(8 * |net.ip|)
  {
    ValueBound(net.ip);
    Pow2Add(net.HostBits(), net.prefix);
    MultipleFits(Value(net.ip), net.BlockSize(), Pow2(net.prefix), Pow2(8 * |net.ip|));
    assert net.prefix >= 1 ==> Pow2(net.prefix) == 2 * Pow2(net.prefix - 1);
  }

  // ---------------------------------------------------------------- expandCIDR

  /** The source's test for the network and broadcast addresses. */
  predicate SkipEndpoint(net: Network, a: Address) {
    if |net.ip| != 4 then false
    else if 32 - net.prefix < 2 then false
    else if a == net.ip then true
    else !Contains(net, Successor(a))
  }

  /** First or last number of an IPv4 block of at least four addresses; RFC 3021 keeps both ends of a /31. */
  ghost predicate IsEndpoint(net: Network, a: Address)
    requires net.Valid()
  {
    && |net.ip| == 4 && net.HostBits() >= 2
    && (Value(a) == Value(net.ip) || Value(a) == Value(net.ip) + net.BlockSize() - 1)
  }

  lemma SkipsEndpoints(net: Network, a: Address)
    requires net.Valid() && net.prefix >= 1 && Contains(net, a)
    ensures SkipEndpoint(net, a) <==> IsEndpoint(net, a)
  {
    BlockIsInterval(net, a);
    BlockIsInterval(net, Successor(a));
    SuccessorAddsOne(a);
    BlockFits(net);
    if Value(a) == Value(net.ip) { ValueIsInjective(a, net.ip); }
  }

  /** What the expansion should report: block members that are no endpoints and that the guard allows. */
  ghost predicate Eligible(net: Network, allowed: Address -> bool, a: Address)
    requires net.Valid()
  {
    |a| == |net.ip| && Contains(net, a) && !IsEndpoint(net, a) && allowed(a)
  }

  predicate Ascending(out: seq<Address>) {
    forall i, j :: 0 <= i < j < |out| ==> Value(out[i]) < Value(out[j])
  }

  /** `out` lists exactly the eligible addresses below v, in ascending order. */
  ghost predicate ListsBelow(net: Network, allowed: Address -> bool, out: seq<Address>, v: nat)
    requires net.Valid()
  {
    && Ascending(out)
    && (forall a :: a in out ==> Eligible(net, allowed, a) && Value(a) < v)
    && (forall a :: Eligible(net, allowed, a) && Value(a) < v ==> a in out)
  }

  lemma ListsOneMore(net: Network, allowed: Address -> bool, out: seq<Address>, a: Address)
    requires net.Valid() && ListsBelow(net, allowed, out, Value(a)) && |a| == |net.ip|
    ensures Eligible(net, allowed, a) ==> ListsBelow(net, allowed, out + [a], Value(a) + 1)
    ensures !Eligible(net, allowed, a) ==> ListsBelow(net, allowed, out, Value(a) + 1)
  {
    forall b | Eligible(net, allowed, b) && Value(b) == Value(a) ensures b == a { ValueIsInjective(a, b); }
    forall i | 0 <= i < |out| ensures Value(out[i]) < Value(a) { assert out[i] in out; }
  }

  /** The address with number v; the one after the last address is number 0. */
  ghost predicate At(a: Address, v: nat, n: nat) {
    |a| == n && Value(a) == if v == Pow2(8 * n) then 0 else v
  }

  lemma InBlockAt(net: Network, a: Address, v: nat)
    requires net.Valid() && net.prefix >= 1 && At(a, v, |net.ip|)
    requires Value(net.ip) <= v <= Value(net.ip) + net.BlockSize()
    ensures Contains(net, a) <==> v < Value(net.ip) + net.BlockSize()
    ensures Contains(net, a) ==> Value(a) == v && At(Successor(a), v + 1, |net.ip|)
  {
    BlockIsInterval(net, a);
    BlockFits(net);
    ValueBound(a);
    SuccessorAddsOne(a);
  }

  /**
   For every prefix but /0: the first maxHosts eligible addresses, ascending and without repetition;
   `truncated` is reported exactly when maxHosts addresses were found.
   */
  method ExpandCIDR(net: Network, allowed: Address -> bool, maxHosts: nat) returns (out: seq<Address>, truncated: bool)
    requires net.Valid() && net.prefix >= 1
    ensures Ascending(out) && |out| <= maxHosts
    ensures forall a :: a in out ==> Eligible(net, allowed, a)
    ensures forall a :: Eligible(net, allowed, a) ==>
      a in out || (|out| == maxHosts && forall b :: b in out ==> Value(b) < Value(a))
    ensures truncated <==> |out| == maxHosts
  {
    out := [];
    var ip := new Byte[|net.ip|](i requires 0 <= i < |net.ip| => net.ip[i]);
    ghost var v := Value(net.ip);
    assert ip[..] == net.ip;
    ValueBound(net.ip);
    forall a | Eligible(net, allowed, a) ensures Value(a) >= v { BlockIsInterval(net, a); }
    while Contains(net, ip[..]) && |out| < maxHosts
      invariant At(ip[..], v, |net.ip|) && Value(net.ip) <= v <= Value(net.ip) + net.BlockSize()
      invariant ListsBelow(net, allowed, out, v) && |out| <= maxHosts
      decreases Value(net.ip) + net.BlockSize() - v
    {
      InBlockAt(net, ip[..], v);
      SkipsEndpoints(net, ip[..]);
      ListsOneMore(net, allowed, out, ip[..]);
      if !SkipEndpoint(net, ip[..]) && allowed(ip[..]) {
        out := out + [ip[..]];
      }
      ip := NextIP(ip);
      v := v + 1;
    }
    truncated := |out| == maxHosts;
    InBlockAt(net, ip[..], v);
    forall a | Eligible(net, allowed, a) && a !in out
      ensures |out| == maxHosts && forall b :: b in out ==> Value(b) < Value(a)
    {
      BlockIsInterval(net, a);
    }
  }

  // ---------------------------------------------------------------- the prefix 0.0.0.0/0

  /** The loop variables of expandCIDR. */
  datatype Loop = Loop(ip: Address, out: seq<Address>)

  predicate Continues(net: Network, maxHosts: nat, s: Loop) {
    Contains(net, s.ip) && |s.out| < maxHosts
  }

  function Reports(net: Network, allowed: Address -> bool, a: Address): bool {
    !SkipEndpoint(net, a) && allowed(a)
  }

  function Advance(s: Loop, report: bool): Loop {
    Loop(Successor(s.ip), if report then s.out + [s.ip] else s.out)
  }

  /** The loop variables after k iterations from `start`, regardless of the loop condition. */
  function After(start: Address, reports: Address -> bool, k: nat): Loop {
    if k == 0 then Loop(start, [])
    else
      var s := After(start, reports, k - 1);
      Advance(s, reports(s.ip))
  }

  const ALL_IPV4 := Network([0, 0, 0, 0], 0)

  const IPV4_SPACE: nat := 0x1_0000_0000

  /** The run of expandCIDR over the whole IPv4 address space. */
  function WholeRun(allowed: Address -> bool, k: nat): Loop {
    After(ALL_IPV4.ip, a => Reports(ALL_IPV4, allowed, a), k)
  }

  /** With the prefix 0 nothing leaves the block, and only 0.0.0.0 counts as an endpoint. */
  lemma WholeSpace(a: Address)
    requires |a| == 4
    ensures Contains(ALL_IPV4, a) && (SkipEndpoint(ALL_IPV4, a) <==> a == ALL_IPV4.ip)
  {
    var b := Successor(a);
    forall i | 0 <= i < 4
      ensures var hosts := HostValues(0, i);
        Masked(ALL_IPV4.ip[i], hosts) == Masked(a[i], hosts) == Masked(b[i], hosts)
    {
      NoMaskBits(ALL_IPV4.ip[i], a[i], 0, i);
      NoMaskBits(ALL_IPV4.ip[i], b[i], 0, i);
    }
  }

  /** The address number after k iterations: counting modulo total. */
  function Number(total: nat, k: nat): nat {
    if k == 0 then 0 else if Number(total, k - 1) + 1 == total then 0 else Number(total, k - 1) + 1
  }

  /** The numbers reported in k iterations. */
  function Reported(emits: nat -> bool, total: nat, k: nat): seq<nat> {
    if k == 0 then []
    else Reported(emits, total, k - 1) + (if emits(Number(total, k - 1)) then [Number(total, k - 1)] else [])
  }

  function LapStart(total: nat, lap: nat): nat {
    if lap == 0 then 0 else LapStart(total, lap - 1) + total
  }

  lemma {:induction false} NumberInLap(total: nat, lap: nat, v: nat)
    requires v < total
    ensures Number(total, LapStart(total, lap) + v) == v
    decreases lap, v
  {
    if v > 0 {
      NumberInLap(total, lap, v - 1);
    } else if lap > 0 {
      NumberInLap(total, lap - 1, total - 1);
    }
  }

  lemma {:induction false} ReportedGrows(emits: nat -> bool, total: nat, i: nat, j: nat)
    requires i <= j
    ensures Reported(emits, total, i) <= Reported(emits, total, j)
  {
    if i < j { ReportedGrows(emits, total, i, j - 1); }
  }

  /** Each lap reports an emitted number again. */
  lemma {:induction false} LapsReport(emits: nat -> bool, total: nat, v: nat, laps: nat)
    requires v < total && emits(v)
    ensures |Reported(emits, total, LapStart(total, laps))| >= laps
  {
    if laps > 0 {
      var start := LapStart(total, laps - 1);
      LapsReport(emits, total, v, laps - 1);
      NumberInLap(total, laps - 1, v);
      ReportedGrows(emits, total, start, start + v);
      ReportedGrows(emits, total, start + v + 1, start + total);
    }
  }

  ghost predicate EmitsNumber(allowed: Address -> bool, v: nat) {
    v != 0 && exists a: Address :: |a| == 4 && Value(a) == v && allowed(a)
  }

  ghost function Emits(allowed: Address -> bool): nat -> bool {
    (v: nat) => EmitsNumber(allowed, v)
  }

  function Numbers(out: seq<Address>): seq<nat> {
    seq(|out|, i requires 0 <= i < |out| => Value(out[i]))
  }

  lemma ZeroAddress()
    ensures Value(ALL_IPV4.ip) == 0
  {
    assert ALL_IPV4.ip[..3] == [0, 0, 0];
    assert [0, 0, 0][..2] == [0, 0];
    assert [0, 0][..1] == [0];
    assert Value([0]) == 0;
    assert Value([0, 0]) == 0;
    assert Value([0, 0, 0]) == 0;
  }

  lemma EmitsAddress(allowed: Address -> bool, a: Address)
    requires |a| == 4
    ensures EmitsNumber(allowed, Value(a)) <==> a != ALL_IPV4.ip && allowed(a)
  {
    ZeroAddress();
    if Value(a) == 0 { ValueIsInjective(a, ALL_IPV4.ip); }
    forall b: Address | |b| == 4 && Value(b) == Value(a) ensures b == a { ValueIsInjective(a, b); }
  }

  /** Reporting an address is the same as emitting its number. */
  ghost predicate Mirrors(reports: Address -> bool, emits: nat -> bool) {
    forall a: Address :: |a| == 4 ==> (reports(a) <==> emits(Value(a)))
  }

  ghost predicate AgreesWith(s: Loop, number: nat, reported: seq<nat>) {
    && |s.ip| == 4 && Value(s.ip) == number
    && Numbers(s.out) == reported
    && forall b :: b in s.out ==> |b| == 4
  }

  lemma NextNumber(a: Address)
    requires |a| == 4
    ensures Value(a) < IPV4_SPACE
    ensures |Successor(a)| == 4 && Value(Successor(a)) == if Value(a) + 1 == IPV4_SPACE then 0 else Value(a) + 1
  {
    assert Pow2(8) == 0x100;
    Pow2Bytes(1);
    Pow2Bytes(2);
    Pow2Bytes(3);
    ValueBound(a);
    SuccessorAddsOne(a);
  }

  lemma AdvanceAgrees(total: nat, s: Loop, report: bool, number: nat, reported: seq<nat>)
    requires total == IPV4_SPACE && AgreesWith(s, number, reported)
    ensures AgreesWith(Advance(s, report), if number + 1 == total then 0 else number + 1,
                       reported + (if report then [number] else []))
  {
    NextNumber(s.ip);
    var t := Advance(s, report);
    assert Numbers(t.out) == Numbers(s.out) + (if report then [Value(s.ip)] else []);
  }

  /** A loop over four-byte addresses from number 0 counts through all numbers again and again. */
  lemma {:induction false} LoopCounts(start: Address, reports: Address -> bool, emits: nat -> bool, total: nat, k: nat)
    requires AgreesWith(Loop(start, []), 0, [])
    requires total == IPV4_SPACE && Mirrors(reports, emits)
    ensures AgreesWith(After(start, reports, k), Number(total, k), Reported(emits, total, k))
  {
    if k > 0 {
      LoopCounts(start, reports, emits, total, k - 1);
      var s := After(start, reports, k - 1);
      AdvanceAgrees(total, s, reports(s.ip), Number(total, k - 1), Reported(emits, total, k - 1));
    }
  }

  lemma WholeRunCounts(allowed: Address -> bool, k: nat)
    ensures AgreesWith(WholeRun(allowed, k), Number(IPV4_SPACE, k), Reported(Emits(allowed), IPV4_SPACE, k))
  {
    var reports: Address -> bool := a => Reports(ALL_IPV4, allowed, a);
    forall a: Address | |a| == 4 ensures reports(a) <==> Emits(allowed)(Value(a)) {
      WholeSpace(a);
      EmitsAddress(allowed, a);
    }
    ZeroAddress();
    LoopCounts(ALL_IPV4.ip, reports, Emits(allowed), IPV4_SPACE, k);
  }

  /** On the whole space the loop goes on exactly as long as there is room. */
  lemma GoesOnWhileRoom(allowed: Address -> bool, maxHosts: nat, k: nat)
    ensures Continues(ALL_IPV4, maxHosts, WholeRun(allowed, k))
      <==> |Reported(Emits(allowed), IPV4_SPACE, k)| < maxHosts
  {
    WholeRunCounts(allowed, k);
    var s := WholeRun(allowed, k);
    assert |s.out| == |Numbers(s.out)|;
    WholeSpace(s.ip);
  }

  /** For 0.0.0.0/0 the loop ends exactly when the limit is 0 or the guard allows some address besides 0.0.0.0. */
  lemma WholeSpaceTermination(allowed: Address -> bool, maxHosts: nat)
    ensures (exists k: nat :: !Continues(ALL_IPV4, maxHosts, WholeRun(allowed, k)))
      <==> (maxHosts == 0 || exists a: Address :: |a| == 4 && a != ALL_IPV4.ip && allowed(a))
  {
    if maxHosts == 0 {
      GoesOnWhileRoom(allowed, 0, 0);
    } else if a: Address :| |a| == 4 && a != ALL_IPV4.ip && allowed(a) {
      var k := LapStart(IPV4_SPACE, maxHosts);
      NextNumber(a);
      EmitsAddress(allowed, a);
      LapsReport(Emits(allowed), IPV4_SPACE, Value(a), maxHosts);
      GoesOnWhileRoom(allowed, maxHosts, k);
    } else {
      forall v: nat ensures !Emits(allowed)(v) {
        NeverEmitted(allowed, v);
      }
      forall k: nat ensures Continues(ALL_IPV4, maxHosts, WholeRun(allowed, k)) {
        NothingReported(Emits(allowed), IPV4_SPACE, k);
        GoesOnWhileRoom(allowed, maxHosts, k);
      }
    }
  }

  lemma NeverEmitted(allowed: Address -> bool, v: nat)
    requires forall a: Address :: |a| == 4 && a != ALL_IPV4.ip ==> !allowed(a)
    ensures !EmitsNumber(allowed, v)
  {
    if EmitsNumber(allowed, v) {
      var a: Address :| |a| == 4 && Value(a) == v && allowed(a);
      EmitsAddress(allowed, a);
    }
  }

  lemma {:induction false} NothingReported(emits: nat -> bool, total: nat, k: nat)
    requires forall v :: !emits(v)
    ensures Reported(emits, total, k) == []
  {
    if k > 0 { NothingReported(emits, total, k - 1); }
  }

  // ---------------------------------------------------------------- what 0.0.0.0/0 reports

  /** The addresses that the guard allows, besides 0.0.0.0, in ascending order. */
  ghost predicate ListsAllowed(hosts: seq<Address>, allowed: Address -> bool) {
    && Ascending(hosts)
    && forall a: Address :: a in hosts <==> |a| == 4 && a != ALL_IPV4.ip && allowed(a)
  }

  predicate AscendingNumbers(e: seq<nat>) {
    forall i, j :: 0 <= i < j < |e| ==> e[i] < e[j]
  }

  /** How many numbers of e are below v. */
  function Below(e: seq<nat>, v: nat): (n: nat)
    ensures n <= |e|
  {
    if e == [] then 0 else Below(e[..|e| - 1], v) + (if e[|e| - 1] < v then 1 else 0)
  }

  lemma {:induction false} BelowAll(e: seq<nat>, v: nat)
    requires forall i :: 0 <= i < |e| ==> e[i] < v
    ensures Below(e, v) == |e|
  {
    if e != [] { BelowAll(e[..|e| - 1], v); }
  }

  lemma {:induction false} BelowZero(e: seq<nat>)
    ensures Below(e, 0) == 0
  {
    if e != [] { BelowZero(e[..|e| - 1]); }
  }

  lemma {:induction false} BelowAbsent(e: seq<nat>, v: nat)
    requires v !in e
    ensures Below(e, v + 1) == Below(e, v)
  {
    if e != [] {
      BelowAbsent(e[..|e| - 1], v);
      assert e[|e| - 1] in e;
    }
  }

  lemma {:induction false} BelowPresent(e: seq<nat>, i: nat)
    requires AscendingNumbers(e) && i < |e|
    ensures Below(e, e[i]) == i && Below(e, e[i] + 1) == i + 1
  {
    var init, last := e[..|e| - 1], e[|e| - 1];
    if i == |e| - 1 {
      BelowAll(init, last);
      BelowAll(init, last + 1);
    } else {
      BelowPresent(init, i);
      assert init[i] == e[i] < last;
    }
  }

  lemma {:induction false} NumberIsRemainder(n: nat, k: nat)
    requires n > 0
    ensures Number(n, k) == k % n
  {
    if k > 0 {
      NumberIsRemainder(n, k - 1);
      var q := (k - 1) / n;
      assert k - 1 == n * q + (k - 1) % n;
      if (k - 1) % n + 1 == n {
        NextMultiple(n, q);
        QuotientIs(k, n, q + 1, 0);
      } else {
        QuotientIs(k, n, q, (k - 1) % n + 1);
      }
    }
  }

  lemma NextMultiple(n: nat, q: nat)
    ensures n * q + n == n * (q + 1)
  {
  }

  /** The numbers reported are those of e, over and over. */
  ghost predicate Cycles(r: seq<nat>, e: seq<nat>) {
    forall i :: 0 <= i < |r| ==> 0 <= Number(|e|, i) < |e| && r[i] == e[Number(|e|, i)]
  }

  /** The next number in the cycle is the first one of e that is not below v. */
  ghost predicate InStep(r: seq<nat>, e: seq<nat>, v: nat) {
    Cycles(r, e) && Number(|e|, |r|) == if Below(e, v) == |e| then 0 else Below(e, v)
  }

  ghost predicate ListsNumbers(e: seq<nat>, emits: nat -> bool, total: nat) {
    && AscendingNumbers(e)
    && (forall i :: 0 <= i < |e| ==> e[i] < total && emits(e[i]))
    && forall v: nat :: v < total && emits(v) ==> v in e
  }

  /** One iteration at number v keeps the cycle in step. */
  lemma CycleStep(e: seq<nat>, emits: nat -> bool, total: nat, r: seq<nat>, v: nat)
    requires ListsNumbers(e, emits, total) && e != [] && v < total && InStep(r, e, v)
    ensures InStep(r + (if emits(v) then [v] else []), e, v + 1)
  {
    if emits(v) {
      var i :| 0 <= i < |e| && e[i] == v;
      BelowPresent(e, i);
    } else {
      BelowAbsent(e, v);
    }
  }

  lemma {:induction false} NumberIsSmall(total: nat, k: nat)
    requires total > 0
    ensures Number(total, k) < total
  {
    if k > 0 { NumberIsSmall(total, k - 1); }
  }

  lemma {:induction false} ReportedCycles(emits: nat -> bool, total: nat, e: seq<nat>, k: nat)
    requires total > 0 && ListsNumbers(e, emits, total) && e != []
    ensures InStep(Reported(emits, total, k), e, Number(total, k))
  {
    BelowZero(e);
    BelowAll(e, total);
    if k > 0 {
      ReportedCycles(emits, total, e, k - 1);
      NumberIsSmall(total, k - 1);
      CycleStep(e, emits, total, Reported(emits, total, k - 1), Number(total, k - 1));
    }
  }

  /** The first lap lists each emitted number once. */
  lemma {:induction false} FirstLap(emits: nat -> bool, total: nat, k: nat)
    requires k <= total
    ensures k < total ==> Number(total, k) == k
    ensures var r := Reported(emits, total, k);
      AscendingNumbers(r) && forall v: nat :: v in r <==> v < k && emits(v)
  {
    if k > 0 {
      FirstLap(emits, total, k - 1);
      var r := Reported(emits, total, k - 1);
      forall i | 0 <= i < |r| ensures r[i] < k - 1 { assert r[i] in r; }
    }
  }

  lemma ListedByNumber(hosts: seq<Address>, allowed: Address -> bool)
    requires (forall b :: b in hosts ==> |b| == 4) && AscendingNumbers(Numbers(hosts))
    requires forall v: nat :: v in Numbers(hosts) <==> v < IPV4_SPACE && EmitsNumber(allowed, v)
    ensures ListsAllowed(hosts, allowed)
  {
    forall i, j | 0 <= i < j < |hosts| ensures Value(hosts[i]) < Value(hosts[j]) {
      assert Numbers(hosts)[i] < Numbers(hosts)[j];
    }
    forall a: Address ensures a in hosts <==> |a| == 4 && a != ALL_IPV4.ip && allowed(a) {
      if |a| == 4 {
        NextNumber(a);
        EmitsAddress(allowed, a);
        MemberByNumber(hosts, a);
      }
    }
  }

  /** The allowed addresses can be listed: one lap of the loop does it. */
  lemma AllowedAreListed(allowed: Address -> bool, total: nat) returns (hosts: seq<Address>)
    requires total == IPV4_SPACE
    ensures ListsAllowed(hosts, allowed)
  {
    hosts := WholeRun(allowed, total).out;
    WholeRunCounts(allowed, total);
    FirstLap(Emits(allowed), total, total);
    forall v: nat ensures v in Numbers(hosts) <==> v < IPV4_SPACE && EmitsNumber(allowed, v) {
      assert Emits(allowed)(v) == EmitsNumber(allowed, v);
    }
    ListedByNumber(hosts, allowed);
  }

  lemma MemberByNumber(hosts: seq<Address>, a: Address)
    requires |a| == 4 && forall b :: b in hosts ==> |b| == 4
    ensures a in hosts <==> Value(a) in Numbers(hosts)
  {
    var e := Numbers(hosts);
    if Value(a) in e {
      var i :| 0 <= i < |e| && e[i] == Value(a);
      ValueIsInjective(a, hosts[i]);
    }
    if a in hosts {
      var i :| 0 <= i < |hosts| && hosts[i] == a;
      assert e[i] == Value(a);
    }
  }

  lemma AllowedNumbers(hosts: seq<Address>, allowed: Address -> bool)
    requires ListsAllowed(hosts, allowed)
    ensures ListsNumbers(Numbers(hosts), Emits(allowed), IPV4_SPACE)
  {
    var e := Numbers(hosts);
    forall i | 0 <= i < |e| ensures e[i] < IPV4_SPACE && Emits(allowed)(e[i]) {
      assert hosts[i] in hosts;
      NextNumber(hosts[i]);
      EmitsAddress(allowed, hosts[i]);
    }
    forall v: nat | v < IPV4_SPACE && Emits(allowed)(v) ensures v in e {
      assert EmitsNumber(allowed, v);
      var a: Address :| |a| == 4 && Value(a) == v && allowed(a);
      EmitsAddress(allowed, a);
      MemberByNumber(hosts, a);
    }
  }

  /** The loop over 0.0.0.0/0 ends after k iterations. */
  ghost predicate EndsAfter(allowed: Address -> bool, maxHosts: nat, k: nat) {
    && !Continues(ALL_IPV4, maxHosts, WholeRun(allowed, k))
    && forall m: nat :: m < k ==> Continues(ALL_IPV4, maxHosts, WholeRun(allowed, m))
  }

  ghost predicate HasRepetition(out: seq<Address>) {
    exists i, j :: 0 <= i < j < |out| && out[i] == out[j]
  }

  lemma EndsFull(allowed: Address -> bool, maxHosts: nat, k: nat)
    requires EndsAfter(allowed, maxHosts, k)
    ensures |WholeRun(allowed, k).out| == maxHosts
  {
    GoesOnWhileRoom(allowed, maxHosts, k);
    WholeRunCounts(allowed, k);
    assert |WholeRun(allowed, k).out| == |Numbers(WholeRun(allowed, k).out)|;
    if k > 0 {
      GoesOnWhileRoom(allowed, maxHosts, k - 1);
      assert Continues(ALL_IPV4, maxHosts, WholeRun(allowed, k - 1));
    }
  }

  /** The hosts in order, over and over. */
  ghost predicate RunsThrough(out: seq<Address>, hosts: seq<Address>) {
    forall i :: 0 <= i < |out| ==> hosts != [] && out[i] == hosts[i % |hosts|]
  }

  /** The finished output: the allowed addresses in order, over and over, until the limit is reached. */
  lemma WholeSpaceOutput(allowed: Address -> bool, hosts: seq<Address>, maxHosts: nat, k: nat)
    requires ListsAllowed(hosts, allowed) && EndsAfter(allowed, maxHosts, k)
    ensures var out := WholeRun(allowed, k).out;
      |out| == maxHosts && RunsThrough(out, hosts)
  {
    var out, e := WholeRun(allowed, k).out, Numbers(hosts);
    EndsFull(allowed, maxHosts, k);
    WholeRunCounts(allowed, k);
    AllowedNumbers(hosts, allowed);
    if hosts == [] {
      forall v: nat ensures !Emits(allowed)(v) { NeverEmitted(allowed, v); }
      NothingReported(Emits(allowed), IPV4_SPACE, k);
      assert |out| == |Numbers(out)|;
    } else {
      ReportedCycles(Emits(allowed), IPV4_SPACE, e, k);
      forall i | 0 <= i < |out| ensures out[i] == hosts[i % |hosts|] {
        NumberIsRemainder(|e|, i);
        SameAddress(out, hosts, i, i % |hosts|);
      }
    }
  }

  lemma SameAddress(out: seq<Address>, hosts: seq<Address>, i: nat, j: nat)
    requires i < |out| && j < |hosts| && |out[i]| == 4 == |hosts[j]|
    requires Numbers(out)[i] == Numbers(hosts)[j]
    ensures out[i] == hosts[j]
  {
    ValueIsInjective(out[i], hosts[j]);
  }

  /** Over 0.0.0.0/0 an address is repeated exactly when the limit exceeds the number of allowed addresses. */
  lemma WholeSpaceRepeats(allowed: Address -> bool, hosts: seq<Address>, maxHosts: nat, k: nat)
    requires ListsAllowed(hosts, allowed) && EndsAfter(allowed, maxHosts, k)
    ensures HasRepetition(WholeRun(allowed, k).out) <==> maxHosts > |hosts|
  {
    WholeSpaceOutput(allowed, hosts, maxHosts, k);
    CycleRepeats(WholeRun(allowed, k).out, hosts);
  }

  lemma CycleRepeats(out: seq<Address>, hosts: seq<Address>)
    requires Ascending(hosts) && RunsThrough(out, hosts)
    ensures HasRepetition(out) <==> |out| > |hosts|
  {
    var n := |hosts|;
    if |out| > n {
      assert hosts != [] && out[0] == hosts[0 % n];
      assert n % n == 0 && out[n] == hosts[n % n];
    } else {
      forall i, j | 0 <= i < j < |out| ensures out[i] != out[j] {
        assert i % n == i && j % n == j;
        assert Value(hosts[i]) < Value(hosts[j]);
      }
    }
  }
}
