/**
 The Internet checksum (sections 1 and 2 of RFC 1071) in 32-bit unsigned arithmetic, and the IPv4
 header (section 3.1 of RFC 791) that carries it.
 */
module InternetChecksum {
  import opened Basics

  const TWO_16: nat := 0x1_0000
  const TWO_32: nat := 0x1_0000_0000

  /** Longest buffer whose words always add up without overflowing 32 bits. */
  const LONGEST: nat := 131_074

  // ---------------------------------------------------------------- the sum and its folding

  function Word(high: Byte, low: Byte): (w: nat)
    ensures w < TWO_16
  {
    256 * (high as int) + (low as int)
  }

  /** Sum of the big-endian 16-bit words; an odd last byte counts as the high half of a word. */
  function WordSum(data: seq<Byte>): nat {
    if |data| == 0 then 0
    else if |data| == 1 then Word(data[0], 0)
    else Word(data[0], data[1]) + WordSum(data[2..])
  }

  /** Adds the carries back in until 16 bits are left. */
  function Fold(sum: nat): (f: nat)
    ensures f < TWO_16
    decreases sum
  {
    if sum < TWO_16 then sum else Fold(sum % TWO_16 + sum / TWO_16)
  }

  /** The value of the 32-bit accumulator after all words were added. */
  function Sum32(data: seq<Byte>): (s: nat)
    ensures s < TWO_32
  {
    WordSum(data) % TWO_32
  }

  function Checksum(data: seq<Byte>): (c: nat)
    ensures c < TWO_16
  {
    TWO_16 - 1 - Fold(Sum32(data))
  }

  lemma TakeWord(data: seq<Byte>, i: nat)
    requires i + 1 < |data|
    ensures WordSum(data[i..]) == Word(data[i], data[i + 1]) + WordSum(data[i + 2..])
  {
    assert data[i..][2..] == data[i + 2..];
  }

  lemma TakeLastByte(data: seq<Byte>)
    requires data != []
    ensures WordSum(data[|data| - 1..]) == Word(data[|data| - 1], 0)
  {
  }

  /** uint32 addition */
  function Add32(a: nat, b: nat): (s: nat)
    requires a < TWO_32 && b < TWO_32
    ensures s < TWO_32
  {
    if a + b >= TWO_32 then a + b - TWO_32 else a + b
  }

  lemma RemainderIs(exact: nat, carries: nat, sum: nat)
    requires exact == TWO_32 * carries + sum && sum < TWO_32
    ensures exact % TWO_32 == sum
  {
  }

  method AddWords(data: seq<Byte>) returns (sum: nat)
    ensures sum == Sum32(data)
  {
    sum := 0;
    var i := 0;
    ghost var n, carries := 0, 0;
    while i < |data| - 1
      invariant i == 2 * n <= |data| && sum < TWO_32
      invariant TWO_32 * carries + sum + WordSum(data[i..]) == WordSum(data)
    {
      var word := Word(data[i], data[i + 1]);
      TakeWord(data, i);
      carries := if sum + word >= TWO_32 then carries + 1 else carries;
      sum := Add32(sum, word);
      i, n := i + 2, n + 1;
    }
    if |data| % 2 == 1 {
      var word := Word(data[|data| - 1], 0);
      TakeLastByte(data);
      carries := if sum + word >= TWO_32 then carries + 1 else carries;
      sum := Add32(sum, word);
    }
    RemainderIs(WordSum(data), carries, sum);
  }

  method CalculateChecksum(data: seq<Byte>) returns (c: nat)
    ensures c == Checksum(data)
  {
    var sum := AddWords(data);
    while sum / TWO_16 > 0
      invariant 0 <= sum < TWO_32 && Fold(sum) == Fold(Sum32(data))
      decreases sum
    {
      sum := sum % TWO_16 + sum / TWO_16;
    }
    c := TWO_16 - 1 - sum;
  }

  /** An odd last byte counts as if a zero byte followed (section 1 of RFC 1071). */
  lemma {:induction false} OddIsPadded(data: seq<Byte>)
    requires |data| % 2 == 1
    ensures Checksum(data) == Checksum(data + [0])
  {
    PaddedSum(data);
  }

  lemma {:induction false} PaddedSum(data: seq<Byte>)
    requires |data| % 2 == 1
    ensures WordSum(data) == WordSum(data + [0])
  {
    if |data| > 1 {
      PaddedSum(data[2..]);
      assert (data + [0])[2..] == data[2..] + [0];
    }
  }

  /** The worked example of section 3 of RFC 1071. */
  lemma WorkedExample()
    ensures Checksum([0x00, 0x01, 0xf2, 0x03, 0xf4, 0xf5, 0xf6, 0xf7]) == 0x220d
  {
    var d: seq<Byte> := [0x00, 0x01, 0xf2, 0x03, 0xf4, 0xf5, 0xf6, 0xf7];
    assert WordSum(d[6..]) == 0xf6f7;
    assert d[4..][2..] == d[6..] && d[2..][2..] == d[4..];
    assert WordSum(d) == 0x2ddf0;
    assert Fold(0x2ddf0) == Fold(0xddf2);
  }

  lemma Wrap(a: nat, b: nat)
    ensures (a % TWO_32 + b) % TWO_32 == (a + b) % TWO_32
  {
  }

  // ---------------------------------------------------------------- what folding computes

  /** Folding is the remainder modulo 0xffff, with 0xffff in place of 0 for every sum but 0. */
  lemma {:induction false} FoldMeaning(sum: nat)
    ensures Fold(sum) == if sum == 0 then 0 else (sum - 1) % 65535 + 1
    decreases sum
  {
    if sum >= TWO_16 {
      var next := sum % TWO_16 + sum / TWO_16;
      FoldMeaning(next);
      var q := sum / TWO_16;
      assert sum - 1 == (next - 1) + 65535 * q;
      SameRemainder(next - 1, q);
    }
  }

  lemma SameRemainder(a: nat, q: nat)
    ensures (a + 65535 * q) % 65535 == a % 65535
  {
  }

  lemma FoldsToAllOnes(sum: nat)
    ensures Fold(sum) == 65535 <==> sum > 0 && sum % 65535 == 0
  {
    FoldMeaning(sum);
  }

  /** A buffer verifies exactly when its 32-bit word sum is a positive multiple of 0xffff. */
  lemma Verifies(data: seq<Byte>)
    ensures Checksum(data) == 0 <==> Sum32(data) > 0 && Sum32(data) % 65535 == 0
  {
    FoldsToAllOnes(Sum32(data));
  }

  // ---------------------------------------------------------------- no overflow

  lemma {:induction false} SumBound(data: seq<Byte>)
    ensures WordSum(data) <= 65535 * (|data| / 2) + (if |data| % 2 == 1 then 65280 else 0)
  {
    if |data| >= 2 { SumBound(data[2..]); }
  }

  lemma {:induction false} LargestSum(n: nat)
    ensures WordSum(seq(n, _ => 255)) == 65535 * (n / 2) + (if n % 2 == 1 then 65280 else 0)
  {
    var data: seq<Byte> := seq(n, _ => 255);
    if n >= 2 {
      assert data[2..] == seq(n - 2, _ => 255);
      LargestSum(n - 2);
    }
  }

  /** The 32-bit accumulator is wide enough for all buffers of n bytes exactly up to 131074 bytes. */
  lemma AccumulatorSuffices(n: nat)
    ensures (forall data: seq<Byte> :: |data| == n ==> WordSum(data) < TWO_32) <==> n <= LONGEST
  {
    if n <= LONGEST {
      forall data: seq<Byte> | |data| == n ensures WordSum(data) < TWO_32 { SumBound(data); }
    } else {
      LargestSum(n);
      var data: seq<Byte> := seq(n, _ => 255);
      assert |data| == n && WordSum(data) >= TWO_32;
    }
  }

  // ---------------------------------------------------------------- storing and changing a word

  function WordAt(data: seq<Byte>, k: nat): nat
    requires k + 1 < |data|
  {
    Word(data[k], data[k + 1])
  }

  /** Stores the 16-bit word w in big-endian order at offset k. */
  function PutWord(data: seq<Byte>, k: nat, w: nat): (r: seq<Byte>)
    requires k + 1 < |data| && w < TWO_16
    ensures |r| == |data| && WordAt(r, k) == w
  {
    data[k := w / 256][k + 1 := w % 256]
  }

  lemma {:induction false} PutWordSum(data: seq<Byte>, k: nat, w: nat)
    requires k % 2 == 0 && k + 1 < |data| && w < TWO_16
    ensures WordSum(PutWord(data, k, w)) == WordSum(data) - WordAt(data, k) + w
  {
    var r := PutWord(data, k, w);
    if k == 0 {
      assert r[2..] == data[2..];
    } else {
      assert r[2..] == PutWord(data[2..], k - 2, w);
      PutWordSum(data[2..], k - 2, w);
    }
  }

  /** Storing the checksum in a zeroed aligned field makes the buffer verify, even if the accumulator wrapped around. */
  lemma FilledFieldVerifies(data: seq<Byte>, k: nat)
    requires k % 2 == 0 && k + 1 < |data| && WordAt(data, k) == 0
    ensures Checksum(PutWord(data, k, Checksum(data))) == 0
  {
    FilledSum(data, k);
    FillArithmetic(Sum32(data));
    Verifies(PutWord(data, k, Checksum(data)));
  }

  lemma FilledSum(data: seq<Byte>, k: nat)
    requires k % 2 == 0 && k + 1 < |data| && WordAt(data, k) == 0
    ensures Sum32(PutWord(data, k, Checksum(data))) == Sum32(data) + Checksum(data)
  {
    var s, c := WordSum(data), Checksum(data);
    PutWordSum(data, k, c);
    FillArithmetic(s % TWO_32);
    assert c == 65535 - Fold(s % TWO_32);
    assert (s % TWO_32 + c) % TWO_32 == s % TWO_32 + c;
    Wrap(s, c);
  }

  /** The sum plus its checksum is a positive multiple of 0xffff that still fits 32 bits. */
  lemma FillArithmetic(s: nat)
    requires s < TWO_32
    ensures var t := s + (65535 - Fold(s)); 0 < t < TWO_32 && t % 65535 == 0 && t % TWO_32 == t
  {
    FoldMeaning(s);
    if s > 0 {
      var q, r := (s - 1) / 65535, (s - 1) % 65535;
      assert s + (65535 - Fold(s)) == 65535 * (q + 1);
      assert q <= 65536;
    }
  }

  /**
   Changing one aligned word of a verifying buffer goes unnoticed exactly when the word keeps its
   value or trades 0x0000 and 0xffff, and the buffer does not become all zero.
   */
  lemma OneWordChange(data: seq<Byte>, k: nat, w: nat)
    requires k % 2 == 0 && k + 1 < |data| <= LONGEST && w < TWO_16
    requires Checksum(data) == 0
    ensures Checksum(PutWord(data, k, w)) == 0
      <==> (w == WordAt(data, k) || {w, WordAt(data, k)} == {0, 65535}) && WordSum(PutWord(data, k, w)) > 0
  {
    var v := WordAt(data, k);
    NoWrap(data);
    NoWrap(PutWord(data, k, w));
    PutWordSum(data, k, w);
    Verifies(data);
    Verifies(PutWord(data, k, w));
    Congruent(WordSum(data), w - v);
    Traded(v, w);
  }

  lemma NoWrap(data: seq<Byte>)
    requires |data| <= LONGEST
    ensures Sum32(data) == WordSum(data)
  {
    SumBound(data);
  }

  lemma Traded(v: nat, w: nat)
    requires v < TWO_16 && w < TWO_16
    ensures w - v == 65535 || w - v == -65535 <==> {w, v} == {0, 65535}
  {
    if {w, v} == {0, 65535} {
      assert w in {w, v} && v in {w, v} && 0 in {w, v} && 65535 in {w, v};
    }
  }

  lemma Congruent(s: nat, d: int)
    requires s % 65535 == 0 && -65535 <= d <= 65535 && s + d >= 0
    ensures (s + d) % 65535 == 0 <==> d == 0 || d == 65535 || d == -65535
  {
  }

  // ---------------------------------------------------------------- the IPv4 header

  /** The fields of section 3.1 of RFC 791; fragment stands for the flags and the fragment offset. */
  datatype IPv4Header = IPv4Header(
    version: nat,
    headerWords: nat,
    service: nat,
    totalLength: nat,
    identification: nat,
    fragment: nat,
    timeToLive: nat,
    protocol: nat,
    checksum: nat,
    source: seq<Byte>,
    destination: seq<Byte>)

  function DecodeHeader(h: seq<Byte>): IPv4Header
    requires |h| == 20
  {
    IPv4Header(
      (h[0] as int) / 16, (h[0] as int) % 16, h[1], 256 * h[2] as int + h[3] as int, 256 * h[4] as int + h[5] as int,
      256 * h[6] as int + h[7] as int, h[8], h[9], 256 * h[10] as int + h[11] as int, h[12..16], h[16..20])
  }

  /** The result of To4: four bytes, or nothing for an address that is not IPv4; the copy then leaves zeros. */
  function Address(ip: seq<Byte>): (a: seq<Byte>)
    requires |ip| in {0, 4}
    ensures |a| == 4
  {
    if ip == [] then [0, 0, 0, 0] else ip
  }

  /** The first twelve bytes of section 3.1 of RFC 791, with a zero checksum field. */
  function FixedLayout(totalLength: nat, proto: nat): (h: seq<Byte>)
    requires totalLength < TWO_16
    ensures |h| == 12
  {
    [0x45, 0, totalLength / 256, totalLength % 256, 54321 / 256, 54321 % 256, 0, 0, 64, proto % 256, 0, 0]
  }

  function HeaderLayout(srcIP: seq<Byte>, dstIP: seq<Byte>, payloadLen: nat, proto: nat): (h: seq<Byte>)
    requires |srcIP| in {0, 4} && |dstIP| in {0, 4}
    ensures |h| == 20
  {
    FixedLayout((20 + payloadLen) % TWO_16, proto) + Address(srcIP) + Address(dstIP)
  }

  method PutUint16(buf: array<Byte>, k: nat, w: nat)
    requires k + 1 < buf.Length && w < TWO_16
    modifies buf
    ensures buf[..] == PutWord(old(buf[..]), k, w)
  {
    buf[k] := w / 256;
    buf[k + 1] := w % 256;
  }

  method CopyInto(buf: array<Byte>, k: nat, src: seq<Byte>)
    requires k + |src| <= buf.Length
    modifies buf
    ensures buf[..] == old(buf[..])[..k] + src + old(buf[..])[k + |src|..]
  {
    for i := 0 to |src|
      invariant buf[..] == old(buf[..])[..k] + src[..i] + old(buf[..])[k + i..]
    {
      buf[k + i] := src[i];
    }
    assert src[..|src|] == src;
  }

  method WriteFirstHalf(hdr: array<Byte>, totalLength: nat)
    requires hdr.Length == 20 && totalLength < TWO_16
    modifies hdr
    ensures hdr[..6] == [0x45, 0x00, totalLength / 256, totalLength % 256, 54321 / 256, 54321 % 256]
    ensures forall i :: 6 <= i < 20 ==> hdr[i] == old(hdr[i])
  {
    hdr[0] := 0x45;
    hdr[1] := 0x00;
    hdr[2], hdr[3] := totalLength / 256, totalLength % 256;
    hdr[4], hdr[5] := 54321 / 256, 54321 % 256;
  }

  method WriteSecondHalf(hdr: array<Byte>, proto: nat)
    requires hdr.Length == 20
    modifies hdr
    ensures hdr[6..10] == [0x00, 0x00, 64, proto % 256]
    ensures forall i :: (0 <= i < 6 || 10 <= i < 20) ==> hdr[i] == old(hdr[i])
  {
    hdr[6] := 0x00;
    hdr[7] := 0x00;
    hdr[8] := 64;
    hdr[9] := proto % 256;
  }

  method WriteFixedPart(hdr: array<Byte>, totalLength: nat, proto: nat)
    requires hdr.Length == 20 && totalLength < TWO_16
    requires forall i :: 0 <= i < 20 ==> hdr[i] == 0
    modifies hdr
    ensures hdr[..12] == FixedLayout(totalLength, proto)
    ensures forall i :: 12 <= i < 20 ==> hdr[i] == 0
  {
    WriteFirstHalf(hdr, totalLength);
    ghost var first := hdr[..6];
    WriteSecondHalf(hdr, proto);
    assert hdr[..6] == first;
    assert hdr[10..12] == [0, 0];
    assert hdr[..12] == hdr[..6] + hdr[6..10] + hdr[10..12];
  }

  lemma ZeroField(srcIP: seq<Byte>, dstIP: seq<Byte>, payloadLen: nat, proto: nat)
    requires |srcIP| in {0, 4} && |dstIP| in {0, 4}
    ensures WordAt(HeaderLayout(srcIP, dstIP, payloadLen, proto), 10) == 0
  {
  }

  method CopyAddress(hdr: array<Byte>, k: nat, ip: seq<Byte>)
    requires k + 4 <= hdr.Length && |ip| in {0, 4}
    requires forall i :: k <= i < hdr.Length ==> hdr[i] == 0
    modifies hdr
    ensures hdr[..k + 4] == old(hdr[..k]) + Address(ip)
    ensures forall i :: k + 4 <= i < hdr.Length ==> hdr[i] == 0
  {
    CopyInto(hdr, k, ip);
    ghost var was := old(hdr[..]);
    assert forall i :: k <= i < |was| ==> was[i] == 0;
    assert hdr[..] == was[..k] + ip + was[k + |ip|..];
    assert hdr[..k + 4] == hdr[..][..k + 4];
    assert hdr[..][..k + 4] == was[..k] + Address(ip);
    forall i | k + 4 <= i < hdr.Length ensures hdr[i] == 0 { assert hdr[..][i] == was[i]; }
  }

  lemma AddressFields(srcIP: seq<Byte>, dstIP: seq<Byte>, payloadLen: nat, proto: nat)
    requires |srcIP| in {0, 4} && |dstIP| in {0, 4}
    ensures var h := HeaderLayout(srcIP, dstIP, payloadLen, proto);
      && h[..12] == FixedLayout((20 + payloadLen) % TWO_16, proto)
      && h[12..16] == (if srcIP == [] then [0, 0, 0, 0] else srcIP)
      && h[16..20] == (if dstIP == [] then [0, 0, 0, 0] else dstIP)
  {
  }

  lemma ChecksumField(h: seq<Byte>, sum: nat)
    requires |h| == 20 && sum < TWO_16
    ensures var f := PutWord(h, 10, sum);
      && f[..10] == h[..10] && f[10] as int == sum / 256 && f[11] as int == sum % 256 && f[12..] == h[12..]
      && f[12..16] == h[12..16] && f[16..20] == h[16..20]
  {
  }

  /** The first six words in front of the addresses. */
  lemma FixedFields(h: seq<Byte>, totalLength: nat, proto: nat)
    requires |h| == 20 && totalLength < TWO_16 && h[..10] == FixedLayout(totalLength, proto)[..10]
    ensures var d := DecodeHeader(h);
      && d.version == 4 && d.headerWords == 5 && d.service == 0 && d.totalLength == totalLength
      && d.identification == 54321 && d.fragment == 0 && d.timeToLive == 64 && d.protocol == proto % 256
  {
    var f := FixedLayout(totalLength, proto);
    assert forall i :: 0 <= i < 10 ==> h[i] == h[..10][i] == f[..10][i] == f[i];
  }

  lemma FieldsOfLayout(srcIP: seq<Byte>, dstIP: seq<Byte>, payloadLen: nat, proto: nat, sum: nat)
    requires |srcIP| in {0, 4} && |dstIP| in {0, 4} && sum < TWO_16
    ensures DecodeHeader(PutWord(HeaderLayout(srcIP, dstIP, payloadLen, proto), 10, sum)) ==
      IPv4Header(4, 5, 0, (20 + payloadLen) % TWO_16, 54321, 0, 64, proto % 256, sum,
                 if srcIP == [] then [0, 0, 0, 0] else srcIP, if dstIP == [] then [0, 0, 0, 0] else dstIP)
  {
    var layout := HeaderLayout(srcIP, dstIP, payloadLen, proto);
    AddressFields(srcIP, dstIP, payloadLen, proto);
    ChecksumField(layout, sum);
    assert layout[..10] == layout[..12][..10];
    FixedFields(PutWord(layout, 10, sum), (20 + payloadLen) % TWO_16, proto);
  }

  /** The layout can be had back from the header by clearing the checksum field. */
  lemma ClearedField(layout: seq<Byte>, h: seq<Byte>, sum: nat)
    requires |layout| == 20 && WordAt(layout, 10) == 0 && sum < TWO_16 && h == PutWord(layout, 10, sum)
    ensures |h| == 20 && layout == h[..10] + [0, 0] + h[12..]
  {
    ChecksumField(layout, sum);
    assert layout[10] == 0 && layout[11] == 0;
    assert layout == layout[..10] + [layout[10], layout[11]] + layout[12..];
  }

  /** Every header decodes to the fields of the call, and its checksum verifies. */
  method BuildIPHeader(srcIP: seq<Byte>, dstIP: seq<Byte>, payloadLen: nat, proto: nat) returns (hdr: array<Byte>)
    requires |srcIP| in {0, 4} && |dstIP| in {0, 4}
    ensures fresh(hdr) && hdr.Length == 20
    ensures DecodeHeader(hdr[..]) ==
      IPv4Header(4, 5, 0, (20 + payloadLen) % TWO_16, 54321, 0, 64, proto % 256,
                 Checksum(hdr[..10] + [0, 0] + hdr[12..]),
                 if srcIP == [] then [0, 0, 0, 0] else srcIP, if dstIP == [] then [0, 0, 0, 0] else dstIP)
    ensures Checksum(hdr[..]) == 0
  {
    ghost var layout := HeaderLayout(srcIP, dstIP, payloadLen, proto);
    hdr := LayOut(srcIP, dstIP, payloadLen, proto);
    ZeroField(srcIP, dstIP, payloadLen, proto);
    StoreChecksum(hdr);
    FieldsOfLayout(srcIP, dstIP, payloadLen, proto, Checksum(layout));
    ClearedField(layout, hdr[..], Checksum(layout));
  }

  /** The header before its checksum is stored. */
  method LayOut(srcIP: seq<Byte>, dstIP: seq<Byte>, payloadLen: nat, proto: nat) returns (hdr: array<Byte>)
    requires |srcIP| in {0, 4} && |dstIP| in {0, 4}
    ensures fresh(hdr) && hdr.Length == 20
    ensures hdr[..] == HeaderLayout(srcIP, dstIP, payloadLen, proto)
  {
    hdr := new Byte[20](_ => 0);
    WriteFixedPart(hdr, (20 + payloadLen) % TWO_16, proto);
    CopyAddress(hdr, 12, srcIP);
    CopyAddress(hdr, 16, dstIP);
    assert hdr[..] == hdr[..20];
  }

  method StoreChecksum(hdr: array<Byte>)
    requires hdr.Length == 20 && WordAt(hdr[..], 10) == 0
    modifies hdr
    ensures hdr[..] == PutWord(old(hdr[..]), 10, Checksum(old(hdr[..]))) && Checksum(hdr[..]) == 0
  {
    var csum := CalculateChecksum(hdr[..]);
    FilledFieldVerifies(hdr[..], 10);
    PutUint16(hdr, 10, csum);
  }
}
