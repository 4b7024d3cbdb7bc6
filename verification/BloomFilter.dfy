/** The Bloom filter: three digest indices per item, packed into 64-bit words. */
module BloomFilter {
  import opened Powers

  const TWO_64: nat := 0x1_0000_0000_0000_0000

  /** Largest size for which the rounding `size + 63` does not wrap around. */
  const LARGEST_SIZE: nat := TWO_64 - 64

  // ---------------------------------------------------------------- bits of a word

  predicate Bit(w: nat, k: nat) {
    if k == 0 then w % 2 == 1 else Bit(w / 2, k - 1)
  }

  /** Bitwise a | b. */
  function Or(a: nat, b: nat): nat
    decreases a + b
  {
    if a == 0 then b
    else if b == 0 then a
    else 2 * Or(a / 2, b / 2) + (if a % 2 == 1 || b % 2 == 1 then 1 else 0)
  }

  /** Bitwise a & b. */
  function And(a: nat, b: nat): nat {
    if a == 0 || b == 0 then 0
    else 2 * And(a / 2, b / 2) + (if a % 2 == 1 && b % 2 == 1 then 1 else 0)
  }

  lemma {:induction false} ZeroHasNoBits(k: nat)
    ensures !Bit(0, k)
  {
    if k > 0 { ZeroHasNoBits(k - 1); }
  }

  lemma {:induction false} BitOfOr(a: nat, b: nat, k: nat)
    ensures Bit(Or(a, b), k) <==> Bit(a, k) || Bit(b, k)
  {
    ZeroHasNoBits(k);
    if a != 0 && b != 0 && k > 0 {
      assert Or(a, b) / 2 == Or(a / 2, b / 2);
      BitOfOr(a / 2, b / 2, k - 1);
    }
  }

  lemma {:induction false} BitOfPow2(i: nat, j: nat)
    ensures Bit(Pow2(i), j) <==> i == j
  {
    if i > 0 && j > 0 {
      assert Pow2(i) / 2 == Pow2(i - 1);
      BitOfPow2(i - 1, j - 1);
    } else if j > 0 {
      ZeroHasNoBits(j - 1);
    }
  }

  lemma {:induction false} AndWithPow2(w: nat, k: nat)
    ensures And(w, Pow2(k)) != 0 <==> Bit(w, k)
  {
    ZeroHasNoBits(k);
    if w != 0 {
      if k > 0 {
        assert Pow2(k) / 2 == Pow2(k - 1) && Pow2(k) % 2 == 0;
        AndWithPow2(w / 2, k - 1);
      } else {
        assert And(w / 2, 0) == 0;
      }
    }
  }

  /** Or never needs more bits than its operands. */
  lemma {:induction false} OrFits(a: nat, b: nat, n: nat)
    requires a < Pow2(n) && b < Pow2(n)
    ensures Or(a, b) < Pow2(n)
  {
    if n > 0 && a != 0 && b != 0 {
      OrFits(a / 2, b / 2, n - 1);
    }
  }

  lemma {:induction false} Pow2Ascends(i: nat, j: nat)
    requires i < j
    ensures Pow2(i) < Pow2(j)
  {
    if i < j - 1 { Pow2Ascends(i, j - 1); }
  }

  lemma WordSize()
    ensures Pow2(64) == TWO_64
  {
    assert Pow2(8) == 0x100;
    assert Pow2(16) == 0x1_0000;
    assert Pow2(24) == 0x100_0000;
    assert Pow2(32) == 0x1_0000_0000;
    assert Pow2(40) == 0x100_0000_0000;
    assert Pow2(48) == 0x1_0000_0000_0000;
    assert Pow2(56) == 0x100_0000_0000_0000;
  }

  // ---------------------------------------------------------------- indices

  /** The three indices of an item; `digest` stands for the first eight bytes of the seeded hash. */
  function Index(digest: (string, nat) -> nat, size: nat, item: string, seed: nat): (i: nat)
    requires size > 0
    ensures i < size
  {
    digest(item, seed) % size
  }

  /** The indices for the seeds 1 to n. */
  function FirstIndices(digest: (string, nat) -> nat, size: nat, item: string, n: nat): set<nat>
    requires size > 0
  {
    if n == 0 then {} else FirstIndices(digest, size, item, n - 1) + {Index(digest, size, item, n)}
  }

  /** The digests of the item with the seeds 1, 2 and 3, modulo the size. */
  function Indices(digest: (string, nat) -> nat, size: nat, item: string): set<nat>
    requires size > 0
  {
    {digest(item, 1) % size, digest(item, 2) % size, digest(item, 3) % size}
  }

  lemma ThreeIndices(digest: (string, nat) -> nat, size: nat, item: string)
    requires size > 0
    ensures FirstIndices(digest, size, item, 3) == Indices(digest, size, item)
  {
    assert FirstIndices(digest, size, item, 1) == {Index(digest, size, item, 1)};
    assert FirstIndices(digest, size, item, 2) == {Index(digest, size, item, 1), Index(digest, size, item, 2)};
  }

  lemma {:induction false} EarlierIndex(digest: (string, nat) -> nat, size: nat, item: string, seed: nat, n: nat)
    requires size > 0 && 1 <= seed <= n
    ensures Index(digest, size, item, seed) in FirstIndices(digest, size, item, n)
  {
    if seed < n { EarlierIndex(digest, size, item, seed, n - 1); }
  }

  function IndexUnion(digest: (string, nat) -> nat, size: nat, items: seq<string>): set<nat>
    requires size > 0
  {
    if items == [] then {}
    else IndexUnion(digest, size, items[..|items| - 1]) + Indices(digest, size, items[|items| - 1])
  }

  lemma {:induction false} UnionHasMember(digest: (string, nat) -> nat, size: nat, items: seq<string>, item: string)
    requires size > 0 && item in items
    ensures Indices(digest, size, item) <= IndexUnion(digest, size, items)
  {
    if item != items[|items| - 1] {
      UnionHasMember(digest, size, items[..|items| - 1], item);
    }
  }

  // ---------------------------------------------------------------- allocation

  /** Number of words, in the wrapping arithmetic of uint64. */
  function Words(size: nat): nat {
    (size + 63) % TWO_64 / 64
  }

  /** Every index has a word exactly for the sizes whose rounding does not wrap around. */
  lemma EveryIndexHasAWord(size: nat)
    requires 0 < size < TWO_64
    ensures (forall i: nat :: i < size ==> i / 64 < Words(size)) <==> size <= LARGEST_SIZE
  {
    if size > LARGEST_SIZE {
      assert Words(size) == 0;
      assert 0 / 64 >= Words(size);
    }
  }

  predicate HasBit(words: seq<nat>, i: nat) {
    i / 64 < |words| && Bit(words[i / 64], i % 64)
  }

  class Filter {
    const digest: (string, nat) -> nat
    const size: nat
    const bits: array<nat>
    ghost var present: set<nat>   // the indices below size whose bit is set
    ghost var added: seq<string>

    /** The words are 64-bit words, one for each index, and their set bits are the present indices. */
    ghost predicate Represents()
      reads `present, bits
    {
      && 0 < size <= LARGEST_SIZE && bits.Length == Words(size)
      && (forall i :: 0 <= i < bits.Length ==> bits[i] < Pow2(64))
      && (forall i: nat {:trigger HasBit(bits[..], i)} :: i < size ==> (i in present <==> HasBit(bits[..], i)))
      && (forall i :: i in present ==> i < size)
    }

    ghost predicate Valid()
      reads this, bits
    {
      Represents() && present == IndexUnion(digest, size, added)
    }

    constructor (digest: (string, nat) -> nat, requested: nat)
      requires requested < TWO_64
      ensures this.digest == digest && size == (if requested == 0 then 65536 else requested)
      ensures requested <= LARGEST_SIZE ==> Valid()
      ensures requested > LARGEST_SIZE ==> bits.Length == 0
      ensures added == [] && fresh(bits)
    {
      this.digest := digest;
      size := if requested == 0 then 65536 else requested;
      bits := new nat[Words(if requested == 0 then 65536 else requested)](_ => 0);
      added, present := [], {};
      new;
      WordSize();
      forall i: nat ensures !HasBit(bits[..], i) { ZeroHasNoBits(i % 64); }
    }

    method Add(item: string)
      requires Valid()
      modifies `present, `added, bits
      ensures Valid() && added == old(added) + [item]
      ensures present == old(present) + Indices(digest, size, item)
    {
      SetIndices(item);
      added := added + [item];
      assert added[..|added| - 1] == old(added);
    }

    method SetIndices(item: string)
      requires Represents()
      modifies `present, bits
      ensures Represents() && present == old(present) + Indices(digest, size, item)
    {
      var seed := 1;
      while seed <= 3
        invariant 1 <= seed <= 4 && Represents()
        invariant present == old(present) + FirstIndices(digest, size, item, seed - 1)
      {
        SetIndex(Index(digest, size, item, seed));
        seed := seed + 1;
      }
      ThreeIndices(digest, size, item);
    }

    /** bits[idx/64] |= 1 << (idx % 64) */
    method SetIndex(idx: nat)
      requires Represents() && idx < size
      modifies bits, `present
      ensures Represents() && present == old(present) + {idx}
    {
      EveryIndexHasAWord(size);
      ghost var before := bits[..];
      bits[idx / 64] := Or(bits[idx / 64], Pow2(idx % 64));
      present := present + {idx};
      Pow2Ascends(idx % 64, 64);
      OrFits(before[idx / 64], Pow2(idx % 64), 64);
      forall i: nat | i < size ensures HasBit(bits[..], i) <==> HasBit(before, i) || i == idx {
        BitOfOr(before[idx / 64], Pow2(idx % 64), i % 64);
        BitOfPow2(idx % 64, i % 64);
      }
    }

    /** True exactly when all indices of the item belong to items added before; never false for an added item. */
    method Contains(item: string) returns (r: bool)
      requires Valid()
      ensures r <==> Indices(digest, size, item) <= IndexUnion(digest, size, added)
      ensures item in added ==> r
    {
      if item in added { UnionHasMember(digest, size, added, item); }
      ThreeIndices(digest, size, item);
      var seed := 1;
      while seed <= 3
        invariant 1 <= seed <= 4
        invariant FirstIndices(digest, size, item, seed - 1) <= present
      {
        var isSet := TestIndex(Index(digest, size, item, seed));
        if !isSet {
          EarlierIndex(digest, size, item, seed, 3);
          return false;
        }
        seed := seed + 1;
      }
      r := true;
    }

    /** bits[idx/64] & (1 << (idx % 64)) != 0 */
    method TestIndex(idx: nat) returns (isSet: bool)
      requires Represents() && idx < size
      ensures isSet <==> idx in present
    {
      EveryIndexHasAWord(size);
      AndWithPow2(bits[idx / 64], idx % 64);
      isSet := And(bits[idx / 64], Pow2(idx % 64)) != 0;
      assert isSet <==> HasBit(bits[..], idx);
    }
  }
}
