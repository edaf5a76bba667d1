/** The Bloom filter of a block, in 32-bit wrap-around arithmetic on any hash. */
module LsmFilter {
  import opened LsmBytes

  type Bitmap = seq<bv8>
  type Hasher = Bytes -> Word

  /** uint32. */
  type Word = x: int | 0 <= x < 0x1_0000_0000

  /** h >> 17 | h << 15: the low 17 bits move up by 15, the high 15 bits come down by 17. */
  function Rotated(h: Word): int { (h % 0x2_0000) * 0x8000 + h / 0x2_0000 }

  /** The bit the i-th derived hash function picks: (h1 + i * h2) mod 2^32 mod m, with h2 a rotation of h1. */
  function Target(h: Word, i: nat, m: nat): (t: nat)
    requires 0 < m
    ensures t < m
  {
    ((h + i * Rotated(h)) % 0x1_0000_0000) % m
  }

  /** 1 << j as a byte. */
  function Mask(j: nat): bv8 {
    if j == 0 then 1 else if j == 1 then 2 else if j == 2 then 4 else if j == 3 then 8
    else if j == 4 then 16 else if j == 5 then 32 else if j == 6 then 64 else 128
  }

  predicate Bit(bitmap: Bitmap, t: nat)
    requires t / 8 < |bitmap|
  {
    bitmap[t / 8] & Mask(t % 8) != 0
  }

  function SetBit(bitmap: Bitmap, t: nat): (r: Bitmap)
    requires t / 8 < |bitmap|
    ensures |r| == |bitmap|
  {
    bitmap[t / 8 := bitmap[t / 8] | Mask(t % 8)]
  }

  lemma MaskBits(b: bv8, i: nat, j: nat)
    requires i < 8 && j < 8
    ensures (b | Mask(j)) & Mask(i) != 0 <==> i == j || b & Mask(i) != 0
  {
  }

  /** Setting a bit sets that bit and no other. */
  lemma SetBitExactly(bitmap: Bitmap, t: nat, u: nat)
    requires t / 8 < |bitmap| && u / 8 < |bitmap|
    ensures Bit(SetBit(bitmap, t), u) <==> u == t || Bit(bitmap, u)
  {
    MaskBits(bitmap[t / 8], u % 8, t % 8);
  }

  /** Derived from the bits per key, cut to a byte, between 1 and 30. */
  function BestK(m: nat, n: nat): (k: nat)
    requires 0 < n
    ensures 1 <= k <= 30
  {
    var k := (69 * m / 100 / n) % 256;
    if k < 1 then 1 else if k > 30 then 30 else k
  }

  /** The number of functions is 69/100 of the bits per key, cut to its low byte, but at least 1 and at most 30. */
  lemma BestKIs(m: nat, n: nat, q: nat, high: nat, low: nat)
    requires 0 < n && 100 * n * q <= 69 * m < 100 * n * (q + 1) && q == 256 * high + low && low < 256
    ensures low == 0 ==> BestK(m, n) == 1
    ensures 1 <= low <= 30 ==> BestK(m, n) == low
    ensures 30 < low ==> BestK(m, n) == 30
  {
    var p := 69 * m / 100;
    assert n * q <= p < n * (q + 1);
    DivisionIs(p, n, q);
    DivisionIs(q, 256, high);
  }

  lemma DivisionIs(a: nat, b: nat, q: nat)
    requires 0 < b && b * q <= a < b * (q + 1)
    ensures a / b == q
  {
    var r := a / b;
    ProductGrows(b, r + 1, q);
    ProductGrows(b, q + 1, r);
  }

  lemma ProductGrows(b: nat, x: nat, y: nat)
    ensures x <= y ==> b * x <= b * y
  {
  }

  /** The second hash is the first with its high 15 bits below its low 17. The i-th function adds it i times, in 32 bits. */
  lemma TargetIs(h: Word, h2: Word, i: nat, m: nat, sum: Word, carry: nat)
    requires 0 < m && h2 % 0x8000 == h / 0x2_0000 && h2 / 0x8000 == h % 0x2_0000
    requires h + i * h2 == sum + carry * 0x1_0000_0000
    ensures Target(h, i, m) == sum % m
  {
    assert h2 == Rotated(h);
    DivisionIs(h + i * h2, 0x1_0000_0000, carry);
  }

  /** Some key picks the bit with one of its first k functions. */
  ghost predicate Picked(hashes: seq<Word>, k: nat, m: nat, t: nat)
    requires 0 < m && k < 256
  {
    exists x, i: nat :: 0 <= x < |hashes| && i < k && Target(hashes[x], i, m) == t
  }

  /** The bitmap of a list of keys: the bits they pick and, in the last byte, the number of functions. */
  ghost predicate IsFilter(bitmap: Bitmap, hashes: seq<Word>, m: nat) {
    && 0 < m && |bitmap| == (m + 7) / 8 + 1
    && var k := bitmap[|bitmap| - 1] as nat;
       1 <= k <= 30 && forall t: nat :: t < m ==> (Bit(bitmap, t) <==> Picked(hashes, k, m, t))
  }

  ghost predicate Passes(bitmap: Bitmap, h: Word, m: nat)
    requires 0 < m && |bitmap| == (m + 7) / 8 + 1
  {
    forall i: nat :: i < bitmap[|bitmap| - 1] as nat ==> Bit(bitmap, Target(h, i, m))
  }

  /** No false negatives. */
  lemma NoFalseNegative(bitmap: Bitmap, hashes: seq<Word>, m: nat, x: nat)
    requires IsFilter(bitmap, hashes, m) && x < |hashes|
    ensures Passes(bitmap, hashes[x], m)
  {
    var k := bitmap[|bitmap| - 1] as nat;
    forall i: nat | i < k ensures Bit(bitmap, Target(hashes[x], i, m)) {
      assert Picked(hashes, k, m, Target(hashes[x], i, m));
    }
  }

  class BloomFilter {
    const m: nat
    const hasher: Hasher
    var hashedKeys: seq<Word>

    /** The bitmap length is taken modulo 2^32 when bits are picked. */
    constructor (m: nat, hasher: Hasher)
      requires 0 < m < 0x1_0000_0000
      ensures this.m == m && this.hasher == hasher && hashedKeys == []
    {
      this.m, this.hasher, hashedKeys := m, hasher, [];
    }

    method Add(key: Bytes)
      modifies this
      ensures hashedKeys == old(hashedKeys) + [hasher(key)]
    {
      hashedKeys := hashedKeys + [hasher(key)];
    }

    method Reset()
      modifies this
      ensures hashedKeys == []
    {
      hashedKeys := [];
    }

    method Exist(bitmap: Bitmap, key: Bytes) returns (ok: bool)
      requires 0 < m && |bitmap| == (m + 7) / 8 + 1
      ensures ok <==> Passes(bitmap, hasher(key), m)
    {
      hide Target, Bit;
      var k := bitmap[|bitmap| - 1] as nat;
      var h := hasher(key);
      for i := 0 to k
        invariant forall j: nat :: j < i ==> Bit(bitmap, Target(h, j, m))
      {
        if !Bit(bitmap, Target(h, i, m)) { return false; }
      }
      return true;
    }

    method Hash() returns (bitmap: Bitmap)
      requires 0 < m && hashedKeys != []
      ensures bitmap == HashBits(m, hashedKeys) && IsFilter(bitmap, hashedKeys, m)
    {
      HashIsFilter(m, hashedKeys);
      hide Target, BestK, IsFilter, SetBit;
      var k := BestK(m, |hashedKeys|);
      bitmap := Empty((m + 7) / 8, k as bv8);
      for x := 0 to |hashedKeys|
        invariant bitmap == Bits(hashedKeys[..x], k, m)
      {
        bitmap := SetAll(bitmap, hashedKeys[x], k);
        assert hashedKeys[..x + 1][..x] == hashedKeys[..x];
      }
      assert hashedKeys[..|hashedKeys|] == hashedKeys;
    }

    /** Sets the bits of one more key. */
    method SetAll(start: Bitmap, h: Word, k: nat) returns (bitmap: Bitmap)
      requires 0 < m && |start| == (m + 7) / 8 + 1
      ensures bitmap == WithBits(start, h, k, m)
    {
      bitmap := start;
      for i := 0 to k
        invariant bitmap == WithBits(start, h, i, m)
      {
        bitmap := SetBit(bitmap, Target(h, i, m));
      }
    }
  }

  // ------------------------------------------------------------ the bitmap as a function

  function WithBits(start: Bitmap, h: Word, k: nat, m: nat): (r: Bitmap)
    requires 0 < m && |start| == (m + 7) / 8 + 1
    ensures |r| == |start|
  {
    if k == 0 then start else SetBit(WithBits(start, h, k - 1, m), Target(h, k - 1, m))
  }

  function Bits(hashes: seq<Word>, k: nat, m: nat): (r: Bitmap)
    requires 0 < m && k < 256
    ensures |r| == (m + 7) / 8 + 1
  {
    if hashes == [] then Empty((m + 7) / 8, k as bv8) else WithBits(Bits(hashes[..|hashes| - 1], k, m), hashes[|hashes| - 1], k, m)
  }

  function HashBits(m: nat, hashes: seq<Word>): Bitmap
    requires 0 < m && hashes != []
  {
    Bits(hashes, BestK(m, |hashes|), m)
  }

  lemma {:induction false} WithBitsIs(start: Bitmap, h: Word, k: nat, m: nat, t: nat)
    requires 0 < m && |start| == (m + 7) / 8 + 1 && t < m && k < 256
    ensures WithBits(start, h, k, m)[|start| - 1] == start[|start| - 1]
    ensures Bit(WithBits(start, h, k, m), t) <==> Bit(start, t) || First(h, k, m, t)
  {
    hide Target, Bit, SetBit;
    if k > 0 {
      WithBitsIs(start, h, k - 1, m, t);
      LastByteStays(WithBits(start, h, k - 1, m), Target(h, k - 1, m), m);
      SetBitExactly(WithBits(start, h, k - 1, m), Target(h, k - 1, m), t);
    }
  }

  lemma {:induction false} BitsAre(hashes: seq<Word>, k: nat, m: nat, t: nat)
    requires t < m && 1 <= k <= 30
    ensures Bits(hashes, k, m)[(m + 7) / 8] == k as bv8
    ensures Bit(Bits(hashes, k, m), t) <==> Picked(hashes, k, m, t)
  {
    hide Target, Bit, SetBit, WithBits, Picked;
    if hashes == [] {
      NoBits((m + 7) / 8, k, m, t);
    } else {
      var before, h := hashes[..|hashes| - 1], hashes[|hashes| - 1];
      BitsAre(before, k, m, t);
      WithBitsIs(Bits(before, k, m), h, k, m, t);
      assert before + [h] == hashes;
      PickedMore(before, h, k, m, t);
    }
  }

  /** The bitmap has exactly the bits that some key picks. */
  lemma HashIsFilter(m: nat, hashes: seq<Word>)
    requires 0 < m && hashes != []
    ensures IsFilter(HashBits(m, hashes), hashes, m)
  {
    var k := BestK(m, |hashes|);
    hide Target, Bit, Picked, Bits, BestK, IsFilter;
    BitsAre(hashes, k, m, 0);
    forall t: nat | t < m ensures Bit(Bits(hashes, k, m), t) <==> Picked(hashes, k, m, t) { BitsAre(hashes, k, m, t); }
    FilterOf(Bits(hashes, k, m), hashes, k, m);
  }

  /** Its last byte is the number of functions. */
  lemma HashCount(m: nat, hashes: seq<Word>)
    requires 0 < m && hashes != []
    ensures |HashBits(m, hashes)| == (m + 7) / 8 + 1 && HashBits(m, hashes)[(m + 7) / 8] as int == BestK(m, |hashes|)
  {
    var k := BestK(m, |hashes|);
    hide Target, Bit, Picked, Bits, BestK;
    BitsAre(hashes, k, m, 0);
    ByteBack(HashBits(m, hashes)[(m + 7) / 8], k);
  }

  lemma ByteBack(b: bv8, k: nat)
    requires k <= 30 && b == k as bv8
    ensures b as int == k
  {
    assert b as nat == k;
  }

  lemma FilterOf(bitmap: Bitmap, hashes: seq<Word>, k: nat, m: nat)
    requires 0 < m && |bitmap| == (m + 7) / 8 + 1 && 1 <= k <= 30 && bitmap[(m + 7) / 8] == k as bv8
    requires forall t: nat :: t < m ==> (Bit(bitmap, t) <==> Picked(hashes, k, m, t))
    ensures IsFilter(bitmap, hashes, m)
  {
    hide Target, Bit, Picked;
    assert bitmap[|bitmap| - 1] as nat == k;
  }

  function Empty(n: nat, last: bv8): (r: Bitmap)
    ensures |r| == n + 1 && r[n] == last && forall i :: 0 <= i < n ==> r[i] == 0
  {
    seq(n, _ => 0) + [last]
  }

  lemma NoBits(n: nat, k: nat, m: nat, t: nat)
    requires t < m && n == (m + 7) / 8 && k <= 30
    ensures !Bit(Empty(n, k as bv8), t) && !Picked([], k, m, t)
  {
  }

  ghost predicate First(h: Word, k: nat, m: nat, t: nat)
    requires 0 < m && k < 256
  {
    exists i: nat :: i < k && Target(h, i, m) == t
  }

  lemma LastByteStays(bitmap: Bitmap, t: nat, m: nat)
    requires t < m && |bitmap| == (m + 7) / 8 + 1
    ensures SetBit(bitmap, t)[|bitmap| - 1] == bitmap[|bitmap| - 1]
  {
  }

  lemma PickedMore(hashes: seq<Word>, h: Word, k: nat, m: nat, t: nat)
    requires 0 < m && k < 256
    ensures Picked(hashes + [h], k, m, t) <==> Picked(hashes, k, m, t) || First(h, k, m, t)
  {
    hide Target;
    var more := hashes + [h];
    if Picked(more, k, m, t) {
      var x, i: nat :| 0 <= x < |more| && i < k && Target(more[x], i, m) == t;
      assert x < |hashes| ==> more[x] == hashes[x];
    }
    if Picked(hashes, k, m, t) {
      var x, i: nat :| 0 <= x < |hashes| && i < k && Target(hashes[x], i, m) == t;
      assert more[x] == hashes[x];
    }
    if First(h, k, m, t) { assert more[|hashes|] == h; }
  }
}
