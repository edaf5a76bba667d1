/** Byte strings: the order of bytes.Compare, shared prefixes, separators, and uvarints. */
module LsmBytes {
  type Byte = x: int | 0 <= x < 256
  type Bytes = seq<Byte>

  // ------------------------------------------------------------ order

  predicate Less(a: Bytes, b: Bytes) {
    b != [] && (a == [] || a[0] < b[0] || (a[0] == b[0] && Less(a[1..], b[1..])))
  }

  predicate AtMost(a: Bytes, b: Bytes) { a == b || Less(a, b) }

  lemma {:induction false} LessTotal(a: Bytes, b: Bytes)
    ensures (a == b && !Less(a, b) && !Less(b, a)) || (a != b && (Less(a, b) <==> !Less(b, a)))
  {
    if a != [] && b != [] {
      LessTotal(a[1..], b[1..]);
      assert a == [a[0]] + a[1..] && b == [b[0]] + b[1..];
    }
  }

  lemma {:induction false} LessTransitive(a: Bytes, b: Bytes, c: Bytes)
    requires Less(a, b) && Less(b, c)
    ensures Less(a, c)
  {
    if a != [] && a[0] == b[0] == c[0] { LessTransitive(a[1..], b[1..], c[1..]); }
  }

  // ------------------------------------------------------------ prefixes and separators

  method SharedPrefixLen(a: Bytes, b: Bytes) returns (i: nat)
    ensures i == Shared(a, b)
  {
    i := 0;
    while i < |a| && i < |b| && a[i] == b[i]
      invariant i <= |a| && i <= |b| && Shared(a, b) == i + Shared(a[i..], b[i..])
    {
      assert a[i..][1..] == a[i + 1..] && b[i..][1..] == b[i + 1..];
      i := i + 1;
    }
  }

  /** The length of the longest common prefix. */
  function Shared(a: Bytes, b: Bytes): (n: nat)
    ensures n <= |a| && n <= |b| && a[..n] == b[..n]
    ensures n < |a| && n < |b| ==> a[n] != b[n]
  {
    if a != [] && b != [] && a[0] == b[0] then
      assert a == [a[0]] + a[1..] && b == [b[0]] + b[1..];
      1 + Shared(a[1..], b[1..])
    else 0
  }

  /** One less, as a byte. */
  function Lowered(y: Byte): Byte { if y == 0 then 255 else y - 1 }

  /** The separator between the last key of a block and the first of the next. In front of the first key
      of all it is that key with its last byte lowered by one, modulo 256. */
  function Separator(a: Bytes, b: Bytes): Bytes {
    if b == [] then b
    else if a == [] then b[..|b| - 1] + [Lowered(b[|b| - 1])]
    else a
  }

  lemma {:induction false} LastByteDecides(p: Bytes, x: Byte, y: Byte)
    ensures Less(p + [x], p + [y]) <==> x < y
  {
    if p != [] {
      assert (p + [x])[1..] == p[1..] + [x] && (p + [y])[1..] == p[1..] + [y];
      LastByteDecides(p[1..], x, y);
    }
  }

  /** In front of the first key the separator is below the key exactly when the key does not end in 0. */
  lemma FirstSeparator(b: Bytes)
    requires b != []
    ensures Less(Separator([], b), b) <==> b[|b| - 1] != 0
    ensures b[|b| - 1] == 0 ==> Less(b, Separator([], b))
  {
    var p, y := b[..|b| - 1], b[|b| - 1];
    var x := Lowered(y);
    assert b == p + [y];
    LastByteDecides(p, x, y);
    LastByteDecides(p, y, x);
  }

  // ------------------------------------------------------------ uvarints

  datatype Read<T> = Got(value: T, rest: Bytes) | Eof | Bad

  function PutUvarint(x: nat): (r: Bytes)
    ensures r != []
  {
    if x < 128 then [x] else [x % 128 + 128] + PutUvarint(x / 128)
  }

  /** Reads at most ten bytes and at most 64 bits; i bytes are read already. The end of the input counts
      as such only before the first byte. */
  function ReadUvarint(buf: Bytes, i: nat): (r: Read<nat>)
    ensures r.Got? ==> |r.rest| < |buf|
    decreases 10 - i
  {
    if i >= 10 then Bad
    else if buf == [] then (if i == 0 then Eof else Bad)
    else if buf[0] < 128 then (if i == 9 && buf[0] > 1 then Bad else Got(buf[0], buf[1..]))
    else
      match ReadUvarint(buf[1..], i + 1)
      case Got(v, rest) => Got(buf[0] - 128 + 128 * v, rest)
      case Eof => Bad
      case Bad => Bad
  }

  const TWO64: nat := 0x1_0000_0000_0000_0000

  /** What is left of 64 bits after i bytes. */
  function Room(i: nat): nat {
    if i == 0 then TWO64
    else if i == 1 then 0x200_0000_0000_0000
    else if i == 2 then 0x4_0000_0000_0000
    else if i == 3 then 0x800_0000_0000
    else if i == 4 then 0x10_0000_0000
    else if i == 5 then 0x2000_0000
    else if i == 6 then 0x40_0000
    else if i == 7 then 0x8000
    else if i == 8 then 0x100
    else if i == 9 then 2
    else 1
  }

  lemma {:induction false} UvarintFrom(x: nat, i: nat, rest: Bytes)
    requires i < 10 && x < Room(i)
    ensures ReadUvarint(PutUvarint(x) + rest, i) == Got(x, rest)
    decreases x
  {
    var buf := PutUvarint(x) + rest;
    if x < 128 {
      assert buf[1..] == rest;
    } else {
      assert x / 128 < Room(i + 1) && i < 9;
      assert buf[0] == x % 128 + 128;
      assert buf[1..] == PutUvarint(x / 128) + rest;
      UvarintFrom(x / 128, i + 1, rest);
    }
  }

  /** What was written is read back, and nothing behind it is touched. */
  lemma UvarintRoundTrip(x: nat, rest: Bytes)
    requires x < TWO64
    ensures ReadUvarint(PutUvarint(x) + rest, 0) == Got(x, rest)
  {
    UvarintFrom(x, 0, rest);
  }

  /** A number cut short is an error, unless nothing of it is there. */
  lemma {:induction false} CutUvarint(x: nat, i: nat, c: nat)
    requires i < 10 && x < Room(i) && c < |PutUvarint(x)|
    ensures ReadUvarint(PutUvarint(x)[..c], i) == if c == 0 && i == 0 then Eof else Bad
    decreases x
  {
    if c > 0 {
      var buf := PutUvarint(x)[..c];
      assert x >= 128 && buf[0] == x % 128 + 128;
      assert x / 128 < Room(i + 1) && i < 9;
      assert buf[1..] == PutUvarint(x / 128)[..c - 1];
      CutUvarint(x / 128, i + 1, c - 1);
    }
  }

  /** The number a little-endian list of 7-bit groups stands for. */
  function GroupsValue(bytes: Bytes): nat {
    if bytes == [] then 0 else bytes[0] % 128 + 128 * GroupsValue(bytes[1..])
  }

  /** A number is written in groups of seven bits, lowest first; all bytes but the last have the top bit set. */
  lemma {:induction false} UvarintGroups(x: nat)
    ensures GroupsValue(PutUvarint(x)) == x && forall i :: 0 <= i < |PutUvarint(x)| ==> (PutUvarint(x)[i] >= 128 <==> i < |PutUvarint(x)| - 1)
  {
    if x >= 128 {
      var tail := PutUvarint(x / 128);
      assert PutUvarint(x)[1..] == tail;
      UvarintGroups(x / 128);
      assert forall i :: 0 < i < |PutUvarint(x)| ==> PutUvarint(x)[i] == tail[i - 1];
    } else {
      assert GroupsValue([x][1..]) == 0;
    }
  }
}
