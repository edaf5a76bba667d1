/** The parts of a table file behind the data: filters, index and footer, and reading them back. */
module LsmFile {
  import opened LsmBytes
  import opened LsmBlocks
  import opened LsmFilter
  import opened LsmTable

  const FOOTER: nat := 32
  const TWO56: nat := 0x100_0000_0000_0000

  // ------------------------------------------------------------ records of the trailing blocks

  function ByteOf(b: bv8): Byte { b as int }

  function BitsOf(x: Byte): bv8 { x as bv8 }

  function BytesOf(bitmap: Bitmap): (r: Bytes)
    ensures |r| == |bitmap| && forall i :: 0 <= i < |r| ==> r[i] == ByteOf(bitmap[i])
  {
    if bitmap == [] then [] else BytesOf(bitmap[..|bitmap| - 1]) + [ByteOf(bitmap[|bitmap| - 1])]
  }

  function BitmapOf(bytes: Bytes): (r: Bitmap)
    ensures |r| == |bytes| && forall i :: 0 <= i < |r| ==> r[i] == BitsOf(bytes[i])
  {
    if bytes == [] then [] else BitmapOf(bytes[..|bytes| - 1]) + [BitsOf(bytes[|bytes| - 1])]
  }

  lemma BitmapRoundTrip(bitmap: Bitmap)
    ensures BitmapOf(BytesOf(bitmap)) == bitmap
  {
  }

  function IndexPair(e: Index): KV { KV(e.key, PutUvarint(e.offset) + PutUvarint(e.size)) }

  function FilterPair(f: (nat, Bitmap)): KV { KV(PutUvarint(f.0), BytesOf(f.1)) }

  function IndexPairs(index: seq<Index>): (r: seq<KV>)
    ensures |r| == |index| && forall i :: 0 <= i < |r| ==> r[i] == IndexPair(index[i])
  {
    if index == [] then [] else IndexPairs(index[..|index| - 1]) + [IndexPair(index[|index| - 1])]
  }

  function FilterPairs(filters: seq<(nat, Bitmap)>): (r: seq<KV>)
    ensures |r| == |filters| && forall i :: 0 <= i < |r| ==> r[i] == FilterPair(filters[i])
  {
    if filters == [] then [] else FilterPairs(filters[..|filters| - 1]) + [FilterPair(filters[|filters| - 1])]
  }

  /** The filters by block offset; a later one replaces an earlier one. */
  function ByOffset(filters: seq<(nat, Bitmap)>): map<nat, Bitmap> {
    if filters == [] then map[] else ByOffset(filters[..|filters| - 1])[filters[|filters| - 1].0 := filters[|filters| - 1].1]
  }

  function Footer(filterOffset: nat, filterSize: nat, indexOffset: nat, indexSize: nat): (r: Bytes) {
    var used := PutUvarint(filterOffset) + PutUvarint(filterSize) + PutUvarint(indexOffset) + PutUvarint(indexSize);
    if |used| <= FOOTER then used + Zeros(FOOTER - |used|) else used
  }

  function Zeros(n: nat): (r: Bytes)
    ensures |r| == n
  {
    if n == 0 then [] else [0] + Zeros(n - 1)
  }

  function FileOf(data: Bytes, filters: seq<(nat, Bitmap)>, index: seq<Index>): Bytes {
    var filterBuf, indexBuf := Encode([], FilterPairs(filters)), Encode([], IndexPairs(index));
    data + filterBuf + indexBuf + Footer(|data|, |filterBuf|, |data| + |filterBuf|, |indexBuf|)
  }

  /** Where the index ends. */
  function SizeOf(data: Bytes, filters: seq<(nat, Bitmap)>, index: seq<Index>): nat {
    |data| + |Encode([], FilterPairs(filters))| + |Encode([], IndexPairs(index))|
  }

  // ------------------------------------------------------------ reading

  datatype Opened = Opened(index: seq<Index>, filters: map<nat, Bitmap>, size: nat) | Unreadable

  function ReadIndexes(kvs: seq<KV>): (r: (bool, seq<Index>)) {
    if kvs == [] then (true, [])
    else
      var kv := kvs[|kvs| - 1];
      match ReadUvarint(kv.value, 0)
      case Got(offset, rest) =>
        (match ReadUvarint(rest, 0)
         case Got(size, _) =>
           var (ok, before) := ReadIndexes(kvs[..|kvs| - 1]);
           (ok, before + [Index(kv.key, offset, size)])
         case _ => (false, []))
      case _ => (false, [])
  }

  function ReadFilters(kvs: seq<KV>): (r: (bool, map<nat, Bitmap>)) {
    if kvs == [] then (true, map[])
    else
      var kv := kvs[|kvs| - 1];
      match ReadUvarint(kv.key, 0)
      case Got(offset, _) =>
        var (ok, before) := ReadFilters(kvs[..|kvs| - 1]);
        (ok, before[offset := BitmapOf(kv.value)])
      case _ => (false, map[])
  }

  function ReadFooter(buf: Bytes): (r: (bool, nat, nat, nat, nat)) {
    match ReadUvarint(buf, 0)
    case Got(a, buf1) =>
      (match ReadUvarint(buf1, 0)
       case Got(b, buf2) =>
         (match ReadUvarint(buf2, 0)
          case Got(c, buf3) =>
            (match ReadUvarint(buf3, 0)
             case Got(d, _) => (true, a, b, c, d)
             case _ => (false, 0, 0, 0, 0))
          case _ => (false, 0, 0, 0, 0))
       case _ => (false, 0, 0, 0, 0))
    case _ => (false, 0, 0, 0, 0)
  }

  /** Opening a file: footer, then index block and filter block. */
  function Open(file: Bytes): Opened {
    if |file| < FOOTER then Unreadable
    else
      var (ok, filterOffset, filterSize, indexOffset, indexSize) := ReadFooter(file[|file| - FOOTER..]);
      if !ok || filterOffset + filterSize > |file| || indexOffset + indexSize > |file| then Unreadable
      else
        match (Decode([], file[filterOffset..filterOffset + filterSize]), Decode([], file[indexOffset..indexOffset + indexSize]))
        case (Parsed(fs), Parsed(es)) =>
          var (ok1, filters) := ReadFilters(fs);
          var (ok2, index) := ReadIndexes(es);
          if ok1 && ok2 then Opened(index, filters, indexOffset + indexSize) else Unreadable
        case _ => Unreadable
  }

  // ------------------------------------------------------------ round trips

  ghost predicate IndexFits(index: seq<Index>) {
    forall i :: 0 <= i < |index| ==> Fits(IndexPair(index[i])) && index[i].offset < TWO64 && index[i].size < TWO64
  }

  ghost predicate FiltersFit(filters: seq<(nat, Bitmap)>) {
    forall i :: 0 <= i < |filters| ==> Fits(FilterPair(filters[i])) && filters[i].0 < TWO64
  }

  lemma {:induction false} IndexRead(index: seq<Index>)
    requires IndexFits(index)
    ensures ReadIndexes(IndexPairs(index)) == (true, index)
  {
    hide PutUvarint, ReadUvarint, Fits;
    if index != [] {
      var n := |index| - 1;
      var e, pairs := index[n], IndexPairs(index);
      IndexRead(index[..n]);
      assert pairs[..n] == IndexPairs(index[..n]) && pairs[n] == IndexPair(e);
      UvarintRoundTrip(e.offset, PutUvarint(e.size));
      UvarintRoundTrip(e.size, []);
      assert PutUvarint(e.size) + [] == PutUvarint(e.size);
      assert index == index[..n] + [e];
    }
  }

  lemma {:induction false} FiltersRead(filters: seq<(nat, Bitmap)>)
    requires FiltersFit(filters)
    ensures ReadFilters(FilterPairs(filters)) == (true, ByOffset(filters))
  {
    hide PutUvarint, ReadUvarint, Fits;
    if filters != [] {
      var n := |filters| - 1;
      var f, pairs := filters[n], FilterPairs(filters);
      FiltersRead(filters[..n]);
      assert pairs[..n] == FilterPairs(filters[..n]) && pairs[n] == FilterPair(f);
      UvarintRoundTrip(f.0, []);
      assert PutUvarint(f.0) + [] == PutUvarint(f.0);
      BitmapRoundTrip(f.1);
    }
  }

  /** Numbers below 2^56 take at most eight bytes. */
  lemma UvarintShort(x: nat)
    requires x < TWO56
    ensures |PutUvarint(x)| <= 8
  {
    UvarintLen(x, 8);
  }

  function Power128(k: nat): nat { if k == 0 then 1 else 128 * Power128(k - 1) }

  lemma {:induction false} UvarintLen(x: nat, k: nat)
    requires 0 < k && x < Power128(k)
    ensures |PutUvarint(x)| <= k
  {
    assert Power128(1) == 128;
    if x >= 128 {
      UvarintLen(x / 128, k - 1);
    }
  }

  lemma Regroup(a: Bytes, b: Bytes, c: Bytes, d: Bytes, z: Bytes)
    ensures (a + b + c + d) + z == a + (b + (c + (d + z)))
  {
  }

  lemma FourReads(buf: Bytes, a: nat, b: nat, c: nat, d: nat, r1: Bytes, r2: Bytes, r3: Bytes, r4: Bytes)
    requires ReadUvarint(buf, 0) == Got(a, r1) && ReadUvarint(r1, 0) == Got(b, r2)
    requires ReadUvarint(r2, 0) == Got(c, r3) && ReadUvarint(r3, 0) == Got(d, r4)
    ensures ReadFooter(buf) == (true, a, b, c, d)
  {
    hide ReadUvarint;
  }

  lemma FooterShape(a: nat, b: nat, c: nat, d: nat) returns (z: Bytes)
    requires a < TWO56 && b < TWO56 && c < TWO56 && d < TWO56
    ensures |Footer(a, b, c, d)| == FOOTER
    ensures Footer(a, b, c, d) == PutUvarint(a) + (PutUvarint(b) + (PutUvarint(c) + (PutUvarint(d) + z)))
  {
    hide PutUvarint, Zeros;
    UvarintShort(a);
    UvarintShort(b);
    UvarintShort(c);
    UvarintShort(d);
    var pa, pb, pc, pd := PutUvarint(a), PutUvarint(b), PutUvarint(c), PutUvarint(d);
    var used := pa + pb + pc + pd;
    z := Zeros(FOOTER - |used|);
    assert Footer(a, b, c, d) == used + z;
    Regroup(pa, pb, pc, pd, z);
  }

  lemma FooterRead(a: nat, b: nat, c: nat, d: nat)
    requires a < TWO56 && b < TWO56 && c < TWO56 && d < TWO56
    ensures |Footer(a, b, c, d)| == FOOTER && ReadFooter(Footer(a, b, c, d)) == (true, a, b, c, d)
  {
    hide PutUvarint, ReadUvarint, Footer, ReadFooter;
    var z := FooterShape(a, b, c, d);
    var r3 := PutUvarint(d) + z;
    var r2 := PutUvarint(c) + r3;
    var r1 := PutUvarint(b) + r2;
    UvarintRoundTrip(a, r1);
    UvarintRoundTrip(b, r2);
    UvarintRoundTrip(c, r3);
    UvarintRoundTrip(d, z);
    FourReads(Footer(a, b, c, d), a, b, c, d, r1, r2, r3, z);
  }

  /** Where the parts of a file lie. */
  lemma FileParts(a: Bytes, b: Bytes, c: Bytes, d: Bytes)
    ensures var f := a + b + c + d;
            && f[|a|..|a| + |b|] == b && f[|a| + |b|..|a| + |b| + |c|] == c && f[|f| - |d|..] == d
  {
  }

  /** Reopening a file yields the index, the filters and the size that were written, provided the parts
      end below 2^56, which is what fits the footer. */
  lemma ReopenRoundTrip(data: Bytes, filters: seq<(nat, Bitmap)>, index: seq<Index>)
    requires IndexFits(index) && FiltersFit(filters)
    requires SizeOf(data, filters, index) < TWO56
    ensures Open(FileOf(data, filters, index)) == Opened(index, ByOffset(filters), SizeOf(data, filters, index))
  {
    hide Encode, Decode, Footer, ReadFooter, ReadIndexes, ReadFilters, FilterPair, IndexPair;
    var fs, es := FilterPairs(filters), IndexPairs(index);
    var filterBuf, indexBuf := Encode([], fs), Encode([], es);
    var footer := Footer(|data|, |filterBuf|, |data| + |filterBuf|, |indexBuf|);
    FooterRead(|data|, |filterBuf|, |data| + |filterBuf|, |indexBuf|);
    FileParts(data, filterBuf, indexBuf, footer);
    assert AllFit(fs) && AllFit(es);
    BlockRoundTrip(fs);
    BlockRoundTrip(es);
    FiltersRead(filters);
    IndexRead(index);
  }
}
