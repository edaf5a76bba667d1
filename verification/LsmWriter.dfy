/** Writing a table: the blocks, their index and filters, and the file. */
module LsmWriter {
  import opened LsmBytes
  import opened LsmBlocks
  import opened LsmFilter
  import opened LsmTable
  import opened LsmFile

  // ------------------------------------------------------------ one block more

  lemma MoreBlocks(blocks: seq<seq<KV>>, b: seq<KV>)
    ensures EncodeBlocks(blocks + [b]) == EncodeBlocks(blocks) + Encode([], b)
    ensures Flatten(blocks + [b]) == Flatten(blocks) + b
    ensures forall j :: 0 <= j <= |blocks| ==> Offset(blocks + [b], j) == Offset(blocks, j)
  {
    var more := blocks + [b];
    assert more[..|blocks|] == blocks;
    forall j | 0 <= j <= |blocks| ensures Offset(more, j) == Offset(blocks, j) { assert more[..j] == blocks[..j]; }
  }

  lemma EncodeNotEmpty(kvs: seq<KV>)
    requires kvs != []
    ensures Encode([], kvs) != []
  {
  }

  /** Blocks start at ascending offsets. */
  lemma {:induction false} OffsetsAscend(blocks: seq<seq<KV>>, i: nat, j: nat)
    requires BlocksFit(blocks) && i < j <= |blocks|
    ensures Offset(blocks, i) < Offset(blocks, j)
    decreases j
  {
    hide Encode, AllFit;
    assert blocks[..j][..j - 1] == blocks[..j - 1] && blocks[..j][j - 1] == blocks[j - 1];
    EncodeNotEmpty(blocks[j - 1]);
    if i < j - 1 { OffsetsAscend(blocks, i, j - 1); }
  }

  ghost predicate Filtered(blocks: seq<seq<KV>>, filters: map<nat, Bitmap>, hasher: Hasher, m: nat) {
    && (forall j :: 0 <= j < |blocks| ==> BlockFiltered(blocks, filters, hasher, m, j))
    && (blocks == [] ==> filters == map[])
  }

  lemma FilteredMore(blocks: seq<seq<KV>>, b: seq<KV>, filters: map<nat, Bitmap>, hasher: Hasher, m: nat, bitmap: Bitmap)
    requires BlocksFit(blocks) && b != [] && AllFit(b) && Filtered(blocks, filters, hasher, m)
    requires IsFilter(bitmap, Hashes(hasher, b), m)
    ensures Filtered(blocks + [b], filters[|EncodeBlocks(blocks)| := bitmap], hasher, m)
  {
    hide Encode, IsFilter, AllFit;
    MoreBlocks(blocks, b);
    var n, more, filters1 := |blocks|, blocks + [b], filters[|EncodeBlocks(blocks)| := bitmap];
    assert blocks[..n] == blocks;
    forall j | 0 <= j <= n ensures BlockFiltered(more, filters1, hasher, m, j) {
      if j < n {
        assert BlockFiltered(blocks, filters, hasher, m, j);
        OffsetsAscend(blocks, j, n);
        assert more[j] == blocks[j];
      }
    }
  }

  /** The index as far as it is written: the entry in front, and one for each of the first blocks, where
      `last` is the key that follows the last of them. */
  ghost predicate Indexed(index: seq<Index>, first: Bytes, blocks: seq<seq<KV>>, last: Bytes) {
    && 0 < |index| <= |blocks| + 1 && index[0] == Index(Separator([], first), 0, 0)
    && (forall j :: 0 <= j < |index| - 1 ==> index[j + 1] == BlockIndex(blocks, j, last))
  }

  lemma IndexedMore(index: seq<Index>, first: Bytes, blocks: seq<seq<KV>>, b: seq<KV>, last: Bytes)
    requires b != [] && BlocksFit(blocks) && Indexed(index, first, blocks, b[0].key)
    ensures Indexed(index, first, blocks + [b], last)
  {
    hide Encode, EncodeBlocks, Separator, AllFit;
    MoreBlocks(blocks, b);
    var more := blocks + [b];
    forall j | 0 <= j < |index| - 1 ensures index[j + 1] == BlockIndex(more, j, last) {
      assert index[j + 1] == BlockIndex(blocks, j, b[0].key);
      assert more[j] == blocks[j] && more[j + 1] == if j + 1 < |blocks| then blocks[j + 1] else b;
    }
  }

  /** Before the entry of the last block is written, what follows that block does not matter. */
  lemma IndexedAny(index: seq<Index>, first: Bytes, blocks: seq<seq<KV>>, last: Bytes, other: Bytes)
    requires Indexed(index, first, blocks, last) && |index| <= |blocks| && BlocksFit(blocks)
    ensures Indexed(index, first, blocks, other)
  {
    hide Encode, EncodeBlocks, Separator, AllFit;
    forall j | 0 <= j < |index| - 1 ensures index[j + 1] == BlockIndex(blocks, j, other) {
      assert index[j + 1] == BlockIndex(blocks, j, last);
    }
  }

  /** The entry of the last block, in front of the key that follows. */
  lemma NextEntry(index: seq<Index>, first: Bytes, blocks: seq<seq<KV>>, key: Bytes)
    requires blocks != [] && |index| == |blocks| && Indexed(index, first, blocks, []) && BlocksFit(blocks)
    ensures var n := |blocks| - 1;
            Indexed(index + [Index(Separator(LastKey([], blocks[n]), key), Offset(blocks, n), |Encode([], blocks[n])|)], first, blocks, key)
  {
    hide Encode, EncodeBlocks, Separator, AllFit, Offset, LastKey;
    IndexedAny(index, first, blocks, [], key);
  }

  lemma FirstEntry(key: Bytes)
    ensures Indexed([Index(Separator([], key), 0, 0)], key, [], key)
  {
    hide Separator;
  }

  lemma OnePair(hasher: Hasher, blocks: seq<seq<KV>>, pairs: seq<KV>, all: seq<KV>, kv: KV)
    requires AllFit(pairs) && Fits(kv) && all == Flatten(blocks) + pairs
    ensures AllFit(pairs + [kv]) && Hashes(hasher, pairs + [kv]) == Hashes(hasher, pairs) + [hasher(kv.key)]
    ensures all + [kv] == Flatten(blocks) + (pairs + [kv]) && LastKey([], all + [kv]) == kv.key
    ensures (pairs + [kv])[0] == (if pairs == [] then kv else pairs[0]) && (all + [kv])[0] == if all == [] then kv else all[0]
  {
    assert (pairs + [kv])[..|pairs|] == pairs;
  }

  /** The filters written lie within the data and have the configured length. */
  ghost predicate Sealed(sealed: seq<(nat, Bitmap)>, end: nat, m: nat) {
    forall i :: 0 <= i < |sealed| ==> sealed[i].0 <= end && |sealed[i].1| == (m + 7) / 8 + 1
  }

  lemma SealedMore(sealed: seq<(nat, Bitmap)>, end: nat, m: nat, hashes: seq<Word>, bitmap: Bitmap)
    requires Sealed(sealed, end, m) && IsFilter(bitmap, hashes, m)
    ensures forall more: nat :: end <= more ==> Sealed(sealed + [(end, bitmap)], more, m)
  {
    FilterSize(bitmap, hashes, m);
  }

  lemma SeparatorFits(a: Bytes, b: Bytes, n: nat)
    requires |a| < n && |b| < n
    ensures |Separator(a, b)| < n
  {
  }

  /** Every entry of a table can be written and read. */
  lemma EntryFits(node: Node, blocks: seq<seq<KV>>, hasher: Hasher, m: nat, i: nat)
    requires Table(node, blocks, hasher, m) && |EncodeBlocks(blocks)| < TWO56 && i < |node.index|
    ensures Fits(IndexPair(node.index[i])) && node.index[i].offset < TWO56 && node.index[i].size < TWO56
  {
    hide Encode, EncodeBlocks, IsFilter, Separator;
    var e := node.index[i];
    if i == 0 {
      if blocks != [] { assert Fits(blocks[0][0]); SeparatorFits([], FirstKey(blocks), 0x8000_0000_0000_0000); }
    } else {
      var j := i - 1;
      assert EntryOk(node.index, blocks, j);
      EncodeSplit(blocks, j);
      var last := LastKey([], blocks[|blocks| - 1]);
      assert Fits(blocks[j][|blocks[j]| - 1]) && Fits(blocks[|blocks| - 1][|blocks[|blocks| - 1]| - 1]);
      assert j + 1 < |blocks| ==> Fits(blocks[j + 1][0]);
      SeparatorFits(LastKey([], blocks[j]), NextKey(blocks, j, last), 0x8000_0000_0000_0000);
    }
    UvarintShort(e.offset);
    UvarintShort(e.size);
  }

  /** Whatever Finish hands out reopens to the same index, filters and size, if it ends below 2^56. */
  lemma FinishReopens(node: Node, blocks: seq<seq<KV>>, hasher: Hasher, m: nat, sealed: seq<(nat, Bitmap)>)
    requires Table(node, blocks, hasher, m) && m < 0x1_0000_0000
    requires node.file == FileOf(EncodeBlocks(blocks), sealed, node.index) && node.filters == ByOffset(sealed)
    requires Sealed(sealed, |EncodeBlocks(blocks)|, m) && SizeOf(EncodeBlocks(blocks), sealed, node.index) < TWO56
    ensures Open(node.file) == Opened(node.index, node.filters, SizeOf(EncodeBlocks(blocks), sealed, node.index))
  {
    hide Encode, EncodeBlocks, Table, FileOf, Open, Fits;
    forall i | 0 <= i < |node.index|
      ensures Fits(IndexPair(node.index[i])) && node.index[i].offset < TWO64 && node.index[i].size < TWO64
    {
      EntryFits(node, blocks, hasher, m, i);
    }
    forall i | 0 <= i < |sealed| ensures Fits(FilterPair(sealed[i])) && sealed[i].0 < TWO64 {
      FilterFits(sealed[i], m);
    }
    ReopenRoundTrip(EncodeBlocks(blocks), sealed, node.index);
  }

  lemma FilterFits(f: (nat, Bitmap), m: nat)
    requires f.0 < TWO56 && |f.1| == (m + 7) / 8 + 1 && m < 0x1_0000_0000
    ensures Fits(FilterPair(f))
  {
    UvarintShort(f.0);
  }

  lemma NoHashes(hasher: Hasher)
    ensures Hashes(hasher, []) == [] && AllFit([])
  {
  }

  /** What flushing a block does to everything written. */
  lemma Flushed(blocks: seq<seq<KV>>, b: seq<KV>, filters: map<nat, Bitmap>, hasher: Hasher, m: nat, bitmap: Bitmap,
                index: seq<Index>, first: Bytes, last: Bytes)
    requires BlocksFit(blocks) && AllFit(b) && Filtered(blocks, filters, hasher, m) && IsFilter(bitmap, Hashes(hasher, b), m)
    requires b != [] && Indexed(index, first, blocks, b[0].key)
    ensures var more := blocks + [b];
            && BlocksFit(more) && EncodeBlocks(more) == EncodeBlocks(blocks) + Encode([], b)
            && Flatten(more) + [] == Flatten(blocks) + b && more[|blocks|] == b
            && Offset(more, |blocks|) == |EncodeBlocks(blocks)| && Indexed(index, first, more, last)
            && Filtered(more, filters[|EncodeBlocks(blocks)| := bitmap], hasher, m)
  {
    hide Encode, IsFilter, Filtered, Indexed, AllFit;
    FilteredMore(blocks, b, filters, hasher, m, bitmap);
    IndexedMore(index, first, blocks, b, last);
    MoreBlocks(blocks, b);
    assert blocks[..|blocks|] == blocks;
  }

  lemma DataFirst(a: Bytes, b: Bytes, c: Bytes, d: Bytes)
    ensures a <= a + b + c + d
  {
  }

  lemma Complete(node: Node, blocks: seq<seq<KV>>, hasher: Hasher, m: nat)
    requires BlocksFit(blocks) && 0 < m && EncodeBlocks(blocks) <= node.file && Filtered(blocks, node.filters, hasher, m)
    requires |node.index| == |blocks| + 1 && Indexed(node.index, if blocks == [] then [] else FirstKey(blocks), blocks, LastKey([], Flatten(blocks)))
    ensures Table(node, blocks, hasher, m)
  {
    assert Separator([], []) == [];
    hide Encode, EncodeBlocks, AllFit, IsFilter, Separator;
    if blocks != [] { FlattenLast(blocks); }
    forall j | 0 <= j < |blocks| ensures EntryOk(node.index, blocks, j) {
      assert node.index[j + 1] == BlockIndex(blocks, j, LastKey([], Flatten(blocks)));
    }
  }

  // ------------------------------------------------------------ what the writer keeps

  /** The data written are the flushed blocks; with the block begun they are all pairs. */
  ghost predicate DataOk(data: Bytes, blocks: seq<seq<KV>>, pairs: seq<KV>, all: seq<KV>, prevKey: Bytes) {
    && BlocksFit(blocks) && AllFit(pairs) && data == EncodeBlocks(blocks)
    && all == Flatten(blocks) + pairs && prevKey == LastKey([], all)
  }

  ghost predicate FiltersOk(hasher: Hasher, m: nat, hashed: seq<Word>, blocks: seq<seq<KV>>, pairs: seq<KV>,
                            filters: map<nat, Bitmap>, sealed: seq<(nat, Bitmap)>, end: nat) {
    hashed == Hashes(hasher, pairs) && Filtered(blocks, filters, hasher, m) && Sealed(sealed, end, m)
  }

  /** The offset and size of the last flushed block. */
  ghost predicate PrevOk(blocks: seq<seq<KV>>, offset: nat, size: nat) {
    if blocks == [] then offset == 0 && size == 0
    else offset == Offset(blocks, |blocks| - 1) && size == |Encode([], blocks[|blocks| - 1])|
  }

  /** An entry for the last flushed block is still to come unless the next block has begun. */
  ghost predicate EntriesOk(index: seq<Index>, blocks: seq<seq<KV>>, pairs: seq<KV>, all: seq<KV>, offset: nat, size: nat) {
    && (all == [] ==> index == [])
    && (all != [] ==> Indexed(index, all[0].key, blocks, if pairs == [] then [] else pairs[0].key)
                      && |index| == |blocks| + if pairs == [] then 0 else 1)
    && PrevOk(blocks, offset, size)
  }

  /** The index has all its entries up to the block now begun, which starts with the key unless it has pairs. */
  ghost predicate BegunOk(index: seq<Index>, blocks: seq<seq<KV>>, pairs: seq<KV>, all: seq<KV>, offset: nat, size: nat, key: Bytes) {
    && Indexed(index, if all == [] then key else all[0].key, blocks, if pairs == [] then key else pairs[0].key)
    && |index| == |blocks| + 1 && PrevOk(blocks, offset, size)
  }

  lemma PairAdded(data: Bytes, blocks: seq<seq<KV>>, pairs: seq<KV>, all: seq<KV>, prevKey: Bytes, hasher: Hasher, m: nat, hashed: seq<Word>,
                  filters: map<nat, Bitmap>, sealed: seq<(nat, Bitmap)>, index: seq<Index>, offset: nat, size: nat, kv: KV)
    requires DataOk(data, blocks, pairs, all, prevKey) && FiltersOk(hasher, m, hashed, blocks, pairs, filters, sealed, |data|)
    requires BegunOk(index, blocks, pairs, all, offset, size, kv.key) && Fits(kv)
    ensures DataOk(data, blocks, pairs + [kv], all + [kv], kv.key)
    ensures FiltersOk(hasher, m, hashed + [hasher(kv.key)], blocks, pairs + [kv], filters, sealed, |data|)
    ensures EntriesOk(index, blocks, pairs + [kv], all + [kv], offset, size)
  {
    hide Encode, EncodeBlocks, Filtered, Indexed, BlocksFit, Sealed, Offset;
    OnePair(hasher, blocks, pairs, all, kv);
    hide Hashes, LastKey, AllFit, Flatten;
  }

  lemma KeysHashed(hasher: Hasher, m: nat, hashed: seq<Word>, blocks: seq<seq<KV>>, pairs: seq<KV>,
                   filters: map<nat, Bitmap>, sealed: seq<(nat, Bitmap)>, end: nat)
    requires FiltersOk(hasher, m, hashed, blocks, pairs, filters, sealed, end)
    ensures hashed == Hashes(hasher, pairs) && |hashed| == |pairs|
  {
  }

  lemma BlockFlushed(data: Bytes, blocks: seq<seq<KV>>, pairs: seq<KV>, all: seq<KV>, prevKey: Bytes, hasher: Hasher, m: nat,
                     filters: map<nat, Bitmap>, sealed: seq<(nat, Bitmap)>, index: seq<Index>, offset: nat, size: nat, bitmap: Bitmap)
    requires pairs != [] && DataOk(data, blocks, pairs, all, prevKey) && IsFilter(bitmap, Hashes(hasher, pairs), m)
    requires FiltersOk(hasher, m, Hashes(hasher, pairs), blocks, pairs, filters, sealed, |data|)
    requires EntriesOk(index, blocks, pairs, all, offset, size)
    ensures var bytes := Encode([], pairs);
            && DataOk(data + bytes, blocks + [pairs], [], all, prevKey)
            && FiltersOk(hasher, m, [], blocks + [pairs], [], filters[|data| := bitmap], sealed + [(|data|, bitmap)], |data + bytes|)
            && EntriesOk(index, blocks + [pairs], [], all, |data|, |bytes|)
  {
    hide Encode, EncodeBlocks, IsFilter, Indexed, Filtered, Flatten, BlocksFit, AllFit, Offset, LastKey, Sealed;
    NoHashes(hasher);
    SealedMore(sealed, |data|, m, Hashes(hasher, pairs), bitmap);
    hide Hashes;
    Flushed(blocks, pairs, filters, hasher, m, bitmap, index, all[0].key, []);
  }

  class SSTWriter {
    const filter: BloomFilter
    const blockSize: nat
    const dataBlock: Block
    const filterBlock: Block
    const indexBlock: Block
    var dataBuf: Bytes
    var blockToFilter: map<nat, Bitmap>
    var index: seq<Index>
    var prevKey: Bytes
    var prevBlockOffset: nat
    var prevBlockSize: nat
    /** The blocks flushed so far, and all pairs appended. */
    ghost var blocks: seq<seq<KV>>
    ghost var all: seq<KV>
    /** The filters in the order they were written. */
    ghost var sealed: seq<(nat, Bitmap)>

    ghost predicate Data() reads this, dataBlock {
      dataBlock.Valid() && DataOk(dataBuf, blocks, dataBlock.pairs, all, prevKey)
    }

    ghost predicate Filters() reads this, dataBlock, filter {
      && 0 < filter.m < 0x1_0000_0000
      && FiltersOk(filter.hasher, filter.m, filter.hashedKeys, blocks, dataBlock.pairs, blockToFilter, sealed, |dataBuf|)
    }

    ghost predicate Entries() reads this, dataBlock {
      EntriesOk(index, blocks, dataBlock.pairs, all, prevBlockOffset, prevBlockSize)
    }

    /** The trailing blocks hold the index and the filters as they stand. */
    ghost predicate Trailer() reads this, filterBlock, indexBlock {
      && filterBlock.Valid() && indexBlock.Valid()
      && filterBlock.pairs == FilterPairs(sealed) && indexBlock.pairs == IndexPairs(index) && blockToFilter == ByOffset(sealed)
    }

    ghost predicate Valid() reads this, dataBlock, filterBlock, indexBlock, filter {
      && dataBlock != filterBlock && dataBlock != indexBlock && filterBlock != indexBlock
      && Data() && Filters() && Entries() && Trailer()
    }

    constructor (filter: BloomFilter, blockSize: nat)
      requires 0 < filter.m < 0x1_0000_0000 && filter.hashedKeys == []
      ensures Valid() && all == [] && this.filter == filter && fresh({dataBlock, filterBlock, indexBlock})
    {
      this.filter, this.blockSize := filter, blockSize;
      dataBlock := new Block();
      filterBlock := new Block();
      indexBlock := new Block();
      dataBuf, blockToFilter, index, prevKey := [], map[], [], [];
      prevBlockOffset, prevBlockSize, blocks, all, sealed := 0, 0, [], [], [];
    }

    method InsertIndex(key: Bytes)
      requires Trailer() && filterBlock != indexBlock
      modifies this`index, indexBlock
      ensures index == old(index) + [Index(Separator(prevKey, key), prevBlockOffset, prevBlockSize)] && Trailer()
    {
      hide Separator, PutUvarint, Encode, ByOffset;
      var e := Index(Separator(prevKey, key), prevBlockOffset, prevBlockSize);
      indexBlock.Append(e.key, PutUvarint(e.offset) + PutUvarint(e.size));
      index := index + [e];
      assert index[..|index| - 1] == old(index);
    }

    /** Adds a pair; a block that has grown to its size is flushed. */
    method Append(key: Bytes, value: Bytes)
      requires Valid() && Fits(KV(key, value))
      modifies this, dataBlock, filterBlock, indexBlock, filter
      ensures Valid() && all == old(all) + [KV(key, value)]
      ensures var b := old(dataBlock.pairs) + [KV(key, value)];
              if |Encode([], b)| >= blockSize then blocks == old(blocks) + [b] && dataBlock.pairs == []
              else blocks == old(blocks) && dataBlock.pairs == b
    {
      hide Encode, EncodeBlocks, AllFit, Filtered, Indexed, Flatten, PrevOk;
      if dataBlock.entriesCnt == 0 { StartBlock(key); }
      AddPair(key, value);
      if |dataBlock.record| >= blockSize { RefreshBlock(); }
    }

    /** The entry for the block before, in front of the first key of a new one. */
    method StartBlock(key: Bytes)
      requires Valid() && dataBlock.pairs == []
      modifies this`index, indexBlock
      ensures Data() && Filters() && Begun(key) && Trailer()
    {
      LastOfAll();
      hide Encode, EncodeBlocks, AllFit, Filtered, Indexed, BlocksFit, Separator, Flatten, LastKey, Offset;
      if blocks == [] {
        FirstEntry(key);
      } else {
        NextEntry(index, all[0].key, blocks, key);
      }
      hide Trailer;
      InsertIndex(key);
    }

    ghost predicate Begun(key: Bytes) reads this, dataBlock {
      BegunOk(index, blocks, dataBlock.pairs, all, prevBlockOffset, prevBlockSize, key)
    }

    method AddPair(key: Bytes, value: Bytes)
      requires dataBlock != filterBlock && dataBlock != indexBlock && filterBlock != indexBlock
      requires Data() && Filters() && Begun(key) && Trailer() && Fits(KV(key, value))
      modifies this`prevKey, this`all, dataBlock, filter
      ensures Valid() && all == old(all) + [KV(key, value)] && dataBlock.pairs == old(dataBlock.pairs) + [KV(key, value)]
    {
      hide DataOk, FiltersOk, EntriesOk, BegunOk, Trailer, Fits;
      var kv := KV(key, value);
      PairAdded(dataBuf, blocks, dataBlock.pairs, all, prevKey, filter.hasher, filter.m, filter.hashedKeys, blockToFilter, sealed, index,
                prevBlockOffset, prevBlockSize, kv);
      Fill(key, value);
      Note(kv);
    }

    /** The pair goes into the block and its key into the filter. */
    method Fill(key: Bytes, value: Bytes)
      requires dataBlock.Valid() && Trailer() && dataBlock != filterBlock && dataBlock != indexBlock
      modifies dataBlock, filter
      ensures Trailer() && dataBlock.Valid() && dataBlock.pairs == old(dataBlock.pairs) + [KV(key, value)]
      ensures filter.hashedKeys == old(filter.hashedKeys) + [filter.hasher(key)]
    {
      dataBlock.Append(key, value);
      filter.Add(key);
    }

    method Note(kv: KV)
      requires Trailer()
      modifies this`prevKey, this`all
      ensures Trailer() && prevKey == kv.key && all == old(all) + [kv]
    {
      prevKey := kv.key;
      all := all + [kv];
    }

    /** Flushes the block begun, if any, with its filter. */
    method RefreshBlock()
      requires Valid()
      modifies this`dataBuf, this`blockToFilter, this`prevBlockOffset, this`prevBlockSize, this`blocks, this`sealed, dataBlock, filterBlock, filter
      ensures Valid() && dataBlock.pairs == []
      ensures blocks == if old(dataBlock.pairs) == [] then old(blocks) else old(blocks) + [old(dataBlock.pairs)]
    {
      hide Encode, EncodeBlocks, AllFit, Filtered, Indexed, Flatten;
      assert |Hashes(filter.hasher, dataBlock.pairs)| == |dataBlock.pairs|;
      if |filter.hashedKeys| == 0 { return; }
      FlushBlock();
    }

    method FlushBlock()
      requires Valid() && filter.hashedKeys != [] && dataBlock.pairs != []
      modifies this`dataBuf, this`blockToFilter, this`prevBlockOffset, this`prevBlockSize, this`blocks, this`sealed, dataBlock, filterBlock, filter
      ensures Valid() && dataBlock.pairs == [] && blocks == old(blocks) + [old(dataBlock.pairs)]
    {
      hide DataOk, FiltersOk, EntriesOk, FilterPairs, IndexPairs, ByOffset, Encode, IsFilter, Hashes, LastKey;
      ghost var b, data := dataBlock.pairs, dataBuf;
      KeysHashed(filter.hasher, filter.m, filter.hashedKeys, blocks, b, blockToFilter, sealed, |dataBuf|);
      var bitmap := filter.Hash();
      BlockFlushed(data, blocks, b, all, prevKey, filter.hasher, filter.m, blockToFilter, sealed, index, prevBlockOffset, prevBlockSize, bitmap);
      prevBlockOffset := |dataBuf|;
      SealFilter(bitmap);
      filter.Reset();
      MoveData();
      blocks := blocks + [b];
    }

    method MoveData()
      requires dataBlock.Valid()
      modifies this`dataBuf, this`prevBlockSize, dataBlock
      ensures dataBlock.Valid() && dataBlock.pairs == []
      ensures var bytes := Encode([], old(dataBlock.pairs)); dataBuf == old(dataBuf) + bytes && prevBlockSize == |bytes|
    {
      var bytes := dataBlock.FlushTo();
      prevBlockSize := |bytes|;
      dataBuf := dataBuf + bytes;
    }

    method SealFilter(bitmap: Bitmap)
      requires Trailer() && filterBlock != indexBlock
      modifies this`blockToFilter, this`sealed, filterBlock
      ensures Trailer() && blockToFilter == old(blockToFilter)[prevBlockOffset := bitmap]
      ensures sealed == old(sealed) + [(prevBlockOffset, bitmap)]
    {
      hide PutUvarint, Encode, BytesOf;
      blockToFilter := blockToFilter[prevBlockOffset := bitmap];
      filterBlock.Append(PutUvarint(prevBlockOffset), BytesOf(bitmap));
      sealed := sealed + [(prevBlockOffset, bitmap)];
      assert sealed[..|sealed| - 1] == old(sealed);
    }

    /** Flushes what is left, adds the entry for the last block, and hands out the table. */
    method Finish() returns (node: Node, size: nat)
      requires Valid()
      modifies this, dataBlock, filterBlock, indexBlock, filter
      ensures Flatten(blocks) == all == old(all) && Table(node, blocks, filter.hasher, filter.m)
      ensures node.file == FileOf(dataBuf, sealed, node.index) && node.filters == ByOffset(sealed)
      ensures size == SizeOf(dataBuf, sealed, node.index)
      ensures size < TWO56 ==> Open(node.file) == Opened(node.index, node.filters, size)
    {
      hide Encode, EncodeBlocks, BlocksFit, Filtered, Footer, Table, Indexed, Flatten, Sealed, Open;
      LastEntry();
      var filterBuf := filterBlock.FlushTo();
      var indexBuf := indexBlock.FlushTo();
      size := |dataBuf| + |filterBuf| + |indexBuf|;
      var footer := Footer(|dataBuf|, |filterBuf|, |dataBuf| + |filterBuf|, |indexBuf|);
      node := Node(index, blockToFilter, dataBuf + filterBuf + indexBuf + footer);
      DataFirst(dataBuf, filterBuf, indexBuf, footer);
      Complete(node, blocks, filter.hasher, filter.m);
      if size < TWO56 { FinishReopens(node, blocks, filter.hasher, filter.m, sealed); }
    }

    method LastEntry()
      requires Valid()
      modifies this, dataBlock, filterBlock, indexBlock, filter
      ensures Trailer() && filterBlock != indexBlock && Flatten(blocks) == all == old(all)
      ensures BlocksFit(blocks) && 0 < filter.m < 0x1_0000_0000 && dataBuf == EncodeBlocks(blocks) && Filtered(blocks, blockToFilter, filter.hasher, filter.m)
      ensures Sealed(sealed, |dataBuf|, filter.m)
      ensures |index| == |blocks| + 1 && Indexed(index, if blocks == [] then [] else FirstKey(blocks), blocks, LastKey([], Flatten(blocks)))
    {
      hide Encode, EncodeBlocks, AllFit, Filtered, Separator, Offset, Sealed;
      RefreshBlock();
      LastOfAll();
      assert Flatten(blocks) + [] == Flatten(blocks);
      if blocks != [] {
        FlattenLast(blocks);
        NextEntry(index, all[0].key, blocks, prevKey);
      } else {
        FirstEntry(prevKey);
      }
      hide Indexed, BlocksFit;
      InsertIndex(prevKey);
    }

    /** With no block begun the last key is that of the last flushed block. */
    lemma LastOfAll()
      requires Data() && dataBlock.pairs == []
      ensures blocks == [] ==> all == [] && prevKey == []
      ensures blocks != [] ==> all != [] && prevKey == LastKey([], blocks[|blocks| - 1])
    {
      hide Encode, EncodeBlocks;
      assert all == Flatten(blocks);
      if blocks != [] { FlattenLast(blocks); }
    }
  }
}
