/** Looking a key up in a written table: index search, filter, block scan. */
module LsmTable {
  import opened LsmBytes
  import opened LsmBlocks
  import opened LsmFilter

  /** A separator key with the place of the block before it. */
  datatype Index = Index(key: Bytes, offset: nat, size: nat)

  datatype Node = Node(index: seq<Index>, filters: map<nat, Bitmap>, file: Bytes)

  datatype Lookup = Found(value: Bytes) | NotFound | Failed

  /** The value of the first pair with the key. */
  function Scan(kvs: seq<KV>, key: Bytes): Lookup {
    if kvs == [] then NotFound else if kvs[0].key == key then Found(kvs[0].value) else Scan(kvs[1..], key)
  }

  function Search(index: seq<Index>, key: Bytes, start: nat, end: nat): (r: (nat, bool))
    requires start <= end < |index|
    ensures start <= r.0 <= end
    decreases end - start
  {
    if start == end then (start, !Less(index[start].key, key))
    else
      var mid := start + (end - start) / 2;
      if Less(index[mid].key, key) then Search(index, key, mid + 1, end) else Search(index, key, start, mid)
  }

  /** m is the bitmap length of the configured filter. */
  ghost function NodeGet(node: Node, hasher: Hasher, m: nat, key: Bytes): Lookup {
    if node.index == [] then NotFound
    else
      var (i, ok) := Search(node.index, key, 0, |node.index| - 1);
      var at := node.index[i];
      if !ok || at.offset !in node.filters then NotFound
      else
        var bitmap := node.filters[at.offset];
        if m == 0 || |bitmap| != (m + 7) / 8 + 1 then Failed
        else if !Passes(bitmap, hasher(key), m) then NotFound
        else if at.offset + at.size > |node.file| then Failed
        else
          match Decode([], node.file[at.offset..at.offset + at.size])
          case Malformed => Failed
          case Parsed(kvs) => Scan(kvs, key)
  }

  // ------------------------------------------------------------ what the writer leaves behind

  function Offset(blocks: seq<seq<KV>>, j: nat): nat
    requires j <= |blocks|
  {
    |EncodeBlocks(blocks[..j])|
  }

  function Hashes(hasher: Hasher, kvs: seq<KV>): (r: seq<Word>)
    ensures |r| == |kvs| && forall i :: 0 <= i < |r| ==> r[i] == hasher(kvs[i].key)
  {
    if kvs == [] then [] else Hashes(hasher, kvs[..|kvs| - 1]) + [hasher(kvs[|kvs| - 1].key)]
  }

  /** The key that follows a block; behind the last block its own last key again. */
  function NextKey(blocks: seq<seq<KV>>, j: nat, last: Bytes): Bytes
    requires j < |blocks|
  {
    if j + 1 < |blocks| && blocks[j + 1] != [] then blocks[j + 1][0].key else last
  }

  /** The index entry of a block, where `last` stands for the key after the last block. */
  function BlockIndex(blocks: seq<seq<KV>>, j: nat, last: Bytes): Index
    requires j < |blocks|
  {
    Index(Separator(LastKey([], blocks[j]), NextKey(blocks, j, last)), Offset(blocks, j), |Encode([], blocks[j])|)
  }

  function FirstKey(blocks: seq<seq<KV>>): Bytes
    requires blocks != [] && blocks[0] != []
  {
    blocks[0][0].key
  }

  ghost predicate BlockFiltered(blocks: seq<seq<KV>>, filters: map<nat, Bitmap>, hasher: Hasher, m: nat, j: nat)
    requires j < |blocks|
  {
    Offset(blocks, j) in filters && IsFilter(filters[Offset(blocks, j)], Hashes(hasher, blocks[j]), m)
  }

  ghost predicate EntryOk(index: seq<Index>, blocks: seq<seq<KV>>, j: nat)
    requires j < |blocks| && j + 1 < |index|
  {
    index[j + 1] == BlockIndex(blocks, j, LastKey([], blocks[|blocks| - 1]))
  }

  /** The node holds exactly these blocks: an index entry in front, one for each block, a filter for each
      block, and the data at the start of the file. */
  ghost predicate Table(node: Node, blocks: seq<seq<KV>>, hasher: Hasher, m: nat) {
    && BlocksFit(blocks) && 0 < m
    && EncodeBlocks(blocks) <= node.file
    && |node.index| == |blocks| + 1
    && node.index[0] == Index(if blocks == [] then [] else Separator([], FirstKey(blocks)), 0, 0)
    && (forall j :: 0 <= j < |blocks| ==> EntryOk(node.index, blocks, j))
    && (forall j :: 0 <= j < |blocks| ==> BlockFiltered(blocks, node.filters, hasher, m, j))
    && (blocks == [] ==> node.filters == map[])
  }

  // ------------------------------------------------------------ blocks in order

  lemma {:induction false} FlattenSplit(blocks: seq<seq<KV>>, j: nat)
    requires j < |blocks|
    ensures exists after: seq<KV> :: Flatten(blocks) == Flatten(blocks[..j]) + blocks[j] + after
    decreases |blocks|
  {
    var n := |blocks| - 1;
    if j == n {
      assert Flatten(blocks) == Flatten(blocks[..j]) + blocks[j] + [];
    } else {
      FlattenSplit(blocks[..n], j);
      assert blocks[..n][..j] == blocks[..j];
      var after: seq<KV> :| Flatten(blocks[..n]) == Flatten(blocks[..j]) + blocks[j] + after;
      assert Flatten(blocks) == Flatten(blocks[..j]) + blocks[j] + (after + blocks[n]);
    }
  }

  lemma SliceBefore(a: Bytes, b: Bytes, i: nat, j: nat)
    requires i <= j <= |a|
    ensures (a + b)[i..j] == a[i..j]
  {
  }

  lemma SliceBehind(a: Bytes, b: Bytes)
    ensures (a + b)[|a|..|a| + |b|] == b
  {
  }

  lemma {:induction false} EncodeSplit(blocks: seq<seq<KV>>, j: nat)
    requires j < |blocks|
    ensures var o := Offset(blocks, j); var e := Encode([], blocks[j]);
            o + |e| <= |EncodeBlocks(blocks)| && EncodeBlocks(blocks)[o..o + |e|] == e
    decreases |blocks|
  {
    hide Encode;
    var n := |blocks| - 1;
    var o, e := Offset(blocks, j), Encode([], blocks[j]);
    if j < n {
      EncodeSplit(blocks[..n], j);
      assert blocks[..n][..j] == blocks[..j];
      SliceBefore(EncodeBlocks(blocks[..n]), Encode([], blocks[n]), o, o + |e|);
    } else {
      SliceBehind(EncodeBlocks(blocks[..n]), e);
    }
  }

  /** Reading a block from the file gives its pairs. */
  lemma BlockRead(node: Node, blocks: seq<seq<KV>>, hasher: Hasher, m: nat, j: nat)
    requires Table(node, blocks, hasher, m) && j < |blocks|
    ensures var o := Offset(blocks, j); var s := |Encode([], blocks[j])|;
            o + s <= |node.file| && Decode([], node.file[o..o + s]) == Parsed(blocks[j])
  {
    hide Encode, EncodeBlocks, Decode, IsFilter, AllFit;
    EncodeSplit(blocks, j);
    BlockRoundTrip(blocks[j]);
    var o, s, data := Offset(blocks, j), |Encode([], blocks[j])|, EncodeBlocks(blocks);
    assert node.file == data + node.file[|data|..];
    SliceBefore(data, node.file[|data|..], o, o + s);
  }

  lemma {:induction false} ScanPlus(a: seq<KV>, b: seq<KV>, key: Bytes)
    ensures Scan(a + b, key) == if Scan(a, key) == NotFound then Scan(b, key) else Scan(a, key)
  {
    if a == [] { assert a + b == b; } else {
      assert (a + b)[1..] == a[1..] + b;
      ScanPlus(a[1..], b, key);
    }
  }

  lemma {:induction false} ScanMisses(kvs: seq<KV>, key: Bytes)
    ensures Scan(kvs, key) == NotFound <==> forall kv :: kv in kvs ==> kv.key != key
  {
    if kvs != [] {
      ScanMisses(kvs[1..], key);
      assert kvs == [kvs[0]] + kvs[1..];
    }
  }

  /** Below all keys: nothing. */
  lemma BelowAll(kvs: seq<KV>, key: Bytes)
    requires Sorted(kvs) && (kvs != [] ==> Less(key, kvs[0].key))
    ensures Scan(kvs, key) == NotFound
  {
    forall kv | kv in kvs ensures kv.key != key {
      var i :| 0 <= i < |kvs| && kvs[i] == kv;
      if i > 0 { LessTransitive(key, kvs[0].key, kv.key); }
      LessTotal(key, kv.key);
    }
    ScanMisses(kvs, key);
  }

  /** Above all keys: nothing. */
  lemma AboveAll(kvs: seq<KV>, key: Bytes)
    requires Sorted(kvs) && (kvs != [] ==> Less(kvs[|kvs| - 1].key, key))
    ensures Scan(kvs, key) == NotFound
  {
    forall kv | kv in kvs ensures kv.key != key {
      var i :| 0 <= i < |kvs| && kvs[i] == kv;
      if i < |kvs| - 1 { LessTransitive(kv.key, kvs[|kvs| - 1].key, key); }
      LessTotal(key, kv.key);
    }
    ScanMisses(kvs, key);
  }

  lemma {:induction false} FlattenLast(blocks: seq<seq<KV>>)
    requires BlocksFit(blocks) && blocks != []
    ensures Flatten(blocks) != [] && LastKey([], Flatten(blocks)) == LastKey([], blocks[|blocks| - 1])
    ensures Flatten(blocks)[0].key == FirstKey(blocks)
  {
    var n := |blocks| - 1;
    if n > 0 { FlattenLast(blocks[..n]); }
  }

  /** A key between the ends of two neighbouring blocks is found in the second or nowhere. */
  lemma OnlyInBlock(blocks: seq<seq<KV>>, j: nat, key: Bytes)
    requires BlocksFit(blocks) && Sorted(Flatten(blocks)) && j < |blocks|
    requires j > 0 ==> Less(LastKey([], blocks[j - 1]), key)
    requires !Less(LastKey([], blocks[j]), key)
    ensures Scan(Flatten(blocks), key) == Scan(blocks[j], key)
  {
    var flat, before, b := Flatten(blocks), Flatten(blocks[..j]), blocks[j];
    FlattenSplit(blocks, j);
    var after: seq<KV> :| flat == before + b + after;
    var p, q := |before|, |before| + |b|;
    assert flat[..p] == before && flat[q..] == after && flat[q - 1] == b[|b| - 1];
    assert Sorted(before) && Sorted(after) by { SortedParts(before + b, after); SortedParts(before, b); }
    if j > 0 {
      assert BlocksFit(blocks[..j]);
      FlattenLast(blocks[..j]);
    }
    AboveAll(before, key);
    if after != [] {
      assert flat[q] == after[0] && Less(flat[q - 1].key, flat[q].key);
      LessTotal(key, b[|b| - 1].key);
      if key != b[|b| - 1].key { LessTransitive(key, b[|b| - 1].key, after[0].key); }
    }
    BelowAll(after, key);
    ScanPlus(before + b, after, key);
    ScanPlus(before, b, key);
  }

  lemma SortedParts(a: seq<KV>, b: seq<KV>)
    requires Sorted(a + b)
    ensures Sorted(a) && Sorted(b)
  {
    var s := a + b;
    assert forall i :: 0 <= i < |a| ==> s[i] == a[i];
    assert forall i :: 0 <= i < |b| ==> s[|a| + i] == b[i];
  }

  // ------------------------------------------------------------ the index search

  ghost predicate IndexSorted(index: seq<Index>) {
    forall i, j :: 0 <= i < j < |index| ==> Less(index[i].key, index[j].key)
  }

  /** The search finds the first entry that is not below the key. */
  lemma {:induction false} SearchFinds(index: seq<Index>, key: Bytes, start: nat, end: nat)
    requires start <= end < |index| && IndexSorted(index)
    ensures var (i, ok) := Search(index, key, start, end);
            && (forall a :: start <= a < i ==> Less(index[a].key, key))
            && (ok ==> !Less(index[i].key, key)) && (!ok ==> i == end && Less(index[end].key, key))
    decreases end - start
  {
    if start < end {
      var mid := start + (end - start) / 2;
      if Less(index[mid].key, key) {
        forall a | start <= a <= mid ensures Less(index[a].key, key) {
          if a < mid { LessTransitive(index[a].key, index[mid].key, key); }
        }
        SearchFinds(index, key, mid + 1, end);
      } else {
        SearchFinds(index, key, start, mid);
      }
    }
  }

  /** If no entry is below the key the search ends at the first, sorted or not. */
  lemma {:induction false} SearchFirst(index: seq<Index>, key: Bytes, start: nat, end: nat)
    requires start <= end < |index| && forall a :: start <= a <= end ==> !Less(index[a].key, key)
    ensures Search(index, key, start, end) == (start, true)
    decreases end - start
  {
    if start < end { SearchFirst(index, key, start, start + (end - start) / 2); }
  }

  /** What is read at an index entry. */
  lemma GetInBlock(node: Node, blocks: seq<seq<KV>>, hasher: Hasher, m: nat, key: Bytes, j: nat)
    requires Table(node, blocks, hasher, m) && j < |blocks|
    requires Search(node.index, key, 0, |node.index| - 1) == (j + 1, true)
    ensures NodeGet(node, hasher, m, key) == Scan(blocks[j], key)
  {
    hide Encode, EncodeBlocks, Decode, AllFit, Search, IsFilter, Passes;
    BlockRead(node, blocks, hasher, m, j);
    assert EntryOk(node.index, blocks, j) && BlockFiltered(blocks, node.filters, hasher, m, j);
    var bitmap := node.filters[Offset(blocks, j)];
    FilterSize(bitmap, Hashes(hasher, blocks[j]), m);
    if !Passes(bitmap, hasher(key), m) { FilteredOut(bitmap, hasher, m, blocks[j], key); }
  }

  lemma FilterSize(bitmap: Bitmap, hashes: seq<Word>, m: nat)
    requires IsFilter(bitmap, hashes, m)
    ensures 0 < m && |bitmap| == (m + 7) / 8 + 1
  {
  }

  /** A key the filter turns away is not in the block. */
  lemma FilteredOut(bitmap: Bitmap, hasher: Hasher, m: nat, kvs: seq<KV>, key: Bytes)
    requires IsFilter(bitmap, Hashes(hasher, kvs), m) && !Passes(bitmap, hasher(key), m)
    ensures Scan(kvs, key) == NotFound
  {
    hide IsFilter, Passes;
    forall kv | kv in kvs ensures kv.key != key {
      var x: nat :| 0 <= x < |kvs| && kvs[x] == kv;
      NoFalseNegative(bitmap, Hashes(hasher, kvs), m, x);
    }
    ScanMisses(kvs, key);
  }

  /** The entry in front of the first block leads nowhere. */
  lemma GetInFront(node: Node, blocks: seq<seq<KV>>, hasher: Hasher, m: nat, key: Bytes)
    requires Table(node, blocks, hasher, m) && Search(node.index, key, 0, |node.index| - 1) == (0, true)
    ensures NodeGet(node, hasher, m, key) == NotFound
  {
    hide Encode, EncodeBlocks, AllFit, Search, IsFilter, Passes, Record;
    if blocks != [] {
      assert BlockFiltered(blocks, node.filters, hasher, m, 0);
      assert Offset(blocks, 0) == 0 by { NoOffset(blocks); }
      FilterSize(node.filters[0], Hashes(hasher, blocks[0]), m);
      assert node.file[0..0] == [];
    }
  }

  lemma NoOffset(blocks: seq<seq<KV>>)
    ensures Offset(blocks, 0) == 0
  {
    assert blocks[..0] == [];
  }

  /** Among keys that are not empty the entry of a block bears the block's last key. */
  lemma EntryKey(node: Node, blocks: seq<seq<KV>>, hasher: Hasher, m: nat, j: nat)
    requires Table(node, blocks, hasher, m) && Sorted(Flatten(blocks)) && j < |blocks| && FirstKey(blocks) != []
    ensures node.index[j + 1].key == LastKey([], blocks[j]) && LastKey([], blocks[j]) != []
  {
    hide Encode, EncodeBlocks, AllFit, IsFilter;
    assert EntryOk(node.index, blocks, j);
    FirstToLast(blocks, j);
    FirstToLast(blocks, |blocks| - 1);
    if j + 1 < |blocks| { NextAbove(blocks, j); }
  }

  lemma NextAbove(blocks: seq<seq<KV>>, j: nat)
    requires BlocksFit(blocks) && Sorted(Flatten(blocks)) && j + 1 < |blocks|
    ensures Less(LastKey([], blocks[j]), blocks[j + 1][0].key)
  {
    LastAt(blocks, j);
    FirstAt(blocks, j + 1);
    assert blocks[..j + 1][..j] == blocks[..j] && blocks[..j + 1][j] == blocks[j];
    assert |Flatten(blocks[..j + 1])| == |Flatten(blocks[..j])| + |blocks[j]|;
  }

  lemma FirstAt(blocks: seq<seq<KV>>, j: nat)
    requires BlocksFit(blocks) && j < |blocks|
    ensures var p := |Flatten(blocks[..j])|; p < |Flatten(blocks)| && Flatten(blocks)[p] == blocks[j][0]
  {
    FlattenSplit(blocks, j);
  }

  lemma KeysAscend(node: Node, blocks: seq<seq<KV>>, hasher: Hasher, m: nat)
    requires Table(node, blocks, hasher, m) && Sorted(Flatten(blocks))
    requires blocks != [] ==> Less(Separator([], FirstKey(blocks)), FirstKey(blocks))
    ensures IndexSorted(node.index)
  {
    hide Encode, EncodeBlocks, AllFit, IsFilter, Separator;
    forall i, j | 0 <= i < j < |node.index| ensures Less(node.index[i].key, node.index[j].key) {
      EntryKey(node, blocks, hasher, m, j - 1);
      if i == 0 {
        FirstToLast(blocks, j - 1);
        if FirstKey(blocks) != LastKey([], blocks[j - 1]) {
          LessTransitive(node.index[0].key, FirstKey(blocks), LastKey([], blocks[j - 1]));
        }
      } else {
        EntryKey(node, blocks, hasher, m, i - 1);
        LastKeysAscend(blocks, i - 1, j - 1);
      }
    }
  }

  /** Where the last key of a block stands among all keys. */
  lemma LastAt(blocks: seq<seq<KV>>, j: nat)
    requires BlocksFit(blocks) && j < |blocks|
    ensures var p := |Flatten(blocks[..j])| + |blocks[j]| - 1;
            p < |Flatten(blocks)| && Flatten(blocks)[p].key == LastKey([], blocks[j])
  {
    FlattenSplit(blocks, j);
  }

  lemma {:induction false} FlattenGrows(blocks: seq<seq<KV>>, i: nat, j: nat)
    requires i <= j <= |blocks|
    ensures |Flatten(blocks[..i])| <= |Flatten(blocks[..j])|
    ensures i < j ==> |Flatten(blocks[..i])| + |blocks[i]| <= |Flatten(blocks[..j])|
    decreases j
  {
    if i < j {
      assert blocks[..j][..j - 1] == blocks[..j - 1] && blocks[..j][j - 1] == blocks[j - 1];
      FlattenGrows(blocks, i, j - 1);
    }
  }

  lemma LastKeysAscend(blocks: seq<seq<KV>>, i: nat, j: nat)
    requires BlocksFit(blocks) && Sorted(Flatten(blocks)) && i < j < |blocks|
    ensures Less(LastKey([], blocks[i]), LastKey([], blocks[j]))
  {
    LastAt(blocks, i);
    LastAt(blocks, j);
    FlattenGrows(blocks, i, j);
    assert blocks[j] != [];
  }

  lemma FirstToLast(blocks: seq<seq<KV>>, j: nat)
    requires BlocksFit(blocks) && Sorted(Flatten(blocks)) && j < |blocks|
    ensures AtMost(FirstKey(blocks), LastKey([], blocks[j]))
  {
    FlattenLast(blocks);
    LastAt(blocks, j);
  }

  // ------------------------------------------------------------ lookup

  lemma LookupFinds(node: Node, blocks: seq<seq<KV>>, hasher: Hasher, m: nat, key: Bytes)
    requires Table(node, blocks, hasher, m) && Sorted(Flatten(blocks))
    requires blocks != [] ==> Less(Separator([], FirstKey(blocks)), FirstKey(blocks))
    ensures NodeGet(node, hasher, m, key) == Scan(Flatten(blocks), key)
  {
    hide Encode, EncodeBlocks, AllFit, IsFilter, Passes, Decode, Search, Separator;
    KeysAscend(node, blocks, hasher, m);
    var index, n := node.index, |blocks|;
    SearchFinds(index, key, 0, n);
    var (i, ok) := Search(index, key, 0, n);
    if n > 0 { EntryKey(node, blocks, hasher, m, n - 1); FlattenLast(blocks); }
    if !ok {
      AboveAll(Flatten(blocks), key);
    } else if i == 0 {
      GetInFront(node, blocks, hasher, m, key);
      if n > 0 {
        LessTotal(key, index[0].key);
        if key != index[0].key { LessTransitive(key, index[0].key, FirstKey(blocks)); }
      }
      BelowAll(Flatten(blocks), key);
    } else {
      GetInBlock(node, blocks, hasher, m, key, i - 1);
      EntryKey(node, blocks, hasher, m, i - 1);
      if i > 1 { EntryKey(node, blocks, hasher, m, i - 2); assert Less(index[i - 1].key, key); }
      OnlyInBlock(blocks, i - 1, key);
    }
  }

  /** When the first key ends in 0 the entry in front of it lies above it, and the key is not found. */
  lemma FirstKeyLost(node: Node, blocks: seq<seq<KV>>, hasher: Hasher, m: nat)
    requires Table(node, blocks, hasher, m) && Sorted(Flatten(blocks)) && blocks != []
    requires FirstKey(blocks) != [] && Less(FirstKey(blocks), Separator([], FirstKey(blocks)))
    ensures NodeGet(node, hasher, m, FirstKey(blocks)) == NotFound && Scan(Flatten(blocks), FirstKey(blocks)).Found?
  {
    hide Encode, EncodeBlocks, AllFit, IsFilter, Passes, Decode, Search, Separator;
    var index, n, key := node.index, |blocks|, FirstKey(blocks);
    forall a | 0 <= a <= n ensures !Less(index[a].key, key) {
      if a == 0 {
        LessTotal(key, index[0].key);
      } else {
        EntryKey(node, blocks, hasher, m, a - 1);
        FirstToLast(blocks, a - 1);
        LessTotal(key, index[a].key);
      }
    }
    SearchFirst(index, key, 0, n);
    GetInFront(node, blocks, hasher, m, key);
    FlattenLast(blocks);
  }

  /** An empty first key is not found either: the entry in front bears it. */
  lemma EmptyKeyLost(node: Node, blocks: seq<seq<KV>>, hasher: Hasher, m: nat)
    requires Table(node, blocks, hasher, m) && blocks != [] && FirstKey(blocks) == []
    ensures NodeGet(node, hasher, m, []) == NotFound && Scan(Flatten(blocks), []).Found?
  {
    hide Encode, EncodeBlocks, AllFit, IsFilter, Passes, Decode, Search, Separator;
    SearchFirst(node.index, [], 0, |blocks|);
    GetInFront(node, blocks, hasher, m, []);
    FlattenLast(blocks);
  }

  /** A first key that lookup finds: not empty, and its last byte not zero. */
  predicate Findable(key: Bytes) { key != [] && key[|key| - 1] != 0 }

  /** Table lookup: of a table of ascending keys, every key is looked up correctly, present or absent, if
      and only if the first key is not empty and does not end in a zero byte. */
  lemma LookupIff(node: Node, blocks: seq<seq<KV>>, hasher: Hasher, m: nat)
    requires Table(node, blocks, hasher, m) && Sorted(Flatten(blocks)) && blocks != []
    ensures (forall key :: NodeGet(node, hasher, m, key) == Scan(Flatten(blocks), key)) <==> Findable(FirstKey(blocks))
  {
    var first := FirstKey(blocks);
    hide Table, Sorted, NodeGet, Scan, Flatten, Separator, Less;
    if first == [] {
      EmptyKeyLost(node, blocks, hasher, m);
      return;
    }
    FirstSeparator(first);
    if first[|first| - 1] != 0 {
      forall key ensures NodeGet(node, hasher, m, key) == Scan(Flatten(blocks), key) {
        LookupFinds(node, blocks, hasher, m, key);
      }
    } else {
      FirstKeyLost(node, blocks, hasher, m);
    }
  }
}
