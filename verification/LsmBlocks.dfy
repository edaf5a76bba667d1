/** Prefix-compressed records: what a block writes is what the reader reads back. */
module LsmBlocks {
  import opened LsmBytes

  datatype KV = KV(key: Bytes, value: Bytes)

  /** Lengths that Go slices can have. */
  predicate Fits(kv: KV) { |kv.key| < 0x8000_0000_0000_0000 && |kv.value| < 0x8000_0000_0000_0000 }

  ghost predicate AllFit(kvs: seq<KV>) { forall kv :: kv in kvs ==> Fits(kv) }

  /** Keys strictly ascending. */
  ghost predicate Sorted(kvs: seq<KV>) {
    forall i, j :: 0 <= i < j < |kvs| ==> Less(kvs[i].key, kvs[j].key)
  }

  // ------------------------------------------------------------ one record

  function Record(prev: Bytes, kv: KV): (r: Bytes)
    ensures r != []
  {
    var n := Shared(prev, kv.key);
    PutUvarint(n) + PutUvarint(|kv.key| - n) + PutUvarint(|kv.value|) + kv.key[n..] + kv.value
  }

  /** Exactly n bytes: none left counts as the end of the input, too few as an error. */
  function Take(buf: Bytes, n: nat): (r: Read<Bytes>)
    ensures r.Got? ==> |r.rest| <= |buf|
  {
    if n == 0 then Got([], buf) else if buf == [] then Eof else if |buf| < n then Bad else Got(buf[..n], buf[n..])
  }

  function ReadRecord(prev: Bytes, buf: Bytes): (r: Read<KV>)
    ensures r.Got? ==> |r.rest| < |buf|
  {
    match ReadUvarint(buf, 0)
    case Eof => Eof
    case Bad => Bad
    case Got(shared, buf1) =>
      match ReadUvarint(buf1, 0)
      case Eof => Eof
      case Bad => Bad
      case Got(keyLen, buf2) =>
        match ReadUvarint(buf2, 0)
        case Eof => Eof
        case Bad => Bad
        case Got(valLen, buf3) =>
          match Take(buf3, keyLen)
          case Eof => Eof
          case Bad => Bad
          case Got(key, buf4) =>
            match Take(buf4, valLen)
            case Eof => Eof
            case Bad => Bad
            case Got(value, buf5) =>
              if shared > |prev| then Bad else Got(KV(prev[..shared] + key, value), buf5)
  }

  lemma TakeExactly(a: Bytes, rest: Bytes)
    ensures Take(a + rest, |a|) == Got(a, rest)
  {
    assert (a + rest)[..|a|] == a && (a + rest)[|a|..] == rest;
  }

  /** A record is read back given any previous key that shares the recorded prefix. */
  lemma RecordRoundTrip(prev: Bytes, prev': Bytes, kv: KV, rest: Bytes)
    requires Fits(kv) && Shared(prev, kv.key) <= |prev'| && prev'[..Shared(prev, kv.key)] == kv.key[..Shared(prev, kv.key)]
    ensures ReadRecord(prev', Record(prev, kv) + rest) == Got(kv, rest)
  {
    var n := Shared(prev, kv.key);
    var suffix := kv.key[n..];
    var r3 := suffix + (kv.value + rest);
    var r2 := PutUvarint(|kv.value|) + r3;
    var r1 := PutUvarint(|suffix|) + r2;
    RecordParts(prev, kv, rest);
    hide PutUvarint, ReadUvarint, Shared, Record;
    UvarintRoundTrip(n, r1);
    UvarintRoundTrip(|suffix|, r2);
    UvarintRoundTrip(|kv.value|, r3);
    TakeExactly(suffix, kv.value + rest);
    TakeExactly(kv.value, rest);
    assert kv.key[..n] + suffix == kv.key;
  }

  /** A record and what follows it, from the front. */
  lemma RecordParts(prev: Bytes, kv: KV, rest: Bytes)
    ensures var n := Shared(prev, kv.key); var suffix := kv.key[n..];
            Record(prev, kv) + rest
            == PutUvarint(n) + (PutUvarint(|suffix|) + (PutUvarint(|kv.value|) + (suffix + (kv.value + rest))))
  {
    hide PutUvarint, Shared;
  }

  // ------------------------------------------------------------ a block

  /** The records of a block; each shares a prefix with the one before. */
  function Encode(prev: Bytes, kvs: seq<KV>): Bytes
    decreases |kvs|
  {
    if kvs == [] then [] else Record(prev, kvs[0]) + Encode(kvs[0].key, kvs[1..])
  }

  datatype Parsed = Parsed(kvs: seq<KV>) | Malformed

  function Decode(prev: Bytes, buf: Bytes): Parsed
    decreases |buf|
  {
    match ReadRecord(prev, buf)
    case Eof => Parsed([])
    case Bad => Malformed
    case Got(kv, rest) =>
      match Decode(kv.key, rest)
      case Malformed => Malformed
      case Parsed(kvs) => Parsed([kv] + kvs)
  }

  /** The end of a list of records, and the key a following record would share with. */
  function LastKey(prev: Bytes, kvs: seq<KV>): Bytes {
    if kvs == [] then prev else kvs[|kvs| - 1].key
  }

  function Prepend(kvs: seq<KV>, p: Parsed): Parsed {
    match p case Malformed => Malformed case Parsed(more) => Parsed(kvs + more)
  }

  lemma {:induction false} DecodePast(prev: Bytes, kvs: seq<KV>, rest: Bytes)
    requires AllFit(kvs)
    ensures Decode(prev, Encode(prev, kvs) + rest) == Prepend(kvs, Decode(LastKey(prev, kvs), rest))
    decreases |kvs|
  {
    hide ReadRecord, Record;
    if kvs == [] {
      assert Encode(prev, kvs) + rest == rest;
      NothingBefore(Decode(prev, rest));
    } else {
      var kv, tail := kvs[0], kvs[1..];
      var more := Encode(kv.key, tail) + rest;
      assert Encode(prev, kvs) + rest == Record(prev, kv) + more;
      RecordRoundTrip(prev, prev, kv, more);
      DecodePast(kv.key, tail, rest);
      OneBefore(kvs, Decode(LastKey(kv.key, tail), rest));
    }
  }

  lemma NothingBefore(p: Parsed)
    ensures Prepend([], p) == p
  {
  }

  lemma OneBefore(kvs: seq<KV>, p: Parsed)
    requires kvs != []
    ensures Prepend([kvs[0]], Prepend(kvs[1..], p)) == Prepend(kvs, p)
  {
    if p.Parsed? { assert [kvs[0]] + (kvs[1..] + p.kvs) == kvs + p.kvs; }
  }

  lemma PrependTwice(a: seq<KV>, b: seq<KV>, p: Parsed)
    ensures Prepend(a, Prepend(b, p)) == Prepend(a + b, p)
  {
    if p.Parsed? { assert a + (b + p.kvs) == (a + b) + p.kvs; }
  }

  /** The first record of a block shares nothing, so it can be read after any key. */
  lemma FreshStart(prev: Bytes, kvs: seq<KV>, rest: Bytes)
    requires AllFit(kvs) && kvs != []
    ensures Decode(prev, Encode([], kvs) + rest) == Decode([], Encode([], kvs) + rest)
  {
    var more := Encode(kvs[0].key, kvs[1..]) + rest;
    assert Encode([], kvs) + rest == Record([], kvs[0]) + more;
    RecordRoundTrip([], prev, kvs[0], more);
    RecordRoundTrip([], [], kvs[0], more);
  }

  /** Decoding a block gives back its pairs. */
  lemma BlockRoundTrip(kvs: seq<KV>)
    requires AllFit(kvs)
    ensures Decode([], Encode([], kvs)) == Parsed(kvs)
  {
    DecodePast([], kvs, []);
    assert Encode([], kvs) + [] == Encode([], kvs);
    assert kvs + [] == kvs;
  }

  // ------------------------------------------------------------ several blocks

  function EncodeBlocks(blocks: seq<seq<KV>>): Bytes {
    if blocks == [] then [] else EncodeBlocks(blocks[..|blocks| - 1]) + Encode([], blocks[|blocks| - 1])
  }

  function Flatten(blocks: seq<seq<KV>>): seq<KV> {
    if blocks == [] then [] else Flatten(blocks[..|blocks| - 1]) + blocks[|blocks| - 1]
  }

  ghost predicate BlocksFit(blocks: seq<seq<KV>>) {
    forall j :: 0 <= j < |blocks| ==> blocks[j] != [] && AllFit(blocks[j])
  }

  lemma {:induction false} DecodeBlocks(blocks: seq<seq<KV>>, rest: Bytes)
    requires BlocksFit(blocks)
    ensures Decode([], EncodeBlocks(blocks) + rest) == Prepend(Flatten(blocks), Decode(LastKey([], Flatten(blocks)), rest))
  {
    hide Decode, Encode, Prepend;
    if blocks == [] {
      assert EncodeBlocks(blocks) + rest == rest;
      NothingBefore(Decode([], rest));
    } else {
      var before, b := blocks[..|blocks| - 1], blocks[|blocks| - 1];
      var mine := Encode([], b) + rest;
      assert EncodeBlocks(blocks) + rest == EncodeBlocks(before) + mine;
      DecodeBlocks(before, mine);
      FreshStart(LastKey([], Flatten(before)), b, rest);
      DecodePast([], b, rest);
      PrependTwice(Flatten(before), b, Decode(LastKey([], b), rest));
      assert LastKey([], Flatten(blocks)) == LastKey([], b);
    }
  }

  /** Decoding all data blocks at once gives back all pairs in order: every block restarts prefix sharing. */
  lemma DataRoundTrip(blocks: seq<seq<KV>>)
    requires BlocksFit(blocks)
    ensures Decode([], EncodeBlocks(blocks)) == Parsed(Flatten(blocks))
  {
    DecodeBlocks(blocks, []);
    assert EncodeBlocks(blocks) + [] == EncodeBlocks(blocks);
    assert Flatten(blocks) + [] == Flatten(blocks);
  }

  // ------------------------------------------------------------ the code

  /** Accumulates the records of one block. */
  class Block {
    var record: Bytes
    var entriesCnt: nat
    var prevKey: Bytes
    ghost var pairs: seq<KV>

    ghost predicate Valid() reads this {
      entriesCnt == |pairs| && prevKey == LastKey([], pairs) && record == Encode([], pairs)
    }

    constructor ()
      ensures Valid() && pairs == []
    {
      record, entriesCnt, prevKey, pairs := [], 0, [], [];
    }

    method Append(key: Bytes, value: Bytes)
      requires Valid()
      modifies this
      ensures Valid() && pairs == old(pairs) + [KV(key, value)]
    {
      hide PutUvarint, Encode, Shared, LastKey;
      EncodeMore([], pairs, KV(key, value));
      LastIs(pairs, KV(key, value));
      var n := SharedPrefixLen(prevKey, key);
      record := record + (PutUvarint(n) + PutUvarint(|key| - n) + PutUvarint(|value|) + key[n..] + value);
      prevKey := key;
      entriesCnt := entriesCnt + 1;
      pairs := pairs + [KV(key, value)];
    }

    /** Hands out the block and starts a new one. */
    method FlushTo() returns (bytes: Bytes)
      requires Valid()
      modifies this
      ensures Valid() && pairs == [] && bytes == Encode([], old(pairs))
    {
      bytes := record;
      entriesCnt, prevKey, record, pairs := 0, [], [], [];
    }
  }

  lemma LastIs(kvs: seq<KV>, kv: KV)
    ensures LastKey([], kvs + [kv]) == kv.key
  {
  }

  lemma {:induction false} EncodeMore(prev: Bytes, kvs: seq<KV>, kv: KV)
    ensures Encode(prev, kvs + [kv]) == Encode(prev, kvs) + Record(LastKey(prev, kvs), kv)
    decreases |kvs|
  {
    if kvs == [] {
      assert kvs + [kv] == [kv] && [kv][1..] == [];
    } else {
      assert (kvs + [kv])[1..] == kvs[1..] + [kv];
      EncodeMore(kvs[0].key, kvs[1..], kv);
    }
  }

  /** The reader's loop over a block. */
  method ReadBlockData(block: Bytes) returns (p: Parsed)
    ensures p == Decode([], block)
  {
    var prevKey, buf, data := [], block, [];
    while true
      invariant Decode([], block) == Prepend(data, Decode(prevKey, buf))
      decreases |buf|
    {
      match ReadRecord(prevKey, buf) {
        case Eof => return Parsed(data);
        case Bad => return Malformed;
        case Got(kv, rest) =>
          data := data + [kv];
          prevKey, buf := kv.key, rest;
      }
    }
  }
}
