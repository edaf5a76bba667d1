/** The write-ahead log: replaying what was written rebuilds the memtable. */
module LsmWal {
  import opened LsmBytes
  import opened LsmBlocks

  function LogRecord(kv: KV): (r: Bytes)
    ensures r != []
  {
    PutUvarint(|kv.key|) + PutUvarint(|kv.value|) + kv.key + kv.value
  }

  function LogOf(kvs: seq<KV>): Bytes {
    if kvs == [] then [] else LogOf(kvs[..|kvs| - 1]) + LogRecord(kvs[|kvs| - 1])
  }

  /** One record. The end of the log counts as such only between records. */
  function ReadLogRecord(buf: Bytes): (r: Read<KV>)
    ensures r.Got? ==> |r.rest| < |buf|
  {
    match ReadUvarint(buf, 0)
    case Eof => Eof
    case Bad => Bad
    case Got(keyLen, buf1) =>
      match ReadUvarint(buf1, 0)
      case Eof => Bad
      case Bad => Bad
      case Got(valLen, buf2) =>
        match Take(buf2, keyLen)
        case Eof => Bad
        case Bad => Bad
        case Got(key, buf3) =>
          match Take(buf3, valLen)
          case Eof => Bad
          case Bad => Bad
          case Got(value, buf4) => Got(KV(key, value), buf4)
  }

  function ReadAll(buf: Bytes): Parsed
    decreases |buf|
  {
    match ReadLogRecord(buf)
    case Eof => Parsed([])
    case Bad => Malformed
    case Got(kv, rest) => Prepend([kv], ReadAll(rest))
  }

  /** The memtable after a list of puts. */
  function Replay(kvs: seq<KV>): map<Bytes, Bytes> {
    if kvs == [] then map[] else Replay(kvs[..|kvs| - 1])[kvs[|kvs| - 1].key := kvs[|kvs| - 1].value]
  }

  lemma LogRecordRoundTrip(kv: KV, rest: Bytes)
    requires Fits(kv)
    ensures ReadLogRecord(LogRecord(kv) + rest) == Got(kv, rest)
  {
    hide PutUvarint, ReadUvarint, Take;
    var r2 := kv.key + (kv.value + rest);
    var r1 := PutUvarint(|kv.value|) + r2;
    assert LogRecord(kv) + rest == PutUvarint(|kv.key|) + r1;
    UvarintRoundTrip(|kv.key|, r1);
    UvarintRoundTrip(|kv.value|, r2);
    TakeExactly(kv.key, kv.value + rest);
    TakeExactly(kv.value, rest);
  }

  lemma {:induction false} ReadPast(kvs: seq<KV>, rest: Bytes)
    requires AllFit(kvs)
    ensures ReadAll(LogOf(kvs) + rest) == Prepend(kvs, ReadAll(rest))
  {
    hide ReadLogRecord, LogRecord, Fits;
    if kvs == [] {
      assert LogOf(kvs) + rest == rest;
      NothingBefore(ReadAll(rest));
    } else {
      var before, kv := kvs[..|kvs| - 1], kvs[|kvs| - 1];
      assert LogOf(kvs) + rest == LogOf(before) + (LogRecord(kv) + rest);
      ReadPast(before, LogRecord(kv) + rest);
      LogRecordRoundTrip(kv, rest);
      PrependTwice(before, [kv], ReadAll(rest));
      assert before + [kv] == kvs;
    }
  }

  /** Parsing a log gives back the puts it logged, in order. */
  lemma ReplayRoundTrip(kvs: seq<KV>)
    requires AllFit(kvs)
    ensures ReadAll(LogOf(kvs)) == Parsed(kvs)
  {
    ReadPast(kvs, []);
    assert LogOf(kvs) + [] == LogOf(kvs) && kvs + [] == kvs;
    assert ReadAll([]) == Parsed([]);
  }

  /** A record cut short is an error. */
  lemma CutRecord(kv: KV, c: nat)
    requires Fits(kv) && 0 < c < |LogRecord(kv)|
    ensures ReadLogRecord(LogRecord(kv)[..c]) == Bad
  {
    var p, q, data, buf := PutUvarint(|kv.key|), PutUvarint(|kv.value|), kv.key + kv.value, LogRecord(kv)[..c];
    assert LogRecord(kv) == p + (q + data);
    hide PutUvarint, ReadUvarint;
    if c < |p| {
      assert buf == p[..c];
      CutUvarint(|kv.key|, 0, c);
    } else {
      var d := c - |p|;
      assert buf == p + (q + data)[..d];
      UvarintRoundTrip(|kv.key|, (q + data)[..d]);
      if d < |q| {
        assert (q + data)[..d] == q[..d];
        CutUvarint(|kv.value|, 0, d);
      } else {
        assert (q + data)[..d] == q + data[..d - |q|];
        UvarintRoundTrip(|kv.value|, data[..d - |q|]);
        CutData(kv, d - |q|);
      }
    }
  }

  lemma CutData(kv: KV, c: nat)
    requires c < |kv.key + kv.value|
    ensures var key := Take((kv.key + kv.value)[..c], |kv.key|); key.Got? ==> !Take(key.rest, |kv.value|).Got?
  {
  }

  /** A log that ends inside a record restores with an error, whatever came before. */
  lemma CutLog(kvs: seq<KV>, kv: KV, c: nat)
    requires AllFit(kvs) && Fits(kv) && 0 < c < |LogRecord(kv)|
    ensures ReadAll(LogOf(kvs) + LogRecord(kv)[..c]) == Malformed
  {
    ReadPast(kvs, LogRecord(kv)[..c]);
    CutRecord(kv, c);
    hide LogRecord, ReadLogRecord;
  }

  /** The i-th put is the last one of its key. */
  ghost predicate LastAt(kvs: seq<KV>, kv: KV, i: nat) {
    i < |kvs| && kvs[i] == kv && forall j :: i < j < |kvs| ==> kvs[j].key != kv.key
  }

  lemma LastBefore(kvs: seq<KV>, kv: KV, i: nat)
    requires kvs != [] && kvs[|kvs| - 1].key != kv.key && LastAt(kvs[..|kvs| - 1], kv, i)
    ensures LastAt(kvs, kv, i)
  {
    forall j | i < j < |kvs| ensures kvs[j].key != kv.key { if j < |kvs| - 1 { assert kvs[..|kvs| - 1][j] == kvs[j]; } }
  }

  /** Each key has the value of its last put. */
  lemma {:induction false} ReplayIsLast(kvs: seq<KV>, key: Bytes)
    ensures key in Replay(kvs) <==> exists i :: 0 <= i < |kvs| && kvs[i].key == key
    ensures key in Replay(kvs) ==> exists i :: LastAt(kvs, KV(key, Replay(kvs)[key]), i)
  {
    if kvs != [] {
      var n := |kvs| - 1;
      assert forall i :: 0 <= i < n ==> kvs[..n][i] == kvs[i];
      if kvs[n].key == key {
        assert LastAt(kvs, KV(key, Replay(kvs)[key]), n);
      } else {
        ReplayIsLast(kvs[..n], key);
        assert key in Replay(kvs) <==> key in Replay(kvs[..n]);
        assert key in Replay(kvs) ==> Replay(kvs)[key] == Replay(kvs[..n])[key];
        hide Replay, LastAt;
        if key in Replay(kvs) {
          var i: nat :| LastAt(kvs[..n], KV(key, Replay(kvs)[key]), i);
          LastBefore(kvs, KV(key, Replay(kvs)[key]), i);
        }
      }
    }
  }

  class WALWriter {
    var file: Bytes
    ghost var puts: seq<KV>

    ghost predicate Valid() reads this { AllFit(puts) && file == LogOf(puts) }

    constructor ()
      ensures Valid() && puts == []
    {
      file, puts := [], [];
    }

    method Write(key: Bytes, value: Bytes)
      requires Valid() && Fits(KV(key, value))
      modifies this
      ensures Valid() && puts == old(puts) + [KV(key, value)]
    {
      var buf := PutUvarint(|key|) + PutUvarint(|value|);
      buf := buf + key;
      buf := buf + value;
      file := file + buf;
      puts := puts + [KV(key, value)];
      assert puts[..|puts| - 1] == old(puts);
    }
  }

  /** The parse loop. */
  method ParseLog(body: Bytes) returns (p: Parsed)
    ensures p == ReadAll(body)
  {
    hide ReadLogRecord;
    var buf, kvs := body, [];
    NothingBefore(ReadAll(body));
    while true
      invariant ReadAll(body) == Prepend(kvs, ReadAll(buf))
      decreases |buf|
    {
      var r := ReadLogRecord(buf);
      if r.Eof? { assert kvs + [] == kvs; return Parsed(kvs); }
      if r.Bad? { return Malformed; }
      PrependTwice(kvs, [r.value], ReadAll(r.rest));
      kvs, buf := kvs + [r.value], r.rest;
    }
  }

  /** The replay loop: a well-formed log yields its map, anything else an error. */
  method RestoreToMemtable(body: Bytes) returns (ok: bool, table: map<Bytes, Bytes>)
    ensures ok == ReadAll(body).Parsed?
    ensures ok ==> table == Replay(ReadAll(body).kvs)
  {
    hide ReadAll;
    table := map[];
    var p := ParseLog(body);
    if p.Malformed? { return false, map[]; }
    var kvs := p.kvs;
    for i := 0 to |kvs|
      invariant table == Replay(kvs[..i])
    {
      assert kvs[..i + 1][..i] == kvs[..i];
      table := table[kvs[i].key := kvs[i].value];
    }
    assert kvs[..|kvs|] == kvs;
    ok := true;
  }
}
