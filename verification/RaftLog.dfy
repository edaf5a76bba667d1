/** The log of apps/raft_demo/raft/log.go and storage.go as it is kept: a persisted part with a dummy entry
    in front and an unpersisted part that may overlap it. Every method is proved against the flat log. */
module RaftLog {
  import opened RaftTypes
  import opened RaftFlatLog

  datatype Stored<+T> = Found(value: T) | ErrCompacted | ErrUnavailable

  /** Entries numbered consecutively from first, all with a real term. */
  ghost predicate Numbered(es: seq<Entry>, first: nat) {
    forall i :: 0 <= i < |es| ==> es[i].index == first + i && 1 <= es[i].term
  }

  class MemoryStorage {
    var hardState: HardState
    var entries: seq<Entry>

    ghost predicate Valid()
      reads this
    {
      |entries| >= 1 && Numbered(entries[1..], entries[0].index + 1)
    }

    constructor ()
      ensures Valid() && |entries| == 1 && entries[0].index == 0 && entries[0].term == 0
    {
      hardState := HardState(0, NONE, 0);
      entries := [Entry(0, 0, EntryNormal, [])];
    }

    function FirstIndex(): nat
      requires Valid()
      reads this
    {
      entries[0].index + 1
    }

    function LastIndex(): nat
      requires Valid()
      reads this
    {
      entries[0].index + |entries| - 1
    }

    /** Entries with index in [l, r): exactly those the storage holds, or an error. */
    function Entries(l: nat, r: nat): (res: Stored<seq<Entry>>)
      requires Valid() && l <= r
      reads this
      ensures res.Found? <==> FirstIndex() <= l && r <= LastIndex() + 1 && FirstIndex() <= LastIndex()
      ensures res.Found? ==> Numbered(res.value, l) && |res.value| == r - l && forall e :: e in res.value ==> e in entries
    {
      var offset := entries[0].index;
      if l <= offset then ErrCompacted
      else if r > LastIndex() + 1 then ErrUnavailable
      else if |entries| == 1 then ErrUnavailable
      else
        assert forall i :: l - offset <= i < r - offset ==> entries[i] == entries[1..][i - 1];
        Found(entries[l - offset..r - offset])
    }

    function Term(i: nat): (res: Stored<nat>)
      requires Valid()
      reads this
      ensures res.Found? <==> entries[0].index <= i <= LastIndex()
      ensures res.Found? ==> exists e :: e in entries && e.index == i && e.term == res.value
    {
      var offset := entries[0].index;
      if i < offset then ErrCompacted
      else if i - offset >= |entries| then ErrUnavailable
      else
        assert i > offset ==> entries[i - offset] == entries[1..][i - offset - 1];
        Found(entries[i - offset].term)
    }

    /** Persist a batch, truncating any conflicting suffix; an older batch is ignored and a gap is an error. A
        batch that starts at the dummy entry's own index replaces the dummy too. */
    method Append(es: seq<Entry>) returns (err: Stored<bool>)
      requires Valid() && (es != [] ==> Numbered(es, es[0].index))
      modifies this`entries
      ensures Valid() && entries[0].index == old(entries[0].index)
      ensures es == [] || es[0].index != old(entries[0].index) ==> entries[0] == old(entries[0])
      ensures es == [] || es[0].index < old(entries[0].index) ==> entries == old(entries) && err == Found(true)
      ensures es != [] && old(entries[0].index) <= es[0].index <= old(LastIndex()) + 1 ==>
                err == Found(true) && entries == old(entries)[..es[0].index - old(entries[0].index)] + es
      ensures es != [] && es[0].index > old(LastIndex()) + 1 ==> err == ErrUnavailable && entries == old(entries)
    {
      if |es| == 0 { return Found(true); }
      var first, offset := es[0].index, entries[0].index;
      if first < offset { return Found(true); }
      if first > LastIndex() + 1 { return ErrUnavailable; }
      ghost var before := entries;
      entries := entries[..first - offset] + es;
      assert Numbered(entries[1..], offset + 1) by {
        forall i | 0 <= i < |entries[1..]| ensures entries[1..][i].index == offset + 1 + i && 1 <= entries[1..][i].term {
          if i + 1 < first - offset { assert entries[i + 1] == before[1..][i]; }
          else { assert entries[i + 1] == es[i + 1 - (first - offset)]; }
        }
      }
      return Found(true);
    }

    method SetHardState(hs: HardState)
      modifies this`hardState
      ensures hardState == hs
    {
      hardState := hs;
    }
  }

  class Unstable {
    var entries: seq<Entry>
    var offset: nat

    constructor (offset: nat)
      ensures this.offset == offset && entries == []
    {
      this.offset := offset;
      entries := [];
    }

    ghost predicate Valid()
      reads this
    {
      1 <= offset && Numbered(entries, offset)
    }

    function Slice(l: nat, r: nat): seq<Entry>
      requires offset <= l <= r <= offset + |entries|
      reads this
    {
      entries[l - offset..r - offset]
    }

    /** What follows the first new index is replaced; below the offset the whole part is. */
    method TruncateAndAppend(es: seq<Entry>)
      requires Valid() && es != [] && 1 <= es[0].index <= offset + |entries| && Numbered(es, es[0].index)
      modifies this
      ensures Valid() && entries != [] && offset == Min(old(offset), es[0].index)
      ensures entries == (if es[0].index <= old(offset) then es else old(entries)[..es[0].index - old(offset)] + es)
    {
      var after := es[0].index;
      ghost var kept := if after <= offset then [] else entries[..after - offset];
      if after == offset + |entries| {
        assert entries[..after - offset] == entries;
        entries := entries + es;
      } else if after <= offset {
        offset := after;
        entries := es;
      } else {
        entries := Slice(offset, after) + es;
      }
    }

    function MaybeLastIndex(): (nat, bool)
      requires Valid()
      reads this
    {
      if |entries| != 0 then (offset + |entries| - 1, true) else (0, false)
    }

    function MaybeTerm(i: nat): (r: (nat, bool))
      requires Valid()
      reads this
      ensures r.1 <==> offset <= i < offset + |entries|
      ensures r.1 ==> r.0 == entries[i - offset].term
    {
      if i < offset then (0, false)
      else
        var (last, ok) := MaybeLastIndex();
        if !ok || i > last then (0, false) else (entries[i - offset].term, true)
    }

    method StableTo(i: nat, t: nat)
      requires Valid()
      modifies this
      ensures Valid()
      ensures if Holds(old(offset), old(entries), i, t)
              then offset == i + 1 && entries == old(entries)[i + 1 - old(offset)..]
              else offset == old(offset) && entries == old(entries)
    {
      var (gt, ok) := MaybeTerm(i);
      if !ok { return; }
      if t == gt && i >= offset {
        ghost var was := entries;
        entries := entries[i - offset + 1..];
        offset := i + 1;
      }
    }

    /** Index i is unpersisted and carries term t. */
    static predicate Holds(offset: nat, entries: seq<Entry>, i: nat, t: nat) {
      offset <= i < offset + |entries| && entries[i - offset].term == t
    }
  }

  class LogStore {
    const storage: MemoryStorage
    const unstable: Unstable
    var commitIndex: nat
    var applyIndex: nat

    ghost const Repr: set<object> := {this, storage, unstable}

    ghost predicate Valid()
      reads this, storage, unstable
    {
      && storage.Valid() && unstable.Valid() && storage.entries[0].index == 0 && storage.entries[0].term == 0
      && unstable.offset <= |storage.entries|
      && (unstable.entries == [] ==> unstable.offset == |storage.entries|)
    }

    /** The one log both parts denote: what is persisted below the offset, then the unpersisted part. */
    ghost function Flat(): Log
      requires Valid()
      reads this, storage, unstable
    {
      storage.entries[1..unstable.offset] + unstable.entries
    }

    constructor (storage: MemoryStorage)
      requires storage.Valid() && storage.entries[0].index == 0 && storage.entries[0].term == 0
      ensures Valid() && this.storage == storage && fresh(unstable)
      ensures Flat() == storage.entries[1..] && commitIndex == 0 && applyIndex == 0
    {
      this.storage := storage;
      unstable := new Unstable(storage.LastIndex() + 1);
      commitIndex := storage.FirstIndex() - 1;
      applyIndex := storage.FirstIndex() - 1;
    }

    lemma FlatNumbered()
      requires Valid()
      ensures Numbered(Flat(), 1)
    {
      forall i | 0 <= i < |Flat()| ensures Flat()[i].index == i + 1 && 1 <= Flat()[i].term {
        if i + 1 < unstable.offset { assert Flat()[i] == storage.entries[1..][i]; }
        else { assert Flat()[i] == unstable.entries[i + 1 - unstable.offset]; }
      }
    }

    function LastIndex(): (i: nat)
      requires Valid()
      reads this, storage, unstable
      ensures i == |Flat()|
    {
      var (i, ok) := unstable.MaybeLastIndex();
      if ok then i else storage.LastIndex()
    }

    /** The term comes from whichever part holds the index; 0 outside the log. */
    function Term(i: nat): (t: nat)
      requires Valid()
      reads this, storage, unstable
      ensures t == TermAt(Flat(), i)
    {
      if i > LastIndex() then 0
      else
        var (t, ok) := unstable.MaybeTerm(i);
        if ok && t != 0 then
          assert Flat()[i - 1] == unstable.entries[i - unstable.offset];
          t
        else
          assert i < unstable.offset;
          assert i > 0 ==> Flat()[i - 1] == storage.entries[i];
          storage.Term(i).value
    }

    function LastTerm(): (t: nat)
      requires Valid()
      reads this, storage, unstable
      ensures t == RaftFlatLog.LastTerm(Flat())
    {
      Term(LastIndex())
    }

    predicate IsUpToDate(index: nat, term: nat)
      requires Valid()
      reads this, storage, unstable
      ensures IsUpToDate(index, term) == UpToDate(Flat(), index, term)
    {
      term > LastTerm() || (term == LastTerm() && index >= LastIndex())
    }

    predicate MatchTerm(i: nat, t: nat)
      requires Valid()
      reads this, storage, unstable
      ensures MatchTerm(i, t) == RaftFlatLog.MatchTerm(Flat(), i, t)
    {
      Term(i) == t
    }

    static lemma ShiftedSlice(entries: seq<Entry>, mid: nat, lo: nat, hi: nat)
      requires 1 <= lo <= hi <= mid <= |entries|
      ensures entries[1..mid][lo - 1..hi - 1] == entries[lo..hi]
    {
      var s := entries[1..mid];
      forall i | 0 <= i < hi - lo ensures s[lo - 1..hi - 1][i] == entries[lo..hi][i] { assert s[lo - 1 + i] == entries[lo + i]; }
    }

    /** Entries with index in [lo, hi), gathered from the two parts. */
    method Slice(lo: nat, hi: nat) returns (es: seq<Entry>)
      requires Valid() && 1 <= lo <= hi <= |Flat()| + 1
      ensures es == Flat()[lo - 1..hi - 1]
    {
      if lo == hi { return []; }
      es := [];
      var mid := unstable.offset;
      ghost var stored := storage.entries[1..mid];
      SliceOfParts(stored, unstable.entries, mid, lo, hi);
      hide Numbered;
      if lo < mid {
        es := StoredSlice(lo, Min(mid, hi));
      }
      if hi > mid {
        es := es + unstable.Slice(Max(lo, mid), hi);
      }
    }

    method StoredSlice(lo: nat, top: nat) returns (es: seq<Entry>)
      requires Valid() && 1 <= lo <= top <= unstable.offset && lo < unstable.offset
      ensures es == storage.entries[1..unstable.offset][lo - 1..top - 1]
    {
      var stable := storage.Entries(lo, top);
      es := stable.value;
      ShiftedSlice(storage.entries, unstable.offset, lo, top);
    }

    /** A slice of two parts is a slice of the first and one of the second. */
    static lemma SliceOfParts(a: seq<Entry>, b: seq<Entry>, mid: nat, lo: nat, hi: nat)
      requires |a| == mid - 1 && 1 <= lo < hi <= |a| + |b| + 1
      ensures (a + b)[lo - 1..hi - 1]
           == (if lo < mid then a[lo - 1..Min(mid, hi) - 1] else []) + if hi > mid then b[Max(lo, mid) - mid..hi - mid] else []
    {
    }

    /** Everything from index i on. */
    method Entries(i: nat) returns (es: seq<Entry>)
      requires Valid() && 1 <= i
      ensures es == if i > |Flat()| then [] else Flat()[i - 1..]
    {
      if i > LastIndex() { return []; }
      es := Slice(i, LastIndex() + 1);
    }

    method FindConflict(es: seq<Entry>) returns (c: nat)
      requires Valid()
      ensures c == RaftFlatLog.FindConflict(Flat(), es)
    {
      var i := 0;
      while i < |es|
        invariant 0 <= i <= |es| && RaftFlatLog.FindConflict(Flat(), es) == RaftFlatLog.FindConflict(Flat(), es[i..])
      {
        if !MatchTerm(es[i].index, es[i].term) { return es[i].index; }
        assert es[i..][1..] == es[i + 1..];
        i := i + 1;
      }
      return 0;
    }

    /** Only the unpersisted part changes, whichever part the first new index falls in. */
    method Append(es: seq<Entry>) returns (last: nat)
      requires Valid() && RaftFlatLog.Append(Flat(), commitIndex, es).Ok?
      requires es != [] ==> Numbered(es, es[0].index)
      modifies unstable
      ensures Valid() && Flat() == RaftFlatLog.Append(old(Flat()), commitIndex, es).value && last == |Flat()|
      ensures unstable.offset <= old(unstable.offset) && (old(unstable.entries) != [] ==> unstable.entries != [])
    {
      if |es| == 0 { return LastIndex(); }
      ghost var flat, off, ents := Flat(), unstable.offset, unstable.entries;
      unstable.TruncateAndAppend(es);
      var after := es[0].index;
      if after <= off {
        assert Flat() == storage.entries[1..after] + es;
        assert flat[..after - 1] == storage.entries[1..after];
      } else {
        assert flat[..after - 1] == storage.entries[1..off] + ents[..after - off];
      }
      return LastIndex();
    }

    method CommitTo(to: nat)
      requires Valid() && RaftFlatLog.CommitTo(Flat(), commitIndex, to).Ok?
      modifies this`commitIndex
      ensures Valid() && Flat() == old(Flat()) && commitIndex == RaftFlatLog.CommitTo(old(Flat()), old(commitIndex), to).value
    {
      if commitIndex >= to { return; }
      commitIndex := to;
    }

    method MaybeCommit(maxIndex: nat, term: nat) returns (done: bool)
      requires Valid() && 1 <= term
      modifies this`commitIndex
      ensures Valid() && Flat() == old(Flat())
      ensures done <==> maxIndex > old(commitIndex) && TermAt(Flat(), maxIndex) == term
      ensures commitIndex == if done then maxIndex else old(commitIndex)
    {
      if maxIndex > commitIndex && Term(maxIndex) == term {
        CommitTo(maxIndex);
        return true;
      }
      return false;
    }

    lemma FirstIndexOf(es: seq<Entry>, first: nat)
      requires Numbered(es, first) && es != []
      ensures es[0].index == first
    {
    }

    lemma SuffixNumbered(es: seq<Entry>, first: nat, k: nat)
      requires Numbered(es, first) && k <= |es|
      ensures Numbered(es[k..], first + k)
    {
    }

    method MaybeAppend(logIndex: nat, logTerm: nat, leaderCommit: nat, es: seq<Entry>) returns (lastNew: nat, ok: bool)
      requires Valid() && RaftFlatLog.MaybeAppend(Flat(), commitIndex, logIndex, logTerm, leaderCommit, es).Ok?
      requires Numbered(es, logIndex + 1)
      modifies this`commitIndex, unstable
      ensures Valid() && unstable.offset <= old(unstable.offset) && (old(unstable.entries) != [] ==> unstable.entries != [])
      ensures match RaftFlatLog.MaybeAppend(old(Flat()), old(commitIndex), logIndex, logTerm, leaderCommit, es).value
              case Rejected => !ok && Flat() == old(Flat()) && commitIndex == old(commitIndex)
              case Accepted(log, commit, n) => ok && Flat() == log && commitIndex == commit && lastNew == n
    {
      hide Numbered, RaftFlatLog.FindConflict;
      if !MatchTerm(logIndex, logTerm) { return 0, false; }
      lastNew := logIndex + |es|;
      var conflict := FindConflict(es);
      if conflict != 0 {
        var suffix := es[conflict - (logIndex + 1)..];
        SuffixNumbered(es, logIndex + 1, conflict - (logIndex + 1));
        assert suffix[0].index == conflict by { FirstIndexOf(suffix, conflict); }
        var last := Append(suffix);
      }
      CommitTo(Min(leaderCommit, lastNew));
      ok := true;
    }

    method AppliedTo(i: nat)
      requires Valid() && (i != 0 ==> applyIndex <= i <= commitIndex)
      modifies this`applyIndex
      ensures Valid() && Flat() == old(Flat()) && applyIndex == if i == 0 then old(applyIndex) else i
    {
      if i == 0 { return; }
      applyIndex := i;
    }

    /** Committed entries not applied yet. */
    method NextEntries() returns (es: seq<Entry>)
      requires Valid() && commitIndex <= |Flat()|
      ensures es == if commitIndex <= applyIndex then [] else Flat()[applyIndex..commitIndex]
    {
      var off := Max(applyIndex + 1, storage.FirstIndex());
      if commitIndex + 1 > off {
        es := Slice(off, commitIndex + 1);
      } else {
        es := [];
      }
    }

    /** A batch taken from the unpersisted part when the log was `was`, with only appends since. */
    ghost predicate BatchOf(batch: seq<Entry>, was: Log)
      requires Valid()
      reads this, storage, unstable
    {
      && batch != [] && |batch| <= |was| && was[|was| - |batch|..] == batch && Numbered(was, 1)
      && |was| - |batch| + 1 <= |storage.entries|
      && storage.entries[1..|was| - |batch| + 1] == was[..|was| - |batch|]
      && unstable.offset <= |was| - |batch| + 1 && unstable.entries != []
    }

    /** Persisting a Ready batch on Advance: storage then holds the log as it was at the Ready, and the
        log as it is now does not change, even if it was truncated or replaced in between. */
    method Persist(batch: seq<Entry>, ghost was: Log)
      requires Valid() && BatchOf(batch, was)
      requires forall k :: 1 <= k <= |was| && k <= |Flat()| && was[k - 1].term == Flat()[k - 1].term ==> was[..k] == Flat()[..k]
      modifies storage`entries, unstable
      ensures Valid() && Flat() == old(Flat()) && storage.entries[1..] == was
    {
      hide Numbered;
      ghost var flat := Flat();
      BatchNumbered(was, batch);
      Store(batch, was);
      ghost var off, ents := unstable.offset, unstable.entries;
      var last := batch[|batch| - 1];
      unstable.StableTo(last.index, last.term);
      if unstable.offset != off {
        StableSplit(storage.entries, was, flat, off, ents);
      }
    }

    /** The batch goes into storage; the part that is in use stays. */
    method Store(batch: seq<Entry>, ghost was: Log)
      requires Valid() && BatchOf(batch, was)
      modifies storage`entries
      ensures Valid() && Flat() == old(Flat()) && storage.entries[1..] == was
    {
      hide Numbered;
      ghost var flat, first, stored := Flat(), |was| - |batch| + 1, storage.entries;
      BatchNumbered(was, batch);
      var err := storage.Append(batch);
      assert storage.entries[1..] == was by { assert stored[1..first] + batch == was; }
      assert storage.entries[1..unstable.offset] == stored[1..unstable.offset];
    }

    static lemma BatchNumbered(was: Log, batch: seq<Entry>)
      requires Numbered(was, 1) && 0 < |batch| <= |was| && was[|was| - |batch|..] == batch
      ensures Numbered(batch, |was| - |batch| + 1) && batch[0].index == |was| - |batch| + 1
      ensures batch[|batch| - 1] == was[|was| - 1] && batch[|batch| - 1].index == |was|
    {
      assert forall i :: 0 <= i < |batch| ==> batch[i] == was[|was| - |batch| + i];
    }

    /** When the last batch entry is still in the log, everything up to it may move to the persisted part. */
    static lemma StableSplit(stored: seq<Entry>, was: Log, flat: Log, off: nat, ents: seq<Entry>)
      requires 1 <= off <= |stored| && stored[1..] == was && flat == stored[1..off] + ents
      requires off <= |was| < off + |ents| && ents[|was| - off].term == was[|was| - 1].term
      requires forall k :: 1 <= k <= |was| && k <= |flat| && was[k - 1].term == flat[k - 1].term ==> was[..k] == flat[..k]
      ensures |was| + 1 <= |stored| && stored[1..|was| + 1] + ents[|was| + 1 - off..] == flat
    {
      var k := |was|;
      assert flat[k - 1] == ents[k - off];
      assert flat[..k] == was[..k] == was;
      assert flat[k..] == ents[k + 1 - off..];
      assert flat == flat[..k] + flat[k..];
    }
  }
}
