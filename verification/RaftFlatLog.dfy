/** What apps/raft_demo/raft/log.go computes, on a flat log that starts at index 1. */
module RaftFlatLog {
  import opened RaftTypes

  function Min(a: nat, b: nat): nat { if a <= b then a else b }
  function Max(a: nat, b: nat): nat { if a <= b then b else a }

  /** Term of the entry at index i; 0 for the dummy index 0 and past the end. */
  function TermAt(log: Log, i: nat): nat {
    if i == 0 || i > |log| then 0 else log[i - 1].term
  }

  function LastTerm(log: Log): nat { TermAt(log, |log|) }

  predicate UpToDate(log: Log, index: nat, term: nat) {
    term > LastTerm(log) || (term == LastTerm(log) && index >= |log|)
  }

  predicate MatchTerm(log: Log, i: nat, t: nat) { TermAt(log, i) == t }

  /** Index of the first entry the log does not hold with the same term, or 0. */
  function FindConflict(log: Log, es: seq<Entry>): nat {
    if es == [] then 0
    else if MatchTerm(log, es[0].index, es[0].term) then FindConflict(log, es[1..])
    else es[0].index
  }

  /** Truncate at the first new entry and append; panics below the commit index and beyond the end. */
  function Append(log: Log, commit: nat, es: seq<Entry>): Outcome<Log> {
    if es == [] then Ok(log)
    else if es[0].index == 0 || es[0].index - 1 < commit || es[0].index - 1 > |log| then Panic
    else Ok(log[..es[0].index - 1] + es)
  }

  function CommitTo(log: Log, commit: nat, to: nat): Outcome<nat> {
    if commit >= to then Ok(commit) else if |log| < to then Panic else Ok(to)
  }

  datatype AppendResult = Rejected | Accepted(log: Log, commit: nat, lastNew: nat)

  function MaybeAppend(log: Log, commit: nat, logIndex: nat, logTerm: nat, leaderCommit: nat, es: seq<Entry>)
    : Outcome<AppendResult>
  {
    if !MatchTerm(log, logIndex, logTerm) then Ok(Rejected)
    else
      var lastNew := logIndex + |es|;
      var conflict := FindConflict(log, es);
      var log' :- if conflict == 0 then Ok(log)
                  else if conflict <= commit then Panic
                  else if conflict <= logIndex || conflict > logIndex + |es| then Panic
                  else Append(log, commit, es[conflict - (logIndex + 1)..]);
      var commit' :- CommitTo(log', commit, Min(leaderCommit, lastNew));
      Ok(Accepted(log', commit', lastNew))
  }
}
