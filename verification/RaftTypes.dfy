/** Log entries, roles and pure log arithmetic shared by every part of the Raft model.
    Logs are sequences whose entry for log index k is at offset k - 1. */
module RaftTypes {

  /** A client command; `Nil` is the absent command held by the sentinel entry. */
  datatype Command = Nil | Command(text: string)

  datatype LogEntry = LogEntry(term: nat, command: Command)

  datatype Role = Follower | Candidate | Leader

  type Log = seq<LogEntry>

  /** The term at log index k; index 0 carries term 0. */
  function TermAt(log: Log, k: nat): nat
    requires k <= |log|
  {
    if k == 0 then 0 else log[k - 1].term
  }

  function LastTerm(log: Log): nat {
    TermAt(log, |log|)
  }

  /** The election restriction of section 5.4.1 of the Raft paper. */
  predicate UpToDate(candidate: Log, voter: Log) {
    || LastTerm(candidate) > LastTerm(voter)
    || (LastTerm(candidate) == LastTerm(voter) && |candidate| >= |voter|)
  }

  /** What storing the log `msg` of a leader into `log` must yield. */
  function Merge(log: Log, msg: Log): (merged: Log)
    ensures msg <= merged
  {
    if msg <= log then log else msg
  }

  function Max(a: nat, b: nat): nat { if a < b then b else a }

  function Min(a: nat, b: nat): nat { if a < b then a else b }

  /** The commands of a log, which is what a service snapshot of it holds. */
  function Commands(log: Log): (cs: seq<Command>)
    ensures |cs| == |log|
  {
    seq(|log|, i requires 0 <= i < |log| => log[i].command)
  }

  /** A prefix common to the old log and the leader's log survives a merge. */
  lemma MergeKeeps(x: Log, log: Log, msg: Log, leaderLog: Log)
    requires x <= log && x <= leaderLog && msg <= leaderLog
    ensures x <= Merge(log, msg)
  {
    if |msg| <= |x| {
      PrefixesComparable(msg, x, leaderLog);
      PrefixTrans(msg, x, log);
    } else {
      PrefixesComparable(x, msg, leaderLog);
    }
  }

  lemma PrefixTrans(x: Log, y: Log, z: Log)
    requires x <= y && y <= z
    ensures x <= z
  {
    assert x == y[..|x|] == z[..|x|];
  }

  /** Two prefixes of one log are comparable. */
  lemma PrefixesComparable(x: Log, y: Log, z: Log)
    requires x <= z && y <= z && |x| <= |y|
    ensures x <= y
  {
    assert x == z[..|x|] == y[..|x|];
  }
}
