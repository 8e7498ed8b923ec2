/** Runs that show compaction. In one the leader has the follower's conflicting term only under its snapshot, and fast
    backup goes back to the start of that term, where the uncompacted log would have stopped at its end. In the other a
    peer is sent a snapshot that it already has. */
module RaftBackupRun {
  import opened RaftTypes
  import opened Quorums
  import opened RaftPeer
  import opened RaftSystem
  import opened RaftStaleness
  import opened RaftStaleRun
  import opened RaftProtocol
  import K = RaftCompaction
  import H = RaftSystemCompaction
  import C = RaftCluster

  // ---------------------------------------------------------------- nine commands on all three, a tenth on peer 0

  lemma StoresNine(s: System, cs: seq<Command>, two: Peer) returns (s': System)
    requires Quiet(s, Leading(cs, 0), Fresh(1), two) && cs != []
    requires C.AppendRequest(1, Carrying(cs, 0)) in s.cluster.net
    ensures Quiet(s', Leading(cs, 0), Followed(1, -1, LogOf(cs), 0, 0), two)
  {
    s' := Follow(s, C.ReceiveAppend(C.AppendRequest(1, Carrying(cs, 0))));
    StoresAll(Fresh(1), cs);
    assert AppendEntries(Fresh(1), Carrying(cs, 0)).0 == Followed(1, -1, LogOf(cs), 0, 0);
  }

  lemma TermOne(cs: seq<Command>, y: Command) returns (s: System)
    requires |cs| == 9
    ensures Quiet(s, Leading(cs + [y], 0), Followed(1, -1, LogOf(cs), 0, 0), Followed(2, 0, LogOf(cs), 0, 0))
  {
    s := Begins();
    s := Asks(s);
    s := Votes(s);
    s := Wins(s);
    assert cs[..0] == [];
    s := StartAll(s, cs, 0);
    s := Sends(s, cs, 0, Fresh(1), Followed(2, 0, [SENTINEL], 0, 0), 2);
    s := Stores(s, cs);
    s := Sends(s, cs, 0, Fresh(1), Followed(2, 0, LogOf(cs), 0, 0), 1);
    s := StoresNine(s, cs, Followed(2, 0, LogOf(cs), 0, 0));
    s := StartOne(s, cs, y, Followed(1, -1, LogOf(cs), 0, 0), Followed(2, 0, LogOf(cs), 0, 0));
  }

  // ---------------------------------------------------------------- peer 2 wins term 2 and commits another tenth

  const ASKED_TWO := RequestVoteArgs(2, 2, 9, 1)

  /** Peer 2 in a term of its own, with the given log and leader state. */
  function Second(term: nat, role: Role, votes: nat, awaiting: set<nat>, log: Log, commit: nat,
                  next: seq<int>, matched: seq<nat>): Peer {
    Peer(3, 2, term, 2, log, 0, 0, commit, 0, next, matched, role, votes, awaiting, [], 0, 0,
         Disk(Saved(term, 2, log, 0, 0), []))
  }

  /** Peer 1 having voted for peer 2. */
  function Voter(term: nat, log: Log): Peer {
    Peer(3, 1, term, 2, log, 0, 0, 0, 0, [0, 0, 0], [0, 0, 0], Follower, 0, {}, [], 0, 0,
         Disk(Saved(term, 2, log, 0, 0), []))
  }

  lemma SecondAsks(s: System, cs: seq<Command>, zero: Peer) returns (s': System)
    requires |cs| == 9 && Quiet(s, zero, Followed(1, -1, LogOf(cs), 0, 0), Followed(2, 0, LogOf(cs), 0, 0))
    ensures Quiet(s', zero, Followed(1, -1, LogOf(cs), 0, 0),
                  Second(2, Candidate, 1, {0, 1}, LogOf(cs), 0, [0, 0, 0], [0, 0, 0]))
    ensures C.VoteRequest(1, ASKED_TWO) in s'.cluster.net
  {
    s' := Follow(s, C.Timeout(2));
    assert 1 in Peers(3);
    assert Peers(3) - {2} == {0, 1};
    assert LogOf(cs)[9].term == 1;
    assert StartElection(Followed(2, 0, LogOf(cs), 0, 0))
        == (Second(2, Candidate, 1, {0, 1}, LogOf(cs), 0, [0, 0, 0], [0, 0, 0]), ASKED_TWO);
  }

  lemma SecondWins(s: System, cs: seq<Command>, zero: Peer) returns (s': System)
    requires |cs| == 9 && C.VoteRequest(1, ASKED_TWO) in s.cluster.net
    requires Quiet(s, zero, Followed(1, -1, LogOf(cs), 0, 0),
                   Second(2, Candidate, 1, {0, 1}, LogOf(cs), 0, [0, 0, 0], [0, 0, 0]))
    ensures Quiet(s', zero, Voter(2, LogOf(cs)), Second(2, Leader, 2, {0}, LogOf(cs), 0, [10, 10, 10], [0, 0, 9]))
  {
    var reply := RequestVoteReply(2, true);
    assert LogOf(cs)[9].term == 1;
    assert RequestVote(Followed(1, -1, LogOf(cs), 0, 0), ASKED_TWO) == (Voter(2, LogOf(cs)), reply);
    var voted := Follow(s, C.ReceiveVote(C.VoteRequest(1, ASKED_TWO)));
    s' := Follow(voted, C.ReceiveVoteReply(C.VoteReply(1, ASKED_TWO, reply)));
    assert {0, 1} - {1} == {0};
    assert OnVoteReply(Second(2, Candidate, 1, {0, 1}, LogOf(cs), 0, [0, 0, 0], [0, 0, 0]), 1, 2, reply)
        == Second(2, Leader, 2, {0}, LogOf(cs), 0, [10, 10, 10], [0, 0, 9]);
  }

  function LogTwo(cs: seq<Command>, z: Command): Log {
    LogOf(cs) + [LogEntry(2, z)]
  }

  function CarryTwo(z: Command): AppendEntriesArgs {
    AppendEntriesArgs(2, 2, 9, 1, [LogEntry(2, z)], 0)
  }

  lemma SecondStarts(s: System, cs: seq<Command>, z: Command, zero: Peer) returns (s': System)
    requires |cs| == 9
    requires Quiet(s, zero, Voter(2, LogOf(cs)), Second(2, Leader, 2, {0}, LogOf(cs), 0, [10, 10, 10], [0, 0, 9]))
    ensures Quiet(s', zero, Voter(2, LogOf(cs)), Second(2, Leader, 2, {0}, LogTwo(cs, z), 0, [10, 10, 11], [0, 0, 10]))
    ensures C.AppendRequest(1, CarryTwo(z)) in s'.cluster.net
  {
    var before := Second(2, Leader, 2, {0}, LogOf(cs), 0, [10, 10, 10], [0, 0, 9]);
    var after := Second(2, Leader, 2, {0}, LogTwo(cs, z), 0, [10, 10, 11], [0, 0, 10]);
    var started := Follow(s, C.ClientStart(2, z));
    assert before.nextIndex[2 := 11] == after.nextIndex && before.matchIndex[2 := 10] == after.matchIndex;
    assert Start(before, z).0 == after;
    s' := Follow(started, C.Replicate(2, 1));
    assert LogTwo(cs, z)[10..] == [LogEntry(2, z)];
    assert LogTwo(cs, z)[9].term == 1;
    assert ReplicateTo(after, 1) == OutAppend(CarryTwo(z));
  }

  const STORED_TWO := AppendEntriesReply(2, true, -1, -1, 10)

  lemma SecondCommits(s: System, cs: seq<Command>, z: Command, zero: Peer) returns (s': System)
    requires |cs| == 9 && C.AppendRequest(1, CarryTwo(z)) in s.cluster.net
    requires Quiet(s, zero, Voter(2, LogOf(cs)), Second(2, Leader, 2, {0}, LogTwo(cs, z), 0, [10, 10, 11], [0, 0, 10]))
    ensures Quiet(s', zero, Voter(2, LogTwo(cs, z)),
                  Second(2, Leader, 2, {0}, LogTwo(cs, z), 10, [10, 11, 11], [0, 10, 10]))
  {
    var stored := Follow(s, C.ReceiveAppend(C.AppendRequest(1, CarryTwo(z))));
    assert LogOf(cs)[9].term == 1;
    assert MergeEntries(LogOf(cs), 10, [LogEntry(2, z)]) == LogTwo(cs, z);
    assert AppendEntries(Voter(2, LogOf(cs)), CarryTwo(z)) == (Voter(2, LogTwo(cs, z)), STORED_TWO);
    s' := Follow(stored, C.ReceiveAppendReply(C.AppendReply(1, CarryTwo(z), STORED_TWO)));
    CommitsTen(cs, z);
  }

  lemma CommitsTen(cs: seq<Command>, z: Command)
    requires |cs| == 9
    ensures OnAppendReply(Second(2, Leader, 2, {0}, LogTwo(cs, z), 0, [10, 10, 11], [0, 0, 10]), 1, CarryTwo(z), STORED_TWO)
         == Second(2, Leader, 2, {0}, LogTwo(cs, z), 10, [10, 11, 11], [0, 10, 10])
  {
    var before := Second(2, Leader, 2, {0}, LogTwo(cs, z), 0, [10, 10, 11], [0, 0, 10]);
    var m: seq<nat> := [0, 10, 10];
    assert before.nextIndex[1 := 11] == [10, 11, 11] && before.matchIndex[1 := 10] == m;
    assert CountMatches(m, 2, 10, 1) == 0;
    assert CountMatches(m, 2, 10, 2) == 1;
    assert CountMatches(m, 2, 10, 3) == 1;
    assert LogTwo(cs, z)[10].term == 2;
  }

  // ---------------------------------------------------------------- it snapshots nine commands and wins again

  function Tail(z: Command): Log {
    [LogEntry(1, Nil), LogEntry(2, z)]
  }

  /** Peer 2 after its restart, with the nine commands under its snapshot. */
  function Restarted(term: nat, role: Role, votes: nat, awaiting: set<nat>, cs: seq<Command>, z: Command,
                     next: seq<int>, matched: seq<nat>): Peer {
    Peer(3, 2, term, 2, Tail(z), 9, 1, 9, 9, next, matched, role, votes, awaiting, cs, 9, 1,
         Disk(Saved(term, 2, Tail(z), 9, 1), cs))
  }

  /** Reachable with these peers, peer 2 at rest after a restart. */
  ghost predicate Again(s: System, zero: Peer, one: Peer, two: Peer) {
    && Reachable(s) && |s.servers| == 3
    && s.cluster.hosts == [Resting(zero), Resting(one), Resting(two)]
  }

  /** Peer 2 has saved its state with the nine commands under the snapshot. */
  ghost predicate Saves(s: System, cs: seq<Command>, z: Command, zero: Peer, one: Peer) {
    && Reachable(s) && |s.servers| == |s.cluster.hosts| == 3
    && s.cluster.hosts[0] == Resting(zero) && s.cluster.hosts[1] == Resting(one)
    && s.cluster.hosts[2].raft.disk == Disk(Saved(2, 2, Tail(z), 9, 1), cs)
  }

  function Committed(cs: seq<Command>, z: Command): Peer {
    Second(2, Leader, 2, {0}, LogTwo(cs, z), 10, [10, 11, 11], [0, 10, 10])
  }

  lemma CommandOf(cs: seq<Command>, z: Command, k: nat)
    requires k < |cs|
    ensures k + 1 < |LogTwo(cs, z)| && LogTwo(cs, z)[k + 1].command == (cs + [z])[k]
  {
    assert LogTwo(cs, z)[k + 1] == LogOf(cs)[k + 1] == Entries(cs)[k];
  }

  lemma SecondReady(cs: seq<Command>, z: Command)
    requires |cs| == 9
    ensures ReadyTo(Resting(Committed(cs, z)), cs + [z], 0, 9)
  {
    var r, all := Committed(cs, z), cs + [z];
    forall k | 0 <= k < 9 ensures r.log[k + 1 - 0].command == all[k] {
      CommandOf(cs, z, k);
    }
  }

  lemma SavesNine(s: System, cs: seq<Command>, z: Command, zero: Peer, one: Peer) returns (s': System)
    requires |cs| == 9 && Quiet(s, zero, one, Committed(cs, z))
    ensures Saves(s', cs, z, zero, one)
  {
    SecondReady(cs, z);
    var fed := DeliverMany(s, 2, cs + [z], 0, 9);
    assert (cs + [z])[..9] == cs;
    NineRequested(cs + [z]);
    s' := Follow(fed, C.ServiceSnapshot(2, 9));
    SnapshotTail(Committed(cs, z).(lastApplied := 9), cs, z);
  }

  lemma SnapshotTail(r: Peer, cs: seq<Command>, z: Command)
    requires |cs| == 9 && WellFormed(r) && r.log == LogTwo(cs, z) && r.lastIncludedIndex == 0
    requires r.currentTerm == 2 && r.votedFor == 2
    ensures Snapshot(r, 9, cs).disk == Disk(Saved(2, 2, Tail(z), 9, 1), cs)
  {
    assert LogTwo(cs, z)[9].term == 1;
    assert [LogEntry(1, Nil)] + LogTwo(cs, z)[10..] == Tail(z);
  }

  lemma Restarts(s: System, cs: seq<Command>, z: Command, zero: Peer, one: Peer) returns (s': System)
    requires |cs| == 9 && Saves(s, cs, z, zero, one)
    ensures Again(s', zero, one, Restarted(2, Follower, 0, {}, cs, z, [0, 0, 0], [0, 0, 0]))
  {
    s' := Follow(s, C.Crash(2));
    assert Make(3, 2, s.cluster.hosts[2].raft.disk) == Restarted(2, Follower, 0, {}, cs, z, [0, 0, 0], [0, 0, 0]);
  }

  const ASKED_THREE := RequestVoteArgs(3, 2, 10, 2)

  lemma ThirdAsks(s: System, cs: seq<Command>, z: Command, zero: Peer, one: Peer) returns (s': System)
    requires |cs| == 9 && Again(s, zero, one, Restarted(2, Follower, 0, {}, cs, z, [0, 0, 0], [0, 0, 0]))
    ensures Again(s', zero, one, Restarted(3, Candidate, 1, {0, 1}, cs, z, [0, 0, 0], [0, 0, 0]))
    ensures C.VoteRequest(1, ASKED_THREE) in s'.cluster.net
  {
    s' := Follow(s, C.Timeout(2));
    assert 1 in Peers(3);
    assert Peers(3) - {2} == {0, 1};
    assert StartElection(Restarted(2, Follower, 0, {}, cs, z, [0, 0, 0], [0, 0, 0]))
        == (Restarted(3, Candidate, 1, {0, 1}, cs, z, [0, 0, 0], [0, 0, 0]), ASKED_THREE);
  }

  lemma ThirdWins(s: System, cs: seq<Command>, z: Command, zero: Peer) returns (s': System)
    requires |cs| == 9 && C.VoteRequest(1, ASKED_THREE) in s.cluster.net
    requires Again(s, zero, Voter(2, LogTwo(cs, z)), Restarted(3, Candidate, 1, {0, 1}, cs, z, [0, 0, 0], [0, 0, 0]))
    ensures Again(s', zero, Voter(3, LogTwo(cs, z)), Restarted(3, Leader, 2, {0}, cs, z, [11, 11, 11], [0, 0, 10]))
  {
    var reply := RequestVoteReply(3, true);
    assert LogTwo(cs, z)[10].term == 2;
    assert RequestVote(Voter(2, LogTwo(cs, z)), ASKED_THREE) == (Voter(3, LogTwo(cs, z)), reply);
    var voted := Follow(s, C.ReceiveVote(C.VoteRequest(1, ASKED_THREE)));
    s' := Follow(voted, C.ReceiveVoteReply(C.VoteReply(1, ASKED_THREE, reply)));
    assert {0, 1} - {1} == {0};
    assert OnVoteReply(Restarted(3, Candidate, 1, {0, 1}, cs, z, [0, 0, 0], [0, 0, 0]), 1, 3, reply)
        == Restarted(3, Leader, 2, {0}, cs, z, [11, 11, 11], [0, 0, 10]);
  }

  // ---------------------------------------------------------------- peer 0 rejects its probe

  const PROBE := AppendEntriesArgs(3, 2, 10, 2, [], 9)
  const REJECTED := AppendEntriesReply(3, false, 1, 1, 11)

  lemma {:induction false} RunOfOnes(cs: seq<Command>, k: nat)
    requires 1 <= k <= |cs|
    ensures RunStart(LogOf(cs), k, 1) == 1
    decreases k
  {
    if k > 1 {
      assert LogOf(cs)[k - 1].term == 1;
      RunOfOnes(cs, k - 1);
    }
  }

  lemma Rejects(s: System, cs: seq<Command>, y: Command, z: Command) returns (s': System)
    requires |cs| == 9
    requires Again(s, Leading(cs + [y], 0), Voter(3, LogTwo(cs, z)),
                   Restarted(3, Leader, 2, {0}, cs, z, [11, 11, 11], [0, 0, 10]))
    ensures Reachable(s') && |s'.servers| == |s'.cluster.hosts| == 3
    ensures s'.cluster.hosts[2].raft == Restarted(3, Leader, 2, {0}, cs, z, [11, 11, 11], [0, 0, 10])
    ensures C.AppendReply(0, PROBE, REJECTED) in s'.cluster.net
  {
    var two := Restarted(3, Leader, 2, {0}, cs, z, [11, 11, 11], [0, 0, 10]);
    var sent := Follow(s, C.Replicate(2, 0));
    assert Tail(z)[2..] == [];
    assert ReplicateTo(two, 0) == OutAppend(PROBE);
    s' := Follow(sent, C.ReceiveAppend(C.AppendRequest(0, PROBE)));
    RunOfOnes(cs + [y], 10);
    assert LogOf(cs + [y])[10].term == 1;
    assert AppendEntries(Leading(cs + [y], 0), PROBE).1 == REJECTED;
  }

  /** Whatever the log is that peer 2 compacted, it had term 1 at index 9 and term 2 at index 10. */
  lemma Differs(r: Peer, cs: seq<Command>, z: Command, whole: Log)
    requires |cs| == 9 && r == Restarted(3, Leader, 2, {0}, cs, z, [11, 11, 11], [0, 0, 10]) && K.LogCompacts(r, whole)
    ensures WellFormed(r) && K.HiddenConflict(r, whole, REJECTED)
    ensures OnAppendReply(r, 0, PROBE, REJECTED).nextIndex == [1, 11, 11]
    ensures OnAppendReply(K.Expand(r, whole), 0, PROBE, REJECTED).nextIndex == [10, 11, 11]
  {
    var full := [LogEntry(0, Nil)] + whole;
    K.SameEnd(r, whole);
    assert TermAtIndex(r, 9) == full[9].term == 1 && TermAtIndex(r, 10) == full[10].term == 2;
    assert LastSlotOfTerm(full, 10, 1) == LastSlotOfTerm(full, 9, 1) == 9;
    K.BackedSame(r, whole, 0, PROBE, REJECTED);
  }

  /** A reachable leader and a reply to it: on the compacted log nextIndex goes back to 1, on the run's uncompacted log
      to 10. */
  lemma BackupShowsCompaction(cs: seq<Command>, y: Command, z: Command)
    returns (run: seq<System>, steps: seq<C.Step>, m: C.Message, shadow: seq<C.Cluster>, ws: seq<C.Step>,
             specs: seq<Spec>, acts: seq<seq<Action>>)
    requires |cs| == 9
    ensures H.SystemHistory(run, steps, shadow, ws, specs, acts)
    ensures m.AppendReply? && m.append.leaderId == 2 && m.from == 0 && Enabled(Last(run), C.ReceiveAppendReply(m))
    ensures var r, whole := Last(run).cluster.hosts[2].raft, K.WholeAt(specs, |steps|, 2);
            && WellFormed(r) && r.n == 3 && K.LogCompacts(r, whole)
            && K.BacksUp(r, m.append, m.appendReply) && K.HiddenConflict(r, whole, m.appendReply)
            && OnAppendReply(r, 0, m.append, m.appendReply).nextIndex == [1, 11, 11]
            && OnAppendReply(K.Expand(r, whole), 0, m.append, m.appendReply).nextIndex == [10, 11, 11]
  {
    var s := Rejected(cs, y, z);
    m := C.AppendReply(0, PROBE, REJECTED);
    run, steps :| IsRun(run, steps) && Last(run) == s;
    shadow, ws, specs, acts := H.HistoryExists(run, steps);
    H.Standing(run, steps, shadow, ws, specs, acts, |steps|, 2);
    Differs(s.cluster.hosts[2].raft, cs, z, K.WholeAt(specs, |steps|, 2));
  }

  lemma Rejected(cs: seq<Command>, y: Command, z: Command) returns (s: System)
    requires |cs| == 9
    ensures Reachable(s) && |s.servers| == |s.cluster.hosts| == 3
    ensures s.cluster.hosts[2].raft == Restarted(3, Leader, 2, {0}, cs, z, [11, 11, 11], [0, 0, 10])
    ensures C.AppendReply(0, PROBE, REJECTED) in s.cluster.net
  {
    s := TermOne(cs, y);
    var zero := Leading(cs + [y], 0);
    s := SecondAsks(s, cs, zero);
    s := SecondWins(s, cs, zero);
    s := SecondStarts(s, cs, z, zero);
    s := SecondCommits(s, cs, z, zero);
    s := SavesNine(s, cs, z, zero, Voter(2, LogTwo(cs, z)));
    s := Restarts(s, cs, z, zero, Voter(2, LogTwo(cs, z)));
    s := ThirdAsks(s, cs, z, zero, Voter(2, LogTwo(cs, z)));
    s := ThirdWins(s, cs, z, zero);
    s := Rejects(s, cs, y, z);
  }

  // ---------------------------------------------------------------- a snapshot again

  /** A reachable peer to which a snapshot that it already has comes again: the compacted peer ignores it, the uncompacted
      one would queue it. Restarted there, the compacted peer starts at index 9 and the uncompacted one at 0. */
  lemma InstallShowsCompaction(cs: seq<Command>)
    returns (run: seq<System>, steps: seq<C.Step>, m: C.Message, shadow: seq<C.Cluster>, ws: seq<C.Step>,
             specs: seq<Spec>, acts: seq<seq<Action>>)
    requires |cs| == 19
    ensures H.SystemHistory(run, steps, shadow, ws, specs, acts)
    ensures m.InstallRequest? && m.to == 1 && Enabled(Last(run), C.ReceiveInstall(m))
    ensures var r, whole := Last(run).cluster.hosts[1].raft, K.WholeAt(specs, |steps|, 1);
            && WellFormed(r) && K.LogCompacts(r, whole)
            && m.install.term == r.currentTerm && m.install.lastIncludedIndex == r.lastIncludedIndex == 9
            && InstallSnapshot(r, m.install).0.pendingSnapshot == []
            && InstallSnapshot(K.Expand(r, whole), m.install).0.pendingSnapshot == cs[..9]
            && Make(3, 1, r.disk).commitIndex == 9 && Make(3, 1, K.Expand(r, whole).disk).commitIndex == 0
  {
    var s := NineThenTen(cs);
    s := TakesBack(s, cs);
    m := C.InstallRequest(1, Shipped(cs));
    run, steps :| IsRun(run, steps) && Last(run) == s;
    shadow, ws, specs, acts := H.HistoryExists(run, steps);
    H.Standing(run, steps, shadow, ws, specs, acts, |steps|, 1);
    H.InstallSnapshotSame(run, steps, shadow, ws, specs, acts, |steps|, m);
  }
}
