/** The Raft peer as the object the implementation has: fields updated in place, loops where it loops.
    Every method is one critical section and is proved to do what the step function of `RaftPeer` says. */
module RaftNode {
  import opened RaftTypes
  import opened Quorums
  import P = RaftPeer
  import opened RaftPeer

  /** Stable storage. Saving replaces state and snapshot together. */
  class Persister {
    var raftstate: RaftState
    var snapshot: seq<Command>

    constructor ()
      ensures raftstate == Unsaved && snapshot == []
    {
      raftstate, snapshot := Unsaved, [];
    }

    function Contents(): Disk
      reads this
    {
      Disk(raftstate, snapshot)
    }

    method Save(state: RaftState, snap: seq<Command>)
      modifies this
      ensures Contents() == Disk(state, snap)
    {
      raftstate, snapshot := state, snap;
    }

    /** A copy for the next incarnation, which later saves here do not reach. */
    method Checkpoint() returns (copy: Persister)
      ensures fresh(copy) && copy.Contents() == Contents()
    {
      copy := new Persister();
      copy.Save(raftstate, snapshot);
    }
  }

  class Raft {
    const n: nat
    const me: nat
    const persister: Persister
    const nextIndex: array<int>
    const matchIndex: array<nat>
    var currentTerm: nat
    var votedFor: int
    var log: Log
    var lastIncludedIndex: nat
    var lastIncludedTerm: nat
    var commitIndex: nat
    var lastApplied: nat
    var role: Role
    var votes: nat
    var awaiting: set<nat>
    var pendingSnapshot: seq<Command>
    var pendingSnapshotIndex: nat
    var pendingSnapshotTerm: nat

    ghost predicate Valid()
      reads this
    {
      me < n && |log| >= 1 && nextIndex.Length == n && matchIndex.Length == n && nextIndex as object != matchIndex
    }

    /** The peer as a value. */
    ghost function State(): Peer
      reads this, persister, nextIndex, matchIndex
    {
      Peer(n, me, currentTerm, votedFor, log, lastIncludedIndex, lastIncludedTerm, commitIndex, lastApplied,
           nextIndex[..], matchIndex[..], role, votes, awaiting,
           pendingSnapshot, pendingSnapshotIndex, pendingSnapshotTerm, persister.Contents())
    }

    /** Make: a fresh peer, or one restored from what its persister holds. */
    constructor (n: nat, me: nat, persister: Persister)
      requires me < n && (persister.raftstate.Saved? ==> |persister.raftstate.log| >= 1)
      ensures Valid() && fresh(nextIndex) && fresh(matchIndex) && this.persister == persister
      ensures State() == P.Make(n, me, persister.Contents())
    {
      this.n, this.me, this.persister := n, me, persister;
      role, votedFor, currentTerm, log := Follower, -1, 0, [LogEntry(0, Nil)];
      lastIncludedIndex, lastIncludedTerm, commitIndex, lastApplied := 0, 0, 0, 0;
      votes, awaiting := 0, {};
      pendingSnapshot, pendingSnapshotIndex, pendingSnapshotTerm := [], 0, 0;
      nextIndex := new int[n](_ => 0);
      matchIndex := new nat[n](_ => 0);
      new;
      ReadPersist();
      if lastIncludedIndex > 0 && persister.snapshot != [] {
        QueueSnapshot(persister.snapshot, lastIncludedIndex, lastIncludedTerm);
      }
    }

    method ReadPersist()
      requires Valid() && (persister.raftstate.Saved? ==> |persister.raftstate.log| >= 1)
      modifies this
      ensures Valid()
      ensures var d := persister.raftstate;
              State() == if d == Unsaved then old(State()) else
                old(State()).(currentTerm := d.currentTerm, votedFor := d.votedFor, log := d.log,
                              lastIncludedIndex := d.lastIncludedIndex, lastIncludedTerm := d.lastIncludedTerm,
                              commitIndex := d.lastIncludedIndex, lastApplied := d.lastIncludedIndex)
    {
      var d := persister.raftstate;
      if d == Unsaved {
        return;
      }
      currentTerm, votedFor, log := d.currentTerm, d.votedFor, d.log;
      lastIncludedIndex, lastIncludedTerm := d.lastIncludedIndex, d.lastIncludedTerm;
      commitIndex, lastApplied := d.lastIncludedIndex, d.lastIncludedIndex;
    }

    function LastIndex(): nat
      requires |log| >= 1
      reads this
    {
      lastIncludedIndex + |log| - 1
    }

    method Persist()
      modifies persister
      ensures State() == P.Persist(old(State()))
    {
      persister.Save(Saved(currentTerm, votedFor, log, lastIncludedIndex, lastIncludedTerm), persister.snapshot);
    }

    method PersistWithSnapshot(snap: seq<Command>)
      modifies persister
      ensures State() == P.PersistWithSnapshot(old(State()), snap)
    {
      persister.Save(Saved(currentTerm, votedFor, log, lastIncludedIndex, lastIncludedTerm), snap);
    }

    method Snapshot(index: nat, snap: seq<Command>)
      requires Valid()
      modifies this, persister
      ensures Valid() && State() == P.Snapshot(old(State()), index, snap)
    {
      if index <= lastIncludedIndex || index > LastIndex() {
        return;
      }
      var newLastTerm := log[index - lastIncludedIndex].term;
      log := [LogEntry(newLastTerm, Nil)] + log[index - lastIncludedIndex + 1..];
      lastIncludedIndex, lastIncludedTerm := index, newLastTerm;
      PersistWithSnapshot(snap);
    }

    method BecomeFollower(term: nat)
      requires Valid()
      modifies this, persister
      ensures Valid() && State() == P.BecomeFollower(old(State()), term)
    {
      role := Follower;
      if term > currentTerm {
        currentTerm, votedFor := term, -1;
        Persist();
      }
    }

    method RequestVote(args: RequestVoteArgs) returns (reply: RequestVoteReply)
      requires Valid()
      modifies this, persister
      ensures Valid() && (State(), reply) == P.RequestVote(old(State()), args)
    {
      reply := RequestVoteReply(currentTerm, false);
      if args.term < currentTerm {
        return;
      }
      if args.term > currentTerm {
        BecomeFollower(args.term);
        reply := RequestVoteReply(currentTerm, false);
      }
      var myLastIdx, myLastTerm := LastIndex(), log[|log| - 1].term;
      var upToDate := args.lastLogTerm > myLastTerm || (args.lastLogTerm == myLastTerm && args.lastLogIndex >= myLastIdx);
      if (votedFor == -1 || votedFor == args.candidateId) && upToDate {
        votedFor := args.candidateId;
        reply := RequestVoteReply(currentTerm, true);
        Persist();
      }
    }

    method StartElection() returns (args: RequestVoteArgs)
      requires Valid()
      modifies this, persister
      ensures Valid() && (State(), args) == P.StartElection(old(State()))
    {
      role := Candidate;
      currentTerm, votedFor := currentTerm + 1, me;
      votes, awaiting := 1, Peers(n) - {me};
      assert State() == old(State()).(role := Candidate, currentTerm := currentTerm, votedFor := me,
                                      votes := 1, awaiting := awaiting);
      Persist();
      args := RequestVoteArgs(currentTerm, me, LastIndex(), log[|log| - 1].term);
    }

    method BecomeLeader()
      requires Valid()
      modifies this, nextIndex, matchIndex
      ensures Valid() && State() == P.BecomeLeader(old(State()))
    {
      role := Leader;
      var last := LastIndex();
      for i := 0 to n
        invariant Valid() && State() == old(State()).(role := Leader, nextIndex := nextIndex[..], matchIndex := matchIndex[..])
        invariant forall k :: 0 <= k < i ==> nextIndex[k] == last + 1 && matchIndex[k] == 0
      {
        nextIndex[i] := last + 1;
        matchIndex[i] := 0;
      }
      matchIndex[me] := last;
      assert nextIndex[..] == seq(n, _ => last + 1);
      assert matchIndex[..] == seq(n, _ => 0)[me := last];
    }

    method OnVoteReply(from: nat, term: nat, reply: RequestVoteReply)
      requires Valid()
      modifies this, persister, nextIndex, matchIndex
      ensures Valid() && State() == P.OnVoteReply(old(State()), from, term, reply)
    {
      if currentTerm == term {
        awaiting := awaiting - {from};
      }
      if currentTerm != term || role != Candidate {
        return;
      }
      if reply.term > currentTerm {
        BecomeFollower(reply.term);
        return;
      }
      if reply.voteGranted {
        votes := votes + 1;
        if votes * 2 > n && role == Candidate {
          BecomeLeader();
        }
      }
    }

    method RaiseCommit(leaderCommit: nat)
      requires Valid()
      modifies this`commitIndex
      ensures Valid() && State() == P.RaiseCommit(old(State()), leaderCommit)
    {
      if leaderCommit > commitIndex {
        var newCommit := leaderCommit;
        if newCommit > LastIndex() {
          newCommit := LastIndex();
        }
        if newCommit > commitIndex {
          commitIndex := newCommit;
        }
      }
    }

    /** The first index of the run of equal terms that ends at index prev. */
    method ConflictStart(prev: nat) returns (idx: nat)
      requires Valid() && lastIncludedIndex <= prev <= LastIndex()
      ensures idx == lastIncludedIndex + RunStart(log, prev - lastIncludedIndex, log[prev - lastIncludedIndex].term)
    {
      var conflictTerm := log[prev - lastIncludedIndex].term;
      idx := prev;
      while idx > lastIncludedIndex && log[idx - 1 - lastIncludedIndex].term == conflictTerm
        invariant lastIncludedIndex <= idx <= prev
        invariant RunStart(log, idx - lastIncludedIndex, conflictTerm) == RunStart(log, prev - lastIncludedIndex, conflictTerm)
      {
        idx := idx - 1;
      }
    }

    /** Store entries after index prev, overwriting only from the first conflicting term. */
    method MergeLog(prev: nat, entries: Log)
      requires Valid() && lastIncludedIndex <= prev <= LastIndex()
      modifies this`log
      ensures Valid() && log == MergeEntries(old(log), prev - lastIncludedIndex + 1, entries)
    {
      var at := prev - lastIncludedIndex + 1;
      var i := 0;
      while i < |entries|
        invariant 0 <= i <= |entries| && at + i <= |log| && log == old(log)
        invariant MergeEntries(log, at + i, entries[i..]) == MergeEntries(old(log), at, entries)
      {
        assert entries[i..][0] == entries[i] && entries[i..][1..] == entries[i + 1..];
        if at + i == |log| {
          log := log + entries[i..];
          return;
        }
        if log[at + i].term != entries[i].term {
          log := log[..at + i] + entries[i..];
          return;
        }
        i := i + 1;
      }
      assert entries[i..] == [];
    }

    method AppendEntries(args: AppendEntriesArgs) returns (reply: AppendEntriesReply)
      requires Valid()
      modifies this, persister
      ensures Valid() && (State(), reply) == P.AppendEntries(old(State()), args)
    {
      reply := AppendEntriesReply(currentTerm, false, -1, -1, LastIndex() + 1);
      if args.term < currentTerm {
        return;
      }
      if args.term > currentTerm {
        BecomeFollower(args.term);
        reply := reply.(term := currentTerm);
      }
      role := Follower;
      assert State() == P.BecomeFollower(old(State()), args.term);
      var prev, prevTerm, entries := args.prevLogIndex, args.prevLogTerm, args.entries;
      if prev < lastIncludedIndex {
        var startAt := lastIncludedIndex - prev;
        if startAt > |entries| {
          reply := reply.(success := true);
          RaiseCommit(args.leaderCommit);
          return;
        }
        prev, prevTerm, entries := lastIncludedIndex, lastIncludedTerm, entries[startAt..];
      }
      reply := Store(prev, prevTerm, entries, args.leaderCommit, reply);
    }

    /** The consistency check at index prev, then the merge and the commit index. */
    method Store(prev: nat, prevTerm: nat, entries: Log, leaderCommit: nat, initial: AppendEntriesReply)
      returns (reply: AppendEntriesReply)
      requires Valid() && lastIncludedIndex <= prev
      requires initial == AppendEntriesReply(currentTerm, false, -1, -1, initial.xLen)
      modifies this`log, this`commitIndex, persister
      ensures Valid()
      ensures (State(), reply) == P.StoreEntries(old(State()), prev, prevTerm, entries, leaderCommit, initial.xLen)
    {
      reply := initial;
      if prev > LastIndex() {
        reply := reply.(conflictIndex := LastIndex() + 1, conflictTerm := -1);
        return;
      }
      if log[prev - lastIncludedIndex].term != prevTerm {
        var idx := ConflictStart(prev);
        reply := reply.(conflictTerm := log[prev - lastIncludedIndex].term, conflictIndex := idx);
        return;
      }
      MergeLog(prev, entries);
      Persist();
      RaiseCommit(leaderCommit);
      reply := reply.(success := true);
    }

    method InstallSnapshot(args: InstallSnapshotArgs) returns (reply: InstallSnapshotReply)
      requires Valid()
      modifies this, persister
      ensures Valid() && (State(), reply) == P.InstallSnapshot(old(State()), args)
    {
      reply := InstallSnapshotReply(currentTerm);
      if args.term < currentTerm {
        return;
      }
      if args.term > currentTerm {
        BecomeFollower(args.term);
        reply := InstallSnapshotReply(currentTerm);
      }
      role := Follower;
      assert State() == P.BecomeFollower(old(State()), args.term);
      if args.lastIncludedIndex <= lastIncludedIndex {
        return;
      }
      Install(args);
    }

    /** Replace the log's beginning by the snapshot, save both, and queue the snapshot for delivery. */
    method Install(args: InstallSnapshotArgs)
      requires Valid() && args.lastIncludedIndex > lastIncludedIndex
      modifies this, persister
      ensures Valid() && State() == P.Install(old(State()), args)
    {
      ReplaceLog(args.lastIncludedIndex, args.lastIncludedTerm);
      lastIncludedIndex, lastIncludedTerm := args.lastIncludedIndex, args.lastIncludedTerm;
      RaiseTo(args.lastIncludedIndex);
      PersistWithSnapshot(args.data);
      QueueSnapshot(args.data, args.lastIncludedIndex, args.lastIncludedTerm);
    }

    method QueueSnapshot(data: seq<Command>, index: nat, term: nat)
      requires Valid()
      modifies this`pendingSnapshot, this`pendingSnapshotIndex, this`pendingSnapshotTerm
      ensures Valid()
      ensures State() == old(State()).(pendingSnapshot := data, pendingSnapshotIndex := index, pendingSnapshotTerm := term)
    {
      pendingSnapshot, pendingSnapshotIndex, pendingSnapshotTerm := data, index, term;
    }

    /** Keep the entries after `index` if the log has the snapshot's last entry there, and nothing otherwise. */
    method ReplaceLog(index: nat, term: nat)
      requires Valid() && index > lastIncludedIndex
      modifies this`log
      ensures Valid()
      ensures var keep := index <= old(LastIndex()) && old(log)[index - lastIncludedIndex].term == term;
              State() == old(State()).(
                log := [LogEntry(term, Nil)] + if keep then old(log)[index - lastIncludedIndex + 1..] else [])
    {
      if index <= LastIndex() && log[index - lastIncludedIndex].term == term {
        log := [LogEntry(term, Nil)] + log[index - lastIncludedIndex + 1..];
      } else {
        log := [LogEntry(term, Nil)];
      }
    }

    method RaiseTo(index: nat)
      requires Valid()
      modifies this`commitIndex, this`lastApplied
      ensures Valid()
      ensures State() == old(State()).(commitIndex := Max(old(commitIndex), index),
                                       lastApplied := Max(old(lastApplied), index))
    {
      if commitIndex < index {
        commitIndex := index;
      }
      if lastApplied < index {
        lastApplied := index;
      }
    }

    method Start(command: Command) returns (index: int, term: nat, isLeader: bool)
      requires Valid()
      modifies this, persister, nextIndex, matchIndex
      ensures Valid() && (State(), index, term, isLeader) == P.Start(old(State()), command)
    {
      if role != Leader {
        return -1, currentTerm, false;
      }
      log := log + [LogEntry(currentTerm, command)];
      index := LastIndex();
      matchIndex[me] := index;
      nextIndex[me] := index + 1;
      Persist();
      term, isLeader := currentTerm, true;
    }

    method ReplicateTo(peer: nat) returns (out: Outgoing)
      requires Valid() && CanReplicate(State(), peer)
      ensures out == P.ReplicateTo(State(), peer)
    {
      if role != Leader {
        return Nothing;
      }
      var next := nextIndex[peer];
      if next <= lastIncludedIndex {
        return OutInstall(InstallSnapshotArgs(currentTerm, me, lastIncludedIndex, lastIncludedTerm, persister.snapshot));
      }
      var prevTerm := log[next - 1 - lastIncludedIndex].term;
      return OutAppend(AppendEntriesArgs(currentTerm, me, next - 1, prevTerm, log[next - lastIncludedIndex..], commitIndex));
    }

    method OnInstallReply(peer: nat, args: InstallSnapshotArgs, reply: InstallSnapshotReply)
      requires Valid() && peer < n
      modifies this, persister, nextIndex, matchIndex
      ensures Valid() && State() == P.OnInstallReply(old(State()), peer, args, reply)
    {
      if currentTerm != args.term || role != Leader {
        return;
      }
      if reply.term > currentTerm {
        BecomeFollower(reply.term);
        return;
      }
      if args.lastIncludedIndex + 1 > nextIndex[peer] {
        nextIndex[peer] := args.lastIncludedIndex + 1;
      }
      if args.lastIncludedIndex > matchIndex[peer] {
        matchIndex[peer] := args.lastIncludedIndex;
      }
    }

    /** How many peers, this one included, have stored index k. */
    method CountStored(k: nat) returns (count: nat)
      requires Valid()
      ensures count == 1 + CountMatches(matchIndex[..], me, k, n)
    {
      count := 1;
      for i := 0 to n
        invariant count == 1 + CountMatches(matchIndex[..], me, k, i)
      {
        if i != me && matchIndex[i] >= k {
          count := count + 1;
        }
      }
    }

    method AdvanceCommit()
      requires Valid()
      modifies this`commitIndex
      ensures Valid() && State() == P.AdvanceCommit(old(State()))
    {
      var k: nat := LastIndex();
      while k > commitIndex
        invariant Valid() && State() == old(State()) && k <= LastIndex()
        invariant CommitFrom(State(), k) == CommitFrom(State(), LastIndex())
      {
        if k <= lastIncludedIndex {
          return;
        }
        if log[k - lastIncludedIndex].term == currentTerm {
          var count := CountStored(k);
          if count * 2 > n {
            commitIndex := k;
            return;
          }
        }
        k := k - 1;
      }
    }

    /** The last index above the snapshot whose entry has the given term, searching down from the end; 0 if none. */
    method FindTerm(term: int) returns (found: nat)
      requires Valid()
      ensures var slot := LastSlotOfTerm(log, |log| - 1, term);
              found == if slot > 0 then lastIncludedIndex + slot else 0
    {
      var i := LastIndex();
      while i > lastIncludedIndex
        invariant lastIncludedIndex <= i <= LastIndex()
        invariant LastSlotOfTerm(log, i - lastIncludedIndex, term) == LastSlotOfTerm(log, |log| - 1, term)
      {
        if log[i - lastIncludedIndex].term == term {
          return i;
        }
        i := i - 1;
      }
      return 0;
    }

    method OnAppendReply(peer: nat, args: AppendEntriesArgs, reply: AppendEntriesReply)
      requires Valid() && peer < n
      modifies this, persister, nextIndex, matchIndex
      ensures Valid() && State() == P.OnAppendReply(old(State()), peer, args, reply)
    {
      if currentTerm != args.term || role != Leader {
        return;
      }
      if reply.term > currentTerm {
        BecomeFollower(reply.term);
        return;
      }
      if reply.success {
        var newMatch := args.prevLogIndex + |args.entries|;
        if newMatch > matchIndex[peer] {
          matchIndex[peer] := newMatch;
        }
        if newMatch + 1 > nextIndex[peer] {
          nextIndex[peer] := newMatch + 1;
        }
        assert matchIndex[..] == old(matchIndex[..])[peer := Max(old(matchIndex[peer]), newMatch)];
        assert nextIndex[..] == old(nextIndex[..])[peer := if newMatch + 1 > old(nextIndex[peer]) then newMatch + 1 else old(nextIndex[peer])];
        AdvanceCommit();
      } else {
        if reply.conflictTerm == -1 {
          if reply.conflictIndex > 0 {
            nextIndex[peer] := reply.conflictIndex;
          } else if reply.xLen > 0 {
            nextIndex[peer] := reply.xLen;
          }
        } else {
          var found := FindTerm(reply.conflictTerm);
          if found != 0 {
            nextIndex[peer] := found + 1;
          } else {
            nextIndex[peer] := reply.conflictIndex;
          }
        }
        if nextIndex[peer] < 1 {
          nextIndex[peer] := 1;
        }
      }
    }

    /** The applier's locked half: take what to send next, if anything. */
    method ApplierTake() returns (phase: Phase)
      requires Valid() && CanTake(State())
      modifies this
      ensures Valid() && (State(), phase) == P.ApplierTake(old(State()))
    {
      phase := Idle;
      if pendingSnapshot != [] {
        phase := SendingSnapshot(pendingSnapshotIndex, pendingSnapshotTerm, pendingSnapshot);
        pendingSnapshot := [];
      } else if lastApplied < commitIndex && lastApplied >= lastIncludedIndex {
        var next := lastApplied + 1;
        phase := SendingCommand(next, log[next - lastIncludedIndex].command);
      }
    }

    /** The applier locks again after a send. */
    method ApplierDone(index: nat)
      requires Valid()
      modifies this`lastApplied
      ensures Valid() && State() == P.ApplierDone(old(State()), index)
    {
      if index > lastApplied {
        lastApplied := index;
      }
    }
  }
}
