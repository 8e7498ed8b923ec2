/** One Raft peer as the implementation holds it: a log whose first slot is a sentinel for the
    snapshot's last entry, addressed by absolute index minus `lastIncludedIndex`.
    Each function is one critical section under the peer's mutex. */
module RaftPeer {
  import opened RaftTypes
  import opened Quorums

  // ---------------------------------------------------------------- RPC arguments and replies

  datatype RequestVoteArgs = RequestVoteArgs(term: nat, candidateId: nat, lastLogIndex: nat, lastLogTerm: nat)
  datatype RequestVoteReply = RequestVoteReply(term: nat, voteGranted: bool)

  datatype AppendEntriesArgs = AppendEntriesArgs(
    term: nat, leaderId: nat, prevLogIndex: nat, prevLogTerm: nat, entries: Log, leaderCommit: nat)
  datatype AppendEntriesReply = AppendEntriesReply(
    term: nat, success: bool, conflictTerm: int, conflictIndex: int, xLen: nat)

  datatype InstallSnapshotArgs = InstallSnapshotArgs(
    term: nat, leaderId: nat, lastIncludedIndex: nat, lastIncludedTerm: nat, data: seq<Command>)
  datatype InstallSnapshotReply = InstallSnapshotReply(term: nat)

  // ---------------------------------------------------------------- state

  /** The encoded Raft state on disk; `Unsaved` is the empty byte string of a fresh persister. */
  datatype RaftState =
    | Unsaved
    | Saved(currentTerm: nat, votedFor: int, log: Log, lastIncludedIndex: nat, lastIncludedTerm: nat)

  datatype Disk = Disk(raftstate: RaftState, snapshot: seq<Command>)

  datatype Peer = Peer(
    n: nat,                         // number of peers
    me: nat,
    currentTerm: nat,
    votedFor: int,                  // -1 for none
    log: Log,
    lastIncludedIndex: nat,
    lastIncludedTerm: nat,
    commitIndex: nat,
    lastApplied: nat,
    nextIndex: seq<int>,
    matchIndex: seq<nat>,
    role: Role,
    votes: nat,                     // counter of the running election
    awaiting: set<nat>,             // peers whose RequestVote call of the running election has not returned
    pendingSnapshot: seq<Command>,  // empty for none
    pendingSnapshotIndex: nat,
    pendingSnapshotTerm: nat,
    disk: Disk)

  predicate WellFormed(r: Peer) {
    r.me < r.n && |r.log| >= 1 && |r.nextIndex| == r.n && |r.matchIndex| == r.n
  }

  function LastLogIndex(r: Peer): nat
    requires |r.log| >= 1
  {
    r.lastIncludedIndex + |r.log| - 1
  }

  function LastLogTerm(r: Peer): nat
    requires |r.log| >= 1
  {
    r.log[|r.log| - 1].term
  }

  function TermAtIndex(r: Peer, index: nat): nat
    requires |r.log| >= 1 && r.lastIncludedIndex <= index <= LastLogIndex(r)
  {
    r.log[index - r.lastIncludedIndex].term
  }

  // ---------------------------------------------------------------- persistence

  function Encode(r: Peer): RaftState {
    Saved(r.currentTerm, r.votedFor, r.log, r.lastIncludedIndex, r.lastIncludedTerm)
  }

  function Persist(r: Peer): Peer {
    r.(disk := Disk(Encode(r), r.disk.snapshot))
  }

  function PersistWithSnapshot(r: Peer, snapshot: seq<Command>): Peer {
    r.(disk := Disk(Encode(r), snapshot))
  }

  /** What `Make` starts from when it finds the given bytes. */
  function Load(saved: RaftState): RaftState {
    if saved == Unsaved then Saved(0, -1, [LogEntry(0, Nil)], 0, 0) else saved
  }

  function Make(n: nat, me: nat, disk: Disk): Peer {
    var d := Load(disk.raftstate);
    var queue := d.lastIncludedIndex > 0 && disk.snapshot != [];
    Peer(n, me, d.currentTerm, d.votedFor, d.log, d.lastIncludedIndex, d.lastIncludedTerm,
         d.lastIncludedIndex, d.lastIncludedIndex,
         seq(n, _ => 0), seq(n, _ => 0), Follower, 0, {},
         if queue then disk.snapshot else [],
         if queue then d.lastIncludedIndex else 0,
         if queue then d.lastIncludedTerm else 0,
         disk)
  }

  // ---------------------------------------------------------------- service snapshots

  function Snapshot(r: Peer, index: nat, snapshot: seq<Command>): Peer
    requires WellFormed(r)
  {
    if index <= r.lastIncludedIndex || index > LastLogIndex(r) then r
    else
      var term := TermAtIndex(r, index);
      PersistWithSnapshot(
        r.(log := [LogEntry(term, Nil)] + r.log[index - r.lastIncludedIndex + 1..],
           lastIncludedIndex := index,
           lastIncludedTerm := term),
        snapshot)
  }

  // ---------------------------------------------------------------- elections

  function BecomeFollower(r: Peer, term: nat): Peer {
    var f := r.(role := Follower);
    if term > r.currentTerm then Persist(f.(currentTerm := term, votedFor := -1)) else f
  }

  function RequestVote(r: Peer, args: RequestVoteArgs): (Peer, RequestVoteReply)
    requires WellFormed(r)
  {
    if args.term < r.currentTerm then (r, RequestVoteReply(r.currentTerm, false))
    else
      var f := if args.term > r.currentTerm then BecomeFollower(r, args.term) else r;
      var upToDate := args.lastLogTerm > LastLogTerm(f)
                      || (args.lastLogTerm == LastLogTerm(f) && args.lastLogIndex >= LastLogIndex(f));
      if (f.votedFor == -1 || f.votedFor == args.candidateId) && upToDate then
        (Persist(f.(votedFor := args.candidateId)), RequestVoteReply(f.currentTerm, true))
      else
        (f, RequestVoteReply(f.currentTerm, false))
  }

  function StartElection(r: Peer): (Peer, RequestVoteArgs)
    requires WellFormed(r)
  {
    var c := Persist(r.(role := Candidate, currentTerm := r.currentTerm + 1, votedFor := r.me,
                        votes := 1, awaiting := Peers(r.n) - {r.me}));
    (c, RequestVoteArgs(c.currentTerm, c.me, LastLogIndex(c), LastLogTerm(c)))
  }

  function BecomeLeader(r: Peer): Peer
    requires WellFormed(r)
  {
    r.(role := Leader,
       nextIndex := seq(r.n, _ => LastLogIndex(r) + 1),
       matchIndex := seq(r.n, _ => 0)[r.me := LastLogIndex(r)])
  }

  /** The goroutine that asked peer `from` for its vote in term `term` gets the reply. */
  function OnVoteReply(r: Peer, from: nat, term: nat, reply: RequestVoteReply): Peer
    requires WellFormed(r)
  {
    var a := if r.currentTerm == term then r.(awaiting := r.awaiting - {from}) else r;
    if a.currentTerm != term || a.role != Candidate then a
    else if reply.term > a.currentTerm then BecomeFollower(a, reply.term)
    else if reply.voteGranted then
      var v := a.(votes := a.votes + 1);
      if v.votes * 2 > v.n then BecomeLeader(v) else v
    else a
  }

  // ---------------------------------------------------------------- replication, follower side

  /** Slot of the first entry of the run of term `term` that ends at slot `at`. */
  function RunStart(log: Log, at: nat, term: nat): (start: nat)
    requires at < |log|
    ensures start <= at
  {
    if at > 0 && log[at - 1].term == term then RunStart(log, at - 1, term) else at
  }

  /** Store `entries` from slot `at` on, overwriting only from the first conflicting term. */
  function MergeEntries(log: Log, at: nat, entries: Log): Log
    requires at <= |log|
    decreases |entries|
  {
    if entries == [] then log
    else if at == |log| then log + entries
    else if log[at].term != entries[0].term then log[..at] + entries
    else MergeEntries(log, at + 1, entries[1..])
  }

  function RaiseCommit(r: Peer, leaderCommit: nat): Peer
    requires WellFormed(r)
  {
    var newCommit := Min(leaderCommit, LastLogIndex(r));
    if leaderCommit > r.commitIndex && newCommit > r.commitIndex then r.(commitIndex := newCommit) else r
  }

  function AppendEntries(r: Peer, args: AppendEntriesArgs): (Peer, AppendEntriesReply)
    requires WellFormed(r)
  {
    var xLen := LastLogIndex(r) + 1;
    if args.term < r.currentTerm then (r, AppendEntriesReply(r.currentTerm, false, -1, -1, xLen))
    else FollowAppend(BecomeFollower(r, args.term), args, xLen)
  }

  /** AppendEntries once the peer follows the sender's term. */
  function FollowAppend(f: Peer, args: AppendEntriesArgs, xLen: nat): (Peer, AppendEntriesReply)
    requires WellFormed(f)
  {
    if args.prevLogIndex < f.lastIncludedIndex then
      var startAt := f.lastIncludedIndex - args.prevLogIndex;
      if startAt > |args.entries| then
        (RaiseCommit(f, args.leaderCommit), AppendEntriesReply(f.currentTerm, true, -1, -1, xLen))
      else
        StoreEntries(f, f.lastIncludedIndex, f.lastIncludedTerm, args.entries[startAt..], args.leaderCommit, xLen)
    else
      StoreEntries(f, args.prevLogIndex, args.prevLogTerm, args.entries, args.leaderCommit, xLen)
  }

  function StoreEntries(f: Peer, prevLogIndex: nat, prevLogTerm: nat, entries: Log, leaderCommit: nat, xLen: nat)
    : (Peer, AppendEntriesReply)
    requires WellFormed(f) && f.lastIncludedIndex <= prevLogIndex
  {
    if prevLogIndex > LastLogIndex(f) then
      (f, AppendEntriesReply(f.currentTerm, false, -1, LastLogIndex(f) + 1, xLen))
    else
      var at := prevLogIndex - f.lastIncludedIndex;
      if f.log[at].term != prevLogTerm then
        (f, AppendEntriesReply(f.currentTerm, false, f.log[at].term,
                               f.lastIncludedIndex + RunStart(f.log, at, f.log[at].term), xLen))
      else
        MergeLength(f.log, at + 1, entries);
        var g := Persist(f.(log := MergeEntries(f.log, at + 1, entries)));
        (RaiseCommit(g, leaderCommit), AppendEntriesReply(f.currentTerm, true, -1, -1, xLen))
  }

  lemma MergeLength(log: Log, at: nat, entries: Log)
    requires at <= |log|
    ensures |MergeEntries(log, at, entries)| >= at + |entries|
    ensures |MergeEntries(log, at, entries)| >= at
    decreases |entries|
  {
  }

  function InstallSnapshot(r: Peer, args: InstallSnapshotArgs): (Peer, InstallSnapshotReply)
    requires WellFormed(r)
  {
    if args.term < r.currentTerm then (r, InstallSnapshotReply(r.currentTerm))
    else
      var f := BecomeFollower(r, args.term);
      (if args.lastIncludedIndex <= f.lastIncludedIndex then f else Install(f, args),
       InstallSnapshotReply(f.currentTerm))
  }

  /** Replace everything up to the snapshot's index, and the rest too unless our log has the snapshot's last entry. */
  function Install(f: Peer, args: InstallSnapshotArgs): Peer
    requires WellFormed(f) && args.lastIncludedIndex > f.lastIncludedIndex
  {
    var keep := args.lastIncludedIndex <= LastLogIndex(f)
                && TermAtIndex(f, args.lastIncludedIndex) == args.lastIncludedTerm;
    var rest := if keep then f.log[args.lastIncludedIndex - f.lastIncludedIndex + 1..] else [];
    var g := f.(log := [LogEntry(args.lastIncludedTerm, Nil)] + rest,
                lastIncludedIndex := args.lastIncludedIndex,
                lastIncludedTerm := args.lastIncludedTerm,
                commitIndex := Max(f.commitIndex, args.lastIncludedIndex),
                lastApplied := Max(f.lastApplied, args.lastIncludedIndex));
    PersistWithSnapshot(g, args.data).(pendingSnapshot := args.data,
                                       pendingSnapshotIndex := args.lastIncludedIndex,
                                       pendingSnapshotTerm := args.lastIncludedTerm)
  }

  // ---------------------------------------------------------------- replication, leader side

  /** Append a client command; index -1 and `false` when this peer is not the leader. */
  function Start(r: Peer, command: Command): (Peer, int, nat, bool)
    requires WellFormed(r)
  {
    if r.role != Leader then (r, -1, r.currentTerm, false)
    else
      var a := r.(log := r.log + [LogEntry(r.currentTerm, command)]);
      var index := LastLogIndex(a);
      (Persist(a.(matchIndex := a.matchIndex[a.me := index], nextIndex := a.nextIndex[a.me := index + 1])),
       index, r.currentTerm, true)
  }

  datatype Outgoing =
    | Nothing
    | OutAppend(append: AppendEntriesArgs)
    | OutInstall(install: InstallSnapshotArgs)

  /** No slice expression in the sending half of replicateTo is out of range. */
  predicate CanReplicate(r: Peer, peer: nat) {
    WellFormed(r) && peer < r.n && (r.role == Leader ==> r.nextIndex[peer] <= LastLogIndex(r) + 1)
  }

  function ReplicateTo(r: Peer, peer: nat): Outgoing
    requires CanReplicate(r, peer)
  {
    if r.role != Leader then Nothing
    else
      var next := r.nextIndex[peer];
      if next <= r.lastIncludedIndex then
        OutInstall(InstallSnapshotArgs(r.currentTerm, r.me, r.lastIncludedIndex, r.lastIncludedTerm, r.disk.snapshot))
      else
        OutAppend(AppendEntriesArgs(r.currentTerm, r.me, next - 1, TermAtIndex(r, next - 1),
                                    r.log[next - r.lastIncludedIndex..], r.commitIndex))
  }

  function OnInstallReply(r: Peer, peer: nat, args: InstallSnapshotArgs, reply: InstallSnapshotReply): Peer
    requires WellFormed(r) && peer < r.n
  {
    if r.currentTerm != args.term || r.role != Leader then r
    else if reply.term > r.currentTerm then BecomeFollower(r, reply.term)
    else
      var next := if args.lastIncludedIndex + 1 > r.nextIndex[peer] then args.lastIncludedIndex + 1 else r.nextIndex[peer];
      r.(nextIndex := r.nextIndex[peer := next],
         matchIndex := r.matchIndex[peer := Max(r.matchIndex[peer], args.lastIncludedIndex)])
  }

  /** The last slot from `at` down, above the sentinel, that holds term `term`; 0 if there is none. */
  function LastSlotOfTerm(log: Log, at: nat, term: int): (slot: nat)
    requires at < |log|
    ensures slot <= at
    ensures slot > 0 ==> log[slot].term == term
  {
    if at == 0 then 0 else if log[at].term == term then at else LastSlotOfTerm(log, at - 1, term)
  }

  function Backup(r: Peer, next: int, reply: AppendEntriesReply): (next': int)
    requires WellFormed(r)
    ensures next' >= 1
  {
    var slot := LastSlotOfTerm(r.log, |r.log| - 1, reply.conflictTerm);
    var target :=
      if reply.conflictTerm == -1 then
        if reply.conflictIndex > 0 then reply.conflictIndex
        else if reply.xLen > 0 then reply.xLen
        else next
      else if slot > 0 then r.lastIncludedIndex + slot + 1
      else reply.conflictIndex;
    if target < 1 then 1 else target
  }

  /** How many of the first i peers, other than `me`, have stored index k. */
  function CountMatches(matchIndex: seq<nat>, me: nat, k: nat, i: nat): nat
    requires i <= |matchIndex|
  {
    if i == 0 then 0
    else CountMatches(matchIndex, me, k, i - 1) + (if i - 1 != me && matchIndex[i - 1] >= k then 1 else 0)
  }

  /** The commit index that the search of advanceCommit, now at index k, ends with. */
  function CommitFrom(r: Peer, k: nat): nat
    requires WellFormed(r) && k <= LastLogIndex(r)
  {
    if k <= r.commitIndex || k <= r.lastIncludedIndex then r.commitIndex
    else if TermAtIndex(r, k) == r.currentTerm && (1 + CountMatches(r.matchIndex, r.me, k, r.n)) * 2 > r.n then k
    else CommitFrom(r, k - 1)
  }

  function AdvanceCommit(r: Peer): Peer
    requires WellFormed(r)
  {
    r.(commitIndex := CommitFrom(r, LastLogIndex(r)))
  }

  function OnAppendReply(r: Peer, peer: nat, args: AppendEntriesArgs, reply: AppendEntriesReply): Peer
    requires WellFormed(r) && peer < r.n
  {
    if r.currentTerm != args.term || r.role != Leader then r
    else if reply.term > r.currentTerm then BecomeFollower(r, reply.term)
    else if reply.success then
      var newMatch := args.prevLogIndex + |args.entries|;
      var next := if newMatch + 1 > r.nextIndex[peer] then newMatch + 1 else r.nextIndex[peer];
      AdvanceCommit(r.(matchIndex := r.matchIndex[peer := Max(r.matchIndex[peer], newMatch)],
                       nextIndex := r.nextIndex[peer := next]))
    else
      r.(nextIndex := r.nextIndex[peer := Backup(r, r.nextIndex[peer], reply)])
  }

  // ---------------------------------------------------------------- the applier goroutine

  /** What the applier holds while the mutex is free. `Sent` is after the receive, before it locks again. */
  datatype Phase =
    | Idle
    | SendingSnapshot(index: nat, term: nat, data: seq<Command>)
    | SendingCommand(index: nat, command: Command)
    | Sent(index: nat)

  /** The applier's read of the log is in range. */
  predicate CanTake(r: Peer) {
    WellFormed(r) && r.commitIndex <= LastLogIndex(r)
  }

  function ApplierTake(r: Peer): (Peer, Phase)
    requires CanTake(r)
  {
    if r.pendingSnapshot != [] then
      (r.(pendingSnapshot := []), SendingSnapshot(r.pendingSnapshotIndex, r.pendingSnapshotTerm, r.pendingSnapshot))
    else if r.lastApplied < r.commitIndex && r.lastApplied >= r.lastIncludedIndex then
      var next := r.lastApplied + 1;
      if next <= r.lastIncludedIndex then (r.(lastApplied := r.lastIncludedIndex), Idle)
      else (r, SendingCommand(next, r.log[next - r.lastIncludedIndex].command))
    else (r, Idle)
  }

  function ApplierDone(r: Peer, index: nat): Peer {
    r.(lastApplied := Max(r.lastApplied, index))
  }
}
