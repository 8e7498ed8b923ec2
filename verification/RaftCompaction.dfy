/** Log compaction is invisible: along every run, each handler running on the sentinel-plus-offset log decides and does
    what the same handler does on the uncompacted log of the run. Where a search, a send, a snapshot or a restart stops
    at the boundary, the theorem says exactly how the two differ. */
module RaftCompaction {
  import opened RaftTypes
  import opened RaftProtocol
  import opened RaftInvariant
  import opened RaftPreservation
  import opened RaftPeer
  import opened RaftRefinement
  import opened RaftSimulation
  import opened RaftSafety
  import C = RaftCluster

  /** The peer that r would be had it never compacted its log `whole`. */
  function Expand(r: Peer, whole: Log): Peer {
    var e := r.(log := Compact(whole, 0), lastIncludedIndex := 0, lastIncludedTerm := 0, pendingSnapshot := []);
    e.(disk := Disk(Encode(e), []))
  }

  /** r's log is `whole` without the committed entries under its snapshot. */
  ghost predicate LogCompacts(r: Peer, whole: Log) {
    && r.lastIncludedIndex <= r.commitIndex <= |whole|
    && r.log == Compact(whole, r.lastIncludedIndex)
  }

  /** ... and the saved snapshot holds those entries' commands. */
  ghost predicate CompactionOf(r: Peer, whole: Log) {
    LogCompacts(r, whole) && r.disk.snapshot == Commands(whole[..r.lastIncludedIndex])
  }

  /** h is in every field what g would be without compaction. */
  ghost predicate Mirrors(g: Peer, h: Peer, whole: Log) {
    LogCompacts(g, whole) && h == Expand(g, whole)
  }

  // ---------------------------------------------------------------- the uncompacted logs of a run

  /** specs are protocol states, with uncompacted logs, that the run goes through. */
  ghost predicate History(run: seq<C.Cluster>, steps: seq<C.Step>, specs: seq<Spec>, acts: seq<seq<Action>>) {
    C.IsRun(run, steps) && Witness(run, specs, acts)
  }

  /** The uncompacted log of peer p at point i; empty for a peer that does not exist. */
  function WholeAt(specs: seq<Spec>, i: nat, p: nat): Log
    requires i < |specs|
  {
    if p < |specs[i].nodes| then specs[i].nodes[p].log else []
  }

  lemma Behind(run: seq<C.Cluster>, steps: seq<C.Step>, specs: seq<Spec>, acts: seq<seq<Action>>, i: nat, p: nat)
    requires History(run, steps, specs, acts) && i < |run| && p < |run[i].hosts|
    ensures Inv(specs[i]) && PeerOK(run[i].hosts[p].raft, specs[i], p) && p < |specs[i].nodes|
    ensures ServiceOK(run[i].hosts[p], specs[i].nodes[p])
    ensures WellFormed(run[i].hosts[p].raft) && CompactionOf(run[i].hosts[p].raft, WholeAt(specs, i, p))
  {
    assert Rel(run[i], specs[i]);
    assert HostOK(run[i].hosts[p], specs[i], p);
    SameLast(run[i].hosts[p].raft, specs[i].nodes[p]);
  }

  /** At every point of a run the uncompacted log is the peer's log with the committed entries under its snapshot, whose
      commands the snapshot holds, put back. */
  lemma WholeLogCompacts(run: seq<C.Cluster>, steps: seq<C.Step>, specs: seq<Spec>, acts: seq<seq<Action>>,
                         i: nat, p: nat)
    requires History(run, steps, specs, acts) && i < |run| && p < |run[i].hosts|
    ensures WellFormed(run[i].hosts[p].raft) && CompactionOf(run[i].hosts[p].raft, WholeAt(specs, i, p))
  {
    Behind(run, steps, specs, acts, i, p);
  }

  /** What was committed stays in the uncompacted log. */
  lemma CommittedStays(run: seq<C.Cluster>, steps: seq<C.Step>, specs: seq<Spec>, acts: seq<seq<Action>>, i: nat, p: nat)
    requires History(run, steps, specs, acts) && i < |steps| && p < |run[i].hosts|
    ensures var c := run[i].hosts[p].raft.commitIndex;
            && p < |run[i + 1].hosts| && c <= |WholeAt(specs, i, p)| && c <= |WholeAt(specs, i + 1, p)|
            && WholeAt(specs, i + 1, p)[..c] == WholeAt(specs, i, p)[..c]
  {
    Behind(run, steps, specs, acts, i, p);
    var nd := specs[i].nodes[p];
    var x := nd.log[..nd.commit];
    assert NodeOK(specs[i], p);
    RunRetains(run, specs, acts, i, i + 1, p, nd.term, x);
    assert Rel(run[i + 1], specs[i + 1]);
    assert x == specs[i + 1].nodes[p].log[..nd.commit];
  }

  /** A log is determined by its compaction and the entries under the boundary. */
  lemma LogDetermined(a: Log, b: Log, k: nat)
    requires k <= |a| && k <= |b| && a[..k] == b[..k] && Compact(a, k) == Compact(b, k)
    ensures a == b
  {
    assert a[k..] == Compact(a, k)[1..] == Compact(b, k)[1..] == b[k..];
    assert a == a[..k] + a[k..] && b == b[..k] + b[k..];
  }

  /** The uncompacted log after a step is `target` if the peer's log then is its compaction at a boundary that was
      committed before. */
  lemma WholeBecomes(run: seq<C.Cluster>, steps: seq<C.Step>, specs: seq<Spec>, acts: seq<seq<Action>>, i: nat, p: nat,
                     target: Log)
    requires History(run, steps, specs, acts) && i < |steps| && p < |run[i].hosts| && p < |run[i + 1].hosts|
    requires var r, r' := run[i].hosts[p].raft, run[i + 1].hosts[p].raft;
             && r'.lastIncludedIndex <= r.commitIndex && r'.lastIncludedIndex <= |target|
             && r'.lastIncludedIndex <= |WholeAt(specs, i, p)|
             && target[..r'.lastIncludedIndex] == WholeAt(specs, i, p)[..r'.lastIncludedIndex]
             && r'.log == Compact(target, r'.lastIncludedIndex)
    ensures WholeAt(specs, i + 1, p) == target
  {
    var k, c := run[i + 1].hosts[p].raft.lastIncludedIndex, run[i].hosts[p].raft.commitIndex;
    var a, b := WholeAt(specs, i, p), WholeAt(specs, i + 1, p);
    WholeLogCompacts(run, steps, specs, acts, i + 1, p);
    CommittedStays(run, steps, specs, acts, i, p);
    assert a[..k] == a[..c][..k] && b[..k] == b[..c][..k];
    LogDetermined(b, target, k);
  }

  // ---------------------------------------------------------------- compacted and whole

  lemma SameEnd(r: Peer, whole: Log)
    requires LogCompacts(r, whole)
    ensures LastLogIndex(r) == LastLogIndex(Expand(r, whole)) == |whole|
    ensures LastLogTerm(r) == LastLogTerm(Expand(r, whole))
    ensures forall k: nat :: r.lastIncludedIndex <= k <= |whole| ==> TermAtIndex(r, k) == TermAtIndex(Expand(r, whole), k)
  {
  }

  lemma ExpandOK(r: Peer, s: Spec, p: nat)
    requires PeerOK(r, s, p)
    ensures PeerOK(Expand(r, s.nodes[p].log), s, p)
  {
    var e := Expand(r, s.nodes[p].log);
    AcksGrow(s, s, e, p);
    CandidateGrows(s, s, e, p);
  }

  /** A step that leaves the peer's log and boundary alone leaves its uncompacted log alone. */
  lemma WholeStays(run: seq<C.Cluster>, steps: seq<C.Step>, specs: seq<Spec>, acts: seq<seq<Action>>, i: nat, p: nat)
    requires History(run, steps, specs, acts) && i < |steps| && p < |run[i].hosts| && p < |run[i + 1].hosts|
    requires var r, r' := run[i].hosts[p].raft, run[i + 1].hosts[p].raft;
             r'.log == r.log && r'.lastIncludedIndex == r.lastIncludedIndex
    ensures WholeAt(specs, i + 1, p) == WholeAt(specs, i, p)
  {
    WholeLogCompacts(run, steps, specs, acts, i, p);
    WholeBecomes(run, steps, specs, acts, i, p, WholeAt(specs, i, p));
  }

  lemma FollowSame(r: Peer, whole: Log, term: nat)
    requires LogCompacts(r, whole)
    ensures Mirrors(BecomeFollower(r, term), BecomeFollower(Expand(r, whole), term), whole)
  {
  }

  // ---------------------------------------------------------------- elections

  /** Starting an election asks for the same votes. */
  ghost predicate ElectsSame(r: Peer, whole: Log)
    requires WellFormed(r) && LogCompacts(r, whole)
  {
    var (g, args) := StartElection(r);
    var (h, args') := StartElection(Expand(r, whole));
    args == args' && Mirrors(g, h, whole)
  }

  lemma ElectionSame(r: Peer, whole: Log)
    requires WellFormed(r) && LogCompacts(r, whole)
    ensures ElectsSame(r, whole)
  {
    SameEnd(r, whole);
  }

  lemma StartElectionCompacted(run: seq<C.Cluster>, steps: seq<C.Step>, specs: seq<Spec>, acts: seq<seq<Action>>, i: nat, p: nat)
    requires History(run, steps, specs, acts) && i < |run| && p < |run[i].hosts|
    ensures var r, whole := run[i].hosts[p].raft, WholeAt(specs, i, p);
            WellFormed(r) && CompactionOf(r, whole) && ElectsSame(r, whole)
  {
    WholeLogCompacts(run, steps, specs, acts, i, p);
    ElectionSame(run[i].hosts[p].raft, WholeAt(specs, i, p));
  }

  /** RequestVote grants exactly when it grants on the whole log. */
  ghost predicate VotesSame(r: Peer, whole: Log, args: RequestVoteArgs)
    requires WellFormed(r) && LogCompacts(r, whole)
  {
    var (g, reply) := RequestVote(r, args);
    var (h, reply') := RequestVote(Expand(r, whole), args);
    reply == reply' && Mirrors(g, h, whole)
  }

  lemma VoteSame(r: Peer, whole: Log, args: RequestVoteArgs)
    requires WellFormed(r) && LogCompacts(r, whole)
    ensures VotesSame(r, whole, args)
  {
    var e := Expand(r, whole);
    assert LastLogIndex(r) == LastLogIndex(e) && LastLogTerm(r) == LastLogTerm(e) by { SameEnd(r, whole); }
  }

  lemma RequestVoteCompacted(run: seq<C.Cluster>, steps: seq<C.Step>, specs: seq<Spec>, acts: seq<seq<Action>>, i: nat, p: nat,
                             args: RequestVoteArgs)
    requires History(run, steps, specs, acts) && i < |run| && p < |run[i].hosts|
    ensures var r, whole := run[i].hosts[p].raft, WholeAt(specs, i, p);
            WellFormed(r) && CompactionOf(r, whole) && VotesSame(r, whole, args)
  {
    WholeLogCompacts(run, steps, specs, acts, i, p);
    VoteSame(run[i].hosts[p].raft, WholeAt(specs, i, p), args);
  }

  /** A vote reply is counted alike, and a win sets the same nextIndex and matchIndex. */
  lemma VoteReplySame(r: Peer, whole: Log, from: nat, term: nat, reply: RequestVoteReply)
    requires WellFormed(r) && LogCompacts(r, whole)
    ensures Mirrors(OnVoteReply(r, from, term, reply), OnVoteReply(Expand(r, whole), from, term, reply), whole)
  {
    SameEnd(r, whole);
  }

  lemma VoteReplyCompacted(run: seq<C.Cluster>, steps: seq<C.Step>, specs: seq<Spec>, acts: seq<seq<Action>>, i: nat, p: nat,
                           from: nat, term: nat, reply: RequestVoteReply)
    requires History(run, steps, specs, acts) && i < |run| && p < |run[i].hosts|
    ensures var r, whole := run[i].hosts[p].raft, WholeAt(specs, i, p);
            && WellFormed(r) && CompactionOf(r, whole)
            && Mirrors(OnVoteReply(r, from, term, reply), OnVoteReply(Expand(r, whole), from, term, reply), whole)
  {
    WholeLogCompacts(run, steps, specs, acts, i, p);
    VoteReplySame(run[i].hosts[p].raft, WholeAt(specs, i, p), from, term, reply);
  }

  // ---------------------------------------------------------------- the leader

  /** Start appends the same entry at the same index. */
  ghost predicate StartsSame(r: Peer, whole: Log, command: Command)
    requires WellFormed(r) && LogCompacts(r, whole)
  {
    var (g, index, term, leads) := Start(r, command);
    var (h, index', term', leads') := Start(Expand(r, whole), command);
    && (index, term, leads) == (index', term', leads')
    && Mirrors(g, h, if leads then whole + [LogEntry(term, command)] else whole)
  }

  lemma StartSame(r: Peer, whole: Log, command: Command)
    requires WellFormed(r) && LogCompacts(r, whole)
    ensures StartsSame(r, whole, command)
  {
    var whole', k := whole + [LogEntry(r.currentTerm, command)], r.lastIncludedIndex;
    SameEnd(r, whole);
    assert whole'[..k] == whole[..k];
    assert Compact(whole', k) == Compact(whole, k) + [LogEntry(r.currentTerm, command)];
    assert Compact(whole', 0) == Compact(whole, 0) + [LogEntry(r.currentTerm, command)];
  }

  /** ... and the step appends it to the run's uncompacted log. */
  lemma StartCompacted(run: seq<C.Cluster>, steps: seq<C.Step>, specs: seq<Spec>, acts: seq<seq<Action>>, i: nat, p: nat,
                       command: Command)
    requires History(run, steps, specs, acts) && i < |run| && p < |run[i].hosts|
    ensures var r, whole := run[i].hosts[p].raft, WholeAt(specs, i, p);
            && WellFormed(r) && CompactionOf(r, whole) && StartsSame(r, whole, command)
            && (i < |steps| && steps[i] == C.ClientStart(p, command) && r.role == Leader ==>
                  WholeAt(specs, i + 1, p) == whole + [LogEntry(r.currentTerm, command)])
  {
    var r, whole := run[i].hosts[p].raft, WholeAt(specs, i, p);
    WholeLogCompacts(run, steps, specs, acts, i, p);
    StartSame(r, whole, command);
    if i < |steps| && steps[i] == C.ClientStart(p, command) && r.role == Leader {
      StartedRun(run, steps, i, p, command);
      WholeBecomes(run, steps, specs, acts, i, p, whole + [LogEntry(r.currentTerm, command)]);
    }
  }

  lemma StartedRun(run: seq<C.Cluster>, steps: seq<C.Step>, i: nat, p: nat, command: Command)
    requires C.IsRun(run, steps) && i < |steps| && p < |run[i].hosts| && steps[i] == C.ClientStart(p, command)
    requires WellFormed(run[i].hosts[p].raft)
    ensures p < |run[i + 1].hosts| && run[i + 1].hosts[p].raft == Start(run[i].hosts[p].raft, command).0
  {
    assert C.StepAt(run, steps, i);
  }

  /** What the leader sends: the same AppendEntries if the follower needs only uncompacted entries, otherwise its saved
      snapshot, at the boundary of the log that the AppendEntries would carry, committing no more than it would. */
  ghost predicate SendsSame(r: Peer, whole: Log, to: nat)
    requires LogCompacts(r, whole) && CanReplicate(r, to) && CanReplicate(Expand(r, whole), to)
  {
    var out, full := ReplicateTo(r, to), ReplicateTo(Expand(r, whole), to);
    var k, next := r.lastIncludedIndex, r.nextIndex[to];
    if r.role != Leader || next > k then out == full
    else
      && 1 <= next <= k <= r.commitIndex
      && out == OutInstall(InstallSnapshotArgs(r.currentTerm, r.me, k, TermAt(whole, k), r.disk.snapshot))
      && full == OutAppend(AppendEntriesArgs(r.currentTerm, r.me, next - 1, TermAt(whole, next - 1), whole[next - 1..],
                                             r.commitIndex))
  }

  lemma ReplicateSame(r: Peer, whole: Log, to: nat)
    requires WellFormed(r) && LogCompacts(r, whole) && to < r.n
    requires r.lastIncludedTerm == TermAt(whole, r.lastIncludedIndex)
    requires r.role == Leader ==> 1 <= r.nextIndex[to] <= |whole| + 1
    ensures CanReplicate(r, to) && CanReplicate(Expand(r, whole), to) && SendsSame(r, whole, to)
  {
    assert LastLogIndex(r) == LastLogIndex(Expand(r, whole)) == |whole| by { SameEnd(r, whole); }
    if r.role == Leader {
      var k, next := r.lastIncludedIndex, r.nextIndex[to];
      TailOf(whole, 0, next);
      if next > k {
        TailOf(whole, k, next);
      }
    }
  }

  /** The compacted log from index `next` on, with the term before it, is the whole log's. */
  lemma TailOf(whole: Log, k: nat, next: nat)
    requires k < next <= |whole| + 1
    ensures Compact(whole, k)[next - k..] == whole[next - 1..] && Compact(whole, k)[next - 1 - k].term == TermAt(whole, next - 1)
  {
  }

  lemma ReplicateCompacted(run: seq<C.Cluster>, steps: seq<C.Step>, specs: seq<Spec>, acts: seq<seq<Action>>, i: nat, p: nat,
                           to: nat)
    requires History(run, steps, specs, acts) && i < |run| && p < |run[i].hosts| && to < |run[i].hosts|
    ensures var r, whole := run[i].hosts[p].raft, WholeAt(specs, i, p);
            && CompactionOf(r, whole) && CanReplicate(r, to) && CanReplicate(Expand(r, whole), to)
            && SendsSame(r, whole, to)
  {
    Behind(run, steps, specs, acts, i, p);
    IndexBounds(run, steps, i, p);
    assert Rel(run[i], specs[i]);
    SameEnd(run[i].hosts[p].raft, WholeAt(specs, i, p));
    ReplicateSame(run[i].hosts[p].raft, WholeAt(specs, i, p), to);
  }

  /** A reply to InstallSnapshot does the same. */
  lemma InstallReplySame(r: Peer, whole: Log, from: nat, args: InstallSnapshotArgs, reply: InstallSnapshotReply)
    requires WellFormed(r) && from < r.n && LogCompacts(r, whole)
    ensures Mirrors(OnInstallReply(r, from, args, reply), OnInstallReply(Expand(r, whole), from, args, reply), whole)
  {
  }

  lemma InstallReplyCompacted(run: seq<C.Cluster>, steps: seq<C.Step>, specs: seq<Spec>, acts: seq<seq<Action>>, i: nat, p: nat,
                              from: nat, args: InstallSnapshotArgs, reply: InstallSnapshotReply)
    requires History(run, steps, specs, acts) && i < |run| && p < |run[i].hosts| && from < |run[i].hosts|
    ensures var r, whole := run[i].hosts[p].raft, WholeAt(specs, i, p);
            && WellFormed(r) && from < r.n && CompactionOf(r, whole)
            && Mirrors(OnInstallReply(r, from, args, reply), OnInstallReply(Expand(r, whole), from, args, reply), whole)
  {
    Behind(run, steps, specs, acts, i, p);
    assert Rel(run[i], specs[i]);
    InstallReplySame(run[i].hosts[p].raft, WholeAt(specs, i, p), from, args, reply);
  }

  // ---------------------------------------------------------------- replies to AppendEntries

  lemma {:induction false} CommitSame(r: Peer, whole: Log, k: nat)
    requires WellFormed(r) && LogCompacts(r, whole) && k <= |whole|
    ensures k <= LastLogIndex(r) && CommitFrom(r, k) == CommitFrom(Expand(r, whole), k)
    ensures r.commitIndex <= CommitFrom(r, k) <= |whole|
    decreases k
  {
    SameEnd(r, whole);
    if k > r.commitIndex {
      CommitSame(r, whole, k - 1);
    }
  }

  /** A search of the compacted log finds what the search of the whole log finds above the boundary. */
  lemma {:induction false} LastSlotCompacted(whole: Log, k: nat, at: nat, term: int)
    requires k + at <= |whole|
    ensures LastSlotOfTerm(Compact(whole, k), at, term)
         == var slot := LastSlotOfTerm(Compact(whole, 0), k + at, term); if slot > k then slot - k else 0
    decreases at
  {
    if at > 0 {
      assert Compact(whole, k)[at] == whole[k + at - 1] == Compact(whole, 0)[k + at];
      LastSlotCompacted(whole, k, at - 1, term);
    }
  }

  /** The last index of the whole log with the conflicting term; 0 if there is none. */
  function ConflictSlot(whole: Log, reply: AppendEntriesReply): nat {
    LastSlotOfTerm(Compact(whole, 0), |whole|, reply.conflictTerm)
  }

  /** The conflicting term occurs in the log, but only under the snapshot. */
  predicate HiddenConflict(r: Peer, whole: Log, reply: AppendEntriesReply) {
    reply.conflictTerm != -1 && 0 < ConflictSlot(whole, reply) <= r.lastIncludedIndex
  }

  lemma BackupCompacted(r: Peer, whole: Log, next: int, reply: AppendEntriesReply)
    requires WellFormed(r) && LogCompacts(r, whole)
    ensures !HiddenConflict(r, whole, reply) ==> Backup(r, next, reply) == Backup(Expand(r, whole), next, reply)
    ensures HiddenConflict(r, whole, reply) ==>
              && Backup(r, next, reply) == (if reply.conflictIndex < 1 then 1 else reply.conflictIndex)
              && Backup(Expand(r, whole), next, reply) == ConflictSlot(whole, reply) + 1
  {
    LastSlotCompacted(whole, r.lastIncludedIndex, |whole| - r.lastIncludedIndex, reply.conflictTerm);
  }

  function ConflictNext(reply: AppendEntriesReply): int {
    if reply.conflictIndex < 1 then 1 else reply.conflictIndex
  }

  /** The reply makes the leader back up. */
  predicate BacksUp(r: Peer, args: AppendEntriesArgs, reply: AppendEntriesReply) {
    r.currentTerm == args.term && r.role == Leader && reply.term <= r.currentTerm && !reply.success
  }

  /** g and h, left by the handler on the compacted and on the whole log, are the same but for nextIndex of the
      follower, which goes back to the follower's conflict index on the compacted log where the whole log would have
      shown the conflicting term under the snapshot. */
  ghost predicate RepliesSame(r: Peer, whole: Log, from: nat, args: AppendEntriesArgs, reply: AppendEntriesReply)
    requires WellFormed(r) && from < r.n && LogCompacts(r, whole)
  {
    var g, h := OnAppendReply(r, from, args, reply), OnAppendReply(Expand(r, whole), from, args, reply);
    var hidden := BacksUp(r, args, reply) && HiddenConflict(r, whole, reply);
    && Mirrors(g, h.(nextIndex := g.nextIndex), whole)
    && (hidden ==>
          && g.nextIndex == r.nextIndex[from := ConflictNext(reply)]
          && h.nextIndex == r.nextIndex[from := ConflictSlot(whole, reply) + 1])
    && (Mirrors(g, h, whole) <==> !hidden || ConflictNext(reply) == ConflictSlot(whole, reply) + 1)
  }

  lemma AppendReplySame(r: Peer, whole: Log, from: nat, args: AppendEntriesArgs, reply: AppendEntriesReply)
    requires WellFormed(r) && from < r.n && LogCompacts(r, whole)
    ensures RepliesSame(r, whole, from, args, reply)
  {
    if BacksUp(r, args, reply) {
      BackedSame(r, whole, from, args, reply);
    } else {
      StoredSame(r, whole, from, args, reply);
    }
  }

  /** A reply to AppendEntries does the same, the search for a commit index included, but for that nextIndex. */
  lemma AppendReplyCompacted(run: seq<C.Cluster>, steps: seq<C.Step>, specs: seq<Spec>, acts: seq<seq<Action>>, i: nat, p: nat,
                             from: nat, args: AppendEntriesArgs, reply: AppendEntriesReply)
    requires History(run, steps, specs, acts) && i < |run| && p < |run[i].hosts| && from < |run[i].hosts|
    ensures var r, whole := run[i].hosts[p].raft, WholeAt(specs, i, p);
            && WellFormed(r) && from < r.n && CompactionOf(r, whole)
            && RepliesSame(r, whole, from, args, reply)
  {
    Behind(run, steps, specs, acts, i, p);
    assert Rel(run[i], specs[i]);
    AppendReplySame(run[i].hosts[p].raft, WholeAt(specs, i, p), from, args, reply);
  }

  lemma StoredSame(r: Peer, whole: Log, from: nat, args: AppendEntriesArgs, reply: AppendEntriesReply)
    requires WellFormed(r) && LogCompacts(r, whole) && from < r.n && !BacksUp(r, args, reply)
    ensures Mirrors(OnAppendReply(r, from, args, reply), OnAppendReply(Expand(r, whole), from, args, reply), whole)
  {
    if r.currentTerm == args.term && r.role == Leader && reply.term <= r.currentTerm {
      var newMatch := args.prevLogIndex + |args.entries|;
      var next := if newMatch + 1 > r.nextIndex[from] then newMatch + 1 else r.nextIndex[from];
      var m := r.(matchIndex := r.matchIndex[from := Max(r.matchIndex[from], newMatch)],
                  nextIndex := r.nextIndex[from := next]);
      AdvanceSame(m, whole);
    } else {
      FollowSame(r, whole, reply.term);
    }
  }

  lemma AdvanceSame(r: Peer, whole: Log)
    requires WellFormed(r) && LogCompacts(r, whole)
    ensures Mirrors(AdvanceCommit(r), AdvanceCommit(Expand(r, whole)), whole)
  {
    SameEnd(r, whole);
    CommitSame(r, whole, |whole|);
  }

  lemma BackedSame(r: Peer, whole: Log, from: nat, args: AppendEntriesArgs, reply: AppendEntriesReply)
    requires WellFormed(r) && LogCompacts(r, whole) && from < r.n && BacksUp(r, args, reply)
    ensures RepliesSame(r, whole, from, args, reply)
  {
    var g, h := OnAppendReply(r, from, args, reply), OnAppendReply(Expand(r, whole), from, args, reply);
    BackupCompacted(r, whole, r.nextIndex[from], reply);
    assert g.nextIndex[from] == Backup(r, r.nextIndex[from], reply);
    assert h.nextIndex[from] == Backup(Expand(r, whole), r.nextIndex[from], reply);
  }

  // ---------------------------------------------------------------- the follower

  /** Skipping the check of entries under the snapshot decides as the check on the whole log would. */
  lemma SameDecision(f: Peer, e: Peer, s: Spec, p: nat, args: AppendEntriesArgs, m: Append)
    requires Inv(s) && PeerOK(f, s, p) && PeerOK(e, s, p) && e.lastIncludedIndex == 0 && CanAccept(s, p, m)
    requires Carries(s, args, m.log) && m == Append(args.term, m.log, args.leaderCommit)
    ensures AppendStores(f, s, p, args) <==> AppendStores(e, s, p, args)
  {
    var k, prev := f.lastIncludedIndex, args.prevLogIndex;
    if prev < k && prev > 0 {
      SnapshotInLeader(s, p, k, m);
      var nd := s.nodes[p];
      if |m.log| <= k {
        assert nd.log[prev - 1] == m.log[prev - 1];
      } else {
        assert nd.log[prev - 1] == nd.log[..k][prev - 1] == m.log[..k][prev - 1];
      }
    }
  }

  /** The run of a term in the compacted log starts where it does in the whole log, or at the boundary. */
  lemma {:induction false} RunStartCompacted(whole: Log, k: nat, at: nat, term: nat)
    requires k + at <= |whole|
    ensures k + RunStart(Compact(whole, k), at, term) == Max(k, RunStart(Compact(whole, 0), k + at, term))
    decreases at
  {
    if at > 0 {
      assert Compact(whole, k)[at - 1].term == Compact(whole, 0)[k + at - 1].term;
      RunStartCompacted(whole, k, at - 1, term);
    }
  }

  /** The replies are the same, but for a conflict index that stops at the boundary. */
  predicate SameReply(k: nat, reply: AppendEntriesReply, full: AppendEntriesReply) {
    && reply.term == full.term && reply.success == full.success
    && reply.conflictTerm == full.conflictTerm && reply.xLen == full.xLen
    && reply.conflictIndex == if full.conflictTerm == -1 then full.conflictIndex else MaxInt(k, full.conflictIndex)
  }

  function MaxInt(a: int, b: int): int { if a < b then b else a }

  lemma RejectedReply(f: Peer, whole: Log, args: AppendEntriesArgs, xLen: nat)
    requires WellFormed(f) && LogCompacts(f, whole) && args.prevLogIndex >= f.lastIncludedIndex
    requires args.prevLogIndex <= |whole| ==> TermAt(whole, args.prevLogIndex) != args.prevLogTerm
    ensures SameReply(f.lastIncludedIndex, FollowAppend(f, args, xLen).1, FollowAppend(Expand(f, whole), args, xLen).1)
  {
    var k, prev := f.lastIncludedIndex, args.prevLogIndex;
    SameEnd(f, whole);
    if prev <= |whole| {
      RunStartCompacted(whole, k, prev - k, TermAt(whole, prev));
    }
  }

  lemma AcceptedReply(f: Peer, args: AppendEntriesArgs, xLen: nat)
    requires WellFormed(f) && FollowAppend(f, args, xLen).1.success
    ensures FollowAppend(f, args, xLen).1 == AppendEntriesReply(f.currentTerm, true, -1, -1, xLen)
  {
  }

  /** Handling a request in the follower's own term touches only log, commit index and disk. */
  lemma FollowFrame(f: Peer, args: AppendEntriesArgs, xLen: nat)
    requires WellFormed(f)
    ensures var g := FollowAppend(f, args, xLen).0;
            && g == f.(log := g.log, commitIndex := g.commitIndex, disk := g.disk)
            && g.disk.snapshot == f.disk.snapshot
            && (g.disk == f.disk || g.disk.raftstate == Encode(g))
  {
  }

  lemma MirrorAccepted(f: Peer, whole: Log, g: Peer, h: Peer, s: Spec, p: nat)
    requires PeerOK(g, s, p) && PeerOK(h, s, p)
    requires var e := Expand(f, whole);
             && g == f.(log := g.log, commitIndex := g.commitIndex, disk := g.disk)
             && h == e.(log := h.log, commitIndex := h.commitIndex, disk := h.disk)
             && h.disk.snapshot == [] && h.disk.raftstate.Saved?
    ensures Mirrors(g, h, s.nodes[p].log)
  {
  }

  lemma PrefixOfPrefix(a: Log, b: Log, c: nat, k: nat)
    requires k <= c <= |a| && a[..c] <= b
    ensures k <= |b| && b[..k] == a[..k]
  {
    assert b[..c] == a[..c];
    assert b[..k] == b[..c][..k] && a[..k] == a[..c][..k];
  }

  /** A follower in the request's term does the same on the compacted and on the whole log. */
  ghost predicate FollowsSame(f: Peer, whole: Log, args: AppendEntriesArgs, xLen: nat, whole': Log)
    requires WellFormed(f)
  {
    var (g, reply) := FollowAppend(f, args, xLen);
    var (h, reply') := FollowAppend(Expand(f, whole), args, xLen);
    && SameReply(f.lastIncludedIndex, reply, reply') && Mirrors(g, h, whole')
    && KeepsUnder(f.lastIncludedIndex, whole, whole')
    && (reply.success <==> Fits(whole, args))
    && whole' == (if Fits(whole, args) then Stored(whole, args) else whole)
  }

  /** The log has the entry that the request builds on. */
  predicate Fits(whole: Log, args: AppendEntriesArgs) {
    args.prevLogIndex <= |whole| && TermAt(whole, args.prevLogIndex) == args.prevLogTerm
  }

  /** What storing the request must yield: the log as it was if it has the entries, else the log cut where they begin
      and continued by them. */
  function Stored(whole: Log, args: AppendEntriesArgs): Log
    requires args.prevLogIndex <= |whole|
  {
    var sent := whole[..args.prevLogIndex] + args.entries;
    if sent <= whole then whole else sent
  }

  /** Both logs have the same entries up to index k. */
  predicate KeepsUnder(k: nat, whole: Log, whole': Log) {
    k <= |whole| && k <= |whole'| && whole'[..k] == whole[..k]
  }

  lemma AppendSame(f: Peer, s: Spec, p: nat, args: AppendEntriesArgs, xLen: nat) returns (whole': Log)
    requires Inv(s) && PeerOK(f, s, p) && WellFormed(f) && LogCompacts(f, s.nodes[p].log)
    requires f.role == Follower && f.currentTerm == args.term && AppendRequestOK(s, args)
    ensures FollowsSame(f, s.nodes[p].log, args, xLen, whole')
  {
    var whole := s.nodes[p].log;
    var log :| Carries(s, args, log);
    var m := Append(args.term, log, args.leaderCommit);
    assert AppendStores(f, s, p, args) <==> Fits(whole, args) by {
      ExpandOK(f, s, p);
      SameDecision(f, Expand(f, whole), s, p, args, m);
    }
    if Fits(whole, args) {
      whole' := Stored(whole, args);
      AppendStoredSame(f, whole, s, p, args, m, xLen);
    } else {
      whole' := whole;
      AppendRejectedSame(f, whole, s, p, args, m, xLen);
    }
  }

  /** The protocol's merge is what storing the request must yield. */
  lemma MergeStores(s: Spec, p: nat, args: AppendEntriesArgs, m: Append)
    requires Inv(s) && CanAccept(s, p, m) && Carries(s, args, m.log) && Fits(s.nodes[p].log, args)
    ensures Accept(s, p, m).nodes[p].log == Stored(s.nodes[p].log, args)
  {
    var prev, log := args.prevLogIndex, s.nodes[p].log;
    PrefixMatches(s, p, m, prev);
    assert m.log == m.log[..prev] + m.log[prev..] == log[..prev] + args.entries;
  }

  lemma AppendStoredSame(f: Peer, whole: Log, s: Spec, p: nat, args: AppendEntriesArgs, m: Append, xLen: nat)
    requires Inv(s) && PeerOK(f, s, p) && WellFormed(f) && whole == s.nodes[p].log && LogCompacts(f, whole)
    requires f.role == Follower && CanAccept(s, p, m) && Carries(s, args, m.log)
    requires m == Append(args.term, m.log, args.leaderCommit)
    requires AppendStores(f, s, p, args) && Fits(whole, args)
    ensures FollowsSame(f, whole, args, xLen, Stored(whole, args))
  {
    var e := Expand(f, whole);
    ExpandOK(f, s, p);
    MergeStores(s, p, args, m);
    AppendAccepted(f, s, p, args, m, xLen);
    AppendAccepted(e, s, p, args, m, xLen);
    AcceptedReply(f, args, xLen);
    AcceptedReply(e, args, xLen);
    FollowFrame(f, args, xLen);
    FollowFrame(e, args, xLen);
    PrefixOfPrefix(whole, Stored(whole, args), s.nodes[p].commit, f.lastIncludedIndex);
    MirrorAccepted(f, whole, FollowAppend(f, args, xLen).0, FollowAppend(e, args, xLen).0, Accept(s, p, m), p);
  }

  lemma AppendRejectedSame(f: Peer, whole: Log, s: Spec, p: nat, args: AppendEntriesArgs, m: Append, xLen: nat)
    requires Inv(s) && PeerOK(f, s, p) && WellFormed(f) && whole == s.nodes[p].log && LogCompacts(f, whole)
    requires f.role == Follower && CanAccept(s, p, m) && Carries(s, args, m.log)
    requires m == Append(args.term, m.log, args.leaderCommit)
    requires !AppendStores(f, s, p, args) && !Fits(whole, args)
    ensures FollowsSame(f, whole, args, xLen, whole)
  {
    ExpandOK(f, s, p);
    AppendRejected(f, s, p, args, m, xLen);
    AppendRejected(Expand(f, whole), s, p, args, m, xLen);
    RejectedReply(f, whole, args, xLen);
  }

  /** AppendEntries gives the same reply, but for a conflict index that stops at the snapshot, and leaves, in every
      field, the compaction of what it leaves on the whole log. It stores a request of an acceptable term exactly if the
      whole log has the entry that the request builds on, and cuts the log only if the entries are not there. */
  ghost predicate AppendsSame(r: Peer, whole: Log, args: AppendEntriesArgs, whole': Log)
    requires WellFormed(r) && LogCompacts(r, whole)
  {
    var (g, reply) := AppendEntries(r, args);
    var (h, reply') := AppendEntries(Expand(r, whole), args);
    && SameReply(r.lastIncludedIndex, reply, reply') && Mirrors(g, h, whole')
    && g.lastIncludedIndex == r.lastIncludedIndex && KeepsUnder(r.lastIncludedIndex, whole, whole')
    && var stores := args.term >= r.currentTerm && Fits(whole, args);
       (reply.success <==> stores) && whole' == (if stores then Stored(whole, args) else whole)
  }

  /** A request of an old term is refused alike. */
  lemma StaleAppendSame(r: Peer, whole: Log, args: AppendEntriesArgs)
    requires WellFormed(r) && LogCompacts(r, whole) && args.term < r.currentTerm
    ensures AppendsSame(r, whole, args, whole)
  {
    SameEnd(r, whole);
  }

  /** Any other is handled after following its term. */
  lemma FollowedAppend(r: Peer, whole: Log, args: AppendEntriesArgs, whole': Log)
    requires WellFormed(r) && LogCompacts(r, whole) && args.term >= r.currentTerm
    requires FollowsSame(BecomeFollower(r, args.term), whole, args, LastLogIndex(r) + 1, whole')
    ensures AppendsSame(r, whole, args, whole')
  {
    assert LastLogIndex(r) == LastLogIndex(Expand(r, whole)) by { SameEnd(r, whole); }
    FollowSame(r, whole, args.term);
    FollowFrame(BecomeFollower(r, args.term), args, LastLogIndex(r) + 1);
  }

  lemma FollowedAppendSame(r: Peer, s: Spec, p: nat, args: AppendEntriesArgs, xLen: nat) returns (whole': Log)
    requires Inv(s) && PeerOK(r, s, p) && WellFormed(r) && LogCompacts(r, s.nodes[p].log) && AppendRequestOK(s, args)
    requires args.term >= r.currentTerm
    ensures FollowsSame(BecomeFollower(r, args.term), s.nodes[p].log, args, xLen, whole')
  {
    var s1 := Followed(r, s, p, args.term);
    RequestStable(s, s1, args);
    whole' := AppendSame(BecomeFollower(r, args.term), s1, p, args, xLen);
  }

  /** The protocol state once the peer follows term t. */
  lemma Followed(r: Peer, s: Spec, p: nat, t: nat) returns (s': Spec)
    requires Inv(s) && PeerOK(r, s, p) && t >= r.currentTerm
    ensures Inv(s') && s'.appends == s.appends && p < |s'.nodes| && s'.nodes[p].term == t
    ensures s'.nodes[p].log == s.nodes[p].log && PeerOK(BecomeFollower(r, t), s', p)
  {
    var a;
    s', a := FollowerRefines(r, s, p, t);
    ActionKeeps(s, a, s');
  }

  /** What AppendEntries does to the whole log of a peer. */
  lemma HandledAppend(r: Peer, whole: Log, s: Spec, p: nat, args: AppendEntriesArgs) returns (target: Log)
    requires Inv(s) && PeerOK(r, s, p) && AppendRequestOK(s, args) && whole == s.nodes[p].log
    requires WellFormed(r) && LogCompacts(r, whole)
    ensures AppendsSame(r, whole, args, target)
  {
    if args.term < r.currentTerm {
      target := whole;
      StaleAppendSame(r, whole, args);
    } else {
      target := FollowedAppendSame(r, s, p, args, LastLogIndex(r) + 1);
      FollowedAppend(r, whole, args, target);
    }
  }

  lemma RequestKnown(run: seq<C.Cluster>, steps: seq<C.Step>, specs: seq<Spec>, acts: seq<seq<Action>>, i: nat, msg: C.Message)
    requires History(run, steps, specs, acts) && i < |run| && msg in run[i].net && msg.AppendRequest?
    ensures AppendRequestOK(specs[i], msg.append)
  {
    assert Rel(run[i], specs[i]);
    assert MessageOK(specs[i], msg);
  }

  /** A step of AppendEntries takes the run's uncompacted log to the one that the uncompacted handler leaves. */
  lemma AppendEntriesCompacted(run: seq<C.Cluster>, steps: seq<C.Step>, specs: seq<Spec>, acts: seq<seq<Action>>, i: nat)
    requires History(run, steps, specs, acts) && i < |steps| && steps[i].ReceiveAppend?
    ensures steps[i].m.AppendRequest? && steps[i].m.to < |run[i].hosts|
    ensures var m := steps[i].m;
            var r, whole, whole' := run[i].hosts[m.to].raft, WholeAt(specs, i, m.to), WholeAt(specs, i + 1, m.to);
            WellFormed(r) && CompactionOf(r, whole) && AppendsSame(r, whole, m.append, whole')
  {
    AppendedRun(run, steps, i);
    var m := steps[i].m;
    Behind(run, steps, specs, acts, i, m.to);
    RequestKnown(run, steps, specs, acts, i, m);
    var r, whole := run[i].hosts[m.to].raft, WholeAt(specs, i, m.to);
    var target := HandledAppend(r, whole, specs[i], m.to, m.append);
    WholeBecomes(run, steps, specs, acts, i, m.to, target);
  }

  lemma AppendedRun(run: seq<C.Cluster>, steps: seq<C.Step>, i: nat)
    requires C.IsRun(run, steps) && i < |steps| && steps[i].ReceiveAppend?
    ensures var m := steps[i].m;
            && m.AppendRequest? && m in run[i].net && m.to < |run[i].hosts| && m.to < |run[i + 1].hosts|
            && WellFormed(run[i].hosts[m.to].raft)
            && run[i + 1].hosts[m.to].raft == AppendEntries(run[i].hosts[m.to].raft, m.append).0
  {
    assert C.StepAt(run, steps, i);
  }

  // ---------------------------------------------------------------- snapshots of a leader

  /** The peer that the uncompacted handler leaves when it installs a snapshot that the compacted peer already has. */
  function Requeued(e: Peer, whole: Log, args: InstallSnapshotArgs): Peer
    requires args.lastIncludedIndex <= |whole|
  {
    var S := args.lastIncludedIndex;
    var h := e.(log := Compact(whole, S), lastIncludedIndex := S, lastIncludedTerm := args.lastIncludedTerm,
                lastApplied := Max(e.lastApplied, S));
    PersistWithSnapshot(h, args.data).(pendingSnapshot := args.data, pendingSnapshotIndex := S,
                                       pendingSnapshotTerm := args.lastIncludedTerm)
  }

  /** The queue of a peer is exactly this snapshot. */
  predicate Queues(r: Peer, args: InstallSnapshotArgs) {
    r.pendingSnapshot == args.data && r.pendingSnapshotIndex == args.lastIncludedIndex
    && r.pendingSnapshotTerm == args.lastIncludedTerm
  }

  /** InstallSnapshot gives the same reply. Above the boundary the results are equal in every field. At or under it the
      compacted peer, which has these entries under its snapshot, only follows the term, while the uncompacted one
      installs and queues the snapshot again; so the same snapshot waits on both sides exactly if it lies above the
      boundary or is waiting already. */
  ghost predicate InstallsSame(r: Peer, whole: Log, args: InstallSnapshotArgs)
    requires WellFormed(r) && LogCompacts(r, whole)
  {
    var (g, reply) := InstallSnapshot(r, args);
    var (h, reply') := InstallSnapshot(Expand(r, whole), args);
    var S, k := args.lastIncludedIndex, r.lastIncludedIndex;
    && reply == reply'
    && if args.term < r.currentTerm then g == r && h == Expand(r, whole)
       else
         && (S > k ==> g == h)
         && (S <= k ==> g == BecomeFollower(r, args.term) && LogCompacts(g, whole) && h == Requeued(Expand(g, whole), whole, args))
         && Queues(h, args) && (Queues(g, args) <==> S > k || Queues(r, args))
  }

  lemma InstallAbove(r: Peer, whole: Log, args: InstallSnapshotArgs)
    requires WellFormed(r) && LogCompacts(r, whole)
    requires args.term >= r.currentTerm && args.lastIncludedIndex > r.lastIncludedIndex
    ensures InstallSnapshot(r, args) == InstallSnapshot(Expand(r, whole), args)
  {
    var S, k := args.lastIncludedIndex, r.lastIncludedIndex;
    assert LastLogIndex(r) == LastLogIndex(Expand(r, whole)) == |whole| by { SameEnd(r, whole); }
    assert S <= |whole| ==> TermAtIndex(r, S) == TermAtIndex(Expand(r, whole), S);
    assert S <= |whole| ==> Compact(whole, k)[S - k + 1..] == whole[S..] == Compact(whole, 0)[S + 1..];
  }

  lemma InstallUnder(r: Peer, whole: Log, args: InstallSnapshotArgs)
    requires WellFormed(r) && LogCompacts(r, whole) && args.term >= r.currentTerm
    requires 1 <= args.lastIncludedIndex <= r.lastIncludedIndex
    requires TermAt(whole, args.lastIncludedIndex) == args.lastIncludedTerm
    ensures var g := BecomeFollower(r, args.term);
            && InstallSnapshot(r, args) == (g, InstallSnapshotReply(g.currentTerm)) && LogCompacts(g, whole)
            && InstallSnapshot(Expand(r, whole), args)
            == (Requeued(Expand(g, whole), whole, args), InstallSnapshotReply(g.currentTerm))
  {
    var S, f := args.lastIncludedIndex, BecomeFollower(r, args.term);
    FollowSame(r, whole, args.term);
    var e := Expand(f, whole);
    assert LastLogIndex(e) == |whole| by { SameEnd(f, whole); }
    assert TermAtIndex(e, S) == whole[S - 1].term;
    assert Compact(whole, 0)[S + 1..] == whole[S..];
    assert Install(e, args) == Requeued(e, whole, args);
  }

  lemma InstallSame(r: Peer, whole: Log, args: InstallSnapshotArgs)
    requires WellFormed(r) && LogCompacts(r, whole) && args.lastIncludedIndex >= 1
    requires args.term >= r.currentTerm && args.lastIncludedIndex <= r.lastIncludedIndex ==>
               TermAt(whole, args.lastIncludedIndex) == args.lastIncludedTerm
    ensures InstallsSame(r, whole, args)
  {
    if args.term >= r.currentTerm {
      if args.lastIncludedIndex > r.lastIncludedIndex {
        InstallAbove(r, whole, args);
      } else {
        InstallUnder(r, whole, args);
      }
    }
  }

  /** A snapshot that a peer already has, sent by the leader it follows, ends with the term of its own log. */
  lemma KnownSnapshot(r: Peer, s: Spec, p: nat, args: InstallSnapshotArgs)
    requires Inv(s) && PeerOK(r, s, p) && InstallRequestOK(s, args)
    requires args.term >= r.currentTerm && args.lastIncludedIndex <= r.lastIncludedIndex
    ensures args.lastIncludedIndex <= |s.nodes[p].log|
    ensures TermAt(s.nodes[p].log, args.lastIncludedIndex) == args.lastIncludedTerm
  {
    var log :| Ships(s, args, log);
    var s1 := Followed(r, s, p, args.term);
    var m := Append(args.term, log, args.lastIncludedIndex);
    SnapshotInLeader(s1, p, r.lastIncludedIndex, m);
  }

  lemma InstallSnapshotCompacted(run: seq<C.Cluster>, steps: seq<C.Step>, specs: seq<Spec>, acts: seq<seq<Action>>, i: nat,
                                 msg: C.Message)
    requires History(run, steps, specs, acts) && i < |run|
    requires msg in run[i].net && msg.InstallRequest? && msg.to < |run[i].hosts|
    ensures var r, whole := run[i].hosts[msg.to].raft, WholeAt(specs, i, msg.to);
            WellFormed(r) && CompactionOf(r, whole) && InstallsSame(r, whole, msg.install)
  {
    var r, whole := run[i].hosts[msg.to].raft, WholeAt(specs, i, msg.to);
    WholeLogCompacts(run, steps, specs, acts, i, msg.to);
    InstallKnown(run, steps, specs, acts, i, msg);
    InstallSame(r, whole, msg.install);
  }

  lemma InstallKnown(run: seq<C.Cluster>, steps: seq<C.Step>, specs: seq<Spec>, acts: seq<seq<Action>>, i: nat,
                     msg: C.Message)
    requires History(run, steps, specs, acts) && i < |run|
    requires msg in run[i].net && msg.InstallRequest? && msg.to < |run[i].hosts|
    ensures var r, whole, args := run[i].hosts[msg.to].raft, WholeAt(specs, i, msg.to), msg.install;
            && args.lastIncludedIndex >= 1
            && (args.term >= r.currentTerm && args.lastIncludedIndex <= r.lastIncludedIndex ==>
                  args.lastIncludedIndex <= |whole| && TermAt(whole, args.lastIncludedIndex) == args.lastIncludedTerm)
  {
    Behind(run, steps, specs, acts, i, msg.to);
    assert Rel(run[i], specs[i]);
    assert MessageOK(specs[i], msg);
    var r, args := run[i].hosts[msg.to].raft, msg.install;
    var log :| Ships(specs[i], args, log);
    if args.term >= r.currentTerm && args.lastIncludedIndex <= r.lastIncludedIndex {
      KnownSnapshot(r, specs[i], msg.to, args);
    }
  }

  // ---------------------------------------------------------------- service snapshots, the applier and restarts

  /** A service snapshot up to a committed index changes nothing but the boundary: the peer without compaction is the
      same, and so is the waiting snapshot. */
  ghost predicate SnapshotsSame(r: Peer, whole: Log, index: nat, data: seq<Command>)
    requires WellFormed(r) && LogCompacts(r, whole)
  {
    var g := Snapshot(r, index, data);
    && g.lastIncludedIndex == Max(index, r.lastIncludedIndex)
    && Mirrors(g, Expand(r, whole), whole)
    && g.pendingSnapshot == r.pendingSnapshot
  }

  lemma SnapshotSame(r: Peer, whole: Log, index: nat, data: seq<Command>)
    requires WellFormed(r) && LogCompacts(r, whole) && index <= r.commitIndex
    ensures SnapshotsSame(r, whole, index, data)
  {
    SameEnd(r, whole);
    var k := r.lastIncludedIndex;
    if index > k {
      assert Compact(whole, k)[index - k + 1..] == whole[index..];
    }
  }

  lemma SnapshotCompacts(run: seq<C.Cluster>, steps: seq<C.Step>, specs: seq<Spec>, acts: seq<seq<Action>>, i: nat, p: nat,
                         index: nat)
    requires History(run, steps, specs, acts) && i < |run| && p < |run[i].hosts|
    requires 1 <= index <= |run[i].hosts[p].view|
    ensures var h, whole := run[i].hosts[p], WholeAt(specs, i, p);
            && WellFormed(h.raft) && CompactionOf(h.raft, whole)
            && SnapshotsSame(h.raft, whole, index, h.view[..index])
            && CompactionOf(Snapshot(h.raft, index, h.view[..index]), whole)
            && (i < |steps| && steps[i] == C.ServiceSnapshot(p, index) ==> WholeAt(specs, i + 1, p) == whole)
  {
    Behind(run, steps, specs, acts, i, p);
    var h, whole := run[i].hosts[p], WholeAt(specs, i, p);
    SnapshotSame(h.raft, whole, index, h.view[..index]);
    assert h.view[..index] == Commands(whole[..index]);
    if i < |steps| && steps[i] == C.ServiceSnapshot(p, index) {
      SnapshotRun(run, steps, i, p, index);
      WholeBecomes(run, steps, specs, acts, i, p, whole);
    }
  }

  lemma SnapshotRun(run: seq<C.Cluster>, steps: seq<C.Step>, i: nat, p: nat, index: nat)
    requires C.IsRun(run, steps) && i < |steps| && p < |run[i].hosts| && steps[i] == C.ServiceSnapshot(p, index)
    ensures var h := run[i].hosts[p];
            && p < |run[i + 1].hosts| && index <= |h.view| && WellFormed(h.raft)
            && run[i + 1].hosts[p].raft == Snapshot(h.raft, index, h.view[..index])
  {
    assert C.StepAt(run, steps, i);
  }

  /** Without a waiting snapshot the applier takes the same command; a waiting one it takes first. */
  ghost predicate TakesSame(r: Peer, whole: Log)
    requires LogCompacts(r, whole) && CanTake(r) && CanTake(Expand(r, whole))
  {
    var (g, phase) := ApplierTake(r);
    if r.pendingSnapshot == [] then
      var (h, phase') := ApplierTake(Expand(r, whole));
      phase == phase' && Mirrors(g, h, whole)
    else
      && phase == SendingSnapshot(r.pendingSnapshotIndex, r.pendingSnapshotTerm, r.pendingSnapshot)
      && 1 <= phase.index <= r.lastIncludedIndex && phase.term == TermAt(whole, phase.index)
      && Mirrors(g, Expand(r, whole), whole)
  }

  lemma TakeSame(r: Peer, whole: Log)
    requires WellFormed(r) && LogCompacts(r, whole)
    requires r.pendingSnapshot == [] ==> r.lastApplied >= r.lastIncludedIndex
    requires r.pendingSnapshot != [] ==>
               && 1 <= r.pendingSnapshotIndex <= r.lastIncludedIndex
               && r.pendingSnapshotTerm == TermAt(whole, r.pendingSnapshotIndex)
    ensures CanTake(r) && CanTake(Expand(r, whole)) && TakesSame(r, whole)
  {
    SameEnd(r, whole);
    if r.pendingSnapshot == [] && r.lastApplied < r.commitIndex {
      var next := r.lastApplied + 1;
      assert r.log[next - r.lastIncludedIndex] == whole[next - 1] == Compact(whole, 0)[next];
    }
  }

  /** ... which holds exactly the commands, all committed, that it would have taken from the whole log. */
  lemma TakeCompacted(run: seq<C.Cluster>, steps: seq<C.Step>, specs: seq<Spec>, acts: seq<seq<Action>>, i: nat, p: nat)
    requires History(run, steps, specs, acts) && i < |run| && p < |run[i].hosts| && run[i].hosts[p].phase == Idle
    ensures var r, whole := run[i].hosts[p].raft, WholeAt(specs, i, p);
            && CompactionOf(r, whole) && CanTake(r) && CanTake(Expand(r, whole)) && TakesSame(r, whole)
            && (r.pendingSnapshot != [] ==> r.pendingSnapshot == Commands(whole[..r.pendingSnapshotIndex]))
  {
    Behind(run, steps, specs, acts, i, p);
    TakeSame(run[i].hosts[p].raft, WholeAt(specs, i, p));
  }

  /** A restart recovers the same term, vote and whole log. The compacted peer starts at its boundary, with the saved
      snapshot waiting; the uncompacted one starts at 0, with none. So they start alike exactly at boundary 0. */
  ghost predicate RestartsSame(n: nat, p: nat, r: Peer, whole: Log) {
    var again, full := Make(n, p, r.disk), Make(n, p, Expand(r, whole).disk);
    var k := r.lastIncludedIndex;
    && LogCompacts(again, whole)
    && full == Expand(again, whole).(commitIndex := 0, lastApplied := 0, pendingSnapshotIndex := 0, pendingSnapshotTerm := 0)
    && again.commitIndex == again.lastApplied == again.lastIncludedIndex == k
    && again.pendingSnapshot == r.disk.snapshot && |r.disk.snapshot| == k
    && (k > 0 ==> again.pendingSnapshotIndex == k && again.pendingSnapshotTerm == TermAt(whole, k))
    && (Mirrors(again, full, whole) <==> k == 0)
  }

  lemma RestartSame(n: nat, p: nat, r: Peer, whole: Log)
    requires LogCompacts(r, whole) && Load(r.disk.raftstate) == Encode(r) && |r.disk.snapshot| == r.lastIncludedIndex
    requires r.lastIncludedTerm == TermAt(whole, r.lastIncludedIndex)
    ensures RestartsSame(n, p, r, whole)
  {
  }

  lemma MakeCompacted(run: seq<C.Cluster>, steps: seq<C.Step>, specs: seq<Spec>, acts: seq<seq<Action>>, i: nat, p: nat)
    requires History(run, steps, specs, acts) && i < |run| && p < |run[i].hosts|
    ensures var r, whole := run[i].hosts[p].raft, WholeAt(specs, i, p);
            && CompactionOf(r, whole) && RestartsSame(|run[i].hosts|, p, r, whole)
            && (i < |steps| && steps[i] == C.Crash(p) ==> WholeAt(specs, i + 1, p) == whole)
  {
    Behind(run, steps, specs, acts, i, p);
    var r, whole := run[i].hosts[p].raft, WholeAt(specs, i, p);
    RestartSame(|run[i].hosts|, p, r, whole);
    if i < |steps| && steps[i] == C.Crash(p) {
      CrashRun(run, steps, i, p);
      WholeBecomes(run, steps, specs, acts, i, p, whole);
    }
  }

  lemma CrashRun(run: seq<C.Cluster>, steps: seq<C.Step>, i: nat, p: nat)
    requires C.IsRun(run, steps) && i < |steps| && p < |run[i].hosts| && steps[i] == C.Crash(p)
    ensures p < |run[i + 1].hosts| && run[i + 1].hosts[p].raft == Make(|run[i].hosts|, p, run[i].hosts[p].raft.disk)
  {
    assert C.StepAt(run, steps, i);
  }
}
