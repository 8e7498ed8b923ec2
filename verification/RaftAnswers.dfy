/** What every handler answers, said outright in terms of the uncompacted log: when a vote is granted, which index Start
    returns, what is stored and what is rejected, how far the leader commits, what is sent and what is applied. */
module RaftAnswers {
  import opened RaftTypes
  import opened RaftProtocol
  import opened RaftPeer
  import opened RaftRefinement
  import opened RaftCompaction
  import S = RaftSafety

  // ---------------------------------------------------------------- elections

  ghost predicate ElectionAnswers(r: Peer, whole: Log)
    requires WellFormed(r)
  {
    var (g, args) := StartElection(r);
    && args == RequestVoteArgs(r.currentTerm + 1, r.me, |whole|, LastTerm(whole))
    && g == r.(role := Candidate, currentTerm := r.currentTerm + 1, votedFor := r.me, votes := 1,
               awaiting := g.awaiting, disk := Disk(Encode(g), r.disk.snapshot))
    && forall q: nat :: q in g.awaiting <==> q < r.n && q != r.me
  }

  lemma ElectionExactly(r: Peer, whole: Log)
    requires WellFormed(r) && LogCompacts(r, whole)
    ensures ElectionAnswers(r, whole)
  {
    SameEnd(r, whole);
  }

  /** A vote is granted exactly to a candidate of an acceptable term, if the vote of that term is free or already its
      own, and its log is at least as up to date. */
  ghost predicate VoteAnswers(r: Peer, whole: Log, candidate: Log, args: RequestVoteArgs)
    requires WellFormed(r)
  {
    var (g, reply) := RequestVote(r, args);
    var newer := args.term > r.currentTerm;
    var free := newer || r.votedFor == -1 || r.votedFor == args.candidateId;
    && reply.term == Max(r.currentTerm, args.term)
    && (reply.voteGranted <==> args.term >= r.currentTerm && free && UpToDate(candidate, whole))
    && g == r.(currentTerm := Max(r.currentTerm, args.term),
               votedFor := if reply.voteGranted then args.candidateId else if newer then -1 else r.votedFor,
               role := if newer then Follower else r.role, disk := g.disk)
    && (g.disk == Disk(Encode(g), r.disk.snapshot) || g == r)
  }

  lemma VoteExactly(r: Peer, whole: Log, candidate: Log, args: RequestVoteArgs)
    requires WellFormed(r) && LogCompacts(r, whole)
    requires args.lastLogIndex == |candidate| && args.lastLogTerm == LastTerm(candidate)
    ensures VoteAnswers(r, whole, candidate, args)
  {
    assert LastLogIndex(r) == |whole| && LastLogTerm(r) == LastTerm(whole) by { LastOfWhole(r, whole); }
  }

  lemma LastOfWhole(r: Peer, whole: Log)
    requires LogCompacts(r, whole)
    ensures LastLogIndex(r) == |whole| && LastLogTerm(r) == LastTerm(whole)
  {
  }

  /** A granted vote counts once, and more than half of the votes elect. */
  ghost predicate VoteReplyAnswers(r: Peer, whole: Log, from: nat, term: nat, reply: RequestVoteReply)
    requires WellFormed(r)
  {
    var g := OnVoteReply(r, from, term, reply);
    if r.currentTerm != term || r.role != Candidate then g == r.(awaiting := g.awaiting)
    else if reply.term > term then g.role == Follower && g.currentTerm == reply.term && g.votedFor == -1 && g.log == r.log
    else
      && g.votes == r.votes + (if reply.voteGranted then 1 else 0)
      && g.role == (if reply.voteGranted && g.votes * 2 > r.n then Leader else Candidate)
      && |g.nextIndex| == |g.matchIndex| == r.n
      && (g.role == Leader ==> forall q :: 0 <= q < r.n ==>
            g.nextIndex[q] == |whole| + 1 && g.matchIndex[q] == if q == r.me then |whole| else 0)
      && g == r.(votes := g.votes, role := g.role, awaiting := r.awaiting - {from},
                 nextIndex := if g.role == Leader then g.nextIndex else r.nextIndex,
                 matchIndex := if g.role == Leader then g.matchIndex else r.matchIndex)
  }

  lemma VoteReplyExactly(r: Peer, whole: Log, from: nat, term: nat, reply: RequestVoteReply)
    requires WellFormed(r) && LogCompacts(r, whole)
    ensures VoteReplyAnswers(r, whole, from, term, reply)
  {
    LastOfWhole(r, whole);
  }

  // ---------------------------------------------------------------- the leader

  /** A leader appends the command at the index right after its log and returns that index. */
  ghost predicate StartAnswers(r: Peer, whole: Log, command: Command)
    requires WellFormed(r)
  {
    var (g, index, term, leads) := Start(r, command);
    && term == r.currentTerm && (leads <==> r.role == Leader)
    && (leads ==>
          && index == |whole| + 1 && S.Holds(g, index) && S.EntryAt(g, index) == LogEntry(r.currentTerm, command)
          && LogCompacts(g, whole + [LogEntry(r.currentTerm, command)])
          && g == r.(log := g.log, matchIndex := r.matchIndex[r.me := index], nextIndex := r.nextIndex[r.me := index + 1],
                     disk := Disk(Encode(g), r.disk.snapshot)))
    && (!leads ==> index == -1 && g == r)
  }

  lemma StartExactly(r: Peer, whole: Log, command: Command)
    requires WellFormed(r) && LogCompacts(r, whole)
    ensures StartAnswers(r, whole, command)
  {
    LastOfWhole(r, whole);
    StartSame(r, whole, command);
  }

  /** A leader sends the entries from nextIndex on, or, if it has compacted some of them, its snapshot. */
  ghost predicate ReplicateAnswers(r: Peer, whole: Log, to: nat)
    requires CanReplicate(r, to)
  {
    var k, next, out := r.lastIncludedIndex, r.nextIndex[to], ReplicateTo(r, to);
    if r.role != Leader then out == Nothing
    else if next <= k then
      out == OutInstall(InstallSnapshotArgs(r.currentTerm, r.me, k, r.lastIncludedTerm, r.disk.snapshot))
    else
      && 1 <= next <= |whole| + 1
      && out == OutAppend(AppendEntriesArgs(r.currentTerm, r.me, next - 1, TermAt(whole, next - 1), whole[next - 1..],
                                            r.commitIndex))
  }

  lemma ReplicateExactly(r: Peer, whole: Log, to: nat)
    requires LogCompacts(r, whole) && CanReplicate(r, to)
    ensures ReplicateAnswers(r, whole, to)
  {
    LastOfWhole(r, whole);
    if r.role == Leader && r.nextIndex[to] > r.lastIncludedIndex {
      TailOf(whole, r.lastIncludedIndex, r.nextIndex[to]);
    }
  }

  /** The peers known to have stored index k, the leader included. */
  function Storers(r: Peer, k: nat): set<nat>
    requires |r.matchIndex| == r.n
  {
    set q: nat | q < r.n && (q == r.me || r.matchIndex[q] >= k)
  }

  /** An index of the current term above the commit index that a majority has stored. */
  predicate Committable(r: Peer, k: nat)
    requires WellFormed(r)
  {
    && r.commitIndex < k <= LastLogIndex(r) && r.lastIncludedIndex < k
    && TermAtIndex(r, k) == r.currentTerm && 2 * |Storers(r, k)| > r.n
  }

  lemma CountIsStorers(r: Peer, k: nat)
    requires WellFormed(r)
    ensures 1 + CountMatches(r.matchIndex, r.me, k, r.n) == |Storers(r, k)|
  {
    var others := Matching(r.matchIndex, r.me, k, r.n);
    assert Storers(r, k) == others + {r.me};
  }

  /** The search finds the largest committable index. */
  lemma {:induction false} SearchExactly(r: Peer, k: nat)
    requires WellFormed(r) && k <= LastLogIndex(r)
    ensures forall j: nat :: j <= k && Committable(r, j) ==> j <= CommitFrom(r, k)
    ensures CommitFrom(r, k) == r.commitIndex || (CommitFrom(r, k) <= k && Committable(r, CommitFrom(r, k)))
    decreases k
  {
    CountIsStorers(r, k);
    if k > r.commitIndex && k > r.lastIncludedIndex && !Committable(r, k) {
      SearchExactly(r, k - 1);
    }
  }

  /** Advancing the commit index takes it to the largest committable index, and nowhere if there is none. */
  ghost predicate CommitAnswers(r: Peer, g: Peer)
    requires WellFormed(r)
  {
    && g == r.(commitIndex := g.commitIndex)
    && (forall k: nat :: Committable(r, k) ==> k <= g.commitIndex)
    && (g.commitIndex == r.commitIndex || Committable(r, g.commitIndex))
  }

  lemma CommitExactly(r: Peer)
    requires WellFormed(r)
    ensures CommitAnswers(r, AdvanceCommit(r))
  {
    SearchExactly(r, LastLogIndex(r));
  }

  /** The last index of the uncompacted part of the log with this term is j. */
  predicate LastWithTerm(whole: Log, k: nat, term: int, j: int) {
    && k < j <= |whole| && TermAt(whole, j) == term
    && forall i: nat :: j < i <= |whole| ==> TermAt(whole, i) != term
  }

  predicate HasTerm(whole: Log, k: nat, term: int) {
    exists j: nat :: k < j <= |whole| && TermAt(whole, j) == term
  }

  /** Where fast backup goes. */
  predicate BacksTo(r: Peer, whole: Log, was: int, reply: AppendEntriesReply, next: int) {
    var k := r.lastIncludedIndex;
    if reply.conflictTerm == -1 then
      var target := if reply.conflictIndex > 0 then reply.conflictIndex else if reply.xLen > 0 then reply.xLen else was;
      next == if target < 1 then 1 else target
    else if HasTerm(whole, k, reply.conflictTerm) then LastWithTerm(whole, k, reply.conflictTerm, next - 1)
    else next == ConflictNext(reply)
  }

  lemma {:induction false} SearchedTerm(whole: Log, k: nat, at: nat, term: int)
    requires k + at <= |whole|
    ensures var slot := LastSlotOfTerm(Compact(whole, k), at, term);
            && (slot > 0 ==> TermAt(whole, k + slot) == term)
            && (forall j: nat :: k + slot < j <= k + at ==> TermAt(whole, j) != term)
    decreases at
  {
    if at > 0 {
      assert Compact(whole, k)[at] == whole[k + at - 1];
      SearchedTerm(whole, k, at - 1, term);
    }
  }

  lemma BackupExactly(r: Peer, whole: Log, was: int, reply: AppendEntriesReply)
    requires WellFormed(r) && LogCompacts(r, whole)
    ensures BacksTo(r, whole, was, reply, Backup(r, was, reply))
  {
    SearchedTerm(whole, r.lastIncludedIndex, |whole| - r.lastIncludedIndex, reply.conflictTerm);
  }

  /** A stored request raises matchIndex and nextIndex and then the commit index as far as it goes; a rejected one backs
      up; others change nothing or end the reign. */
  ghost predicate AppendReplyAnswers(r: Peer, whole: Log, from: nat, args: AppendEntriesArgs, reply: AppendEntriesReply)
    requires WellFormed(r) && from < r.n
  {
    var g := OnAppendReply(r, from, args, reply);
    var stored := args.prevLogIndex + |args.entries|;
    if r.currentTerm != args.term || r.role != Leader then g == r
    else if reply.term > r.currentTerm then
      g.role == Follower && g.currentTerm == reply.term && g.votedFor == -1 && g.log == r.log
    else if reply.success then
      CommitAnswers(r.(matchIndex := r.matchIndex[from := Max(r.matchIndex[from], stored)],
                       nextIndex := r.nextIndex[from := MaxInt(r.nextIndex[from], stored + 1)]), g)
    else
      && |g.nextIndex| == r.n && g == r.(nextIndex := r.nextIndex[from := g.nextIndex[from]])
      && BacksTo(r, whole, r.nextIndex[from], reply, g.nextIndex[from])
  }

  lemma AppendReplyExactly(r: Peer, whole: Log, from: nat, args: AppendEntriesArgs, reply: AppendEntriesReply)
    requires WellFormed(r) && from < r.n && LogCompacts(r, whole)
    ensures AppendReplyAnswers(r, whole, from, args, reply)
  {
    var stored := args.prevLogIndex + |args.entries|;
    var q := r.(matchIndex := r.matchIndex[from := Max(r.matchIndex[from], stored)],
                nextIndex := r.nextIndex[from := MaxInt(r.nextIndex[from], stored + 1)]);
    CommitExactly(q);
    BackupExactly(r, whole, r.nextIndex[from], reply);
  }

  /** A reply to InstallSnapshot raises both indices of the follower to the snapshot's. */
  ghost predicate InstallReplyAnswers(r: Peer, from: nat, args: InstallSnapshotArgs, reply: InstallSnapshotReply)
    requires WellFormed(r) && from < r.n
  {
    var g, S := OnInstallReply(r, from, args, reply), args.lastIncludedIndex;
    if r.currentTerm != args.term || r.role != Leader then g == r
    else if reply.term > r.currentTerm then
      g.role == Follower && g.currentTerm == reply.term && g.votedFor == -1 && g.log == r.log
    else
      g == r.(matchIndex := r.matchIndex[from := Max(r.matchIndex[from], S)],
              nextIndex := r.nextIndex[from := MaxInt(r.nextIndex[from], S + 1)])
  }

  lemma InstallReplyExactly(r: Peer, from: nat, args: InstallSnapshotArgs, reply: InstallSnapshotReply)
    requires WellFormed(r) && from < r.n
    ensures InstallReplyAnswers(r, from, args, reply)
  {
  }

  // ---------------------------------------------------------------- the follower

  /** ci is where the run of term t that ends at prev begins, as far as it is above the boundary. */
  predicate RunBegins(whole: Log, k: nat, prev: nat, t: int, ci: int) {
    && k <= ci <= prev <= |whole|
    && (forall j: nat :: ci <= j <= prev ==> TermAt(whole, j) == t)
    && (ci == k || TermAt(whole, ci - 1) != t)
  }

  lemma {:induction false} RunBeginsAt(whole: Log, k: nat, at: nat, t: nat)
    requires k + at <= |whole| && TermAt(whole, k + at) == t
    ensures RunBegins(whole, k, k + at, t, k + RunStart(Compact(whole, k), at, t))
    decreases at
  {
    if at > 0 {
      assert Compact(whole, k)[at - 1].term == TermAt(whole, k + at - 1);
      if TermAt(whole, k + at - 1) == t {
        RunBeginsAt(whole, k, at - 1, t);
      }
    }
  }

  /** AppendEntries: the term of the reply; the commit index of a success; what a rejection reports. */
  ghost predicate AppendAnswers(r: Peer, whole: Log, args: AppendEntriesArgs)
    requires WellFormed(r)
  {
    var (g, reply) := AppendEntries(r, args);
    && reply.term == Max(r.currentTerm, args.term) && reply.xLen == |whole| + 1
    && g.currentTerm == Max(r.currentTerm, args.term)
    && g.votedFor == (if args.term > r.currentTerm then -1 else r.votedFor)
    && g.role == (if args.term >= r.currentTerm then Follower else r.role)
    && |g.log| >= 1
    && (if reply.success then
          g.commitIndex == Max(r.commitIndex, Min(args.leaderCommit, LastLogIndex(g)))
          && reply.conflictTerm == -1 && reply.conflictIndex == -1
        else
          && g.commitIndex == r.commitIndex && g.log == r.log
          && (args.term < r.currentTerm ==> g == r && reply.conflictTerm == -1 && reply.conflictIndex == -1)
          && (args.term >= r.currentTerm && args.prevLogIndex > |whole| ==>
                reply.conflictTerm == -1 && reply.conflictIndex == |whole| + 1)
          && (args.term >= r.currentTerm && args.prevLogIndex <= |whole| ==>
                && reply.conflictTerm == TermAt(whole, args.prevLogIndex)
                && RunBegins(whole, r.lastIncludedIndex, args.prevLogIndex, reply.conflictTerm, reply.conflictIndex)))
  }

  lemma StoreExactly(f: Peer, whole: Log, prev: nat, prevTerm: nat, entries: Log, commit: nat, xLen: nat)
    requires WellFormed(f) && LogCompacts(f, whole) && f.lastIncludedIndex <= prev
    ensures var (g, reply) := StoreEntries(f, prev, prevTerm, entries, commit, xLen);
            && reply.term == f.currentTerm && reply.xLen == xLen && |g.log| >= 1
            && (reply.success <==> prev <= |whole| && TermAt(whole, prev) == prevTerm)
            && g == f.(log := g.log, commitIndex := g.commitIndex, disk := g.disk)
            && (if reply.success then
                  g.commitIndex == Max(f.commitIndex, Min(commit, LastLogIndex(g)))
                  && reply.conflictTerm == -1 && reply.conflictIndex == -1
                else
                  && g == f
                  && (prev > |whole| ==> reply.conflictTerm == -1 && reply.conflictIndex == |whole| + 1)
                  && (prev <= |whole| ==>
                        && reply.conflictTerm == TermAt(whole, prev)
                        && RunBegins(whole, f.lastIncludedIndex, prev, reply.conflictTerm, reply.conflictIndex)))
  {
    LastOfWhole(f, whole);
    if prev <= |whole| {
      var at := prev - f.lastIncludedIndex;
      assert f.log[at].term == TermAt(whole, prev);
      MergeLength(f.log, at + 1, entries);
      RunBeginsAt(whole, f.lastIncludedIndex, at, TermAt(whole, prev));
    }
  }

  lemma AppendExactly(r: Peer, whole: Log, args: AppendEntriesArgs)
    requires WellFormed(r) && LogCompacts(r, whole) && r.lastIncludedTerm == TermAt(whole, r.lastIncludedIndex)
    ensures AppendAnswers(r, whole, args)
  {
    LastOfWhole(r, whole);
    if args.term >= r.currentTerm {
      var f, k, prev := BecomeFollower(r, args.term), r.lastIncludedIndex, args.prevLogIndex;
      if prev >= k {
        StoreExactly(f, whole, prev, args.prevLogTerm, args.entries, args.leaderCommit, |whole| + 1);
      } else if k - prev <= |args.entries| {
        StoreExactly(f, whole, k, f.lastIncludedTerm, args.entries[k - prev..], args.leaderCommit, |whole| + 1);
      }
    }
  }

  /** A snapshot above the boundary becomes the new boundary and waits for delivery; the log above it is kept exactly if
      the peer has the snapshot's last entry. Any other only brings the term. */
  ghost predicate InstallAnswers(r: Peer, whole: Log, args: InstallSnapshotArgs)
    requires WellFormed(r)
  {
    var (g, reply) := InstallSnapshot(r, args);
    var S := args.lastIncludedIndex;
    && reply.term == g.currentTerm == Max(r.currentTerm, args.term)
    && g.votedFor == (if args.term > r.currentTerm then -1 else r.votedFor)
    && g.role == (if args.term >= r.currentTerm then Follower else r.role)
    && (if args.term >= r.currentTerm && S > r.lastIncludedIndex then
          && g.lastIncludedIndex == S && g.lastIncludedTerm == args.lastIncludedTerm
          && g.log == [LogEntry(args.lastIncludedTerm, Nil)]
                      + (if S <= |whole| && TermAt(whole, S) == args.lastIncludedTerm then whole[S..] else [])
          && g.commitIndex == Max(r.commitIndex, S) && g.lastApplied == Max(r.lastApplied, S)
          && Queues(g, args) && g.disk == Disk(Encode(g), args.data)
        else
          g == r.(currentTerm := g.currentTerm, votedFor := g.votedFor, role := g.role, disk := g.disk)
          && g.disk.snapshot == r.disk.snapshot)
  }

  lemma InstallExactly(r: Peer, whole: Log, args: InstallSnapshotArgs)
    requires WellFormed(r) && LogCompacts(r, whole)
    ensures InstallAnswers(r, whole, args)
  {
    LastOfWhole(r, whole);
    var S, k := args.lastIncludedIndex, r.lastIncludedIndex;
    if S > k && S <= |whole| {
      TailOf(whole, k, S + 1);
    }
  }

  // ---------------------------------------------------------------- the service and the applier

  /** A service snapshot above the boundary and within the log moves the boundary there; any other is ignored. */
  ghost predicate SnapshotAnswers(r: Peer, whole: Log, index: nat, data: seq<Command>)
    requires WellFormed(r)
  {
    var g := Snapshot(r, index, data);
    if r.lastIncludedIndex < index <= |whole| then
      && g == r.(log := Compact(whole, index), lastIncludedIndex := index, lastIncludedTerm := TermAt(whole, index),
                 disk := g.disk)
      && g.disk == Disk(Encode(g), data)
    else g == r
  }

  lemma SnapshotExactly(r: Peer, whole: Log, index: nat, data: seq<Command>)
    requires WellFormed(r) && LogCompacts(r, whole)
    ensures SnapshotAnswers(r, whole, index, data)
  {
    LastOfWhole(r, whole);
    var k := r.lastIncludedIndex;
    if k < index <= |whole| {
      TailOf(whole, k, index + 1);
    }
  }

  /** At rest, the applier takes a waiting snapshot, else the next committed command, else nothing. */
  ghost predicate TakeAnswers(r: Peer, whole: Log)
    requires CanTake(r) && r.commitIndex <= |whole|
  {
    var (g, phase) := ApplierTake(r);
    && g == r.(pendingSnapshot := [])
    && phase == (if r.pendingSnapshot != [] then
                   SendingSnapshot(r.pendingSnapshotIndex, r.pendingSnapshotTerm, r.pendingSnapshot)
                 else if r.lastApplied < r.commitIndex then
                   SendingCommand(r.lastApplied + 1, whole[r.lastApplied].command)
                 else Idle)
  }

  lemma TakeExactly(r: Peer, whole: Log)
    requires CanTake(r) && LogCompacts(r, whole)
    requires r.pendingSnapshot == [] ==> r.lastApplied >= r.lastIncludedIndex
    ensures TakeAnswers(r, whole)
  {
  }
}
