/** The implementation on its compacted log does what the protocol does on the whole log. */
module RaftRefinement {
  import opened RaftTypes
  import opened Quorums
  import opened RaftProtocol
  import opened RaftInvariant
  import opened RaftPreservation
  import opened RaftPeer

  // ---------------------------------------------------------------- sequences of protocol actions

  /** The actions `acts`, in order, take s to s'. */
  ghost predicate Behaves(s: Spec, acts: seq<Action>, s': Spec)
    decreases |acts|
  {
    if acts == [] then s == s'
    else exists mid :: Does(s, acts[0], mid) && Behaves(mid, acts[1..], s')
  }

  lemma Then(s: Spec, a: Action, mid: Spec, acts: seq<Action>, s': Spec)
    requires Does(s, a, mid) && Behaves(mid, acts, s')
    ensures Behaves(s, [a] + acts, s')
  {
    assert ([a] + acts)[1..] == acts;
  }

  lemma Once(s: Spec, a: Action, s': Spec)
    requires Does(s, a, s')
    ensures Behaves(s, [a], s')
  {
    Then(s, a, s', [], s');
    assert [a] + [] == [a];
  }

  /** Any sequence of actions keeps the invariant and only extends history. */
  lemma {:induction false} BehavesKeeps(s: Spec, acts: seq<Action>, s': Spec)
    requires Inv(s) && Behaves(s, acts, s')
    ensures Inv(s') && Extends(s, s')
    decreases |acts|
  {
    if acts != [] {
      var mid :| Does(s, acts[0], mid) && Behaves(mid, acts[1..], s');
      ActionKeeps(s, acts[0], mid);
      BehavesKeeps(mid, acts[1..], s');
      ExtendsTrans(s, mid, s');
    }
  }

  // ---------------------------------------------------------------- the relation

  /** The log that the implementation holds when everything up to index k is under its snapshot. */
  function Compact(log: Log, k: nat): Log
    requires k <= |log|
  {
    [LogEntry(TermAt(log, k), Nil)] + log[k..]
  }

  /** r is nd with the first `lastIncludedIndex` entries, all committed, compacted away. */
  ghost predicate Represents(r: Peer, nd: Node) {
    && r.currentTerm == nd.term && r.votedFor == nd.vote && r.role == nd.role && r.commitIndex == nd.commit
    && r.lastIncludedIndex <= nd.commit <= |nd.log|
    && r.lastIncludedTerm == TermAt(nd.log, r.lastIncludedIndex)
    && r.log == Compact(nd.log, r.lastIncludedIndex)
  }

  /** A crash now would lose neither term, vote, log nor snapshot. */
  ghost predicate Durable(r: Peer, nd: Node)
    requires r.lastIncludedIndex <= |nd.log|
  {
    && Load(r.disk.raftstate) == Encode(r)
    && r.disk.snapshot == Commands(nd.log[..r.lastIncludedIndex])
  }

  /** What the leader of term t believes about peer i is true and in range. */
  ghost predicate ProgressOK(s: Spec, t: nat, p: nat, i: nat, next: int, matched: nat)
    requires p < |s.nodes|
  {
    && 1 <= next <= |s.nodes[p].log| + 1
    && matched <= |s.nodes[p].log|
    && (i != p && matched > 0 ==> HasAck(s, t, i, matched))
  }

  ghost predicate LeaderOK(r: Peer, s: Spec, p: nat)
    requires p < |s.nodes| && |r.nextIndex| == |r.matchIndex| == |s.nodes|
  {
    r.role == Leader ==>
      forall i: nat :: i < |s.nodes| ==> ProgressOK(s, r.currentTerm, p, i, r.nextIndex[i], r.matchIndex[i])
  }

  ghost predicate CandidateOK(r: Peer, s: Spec, p: nat) {
    r.role == Candidate ==>
      && r.awaiting <= Peers(|s.nodes|) - {p}
      && r.votes <= |Supporters(s, r.currentTerm, p) - r.awaiting|
  }

  ghost predicate PendingOK(r: Peer, nd: Node)
    requires r.lastIncludedIndex <= |nd.log|
  {
    r.pendingSnapshot != [] ==>
      && r.pendingSnapshotIndex <= r.lastIncludedIndex
      && r.pendingSnapshotTerm == TermAt(nd.log, r.pendingSnapshotIndex)
      && r.pendingSnapshot == Commands(nd.log[..r.pendingSnapshotIndex])
  }

  ghost predicate PeerOK(r: Peer, s: Spec, p: nat) {
    && p < |s.nodes| && r.n == |s.nodes| && r.me == p
    && |r.nextIndex| == |r.matchIndex| == r.n
    && Represents(r, s.nodes[p])
    && Durable(r, s.nodes[p])
    && PendingOK(r, s.nodes[p])
    && LeaderOK(r, s, p)
    && CandidateOK(r, s, p)
  }

  /** Node p may have changed, but not what it knew to be committed. */
  ghost predicate Moves(s: Spec, s': Spec, p: nat) {
    && |s.nodes| == |s'.nodes|
    && p < |s.nodes|
    && (forall q: nat :: q < |s.nodes| && q != p ==> s'.nodes[q] == s.nodes[q])
    && s.nodes[p].commit <= |s.nodes[p].log|
    && s.nodes[p].commit <= s'.nodes[p].commit
    && s.nodes[p].log[..s.nodes[p].commit] <= s'.nodes[p].log
  }

  lemma MovesTrans(a: Spec, b: Spec, c: Spec, p: nat)
    requires Moves(a, b, p) && Moves(b, c, p)
    ensures Moves(a, c, p)
  {
    var k, k' := a.nodes[p].commit, b.nodes[p].commit;
    var x, y := a.nodes[p].log[..k], b.nodes[p].log[..k'];
    assert x <= y;
    PrefixTrans(x, y, c.nodes[p].log);
  }

  /** A leader's beliefs stay true as acknowledgements are added and its log grows. */
  lemma AcksGrow(s: Spec, s': Spec, r: Peer, p: nat)
    requires p < |s.nodes| && |r.nextIndex| == |r.matchIndex| == |s.nodes| == |s'.nodes| && s.acks <= s'.acks
    requires |s.nodes[p].log| <= |s'.nodes[p].log|
    requires LeaderOK(r, s, p)
    ensures LeaderOK(r, s', p)
  {
    if r.role == Leader {
      forall i: nat | i < |s.nodes|
        ensures ProgressOK(s', r.currentTerm, p, i, r.nextIndex[i], r.matchIndex[i])
      {
        assert ProgressOK(s, r.currentTerm, p, i, r.nextIndex[i], r.matchIndex[i]);
      }
    }
  }

  /** A candidate's votes stay backed as votes are added. */
  lemma CandidateGrows(s: Spec, s': Spec, r: Peer, p: nat)
    requires |s.nodes| == |s'.nodes| && (forall x :: x in s.votes ==> x in s'.votes && s'.votes[x] == s.votes[x])
    requires CandidateOK(r, s, p)
    ensures CandidateOK(r, s', p)
  {
    var t := r.currentTerm;
    assert Supporters(s, t, p) - r.awaiting <= Supporters(s', t, p) - r.awaiting;
    SubsetSize(Supporters(s, t, p) - r.awaiting, Supporters(s', t, p) - r.awaiting);
  }

  // ---------------------------------------------------------------- elections

  /** A newer term, or a message of the current leader: becomeFollower. */
  lemma FollowerRefines(r: Peer, s: Spec, p: nat, t: nat) returns (s': Spec, a: Action)
    requires PeerOK(r, s, p) && t >= r.currentTerm
    ensures Does(s, a, s') && Moves(s, s', p)
    ensures PeerOK(BecomeFollower(r, t), s', p)
    ensures s'.nodes[p].term == t && s'.nodes[p].log == s.nodes[p].log && s'.nodes[p].commit == s.nodes[p].commit
    ensures s'.appends == s.appends && s'.reigns == s.reigns
  {
    if t > r.currentTerm {
      s', a := Bump(s, p, t), DoBump(p, t);
    } else {
      s', a := StepDown(s, p), DoStepDown(p);
    }
  }

  /** The up-to-date comparison on the compacted log is the one on the whole log. */
  lemma SameLast(r: Peer, nd: Node)
    requires Represents(r, nd)
    ensures LastLogIndex(r) == |nd.log| && LastLogTerm(r) == LastTerm(nd.log)
  {
  }

  lemma TimeoutRefines(r: Peer, s: Spec, p: nat) returns (s': Spec)
    requires PeerOK(r, s, p)
    ensures Does(s, DoCampaign(p), s') && Moves(s, s', p)
    ensures PeerOK(StartElection(r).0, s', p)
    ensures var args := StartElection(r).1;
            args.candidateId == p && (args.term, p) in s'.cands
            && args.lastLogIndex == |s'.cands[(args.term, p)]| && args.lastLogTerm == LastTerm(s'.cands[(args.term, p)])
  {
    s' := Campaign(s, p);
    SameLast(r, s.nodes[p]);
    var t := s'.nodes[p].term;
    assert p in Supporters(s', t, p) - (Peers(r.n) - {p});
    SubsetSize({p}, Supporters(s', t, p) - (Peers(r.n) - {p}));
  }

  /** What a vote request says about the candidate's log. */
  ghost predicate VoteRequestOK(s: Spec, args: RequestVoteArgs) {
    && args.candidateId < |s.nodes|
    && (args.term, args.candidateId) in s.cands
    && args.lastLogIndex == |s.cands[(args.term, args.candidateId)]|
    && args.lastLogTerm == LastTerm(s.cands[(args.term, args.candidateId)])
  }

  ghost predicate VoteReplyOK(s: Spec, from: nat, args: RequestVoteArgs, reply: RequestVoteReply) {
    && from < |s.nodes|
    && (reply.voteGranted ==>
          (args.term, from) in s.votes && s.votes[(args.term, from)].cand == args.candidateId)
  }

  /** The election restriction as the implementation evaluates it. */
  predicate Grants(f: Peer, args: RequestVoteArgs)
    requires WellFormed(f)
  {
    && (f.votedFor == -1 || f.votedFor == args.candidateId)
    && (args.lastLogTerm > LastLogTerm(f)
        || (args.lastLogTerm == LastLogTerm(f) && args.lastLogIndex >= LastLogIndex(f)))
  }

  lemma VoteRefines(r: Peer, s: Spec, p: nat, args: RequestVoteArgs) returns (s': Spec, acts: seq<Action>)
    requires Inv(s) && PeerOK(r, s, p) && VoteRequestOK(s, args)
    ensures Behaves(s, acts, s') && Moves(s, s', p)
    ensures PeerOK(RequestVote(r, args).0, s', p)
    ensures VoteReplyOK(s', p, args, RequestVote(r, args).1)
  {
    if args.term <= r.currentTerm {
      s', acts := BallotRefines(r, s, p, args);
    } else {
      var s1, a := FollowerRefines(r, s, p, args.term);
      Once(s, a, s1);
      ActionKeeps(s, a, s1);
      var more;
      s', more := BallotRefines(BecomeFollower(r, args.term), s1, p, args);
      acts := [a] + more;
      Then(s, a, s1, more, s');
      MovesTrans(s, s1, s', p);
    }
  }

  /** RequestVote at a peer whose term is not behind the candidate's. */
  lemma BallotRefines(f: Peer, s: Spec, p: nat, args: RequestVoteArgs) returns (s': Spec, acts: seq<Action>)
    requires Inv(s) && PeerOK(f, s, p) && VoteRequestOK(s, args) && args.term <= f.currentTerm
    ensures Behaves(s, acts, s') && Moves(s, s', p)
    ensures PeerOK(RequestVote(f, args).0, s', p)
    ensures VoteReplyOK(s', p, args, RequestVote(f, args).1)
  {
    assert NodeOK(s, p);
    SameLast(f, s.nodes[p]);
    if args.term == f.currentTerm && Grants(f, args) {
      GrantRefines(f, s, p, args.candidateId);
      s', acts := Grant(s, p, args.candidateId), [DoGrant(p, args.candidateId)];
      Once(s, DoGrant(p, args.candidateId), s');
    } else {
      s', acts := s, [];
    }
  }

  lemma GrantRefines(f: Peer, s: Spec, p: nat, cand: nat)
    requires Inv(s) && PeerOK(f, s, p) && CanGrant(s, p, cand)
    ensures Moves(s, Grant(s, p, cand), p)
    ensures PeerOK(Persist(f.(votedFor := cand)), Grant(s, p, cand), p)
    ensures (f.currentTerm, p) in Grant(s, p, cand).votes && Grant(s, p, cand).votes[(f.currentTerm, p)].cand == cand
  {
    var s' := Grant(s, p, cand);
    var t := f.currentTerm;
    assert NodeOK(s, p);
    assert (t, p) in s.votes ==> VoteOK(s, t, p);
    CandidateGrows(s, s', f, p);
    AcksGrow(s, s', f, p);
  }

  lemma ElectRefines(v: Peer, s: Spec, p: nat) returns (s': Spec, act: Action)
    requires Inv(s) && PeerOK(v, s, p) && v.role == Candidate && v.votes * 2 > v.n
    ensures Does(s, act, s') && Moves(s, s', p)
    ensures PeerOK(BecomeLeader(v), s', p)
  {
    assert NodeOK(s, p);
    SameLast(v, s.nodes[p]);
    var voters := Supporters(s, v.currentTerm, p) - v.awaiting;
    s', act := Elect(s, p, voters), DoElect(p, voters);
  }

  /** One more vote counted is one more peer known to support the candidate. */
  lemma CountVote(r: Peer, s: Spec, p: nat, from: nat, granted: bool)
    requires PeerOK(r, s, p) && r.role == Candidate && from in r.awaiting
    requires granted ==> from in Supporters(s, r.currentTerm, p)
    ensures PeerOK(r.(awaiting := r.awaiting - {from}, votes := if granted then r.votes + 1 else r.votes), s, p)
  {
    var before := Supporters(s, r.currentTerm, p) - r.awaiting;
    var after := Supporters(s, r.currentTerm, p) - (r.awaiting - {from});
    if granted {
      assert after == before + {from};
    } else {
      SubsetSize(before, after);
    }
  }

  /** A granted vote is counted, and may be the one that elects the candidate. */
  lemma GrantedRefines(r: Peer, s: Spec, p: nat, from: nat) returns (s': Spec, acts: seq<Action>)
    requires Inv(s) && PeerOK(r, s, p) && r.role == Candidate && from in r.awaiting
    requires from in Supporters(s, r.currentTerm, p)
    ensures Behaves(s, acts, s') && Moves(s, s', p)
    ensures var v := r.(awaiting := r.awaiting - {from}, votes := r.votes + 1);
            PeerOK(if v.votes * 2 > v.n then BecomeLeader(v) else v, s', p)
  {
    s', acts := s, [];
    CountVote(r, s, p, from, true);
    var v := r.(awaiting := r.awaiting - {from}, votes := r.votes + 1);
    if v.votes * 2 > v.n {
      var act;
      s', act := ElectRefines(v, s, p);
      acts := [act];
      Once(s, act, s');
    }
  }

  lemma VoteReplyRefines(r: Peer, s: Spec, p: nat, from: nat, args: RequestVoteArgs, reply: RequestVoteReply)
    returns (s': Spec, acts: seq<Action>)
    requires Inv(s) && PeerOK(r, s, p) && args.candidateId == p && VoteReplyOK(s, from, args, reply)
    requires r.currentTerm == args.term ==> from in r.awaiting
    ensures Behaves(s, acts, s') && Moves(s, s', p)
    ensures PeerOK(OnVoteReply(r, from, args.term, reply), s', p)
  {
    var live := r.currentTerm == args.term && r.role == Candidate;
    if live && reply.voteGranted && reply.term <= r.currentTerm {
      s', acts := GrantedRefines(r, s, p, from);
    } else {
      s', acts := NotGrantedRefines(r, s, p, from, args.term, reply);
    }
  }

  lemma NotGrantedRefines(r: Peer, s: Spec, p: nat, from: nat, term: nat, reply: RequestVoteReply)
    returns (s': Spec, acts: seq<Action>)
    requires PeerOK(r, s, p) && (r.currentTerm == term ==> from in r.awaiting)
    requires r.currentTerm == term && r.role == Candidate && reply.voteGranted ==> reply.term > term
    ensures Behaves(s, acts, s') && Moves(s, s', p)
    ensures PeerOK(OnVoteReply(r, from, term, reply), s', p)
  {
    s', acts := s, [];
    if r.currentTerm == term && r.role == Candidate {
      CountVote(r, s, p, from, false);
      if reply.term > term {
        var act;
        s', act := FollowerRefines(r.(awaiting := r.awaiting - {from}), s, p, reply.term);
        acts := [act];
        Once(s, act, s');
      }
    }
  }

  // ---------------------------------------------------------------- replication, leader side

  lemma StartedOK(r: Peer, s: Spec, p: nat, command: Command)
    requires PeerOK(r, s, p) && CanPropose(s, p) && NodeOK(s, p)
    ensures PeerOK(Start(r, command).0, Propose(s, p, command), p)
  {
    var s' := Propose(s, p, command);
    var nd, nd' := s.nodes[p], s'.nodes[p];
    var k := r.lastIncludedIndex;
    assert nd'.log[..k] == nd.log[..k];
    assert Compact(nd'.log, k) == Compact(nd.log, k) + [LogEntry(nd.term, command)];
    AcksGrow(s, s', r, p);
    assert r.pendingSnapshot != [] ==> nd'.log[..r.pendingSnapshotIndex] == nd.log[..r.pendingSnapshotIndex];
  }

  lemma StartRefines(r: Peer, s: Spec, p: nat, command: Command) returns (s': Spec, acts: seq<Action>)
    requires Inv(s) && PeerOK(r, s, p)
    ensures Behaves(s, acts, s') && Moves(s, s', p)
    ensures PeerOK(Start(r, command).0, s', p)
  {
    assert NodeOK(s, p);
    s', acts := s, [];
    if r.role == Leader {
      var nd := s.nodes[p];
      s', acts := Propose(s, p, command), [DoPropose(p, command)];
      Once(s, DoPropose(p, command), s');
      StartedOK(r, s, p, command);
    }
  }

  /** An AppendEntries request carries the tail, from prevLogIndex on, of a log its leader once had. */
  ghost predicate Carries(s: Spec, args: AppendEntriesArgs, log: Log) {
    && Append(args.term, log, args.leaderCommit) in s.appends
    && args.prevLogIndex + |args.entries| == |log|
    && log[args.prevLogIndex..] == args.entries
    && args.prevLogTerm == TermAt(log, args.prevLogIndex)
  }

  ghost predicate AppendRequestOK(s: Spec, args: AppendEntriesArgs) {
    exists log :: Carries(s, args, log)
  }

  /** An InstallSnapshot request carries a committed prefix of a log its leader once had. */
  ghost predicate Ships(s: Spec, args: InstallSnapshotArgs, log: Log) {
    && Append(args.term, log, args.lastIncludedIndex) in s.appends
    && |log| == args.lastIncludedIndex >= 1
    && args.lastIncludedTerm == LastTerm(log)
    && args.data == Commands(log)
  }

  ghost predicate InstallRequestOK(s: Spec, args: InstallSnapshotArgs) {
    exists log :: Ships(s, args, log)
  }

  ghost predicate OutgoingOK(s: Spec, out: Outgoing) {
    match out
    case Nothing => true
    case OutAppend(args) => AppendRequestOK(s, args)
    case OutInstall(args) => InstallRequestOK(s, args)
  }

  lemma SendRefines(r: Peer, s: Spec, p: nat, k: nat, c: nat)
    requires PeerOK(r, s, p) && CanSend(s, p, k, c)
    ensures Behaves(s, [DoSend(p, k, c)], Send(s, p, k, c))
    ensures Moves(s, Send(s, p, k, c), p) && PeerOK(r, Send(s, p, k, c), p)
  {
    var s' := Send(s, p, k, c);
    Once(s, DoSend(p, k, c), s');
    AcksGrow(s, s', r, p);
    CandidateGrows(s, s', r, p);
  }

  lemma ShipsSnapshot(r: Peer, s: Spec, p: nat, to: nat)
    requires PeerOK(r, s, p) && CanReplicate(r, to) && r.role == Leader && r.nextIndex[to] <= r.lastIncludedIndex
    ensures var k := r.lastIncludedIndex;
            CanSend(s, p, k, k) && OutgoingOK(Send(s, p, k, k), ReplicateTo(r, to))
  {
    var nd, k := s.nodes[p], r.lastIncludedIndex;
    assert r.nextIndex[to] >= 1;
    assert Ships(Send(s, p, k, k), ReplicateTo(r, to).install, nd.log[..k]);
  }

  lemma ReplicateRefines(r: Peer, s: Spec, p: nat, to: nat) returns (s': Spec, acts: seq<Action>)
    requires PeerOK(r, s, p) && to < r.n && CanReplicate(r, to)
    ensures Behaves(s, acts, s') && Moves(s, s', p) && PeerOK(r, s', p)
    ensures OutgoingOK(s', ReplicateTo(r, to))
  {
    if r.role != Leader {
      s', acts := s, [];
    } else {
      var nd, k := s.nodes[p], r.lastIncludedIndex;
      SameLast(r, nd);
      if r.nextIndex[to] <= k {
        SendRefines(r, s, p, k, k);
        s', acts := Send(s, p, k, k), [DoSend(p, k, k)];
        ShipsSnapshot(r, s, p, to);
      } else {
        SendRefines(r, s, p, |nd.log|, nd.commit);
        s', acts := Send(s, p, |nd.log|, nd.commit), [DoSend(p, |nd.log|, nd.commit)];
        assert nd.log[..|nd.log|] == nd.log;
        assert Carries(s', ReplicateTo(r, to).append, nd.log);
      }
    }
  }

  // ---------------------------------------------------------------- replication, follower side

  /** Cutting the compacted log where the whole logs part, and appending the rest. */
  lemma MergeDiverges(log: Log, k: nat, msg: Log, prev: nat)
    requires k <= prev <= |log| && prev < |msg| && log[..prev] == msg[..prev]
    ensures Compact(log, k)[..prev - k + 1] + msg[prev..] == Compact(msg, k)
  {
    assert TermAt(msg, k) == TermAt(log, k) by {
      if k > 0 { assert log[k - 1] == log[..prev][k - 1] == msg[..prev][k - 1]; }
    }
    assert log[k..prev] == log[..prev][k..] == msg[..prev][k..] == msg[k..prev];
    assert Compact(log, k)[..prev - k + 1] == [LogEntry(TermAt(msg, k), Nil)] + msg[k..prev];
    assert msg[k..prev] + msg[prev..] == msg[k..];
  }

  lemma MergeStops(log: Log, k: nat, msg: Log, prev: nat)
    requires k <= prev <= |log| && prev < |msg| && log[..prev] == msg[..prev]
    requires prev == |log| || log[prev].term != msg[prev].term
    ensures Merge(log, msg) == msg
    ensures MergeEntries(Compact(log, k), prev - k + 1, msg[prev..]) == Compact(msg, k)
  {
    var c, at := Compact(log, k), prev - k + 1;
    MergeDiverges(log, k, msg, prev);
    if prev == |log| {
      assert c[..at] == c;
    } else {
      assert c[at] == log[prev];
    }
  }

  ghost predicate MatchedAt(a: Log, b: Log, k: nat) {
    1 <= k <= |a| && k <= |b| && a[k - 1].term == b[k - 1].term ==> a[..k] == b[..k]
  }

  /** Log Matching between two logs, at every index. */
  ghost predicate Matched(a: Log, b: Log) {
    forall k {:trigger MatchedAt(a, b, k)} :: MatchedAt(a, b, k)
  }

  lemma LogsMatched(s: Spec, a: Log, b: Log)
    requires LogOK(s, a) && LogOK(s, b)
    ensures Matched(a, b)
  {
    forall k: nat ensures MatchedAt(a, b, k) {
      if 1 <= k <= |a| && k <= |b| && a[k - 1].term == b[k - 1].term {
        LogMatching(s, a, b, k);
      }
    }
  }

  /** The conflict-only merge on the compacted log is the merge on the whole log. */
  lemma {:induction false} MergeRefines(log: Log, k: nat, msg: Log, prev: nat)
    requires Matched(log, msg)
    requires k <= prev <= |log| && prev <= |msg| && log[..prev] == msg[..prev]
    ensures k <= |Merge(log, msg)|
    ensures MergeEntries(Compact(log, k), prev - k + 1, msg[prev..]) == Compact(Merge(log, msg), k)
    decreases |msg| - prev
  {
    if prev == |msg| {
      assert msg == log[..prev];
    } else if prev == |log| || log[prev].term != msg[prev].term {
      MergeStops(log, k, msg, prev);
    } else {
      assert MatchedAt(log, msg, prev + 1);
      assert msg[prev..][1..] == msg[prev + 1..];
      assert Compact(log, k)[prev - k + 1] == log[prev];
      MergeRefines(log, k, msg, prev + 1);
    }
  }

  /** What a follower has under its snapshot or committed is in the log of the leader it listens to. */
  lemma SnapshotInLeader(s: Spec, p: nat, k: nat, m: Append)
    requires Inv(s) && CanAccept(s, p, m) && k <= s.nodes[p].commit
    ensures AppendOK(s, m) && k <= |s.nodes[p].log|
    ensures s.nodes[p].log[..k] <= s.reigns[m.term].log
    ensures |m.log| <= k ==> m.log <= s.nodes[p].log
    ensures k <= |m.log| ==> s.nodes[p].log[..k] == m.log[..k]
  {
    var nd := s.nodes[p];
    assert NodeOK(s, p);
    assert AppendOK(s, m);
    CommittedPrefix(s, nd.term, nd.log[..nd.commit], k);
    assert nd.log[..nd.commit][..k] == nd.log[..k];
    CommittedInLeader(s, m.term, nd.log[..k]);
    if |m.log| <= k {
      PrefixesComparable(m.log, nd.log[..k], s.reigns[m.term].log);
      PrefixTrans(m.log, nd.log[..k], nd.log);
    }
  }

  /** The peer that the accept step leaves behind, given its new compacted log. */
  lemma AcceptedOK(f: Peer, s: Spec, p: nat, m: Append, g: Peer)
    requires Inv(s) && PeerOK(f, s, p) && CanAccept(s, p, m) && f.role == Follower
    requires var nd' := Accept(s, p, m).nodes[p];
             && f.lastIncludedIndex <= |nd'.log|
             && g == f.(log := Compact(nd'.log, f.lastIncludedIndex), commitIndex := nd'.commit, disk := g.disk)
             && g.disk.snapshot == f.disk.snapshot && Load(g.disk.raftstate) == Encode(g)
    ensures Moves(s, Accept(s, p, m), p)
    ensures PeerOK(g, Accept(s, p, m), p)
    ensures HasAck(Accept(s, p, m), m.term, p, |m.log|)
  {
    var s' := Accept(s, p, m);
    var nd, nd' := s.nodes[p], s'.nodes[p];
    AcceptCommit(s, p, m);
    var k := f.lastIncludedIndex;
    assert nd'.log[..k] == nd.log[..nd.commit][..k] == nd.log[..k];
    assert k > 0 ==> nd'.log[k - 1] == nd'.log[..k][k - 1] == nd.log[..k][k - 1];
    PendingKept(f, nd, nd');
    assert Ack(m.term, p, |m.log|) in s'.acks;
  }

  lemma PendingKept(f: Peer, nd: Node, nd': Node)
    requires f.lastIncludedIndex <= |nd.log| && f.lastIncludedIndex <= |nd'.log|
    requires nd.log[..f.lastIncludedIndex] == nd'.log[..f.lastIncludedIndex]
    requires PendingOK(f, nd)
    ensures PendingOK(f, nd')
  {
    if f.pendingSnapshot != [] {
      var i, k := f.pendingSnapshotIndex, f.lastIncludedIndex;
      assert nd.log[..i] == nd.log[..k][..i] == nd'.log[..k][..i] == nd'.log[..i];
      assert i > 0 ==> nd.log[i - 1] == nd.log[..i][i - 1] == nd'.log[..i][i - 1] == nd'.log[i - 1];
    }
  }

  /** The all-in-snapshot branch: nothing to store, and the commit index does not move. */
  lemma AllInSnapshot(f: Peer, s: Spec, p: nat, m: Append)
    requires Inv(s) && PeerOK(f, s, p) && CanAccept(s, p, m) && f.role == Follower
    requires |m.log| < f.lastIncludedIndex
    ensures RaiseCommit(f, m.commit) == f
    ensures Moves(s, Accept(s, p, m), p) && PeerOK(f, Accept(s, p, m), p)
    ensures HasAck(Accept(s, p, m), m.term, p, |m.log|)
  {
    SnapshotInLeader(s, p, f.lastIncludedIndex, m);
    OldSnapshot(f, s, p, m);
  }

  /** The storing branch, entered at a point prev up to which follower and message agree. */
  lemma StoredLog(f: Peer, nd: Node, msg: Log, prev: nat, commit: nat, xLen: nat)
    requires WellFormed(f) && Represents(f, nd) && Matched(nd.log, msg)
    requires f.lastIncludedIndex <= prev <= |nd.log| && prev <= |msg| && nd.log[..prev] == msg[..prev]
    requires commit <= |msg|
    ensures var (g, reply) := StoreEntries(f, prev, TermAt(msg, prev), msg[prev..], commit, xLen);
            var log := Merge(nd.log, msg);
            && reply.success && reply.term == f.currentTerm
            && f.lastIncludedIndex <= |log|
            && g == f.(log := Compact(log, f.lastIncludedIndex), commitIndex := Max(nd.commit, commit), disk := g.disk)
            && g.disk == Disk(Encode(g), f.disk.snapshot)
  {
    var k := f.lastIncludedIndex;
    SameLast(f, nd);
    assert f.log[prev - k].term == TermAt(msg, prev) by {
      assert f.log[prev - k].term == TermAt(nd.log, prev);
      if prev > 0 { assert nd.log[prev - 1] == nd.log[..prev][prev - 1] == msg[..prev][prev - 1]; }
    }
    MergeRefines(nd.log, k, msg, prev);
  }

  lemma StoreRefines(f: Peer, s: Spec, p: nat, m: Append, prev: nat, xLen: nat)
    requires Inv(s) && PeerOK(f, s, p) && CanAccept(s, p, m) && f.role == Follower
    requires f.lastIncludedIndex <= prev <= |s.nodes[p].log| && prev <= |m.log|
    requires s.nodes[p].log[..prev] == m.log[..prev]
    ensures var (g, reply) := StoreEntries(f, prev, TermAt(m.log, prev), m.log[prev..], m.commit, xLen);
            && reply.success && reply.term == m.term
            && PeerOK(g, Accept(s, p, m), p)
    ensures Moves(s, Accept(s, p, m), p)
    ensures HasAck(Accept(s, p, m), m.term, p, |m.log|)
  {
    InstalledMatch(s, p, m);
    AcceptCommit(s, p, m);
    StoredLog(f, s.nodes[p], m.log, prev, m.commit, xLen);
    var (g, reply) := StoreEntries(f, prev, TermAt(m.log, prev), m.log[prev..], m.commit, xLen);
    AcceptedOK(f, s, p, m, g);
  }

  /** A rejection names, in its conflict term, a reign that really wrote that term at prevLogIndex. */
  ghost predicate RejectionOK(s: Spec, args: AppendEntriesArgs, reply: AppendEntriesReply) {
    && 1 <= reply.conflictIndex <= args.prevLogIndex
    && (reply.conflictTerm == -1
        || (&& reply.conflictTerm >= 0
            && reply.conflictTerm != args.prevLogTerm
            && reply.conflictTerm in s.reigns
            && args.prevLogIndex <= |s.reigns[reply.conflictTerm].log|
            && TermAt(s.reigns[reply.conflictTerm].log, args.prevLogIndex) == reply.conflictTerm))
  }

  ghost predicate AppendReplyOK(s: Spec, from: nat, args: AppendEntriesArgs, reply: AppendEntriesReply) {
    && from < |s.nodes|
    && AppendRequestOK(s, args)
    && reply.term >= args.term
    && (reply.term == args.term ==>
          if reply.success then HasAck(s, args.term, from, args.prevLogIndex + |args.entries|)
          else RejectionOK(s, args, reply))
  }

  lemma RunStartLow(log: Log, k: nat, at: nat)
    requires k <= |log| && at < |Compact(log, k)| && k + at >= 1
    requires forall i :: 0 <= i < |log| ==> log[i].term >= 1
    ensures k + RunStart(Compact(log, k), at, Compact(log, k)[at].term) >= 1
  {
    if k == 0 {
      var c := Compact(log, 0);
      assert c[at].term >= 1 by { assert c[at] == log[at - 1]; }
      assert c[0].term == 0;
      RunStartTerm(c, at, c[at].term);
    }
  }

  lemma {:induction false} RunStartTerm(log: Log, at: nat, term: nat)
    requires at < |log| && log[at].term == term
    ensures log[RunStart(log, at, term)].term == term
  {
    if at > 0 && log[at - 1].term == term {
      RunStartTerm(log, at - 1, term);
    }
  }

  lemma AppendRefines(r: Peer, s: Spec, p: nat, args: AppendEntriesArgs) returns (s': Spec, acts: seq<Action>)
    requires Inv(s) && PeerOK(r, s, p) && AppendRequestOK(s, args)
    ensures Behaves(s, acts, s') && Moves(s, s', p)
    ensures PeerOK(AppendEntries(r, args).0, s', p)
    ensures AppendReplyOK(s', p, args, AppendEntries(r, args).1)
  {
    if args.term < r.currentTerm {
      s', acts := s, [];
    } else {
      s', acts := FollowedRefines(r, s, p, args, LastLogIndex(r) + 1);
    }
  }

  /** The term step, then the request. */
  lemma FollowedRefines(r: Peer, s: Spec, p: nat, args: AppendEntriesArgs, xLen: nat)
    returns (s': Spec, acts: seq<Action>)
    requires Inv(s) && PeerOK(r, s, p) && AppendRequestOK(s, args) && args.term >= r.currentTerm
    ensures Behaves(s, acts, s') && Moves(s, s', p)
    ensures PeerOK(FollowAppend(BecomeFollower(r, args.term), args, xLen).0, s', p)
    ensures AppendReplyOK(s', p, args, FollowAppend(BecomeFollower(r, args.term), args, xLen).1)
  {
    var s1, a := FollowerRefines(r, s, p, args.term);
    ActionKeeps(s, a, s1);
    RequestStable(s, s1, args);
    var more;
    s', more := FollowRefines(BecomeFollower(r, args.term), s1, p, args, xLen);
    acts := [a] + more;
    Then(s, a, s1, more, s');
    MovesTrans(s, s1, s', p);
  }

  lemma RequestStable(s: Spec, s': Spec, args: AppendEntriesArgs)
    requires AppendRequestOK(s, args) && s.appends <= s'.appends
    ensures AppendRequestOK(s', args)
  {
    var log :| Carries(s, args, log);
    assert Carries(s', args, log);
  }

  lemma FollowRefines(f: Peer, s: Spec, p: nat, args: AppendEntriesArgs, xLen: nat) returns (s': Spec, acts: seq<Action>)
    requires Inv(s) && PeerOK(f, s, p) && f.role == Follower && f.currentTerm == args.term && AppendRequestOK(s, args)
    ensures Behaves(s, acts, s') && Moves(s, s', p)
    ensures PeerOK(FollowAppend(f, args, xLen).0, s', p)
    ensures AppendReplyOK(s', p, args, FollowAppend(f, args, xLen).1)
  {
    var log :| Carries(s, args, log);
    var m := Append(args.term, log, args.leaderCommit);
    if AppendStores(f, s, p, args) {
      AppendAccepted(f, s, p, args, m, xLen);
      s', acts := Accept(s, p, m), [DoAccept(p, m)];
      Once(s, DoAccept(p, m), s');
      RequestStable(s, s', args);
    } else {
      AppendRejected(f, s, p, args, m, xLen);
      s', acts := s, [];
    }
  }

  /** The request is stored: its log starts below the snapshot, or agrees with ours at prevLogIndex. */
  ghost predicate AppendStores(f: Peer, s: Spec, p: nat, args: AppendEntriesArgs)
    requires p < |s.nodes|
  {
    || args.prevLogIndex < f.lastIncludedIndex
    || (args.prevLogIndex <= |s.nodes[p].log| && TermAt(s.nodes[p].log, args.prevLogIndex) == args.prevLogTerm)
  }

  lemma AppendAccepted(f: Peer, s: Spec, p: nat, args: AppendEntriesArgs, m: Append, xLen: nat)
    requires Inv(s) && PeerOK(f, s, p) && CanAccept(s, p, m) && f.role == Follower
    requires Carries(s, args, m.log) && m == Append(args.term, m.log, args.leaderCommit)
    requires AppendStores(f, s, p, args)
    ensures Moves(s, Accept(s, p, m), p)
    ensures PeerOK(FollowAppend(f, args, xLen).0, Accept(s, p, m), p)
    ensures FollowAppend(f, args, xLen).1.success && FollowAppend(f, args, xLen).1.term == args.term
    ensures HasAck(Accept(s, p, m), args.term, p, args.prevLogIndex + |args.entries|)
  {
    var k, prev := f.lastIncludedIndex, args.prevLogIndex;
    if |m.log| < k {
      AllInSnapshot(f, s, p, m);
    } else if prev < k {
      AcceptedAcross(f, s, p, args, m, xLen);
    } else {
      PrefixMatches(s, p, m, prev);
      StoreRefines(f, s, p, m, prev, xLen);
    }
  }

  /** A request that starts below the follower's snapshot and reaches it. */
  lemma AcceptedAcross(f: Peer, s: Spec, p: nat, args: AppendEntriesArgs, m: Append, xLen: nat)
    requires Inv(s) && PeerOK(f, s, p) && CanAccept(s, p, m) && f.role == Follower
    requires Carries(s, args, m.log) && m == Append(args.term, m.log, args.leaderCommit)
    requires args.prevLogIndex < f.lastIncludedIndex <= |m.log|
    ensures Moves(s, Accept(s, p, m), p)
    ensures PeerOK(FollowAppend(f, args, xLen).0, Accept(s, p, m), p)
    ensures FollowAppend(f, args, xLen).1.success && FollowAppend(f, args, xLen).1.term == args.term
    ensures HasAck(Accept(s, p, m), args.term, p, args.prevLogIndex + |args.entries|)
  {
    var k, prev := f.lastIncludedIndex, args.prevLogIndex;
    assert k <= |s.nodes[p].log| && s.nodes[p].log[..k] == m.log[..k] by { SnapshotInLeader(s, p, k, m); }
    assert f.lastIncludedTerm == TermAt(m.log, k) by { BoundaryTerm(s.nodes[p].log, m.log, k); }
    assert FollowAppend(f, args, xLen) == StoreEntries(f, k, TermAt(m.log, k), m.log[k..], m.commit, xLen) by {
      assert args.entries[k - prev..] == m.log[k..];
    }
    StoreRefines(f, s, p, m, k, xLen);
  }

  lemma BoundaryTerm(a: Log, b: Log, k: nat)
    requires k <= |a| && k <= |b| && a[..k] == b[..k]
    ensures TermAt(a, k) == TermAt(b, k)
  {
    assert k > 0 ==> a[k - 1] == a[..k][k - 1] && b[k - 1] == b[..k][k - 1];
  }

  /** Agreement at prev is agreement up to prev. */
  lemma PrefixMatches(s: Spec, p: nat, m: Append, prev: nat)
    requires Inv(s) && CanAccept(s, p, m) && prev <= |s.nodes[p].log| && prev <= |m.log|
    requires TermAt(s.nodes[p].log, prev) == TermAt(m.log, prev)
    ensures s.nodes[p].log[..prev] == m.log[..prev]
  {
    assert NodeOK(s, p);
    MessageLog(s, m);
    LogMatching(s, s.nodes[p].log, m.log, prev);
  }

  lemma AppendRejected(f: Peer, s: Spec, p: nat, args: AppendEntriesArgs, m: Append, xLen: nat)
    requires Inv(s) && PeerOK(f, s, p) && CanAccept(s, p, m) && f.role == Follower
    requires Carries(s, args, m.log) && m == Append(args.term, m.log, args.leaderCommit)
    requires !AppendStores(f, s, p, args)
    ensures FollowAppend(f, args, xLen).0 == f
    ensures !FollowAppend(f, args, xLen).1.success && FollowAppend(f, args, xLen).1.term == args.term
    ensures RejectionOK(s, args, FollowAppend(f, args, xLen).1)
  {
    var nd := s.nodes[p];
    var k, prev := f.lastIncludedIndex, args.prevLogIndex;
    assert NodeOK(s, p);
    SameLast(f, nd);
    if prev <= |nd.log| {
      ConflictKnown(s, nd.log, k, prev);
    }
  }

  /** The term at an index of a log is that of a reign whose log has it there. */
  lemma ConflictKnown(s: Spec, log: Log, k: nat, prev: nat)
    requires LogOK(s, log) && k <= prev <= |log| && prev >= 1
    ensures var t := TermAt(log, prev);
            && t in s.reigns && prev <= |s.reigns[t].log| && TermAt(s.reigns[t].log, prev) == t
            && Compact(log, k)[prev - k].term == t
            && k + RunStart(Compact(log, k), prev - k, t) >= 1
  {
    var t := TermAt(log, prev);
    assert log[..prev - 1 + 1] <= s.reigns[t].log;
    assert s.reigns[t].log[prev - 1] == log[prev - 1];
    RunStartLow(log, k, prev - k);
  }

  // ---------------------------------------------------------------- snapshots

  ghost predicate InstallReplyOK(s: Spec, from: nat, args: InstallSnapshotArgs, reply: InstallSnapshotReply) {
    && from < |s.nodes|
    && reply.term >= args.term
    && (reply.term == args.term ==> HasAck(s, args.term, from, args.lastIncludedIndex))
  }

  lemma InstallRefines(r: Peer, s: Spec, p: nat, args: InstallSnapshotArgs) returns (s': Spec, acts: seq<Action>)
    requires Inv(s) && PeerOK(r, s, p) && InstallRequestOK(s, args)
    ensures Behaves(s, acts, s') && Moves(s, s', p)
    ensures PeerOK(InstallSnapshot(r, args).0, s', p)
    ensures InstallReplyOK(s', p, args, InstallSnapshot(r, args).1)
  {
    if args.term < r.currentTerm {
      s', acts := s, [];
    } else {
      var log :| Ships(s, args, log);
      var m := Append(args.term, log, args.lastIncludedIndex);
      var s1, a := FollowerRefines(r, s, p, args.term);
      Once(s, a, s1);
      ActionKeeps(s, a, s1);
      var f := BecomeFollower(r, args.term);
      if args.lastIncludedIndex <= f.lastIncludedIndex {
        OldSnapshot(f, s1, p, m);
      } else {
        InstalledOK(f, s1, p, args, m);
      }
      s', acts := Accept(s1, p, m), [a] + [DoAccept(p, m)];
      Once(s1, DoAccept(p, m), s');
      Then(s, a, s1, [DoAccept(p, m)], s');
      MovesTrans(s, s1, s', p);
    }
  }

  lemma OldSnapshot(f: Peer, s: Spec, p: nat, m: Append)
    requires Inv(s) && PeerOK(f, s, p) && CanAccept(s, p, m) && f.role == Follower
    requires |m.log| <= f.lastIncludedIndex
    ensures Moves(s, Accept(s, p, m), p) && PeerOK(f, Accept(s, p, m), p)
    ensures HasAck(Accept(s, p, m), m.term, p, |m.log|)
  {
    SnapshotInLeader(s, p, f.lastIncludedIndex, m);
    AcceptedOK(f, s, p, m, f);
  }

  /** Installing a newer snapshot: the log is the protocol's merge, compacted at the new index. */
  lemma InstalledLog(f: Peer, nd: Node, args: InstallSnapshotArgs, log: Log)
    requires WellFormed(f) && Represents(f, nd) && Matched(nd.log, log)
    requires |log| == args.lastIncludedIndex > f.lastIncludedIndex && args.lastIncludedTerm == LastTerm(log)
    ensures Install(f, args).log == Compact(Merge(nd.log, log), |log|)
    ensures Merge(nd.log, log)[..|log|] == log
  {
    var k, k' := f.lastIncludedIndex, |log|;
    assert MatchedAt(nd.log, log, k');
    if k' <= |nd.log| {
      assert f.log[k' - k] == nd.log[k' - 1];
      assert f.log[k' - k + 1..] == nd.log[k'..];
    }
    assert log <= nd.log <==> k' <= |nd.log| && nd.log[k' - 1].term == log[k' - 1].term;
    assert log[k'..] == [];
  }

  lemma InstalledOK(f: Peer, s: Spec, p: nat, args: InstallSnapshotArgs, m: Append)
    requires Inv(s) && PeerOK(f, s, p) && CanAccept(s, p, m) && f.role == Follower
    requires m == Append(args.term, m.log, args.lastIncludedIndex) && Ships(s, args, m.log)
    requires args.lastIncludedIndex > f.lastIncludedIndex
    ensures Moves(s, Accept(s, p, m), p)
    ensures PeerOK(Install(f, args), Accept(s, p, m), p)
    ensures HasAck(Accept(s, p, m), args.term, p, args.lastIncludedIndex)
  {
    InstalledMatch(s, p, m);
    InstalledLog(f, s.nodes[p], args, m.log);
    AcceptCommit(s, p, m);
    var s' := Accept(s, p, m);
    assert m.log == s'.nodes[p].log[..|m.log|];
    assert Ack(m.term, p, |m.log|) in s'.acks;
  }

  lemma InstalledMatch(s: Spec, p: nat, m: Append)
    requires Inv(s) && CanAccept(s, p, m)
    ensures Matched(s.nodes[p].log, m.log)
  {
    assert NodeOK(s, p);
    assert AppendOK(s, m);
    MessageLog(s, m);
    LogsMatched(s, s.nodes[p].log, m.log);
  }

  /** Snapshot is invisible: the protocol does not move at all. */
  lemma SnapshotStutters(r: Peer, s: Spec, p: nat, index: nat, data: seq<Command>)
    requires PeerOK(r, s, p) && index <= s.nodes[p].commit && data == Commands(s.nodes[p].log[..index])
    ensures PeerOK(Snapshot(r, index, data), s, p)
  {
    var nd := s.nodes[p];
    var k := r.lastIncludedIndex;
    SameLast(r, nd);
    if k < index {
      assert r.log[index - k] == nd.log[index - 1];
      assert r.log[index - k + 1..] == nd.log[index..];
    }
  }

  lemma CrashRefines(r: Peer, s: Spec, p: nat) returns (s': Spec)
    requires PeerOK(r, s, p)
    ensures Does(s, DoRestart(p, r.lastIncludedIndex), s')
    ensures s' == Restart(s, p, r.lastIncludedIndex)
    ensures PeerOK(Make(r.n, p, r.disk), s', p)
  {
    s' := Restart(s, p, r.lastIncludedIndex);
  }

  // ---------------------------------------------------------------- replies at the leader

  lemma InstallReplyRefines(r: Peer, s: Spec, p: nat, from: nat, args: InstallSnapshotArgs, reply: InstallSnapshotReply)
    returns (s': Spec, acts: seq<Action>)
    requires Inv(s) && PeerOK(r, s, p) && InstallReplyOK(s, from, args, reply)
    ensures Behaves(s, acts, s') && Moves(s, s', p)
    ensures PeerOK(OnInstallReply(r, from, args, reply), s', p)
  {
    assert NodeOK(s, p);
    s', acts := s, [];
    if r.currentTerm == args.term && r.role == Leader {
      if reply.term > r.currentTerm {
        var a;
        s', a := FollowerRefines(r, s, p, reply.term);
        acts := [a];
        Once(s, a, s');
      } else {
        AckBound(s, p, from, args.lastIncludedIndex);
      }
    }
  }

  lemma AckBound(s: Spec, p: nat, from: nat, k: nat)
    requires Inv(s) && p < |s.nodes| && s.nodes[p].role == Leader && HasAck(s, s.nodes[p].term, from, k)
    ensures k <= |s.nodes[p].log|
  {
    assert NodeOK(s, p);
    var a :| a in s.acks && a.term == s.nodes[p].term && a.peer == from && a.index >= k;
    assert AckOK(s, a);
  }

  /** The leader's search finds the conflict term only below the rejected prevLogIndex. */
  lemma BackupProgress(r: Peer, s: Spec, p: nat, next: int, args: AppendEntriesArgs, reply: AppendEntriesReply)
    requires Inv(s) && PeerOK(r, s, p) && r.role == Leader && r.currentTerm == args.term
    requires AppendRequestOK(s, args) && RejectionOK(s, args, reply)
    ensures 1 <= Backup(r, next, reply) <= args.prevLogIndex <= |s.nodes[p].log|
  {
    var nd := s.nodes[p];
    assert NodeOK(s, p);
    var log :| Carries(s, args, log);
    assert AppendOK(s, Append(args.term, log, args.leaderCommit));
    var prev := args.prevLogIndex;
    assert log[prev - 1] == nd.log[prev - 1];
    if reply.conflictTerm != -1 {
      var t := reply.conflictTerm as nat;
      var slot := LastSlotOfTerm(r.log, |r.log| - 1, t);
      if slot > 0 {
        var i := r.lastIncludedIndex + slot;
        assert nd.log[i - 1] == r.log[slot];
        assert nd.log[..i - 1 + 1] <= s.reigns[t].log;
        assert forall j :: 0 <= j < i ==> nd.log[j] == s.reigns[t].log[j];
      }
    }
  }

  /** The peers that advanceCommit counts for index k among the first i. */
  function Matching(matchIndex: seq<nat>, me: nat, k: nat, i: nat): (qs: set<nat>)
    requires i <= |matchIndex|
    ensures forall q: nat :: q in qs <==> q < i && q != me && matchIndex[q] >= k
    ensures |qs| == CountMatches(matchIndex, me, k, i)
  {
    if i == 0 then {}
    else if i - 1 != me && matchIndex[i - 1] >= k then Matching(matchIndex, me, k, i - 1) + {i - 1}
    else Matching(matchIndex, me, k, i - 1)
  }

  /** The peers that advanceCommit counts, with the leader itself, have all acknowledged index k. */
  lemma CountedAcked(r: Peer, s: Spec, p: nat, k: nat)
    requires PeerOK(r, s, p) && NodeOK(s, p) && r.role == Leader && 1 <= k <= |s.nodes[p].log|
    requires (1 + CountMatches(r.matchIndex, r.me, k, r.n)) * 2 > r.n
    ensures IsQuorum(r.n, Ackers(s, r.currentTerm, k))
  {
    var t := r.currentTerm;
    var counted := Matching(r.matchIndex, p, k, r.n) + {p};
    forall q | q in counted ensures q in Ackers(s, t, k) {
      if q == p {
        assert Ack(t, p, |s.nodes[p].log|) in s.acks;
      } else {
        AckLower(s, t, q, r.matchIndex[q], k);
      }
    }
    SubsetSize(counted, Ackers(s, t, k));
  }

  lemma AckLower(s: Spec, t: nat, q: nat, i: nat, k: nat)
    requires HasAck(s, t, q, i) && k <= i
    ensures HasAck(s, t, q, k)
  {
    var a :| a in s.acks && a.term == t && a.peer == q && a.index >= i;
    assert a.index >= k;
  }

  lemma CommitRaised(r: Peer, s: Spec, p: nat, k: nat)
    requires Inv(s) && PeerOK(r, s, p) && CanCommit(s, p, k) && k > r.commitIndex
    ensures Moves(s, Commit(s, p, k), p) && PeerOK(r.(commitIndex := k), Commit(s, p, k), p)
  {
    assert NodeOK(s, p);
    AcksGrow(s, Commit(s, p, k), r, p);
  }

  lemma CommitHere(r: Peer, s: Spec, p: nat, k: nat)
    requires Inv(s) && PeerOK(r, s, p) && r.role == Leader && r.commitIndex < k <= LastLogIndex(r)
    requires r.lastIncludedIndex < k && TermAtIndex(r, k) == r.currentTerm
    requires (1 + CountMatches(r.matchIndex, r.me, k, r.n)) * 2 > r.n
    ensures CanCommit(s, p, k) && Behaves(s, [DoCommit(p, k)], Commit(s, p, k))
    ensures Moves(s, Commit(s, p, k), p) && PeerOK(r.(commitIndex := k), Commit(s, p, k), p)
  {
    assert NodeOK(s, p);
    SameLast(r, s.nodes[p]);
    CountedAcked(r, s, p, k);
    CommitRaised(r, s, p, k);
    Once(s, DoCommit(p, k), Commit(s, p, k));
  }

  /** The search ends at the old commit index, or at an index of the current term that a majority has stored. */
  lemma {:induction false} SearchFinds(r: Peer, k: nat)
    requires WellFormed(r) && k <= LastLogIndex(r)
    ensures var c := CommitFrom(r, k);
            || c == r.commitIndex
            || (&& r.commitIndex < c <= LastLogIndex(r) && r.lastIncludedIndex < c
                && TermAtIndex(r, c) == r.currentTerm && (1 + CountMatches(r.matchIndex, r.me, c, r.n)) * 2 > r.n)
    decreases k
  {
    if k > r.commitIndex && k > r.lastIncludedIndex {
      SearchFinds(r, k - 1);
    }
  }

  lemma CommitRefines(r: Peer, s: Spec, p: nat, k: nat) returns (s': Spec, acts: seq<Action>)
    requires Inv(s) && PeerOK(r, s, p) && r.role == Leader && k <= LastLogIndex(r)
    ensures Behaves(s, acts, s') && Moves(s, s', p)
    ensures PeerOK(r.(commitIndex := CommitFrom(r, k)), s', p)
  {
    var c := CommitFrom(r, k);
    SearchFinds(r, k);
    if c == r.commitIndex {
      s', acts := s, [];
    } else {
      CommitHere(r, s, p, c);
      s', acts := Commit(s, p, c), [DoCommit(p, c)];
    }
  }

  /** A newly reported match is one that the peer acknowledged. */
  lemma MatchReported(r: Peer, s: Spec, p: nat, from: nat, k: nat)
    requires Inv(s) && PeerOK(r, s, p) && r.role == Leader && from < r.n && HasAck(s, r.currentTerm, from, k)
    ensures var next := if k + 1 > r.nextIndex[from] then k + 1 else r.nextIndex[from];
            PeerOK(r.(matchIndex := r.matchIndex[from := Max(r.matchIndex[from], k)],
                      nextIndex := r.nextIndex[from := next]), s, p)
  {
    AckBound(s, p, from, k);
  }

  lemma BackupRefines(r: Peer, s: Spec, p: nat, from: nat, args: AppendEntriesArgs, reply: AppendEntriesReply)
    requires Inv(s) && PeerOK(r, s, p) && r.role == Leader && r.currentTerm == args.term && from < r.n
    requires AppendRequestOK(s, args) && RejectionOK(s, args, reply)
    ensures PeerOK(r.(nextIndex := r.nextIndex[from := Backup(r, r.nextIndex[from], reply)]), s, p)
  {
    BackupProgress(r, s, p, r.nextIndex[from], args, reply);
  }

  /** The follower stored index k: note it, and perhaps commit. */
  lemma StoredRefines(r: Peer, s: Spec, p: nat, from: nat, k: nat) returns (s': Spec, acts: seq<Action>)
    requires Inv(s) && PeerOK(r, s, p) && r.role == Leader && from < r.n && HasAck(s, r.currentTerm, from, k)
    ensures Behaves(s, acts, s') && Moves(s, s', p)
    ensures var next := if k + 1 > r.nextIndex[from] then k + 1 else r.nextIndex[from];
            PeerOK(AdvanceCommit(r.(matchIndex := r.matchIndex[from := Max(r.matchIndex[from], k)],
                                    nextIndex := r.nextIndex[from := next])), s', p)
  {
    MatchReported(r, s, p, from, k);
    var next := if k + 1 > r.nextIndex[from] then k + 1 else r.nextIndex[from];
    var g := r.(matchIndex := r.matchIndex[from := Max(r.matchIndex[from], k)],
                nextIndex := r.nextIndex[from := next]);
    s', acts := CommitRefines(g, s, p, LastLogIndex(g));
  }

  lemma AppendReplyRefines(r: Peer, s: Spec, p: nat, from: nat, args: AppendEntriesArgs, reply: AppendEntriesReply)
    returns (s': Spec, acts: seq<Action>)
    requires Inv(s) && PeerOK(r, s, p) && AppendReplyOK(s, from, args, reply)
    ensures Behaves(s, acts, s') && Moves(s, s', p)
    ensures PeerOK(OnAppendReply(r, from, args, reply), s', p)
  {
    s', acts := s, [];
    if r.currentTerm == args.term && r.role == Leader {
      if reply.term > r.currentTerm {
        var a;
        s', a := FollowerRefines(r, s, p, reply.term);
        acts := [a];
        Once(s, a, s');
      } else if reply.success {
        s', acts := StoredRefines(r, s, p, from, args.prevLogIndex + |args.entries|);
      } else {
        BackupRefines(r, s, p, from, args, reply);
      }
    }
  }
}
