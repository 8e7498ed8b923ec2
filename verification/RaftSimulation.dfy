/** Every step of the cluster is a sequence of protocol actions, and keeps the relation to the protocol. */
module RaftSimulation {
  import opened RaftTypes
  import opened Quorums
  import opened RaftProtocol
  import opened RaftInvariant
  import opened RaftPreservation
  import opened RaftPeer
  import opened RaftRefinement
  import C = RaftCluster

  // ---------------------------------------------------------------- the relation

  /** Index of the snapshot waiting for delivery; 0 if there is none. */
  function Pending(r: Peer): nat {
    if r.pendingSnapshot != [] then r.pendingSnapshotIndex else 0
  }

  /** Where the service will be once the waiting snapshots are delivered. */
  function Frontier(h: C.Host): nat {
    var k := Max(|h.view|, Pending(h.raft));
    if h.phase.SendingSnapshot? then Max(k, h.phase.index) else k
  }

  /** What the applier holds is a committed entry or a committed prefix. */
  ghost predicate PhaseOK(h: C.Host, nd: Node) {
    match h.phase
    case Idle => h.raft.lastApplied == Frontier(h)
    case SendingSnapshot(i, t, data) =>
      && h.raft.lastApplied == Frontier(h)
      && 1 <= i <= nd.commit <= |nd.log| && t == TermAt(nd.log, i) && data == Commands(nd.log[..i])
    case SendingCommand(i, command) =>
      && h.raft.lastApplied == Frontier(h)
      && i == |h.view| + 1 <= nd.commit <= |nd.log| && command == nd.log[i - 1].command
    case Sent(i) => i <= |h.view| && Max(h.raft.lastApplied, i) == Frontier(h)
  }

  /** The service has been handed exactly a committed prefix, and the applier is in step with it. */
  ghost predicate ServiceOK(h: C.Host, nd: Node) {
    && |h.view| <= nd.commit <= |nd.log|
    && h.view == Commands(nd.log[..|h.view|])
    && h.raft.lastIncludedIndex <= Frontier(h)
    && PhaseOK(h, nd)
  }

  ghost predicate HostOK(h: C.Host, s: Spec, p: nat) {
    PeerOK(h.raft, s, p) && ServiceOK(h, s.nodes[p])
  }

  ghost predicate MessageOK(s: Spec, m: C.Message) {
    match m
    case VoteRequest(_, args) => VoteRequestOK(s, args)
    case VoteReply(from, args, reply) => VoteReplyOK(s, from, args, reply)
    case AppendRequest(_, args) => AppendRequestOK(s, args)
    case AppendReply(from, args, reply) => AppendReplyOK(s, from, args, reply)
    case InstallRequest(_, args) => InstallRequestOK(s, args)
    case InstallReply(from, args, reply) => InstallReplyOK(s, from, args, reply)
  }

  /** `log` is committed, and msg is its entry, or all of it as a snapshot. */
  ghost predicate Attests(s: Spec, t: nat, log: Log, msg: C.ApplyMsg) {
    && CommittedBy(s, t, log)
    && match msg
       case CommandMsg(i, command) => 1 <= i <= |log| && command == log[i - 1].command
       case SnapshotMsg(i, term, data) => 1 <= i == |log| && term == LastTerm(log) && data == Commands(log)
  }

  ghost predicate DeliveryOK(s: Spec, msg: C.ApplyMsg) {
    exists t, log :: Attests(s, t, log, msg)
  }

  ghost predicate Rel(c: C.Cluster, s: Spec) {
    && |c.hosts| == |s.nodes|
    && (forall p: nat {:trigger HostOK(c.hosts[p], s, p)} :: p < |c.hosts| ==> HostOK(c.hosts[p], s, p))
    && (forall m {:trigger MessageOK(s, m)} :: m in c.net ==> MessageOK(s, m))
    && (forall d {:trigger DeliveryOK(s, d.msg)} :: d in c.delivered ==> DeliveryOK(s, d.msg))
  }

  lemma InitRel(c: C.Cluster) returns (s: Spec)
    requires C.Init(c)
    ensures Init(s) && Rel(c, s)
  {
    s := Spec(seq(|c.hosts|, _ => Node(0, -1, Follower, [], 0)), map[], map[], map[], {}, {});
    forall p: nat | p < |c.hosts| ensures HostOK(c.hosts[p], s, p) {
      assert c.hosts[p] == C.FreshHost(|c.hosts|, p, Disk(Unsaved, []));
    }
  }

  // ---------------------------------------------------------------- what a step leaves alone

  lemma OtherHost(h: C.Host, s: Spec, s': Spec, q: nat)
    requires HostOK(h, s, q) && Extends(s, s') && s'.nodes[q] == s.nodes[q]
    ensures HostOK(h, s', q)
  {
    AcksGrow(s, s', h.raft, q);
    CandidateGrows(s, s', h.raft, q);
  }

  lemma MessageStable(s: Spec, s': Spec, m: C.Message)
    requires Extends(s, s') && MessageOK(s, m)
    ensures MessageOK(s', m)
  {
    match m
    case VoteRequest(_, args) =>
    case VoteReply(from, args, reply) =>
    case AppendRequest(_, args) => RequestStable(s, s', args);
    case AppendReply(from, args, reply) =>
      RequestStable(s, s', args);
      if reply.term == args.term && !reply.success && reply.conflictTerm != -1 {
        var t := reply.conflictTerm as nat;
        assert s.reigns[t].log[args.prevLogIndex - 1] == s'.reigns[t].log[args.prevLogIndex - 1];
      }
    case InstallRequest(_, args) =>
      var log :| Ships(s, args, log);
      assert Ships(s', args, log);
    case InstallReply(from, args, reply) =>
  }

  lemma DeliveryStable(s: Spec, s': Spec, msg: C.ApplyMsg)
    requires Extends(s, s') && DeliveryOK(s, msg)
    ensures DeliveryOK(s', msg)
  {
    var t, log :| Attests(s, t, log, msg);
    CommittedByStable(s, s', t, t, log);
    assert Attests(s', t, log, msg);
  }

  /** The new cluster is related once its one changed host, its new messages and its new delivery are. */
  lemma Related(c: C.Cluster, s: Spec, c': C.Cluster, s': Spec, p: nat)
    requires Rel(c, s) && Extends(s, s') && p < |c.hosts| == |c'.hosts|
    requires forall q: nat :: q < |c.hosts| && q != p ==> c'.hosts[q] == c.hosts[q] && s'.nodes[q] == s.nodes[q]
    requires HostOK(c'.hosts[p], s', p)
    requires forall m {:trigger MessageOK(s', m)} :: m in c'.net && m !in c.net ==> MessageOK(s', m)
    requires forall d {:trigger DeliveryOK(s', d.msg)} :: d in c'.delivered && d !in c.delivered ==> DeliveryOK(s', d.msg)
    ensures Rel(c', s')
  {
    forall q: nat | q < |c'.hosts| ensures HostOK(c'.hosts[q], s', q) {
      if q != p {
        assert HostOK(c.hosts[q], s, q);
        OtherHost(c.hosts[q], s, s', q);
      }
    }
    forall m | m in c'.net ensures MessageOK(s', m) {
      if m in c.net {
        assert MessageOK(s, m);
        MessageStable(s, s', m);
      }
    }
    forall d | d in c'.delivered ensures DeliveryOK(s', d.msg) {
      if d in c.delivered {
        assert DeliveryOK(s, d.msg);
        DeliveryStable(s, s', d.msg);
      }
    }
  }

  // ---------------------------------------------------------------- the service side of a host

  /** The prefix of length i <= commit is the same in both logs. */
  lemma SamePrefix(nd: Node, nd': Node, i: nat)
    requires i <= nd.commit <= |nd.log| && nd.log[..nd.commit] <= nd'.log
    ensures i <= |nd'.log| && nd'.log[..i] == nd.log[..i] && TermAt(nd'.log, i) == TermAt(nd.log, i)
    ensures i > 0 ==> nd'.log[i - 1] == nd.log[i - 1]
  {
    assert nd'.log[..nd.commit] == nd.log[..nd.commit];
    assert nd'.log[..i] == nd'.log[..nd.commit][..i] == nd.log[..i];
    assert i > 0 ==> nd'.log[i - 1] == nd'.log[..i][i - 1] && nd.log[i - 1] == nd.log[..i][i - 1];
  }

  ghost predicate Grown(nd: Node, nd': Node) {
    nd.commit <= |nd.log| && nd.commit <= nd'.commit <= |nd'.log| && nd.log[..nd.commit] <= nd'.log
  }

  lemma PhaseKept(h: C.Host, h': C.Host, nd: Node, nd': Node)
    requires ServiceOK(h, nd) && Grown(nd, nd')
    requires h'.view == h.view && h'.phase == h.phase && h'.raft.lastIncludedIndex <= Frontier(h')
    requires h.phase.Sent? ==> Max(h'.raft.lastApplied, h.phase.index) == Frontier(h')
    requires !h.phase.Sent? ==> h'.raft.lastApplied == Frontier(h')
    ensures ServiceOK(h', nd')
  {
    SamePrefix(nd, nd', |h.view|);
    if h.phase.SendingSnapshot? || h.phase.SendingCommand? {
      SamePrefix(nd, nd', h.phase.index);
    }
  }

  /** Nothing that the applier looks at changed, except that the log and the commit index grew. */
  ghost predicate ApplierUntouched(r: Peer, r': Peer) {
    && r'.lastApplied == r.lastApplied && r'.lastIncludedIndex == r.lastIncludedIndex
    && r'.pendingSnapshot == r.pendingSnapshot && r'.pendingSnapshotIndex == r.pendingSnapshotIndex
  }

  lemma ServiceUntouched(h: C.Host, r': Peer, nd: Node, nd': Node)
    requires ServiceOK(h, nd) && Grown(nd, nd') && ApplierUntouched(h.raft, r')
    ensures ServiceOK(h.(raft := r'), nd')
  {
    PhaseKept(h, h.(raft := r'), nd, nd');
  }

  lemma UntouchedByReplies(r: Peer, from: nat, t: nat, reply: RequestVoteReply)
    requires WellFormed(r)
    ensures ApplierUntouched(r, OnVoteReply(r, from, t, reply))
  {
  }

  lemma UntouchedByVote(r: Peer, args: RequestVoteArgs)
    requires WellFormed(r)
    ensures ApplierUntouched(r, RequestVote(r, args).0)
  {
  }

  lemma UntouchedByAppendReply(r: Peer, from: nat, args: AppendEntriesArgs, reply: AppendEntriesReply)
    requires WellFormed(r) && from < r.n
    ensures ApplierUntouched(r, OnAppendReply(r, from, args, reply))
  {
  }

  lemma UntouchedByAppend(r: Peer, args: AppendEntriesArgs)
    requires WellFormed(r)
    ensures ApplierUntouched(r, AppendEntries(r, args).0)
  {
  }

  /** A step that changes only the Raft part of host p, not touching what the applier looks at. */
  lemma RaftStep(c: C.Cluster, s: Spec, p: nat, r': Peer, sent: set<C.Message>, s': Spec, acts: seq<Action>)
    requires Inv(s) && Rel(c, s) && p < |c.hosts|
    requires Behaves(s, acts, s') && Moves(s, s', p) && PeerOK(r', s', p)
    requires ApplierUntouched(c.hosts[p].raft, r')
    requires forall m {:trigger MessageOK(s', m)} :: m in sent ==> MessageOK(s', m)
    ensures Rel(C.SetRaft(c, p, r', sent), s')
  {
    BehavesKeeps(s, acts, s');
    assert HostOK(c.hosts[p], s, p);
    ServiceUntouched(c.hosts[p], r', s.nodes[p], s'.nodes[p]);
    SetRelated(c, s, p, r', sent, s');
  }

  lemma SetRelated(c: C.Cluster, s: Spec, p: nat, r': Peer, sent: set<C.Message>, s': Spec)
    requires Rel(c, s) && p < |c.hosts| && Extends(s, s') && Moves(s, s', p)
    requires HostOK(c.hosts[p].(raft := r'), s', p)
    requires forall m {:trigger MessageOK(s', m)} :: m in sent ==> MessageOK(s', m)
    ensures Rel(C.SetRaft(c, p, r', sent), s')
  {
    Related(c, s, C.SetRaft(c, p, r', sent), s', p);
  }

  // ---------------------------------------------------------------- the steps

  lemma SimTimeout(c: C.Cluster, s: Spec, p: nat) returns (s': Spec, acts: seq<Action>)
    requires Inv(s) && Rel(c, s) && C.Enabled(c, C.Timeout(p)) && C.NoPanic(c, C.Timeout(p))
    ensures Behaves(s, acts, s') && Rel(C.Apply(c, C.Timeout(p)), s')
  {
    assert HostOK(c.hosts[p], s, p);
    var r := c.hosts[p].raft;
    s' := TimeoutRefines(r, s, p);
    acts := [DoCampaign(p)];
    Once(s, DoCampaign(p), s');
    var (r', args) := StartElection(r);
    RaftStep(c, s, p, r', set q | q in Peers(|c.hosts|) && q != p :: C.VoteRequest(q, args), s', acts);
  }

  lemma SimVote(c: C.Cluster, s: Spec, m: C.Message) returns (s': Spec, acts: seq<Action>)
    requires Inv(s) && Rel(c, s) && C.Enabled(c, C.ReceiveVote(m)) && C.NoPanic(c, C.ReceiveVote(m))
    ensures Behaves(s, acts, s') && Rel(C.Apply(c, C.ReceiveVote(m)), s')
  {
    assert HostOK(c.hosts[m.to], s, m.to);
    assert MessageOK(s, m);
    var r := c.hosts[m.to].raft;
    UntouchedByVote(r, m.vote);
    s', acts := VoteRefines(r, s, m.to, m.vote);
    var (r', reply) := RequestVote(r, m.vote);
    RaftStep(c, s, m.to, r', {C.VoteReply(m.to, m.vote, reply)}, s', acts);
  }

  lemma SimVoteReply(c: C.Cluster, s: Spec, m: C.Message) returns (s': Spec, acts: seq<Action>)
    requires Inv(s) && Rel(c, s) && C.Enabled(c, C.ReceiveVoteReply(m)) && C.NoPanic(c, C.ReceiveVoteReply(m))
    ensures Behaves(s, acts, s') && Rel(C.Apply(c, C.ReceiveVoteReply(m)), s')
  {
    var p := m.vote.candidateId;
    assert HostOK(c.hosts[p], s, p);
    assert MessageOK(s, m);
    var r := c.hosts[p].raft;
    UntouchedByReplies(r, m.from, m.vote.term, m.voteReply);
    s', acts := VoteReplyRefines(r, s, p, m.from, m.vote, m.voteReply);
    RaftStep(c, s, p, OnVoteReply(r, m.from, m.vote.term, m.voteReply), {}, s', acts);
  }

  lemma SimStart(c: C.Cluster, s: Spec, p: nat, command: Command) returns (s': Spec, acts: seq<Action>)
    requires Inv(s) && Rel(c, s) && C.Enabled(c, C.ClientStart(p, command)) && C.NoPanic(c, C.ClientStart(p, command))
    ensures Behaves(s, acts, s') && Rel(C.Apply(c, C.ClientStart(p, command)), s')
  {
    assert HostOK(c.hosts[p], s, p);
    s', acts := StartRefines(c.hosts[p].raft, s, p, command);
    RaftStep(c, s, p, Start(c.hosts[p].raft, command).0, {}, s', acts);
  }

  lemma SimReplicate(c: C.Cluster, s: Spec, p: nat, to: nat) returns (s': Spec, acts: seq<Action>)
    requires Inv(s) && Rel(c, s) && C.Enabled(c, C.Replicate(p, to)) && C.NoPanic(c, C.Replicate(p, to))
    ensures Behaves(s, acts, s') && Rel(C.Apply(c, C.Replicate(p, to)), s')
  {
    assert HostOK(c.hosts[p], s, p);
    var r := c.hosts[p].raft;
    s', acts := ReplicateRefines(r, s, p, to);
    var sent := match ReplicateTo(r, to) {
        case Nothing => {}
        case OutAppend(args) => {C.AppendRequest(to, args)}
        case OutInstall(args) => {C.InstallRequest(to, args)}
      };
    RaftStep(c, s, p, r, sent, s', acts);
  }

  lemma SimAppend(c: C.Cluster, s: Spec, m: C.Message) returns (s': Spec, acts: seq<Action>)
    requires Inv(s) && Rel(c, s) && C.Enabled(c, C.ReceiveAppend(m)) && C.NoPanic(c, C.ReceiveAppend(m))
    ensures Behaves(s, acts, s') && Rel(C.Apply(c, C.ReceiveAppend(m)), s')
  {
    assert HostOK(c.hosts[m.to], s, m.to);
    assert MessageOK(s, m);
    var r := c.hosts[m.to].raft;
    UntouchedByAppend(r, m.append);
    s', acts := AppendRefines(r, s, m.to, m.append);
    var (r', reply) := AppendEntries(r, m.append);
    RaftStep(c, s, m.to, r', {C.AppendReply(m.to, m.append, reply)}, s', acts);
  }

  lemma SimAppendReply(c: C.Cluster, s: Spec, m: C.Message) returns (s': Spec, acts: seq<Action>)
    requires Inv(s) && Rel(c, s) && C.Enabled(c, C.ReceiveAppendReply(m)) && C.NoPanic(c, C.ReceiveAppendReply(m))
    ensures Behaves(s, acts, s') && Rel(C.Apply(c, C.ReceiveAppendReply(m)), s')
  {
    var p := m.append.leaderId;
    assert HostOK(c.hosts[p], s, p);
    assert MessageOK(s, m);
    var r := c.hosts[p].raft;
    UntouchedByAppendReply(r, m.from, m.append, m.appendReply);
    s', acts := AppendReplyRefines(r, s, p, m.from, m.append, m.appendReply);
    RaftStep(c, s, p, OnAppendReply(r, m.from, m.append, m.appendReply), {}, s', acts);
  }

  lemma SimInstallReply(c: C.Cluster, s: Spec, m: C.Message) returns (s': Spec, acts: seq<Action>)
    requires Inv(s) && Rel(c, s) && C.Enabled(c, C.ReceiveInstallReply(m)) && C.NoPanic(c, C.ReceiveInstallReply(m))
    ensures Behaves(s, acts, s') && Rel(C.Apply(c, C.ReceiveInstallReply(m)), s')
  {
    var p := m.install.leaderId;
    assert HostOK(c.hosts[p], s, p);
    assert MessageOK(s, m);
    var r := c.hosts[p].raft;
    s', acts := InstallReplyRefines(r, s, p, m.from, m.install, m.installReply);
    RaftStep(c, s, p, OnInstallReply(r, m.from, m.install, m.installReply), {}, s', acts);
  }

  /** A snapshot that was installed waits for delivery, and the applier has already counted it as applied. */
  lemma ServiceInstalled(h: C.Host, args: InstallSnapshotArgs, nd: Node, nd': Node)
    requires ServiceOK(h, nd) && Grown(nd, nd') && WellFormed(h.raft) && args.data != []
    requires h.raft.lastIncludedIndex <= |nd.log| && PendingOK(h.raft, nd)
    ensures ServiceOK(h.(raft := InstallSnapshot(h.raft, args).0), nd')
  {
    PhaseKept(h, h.(raft := InstallSnapshot(h.raft, args).0), nd, nd');
  }

  lemma HostInstalls(h: C.Host, s: Spec, p: nat, args: InstallSnapshotArgs) returns (s': Spec, acts: seq<Action>)
    requires Inv(s) && HostOK(h, s, p) && InstallRequestOK(s, args)
    ensures Behaves(s, acts, s') && Extends(s, s') && Moves(s, s', p)
    ensures HostOK(h.(raft := InstallSnapshot(h.raft, args).0), s', p)
    ensures InstallReplyOK(s', p, args, InstallSnapshot(h.raft, args).1)
  {
    s', acts := InstallRefines(h.raft, s, p, args);
    BehavesKeeps(s, acts, s');
    assert NodeOK(s', p);
    var log :| Ships(s, args, log);
    ServiceInstalled(h, args, s.nodes[p], s'.nodes[p]);
  }

  lemma SimInstall(c: C.Cluster, s: Spec, m: C.Message) returns (s': Spec, acts: seq<Action>)
    requires Inv(s) && Rel(c, s) && C.Enabled(c, C.ReceiveInstall(m)) && C.NoPanic(c, C.ReceiveInstall(m))
    ensures Behaves(s, acts, s') && Rel(C.Apply(c, C.ReceiveInstall(m)), s')
  {
    var p := m.to;
    assert HostOK(c.hosts[p], s, p);
    assert MessageOK(s, m);
    s', acts := HostInstalls(c.hosts[p], s, p, m.install);
    var (r', reply) := InstallSnapshot(c.hosts[p].raft, m.install);
    SetRelated(c, s, p, r', {C.InstallReply(p, m.install, reply)}, s');
  }

  lemma HostTakes(h: C.Host, s: Spec, p: nat)
    requires Inv(s) && HostOK(h, s, p) && h.phase == Idle && CanTake(h.raft)
    ensures var (r, phase) := ApplierTake(h.raft);
            HostOK(h.(raft := r, phase := phase), s, p)
  {
    var nd := s.nodes[p];
    assert NodeOK(s, p);
    if h.raft.pendingSnapshot == [] && h.raft.lastApplied < h.raft.commitIndex {
      var next := h.raft.lastApplied + 1;
      assert h.raft.log[next - h.raft.lastIncludedIndex] == nd.log[next - 1];
    }
  }

  lemma SimTake(c: C.Cluster, s: Spec, p: nat)
    requires Inv(s) && Rel(c, s) && C.Enabled(c, C.Take(p)) && C.NoPanic(c, C.Take(p))
    ensures Rel(C.Apply(c, C.Take(p)), s)
  {
    assert HostOK(c.hosts[p], s, p);
    HostTakes(c.hosts[p], s, p);
    Related(c, s, C.Apply(c, C.Take(p)), s, p);
  }

  /** What is handed over is committed. */
  lemma HandedCommitted(h: C.Host, s: Spec, p: nat)
    requires Inv(s) && p < |s.nodes| && ServiceOK(h, s.nodes[p]) && (h.phase.SendingSnapshot? || h.phase.SendingCommand?)
    ensures DeliveryOK(s, C.Handed(h.phase))
  {
    var nd, i := s.nodes[p], h.phase.index;
    assert NodeOK(s, p);
    CommittedPrefix(s, nd.term, nd.log[..nd.commit], i);
    assert nd.log[..nd.commit][..i] == nd.log[..i];
    assert Attests(s, nd.term, nd.log[..i], C.Handed(h.phase));
  }

  lemma ServiceReceives(h: C.Host, nd: Node)
    requires ServiceOK(h, nd) && (h.phase.SendingSnapshot? || h.phase.SendingCommand?)
    ensures var msg := C.Handed(h.phase);
            ServiceOK(h.(phase := Sent(msg.index), view := C.Receive(h.view, msg)), nd)
  {
    var view' := C.Receive(h.view, C.Handed(h.phase));
    assert view' == Commands(nd.log[..|view'|]);
  }

  lemma SimDeliver(c: C.Cluster, s: Spec, p: nat)
    requires Inv(s) && Rel(c, s) && C.Enabled(c, C.Deliver(p)) && C.NoPanic(c, C.Deliver(p))
    ensures Rel(C.Apply(c, C.Deliver(p)), s)
  {
    assert HostOK(c.hosts[p], s, p);
    HandedCommitted(c.hosts[p], s, p);
    ServiceReceives(c.hosts[p], s.nodes[p]);
    Related(c, s, C.Apply(c, C.Deliver(p)), s, p);
  }

  lemma SimRelock(c: C.Cluster, s: Spec, p: nat)
    requires Inv(s) && Rel(c, s) && C.Enabled(c, C.Relock(p)) && C.NoPanic(c, C.Relock(p))
    ensures Rel(C.Apply(c, C.Relock(p)), s)
  {
    assert HostOK(c.hosts[p], s, p);
    Related(c, s, C.Apply(c, C.Relock(p)), s, p);
  }

  lemma HostSnapshots(h: C.Host, s: Spec, p: nat, index: nat)
    requires HostOK(h, s, p) && WellFormed(h.raft) && 1 <= index <= |h.view|
    ensures HostOK(h.(raft := Snapshot(h.raft, index, h.view[..index])), s, p)
  {
    var nd := s.nodes[p];
    assert h.view[..index] == Commands(nd.log[..index]);
    SnapshotStutters(h.raft, s, p, index, h.view[..index]);
    PhaseKept(h, h.(raft := Snapshot(h.raft, index, h.view[..index])), nd, nd);
  }

  lemma SimSnapshot(c: C.Cluster, s: Spec, p: nat, index: nat)
    requires Inv(s) && Rel(c, s) && C.Enabled(c, C.ServiceSnapshot(p, index)) && C.NoPanic(c, C.ServiceSnapshot(p, index))
    ensures Rel(C.Apply(c, C.ServiceSnapshot(p, index)), s)
  {
    assert HostOK(c.hosts[p], s, p);
    HostSnapshots(c.hosts[p], s, p, index);
    Related(c, s, C.Apply(c, C.ServiceSnapshot(p, index)), s, p);
  }

  lemma SimCrash(c: C.Cluster, s: Spec, p: nat) returns (s': Spec, acts: seq<Action>)
    requires Inv(s) && Rel(c, s) && C.Enabled(c, C.Crash(p)) && C.NoPanic(c, C.Crash(p))
    ensures Behaves(s, acts, s') && Rel(C.Apply(c, C.Crash(p)), s')
  {
    assert HostOK(c.hosts[p], s, p);
    var r := c.hosts[p].raft;
    s' := CrashRefines(r, s, p);
    acts := [DoRestart(p, r.lastIncludedIndex)];
    Once(s, DoRestart(p, r.lastIncludedIndex), s');
    BehavesKeeps(s, acts, s');
    Related(c, s, C.Apply(c, C.Crash(p)), s', p);
  }

  /** Simulation: any cluster step from a related state is a sequence of protocol actions. */
  lemma Simulates(c: C.Cluster, s: Spec, st: C.Step, c': C.Cluster) returns (s': Spec, acts: seq<Action>)
    requires Inv(s) && Rel(c, s) && C.Next(c, st, c')
    ensures Behaves(s, acts, s') && Rel(c', s')
  {
    s', acts := s, [];
    match st
    case Timeout(p) => s', acts := SimTimeout(c, s, p);
    case ReceiveVote(m) => s', acts := SimVote(c, s, m);
    case ReceiveVoteReply(m) => s', acts := SimVoteReply(c, s, m);
    case ClientStart(p, command) => s', acts := SimStart(c, s, p, command);
    case Replicate(p, to) => s', acts := SimReplicate(c, s, p, to);
    case ReceiveAppend(m) => s', acts := SimAppend(c, s, m);
    case ReceiveAppendReply(m) => s', acts := SimAppendReply(c, s, m);
    case ReceiveInstall(m) => s', acts := SimInstall(c, s, m);
    case ReceiveInstallReply(m) => s', acts := SimInstallReply(c, s, m);
    case Take(p) => SimTake(c, s, p);
    case Deliver(p) => SimDeliver(c, s, p);
    case Relock(p) => SimRelock(c, s, p);
    case ServiceSnapshot(p, index) => SimSnapshot(c, s, p, index);
    case Crash(p) => s', acts := SimCrash(c, s, p);
  }
}
