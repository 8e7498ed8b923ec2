/** A cluster of any number of peers as a transition system. Each critical section is one step.
    Messages are never removed, so loss, delay, reordering and duplication are all possible runs. */
module RaftCluster {
  import opened RaftTypes
  import opened Quorums
  import opened RaftPeer

  /** Requests carry the receiver; replies carry the responder and the request they answer. */
  datatype Message =
    | VoteRequest(to: nat, vote: RequestVoteArgs)
    | VoteReply(from: nat, vote: RequestVoteArgs, voteReply: RequestVoteReply)
    | AppendRequest(to: nat, append: AppendEntriesArgs)
    | AppendReply(from: nat, append: AppendEntriesArgs, appendReply: AppendEntriesReply)
    | InstallRequest(to: nat, install: InstallSnapshotArgs)
    | InstallReply(from: nat, install: InstallSnapshotArgs, installReply: InstallSnapshotReply)

  /** What a service receives on its apply channel. */
  datatype ApplyMsg =
    | CommandMsg(index: nat, command: Command)
    | SnapshotMsg(index: nat, term: nat, data: seq<Command>)

  datatype Delivery = Delivery(peer: nat, msg: ApplyMsg)

  /** A server: its Raft peer, its applier, and the commands 1, 2, ... handed to its service
      since the last restart, directly or inside a snapshot. */
  datatype Host = Host(raft: Peer, phase: Phase, view: seq<Command>)

  datatype Cluster = Cluster(hosts: seq<Host>, net: set<Message>, delivered: set<Delivery>)

  datatype Step =
    | Timeout(p: nat)
    | ReceiveVote(m: Message)
    | ReceiveVoteReply(m: Message)
    | ClientStart(p: nat, command: Command)
    | Replicate(p: nat, to: nat)
    | ReceiveAppend(m: Message)
    | ReceiveAppendReply(m: Message)
    | ReceiveInstall(m: Message)
    | ReceiveInstallReply(m: Message)
    | Take(p: nat)
    | Deliver(p: nat)
    | Relock(p: nat)
    | ServiceSnapshot(p: nat, index: nat)
    | Crash(p: nat)

  function FreshHost(n: nat, me: nat, disk: Disk): Host {
    Host(Make(n, me, disk), Idle, [])
  }

  ghost predicate Init(c: Cluster) {
    && |c.hosts| > 0
    && (forall p: nat :: p < |c.hosts| ==> c.hosts[p] == FreshHost(|c.hosts|, p, Disk(Unsaved, [])))
    && c.net == {} && c.delivered == {}
  }

  predicate Up(c: Cluster, p: nat) {
    p < |c.hosts|
  }

  /** The step can be taken by the environment in c. */
  predicate Enabled(c: Cluster, st: Step) {
    match st
    case Timeout(p) => Up(c, p) && c.hosts[p].raft.role != Leader
    case ReceiveVote(m) => m in c.net && m.VoteRequest? && Up(c, m.to)
    case ReceiveVoteReply(m) =>
      && m in c.net && m.VoteReply? && Up(c, m.vote.candidateId)
      && (c.hosts[m.vote.candidateId].raft.currentTerm == m.vote.term ==>
            m.from in c.hosts[m.vote.candidateId].raft.awaiting)
    case ClientStart(p, _) => Up(c, p)
    case Replicate(p, to) => Up(c, p) && Up(c, to) && to != p
    case ReceiveAppend(m) => m in c.net && m.AppendRequest? && Up(c, m.to)
    case ReceiveAppendReply(m) => m in c.net && m.AppendReply? && Up(c, m.append.leaderId) && Up(c, m.from)
    case ReceiveInstall(m) => m in c.net && m.InstallRequest? && Up(c, m.to)
    case ReceiveInstallReply(m) => m in c.net && m.InstallReply? && Up(c, m.install.leaderId) && Up(c, m.from)
    case Take(p) => Up(c, p) && c.hosts[p].phase == Idle
    case Deliver(p) => Up(c, p) && (c.hosts[p].phase.SendingSnapshot? || c.hosts[p].phase.SendingCommand?)
    case Relock(p) => Up(c, p) && c.hosts[p].phase.Sent?
    case ServiceSnapshot(p, index) => Up(c, p) && 1 <= index <= |c.hosts[p].view|
    case Crash(p) => Up(c, p)
  }

  /** No peer indexes or slices out of range when it takes the step. */
  predicate NoPanic(c: Cluster, st: Step) {
    && (forall p: nat :: p < |c.hosts| ==> WellFormed(c.hosts[p].raft) && c.hosts[p].raft.n == |c.hosts|)
    && (st.Replicate? && st.p < |c.hosts| ==> CanReplicate(c.hosts[st.p].raft, st.to))
    && (st.Take? && st.p < |c.hosts| ==> CanTake(c.hosts[st.p].raft))
  }

  function SetRaft(c: Cluster, p: nat, r: Peer, sent: set<Message>): Cluster
    requires Up(c, p)
  {
    c.(hosts := c.hosts[p := c.hosts[p].(raft := r)], net := c.net + sent)
  }

  /** The commands a service knows after receiving msg. */
  function Receive(view: seq<Command>, msg: ApplyMsg): seq<Command> {
    match msg
    case CommandMsg(index, command) => if index == |view| + 1 then view + [command] else view
    case SnapshotMsg(index, _, data) => if index > |view| then data else view
  }

  function Handed(phase: Phase): ApplyMsg
    requires phase.SendingSnapshot? || phase.SendingCommand?
  {
    match phase
    case SendingSnapshot(index, term, data) => SnapshotMsg(index, term, data)
    case SendingCommand(index, command) => CommandMsg(index, command)
  }

  function Apply(c: Cluster, st: Step): Cluster
    requires Enabled(c, st) && NoPanic(c, st)
  {
    match st
    case Timeout(p) =>
      var (r, args) := StartElection(c.hosts[p].raft);
      SetRaft(c, p, r, set q | q in Peers(|c.hosts|) && q != p :: VoteRequest(q, args))
    case ReceiveVote(m) =>
      var (r, reply) := RequestVote(c.hosts[m.to].raft, m.vote);
      SetRaft(c, m.to, r, {VoteReply(m.to, m.vote, reply)})
    case ReceiveVoteReply(m) =>
      var p := m.vote.candidateId;
      SetRaft(c, p, OnVoteReply(c.hosts[p].raft, m.from, m.vote.term, m.voteReply), {})
    case ClientStart(p, command) =>
      SetRaft(c, p, Start(c.hosts[p].raft, command).0, {})
    case Replicate(p, to) =>
      var sent := match ReplicateTo(c.hosts[p].raft, to) {
          case Nothing => {}
          case OutAppend(args) => {AppendRequest(to, args)}
          case OutInstall(args) => {InstallRequest(to, args)}
        };
      SetRaft(c, p, c.hosts[p].raft, sent)
    case ReceiveAppend(m) =>
      var (r, reply) := AppendEntries(c.hosts[m.to].raft, m.append);
      SetRaft(c, m.to, r, {AppendReply(m.to, m.append, reply)})
    case ReceiveAppendReply(m) =>
      var p := m.append.leaderId;
      SetRaft(c, p, OnAppendReply(c.hosts[p].raft, m.from, m.append, m.appendReply), {})
    case ReceiveInstall(m) =>
      var (r, reply) := InstallSnapshot(c.hosts[m.to].raft, m.install);
      SetRaft(c, m.to, r, {InstallReply(m.to, m.install, reply)})
    case ReceiveInstallReply(m) =>
      var p := m.install.leaderId;
      SetRaft(c, p, OnInstallReply(c.hosts[p].raft, m.from, m.install, m.installReply), {})
    case Take(p) =>
      var (r, phase) := ApplierTake(c.hosts[p].raft);
      c.(hosts := c.hosts[p := c.hosts[p].(raft := r, phase := phase)])
    case Deliver(p) =>
      var h := c.hosts[p];
      var msg := Handed(h.phase);
      c.(hosts := c.hosts[p := h.(phase := Sent(msg.index), view := Receive(h.view, msg))],
         delivered := c.delivered + {Delivery(p, msg)})
    case Relock(p) =>
      var h := c.hosts[p];
      c.(hosts := c.hosts[p := h.(phase := Idle, raft := ApplierDone(h.raft, h.phase.index))])
    case ServiceSnapshot(p, index) =>
      var h := c.hosts[p];
      SetRaft(c, p, Snapshot(h.raft, index, h.view[..index]), {})
    case Crash(p) =>
      c.(hosts := c.hosts[p := FreshHost(|c.hosts|, p, c.hosts[p].raft.disk)])
  }

  ghost predicate Next(c: Cluster, st: Step, c': Cluster) {
    Enabled(c, st) && NoPanic(c, st) && c' == Apply(c, st)
  }

  /** A run: consecutive states are related by the given steps. */
  ghost predicate IsRun(run: seq<Cluster>, steps: seq<Step>) {
    && |run| == |steps| + 1
    && Init(run[0])
    && (forall i: nat {:trigger StepAt(run, steps, i)} :: i < |steps| ==> StepAt(run, steps, i))
  }

  ghost predicate StepAt(run: seq<Cluster>, steps: seq<Step>, i: nat)
    requires i < |steps| < |run|
  {
    Next(run[i], steps[i], run[i + 1])
  }

  lemma RunPrefix(run: seq<Cluster>, steps: seq<Step>, n: nat)
    requires IsRun(run, steps) && n <= |steps|
    ensures IsRun(run[..n + 1], steps[..n])
  {
    var run', steps' := run[..n + 1], steps[..n];
    forall i: nat | i < n ensures StepAt(run', steps', i) {
      assert StepAt(run, steps, i);
    }
  }
}
