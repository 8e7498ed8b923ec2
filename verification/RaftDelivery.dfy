/** Which snapshots a peer hands to its service behind what the service already has, and when a service is in step
    with its peer over a whole run. */
module RaftDelivery {
  import opened RaftTypes
  import opened RaftProtocol
  import opened RaftPeer
  import opened RaftRefinement
  import opened RaftSimulation
  import opened RaftSafety
  import opened RaftService
  import C = RaftCluster

  /** The peer takes over the snapshot of an InstallSnapshot request. */
  predicate Accepted(r: Peer, args: InstallSnapshotArgs) {
    args.term >= r.currentTerm && args.lastIncludedIndex > r.lastIncludedIndex
  }

  /** The highest index delivered or being sent as a command. */
  function Reach(h: C.Host): nat {
    if h.phase.SendingCommand? then Max(|h.view|, h.phase.index) else |h.view|
  }

  /** A command is being sent, or has been sent and is not yet counted in lastApplied. */
  predicate NextInFlight(h: C.Host) {
    h.phase.SendingCommand? || (h.phase.Sent? && h.phase.index > h.raft.lastApplied)
  }

  /** A snapshot is queued or being sent that ends before what the service will have by then. */
  predicate Behind(h: C.Host) {
    || (h.raft.pendingSnapshot != [] && h.raft.pendingSnapshotIndex < Reach(h))
    || (h.phase.SendingSnapshot? && h.phase.index < |h.view|)
  }

  /** Snapshots are queued in order, and at most one delivery is not yet counted as applied. */
  predicate Ordered(h: C.Host) {
    && (h.phase.SendingSnapshot? ==>
          && h.phase.index <= h.raft.lastIncludedIndex
          && (h.raft.pendingSnapshot != [] ==> h.phase.index <= h.raft.pendingSnapshotIndex))
    && (h.phase.Sent? ==> |h.view| <= h.raft.lastApplied + 1)
  }

  /** Step st gives host p a snapshot behind what it has delivered or is delivering. */
  predicate StaleInstall(c: C.Cluster, st: C.Step, p: nat)
    requires p < |c.hosts|
  {
    && st.ReceiveInstall? && st.m.InstallRequest? && st.m.to == p
    && Accepted(c.hosts[p].raft, st.m.install)
    && st.m.install.lastIncludedIndex < Reach(c.hosts[p])
  }

  // ---------------------------------------------------------------- one step

  /** The applier's view of the peer is unchanged. */
  predicate Quiet(h: C.Host, h': C.Host) {
    && h'.phase == h.phase && h'.view == h.view
    && QuietPeer(h.raft, h'.raft)
  }

  /** Steps that the applier of host p can notice. */
  predicate Touches(c: C.Cluster, st: C.Step, p: nat) {
    match st
    case ReceiveInstall(m) => m.InstallRequest? && m.to == p && p < |c.hosts| && Accepted(c.hosts[p].raft, m.install)
    case Take(q) => q == p
    case Deliver(q) => q == p
    case Relock(q) => q == p
    case Crash(q) => q == p
    case _ => false
  }

  predicate QuietPeer(r: Peer, r': Peer) {
    && r'.pendingSnapshot == r.pendingSnapshot && r'.pendingSnapshotIndex == r.pendingSnapshotIndex
    && r'.lastIncludedIndex >= r.lastIncludedIndex && r'.lastApplied == r.lastApplied
  }

  lemma QuietAppend(r: Peer, args: AppendEntriesArgs)
    requires WellFormed(r)
    ensures QuietPeer(r, AppendEntries(r, args).0)
  {
  }

  lemma QuietVotes(c: C.Cluster, st: C.Step, c': C.Cluster, p: nat)
    requires C.Next(c, st, c') && p < |c.hosts| && (st.Timeout? || st.ReceiveVote? || st.ReceiveVoteReply?)
    ensures |c'.hosts| == |c.hosts| && Quiet(c.hosts[p], c'.hosts[p])
  {
  }

  lemma QuietReplies(c: C.Cluster, st: C.Step, c': C.Cluster, p: nat)
    requires C.Next(c, st, c') && p < |c.hosts| && (st.Replicate? || st.ReceiveAppendReply? || st.ReceiveInstallReply?)
    ensures |c'.hosts| == |c.hosts| && Quiet(c.hosts[p], c'.hosts[p])
  {
  }

  lemma QuietSteps(c: C.Cluster, st: C.Step, c': C.Cluster, p: nat)
    requires C.Next(c, st, c') && p < |c.hosts| && !Touches(c, st, p)
    ensures |c'.hosts| == |c.hosts| && Quiet(c.hosts[p], c'.hosts[p])
  {
    if st.ReceiveAppend? {
      QuietAppend(c.hosts[st.m.to].raft, st.m.append);
    } else if st.Timeout? || st.ReceiveVote? || st.ReceiveVoteReply? {
      QuietVotes(c, st, c', p);
    } else if st.Replicate? || st.ReceiveAppendReply? || st.ReceiveInstallReply? {
      QuietReplies(c, st, c', p);
    }
  }

  /** The data that an InstallSnapshot request carries is not empty. */
  lemma InstallData(c: C.Cluster, s: Spec, m: C.Message)
    requires Rel(c, s) && m in c.net && m.InstallRequest?
    ensures m.install.data != []
  {
    assert MessageOK(s, m);
    var log :| Ships(s, m.install, log);
  }

  lemma InstallNotEmpty(run: seq<C.Cluster>, steps: seq<C.Step>, m: C.Message)
    requires C.IsRun(run, steps) && m in run[|steps|].net && m.InstallRequest?
    ensures m.install.data != []
  {
    var a, _, _ := Joint(run, steps, |steps|, |steps|);
    InstallData(run[|steps|], a, m);
  }

  /** What a step that the applier can notice does to its host. */
  function TouchedHost(h: C.Host, n: nat, p: nat, st: C.Step): C.Host
    requires WellFormed(h.raft) && (st.Take? ==> CanTake(h.raft))
  {
    match st
    case ReceiveInstall(m) => if m.InstallRequest? then h.(raft := InstallSnapshot(h.raft, m.install).0) else h
    case Take(_) => var (r, phase) := ApplierTake(h.raft); h.(raft := r, phase := phase)
    case Deliver(_) =>
      if h.phase.SendingSnapshot? || h.phase.SendingCommand? then
        var msg := C.Handed(h.phase);
        h.(phase := Sent(msg.index), view := C.Receive(h.view, msg))
      else h
    case Relock(_) => if h.phase.Sent? then h.(phase := Idle, raft := ApplierDone(h.raft, h.phase.index)) else h
    case _ => C.FreshHost(n, p, h.raft.disk)
  }

  lemma TouchedSteps(c: C.Cluster, st: C.Step, c': C.Cluster, p: nat)
    requires C.Next(c, st, c') && p < |c.hosts| && Touches(c, st, p)
    ensures |c'.hosts| == |c.hosts| && WellFormed(c.hosts[p].raft) && (st.Take? ==> CanTake(c.hosts[p].raft))
    ensures c'.hosts[p] == TouchedHost(c.hosts[p], |c.hosts|, p, st)
  {
  }

  lemma OrderedTouch(h: C.Host, nd: Node, n: nat, p: nat, st: C.Step)
    requires WellFormed(h.raft) && (st.Take? ==> CanTake(h.raft)) && Ordered(h) && ServiceOK(h, nd)
    requires h.raft.lastIncludedIndex <= |nd.log| && PendingOK(h.raft, nd)
    requires st.Take? ==> h.phase == Idle
    ensures Ordered(TouchedHost(h, n, p, st))
  {
  }

  lemma OrderedStep(c: C.Cluster, s: Spec, st: C.Step, c': C.Cluster, p: nat)
    requires Rel(c, s) && C.Next(c, st, c') && p < |c.hosts| && Ordered(c.hosts[p])
    ensures |c'.hosts| == |c.hosts| && Ordered(c'.hosts[p])
  {
    if Touches(c, st, p) {
      assert HostOK(c.hosts[p], s, p);
      TouchedSteps(c, st, c', p);
      OrderedTouch(c.hosts[p], s.nodes[p], |c.hosts|, p, st);
    } else {
      QuietSteps(c, st, c', p);
    }
  }

  lemma BehindTouch(h: C.Host, nd: Node, n: nat, p: nat, st: C.Step)
    requires WellFormed(h.raft) && (st.Take? ==> CanTake(h.raft)) && Ordered(h) && !Behind(h) && ServiceOK(h, nd)
    requires h.raft.lastIncludedIndex <= |nd.log| && PendingOK(h.raft, nd)
    requires st.Take? ==> h.phase == Idle
    requires st.ReceiveInstall? ==> st.m.InstallRequest? && st.m.install.data != []
    ensures Behind(TouchedHost(h, n, p, st)) <==>
              st.ReceiveInstall? && Accepted(h.raft, st.m.install) && st.m.install.lastIncludedIndex < Reach(h)
  {
  }

  /** The only way to fall behind is to accept a snapshot that is behind already. */
  lemma BehindStep(c: C.Cluster, s: Spec, st: C.Step, c': C.Cluster, p: nat)
    requires Rel(c, s) && C.Next(c, st, c') && p < |c.hosts| && Ordered(c.hosts[p]) && !Behind(c.hosts[p])
    ensures |c'.hosts| == |c.hosts| && (Behind(c'.hosts[p]) <==> StaleInstall(c, st, p))
  {
    if Touches(c, st, p) {
      assert HostOK(c.hosts[p], s, p);
      if st.ReceiveInstall? {
        InstallData(c, s, st.m);
      }
      TouchedSteps(c, st, c', p);
      BehindTouch(c.hosts[p], s.nodes[p], |c.hosts|, p, st);
    } else {
      QuietSteps(c, st, c', p);
    }
  }

  // ---------------------------------------------------------------- whole runs

  lemma SameHosts(c: C.Cluster, st: C.Step, c': C.Cluster)
    requires C.Next(c, st, c')
    ensures |c'.hosts| == |c.hosts|
  {
  }

  lemma StepBefore(run: seq<C.Cluster>, steps: seq<C.Step>, i: nat) returns (s: Spec)
    requires C.IsRun(run, steps) && 0 < i < |run|
    ensures C.Next(run[i - 1], steps[i - 1], run[i]) && |run[i].hosts| == |run[i - 1].hosts|
    ensures Rel(run[i - 1], s)
  {
    assert C.StepAt(run, steps, i - 1);
    SameHosts(run[i - 1], steps[i - 1], run[i]);
    var a, _, _ := Joint(run, steps, i - 1, i - 1);
    s := a;
  }

  lemma StartsOrdered(c: C.Cluster, p: nat)
    requires C.Init(c) && p < |c.hosts|
    ensures Ordered(c.hosts[p]) && !Behind(c.hosts[p])
  {
    assert c.hosts[p] == C.FreshHost(|c.hosts|, p, Disk(Unsaved, []));
  }

  lemma SameCount(run: seq<C.Cluster>, steps: seq<C.Step>, i: nat)
    requires C.IsRun(run, steps) && 0 < i < |run|
    ensures |run[i].hosts| == |run[i - 1].hosts|
  {
    var _ := StepBefore(run, steps, i);
  }

  lemma {:induction false} RunOrdered(run: seq<C.Cluster>, steps: seq<C.Step>, i: nat, p: nat)
    requires C.IsRun(run, steps) && i < |run| && p < |run[i].hosts|
    ensures Ordered(run[i].hosts[p])
    decreases i
  {
    if i == 0 {
      StartsOrdered(run[0], p);
    } else {
      SameCount(run, steps, i);
      RunOrdered(run, steps, i - 1, p);
      OrderedNext(run, steps, i, p);
    }
  }

  lemma OrderedNext(run: seq<C.Cluster>, steps: seq<C.Step>, i: nat, p: nat)
    requires C.IsRun(run, steps) && 0 < i < |run| && p < |run[i - 1].hosts| && Ordered(run[i - 1].hosts[p])
    ensures p < |run[i].hosts| && Ordered(run[i].hosts[p])
  {
    var a := StepBefore(run, steps, i);
    OrderedStep(run[i - 1], a, steps[i - 1], run[i], p);
  }

  /** No step before i installed a snapshot behind what host p had delivered or was delivering. */
  ghost predicate FreshInstalls(run: seq<C.Cluster>, steps: seq<C.Step>, i: nat, p: nat)
    requires i <= |steps| < |run|
  {
    forall k: nat {:trigger FreshAt(run, steps, k, p)} :: k < i ==> FreshAt(run, steps, k, p)
  }

  ghost predicate FreshAt(run: seq<C.Cluster>, steps: seq<C.Step>, k: nat, p: nat)
    requires k < |steps| < |run|
  {
    p < |run[k].hosts| ==> !StaleInstall(run[k], steps[k], p)
  }

  lemma {:induction false} RunNotBehind(run: seq<C.Cluster>, steps: seq<C.Step>, i: nat, p: nat)
    requires C.IsRun(run, steps) && i < |run| && p < |run[i].hosts| && FreshInstalls(run, steps, i, p)
    ensures !Behind(run[i].hosts[p])
    decreases i
  {
    if i == 0 {
      StartsOrdered(run[0], p);
    } else {
      var k := i - 1;
      SameCount(run, steps, i);
      assert FreshInstalls(run, steps, k, p);
      RunNotBehind(run, steps, k, p);
      assert FreshAt(run, steps, k, p);
      NotBehindNext(run, steps, k, p);
    }
  }

  lemma NotBehindNext(run: seq<C.Cluster>, steps: seq<C.Step>, k: nat, p: nat)
    requires C.IsRun(run, steps) && k < |steps| && p < |run[k].hosts|
    requires !Behind(run[k].hosts[p]) && !StaleInstall(run[k], steps[k], p)
    ensures p < |run[k + 1].hosts| && !Behind(run[k + 1].hosts[p])
  {
    RunOrdered(run, steps, k, p);
    var a := StepBefore(run, steps, k + 1);
    BehindStep(run[k], a, steps[k], run[k + 1], p);
  }

  /** Step i hands host p a snapshot that ends before what its service has been handed. */
  predicate StaleDelivery(c: C.Cluster, st: C.Step, p: nat)
    requires p < |c.hosts|
  {
    st == C.Deliver(p) && c.hosts[p].phase.SendingSnapshot? && c.hosts[p].phase.index < |c.hosts[p].view|
  }

  /** Without stale installs no delivery is stale. */
  lemma FreshInstallsFreshDeliveries(run: seq<C.Cluster>, steps: seq<C.Step>, i: nat, p: nat)
    requires C.IsRun(run, steps) && i < |steps| && p < |run[i].hosts| && FreshInstalls(run, steps, i, p)
    ensures !StaleDelivery(run[i], steps[i], p)
  {
    RunNotBehind(run, steps, i, p);
  }

  /** What the peer could test: an accepted snapshot is stale exactly if it ends before lastApplied, or at lastApplied
      while the next command is being sent or has been sent and is not counted yet. */
  lemma LastAppliedDecides(run: seq<C.Cluster>, steps: seq<C.Step>, i: nat, p: nat, args: InstallSnapshotArgs)
    requires C.IsRun(run, steps) && i < |run| && p < |run[i].hosts| && Accepted(run[i].hosts[p].raft, args)
    ensures var h := run[i].hosts[p];
            var S, applied := args.lastIncludedIndex, h.raft.lastApplied;
            S < Reach(h) <==> S < applied || (S == applied && NextInFlight(h))
  {
    var a, _, _ := Joint(run, steps, i, i);
    assert HostOK(run[i].hosts[p], a, p);
    RunOrdered(run, steps, i, p);
  }

  // ---------------------------------------------------------------- the service of a host

  /** In step with what it was handed; right after a restart, about to be handed a snapshot. */
  predicate Synced(h: C.Host, s: Service) {
    || InSync(s, h.view)
    || (h.view == [] && (h.phase.SendingSnapshot? || (h.phase == Idle && h.raft.pendingSnapshot != [])))
  }

  /** Every delivery is one the service can expect. */
  lemma DeliversLegal(run: seq<C.Cluster>, steps: seq<C.Step>, i: nat, p: nat)
    requires C.IsRun(run, steps) && i < |run| && p < |run[i].hosts|
    requires run[i].hosts[p].phase.SendingSnapshot? || run[i].hosts[p].phase.SendingCommand?
    ensures var h := run[i].hosts[p];
            Legal(h.view, C.Handed(h.phase)) && C.Handed(h.phase).index >= 1
  {
    var a, _, _ := Joint(run, steps, i, i);
    assert HostOK(run[i].hosts[p], a, p);
    var h, log := run[i].hosts[p], a.nodes[p].log;
    if h.phase.SendingSnapshot? {
      CommandsComparable(log, |h.view|, h.phase.index);
    }
  }

  lemma CommandsComparable(log: Log, i: nat, j: nat)
    requires i <= |log| && j <= |log|
    ensures i <= j ==> Commands(log[..i]) <= Commands(log[..j])
    ensures j <= i ==> Commands(log[..j]) <= Commands(log[..i])
  {
  }

  lemma ServedOther(c: C.Cluster, s: Spec, st: C.Step, c': C.Cluster, p: nat, srv: Service)
    requires Rel(c, s) && C.Next(c, st, c') && p < |c.hosts| && st != C.Crash(p) && st != C.Deliver(p)
    requires Synced(c.hosts[p], srv)
    ensures |c'.hosts| == |c.hosts| && Synced(c'.hosts[p], srv) && c'.hosts[p].view == c.hosts[p].view
  {
    if !Touches(c, st, p) {
      QuietSteps(c, st, c', p);
    } else if st.ReceiveInstall? {
      InstallData(c, s, st.m);
    }
  }

  lemma ServedCrash(c: C.Cluster, s: Spec, c': C.Cluster, p: nat)
    requires Rel(c, s) && C.Next(c, C.Crash(p), c') && p < |c.hosts|
    ensures var saved := c.hosts[p].raft.disk.snapshot;
            Synced(c'.hosts[p], if saved == [] then EMPTY else IngestSnap(EMPTY, EncodeView(saved), -1).0)
  {
    assert HostOK(c.hosts[p], s, p);
  }

  /** A snapshot that is not stale brings a service in step whatever it knew. */
  lemma ServedDelivery(h: C.Host, srv: Service)
    requires h.phase.SendingSnapshot? || h.phase.SendingCommand?
    requires Synced(h, srv) && Legal(h.view, C.Handed(h.phase)) && C.Handed(h.phase).index >= 1
    ensures var m := C.Handed(h.phase);
            var (srv', complaint, request) := OnMessage(srv, m);
            var view' := C.Receive(h.view, m);
            && (InSync(srv', view') <==> !Stale(h.view, m))
            && view' != []
            && complaint == Fine
            && (request.MakeSnapshot? ==> request == MakeSnapshot(|view'|, EncodeView(view')))
  {
    if InSync(srv, h.view) {
      StaysInSync(srv, h.view, C.Handed(h.phase));
    } else {
      DumpSlots([Nil] + h.phase.data, h.phase.index);
    }
  }

}
