/** Compaction is invisible in the system too. In every run of it, whatever the services put into their snapshots, all
    handlers decide and do on the compacted log what they do on the uncompacted log of the run; in a run without a stale
    delivery the snapshots hold the missing commands as well. */
module RaftSystemCompaction {
  import opened RaftTypes
  import opened RaftProtocol
  import opened RaftPeer
  import opened RaftService
  import opened RaftSystem
  import opened RaftShadow
  import opened RaftSystemSafety
  import opened RaftCompaction
  import S = RaftSafety
  import C = RaftCluster

  /** A shadow of the run with its uncompacted logs. */
  ghost predicate SystemHistory(run: seq<System>, steps: seq<C.Step>, shadow: seq<C.Cluster>, ws: seq<C.Step>,
                                specs: seq<Spec>, acts: seq<seq<Action>>) {
    IsRun(run, steps) && Shadows(run, steps, shadow, ws) && History(shadow, ws, specs, acts)
  }

  /** Every run has one. */
  lemma HistoryExists(run: seq<System>, steps: seq<C.Step>)
    returns (shadow: seq<C.Cluster>, ws: seq<C.Step>, specs: seq<Spec>, acts: seq<seq<Action>>)
    requires IsRun(run, steps)
    ensures SystemHistory(run, steps, shadow, ws, specs, acts)
  {
    shadow, ws := Shadow(run, steps);
    specs, acts := S.RunRefines(shadow, ws);
  }

  /** A run without stale deliveries is its own shadow, so every theorem of RaftCompaction is about it. */
  lemma InStepHistory(run: seq<System>, steps: seq<C.Step>) returns (specs: seq<Spec>, acts: seq<seq<Action>>)
    requires IsRun(run, steps) && NeverStale(run, steps, |steps|)
    ensures History(Clusters(run), steps, specs, acts)
  {
    WholeRun(run, steps);
    specs, acts := S.RunRefines(Clusters(run), steps);
  }

  /** Peers that differ only in the contents of snapshots are the same without compaction. */
  lemma ExpandAlike(r: Peer, q: Peer, whole: Log)
    requires AlikePeer(r, q)
    ensures Expand(r, whole) == Expand(q, whole)
    ensures LogCompacts(r, whole) <==> LogCompacts(q, whole)
  {
  }

  /** What the peer of a system and its shadow have in common. */
  lemma Standing(run: seq<System>, steps: seq<C.Step>, shadow: seq<C.Cluster>, ws: seq<C.Step>, specs: seq<Spec>,
                 acts: seq<seq<Action>>, i: nat, p: nat)
    requires SystemHistory(run, steps, shadow, ws, specs, acts) && i < |run| && p < |run[i].cluster.hosts|
    ensures |shadow[i].hosts| == |run[i].cluster.hosts| && AlikeHost(run[i].cluster.hosts[p], shadow[i].hosts[p])
    ensures var r, whole := run[i].cluster.hosts[p].raft, WholeAt(specs, i, p);
            && WellFormed(r) && r.n == |run[i].cluster.hosts| && LogCompacts(r, whole)
            && r.lastIncludedTerm == TermAt(whole, r.lastIncludedIndex)
  {
    assert Alike(run[i].cluster, shadow[i]);
    HostTwin(run, steps, shadow, ws, i, p);
    Behind(shadow, ws, specs, acts, i, p);
    ExpandAlike(run[i].cluster.hosts[p].raft, shadow[i].hosts[p].raft, WholeAt(specs, i, p));
    PeerCount(run, steps, i, p);
  }

  /** Elections, clients and replies: the same decisions, replies and state, with nextIndex after a rejection as
      RepliesSame says. */
  lemma HandlersSame(run: seq<System>, steps: seq<C.Step>, shadow: seq<C.Cluster>, ws: seq<C.Step>, specs: seq<Spec>,
                     acts: seq<seq<Action>>, i: nat, p: nat)
    requires SystemHistory(run, steps, shadow, ws, specs, acts) && i < |run| && p < |run[i].cluster.hosts|
    ensures var r, whole := run[i].cluster.hosts[p].raft, WholeAt(specs, i, p);
            && WellFormed(r) && LogCompacts(r, whole)
            && ElectsSame(r, whole)
            && (forall args :: VotesSame(r, whole, args))
            && (forall from, term, reply ::
                  Mirrors(OnVoteReply(r, from, term, reply), OnVoteReply(Expand(r, whole), from, term, reply), whole))
            && (forall command :: StartsSame(r, whole, command))
            && (forall from, args, reply :: 0 <= from < r.n ==>
                  Mirrors(OnInstallReply(r, from, args, reply), OnInstallReply(Expand(r, whole), from, args, reply), whole))
            && (forall from, args, reply :: 0 <= from < r.n ==> RepliesSame(r, whole, from, args, reply))
  {
    Standing(run, steps, shadow, ws, specs, acts, i, p);
    PeerHandlers(run[i].cluster.hosts[p].raft, WholeAt(specs, i, p));
  }

  lemma PeerHandlers(r: Peer, whole: Log)
    requires WellFormed(r) && LogCompacts(r, whole)
    ensures ElectsSame(r, whole)
    ensures forall args :: VotesSame(r, whole, args)
    ensures forall from, term, reply ::
              Mirrors(OnVoteReply(r, from, term, reply), OnVoteReply(Expand(r, whole), from, term, reply), whole)
    ensures forall command :: StartsSame(r, whole, command)
    ensures forall from, args, reply :: 0 <= from < r.n ==>
              Mirrors(OnInstallReply(r, from, args, reply), OnInstallReply(Expand(r, whole), from, args, reply), whole)
    ensures forall from, args, reply :: 0 <= from < r.n ==> RepliesSame(r, whole, from, args, reply)
  {
    ElectionSame(r, whole);
    forall args ensures VotesSame(r, whole, args) { VoteSame(r, whole, args); }
    forall from, term, reply
      ensures Mirrors(OnVoteReply(r, from, term, reply), OnVoteReply(Expand(r, whole), from, term, reply), whole)
    {
      VoteReplySame(r, whole, from, term, reply);
    }
    forall command ensures StartsSame(r, whole, command) { StartSame(r, whole, command); }
    forall from, args, reply | 0 <= from < r.n
      ensures Mirrors(OnInstallReply(r, from, args, reply), OnInstallReply(Expand(r, whole), from, args, reply), whole)
    {
      InstallReplySame(r, whole, from, args, reply);
    }
    forall from, args, reply | 0 <= from < r.n ensures RepliesSame(r, whole, from, args, reply) {
      AppendReplySame(r, whole, from, args, reply);
    }
  }

  /** What a leader sends, and what a restart recovers. */
  lemma SendsAndRestartsSame(run: seq<System>, steps: seq<C.Step>, shadow: seq<C.Cluster>, ws: seq<C.Step>,
                             specs: seq<Spec>, acts: seq<seq<Action>>, i: nat, p: nat, to: nat)
    requires SystemHistory(run, steps, shadow, ws, specs, acts)
    requires i < |run| && p < |run[i].cluster.hosts| && to < |run[i].cluster.hosts|
    ensures var r, whole := run[i].cluster.hosts[p].raft, WholeAt(specs, i, p);
            && LogCompacts(r, whole) && CanReplicate(r, to) && CanReplicate(Expand(r, whole), to)
            && SendsSame(r, whole, to)
            && RestartsSame(|run[i].cluster.hosts|, p, r, whole)
  {
    Standing(run, steps, shadow, ws, specs, acts, i, p);
    IndexBounds(run, steps, i, p);
    CrashRecovery(run, steps, i, p);
    var r, whole := run[i].cluster.hosts[p].raft, WholeAt(specs, i, p);
    SameEnd(r, whole);
    ReplicateSame(r, whole, to);
    RestartSame(|run[i].cluster.hosts|, p, r, whole);
  }

  /** A step of AppendEntries: the same reply, but for a conflict index that stops at the boundary, and the log that the
      uncompacted handler leaves. */
  lemma AppendEntriesSame(run: seq<System>, steps: seq<C.Step>, shadow: seq<C.Cluster>, ws: seq<C.Step>,
                          specs: seq<Spec>, acts: seq<seq<Action>>, i: nat)
    requires SystemHistory(run, steps, shadow, ws, specs, acts) && i < |steps| && steps[i].ReceiveAppend?
    ensures steps[i].m.AppendRequest? && steps[i].m.to < |run[i].cluster.hosts|
    ensures var m := steps[i].m;
            var r := run[i].cluster.hosts[m.to].raft;
            var whole, whole' := WholeAt(specs, i, m.to), WholeAt(specs, i + 1, m.to);
            WellFormed(r) && LogCompacts(r, whole) && AppendsSame(r, whole, m.append, whole')
  {
    assert AlikeStep(steps[i], ws[i]);
    AppendEntriesCompacted(shadow, ws, specs, acts, i);
    var m := steps[i].m;
    assert Alike(run[i].cluster, shadow[i]);
    Standing(run, steps, shadow, ws, specs, acts, i, m.to);
    AppendsAlike(run[i].cluster.hosts[m.to].raft, shadow[i].hosts[m.to].raft, m.append, WholeAt(specs, i, m.to),
                 WholeAt(specs, i + 1, m.to));
  }

  lemma AppendsAlike(r: Peer, q: Peer, args: AppendEntriesArgs, whole: Log, whole': Log)
    requires WellFormed(r) && AlikePeer(r, q) && LogCompacts(r, whole) && LogCompacts(q, whole)
    requires AppendsSame(q, whole, args, whole')
    ensures AppendsSame(r, whole, args, whole')
  {
    AppendAlike(r, q, args);
    ExpandAlike(r, q, whole);
    ExpandAlike(AppendEntries(r, args).0, AppendEntries(q, args).0, whole');
  }

  /** InstallSnapshot: equal above the boundary, and exactly as InstallsSame says at or under it. */
  lemma InstallSnapshotSame(run: seq<System>, steps: seq<C.Step>, shadow: seq<C.Cluster>, ws: seq<C.Step>,
                            specs: seq<Spec>, acts: seq<seq<Action>>, i: nat, m: C.Message)
    requires SystemHistory(run, steps, shadow, ws, specs, acts) && i < |run|
    requires m in run[i].cluster.net && m.InstallRequest? && m.to < |run[i].cluster.hosts|
    ensures var r, whole := run[i].cluster.hosts[m.to].raft, WholeAt(specs, i, m.to);
            WellFormed(r) && LogCompacts(r, whole) && InstallsSame(r, whole, m.install)
  {
    Standing(run, steps, shadow, ws, specs, acts, i, m.to);
    assert Alike(run[i].cluster, shadow[i]);
    var w := FindMessage(run[i].cluster, shadow[i], m);
    InstallKnown(shadow, ws, specs, acts, i, w);
    InstallSame(run[i].cluster.hosts[m.to].raft, WholeAt(specs, i, m.to), m.install);
  }

  /** The applier takes the same command, or a waiting snapshot of a committed index of the whole log. */
  lemma TakeIsSame(run: seq<System>, steps: seq<C.Step>, shadow: seq<C.Cluster>, ws: seq<C.Step>,
                   specs: seq<Spec>, acts: seq<seq<Action>>, i: nat, p: nat)
    requires SystemHistory(run, steps, shadow, ws, specs, acts) && i < |run| && p < |run[i].cluster.hosts|
    requires run[i].cluster.hosts[p].phase == Idle
    ensures var r, whole := run[i].cluster.hosts[p].raft, WholeAt(specs, i, p);
            LogCompacts(r, whole) && CanTake(r) && CanTake(Expand(r, whole)) && TakesSame(r, whole)
  {
    Standing(run, steps, shadow, ws, specs, acts, i, p);
    TakeCompacted(shadow, ws, specs, acts, i, p);
    TakeReady(run[i].cluster.hosts[p].raft, shadow[i].hosts[p].raft, WholeAt(specs, i, p));
  }

  lemma TakeReady(r: Peer, q: Peer, whole: Log)
    requires WellFormed(r) && AlikePeer(r, q) && LogCompacts(r, whole) && LogCompacts(q, whole)
    requires CanTake(q) && CanTake(Expand(q, whole)) && TakesSame(q, whole)
    ensures CanTake(r) && CanTake(Expand(r, whole)) && TakesSame(r, whole)
  {
    ExpandAlike(r, q, whole);
    TakeAlike(r, q);
    ExpandAlike(ApplierTake(r).0, ApplierTake(q).0, whole);
  }

  /** A service's snapshot, whatever it holds, moves only the boundary. */
  lemma SnapshotIsSame(run: seq<System>, steps: seq<C.Step>, shadow: seq<C.Cluster>, ws: seq<C.Step>,
                       specs: seq<Spec>, acts: seq<seq<Action>>, i: nat, p: nat)
    requires SystemHistory(run, steps, shadow, ws, specs, acts) && i < |run| && p < |run[i].cluster.hosts|
    ensures |run[i].servers| == |run[i].cluster.hosts|
    ensures var r, whole, request := run[i].cluster.hosts[p].raft, WholeAt(specs, i, p), run[i].servers[p].request;
            && WellFormed(r) && LogCompacts(r, whole)
            && (request.MakeSnapshot? ==> SnapshotsSame(r, whole, request.index, Data(request)))
  {
    Standing(run, steps, shadow, ws, specs, acts, i, p);
    assert Alike(run[i].cluster, shadow[i]);
    assert RequestOK(run[i].cluster.hosts[p], run[i].servers[p]);
    S.ServiceSeesCommittedPrefix(shadow, ws, i, p);
    var request := run[i].servers[p].request;
    if request.MakeSnapshot? {
      SnapshotSame(run[i].cluster.hosts[p].raft, WholeAt(specs, i, p), request.index, Data(request));
    }
  }
}
