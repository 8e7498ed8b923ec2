/** The theorems about runs of the whole system, services included. What does not depend on the contents of
    snapshots holds in every run; that snapshots hold the committed commands, in every run without a stale delivery. */
module RaftSystemSafety {
  import opened RaftTypes
  import opened RaftPeer
  import opened RaftService
  import opened RaftSystem
  import opened RaftShadow
  import opened RaftDelivery
  import S = RaftSafety
  import C = RaftCluster

  lemma HostTwin(run: seq<System>, steps: seq<C.Step>, shadow: seq<C.Cluster>, ws: seq<C.Step>, i: nat, p: nat)
    requires Shadows(run, steps, shadow, ws) && i < |run| && p < |run[i].cluster.hosts|
    ensures p < |shadow[i].hosts| && AlikeHost(run[i].cluster.hosts[p], shadow[i].hosts[p])
  {
    assert Alike(run[i].cluster, shadow[i]);
  }

  // ---------------------------------------------------------------- in every run

  /** At most one peer is ever leader in a term. */
  lemma ElectionSafety(run: seq<System>, steps: seq<C.Step>, i: nat, j: nat, p: nat, q: nat)
    requires IsRun(run, steps) && i < |run| && j < |run|
    requires p < |run[i].cluster.hosts| && q < |run[j].cluster.hosts|
    requires var a, b := run[i].cluster.hosts[p].raft, run[j].cluster.hosts[q].raft;
             a.role == b.role == Leader && a.currentTerm == b.currentTerm
    ensures p == q
  {
    var shadow, ws := Shadow(run, steps);
    HostTwin(run, steps, shadow, ws, i, p);
    HostTwin(run, steps, shadow, ws, j, q);
    S.ElectionSafety(shadow, ws, i, j, p, q);
  }

  /** Logs with the same term at an index hold the same entries at all earlier indices that neither has compacted. */
  lemma LogMatching(run: seq<System>, steps: seq<C.Step>, i: nat, j: nat, p: nat, q: nat, k: nat, m: nat)
    requires IsRun(run, steps) && i < |run| && j < |run|
    requires p < |run[i].cluster.hosts| && q < |run[j].cluster.hosts|
    requires var a, b := run[i].cluster.hosts[p].raft, run[j].cluster.hosts[q].raft;
             && |a.log| >= 1 && a.lastIncludedIndex <= k <= LastLogIndex(a)
             && |b.log| >= 1 && b.lastIncludedIndex <= k <= LastLogIndex(b)
             && TermAtIndex(a, k) == TermAtIndex(b, k)
             && m <= k && S.Holds(a, m) && S.Holds(b, m)
    ensures S.EntryAt(run[i].cluster.hosts[p].raft, m) == S.EntryAt(run[j].cluster.hosts[q].raft, m)
  {
    var shadow, ws := Shadow(run, steps);
    HostTwin(run, steps, shadow, ws, i, p);
    HostTwin(run, steps, shadow, ws, j, q);
    S.LogMatchingInRuns(shadow, ws, i, j, p, q, k, m);
  }

  /** Two peers have index k, in the log or under the snapshot, and the same entry there unless one compacted it. */
  predicate Agree(a: Peer, b: Peer, k: nat) {
    && S.Has(a, k) && S.Has(b, k)
    && (S.Holds(a, k) && S.Holds(b, k) ==> S.EntryAt(a, k) == S.EntryAt(b, k))
  }

  /** Any two peers agree on every index that both know to be committed. */
  lemma CommittedAgree(run: seq<System>, steps: seq<C.Step>, i: nat, j: nat, p: nat, q: nat, k: nat)
    requires IsRun(run, steps) && i < |run| && j < |run|
    requires p < |run[i].cluster.hosts| && q < |run[j].cluster.hosts|
    requires 1 <= k <= run[i].cluster.hosts[p].raft.commitIndex && k <= run[j].cluster.hosts[q].raft.commitIndex
    ensures Agree(run[i].cluster.hosts[p].raft, run[j].cluster.hosts[q].raft, k)
  {
    var shadow, ws := Shadow(run, steps);
    HostTwin(run, steps, shadow, ws, i, p);
    HostTwin(run, steps, shadow, ws, j, q);
    S.CommittedAgree(shadow, ws, i, j, p, q, k);
  }

  /** Leader Completeness: every leader of a later term has what was committed, and agrees on it. */
  lemma LeadersHoldCommitted(run: seq<System>, steps: seq<C.Step>, i: nat, j: nat, p: nat, q: nat, k: nat)
    requires IsRun(run, steps) && i < |run| && j < |run|
    requires p < |run[i].cluster.hosts| && q < |run[j].cluster.hosts|
    requires 1 <= k <= run[i].cluster.hosts[p].raft.commitIndex
    requires var a, b := run[i].cluster.hosts[p].raft, run[j].cluster.hosts[q].raft;
             b.role == Leader && (a.currentTerm < b.currentTerm || (a.currentTerm == b.currentTerm && i <= j))
    ensures Agree(run[i].cluster.hosts[p].raft, run[j].cluster.hosts[q].raft, k)
  {
    var shadow, ws := Shadow(run, steps);
    HostTwin(run, steps, shadow, ws, i, p);
    HostTwin(run, steps, shadow, ws, j, q);
    S.LeadersHoldCommitted(shadow, ws, i, j, p, q, k);
  }

  /** What a peer knew to be committed it keeps, through merges, installs, compactions and crashes. */
  lemma CommittedNeverLost(run: seq<System>, steps: seq<C.Step>, i: nat, j: nat, p: nat, k: nat)
    requires IsRun(run, steps) && i <= j < |run| && p < |run[i].cluster.hosts|
    requires 1 <= k <= run[i].cluster.hosts[p].raft.commitIndex
    ensures p < |run[j].cluster.hosts|
    ensures Agree(run[i].cluster.hosts[p].raft, run[j].cluster.hosts[p].raft, k)
  {
    var shadow, ws := Shadow(run, steps);
    HostTwin(run, steps, shadow, ws, i, p);
    S.CommittedNeverLost(shadow, ws, i, j, p, k);
    assert Alike(run[j].cluster, shadow[j]);
    HostTwin(run, steps, shadow, ws, j, p);
  }

  /** No two commands delivered at one index differ, whatever the snapshots hold. */
  lemma CommandsAgree(run: seq<System>, steps: seq<C.Step>, i: nat, j: nat, d: C.Delivery, e: C.Delivery)
    requires IsRun(run, steps) && i < |run| && j < |run|
    requires d in run[i].cluster.delivered && e in run[j].cluster.delivered
    requires d.msg.CommandMsg? && e.msg.CommandMsg? && d.msg.index == e.msg.index
    ensures d.msg.command == e.msg.command
  {
    var shadow, ws := Shadow(run, steps);
    assert Alike(run[i].cluster, shadow[i]) && Alike(run[j].cluster, shadow[j]);
    assert Recorded(d, shadow[i].delivered) && Recorded(e, shadow[j].delivered);
    var d' :| d' in shadow[i].delivered && d'.peer == d.peer && AlikeMsg(d.msg, d'.msg);
    var e' :| e' in shadow[j].delivered && e'.peer == e.peer && AlikeMsg(e.msg, e'.msg);
    S.StateMachineSafety(shadow, ws, i, j, d', e');
  }

  /** A delivered command is the committed entry of every peer that knows it committed and has not compacted it. */
  lemma CommandIsCommitted(run: seq<System>, steps: seq<C.Step>, i: nat, j: nat, d: C.Delivery, q: nat)
    requires IsRun(run, steps) && i < |run| && j < |run|
    requires d in run[i].cluster.delivered && d.msg.CommandMsg? && q < |run[j].cluster.hosts|
    requires var r := run[j].cluster.hosts[q].raft; S.Holds(r, d.msg.index) && d.msg.index <= r.commitIndex
    ensures S.EntryAt(run[j].cluster.hosts[q].raft, d.msg.index).command == d.msg.command
  {
    var shadow, ws := Shadow(run, steps);
    assert Alike(run[i].cluster, shadow[i]);
    assert Recorded(d, shadow[i].delivered);
    var d' :| d' in shadow[i].delivered && d'.peer == d.peer && AlikeMsg(d.msg, d'.msg);
    HostTwin(run, steps, shadow, ws, j, q);
    S.DeliveredIsCommitted(shadow, ws, i, j, d', q, d.msg.index);
  }

  /** Every index a peer keeps is within its log. */
  lemma IndexBounds(run: seq<System>, steps: seq<C.Step>, i: nat, p: nat)
    requires IsRun(run, steps) && i < |run| && p < |run[i].cluster.hosts|
    ensures var r := run[i].cluster.hosts[p].raft;
            && WellFormed(r)
            && r.lastIncludedIndex <= r.commitIndex <= LastLogIndex(r) && r.lastApplied <= r.commitIndex
            && (r.role == Leader ==> forall q :: 0 <= q < r.n ==>
                  1 <= r.nextIndex[q] <= LastLogIndex(r) + 1 && r.matchIndex[q] <= LastLogIndex(r))
  {
    var shadow, ws := Shadow(run, steps);
    HostTwin(run, steps, shadow, ws, i, p);
    S.IndexBounds(shadow, ws, i, p);
  }

  /** No enabled step indexes or slices out of range. */
  lemma NeverPanics(run: seq<System>, steps: seq<C.Step>, i: nat, st: C.Step)
    requires IsRun(run, steps) && i < |run| && Enabled(run[i], st)
    ensures C.NoPanic(run[i].cluster, st)
  {
    forall p: nat | p < |run[i].cluster.hosts|
      ensures var r := run[i].cluster.hosts[p].raft;
              && WellFormed(r) && r.n == |run[i].cluster.hosts| && r.commitIndex <= LastLogIndex(r)
              && (r.role == Leader ==> forall q :: 0 <= q < r.n ==> r.nextIndex[q] <= LastLogIndex(r) + 1)
    {
      IndexBounds(run, steps, i, p);
      PeerCount(run, steps, i, p);
    }
  }

  lemma PeerCount(run: seq<System>, steps: seq<C.Step>, i: nat, p: nat)
    requires IsRun(run, steps) && i < |run| && p < |run[i].cluster.hosts|
    ensures run[i].cluster.hosts[p].raft.n == |run[i].cluster.hosts|
  {
    var shadow, ws := Shadow(run, steps);
    HostTwin(run, steps, shadow, ws, i, p);
    assert Alike(run[i].cluster, shadow[i]);
    S.NeverPanics(shadow, ws, i, C.Crash(p));
  }

  /** Whenever the mutex is free the disk holds the peer's term, vote, log and boundary, with a snapshot up to that
      boundary, and a restart recovers them. */
  lemma CrashRecovery(run: seq<System>, steps: seq<C.Step>, i: nat, p: nat)
    requires IsRun(run, steps) && i < |run| && p < |run[i].cluster.hosts|
    ensures var r := run[i].cluster.hosts[p].raft;
            var again := Make(|run[i].cluster.hosts|, p, r.disk);
            && Load(r.disk.raftstate) == Encode(r) && |r.disk.snapshot| == r.lastIncludedIndex
            && Encode(again) == Encode(r) && again.disk == r.disk
            && (r.lastIncludedIndex > 0 ==>
                  again.pendingSnapshot == r.disk.snapshot && again.pendingSnapshotIndex == r.lastIncludedIndex)
  {
    var shadow, ws := Shadow(run, steps);
    HostTwin(run, steps, shadow, ws, i, p);
    assert Alike(run[i].cluster, shadow[i]);
    S.CrashRecovery(shadow, ws, i, p);
  }

  /** A delivered command is the one right after the highest index delivered so far in the incarnation. */
  lemma ApplyFrontier(run: seq<System>, steps: seq<C.Step>, i: nat, p: nat)
    requires IsRun(run, steps) && i < |steps| && steps[i] == C.Deliver(p)
    requires p < |run[i].cluster.hosts| && run[i].cluster.hosts[p].phase.SendingCommand?
    ensures run[i].cluster.hosts[p].phase.index == S.Highest(Clusters(run), steps, i, p) + 1
  {
    var shadow, ws := Shadow(run, steps);
    HostTwin(run, steps, shadow, ws, i, p);
    assert AlikeStep(steps[i], ws[i]);
    S.ApplyFrontier(shadow, ws, i, p);
    HighestAlike(run, steps, shadow, ws, i, p);
  }

  function Clusters(run: seq<System>): seq<C.Cluster> {
    seq(|run|, i requires 0 <= i < |run| => run[i].cluster)
  }

  lemma {:induction false} HighestAlike(run: seq<System>, steps: seq<C.Step>, shadow: seq<C.Cluster>, ws: seq<C.Step>,
                                        i: nat, p: nat)
    requires Shadows(run, steps, shadow, ws) && i < |run|
    ensures S.Highest(Clusters(run), steps, i, p) == S.Highest(shadow, ws, i, p)
    decreases i
  {
    if i > 0 {
      HighestAlike(run, steps, shadow, ws, i - 1, p);
      assert AlikeStep(steps[i - 1], ws[i - 1]);
      assert Alike(run[i - 1].cluster, shadow[i - 1]);
      if p < |run[i - 1].cluster.hosts| {
        HostTwin(run, steps, shadow, ws, i - 1, p);
      }
    }
  }

  /** A request within what it carries: see RaftSafety. Requests carry no snapshot, so they are the shadow's. */
  lemma ClampIsSafe(run: seq<System>, steps: seq<C.Step>, i: nat, m: C.Message)
    requires IsRun(run, steps) && i < |run| && m in run[i].cluster.net && m.AppendRequest?
    requires m.to < |run[i].cluster.hosts|
    ensures var r := run[i].cluster.hosts[m.to].raft;
            var sent := m.append.prevLogIndex + |m.append.entries|;
            && WellFormed(r)
            && m.append.leaderCommit <= sent
            && AppendEntries(r, m.append).0.commitIndex <= Max(r.commitIndex, sent)
            && (sent < r.lastIncludedIndex ==> AppendEntries(r, m.append).0.commitIndex == r.commitIndex)
  {
    var shadow, ws := Shadow(run, steps);
    HostTwin(run, steps, shadow, ws, i, m.to);
    assert Alike(run[i].cluster, shadow[i]);
    var _ := FindMessage(run[i].cluster, shadow[i], m);
    S.ClampIsSafe(shadow, ws, i, m);
    AppendAlike(run[i].cluster.hosts[m.to].raft, shadow[i].hosts[m.to].raft, m.append);
  }

  /** A rejection handled in its term moves nextIndex to at least 1 and at most the rejected prevLogIndex. */
  lemma FastBackupProgress(run: seq<System>, steps: seq<C.Step>, i: nat, m: C.Message)
    requires IsRun(run, steps) && i < |run| && m in run[i].cluster.net && m.AppendReply?
    requires m.append.leaderId < |run[i].cluster.hosts| && !m.appendReply.success
    requires var r := run[i].cluster.hosts[m.append.leaderId].raft;
             r.role == Leader && r.currentTerm == m.append.term && m.appendReply.term <= r.currentTerm
    ensures var r := run[i].cluster.hosts[m.append.leaderId].raft;
            && WellFormed(r) && m.from < r.n
            && 1 <= OnAppendReply(r, m.from, m.append, m.appendReply).nextIndex[m.from] <= m.append.prevLogIndex
  {
    var shadow, ws := Shadow(run, steps);
    var p := m.append.leaderId;
    HostTwin(run, steps, shadow, ws, i, p);
    assert Alike(run[i].cluster, shadow[i]);
    var _ := FindMessage(run[i].cluster, shadow[i], m);
    S.FastBackupProgress(shadow, ws, i, m);
    AppendReplyAlike(run[i].cluster.hosts[p].raft, shadow[i].hosts[p].raft, m.from, m.append, m.appendReply);
  }

  // ---------------------------------------------------------------- runs without a stale delivery

  /** The service knows what it was handed, and if it is in a call of Snapshot, hands over exactly that. */
  ghost predicate InStep(h: C.Host, srv: Server) {
    && Synced(h, srv.service)
    && (srv.request.MakeSnapshot? ==> h.view != [] && srv.request == MakeSnapshot(|h.view|, EncodeView(h.view)))
  }

  ghost predicate AllInStep(s: System) {
    && |s.servers| == |s.cluster.hosts|
    && (forall p: nat {:trigger InStep(s.cluster.hosts[p], s.servers[p])} ::
          p < |s.servers| ==> InStep(s.cluster.hosts[p], s.servers[p]))
  }

  ghost predicate StaleAt(run: seq<System>, steps: seq<C.Step>, i: nat, p: nat)
    requires i < |steps| < |run|
  {
    p < |run[i].cluster.hosts| && StaleDelivery(run[i].cluster, steps[i], p)
  }

  ghost predicate NoneStale(c: C.Cluster, st: C.Step) {
    forall p: nat :: p < |c.hosts| ==> !StaleDelivery(c, st, p)
  }

  /** Up to step n, no delivery was stale. */
  ghost predicate NeverStale(run: seq<System>, steps: seq<C.Step>, n: nat)
    requires n <= |steps| < |run|
  {
    forall i: nat, p: nat {:trigger StaleAt(run, steps, i, p)} :: i < n ==> !StaleAt(run, steps, i, p)
  }

  /** A service in step passes to Raft what the cluster's own snapshot step passes. */
  lemma InStepSnapshot(s: System, st: C.Step, s': System)
    requires AllInStep(s) && Next(s, st, s')
    ensures C.Next(s.cluster, st, s'.cluster)
  {
    if st.ServiceSnapshot? {
      var h := s.cluster.hosts[st.p];
      assert InStep(h, s.servers[st.p]);
      assert Data(s.servers[st.p].request) == h.view == h.view[..st.index];
    }
  }

  lemma StillInStep(run: seq<C.Cluster>, steps: seq<C.Step>, i: nat, s: System, s': System, p: nat)
    requires C.IsRun(run, steps) && 0 < i < |run| && AllInStep(s) && Next(s, steps[i - 1], s')
    requires s.cluster == run[i - 1] && s'.cluster == run[i] && p < |run[i - 1].hosts|
    ensures |s'.servers| == |run[i].hosts| == |run[i - 1].hosts|
    ensures StaleDelivery(run[i - 1], steps[i - 1], p) ==> !Synced(run[i].hosts[p], s'.servers[p].service)
    ensures !StaleDelivery(run[i - 1], steps[i - 1], p) ==> InStep(run[i].hosts[p], s'.servers[p])
  {
    var a := StepBefore(run, steps, i);
    var c, st := run[i - 1], steps[i - 1];
    assert InStep(c.hosts[p], s.servers[p]);
    if st == C.Crash(p) {
      ServedCrash(c, a, run[i], p);
    } else if st == C.Deliver(p) {
      DeliversLegal(run, steps, i - 1, p);
      ServedDelivery(c.hosts[p], s.servers[p].service);
    } else {
      ServedOther(c, a, st, run[i], p, s.servers[p].service);
    }
  }

  /** A prefix of a run without stale deliveries is a run of the cluster, with all services in step. */
  lemma {:induction false} InStepRun(run: seq<System>, steps: seq<C.Step>, n: nat)
    requires IsRun(run, steps) && n <= |steps| && NeverStale(run, steps, n)
    ensures C.IsRun(Clusters(run)[..n + 1], steps[..n]) && AllInStep(run[n])
    decreases n
  {
    if n == 0 {
      StartsInStep(run[0]);
    } else {
      var k := n - 1;
      InStepRun(run, steps, k);
      assert StepAt(run, steps, k);
      InStepSnapshot(run[k], steps[k], run[n]);
      ExtendRun(Clusters(run), steps, n);
      assert NoneStale(run[k].cluster, steps[k]) by {
        forall p: nat | p < |run[k].cluster.hosts| ensures !StaleDelivery(run[k].cluster, steps[k], p) {
          assert !StaleAt(run, steps, k, p);
        }
      }
      AllStillInStep(Clusters(run)[..n + 1], steps[..n], n, run[k], run[n]);
    }
  }

  lemma AllStillInStep(run: seq<C.Cluster>, steps: seq<C.Step>, i: nat, s: System, s': System)
    requires C.IsRun(run, steps) && 0 < i < |run| && AllInStep(s) && Next(s, steps[i - 1], s')
    requires s.cluster == run[i - 1] && s'.cluster == run[i]
    requires NoneStale(s.cluster, steps[i - 1])
    ensures AllInStep(s')
  {
    SameCount(run, steps, i);
    forall p: nat | p < |s'.servers| ensures InStep(s'.cluster.hosts[p], s'.servers[p]) {
      StillInStep(run, steps, i, s, s', p);
    }
  }

  lemma StartsInStep(s: System)
    requires Init(s)
    ensures AllInStep(s)
  {
    forall p: nat | p < |s.servers| ensures InStep(s.cluster.hosts[p], s.servers[p]) {
      assert s.cluster.hosts[p] == C.FreshHost(|s.cluster.hosts|, p, Disk(Unsaved, []));
    }
  }

  lemma ExtendRun(run: seq<C.Cluster>, steps: seq<C.Step>, n: nat)
    requires 0 < n <= |steps| < |run| && C.IsRun(run[..n], steps[..n - 1]) && C.Next(run[n - 1], steps[n - 1], run[n])
    ensures C.IsRun(run[..n + 1], steps[..n])
  {
    var run', steps' := run[..n + 1], steps[..n];
    forall i: nat | i < n ensures C.StepAt(run', steps', i) {
      if i < n - 1 {
        assert C.StepAt(run[..n], steps[..n - 1], i);
      }
    }
  }

  lemma WholeRun(run: seq<System>, steps: seq<C.Step>)
    requires IsRun(run, steps) && NeverStale(run, steps, |steps|)
    ensures C.IsRun(Clusters(run), steps)
  {
    InStepRun(run, steps, |steps|);
    assert Clusters(run)[..|steps| + 1] == Clusters(run) && steps[..|steps|] == steps;
  }

  /** State Machine Safety: without a stale delivery, no two deliveries of a run, as commands or inside snapshots,
      disagree about the command at an index. */
  lemma StateMachineSafety(run: seq<System>, steps: seq<C.Step>, i: nat, j: nat, d: C.Delivery, e: C.Delivery)
    requires IsRun(run, steps) && NeverStale(run, steps, |steps|) && i < |run| && j < |run|
    requires d in run[i].cluster.delivered && e in run[j].cluster.delivered
    ensures S.Consistent(d.msg, e.msg)
  {
    WholeRun(run, steps);
    S.StateMachineSafety(Clusters(run), steps, i, j, d, e);
  }

  /** ... any two peers have the same commands, in logs and saved snapshots, wherever both know them committed. */
  lemma SavedIsCommitted(run: seq<System>, steps: seq<C.Step>, i: nat, j: nat, p: nat, q: nat, k: nat)
    requires IsRun(run, steps) && NeverStale(run, steps, |steps|) && i < |run| && j < |run|
    requires p < |run[i].cluster.hosts| && q < |run[j].cluster.hosts|
    requires 1 <= k <= run[i].cluster.hosts[p].raft.commitIndex && k <= run[j].cluster.hosts[q].raft.commitIndex
    ensures var a, b := run[i].cluster.hosts[p].raft, run[j].cluster.hosts[q].raft;
            S.Has(a, k) && S.Has(b, k) && S.CommandAt(a, k) == S.CommandAt(b, k)
  {
    WholeRun(run, steps);
    S.CommittedAgree(Clusters(run), steps, i, j, p, q, k);
  }

  /** ... and every delivery is what is committed at any peer. */
  lemma DeliveredIsCommitted(run: seq<System>, steps: seq<C.Step>, i: nat, j: nat, d: C.Delivery, q: nat, k: nat)
    requires IsRun(run, steps) && NeverStale(run, steps, |steps|) && i < |run| && j < |run|
    requires d in run[i].cluster.delivered && q < |run[j].cluster.hosts|
    requires 1 <= k <= run[j].cluster.hosts[q].raft.commitIndex
    ensures var r := run[j].cluster.hosts[q].raft;
            && S.Has(r, k)
            && match d.msg
               case CommandMsg(index, command) => index == k ==> command == S.CommandAt(r, k)
               case SnapshotMsg(index, _, data) => |data| == index && (k <= index ==> data[k - 1] == S.CommandAt(r, k))
  {
    WholeRun(run, steps);
    S.DeliveredIsCommitted(Clusters(run), steps, i, j, d, q, k);
  }

  predicate Sending(h: C.Host) {
    h.phase.SendingSnapshot? || h.phase.SendingCommand?
  }

  /** What a service asks Raft to save is the committed prefix that it was handed; it never complains. */
  lemma RequestIsCommittedPrefix(run: seq<System>, steps: seq<C.Step>, i: nat, p: nat)
    requires IsRun(run, steps) && i < |run| && NeverStale(run, steps, i) && p < |run[i].cluster.hosts|
    ensures |run[i].servers| == |run[i].cluster.hosts|
    ensures var h, request := run[i].cluster.hosts[p], run[i].servers[p].request;
            && |h.view| <= h.raft.commitIndex
            && (request.MakeSnapshot? ==>
                  request.index == |h.view| && request.bytes == EncodeView(h.view)
                  && forall k :: 1 <= k <= |h.view| ==> S.Has(h.raft, k) && S.CommandAt(h.raft, k) == h.view[k - 1])
    ensures var h := run[i].cluster.hosts[p];
            Sending(h) ==> OnMessage(run[i].servers[p].service, C.Handed(h.phase)).1 == Fine
  {
    InStepRun(run, steps, i);
    var run', steps' := Clusters(run)[..i + 1], steps[..i];
    assert InStep(run[i].cluster.hosts[p], run[i].servers[p]);
    S.ServiceSeesCommittedPrefix(run', steps', i, p);
    if Sending(run[i].cluster.hosts[p]) {
      DeliversLegal(run', steps', i, p);
      ServedDelivery(run[i].cluster.hosts[p], run[i].servers[p].service);
    }
  }
}
