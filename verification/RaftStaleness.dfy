/** When the services of the system stay in step: exactly as long as no snapshot is delivered behind what its service
    has; and which installs of snapshots lead there. */
module RaftStaleness {
  import opened RaftPeer
  import opened RaftService
  import opened RaftSystem
  import opened RaftShadow
  import opened RaftDelivery
  import opened RaftSystemSafety
  import C = RaftCluster

  ghost predicate SyncedAt(run: seq<System>, i: nat, p: nat)
    requires i < |run|
  {
    && p < |run[i].cluster.hosts| == |run[i].servers|
    && Synced(run[i].cluster.hosts[p], run[i].servers[p].service)
  }

  /** Every service knows, at every moment, exactly what it was handed. */
  ghost predicate AlwaysSynced(run: seq<System>) {
    forall i: nat, p: nat {:trigger SyncedAt(run, i, p)} ::
      i < |run| && p < |run[i].cluster.hosts| ==> SyncedAt(run, i, p)
  }

  lemma {:induction false} SyncedNeverStale(run: seq<System>, steps: seq<C.Step>, n: nat)
    requires IsRun(run, steps) && n <= |steps| && AlwaysSynced(run)
    ensures NeverStale(run, steps, n)
    decreases n
  {
    if n > 0 {
      SyncedNeverStale(run, steps, n - 1);
      forall i: nat, p: nat | i < n ensures !StaleAt(run, steps, i, p) {
        if i < n - 1 {
          assert !StaleAt(run, steps, i, p);
        } else if StaleAt(run, steps, i, p) {
          StaleLosesStep(run, steps, i, p);
        }
      }
    }
  }

  /** The first stale delivery puts its service out of step. */
  lemma StaleLosesStep(run: seq<System>, steps: seq<C.Step>, i: nat, p: nat)
    requires IsRun(run, steps) && i < |steps| && NeverStale(run, steps, i) && StaleAt(run, steps, i, p)
    ensures p < |run[i + 1].cluster.hosts| && !SyncedAt(run, i + 1, p)
  {
    InStepRun(run, steps, i);
    assert StepAt(run, steps, i);
    InStepSnapshot(run[i], steps[i], run[i + 1]);
    ExtendRun(Clusters(run), steps, i + 1);
    StillInStep(Clusters(run)[..i + 2], steps[..i + 1], i + 1, run[i], run[i + 1], p);
  }

  /** In a whole run of the system all services stay in step exactly if no delivery is stale. */
  lemma ServicesInSync(run: seq<System>, steps: seq<C.Step>)
    requires IsRun(run, steps)
    ensures AlwaysSynced(run) <==> NeverStale(run, steps, |steps|)
  {
    if NeverStale(run, steps, |steps|) {
      forall i: nat, p: nat | i < |run| && p < |run[i].cluster.hosts| ensures SyncedAt(run, i, p) {
        forall k: nat, q: nat | k < i ensures !StaleAt(run, steps, k, q) {
        }
        InStepRun(run, steps, i);
        assert InStep(run[i].cluster.hosts[p], run[i].servers[p]);
      }
    } else if AlwaysSynced(run) {
      SyncedNeverStale(run, steps, |steps|);
    }
  }

  // ---------------------------------------------------------------- where stale deliveries come from

  ghost predicate FreshInstalls(run: seq<System>, steps: seq<C.Step>)
    requires |run| == |steps| + 1
  {
    forall i: nat, p: nat :: i < |steps| && p < |run[i].cluster.hosts| ==> !StaleInstall(run[i].cluster, steps[i], p)
  }

  lemma InstallAlikeStale(c: C.Cluster, d: C.Cluster, st: C.Step, w: C.Step, p: nat)
    requires Alike(c, d) && AlikeStep(st, w) && p < |c.hosts|
    ensures StaleInstall(c, st, p) <==> StaleInstall(d, w, p)
    ensures StaleDelivery(c, st, p) <==> StaleDelivery(d, w, p)
  {
    assert AlikeHost(c.hosts[p], d.hosts[p]);
  }

  /** A run whose peers accept no snapshot behind what they have delivered or are delivering has no stale delivery. */
  lemma FreshInstallsNeverStale(run: seq<System>, steps: seq<C.Step>)
    requires IsRun(run, steps) && FreshInstalls(run, steps)
    ensures NeverStale(run, steps, |steps|)
  {
    var shadow, ws := Shadow(run, steps);
    forall i: nat, p: nat | i < |steps| ensures !StaleAt(run, steps, i, p) {
      if p < |run[i].cluster.hosts| {
        FreshShadow(run, steps, shadow, ws, i, p);
      }
    }
  }

  lemma FreshShadow(run: seq<System>, steps: seq<C.Step>, shadow: seq<C.Cluster>, ws: seq<C.Step>, i: nat, p: nat)
    requires Shadows(run, steps, shadow, ws) && FreshInstalls(run, steps)
    requires i < |steps| && p < |run[i].cluster.hosts|
    ensures !StaleAt(run, steps, i, p)
  {
    forall k: nat | k < i ensures FreshAt(shadow, ws, k, p) {
      assert Alike(run[k].cluster, shadow[k]) && AlikeStep(steps[k], ws[k]);
      if p < |run[k].cluster.hosts| {
        InstallAlikeStale(run[k].cluster, shadow[k], steps[k], ws[k], p);
      }
    }
    assert Alike(run[i].cluster, shadow[i]) && AlikeStep(steps[i], ws[i]);
    FreshInstallsFreshDeliveries(shadow, ws, i, p);
    InstallAlikeStale(run[i].cluster, shadow[i], steps[i], ws[i], p);
  }

  /** The condition in the peer's own terms: an accepted snapshot is behind exactly if it ends before lastApplied, or
      at lastApplied while the next command is in flight. */
  lemma StaleInstallExactly(run: seq<System>, steps: seq<C.Step>, i: nat, p: nat, args: InstallSnapshotArgs)
    requires IsRun(run, steps) && i < |run| && p < |run[i].cluster.hosts|
    requires Accepted(run[i].cluster.hosts[p].raft, args)
    ensures var h := run[i].cluster.hosts[p];
            var S, applied := args.lastIncludedIndex, h.raft.lastApplied;
            S < Reach(h) <==> S < applied || (S == applied && NextInFlight(h))
  {
    var shadow, ws := Shadow(run, steps);
    HostTwin(run, steps, shadow, ws, i, p);
    LastAppliedDecides(shadow, ws, i, p, args);
  }

  // ---------------------------------------------------------------- a stale install leads to a stale delivery

  /** The last state of a run. */
  function Last(run: seq<System>): System
    requires |run| > 0
  {
    run[|run| - 1]
  }

  lemma Extend(run: seq<System>, steps: seq<C.Step>, st: C.Step) returns (run': seq<System>)
    requires IsRun(run, steps) && Enabled(Last(run), st)
    ensures IsRun(run', steps + [st])
    ensures Next(Last(run), st, Last(run')) && run' == run + [Last(run')]
  {
    NeverPanics(run, steps, |run| - 1, st);
    run' := run + [Apply(Last(run), st)];
    var steps' := steps + [st];
    forall i: nat | i < |steps'| ensures StepAt(run', steps', i) {
      if i < |steps| {
        assert StepAt(run, steps, i);
      }
    }
  }

  /** A snapshot that is behind waits for the applier of host p. */
  predicate Queued(s: System, p: nat) {
    && p < |s.cluster.hosts| == |s.servers|
    && s.cluster.hosts[p].raft.pendingSnapshot != []
    && s.cluster.hosts[p].raft.pendingSnapshotIndex < Reach(s.cluster.hosts[p])
  }

  /** The service of host p finishes its call of Snapshot, if it is in one. */
  lemma Finish(run: seq<System>, steps: seq<C.Step>, p: nat) returns (run': seq<System>, steps': seq<C.Step>)
    requires IsRun(run, steps) && Queued(Last(run), p)
    ensures IsRun(run', steps') && Queued(Last(run'), p)
    ensures Last(run').servers[p].request == NoRequest
    ensures Last(run').cluster.hosts[p].phase == Last(run).cluster.hosts[p].phase
  {
    run', steps' := run, steps;
    var request := Last(run).servers[p].request;
    if request.MakeSnapshot? {
      var st := C.ServiceSnapshot(p, request.index);
      run' := Extend(run, steps, st);
      steps' := steps + [st];
    }
  }

  /** The applier finishes what it is sending. */
  lemma FinishSend(run: seq<System>, steps: seq<C.Step>, p: nat) returns (run': seq<System>, steps': seq<C.Step>)
    requires IsRun(run, steps) && Queued(Last(run), p) && Last(run).servers[p].request == NoRequest
    requires Sending(Last(run).cluster.hosts[p])
    ensures IsRun(run', steps') && Queued(Last(run'), p) && Last(run').cluster.hosts[p].phase.Sent?
  {
    var shadow, ws := Shadow(run, steps);
    assert Alike(run[|ws|].cluster, shadow[|ws|]);
    DeliveryIndex(Last(run).cluster, shadow, ws, p);
    run' := Extend(run, steps, C.Deliver(p));
    steps' := steps + [C.Deliver(p)];
  }

  lemma FinishLock(run: seq<System>, steps: seq<C.Step>, p: nat) returns (run': seq<System>, steps': seq<C.Step>)
    requires IsRun(run, steps) && Queued(Last(run), p) && Last(run).cluster.hosts[p].phase.Sent?
    ensures IsRun(run', steps') && Queued(Last(run'), p) && Last(run').cluster.hosts[p].phase == Idle
  {
    run' := Extend(run, steps, C.Relock(p));
    steps' := steps + [C.Relock(p)];
  }

  /** Service and applier alone bring it about: they finish what they are doing, and the applier takes the snapshot. */
  lemma QueuedIsDelivered(run: seq<System>, steps: seq<C.Step>, p: nat)
    returns (run': seq<System>, steps': seq<C.Step>)
    requires IsRun(run, steps) && Queued(Last(run), p)
    ensures IsRun(run', steps') && p < |Last(run').cluster.hosts|
    ensures Enabled(Last(run'), C.Deliver(p)) && StaleDelivery(Last(run').cluster, C.Deliver(p), p)
  {
    run', steps' := Finish(run, steps, p);
    if Sending(Last(run').cluster.hosts[p]) {
      run', steps' := FinishSend(run', steps', p);
    }
    if Last(run').cluster.hosts[p].phase.Sent? {
      run', steps' := FinishLock(run', steps', p);
    }
    run', steps' := Finish(run', steps', p);
    var before, done := run', steps';
    run' := Extend(before, done, C.Take(p));
    steps' := done + [C.Take(p)];
  }

  lemma InstallHasData(run: seq<System>, steps: seq<C.Step>, m: C.Message)
    requires IsRun(run, steps) && m in Last(run).cluster.net && m.InstallRequest?
    ensures m.install.data != []
  {
    var shadow, ws := Shadow(run, steps);
    assert Alike(run[|ws|].cluster, shadow[|ws|]);
    var w := FindMessage(Last(run).cluster, shadow[|ws|], m);
    InstallNotEmpty(shadow, ws, w);
  }

  /** A stale install is followed by a stale delivery unless something intervenes. */
  lemma StaleInstallDelivers(run: seq<System>, steps: seq<C.Step>, st: C.Step, p: nat)
    returns (run': seq<System>, steps': seq<C.Step>)
    requires IsRun(run, steps) && Enabled(Last(run), st)
    requires p < |Last(run).cluster.hosts| && StaleInstall(Last(run).cluster, st, p)
    ensures IsRun(run', steps') && p < |Last(run').cluster.hosts|
    ensures Enabled(Last(run'), C.Deliver(p)) && StaleDelivery(Last(run').cluster, C.Deliver(p), p)
  {
    InstallHasData(run, steps, st.m);
    var mid := Extend(run, steps, st);
    run', steps' := QueuedIsDelivered(mid, steps + [st], p);
  }
}
