/** The main theorems about runs of the Raft cluster. They speak of peers, messages and deliveries only;
    the protocol state is a witness inside the proofs. */
module RaftSafety {
  import opened RaftTypes
  import opened RaftProtocol
  import opened RaftInvariant
  import opened RaftPreservation
  import opened RaftPeer
  import opened RaftRefinement
  import opened RaftSimulation
  import C = RaftCluster

  // ---------------------------------------------------------------- every run is a run of the protocol

  /** Protocol states and actions that a run of the cluster goes through. */
  ghost predicate Witness(run: seq<C.Cluster>, specs: seq<Spec>, acts: seq<seq<Action>>) {
    && |specs| == |run| == |acts| + 1
    && Init(specs[0])
    && (forall i {:trigger Rel(run[i], specs[i])} :: 0 <= i < |run| ==> Inv(specs[i]) && Rel(run[i], specs[i]))
    && (forall i {:trigger acts[i]} :: 0 <= i < |acts| ==> Behaves(specs[i], acts[i], specs[i + 1]))
  }

  /** Refinement: every run of the cluster, with compaction, snapshots and crashes, is a run of the protocol
      on uncompacted logs. */
  lemma {:induction false} RunRefines(run: seq<C.Cluster>, steps: seq<C.Step>)
    returns (specs: seq<Spec>, acts: seq<seq<Action>>)
    requires C.IsRun(run, steps)
    ensures Witness(run, specs, acts)
    decreases |steps|
  {
    if steps == [] {
      var s := InitRel(run[0]);
      InitInv(s);
      specs, acts := [s], [];
    } else {
      var k := |steps| - 1;
      C.RunPrefix(run, steps, k);
      specs, acts := RunRefines(run[..k + 1], steps[..k]);
      assert Rel(run[..k + 1][k], specs[k]);
      assert C.StepAt(run, steps, k);
      var s', more := Simulates(run[k], specs[k], steps[k], run[k + 1]);
      BehavesKeeps(specs[k], more, s');
      ExtendWitness(run, specs, acts, s', more);
      specs, acts := specs + [s'], acts + [more];
    }
  }

  lemma ExtendWitness(run: seq<C.Cluster>, specs: seq<Spec>, acts: seq<seq<Action>>, s': Spec, more: seq<Action>)
    requires |run| >= 2 && Witness(run[..|run| - 1], specs, acts)
    requires Behaves(specs[|specs| - 1], more, s') && Inv(s') && Rel(run[|run| - 1], s')
    ensures Witness(run, specs + [s'], acts + [more])
  {
    var specs', acts' := specs + [s'], acts + [more];
    forall i | 0 <= i < |run| ensures Inv(specs'[i]) && Rel(run[i], specs'[i]) {
      if i < |run| - 1 {
        assert Rel(run[..|run| - 1][i], specs[i]);
      }
    }
    forall i | 0 <= i < |acts'| ensures Behaves(specs'[i], acts'[i], specs'[i + 1]) {
      if i < |acts| {
        assert acts'[i] == acts[i];
      }
    }
  }

  lemma WitnessStep(run: seq<C.Cluster>, specs: seq<Spec>, acts: seq<seq<Action>>, i: nat)
    requires Witness(run, specs, acts) && i < |acts|
    ensures Inv(specs[i]) && Behaves(specs[i], acts[i], specs[i + 1])
  {
    assert Rel(run[i], specs[i]);
    assert acts[i] == acts[i];
  }

  lemma {:induction false} HistoryGrows(run: seq<C.Cluster>, specs: seq<Spec>, acts: seq<seq<Action>>, i: nat, j: nat)
    requires Witness(run, specs, acts) && i <= j < |run|
    ensures Extends(specs[i], specs[j])
    decreases j
  {
    if i < j {
      HistoryGrows(run, specs, acts, i, j - 1);
      WitnessStep(run, specs, acts, j - 1);
      BehavesKeeps(specs[j - 1], acts[j - 1], specs[j]);
      ExtendsTrans(specs[i], specs[j - 1], specs[j]);
    }
  }

  /** A protocol state that knows everything that happened up to the later of two points of a run. */
  lemma Joint(run: seq<C.Cluster>, steps: seq<C.Step>, i: nat, j: nat) returns (a: Spec, b: Spec, top: Spec)
    requires C.IsRun(run, steps) && i < |run| && j < |run|
    ensures Inv(a) && Inv(b) && Inv(top)
    ensures Rel(run[i], a) && Rel(run[j], b)
    ensures Extends(a, top) && Extends(b, top)
    ensures i <= j ==> top == b
  {
    var specs, acts := RunRefines(run, steps);
    a, b := specs[i], specs[j];
    assert Rel(run[i], a) && Rel(run[j], b);
    if i <= j {
      HistoryGrows(run, specs, acts, i, j);
      HistoryGrows(run, specs, acts, j, j);
      top := b;
    } else {
      HistoryGrows(run, specs, acts, j, i);
      HistoryGrows(run, specs, acts, i, i);
      top := a;
    }
  }

  // ---------------------------------------------------------------- Election Safety

  /** At most one peer is ever leader in a term, whatever crashes in between. */
  lemma ElectionSafety(run: seq<C.Cluster>, steps: seq<C.Step>, i: nat, j: nat, p: nat, q: nat)
    requires C.IsRun(run, steps) && i < |run| && j < |run|
    requires p < |run[i].hosts| && run[i].hosts[p].raft.role == Leader
    requires q < |run[j].hosts| && run[j].hosts[q].raft.role == Leader
    requires run[i].hosts[p].raft.currentTerm == run[j].hosts[q].raft.currentTerm
    ensures p == q
  {
    var a, b, top := Joint(run, steps, i, j);
    assert HostOK(run[i].hosts[p], a, p) && HostOK(run[j].hosts[q], b, q);
    assert NodeOK(a, p) && NodeOK(b, q);
  }

  // ---------------------------------------------------------------- Log Matching

  /** The log, as far as it is not compacted, holds an entry for index k. */
  predicate Holds(r: Peer, k: nat) {
    |r.log| >= 1 && r.lastIncludedIndex < k <= LastLogIndex(r)
  }

  function EntryAt(r: Peer, k: nat): LogEntry
    requires Holds(r, k)
  {
    r.log[k - r.lastIncludedIndex]
  }

  lemma EntryOfNode(r: Peer, nd: Node, k: nat)
    requires Represents(r, nd) && Holds(r, k)
    ensures k <= |nd.log| && EntryAt(r, k) == nd.log[k - 1]
  {
  }

  /** If two logs, at any two points of a run, have the same term at an index (the snapshot's included),
      they hold the same entries at all indices up to it that neither has compacted. */
  lemma LogMatchingInRuns(run: seq<C.Cluster>, steps: seq<C.Step>, i: nat, j: nat, p: nat, q: nat, k: nat, m: nat)
    requires C.IsRun(run, steps) && i < |run| && j < |run| && p < |run[i].hosts| && q < |run[j].hosts|
    requires var a, b := run[i].hosts[p].raft, run[j].hosts[q].raft;
             && |a.log| >= 1 && a.lastIncludedIndex <= k <= LastLogIndex(a)
             && |b.log| >= 1 && b.lastIncludedIndex <= k <= LastLogIndex(b)
             && TermAtIndex(a, k) == TermAtIndex(b, k)
             && m <= k && Holds(a, m) && Holds(b, m)
    ensures EntryAt(run[i].hosts[p].raft, m) == EntryAt(run[j].hosts[q].raft, m)
  {
    var a, b, top := Joint(run, steps, i, j);
    LogOfHost(run[i], a, top, p);
    LogOfHost(run[j], b, top, q);
    TermOfNode(run[i].hosts[p].raft, a.nodes[p], k);
    TermOfNode(run[j].hosts[q].raft, b.nodes[q], k);
    LogMatching(top, a.nodes[p].log, b.nodes[q].log, k);
    EntryOfNode(run[i].hosts[p].raft, a.nodes[p], m);
    EntryOfNode(run[j].hosts[q].raft, b.nodes[q], m);
    SameEntry(a.nodes[p].log, b.nodes[q].log, k, m);
  }

  lemma LogOfHost(c: C.Cluster, s: Spec, top: Spec, p: nat)
    requires Inv(s) && Rel(c, s) && Extends(s, top) && p < |c.hosts|
    ensures Represents(c.hosts[p].raft, s.nodes[p]) && LogOK(top, s.nodes[p].log)
  {
    assert HostOK(c.hosts[p], s, p);
    assert NodeOK(s, p);
    LogOKStable(s, top, s.nodes[p].log);
  }

  lemma SameEntry(a: Log, b: Log, k: nat, m: nat)
    requires 1 <= m <= k <= |a| && k <= |b| && a[..k] == b[..k]
    ensures a[m - 1] == b[m - 1]
  {
    assert a[m - 1] == a[..k][m - 1] && b[m - 1] == b[..k][m - 1];
  }

  lemma TermOfNode(r: Peer, nd: Node, k: nat)
    requires Represents(r, nd) && r.lastIncludedIndex <= k <= LastLogIndex(r)
    ensures k <= |nd.log| && TermAtIndex(r, k) == TermAt(nd.log, k)
  {
  }

  // ---------------------------------------------------------------- commitment

  /** The peer has the command for index k, in its log or in its saved snapshot. */
  predicate Has(r: Peer, k: nat) {
    |r.log| >= 1 && 1 <= k <= LastLogIndex(r) && |r.disk.snapshot| == r.lastIncludedIndex
  }

  function CommandAt(r: Peer, k: nat): Command
    requires Has(r, k)
  {
    if k <= r.lastIncludedIndex then r.disk.snapshot[k - 1] else r.log[k - r.lastIncludedIndex].command
  }

  lemma CommandOfNode(r: Peer, nd: Node, k: nat)
    requires Represents(r, nd) && Durable(r, nd) && 1 <= k <= |nd.log|
    ensures Has(r, k) && CommandAt(r, k) == nd.log[k - 1].command
  {
  }

  /** What peer p knows to be committed at some point is a committed prefix of the protocol. */
  lemma KnownCommitted(c: C.Cluster, s: Spec, top: Spec, p: nat, k: nat)
    requires Inv(s) && Rel(c, s) && Extends(s, top) && p < |c.hosts| && k <= c.hosts[p].raft.commitIndex
    ensures Represents(c.hosts[p].raft, s.nodes[p]) && Durable(c.hosts[p].raft, s.nodes[p]) && k <= |s.nodes[p].log|
    ensures CommittedBy(top, c.hosts[p].raft.currentTerm, s.nodes[p].log[..k])
  {
    var nd := s.nodes[p];
    assert HostOK(c.hosts[p], s, p);
    assert NodeOK(s, p);
    CommittedPrefix(s, nd.term, nd.log[..nd.commit], k);
    assert nd.log[..nd.commit][..k] == nd.log[..k];
    CommittedByStable(s, top, nd.term, nd.term, nd.log[..k]);
  }

  /** State Machine Safety on logs: what any two peers, at any two points of a run, know to be committed at
      one index is the same command, and the same term where neither has compacted it. */
  lemma CommittedAgree(run: seq<C.Cluster>, steps: seq<C.Step>, i: nat, j: nat, p: nat, q: nat, k: nat)
    requires C.IsRun(run, steps) && i < |run| && j < |run| && p < |run[i].hosts| && q < |run[j].hosts|
    requires 1 <= k <= run[i].hosts[p].raft.commitIndex && k <= run[j].hosts[q].raft.commitIndex
    ensures var a, b := run[i].hosts[p].raft, run[j].hosts[q].raft;
            && Has(a, k) && Has(b, k) && CommandAt(a, k) == CommandAt(b, k)
            && (Holds(a, k) && Holds(b, k) ==> EntryAt(a, k) == EntryAt(b, k))
  {
    var a, b, top := Joint(run, steps, i, j);
    var ra, rb := run[i].hosts[p].raft, run[j].hosts[q].raft;
    KnownCommitted(run[i], a, top, p, k);
    KnownCommitted(run[j], b, top, q, k);
    CommittedComparable(top, ra.currentTerm, a.nodes[p].log[..k], rb.currentTerm, b.nodes[q].log[..k]);
    SameCommand(ra, a.nodes[p], rb, b.nodes[q], k);
  }

  /** Peers whose whole logs agree up to k have the same command there, and the same entry if both still hold it. */
  lemma SameCommand(ra: Peer, a: Node, rb: Peer, b: Node, k: nat)
    requires Represents(ra, a) && Durable(ra, a) && Represents(rb, b) && Durable(rb, b)
    requires 1 <= k <= |a.log| && k <= |b.log| && a.log[..k] == b.log[..k]
    ensures Has(ra, k) && Has(rb, k) && CommandAt(ra, k) == CommandAt(rb, k)
    ensures Holds(ra, k) && Holds(rb, k) ==> EntryAt(ra, k) == EntryAt(rb, k)
  {
    assert a.log[k - 1] == a.log[..k][k - 1] && b.log[k - 1] == b.log[..k][k - 1];
    CommandOfNode(ra, a, k);
    CommandOfNode(rb, b, k);
  }

  /** Leader Completeness: an entry known to be committed in term t is held, in its log or under its snapshot,
      by every leader of a later term, and by the leader of term t from then on. */
  lemma LeadersHoldCommitted(run: seq<C.Cluster>, steps: seq<C.Step>, i: nat, j: nat, p: nat, q: nat, k: nat)
    requires C.IsRun(run, steps) && i < |run| && j < |run| && p < |run[i].hosts| && q < |run[j].hosts|
    requires 1 <= k <= run[i].hosts[p].raft.commitIndex
    requires run[j].hosts[q].raft.role == Leader
    requires var t, t' := run[i].hosts[p].raft.currentTerm, run[j].hosts[q].raft.currentTerm;
             t < t' || (t == t' && i <= j)
    ensures var a, b := run[i].hosts[p].raft, run[j].hosts[q].raft;
            && Has(a, k) && Has(b, k) && CommandAt(a, k) == CommandAt(b, k)
            && (Holds(a, k) && Holds(b, k) ==> EntryAt(a, k) == EntryAt(b, k))
  {
    var a, b, top := Joint(run, steps, i, j);
    var ra, rb := run[i].hosts[p].raft, run[j].hosts[q].raft;
    var t := ra.currentTerm;
    KnownCommitted(run[i], a, top, p, k);
    var x := a.nodes[p].log[..k];
    assert HostOK(run[j].hosts[q], b, q);
    LeaderHasCommitted(b, top, q, t, x);
    SameCommand(ra, a.nodes[p], rb, b.nodes[q], k);
  }

  lemma LeaderHasCommitted(b: Spec, top: Spec, q: nat, t: nat, x: Log)
    requires Inv(b) && Inv(top) && Extends(b, top) && CommittedBy(top, t, x)
    requires q < |b.nodes| && b.nodes[q].role == Leader && (t < b.nodes[q].term || (t == b.nodes[q].term && top == b))
    ensures x <= b.nodes[q].log
  {
    var t' := b.nodes[q].term;
    assert NodeOK(b, q);
    if t < t' {
      CommittedInBase(top, t, x, t');
      assert ReignOK(b, t');
      PrefixTrans(x, top.reigns[t'].base, b.nodes[q].log);
    } else {
      CommittedInLeader(top, t, x);
    }
  }

  lemma CommittedInBase(s: Spec, t: nat, x: Log, t': nat)
    requires ReignsOK(s) && CommittedBy(s, t, x) && t < t' && t' in s.reigns
    ensures x <= s.reigns[t'].base
  {
    if x != [] {
      var u: nat, k: nat :| u <= t && CommittedVia(s, x, u, k);
      LeaderCompleteness(s, u, k, t');
      PrefixesComparable(x, s.reigns[u].log[..k], s.reigns[u].log);
      PrefixTrans(x, s.reigns[u].log[..k], s.reigns[t'].base);
    }
  }

  // ---------------------------------------------------------------- nothing committed is ever lost

  /** No action removes a committed prefix from a peer that has it. */
  lemma ActionRetains(s: Spec, a: Action, s': Spec, p: nat, t: nat, x: Log)
    requires Inv(s) && Does(s, a, s') && p < |s.nodes|
    requires CommittedBy(s, t, x) && t <= s.nodes[p].term && x <= s.nodes[p].log
    ensures p < |s'.nodes| && t <= s'.nodes[p].term && x <= s'.nodes[p].log
  {
    if a.DoAccept? && a.p == p {
      assert AppendOK(s, a.m);
      CommittedByStable(s, s, t, a.m.term, x);
      CommittedInLeader(s, a.m.term, x);
      MergeKeeps(x, s.nodes[p].log, a.m.log, s.reigns[a.m.term].log);
    }
  }

  /** Peer p has the prefix x, committed in a term that p has reached. */
  ghost predicate Retains(s: Spec, p: nat, t: nat, x: Log) {
    p < |s.nodes| && t <= s.nodes[p].term && x <= s.nodes[p].log && CommittedBy(s, t, x)
  }

  lemma {:induction false} BehaviorRetains(s: Spec, acts: seq<Action>, s': Spec, p: nat, t: nat, x: Log)
    requires Inv(s) && Behaves(s, acts, s') && Retains(s, p, t, x)
    ensures Retains(s', p, t, x)
    decreases |acts|
  {
    if acts != [] {
      var mid :| Does(s, acts[0], mid) && Behaves(mid, acts[1..], s');
      ActionKeeps(s, acts[0], mid);
      ActionRetains(s, acts[0], mid, p, t, x);
      CommittedByStable(s, mid, t, t, x);
      BehaviorRetains(mid, acts[1..], s', p, t, x);
    }
  }

  lemma {:induction false} RunRetains(run: seq<C.Cluster>, specs: seq<Spec>, acts: seq<seq<Action>>,
                                      i: nat, j: nat, p: nat, t: nat, x: Log)
    requires Witness(run, specs, acts) && i <= j < |run| && Retains(specs[i], p, t, x)
    ensures Retains(specs[j], p, t, x)
    decreases j
  {
    if i < j {
      var k := j - 1;
      RunRetains(run, specs, acts, i, k, p, t, x);
      WitnessStep(run, specs, acts, k);
      BehaviorRetains(specs[k], acts[k], specs[j], p, t, x);
    }
  }

  /** Durability: an entry that a peer knew to be committed stays in its log or under its snapshot for the
      rest of the run, through merges, installed snapshots, compactions and crashes. */
  lemma CommittedNeverLost(run: seq<C.Cluster>, steps: seq<C.Step>, i: nat, j: nat, p: nat, k: nat)
    requires C.IsRun(run, steps) && i <= j < |run| && p < |run[i].hosts|
    requires 1 <= k <= run[i].hosts[p].raft.commitIndex
    ensures p < |run[j].hosts|
    ensures var a, b := run[i].hosts[p].raft, run[j].hosts[p].raft;
            && Has(a, k) && Has(b, k) && CommandAt(a, k) == CommandAt(b, k)
            && (Holds(a, k) && Holds(b, k) ==> EntryAt(a, k) == EntryAt(b, k))
  {
    var specs, acts := RunRefines(run, steps);
    var a, b := specs[i], specs[j];
    assert Rel(run[i], a) && Rel(run[j], b);
    HistoryGrows(run, specs, acts, i, i);
    KnownCommitted(run[i], a, a, p, k);
    var x := a.nodes[p].log[..k];
    RunRetains(run, specs, acts, i, j, p, a.nodes[p].term, x);
    assert HostOK(run[j].hosts[p], b, p);
    SameCommand(run[i].hosts[p].raft, a.nodes[p], run[j].hosts[p].raft, b.nodes[p], k);
  }

  // ---------------------------------------------------------------- State Machine Safety

  /** Two apply messages do not contradict each other about any index. */
  predicate Consistent(a: C.ApplyMsg, b: C.ApplyMsg) {
    match (a, b)
    case (CommandMsg(i, x), CommandMsg(j, y)) => i == j ==> x == y
    case (CommandMsg(i, x), SnapshotMsg(j, _, data)) => |data| == j && (1 <= i <= j ==> x == data[i - 1])
    case (SnapshotMsg(i, _, data), CommandMsg(j, y)) => |data| == i && (1 <= j <= i ==> y == data[j - 1])
    case (SnapshotMsg(i, t, x), SnapshotMsg(j, u, y)) =>
      |x| == i && |y| == j && (i <= j ==> x <= y) && (j <= i ==> y <= x) && (i == j ==> t == u)
  }

  lemma AttestedConsistent(s: Spec, t: nat, x: Log, a: C.ApplyMsg, u: nat, y: Log, b: C.ApplyMsg)
    requires ReignsOK(s) && Attests(s, t, x, a) && Attests(s, u, y, b)
    ensures Consistent(a, b)
  {
    CommittedSame(s, t, x, u, y);
  }

  /** State Machine Safety: no two deliveries of a run, to whichever peers, in whichever incarnations,
      as commands or inside snapshots, disagree about the command at an index. */
  lemma StateMachineSafety(run: seq<C.Cluster>, steps: seq<C.Step>, i: nat, j: nat, d: C.Delivery, e: C.Delivery)
    requires C.IsRun(run, steps) && i < |run| && j < |run|
    requires d in run[i].delivered && e in run[j].delivered
    ensures Consistent(d.msg, e.msg)
  {
    var a, b, top := Joint(run, steps, i, j);
    assert DeliveryOK(a, d.msg) && DeliveryOK(b, e.msg);
    DeliveryStable(a, top, d.msg);
    DeliveryStable(b, top, e.msg);
    var t, x :| Attests(top, t, x, d.msg);
    var u, y :| Attests(top, u, y, e.msg);
    AttestedConsistent(top, t, x, d.msg, u, y, e.msg);
  }

  /** What is delivered is what is committed: no delivery disagrees with a committed entry of any peer. */
  lemma DeliveredIsCommitted(run: seq<C.Cluster>, steps: seq<C.Step>, i: nat, j: nat, d: C.Delivery, q: nat, k: nat)
    requires C.IsRun(run, steps) && i < |run| && j < |run| && d in run[i].delivered && q < |run[j].hosts|
    requires 1 <= k <= run[j].hosts[q].raft.commitIndex
    ensures var r := run[j].hosts[q].raft;
            && Has(r, k)
            && match d.msg
               case CommandMsg(index, command) => index == k ==> command == CommandAt(r, k)
               case SnapshotMsg(index, _, data) => |data| == index && (k <= index ==> data[k - 1] == CommandAt(r, k))
  {
    var a, b, top := Joint(run, steps, i, j);
    var r := run[j].hosts[q].raft;
    assert DeliveryOK(a, d.msg);
    DeliveryStable(a, top, d.msg);
    var t, x :| Attests(top, t, x, d.msg);
    KnownCommitted(run[j], b, top, q, k);
    CommandOfNode(r, b.nodes[q], k);
    AttestedCommand(top, t, x, d.msg, r.currentTerm, b.nodes[q].log[..k], k);
  }

  lemma AttestedCommand(s: Spec, t: nat, x: Log, msg: C.ApplyMsg, u: nat, y: Log, k: nat)
    requires ReignsOK(s) && Attests(s, t, x, msg) && CommittedBy(s, u, y) && |y| == k >= 1
    ensures match msg
            case CommandMsg(index, command) => index == k ==> command == y[k - 1].command
            case SnapshotMsg(index, _, data) => |data| == index && (k <= index ==> data[k - 1] == y[k - 1].command)
  {
    CommittedSame(s, t, x, u, y);
  }

  /** Two committed prefixes have the same entry wherever both have one. */
  lemma CommittedSame(s: Spec, t: nat, x: Log, u: nat, y: Log)
    requires ReignsOK(s) && CommittedBy(s, t, x) && CommittedBy(s, u, y)
    ensures forall i :: 0 <= i < |x| && i < |y| ==> x[i] == y[i]
  {
    if |x| <= |y| {
      CommittedComparable(s, t, x, u, y);
    } else {
      CommittedComparable(s, u, y, t, x);
    }
  }

  // ---------------------------------------------------------------- index bounds

  /** Every index a peer keeps is within its log. */
  lemma IndexBounds(run: seq<C.Cluster>, steps: seq<C.Step>, i: nat, p: nat)
    requires C.IsRun(run, steps) && i < |run| && p < |run[i].hosts|
    ensures var r := run[i].hosts[p].raft;
            && WellFormed(r)
            && r.lastIncludedIndex <= r.commitIndex <= LastLogIndex(r) && r.lastApplied <= r.commitIndex
            && r.log[0] == LogEntry(r.lastIncludedTerm, Nil)
            && (r.role == Leader ==> forall q :: 0 <= q < r.n ==>
                  1 <= r.nextIndex[q] <= LastLogIndex(r) + 1 && r.matchIndex[q] <= LastLogIndex(r))
  {
    var a, _, _ := Joint(run, steps, i, i);
    assert HostOK(run[i].hosts[p], a, p);
    SameLast(run[i].hosts[p].raft, a.nodes[p]);
  }

  /** No reachable state lets a peer index or slice out of range, whatever step is taken next. */
  lemma NeverPanics(run: seq<C.Cluster>, steps: seq<C.Step>, i: nat, st: C.Step)
    requires C.IsRun(run, steps) && i < |run| && C.Enabled(run[i], st)
    ensures C.NoPanic(run[i], st)
  {
    forall p: nat | p < |run[i].hosts|
      ensures WellFormed(run[i].hosts[p].raft) && run[i].hosts[p].raft.n == |run[i].hosts|
      ensures run[i].hosts[p].raft.commitIndex <= LastLogIndex(run[i].hosts[p].raft)
      ensures run[i].hosts[p].raft.role == Leader ==> forall q :: 0 <= q < |run[i].hosts| ==>
                run[i].hosts[p].raft.nextIndex[q] <= LastLogIndex(run[i].hosts[p].raft) + 1
    {
      IndexBounds(run, steps, i, p);
      var a, _, _ := Joint(run, steps, i, i);
      assert HostOK(run[i].hosts[p], a, p);
    }
  }

  // ---------------------------------------------------------------- AppendEntries: commit clamp and fast backup

  /** Every AppendEntries ever sent promises a commit index within what it carries, so the follower's clamp
      to its own last index never commits past what the message verified, and a message that lies entirely
      under the follower's snapshot does not move its commit index. */
  lemma ClampIsSafe(run: seq<C.Cluster>, steps: seq<C.Step>, i: nat, m: C.Message)
    requires C.IsRun(run, steps) && i < |run| && m in run[i].net && m.AppendRequest? && m.to < |run[i].hosts|
    ensures var r := run[i].hosts[m.to].raft;
            var sent := m.append.prevLogIndex + |m.append.entries|;
            && WellFormed(r)
            && m.append.leaderCommit <= sent
            && AppendEntries(r, m.append).0.commitIndex <= Max(r.commitIndex, sent)
            && (sent < r.lastIncludedIndex ==> AppendEntries(r, m.append).0.commitIndex == r.commitIndex)
  {
    var a, _, _ := Joint(run, steps, i, i);
    assert MessageOK(a, m);
    assert HostOK(run[i].hosts[m.to], a, m.to);
    var log :| Carries(a, m.append, log);
    assert AppendOK(a, Append(m.append.term, log, m.append.leaderCommit));
    ClampBound(run[i].hosts[m.to].raft, m.append);
  }

  lemma ClampBound(r: Peer, args: AppendEntriesArgs)
    requires WellFormed(r) && r.lastIncludedIndex <= r.commitIndex && args.leaderCommit <= args.prevLogIndex + |args.entries|
    ensures var sent := args.prevLogIndex + |args.entries|;
            var r' := AppendEntries(r, args).0;
            && r'.commitIndex <= Max(r.commitIndex, sent)
            && (sent < r.lastIncludedIndex ==> r'.commitIndex == r.commitIndex)
  {
  }

  /** Fast backup makes progress: a rejection handled by the leader it was meant for moves nextIndex to at
      least 1 and at most the rejected prevLogIndex. */
  lemma FastBackupProgress(run: seq<C.Cluster>, steps: seq<C.Step>, i: nat, m: C.Message)
    requires C.IsRun(run, steps) && i < |run| && m in run[i].net && m.AppendReply?
    requires m.append.leaderId < |run[i].hosts| && !m.appendReply.success
    requires var r := run[i].hosts[m.append.leaderId].raft;
             r.role == Leader && r.currentTerm == m.append.term && m.appendReply.term <= r.currentTerm
    ensures var r := run[i].hosts[m.append.leaderId].raft;
            && WellFormed(r) && m.from < r.n
            && 1 <= OnAppendReply(r, m.from, m.append, m.appendReply).nextIndex[m.from] <= m.append.prevLogIndex
  {
    var a, _, _ := Joint(run, steps, i, i);
    var p := m.append.leaderId;
    assert MessageOK(a, m);
    assert HostOK(run[i].hosts[p], a, p);
    var r := run[i].hosts[p].raft;
    BackupProgress(r, a, p, r.nextIndex[m.from], m.append, m.appendReply);
  }

  // ---------------------------------------------------------------- crash recovery

  /** Whenever the mutex is free the disk holds exactly the peer's term, vote, log and snapshot boundary and the
      snapshot for that boundary, so a restart recovers them all. */
  lemma CrashRecovery(run: seq<C.Cluster>, steps: seq<C.Step>, i: nat, p: nat)
    requires C.IsRun(run, steps) && i < |run| && p < |run[i].hosts|
    ensures var r := run[i].hosts[p].raft;
            var again := Make(|run[i].hosts|, p, r.disk);
            && Load(r.disk.raftstate) == Encode(r) && |r.disk.snapshot| == r.lastIncludedIndex
            && Encode(again) == Encode(r) && again.disk == r.disk
            && (r.lastIncludedIndex > 0 ==>
                  again.pendingSnapshot == r.disk.snapshot && again.pendingSnapshotIndex == r.lastIncludedIndex)
  {
    var a, _, _ := Joint(run, steps, i, i);
    assert HostOK(run[i].hosts[p], a, p);
  }

  // ---------------------------------------------------------------- the apply frontier

  /** The highest index delivered to peer p, as a command or by a snapshot, since it last started. */
  function Highest(run: seq<C.Cluster>, steps: seq<C.Step>, i: nat, p: nat): nat
    requires i <= |steps| < |run|
  {
    if i == 0 || steps[i - 1] == C.Crash(p) then 0
    else
      var before := Highest(run, steps, i - 1, p);
      if steps[i - 1] == C.Deliver(p) && p < |run[i - 1].hosts| then
        match run[i - 1].hosts[p].phase
        case SendingSnapshot(index, _, _) => Max(before, index)
        case SendingCommand(index, _) => Max(before, index)
        case _ => before
      else before
  }

  lemma {:induction false} ViewIsHighest(run: seq<C.Cluster>, steps: seq<C.Step>, i: nat, p: nat)
    requires C.IsRun(run, steps) && i < |run| && p < |run[i].hosts|
    ensures |run[i].hosts[p].view| == Highest(run, steps, i, p)
    decreases i
  {
    if i == 0 {
      assert run[0].hosts[p] == C.FreshHost(|run[0].hosts|, p, Disk(Unsaved, []));
    } else {
      assert C.StepAt(run, steps, i - 1);
      ViewIsHighest(run, steps, i - 1, p);
      var a, _, _ := Joint(run, steps, i - 1, i - 1);
      assert HostOK(run[i - 1].hosts[p], a, p);
      ViewStep(run[i - 1], steps[i - 1], run[i], p, a.nodes[p]);
    }
  }

  /** Only a crash or a delivery changes what a service has been handed. */
  lemma ViewStep(c: C.Cluster, st: C.Step, c': C.Cluster, p: nat, nd: Node)
    requires C.Next(c, st, c') && p < |c.hosts| && ServiceOK(c.hosts[p], nd)
    ensures |c'.hosts| == |c.hosts|
    ensures var h := c.hosts[p];
            |c'.hosts[p].view| ==
              if st == C.Crash(p) then 0
              else if st == C.Deliver(p) then Max(|h.view|, h.phase.index)
              else |h.view|
  {
  }

  /** Apply frontier: however snapshots interleave with the applier's unlocked sends, each command delivered
      in an incarnation is the one right after the highest index delivered so far in it. */
  lemma ApplyFrontier(run: seq<C.Cluster>, steps: seq<C.Step>, i: nat, p: nat)
    requires C.IsRun(run, steps) && i < |steps| && steps[i] == C.Deliver(p)
    requires p < |run[i].hosts| && run[i].hosts[p].phase.SendingCommand?
    ensures run[i].hosts[p].phase.index == Highest(run, steps, i, p) + 1
  {
    var a, _, _ := Joint(run, steps, i, i);
    assert HostOK(run[i].hosts[p], a, p);
    ViewIsHighest(run, steps, i, p);
  }

  /** The commands handed to a service are, at every moment, a prefix of what its own Raft peer has committed;
      and every snapshot that a service or a leader makes is that same prefix. */
  lemma ServiceSeesCommittedPrefix(run: seq<C.Cluster>, steps: seq<C.Step>, i: nat, p: nat)
    requires C.IsRun(run, steps) && i < |run| && p < |run[i].hosts|
    ensures var h := run[i].hosts[p];
            && |h.view| <= h.raft.commitIndex
            && (forall k :: 1 <= k <= |h.view| ==> Has(h.raft, k) && CommandAt(h.raft, k) == h.view[k - 1])
  {
    var a, _, _ := Joint(run, steps, i, i);
    assert HostOK(run[i].hosts[p], a, p);
    var h := run[i].hosts[p];
    forall k | 1 <= k <= |h.view| ensures Has(h.raft, k) && CommandAt(h.raft, k) == h.view[k - 1] {
      CommandOfNode(h.raft, a.nodes[p], k);
    }
  }
}
