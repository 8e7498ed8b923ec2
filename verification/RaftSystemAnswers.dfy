/** The answers of all handlers in every run of the system, against the run's own uncompacted logs. */
module RaftSystemAnswers {
  import opened RaftTypes
  import opened RaftProtocol
  import opened RaftPeer
  import opened RaftRefinement
  import opened RaftSimulation
  import opened RaftSystem
  import opened RaftShadow
  import opened RaftSystemSafety
  import opened RaftCompaction
  import opened RaftSystemCompaction
  import opened RaftAnswers
  import S = RaftSafety
  import C = RaftCluster

  /** Every vote request of a run: granted exactly if its term is acceptable, the vote is free or the candidate's, and the
      log that the candidate campaigned with is at least as up to date as the voter's whole log. */
  lemma VotesExactly(run: seq<System>, steps: seq<C.Step>, shadow: seq<C.Cluster>, ws: seq<C.Step>, specs: seq<Spec>,
                     acts: seq<seq<Action>>, i: nat, m: C.Message)
    requires SystemHistory(run, steps, shadow, ws, specs, acts) && i < |run|
    requires m in run[i].cluster.net && m.VoteRequest? && m.to < |run[i].cluster.hosts|
    ensures (m.vote.term, m.vote.candidateId) in specs[i].cands
    ensures var r, candidate := run[i].cluster.hosts[m.to].raft, specs[i].cands[(m.vote.term, m.vote.candidateId)];
            && WellFormed(r) && m.vote.lastLogIndex == |candidate| && m.vote.lastLogTerm == LastTerm(candidate)
            && VoteAnswers(r, WholeAt(specs, i, m.to), candidate, m.vote)
  {
    Standing(run, steps, shadow, ws, specs, acts, i, m.to);
    assert Alike(run[i].cluster, shadow[i]);
    var w := FindMessage(run[i].cluster, shadow[i], m);
    assert Rel(shadow[i], specs[i]);
    assert MessageOK(specs[i], w);
    VoteExactly(run[i].cluster.hosts[m.to].raft, WholeAt(specs, i, m.to),
                specs[i].cands[(m.vote.term, m.vote.candidateId)], m.vote);
  }

  /** Elections and clients: what is asked, when a candidate becomes leader, and which index Start returns. */
  lemma ElectionsExactly(run: seq<System>, steps: seq<C.Step>, shadow: seq<C.Cluster>, ws: seq<C.Step>,
                         specs: seq<Spec>, acts: seq<seq<Action>>, i: nat, p: nat)
    requires SystemHistory(run, steps, shadow, ws, specs, acts) && i < |run| && p < |run[i].cluster.hosts|
    ensures var r, whole := run[i].cluster.hosts[p].raft, WholeAt(specs, i, p);
            && WellFormed(r) && LogCompacts(r, whole)
            && ElectionAnswers(r, whole)
            && (forall from, term, reply :: VoteReplyAnswers(r, whole, from, term, reply))
            && (forall command :: StartAnswers(r, whole, command))
  {
    Standing(run, steps, shadow, ws, specs, acts, i, p);
    var r, whole := run[i].cluster.hosts[p].raft, WholeAt(specs, i, p);
    ElectionExactly(r, whole);
    forall from, term, reply ensures VoteReplyAnswers(r, whole, from, term, reply) {
      VoteReplyExactly(r, whole, from, term, reply);
    }
    forall command ensures StartAnswers(r, whole, command) {
      StartExactly(r, whole, command);
    }
  }

  /** The leader: what it sends, how far it commits, and where it backs up. */
  lemma LeadersExactly(run: seq<System>, steps: seq<C.Step>, shadow: seq<C.Cluster>, ws: seq<C.Step>,
                       specs: seq<Spec>, acts: seq<seq<Action>>, i: nat, p: nat, q: nat)
    requires SystemHistory(run, steps, shadow, ws, specs, acts) && i < |run|
    requires p < |run[i].cluster.hosts| && q < |run[i].cluster.hosts|
    ensures var r, whole := run[i].cluster.hosts[p].raft, WholeAt(specs, i, p);
            && LogCompacts(r, whole) && q < r.n && CanReplicate(r, q) && ReplicateAnswers(r, whole, q)
            && (forall args, reply :: AppendReplyAnswers(r, whole, q, args, reply))
            && (forall args, reply :: InstallReplyAnswers(r, q, args, reply))
  {
    Standing(run, steps, shadow, ws, specs, acts, i, p);
    var r, whole := run[i].cluster.hosts[p].raft, WholeAt(specs, i, p);
    IndexBounds(run, steps, i, p);
    ReplicateExactly(r, whole, q);
    forall args, reply ensures AppendReplyAnswers(r, whole, q, args, reply) {
      AppendReplyExactly(r, whole, q, args, reply);
    }
    forall args, reply ensures InstallReplyAnswers(r, q, args, reply) {
      InstallReplyExactly(r, q, args, reply);
    }
  }

  /** The follower: its replies and what a snapshot, of a leader or of its service, does. Which requests it stores, and what the log is then, is
      RaftSystemCompaction.AppendEntriesSame. */
  lemma FollowersExactly(run: seq<System>, steps: seq<C.Step>, shadow: seq<C.Cluster>, ws: seq<C.Step>,
                         specs: seq<Spec>, acts: seq<seq<Action>>, i: nat, p: nat)
    requires SystemHistory(run, steps, shadow, ws, specs, acts) && i < |run| && p < |run[i].cluster.hosts|
    ensures var r, whole := run[i].cluster.hosts[p].raft, WholeAt(specs, i, p);
            && WellFormed(r) && LogCompacts(r, whole)
            && (forall args :: AppendAnswers(r, whole, args))
            && (forall args :: InstallAnswers(r, whole, args))
            && (forall index: nat, data :: SnapshotAnswers(r, whole, index, data))
  {
    Standing(run, steps, shadow, ws, specs, acts, i, p);
    var r, whole := run[i].cluster.hosts[p].raft, WholeAt(specs, i, p);
    forall args ensures AppendAnswers(r, whole, args) {
      AppendExactly(r, whole, args);
    }
    forall args ensures InstallAnswers(r, whole, args) {
      InstallExactly(r, whole, args);
    }
    forall index: nat, data ensures SnapshotAnswers(r, whole, index, data) {
      SnapshotExactly(r, whole, index, data);
    }
  }

  /** The applier: at rest it takes a waiting snapshot, else the next committed command of the whole log, else nothing. */
  lemma AppliersExactly(run: seq<System>, steps: seq<C.Step>, shadow: seq<C.Cluster>, ws: seq<C.Step>,
                        specs: seq<Spec>, acts: seq<seq<Action>>, i: nat, p: nat)
    requires SystemHistory(run, steps, shadow, ws, specs, acts) && i < |run| && p < |run[i].cluster.hosts|
    requires run[i].cluster.hosts[p].phase == Idle
    ensures var r, whole := run[i].cluster.hosts[p].raft, WholeAt(specs, i, p);
            CanTake(r) && r.commitIndex <= |whole| && TakeAnswers(r, whole)
  {
    Standing(run, steps, shadow, ws, specs, acts, i, p);
    Behind(shadow, ws, specs, acts, i, p);
    var r, whole := run[i].cluster.hosts[p].raft, WholeAt(specs, i, p);
    S.IndexBounds(shadow, ws, i, p);
    TakeExactly(r, whole);
  }
}
