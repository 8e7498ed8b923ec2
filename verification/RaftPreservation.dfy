/** Every action of the protocol keeps the invariant. */
module RaftPreservation {
  import opened RaftTypes
  import opened RaftProtocol
  import opened RaftInvariant

  // ---------------------------------------------------------------- what every action has in common

  /** Only node p moved, its term did not fall, history grew, and new reigns and acks belong to p. */
  ghost predicate Evolves(s: Spec, s': Spec, p: nat) {
    && Extends(s, s')
    && p < |s.nodes|
    && (forall q: nat :: q < |s.nodes| && q != p ==> s'.nodes[q] == s.nodes[q])
    && s.nodes[p].term <= s'.nodes[p].term
    && (forall a :: a in s'.acks && a !in s.acks ==> a.peer == p && a.term == s.nodes[p].term)
    && (forall t :: t in s'.reigns && t !in s.reigns ==> s'.reigns[t].id == p)
    && (forall t :: t in s.reigns && s'.reigns[t] != s.reigns[t] ==> s.reigns[t].id == p)
  }

  lemma OtherNode(s: Spec, s': Spec, p: nat, q: nat)
    requires Inv(s) && Evolves(s, s', p) && q < |s.nodes| && q != p
    ensures NodeOK(s', q)
  {
    assert NodeOK(s, q);
    LogOKStable(s, s', s.nodes[q].log);
    CommittedByStable(s, s', s.nodes[q].term, s.nodes[q].term, s.nodes[q].log[..s.nodes[q].commit]);
  }

  lemma OldCand(s: Spec, s': Spec, p: nat, t: nat, q: nat)
    requires Inv(s) && Evolves(s, s', p) && (t, q) in s.cands
    ensures CandOK(s', t, q)
  {
    assert CandOK(s, t, q);
    LogOKStable(s, s', s.cands[(t, q)]);
  }

  lemma OldBallot(s: Spec, s': Spec, p: nat, t: nat, q: nat, log: Log)
    requires AcksOK(s) && Evolves(s, s', p) && BallotKept(s, t, q, log)
    requires q < |s.nodes| && t <= s.nodes[q].term
    ensures BallotKept(s', t, q, log)
  {
    forall a, k: nat | a in s'.acks && a.peer == q && a.term < t && a.term in s'.reigns
                       && k <= a.index && k <= |s'.reigns[a.term].log|
      ensures Kept(s', s'.reigns[a.term].log[..k], a.term, log, t)
    {
      assert a in s.acks;
      assert AckOK(s, a);
      assert s'.reigns[a.term].log[..k] == s.reigns[a.term].log[..k];
      KeptStable(s, s', s.reigns[a.term].log[..k], a.term, log, t, t);
    }
  }

  lemma OldVote(s: Spec, s': Spec, p: nat, t: nat, q: nat)
    requires Inv(s) && Evolves(s, s', p) && (t, q) in s.votes
    requires q == p && t == s'.nodes[p].term ==> s'.nodes[p].vote == s.votes[(t, p)].cand
    ensures VoteOK(s', t, q)
  {
    assert VoteOK(s, t, q);
    LogOKStable(s, s', s.votes[(t, q)].log);
    if t !in s'.reigns {
      OldBallot(s, s', p, t, q, s.votes[(t, q)].log);
    }
  }

  lemma OldReign(s: Spec, s': Spec, p: nat, t: nat)
    requires Inv(s) && Evolves(s, s', p) && t in s.reigns && s'.reigns[t] == s.reigns[t]
    ensures ReignOK(s', t)
  {
    assert ReignOK(s, t);
    LogOKStable(s, s', s.reigns[t].log);
    forall q | q in s'.reigns[t].voters ensures VoterOK(s', t, q) {
      OldVoter(s, s', p, t, q);
    }
  }

  lemma OldVoter(s: Spec, s': Spec, p: nat, t: nat, q: nat)
    requires Inv(s) && Evolves(s, s', p) && t in s.reigns && q in s.reigns[t].voters
    ensures VoterOK(s', t, q)
  {
    assert ReignOK(s, t);
    assert VoterOK(s, t, q);
    assert VoteOK(s, t, q);
    LogOKStable(s, s', s.reigns[t].voters[q]);
    OldBallot(s, s', p, t, q, s.reigns[t].voters[q]);
  }

  /** An acknowledgement stays good when its node's log keeps, for each acknowledged prefix, what it had of it. */
  lemma OldAck(s: Spec, s': Spec, p: nat, a: Ack)
    requires Inv(s) && Evolves(s, s', p) && a in s.acks
    requires a.peer == p && s'.nodes[p].log != s.nodes[p].log ==>
               a.term in s.reigns && a.index <= |s.reigns[a.term].log| &&
               forall k {:trigger s.reigns[a.term].log[..k]} :: 0 <= k <= a.index && s.reigns[a.term].log[..k] <= s.nodes[p].log ==>
                 Kept(s', s.reigns[a.term].log[..k], a.term, s'.nodes[p].log, s'.nodes[p].term + 1)
    ensures AckOK(s', a)
  {
    assert AckOK(s, a);
    var nd, nd' := s.nodes[a.peer], s'.nodes[a.peer];
    forall k | 0 <= k <= a.index
      ensures Kept(s', s'.reigns[a.term].log[..k], a.term, nd'.log, nd'.term + 1)
    {
      var x := s.reigns[a.term].log[..k];
      assert s'.reigns[a.term].log[..k] == x;
      if nd'.log == nd.log {
        KeptStable(s, s', x, a.term, nd.log, nd.term + 1, nd'.term + 1);
      } else if !(x <= nd.log) {
        var u :| a.term < u < nd.term + 1 && Lacks(s, u, x);
        assert Lacks(s', u, x);
      }
    }
  }

  lemma OldAppend(s: Spec, s': Spec, m: Append)
    requires Inv(s) && Extends(s, s') && m in s.appends
    ensures AppendOK(s', m)
  {
    assert AppendOK(s, m);
    PrefixTrans(m.log, s.reigns[m.term].log, s'.reigns[m.term].log);
    CommittedByStable(s, s', m.term, m.term, m.log[..m.commit]);
  }

  /** The parts of the invariant that no action touches except at node p. */
  lemma Rest(s: Spec, s': Spec, p: nat)
    requires Inv(s) && Evolves(s, s', p)
    requires NodeOK(s', p)
    requires forall t, q {:trigger CandOK(s', t, q)} :: (t, q) in s'.cands && (t, q) !in s.cands ==> CandOK(s', t, q)
    requires forall t {:trigger ReignOK(s', t)} :: t in s'.reigns && (t !in s.reigns || s'.reigns[t] != s.reigns[t]) ==> ReignOK(s', t)
    requires forall m {:trigger AppendOK(s', m)} :: m in s'.appends && m !in s.appends ==> AppendOK(s', m)
    requires VotesOK(s') && AcksOK(s')
    ensures Inv(s')
  {
    forall q: nat | q < |s'.nodes| ensures NodeOK(s', q) {
      if q != p { OtherNode(s, s', p, q); }
    }
    forall t, q | (t, q) in s'.cands ensures CandOK(s', t, q) {
      if (t, q) in s.cands { OldCand(s, s', p, t, q); }
    }
    forall t | t in s'.reigns ensures ReignOK(s', t) {
      if t in s.reigns && s'.reigns[t] == s.reigns[t] { OldReign(s, s', p, t); }
    }
    forall m | m in s'.appends ensures AppendOK(s', m) {
      if m in s.appends { OldAppend(s, s', m); }
    }
  }

  /** Votes and acknowledgements when no log, vote record or acknowledgement changes. */
  lemma QuietVotes(s: Spec, s': Spec, p: nat)
    requires Inv(s) && Evolves(s, s', p) && s'.votes == s.votes
    requires s'.nodes[p].term == s.nodes[p].term ==> s'.nodes[p].vote == s.nodes[p].vote
    ensures VotesOK(s')
  {
    forall t, q | (t, q) in s'.votes ensures VoteOK(s', t, q) {
      assert VoteOK(s, t, q);
      OldVote(s, s', p, t, q);
    }
  }

  lemma QuietAcks(s: Spec, s': Spec, p: nat)
    requires Inv(s) && Evolves(s, s', p) && s'.acks == s.acks && s'.nodes[p].log == s.nodes[p].log
    ensures AcksOK(s')
  {
    forall a | a in s'.acks ensures AckOK(s', a) {
      OldAck(s, s', p, a);
    }
  }

  lemma OldNodeFacts(s: Spec, s': Spec, p: nat, c: nat)
    requires Inv(s) && Evolves(s, s', p) && c <= s.nodes[p].commit
    ensures s.nodes[p].commit <= |s.nodes[p].log|
    ensures LogOK(s', s.nodes[p].log)
    ensures TermsBelow(s.nodes[p].log, s.nodes[p].term + 1)
    ensures CommittedBy(s', s'.nodes[p].term, s.nodes[p].log[..c])
  {
    var nd := s.nodes[p];
    assert NodeOK(s, p);
    LogOKStable(s, s', nd.log);
    CommittedPrefix(s, nd.term, nd.log[..nd.commit], c);
    assert nd.log[..nd.commit][..c] == nd.log[..c];
    CommittedByStable(s, s', nd.term, s'.nodes[p].term, nd.log[..c]);
  }

  lemma CommittedPrefix(s: Spec, t: nat, log: Log, c: nat)
    requires CommittedBy(s, t, log) && c <= |log|
    ensures CommittedBy(s, t, log[..c])
  {
    if c > 0 {
      var u: nat, k: nat :| u <= t && CommittedVia(s, log, u, k);
      PrefixTrans(log[..c], log, s.reigns[u].log);
      assert CommittedVia(s, log[..c], u, k);
    }
  }

  // ---------------------------------------------------------------- the actions

  lemma BumpKeeps(s: Spec, p: nat, t: nat)
    requires Inv(s) && CanBump(s, p, t)
    ensures Inv(Bump(s, p, t)) && Extends(s, Bump(s, p, t))
  {
    var s' := Bump(s, p, t);
    assert Evolves(s, s', p);
    OldNodeFacts(s, s', p, s.nodes[p].commit);
    QuietVotes(s, s', p);
    QuietAcks(s, s', p);
    Rest(s, s', p);
  }

  lemma StepDownKeeps(s: Spec, p: nat)
    requires Inv(s) && CanStepDown(s, p)
    ensures Inv(StepDown(s, p)) && Extends(s, StepDown(s, p))
  {
    var s' := StepDown(s, p);
    assert Evolves(s, s', p);
    assert NodeOK(s, p);
    OldNodeFacts(s, s', p, s.nodes[p].commit);
    QuietVotes(s, s', p);
    QuietAcks(s, s', p);
    Rest(s, s', p);
  }

  lemma RestartKeeps(s: Spec, p: nat, c: nat)
    requires Inv(s) && CanRestart(s, p, c)
    ensures Inv(Restart(s, p, c)) && Extends(s, Restart(s, p, c))
  {
    var s' := Restart(s, p, c);
    assert Evolves(s, s', p);
    assert NodeOK(s, p);
    OldNodeFacts(s, s', p, c);
    QuietVotes(s, s', p);
    QuietAcks(s, s', p);
    Rest(s, s', p);
  }

  lemma CampaignKeeps(s: Spec, p: nat)
    requires Inv(s) && CanCampaign(s, p)
    ensures Inv(Campaign(s, p)) && Extends(s, Campaign(s, p))
  {
    var s' := Campaign(s, p);
    var nd := s.nodes[p];
    var t := nd.term + 1;
    FreshTerm(s, p);
    assert Evolves(s, s', p);
    OldNodeFacts(s, s', p, nd.commit);
    assert CandOK(s', t, p);
    BallotOfNode(s, s', p, t);
    forall u, q | (u, q) in s'.votes ensures VoteOK(s', u, q) {
      if (u, q) in s.votes {
        assert VoteOK(s, u, q);
        OldVote(s, s', p, u, q);
      }
    }
    QuietAcks(s, s', p);
    Rest(s, s', p);
  }

  /** Nothing is recorded of peer p for the term after its current one. */
  lemma FreshTerm(s: Spec, p: nat)
    requires Inv(s) && p < |s.nodes|
    ensures (s.nodes[p].term + 1, p) !in s.cands && (s.nodes[p].term + 1, p) !in s.votes
    ensures s.nodes[p].term + 1 in s.reigns ==> s.reigns[s.nodes[p].term + 1].id != p
  {
    var t := s.nodes[p].term + 1;
    assert (t, p) in s.cands ==> CandOK(s, t, p);
    assert (t, p) in s.votes ==> VoteOK(s, t, p);
    assert t in s.reigns ==> ReignOK(s, t);
  }

  /** A vote that p casts now, in a term t without a leader so far, keeps what p had stored. */
  lemma BallotOfNode(s: Spec, s': Spec, p: nat, t: nat)
    requires Inv(s) && Evolves(s, s', p) && s'.acks == s.acks && s'.reigns == s.reigns
    requires s.nodes[p].term <= t <= s.nodes[p].term + 1
    ensures t !in s'.reigns ==> BallotKept(s', t, p, s.nodes[p].log)
  {
    if t !in s'.reigns {
      var nd := s.nodes[p];
      forall a, k: nat | a in s'.acks && a.peer == p && a.term < t && a.term in s'.reigns
                         && k <= a.index && k <= |s'.reigns[a.term].log|
        ensures Kept(s', s'.reigns[a.term].log[..k], a.term, nd.log, t)
      {
        assert AckOK(s, a);
        var x := s.reigns[a.term].log[..k];
        assert Kept(s, x, a.term, nd.log, nd.term + 1);
        if !(x <= nd.log) {
          var u :| a.term < u < nd.term + 1 && Lacks(s, u, x);
          assert u != t && Lacks(s', u, x);
        }
      }
    }
  }

  lemma GrantKeeps(s: Spec, p: nat, cand: nat)
    requires Inv(s) && CanGrant(s, p, cand)
    ensures Inv(Grant(s, p, cand)) && Extends(s, Grant(s, p, cand))
  {
    var s' := Grant(s, p, cand);
    var nd := s.nodes[p];
    assert NodeOK(s, p);
    if (nd.term, p) in s.votes { assert VoteOK(s, nd.term, p); }
    assert Evolves(s, s', p);
    OldNodeFacts(s, s', p, nd.commit);
    BallotOfNode(s, s', p, nd.term);
    forall u, q | (u, q) in s'.votes ensures VoteOK(s', u, q) {
      if (u, q) in s.votes {
        assert VoteOK(s, u, q);
        OldVote(s, s', p, u, q);
      }
    }
    QuietAcks(s, s', p);
    Rest(s, s', p);
  }

  lemma NewReign(s: Spec, p: nat, voters: set<nat>)
    requires Inv(s) && CanElect(s, p, voters) && s.nodes[p].term !in s.reigns
    requires Evolves(s, Elect(s, p, voters), p)
    ensures ReignOK(Elect(s, p, voters), s.nodes[p].term)
  {
    var s' := Elect(s, p, voters);
    var t := s.nodes[p].term;
    assert NodeOK(s, p);
    assert CandOK(s, t, p);
    LogOKStable(s, s', s.nodes[p].log);
    forall q | q in voters ensures VoterOK(s', t, q) {
      assert VoteOK(s, t, q);
      LogOKStable(s, s', s.votes[(t, q)].log);
      OldBallot(s, s', p, t, q, s.votes[(t, q)].log);
    }
    assert s'.reigns[t].voters.Keys == voters;
  }

  lemma ElectKeeps(s: Spec, p: nat, voters: set<nat>)
    requires Inv(s) && CanElect(s, p, voters)
    ensures Inv(Elect(s, p, voters)) && Extends(s, Elect(s, p, voters))
  {
    var s' := Elect(s, p, voters);
    var nd := s.nodes[p];
    OneLeader(s, p, voters);
    assert Evolves(s, s', p);
    assert NodeOK(s, p);
    NewReign(s, p, voters);
    OldNodeFacts(s, s', p, nd.commit);
    QuietVotes(s, s', p);
    forall a | a in s'.acks ensures AckOK(s', a) {
      if a in s.acks {
        OldAck(s, s', p, a);
      } else {
        assert forall k :: 0 <= k <= |nd.log| ==> nd.log[..k] <= nd.log;
      }
    }
    Rest(s, s', p);
  }

  lemma ProposeReign(s: Spec, p: nat, command: Command)
    requires Inv(s) && CanPropose(s, p) && Evolves(s, Propose(s, p, command), p)
    ensures ReignOK(Propose(s, p, command), s.nodes[p].term)
  {
    var s' := Propose(s, p, command);
    var t := s.nodes[p].term;
    assert NodeOK(s, p);
    assert ReignOK(s, t);
    assert LogOK(s', s'.nodes[p].log) by {
      LogOKStable(s, s', s.nodes[p].log);
      AppendedOK(s', s.nodes[p].log, s'.nodes[p].log, t);
    }
    ProposeVoters(s, p, command);
  }

  lemma ProposeVoters(s: Spec, p: nat, command: Command)
    requires Inv(s) && CanPropose(s, p) && Evolves(s, Propose(s, p, command), p)
    ensures var s', t := Propose(s, p, command), s.nodes[p].term;
            t in s'.reigns && forall q {:trigger VoterOK(s', t, q)} :: q in s'.reigns[t].voters ==> VoterOK(s', t, q)
  {
    var s', t := Propose(s, p, command), s.nodes[p].term;
    assert NodeOK(s, p);
    forall q | q in s'.reigns[t].voters ensures VoterOK(s', t, q) {
      OldVoter(s, s', p, t, q);
    }
  }

  lemma ProposeAck(s: Spec, p: nat, command: Command, a: Ack)
    requires Inv(s) && CanPropose(s, p) && Evolves(s, Propose(s, p, command), p) && a in s.acks
    ensures AckOK(Propose(s, p, command), a)
  {
    var s' := Propose(s, p, command);
    assert AckOK(s, a);
    forall k | 0 <= k <= a.index && s.reigns[a.term].log[..k] <= s.nodes[p].log
      ensures s.reigns[a.term].log[..k] <= s'.nodes[p].log
    {
      PrefixTrans(s.reigns[a.term].log[..k], s.nodes[p].log, s'.nodes[p].log);
    }
    OldAck(s, s', p, a);
  }

  lemma ProposedAck(s: Spec, p: nat, command: Command, a: Ack)
    requires Inv(s) && CanPropose(s, p) && Evolves(s, Propose(s, p, command), p) && a in Propose(s, p, command).acks
    ensures AckOK(Propose(s, p, command), a)
  {
    assert NodeOK(s, p);
    if a in s.acks {
      ProposeAck(s, p, command, a);
    } else {
      ProposeReign(s, p, command);
      var log := Propose(s, p, command).nodes[p].log;
      assert forall k :: 0 <= k <= a.index ==> log[..k] <= log;
    }
  }

  lemma ProposedNode(s: Spec, p: nat, command: Command)
    requires Inv(s) && CanPropose(s, p) && Evolves(s, Propose(s, p, command), p)
    requires ReignOK(Propose(s, p, command), s.nodes[p].term)
    ensures NodeOK(Propose(s, p, command), p)
  {
    var nd, nd' := s.nodes[p], Propose(s, p, command).nodes[p];
    assert NodeOK(s, p);
    OldNodeFacts(s, Propose(s, p, command), p, nd.commit);
    assert nd'.log[..nd.commit] == nd.log[..nd.commit];
  }

  lemma ProposeKeeps(s: Spec, p: nat, command: Command)
    requires Inv(s) && CanPropose(s, p)
    ensures Inv(Propose(s, p, command)) && Extends(s, Propose(s, p, command))
  {
    var s' := Propose(s, p, command);
    assert Evolves(s, s', p) by { assert NodeOK(s, p); }
    ProposeReign(s, p, command);
    ProposedNode(s, p, command);
    QuietVotes(s, s', p);
    forall a | a in s'.acks ensures AckOK(s', a) {
      ProposedAck(s, p, command, a);
    }
    Rest(s, s', p);
  }

  /** A log extended by one entry of term t, itself the log of term t's leader. */
  lemma AppendedOK(s: Spec, log: Log, log': Log, t: nat)
    requires LogOK(s, log) && |log'| == |log| + 1 && log <= log' && log'[|log|].term == t >= 1
    requires t in s.reigns && s.reigns[t].log == log'
    ensures LogOK(s, log')
  {
    forall i | 0 <= i < |log'|
      ensures log'[i].term >= 1 && log'[i].term in s.reigns && log'[..i + 1] <= s.reigns[log'[i].term].log
    {
      if i < |log| {
        assert log'[..i + 1] == log[..i + 1] && log'[i] == log[i];
      }
    }
  }

  lemma SendKeeps(s: Spec, p: nat, k: nat, c: nat)
    requires Inv(s) && CanSend(s, p, k, c)
    ensures Inv(Send(s, p, k, c)) && Extends(s, Send(s, p, k, c))
  {
    var s' := Send(s, p, k, c);
    var nd := s.nodes[p];
    assert NodeOK(s, p);
    assert Evolves(s, s', p);
    OldNodeFacts(s, s', p, nd.commit);
    OldNodeFacts(s, s', p, c);
    assert nd.log[..k][..c] == nd.log[..c];
    assert AppendOK(s', Append(nd.term, nd.log[..k], c));
    QuietVotes(s, s', p);
    QuietAcks(s, s', p);
    Rest(s, s', p);
  }

  lemma CommitKeeps(s: Spec, p: nat, k: nat)
    requires Inv(s) && CanCommit(s, p, k)
    ensures Inv(Commit(s, p, k)) && Extends(s, Commit(s, p, k))
  {
    var s' := Commit(s, p, k);
    var nd := s.nodes[p];
    assert NodeOK(s, p);
    assert Evolves(s, s', p);
    OldNodeFacts(s, s', p, nd.commit);
    assert CommittedVia(s, nd.log[..k], nd.term, k);
    CommittedByStable(s, s', nd.term, nd.term, nd.log[..k]);
    QuietVotes(s, s', p);
    QuietAcks(s, s', p);
    Rest(s, s', p);
  }

  /** Accepting never drops a committed entry and commits nothing beyond the leader's committed prefix. */
  lemma AcceptCommit(s: Spec, p: nat, m: Append)
    requires Inv(s) && CanAccept(s, p, m)
    ensures var nd' := Accept(s, p, m).nodes[p];
            && s.nodes[p].commit <= |s.nodes[p].log| && m.commit <= |m.log|
            && nd'.commit == Max(s.nodes[p].commit, m.commit) <= |nd'.log|
            && s.nodes[p].log[..s.nodes[p].commit] <= nd'.log
            && CommittedBy(s, m.term, nd'.log[..nd'.commit])
  {
    var nd, nd' := s.nodes[p], Accept(s, p, m).nodes[p];
    assert NodeOK(s, p);
    assert AppendOK(s, m);
    CommittedInLeader(s, m.term, nd.log[..nd.commit]);
    MergeKeeps(nd.log[..nd.commit], nd.log, m.log, s.reigns[m.term].log);
    assert nd'.log[..nd.commit] == nd.log[..nd.commit];
    assert nd'.log[..m.commit] == m.log[..m.commit];
  }

  lemma AcceptKeeps(s: Spec, p: nat, m: Append)
    requires Inv(s) && CanAccept(s, p, m)
    ensures Inv(Accept(s, p, m)) && Extends(s, Accept(s, p, m))
  {
    var s' := Accept(s, p, m);
    var nd, nd' := s.nodes[p], s'.nodes[p];
    assert NodeOK(s, p);
    assert AppendOK(s, m);
    assert ReignOK(s, m.term);
    assert Evolves(s, s', p);
    AcceptCommit(s, p, m);
    CommittedByStable(s, s', m.term, m.term, nd'.log[..nd'.commit]);
    MessageLog(s, m);
    LogOKStable(s, s', nd'.log);
    QuietVotes(s, s', p);
    forall a | a in s'.acks ensures AckOK(s', a) {
      if a in s.acks {
        if a.peer == p { AcceptAck(s, p, m, a); }
        OldAck(s, s', p, a);
      } else {
        NewAck(s, s', p, m);
      }
    }
    Rest(s, s', p);
  }

  lemma MessageLog(s: Spec, m: Append)
    requires ReignsOK(s) && AppendOK(s, m)
    ensures LogOK(s, m.log) && TermsBelow(m.log, m.term + 1)
  {
    var r := s.reigns[m.term];
    assert ReignOK(s, m.term);
    LogOKPrefix(s, r.log, |m.log|);
    assert m.log == r.log[..|m.log|];
    forall i | 0 <= i < |m.log| ensures m.log[i].term < m.term + 1 {
      assert m.log[i] == r.log[i];
      if i < |r.base| { assert r.log[i] == r.base[i]; }
    }
  }

  /** What p acknowledged in this or an earlier term survives a merge, unless this term's leader lacks it. */
  lemma AcceptAck(s: Spec, p: nat, m: Append, a: Ack)
    requires Inv(s) && CanAccept(s, p, m) && a in s.acks && a.peer == p
    ensures a.term in s.reigns && a.index <= |s.reigns[a.term].log|
    ensures var s' := Accept(s, p, m);
            forall k {:trigger s.reigns[a.term].log[..k]} :: 0 <= k <= a.index && s.reigns[a.term].log[..k] <= s.nodes[p].log ==>
              Kept(s', s.reigns[a.term].log[..k], a.term, s'.nodes[p].log, s'.nodes[p].term + 1)
  {
    var s' := Accept(s, p, m);
    assert AckOK(s, a);
    assert AppendOK(s, m);
    assert ReignOK(s, m.term);
    forall k | 0 <= k <= a.index && s.reigns[a.term].log[..k] <= s.nodes[p].log
      ensures Kept(s', s.reigns[a.term].log[..k], a.term, s'.nodes[p].log, s'.nodes[p].term + 1)
    {
      var x := s.reigns[a.term].log[..k];
      if a.term < m.term && Lacks(s, m.term, x) {
        assert Lacks(s', m.term, x);
      } else {
        if a.term < m.term {
          PrefixTrans(x, s.reigns[m.term].base, s.reigns[m.term].log);
        }
        MergeKeeps(x, s.nodes[p].log, m.log, s.reigns[m.term].log);
      }
    }
  }

  lemma NewAck(s: Spec, s': Spec, p: nat, m: Append)
    requires CanAccept(s, p, m) && s' == Accept(s, p, m) && AppendOK(s, m)
    ensures AckOK(s', Ack(m.term, p, |m.log|))
  {
    forall k | 0 <= k <= |m.log|
      ensures Kept(s', s'.reigns[m.term].log[..k], m.term, s'.nodes[p].log, s'.nodes[p].term + 1)
    {
      assert s'.reigns[m.term].log[..k] == m.log[..k];
      PrefixTrans(m.log[..k], m.log, s'.nodes[p].log);
    }
  }

  /** Every action keeps the invariant and only extends history. */
  lemma ActionKeeps(s: Spec, a: Action, s': Spec)
    requires Inv(s) && Does(s, a, s')
    ensures Inv(s') && Extends(s, s')
  {
    match a
    case DoBump(p, t) => BumpKeeps(s, p, t);
    case DoStepDown(p) => StepDownKeeps(s, p);
    case DoCampaign(p) => CampaignKeeps(s, p);
    case DoGrant(p, cand) => GrantKeeps(s, p, cand);
    case DoElect(p, voters) => ElectKeeps(s, p, voters);
    case DoPropose(p, command) => ProposeKeeps(s, p, command);
    case DoSend(p, k, c) => SendKeeps(s, p, k, c);
    case DoAccept(p, m) => AcceptKeeps(s, p, m);
    case DoCommit(p, k) => CommitKeeps(s, p, k);
    case DoRestart(p, c) => RestartKeeps(s, p, c);
  }
}
