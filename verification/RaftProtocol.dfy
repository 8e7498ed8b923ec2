/** The Raft protocol on uncompacted logs, with history variables.

    Storing the entries of an AppendEntries call and installing a snapshot are one action here,
    `Accept`: both hand the follower a prefix of the leader's log together with a commit bound.
    The module `RaftRefinement` shows that every critical section of the implementation is a
    sequence of these actions; `RaftInvariant` proves what they keep. */
module RaftProtocol {
  import opened RaftTypes
  import opened Quorums

  /** One peer: what the implementation keeps of it, but with its whole log. */
  datatype Node = Node(term: nat, vote: int, role: Role, log: Log, commit: nat)

  /** A vote cast, with the voter's log at that moment. */
  datatype Vote = Vote(cand: nat, log: Log)

  /** A term that had a leader: who, its log when elected, its log now, and the logs of those who elected it. */
  datatype Reign = Reign(id: nat, base: Log, log: Log, voters: map<nat, Log>)

  /** Part of a leader's log on its way to followers. */
  datatype Append = Append(term: nat, log: Log, commit: nat)

  /** Peer `peer` stored the first `index` entries of the log of term `term`'s leader during that term. */
  datatype Ack = Ack(term: nat, peer: nat, index: nat)

  datatype Spec = Spec(
    nodes: seq<Node>,
    cands: map<(nat, nat), Log>,   // (term, peer) -> its log when it stood for election
    votes: map<(nat, nat), Vote>,  // (term, peer) -> its vote
    reigns: map<nat, Reign>,
    appends: set<Append>,
    acks: set<Ack>)

  ghost predicate Init(s: Spec) {
    && |s.nodes| > 0
    && (forall p :: 0 <= p < |s.nodes| ==> s.nodes[p] == Node(0, -1, Follower, [], 0))
    && s.cands == map[] && s.votes == map[] && s.reigns == map[]
    && s.appends == {} && s.acks == {}
  }

  // ---------------------------------------------------------------- actions

  /** A peer sees a newer term. */
  predicate CanBump(s: Spec, p: nat, t: nat) {
    p < |s.nodes| && s.nodes[p].term < t
  }
  function Bump(s: Spec, p: nat, t: nat): Spec
    requires CanBump(s, p, t)
  {
    s.(nodes := s.nodes[p := s.nodes[p].(term := t, vote := -1, role := Follower)])
  }

  predicate CanStepDown(s: Spec, p: nat) {
    p < |s.nodes|
  }
  function StepDown(s: Spec, p: nat): Spec
    requires CanStepDown(s, p)
  {
    s.(nodes := s.nodes[p := s.nodes[p].(role := Follower)])
  }

  /** A peer stands for election in the next term and votes for itself. */
  predicate CanCampaign(s: Spec, p: nat) {
    p < |s.nodes|
  }
  function Campaign(s: Spec, p: nat): Spec
    requires CanCampaign(s, p)
  {
    var nd := s.nodes[p];
    s.(nodes := s.nodes[p := nd.(term := nd.term + 1, vote := p, role := Candidate)],
       cands := s.cands[(nd.term + 1, p) := nd.log],
       votes := s.votes[(nd.term + 1, p) := Vote(p, nd.log)])
  }

  predicate CanGrant(s: Spec, p: nat, cand: nat) {
    && p < |s.nodes| && cand < |s.nodes|
    && (s.nodes[p].vote == -1 || s.nodes[p].vote == cand)
    && (s.nodes[p].term, cand) in s.cands
    && UpToDate(s.cands[(s.nodes[p].term, cand)], s.nodes[p].log)
  }
  function Grant(s: Spec, p: nat, cand: nat): Spec
    requires CanGrant(s, p, cand)
  {
    var nd := s.nodes[p];
    s.(nodes := s.nodes[p := nd.(vote := cand)],
       votes := if (nd.term, p) in s.votes then s.votes
                else s.votes[(nd.term, p) := Vote(cand, nd.log)])
  }

  /** The peers whose vote in term t went to p. */
  function Supporters(s: Spec, t: nat, p: nat): set<nat> {
    set q | q in Peers(|s.nodes|) && (t, q) in s.votes && s.votes[(t, q)].cand == p
  }

  predicate CanElect(s: Spec, p: nat, voters: set<nat>) {
    && p < |s.nodes|
    && s.nodes[p].role == Candidate
    && IsQuorum(|s.nodes|, voters)
    && voters <= Supporters(s, s.nodes[p].term, p)
  }
  function Elect(s: Spec, p: nat, voters: set<nat>): Spec
    requires CanElect(s, p, voters)
  {
    var nd := s.nodes[p];
    s.(nodes := s.nodes[p := nd.(role := Leader)],
       reigns := s.reigns[nd.term := Reign(p, nd.log, nd.log, map q | q in voters :: s.votes[(nd.term, q)].log)],
       acks := s.acks + {Ack(nd.term, p, |nd.log|)})
  }

  predicate CanPropose(s: Spec, p: nat) {
    p < |s.nodes| && s.nodes[p].role == Leader && s.nodes[p].term in s.reigns
  }
  function Propose(s: Spec, p: nat, command: Command): Spec
    requires CanPropose(s, p)
  {
    var nd := s.nodes[p];
    var log := nd.log + [LogEntry(nd.term, command)];
    s.(nodes := s.nodes[p := nd.(log := log)],
       reigns := s.reigns[nd.term := s.reigns[nd.term].(log := log)],
       acks := s.acks + {Ack(nd.term, p, |log|)})
  }

  /** A leader sends its first k entries, of which c are known to be committed. */
  predicate CanSend(s: Spec, p: nat, k: nat, c: nat) {
    p < |s.nodes| && s.nodes[p].role == Leader && c <= k <= |s.nodes[p].log| && c <= s.nodes[p].commit
  }
  function Send(s: Spec, p: nat, k: nat, c: nat): Spec
    requires CanSend(s, p, k, c)
  {
    s.(appends := s.appends + {Append(s.nodes[p].term, s.nodes[p].log[..k], c)})
  }

  predicate CanAccept(s: Spec, p: nat, m: Append) {
    p < |s.nodes| && m in s.appends && s.nodes[p].term == m.term
  }
  function Accept(s: Spec, p: nat, m: Append): Spec
    requires CanAccept(s, p, m)
  {
    var nd := s.nodes[p];
    var log := Merge(nd.log, m.log);
    s.(nodes := s.nodes[p := nd.(role := Follower, log := log, commit := Max(nd.commit, Min(m.commit, |log|)))],
       acks := s.acks + {Ack(m.term, p, |m.log|)})
  }

  ghost predicate HasAck(s: Spec, t: nat, p: nat, k: nat) {
    exists a :: a in s.acks && a.term == t && a.peer == p && a.index >= k
  }

  /** The peers that stored the first k entries of term t's leader during term t. */
  ghost function Ackers(s: Spec, t: nat, k: nat): set<nat> {
    set p | p in Peers(|s.nodes|) && HasAck(s, t, p, k)
  }

  ghost predicate CanCommit(s: Spec, p: nat, k: nat) {
    && p < |s.nodes|
    && s.nodes[p].role == Leader
    && 1 <= k <= |s.nodes[p].log|
    && s.nodes[p].log[k - 1].term == s.nodes[p].term
    && IsQuorum(|s.nodes|, Ackers(s, s.nodes[p].term, k))
  }
  ghost function Commit(s: Spec, p: nat, k: nat): Spec
    requires CanCommit(s, p, k)
  {
    s.(nodes := s.nodes[p := s.nodes[p].(commit := Max(s.nodes[p].commit, k))])
  }

  /** A crashed peer comes back with its term, vote and log, and forgets part of what it knew to be committed. */
  predicate CanRestart(s: Spec, p: nat, c: nat) {
    p < |s.nodes| && c <= s.nodes[p].commit
  }
  function Restart(s: Spec, p: nat, c: nat): Spec
    requires CanRestart(s, p, c)
  {
    s.(nodes := s.nodes[p := s.nodes[p].(role := Follower, commit := c)])
  }

  datatype Action =
    | DoBump(p: nat, t: nat)
    | DoStepDown(p: nat)
    | DoCampaign(p: nat)
    | DoGrant(p: nat, cand: nat)
    | DoElect(p: nat, voters: set<nat>)
    | DoPropose(p: nat, command: Command)
    | DoSend(p: nat, k: nat, c: nat)
    | DoAccept(p: nat, m: Append)
    | DoCommit(p: nat, k: nat)
    | DoRestart(p: nat, c: nat)

  /** Action a takes s to s'. */
  ghost predicate Does(s: Spec, a: Action, s': Spec) {
    match a
    case DoBump(p, t) => CanBump(s, p, t) && s' == Bump(s, p, t)
    case DoStepDown(p) => CanStepDown(s, p) && s' == StepDown(s, p)
    case DoCampaign(p) => CanCampaign(s, p) && s' == Campaign(s, p)
    case DoGrant(p, cand) => CanGrant(s, p, cand) && s' == Grant(s, p, cand)
    case DoElect(p, voters) => CanElect(s, p, voters) && s' == Elect(s, p, voters)
    case DoPropose(p, command) => CanPropose(s, p) && s' == Propose(s, p, command)
    case DoSend(p, k, c) => CanSend(s, p, k, c) && s' == Send(s, p, k, c)
    case DoAccept(p, m) => CanAccept(s, p, m) && s' == Accept(s, p, m)
    case DoCommit(p, k) => CanCommit(s, p, k) && s' == Commit(s, p, k)
    case DoRestart(p, c) => CanRestart(s, p, c) && s' == Restart(s, p, c)
  }
}
