/** The inductive invariant of the protocol. */
module RaftInvariant {
  import opened RaftTypes
  import opened Quorums
  import opened RaftProtocol

  // ---------------------------------------------------------------- definitions

  /** Every prefix of `log` that ends in an entry of term t is a prefix of the log of term t's leader. */
  ghost predicate LogOK(s: Spec, log: Log) {
    forall i :: 0 <= i < |log| ==>
      log[i].term >= 1 && log[i].term in s.reigns && log[..i + 1] <= s.reigns[log[i].term].log
  }

  ghost predicate TermsBelow(log: Log, t: nat) {
    forall i :: 0 <= i < |log| ==> log[i].term < t
  }

  /** The first k entries of term t's leader are committed: the last of them is of term t and a majority stored them. */
  ghost predicate Committed(s: Spec, t: nat, k: nat) {
    && t in s.reigns
    && 1 <= k <= |s.reigns[t].log|
    && s.reigns[t].log[k - 1].term == t
    && IsQuorum(|s.nodes|, Ackers(s, t, k))
  }

  ghost predicate CommittedVia(s: Spec, log: Log, t: nat, k: nat) {
    Committed(s, t, k) && |log| <= k && log <= s.reigns[t].log
  }

  /** `log` is a prefix of what was committed in some term up to t. */
  ghost predicate CommittedBy(s: Spec, t: nat, log: Log) {
    log == [] || exists u: nat, k: nat :: u <= t && CommittedVia(s, log, u, k)
  }

  /** The leader of term u was elected without having x. */
  ghost predicate Lacks(s: Spec, u: nat, x: Log) {
    u in s.reigns && !(x <= s.reigns[u].base)
  }

  /** x is still a prefix of `log`, unless a leader of a term strictly between t and `bound` lacked it. */
  ghost predicate Kept(s: Spec, x: Log, t: nat, log: Log, bound: nat) {
    x <= log || exists u :: t < u < bound && Lacks(s, u, x)
  }

  ghost predicate NodeOK(s: Spec, p: nat)
    requires p < |s.nodes|
  {
    var nd := s.nodes[p];
    && LogOK(s, nd.log)
    && TermsBelow(nd.log, nd.term + 1)
    && (nd.vote == -1 || (nd.term, p) in s.votes)
    && (nd.role == Candidate ==>
          && (nd.term, p) in s.cands && s.cands[(nd.term, p)] == nd.log
          && !(nd.term in s.reigns && s.reigns[nd.term].id == p))
    && (nd.role == Leader ==>
          && nd.term in s.reigns && s.reigns[nd.term].id == p && s.reigns[nd.term].log == nd.log
          && Ack(nd.term, p, |nd.log|) in s.acks)
    && nd.commit <= |nd.log|
    && CommittedBy(s, nd.term, nd.log[..nd.commit])
  }

  ghost predicate CandOK(s: Spec, t: nat, p: nat)
    requires (t, p) in s.cands
  {
    && p < |s.nodes| && 1 <= t <= s.nodes[p].term
    && LogOK(s, s.cands[(t, p)])
    && TermsBelow(s.cands[(t, p)], t)
  }

  ghost predicate VoteOK(s: Spec, t: nat, p: nat)
    requires (t, p) in s.votes
  {
    var v := s.votes[(t, p)];
    && p < |s.nodes| && t <= s.nodes[p].term
    && (t == s.nodes[p].term ==> s.nodes[p].vote == v.cand)
    && LogOK(s, v.log)
    && (t, v.cand) in s.cands
    && UpToDate(s.cands[(t, v.cand)], v.log)
    && (t !in s.reigns ==> BallotKept(s, t, p, v.log))
  }

  /** What a voter had stored in earlier terms it still had when it cast the vote. */
  ghost predicate BallotKept(s: Spec, t: nat, q: nat, log: Log) {
    forall a, k: nat {:trigger s.reigns[a.term].log[..k], a in s.acks} ::
      a in s.acks && a.peer == q && a.term < t && a.term in s.reigns
      && k <= a.index && k <= |s.reigns[a.term].log| ==>
        Kept(s, s.reigns[a.term].log[..k], a.term, log, t)
  }

  ghost predicate VoterOK(s: Spec, t: nat, q: nat)
    requires t in s.reigns && q in s.reigns[t].voters
  {
    var r := s.reigns[t];
    && (t, q) in s.votes && s.votes[(t, q)].cand == r.id
    && LogOK(s, r.voters[q])
    && UpToDate(r.base, r.voters[q])
    && BallotKept(s, t, q, r.voters[q])
  }

  ghost predicate ReignOK(s: Spec, t: nat)
    requires t in s.reigns
  {
    var r := s.reigns[t];
    && r.id < |s.nodes| && 1 <= t <= s.nodes[r.id].term
    && r.base <= r.log
    && LogOK(s, r.log)
    && TermsBelow(r.base, t)
    && (forall i :: |r.base| <= i < |r.log| ==> r.log[i].term == t)
    && IsQuorum(|s.nodes|, r.voters.Keys)
    && (forall q {:trigger VoterOK(s, t, q)} :: q in r.voters ==> VoterOK(s, t, q))
  }

  ghost predicate AckOK(s: Spec, a: Ack) {
    && a.peer < |s.nodes|
    && a.term in s.reigns
    && a.term <= s.nodes[a.peer].term
    && a.index <= |s.reigns[a.term].log|
    && (forall k :: 0 <= k <= a.index ==>
          Kept(s, s.reigns[a.term].log[..k], a.term, s.nodes[a.peer].log, s.nodes[a.peer].term + 1))
  }

  ghost predicate AppendOK(s: Spec, m: Append) {
    && m.term in s.reigns
    && m.log <= s.reigns[m.term].log
    && m.commit <= |m.log|
    && CommittedBy(s, m.term, m.log[..m.commit])
  }

  ghost predicate NodesOK(s: Spec) {
    forall p: nat {:trigger NodeOK(s, p)} :: p < |s.nodes| ==> NodeOK(s, p)
  }

  ghost predicate CandsOK(s: Spec) {
    forall t, p {:trigger CandOK(s, t, p)} :: (t, p) in s.cands ==> CandOK(s, t, p)
  }

  ghost predicate VotesOK(s: Spec) {
    forall t, p {:trigger VoteOK(s, t, p)} :: (t, p) in s.votes ==> VoteOK(s, t, p)
  }

  ghost predicate ReignsOK(s: Spec) {
    forall t {:trigger ReignOK(s, t)} :: t in s.reigns ==> ReignOK(s, t)
  }

  ghost predicate AcksOK(s: Spec) {
    forall a {:trigger AckOK(s, a)} :: a in s.acks ==> AckOK(s, a)
  }

  ghost predicate AppendsOK(s: Spec) {
    forall m {:trigger AppendOK(s, m)} :: m in s.appends ==> AppendOK(s, m)
  }

  ghost predicate Inv(s: Spec) {
    && |s.nodes| > 0
    && NodesOK(s) && CandsOK(s) && VotesOK(s) && ReignsOK(s) && AcksOK(s) && AppendsOK(s)
  }

  lemma InitInv(s: Spec)
    requires Init(s)
    ensures Inv(s)
  {
  }

  // ---------------------------------------------------------------- stability of history facts

  /** History only grows; a reign keeps its leader, its base and its voters. */
  ghost predicate Extends(s: Spec, s': Spec) {
    && |s.nodes| == |s'.nodes|
    && (forall t :: t in s.reigns ==>
          && t in s'.reigns && s'.reigns[t].id == s.reigns[t].id && s'.reigns[t].base == s.reigns[t].base
          && s'.reigns[t].voters == s.reigns[t].voters && s.reigns[t].log <= s'.reigns[t].log)
    && s.acks <= s'.acks
    && s.appends <= s'.appends
    && (forall x :: x in s.votes ==> x in s'.votes && s'.votes[x] == s.votes[x])
    && (forall x :: x in s.cands ==> x in s'.cands && s'.cands[x] == s.cands[x])
  }

  lemma ExtendsTrans(a: Spec, b: Spec, c: Spec)
    requires Extends(a, b) && Extends(b, c)
    ensures Extends(a, c)
  {
    forall t | t in a.reigns ensures a.reigns[t].log <= c.reigns[t].log {
      PrefixTrans(a.reigns[t].log, b.reigns[t].log, c.reigns[t].log);
    }
  }

  lemma LogOKStable(s: Spec, s': Spec, log: Log)
    requires Extends(s, s') && LogOK(s, log)
    ensures LogOK(s', log)
  {
    forall i | 0 <= i < |log|
      ensures log[i].term in s'.reigns && log[..i + 1] <= s'.reigns[log[i].term].log
    {
      PrefixTrans(log[..i + 1], s.reigns[log[i].term].log, s'.reigns[log[i].term].log);
    }
  }

  lemma LogOKPrefix(s: Spec, log: Log, k: nat)
    requires LogOK(s, log) && k <= |log|
    ensures LogOK(s, log[..k])
  {
    forall i | 0 <= i < |log[..k]|
      ensures log[..k][i].term in s.reigns && log[..k][..i + 1] <= s.reigns[log[..k][i].term].log
    {
      assert log[..k][..i + 1] == log[..i + 1];
    }
  }

  lemma CommittedStable(s: Spec, s': Spec, t: nat, k: nat)
    requires Extends(s, s') && Committed(s, t, k)
    ensures Committed(s', t, k)
  {
    assert Ackers(s, t, k) <= Ackers(s', t, k);
    SubsetSize(Ackers(s, t, k), Ackers(s', t, k));
  }

  lemma CommittedByStable(s: Spec, s': Spec, t: nat, t': nat, log: Log)
    requires Extends(s, s') && t <= t' && CommittedBy(s, t, log)
    ensures CommittedBy(s', t', log)
  {
    if log != [] {
      var u: nat, k: nat :| u <= t && CommittedVia(s, log, u, k);
      CommittedStable(s, s', u, k);
      PrefixTrans(log, s.reigns[u].log, s'.reigns[u].log);
      assert CommittedVia(s', log, u, k);
    }
  }

  lemma KeptStable(s: Spec, s': Spec, x: Log, t: nat, log: Log, bound: nat, bound': nat)
    requires Extends(s, s') && Kept(s, x, t, log, bound) && bound <= bound'
    ensures Kept(s', x, t, log, bound')
  {
    if !(x <= log) {
      var u :| t < u < bound && Lacks(s, u, x);
      assert Lacks(s', u, x);
    }
  }

  // ---------------------------------------------------------------- consequences of the invariant

  /** Terms never decrease along a log. */
  lemma TermsMonotone(s: Spec, log: Log, i: nat, j: nat)
    requires ReignsOK(s) && LogOK(s, log) && i <= j < |log|
    ensures log[i].term <= log[j].term
  {
    var t := log[j].term;
    var r := s.reigns[t];
    assert log[i] == log[..j + 1][i] == r.log[i];
    assert ReignOK(s, t);
    if i < |r.base| {
      assert r.log[i] == r.base[i];
    }
  }

  /** Log Matching. */
  lemma LogMatching(s: Spec, a: Log, b: Log, k: nat)
    requires LogOK(s, a) && LogOK(s, b) && k <= |a| && k <= |b| && TermAt(a, k) == TermAt(b, k)
    ensures a[..k] == b[..k]
  {
    if k > 0 {
      var t := a[k - 1].term;
      assert a[..k - 1 + 1] <= s.reigns[t].log && b[..k - 1 + 1] <= s.reigns[t].log;
      assert a[..k] == s.reigns[t].log[..k] == b[..k];
    }
  }

  /** A quorum of term t's votes can only be for the leader of term t. */
  lemma QuorumBacksLeader(s: Spec, t: nat, p: nat, voters: set<nat>)
    requires ReignsOK(s) && t in s.reigns
    requires IsQuorum(|s.nodes|, voters) && voters <= Supporters(s, t, p)
    ensures s.reigns[t].id == p
  {
    assert ReignOK(s, t);
    var q := Intersect(|s.nodes|, voters, s.reigns[t].voters.Keys);
    assert VoterOK(s, t, q);
  }

  /** One leader per term: a candidate with a quorum is the first to lead its term. */
  lemma OneLeader(s: Spec, p: nat, voters: set<nat>)
    requires ReignsOK(s) && NodesOK(s) && CanElect(s, p, voters)
    ensures s.nodes[p].term !in s.reigns
  {
    assert NodeOK(s, p);
    if s.nodes[p].term in s.reigns {
      QuorumBacksLeader(s, s.nodes[p].term, p, voters);
    }
  }

  /** Of two logs ending in the same term the shorter one is a prefix of the longer one. */
  lemma SameLastTerm(s: Spec, base: Log, voter: Log)
    requires LogOK(s, base) && LogOK(s, voter)
    requires 0 < |voter| <= |base| && LastTerm(base) == LastTerm(voter)
    ensures voter <= base
  {
    var t := LastTerm(voter);
    assert base == base[..|base| - 1 + 1] && voter == voter[..|voter| - 1 + 1];
    PrefixesComparable(voter, base, s.reigns[t].log);
  }

  /** If the log of term u's leader starts with x, whose terms are below u, then so does any log ending in term u. */
  lemma LaterTermHas(s: Spec, u: nat, x: Log, base: Log)
    requires ReignsOK(s) && LogOK(s, base) && base != [] && LastTerm(base) == u && u in s.reigns
    requires x <= s.reigns[u].base
    ensures x <= base
  {
    var r := s.reigns[u];
    assert ReignOK(s, u);
    assert base == base[..|base| - 1 + 1] && base[|base| - 1] == r.log[|base| - 1];
    assert forall i :: 0 <= i < |r.base| ==> r.log[i] == r.base[i];
    assert |r.base| < |base|;
    PrefixTrans(x, r.base, r.log);
    PrefixesComparable(x, base, r.log);
  }

  /** An elected leader's log holds whatever its voter's log holds up to an entry of term t,
      provided every leader of a term between t and its own was elected with it. */
  lemma UpToDateHas(s: Spec, t: nat, x: Log, base: Log, voter: Log, t': nat)
    requires ReignsOK(s) && LogOK(s, base) && LogOK(s, voter) && UpToDate(base, voter) && TermsBelow(base, t')
    requires x != [] && x[|x| - 1].term == t && x <= voter
    requires forall u :: t < u < t' ==> !Lacks(s, u, x)
    ensures x <= base
  {
    TermsMonotone(s, voter, |x| - 1, |voter| - 1);
    assert voter[|x| - 1] == x[|x| - 1];
    assert LastTerm(voter) >= 1;
    if LastTerm(base) == LastTerm(voter) {
      SameLastTerm(s, base, voter);
      PrefixTrans(x, voter, base);
    } else {
      var u := base[|base| - 1].term;
      assert !Lacks(s, u, x);
      LaterTermHas(s, u, x, base);
    }
  }

  /** Leader Completeness: what was committed in term t is in the log every later leader was elected with. */
  lemma {:induction false} LeaderCompleteness(s: Spec, t: nat, k: nat, t': nat)
    requires ReignsOK(s) && Committed(s, t, k) && t < t' && t' in s.reigns
    ensures s.reigns[t].log[..k] <= s.reigns[t'].base
    decreases t'
  {
    var x := s.reigns[t].log[..k];
    var r := s.reigns[t'];
    assert ReignOK(s, t');
    var q := Intersect(|s.nodes|, Ackers(s, t, k), r.voters.Keys);
    assert VoterOK(s, t', q);
    assert HasAck(s, t, q, k);
    var a :| a in s.acks && a.term == t && a.peer == q && a.index >= k;
    assert Kept(s, s.reigns[a.term].log[..k], a.term, r.voters[q], t');
    forall u | t < u < t' ensures !Lacks(s, u, x) {
      if u in s.reigns {
        LeaderCompleteness(s, t, k, u);
      }
    }
    LogOKPrefix(s, r.log, |r.base|);
    assert r.log[..|r.base|] == r.base;
    UpToDateHas(s, t, x, r.base, r.voters[q], t');
  }

  /** What is committed up to term t is in the log of term t's leader. */
  lemma CommittedInLeader(s: Spec, t: nat, log: Log)
    requires ReignsOK(s) && t in s.reigns && CommittedBy(s, t, log)
    ensures log <= s.reigns[t].log
  {
    if log != [] {
      var u: nat, k: nat :| u <= t && CommittedVia(s, log, u, k);
      if u < t {
        LeaderCompleteness(s, u, k, t);
        assert ReignOK(s, t);
        PrefixesComparable(log, s.reigns[u].log[..k], s.reigns[u].log);
        PrefixTrans(log, s.reigns[u].log[..k], s.reigns[t].base);
        PrefixTrans(log, s.reigns[t].base, s.reigns[t].log);
      }
    }
  }

  /** State machine safety on logs: any two committed prefixes are comparable. */
  lemma CommittedComparable(s: Spec, t: nat, a: Log, t': nat, b: Log)
    requires ReignsOK(s) && CommittedBy(s, t, a) && CommittedBy(s, t', b) && |a| <= |b|
    ensures a <= b
  {
    if a != [] {
      var u: nat, k: nat :| u <= t && CommittedVia(s, a, u, k);
      var u': nat, k': nat :| u' <= t' && CommittedVia(s, b, u', k');
      var top := Max(u, u');
      assert CommittedBy(s, top, a) && CommittedBy(s, top, b);
      CommittedInLeader(s, top, a);
      CommittedInLeader(s, top, b);
      PrefixesComparable(a, b, s.reigns[top].log);
    }
  }
}
