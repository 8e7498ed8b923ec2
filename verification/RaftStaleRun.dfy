/** A run of three peers and their services that breaks State Machine Safety for snapshots. Peer 1 accepts a snapshot of
    nine commands while its applier is sending command ten; its service forgets command ten, later makes a snapshot
    with a hole in its place, and after a restart is handed that snapshot. */
module RaftStaleRun {
  import opened RaftTypes
  import opened Quorums
  import opened RaftPeer
  import opened RaftService
  import opened RaftSystem
  import opened RaftStaleness
  import S = RaftSafety
  import C = RaftCluster

  ghost predicate Reachable(s: System) {
    exists run, steps :: IsRun(run, steps) && Last(run) == s
  }

  lemma Follow(s: System, st: C.Step) returns (s': System)
    requires Reachable(s) && Enabled(s, st)
    ensures Reachable(s') && Next(s, st, s')
    ensures s.cluster.delivered <= s'.cluster.delivered && s.cluster.net <= s'.cluster.net
  {
    var run, steps :| IsRun(run, steps) && Last(run) == s;
    var run' := Extend(run, steps, st);
    s' := Last(run');
  }

  const SENTINEL := LogEntry(0, Nil)
  const NEW := Server(EMPTY, NoRequest)

  function Entries(cs: seq<Command>): Log {
    seq(|cs|, i requires 0 <= i < |cs| => LogEntry(1, cs[i]))
  }

  function LogOf(cs: seq<Command>): Log {
    [SENTINEL] + Entries(cs)
  }

  function Fresh(me: nat): Peer {
    Peer(3, me, 0, -1, [SENTINEL], 0, 0, 0, 0, [0, 0, 0], [0, 0, 0], Follower, 0, {}, [], 0, 0, Disk(Unsaved, []))
  }

  /** Peer 0 as leader of term 1. */
  function Lead(log: Log, commit: nat, applied: nat, next: seq<int>, matched: seq<nat>): Peer {
    Peer(3, 0, 1, 0, log, 0, 0, commit, applied, next, matched, Leader, 2, {1}, [], 0, 0,
         Disk(Saved(1, 0, log, 0, 0), []))
  }

  /** Peer 1 or 2 as follower in term 1. */
  function Followed(me: nat, vote: int, log: Log, commit: nat, applied: nat): Peer {
    Peer(3, me, 1, vote, log, 0, 0, commit, applied, [0, 0, 0], [0, 0, 0], Follower, 0, {}, [], 0, 0,
         Disk(Saved(1, vote, log, 0, 0), []))
  }

  function Resting(r: Peer): C.Host {
    C.Host(r, Idle, [])
  }

  /** Reachable with these peers, before any delivery. */
  ghost predicate Quiet(s: System, a: Peer, b: Peer, c: Peer) {
    Reachable(s) && s.cluster.hosts == [Resting(a), Resting(b), Resting(c)] && s.servers == [NEW, NEW, NEW]
  }

  // ---------------------------------------------------------------- an election

  const ASKED := RequestVoteArgs(1, 0, 0, 0)

  function Running(): Peer {
    Peer(3, 0, 1, 0, [SENTINEL], 0, 0, 0, 0, [0, 0, 0], [0, 0, 0], Candidate, 1, {1, 2}, [], 0, 0,
         Disk(Saved(1, 0, [SENTINEL], 0, 0), []))
  }

  lemma Begins() returns (s: System)
    ensures Quiet(s, Fresh(0), Fresh(1), Fresh(2))
  {
    var c := C.Cluster([Resting(Fresh(0)), Resting(Fresh(1)), Resting(Fresh(2))], {}, {});
    assert C.Init(c) by {
      forall p: nat | p < 3 ensures c.hosts[p] == C.FreshHost(3, p, Disk(Unsaved, [])) {
        assert Make(3, p, Disk(Unsaved, [])) == Fresh(p);
      }
    }
    s := System(c, [NEW, NEW, NEW]);
    assert s.servers == seq(3, _ => Started([]));
    assert IsRun([s], []) && Last([s]) == s;
  }

  lemma Asks(s: System) returns (s': System)
    requires Quiet(s, Fresh(0), Fresh(1), Fresh(2))
    ensures Quiet(s', Running(), Fresh(1), Fresh(2)) && C.VoteRequest(2, ASKED) in s'.cluster.net
  {
    s' := Follow(s, C.Timeout(0));
    assert 2 in Peers(3);
    assert Peers(3) - {0} == {1, 2};
    assert StartElection(Fresh(0)) == (Running(), ASKED);
  }

  lemma Votes(s: System) returns (s': System)
    requires Quiet(s, Running(), Fresh(1), Fresh(2)) && C.VoteRequest(2, ASKED) in s.cluster.net
    ensures Quiet(s', Running(), Fresh(1), Followed(2, 0, [SENTINEL], 0, 0))
    ensures C.VoteReply(2, ASKED, RequestVoteReply(1, true)) in s'.cluster.net
  {
    s' := Follow(s, C.ReceiveVote(C.VoteRequest(2, ASKED)));
    assert RequestVote(Fresh(2), ASKED) == (Followed(2, 0, [SENTINEL], 0, 0), RequestVoteReply(1, true));
  }

  lemma Wins(s: System) returns (s': System)
    requires Quiet(s, Running(), Fresh(1), Followed(2, 0, [SENTINEL], 0, 0))
    requires C.VoteReply(2, ASKED, RequestVoteReply(1, true)) in s.cluster.net
    ensures Quiet(s', Lead(LogOf([]), 0, 0, [1, 1, 1], [0, 0, 0]), Fresh(1), Followed(2, 0, [SENTINEL], 0, 0))
  {
    s' := Follow(s, C.ReceiveVoteReply(C.VoteReply(2, ASKED, RequestVoteReply(1, true))));
    assert LogOf([]) == [SENTINEL];
    assert OnVoteReply(Running(), 2, 1, RequestVoteReply(1, true)) == Lead(LogOf([]), 0, 0, [1, 1, 1], [0, 0, 0]);
  }

  // ---------------------------------------------------------------- commands, committed with peer 2

  /** Peer 0 with commands cs, of which it knows the first k to be stored by peer 2. */
  function Leading(cs: seq<Command>, k: nat): Peer {
    Lead(LogOf(cs), k, 0, [|cs| + 1, 1, k + 1], [|cs|, 0, k])
  }

  lemma StartOne(s: System, cs: seq<Command>, c: Command, one: Peer, two: Peer) returns (s': System)
    requires Quiet(s, Leading(cs, 0), one, two)
    ensures Quiet(s', Leading(cs + [c], 0), one, two)
  {
    s' := Follow(s, C.ClientStart(0, c));
    var r := Leading(cs, 0);
    var r' := Leading(cs + [c], 0);
    assert r.log + [LogEntry(1, c)] == r'.log;
    assert r.nextIndex[0 := |cs| + 2] == r'.nextIndex && r.matchIndex[0 := |cs| + 1] == r'.matchIndex;
    assert Start(r, c).0 == r';
  }

  lemma {:induction false} StartAll(s: System, cs: seq<Command>, k: nat) returns (s': System)
    requires k <= |cs| && Quiet(s, Leading(cs[..k], 0), Fresh(1), Followed(2, 0, [SENTINEL], 0, 0))
    ensures Quiet(s', Leading(cs, 0), Fresh(1), Followed(2, 0, [SENTINEL], 0, 0))
    decreases |cs| - k
  {
    if k == |cs| {
      assert cs[..k] == cs;
      s' := s;
    } else {
      s' := StartOne(s, cs[..k], cs[k], Fresh(1), Followed(2, 0, [SENTINEL], 0, 0));
      assert cs[..k] + [cs[k]] == cs[..k + 1];
      s' := StartAll(s', cs, k + 1);
    }
  }

  function Carrying(cs: seq<Command>, commit: nat): AppendEntriesArgs {
    AppendEntriesArgs(1, 0, 0, 0, Entries(cs), commit)
  }

  const STORED := AppendEntriesReply(1, true, -1, -1, 1)

  lemma Sends(s: System, cs: seq<Command>, k: nat, b: Peer, c: Peer, to: nat) returns (s': System)
    requires Quiet(s, Leading(cs, k), b, c) && 0 < to < 3 && (to == 2 ==> k == 0)
    ensures Quiet(s', Leading(cs, k), b, c) && C.AppendRequest(to, Carrying(cs, k)) in s'.cluster.net
  {
    s' := Follow(s, C.Replicate(0, to));
    assert LogOf(cs)[1..] == Entries(cs);
    assert ReplicateTo(Leading(cs, k), to) == OutAppend(Carrying(cs, k));
  }

  lemma StoresAll(f: Peer, cs: seq<Command>)
    requires f.log == [SENTINEL] && f.lastIncludedIndex == 0 && WellFormed(f) && cs != []
    ensures MergeEntries(f.log, 1, Entries(cs)) == LogOf(cs)
  {
  }

  lemma Stores(s: System, cs: seq<Command>) returns (s': System)
    requires Quiet(s, Leading(cs, 0), Fresh(1), Followed(2, 0, [SENTINEL], 0, 0)) && cs != []
    requires C.AppendRequest(2, Carrying(cs, 0)) in s.cluster.net
    ensures Quiet(s', Leading(cs, 0), Fresh(1), Followed(2, 0, LogOf(cs), 0, 0))
    ensures C.AppendReply(2, Carrying(cs, 0), STORED) in s'.cluster.net
  {
    s' := Follow(s, C.ReceiveAppend(C.AppendRequest(2, Carrying(cs, 0))));
    var f := Followed(2, 0, [SENTINEL], 0, 0);
    StoresAll(f, cs);
    assert AppendEntries(f, Carrying(cs, 0)) == (Followed(2, 0, LogOf(cs), 0, 0), STORED);
  }

  lemma CommitsAll(cs: seq<Command>)
    requires cs != []
    ensures var n := |cs|;
            AdvanceCommit(Lead(LogOf(cs), 0, 0, [n + 1, 1, n + 1], [n, 0, n])) == Leading(cs, n)
  {
    var n := |cs|;
    var m: seq<nat> := [n, 0, n];
    assert CountMatches(m, 0, n, 1) == 0;
    assert CountMatches(m, 0, n, 2) == 0;
    assert CountMatches(m, 0, n, 3) == 1;
  }

  lemma Commits(s: System, cs: seq<Command>) returns (s': System)
    requires Quiet(s, Leading(cs, 0), Fresh(1), Followed(2, 0, LogOf(cs), 0, 0)) && cs != []
    requires C.AppendReply(2, Carrying(cs, 0), STORED) in s.cluster.net
    ensures Quiet(s', Leading(cs, |cs|), Fresh(1), Followed(2, 0, LogOf(cs), 0, 0))
  {
    s' := Follow(s, C.ReceiveAppendReply(C.AppendReply(2, Carrying(cs, 0), STORED)));
    CommitsAll(cs);
    var r, n := Leading(cs, 0), |cs|;
    assert r.nextIndex[2 := n + 1] == [n + 1, 1, n + 1] && r.matchIndex[2 := n] == [n, 0, n];
    assert OnAppendReply(r, 2, Carrying(cs, 0), STORED) == Leading(cs, n);
  }

  lemma CatchesUp(s: System, cs: seq<Command>) returns (s': System)
    requires Quiet(s, Leading(cs, |cs|), Fresh(1), Followed(2, 0, LogOf(cs), 0, 0)) && cs != []
    requires C.AppendRequest(1, Carrying(cs, |cs|)) in s.cluster.net
    ensures Quiet(s', Leading(cs, |cs|), Followed(1, -1, LogOf(cs), |cs|, 0), Followed(2, 0, LogOf(cs), 0, 0))
  {
    s' := Follow(s, C.ReceiveAppend(C.AppendRequest(1, Carrying(cs, |cs|))));
    StoresAll(Fresh(1), cs);
    assert AppendEntries(Fresh(1), Carrying(cs, |cs|)).0 == Followed(1, -1, LogOf(cs), |cs|, 0);
  }

  /** All commands are committed, and peers 0 and 1 know it. */
  lemma Replicated(cs: seq<Command>) returns (s: System)
    requires cs != []
    ensures Quiet(s, Leading(cs, |cs|), Followed(1, -1, LogOf(cs), |cs|, 0), Followed(2, 0, LogOf(cs), 0, 0))
  {
    s := Begins();
    s := Asks(s);
    s := Votes(s);
    s := Wins(s);
    assert cs[..0] == [];
    s := StartAll(s, cs, 0);
    s := Sends(s, cs, 0, Fresh(1), Followed(2, 0, [SENTINEL], 0, 0), 2);
    s := Stores(s, cs);
    s := Commits(s, cs);
    s := Sends(s, cs, |cs|, Fresh(1), Followed(2, 0, LogOf(cs), 0, 0), 1);
    s := CatchesUp(s, cs);
  }

  // ---------------------------------------------------------------- deliveries

  function Message(cs: seq<Command>, k: nat): C.ApplyMsg
    requires 1 <= k <= |cs|
  {
    C.CommandMsg(k, cs[k - 1])
  }

  /** A server after commands lo + 1 to hi were delivered to it. */
  function Fed(srv: Server, cs: seq<Command>, lo: nat, hi: nat): Server
    requires lo <= hi <= |cs|
  {
    if lo == hi then srv
    else
      var (service, _, request) := OnMessage(Fed(srv, cs, lo, hi - 1).service, Message(cs, hi));
      Server(service, request)
  }

  /** Host h, at rest and having applied k commands, can deliver the next one. */
  predicate Ready(h: C.Host, cs: seq<Command>, k: nat) {
    && WellFormed(h.raft) && h.phase == Idle && h.raft.pendingSnapshot == []
    && h.raft.lastIncludedIndex <= k == h.raft.lastApplied < h.raft.commitIndex <= LastLogIndex(h.raft)
    && |h.view| == k < |cs| && h.raft.log[k + 1 - h.raft.lastIncludedIndex].command == cs[k]
  }

  lemma DeliverOne(s: System, p: nat, cs: seq<Command>, k: nat) returns (s': System)
    requires Reachable(s) && p < |s.cluster.hosts| == |s.servers| && Ready(s.cluster.hosts[p], cs, k)
    requires s.servers[p].request == NoRequest
    ensures Reachable(s') && s.cluster.delivered <= s'.cluster.delivered
    ensures var h := s.cluster.hosts[p];
            && s'.cluster.hosts == s.cluster.hosts[p := C.Host(h.raft.(lastApplied := k + 1), Idle, h.view + [cs[k]])]
            && s'.servers == s.servers[p := Fed(s.servers[p], cs, k, k + 1)]
  {
    var h := s.cluster.hosts[p];
    var taken := Follow(s, C.Take(p));
    assert ApplierTake(h.raft) == (h.raft, SendingCommand(k + 1, cs[k]));
    var sent := Follow(taken, C.Deliver(p));
    assert Fed(s.servers[p], cs, k, k) == s.servers[p];
    s' := Follow(sent, C.Relock(p));
  }

  /** Host h can deliver commands lo + 1 to hi, and its service snapshots at none of them but the last. */
  predicate ReadyTo(h: C.Host, cs: seq<Command>, lo: nat, hi: nat) {
    && WellFormed(h.raft) && h.phase == Idle && h.raft.pendingSnapshot == []
    && h.raft.lastIncludedIndex <= lo == h.raft.lastApplied <= hi <= h.raft.commitIndex <= LastLogIndex(h.raft)
    && |h.view| == lo && h.view <= cs && hi <= |cs|
    && (forall k :: lo <= k < hi ==> h.raft.log[k + 1 - h.raft.lastIncludedIndex].command == cs[k])
    && (forall k :: lo < k < hi ==> !SnapshotsAt(k))
  }

  lemma {:induction false} DeliverMany(s: System, p: nat, cs: seq<Command>, lo: nat, hi: nat) returns (s': System)
    requires Reachable(s) && p < |s.cluster.hosts| == |s.servers| && ReadyTo(s.cluster.hosts[p], cs, lo, hi)
    requires s.servers[p].request == NoRequest
    ensures Reachable(s') && s.cluster.delivered <= s'.cluster.delivered
    ensures s'.cluster.hosts
         == s.cluster.hosts[p := C.Host(s.cluster.hosts[p].raft.(lastApplied := hi), Idle, cs[..hi])]
    ensures s'.servers == s.servers[p := Fed(s.servers[p], cs, lo, hi)]
    decreases hi
  {
    var h := s.cluster.hosts[p];
    if lo == hi {
      assert h.view == cs[..hi];
      s' := s;
    } else {
      var mid := DeliverMany(s, p, cs, lo, hi - 1);
      assert mid.servers[p].request == NoRequest;
      s' := DeliverOne(mid, p, cs, hi - 1);
      assert cs[..hi - 1] + [cs[hi - 1]] == cs[..hi];
      assert Fed(mid.servers[p], cs, hi - 1, hi) == Fed(s.servers[p], cs, lo, hi) by {
        assert Fed(mid.servers[p], cs, hi - 1, hi - 1) == mid.servers[p];
      }
    }
  }

  /** Fed from the start, a service knows what it was fed. */
  lemma {:induction false} FedInSync(cs: seq<Command>, k: nat)
    requires k <= |cs|
    ensures InSync(Fed(NEW, cs, 0, k).service, cs[..k])
    ensures k > 0 && SnapshotsAt(k) ==>
              Fed(NEW, cs, 0, k).request == MakeSnapshot(k, EncodeView(cs[..k]))
    decreases k
  {
    if k > 0 {
      FedInSync(cs, k - 1);
      StaysInSync(Fed(NEW, cs, 0, k - 1).service, cs[..k - 1], Message(cs, k));
      assert cs[..k - 1] + [cs[k - 1]] == cs[..k];
    }
  }

  /** What was lost before stays lost. */
  lemma {:induction false} FedHole(srv: Server, cs: seq<Command>, lo: nat, hi: nat, j: nat)
    requires j <= lo < hi <= |cs| && Lookup(srv.service.log, j) == Nil
    ensures Lookup(Fed(srv, cs, lo, hi).service.log, j) == Nil
    ensures SnapshotsAt(hi) ==>
              var request := Fed(srv, cs, lo, hi).request;
              request.MakeSnapshot? && request.index == hi && |Data(request)| == hi && (j > 0 ==> Data(request)[j - 1] == Nil)
    decreases hi
  {
    if hi - 1 > lo {
      FedHole(srv, cs, lo, hi - 1, j);
    } else {
      assert Fed(srv, cs, lo, hi - 1) == srv;
    }
    var last := Fed(srv, cs, lo, hi);
    assert Lookup(last.service.log, j) == Nil;
    if SnapshotsAt(hi) && j > 0 {
      assert Data(last.request)[j - 1] == Dump(last.service.log, hi)[j];
    }
  }

  // ---------------------------------------------------------------- the leader snapshots nine commands and ships them

  /** The log after compaction at index 9. */
  function Rest(cs: seq<Command>): Log
    requires |cs| >= 9
  {
    [LogEntry(1, Nil)] + Entries(cs[9..])
  }

  lemma RestOfLog(cs: seq<Command>)
    requires |cs| >= 9
    ensures [LogEntry(1, Nil)] + LogOf(cs)[10..] == Rest(cs) && LogOf(cs)[9].term == 1
  {
  }

  function Compacted(cs: seq<Command>): Peer
    requires |cs| >= 9
  {
    var n := |cs|;
    Peer(3, 0, 1, 0, Rest(cs), 9, 1, n, 9, [n + 1, 1, n + 1], [n, 0, n], Leader, 2, {1}, [], 0, 0,
         Disk(Saved(1, 0, Rest(cs), 9, 1), cs[..9]))
  }

  function Shipped(cs: seq<Command>): InstallSnapshotArgs
    requires |cs| >= 9
  {
    InstallSnapshotArgs(1, 0, 9, 1, cs[..9])
  }

  lemma Compacts(s: System, cs: seq<Command>) returns (s': System)
    requires |cs| == 19 && Reachable(s) && |s.cluster.hosts| == |s.servers| == 3
    requires s.cluster.hosts[0] == Resting(Leading(cs, 19)) && s.servers[0] == NEW
    ensures Reachable(s') && s.cluster.delivered <= s'.cluster.delivered
    ensures s'.cluster.hosts == s.cluster.hosts[0 := C.Host(Compacted(cs), Idle, cs[..9])]
    ensures |s'.servers| == 3 && s'.servers[1..] == s.servers[1..]
  {
    LeaderReady(cs);
    var fed := DeliverMany(s, 0, cs, 0, 9);
    s' := SavesLeader(fed, cs);
  }

  lemma LeaderReady(cs: seq<Command>)
    requires |cs| == 19
    ensures ReadyTo(Resting(Leading(cs, 19)), cs, 0, 9)
  {
  }

  lemma SavesLeader(s: System, cs: seq<Command>) returns (s': System)
    requires |cs| == 19 && Reachable(s) && |s.cluster.hosts| == |s.servers| == 3
    requires s.cluster.hosts[0] == C.Host(Leading(cs, 19).(lastApplied := 9), Idle, cs[..9])
    requires s.servers[0] == Fed(NEW, cs, 0, 9)
    ensures Reachable(s') && s.cluster.delivered <= s'.cluster.delivered
    ensures s'.cluster.hosts == s.cluster.hosts[0 := C.Host(Compacted(cs), Idle, cs[..9])]
    ensures |s'.servers| == 3 && s'.servers[1..] == s.servers[1..]
  {
    NineRequested(cs);
    s' := Follow(s, C.ServiceSnapshot(0, 9));
    SnapshotNine(cs);
  }

  lemma NineRequested(cs: seq<Command>)
    requires |cs| >= 9
    ensures var request := Fed(NEW, cs, 0, 9).request;
            request.MakeSnapshot? && request.index == 9 && Data(request) == cs[..9]
  {
    FedInSync(cs, 9);
    assert ([Nil] + cs[..9])[1..] == cs[..9];
  }

  lemma SnapshotNine(cs: seq<Command>)
    requires |cs| == 19
    ensures Snapshot(Leading(cs, 19).(lastApplied := 9), 9, cs[..9]) == Compacted(cs)
  {
    RestOfLog(cs);
  }

  lemma Ships(s: System, cs: seq<Command>) returns (s': System)
    requires |cs| == 19 && Reachable(s) && |s.cluster.hosts| == |s.servers| == 3
    requires s.cluster.hosts[0].raft == Compacted(cs)
    ensures Reachable(s') && s'.cluster.hosts == s.cluster.hosts && s'.servers == s.servers
    ensures s.cluster.delivered <= s'.cluster.delivered
    ensures C.InstallRequest(1, Shipped(cs)) in s'.cluster.net
  {
    s' := Follow(s, C.Replicate(0, 1));
    assert ReplicateTo(Compacted(cs), 1) == OutInstall(Shipped(cs));
  }

  // ---------------------------------------------------------------- peer 1 installs it while sending command ten

  /** Peer 1 with the snapshot installed. */
  function Installed(cs: seq<Command>): Peer
    requires |cs| >= 9
  {
    Peer(3, 1, 1, -1, Rest(cs), 9, 1, |cs|, 9, [0, 0, 0], [0, 0, 0], Follower, 0, {}, cs[..9], 9, 1,
         Disk(Saved(1, -1, Rest(cs), 9, 1), cs[..9]))
  }

  lemma InstallsNine(cs: seq<Command>)
    requires |cs| == 19
    ensures InstallSnapshot(Followed(1, -1, LogOf(cs), 19, 9), Shipped(cs)).0 == Installed(cs)
  {
    RestOfLog(cs);
  }

  /** The applier holds command ten while the service is still in Snapshot(9); then the install arrives. */
  lemma Installs(s: System, cs: seq<Command>) returns (s': System)
    requires |cs| == 19 && Reachable(s) && |s.cluster.hosts| == |s.servers| == 3
    requires s.cluster.hosts[0].raft == Compacted(cs)
    requires s.cluster.hosts[1] == C.Host(Followed(1, -1, LogOf(cs), 19, 9), Idle, cs[..9])
    ensures Reachable(s') && s'.servers == s.servers && C.InstallRequest(1, Shipped(cs)) in s'.cluster.net
    ensures s'.cluster.hosts == s.cluster.hosts[1 := C.Host(Installed(cs), SendingCommand(10, cs[9]), cs[..9])]
  {
    var taken := Follow(s, C.Take(1));
    assert ApplierTake(Followed(1, -1, LogOf(cs), 19, 9))
        == (Followed(1, -1, LogOf(cs), 19, 9), SendingCommand(10, cs[9]));
    var shipped := Ships(taken, cs);
    s' := Follow(shipped, C.ReceiveInstall(C.InstallRequest(1, Shipped(cs))));
    InstallsNine(cs);
  }

  // ---------------------------------------------------------------- the stale delivery

  /** The service of peer 1 gets out of Snapshot(9), which Raft ignores, and receives command ten. */
  lemma SendsTen(s: System, cs: seq<Command>) returns (s': System)
    requires |cs| == 19 && Reachable(s) && |s.cluster.hosts| == |s.servers| == 3
    requires s.cluster.hosts[1] == C.Host(Installed(cs), SendingCommand(10, cs[9]), cs[..9])
    requires s.servers[1] == Fed(NEW, cs, 0, 9)
    ensures Reachable(s') && |s'.cluster.hosts| == |s'.servers| == 3
    ensures s'.cluster.hosts[1] == C.Host(Installed(cs).(lastApplied := 10), Idle, cs[..10])
    ensures s'.servers[1].request == NoRequest && s.cluster.net <= s'.cluster.net
    ensures C.Delivery(1, C.CommandMsg(10, cs[9])) in s'.cluster.delivered
  {
    FedInSync(cs, 9);
    var free := Follow(s, C.ServiceSnapshot(1, 9));
    assert free.cluster.hosts[1] == s.cluster.hosts[1];
    var sent := Follow(free, C.Deliver(1));
    assert cs[..9] + [cs[9]] == cs[..10];
    s' := Follow(sent, C.Relock(1));
  }

  /** What the service knows after it was taken back to nine commands. */
  function Lost(cs: seq<Command>): Service
    requires |cs| >= 9
  {
    Service(Slots([Nil] + cs[..9]), 9)
  }

  lemma TakesBack(s: System, cs: seq<Command>) returns (s': System)
    requires |cs| == 19 && Reachable(s) && |s.cluster.hosts| == |s.servers| == 3
    requires s.cluster.hosts[1] == C.Host(Installed(cs).(lastApplied := 10), Idle, cs[..10])
    requires s.servers[1].request == NoRequest
    ensures Reachable(s') && |s'.cluster.hosts| == |s'.servers| == 3 && s.cluster.delivered <= s'.cluster.delivered
    ensures s'.cluster.hosts[1] == C.Host(Installed(cs).(lastApplied := 10, pendingSnapshot := []), Idle, cs[..10])
    ensures s'.servers[1] == Server(Lost(cs), NoRequest) && s.cluster.net <= s'.cluster.net
  {
    var taken := Follow(s, C.Take(1));
    var sent := Follow(taken, C.Deliver(1));
    s' := Follow(sent, C.Relock(1));
  }

  // ---------------------------------------------------------------- the snapshot with a hole

  /** Nineteen commands and no memory of the tenth. */
  predicate Holed(data: seq<Command>) {
    |data| == 19 && data[9] == Nil
  }

  lemma SavesHole(s: System, cs: seq<Command>) returns (s': System)
    requires |cs| == 19 && Reachable(s) && |s.cluster.hosts| == |s.servers| == 3
    requires s.cluster.hosts[1] == C.Host(Installed(cs).(lastApplied := 10, pendingSnapshot := []), Idle, cs[..10])
    requires s.servers[1] == Server(Lost(cs), NoRequest)
    ensures Reachable(s') && |s'.cluster.hosts| == |s'.servers| == 3 && s.cluster.delivered <= s'.cluster.delivered
    ensures Holed(s'.cluster.hosts[1].raft.disk.snapshot)
    ensures s'.cluster.hosts[1].raft.disk.raftstate == Saved(1, -1, [LogEntry(1, Nil)], 19, 1)
  {
    assert ReadyTo(s.cluster.hosts[1], cs, 10, 19) by {
      assert forall k :: 10 <= k < 19 ==> Rest(cs)[k + 1 - 9].command == cs[9..][k - 9] == cs[k];
    }
    var fed := DeliverMany(s, 1, cs, 10, 19);
    FedHole(s.servers[1], cs, 10, 19, 10);
    s' := Follow(fed, C.ServiceSnapshot(1, 19));
    assert [LogEntry(1, Nil)] + Rest(cs)[11..] == [LogEntry(1, Nil)];
  }

  lemma DeliversHole(s: System) returns (s': System, data: seq<Command>)
    requires Reachable(s) && |s.cluster.hosts| == |s.servers| == 3
    requires Holed(s.cluster.hosts[1].raft.disk.snapshot)
    requires s.cluster.hosts[1].raft.disk.raftstate == Saved(1, -1, [LogEntry(1, Nil)], 19, 1)
    ensures Reachable(s') && s.cluster.delivered <= s'.cluster.delivered
    ensures Holed(data) && C.Delivery(1, C.SnapshotMsg(19, 1, data)) in s'.cluster.delivered
  {
    data := s.cluster.hosts[1].raft.disk.snapshot;
    var restarted := Follow(s, C.Crash(1));
    var taken := Follow(restarted, C.Take(1));
    s' := Follow(taken, C.Deliver(1));
  }

  lemma NineThenTen(cs: seq<Command>) returns (s: System)
    requires |cs| == 19
    ensures Reachable(s) && |s.cluster.hosts| == |s.servers| == 3
    ensures s.cluster.hosts[1] == C.Host(Installed(cs).(lastApplied := 10), Idle, cs[..10])
    ensures s.servers[1].request == NoRequest
    ensures C.Delivery(1, C.CommandMsg(10, cs[9])) in s.cluster.delivered
    ensures C.InstallRequest(1, Shipped(cs)) in s.cluster.net
  {
    s := Replicated(cs);
    s := Compacts(s, cs);
    s := DeliverMany(s, 1, cs, 0, 9);
    s := Installs(s, cs);
    s := SendsTen(s, cs);
  }

  /** A run in which one peer delivers command ten, and later a snapshot of nineteen commands without it: the
      snapshot half of State Machine Safety fails, in a system whose services are the repository's own. */
  lemma SafetyFails(cs: seq<Command>) returns (run: seq<System>, steps: seq<C.Step>, d: C.Delivery, e: C.Delivery)
    requires |cs| == 19 && cs[9] != Nil
    ensures IsRun(run, steps) && d in Last(run).cluster.delivered && e in Last(run).cluster.delivered
    ensures d == C.Delivery(1, C.CommandMsg(10, cs[9]))
    ensures e.peer == 1 && e.msg.SnapshotMsg? && e.msg.index == 19 && Holed(e.msg.data)
    ensures !S.Consistent(d.msg, e.msg)
  {
    var s := NineThenTen(cs);
    s := TakesBack(s, cs);
    s := SavesHole(s, cs);
    var data;
    s, data := DeliversHole(s);
    d, e := C.Delivery(1, C.CommandMsg(10, cs[9])), C.Delivery(1, C.SnapshotMsg(19, 1, data));
    run, steps :| IsRun(run, steps) && Last(run) == s;
  }
}
