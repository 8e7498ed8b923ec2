/** Raft never looks into a snapshot: whatever the services put into their snapshots, a run of the system is, up to
    the contents of snapshots, a run of the cluster. */
module RaftShadow {
  import opened RaftTypes
  import opened Quorums
  import opened RaftPeer
  import opened RaftService
  import opened RaftSystem
  import D = RaftDelivery
  import C = RaftCluster

  // ---------------------------------------------------------------- equal up to the contents of snapshots

  predicate AlikePeer(r: Peer, q: Peer) {
    && |r.disk.snapshot| == |q.disk.snapshot| && |r.pendingSnapshot| == |q.pendingSnapshot|
    && q == r.(disk := Disk(r.disk.raftstate, q.disk.snapshot), pendingSnapshot := q.pendingSnapshot)
  }

  predicate AlikePhase(a: Phase, b: Phase) {
    if a.SendingSnapshot? then b.SendingSnapshot? && |a.data| == |b.data| && b == a.(data := b.data) else a == b
  }

  predicate AlikeHost(h: C.Host, g: C.Host) {
    AlikePeer(h.raft, g.raft) && AlikePhase(h.phase, g.phase) && |h.view| == |g.view|
  }

  predicate AlikeArgs(a: InstallSnapshotArgs, b: InstallSnapshotArgs) {
    |a.data| == |b.data| && b == a.(data := b.data)
  }

  predicate AlikeMessage(m: C.Message, w: C.Message) {
    match m
    case InstallRequest(to, args) => w.InstallRequest? && w.to == to && AlikeArgs(args, w.install)
    case InstallReply(from, args, reply) =>
      w.InstallReply? && w.from == from && AlikeArgs(args, w.install) && w.installReply == reply
    case _ => m == w
  }

  predicate AlikeMsg(m: C.ApplyMsg, w: C.ApplyMsg) {
    if m.SnapshotMsg? then w.SnapshotMsg? && |m.data| == |w.data| && w == m.(data := w.data) else m == w
  }

  predicate AlikeStep(st: C.Step, w: C.Step) {
    match st
    case ReceiveInstall(m) => w.ReceiveInstall? && AlikeMessage(m, w.m)
    case ReceiveInstallReply(m) => w.ReceiveInstallReply? && AlikeMessage(m, w.m)
    case _ => st == w
  }

  ghost predicate Carried(m: C.Message, net: set<C.Message>) {
    exists w :: w in net && AlikeMessage(m, w)
  }

  ghost predicate Recorded(e: C.Delivery, delivered: set<C.Delivery>) {
    exists w :: w in delivered && w.peer == e.peer && AlikeMsg(e.msg, w.msg)
  }

  ghost predicate Alike(c: C.Cluster, d: C.Cluster) {
    && |c.hosts| == |d.hosts|
    && (forall p: nat {:trigger AlikeHost(c.hosts[p], d.hosts[p])} :: p < |c.hosts| ==> AlikeHost(c.hosts[p], d.hosts[p]))
    && (forall m {:trigger Carried(m, d.net)} :: m in c.net ==> Carried(m, d.net))
    && (forall e {:trigger Recorded(e, d.delivered)} :: e in c.delivered ==> Recorded(e, d.delivered))
  }

  // ---------------------------------------------------------------- the handlers

  lemma VoteAlike(r: Peer, q: Peer, args: RequestVoteArgs)
    requires WellFormed(r) && AlikePeer(r, q)
    ensures AlikePeer(RequestVote(r, args).0, RequestVote(q, args).0)
    ensures RequestVote(r, args).1 == RequestVote(q, args).1
  {
  }

  lemma ElectionAlike(r: Peer, q: Peer)
    requires WellFormed(r) && AlikePeer(r, q)
    ensures AlikePeer(StartElection(r).0, StartElection(q).0) && StartElection(r).1 == StartElection(q).1
  {
  }

  lemma VoteReplyAlike(r: Peer, q: Peer, from: nat, term: nat, reply: RequestVoteReply)
    requires WellFormed(r) && AlikePeer(r, q)
    ensures AlikePeer(OnVoteReply(r, from, term, reply), OnVoteReply(q, from, term, reply))
  {
  }

  lemma StartAlike(r: Peer, q: Peer, command: Command)
    requires WellFormed(r) && AlikePeer(r, q)
    ensures AlikePeer(Start(r, command).0, Start(q, command).0)
  {
  }

  lemma StoreAlike(f: Peer, g: Peer, prev: nat, prevTerm: nat, entries: Log, commit: nat, xLen: nat)
    requires WellFormed(f) && AlikePeer(f, g) && f.lastIncludedIndex <= prev
    ensures var (r, reply) := StoreEntries(f, prev, prevTerm, entries, commit, xLen);
            var (q, reply') := StoreEntries(g, prev, prevTerm, entries, commit, xLen);
            AlikePeer(r, q) && reply == reply'
  {
    if prev <= LastLogIndex(f) {
      MergeLength(f.log, prev - f.lastIncludedIndex + 1, entries);
    }
  }

  lemma FollowAlike(f: Peer, g: Peer, args: AppendEntriesArgs, xLen: nat)
    requires WellFormed(f) && AlikePeer(f, g)
    ensures AlikePeer(FollowAppend(f, args, xLen).0, FollowAppend(g, args, xLen).0)
    ensures FollowAppend(f, args, xLen).1 == FollowAppend(g, args, xLen).1
  {
    var k := f.lastIncludedIndex;
    if args.prevLogIndex >= k {
      StoreAlike(f, g, args.prevLogIndex, args.prevLogTerm, args.entries, args.leaderCommit, xLen);
    } else if k - args.prevLogIndex <= |args.entries| {
      StoreAlike(f, g, k, f.lastIncludedTerm, args.entries[k - args.prevLogIndex..], args.leaderCommit, xLen);
    }
  }

  lemma AppendAlike(r: Peer, q: Peer, args: AppendEntriesArgs)
    requires WellFormed(r) && AlikePeer(r, q)
    ensures AlikePeer(AppendEntries(r, args).0, AppendEntries(q, args).0)
    ensures AppendEntries(r, args).1 == AppendEntries(q, args).1
  {
    if args.term >= r.currentTerm {
      FollowAlike(BecomeFollower(r, args.term), BecomeFollower(q, args.term), args, LastLogIndex(r) + 1);
    }
  }

  lemma CommitAlike(r: Peer, q: Peer, k: nat)
    requires WellFormed(r) && AlikePeer(r, q) && k <= LastLogIndex(r)
    ensures CommitFrom(r, k) == CommitFrom(q, k)
    decreases k
  {
  }

  lemma AppendReplyAlike(r: Peer, q: Peer, from: nat, args: AppendEntriesArgs, reply: AppendEntriesReply)
    requires WellFormed(r) && from < r.n && AlikePeer(r, q)
    ensures AlikePeer(OnAppendReply(r, from, args, reply), OnAppendReply(q, from, args, reply))
  {
    if r.currentTerm == args.term && r.role == Leader && reply.term <= r.currentTerm && reply.success {
      var newMatch := args.prevLogIndex + |args.entries|;
      var next := if newMatch + 1 > r.nextIndex[from] then newMatch + 1 else r.nextIndex[from];
      var matched := r.matchIndex[from := Max(r.matchIndex[from], newMatch)];
      CommitAlike(r.(matchIndex := matched, nextIndex := r.nextIndex[from := next]),
                  q.(matchIndex := matched, nextIndex := q.nextIndex[from := next]), LastLogIndex(r));
    }
  }

  lemma InstallAlike(r: Peer, q: Peer, args: InstallSnapshotArgs, brgs: InstallSnapshotArgs)
    requires WellFormed(r) && AlikePeer(r, q) && AlikeArgs(args, brgs)
    ensures AlikePeer(InstallSnapshot(r, args).0, InstallSnapshot(q, brgs).0)
    ensures InstallSnapshot(r, args).1 == InstallSnapshot(q, brgs).1
  {
  }

  lemma InstallReplyAlike(r: Peer, q: Peer, from: nat, args: InstallSnapshotArgs, brgs: InstallSnapshotArgs,
                          reply: InstallSnapshotReply)
    requires WellFormed(r) && from < r.n && AlikePeer(r, q) && AlikeArgs(args, brgs)
    ensures AlikePeer(OnInstallReply(r, from, args, reply), OnInstallReply(q, from, brgs, reply))
  {
  }

  lemma SnapshotAlike(r: Peer, q: Peer, index: nat, data: seq<Command>, view: seq<Command>)
    requires WellFormed(r) && AlikePeer(r, q) && |data| == |view|
    ensures AlikePeer(Snapshot(r, index, data), Snapshot(q, index, view))
  {
  }

  lemma TakeAlike(r: Peer, q: Peer)
    requires CanTake(r) && AlikePeer(r, q)
    ensures AlikePeer(ApplierTake(r).0, ApplierTake(q).0) && AlikePhase(ApplierTake(r).1, ApplierTake(q).1)
  {
  }

  lemma MakeAlike(n: nat, me: nat, r: Peer, q: Peer)
    requires AlikePeer(r, q)
    ensures AlikePeer(Make(n, me, r.disk), Make(n, me, q.disk))
  {
  }

  // ---------------------------------------------------------------- the steps of the cluster

  lemma SetAlike(c: C.Cluster, d: C.Cluster, p: nat, h: C.Host, g: C.Host, sent: set<C.Message>, copies: set<C.Message>)
    requires Alike(c, d) && p < |c.hosts| && AlikeHost(h, g)
    requires forall m {:trigger Carried(m, copies)} :: m in sent ==> Carried(m, copies)
    ensures Alike(c.(hosts := c.hosts[p := h], net := c.net + sent), d.(hosts := d.hosts[p := g], net := d.net + copies))
  {
    var c', d' := c.(hosts := c.hosts[p := h], net := c.net + sent), d.(hosts := d.hosts[p := g], net := d.net + copies);
    forall q: nat | q < |c.hosts| ensures AlikeHost(c'.hosts[q], d'.hosts[q]) {
      assert AlikeHost(c.hosts[q], d.hosts[q]);
    }
    forall m | m in c'.net ensures Carried(m, d'.net) {
      if m in c.net {
        assert Carried(m, d.net);
      } else {
        assert Carried(m, copies);
      }
    }
  }

  lemma RaftAlike(c: C.Cluster, d: C.Cluster, p: nat, r: Peer, q: Peer, sent: set<C.Message>, copies: set<C.Message>)
    requires Alike(c, d) && p < |c.hosts| && AlikePeer(r, q)
    requires forall m {:trigger Carried(m, copies)} :: m in sent ==> Carried(m, copies)
    ensures Alike(C.SetRaft(c, p, r, sent), C.SetRaft(d, p, q, copies))
  {
    assert AlikeHost(c.hosts[p], d.hosts[p]);
    SetAlike(c, d, p, c.hosts[p].(raft := r), d.hosts[p].(raft := q), sent, copies);
  }

  /** Messages without snapshots are the same on both sides. */
  lemma SameMessages(sent: set<C.Message>)
    requires forall m :: m in sent ==> !m.InstallRequest? && !m.InstallReply?
    ensures forall m {:trigger Carried(m, sent)} :: m in sent ==> Carried(m, sent)
  {
    forall m | m in sent ensures Carried(m, sent) {
      assert AlikeMessage(m, m);
    }
  }

  lemma FindMessage(c: C.Cluster, d: C.Cluster, m: C.Message) returns (w: C.Message)
    requires Alike(c, d) && m in c.net
    ensures w in d.net && AlikeMessage(m, w)
  {
    assert Carried(m, d.net);
    w :| w in d.net && AlikeMessage(m, w);
  }

  lemma SafeAlike(c: C.Cluster, d: C.Cluster, st: C.Step, w: C.Step)
    requires Alike(c, d) && C.NoPanic(c, st) && AlikeStep(st, w)
    ensures C.NoPanic(d, w)
  {
    forall p: nat | p < |d.hosts| ensures WellFormed(d.hosts[p].raft) && d.hosts[p].raft.n == |d.hosts| {
      assert AlikeHost(c.hosts[p], d.hosts[p]);
    }
    if (st.Replicate? || st.Take?) && st.p < |d.hosts| {
      assert AlikeHost(c.hosts[st.p], d.hosts[st.p]);
    }
  }

  /** Steps of elections and of clients. */
  lemma ElectionStepAlike(c: C.Cluster, d: C.Cluster, st: C.Step)
    requires Alike(c, d) && C.Enabled(c, st) && C.NoPanic(c, st) && C.NoPanic(d, st)
    requires st.Timeout? || st.ReceiveVote? || st.ReceiveVoteReply? || st.ClientStart?
    ensures C.Enabled(d, st) && Alike(C.Apply(c, st), C.Apply(d, st))
  {
    match st {
      case Timeout(p) =>
        assert AlikeHost(c.hosts[p], d.hosts[p]);
        ElectionAlike(c.hosts[p].raft, d.hosts[p].raft);
        var args := StartElection(c.hosts[p].raft).1;
        var sent := set q | q in Peers(|c.hosts|) && q != p :: C.VoteRequest(q, args);
        SameMessages(sent);
        RaftAlike(c, d, p, StartElection(c.hosts[p].raft).0, StartElection(d.hosts[p].raft).0, sent, sent);
      case ReceiveVote(m) =>
        var _ := FindMessage(c, d, m);
        var r, q := c.hosts[m.to].raft, d.hosts[m.to].raft;
        assert AlikeHost(c.hosts[m.to], d.hosts[m.to]);
        VoteAlike(r, q, m.vote);
        var sent := {C.VoteReply(m.to, m.vote, RequestVote(r, m.vote).1)};
        SameMessages(sent);
        RaftAlike(c, d, m.to, RequestVote(r, m.vote).0, RequestVote(q, m.vote).0, sent, sent);
      case ReceiveVoteReply(m) =>
        var _ := FindMessage(c, d, m);
        var p := m.vote.candidateId;
        assert AlikeHost(c.hosts[p], d.hosts[p]);
        VoteReplyAlike(c.hosts[p].raft, d.hosts[p].raft, m.from, m.vote.term, m.voteReply);
        RaftAlike(c, d, p, OnVoteReply(c.hosts[p].raft, m.from, m.vote.term, m.voteReply),
                  OnVoteReply(d.hosts[p].raft, m.from, m.vote.term, m.voteReply), {}, {});
      case ClientStart(p, command) =>
        assert AlikeHost(c.hosts[p], d.hosts[p]);
        StartAlike(c.hosts[p].raft, d.hosts[p].raft, command);
        RaftAlike(c, d, p, Start(c.hosts[p].raft, command).0, Start(d.hosts[p].raft, command).0, {}, {});
    }
  }

  lemma AppendStepAlike(c: C.Cluster, d: C.Cluster, st: C.Step)
    requires Alike(c, d) && C.Enabled(c, st) && C.NoPanic(c, st) && C.NoPanic(d, st)
    requires st.ReceiveAppend? || st.ReceiveAppendReply?
    ensures C.Enabled(d, st) && Alike(C.Apply(c, st), C.Apply(d, st))
  {
    var m := st.m;
    var _ := FindMessage(c, d, m);
    if st.ReceiveAppend? {
      var r, q := c.hosts[m.to].raft, d.hosts[m.to].raft;
      assert AlikeHost(c.hosts[m.to], d.hosts[m.to]);
      AppendAlike(r, q, m.append);
      var sent := {C.AppendReply(m.to, m.append, AppendEntries(r, m.append).1)};
      SameMessages(sent);
      RaftAlike(c, d, m.to, AppendEntries(r, m.append).0, AppendEntries(q, m.append).0, sent, sent);
    } else {
      var p := m.append.leaderId;
      assert AlikeHost(c.hosts[p], d.hosts[p]);
      AppendReplyAlike(c.hosts[p].raft, d.hosts[p].raft, m.from, m.append, m.appendReply);
      RaftAlike(c, d, p, OnAppendReply(c.hosts[p].raft, m.from, m.append, m.appendReply),
                OnAppendReply(d.hosts[p].raft, m.from, m.append, m.appendReply), {}, {});
    }
  }

  /** Where snapshots travel, the shadow's message carries other contents. */
  lemma InstallStepAlike(c: C.Cluster, d: C.Cluster, st: C.Step) returns (w: C.Step)
    requires Alike(c, d) && C.Enabled(c, st) && C.NoPanic(c, st) && st.ReceiveInstall?
    ensures AlikeStep(st, w) && C.Enabled(d, w) && C.NoPanic(d, w) && Alike(C.Apply(c, st), C.Apply(d, w))
  {
    var m := st.m;
    var m' := FindMessage(c, d, m);
    w := C.ReceiveInstall(m');
    SafeAlike(c, d, st, w);
    var r, q := c.hosts[m.to].raft, d.hosts[m.to].raft;
    assert AlikeHost(c.hosts[m.to], d.hosts[m.to]);
    InstallAlike(r, q, m.install, m'.install);
    var reply := C.InstallReply(m.to, m.install, InstallSnapshot(r, m.install).1);
    var reply' := C.InstallReply(m.to, m'.install, InstallSnapshot(q, m'.install).1);
    assert AlikeMessage(reply, reply');
    assert Carried(reply, {reply'});
    RaftAlike(c, d, m.to, InstallSnapshot(r, m.install).0, InstallSnapshot(q, m'.install).0, {reply}, {reply'});
  }

  lemma InstallReplyStepAlike(c: C.Cluster, d: C.Cluster, st: C.Step) returns (w: C.Step)
    requires Alike(c, d) && C.Enabled(c, st) && C.NoPanic(c, st) && st.ReceiveInstallReply?
    ensures AlikeStep(st, w) && C.Enabled(d, w) && C.NoPanic(d, w) && Alike(C.Apply(c, st), C.Apply(d, w))
  {
    var m := st.m;
    var m' := FindMessage(c, d, m);
    w := C.ReceiveInstallReply(m');
    SafeAlike(c, d, st, w);
    var p := m.install.leaderId;
    assert AlikeHost(c.hosts[p], d.hosts[p]);
    InstallReplyAlike(c.hosts[p].raft, d.hosts[p].raft, m.from, m.install, m'.install, m.installReply);
    RaftAlike(c, d, p, OnInstallReply(c.hosts[p].raft, m.from, m.install, m.installReply),
              OnInstallReply(d.hosts[p].raft, m.from, m'.install, m.installReply), {}, {});
  }

  lemma ReplicateStepAlike(c: C.Cluster, d: C.Cluster, st: C.Step)
    requires Alike(c, d) && C.Enabled(c, st) && C.NoPanic(c, st) && C.NoPanic(d, st) && st.Replicate?
    ensures C.Enabled(d, st) && Alike(C.Apply(c, st), C.Apply(d, st))
  {
    var p, to := st.p, st.to;
    assert AlikeHost(c.hosts[p], d.hosts[p]);
    var r, q := c.hosts[p].raft, d.hosts[p].raft;
    match ReplicateTo(r, to) {
      case Nothing =>
        RaftAlike(c, d, p, r, q, {}, {});
      case OutAppend(args) =>
        SameMessages({C.AppendRequest(to, args)});
        RaftAlike(c, d, p, r, q, {C.AppendRequest(to, args)}, {C.AppendRequest(to, args)});
      case OutInstall(args) =>
        var args' := ReplicateTo(q, to).install;
        assert AlikeMessage(C.InstallRequest(to, args), C.InstallRequest(to, args'));
        assert Carried(C.InstallRequest(to, args), {C.InstallRequest(to, args')});
        RaftAlike(c, d, p, r, q, {C.InstallRequest(to, args)}, {C.InstallRequest(to, args')});
    }
  }

  /** The applier's steps and restarts. */
  lemma ApplierStepAlike(c: C.Cluster, d: C.Cluster, st: C.Step)
    requires Alike(c, d) && C.Enabled(c, st) && C.NoPanic(c, st) && C.NoPanic(d, st)
    requires st.Take? || st.Relock? || st.Crash?
    ensures C.Enabled(d, st) && Alike(C.Apply(c, st), C.Apply(d, st))
  {
    var p := st.p;
    assert AlikeHost(c.hosts[p], d.hosts[p]);
    var h, g := c.hosts[p], d.hosts[p];
    if st.Take? {
      TakeAlike(h.raft, g.raft);
    } else if st.Crash? {
      MakeAlike(|c.hosts|, p, h.raft, g.raft);
    }
    SetAlike(c, d, p, C.Apply(c, st).hosts[p], C.Apply(d, st).hosts[p], {}, {});
    assert C.Apply(c, st) == c.(hosts := c.hosts[p := C.Apply(c, st).hosts[p]], net := c.net + {});
    assert C.Apply(d, st) == d.(hosts := d.hosts[p := C.Apply(d, st).hosts[p]], net := d.net + {});
  }

  lemma DeliverStepAlike(c: C.Cluster, d: C.Cluster, st: C.Step)
    requires Alike(c, d) && C.Enabled(c, st) && C.NoPanic(c, st) && C.NoPanic(d, st) && st.Deliver?
    ensures C.Enabled(d, st) && Alike(C.Apply(c, st), C.Apply(d, st))
  {
    var p := st.p;
    assert AlikeHost(c.hosts[p], d.hosts[p]);
    var h, g := c.hosts[p], d.hosts[p];
    var c', d' := C.Apply(c, st), C.Apply(d, st);
    SetAlike(c, d, p, c'.hosts[p], d'.hosts[p], {}, {});
    assert c'.net == c.net + {} && d'.net == d.net + {};
    forall q: nat | q < |c'.hosts| ensures AlikeHost(c'.hosts[q], d'.hosts[q]) {
      assert AlikeHost(c.hosts[q], d.hosts[q]);
    }
    forall e | e in c'.delivered ensures Recorded(e, d'.delivered) {
      if e in c.delivered {
        assert Recorded(e, d.delivered);
      } else {
        assert C.Delivery(p, C.Handed(g.phase)) in d'.delivered;
      }
    }
  }

  /** Any step of the cluster but a service's snapshot has its like in an alike cluster. */
  lemma StepAlike(c: C.Cluster, d: C.Cluster, st: C.Step) returns (w: C.Step)
    requires Alike(c, d) && C.Enabled(c, st) && C.NoPanic(c, st) && !st.ServiceSnapshot?
    ensures AlikeStep(st, w) && C.Enabled(d, w) && C.NoPanic(d, w) && Alike(C.Apply(c, st), C.Apply(d, w))
  {
    if st.ReceiveInstall? {
      w := InstallStepAlike(c, d, st);
    } else if st.ReceiveInstallReply? {
      w := InstallReplyStepAlike(c, d, st);
    } else {
      w := st;
      SafeAlike(c, d, st, w);
      if st.Timeout? || st.ReceiveVote? || st.ReceiveVoteReply? || st.ClientStart? {
        ElectionStepAlike(c, d, st);
      } else if st.ReceiveAppend? || st.ReceiveAppendReply? {
        AppendStepAlike(c, d, st);
      } else if st.Replicate? {
        ReplicateStepAlike(c, d, st);
      } else if st.Deliver? {
        DeliverStepAlike(c, d, st);
      } else {
        ApplierStepAlike(c, d, st);
      }
    }
  }

  // ---------------------------------------------------------------- the calls of Snapshot

  /** A service asks for a snapshot only at an index it has been handed, and its slot 0 is nil. */
  ghost predicate RequestOK(h: C.Host, srv: Server) {
    && Lookup(srv.service.log, 0) == Nil
    && (srv.request.MakeSnapshot? ==>
          && 1 <= srv.request.index <= |h.view|
          && |Data(srv.request)| == srv.request.index && srv.request.bytes == EncodeView(Data(srv.request)))
  }

  ghost predicate RequestsOK(s: System) {
    && |s.servers| == |s.cluster.hosts|
    && (forall p: nat {:trigger RequestOK(s.cluster.hosts[p], s.servers[p])} ::
          p < |s.servers| ==> RequestOK(s.cluster.hosts[p], s.servers[p]))
  }

  lemma DeliveredRequest(h: C.Host, srv: Server, m: C.ApplyMsg, h': C.Host)
    requires RequestOK(h, srv) && m.index >= 1 && (m.CommandMsg? ==> m.index == |h.view| + 1)
    requires h'.view == C.Receive(h.view, m)
    ensures var (service, _, request) := OnMessage(srv.service, m);
            RequestOK(h', Server(service, request))
  {
    var (service, _, request) := OnMessage(srv.service, m);
    if request.MakeSnapshot? {
      assert request.bytes.xlog == [Nil] + Data(request) by {
        assert request.bytes.xlog[0] == Lookup(service.log, 0);
      }
    }
  }

  lemma StartedRequest(h: C.Host, snapshot: seq<Command>)
    ensures RequestOK(h, Started(snapshot))
  {
  }

  lemma RequestsStep(s: System, st: C.Step, s': System)
    requires RequestsOK(s) && Next(s, st, s')
    requires st.Deliver? ==>
               var m := C.Handed(s.cluster.hosts[st.p].phase);
               m.index >= 1 && (m.CommandMsg? ==> m.index == |s.cluster.hosts[st.p].view| + 1)
    ensures RequestsOK(s')
  {
    forall p: nat | p < |s'.servers| ensures RequestOK(s'.cluster.hosts[p], s'.servers[p]) {
      assert RequestOK(s.cluster.hosts[p], s.servers[p]);
      if st == C.Deliver(p) {
        DeliveredRequest(s.cluster.hosts[p], s.servers[p], C.Handed(s.cluster.hosts[p].phase), s'.cluster.hosts[p]);
      } else if st == C.Crash(p) {
        StartedRequest(s'.cluster.hosts[p], s.cluster.hosts[p].raft.disk.snapshot);
      } else if !st.ServiceSnapshot? {
        ViewStays(s.cluster, st, s'.cluster, p);
      }
    }
  }

  lemma ViewStays(c: C.Cluster, st: C.Step, c': C.Cluster, p: nat)
    requires C.Next(c, st, c') && p < |c.hosts| && st != C.Deliver(p) && st != C.Crash(p)
    ensures |c'.hosts| == |c.hosts| && c'.hosts[p].view == c.hosts[p].view
  {
  }

  // ---------------------------------------------------------------- whole runs

  ghost predicate Shadows(run: seq<System>, steps: seq<C.Step>, shadow: seq<C.Cluster>, ws: seq<C.Step>) {
    && |run| == |shadow| == |steps| + 1 == |ws| + 1
    && C.IsRun(shadow, ws)
    && (forall i {:trigger Alike(run[i].cluster, shadow[i])} ::
          0 <= i < |run| ==> Alike(run[i].cluster, shadow[i]) && RequestsOK(run[i]))
    && (forall i {:trigger AlikeStep(steps[i], ws[i])} :: 0 <= i < |steps| ==> AlikeStep(steps[i], ws[i]))
  }

  lemma SnapshotStepAlike(s: System, d: C.Cluster, st: C.Step)
    requires Alike(s.cluster, d) && RequestsOK(s) && st.ServiceSnapshot?
    requires Enabled(s, st) && C.NoPanic(s.cluster, st)
    ensures C.Enabled(d, st) && C.NoPanic(d, st) && Alike(Apply(s, st).cluster, C.Apply(d, st))
  {
    var p, index := st.p, st.index;
    SafeAlike(s.cluster, d, st, st);
    assert AlikeHost(s.cluster.hosts[p], d.hosts[p]);
    assert RequestOK(s.cluster.hosts[p], s.servers[p]);
    var r, q := s.cluster.hosts[p].raft, d.hosts[p].raft;
    var data, view := Data(s.servers[p].request), d.hosts[p].view[..index];
    SnapshotAlike(r, q, index, data, view);
    RaftAlike(s.cluster, d, p, Snapshot(r, index, data), Snapshot(q, index, view), {}, {});
  }

  lemma SystemStepAlike(s: System, d: C.Cluster, st: C.Step) returns (w: C.Step)
    requires Alike(s.cluster, d) && RequestsOK(s) && Enabled(s, st) && C.NoPanic(s.cluster, st)
    ensures AlikeStep(st, w) && C.Enabled(d, w) && C.NoPanic(d, w) && Alike(Apply(s, st).cluster, C.Apply(d, w))
  {
    if st.ServiceSnapshot? {
      w := st;
      SnapshotStepAlike(s, d, st);
    } else {
      w := StepAlike(s.cluster, d, st);
    }
  }

  /** What is about to be delivered in a system has the index that the shadow delivers. */
  lemma DeliveryIndex(c: C.Cluster, shadow: seq<C.Cluster>, ws: seq<C.Step>, p: nat)
    requires C.IsRun(shadow, ws) && Alike(c, shadow[|ws|]) && C.Enabled(c, C.Deliver(p))
    ensures var m := C.Handed(c.hosts[p].phase);
            && m.index >= 1 && (m.CommandMsg? ==> m.index == |c.hosts[p].view| + 1)
            && (m.SnapshotMsg? ==> |m.data| == m.index)
  {
    assert AlikeHost(c.hosts[p], shadow[|ws|].hosts[p]);
    D.DeliversLegal(shadow, ws, |ws|, p);
  }

  lemma StartAlikeClusters(s: System)
    requires Init(s)
    ensures Alike(s.cluster, s.cluster) && RequestsOK(s)
  {
    forall p: nat | p < |s.servers| ensures RequestOK(s.cluster.hosts[p], s.servers[p]) {
      StartedRequest(s.cluster.hosts[p], []);
    }
  }

  /** Every run of the system has a shadow among the runs of the cluster. */
  lemma {:induction false} Shadow(run: seq<System>, steps: seq<C.Step>)
    returns (shadow: seq<C.Cluster>, ws: seq<C.Step>)
    requires IsRun(run, steps)
    ensures Shadows(run, steps, shadow, ws)
    decreases |steps|
  {
    if steps == [] {
      StartAlikeClusters(run[0]);
      shadow, ws := [run[0].cluster], [];
    } else {
      var k := |steps| - 1;
      RunPrefix(run, steps, k);
      shadow, ws := Shadow(run[..k + 1], steps[..k]);
      assert Alike(run[..k + 1][k].cluster, shadow[k]);
      assert StepAt(run, steps, k);
      var w := SystemStepAlike(run[k], shadow[k], steps[k]);
      if steps[k].Deliver? {
        DeliveryIndex(run[k].cluster, shadow, ws, steps[k].p);
      }
      RequestsStep(run[k], steps[k], run[k + 1]);
      ExtendShadow(run, steps, shadow, ws, w);
      shadow, ws := shadow + [C.Apply(shadow[k], w)], ws + [w];
    }
  }

  lemma ExtendShadow(run: seq<System>, steps: seq<C.Step>, shadow: seq<C.Cluster>, ws: seq<C.Step>, w: C.Step)
    requires |steps| >= 1 && |run| == |steps| + 1
    requires Shadows(run[..|steps|], steps[..|steps| - 1], shadow, ws)
    requires AlikeStep(steps[|steps| - 1], w) && RequestsOK(run[|steps|])
    requires C.Enabled(shadow[|ws|], w) && C.NoPanic(shadow[|ws|], w)
    requires Alike(run[|steps|].cluster, C.Apply(shadow[|ws|], w))
    ensures Shadows(run, steps, shadow + [C.Apply(shadow[|ws|], w)], ws + [w])
  {
    var shadow', ws' := shadow + [C.Apply(shadow[|ws|], w)], ws + [w];
    forall i: nat | i < |ws'| ensures C.StepAt(shadow', ws', i) {
      if i < |ws| {
        assert C.StepAt(shadow, ws, i);
      }
    }
    forall i | 0 <= i < |run| ensures Alike(run[i].cluster, shadow'[i]) && RequestsOK(run[i]) {
      if i < |steps| {
        assert Alike(run[..|steps|][i].cluster, shadow[i]);
      }
    }
    forall i | 0 <= i < |steps| ensures AlikeStep(steps[i], ws'[i]) {
      if i < |steps| - 1 {
        assert AlikeStep(steps[..|steps| - 1][i], ws[i]);
      }
    }
  }
}
