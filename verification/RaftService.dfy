/** The service on top of a peer: it applies the messages of its apply channel to a log map and snapshots it every
    ten commands. */
module RaftService {
  import opened RaftTypes
  import opened RaftCluster

  const SNAPSHOT_INTERVAL := 10

  /** Snapshot bytes: nil, undecodable, or an index with the commands of slots 0, 1, 2, ... */
  datatype Bytes = NilBytes | Garbage | Encoded(lastIncludedIndex: int, xlog: seq<Command>)

  datatype Complaint = Fine | NilSnapshot | BadSnapshot | WrongIndex | OutOfOrder | FromTester(text: string)

  /** The tester's answer to CheckLogs: its error text, and whether it knew the preceding command. */
  datatype CheckReply = CheckReply(text: string, prevOk: bool)

  datatype Request = NoRequest | MakeSnapshot(index: nat, bytes: Bytes)

  datatype Service = Service(log: map<int, Command>, lastApplied: int)

  const EMPTY := Service(map[], 0)

  /** A missing slot reads as the nil command. */
  function Lookup(log: map<int, Command>, j: int): Command {
    if j in log then log[j] else Nil
  }

  function Slots(xlog: seq<Command>): map<int, Command> {
    map j | 0 <= j < |xlog| :: xlog[j]
  }

  /** Slots 0 to index. */
  function Dump(log: map<int, Command>, index: nat): seq<Command> {
    seq(index + 1, j => Lookup(log, j))
  }

  /** Replace the service's state by a snapshot; index -1 accepts any. */
  function IngestSnap(s: Service, snapshot: Bytes, index: int): (Service, Complaint) {
    match snapshot
    case NilBytes => (s, NilSnapshot)
    case Garbage => (s, BadSnapshot)
    case Encoded(last, xlog) =>
      if index != -1 && index != last then (s, WrongIndex) else (Service(Slots(xlog), last), Fine)
  }

  predicate SnapshotsAt(index: nat) {
    (index + 1) % SNAPSHOT_INTERVAL == 0
  }

  /** One message of the apply channel. A command is stored even when it comes out of order. */
  function ApplyCommand(s: Service, index: nat, command: Command): (Service, Complaint, Request) {
    var log := s.log[index := command];
    (Service(log, index),
     if index != s.lastApplied + 1 then OutOfOrder else Fine,
     if SnapshotsAt(index) then MakeSnapshot(index, Encoded(index, Dump(log, index))) else NoRequest)
  }

  /** The bytes of a snapshot that holds exactly these commands. */
  function EncodeView(view: seq<Command>): Bytes {
    Encoded(|view|, [Nil] + view)
  }

  function OnMessage(s: Service, m: ApplyMsg): (Service, Complaint, Request) {
    match m
    case CommandMsg(index, command) => ApplyCommand(s, index, command)
    case SnapshotMsg(index, _, data) =>
      var (s', complaint) := IngestSnap(s, EncodeView(data), index);
      (s', complaint, NoRequest)
  }

  /** What is reported about a message; the tester is asked only about a command that the service accepts. */
  function Report(own: Complaint, m: ApplyMsg, check: CheckReply): Complaint {
    if own != Fine || m.SnapshotMsg? then own
    else if check.text != "ErrRPC" && m.index > 1 && !check.prevOk then OutOfOrder
    else if check.text == "" then Fine
    else FromTester(check.text)
  }

  /** Whatever the service knew: a command is stored and counted, and complained about exactly if it is not the next; a
      snapshot is taken over exactly if its bytes decode to the right index, and refused without effect otherwise. */
  lemma ServiceAnswers(s: Service, index: nat, command: Command, snapshot: Bytes, at: int)
    ensures var (s', complaint, _) := ApplyCommand(s, index, command);
            && s'.lastApplied == index && (complaint == OutOfOrder <==> index != s.lastApplied + 1)
            && (complaint == Fine <==> index == s.lastApplied + 1)
            && forall j :: Lookup(s'.log, j) == if j == index then command else Lookup(s.log, j)
    ensures var (s', complaint) := IngestSnap(s, snapshot, at);
            && (complaint == NilSnapshot <==> snapshot == NilBytes) && (complaint == BadSnapshot <==> snapshot == Garbage)
            && (complaint == Fine <==> snapshot.Encoded? && (at == -1 || at == snapshot.lastIncludedIndex))
            && (complaint != Fine ==> s' == s)
            && (complaint == Fine ==>
                  && s'.lastApplied == snapshot.lastIncludedIndex
                  && forall j :: Lookup(s'.log, j) == if 0 <= j < |snapshot.xlog| then snapshot.xlog[j] else Nil)
  {
  }

  // ---------------------------------------------------------------- in step with Raft

  /** The service knows exactly these commands. */
  predicate InSync(s: Service, view: seq<Command>) {
    s.lastApplied == |view| && Dump(s.log, |view|) == [Nil] + view
  }

  /** A message that Raft may send to a service that has been handed `view`. */
  predicate Legal(view: seq<Command>, m: ApplyMsg) {
    match m
    case CommandMsg(index, _) => index == |view| + 1
    case SnapshotMsg(index, _, data) => |data| == index && (data <= view || view <= data)
  }

  /** A snapshot that ends before what the service has been handed. */
  predicate Stale(view: seq<Command>, m: ApplyMsg) {
    m.SnapshotMsg? && m.index < |view|
  }

  lemma DumpSlots(xlog: seq<Command>, index: nat)
    requires |xlog| == index + 1
    ensures Dump(Slots(xlog), index) == xlog
  {
  }

  /** A service in step stays in step exactly if the message is not a stale snapshot; it never complains, and a
      snapshot it makes holds exactly the commands handed to it. */
  lemma StaysInSync(s: Service, view: seq<Command>, m: ApplyMsg)
    requires InSync(s, view) && Legal(view, m)
    ensures var (s', complaint, request) := OnMessage(s, m);
            var view' := Receive(view, m);
            && (InSync(s', view') <==> !Stale(view, m))
            && complaint == Fine
            && (request.MakeSnapshot? <==> m.CommandMsg? && (m.index + 1) % 10 == 0)
            && (request.MakeSnapshot? ==> request == MakeSnapshot(|view'|, EncodeView(view')))
  {
    match m
    case CommandMsg(index, command) =>
      var log := s.log[index := command];
      assert Dump(log, index) == [Nil] + (view + [command]) by {
        forall j | 0 <= j < index ensures Lookup(log, j) == ([Nil] + view)[j] {
          assert Dump(s.log, |view|)[j] == Lookup(s.log, j);
        }
      }
    case SnapshotMsg(index, _, data) =>
      DumpSlots([Nil] + data, index);
      if index == |view| {
        assert data == view;
      }
  }

  // ---------------------------------------------------------------- streams

  function ServiceAfter(s: Service, msgs: seq<ApplyMsg>, n: nat): Service
    requires n <= |msgs|
  {
    if n == 0 then s else OnMessage(ServiceAfter(s, msgs, n - 1), msgs[n - 1]).0
  }

  /** What the service does at message n of a stream. */
  predicate Reacts(s: Service, msgs: seq<ApplyMsg>, n: nat, check: CheckReply, complaint: Complaint, request: Request)
    requires n < |msgs|
  {
    var (_, own, r) := OnMessage(ServiceAfter(s, msgs, n), msgs[n]);
    complaint == Report(own, msgs[n], check) && request == r
  }

  function ViewAfter(view: seq<Command>, msgs: seq<ApplyMsg>, n: nat): seq<Command>
    requires n <= |msgs|
  {
    if n == 0 then view else Receive(ViewAfter(view, msgs, n - 1), msgs[n - 1])
  }

  ghost predicate LegalStream(view: seq<Command>, msgs: seq<ApplyMsg>) {
    forall n {:trigger msgs[n]} :: 0 <= n < |msgs| ==> Legal(ViewAfter(view, msgs, n), msgs[n])
  }

  ghost predicate NoStale(view: seq<Command>, msgs: seq<ApplyMsg>) {
    forall n: nat {:trigger StaleMessage(view, msgs, n)} :: n < |msgs| ==> !StaleMessage(view, msgs, n)
  }

  predicate StaleMessage(view: seq<Command>, msgs: seq<ApplyMsg>, n: nat)
    requires n < |msgs|
  {
    Stale(ViewAfter(view, msgs, n), msgs[n])
  }

  ghost predicate SyncedAfter(s: Service, view: seq<Command>, msgs: seq<ApplyMsg>, n: nat)
    requires n <= |msgs|
  {
    InSync(ServiceAfter(s, msgs, n), ViewAfter(view, msgs, n))
  }

  lemma SyncedNext(s: Service, view: seq<Command>, msgs: seq<ApplyMsg>, n: nat)
    requires LegalStream(view, msgs) && n < |msgs| && SyncedAfter(s, view, msgs, n)
    ensures SyncedAfter(s, view, msgs, n + 1) <==> !StaleMessage(view, msgs, n)
  {
    StaysInSync(ServiceAfter(s, msgs, n), ViewAfter(view, msgs, n), msgs[n]);
  }

  lemma {:induction false} SyncedUpTo(s: Service, view: seq<Command>, msgs: seq<ApplyMsg>, n: nat)
    requires SyncedAfter(s, view, msgs, 0) && LegalStream(view, msgs) && NoStale(view, msgs) && n <= |msgs|
    ensures SyncedAfter(s, view, msgs, n)
    decreases n
  {
    if n > 0 {
      var before := n - 1;
      SyncedUpTo(s, view, msgs, before);
      SyncedNext(s, view, msgs, before);
      assert !StaleMessage(view, msgs, before);
    }
  }

  /** Over a whole stream: the service is in step after every message exactly if no snapshot was stale. */
  lemma StreamInSync(s: Service, view: seq<Command>, msgs: seq<ApplyMsg>)
    requires InSync(s, view) && LegalStream(view, msgs)
    ensures (forall n: nat :: n <= |msgs| ==> SyncedAfter(s, view, msgs, n)) <==> NoStale(view, msgs)
  {
    if NoStale(view, msgs) {
      forall n: nat | n <= |msgs| ensures SyncedAfter(s, view, msgs, n) {
        SyncedUpTo(s, view, msgs, n);
      }
    } else {
      var n: nat :| n < |msgs| && StaleMessage(view, msgs, n);
      if SyncedAfter(s, view, msgs, n) {
        SyncedNext(s, view, msgs, n);
      }
    }
  }

  // ---------------------------------------------------------------- what a stale snapshot does

  /** The commands that Raft sends after a service was handed n commands, up to the next snapshot. */
  predicate CommandsFrom(msgs: seq<ApplyMsg>, n: nat) {
    forall i :: 0 <= i < |msgs| ==> msgs[i].CommandMsg? && msgs[i].index == n + 1 + i
  }

  lemma {:induction false} HoleStays(s: Service, msgs: seq<ApplyMsg>, view: nat, j: int, n: nat)
    requires CommandsFrom(msgs, view) && n <= |msgs| && j <= view && Lookup(s.log, j) == Nil
    ensures Lookup(ServiceAfter(s, msgs, n).log, j) == Nil
    decreases n
  {
    if n > 0 {
      HoleStays(s, msgs, view, j, n - 1);
    }
  }

  /** A stale snapshot loses commands: the next command is reported out of order, and every snapshot that the service
      makes until it ingests another has a hole wherever a command was lost. */
  lemma StaleLosesCommands(s: Service, view: seq<Command>, m: ApplyMsg, msgs: seq<ApplyMsg>, n: nat)
    requires Legal(view, m) && Stale(view, m) && CommandsFrom(msgs, |view|) && n < |msgs|
    ensures var (_, complaint, request) := OnMessage(ServiceAfter(OnMessage(s, m).0, msgs, n), msgs[n]);
            && (n == 0 ==> complaint == OutOfOrder)
            && (request.MakeSnapshot? ==>
                  && request.index == msgs[n].index && request.bytes.Encoded?
                  && |request.bytes.xlog| == request.index + 1
                  && forall j :: m.index < j <= |view| ==> request.bytes.xlog[j] == Nil)
  {
    var lost := OnMessage(s, m).0;
    var now := ServiceAfter(lost, msgs, n);
    forall j | m.index < j <= |view| ensures Lookup(now.log, j) == Nil {
      HoleStays(lost, msgs, |view|, j, n);
    }
    HolesDumped(now, msgs[n], m.index, |view|);
  }

  lemma HolesDumped(s: Service, m: ApplyMsg, from: nat, to: nat)
    requires m.CommandMsg? && m.index > to && forall j :: from < j <= to ==> Lookup(s.log, j) == Nil
    ensures var request := OnMessage(s, m).2;
            request.MakeSnapshot? ==>
              && request.index == m.index && request.bytes.Encoded? && |request.bytes.xlog| == m.index + 1
              && forall j :: from < j <= to ==> request.bytes.xlog[j] == Nil
  {
    var log := s.log[m.index := m.command];
    forall j | from < j <= to ensures Dump(log, m.index)[j] == Nil {
      assert Lookup(log, j) == Lookup(s.log, j);
    }
  }

  // ---------------------------------------------------------------- the service object

  class Rfsrv {
    var log: map<int, Command>
    var lastApplied: int

    function State(): Service
      reads this
    {
      Service(log, lastApplied)
    }

    /** Started with the snapshot that the persister held, if any. */
    constructor (saved: Bytes)
      ensures State() == IngestSnap(EMPTY, saved, -1).0
    {
      log, lastApplied := map[], 0;
      new;
      if saved != NilBytes {
        var _ := Ingest(saved, -1);
      }
    }

    method Ingest(snapshot: Bytes, index: int) returns (complaint: Complaint)
      modifies this
      ensures (State(), complaint) == IngestSnap(old(State()), snapshot, index)
    {
      if snapshot == NilBytes {
        return NilSnapshot;
      }
      if snapshot == Garbage {
        return BadSnapshot;
      }
      if index != -1 && index != snapshot.lastIncludedIndex {
        return WrongIndex;
      }
      log := map[];
      for j := 0 to |snapshot.xlog|
        invariant log == Slots(snapshot.xlog[..j])
      {
        log := log[j := snapshot.xlog[j]];
      }
      assert snapshot.xlog[..|snapshot.xlog|] == snapshot.xlog;
      lastApplied := snapshot.lastIncludedIndex;
      return Fine;
    }

    /** One message, with the tester's answer to CheckLogs should it be asked. */
    method ApplyOne(m: ApplyMsg, check: CheckReply) returns (complaint: Complaint, request: Request)
      modifies this
      ensures var (s', own, r) := OnMessage(old(State()), m);
              State() == s' && complaint == Report(own, m, check) && request == r
    {
      complaint, request := Fine, NoRequest;
      match m {
        case SnapshotMsg(index, _, data) =>
          complaint := Ingest(EncodeView(data), index);
        case CommandMsg(index, command) =>
          if index != lastApplied + 1 {
            complaint := OutOfOrder;
          }
          if complaint == Fine {
            if check.text != "" {
              complaint := FromTester(check.text);
            }
            if check.text != "ErrRPC" && index > 1 && !check.prevOk {
              complaint := OutOfOrder;
            }
          }
          log := log[index := command];
          lastApplied := index;
          if (index + 1) % SNAPSHOT_INTERVAL == 0 {
            var xlog: seq<Command> := [];
            for j := 0 to index + 1
              invariant |xlog| == j && forall i :: 0 <= i < j ==> xlog[i] == Lookup(log, i)
            {
              xlog := xlog + [if j in log then log[j] else Nil];
            }
            assert xlog == Dump(log, index);
            request := MakeSnapshot(index, Encoded(index, xlog));
          }
      }
    }

    /** The applier goroutine over the messages received so far. */
    method ApplierSnap(msgs: seq<ApplyMsg>, checks: seq<CheckReply>)
      returns (complaints: seq<Complaint>, requests: seq<Request>)
      requires |checks| == |msgs|
      modifies this
      ensures State() == ServiceAfter(old(State()), msgs, |msgs|)
      ensures |complaints| == |requests| == |msgs|
      ensures forall i :: 0 <= i < |msgs| ==> Reacts(old(State()), msgs, i, checks[i], complaints[i], requests[i])
    {
      complaints, requests := [], [];
      for n := 0 to |msgs|
        invariant State() == ServiceAfter(old(State()), msgs, n)
        invariant |complaints| == |requests| == n
        invariant forall i :: 0 <= i < n ==> Reacts(old(State()), msgs, i, checks[i], complaints[i], requests[i])
      {
        var complaint, request := ApplyOne(msgs[n], checks[n]);
        assert Reacts(old(State()), msgs, n, checks[n], complaint, request);
        complaints, requests := complaints + [complaint], requests + [request];
      }
    }
  }
}
