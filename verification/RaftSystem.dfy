/** The cluster together with the services of its servers. A service is busy in Raft's Snapshot from the message that
    made it ask for a snapshot until the call is done, and receives nothing in between. */
module RaftSystem {
  import opened RaftTypes
  import opened RaftPeer
  import opened RaftService
  import C = RaftCluster

  /** A service and the call of Snapshot it is in, if any. */
  datatype Server = Server(service: Service, request: Request)

  datatype System = System(cluster: C.Cluster, servers: seq<Server>)

  /** A snapshot is stored as the commands of its slots 1, 2, ...; slot 0 is always nil. */
  function Data(request: Request): seq<Command> {
    if request.MakeSnapshot? && request.bytes.Encoded? && request.bytes.xlog != [] then request.bytes.xlog[1..] else []
  }

  /** A started service has read the persister's snapshot, if there is one. */
  function Started(snapshot: seq<Command>): Server {
    Server(if snapshot == [] then EMPTY else IngestSnap(EMPTY, EncodeView(snapshot), -1).0, NoRequest)
  }

  ghost predicate Init(s: System) {
    C.Init(s.cluster) && s.servers == seq(|s.cluster.hosts|, _ => Started([]))
  }

  predicate Enabled(s: System, st: C.Step) {
    && |s.servers| == |s.cluster.hosts|
    && match st
       case ServiceSnapshot(p, index) =>
         C.Up(s.cluster, p) && s.servers[p].request.MakeSnapshot? && index == s.servers[p].request.index
       case Deliver(p) => C.Enabled(s.cluster, st) && s.servers[p].request == NoRequest
       case _ => C.Enabled(s.cluster, st)
  }

  function Apply(s: System, st: C.Step): System
    requires Enabled(s, st) && C.NoPanic(s.cluster, st)
  {
    match st
    case ServiceSnapshot(p, index) =>
      var raft := Snapshot(s.cluster.hosts[p].raft, index, Data(s.servers[p].request));
      System(C.SetRaft(s.cluster, p, raft, {}), s.servers[p := s.servers[p].(request := NoRequest)])
    case Deliver(p) =>
      var (service, _, request) := OnMessage(s.servers[p].service, C.Handed(s.cluster.hosts[p].phase));
      System(C.Apply(s.cluster, st), s.servers[p := Server(service, request)])
    case Crash(p) =>
      System(C.Apply(s.cluster, st), s.servers[p := Started(s.cluster.hosts[p].raft.disk.snapshot)])
    case _ => s.(cluster := C.Apply(s.cluster, st))
  }

  ghost predicate Next(s: System, st: C.Step, s': System) {
    Enabled(s, st) && C.NoPanic(s.cluster, st) && s' == Apply(s, st)
  }

  ghost predicate IsRun(run: seq<System>, steps: seq<C.Step>) {
    && |run| == |steps| + 1
    && Init(run[0])
    && (forall i: nat {:trigger StepAt(run, steps, i)} :: i < |steps| ==> StepAt(run, steps, i))
  }

  ghost predicate StepAt(run: seq<System>, steps: seq<C.Step>, i: nat)
    requires i < |steps| < |run|
  {
    Next(run[i], steps[i], run[i + 1])
  }

  lemma RunPrefix(run: seq<System>, steps: seq<C.Step>, n: nat)
    requires IsRun(run, steps) && n <= |steps|
    ensures IsRun(run[..n + 1], steps[..n])
  {
    var run', steps' := run[..n + 1], steps[..n];
    forall i: nat | i < n ensures StepAt(run', steps', i) {
      assert StepAt(run, steps, i);
    }
  }
}
