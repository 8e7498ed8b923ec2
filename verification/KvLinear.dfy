/** Any number of concurrent clerk operations on one server over the lossy network: linearizability against
    `KvModel`, and conservation of versions. */
module KvLinear {
  import opened KvServer
  import opened KvClerk
  import opened KvModel

  datatype Ending = Running | Done(output: Output, at: nat)

  /** A clerk operation: its call loop, when it began and ended, and the positions, in the server's sequence of
      executions, of the one that took effect and of the latest one (-1 for none). */
  datatype Op = Op(call: Call, begin: nat, ending: Ending, effect: int, last: int)

  /** A request executed at the server. */
  datatype Exec = Exec(op: nat, input: Input, at: nat)

  datatype State = State(store: Store, ops: seq<Op>, execs: seq<Exec>, clock: nat)

  datatype Move = Invoke(input: Input) | Progress(op: nat, ev: Event) | Return(op: nat)

  const START := State(map[], [], [], 0)

  predicate Enabled(s: State, m: Move) {
    match m
    case Invoke(_) => true
    case Progress(i, ev) => i < |s.ops| && s.ops[i].ending == Running && Can(s.ops[i].call, ev)
    case Return(i) => i < |s.ops| && s.ops[i].ending == Running && s.ops[i].call.attempt.Executed?
  }

  function Next(s: State, m: Move): State
    requires Enabled(s, m)
  {
    match m
    case Invoke(input) =>
      s.(ops := s.ops + [Op(Begin(input), s.clock, Running, -1, -1)], clock := s.clock + 1)
    case Progress(i, ev) =>
      var op := s.ops[i];
      var (store, call) := After(s.store, op.call, ev);
      if ev == Execute then
        var op' := op.(call := call, last := |s.execs|,
                       effect := if Takes(s.store, op.call.input) then |s.execs| else op.effect);
        State(store, s.ops[i := op'], s.execs + [Exec(i, op.call.input, s.clock)], s.clock + 1)
      else
        s.(ops := s.ops[i := op.(call := call)], clock := s.clock + 1)
    case Return(i) =>
      s.(ops := s.ops[i := s.ops[i].(ending := Done(Result(s.ops[i].call), s.clock))], clock := s.clock + 1)
  }

  /** A run of the system: every state follows from the one before by an enabled move. */
  ghost predicate IsRun(run: seq<State>) {
    && |run| > 0 && run[0] == START
    && forall i :: 0 <= i < |run| - 1 ==> Steps(run[i], run[i + 1])
  }

  ghost predicate Steps(s: State, s': State) {
    exists m :: Enabled(s, m) && s' == Next(s, m)
  }

  // ---------------------------------------------------------------- invariant

  /** The store after the first n executions. */
  function Replay(execs: seq<Exec>, n: nat): Store
    requires n <= |execs|
  {
    if n == 0 then map[] else Handle(Replay(execs, n - 1), execs[n - 1].input).0
  }

  lemma {:induction false} ReplayPrefix(execs: seq<Exec>, e: Exec, n: nat)
    requires n <= |execs|
    ensures Replay(execs + [e], n) == Replay(execs, n)
  {
    if n > 0 {
      ReplayPrefix(execs, e, n - 1);
    }
  }

  /** Execution j is one of operation i, inside its interval. */
  ghost predicate Within(s: State, i: nat, j: int)
    requires i < |s.ops|
  {
    && 0 <= j < |s.execs|
    && s.execs[j].op == i
    && s.ops[i].begin < s.execs[j].at
    && (s.ops[i].ending.Done? ==> s.execs[j].at < s.ops[i].ending.at)
  }

  ghost predicate OpOK(s: State, i: nat)
    requires i < |s.ops|
  {
    var op := s.ops[i];
    && op.begin < s.clock
    && CallOK(s.store, op.call)
    && (op.effect >= 0 <==> op.call.effects == 1)
    && (op.effect == -1 <==> op.call.effects == 0)
    && (op.effect >= 0 ==> Within(s, i, op.effect) && Takes(Replay(s.execs, op.effect), op.call.input))
    && (op.call.attempt.Executed? ==>
          Within(s, i, op.last) && op.call.attempt.reply == Handle(Replay(s.execs, op.last), op.call.input).1)
    && (op.ending.Done? ==> op.call.attempt.Executed? && op.ending.output == Result(op.call))
  }

  /** Execution j belongs to a known operation, and is that operation's effect if it changed the store. */
  ghost predicate ExecOK(s: State, j: nat)
    requires j < |s.execs|
  {
    var e := s.execs[j];
    && e.op < |s.ops| && e.input == s.ops[e.op].call.input && e.at < s.clock
    && (j > 0 ==> s.execs[j - 1].at < e.at)
    && (Takes(Replay(s.execs, j), e.input) ==> s.ops[e.op].effect == j)
  }

  ghost predicate Inv(s: State) {
    && Sound(s.store)
    && s.store == Replay(s.execs, |s.execs|)
    && (forall i: nat {:trigger OpOK(s, i)} :: i < |s.ops| ==> OpOK(s, i))
    && (forall j: nat {:trigger ExecOK(s, j)} :: j < |s.execs| ==> ExecOK(s, j))
  }

  lemma InvokeKeeps(s: State, input: Input)
    requires Inv(s)
    ensures Inv(Next(s, Invoke(input)))
  {
    var s' := Next(s, Invoke(input));
    forall i: nat | i < |s'.ops| ensures OpOK(s', i) {
      if i < |s.ops| { assert OpOK(s, i); }
    }
    forall j: nat | j < |s'.execs| ensures ExecOK(s', j) {
      assert ExecOK(s, j);
    }
  }

  lemma ReturnKeeps(s: State, i: nat)
    requires Inv(s) && Enabled(s, Return(i))
    ensures Inv(Next(s, Return(i)))
  {
    var s' := Next(s, Return(i));
    forall j: nat | j < |s'.execs| ensures ExecOK(s', j) {
      assert ExecOK(s, j);
    }
    forall k: nat | k < |s'.ops| ensures OpOK(s', k) {
      assert OpOK(s, k);
      assert s.ops[k].effect >= 0 ==> ExecOK(s, s.ops[k].effect);
      assert s.ops[k].call.attempt.Executed? ==> ExecOK(s, s.ops[k].last);
    }
  }

  lemma WaitKeeps(s: State, i: nat, ev: Event)
    requires Inv(s) && ev != Execute && Enabled(s, Progress(i, ev))
    ensures Inv(Next(s, Progress(i, ev)))
  {
    var s' := Next(s, Progress(i, ev));
    CallSteps(s.store, s.ops[i].call, ev) by { assert OpOK(s, i); }
    forall k: nat | k < |s'.ops| ensures OpOK(s', k) {
      assert OpOK(s, k);
    }
    forall j: nat | j < |s'.execs| ensures ExecOK(s', j) {
      assert ExecOK(s, j);
    }
  }

  /** What an execution does not touch, it leaves true. */
  lemma ExecuteOther(s: State, i: nat, k: nat)
    requires Inv(s) && Enabled(s, Progress(i, Execute)) && k < |s.ops| && k != i
    ensures OpOK(Next(s, Progress(i, Execute)), k)
  {
    var s' := Next(s, Progress(i, Execute));
    var e := s'.execs[|s.execs|];
    assert OpOK(s, i) && OpOK(s, k);
    CallSteps(s.store, s.ops[i].call, Execute);
    CallUndisturbed(s.store, s'.store, s.ops[k].call);
    var op := s.ops[k];
    if op.effect >= 0 { ReplayPrefix(s.execs, e, op.effect); }
    if op.call.attempt.Executed? { ReplayPrefix(s.execs, e, op.last); }
  }

  lemma ExecuteSelf(s: State, i: nat)
    requires Inv(s) && Enabled(s, Progress(i, Execute))
    ensures OpOK(Next(s, Progress(i, Execute)), i)
    ensures Takes(s.store, s.ops[i].call.input) ==> s.ops[i].effect == -1
  {
    var s' := Next(s, Progress(i, Execute));
    var n := |s.execs|;
    var e, op := s'.execs[n], s.ops[i];
    assert OpOK(s, i);
    CallSteps(s.store, op.call, Execute);
    ReplayPrefix(s.execs, e, n);
    if op.effect >= 0 { ReplayPrefix(s.execs, e, op.effect); }
    if op.call.input.Put? { PutIsCompareAndSet(s.store, op.call.input); }
  }

  lemma ExecuteKeeps(s: State, i: nat)
    requires Inv(s) && Enabled(s, Progress(i, Execute))
    ensures Inv(Next(s, Progress(i, Execute)))
  {
    var s' := Next(s, Progress(i, Execute));
    var n := |s.execs|;
    var e := s'.execs[n];
    CallSteps(s.store, s.ops[i].call, Execute) by { assert OpOK(s, i); }
    ExecuteSelf(s, i);
    forall k: nat | k < |s'.ops| ensures OpOK(s', k) {
      if k != i { ExecuteOther(s, i, k); }
    }
    ReplayPrefix(s.execs, e, n);
    forall j: nat | j < |s'.execs| ensures ExecOK(s', j) {
      if j < n {
        assert ExecOK(s, j);
        ReplayPrefix(s.execs, e, j);
      } else {
        assert n > 0 ==> ExecOK(s, n - 1);
      }
    }
  }

  lemma StepKeeps(s: State, m: Move)
    requires Inv(s) && Enabled(s, m)
    ensures Inv(Next(s, m))
  {
    match m
    case Invoke(input) => InvokeKeeps(s, input);
    case Return(i) => ReturnKeeps(s, i);
    case Progress(i, ev) =>
      if ev == Execute { ExecuteKeeps(s, i); } else { WaitKeeps(s, i, ev); }
  }

  lemma {:induction false} RunInv(run: seq<State>, k: nat)
    requires IsRun(run) && k < |run|
    ensures Inv(run[k])
    decreases k
  {
    if k > 0 {
      RunInv(run, k - 1);
      assert Steps(run[k - 1], run[k - 1 + 1]);
      var m :| Enabled(run[k - 1], m) && run[k] == Next(run[k - 1], m);
      StepKeeps(run[k - 1], m);
    }
  }

  // ---------------------------------------------------------------- linearizability

  predicate IsPut(op: Op, key: string) {
    op.call.input.Put? && op.call.input.key == key
  }

  /** `order` lists, without repetition and with these outputs, operations on `key`: all completed ones with the
      output they returned, and possibly some that still run. It respects real time, and the specification
      accepts it. */
  ghost predicate LinearizedBy(s: State, key: string, order: seq<nat>, outs: seq<Output>) {
    && |order| == |outs|
    && (forall p, q :: 0 <= p < q < |order| ==> order[p] != order[q])
    && (forall p :: 0 <= p < |order| ==>
          && order[p] < |s.ops| && s.ops[order[p]].call.input.key == key
          && (s.ops[order[p]].ending.Done? ==> outs[p] == s.ops[order[p]].ending.output))
    && (forall i :: 0 <= i < |s.ops| && s.ops[i].ending.Done? && s.ops[i].call.input.key == key ==> i in order)
    && (forall p, q :: 0 <= p < q < |order| && s.ops[order[q]].ending.Done? ==>
          s.ops[order[q]].ending.at >= s.ops[order[p]].begin)
    && Accepts(INIT, Operations(s, order, outs))
  }

  ghost predicate IsLinearizable(s: State, key: string) {
    exists order, outs :: LinearizedBy(s, key, order, outs)
  }

  function Operations(s: State, order: seq<nat>, outs: seq<Output>): seq<Operation>
    requires |order| == |outs| && forall p :: 0 <= p < |order| ==> order[p] < |s.ops|
  {
    seq(|order|, p requires 0 <= p < |order| => Operation(s.ops[order[p]].call.input, outs[p]))
  }

  /** Execution j is where its operation is linearized: its effect, or without one the execution it returned from. */
  predicate Marked(s: State, j: nat)
    requires j < |s.execs| && s.execs[j].op < |s.ops|
  {
    var op := s.ops[s.execs[j].op];
    op.effect == j || (op.effect == -1 && op.ending.Done? && op.last == j)
  }

  /** The output to put in the history; a running operation that took effect may yet return ErrMaybe. */
  function OutputOf(op: Op): Output {
    if op.ending.Done? then op.ending.output else Output("", 0, ErrMaybe)
  }

  /** Operations on `key` in the order of their linearization points among the first n executions. */
  ghost function Order(s: State, key: string, n: nat): seq<nat>
    requires n <= |s.execs| && forall j :: 0 <= j < |s.execs| ==> s.execs[j].op < |s.ops|
  {
    if n == 0 then []
    else
      var before := Order(s, key, n - 1);
      if Marked(s, n - 1) && s.execs[n - 1].input.key == key then before + [s.execs[n - 1].op] else before
  }

  /** The execution at which operation i is linearized. */
  function Point(op: Op): int {
    if op.effect >= 0 then op.effect else op.last
  }

  /** Operation i on `key` is linearized before execution n. */
  ghost predicate Placed(s: State, key: string, n: nat, i: nat) {
    && i < |s.ops|
    && var op := s.ops[i];
       && 0 <= Point(op) < n <= |s.execs|
       && s.execs[Point(op)].op == i
       && op.call.input.key == key
       && (op.effect >= 0 || op.ending.Done?)
  }

  ghost predicate Ascending(s: State, order: seq<nat>) {
    forall p, q :: 0 <= p < q < |order| ==>
      order[p] < |s.ops| && order[q] < |s.ops| && Point(s.ops[order[p]]) < Point(s.ops[order[q]])
  }

  lemma {:induction false} OrderPoints(s: State, key: string, n: nat)
    requires Inv(s) && n <= |s.execs| && forall j :: 0 <= j < |s.execs| ==> s.execs[j].op < |s.ops|
    ensures forall p :: 0 <= p < |Order(s, key, n)| ==> Placed(s, key, n, Order(s, key, n)[p])
    ensures Ascending(s, Order(s, key, n))
    decreases n
  {
    if n > 0 {
      OrderPoints(s, key, n - 1);
      if Marked(s, n - 1) && s.execs[n - 1].input.key == key {
        assert ExecOK(s, n - 1);
        assert OpOK(s, s.execs[n - 1].op);
        assert Placed(s, key, n, s.execs[n - 1].op);
      }
    }
  }

  lemma {:induction false} OrderHolds(s: State, key: string, n: nat, j: nat)
    requires forall j :: 0 <= j < |s.execs| ==> s.execs[j].op < |s.ops|
    requires j < n <= |s.execs| && Marked(s, j) && s.execs[j].input.key == key
    ensures s.execs[j].op in Order(s, key, n)
  {
    if j < n - 1 {
      OrderHolds(s, key, n - 1, j);
    }
  }

  /** Executions happen at increasing times. */
  lemma {:induction false} TimesIncrease(s: State, j: nat, k: nat)
    requires Inv(s) && j < k < |s.execs|
    ensures s.execs[j].at < s.execs[k].at
    decreases k
  {
    assert ExecOK(s, k);
    if j < k - 1 {
      TimesIncrease(s, j, k - 1);
    }
  }

  /** The operations of the order, as the specification reads them. */
  ghost function History(s: State, key: string, n: nat): seq<Operation>
    requires n <= |s.execs| && forall j :: 0 <= j < |s.execs| ==> s.execs[j].op < |s.ops|
  {
    if n == 0 then []
    else
      var before := History(s, key, n - 1);
      if Marked(s, n - 1) && s.execs[n - 1].input.key == key then
        before + [Operation(s.execs[n - 1].input, OutputOf(s.ops[s.execs[n - 1].op]))]
      else before
  }

  ghost predicate NoPutGotNoKey(s: State, key: string) {
    forall i :: 0 <= i < |s.ops| && IsPut(s.ops[i], key) && s.ops[i].ending.Done? ==>
      s.ops[i].ending.output.err != ErrNoKey
  }

  lemma {:induction false} ReplaySound(execs: seq<Exec>, n: nat)
    requires n <= |execs|
    ensures Sound(Replay(execs, n))
  {
    if n > 0 {
      ReplaySound(execs, n - 1);
    }
  }

  /** The specification accepts a marked execution, and moves as the store does. */
  lemma MarkedAccepted(s: State, key: string, j: nat)
    requires Inv(s) && NoPutGotNoKey(s, key) && j < |s.execs| && s.execs[j].op < |s.ops|
    requires Marked(s, j) && s.execs[j].input.key == key
    ensures var e := s.execs[j];
            var st := View(Replay(s.execs, j), key);
            Step(st, e.input, OutputOf(s.ops[e.op])) == (true, View(Replay(s.execs, j + 1), key))
  {
    var e := s.execs[j];
    assert ExecOK(s, j);
    assert OpOK(s, e.op);
    ReplaySound(s.execs, j);
    if e.input.Put? {
      PutIsCompareAndSet(Replay(s.execs, j), e.input);
    }
  }

  /** An execution that is not a linearization point of this key does not change what the specification sees. */
  lemma UnmarkedSilent(s: State, key: string, j: nat)
    requires Inv(s) && j < |s.execs| && s.execs[j].op < |s.ops|
    requires !(Marked(s, j) && s.execs[j].input.key == key)
    ensures View(Replay(s.execs, j + 1), key) == View(Replay(s.execs, j), key)
  {
    var e := s.execs[j];
    assert ExecOK(s, j);
    ReplaySound(s.execs, j);
    if e.input.Put? {
      PutIsCompareAndSet(Replay(s.execs, j), e.input);
    }
  }

  lemma {:induction false} HistoryAccepted(s: State, key: string, n: nat)
    requires Inv(s) && NoPutGotNoKey(s, key) && n <= |s.execs|
    requires forall j :: 0 <= j < |s.execs| ==> s.execs[j].op < |s.ops|
    ensures Accepts(INIT, History(s, key, n))
    ensures Final(INIT, History(s, key, n)) == View(Replay(s.execs, n), key)
    decreases n
  {
    if n > 0 {
      HistoryAccepted(s, key, n - 1);
      if Marked(s, n - 1) && s.execs[n - 1].input.key == key {
        MarkedAccepted(s, key, n - 1);
        AcceptsAppend(INIT, History(s, key, n - 1),
                      Operation(s.execs[n - 1].input, OutputOf(s.ops[s.execs[n - 1].op])));
      } else {
        UnmarkedSilent(s, key, n - 1);
      }
    }
  }

  ghost function Outputs(s: State, order: seq<nat>): seq<Output>
    requires forall p :: 0 <= p < |order| ==> order[p] < |s.ops|
  {
    seq(|order|, p requires 0 <= p < |order| => OutputOf(s.ops[order[p]]))
  }

  lemma {:induction false} HistoryIsOrder(s: State, key: string, n: nat)
    requires Inv(s) && n <= |s.execs|
    requires forall j :: 0 <= j < |s.execs| ==> s.execs[j].op < |s.ops|
    ensures forall p :: 0 <= p < |Order(s, key, n)| ==> Order(s, key, n)[p] < |s.ops|
    ensures Operations(s, Order(s, key, n), Outputs(s, Order(s, key, n))) == History(s, key, n)
    decreases n
  {
    if n > 0 {
      HistoryIsOrder(s, key, n - 1);
      assert ExecOK(s, n - 1);
    }
  }

  lemma ExecsKnown(s: State)
    requires Inv(s)
    ensures forall j :: 0 <= j < |s.execs| ==> s.execs[j].op < |s.ops|
  {
    forall j | 0 <= j < |s.execs| ensures s.execs[j].op < |s.ops| {
      assert ExecOK(s, j);
    }
  }

  /** Linearizability, in every reachable state: the operations on a key, in the order of their linearization points,
      respect real time and are accepted by the specification, unless a Put was answered ErrNoKey. Each stands at its
      one effect, or without one at the failed attempt it returned from, and the specification ends where the store is. */
  lemma Linearizable(run: seq<State>, k: nat, key: string) returns (order: seq<nat>, outs: seq<Output>)
    requires IsRun(run) && k < |run| && NoPutGotNoKey(run[k], key)
    ensures LinearizedBy(run[k], key, order, outs)
    ensures Ascending(run[k], order)
    ensures forall p :: 0 <= p < |order| ==> Placed(run[k], key, |run[k].execs|, order[p])
    ensures Final(INIT, Operations(run[k], order, outs)) == View(run[k].store, key)
  {
    var s := run[k];
    RunInv(run, k);
    ExecsKnown(s);
    var n := |s.execs|;
    order := Order(s, key, n);
    OrderPoints(s, key, n);
    HistoryAccepted(s, key, n);
    HistoryIsOrder(s, key, n);
    outs := Outputs(s, order);
    forall i | 0 <= i < |s.ops| && s.ops[i].ending.Done? && s.ops[i].call.input.key == key ensures i in order {
      assert OpOK(s, i);
      assert ExecOK(s, Point(s.ops[i]));
      OrderHolds(s, key, n, Point(s.ops[i]));
    }
    forall p, q | 0 <= p < q < |order|
      ensures order[p] != order[q]
      ensures s.ops[order[q]].ending.Done? ==> s.ops[order[q]].ending.at >= s.ops[order[p]].begin
    {
      assert Placed(s, key, n, order[p]) && Placed(s, key, n, order[q]);
      assert OpOK(s, order[p]) && OpOK(s, order[q]);
      TimesIncrease(s, Point(s.ops[order[p]]), Point(s.ops[order[q]]));
    }
    forall p | 0 <= p < |order| ensures order[p] < |s.ops| && s.ops[order[p]].call.input.key == key {
      assert Placed(s, key, n, order[p]);
    }
  }

  /** A history with a Put answered ErrNoKey has no accepted order. */
  lemma NoKeyBreaksLinearizability(s: State, key: string, order: seq<nat>, outs: seq<Output>)
    requires !NoPutGotNoKey(s, key)
    ensures !LinearizedBy(s, key, order, outs)
  {
    if LinearizedBy(s, key, order, outs) {
      var i :| 0 <= i < |s.ops| && IsPut(s.ops[i], key) && s.ops[i].ending.Done?
               && s.ops[i].ending.output.err == ErrNoKey;
      var p :| 0 <= p < |order| && order[p] == i;
      NoKeyNeverAccepted(INIT, Operations(s, order, outs), p);
    }
  }

  /** Every returned Put on the key named version 0, or ran last when the key was there. */
  ghost predicate PutsFoundKey(s: State, key: string) {
    forall i :: 0 <= i < |s.ops| && IsPut(s.ops[i], key) && s.ops[i].ending.Done? ==>
      s.ops[i].call.input.version == 0 || (0 <= s.ops[i].last < |s.execs| && key in Replay(s.execs, s.ops[i].last))
  }

  /** So a history is linearizable exactly when none of its Puts on the key was answered ErrNoKey, that is, exactly
      when none named a version other than 0 of a key that was absent when it last ran. */
  lemma LinearizableExactly(run: seq<State>, k: nat, key: string)
    requires IsRun(run) && k < |run|
    ensures IsLinearizable(run[k], key) <==> NoPutGotNoKey(run[k], key)
    ensures IsLinearizable(run[k], key) <==> PutsFoundKey(run[k], key)
  {
    forall i | 0 <= i < |run[k].ops| && IsPut(run[k].ops[i], key) && run[k].ops[i].ending.Done?
      ensures 0 <= run[k].ops[i].last < |run[k].execs|
      ensures run[k].ops[i].ending.output.err == ErrNoKey <==>
                run[k].ops[i].call.input.version != 0 && key !in Replay(run[k].execs, run[k].ops[i].last)
    {
      NoKeyExactly(run, k, i);
    }
    if NoPutGotNoKey(run[k], key) {
      var order, outs := Linearizable(run, k, key);
    } else {
      forall order, outs ensures !LinearizedBy(run[k], key, order, outs) {
        NoKeyBreaksLinearizability(run[k], key, order, outs);
      }
    }
  }

  /** That answer is given exactly to a Put that names a version other than 0 of a key absent when it last ran. */
  lemma NoKeyExactly(run: seq<State>, k: nat, i: nat)
    requires IsRun(run) && k < |run| && i < |run[k].ops|
    requires run[k].ops[i].call.input.Put? && run[k].ops[i].ending.Done?
    ensures var s, op := run[k], run[k].ops[i];
            && 0 <= op.last < |s.execs|
            && (op.ending.output.err == ErrNoKey <==>
                  op.call.input.version != 0 && op.call.input.key !in Replay(s.execs, op.last))
  {
    RunInv(run, k);
    assert OpOK(run[k], i);
    ReplaySound(run[k].execs, run[k].ops[i].last);
    PutIsCompareAndSet(Replay(run[k].execs, run[k].ops[i].last), run[k].ops[i].call.input);
  }

  /** Every answer, in full: what the store at the operation's last execution says, with a mismatch reported as ErrMaybe
      exactly if an earlier call was lost. */
  lemma AnswersExactly(run: seq<State>, k: nat, i: nat)
    requires IsRun(run) && k < |run| && i < |run[k].ops| && run[k].ops[i].ending.Done?
    ensures 0 <= run[k].ops[i].last < |run[k].execs|
    ensures var op, s := run[k].ops[i], Replay(run[k].execs, run[k].ops[i].last);
            var input, output := op.call.input, op.ending.output;
            if input.Get? then
              output == if input.key in s then Output(s[input.key].value, s[input.key].version, OK)
                        else Output("", 0, ErrNoKey)
            else
              var differs := input.key in s && input.version != s[input.key].version;
              && output.value == "" && output.version == 0
              && (output.err == OK <==> input.version == VersionOf(s, input.key))
              && (output.err == ErrNoKey <==> input.key !in s && input.version != 0)
              && (output.err == ErrVersion <==> differs && !op.call.retried)
              && (output.err == ErrMaybe <==> differs && op.call.retried)
  {
    RunInv(run, k);
    var op := run[k].ops[i];
    assert OpOK(run[k], i);
    ReplaySound(run[k].execs, op.last);
    if op.call.input.Put? {
      PutIsCompareAndSet(Replay(run[k].execs, op.last), op.call.input);
    }
  }

  /** It happens: any first Put with a version other than 0 gives a history without an accepted order. */
  lemma NoKeyHappens(key: string, value: string, version: nat) returns (run: seq<State>)
    requires version != 0
    ensures IsRun(run)
    ensures !IsLinearizable(run[|run| - 1], key)
  {
    var invoke, send, execute, back :=
      Invoke(Put(key, value, version)), Progress(0, Send), Progress(0, Execute), Return(0);
    var s1 := Next(START, invoke);
    assert Steps(START, s1);
    var s2 := Next(s1, send);
    assert Steps(s1, s2);
    var s3 := Next(s2, execute);
    assert Steps(s2, s3);
    var s4 := Next(s3, back);
    assert Steps(s3, s4);
    run := [START, s1, s2, s3, s4];
    assert IsPut(s4.ops[0], key) && s4.ops[0].ending.output.err == ErrNoKey;
    LinearizableExactly(run, 4, key);
  }

  // ---------------------------------------------------------------- conservation

  /** How many executions of Puts on `key` took effect, over the first n operations. */
  function EffectsOn(ops: seq<Op>, key: string, n: nat): nat
    requires n <= |ops|
  {
    if n == 0 then 0
    else EffectsOn(ops, key, n - 1) + if IsPut(ops[n - 1], key) then ops[n - 1].call.effects else 0
  }

  /** How many Puts on `key`, among the first n operations, returned `err`. */
  function Answered(ops: seq<Op>, key: string, err: Err, n: nat): nat
    requires n <= |ops|
  {
    if n == 0 then 0
    else Answered(ops, key, err, n - 1)
         + if IsPut(ops[n - 1], key) && ops[n - 1].ending.Done? && ops[n - 1].ending.output.err == err then 1 else 0
  }

  /** How many Puts on `key`, among the first n operations, have not returned. */
  function Unanswered(ops: seq<Op>, key: string, n: nat): nat
    requires n <= |ops|
  {
    if n == 0 then 0
    else Unanswered(ops, key, n - 1) + if IsPut(ops[n - 1], key) && ops[n - 1].ending.Running? then 1 else 0
  }

  lemma {:induction false} EffectsUpdate(ops: seq<Op>, key: string, i: nat, op: Op, n: nat)
    requires i < |ops| && n <= |ops| && op.call.input == ops[i].call.input
    ensures EffectsOn(ops[i := op], key, n)
            == EffectsOn(ops, key, n) + if i < n && IsPut(op, key) then op.call.effects - ops[i].call.effects else 0
  {
    if n > 0 {
      EffectsUpdate(ops, key, i, op, n - 1);
    }
  }

  lemma {:induction false} EffectsAppend(ops: seq<Op>, key: string, op: Op, n: nat)
    requires n <= |ops|
    ensures EffectsOn(ops + [op], key, n) == EffectsOn(ops, key, n)
  {
    if n > 0 {
      EffectsAppend(ops, key, op, n - 1);
    }
  }

  /** Every version of a key was made by one effective execution of a Put on it. */
  ghost predicate Conserved(s: State, key: string) {
    VersionOf(s.store, key) == EffectsOn(s.ops, key, |s.ops|)
  }

  lemma StepConserves(s: State, m: Move, key: string)
    requires Inv(s) && Enabled(s, m) && Conserved(s, key)
    ensures Conserved(Next(s, m), key)
  {
    var s' := Next(s, m);
    match m {
      case Invoke(input) =>
        EffectsAppend(s.ops, key, s'.ops[|s.ops|], |s.ops|);
      case Return(i) =>
        EffectsUpdate(s.ops, key, i, s'.ops[i], |s.ops|);
      case Progress(i, ev) =>
        EffectsUpdate(s.ops, key, i, s'.ops[i], |s.ops|);
        if s.ops[i].call.input.Put? {
          PutIsCompareAndSet(s.store, s.ops[i].call.input);
        }
    }
  }

  lemma {:induction false} RunConserves(run: seq<State>, k: nat, key: string)
    requires IsRun(run) && k < |run|
    ensures Conserved(run[k], key)
    decreases k
  {
    if k > 0 {
      RunConserves(run, k - 1, key);
      RunInv(run, k - 1);
      assert Steps(run[k - 1], run[k - 1 + 1]);
      var m :| Enabled(run[k - 1], m) && run[k] == Next(run[k - 1], m);
      StepConserves(run[k - 1], m, key);
    }
  }

  lemma {:induction false} EffectsAnswered(s: State, key: string, n: nat)
    requires Inv(s) && n <= |s.ops|
    ensures Answered(s.ops, key, OK, n) <= EffectsOn(s.ops, key, n)
            <= Answered(s.ops, key, OK, n) + Answered(s.ops, key, ErrMaybe, n) + Unanswered(s.ops, key, n)
  {
    if n > 0 {
      EffectsAnswered(s, key, n - 1);
      assert OpOK(s, n - 1);
      var op := s.ops[n - 1];
      if IsPut(op, key) && op.ending.Done? {
        PutAtMostOnce(s.store, op.call);
      }
    }
  }

  /** Conservation: once all Puts on a key have returned, its version lies between the OKs and the OKs plus the
      ErrMaybes, and is the number of OKs when there were no ErrMaybes. */
  lemma VersionCountsPuts(run: seq<State>, k: nat, key: string)
    requires IsRun(run) && k < |run|
    ensures var s, n := run[k], |run[k].ops|;
            var oks, maybes := Answered(s.ops, key, OK, n), Answered(s.ops, key, ErrMaybe, n);
            && oks <= VersionOf(s.store, key) <= oks + maybes + Unanswered(s.ops, key, n)
            && (Unanswered(s.ops, key, n) == 0 ==> oks <= VersionOf(s.store, key) <= oks + maybes)
            && (Unanswered(s.ops, key, n) == 0 && maybes == 0 ==> VersionOf(s.store, key) == oks)
  {
    RunInv(run, k);
    RunConserves(run, k, key);
    EffectsAnswered(run[k], key, |run[k].ops|);
  }

  lemma {:induction false} NoResendNoMaybe(s: State, key: string, n: nat)
    requires Inv(s) && n <= |s.ops| && forall i :: 0 <= i < n && IsPut(s.ops[i], key) ==> !s.ops[i].call.retried
    ensures Answered(s.ops, key, ErrMaybe, n) == 0
  {
    if n > 0 {
      NoResendNoMaybe(s, key, n - 1);
      assert OpOK(s, n - 1);
    }
  }

  /** The reliable network: if no Put on the key was ever resent and all have returned, its version is exactly the
      number of OKs. */
  lemma ReliableVersionIsOks(run: seq<State>, k: nat, key: string)
    requires IsRun(run) && k < |run| && Unanswered(run[k].ops, key, |run[k].ops|) == 0
    requires forall i :: 0 <= i < |run[k].ops| && IsPut(run[k].ops[i], key) ==> !run[k].ops[i].call.retried
    ensures VersionOf(run[k].store, key) == Answered(run[k].ops, key, OK, |run[k].ops|)
  {
    RunInv(run, k);
    VersionCountsPuts(run, k, key);
    NoResendNoMaybe(run[k], key, |run[k].ops|);
  }
}
