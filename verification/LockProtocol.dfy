/** The distributed lock: any number of clients, each with a lock object on some key, running Acquire and Release
    through clerks over the lossy network. */
module LockProtocol {
  import opened KvServer
  import opened KvClerk

  const AVAILABLE := "available"

  /** Which clerk call a lock object is waiting for, if any. */
  datatype Pc = Idle | Making | AcqGet | AcqPut(at: nat) | AcqCheck | RelPut | RelCheck

  datatype Control = Control(key: string, id: string, held: bool, version: nat, pc: Pc)

  /** The clerk operation that is waited for. */
  function Request(c: Control): Input
    requires c.pc != Idle
  {
    match c.pc
    case Making => Put(c.key, AVAILABLE, 0)
    case AcqGet => Get(c.key)
    case AcqPut(at) => Put(c.key, c.id, at)
    case AcqCheck => Get(c.key)
    case RelPut => Put(c.key, AVAILABLE, c.version)
    case RelCheck => Get(c.key)
  }

  /** What the lock object does when that operation returns; `Idle` is a return to the application. */
  function OnAnswer(c: Control, out: Output): Control
    requires c.pc != Idle
  {
    match c.pc
    case Making => c.(pc := Idle)
    case AcqGet =>
      if out.err != OK then c
      else if out.value == c.id then c.(held := true, version := out.version, pc := Idle)
      else if out.value != AVAILABLE then c
      else c.(pc := AcqPut(out.version))
    case AcqPut(at) =>
      if out.err == OK then c.(held := true, version := at + 1, pc := Idle)
      else if out.err == ErrMaybe then c.(pc := AcqCheck)
      else c.(pc := AcqGet)
    case AcqCheck =>
      if out.err == OK && out.value == c.id then c.(held := true, version := out.version, pc := Idle)
      else c.(pc := AcqGet)
    case RelPut =>
      if out.err == OK then c.(held := false, pc := Idle)
      else if out.err == ErrMaybe then c.(pc := RelCheck)
      else c
    case RelCheck =>
      if out.err == OK && out.value != c.id then c.(held := false, pc := Idle)
      else c.(pc := RelPut)
  }

  function BeginAcquire(c: Control): Control {
    c.(pc := AcqGet)
  }

  /** Releasing a lock that is not held does nothing. */
  function BeginRelease(c: Control): Control {
    if c.held then c.(pc := RelPut) else c
  }

  // ---------------------------------------------------------------- the system

  /** A lock object with its running clerk operation. `won` remembers whether the Put of the current Acquire took
      effect. */
  datatype Client = Client(lock: Control, call: Call, won: bool)

  datatype State = State(store: Store, clients: seq<Client>)

  /** `Other` is a request of some other client of the server. */
  datatype Move = Acquire(i: nat) | Release(i: nat) | Progress(i: nat, ev: Event) | Return(i: nat) | Other(input: Input)

  /** Lock ids are distinct, and no client writes a lock's key except through its lock object. */
  predicate DistinctIds(clients: seq<Client>) {
    && (forall i :: 0 <= i < |clients| ==> clients[i].lock.id != AVAILABLE)
    && (forall i, j :: 0 <= i < j < |clients| ==> clients[i].lock.id != clients[j].lock.id)
  }

  predicate IsStart(s: State) {
    && s.store == map[] && DistinctIds(s.clients)
    && forall i :: 0 <= i < |s.clients| ==>
         var c := s.clients[i];
         c.lock.pc == Making && !c.lock.held && c.call == Begin(Request(c.lock)) && !c.won
  }

  predicate Enabled(s: State, m: Move) {
    match m
    case Acquire(i) => i < |s.clients| && s.clients[i].lock.pc == Idle
    case Release(i) => i < |s.clients| && s.clients[i].lock.pc == Idle
    case Progress(i, ev) => i < |s.clients| && s.clients[i].lock.pc != Idle && Can(s.clients[i].call, ev)
    case Return(i) => i < |s.clients| && s.clients[i].lock.pc != Idle && s.clients[i].call.attempt.Executed?
    case Other(input) => forall i :: 0 <= i < |s.clients| ==> s.clients[i].lock.key != input.key
  }

  /** The client moves to a new control state, and to the call it asks for. */
  function Turn(c: Client, lock: Control): Client {
    Client(lock, if lock.pc == Idle then c.call else Begin(Request(lock)), c.lock.pc.AcqPut? && c.call.effects == 1)
  }

  function Next(s: State, m: Move): State
    requires Enabled(s, m)
  {
    match m
    case Acquire(i) => s.(clients := s.clients[i := Turn(s.clients[i], BeginAcquire(s.clients[i].lock))])
    case Release(i) => s.(clients := s.clients[i := Turn(s.clients[i], BeginRelease(s.clients[i].lock))])
    case Progress(i, ev) =>
      var (store, call) := After(s.store, s.clients[i].call, ev);
      State(store, s.clients[i := s.clients[i].(call := call)])
    case Return(i) =>
      var c := s.clients[i];
      s.(clients := s.clients[i := Turn(c, OnAnswer(c.lock, Result(c.call)))])
    case Other(input) => s.(store := Handle(s.store, input).0)
  }

  ghost predicate Steps(s: State, s': State) {
    exists m :: Enabled(s, m) && s' == Next(s, m)
  }

  ghost predicate IsRun(run: seq<State>) {
    && |run| > 0 && IsStart(run[0])
    && forall k :: 0 <= k < |run| - 1 ==> Steps(run[k], run[k + 1])
  }

  // ---------------------------------------------------------------- invariant

  /** The client owns the lock: from the effect of its acquiring Put to the effect of its releasing Put. */
  predicate Owns(c: Client) {
    match c.lock.pc
    case Making => false
    case Idle => c.lock.held
    case AcqGet => c.lock.held
    case AcqPut(_) => c.call.effects == 1
    case AcqCheck => c.won
    case RelPut => c.call.effects == 0
    case RelCheck => false
  }

  /** The version under which an owner holds it. */
  function OwnVersion(c: Client): nat {
    match c.lock.pc
    case AcqPut(at) => at + 1
    case AcqCheck => if c.call.attempt.Executed? then c.call.attempt.reply.version else 0
    case _ => c.lock.version
  }

  /** A lock's value is "available" exactly at odd versions. */
  predicate Parity(value: string, version: nat) {
    value == AVAILABLE <==> version % 2 == 1
  }

  ghost predicate ControlOK(c: Client) {
    && (c.lock.held ==> c.lock.pc in {Idle, AcqGet, RelPut, RelCheck})
    && (c.lock.pc in {RelPut, RelCheck} ==> c.lock.held)
    && (c.lock.pc.AcqPut? ==> c.lock.pc.at % 2 == 1)
    && (c.lock.pc != Idle ==> c.call.input == Request(c.lock))
    && (c.lock.pc == RelPut && c.call.attempt.Executed? ==> c.call.effects == 1)
  }

  /** The answer to a Get shows the client's own id exactly if it owns the lock. */
  ghost predicate AnswerOK(c: Client) {
    c.lock.pc in {AcqGet, AcqCheck, RelCheck} && c.call.attempt.Executed? ==>
      && var reply := c.call.attempt.reply;
         reply.err == OK && Parity(reply.value, reply.version) && (reply.value == c.lock.id <==> Owns(c))
         && (c.lock.pc == AcqGet && Owns(c) ==> reply.version == c.lock.version)
  }

  ghost predicate StoreOK(store: Store, c: Client) {
    var key := c.lock.key;
    && (c.lock.pc != Making || c.call.attempt.Executed? ==> key in store)
    && (c.lock.pc != Idle ==> CallOK(store, c.call))
    && (key in store ==> Parity(store[key].value, store[key].version))
    && (Owns(c) <==> key in store && store[key].value == c.lock.id)
    && (Owns(c) && (c.lock.pc == AcqCheck ==> c.call.attempt.Executed?) ==> store[key].version == OwnVersion(c))
  }

  ghost predicate ClientOK(store: Store, c: Client) {
    ControlOK(c) && AnswerOK(c) && StoreOK(store, c)
  }

  ghost predicate NamedIn(s: State, key: string, j: nat) {
    j < |s.clients| && s.clients[j].lock.key == key && key in s.store && s.store[key].value == s.clients[j].lock.id
  }

  /** The lock of client i is free or names one of its clients. */
  ghost predicate KnownOwner(s: State, i: nat)
    requires i < |s.clients|
  {
    var key := s.clients[i].lock.key;
    key in s.store ==> s.store[key].value == AVAILABLE || exists j: nat :: NamedIn(s, key, j)
  }

  ghost predicate Inv(s: State) {
    && Sound(s.store) && DistinctIds(s.clients)
    && (forall i: nat {:trigger ClientOK(s.store, s.clients[i])} :: i < |s.clients| ==> ClientOK(s.store, s.clients[i]))
    && (forall i: nat {:trigger KnownOwner(s, i)} :: i < |s.clients| ==> KnownOwner(s, i))
  }

  lemma StartInv(s: State)
    requires IsStart(s)
    ensures Inv(s)
  {
  }

  lemma AcquireOK(store: Store, c: Client)
    requires ClientOK(store, c) && c.lock.pc == Idle
    ensures ClientOK(store, Turn(c, BeginAcquire(c.lock)))
  {
  }

  lemma ReleaseOK(store: Store, c: Client)
    requires ClientOK(store, c) && c.lock.pc == Idle
    ensures ClientOK(store, Turn(c, BeginRelease(c.lock)))
  {
  }

  lemma ReturnOK(store: Store, c: Client)
    requires Sound(store) && ClientOK(store, c) && c.lock.pc != Idle && c.call.attempt.Executed?
    requires c.lock.id != AVAILABLE
    ensures ClientOK(store, Turn(c, OnAnswer(c.lock, Result(c.call))))
  {
  }

  lemma ProgressOK(store: Store, c: Client, ev: Event)
    requires Sound(store) && ClientOK(store, c) && c.lock.pc != Idle && Can(c.call, ev) && c.lock.id != AVAILABLE
    ensures var (store', call) := After(store, c.call, ev);
            ClientOK(store', c.(call := call))
  {
    CallSteps(store, c.call, ev);
    if c.call.input.Put? {
      PutIsCompareAndSet(store, c.call.input);
    }
  }

  /** Moves of one client that leave the store alone keep the invariant if they keep it for that client. */
  lemma LocalKeeps(s: State, i: nat, c: Client)
    requires Inv(s) && i < |s.clients| && ClientOK(s.store, c)
    requires c.lock.key == s.clients[i].lock.key && c.lock.id == s.clients[i].lock.id
    ensures Inv(s.(clients := s.clients[i := c]))
  {
    var s' := s.(clients := s.clients[i := c]);
    forall k: nat | k < |s'.clients| ensures ClientOK(s'.store, s'.clients[k]) && KnownOwner(s', k) {
      assert ClientOK(s.store, s.clients[k]);
      assert KnownOwner(s, k);
      var key := s.clients[k].lock.key;
      if key in s.store && s.store[key].value != AVAILABLE {
        var j: nat :| NamedIn(s, key, j);
        assert NamedIn(s', key, j);
      }
    }
  }

  /** An execution changes a lock's entry in three ways only: it creates it, the client takes it when free, or the
      client frees it while owning it. */
  lemma ExecuteEntry(store: Store, c: Client)
    requires Sound(store) && ClientOK(store, c) && c.lock.id != AVAILABLE && c.lock.pc != Idle
    requires Takes(store, c.call.input)
    ensures var key, store' := c.lock.key, Handle(store, c.call.input).0;
            && key in store'
            && (|| (key !in store && store'[key].value == AVAILABLE)
                || (key in store && store[key].value == AVAILABLE && store'[key].value == c.lock.id)
                || (key in store && store[key].value == c.lock.id && store'[key].value == AVAILABLE))
            && Parity(store'[key].value, store'[key].version)
  {
    PutIsCompareAndSet(store, c.call.input);
  }

  lemma ExecuteOther(store: Store, c: Client, d: Client)
    requires Sound(store) && ClientOK(store, c) && ClientOK(store, d)
    requires c.lock.id != AVAILABLE && d.lock.id != AVAILABLE && c.lock.id != d.lock.id
    requires c.lock.pc != Idle && Can(c.call, Execute)
    ensures ClientOK(Handle(store, c.call.input).0, d)
  {
    var store' := Handle(store, c.call.input).0;
    if Takes(store, c.call.input) {
      ExecuteEntry(store, c);
      PutIsCompareAndSet(store, c.call.input);
      if d.lock.pc != Idle {
        CallUndisturbed(store, store', d.call);
      }
    }
  }

  lemma ExecuteKeeps(s: State, i: nat)
    requires Inv(s) && Enabled(s, Progress(i, Execute))
    ensures Inv(Next(s, Progress(i, Execute)))
  {
    var s' := Next(s, Progress(i, Execute));
    var c := s.clients[i];
    assert ClientOK(s.store, c);
    CallSteps(s.store, c.call, Execute);
    ProgressOK(s.store, c, Execute);
    forall k: nat | k < |s'.clients| ensures ClientOK(s'.store, s'.clients[k]) {
      if k != i {
        assert ClientOK(s.store, s.clients[k]);
        ExecuteOther(s.store, c, s.clients[k]);
      }
    }
    forall k: nat | k < |s'.clients| ensures KnownOwner(s', k) {
      ExecuteNamed(s, i, k);
    }
  }

  lemma ExecuteNamed(s: State, i: nat, k: nat)
    requires Inv(s) && Enabled(s, Progress(i, Execute)) && k < |s.clients|
    ensures KnownOwner(Next(s, Progress(i, Execute)), k)
  {
    var s' := Next(s, Progress(i, Execute));
    var c, key := s.clients[i], s.clients[k].lock.key;
    assert ClientOK(s.store, c);
    assert KnownOwner(s, k);
    if Takes(s.store, c.call.input) && c.lock.key == key {
      ExecuteEntry(s.store, c);
      assert s'.store[key].value == c.lock.id ==> NamedIn(s', key, i);
    } else {
      assert key in s'.store ==> key in s.store && s'.store[key] == s.store[key];
      if key in s.store && s.store[key].value != AVAILABLE {
        var j: nat :| NamedIn(s, key, j);
        assert NamedIn(s', key, j);
      }
    }
  }

  lemma OtherKeeps(s: State, input: Input)
    requires Inv(s) && Enabled(s, Other(input))
    ensures Inv(Next(s, Other(input)))
  {
    var s' := Next(s, Other(input));
    if input.Put? {
      PutIsCompareAndSet(s.store, input);
    }
    forall k: nat | k < |s'.clients| ensures ClientOK(s'.store, s'.clients[k]) && KnownOwner(s', k) {
      var c := s.clients[k];
      assert ClientOK(s.store, c);
      assert KnownOwner(s, k);
      if c.lock.pc != Idle {
        CallUndisturbed(s.store, s'.store, c.call);
      }
      var key := c.lock.key;
      if key in s.store && s.store[key].value != AVAILABLE {
        var j: nat :| NamedIn(s, key, j);
        assert NamedIn(s', key, j);
      }
    }
  }

  lemma StepKeeps(s: State, m: Move)
    requires Inv(s) && Enabled(s, m)
    ensures Inv(Next(s, m))
  {
    if m.Other? {
      OtherKeeps(s, m.input);
    } else {
      var c := s.clients[m.i];
      assert ClientOK(s.store, c);
      match m {
        case Acquire(i) =>
          AcquireOK(s.store, c);
          LocalKeeps(s, i, Turn(c, BeginAcquire(c.lock)));
        case Release(i) =>
          ReleaseOK(s.store, c);
          LocalKeeps(s, i, Turn(c, BeginRelease(c.lock)));
        case Return(i) =>
          ReturnOK(s.store, c);
          LocalKeeps(s, i, Turn(c, OnAnswer(c.lock, Result(c.call))));
        case Progress(i, ev) =>
          if ev == Execute {
            ExecuteKeeps(s, i);
          } else {
            ProgressOK(s.store, c, ev);
            LocalKeeps(s, i, c.(call := After(s.store, c.call, ev).1));
          }
      }
    }
  }

  lemma {:induction false} RunInv(run: seq<State>, k: nat)
    requires IsRun(run) && k < |run|
    ensures Inv(run[k])
    decreases k
  {
    if k == 0 {
      StartInv(run[0]);
    } else {
      RunInv(run, k - 1);
      assert Steps(run[k - 1], run[k - 1 + 1]);
      var m :| Enabled(run[k - 1], m) && run[k] == Next(run[k - 1], m);
      StepKeeps(run[k - 1], m);
    }
  }

  // ---------------------------------------------------------------- what the lock promises

  /** Between the return of Acquire and the start of Release. */
  predicate Holding(c: Client) {
    c.lock.held && c.lock.pc !in {RelPut, RelCheck}
  }

  /** Mutual exclusion: no two clients ever hold one lock, or even own it. */
  lemma MutualExclusion(run: seq<State>, k: nat, i: nat, j: nat)
    requires IsRun(run) && k < |run| && i < |run[k].clients| && j < |run[k].clients| && i != j
    requires run[k].clients[i].lock.key == run[k].clients[j].lock.key
    ensures !(Holding(run[k].clients[i]) && Holding(run[k].clients[j]))
    ensures !(Owns(run[k].clients[i]) && Owns(run[k].clients[j]))
    ensures Holding(run[k].clients[i]) ==> Owns(run[k].clients[i])
  {
    RunInv(run, k);
    var s := run[k];
    assert ClientOK(s.store, s.clients[i]) && ClientOK(s.store, s.clients[j]);
  }

  /** Ownership: while a client holds the lock the server's entry is exactly its id at its version; in every state
      the entry names a client exactly if that client owns the lock, and is "available" exactly at odd versions
      and exactly when no client owns it, so a lock is never left behind. */
  lemma Ownership(run: seq<State>, k: nat, i: nat)
    requires IsRun(run) && k < |run| && i < |run[k].clients|
    ensures var s, c := run[k], run[k].clients[i];
            var key := c.lock.key;
            && (Holding(c) ==> key in s.store && s.store[key] == Entry(c.lock.id, c.lock.version))
            && (Owns(c) <==> key in s.store && s.store[key].value == c.lock.id)
            && (key in s.store ==>
                  && (s.store[key].value == AVAILABLE <==> s.store[key].version % 2 == 1)
                  && (s.store[key].value == AVAILABLE <==>
                        forall j :: 0 <= j < |s.clients| && s.clients[j].lock.key == key ==> !Owns(s.clients[j])))
  {
    RunInv(run, k);
    var s := run[k];
    var key := s.clients[i].lock.key;
    assert ClientOK(s.store, s.clients[i]);
    assert KnownOwner(s, i);
    if key in s.store {
      forall j | 0 <= j < |s.clients| && s.clients[j].lock.key == key
        ensures Owns(s.clients[j]) <==> s.store[key].value == s.clients[j].lock.id
      {
        assert ClientOK(s.store, s.clients[j]);
      }
      if s.store[key].value != AVAILABLE {
        var j: nat :| NamedIn(s, key, j);
        assert Owns(s.clients[j]);
      }
    }
  }

  /** The calls of Release: its Put returns OK or ErrMaybe, never plain ErrVersion or ErrNoKey, and both mean that
      exactly one execution freed the lock; the Get after an ErrMaybe confirms it, so Release never puts twice. */
  lemma ReleaseTakesEffect(run: seq<State>, k: nat, i: nat)
    requires IsRun(run) && k < |run| && i < |run[k].clients| && run[k].clients[i].call.attempt.Executed?
    ensures var c := run[k].clients[i];
            && (c.lock.pc == RelPut ==> Result(c.call).err in {OK, ErrMaybe} && c.call.effects == 1)
            && (c.lock.pc == RelCheck ==> OnAnswer(c.lock, Result(c.call)) == c.lock.(held := false, pc := Idle))
  {
    RunInv(run, k);
    var s := run[k];
    assert ClientOK(s.store, s.clients[i]);
    if s.clients[i].lock.pc == RelPut {
      PutAtMostOnce(s.store, s.clients[i].call);
    }
  }

  /** Acquire returns only to the owner: after an ErrMaybe its Get shows the client's own id exactly if the Put took
      effect, and a Get that shows it otherwise comes from a client that already held the lock. */
  lemma AcquireReturnsToOwner(run: seq<State>, k: nat, i: nat)
    requires IsRun(run) && k < |run| && i < |run[k].clients| && run[k].clients[i].call.attempt.Executed?
    requires run[k].clients[i].lock.pc in {AcqGet, AcqCheck} || run[k].clients[i].lock.pc.AcqPut?
    ensures var s, c := run[k], run[k].clients[i];
            var lock := OnAnswer(c.lock, Result(c.call));
            && (lock.pc == Idle ==>
                  Owns(c) && lock.held && lock.key in s.store && s.store[lock.key] == Entry(lock.id, lock.version))
            && (c.lock.pc in {AcqGet, AcqCheck} ==> (lock.pc == Idle <==> Owns(c)))
            && (c.lock.pc == AcqGet && lock.pc == Idle ==> lock == c.lock.(pc := Idle))
  {
    RunInv(run, k);
    var s := run[k];
    assert ClientOK(s.store, s.clients[i]);
  }
}
