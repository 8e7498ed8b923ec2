/** The lock does what it is for: a client running alone, over calls that are not lost, takes a free lock, finds out that
    it owns one, and frees the one it holds, from wherever it and the others are. */
module LockProgress {
  import opened KvServer
  import opened KvClerk
  import opened LockProtocol

  /** From s, the moves lead to s'. */
  ghost predicate Goes(s: State, moves: seq<Move>, s': State)
    decreases |moves|
  {
    if moves == [] then s == s' else Enabled(s, moves[0]) && Goes(Next(s, moves[0]), moves[1..], s')
  }

  /** Client i begins or ends an operation, or its call goes on without loss. */
  predicate Alone(m: Move, i: nat) {
    m == Acquire(i) || m == Release(i) || m == Progress(i, Send) || m == Progress(i, Execute) || m == Return(i)
  }

  /** s' is reached from s by such moves of client i alone. */
  ghost predicate Reaches(s: State, i: nat, s': State) {
    exists moves :: Goes(s, moves, s') && forall m :: m in moves ==> Alone(m, i)
  }

  lemma {:induction false} GoesOn(s: State, moves: seq<Move>, mid: State, more: seq<Move>, s': State)
    requires Goes(s, moves, mid) && Goes(mid, more, s')
    ensures Goes(s, moves + more, s')
    decreases |moves|
  {
    if moves == [] {
      assert moves + more == more;
    } else {
      assert (moves + more)[1..] == moves[1..] + more;
      GoesOn(Next(s, moves[0]), moves[1..], mid, more, s');
    }
  }

  lemma ReachTrans(s: State, i: nat, mid: State, s': State)
    requires Reaches(s, i, mid) && Reaches(mid, i, s')
    ensures Reaches(s, i, s')
  {
    var moves :| Goes(s, moves, mid) && forall m :: m in moves ==> Alone(m, i);
    var more :| Goes(mid, more, s') && forall m :: m in more ==> Alone(m, i);
    GoesOn(s, moves, mid, more, s');
  }

  lemma ReachOne(s: State, i: nat, m: Move)
    requires Enabled(s, m) && Alone(m, i)
    ensures Reaches(s, i, Next(s, m))
  {
    assert Goes(Next(s, m), [], Next(s, m));
    assert [m][1..] == [];
    assert Goes(s, [m], Next(s, m));
  }

  lemma Stays(s: State, i: nat)
    ensures Reaches(s, i, s)
  {
    assert Goes(s, [], s);
  }

  // ---------------------------------------------------------------- one clerk operation

  /** The call of client c after its next execution. */
  function Called(store: Store, c: Client): Call {
    c.call.(attempt := Executed(Handle(store, c.call.input).1),
            effects := c.call.effects + if Takes(store, c.call.input) then 1 else 0)
  }

  /** The request of client i is on its way. */
  lemma Sent(s: State, i: nat) returns (s': State)
    requires Inv(s) && i < |s.clients| && s.clients[i].lock.pc != Idle && !s.clients[i].call.attempt.Executed?
    ensures Reaches(s, i, s') && Inv(s') && s'.store == s.store
    ensures s'.clients == s.clients[i := s.clients[i].(call := s.clients[i].call.(attempt := InFlight))]
  {
    if s.clients[i].call.attempt == Ready {
      ReachOne(s, i, Progress(i, Send));
      StepKeeps(s, Progress(i, Send));
      s' := Next(s, Progress(i, Send));
    } else {
      Stays(s, i);
      s' := s;
    }
  }

  /** The operation that client i waits for is executed and returns. */
  lemma Complete(s: State, i: nat) returns (s': State)
    requires Inv(s) && i < |s.clients| && s.clients[i].lock.pc != Idle && !s.clients[i].call.attempt.Executed?
    ensures Reaches(s, i, s') && Inv(s')
    ensures var c := s.clients[i];
            var called := Called(s.store, c);
            && s'.store == Handle(s.store, Request(c.lock)).0 && |s'.clients| == |s.clients|
            && s'.clients[i] == Turn(c.(call := called), OnAnswer(c.lock, Result(called)))
  {
    assert ClientOK(s.store, s.clients[i]);
    var sent := Sent(s, i);
    ReachOne(sent, i, Progress(i, Execute));
    StepKeeps(sent, Progress(i, Execute));
    var done := Next(sent, Progress(i, Execute));
    ReachTrans(s, i, sent, done);
    ReachOne(done, i, Return(i));
    StepKeeps(done, Return(i));
    s' := Next(done, Return(i));
    ReachTrans(s, i, done, s');
  }

  /** The operation that client i waits for has been executed and returns. */
  lemma Returns(s: State, i: nat) returns (s': State)
    requires Inv(s) && i < |s.clients| && s.clients[i].lock.pc != Idle && s.clients[i].call.attempt.Executed?
    ensures Reaches(s, i, s') && Inv(s') && s'.store == s.store && |s'.clients| == |s.clients|
    ensures var c := s.clients[i]; s'.clients[i] == Turn(c, OnAnswer(c.lock, Result(c.call)))
  {
    ReachOne(s, i, Return(i));
    StepKeeps(s, Return(i));
    s' := Next(s, Return(i));
  }

  // ---------------------------------------------------------------- taking a free lock

  /** A Get that shows "available" at version v is followed by a Put of the client's id at v. */
  lemma FreeMakesPut(c: Control, v: nat, out: Output)
    requires c.pc == AcqGet && c.id != AVAILABLE && out.err == OK && out.value == AVAILABLE && out.version == v
    ensures var c' := OnAnswer(c, out);
            c'.pc != Idle && Request(c') == Put(c.key, c.id, v) && c' == c.(pc := c'.pc)
  {
  }

  ghost predicate FreeAt(s: State, i: nat, v: nat) {
    i < |s.clients| && s.clients[i].lock.key in s.store && s.store[s.clients[i].lock.key] == Entry(AVAILABLE, v)
  }

  /** Client i holds the lock at version v, and the server says so. */
  ghost predicate HoldsAt(s: State, i: nat, v: nat) {
    && i < |s.clients| && Holding(s.clients[i]) && s.clients[i].lock.pc == Idle && s.clients[i].lock.version == v
    && s.clients[i].lock.key in s.store && s.store[s.clients[i].lock.key] == Entry(s.clients[i].lock.id, v)
  }

  /** Client i is about to send the first Get of an Acquire. */
  predicate AtGet(s: State, i: nat) {
    i < |s.clients| && s.clients[i].lock.pc == AcqGet && s.clients[i].call.attempt == Ready
  }

  lemma PutFree(s: State, i: nat, v: nat) returns (s': State)
    requires Inv(s) && FreeAt(s, i, v) && s.clients[i].lock.pc.AcqPut? && !s.clients[i].call.attempt.Executed?
    ensures Reaches(s, i, s') && Inv(s')
    ensures if s.clients[i].lock.pc.at == v then HoldsAt(s', i, v + 1)
            else FreeAt(s', i, v) && (AtGet(s', i) || (s'.clients[i].lock.pc == AcqCheck && s'.clients[i].call.attempt == Ready))
  {
    assert ClientOK(s.store, s.clients[i]);
    PutIsCompareAndSet(s.store, Request(s.clients[i].lock));
    s' := Complete(s, i);
  }

  lemma GetFree(s: State, i: nat, v: nat) returns (s': State)
    requires Inv(s) && FreeAt(s, i, v) && s.clients[i].lock.pc == AcqGet && !s.clients[i].call.attempt.Executed?
    ensures Reaches(s, i, s') && HoldsAt(s', i, v + 1)
  {
    assert ClientOK(s.store, s.clients[i]);
    var put := Complete(s, i);
    assert put.clients[i].lock.pc == AcqPut(v);
    s' := PutFree(put, i, v);
    ReachTrans(s, i, put, s');
  }

  lemma CheckFree(s: State, i: nat, v: nat) returns (s': State)
    requires Inv(s) && FreeAt(s, i, v) && s.clients[i].lock.pc == AcqCheck
    ensures Reaches(s, i, s') && Inv(s') && FreeAt(s', i, v) && AtGet(s', i)
  {
    assert ClientOK(s.store, s.clients[i]);
    if s.clients[i].call.attempt.Executed? {
      s' := Returns(s, i);
    } else {
      s' := Complete(s, i);
    }
  }

  /** The answer that has come is from before; the client turns to a new Get or Put. */
  lemma StaleFree(s: State, i: nat, v: nat) returns (s': State)
    requires Inv(s) && FreeAt(s, i, v) && s.clients[i].call.attempt.Executed?
    requires s.clients[i].lock.pc == AcqGet || s.clients[i].lock.pc.AcqPut?
    ensures Reaches(s, i, s') && Inv(s') && FreeAt(s', i, v) && s'.clients[i].call.attempt == Ready
    ensures s'.clients[i].lock.pc in {AcqGet, AcqCheck} || s'.clients[i].lock.pc.AcqPut?
  {
    assert ClientOK(s.store, s.clients[i]);
    s' := Returns(s, i);
  }

  /** Wherever client i is in an Acquire, if the lock is free it can take it alone. */
  lemma {:induction false} TakesFree(s: State, i: nat, v: nat) returns (s': State)
    requires Inv(s) && FreeAt(s, i, v)
    requires s.clients[i].lock.pc in {AcqGet, AcqCheck} || s.clients[i].lock.pc.AcqPut?
    ensures Reaches(s, i, s') && HoldsAt(s', i, v + 1)
    decreases s.clients[i].call.attempt.Executed?, s.clients[i].lock.pc != AcqGet, s.clients[i].lock.pc.AcqPut?
  {
    var c := s.clients[i];
    if c.lock.pc == AcqCheck {
      var mid := CheckFree(s, i, v);
      s' := GetFree(mid, i, v);
      ReachTrans(s, i, mid, s');
    } else if c.call.attempt.Executed? {
      var mid := StaleFree(s, i, v);
      s' := TakesFree(mid, i, v);
      ReachTrans(s, i, mid, s');
    } else if c.lock.pc == AcqGet {
      s' := GetFree(s, i, v);
    } else {
      var mid := PutFree(s, i, v);
      if c.lock.pc.at == v {
        s' := mid;
      } else {
        s' := TakesFree(mid, i, v);
        ReachTrans(s, i, mid, s');
      }
    }
  }

  /** In every run: a free lock can be taken by any client that is acquiring it or has nothing to do, running alone. */
  lemma AcquireSucceeds(run: seq<State>, k: nat, i: nat, v: nat) returns (s': State)
    requires IsRun(run) && k < |run| && FreeAt(run[k], i, v)
    requires run[k].clients[i].lock.pc in {Idle, AcqGet, AcqCheck} || run[k].clients[i].lock.pc.AcqPut?
    ensures Reaches(run[k], i, s') && HoldsAt(s', i, v + 1)
  {
    RunInv(run, k);
    var s := run[k];
    if s.clients[i].lock.pc == Idle {
      ReachOne(s, i, Acquire(i));
      StepKeeps(s, Acquire(i));
      var mid := Next(s, Acquire(i));
      s' := TakesFree(mid, i, v);
      ReachTrans(s, i, mid, s');
    } else {
      s' := TakesFree(s, i, v);
    }
  }

  // ---------------------------------------------------------------- finding out about an own lock

  lemma CheckOwned(s: State, i: nat) returns (s': State)
    requires Inv(s) && i < |s.clients| && Owns(s.clients[i]) && s.clients[i].lock.pc in {AcqGet, AcqCheck}
    ensures Reaches(s, i, s') && s'.store == s.store && s.clients[i].lock.key in s.store
    ensures HoldsAt(s', i, s.store[s.clients[i].lock.key].version)
  {
    assert ClientOK(s.store, s.clients[i]);
    if s.clients[i].call.attempt.Executed? {
      s' := Returns(s, i);
    } else {
      s' := Complete(s, i);
    }
  }

  lemma PutOwned(s: State, i: nat) returns (s': State)
    requires Inv(s) && i < |s.clients| && Owns(s.clients[i]) && s.clients[i].lock.pc.AcqPut?
    ensures Reaches(s, i, s') && Inv(s') && s'.store == s.store && s.clients[i].lock.key in s.store
    ensures i < |s'.clients| && s'.clients[i].lock.key == s.clients[i].lock.key
    ensures HoldsAt(s', i, s.store[s.clients[i].lock.key].version) || (Owns(s'.clients[i]) && s'.clients[i].lock.pc == AcqCheck)
  {
    assert ClientOK(s.store, s.clients[i]);
    PutIsCompareAndSet(s.store, Request(s.clients[i].lock));
    if s.clients[i].call.attempt.Executed? {
      s' := Returns(s, i);
    } else {
      s' := Complete(s, i);
    }
    assert ClientOK(s'.store, s'.clients[i]);
  }

  /** In every run: a client whose acquiring Put took effect, whatever was lost, finds out alone that it holds the lock,
      with the version the server has; so does one that acquires again what it holds. */
  lemma AcquireConfirms(run: seq<State>, k: nat, i: nat) returns (s': State)
    requires IsRun(run) && k < |run| && i < |run[k].clients| && Owns(run[k].clients[i])
    requires run[k].clients[i].lock.pc in {AcqGet, AcqCheck} || run[k].clients[i].lock.pc.AcqPut?
    ensures Reaches(run[k], i, s') && s'.store == run[k].store && run[k].clients[i].lock.key in run[k].store
    ensures HoldsAt(s', i, run[k].store[run[k].clients[i].lock.key].version)
  {
    RunInv(run, k);
    var s := run[k];
    if s.clients[i].lock.pc.AcqPut? {
      s' := PutOwned(s, i);
      if s'.clients[i].lock.pc == AcqCheck {
        var mid := s';
        s' := CheckOwned(mid, i);
        ReachTrans(s, i, mid, s');
      }
    } else {
      s' := CheckOwned(s, i);
    }
  }

  // ---------------------------------------------------------------- releasing

  /** Client i does not hold the lock and has nothing to do. */
  predicate Free(s: State, i: nat) {
    i < |s.clients| && !s.clients[i].lock.held && s.clients[i].lock.pc == Idle
  }

  lemma CheckReleased(s: State, i: nat) returns (s': State)
    requires Inv(s) && i < |s.clients| && s.clients[i].lock.pc == RelCheck
    ensures Reaches(s, i, s') && s'.store == s.store && Free(s', i)
  {
    assert ClientOK(s.store, s.clients[i]);
    if s.clients[i].call.attempt.Executed? {
      s' := Returns(s, i);
    } else {
      s' := Complete(s, i);
    }
  }

  lemma PutReleased(s: State, i: nat) returns (s': State)
    requires Inv(s) && i < |s.clients| && s.clients[i].lock.pc == RelPut
    ensures Reaches(s, i, s') && Inv(s') && i < |s'.clients|
    ensures Free(s', i) || s'.clients[i].lock.pc == RelCheck
    ensures s'.store == if Owns(s.clients[i])
                        then s.store[s.clients[i].lock.key := Entry(AVAILABLE, s.clients[i].lock.version + 1)]
                        else s.store
  {
    var c := s.clients[i];
    assert ClientOK(s.store, c);
    PutIsCompareAndSet(s.store, Request(c.lock));
    if c.call.attempt.Executed? {
      PutAtMostOnce(s.store, c.call);
      s' := Returns(s, i);
    } else {
      s' := Complete(s, i);
    }
  }

  /** In every run: a client that holds the lock, or is releasing it, frees it alone: the entry becomes "available" at the
      next version, unless its Put has done that already. */
  lemma ReleaseSucceeds(run: seq<State>, k: nat, i: nat) returns (s': State)
    requires IsRun(run) && k < |run| && i < |run[k].clients|
    requires run[k].clients[i].lock.held && run[k].clients[i].lock.pc in {Idle, RelPut, RelCheck}
    ensures Reaches(run[k], i, s') && Free(s', i)
    ensures var c := run[k].clients[i];
            s'.store == if Owns(c) then run[k].store[c.lock.key := Entry(AVAILABLE, c.lock.version + 1)] else run[k].store
  {
    RunInv(run, k);
    var s := run[k];
    assert ClientOK(s.store, s.clients[i]);
    var began := s;
    Stays(s, i);
    if s.clients[i].lock.pc == Idle {
      ReachOne(s, i, Release(i));
      StepKeeps(s, Release(i));
      began := Next(s, Release(i));
    }
    s' := began;
    if began.clients[i].lock.pc == RelPut {
      s' := PutReleased(began, i);
      ReachTrans(s, i, began, s');
    }
    if s'.clients[i].lock.pc == RelCheck {
      var mid := s';
      s' := CheckReleased(mid, i);
      ReachTrans(s, i, mid, s');
    }
  }

  /** In every run: a new lock object, alone, makes its lock exist, free at version 1 if nobody did. */
  lemma MakeSucceeds(run: seq<State>, k: nat, i: nat) returns (s': State)
    requires IsRun(run) && k < |run| && i < |run[k].clients| && run[k].clients[i].lock.pc == Making
    ensures Reaches(run[k], i, s') && Free(s', i)
    ensures var key := run[k].clients[i].lock.key;
            s'.store == if key in run[k].store then run[k].store else run[k].store[key := Entry(AVAILABLE, 1)]
  {
    RunInv(run, k);
    var s := run[k];
    assert ClientOK(s.store, s.clients[i]);
    if s.clients[i].call.attempt.Executed? {
      s' := Returns(s, i);
    } else {
      s' := Complete(s, i);
    }
  }
}
