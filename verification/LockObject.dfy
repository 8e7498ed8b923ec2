/** The lock object itself. Its methods run against the answers of the clerk, in order, and stop where they would
    wait for an answer that has not come. */
module LockObject {
  import opened KvServer
  import opened LockProtocol

  /** The control state after these answers, as far as the current operation needs them. */
  function Play(c: Control, answers: seq<Output>): Control
    decreases |answers|
  {
    if c.pc == Idle || answers == [] then c else Play(OnAnswer(c, answers[0]), answers[1..])
  }

  lemma PlayOne(c: Control, answers: seq<Output>, used: nat)
    requires c.pc != Idle && used < |answers|
    ensures Play(c, answers[used..]) == Play(OnAnswer(c, answers[used]), answers[used + 1..])
  {
    assert answers[used..][1..] == answers[used + 1..];
  }

  /** The answer of a Get that found this value. */
  predicate Shows(out: Output, value: string) {
    out.err == OK && out.value == value
  }

  /** What the first answers of an Acquire lead to: the own id or a stored Put ends it; so does the own id after an
      ErrMaybe. */
  lemma AcquirePlays(c: Control, answers: seq<Output>)
    requires c.pc == AcqGet && c.id != AVAILABLE
    ensures |answers| >= 1 && Shows(answers[0], c.id) ==>
              Play(c, answers) == c.(held := true, version := answers[0].version, pc := Idle)
    ensures |answers| >= 2 && Shows(answers[0], AVAILABLE) && answers[1].err == OK ==>
              Play(c, answers) == c.(held := true, version := answers[0].version + 1, pc := Idle)
    ensures |answers| >= 3 && Shows(answers[0], AVAILABLE) && answers[1].err == ErrMaybe && Shows(answers[2], c.id) ==>
              Play(c, answers) == c.(held := true, version := answers[2].version, pc := Idle)
  {
    assert answers[0..] == answers;
    if |answers| >= 1 { PlayOne(c, answers, 0); }
    if |answers| >= 2 && Shows(answers[0], AVAILABLE) {
      PlayOne(OnAnswer(c, answers[0]), answers, 1);
      if |answers| >= 3 && answers[1].err == ErrMaybe {
        PlayOne(OnAnswer(OnAnswer(c, answers[0]), answers[1]), answers, 2);
      }
    }
  }

  /** What the first answers of a Release lead to: a stored Put ends it, and so does another value after an ErrMaybe. */
  lemma ReleasePlays(c: Control, answers: seq<Output>)
    requires c.pc == RelPut
    ensures |answers| >= 1 && answers[0].err == OK ==> Play(c, answers) == c.(held := false, pc := Idle)
    ensures |answers| >= 2 && answers[0].err == ErrMaybe && answers[1].err == OK && answers[1].value != c.id ==>
              Play(c, answers) == c.(held := false, pc := Idle)
  {
    assert answers[0..] == answers;
    if |answers| >= 1 { PlayOne(c, answers, 0); }
    if |answers| >= 2 && answers[0].err == ErrMaybe { PlayOne(OnAnswer(c, answers[0]), answers, 1); }
  }

  class Lock {
    const key: string
    const id: string
    var held: bool
    var version: nat

    function At(pc: Pc): Control
      reads this
    {
      Control(key, id, held, version, pc)
    }

    constructor (key: string, id: string)
      ensures At(Making) == Control(key, id, false, 0, Making)
    {
      this.key, this.id := key, id;
      held, version := false, 0;
    }

    /** Acquire returns exactly when the protocol does, with its held flag and version. */
    method Acquire(answers: seq<Output>) returns (done: bool)
      modifies this
      ensures done <==> Play(old(At(AcqGet)), answers).pc == Idle
      ensures if done then At(Idle) == Play(old(At(AcqGet)), answers) else At(Idle) == old(At(Idle))
      ensures |answers| >= 1 && Shows(answers[0], id) ==> done && held && version == answers[0].version
      ensures |answers| >= 2 && id != AVAILABLE && Shows(answers[0], AVAILABLE) && answers[1].err == OK ==>
                done && held && version == answers[0].version + 1
      ensures |answers| >= 3 && id != AVAILABLE && Shows(answers[0], AVAILABLE) && answers[1].err == ErrMaybe
              && Shows(answers[2], id) ==>
                done && held && version == answers[2].version
      ensures done ==> held
    {
      if id != AVAILABLE {
        AcquirePlays(At(AcqGet), answers);
      }
      var used := 0;
      assert answers[used..] == answers;
      while used < |answers|
        invariant used <= |answers| && At(Idle) == old(At(Idle))
        invariant Play(old(At(AcqGet)), answers) == Play(At(AcqGet), answers[used..])
      {
        var got := answers[used];
        PlayOne(At(AcqGet), answers, used);
        used := used + 1;
        if got.err != OK {
          continue;
        }
        if got.value == id {
          held := true;
          version := got.version;
          return true;
        }
        if got.value != AVAILABLE {
          continue;
        }
        if used == |answers| {
          return false;
        }
        var put := answers[used];
        PlayOne(At(AcqPut(got.version)), answers, used);
        used := used + 1;
        if put.err == OK {
          held := true;
          version := got.version + 1;
          return true;
        }
        if put.err == ErrMaybe {
          if used == |answers| {
            return false;
          }
          var check := answers[used];
          PlayOne(At(AcqCheck), answers, used);
          used := used + 1;
          if check.err == OK && check.value == id {
            held := true;
            version := check.version;
            return true;
          }
        }
      }
      return false;
    }

    /** Release returns exactly when the protocol does; at once if the lock is not held. */
    method Release(answers: seq<Output>) returns (done: bool)
      modifies this
      ensures done <==> !old(held) || Play(old(At(RelPut)), answers).pc == Idle
      ensures At(Idle) == if old(held) && done then Play(old(At(RelPut)), answers) else old(At(Idle))
      ensures |answers| >= 1 && answers[0].err == OK ==> done
      ensures |answers| >= 2 && answers[0].err == ErrMaybe && answers[1].err == OK && answers[1].value != id ==> done
      ensures done ==> !held && version == old(version)
    {
      if !held {
        return true;
      }
      ReleasePlays(At(RelPut), answers);
      var used := 0;
      assert answers[used..] == answers;
      while used < |answers|
        invariant used <= |answers| && At(Idle) == old(At(Idle))
        invariant Play(old(At(RelPut)), answers) == Play(At(RelPut), answers[used..])
      {
        var put := answers[used];
        PlayOne(At(RelPut), answers, used);
        used := used + 1;
        if put.err == OK {
          held := false;
          return true;
        }
        if put.err == ErrMaybe {
          if used == |answers| {
            return false;
          }
          var check := answers[used];
          PlayOne(At(RelCheck), answers, used);
          used := used + 1;
          if check.err == OK && check.value != id {
            held := false;
            return true;
          }
        }
      }
      return false;
    }
  }
}
