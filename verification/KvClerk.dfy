/** The retrying clerk. One clerk operation is a loop of calls over a network that may lose a request or a reply;
    an executed request has run before its call returns. */
module KvClerk {
  import opened KvServer

  /** Where the current call is: not sent, sent but not executed, or executed with this reply. */
  datatype Attempt = Ready | InFlight | Executed(reply: Output)

  /** A running clerk operation. `effects` counts the executions that changed the store. */
  datatype Call = Call(input: Input, retried: bool, attempt: Attempt, effects: nat)

  datatype Event = Send | LoseRequest | Execute | LoseReply

  function Begin(input: Input): Call {
    Call(input, false, Ready, 0)
  }

  predicate Can(call: Call, ev: Event) {
    match ev
    case Send => call.attempt == Ready
    case LoseRequest => call.attempt == InFlight
    case Execute => call.attempt == InFlight
    case LoseReply => call.attempt.Executed?
  }

  function After(store: Store, call: Call, ev: Event): (Store, Call)
    requires Can(call, ev)
  {
    match ev
    case Send => (store, call.(attempt := InFlight))
    case LoseRequest => (store, call.(attempt := Ready, retried := true))
    case Execute =>
      var (store', reply) := Handle(store, call.input);
      (store', call.(attempt := Executed(reply), effects := call.effects + if Takes(store, call.input) then 1 else 0))
    case LoseReply => (store, call.(attempt := Ready, retried := true))
  }

  /** What the clerk returns when the reply arrives: ErrVersion on a resend is ErrMaybe. */
  function Result(call: Call): Output
    requires call.attempt.Executed?
  {
    var reply := call.attempt.reply;
    if call.input.Put? && reply.err == ErrVersion && call.retried then reply.(err := ErrMaybe) else reply
  }

  /** What is true of a running operation, whatever other clients do to the store. */
  ghost predicate CallOK(store: Store, call: Call) {
    && call.effects <= 1
    && (call.effects == 1 ==>
          && call.input.Put? && call.input.key in store && store[call.input.key].version > call.input.version
          && (!call.retried ==> call.attempt.Executed? && call.attempt.reply.err == OK))
    && (call.attempt.Executed? && call.input.Put? ==>
          && call.attempt.reply.err in {OK, ErrNoKey, ErrVersion}
          && (call.attempt.reply.err == OK ==> call.effects == 1)
          && (call.attempt.reply.err == ErrNoKey ==> call.effects == 0))
  }

  lemma CallSteps(store: Store, call: Call, ev: Event)
    requires Sound(store) && CallOK(store, call) && Can(call, ev)
    ensures var (store', call') := After(store, call, ev);
            Sound(store') && Later(store, store') && CallOK(store', call')
  {
    if call.input.Put? {
      PutIsCompareAndSet(store, call.input);
    }
  }

  lemma CallUndisturbed(store: Store, store': Store, call: Call)
    requires CallOK(store, call) && Later(store, store')
    ensures CallOK(store', call)
  {
  }

  /** At most once: over all resends of one Put, OK means exactly one execution took effect, ErrVersion and
      ErrNoKey mean none did, ErrMaybe at most one. */
  lemma PutAtMostOnce(store: Store, call: Call)
    requires CallOK(store, call) && call.input.Put? && call.attempt.Executed?
    ensures match Result(call).err
            case OK => call.effects == 1
            case ErrVersion => call.effects == 0
            case ErrNoKey => call.effects == 0
            case ErrMaybe => call.effects <= 1
  {
  }

  // ---------------------------------------------------------------- the loops

  /** What the network does with one call. */
  datatype Fate = RequestLost | ReplyLost | Answered

  /** One round of the retry loop: the store when the request reaches the server, and the call's fate. */
  datatype Round = Round(store: Store, fate: Fate)

  function AfterRound(r: Round, input: Input): Store {
    if r.fate == RequestLost then r.store else Handle(r.store, input).0
  }

  /** Between rounds other clients may advance the store. */
  ghost predicate Chained(rounds: seq<Round>, input: Input) {
    && (forall i :: 0 <= i < |rounds| ==> Sound(rounds[i].store))
    && (forall i :: 0 < i < |rounds| ==> Later(AfterRound(rounds[i - 1], input), rounds[i].store))
  }

  /** How many of the first n rounds changed the store. */
  function EffectsIn(rounds: seq<Round>, input: Input, n: nat): nat
    requires n <= |rounds|
  {
    if n == 0 then 0
    else EffectsIn(rounds, input, n - 1)
         + if rounds[n - 1].fate != RequestLost && Takes(rounds[n - 1].store, input) then 1 else 0
  }

  datatype Reply = NotYet | Returned(err: Err)

  /** Clerk.Put, run against the given rounds; `used` of them were needed. */
  method PutLoop(key: string, value: string, version: nat, rounds: seq<Round>) returns (reply: Reply, used: nat)
    requires Chained(rounds, Put(key, value, version))
    ensures used <= |rounds| && (reply == NotYet ==> used == |rounds|)
    ensures reply != NotYet ==> used > 0 && rounds[used - 1].fate == Answered
    ensures forall i :: 0 <= i < used && (reply == NotYet || i < used - 1) ==> rounds[i].fate != Answered
    ensures var effects := EffectsIn(rounds, Put(key, value, version), used);
            match reply
            case NotYet => effects <= 1
            case Returned(OK) => effects == 1
            case Returned(ErrVersion) => effects == 0 && used == 1
            case Returned(ErrNoKey) => effects == 0
            case Returned(ErrMaybe) => effects <= 1 && used > 1
    ensures reply != NotYet ==>
              var s := rounds[used - 1].store;
              var differs := key in s && version != s[key].version;
              && (reply.err == OK <==> version == VersionOf(s, key))
              && (reply.err == ErrNoKey <==> key !in s && version != 0)
              && (reply.err == ErrVersion <==> differs && used == 1)
              && (reply.err == ErrMaybe <==> differs && used > 1)
  {
    ghost var input := Put(key, value, version);
    var retried := false;
    used := 0;
    while used < |rounds|
      invariant used <= |rounds| && (retried <==> used > 0)
      invariant forall i :: 0 <= i < used ==> rounds[i].fate != Answered
      invariant EffectsIn(rounds, input, used) <= 1
      invariant used > 0 ==> Sound(AfterRound(rounds[used - 1], input))
      invariant used > 0 && EffectsIn(rounds, input, used) == 1 ==>
        VersionOf(AfterRound(rounds[used - 1], input), key) > version
    {
      var r := rounds[used];
      PutIsCompareAndSet(r.store, input);
      assert used > 0 ==> Later(AfterRound(rounds[used - 1], input), r.store);
      used := used + 1;
      if r.fate == Answered {
        var (_, err) := HandlePut(r.store, key, value, version);
        if err == ErrVersion && retried {
          return Returned(ErrMaybe), used;
        }
        return Returned(err), used;
      }
      retried := true;
    }
    return NotYet, used;
  }

  datatype Answer = Waiting | Got(output: Output)

  /** Clerk.Get, run against the given rounds: it returns what the store held when the first answered request reached the
      server, and the zero values with ErrNoKey for an absent key. */
  method GetLoop(key: string, rounds: seq<Round>) returns (answer: Answer, used: nat)
    ensures used <= |rounds| && (answer == Waiting ==> used == |rounds|)
    ensures forall i :: 0 <= i < used && (answer == Waiting || i < used - 1) ==> rounds[i].fate != Answered
    ensures answer != Waiting ==>
              && used > 0 && rounds[used - 1].fate == Answered
              && var s := rounds[used - 1].store;
                 && (key in s ==> answer.output == Output(s[key].value, s[key].version, OK))
                 && (key !in s ==> answer.output == Output("", 0, ErrNoKey))
  {
    used := 0;
    while used < |rounds|
      invariant used <= |rounds| && forall i :: 0 <= i < used ==> rounds[i].fate != Answered
    {
      var r := rounds[used];
      used := used + 1;
      if r.fate == Answered {
        return Got(HandleGet(r.store, key)), used;
      }
    }
    return Waiting, used;
  }
}
