/** The sequential specification that histories are checked against, one key at a time. */
module KvModel {
  import opened KvServer

  datatype KvState = KvState(value: string, version: nat)

  const INIT := KvState("", 0)

  /** Is this output acceptable in this state, and what is the next state? A Get is judged by its value alone, and
      ErrNoKey is never acceptable from a Put. */
  function Step(st: KvState, input: Input, output: Output): (bool, KvState) {
    match input
    case Get(_) => (output.value == st.value, st)
    case Put(_, value, version) =>
      if st.version == version then (output.err in {OK, ErrMaybe}, KvState(value, st.version + 1))
      else (output.err in {ErrVersion, ErrMaybe}, st)
  }

  datatype Operation = Operation(input: Input, output: Output)

  /** All operations, in this order, are acceptable. */
  predicate Accepts(st: KvState, ops: seq<Operation>)
    decreases |ops|
  {
    if ops == [] then true
    else Step(st, ops[0].input, ops[0].output).0 && Accepts(Step(st, ops[0].input, ops[0].output).1, ops[1..])
  }

  function Final(st: KvState, ops: seq<Operation>): KvState
    decreases |ops|
  {
    if ops == [] then st else Final(Step(st, ops[0].input, ops[0].output).1, ops[1..])
  }

  lemma {:induction false} AcceptsAppend(st: KvState, ops: seq<Operation>, op: Operation)
    requires Accepts(st, ops) && Step(Final(st, ops), op.input, op.output).0
    ensures Accepts(st, ops + [op])
    ensures Final(st, ops + [op]) == Step(Final(st, ops), op.input, op.output).1
    decreases |ops|
  {
    if ops == [] {
      assert ops + [op] == [op];
    } else {
      assert (ops + [op])[1..] == ops[1..] + [op];
      AcceptsAppend(Step(st, ops[0].input, ops[0].output).1, ops[1..], op);
    }
  }

  /** A Put answered ErrNoKey is accepted at no place of any order. */
  lemma {:induction false} NoKeyNeverAccepted(st: KvState, ops: seq<Operation>, i: nat)
    requires i < |ops| && ops[i].input.Put? && ops[i].output.err == ErrNoKey
    ensures !Accepts(st, ops)
    decreases |ops|
  {
    if i > 0 {
      NoKeyNeverAccepted(Step(st, ops[0].input, ops[0].output).1, ops[1..], i - 1);
    }
  }

  /** How the specification sees a key of the store: an absent key is the empty value at version 0. */
  function View(store: Store, key: string): KvState {
    if key in store then KvState(store[key].value, store[key].version) else INIT
  }
}
