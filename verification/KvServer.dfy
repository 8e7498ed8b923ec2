/** The versioned key/value server: a Put applies only if it names the key's current version. */
module KvServer {

  /** Replies of server and clerk. `ErrMaybe` comes from the clerk only. */
  datatype Err = OK | ErrNoKey | ErrVersion | ErrMaybe

  datatype Entry = Entry(value: string, version: nat)

  type Store = map<string, Entry>

  datatype Input =
    | Get(key: string)
    | Put(key: string, value: string, version: nat)

  datatype Output = Output(value: string, version: nat, err: Err)

  /** The Get handler; an absent key leaves value and version at their zero values. */
  function HandleGet(store: Store, key: string): Output {
    if key !in store then Output("", 0, ErrNoKey)
    else Output(store[key].value, store[key].version, OK)
  }

  /** The Put handler. */
  function HandlePut(store: Store, key: string, value: string, version: nat): (Store, Err) {
    if key !in store then
      if version != 0 then (store, ErrNoKey)
      else (store[key := Entry(value, 1)], OK)
    else if version != store[key].version then (store, ErrVersion)
    else (store[key := Entry(value, store[key].version + 1)], OK)
  }

  function Handle(store: Store, input: Input): (Store, Output) {
    match input
    case Get(key) => (store, HandleGet(store, key))
    case Put(key, value, version) =>
      var (store', err) := HandlePut(store, key, value, version);
      (store', Output("", 0, err))
  }

  /** The request changes the store. */
  predicate Takes(store: Store, input: Input) {
    input.Put? && Handle(store, input).1.err == OK
  }

  /** The version of a key, 0 while it is absent. */
  function VersionOf(store: Store, key: string): nat {
    if key in store then store[key].version else 0
  }

  /** Keys never disappear and have a version of at least 1. */
  predicate Sound(store: Store) {
    forall k :: k in store ==> store[k].version >= 1
  }

  /** Later versions of the store: keys stay, versions never fall, and a version has one value. */
  ghost predicate Later(a: Store, b: Store) {
    forall k :: k in a ==>
      && k in b && a[k].version <= b[k].version
      && (a[k].version == b[k].version ==> a[k].value == b[k].value)
  }

  /** Compare-and-set: a Put takes effect exactly when it names the current version, counting absent as 0; then
      it raises that version by one and touches no other key. */
  lemma PutIsCompareAndSet(store: Store, input: Input)
    requires Sound(store) && input.Put?
    ensures var (store', out) := Handle(store, input);
            && Sound(store') && Later(store, store')
            && (Takes(store, input) <==> input.version == VersionOf(store, input.key))
            && (Takes(store, input) ==>
                  input.key in store' && store'[input.key] == Entry(input.value, input.version + 1))
            && (!Takes(store, input) ==> store' == store)
            && (out.err == ErrNoKey <==> input.key !in store && input.version != 0)
            && (out.err == ErrVersion <==> input.key in store && input.version != store[input.key].version)
            && out.err != ErrMaybe && out.value == "" && out.version == 0
            && (forall k :: k != input.key ==> (k in store' <==> k in store) && (k in store ==> store'[k] == store[k]))
  {
  }

  class KVServer {
    var store: Store

    constructor ()
      ensures store == map[]
    {
      store := map[];
    }

    method Get(key: string) returns (reply: Output)
      ensures reply == HandleGet(store, key)
    {
      if key !in store {
        return Output("", 0, ErrNoKey);
      }
      var entry := store[key];
      return Output(entry.value, entry.version, OK);
    }

    method Put(key: string, value: string, version: nat) returns (err: Err)
      modifies this
      ensures (store, err) == HandlePut(old(store), key, value, version)
    {
      if key !in store {
        if version != 0 {
          return ErrNoKey;
        }
        store := store[key := Entry(value, 1)];
        return OK;
      }
      var entry := store[key];
      if version != entry.version {
        return ErrVersion;
      }
      store := store[key := Entry(value, entry.version + 1)];
      return OK;
    }
  }
}
