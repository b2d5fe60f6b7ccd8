/** The device's credential store: three string-valued keys, read and written
    one operation at a time. Asynchrony is not modelled; an operation takes
    effect when it is performed. */
module CredentialStore {
  import opened Js

  /** The keys "authToken", "userId" and "userType". */
  datatype Key = AuthToken | UserId | UserType

  type Store = map<Key, string>

  /** `getItem`: absence is an ordinary answer. */
  function Get(store: Store, k: Key): Option<string> {
    if k in store then Some(store[k]) else None
  }

  datatype StoreOp = SetItem(key: Key, value: string) | RemoveItem(key: Key)

  function Perform(store: Store, op: StoreOp): Store {
    match op
    case SetItem(k, v) => store[k := v]
    case RemoveItem(k) => store - {k}
  }

  /** Performs the operations in order. */
  function Apply(store: Store, ops: seq<StoreOp>): Store
    decreases |ops|
  {
    if ops == [] then store else Apply(Perform(store, ops[0]), ops[1..])
  }

  /** Reference reading of a sequence of operations: a key holds what the last
      operation on it left there, or what it held before when no operation
      touches it. */
  function ValueAfter(ops: seq<StoreOp>, k: Key, before: Option<string>): Option<string>
    decreases |ops|
  {
    if ops == [] then before
    else
      var last := ops[|ops| - 1];
      if last.key != k then ValueAfter(ops[..|ops| - 1], k, before)
      else if last.SetItem? then Some(last.value)
      else None
  }

  lemma {:induction false} ApplyAppend(store: Store, a: seq<StoreOp>, b: seq<StoreOp>)
    ensures Apply(store, a + b) == Apply(Apply(store, a), b)
    decreases |a|
  {
    if a == [] {
      assert a + b == b;
    } else {
      assert (a + b)[1..] == a[1..] + b;
      ApplyAppend(Perform(store, a[0]), a[1..], b);
    }
  }

  /** Performing operations one after another agrees with the reference reading. */
  lemma {:induction false} ApplyGet(store: Store, ops: seq<StoreOp>, k: Key)
    ensures Get(Apply(store, ops), k) == ValueAfter(ops, k, Get(store, k))
    decreases |ops|
  {
    if ops != [] {
      var init := ops[..|ops| - 1];
      var last := ops[|ops| - 1];
      assert ops == init + [last];
      ApplyAppend(store, init, [last]);
      ApplyGet(store, init, k);
    }
  }

  /** A key holds what the last operation touching it left there. */
  lemma {:induction false} ValueAfterLastTouch(ops: seq<StoreOp>, k: Key, before: Option<string>, i: int)
    requires 0 <= i < |ops| && ops[i].key == k
    requires forall j :: i < j < |ops| ==> ops[j].key != k
    ensures ValueAfter(ops, k, before) == (if ops[i].SetItem? then Some(ops[i].value) else None)
    decreases |ops|
  {
    if i < |ops| - 1 {
      ValueAfterLastTouch(ops[..|ops| - 1], k, before, i);
    }
  }

  /** A key that no operation touches keeps its previous value. */
  lemma {:induction false} ValueAfterUntouched(ops: seq<StoreOp>, k: Key, before: Option<string>)
    requires forall j :: 0 <= j < |ops| ==> ops[j].key != k
    ensures ValueAfter(ops, k, before) == before
    decreases |ops|
  {
    if ops != [] {
      ValueAfterUntouched(ops[..|ops| - 1], k, before);
    }
  }

  /** A store without any of the three keys. */
  predicate IsEmpty(store: Store) {
    forall k: Key :: Get(store, k) == None
  }

  lemma EmptyStoreIsUnique(store: Store)
    requires IsEmpty(store)
    ensures store == map[]
  {
    forall k: Key
      ensures k !in store
    {
      assert Get(store, k) == None;
    }
  }

  /** Removing the three keys, in the order the login screen does. */
  const Teardown: seq<StoreOp> := [RemoveItem(UserId), RemoveItem(UserType), RemoveItem(AuthToken)]

  /** Whatever the store held, the teardown leaves it empty. */
  lemma TeardownEmpties(store: Store)
    ensures IsEmpty(Apply(store, Teardown))
    ensures Apply(store, Teardown) == map[]
  {
    forall k: Key
      ensures Get(Apply(store, Teardown), k) == None
    {
      ApplyGet(store, Teardown, k);
    }
    EmptyStoreIsUnique(Apply(store, Teardown));
  }
}
