// The byte-limited LRU cache as a state machine: the map of MemoryMapCache
// with the recency list and byte counter MaxMemoryCache keeps beside it.
module Lru {
  import opened Wrappers

  type Key = string
  type Value = seq<int>
  type Time = int

  datatype Item = Item(val: Value, deadline: Option<Time>)
  type Data = map<Key, Item>

  // `list` starts with the key that is hottest.
  datatype State = State(max: int, used: int, list: seq<Key>, data: Data)

  predicate Expired(i: Item, now: Time) {
    i.deadline.Some? && i.deadline.value < now
  }

  // A positive expiration counts from the call; any other means none.
  function Deadline(now: Time, expiration: int): Option<Time> {
    if expiration > 0 then Some(now + expiration) else None
  }

  function Size(data: Data, k: Key): nat {
    if k in data then |data[k].val| else 0
  }

  ghost function Total(data: Data): nat
    decreases |data|
  {
    if data == map[] then 0 else
      var k :| k in data;
      Size(data, k) + Total(data - {k})
  }

  function SumOf(data: Data, keys: seq<Key>): nat {
    if keys == [] then 0 else SumOf(data, keys[..|keys| - 1]) + Size(data, keys[|keys| - 1])
  }

  function Without(list: seq<Key>, k: Key): (r: seq<Key>)
    ensures k !in r
    ensures forall x :: x != k ==> (x in r <==> x in list)
  {
    if list == [] then [] else
      var last := |list| - 1;
      assert list == list[..last] + [list[last]];
      if list[last] == k then Without(list[..last], k) else Without(list[..last], k) + [list[last]]
  }

  function Touch(s: State, k: Key): State {
    s.(list := [k] + Without(s.list, k))
  }

  // delete and the eviction callback.
  function Drop(s: State, k: Key): State {
    if k !in s.data then s
    else s.(used := s.used - Size(s.data, k), data := s.data - {k}, list := Without(s.list, k))
  }

  function DropAll(s: State, keys: seq<Key>): State {
    if keys == [] then s else Drop(DropAll(s, keys[..|keys| - 1]), keys[|keys| - 1])
  }

  // ---------- Set ----------

  // The bytes that count as used once the old value of the key is taken off.
  function UsedBefore(s: State, k: Key): int { s.used - Size(s.data, k) }

  // The branch at max_memory_cache.go:62.
  predicate Evicts(s: State, k: Key, val: Value) {
    s.max < |val| + UsedBefore(s, k)
  }

  // What an evicting Set deletes: the last key alone when that leaves more
  // than the new value needs, else every key from the last to the first.
  function VictimsFrom(list: seq<Key>, data: Data, used: int, need: nat): seq<Key> {
    var n := |list|;
    if n == 0 then []
    else if used - Size(data, list[n - 1]) > need then [list[n - 1]]
    else Backwards(list)
  }

  function Victims(s: State, k: Key, val: Value): seq<Key> {
    VictimsFrom(s.list, s.data, UsedBefore(s, k), |val|)
  }

  function Backwards(list: seq<Key>): (r: seq<Key>)
    ensures |r| == |list| && forall i :: 0 <= i < |list| ==> r[i] == list[|list| - 1 - i]
  {
    seq(|list|, i requires 0 <= i < |list| => list[|list| - 1 - i])
  }

  // Set reads expired entries under the lock their callback needs.
  predicate Deadlocks(s: State, k: Key, val: Value, now: Time) {
    || (k in s.data && Expired(s.data[k], now))
    || (Evicts(s, k, val) && exists v <- Victims(s, k, val) :: v in s.data && Expired(s.data[v], now))
  }

  function Room(s: State, k: Key, val: Value): State {
    if Evicts(s, k, val) then DropAll(s, Victims(s, k, val))
    else s.(used := UsedBefore(s, k) + |val|)
  }

  function Set(s: State, k: Key, val: Value, deadline: Option<Time>): State {
    var room := Room(s, k, val);
    // An empty old value counts as absent, so the key is added once more.
    var list := if Size(s.data, k) > 0 then Without(room.list, k) else room.list;
    Push(room, list, k, Item(val, deadline))
  }

  function Push(s: State, list: seq<Key>, k: Key, item: Item): State {
    s.(list := [k] + list, data := s.data[k := item])
  }

  // ---------- the other operations ----------

  // Get returns the value and touches the key; an expired entry is deleted.
  function Get(s: State, k: Key, now: Time): (State, Option<Value>) {
    if k !in s.data then (s, None)
    else if Expired(s.data[k], now) then (Drop(s, k), None)
    else (Touch(s, k), Some(s.data[k].val))
  }

  datatype Op =
    | SetOp(key: Key, val: Value, deadline: Option<Time>, now: Time)
    | GetOp(key: Key, now: Time)
    | DeleteOp(key: Key)
    | SweepOp(removed: seq<Key>, now: Time)

  // A sweep removes some of the expired keys; a Set must not deadlock.
  ghost predicate Legal(s: State, op: Op) {
    match op
    case SetOp(k, val, _, now) => !Deadlocks(s, k, val, now)
    case SweepOp(removed, now) => forall k <- removed :: k in s.data && Expired(s.data[k], now)
    case _ => true
  }

  // LoadAndDelete changes the state as Delete does.
  function Step(s: State, op: Op): State {
    match op
    case SetOp(k, val, deadline, _) => Set(s, k, val, deadline)
    case GetOp(k, now) => Get(s, k, now).0
    case DeleteOp(k) => Drop(s, k)
    case SweepOp(removed, _) => DropAll(s, removed)
  }

  function Start(max: int): State {
    State(max, 0, [], map[])
  }

  function Run(max: int, ops: seq<Op>): State {
    if ops == [] then Start(max) else Step(Run(max, ops[..|ops| - 1]), ops[|ops| - 1])
  }

  ghost predicate LegalRun(max: int, ops: seq<Op>) {
    forall i :: 0 <= i < |ops| ==> Legal(Run(max, ops[..i]), ops[i])
  }
}
