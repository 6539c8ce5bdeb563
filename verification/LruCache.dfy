// MaxMemoryCache over MemoryMapCache, updated in place: the inner map, the
// recency list, the byte counter, and the eviction callback joining them.
module LruCache {
  import opened Wrappers
  import opened Lru
  import opened LruLaws

  const SWEEP_LIMIT := 10000

  class MaxMemoryCache {
    const max: int
    var used: int
    var list: seq<Key>
    var data: Data

    ghost function Abs(): State
      reads this
    {
      State(max, used, list, data)
    }

    constructor (max: int)
      ensures Abs() == Start(max)
    {
      this.max, used, list, data := max, 0, [], map[];
    }

    // The eviction callback. The loop deletes at `i` and goes on with i + 1.
    method OnEvicted(key: Key, val: Value)
      requires NoDuplicates(list)
      modifies this`used, this`list
      ensures used == old(used) - |val| && list == Without(old(list), key)
    {
      used := used - |val|;
      WithoutNoDuplicates(list, key);
      WithoutAbsent(Without(list, key), key);
      var i := 0;
      while i < |list|
        invariant used == old(used) - |val|
        invariant 0 <= i && (list == old(list) || list == Without(old(list), key))
        invariant key in list ==> i <= |list| && key !in list[..i]
        decreases |list| - i
      {
        var item := list[i];
        if key == item {
          RemoveAt(list, i);
          list := list[..i] + list[i + 1..];
        }
        i := i + 1;
      }
      assert key !in list;
      WithoutAbsent(list, key);
    }

    // MemoryMapCache.delete
    method InnerDelete(key: Key)
      requires NoDuplicates(list)
      modifies this`data, this`used, this`list
      ensures NoDuplicates(list) && Abs() == Drop(old(Abs()), key)
    {
      if key !in data { return; }
      var item := data[key];
      data := data - {key};
      WithoutNoDuplicates(list, key);
      OnEvicted(key, item.val);
    }

    method ListMoveToHead(key: Key)
      requires NoDuplicates(list)
      modifies this`list
      ensures list == [key] + Without(old(list), key)
    {
      var i := 0;
      while i < |list|
        invariant 0 <= i <= |list| && list == old(list) && key !in list[..i]
      {
        if key == list[i] {
          RemoveAt(list, i);
          list := list[..i] + list[i + 1..];
          break;
        }
        i := i + 1;
      }
      assert list == old(list) ==> list[..|list|] == list;
      WithoutAbsent(list, key);
      list := [key] + list;
    }

    // Deletes the listed keys, each time through the callback.
    method DeleteAll(keys: seq<Key>)
      requires NoDuplicates(list)
      modifies this`data, this`used, this`list
      ensures NoDuplicates(list) && Abs() == DropAll(old(Abs()), keys)
    {
      for i := 0 to |keys|
        invariant NoDuplicates(list) && Abs() == DropAll(old(Abs()), keys[..i])
      {
        assert keys[..i + 1][..i] == keys[..i];
        InnerDelete(keys[i]);
      }
      assert keys[..|keys|] == keys;
    }

    // The loop of Set that chooses what to delete, from the tail forward.
    // `stuck` when it meets an expired entry: the read deletes the entry, and
    // the callback then waits for the lock Set holds.
    method ChooseVictims(used: int, need: nat, now: Time) returns (deleteKey: seq<Key>, stuck: bool)
      requires forall k <- list :: k in data
      ensures var victims := VictimsFrom(list, data, used, need);
        && (stuck <==> exists v <- victims :: v in data && Expired(data[v], now))
        && (!stuck ==> deleteKey == victims)
    {
      deleteKey, stuck := [], false;
      var free := 0;
      ghost var all := Backwards(list);
      var i := |list| - 1;
      while i >= 0
        invariant -1 <= i < |list| && deleteKey == all[..|list| - 1 - i]
        invariant forall k <- deleteKey :: k in data && !Expired(data[k], now)
        invariant deleteKey == [] ==> free == 0
        invariant deleteKey != [] ==>
          free >= Size(data, list[|list| - 1]) && used - Size(data, list[|list| - 1]) <= need
      {
        var key := list[i];
        assert key in list && all[|list| - 1 - i] == key && key in all;
        if Expired(data[key], now) {
          return deleteKey, true;
        }
        free := free + |data[key].val|;
        deleteKey := deleteKey + [key];
        if used - free > need { break; }
        i := i - 1;
      }
      assert all[..|list|] == all;
    }

    // The part of Set that makes room or counts the new value.
    method MakeRoom(key: Key, val: Value, usedNow: int, now: Time) returns (stuck: bool)
      requires Consistent(Abs()) && usedNow == UsedBefore(Abs(), key)
      modifies this`data, this`used, this`list
      ensures stuck <==>
        && Evicts(old(Abs()), key, val)
        && exists v <- Victims(old(Abs()), key, val) :: v in old(data) && Expired(old(data)[v], now)
      ensures !stuck ==> Abs() == Room(old(Abs()), key, val)
    {
      stuck := false;
      if max < |val| + usedNow {
        var deleteKey, blocked := ChooseVictims(usedNow, |val|, now);
        if blocked { return true; }
        DeleteAll(deleteKey);
      } else {
        var size := if key in data then |data[key].val| else 0;
        used := used - size + |val|;
      }
    }

    // Set; `stuck` when it never returns.
    method Set(key: Key, val: Value, now: Time, expiration: int) returns (stuck: bool)
      requires Consistent(Abs())
      modifies this
      ensures stuck <==> Deadlocks(old(Abs()), key, val, now)
      ensures !stuck ==> Abs() == Lru.Set(old(Abs()), key, val, Deadline(now, expiration))
    {
      var usedNow := used;
      if key in data && Expired(data[key], now) { return true; }
      var item := if key in data then data[key].val else [];
      var isExists := false;
      if |item| > 0 {
        usedNow := usedNow - |item|;
        isExists := true;
      }
      RoomConsistent(Abs(), key, val);
      stuck := MakeRoom(key, val, usedNow, now);
      if stuck { return; }
      if !isExists {
        list := [key] + list;
      } else {
        ListMoveToHead(key);
      }
      data := data[key := Item(val, if expiration > 0 then Some(now + expiration) else None)];
    }

    // Get; None is errKeyNotFound.
    method Get(key: Key, now: Time) returns (r: Option<Value>)
      requires Consistent(Abs())
      modifies this
      ensures (Abs(), r) == Lru.Get(old(Abs()), key, now)
    {
      if key !in data { return None; }
      if Expired(data[key], now) {
        InnerDelete(key);
        return None;
      }
      r := Some(data[key].val);
      ListMoveToHead(key);
    }

    method Delete(key: Key)
      requires Consistent(Abs())
      modifies this`data, this`used, this`list
      ensures Abs() == Drop(old(Abs()), key)
    {
      InnerDelete(key);
    }

    method LoadAndDelete(key: Key) returns (r: Option<Value>)
      requires Consistent(Abs())
      modifies this`data, this`used, this`list
      ensures Abs() == Drop(old(Abs()), key)
      ensures r == if key in old(data) then Some(old(data)[key].val) else None
    {
      if key !in data { return None; }
      r := Some(data[key].val);
      InnerDelete(key);
    }

    // One tick of the expiry goroutine: at most SWEEP_LIMIT + 1 entries are
    // looked at, in whatever order the map yields; expired ones go.
    method Sweep(now: Time) returns (ghost removed: seq<Key>)
      requires NoDuplicates(list)
      modifies this`data, this`used, this`list
      ensures Legal(old(Abs()), SweepOp(removed, now))
      ensures Abs() == DropAll(old(Abs()), removed)
      ensures |old(data)| <= SWEEP_LIMIT + 1 ==> forall k <- data :: !Expired(data[k], now)
    {
      removed := [];
      var todo := data.Keys;
      var i := 0;
      while todo != {}
        invariant NoDuplicates(list) && Abs() == DropAll(old(Abs()), removed)
        invariant todo <= data.Keys && i + |todo| == |old(data)|
        invariant forall k <- removed :: k in old(data) && Expired(old(data)[k], now)
        invariant forall k <- data :: k in old(data) && data[k] == old(data)[k]
        invariant forall k <- data :: k in todo || !Expired(data[k], now)
        decreases |todo|
      {
        if i > SWEEP_LIMIT { break; }
        var key :| key in todo;
        if Expired(data[key], now) {
          assert (removed + [key])[..|removed|] == removed;
          InnerDelete(key);
          removed := removed + [key];
        }
        i := i + 1;
        todo := todo - {key};
      }
    }
  }
}
