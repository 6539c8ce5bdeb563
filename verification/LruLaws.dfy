// The recency list and the byte counter over whole runs of the cache.
module LruLaws {
  import opened Wrappers
  import opened Lru

  ghost predicate NoDuplicates(list: seq<Key>) {
    forall i, j :: 0 <= i < j < |list| ==> list[i] != list[j]
  }

  // The list has no duplicates and holds exactly the keys of the map.
  ghost predicate Consistent(s: State) {
    NoDuplicates(s.list) && forall k :: k in s.list <==> k in s.data
  }

  // ---------- the list ----------

  lemma {:induction false} WithoutNoDuplicates(l: seq<Key>, k: Key)
    requires NoDuplicates(l)
    ensures NoDuplicates(Without(l, k))
  {
    if l != [] {
      var init := l[..|l| - 1];
      WithoutNoDuplicates(init, k);
      assert l[|l| - 1] !in init && l[|l| - 1] !in Without(init, k);
    }
  }

  lemma DropConsistent(s: State, k: Key)
    requires Consistent(s)
    ensures Consistent(Drop(s, k))
  {
    WithoutNoDuplicates(s.list, k);
  }

  lemma {:induction false} DropAllConsistent(s: State, keys: seq<Key>)
    requires Consistent(s)
    ensures Consistent(DropAll(s, keys))
    ensures forall k :: k in DropAll(s, keys).data <==> k in s.data && k !in keys
    ensures forall k <- DropAll(s, keys).data :: DropAll(s, keys).data[k] == s.data[k]
    ensures DropAll(s, keys).max == s.max
  {
    if keys != [] {
      var init := keys[..|keys| - 1];
      assert keys == init + [keys[|keys| - 1]];
      DropAllConsistent(s, init);
      DropConsistent(DropAll(s, init), keys[|keys| - 1]);
    }
  }

  lemma TouchConsistent(s: State, k: Key)
    requires Consistent(s) && k in s.data
    ensures Consistent(Touch(s, k))
  {
    WithoutNoDuplicates(s.list, k);
  }

  // An entry with an empty value that survives the eviction of this Set.
  predicate Degenerate(s: State, k: Key, val: Value) {
    k in s.data && s.data[k].val == [] && (Evicts(s, k, val) ==> k !in Victims(s, k, val))
  }

  lemma {:induction false} WithoutAbsent(list: seq<Key>, k: Key)
    requires k !in list
    ensures Without(list, k) == list
  {
    if list != [] { WithoutAbsent(list[..|list| - 1], k); }
  }

  lemma {:induction false} RemoveAt(l: seq<Key>, i: nat)
    requires i < |l| && NoDuplicates(l)
    ensures l[..i] + l[i + 1..] == Without(l, l[i])
    decreases |l|
  {
    var last := |l| - 1;
    if i == last {
      WithoutAbsent(l[..last], l[i]);
    } else {
      RemoveAt(l[..last], i);
      assert l[..i] + l[i + 1..] == (l[..last][..i] + l[..last][i + 1..]) + [l[last]];
    }
  }

  lemma RoomConsistent(s: State, k: Key, val: Value)
    requires Consistent(s)
    ensures var room := Room(s, k, val);
      && Consistent(room) && room.max == s.max
      && (forall x :: x in room.data <==> x in s.data && (Evicts(s, k, val) ==> x !in Victims(s, k, val)))
      && (forall x <- room.data :: room.data[x] == s.data[x])
  {
    if Evicts(s, k, val) { DropAllConsistent(s, Victims(s, k, val)); }
  }

  lemma PushFresh(s: State, list: seq<Key>, k: Key, item: Item)
    requires NoDuplicates(list) && k !in list
    requires forall x :: x != k ==> (x in list <==> x in s.data)
    ensures Consistent(Push(s, list, k, item))
  {}

  lemma PushTwice(s: State, list: seq<Key>, k: Key, item: Item)
    requires k in list
    ensures !NoDuplicates(Push(s, list, k, item).list)
  {
    var i :| 0 <= i < |list| && list[i] == k;
    var pushed := Push(s, list, k, item).list;
    assert pushed[0] == k && pushed[i + 1] == k;
  }

  // Set keeps the list consistent exactly when it does not overwrite a
  // surviving empty value; that is the one case in which it adds a key twice.
  lemma SetConsistent(s: State, k: Key, val: Value, deadline: Option<Time>)
    requires Consistent(s)
    ensures Consistent(Set(s, k, val, deadline)) <==> !Degenerate(s, k, val)
  {
    var room := Room(s, k, val);
    RoomConsistent(s, k, val);
    if Degenerate(s, k, val) {
      PushTwice(room, room.list, k, Item(val, deadline));
    } else {
      WithoutNoDuplicates(room.list, k);
      PushFresh(room, if Size(s.data, k) > 0 then Without(room.list, k) else room.list, k, Item(val, deadline));
    }
  }

  // ---------- bytes ----------

  lemma {:induction false} TotalRemove(data: Data, k: Key)
    requires k in data
    ensures Total(data) == Size(data, k) + Total(data - {k})
    decreases |data|
  {
    var x :| x in data && Total(data) == Size(data, x) + Total(data - {x});
    if x != k {
      TotalRemove(data - {x}, k);
      assert |data - {k}| < |data|;
      TotalRemove(data - {k}, x);
      assert data - {x} - {k} == data - {k} - {x};
      assert Size(data - {x}, k) == Size(data, k) && Size(data - {k}, x) == Size(data, x);
    }
  }

  lemma TotalUpdate(data: Data, k: Key, item: Item)
    ensures Total(data[k := item]) == Total(data) - Size(data, k) + |item.val|
  {
    TotalRemove(data[k := item], k);
    assert data[k := item] - {k} == data - {k};
    if k in data {
      TotalRemove(data, k);
    } else {
      assert data - {k} == data;
    }
  }

  // Stored bytes the counter does not know about.
  ghost function Drift(s: State): int {
    Total(s.data) - s.used
  }

  lemma DropKeepsDrift(s: State, k: Key)
    ensures Drift(Drop(s, k)) == Drift(s)
  {
    if k in s.data { TotalRemove(s.data, k); }
  }

  lemma {:induction false} DropAllKeepsDrift(s: State, keys: seq<Key>)
    ensures Drift(DropAll(s, keys)) == Drift(s)
  {
    if keys != [] {
      DropAllKeepsDrift(s, keys[..|keys| - 1]);
      DropKeepsDrift(DropAll(s, keys[..|keys| - 1]), keys[|keys| - 1]);
    }
  }

  // What an operation adds to the drift: an evicting Set forgets the new
  // value and counts only what survives of the old one; nothing else drifts.
  function DriftOf(s: State, op: Op): int {
    match op
    case SetOp(k, val, _, _) =>
      if Evicts(s, k, val) then |val| - (if k in Victims(s, k, val) then 0 else Size(s.data, k)) else 0
    case _ => 0
  }

  lemma StepDrift(s: State, op: Op)
    requires Consistent(s)
    ensures Drift(Step(s, op)) == Drift(s) + DriftOf(s, op)
  {
    match op
    case SetOp(k, val, deadline, _) =>
      var room := Room(s, k, val);
      RoomConsistent(s, k, val);
      if Evicts(s, k, val) { DropAllKeepsDrift(s, Victims(s, k, val)); }
      TotalUpdate(room.data, k, Item(val, deadline));
    case GetOp(k, _) => DropKeepsDrift(s, k);
    case DeleteOp(k) => DropKeepsDrift(s, k);
    case SweepOp(removed, _) => DropAllKeepsDrift(s, removed);
  }

  // ---------- runs ----------

  ghost predicate Regular(max: int, ops: seq<Op>) {
    forall i :: 0 <= i < |ops| && ops[i].SetOp? ==> !Degenerate(Run(max, ops[..i]), ops[i].key, ops[i].val)
  }

  ghost predicate NonEmptyValues(ops: seq<Op>) {
    forall i :: 0 <= i < |ops| && ops[i].SetOp? ==> ops[i].val != []
  }

  function TotalDrift(max: int, ops: seq<Op>): int {
    if ops == [] then 0 else
      var init := ops[..|ops| - 1];
      TotalDrift(max, init) + DriftOf(Run(max, init), ops[|ops| - 1])
  }

  lemma StepConsistent(s: State, op: Op)
    requires Consistent(s) && (op.SetOp? ==> !Degenerate(s, op.key, op.val))
    ensures Consistent(Step(s, op)) && Step(s, op).max == s.max
  {
    match op
    case SetOp(k, val, deadline, _) =>
      SetConsistent(s, k, val, deadline);
      RoomConsistent(s, k, val);
    case GetOp(k, now) =>
      if k in s.data {
        DropConsistent(s, k);
        TouchConsistent(s, k);
      }
    case DeleteOp(k) => DropConsistent(s, k);
    case SweepOp(removed, _) => DropAllConsistent(s, removed);
  }

  // After any run that never overwrites a surviving empty value the list is
  // consistent, and the stored bytes exceed the counter by exactly the sum
  // over the evicting Sets.
  lemma {:induction false} RunConsistent(max: int, ops: seq<Op>)
    requires Regular(max, ops)
    ensures Consistent(Run(max, ops)) && Run(max, ops).max == max
    ensures Drift(Run(max, ops)) == TotalDrift(max, ops)
  {
    if ops != [] {
      var init, last := ops[..|ops| - 1], ops[|ops| - 1];
      assert forall i :: 0 <= i < |init| ==> init[..i] == ops[..i];
      RunConsistent(max, init);
      StepConsistent(Run(max, init), last);
      StepDrift(Run(max, init), last);
    }
  }

  // Runs whose values are all nonempty are such runs.
  lemma {:induction false} NonEmptyIsRegular(max: int, ops: seq<Op>)
    requires NonEmptyValues(ops)
    ensures Regular(max, ops)
    ensures forall k <- Run(max, ops).data :: Run(max, ops).data[k].val != []
  {
    hide Step, Degenerate, Consistent;
    if ops != [] {
      var init, last := ops[..|ops| - 1], ops[|ops| - 1];
      assert forall i :: 0 <= i < |init| ==> init[..i] == ops[..i];
      assert NonEmptyValues(init);
      NonEmptyIsRegular(max, init);
      RunConsistent(max, init);
      NonEmptyStep(Run(max, init), last);
    }
  }

  lemma NonEmptyStep(s: State, op: Op)
    requires Consistent(s) && (forall k <- s.data :: s.data[k].val != []) && (op.SetOp? ==> op.val != [])
    ensures op.SetOp? ==> !Degenerate(s, op.key, op.val)
    ensures forall k <- Step(s, op).data :: Step(s, op).data[k].val != []
  {
    match op
    case SetOp(k, val, _, _) => RoomConsistent(s, k, val);
    case SweepOp(removed, _) => DropAllConsistent(s, removed);
    case _ =>
  }

  ghost predicate NeverEvicts(max: int, ops: seq<Op>) {
    forall i :: 0 <= i < |ops| && ops[i].SetOp? ==> !Evicts(Run(max, ops[..i]), ops[i].key, ops[i].val)
  }

  // As long as no Set evicts, the counter is the exact total and stays within
  // the limit.
  lemma {:induction false} BoundHoldsWithoutEviction(max: int, ops: seq<Op>)
    requires 0 <= max && Regular(max, ops) && NeverEvicts(max, ops)
    ensures Run(max, ops).used == Total(Run(max, ops).data) <= max
  {
    RunConsistent(max, ops);
    NoDriftWithoutEviction(max, ops);
    if ops != [] {
      var init, last := ops[..|ops| - 1], ops[|ops| - 1];
      assert forall i :: 0 <= i < |init| ==> init[..i] == ops[..i];
      BoundHoldsWithoutEviction(max, init);
      RunConsistent(max, init);
      var s := Run(max, init);
      match last {
        case SetOp(k, val, _, _) =>
        case GetOp(k, _) => DropShrinks(s, k);
        case DeleteOp(k) => DropShrinks(s, k);
        case SweepOp(removed, _) => DropAllShrinks(s, removed);
      }
    }
  }

  lemma {:induction false} NoDriftWithoutEviction(max: int, ops: seq<Op>)
    requires NeverEvicts(max, ops)
    ensures TotalDrift(max, ops) == 0
  {
    if ops != [] {
      var init := ops[..|ops| - 1];
      assert forall i :: 0 <= i < |init| ==> init[..i] == ops[..i];
      NoDriftWithoutEviction(max, init);
    }
  }

  lemma DropShrinks(s: State, k: Key)
    ensures Drop(s, k).used <= s.used && Drop(s, k).max == s.max
  {}

  lemma {:induction false} DropAllShrinks(s: State, keys: seq<Key>)
    ensures DropAll(s, keys).used <= s.used && DropAll(s, keys).max == s.max
  {
    if keys != [] { DropAllShrinks(s, keys[..|keys| - 1]); }
  }

  // An evicting Set removes a suffix of the recency order: its last key, or all.
  lemma EvictionRemovesSuffix(s: State, k: Key, val: Value)
    requires Consistent(s) && Evicts(s, k, val)
    ensures var victims := Victims(s, k, val);
      && (|victims| == |s.list| || |victims| == 1)
      && (forall i :: 0 <= i < |victims| ==> victims[i] == s.list[|s.list| - 1 - i])
      && Room(s, k, val).list == s.list[..|s.list| - |victims|]
  {
    var victims := Victims(s, k, val);
    if |victims| == |s.list| {
      AllGone(s, victims);
      EmptyRoom(s, k, val);
    } else {
      LastDropped(s, s.list[|s.list| - 1]);
    }
  }

  lemma LastDropped(s: State, v: Key)
    requires Consistent(s) && s.list != [] && v == s.list[|s.list| - 1]
    ensures DropAll(s, [v]).list == s.list[..|s.list| - 1]
  {
    var n := |s.list| - 1;
    assert v in s.list && [v][..0] == [];
    WithoutAbsent(s.list[..n], v);
    assert DropAll(s, [v]) == Drop(DropAll(s, [v][..0]), v);
  }

  lemma EmptyRoom(s: State, k: Key, val: Value)
    requires Consistent(s) && Room(s, k, val).data == map[]
    ensures Room(s, k, val).list == []
  {
    RoomConsistent(s, k, val);
    SomeMember(Room(s, k, val).list);
  }

  lemma SomeMember(list: seq<Key>)
    ensures list == [] || exists k :: k in list
  {
    if list != [] { assert list[0] in list; }
  }

  // ---------- the limit after one Set ----------

  // The bytes stored after a Set, from the state before it and its drift.
  function StoredAfter(s: State, drift: int, k: Key, val: Value): int {
    if Evicts(s, k, val) && |Victims(s, k, val)| == |s.list| then |val|
    else drift + UsedBefore(s, k) + |val| - SpareSize(s, k, val)
  }

  // What an evicting Set frees beyond the old value of its own key.
  function SpareSize(s: State, k: Key, val: Value): nat {
    if Evicts(s, k, val) && s.list != [] && s.list[|s.list| - 1] != k then Size(s.data, s.list[|s.list| - 1]) else 0
  }

  lemma StoredAfterSet(s: State, k: Key, val: Value, deadline: Option<Time>)
    requires Consistent(s)
    ensures Total(Set(s, k, val, deadline).data) == StoredAfter(s, Drift(s), k, val)
  {
    if !Evicts(s, k, val) {
      StepDrift(s, SetOp(k, val, deadline, 0));
    } else if |Victims(s, k, val)| == |s.list| {
      AllGone(s, Victims(s, k, val));
      TotalUpdate(map[], k, Item(val, deadline));
    } else {
      OneVictim(s, k, val, deadline);
    }
  }

  lemma DropOne(s: State, v: Key)
    ensures DropAll(s, [v]) == Drop(s, v)
  {
    hide Drop;
    assert [v][..0] == [];
    assert DropAll(s, [v][..0]) == s;
  }

  lemma OneVictim(s: State, k: Key, val: Value, deadline: Option<Time>)
    requires Consistent(s) && Evicts(s, k, val) && |Victims(s, k, val)| < |s.list|
    ensures Victims(s, k, val) == [s.list[|s.list| - 1]]
    ensures Total(Set(s, k, val, deadline).data) == Drift(s) + UsedBefore(s, k) + |val| - SpareSize(s, k, val)
  {
    var v := s.list[|s.list| - 1];
    assert Victims(s, k, val) == [v] && v in s.list;
    hide Victims, Consistent, Without, Total;
    DropOne(s, v);
    DropKeepsDrift(s, v);
    TotalUpdate(Drop(s, v).data, k, Item(val, deadline));
  }

  // Whether the stored bytes are within the limit after a Set: an eviction of
  // everything leaves the new value; otherwise the new value must fit beside
  // what is really stored, of which one key at most is freed.
  predicate FitsAfter(s: State, drift: int, k: Key, val: Value) {
    if Evicts(s, k, val) && |Victims(s, k, val)| == |s.list| then |val| <= s.max
    else drift <= s.max - UsedBefore(s, k) - |val| + SpareSize(s, k, val)
  }

  lemma LimitAfterSet(s: State, k: Key, val: Value, deadline: Option<Time>)
    requires Consistent(s)
    ensures Total(Set(s, k, val, deadline).data) <= s.max <==> FitsAfter(s, Drift(s), k, val)
  {
    StoredAfterSet(s, k, val, deadline);
  }

  lemma DropStoresLess(s: State, k: Key)
    ensures Total(Drop(s, k).data) <= Total(s.data)
  {
    if k in s.data { TotalRemove(s.data, k); }
  }

  lemma {:induction false} DropAllStoresLess(s: State, keys: seq<Key>)
    ensures Total(DropAll(s, keys).data) <= Total(s.data)
  {
    if keys != [] {
      DropAllStoresLess(s, keys[..|keys| - 1]);
      DropStoresLess(DropAll(s, keys[..|keys| - 1]), keys[|keys| - 1]);
    }
  }

  // The limit is kept at the start and after every operation of a run.
  ghost predicate StaysWithin(max: int, ops: seq<Op>) {
    forall i :: 0 <= i <= |ops| ==> Total(Run(max, ops[..i]).data) <= max
  }

  // Every Set of the run fits, given the drift the evictions before it left.
  ghost predicate EverySetFits(max: int, ops: seq<Op>) {
    forall i :: 0 <= i < |ops| && ops[i].SetOp? ==>
      FitsAfter(Run(max, ops[..i]), TotalDrift(max, ops[..i]), ops[i].key, ops[i].val)
  }

  lemma LastOfRun(max: int, ops: seq<Op>)
    requires ops != []
    ensures var n := |ops| - 1;
      var s, last := Run(max, ops[..n]), ops[n];
      && (StaysWithin(max, ops) <==> StaysWithin(max, ops[..n]) && Total(Step(s, last).data) <= max)
      && (EverySetFits(max, ops) <==>
          EverySetFits(max, ops[..n]) && (last.SetOp? ==> FitsAfter(s, TotalDrift(max, ops[..n]), last.key, last.val)))
  {
    hide FitsAfter, Total, TotalDrift, Step;
    var n := |ops| - 1;
    assert ops[..|ops|] == ops;
    assert forall i :: 0 <= i <= n ==> ops[..n][..i] == ops[..i];
    if StaysWithin(max, ops) {
      assert Total(Run(max, ops[..|ops|]).data) <= max;
    }
  }

  // A regular run keeps the limit throughout exactly when every Set of it fits.
  lemma {:induction false} LimitOverRun(max: int, ops: seq<Op>)
    requires 0 <= max && Regular(max, ops)
    ensures StaysWithin(max, ops) <==> EverySetFits(max, ops)
  {
    if ops == [] {
      assert ops[..0] == [];
    } else {
      var n := |ops| - 1;
      RegularPrefix(max, ops);
      LimitOverRun(max, ops[..n]);
      assert ops[..n][..n] == ops[..n];
      LimitNow(max, ops);
      LastOfRun(max, ops);
    }
  }

  lemma LimitNow(max: int, ops: seq<Op>)
    requires ops != [] && Regular(max, ops[..|ops| - 1])
    requires StaysWithin(max, ops[..|ops| - 1]) ==> Total(Run(max, ops[..|ops| - 1]).data) <= max
    ensures var n := |ops| - 1;
      var s, last := Run(max, ops[..n]), ops[n];
      StaysWithin(max, ops[..n]) ==>
        (Total(Step(s, last).data) <= max <==>
         (last.SetOp? ==> FitsAfter(s, TotalDrift(max, ops[..n]), last.key, last.val)))
  {
    hide FitsAfter, Total, TotalDrift, Step, Run, Regular, Consistent, StaysWithin;
    RunConsistent(max, ops[..|ops| - 1]);
    LimitStep(max, ops[..|ops| - 1], ops[|ops| - 1]);
  }

  lemma RegularPrefix(max: int, ops: seq<Op>)
    requires ops != [] && Regular(max, ops)
    ensures Regular(max, ops[..|ops| - 1])
  {
    var init := ops[..|ops| - 1];
    assert forall i :: 0 <= i < |init| ==> init[..i] == ops[..i];
  }

  lemma LimitStep(max: int, init: seq<Op>, op: Op)
    requires Consistent(Run(max, init)) && Run(max, init).max == max
    requires Drift(Run(max, init)) == TotalDrift(max, init)
    ensures op.SetOp? ==>
      (Total(Step(Run(max, init), op).data) <= max <==>
       FitsAfter(Run(max, init), TotalDrift(max, init), op.key, op.val))
    ensures !op.SetOp? && Total(Run(max, init).data) <= max ==> Total(Step(Run(max, init), op).data) <= max
  {
    hide FitsAfter, Total, TotalDrift, Drift;
    var s := Run(max, init);
    match op
    case SetOp(k, val, deadline, _) => LimitAfterSet(s, k, val, deadline);
    case GetOp(k, _) => DropStoresLess(s, k);
    case DeleteOp(k) => DropStoresLess(s, k);
    case SweepOp(removed, _) => DropAllStoresLess(s, removed);
  }

  lemma AllGone(s: State, victims: seq<Key>)
    requires Consistent(s) && |victims| == |s.list|
    requires victims == Backwards(s.list)
    ensures DropAll(s, victims).data == map[]
  {
    hide DropAll;
    DropAllConsistent(s, victims);
    EveryKeyBackwards(s.list);
    assert DropAll(s, victims).data.Keys == {};
  }

  lemma EveryKeyBackwards(list: seq<Key>)
    ensures forall x <- list :: x in Backwards(list)
  {
    forall x <- list ensures x in Backwards(list) {
      var i :| 0 <= i < |list| && list[i] == x;
      assert Backwards(list)[|list| - 1 - i] == x;
    }
  }

  const SIX: Value := [1, 2, 3, 4, 5, 6]

  // Two values of six bytes and a limit of ten: the third Set stores twelve.
  lemma LimitCanBeExceeded()
    ensures exists ops :: NonEmptyValues(ops) && LegalRun(10, ops) && Total(Run(10, ops).data) > 10
  {
    hide Set, Run, LegalRun, Total, Deadlocks;
    var a, b, c := SetOp("a", SIX, None, 0), SetOp("b", SIX, None, 0), SetOp("c", SIX, None, 0);
    FirstSet();
    SecondSet(Step(Start(10), a));
    ThirdSet(Step(Step(Start(10), a), b));
    RunOfThree(10, a, b, c);
    var ops := [a, b, c];
    assert NonEmptyValues(ops) && LegalRun(10, ops) && Total(Run(10, ops).data) > 10;
  }

  lemma RunOfThree(max: int, a: Op, b: Op, c: Op)
    ensures Run(max, [a, b, c]) == Step(Step(Step(Start(max), a), b), c)
    ensures Legal(Start(max), a) && Legal(Step(Start(max), a), b) && Legal(Step(Step(Start(max), a), b), c) ==>
      LegalRun(max, [a, b, c])
  {
    var ops := [a, b, c];
    assert ops[..2] == [a, b] && [a, b][..1] == [a] == ops[..1] && [a][..0] == [] == ops[..0];
    assert Run(max, [a]) == Step(Start(max), a);
    assert Run(max, [a, b]) == Step(Run(max, [a]), b);
  }

  lemma FirstSet()
    ensures !Deadlocks(Start(10), "a", SIX, 0)
    ensures var s := Set(Start(10), "a", SIX, None);
      s.max == 10 && s.used == 6 && s.list == ["a"] && s.data == map["a" := Item(SIX, None)]
  {
    var s := Start(10);
    assert |SIX| == 6 && Size(s.data, "a") == 0 && !Evicts(s, "a", SIX);
    assert Room(s, "a", SIX) == s.(used := 6);
    FirstPush(s);
  }

  lemma FirstPush(s: State)
    requires s == Start(10) && Room(s, "a", SIX) == s.(used := 6)
    ensures var s' := Set(s, "a", SIX, None);
      s'.max == 10 && s'.used == 6 && s'.list == ["a"] && s'.data == map["a" := Item(SIX, None)]
  {
    hide Room;
    assert s.data["a" := Item(SIX, None)] == map["a" := Item(SIX, None)];
  }

  lemma SecondSet(s: State)
    requires s.max == 10 && s.used == 6 && s.list == ["a"] && s.data == map["a" := Item(SIX, None)]
    ensures !Deadlocks(s, "b", SIX, 0)
    ensures var s' := Set(s, "b", SIX, None);
      s'.max == 10 && s'.used == 0 && s'.list == ["b"] && s'.data == map["b" := Item(SIX, None)]
  {
    assert Victims(s, "b", SIX) == ["a"];
    assert ["a"][..0] == [] && Without(["a"], "a") == [];
    assert s.data - {"a"} == map[];
    assert DropAll(s, ["a"]) == Drop(s, "a");
  }

  lemma ThirdSet(s: State)
    requires s.max == 10 && s.used == 0 && s.data == map["b" := Item(SIX, None)]
    ensures !Deadlocks(s, "c", SIX, 0) && Total(Set(s, "c", SIX, None).data) == 12
  {
    TotalUpdate(s.data, "c", Item(SIX, None));
    TotalUpdate(map[], "b", Item(SIX, None));
    assert map["b" := Item(SIX, None)] == map[]["b" := Item(SIX, None)];
  }
}
