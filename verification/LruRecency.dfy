// Recency and expiry read off the calls alone: which key the list puts first,
// and what a Get returns after a Set.
module LruRecency {
  import opened Wrappers
  import opened Lru
  import opened LruLaws

  // A stored value is live up to its deadline.
  predicate Live(s: State, k: Key, now: Time) {
    k in s.data && (s.data[k].deadline.None? || now <= s.data[k].deadline.value)
  }

  // ---------- one Get ----------

  // A Get of a live key returns its value, moves the key to the front and
  // leaves the other keys, their order and the stored values alone.
  lemma GetLive(s: State, k: Key, now: Time) returns (i: nat)
    requires Consistent(s) && Live(s, k, now)
    ensures i < |s.list| && s.list[i] == k
    ensures var (s', r) := Get(s, k, now);
      && r == Some(s.data[k].val) && s'.data == s.data && s'.used == s.used && s'.max == s.max
      && s'.list == [k] + s.list[..i] + s.list[i + 1..]
  {
    i :| 0 <= i < |s.list| && s.list[i] == k;
    RemoveAt(s.list, i);
    assert [k] + (s.list[..i] + s.list[i + 1..]) == [k] + s.list[..i] + s.list[i + 1..];
  }

  // A Get of any other key finds nothing. If the key had expired its entry goes,
  // from the map and the list.
  lemma GetNothing(s: State, k: Key, now: Time)
    requires Consistent(s) && !Live(s, k, now)
    ensures var (s', r) := Get(s, k, now);
      && r == None && s'.data == s.data - {k} && s'.max == s.max
      && (k !in s.data ==> s' == s)
      && (k in s.data ==>
            exists i :: 0 <= i < |s.list| && s.list[i] == k && s'.list == s.list[..i] + s.list[i + 1..] &&
                        s'.used == s.used - |s.data[k].val|)
  {
    if k in s.data {
      var i :| 0 <= i < |s.list| && s.list[i] == k;
      RemoveAt(s.list, i);
    } else {
      assert s.data - {k} == s.data;
    }
  }

  // Set never returns exactly when the key, or one it would evict, has expired.
  lemma DeadlocksWhen(s: State, k: Key, val: Value, now: Time)
    requires Consistent(s)
    ensures Deadlocks(s, k, val, now) <==>
      exists x <- s.data :: !Live(s, x, now) && (x == k || EvictedBy(s, k, val, x))
  {
    hide EvictedBy, Victims, Evicts;
    forall x ensures EvictedBy(s, k, val, x) <==> Evicts(s, k, val) && x in Victims(s, k, val) {
      EvictedIsVictim(s, k, val, x);
    }
  }

  // A Set of `k` needs room when the new value does not fit beside the bytes
  // counted for the other keys. It evicts the last key alone when that leaves
  // more than the new value needs, and otherwise all keys.
  predicate EvictedBy(s: State, k: Key, val: Value, x: Key) {
    var used := s.used - (if k in s.data then |s.data[k].val| else 0);
    && s.max < |val| + used && x in s.list
    && var last := s.list[|s.list| - 1];
       used - (if last in s.data then |s.data[last].val| else 0) > |val| ==> x == last
  }

  lemma EvictedIsVictim(s: State, k: Key, val: Value, x: Key)
    ensures EvictedBy(s, k, val, x) <==> Evicts(s, k, val) && x in Victims(s, k, val)
  {
    hide Backwards;
    BackwardsHas(s.list, x);
  }

  lemma BackwardsHas(list: seq<Key>, x: Key)
    ensures x in Backwards(list) <==> x in list
  {
    EveryKeyBackwards(list);
    if x in Backwards(list) {
      var i :| 0 <= i < |list| && Backwards(list)[i] == x;
      assert list[|list| - 1 - i] == x;
    }
  }

  // ---------- recency over runs ----------

  // Operation `i` of a run sets the key, or gets it and finds it.
  ghost predicate Accesses(max: int, ops: seq<Op>, i: nat, k: Key)
    requires i < |ops|
  {
    match ops[i]
    case SetOp(k', _, _, _) => k' == k
    case GetOp(k', now) => k' == k && Live(Run(max, ops[..i]), k, now)
    case _ => false
  }

  // The last operation that accessed a key; -1 if none did.
  ghost function LastAccess(max: int, ops: seq<Op>, k: Key): (n: int)
    ensures -1 <= n < |ops|
    ensures n >= 0 ==> Accesses(max, ops, n, k)
    ensures forall i :: n < i < |ops| ==> !Accesses(max, ops, i, k)
  {
    if ops == [] then -1
    else if Accesses(max, ops, |ops| - 1, k) then |ops| - 1
    else
      var init := ops[..|ops| - 1];
      assert forall i :: 0 <= i < |init| ==> init[..i] == ops[..i];
      assert forall i :: 0 <= i < |init| ==> Accesses(max, init, i, k) == Accesses(max, ops, i, k);
      LastAccess(max, init, k)
  }

  // The list runs from the latest access to the earliest.
  ghost predicate ByAccess(max: int, ops: seq<Op>, list: seq<Key>) {
    forall i, j :: 0 <= i < j < |list| ==> LastAccess(max, ops, list[i]) > LastAccess(max, ops, list[j])
  }

  lemma {:induction false} WithoutByAccess(max: int, ops: seq<Op>, list: seq<Key>, k: Key)
    requires ByAccess(max, ops, list)
    ensures ByAccess(max, ops, Without(list, k))
  {
    hide LastAccess;
    if list != [] {
      var n := |list| - 1;
      WithoutByAccess(max, ops, list[..n], k);
      var front := Without(list[..n], k);
      forall i | 0 <= i < |front| ensures LastAccess(max, ops, front[i]) > LastAccess(max, ops, list[n]) {
        assert front[i] in front && front[i] in list[..n];
        var j :| 0 <= j < n && list[j] == front[i];
      }
    }
  }

  lemma {:induction false} DropAllByAccess(max: int, ops: seq<Op>, s: State, keys: seq<Key>)
    requires ByAccess(max, ops, s.list)
    ensures ByAccess(max, ops, DropAll(s, keys).list)
  {
    hide LastAccess, ByAccess, Without;
    if keys != [] {
      var n := |keys| - 1;
      DropAllByAccess(max, ops, s, keys[..n]);
      WithoutByAccess(max, ops, DropAll(s, keys[..n]).list, keys[n]);
    }
  }

  // A new access beats every other.
  lemma FrontByAccess(max: int, ops: seq<Op>, list: seq<Key>, k: Key)
    requires ops != [] && Accesses(max, ops, |ops| - 1, k) && k !in list
    requires ByAccess(max, ops[..|ops| - 1], list)
    requires forall x <- list :: !Accesses(max, ops, |ops| - 1, x)
    ensures ByAccess(max, ops, [k] + list)
  {
    hide Accesses;
    var init := ops[..|ops| - 1];
    assert forall x <- list :: LastAccess(max, ops, x) == LastAccess(max, init, x) < |init|;
    assert forall i :: 0 <= i < |list| ==> list[i] in list;
  }

  lemma SameByAccess(max: int, ops: seq<Op>, list: seq<Key>)
    requires ops != [] && ByAccess(max, ops[..|ops| - 1], list)
    requires forall x <- list :: !Accesses(max, ops, |ops| - 1, x)
    ensures ByAccess(max, ops, list)
  {
    hide Accesses;
    assert forall x <- list :: LastAccess(max, ops, x) == LastAccess(max, ops[..|ops| - 1], x);
    assert forall i :: 0 <= i < |list| ==> list[i] in list;
  }

  // Over every run that overwrites no surviving empty value the list holds the
  // stored keys from the latest access to the earliest.
  lemma {:induction false} ListIsByAccess(max: int, ops: seq<Op>)
    requires Regular(max, ops)
    ensures ByAccess(max, ops, Run(max, ops).list)
    ensures forall k <- Run(max, ops).list :: LastAccess(max, ops, k) >= 0
  {
    hide ByAccess, LastAccess, Regular, Consistent, Step;
    if ops != [] {
      var init := ops[..|ops| - 1];
      RegularPrefix(max, ops);
      ListIsByAccess(max, init);
      RunConsistent(max, init);
      LastStepByAccess(max, ops);
    } else {
      NothingYet(max);
    }
  }

  lemma NothingYet(max: int)
    ensures ByAccess(max, [], Start(max).list)
  {
  }

  lemma LastStepByAccess(max: int, ops: seq<Op>)
    requires ops != [] && Regular(max, ops) && Consistent(Run(max, ops[..|ops| - 1]))
    requires var s := Run(max, ops[..|ops| - 1]);
      ByAccess(max, ops[..|ops| - 1], s.list) && forall k <- s.list :: LastAccess(max, ops[..|ops| - 1], k) >= 0
    ensures var s := Step(Run(max, ops[..|ops| - 1]), ops[|ops| - 1]);
      ByAccess(max, ops, s.list) && forall k <- s.list :: LastAccess(max, ops, k) >= 0
  {
    hide ByAccess, LastAccess, Evicts, Victims;
    var init, last := ops[..|ops| - 1], ops[|ops| - 1];
    var s := Run(max, init);
    forall k | k in s.list ensures LastAccess(max, ops, k) >= 0 {
      AccessGrows(max, ops, k);
    }
    match last
    case SetOp(k, val, deadline, now) =>
      AccessNow(max, ops, k);
      SetByAccess(max, ops, s);
    case GetOp(k, now) =>
      if Live(s, k, now) {
        AccessNow(max, ops, k);
        WithoutByAccess(max, init, s.list, k);
        FrontByAccess(max, ops, Without(s.list, k), k);
      } else {
        WithoutByAccess(max, init, s.list, k);
        SameByAccess(max, ops, if k in s.data then Without(s.list, k) else s.list);
      }
    case DeleteOp(k) =>
      WithoutByAccess(max, init, s.list, k);
      SameByAccess(max, ops, if k in s.data then Without(s.list, k) else s.list);
    case SweepOp(removed, now) =>
      DropAllByAccess(max, init, s, removed);
      DropAllConsistent(s, removed);
      SameByAccess(max, ops, DropAll(s, removed).list);
  }

  lemma AccessGrows(max: int, ops: seq<Op>, k: Key)
    requires ops != [] && LastAccess(max, ops[..|ops| - 1], k) >= 0
    ensures LastAccess(max, ops, k) >= 0
  {
    hide Accesses;
  }

  lemma AccessNow(max: int, ops: seq<Op>, k: Key)
    requires ops != [] && Accesses(max, ops, |ops| - 1, k)
    ensures LastAccess(max, ops, k) >= 0
  {
    hide Accesses;
  }

  lemma SetByAccess(max: int, ops: seq<Op>, s: State)
    requires ops != [] && s == Run(max, ops[..|ops| - 1]) && ops[|ops| - 1].SetOp? && Regular(max, ops) && Consistent(s)
    requires ByAccess(max, ops[..|ops| - 1], s.list)
    ensures var s' := Step(s, ops[|ops| - 1]);
      ByAccess(max, ops, s'.list) && forall x <- s'.list :: x == ops[|ops| - 1].key || x in s.list
  {
    hide ByAccess, LastAccess, Evicts, Victims;
    var init, last := ops[..|ops| - 1], ops[|ops| - 1];
    var k, room := last.key, Room(s, last.key, last.val);
    RoomConsistent(s, k, last.val);
    assert !Degenerate(s, k, last.val);
    if Evicts(s, k, last.val) { DropAllByAccess(max, init, s, Victims(s, k, last.val)); }
    WithoutByAccess(max, init, room.list, k);
    FrontByAccess(max, ops, if Size(s.data, k) > 0 then Without(room.list, k) else room.list, k);
  }

  // So an eviction of one key takes the one whose last access lies furthest back.
  lemma LeastRecentGoes(max: int, ops: seq<Op>, k: Key, val: Value, x: Key, y: Key)
    requires Regular(max, ops) && x in Run(max, ops).data && y in Run(max, ops).data
    requires EvictedBy(Run(max, ops), k, val, x) && !EvictedBy(Run(max, ops), k, val, y)
    ensures LastAccess(max, ops, x) < LastAccess(max, ops, y)
  {
    hide LastAccess;
    var s := Run(max, ops);
    RunConsistent(max, ops);
    ListIsByAccess(max, ops);
    var j :| 0 <= j < |s.list| && s.list[j] == y;
    assert s.list[|s.list| - 1] == x && j < |s.list| - 1;
  }

  // ---------- a Get after a Set ----------

  // The operation leaves the entry of a key alone.
  predicate Spares(s: State, op: Op, k: Key) {
    match op
    case SetOp(k', val, _, _) => k' != k && !EvictedBy(s, k', val, k)
    case GetOp(k', now) => k' != k || Live(s, k, now)
    case DeleteOp(k') => k' != k
    case SweepOp(removed, _) => k !in removed
  }

  lemma EntryStays(s: State, op: Op, k: Key)
    requires Consistent(s) && (op.SetOp? ==> op.key != k)
    ensures k in Step(s, op).data <==> k in s.data && Spares(s, op, k)
    ensures k in Step(s, op).data ==> Step(s, op).data[k] == s.data[k]
  {
    hide EvictedBy, Evicts, Victims;
    match op
    case SetOp(k', val, _, _) =>
      RoomConsistent(s, k', val);
      EvictedIsVictim(s, k', val, k);
    case SweepOp(removed, _) => DropAllConsistent(s, removed);
    case _ =>
  }

  // Nothing since the Set removed the entry.
  ghost predicate AllSpare(max: int, before: seq<Op>, mid: seq<Op>, k: Key) {
    forall j :: 0 <= j < |mid| ==> Spares(Run(max, before + mid[..j]), mid[j], k)
  }

  lemma {:induction false} EntryAfter(max: int, before: seq<Op>, mid: seq<Op>, k: Key)
    requires Regular(max, before + mid) && k in Run(max, before).data
    requires forall j :: 0 <= j < |mid| && mid[j].SetOp? ==> mid[j].key != k
    ensures k in Run(max, before + mid).data <==> AllSpare(max, before, mid, k)
    ensures k in Run(max, before + mid).data ==> Run(max, before + mid).data[k] == Run(max, before).data[k]
    decreases |mid|
  {
    hide Step, Spares, Consistent, Regular, AllSpare;
    NoneSpared(max, before, k);
    if mid == [] {
      assert before + mid == before;
    } else {
      var n := |mid| - 1;
      var init := mid[..n];
      assert (before + mid)[..|before + mid| - 1] == before + init;
      RegularPrefix(max, before + mid);
      EntryAfter(max, before, init, k);
      RunConsistent(max, before + init);
      EntryStays(Run(max, before + init), mid[n], k);
      OneMore(max, before, mid, k);
    }
  }

  lemma NoneSpared(max: int, before: seq<Op>, k: Key)
    ensures AllSpare(max, before, [], k)
  {
  }

  lemma OneMore(max: int, before: seq<Op>, mid: seq<Op>, k: Key)
    requires mid != []
    ensures var n := |mid| - 1;
      AllSpare(max, before, mid, k) <==>
      AllSpare(max, before, mid[..n], k) && Spares(Run(max, before + mid[..n]), mid[n], k)
  {
    hide Run, Spares;
    var n := |mid| - 1;
    assert forall j :: 0 <= j < n ==> mid[..n][..j] == mid[..j] && mid[..n][j] == mid[j];
  }

  // A Get returns the value last set until its deadline, or until the key is
  // deleted, swept, evicted or found expired; after that it returns nothing.
  lemma GetAfterSet(max: int, pre: seq<Op>, k: Key, val: Value, deadline: Option<Time>, setAt: Time, mid: seq<Op>,
                    now: Time)
    requires Regular(max, pre + [SetOp(k, val, deadline, setAt)] + mid)
    requires forall j :: 0 <= j < |mid| && mid[j].SetOp? ==> mid[j].key != k
    ensures var before := pre + [SetOp(k, val, deadline, setAt)];
      Get(Run(max, before + mid), k, now).1 ==
      if AllSpare(max, before, mid, k) && (deadline.None? || now <= deadline.value) then Some(val) else None
  {
    var before := pre + [SetOp(k, val, deadline, setAt)];
    assert before[..|before| - 1] == pre;
    assert Run(max, before).data[k] == Item(val, deadline);
    EntryAfter(max, before, mid, k);
  }

  // With an expiration that is its length from the Set on, or no end.
  lemma ExpiresAfter(max: int, pre: seq<Op>, k: Key, val: Value, setAt: Time, expiration: int, mid: seq<Op>, now: Time)
    requires Regular(max, pre + [SetOp(k, val, Deadline(setAt, expiration), setAt)] + mid)
    requires forall j :: 0 <= j < |mid| && mid[j].SetOp? ==> mid[j].key != k
    ensures var before := pre + [SetOp(k, val, Deadline(setAt, expiration), setAt)];
      Get(Run(max, before + mid), k, now).1 ==
      if AllSpare(max, before, mid, k) && (expiration <= 0 || now <= setAt + expiration) then Some(val) else None
  {
    hide Regular, Run, AllSpare;
    GetAfterSet(max, pre, k, val, Deadline(setAt, expiration), setAt, mid, now);
  }

  // ---------- the sweep ----------

  // A tick of the expiry goroutine takes no live entry.
  lemma SweepSparesLive(s: State, removed: seq<Key>, now: Time, k: Key)
    requires Consistent(s) && Legal(s, SweepOp(removed, now)) && Live(s, k, now)
    ensures Live(Step(s, SweepOp(removed, now)), k, now)
    ensures Step(s, SweepOp(removed, now)).data[k] == s.data[k]
  {
    EntryStays(s, SweepOp(removed, now), k);
  }
}
