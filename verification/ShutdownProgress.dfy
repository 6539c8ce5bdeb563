// The shutdown terminates, and exactly when every callback runs once.
module ShutdownProgress {
  import opened Shutdown
  import opened ShutdownLaws
  import opened ShutdownOrder

  // A step of the protocol itself: not a request, not the watcher.
  predicate Internal(a: Action) { a.Main? || a.StopStep? || a.CbStep? }

  function RankSum(ps: seq<Phase>): nat {
    if ps == [] then 0 else RankSum(ps[..|ps| - 1]) + Rank(ps[|ps| - 1])
  }

  lemma {:induction false} RankSumUpdate(ps: seq<Phase>, i: nat, p: Phase)
    requires i < |ps|
    ensures RankSum(ps[i := p]) == RankSum(ps) - Rank(ps[i]) + Rank(p)
    decreases |ps|
  {
    var n := |ps| - 1;
    if i == n {
      assert ps[i := p][..n] == ps[..n];
    } else {
      assert ps[i := p][..n] == ps[..n][i := p];
      RankSumUpdate(ps[..n], i, p);
    }
  }

  lemma {:induction false} RankSumBound(ps: seq<Phase>)
    ensures RankSum(ps) <= 4 * |ps|
  {
    if ps != [] { RankSumBound(ps[..|ps| - 1]); }
  }

  // Steps main still has to take.
  function MainSteps(s: State): int {
    var n, m := |s.reject|, |s.cbs|;
    match s.pc
    case Add1 => 3 * n + 2 * m + 10
    case Reject(i) => 2 * (n - i) + n + 2 * m + 9
    case Done1(i) => 2 * (n - i) - 1 + n + 2 * m + 9
    case Wait1 => n + 2 * m + 8
    case Add2 => n + 2 * m + 7
    case SpawnStop(i) => n - i + 2 * m + 6
    case Wait2 => 2 * m + 5
    case Add3 => 2 * m + 4
    case NextCb(i) => 2 * (m - i) + 3
    case SpawnCb(i) => 2 * (m - i) + 2
    case Wait3 => 2
    case Closing => 1
    case Finished => 0
  }

  // Steps everybody still has to take.
  function Remaining(s: State): int {
    MainSteps(s) + 4 * |s.stops| - RankSum(s.stops) + 4 * |s.cbs| - RankSum(s.cbs)
  }

  lemma MainUsesUp(s: State, n: nat, m: nat)
    requires Inv(s, n, m) && Enabled(s, Main)
    ensures Remaining(MainNext(s)) < Remaining(s)
  {
    hide RankSum, Outstanding;
    if s.pc.SpawnStop? && s.pc.i < n { RankSumUpdate(s.stops, s.pc.i, Ready); }
    if s.pc.SpawnCb? { RankSumUpdate(s.cbs, s.pc.i, Ready); }
  }

  lemma StopUsesUp(s: State, i: nat)
    requires Enabled(s, StopStep(i))
    ensures Remaining(Next(s, StopStep(i))) < Remaining(s)
  {
    hide RankSum;
    RankSumUpdate(s.stops, i, Next(s, StopStep(i)).stops[i]);
  }

  lemma CbUsesUp(s: State, i: nat)
    requires Enabled(s, CbStep(i))
    ensures Remaining(Next(s, CbStep(i))) < Remaining(s)
  {
    hide RankSum;
    RankSumUpdate(s.cbs, i, Next(s, CbStep(i)).cbs[i]);
  }

  lemma RemainingIsNat(s: State, n: nat, m: nat)
    requires Inv(s, n, m)
    ensures Remaining(s) >= 0
  {
    RankSumBound(s.stops);
    RankSumBound(s.cbs);
  }

  // Every internal step uses up at least one of the remaining steps, and
  // nothing adds any: a run takes at most Remaining(Start) internal steps.
  lemma StepUsesUp(s: State, n: nat, m: nat, a: Action)
    requires Inv(s, n, m) && Enabled(s, a)
    ensures Remaining(s) >= 0
    ensures if Internal(a) then Remaining(Next(s, a)) < Remaining(s) else Remaining(Next(s, a)) == Remaining(s)
  {
    hide RankSum, Inv;
    RemainingIsNat(s, n, m);
    if !Internal(a) {
      assert Next(s, a) == s.(log := Next(s, a).log, exited := Next(s, a).exited);
      return;
    }
    match a {
      case Main => MainUsesUp(s, n, m);
      case StopStep(i) => StopUsesUp(s, i);
      case CbStep(i) => CbUsesUp(s, i);
      case _ =>
    }
  }

  function InternalSteps(acts: seq<Action>): nat {
    if acts == [] then 0 else (if Internal(acts[0]) then 1 else 0) + InternalSteps(acts[1..])
  }

  // However the goroutines are interleaved, at most this many internal steps
  // are possible.
  lemma {:induction false} RunIsBounded(s: State, acts: seq<Action>, t: State, n: nat, m: nat)
    requires Inv(s, n, m) && Reaches(s, acts, t)
    ensures InternalSteps(acts) <= Remaining(s)
    decreases |acts|
  {
    RemainingIsNat(s, n, m);
    if acts != [] {
      StepKeepsInv(s, n, m, acts[0]);
      StepUsesUp(s, n, m, acts[0]);
      RunIsBounded(Next(s, acts[0]), acts[1..], t, n, m);
    }
  }

  // The step the shutdown can always take next: main if it is not waiting,
  // else some goroutine it waits for.
  lemma NoDeadlock(s: State, n: nat, m: nat) returns (a: Action)
    requires Inv(s, n, m) && !s.exited && !s.pc.Finished?
    ensures Internal(a) && Enabled(s, a)
    ensures a.CbStep? ==> s.pc.Wait3?
  {
    AtLeastAll(s.stops, 4);
    AtLeastAll(s.cbs, 4);
    if Enabled(s, Main) {
      a := Main;
    } else if s.pc.Wait2? {
      var i :| 0 <= i < n && Rank(s.stops[i]) < 4;
      a := StopStep(i);
    } else {
      var i :| 0 <= i < m && Rank(s.cbs[i]) < 4;
      a := CbStep(i);
    }
  }

  // ---------- which callback a goroutine runs ----------

  // No callback has begun before main waits for them, and each one that has
  // begun is the last one.
  ghost predicate Late(s: State, m: nat) {
    && |s.cbs| == m
    && (!s.pc.Wait3? && !s.pc.Closing? && !s.pc.Finished? ==> forall k :: 0 <= k < m ==> Rank(s.cbs[k]) <= 1)
    && (forall g: nat, j: nat :: CbBegin(g, j) in s.log ==> j == m - 1)
  }

  lemma LateStep(s: State, n: nat, m: nat, a: Action)
    requires Inv(s, n, m) && Late(s, m) && Internal(a) && Enabled(s, a) && (a.CbStep? ==> s.pc.Wait3?)
    ensures Late(Next(s, a), m)
  {
    if Next(s, a).log != s.log { Members(s.log, Next(s, a).log[|s.log|]); }
  }

  lemma FinishLate(s: State, n: nat, m: nat) returns (acts: seq<Action>, t: State)
    requires Inv(s, n, m) && !s.exited && Late(s, m)
    ensures Reaches(s, acts, t) && t.pc.Finished? && Late(t, m)
    decreases Remaining(s)
  {
    if s.pc.Finished? {
      acts, t := [], s;
    } else {
      var a := NoDeadlock(s, n, m);
      StepKeepsInv(s, n, m, a);
      StepUsesUp(s, n, m, a);
      LateStep(s, n, m, a);
      var rest;
      rest, t := FinishLate(Next(s, a), n, m);
      acts := [a] + rest;
      assert acts[1..] == rest;
    }
  }

  lemma {:induction false} CallsWhenAll(log: seq<Event>, j: nat)
    requires forall g: nat, i: nat :: CbBegin(g, i) in log ==> i == j
    ensures Calls(log, j) == Begins(log)
    ensures forall i: nat :: i != j ==> Calls(log, i) == 0
  {
    if log != [] {
      var init, e := log[..|log| - 1], log[|log| - 1];
      assert log == init + [e];
      Members(init, e);
      CallsWhenAll(init, j);
    }
  }

  ghost predicate EachCalledOnce(log: seq<Event>, m: nat) {
    forall j :: 0 <= j < m ==> Calls(log, j) == 1
  }

  ghost predicate FinishedRun(n: nat, m: nat, acts: seq<Action>, t: State) {
    Reaches(Start(n, m), acts, t) && t.pc.Finished?
  }

  // Every finished shutdown has invoked callbacks exactly `m` times in all.
  // Because the goroutines share the loop variable, they are sure to be the
  // `m` different callbacks exactly when there is at most one.
  lemma SharedLoopVariable(n: nat, m: nat)
    ensures (forall acts, t :: FinishedRun(n, m, acts, t) ==> EachCalledOnce(t.log, m)) <==> m <= 1
  {
    StartInv(n, m);
    if m <= 1 {
      forall acts, t | FinishedRun(n, m, acts, t) ensures EachCalledOnce(t.log, m) {
        FinishedCalls(n, m, acts, t);
        if m == 1 { CallsWhenAll(t.log, 0); }
      }
    } else {
      var acts, t := FinishLate(Start(n, m), n, m);
      CallsWhenAll(t.log, m - 1);
      assert Calls(t.log, 0) == 0;
      assert FinishedRun(n, m, acts, t) && !EachCalledOnce(t.log, m);
    }
  }

  lemma FinishedCalls(n: nat, m: nat, acts: seq<Action>, t: State)
    requires FinishedRun(n, m, acts, t)
    ensures Begins(t.log) == Ends(t.log) == m
    ensures forall g: nat, j: nat :: CbBegin(g, j) in t.log ==> g <= j < m
  {
    StartInv(n, m);
    AtLeastNone(Start(n, m).cbs, 2);
    AtLeastNone(Start(n, m).cbs, 3);
    GoodForever(Start(n, m), acts, t, n, m);
    AtLeastAll(t.cbs, 2);
    AtLeastAll(t.cbs, 3);
  }
}
