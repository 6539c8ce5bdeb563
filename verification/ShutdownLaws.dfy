// What every interleaving of a graceful shutdown keeps.
module ShutdownLaws {
  import opened Shutdown

  lemma {:induction false} AtLeastUpdate(ps: seq<Phase>, i: nat, p: Phase, r: nat)
    requires i < |ps|
    ensures AtLeast(ps[i := p], r) ==
      AtLeast(ps, r) - (if Rank(ps[i]) >= r then 1 else 0) + (if Rank(p) >= r then 1 else 0)
    decreases |ps|
  {
    var n := |ps| - 1;
    if i == n {
      assert ps[i := p][..n] == ps[..n];
    } else {
      assert ps[i := p][..n] == ps[..n][i := p];
      AtLeastUpdate(ps[..n], i, p, r);
    }
  }

  // All counted exactly when the count is the length.
  lemma {:induction false} AtLeastAll(ps: seq<Phase>, r: nat)
    ensures AtLeast(ps, r) <= |ps|
    ensures AtLeast(ps, r) == |ps| <==> forall k :: 0 <= k < |ps| ==> Rank(ps[k]) >= r
  {
    if ps != [] {
      AtLeastAll(ps[..|ps| - 1], r);
    }
  }

  lemma {:induction false} AtLeastNone(ps: seq<Phase>, r: nat)
    requires forall k :: 0 <= k < |ps| ==> Rank(ps[k]) < r
    ensures AtLeast(ps, r) == 0
  {
    if ps != [] { AtLeastNone(ps[..|ps| - 1], r); }
  }

  // ---------- the state invariant ----------

  function RejectedUpTo(s: State): nat {
    match s.pc
    case Add1 => 0
    case Reject(i) => i
    case Done1(i) => i + 1
    case _ => |s.reject|
  }

  function StopsSpawned(s: State): nat {
    match s.pc
    case Add1 => 0 case Reject(_) => 0 case Done1(_) => 0 case Wait1 => 0 case Add2 => 0
    case SpawnStop(i) => i
    case _ => |s.stops|
  }

  function CbsSpawned(s: State): nat {
    match s.pc
    case NextCb(i) => i
    case SpawnCb(i) => i
    case Wait3 => |s.cbs| case Closing => |s.cbs| case Finished => |s.cbs|
    case _ => 0
  }

  // The work the WaitGroup stands for: servers still to be marked, stop
  // goroutines not done, callback goroutines not done.
  function Outstanding(s: State): int {
    match s.pc
    case Reject(i) => |s.reject| - i
    case Done1(i) => |s.reject| - i
    case SpawnStop(_) => |s.stops| - AtLeast(s.stops, 4)
    case Wait2 => |s.stops| - AtLeast(s.stops, 4)
    case NextCb(_) => |s.cbs| - AtLeast(s.cbs, 4)
    case SpawnCb(_) => |s.cbs| - AtLeast(s.cbs, 4)
    case Wait3 => |s.cbs| - AtLeast(s.cbs, 4)
    case _ => 0
  }

  predicate StopsOver(s: State) {
    match s.pc
    case Add3 => true case NextCb(_) => true case SpawnCb(_) => true case Wait3 => true
    case Closing => true case Finished => true
    case _ => false
  }

  predicate CbsOver(s: State) { s.pc.Closing? || s.pc.Finished? }

  predicate IndexOk(s: State) {
    match s.pc
    case Reject(i) => i <= |s.reject|
    case Done1(i) => i < |s.reject|
    case SpawnStop(i) => i <= |s.stops|
    case NextCb(i) => i <= |s.cbs|
    case SpawnCb(i) => i < |s.cbs|
    case _ => true
  }

  predicate LoopVariable(s: State) {
    match s.pc
    case NextCb(i) => i > 0 ==> s.cbVar == i - 1
    case SpawnCb(i) => s.cbVar == i
    case Wait3 => |s.cbs| > 0 ==> s.cbVar == |s.cbs| - 1
    case _ => true
  }

  ghost predicate Inv(s: State, n: nat, m: nat) {
    && |s.reject| == n && |s.stops| == n && |s.cbs| == m && IndexOk(s) && LoopVariable(s)
    && (forall k :: 0 <= k < n ==> (s.reject[k] <==> k < RejectedUpTo(s)))
    && (forall k :: 0 <= k < n ==> (s.stops[k].Idle? <==> k >= StopsSpawned(s)))
    && (forall k :: 0 <= k < m ==> (s.cbs[k].Idle? <==> k >= CbsSpawned(s)))
    && (StopsOver(s) ==> forall k :: 0 <= k < n ==> s.stops[k].Gone?)
    && (CbsOver(s) ==> forall k :: 0 <= k < m ==> s.cbs[k].Gone?)
    && s.wg == Outstanding(s)
  }

  lemma StartInv(n: nat, m: nat)
    ensures Inv(Start(n, m), n, m)
  {}

  lemma RejectPhaseKeepsInv(s: State, n: nat, m: nat)
    requires Inv(s, n, m) && Enabled(s, Main)
    requires s.pc.Add1? || s.pc.Reject? || s.pc.Done1? || s.pc.Wait1?
    ensures Inv(MainNext(s), n, m)
  {}

  lemma StopPhaseKeepsInv(s: State, n: nat, m: nat)
    requires Inv(s, n, m) && Enabled(s, Main)
    requires s.pc.Add2? || s.pc.SpawnStop? || s.pc.Wait2?
    ensures Inv(MainNext(s), n, m)
  {
    hide AtLeast;
    if s.pc.Add2? { AtLeastNone(s.stops, 4); }
    if s.pc.SpawnStop? && s.pc.i < n { AtLeastUpdate(s.stops, s.pc.i, Ready, 4); }
    if s.pc.Wait2? { AtLeastAll(s.stops, 4); }
  }

  lemma CallbackPhaseKeepsInv(s: State, n: nat, m: nat)
    requires Inv(s, n, m) && Enabled(s, Main)
    requires s.pc.Add3? || s.pc.NextCb? || s.pc.SpawnCb?
    ensures Inv(MainNext(s), n, m)
  {
    hide AtLeast;
    if s.pc.Add3? { AtLeastNone(s.cbs, 4); }
    if s.pc.SpawnCb? { AtLeastUpdate(s.cbs, s.pc.i, Ready, 4); }
  }

  lemma ClosingPhaseKeepsInv(s: State, n: nat, m: nat)
    requires Inv(s, n, m) && Enabled(s, Main) && (s.pc.Wait3? || s.pc.Closing?)
    ensures Inv(MainNext(s), n, m)
  {
    hide AtLeast;
    AtLeastAll(s.cbs, 4);
  }

  lemma MainKeepsInv(s: State, n: nat, m: nat)
    requires Inv(s, n, m) && Enabled(s, Main)
    ensures Inv(MainNext(s), n, m)
  {
    hide Inv, MainNext;
    if s.pc.Add1? || s.pc.Reject? || s.pc.Done1? || s.pc.Wait1? {
      RejectPhaseKeepsInv(s, n, m);
    } else if s.pc.Add2? || s.pc.SpawnStop? || s.pc.Wait2? {
      StopPhaseKeepsInv(s, n, m);
    } else if s.pc.Wait3? || s.pc.Closing? {
      ClosingPhaseKeepsInv(s, n, m);
    } else {
      CallbackPhaseKeepsInv(s, n, m);
    }
  }

  lemma StopStepKeepsInv(s: State, n: nat, m: nat, i: nat)
    requires Inv(s, n, m) && Enabled(s, StopStep(i))
    ensures Inv(Next(s, StopStep(i)), n, m)
  {
    hide AtLeast;
    AtLeastUpdate(s.stops, i, Next(s, StopStep(i)).stops[i], 4);
  }

  lemma CbStepKeepsInv(s: State, n: nat, m: nat, i: nat)
    requires Inv(s, n, m) && Enabled(s, CbStep(i))
    ensures Inv(Next(s, CbStep(i)), n, m)
  {
    hide AtLeast;
    AtLeastUpdate(s.cbs, i, Next(s, CbStep(i)).cbs[i], 4);
  }

  lemma EventKeepsInv(s: State, n: nat, m: nat, a: Action)
    requires Inv(s, n, m) && Enabled(s, a) && (a.Request? || a.Watcher?)
    ensures Inv(Next(s, a), n, m)
  {
    hide AtLeast;
  }

  lemma StepKeepsInv(s: State, n: nat, m: nat, a: Action)
    requires Inv(s, n, m) && Enabled(s, a)
    ensures Inv(Next(s, a), n, m)
  {
    hide Inv;
    match a {
      case Main => MainKeepsInv(s, n, m);
      case StopStep(i) => StopStepKeepsInv(s, n, m, i);
      case CbStep(i) => CbStepKeepsInv(s, n, m, i);
      case _ => EventKeepsInv(s, n, m, a);
    }
  }
}
