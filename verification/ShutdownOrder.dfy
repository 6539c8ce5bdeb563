// The order of events in every interleaving, and which callbacks run.
module ShutdownOrder {
  import opened Shutdown
  import opened ShutdownLaws

  // What must have happened before the event at position `p`.
  ghost predicate SafeAt(log: seq<Event>, p: nat, n: nat, m: nat)
    requires p < |log|
  {
    var before := log[..p];
    match log[p]
    case StopBegin(_) => forall k :: 0 <= k < n ==> Rejected(k) in before
    case CbBegin(_, _) => forall k :: 0 <= k < n ==> StopEnd(k) in before
    case Closed => Begins(before) == m && Ends(before) == m && forall k :: 0 <= k < m ==> CbEnd(k) in before
    case Served(i) => Rejected(i) !in before
    case Refused(i) => Rejected(i) in before
    case Exit(_) => p == |log| - 1
    case _ => true
  }

  ghost predicate Safe(log: seq<Event>, n: nat, m: nat) {
    forall p :: 0 <= p < |log| ==> SafeAt(log, p, n, m)
  }

  // The log tells the same story as the state.
  ghost predicate ServersRecorded(s: State, n: nat) {
    && |s.reject| == n && |s.stops| == n
    && (forall k :: 0 <= k < n ==> (Rejected(k) in s.log <==> s.reject[k]))
    && (forall k :: 0 <= k < n ==> (StopEnd(k) in s.log <==> Rank(s.stops[k]) >= 3))
    && (!s.exited ==> forall c: nat :: Exit(c) !in s.log)
  }

  ghost predicate CallbacksRecorded(s: State, m: nat) {
    && |s.cbs| == m
    && (forall k :: 0 <= k < m ==> (CbEnd(k) in s.log <==> Rank(s.cbs[k]) >= 3))
    && (forall g: nat, j: nat :: CbBegin(g, j) in s.log ==> g <= j < m)
  }

  predicate CallsCounted(s: State) {
    Begins(s.log) == AtLeast(s.cbs, 2) && Ends(s.log) == AtLeast(s.cbs, 3)
  }

  ghost predicate Recorded(s: State, n: nat, m: nat) {
    ServersRecorded(s, n) && CallbacksRecorded(s, m) && CallsCounted(s)
  }

  ghost predicate Good(s: State, n: nat, m: nat) {
    Inv(s, n, m) && Recorded(s, n, m) && Safe(s.log, n, m)
  }

  lemma AppendSafe(log: seq<Event>, e: Event, n: nat, m: nat)
    requires Safe(log, n, m) && (forall c: nat :: Exit(c) !in log)
    requires SafeAt(log + [e], |log|, n, m)
    ensures Safe(log + [e], n, m)
  {
    forall p | 0 <= p < |log| ensures SafeAt(log + [e], p, n, m) {
      assert SafeAt(log, p, n, m) && log[p] in log;
      assert (log + [e])[..p] == log[..p];
    }
  }

  lemma Counts(log: seq<Event>, e: Event)
    ensures Begins(log + [e]) == Begins(log) + if e.CbBegin? then 1 else 0
    ensures Ends(log + [e]) == Ends(log) + if e.CbEnd? then 1 else 0
  {
    assert (log + [e])[..|log|] == log;
  }

  lemma Members(log: seq<Event>, e: Event)
    ensures forall x :: x in log + [e] <==> x in log || x == e
  {}

  // ---------- the log keeps up with the state ----------

  lemma ServersStep(s: State, n: nat, a: Action)
    requires ServersRecorded(s, n) && Enabled(s, a)
    requires s.pc.SpawnStop? && s.pc.i < n ==> s.stops[s.pc.i].Idle?
    ensures ServersRecorded(Next(s, a), n)
  {
    hide AtLeast, Begins, Ends;
    if Next(s, a).log != s.log { Members(s.log, Next(s, a).log[|s.log|]); }
  }

  lemma CallbacksStep(s: State, m: nat, a: Action)
    requires CallbacksRecorded(s, m) && Enabled(s, a)
    requires s.pc.SpawnCb? ==> s.pc.i < m && s.cbs[s.pc.i].Idle?
    requires a.CbStep? ==> a.i <= s.cbVar < m
    ensures CallbacksRecorded(Next(s, a), m)
  {
    if Next(s, a).log != s.log { Members(s.log, Next(s, a).log[|s.log|]); }
  }

  lemma CbCounts(s: State, i: nat)
    requires CallsCounted(s) && Enabled(s, CbStep(i))
    ensures CallsCounted(Next(s, CbStep(i)))
  {
    hide AtLeast, Begins, Ends;
    PhaseCounts(s.cbs, i, Next(s, CbStep(i)).cbs[i]);
    match s.cbs[i] {
      case Ready => Counts(s.log, CbBegin(i, s.cbVar));
      case Running => Counts(s.log, CbEnd(i));
      case _ =>
    }
  }

  lemma PhaseCounts(ps: seq<Phase>, i: nat, p: Phase)
    requires i < |ps| && Rank(p) == Rank(ps[i]) + 1
    ensures AtLeast(ps[i := p], 2) == AtLeast(ps, 2) + if p.Running? then 1 else 0
    ensures AtLeast(ps[i := p], 3) == AtLeast(ps, 3) + if p.Returned? then 1 else 0
  {
    AtLeastUpdate(ps, i, p, 2);
    AtLeastUpdate(ps, i, p, 3);
  }

  // The main goroutine begins and ends no callback itself.
  lemma MainCounts(s: State)
    requires CallsCounted(s) && Enabled(s, Main)
    requires s.pc.SpawnCb? ==> s.pc.i < |s.cbs| && s.cbs[s.pc.i].Idle?
    ensures CallsCounted(MainNext(s))
  {
    hide AtLeast, Begins, Ends;
    match s.pc
    case SpawnCb(i) => PhaseCounts(s.cbs, i, Ready);
    case Reject(i) => Counts(s.log, Rejected(i));
    case Closing => Counts(s.log, Closed);
    case _ =>
  }

  lemma OtherCounts(s: State, a: Action)
    requires CallsCounted(s) && Enabled(s, a) && !a.CbStep? && !a.Main?
    ensures CallsCounted(Next(s, a))
  {
    hide AtLeast, Begins, Ends;
    if Next(s, a).log != s.log { Counts(s.log, Next(s, a).log[|s.log|]); }
  }

  lemma CountsStep(s: State, m: nat, a: Action)
    requires |s.cbs| == m && CallsCounted(s) && Enabled(s, a)
    requires s.pc.SpawnCb? ==> s.pc.i < m && s.cbs[s.pc.i].Idle?
    ensures CallsCounted(Next(s, a))
  {
    hide CallsCounted;
    match a
    case CbStep(i) => CbCounts(s, i);
    case Main => MainCounts(s);
    case _ => OtherCounts(s, a);
  }

  // ---------- every event comes at a safe time ----------

  // What the state must be like when an event is emitted.
  predicate MayEmit(s: State, e: Event) {
    match e
    case StopBegin(_) => RejectedUpTo(s) == |s.reject|
    case CbBegin(_, _) => StopsOver(s)
    case Closed => CbsOver(s)
    case Served(i) => i < |s.reject| && !s.reject[i]
    case Refused(i) => i < |s.reject| && s.reject[i]
    case _ => true
  }

  lemma EmitSafe(s: State, e: Event, n: nat, m: nat)
    requires Good(s, n, m) && !s.exited && MayEmit(s, e)
    ensures Safe(s.log + [e], n, m)
  {
    AtLeastAll(s.cbs, 2);
    AtLeastAll(s.cbs, 3);
    assert (s.log + [e])[..|s.log|] == s.log;
    AppendSafe(s.log, e, n, m);
  }

  // A step emits nothing, or one event the state allows.
  lemma StepEmits(s: State, n: nat, m: nat, a: Action)
    requires Inv(s, n, m) && Enabled(s, a)
    ensures var log := Next(s, a).log;
      log == s.log || (|log| == |s.log| + 1 && log == s.log + [log[|s.log|]] && MayEmit(s, log[|s.log|]))
  {}

  lemma StepGood(s: State, n: nat, m: nat, a: Action)
    requires Good(s, n, m) && Enabled(s, a)
    ensures Good(Next(s, a), n, m)
  {
    StepKeepsInv(s, n, m, a);
    ServersStep(s, n, a);
    CallbacksStep(s, m, a);
    CountsStep(s, m, a);
    StepEmits(s, n, m, a);
    var log := Next(s, a).log;
    if log != s.log { EmitSafe(s, log[|s.log|], n, m); }
  }

  lemma {:induction false} GoodForever(s: State, acts: seq<Action>, t: State, n: nat, m: nat)
    requires Good(s, n, m) && Reaches(s, acts, t)
    ensures Good(t, n, m)
    decreases |acts|
  {
    if acts != [] {
      StepGood(s, n, m, acts[0]);
      GoodForever(Next(s, acts[0]), acts[1..], t, n, m);
    }
  }

  // In every interleaving, with any number of servers and callbacks: no stop
  // begins before all servers reject, no callback before all stops are over,
  // and close runs after exactly as many callback invocations as there are
  // callbacks have returned; a rejecting server serves nothing; nothing
  // happens after the watcher has ended the process; and the WaitGroup is
  // always the outstanding work.
  lemma EveryInterleavingIsSafe(n: nat, m: nat, acts: seq<Action>, t: State)
    requires Reaches(Start(n, m), acts, t)
    ensures Safe(t.log, n, m)
    ensures |t.reject| == |t.stops| == n && |t.cbs| == m && t.wg == Outstanding(t) >= 0
    ensures forall g: nat, j: nat :: CbBegin(g, j) in t.log ==> g <= j < m
  {
    StartInv(n, m);
    AtLeastNone(Start(n, m).cbs, 2);
    AtLeastNone(Start(n, m).cbs, 3);
    GoodForever(Start(n, m), acts, t, n, m);
    AtLeastAll(t.stops, 4);
    AtLeastAll(t.cbs, 4);
  }
}
