// What has happened when the shutdown is over: everything, once, and in order.
module ShutdownComplete {
  import opened Shutdown
  import opened ShutdownLaws
  import opened ShutdownProgress

  function Occurs(log: seq<Event>, e: Event): nat {
    if log == [] then 0 else Occurs(log[..|log| - 1], e) + if log[|log| - 1] == e then 1 else 0
  }

  // How often goroutine `g` began a callback, whichever it was.
  function CbBegins(log: seq<Event>, g: nat): nat {
    if log == [] then 0 else
      var e := log[|log| - 1];
      CbBegins(log[..|log| - 1], g) + if e.CbBegin? && e.goroutine == g then 1 else 0
  }

  predicate Once(count: nat, done: bool) { count == if done then 1 else 0 }

  predicate ServerTold(s: State, k: nat)
    requires k < |s.reject| == |s.stops|
  {
    && Once(Occurs(s.log, Rejected(k)), s.reject[k])
    && Once(Occurs(s.log, StopBegin(k)), Rank(s.stops[k]) >= 2)
    && Once(Occurs(s.log, StopEnd(k)), Rank(s.stops[k]) >= 3)
  }

  predicate CallbackTold(s: State, g: nat)
    requires g < |s.cbs|
  {
    Once(CbBegins(s.log, g), Rank(s.cbs[g]) >= 2) && Once(Occurs(s.log, CbEnd(g)), Rank(s.cbs[g]) >= 3)
  }

  // No call ends before it has begun.
  ghost predicate Paired(log: seq<Event>) {
    forall p :: 0 <= p < |log| ==> EndsBegun(log[..p], log[p])
  }

  predicate EndsBegun(before: seq<Event>, e: Event) {
    match e
    case StopEnd(k) => Occurs(before, StopBegin(k)) == 1
    case CbEnd(g) => CbBegins(before, g) == 1
    case _ => true
  }

  // The log tells of everything that was done, and nothing else.
  ghost predicate Told(s: State) {
    && |s.reject| == |s.stops|
    && (forall k :: 0 <= k < |s.reject| ==> ServerTold(s, k))
    && (forall g :: 0 <= g < |s.cbs| ==> CallbackTold(s, g))
    && Once(Occurs(s.log, Closed), s.pc.Finished?) && Paired(s.log)
  }

  lemma TellsOneMore(log: seq<Event>, e: Event)
    ensures forall x :: Occurs(log + [e], x) == Occurs(log, x) + if e == x then 1 else 0
    ensures forall g :: CbBegins(log + [e], g) == CbBegins(log, g) + if e.CbBegin? && e.goroutine == g then 1 else 0
    ensures Paired(log) && EndsBegun(log, e) ==> Paired(log + [e])
  {
    assert (log + [e])[..|log|] == log;
    if Paired(log) && EndsBegun(log, e) {
      forall p | 0 <= p < |log + [e]| ensures EndsBegun((log + [e])[..p], (log + [e])[p]) {
        if p < |log| {
          assert (log + [e])[..p] == log[..p] && EndsBegun(log[..p], log[p]);
        }
      }
    }
  }

  lemma ServerStep(s: State, n: nat, m: nat, a: Action, k: nat)
    requires Inv(s, n, m) && Told(s) && Enabled(s, a) && k < n
    ensures ServerTold(Next(s, a), k)
  {
    hide Occurs, CbBegins, AtLeast, Outstanding, Paired, CallbackTold;
    assert ServerTold(s, k);
    if Next(s, a).log != s.log {
      TellsOneMore(s.log, Next(s, a).log[|s.log|]);
    }
  }

  lemma CallbackStep(s: State, n: nat, m: nat, a: Action, g: nat)
    requires Inv(s, n, m) && Told(s) && Enabled(s, a) && g < m
    ensures CallbackTold(Next(s, a), g)
  {
    hide Occurs, CbBegins, AtLeast, Outstanding, Paired, ServerTold;
    assert CallbackTold(s, g);
    if Next(s, a).log != s.log {
      TellsOneMore(s.log, Next(s, a).log[|s.log|]);
    }
  }

  lemma LogStep(s: State, n: nat, m: nat, a: Action)
    requires Inv(s, n, m) && Told(s) && Enabled(s, a)
    ensures Once(Occurs(Next(s, a).log, Closed), Next(s, a).pc.Finished?) && Paired(Next(s, a).log)
  {
    hide Occurs, CbBegins, AtLeast, Outstanding, Paired;
    assert a.StopStep? ==> ServerTold(s, a.i);
    assert a.CbStep? ==> CallbackTold(s, a.i);
    if Next(s, a).log != s.log {
      TellsOneMore(s.log, Next(s, a).log[|s.log|]);
    }
  }

  lemma StepTells(s: State, n: nat, m: nat, a: Action)
    requires Inv(s, n, m) && Told(s) && Enabled(s, a)
    ensures Told(Next(s, a))
  {
    hide ServerTold, CallbackTold, Paired, Occurs, Next, Inv, Enabled, Once;
    SameSizes(s, n, m, a);
    LogStep(s, n, m, a);
    forall k | 0 <= k < n ensures ServerTold(Next(s, a), k) {
      ServerStep(s, n, m, a, k);
    }
    forall g | 0 <= g < m ensures CallbackTold(Next(s, a), g) {
      CallbackStep(s, n, m, a, g);
    }
  }

  lemma SameSizes(s: State, n: nat, m: nat, a: Action)
    requires Inv(s, n, m) && Enabled(s, a)
    ensures var t := Next(s, a); |t.reject| == |t.stops| == n && |t.cbs| == m
  {
    hide AtLeast, Outstanding;
  }

  lemma {:induction false} ToldForever(s: State, acts: seq<Action>, t: State, n: nat, m: nat)
    requires Inv(s, n, m) && Told(s) && Reaches(s, acts, t)
    ensures Inv(t, n, m) && Told(t)
    decreases |acts|
  {
    hide Inv, Told;
    if acts != [] {
      StepKeepsInv(s, n, m, acts[0]);
      StepTells(s, n, m, acts[0]);
      ToldForever(Next(s, acts[0]), acts[1..], t, n, m);
    }
  }

  // In every run each server is told to reject, begins to stop and ends
  // stopping at most once, each callback goroutine makes at most one call, no
  // call ends before it has begun, and close runs only as the last step.
  lemma NothingTwice(n: nat, m: nat, acts: seq<Action>, t: State)
    requires Reaches(Start(n, m), acts, t)
    ensures Told(t) && |t.reject| == n && |t.cbs| == m
  {
    StartInv(n, m);
    ToldForever(Start(n, m), acts, t, n, m);
  }

  // A finished shutdown has left nothing out.
  lemma FinishedIsComplete(n: nat, m: nat, acts: seq<Action>, t: State)
    requires FinishedRun(n, m, acts, t)
    ensures Occurs(t.log, Closed) == 1
    ensures forall k :: 0 <= k < n ==>
      Occurs(t.log, Rejected(k)) == Occurs(t.log, StopBegin(k)) == Occurs(t.log, StopEnd(k)) == 1
    ensures forall g :: 0 <= g < m ==> CbBegins(t.log, g) == Occurs(t.log, CbEnd(g)) == 1
  {
    hide Occurs, CbBegins, AtLeast, Paired, Reaches;
    StartInv(n, m);
    StartTold(n, m);
    ToldForever(Start(n, m), acts, t, n, m);
    forall k | 0 <= k < n
      ensures Occurs(t.log, Rejected(k)) == Occurs(t.log, StopBegin(k)) == Occurs(t.log, StopEnd(k)) == 1
    {
      assert ServerTold(t, k);
    }
    forall g | 0 <= g < m ensures CbBegins(t.log, g) == Occurs(t.log, CbEnd(g)) == 1 {
      assert CallbackTold(t, g);
    }
  }

  lemma StartTold(n: nat, m: nat)
    ensures Told(Start(n, m))
  {
  }
}
