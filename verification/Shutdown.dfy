// Graceful shutdown as a transition system: the main goroutine, one goroutine
// per server stop and per callback, the shared WaitGroup, requests arriving at
// any time, and a watcher that may end the process at any time.
module Shutdown {

  // A goroutine: not spawned, spawned, inside its call, back from the call,
  // and past wg.Done.
  datatype Phase = Idle | Ready | Running | Returned | Gone

  // Where `shutdown` stands. Loop heads carry the loop index.
  datatype Pc =
    | Add1 | Reject(i: nat) | Done1(i: nat) | Wait1
    | Add2 | SpawnStop(i: nat) | Wait2
    | Add3 | NextCb(i: nat) | SpawnCb(i: nat) | Wait3
    | Closing | Finished

  datatype Event =
    | Rejected(server: nat)
    | StopBegin(server: nat) | StopEnd(server: nat)
    | CbBegin(goroutine: nat, callback: nat) | CbEnd(goroutine: nat)
    | Closed
    | Served(server: nat) | Refused(server: nat)
    | Exit(code: nat)

  // `cbVar` is the loop variable of the callback loop, which all callback
  // goroutines share; it holds the index of the callback it was last set to.
  datatype State = State(pc: Pc, wg: int, reject: seq<bool>, stops: seq<Phase>, cbs: seq<Phase>,
                         cbVar: nat, exited: bool, log: seq<Event>)

  datatype Action = Main | StopStep(i: nat) | CbStep(i: nat) | Request(i: nat) | Watcher(code: nat)

  function Start(n: nat, m: nat): State {
    State(Add1, 0, seq(n, _ => false), seq(n, _ => Idle), seq(m, _ => Idle), 0, false, [])
  }

  predicate Active(p: Phase) { p.Ready? || p.Running? || p.Returned? }

  predicate Enabled(s: State, a: Action) {
    !s.exited &&
    match a
    case Main => !s.pc.Finished? && (s.pc.Wait1? || s.pc.Wait2? || s.pc.Wait3? ==> s.wg == 0)
    case StopStep(i) => i < |s.stops| && Active(s.stops[i])
    case CbStep(i) => i < |s.cbs| && Active(s.cbs[i])
    case Request(i) => i < |s.reject|
    case Watcher(code) => code == 1 || code == 2
  }

  function Emit(s: State, e: Event): State { s.(log := s.log + [e]) }

  function MainNext(s: State): State {
    match s.pc
    case Add1 => s.(wg := s.wg + |s.reject|, pc := Reject(0))
    case Reject(i) =>
      if i < |s.reject| then Emit(s, Rejected(i)).(reject := s.reject[i := true], pc := Done1(i)) else s.(pc := Wait1)
    case Done1(i) => s.(wg := s.wg - 1, pc := Reject(i + 1))
    case Wait1 => s.(pc := Add2)
    case Add2 => s.(wg := s.wg + |s.stops|, pc := SpawnStop(0))
    case SpawnStop(i) =>
      if i < |s.stops| then s.(stops := s.stops[i := Ready], pc := SpawnStop(i + 1)) else s.(pc := Wait2)
    case Wait2 => s.(pc := Add3)
    case Add3 => s.(wg := s.wg + |s.cbs|, pc := NextCb(0))
    case NextCb(i) => if i < |s.cbs| then s.(cbVar := i, pc := SpawnCb(i)) else s.(pc := Wait3)
    case SpawnCb(i) => s.(cbs := if i < |s.cbs| then s.cbs[i := Ready] else s.cbs, pc := NextCb(i + 1))
    case Wait3 => s.(pc := Closing)
    case Closing => Emit(s, Closed).(pc := Finished)
    case Finished => s
  }

  function Next(s: State, a: Action): State
    requires Enabled(s, a)
  {
    match a
    case Main => MainNext(s)
    case StopStep(i) =>
      (match s.stops[i]
       case Ready => Emit(s, StopBegin(i)).(stops := s.stops[i := Running])
       case Running => Emit(s, StopEnd(i)).(stops := s.stops[i := Returned])
       case _ => s.(stops := s.stops[i := Gone], wg := s.wg - 1))
    case CbStep(i) =>
      (match s.cbs[i]
       case Ready => Emit(s, CbBegin(i, s.cbVar)).(cbs := s.cbs[i := Running])
       case Running => Emit(s, CbEnd(i)).(cbs := s.cbs[i := Returned])
       case _ => s.(cbs := s.cbs[i := Gone], wg := s.wg - 1))
    case Request(i) => Emit(s, if s.reject[i] then Refused(i) else Served(i))
    case Watcher(code) => Emit(s, Exit(code)).(exited := true)
  }

  // `t` is reached from `s` by taking `acts` in order.
  ghost predicate Reaches(s: State, acts: seq<Action>, t: State)
    decreases |acts|
  {
    if acts == [] then s == t
    else Enabled(s, acts[0]) && Reaches(Next(s, acts[0]), acts[1..], t)
  }

  // ---------- counting ----------

  function Rank(p: Phase): nat {
    match p case Idle => 0 case Ready => 1 case Running => 2 case Returned => 3 case Gone => 4
  }

  // How many goroutines have come at least as far as rank `r`.
  function AtLeast(ps: seq<Phase>, r: nat): nat {
    if ps == [] then 0 else AtLeast(ps[..|ps| - 1], r) + if Rank(ps[|ps| - 1]) >= r then 1 else 0
  }

  function Begins(log: seq<Event>): nat {
    if log == [] then 0 else Begins(log[..|log| - 1]) + if log[|log| - 1].CbBegin? then 1 else 0
  }

  function Ends(log: seq<Event>): nat {
    if log == [] then 0 else Ends(log[..|log| - 1]) + if log[|log| - 1].CbEnd? then 1 else 0
  }

  // How often callback `j` was invoked, by whichever goroutine.
  function Calls(log: seq<Event>, j: nat): nat {
    if log == [] then 0 else
      var e := log[|log| - 1];
      Calls(log[..|log| - 1], j) + if e.CbBegin? && e.callback == j then 1 else 0
  }
}
