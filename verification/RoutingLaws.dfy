// What registration does to the table, over single calls and whole runs.
module RoutingLaws {
  import opened Wrappers
  import opened Segments
  import opened Routing

  // ---------- locations along a pattern ----------

  // `x` is a node that registering `segs` below `l` passes through or creates.
  ghost predicate OnPath(l: Loc, segs: seq<string>, x: Loc) {
    var d := Depth(x) - Depth(l);
    0 < d <= |segs| && "" !in segs[..d] && x == Target(l, segs[..d])
  }

  lemma {:induction false} TargetHead(l: Loc, segs: seq<string>)
    requires segs != [] && "" !in segs
    ensures segs[0] != "" && "" !in segs[1..]
    ensures Target(l, segs) == Target(Down(l, KeyOf(segs[0])), segs[1..])
    decreases |segs|
  {
    assert segs[0] in segs && forall s :: s in segs[1..] ==> s in segs;
    if |segs| == 1 {
      assert segs[..0] == [] && segs[1..] == [];
    } else {
      var init := segs[..|segs| - 1];
      assert forall s :: s in init ==> s in segs;
      TargetHead(l, init);
      assert segs[1..][..|segs| - 2] == init[1..];
    }
  }

  lemma {:induction false} TargetDepth(l: Loc, segs: seq<string>)
    requires "" !in segs
    ensures Depth(Target(l, segs)) == Depth(l) + |segs|
    ensures Verb(Target(l, segs)) == Verb(l)
    decreases |segs|
  {
    if segs != [] {
      var init := segs[..|segs| - 1];
      assert forall s :: s in init ==> s in segs;
      TargetDepth(l, init);
    }
  }

  lemma OnPathHead(l: Loc, segs: seq<string>, x: Loc)
    requires segs != [] && segs[0] != ""
    requires x == Down(l, KeyOf(segs[0])) || OnPath(Down(l, KeyOf(segs[0])), segs[1..], x)
    ensures OnPath(l, segs, x)
  {
    var d := Depth(x) - Depth(l);
    var head := segs[..d];
    assert head[1..] == segs[1..][..d - 1];
    assert "" !in head by {
      assert forall s :: s in head ==> s == segs[0] || s in head[1..];
    }
    TargetHead(l, head);
  }

  lemma OnPathUp(l: Loc, segs: seq<string>, x: Loc)
    requires OnPath(l, segs, x) && x.Down? && x.up != l
    ensures OnPath(l, segs, x.up)
  {
    var d := Depth(x) - Depth(l);
    assert segs[..d][..d - 1] == segs[..d - 1];
    assert forall s :: s in segs[..d - 1] ==> s in segs[..d];
    assert x.up == Target(l, segs[..d - 1]) && segs[..0] == [];
    TargetDepth(l, segs[..d]);
  }

  // ---------- one registration ----------

  // Registration below `l` succeeds exactly when every segment is nonempty and
  // every edge is allowed; this reads the table before the call only.
  ghost predicate Registrable(rx: Regexps, t: Routes, l: Loc, segs: seq<string>)
    decreases |segs|
  {
    segs == [] ||
    (segs[0] != "" && EdgeOk(rx, t, l, segs[0]) && Registrable(rx, t, Down(l, KeyOf(segs[0])), segs[1..]))
  }

  lemma StepKeepsWellFormed(rx: Regexps, t: Routes, l: Loc, seg: string)
    requires l in t && seg != "" && WellFormed(t) && EdgeOk(rx, t, l, seg)
    ensures WellFormed(ChildOrCreate(rx, t, l, seg).value.0)
  {
    var c := Down(l, KeyOf(seg));
    if c !in t && !c.key.Static? {
      assert forall k: Key :: !k.Static? ==> Down(l, k) !in t;
    }
  }

  // Adding one childless node changes no edge test at or below it.
  lemma {:induction false} NewNodeIsNeutral(rx: Regexps, t: Routes, c: Loc, i: Info, x: Loc, segs: seq<string>)
    requires Closed(t) && c !in t && x !in t && Depth(x) >= Depth(c)
    ensures Registrable(rx, t[c := i], x, segs) == Registrable(rx, t, x, segs)
    decreases |segs|
  {
    if segs != [] && segs[0] != "" {
      assert forall k: Key :: Down(x, k) !in t && Down(x, k) != c;
      NewNodeIsNeutral(rx, t, c, i, Down(x, KeyOf(segs[0])), segs[1..]);
    }
  }

  // `t'` adds to `t` only bare nodes, all on the pattern's own path.
  ghost predicate Grown(t: Routes, t': Routes, l: Loc, segs: seq<string>) {
    && (forall x <- t :: x in t' && t'[x] == t[x])
    && (forall x <- t' :: x !in t ==> OnPath(l, segs, x) && t'[x] == Bare(segs[Depth(x) - Depth(l) - 1]))
  }

  // The walk succeeds exactly on registrable patterns and ends at the target.
  lemma {:induction false} WalkLaw(rx: Regexps, t: Routes, l: Loc, segs: seq<string>)
    requires l in t && WellFormed(t)
    ensures var (t', end) := Walk(rx, t, l, segs);
      && WellFormed(t')
      && (end.Some? <==> Registrable(rx, t, l, segs))
      && (end.Some? ==> "" !in segs && end.value == Target(l, segs) && end.value in t')
    decreases |segs|
  {
    if segs != [] && segs[0] != "" && EdgeOk(rx, t, l, segs[0]) {
      var (t1, c) := ChildOrCreate(rx, t, l, segs[0]).value;
      StepKeepsWellFormed(rx, t, l, segs[0]);
      WalkLaw(rx, t1, c, segs[1..]);
      if c !in t {
        NewNodeIsNeutral(rx, t, c, Bare(segs[0]), c, segs[1..]);
      }
      if Walk(rx, t, l, segs).1.Some? {
        assert forall s :: s in segs ==> s == segs[0] || s in segs[1..];
        TargetHead(l, segs);
      }
    }
  }

  lemma {:induction false} WalkGrows(rx: Regexps, t: Routes, l: Loc, segs: seq<string>)
    requires l in t
    ensures Grown(t, Walk(rx, t, l, segs).0, l, segs)
    decreases |segs|
  {
    if segs != [] && segs[0] != "" && EdgeOk(rx, t, l, segs[0]) {
      var (t1, c) := ChildOrCreate(rx, t, l, segs[0]).value;
      WalkGrows(rx, t1, c, segs[1..]);
      var t' := Walk(rx, t, l, segs).0;
      forall x <- t' | x !in t ensures OnPath(l, segs, x) && t'[x] == Bare(segs[Depth(x) - Depth(l) - 1]) {
        OnPathHead(l, segs, x);
      }
    }
  }

  // The location a registration is about, when its segments are usable.
  ghost function TargetOf(r: Registration): Loc
    requires r.path != "" && "" !in PatternSegs(r.path)
  {
    Target(Root(r.verb), PatternSegs(r.path))
  }

  // When addRoute returns without a panic, read off the table before the call.
  ghost predicate Accepts(rx: Regexps, t: Routes, r: Registration) {
    && PathShapeOk(r.path)
    && "" !in PatternSegs(r.path)
    && Registrable(rx, t, Root(r.verb), PatternSegs(r.path))
    && (TargetOf(r) in t ==> t[TargetOf(r)].handler.None?)
  }

  ghost predicate Aims(r: Registration, l: Loc) {
    r.path != "" && "" !in PatternSegs(r.path) && TargetOf(r) == l
  }

  // Handler and middleware of a location; absent nodes have neither.
  ghost function Binding(t: Routes, l: Loc): (Option<Handler>, seq<Middleware>) {
    if l in t then (t[l].handler, t[l].mws) else (None, [])
  }

  // addRoute as an update of the flat map of bindings: it accepts exactly when
  // Accepts says, success rebinds the target only, failure rebinds nothing
  // (bare nodes may stay behind), and a location with a handler never changes.
  lemma AddRouteRefinesFlatMap(rx: Regexps, t: Routes, r: Registration)
    requires WellFormed(t)
    ensures var (t', ok) := AddRoute(rx, t, r);
      && WellFormed(t') && t.Keys <= t'.Keys
      && (ok <==> Accepts(rx, t, r))
      && (ok ==> (TargetOf(r) in t' && Binding(t', TargetOf(r)) == (r.handler, Binding(t, TargetOf(r)).1 + r.mws)))
      && (forall l :: !(ok && Aims(r, l)) ==> Binding(t', l) == Binding(t, l))
      && (forall l <- t :: !(ok && Aims(r, l)) ==> t'[l] == t[l])
      && (forall l <- t :: t[l].handler.Some? ==> t'[l] == t[l])
  {
    if PathShapeOk(r.path) {
      WalkFromRoot(rx, t, r.verb, PatternSegs(r.path));
      var (t', end) := Walk(rx, WithRoot(t, r.verb), Root(r.verb), PatternSegs(r.path));
      assert AddRoute(rx, t, r).1 <==> end.Some? && t'[end.value].handler.None?;
      assert end.Some? ==> end.value == TargetOf(r);
    }
  }

  // The walk of addRoute, related to the table before the root is created.
  lemma WalkFromRoot(rx: Regexps, t: Routes, verb: string, segs: seq<string>)
    requires WellFormed(t)
    ensures var (t', end) := Walk(rx, WithRoot(t, verb), Root(verb), segs);
      && WellFormed(t') && t.Keys <= t'.Keys
      && (forall x <- t' :: if x in t then t'[x] == t[x] else t'[x].handler.None? && t'[x].mws == [])
      && (end.Some? <==> "" !in segs && Registrable(rx, t, Root(verb), segs))
      && (end.Some? ==> end.value == Target(Root(verb), segs) && end.value in t')
  {
    var t0 := WithRoot(t, verb);
    WalkLaw(rx, t0, Root(verb), segs);
    WalkGrows(rx, t0, Root(verb), segs);
    if Root(verb) !in t {
      RootIsNeutral(rx, t, Root(verb), segs);
    }
  }

  lemma {:induction false} RootIsNeutral(rx: Regexps, t: Routes, x: Loc, segs: seq<string>)
    requires Closed(t) && Root(Verb(x)) !in t
    ensures x !in t
    ensures Registrable(rx, WithRoot(t, Verb(x)), x, segs) == Registrable(rx, t, x, segs)
    decreases |segs|
  {
    NoTreeWithoutRoot(t, x);
    if segs != [] && segs[0] != "" {
      forall k: Key ensures Down(x, k) !in t { NoTreeWithoutRoot(t, Down(x, k)); }
      assert forall k: Key :: Down(x, k) !in WithRoot(t, Verb(x));
      RootIsNeutral(rx, t, Down(x, KeyOf(segs[0])), segs[1..]);
    }
  }

  lemma {:induction false} NoTreeWithoutRoot(t: Routes, x: Loc)
    requires Closed(t) && Root(Verb(x)) !in t
    ensures x !in t
  {
    if x.Down? { NoTreeWithoutRoot(t, x.up); }
  }

  // ---------- runs of registrations ----------

  lemma {:induction false} RunWellFormed(rx: Regexps, regs: seq<Registration>)
    ensures WellFormed(Run(rx, regs))
  {
    if regs != [] {
      RunWellFormed(rx, regs[..|regs| - 1]);
      AddRouteRefinesFlatMap(rx, Run(rx, regs[..|regs| - 1]), regs[|regs| - 1]);
    }
  }

  // Registration number i of the run was accepted and is about `l`.
  ghost predicate Hits(rx: Regexps, regs: seq<Registration>, i: nat, l: Loc)
    requires i < |regs|
  {
    Accepts(rx, Run(rx, regs[..i]), regs[i]) && Aims(regs[i], l)
  }

  // The flat map of a run: the last accepted handler, and the middleware of
  // all accepted registrations for the location in registration order.
  ghost function FlatBinding(rx: Regexps, regs: seq<Registration>, l: Loc): (Option<Handler>, seq<Middleware>) {
    if regs == [] then (None, []) else
      var last := |regs| - 1;
      var b := FlatBinding(rx, regs[..last], l);
      if Hits(rx, regs, last, l) then (regs[last].handler, b.1 + regs[last].mws) else b
  }

  lemma {:induction false} RunRefinesFlatMap(rx: Regexps, regs: seq<Registration>, l: Loc)
    ensures Binding(Run(rx, regs), l) == FlatBinding(rx, regs, l)
  {
    if regs != [] {
      var last := |regs| - 1;
      RunRefinesFlatMap(rx, regs[..last], l);
      RunWellFormed(rx, regs[..last]);
      AddRouteRefinesFlatMap(rx, Run(rx, regs[..last]), regs[last]);
    }
  }

  // Once a location has a handler, no later registration touches it.
  lemma {:induction false} HandlerIsForever(rx: Regexps, regs: seq<Registration>, i: nat, l: Loc)
    requires i <= |regs| && l in Run(rx, regs[..i]) && Run(rx, regs[..i])[l].handler.Some?
    ensures l in Run(rx, regs) && Run(rx, regs)[l] == Run(rx, regs[..i])[l]
    decreases |regs|
  {
    var last := |regs| - 1;
    if i == |regs| {
      assert regs[..i] == regs;
    } else {
      assert regs[..last][..i] == regs[..i];
      HandlerIsForever(rx, regs[..last], i, l);
      RunWellFormed(rx, regs[..last]);
      AddRouteRefinesFlatMap(rx, Run(rx, regs[..last]), regs[last]);
    }
  }
}
