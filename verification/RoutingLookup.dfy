// What the greedy lookup and the breadth-first middleware walk find, and how
// the two relate.
module RoutingLookup {
  import opened Wrappers
  import opened Segments
  import opened Routing
  import opened RoutingLaws

  // The promise behind every edge: a static one takes its own segment, a
  // parameter or a star any, a regex those its expression matches.
  predicate Takes(rx: Regexps, k: Key, seg: string) {
    k == Static(seg) || k.Param? || k.Star? || (k.Regex? && rx.matches(k.expr, seg))
  }

  // `l` matches the first Depth(l) segments of the request, one by one.
  ghost predicate Matches(rx: Regexps, l: Loc, segs: seq<string>) {
    match l
    case Root(_) => true
    case Down(up, k) => Depth(l) <= |segs| && Matches(rx, up, segs) && Takes(rx, k, segs[Depth(l) - 1])
  }

  // ---------- the frontier ----------

  // `l` comes before `m`: where they part, `l` takes the non-static branch.
  ghost predicate Before(l: Loc, m: Loc) {
    l.Down? && m.Down? &&
    if l.up == m.up then !l.key.Static? && m.key.Static? else Before(l.up, m.up)
  }

  ghost predicate Ordered(level: seq<Loc>) {
    forall i, j :: 0 <= i < j < |level| ==> Before(level[i], level[j])
  }

  lemma KidsExact(rx: Regexps, t: Routes, l: Loc, seg: string, x: Loc)
    requires Exclusive(t)
    ensures x in Kids(rx, t, l, seg) <==> x in t && x.Down? && x.up == l && Takes(rx, x.key, seg)
    ensures |Kids(rx, t, l, seg)| <= 2 && Ordered(Kids(rx, t, l, seg))
    ensures forall i :: 0 <= i < |Kids(rx, t, l, seg)| ==>
      Kids(rx, t, l, seg)[i].Down? && Kids(rx, t, l, seg)[i].up == l
  {}

  lemma {:induction false} NextLevelExact(rx: Regexps, t: Routes, level: seq<Loc>, n: nat, seg: string, x: Loc)
    requires Exclusive(t) && n <= |level|
    ensures x in NextLevel(rx, t, level, n, seg) <==>
      x in t && x.Down? && x.up in level[..n] && Takes(rx, x.key, seg)
  {
    hide Kids, Takes, Exclusive;
    if n > 0 {
      NextLevelExact(rx, t, level, n - 1, seg, x);
      KidsExact(rx, t, level[n - 1], seg, x);
      assert level[..n] == level[..n - 1] + [level[n - 1]];
    }
  }

  lemma {:induction false} NextLevelOrdered(rx: Regexps, t: Routes, level: seq<Loc>, n: nat, seg: string)
    requires Exclusive(t) && Ordered(level) && n <= |level|
    ensures Ordered(NextLevel(rx, t, level, n, seg))
    ensures |NextLevel(rx, t, level, n, seg)| <= 2 * n
  {
    hide Kids, Takes, Exclusive;
    if n > 0 {
      var last := level[n - 1];
      var front, kids := NextLevel(rx, t, level, n - 1, seg), Kids(rx, t, last, seg);
      NextLevelOrdered(rx, t, level, n - 1, seg);
      KidsExact(rx, t, last, seg, last);
      forall i, j | 0 <= i < j < |front + kids| ensures Before((front + kids)[i], (front + kids)[j]) {
        if i < |front| <= j {
          NextLevelExact(rx, t, level, n - 1, seg, front[i]);
          var u :| 0 <= u < n - 1 && level[u] == front[i].up;
          assert Before(level[u], last);
        }
      }
    }
  }

  function Pow2(n: nat): nat { if n == 0 then 1 else 2 * Pow2(n - 1) }

  lemma {:induction false} FrontierMembers(rx: Regexps, t: Routes, verb: string, segs: seq<string>, n: nat, x: Loc)
    requires Closed(t) && Exclusive(t) && Root(verb) in t && n <= |segs|
    ensures x in Frontier(rx, t, Root(verb), segs, n) <==>
      x in t && Verb(x) == verb && Depth(x) == n && Matches(rx, x, segs)
  {
    hide NextLevel, Kids, Takes, Exclusive;
    if n > 0 {
      var g := Frontier(rx, t, Root(verb), segs, n - 1);
      NextLevelExact(rx, t, g, |g|, segs[n - 1], x);
      assert g[..|g|] == g;
      if x.Down? { FrontierMembers(rx, t, verb, segs, n - 1, x.up); }
    }
  }

  lemma {:induction false} FrontierOrdered(rx: Regexps, t: Routes, l: Loc, segs: seq<string>, n: nat)
    requires Exclusive(t) && n <= |segs|
    ensures Ordered(Frontier(rx, t, l, segs, n)) && |Frontier(rx, t, l, segs, n)| <= Pow2(n)
  {
    if n > 0 {
      var g := Frontier(rx, t, l, segs, n - 1);
      FrontierOrdered(rx, t, l, segs, n - 1);
      NextLevelOrdered(rx, t, g, |g|, segs[n - 1]);
    }
  }

  lemma {:induction false} BeforeIsStrict(l: Loc)
    ensures !Before(l, l)
  {}

  // At every depth the breadth-first walk holds exactly the nodes whose key
  // path matches the request so far, each once, non-static branches first,
  // and never more than 2^depth of them.
  lemma FrontierExact(rx: Regexps, t: Routes, verb: string, segs: seq<string>, n: nat)
    requires Closed(t) && Exclusive(t) && Root(verb) in t && n <= |segs|
    ensures var f := Frontier(rx, t, Root(verb), segs, n);
      && (forall x :: x in f <==> x in t && Verb(x) == verb && Depth(x) == n && Matches(rx, x, segs))
      && Ordered(f) && (forall i, j :: 0 <= i < j < |f| ==> f[i] != f[j])
      && |f| <= Pow2(n)
  {
    var f := Frontier(rx, t, Root(verb), segs, n);
    FrontierOrdered(rx, t, Root(verb), segs, n);
    forall x ensures x in f <==> x in t && Verb(x) == verb && Depth(x) == n && Matches(rx, x, segs) {
      FrontierMembers(rx, t, verb, segs, n, x);
    }
    forall i, j | 0 <= i < j < |f| ensures f[i] != f[j] {
      BeforeIsStrict(f[i]);
    }
  }

  // ---------- the greedy walk ----------

  // The parameters a node collects on the way down: named nodes, last wins.
  ghost function Bindings(t: Routes, l: Loc, segs: seq<string>): map<string, string> {
    match l
    case Root(_) => map[]
    case Down(up, _) =>
      if l in t && Depth(l) <= |segs|
      then AddValue(Bindings(t, up, segs), t[l].paramName, segs[Depth(l) - 1])
      else map[]
  }

  // `l` is where the greedy walk stands after Depth(l) segments: every node on
  // the way takes its segment, and one that is not static has no static sibling
  // for it.
  ghost predicate Greedy(rx: Regexps, t: Routes, l: Loc, segs: seq<string>) {
    match l
    case Root(_) => true
    case Down(up, k) =>
      && Depth(l) <= |segs| && Greedy(rx, t, up, segs) && l in t
      && var seg := segs[Depth(l) - 1]; Takes(rx, k, seg) && (k.Static? || Down(up, Static(seg)) !in t)
  }

  // The walk cannot go on from `l` although segments are left: no node below
  // takes the next one.
  ghost predicate Blocked(rx: Regexps, t: Routes, l: Loc, segs: seq<string>) {
    Depth(l) < |segs| && forall x <- t :: x.Down? && x.up == l ==> !Takes(rx, x.key, segs[Depth(l)])
  }

  // The child a lookup goes to: the static one if there is one, else the other
  // one if that takes the segment.
  lemma ChildIsGreedy(rx: Regexps, t: Routes, l: Loc, seg: string)
    requires Exclusive(t)
    ensures ChildOf(rx, t, l, seg) == None <==> forall x <- t :: x.Down? && x.up == l ==> !Takes(rx, x.key, seg)
    ensures forall c <- t :: ChildOf(rx, t, l, seg) == Some(c) <==>
      c.Down? && c.up == l && Takes(rx, c.key, seg) && (c.key.Static? || Down(l, Static(seg)) !in t)
  {
    var k := NonStaticKey(t, l);
    assert forall x <- t :: x.Down? && x.up == l ==> x == Down(l, x.key);
    assert k.Some? ==> forall x <- t :: x.Down? && x.up == l && !x.key.Static? ==> x.key == k.value;
    assert k.None? ==> forall x <- t :: x.Down? && x.up == l ==> x.key.Static?;
  }

  ghost predicate AtStar(l: Loc) { l.Down? && l.key.Star? }

  // The walk for `segs` ends at `l`.
  ghost predicate EndsAt(rx: Regexps, t: Routes, verb: string, segs: seq<string>, l: Loc) {
    Verb(l) == verb && Greedy(rx, t, l, segs) && (Depth(l) == |segs| || Blocked(rx, t, l, segs))
  }

  lemma {:induction false} DescendLaw(rx: Regexps, t: Routes, l: Loc, segs: seq<string>)
    requires Exclusive(t) && l in t && Depth(l) <= |segs| && Greedy(rx, t, l, segs)
    ensures var d := Descend(rx, t, l, segs, Depth(l), Bindings(t, l, segs));
      exists e :: EndsAt(rx, t, Verb(l), segs, e) &&
        if Depth(e) == |segs| || AtStar(e) then d == Some(Descent(e, Depth(e), Bindings(t, e, segs)))
        else d == None
    decreases |segs| - Depth(l)
  {
    hide Exclusive, ChildOf, Takes;
    if Depth(l) < |segs| {
      ChildIsGreedy(rx, t, l, segs[Depth(l)]);
    }
    if Depth(l) < |segs| && ChildOf(rx, t, l, segs[Depth(l)]).Some? {
      DescendLaw(rx, t, ChildOf(rx, t, l, segs[Depth(l)]).value, segs);
    } else {
      assert EndsAt(rx, t, Verb(l), segs, l);
    }
  }

  lemma {:induction false} GreedyUnique(rx: Regexps, t: Routes, l: Loc, x: Loc, segs: seq<string>)
    requires Exclusive(t)
    requires Verb(l) == Verb(x) && Depth(l) == Depth(x) && Greedy(rx, t, l, segs) && Greedy(rx, t, x, segs)
    ensures l == x
  {
    if l.Down? { GreedyUnique(rx, t, l.up, x.up, segs); }
  }

  // A greedy walk is nowhere blocked before its end.
  lemma {:induction false} NotBlockedEarlier(rx: Regexps, t: Routes, l: Loc, x: Loc, segs: seq<string>)
    requires Exclusive(t)
    requires Verb(l) == Verb(x) && Depth(x) < Depth(l) && Greedy(rx, t, l, segs) && Greedy(rx, t, x, segs)
    ensures !Blocked(rx, t, x, segs)
  {
    if Depth(l) == Depth(x) + 1 {
      GreedyUnique(rx, t, l.up, x, segs);
    } else {
      NotBlockedEarlier(rx, t, l.up, x, segs);
    }
  }

  lemma EndIsUnique(rx: Regexps, t: Routes, verb: string, segs: seq<string>, l: Loc, x: Loc)
    requires Exclusive(t) && EndsAt(rx, t, verb, segs, l) && EndsAt(rx, t, verb, segs, x)
    ensures l == x
  {
    GreedyFits(rx, t, l, segs);
    GreedyFits(rx, t, x, segs);
    if Depth(l) < Depth(x) {
      NotBlockedEarlier(rx, t, x, l, segs);
    } else if Depth(x) < Depth(l) {
      NotBlockedEarlier(rx, t, l, x, segs);
    } else {
      GreedyUnique(rx, t, l, x, segs);
    }
  }

  lemma GreedyFits(rx: Regexps, t: Routes, l: Loc, segs: seq<string>)
    requires Greedy(rx, t, l, segs)
    ensures Depth(l) <= |segs|
  {}

  // Where the walk for a request ends decides findRoute completely: the node
  // is found exactly when the request is used up or the node is a star; the
  // parameters are those collected on the way, and the middleware list is
  // findMdls from the root, or from the star on an early exit.
  lemma LookupIsGreedy(rx: Regexps, t: Routes, verb: string, path: string, segs: seq<string>, l: Loc)
    requires Exclusive(t) && path != "/" && segs == Split(Trim(path)) && Root(verb) in t
    requires EndsAt(rx, t, verb, segs, l)
    ensures FindRoute(rx, t, verb, path) ==
      if Depth(l) == |segs| then Some(Match(l, Bindings(t, l, segs), Middlewares(rx, t, Root(verb), segs, |segs|)))
      else if AtStar(l) then Some(Match(l, Bindings(t, l, segs), Middlewares(rx, t, l, segs, |segs|)))
      else None
  {
    DescendLaw(rx, t, Root(verb), segs);
    var d := Descend(rx, t, Root(verb), segs, 0, map[]);
    var e :| EndsAt(rx, t, verb, segs, e) &&
      if Depth(e) == |segs| || AtStar(e) then d == Some(Descent(e, Depth(e), Bindings(t, e, segs))) else d == None;
    EndIsUnique(rx, t, verb, segs, l, e);
  }

  // Every lookup ends somewhere.
  lemma WalkEnds(rx: Regexps, t: Routes, verb: string, segs: seq<string>)
    requires Exclusive(t) && Root(verb) in t
    ensures exists l :: EndsAt(rx, t, verb, segs, l)
  {
    DescendLaw(rx, t, Root(verb), segs);
  }

  // ---------- the two walks together ----------

  lemma LastKid(rx: Regexps, t: Routes, l: Loc, seg: string, c: Loc)
    requires ChildOf(rx, t, l, seg) == Some(c)
    ensures var kids := Kids(rx, t, l, seg); kids != [] && kids[|kids| - 1] == c
  {}

  lemma LastOfNextLevel(rx: Regexps, t: Routes, level: seq<Loc>, seg: string, c: Loc)
    requires level != [] && ChildOf(rx, t, level[|level| - 1], seg) == Some(c)
    ensures var next := NextLevel(rx, t, level, |level|, seg); next != [] && next[|next| - 1] == c
  {
    LastKid(rx, t, level[|level| - 1], seg, c);
  }

  // The greedy walk stands on the last node of every frontier: it matches the
  // request, and no matching node is ordered after it.
  lemma {:induction false} GreedyIsLastOfFrontier(rx: Regexps, t: Routes, l: Loc, segs: seq<string>)
    requires Exclusive(t) && Root(Verb(l)) in t && Greedy(rx, t, l, segs)
    ensures l in t && Matches(rx, l, segs) && Depth(l) <= |segs|
    ensures var f := Frontier(rx, t, Root(Verb(l)), segs, Depth(l)); f != [] && f[|f| - 1] == l
  {
    hide NextLevel, Kids, ChildOf, Takes, Exclusive;
    if l.Down? {
      GreedyIsLastOfFrontier(rx, t, l.up, segs);
      var g := Frontier(rx, t, Root(Verb(l)), segs, Depth(l) - 1);
      ChildIsGreedy(rx, t, l.up, segs[Depth(l) - 1]);
      LastOfNextLevel(rx, t, g, segs[Depth(l) - 1], l);
    }
  }

  // `mws` holds the middleware of the node and of all its ancestors as
  // blocks in root-to-leaf order, with other nodes' middleware in between.
  ghost predicate HoldsChain(t: Routes, l: Loc, mws: seq<Middleware>) {
    l in t &&
    match l
    case Root(_) => mws == t[l].mws
    case Down(up, _) => exists a, b :: mws == a + b + t[l].mws && HoldsChain(t, up, a)
  }

  lemma LastBlock(rx: Regexps, t: Routes, r: Loc, segs: seq<string>, n: nat, l: Loc) returns (b: seq<Middleware>)
    requires 0 < n <= |segs| && l in t
    requires var f := Frontier(rx, t, r, segs, n); f != [] && f[|f| - 1] == l
    ensures Middlewares(rx, t, r, segs, n) == Middlewares(rx, t, r, segs, n - 1) + b + t[l].mws
  {
    var f := Frontier(rx, t, r, segs, n);
    b := MwsOf(t, f[..|f| - 1]);
    var a := Middlewares(rx, t, r, segs, n - 1);
    assert a + (b + t[l].mws) == a + b + t[l].mws;
  }

  lemma RootBlock(rx: Regexps, t: Routes, l: Loc, segs: seq<string>)
    requires l.Root? && l in t
    ensures Middlewares(rx, t, l, segs, 0) == t[l].mws
  {
    assert MwsOf(t, [l]) == MwsOf(t, [l][..0]) + t[l].mws;
  }

  lemma {:induction false} FullMatchCollectsChain(rx: Regexps, t: Routes, l: Loc, segs: seq<string>)
    requires Exclusive(t) && Root(Verb(l)) in t && Greedy(rx, t, l, segs)
    ensures Depth(l) <= |segs| && HoldsChain(t, l, Middlewares(rx, t, Root(Verb(l)), segs, Depth(l)))
  {
    hide Frontier, Middlewares, MwsOf;
    GreedyIsLastOfFrontier(rx, t, l, segs);
    if l.Down? {
      FullMatchCollectsChain(rx, t, l.up, segs);
      var b := LastBlock(rx, t, Root(Verb(l)), segs, Depth(l), l);
    } else {
      RootBlock(rx, t, l, segs);
    }
  }

  // ---------- parameters ----------

  ghost function AncestorAt(l: Loc, d: nat): Loc
    requires d <= Depth(l)
  {
    if d == Depth(l) then l else AncestorAt(l.up, d)
  }

  // The node at depth `d` on the way to `l` carries `name`.
  ghost predicate Names(t: Routes, l: Loc, d: nat, name: string) {
    0 < d <= Depth(l) && AncestorAt(l, d) in t && t[AncestorAt(l, d)].paramName == name
  }

  ghost predicate Deepest(t: Routes, l: Loc, d: nat, name: string) {
    Names(t, l, d, name) && forall e :: d < e ==> !Names(t, l, e, name)
  }

  // A name is bound exactly when some node on the walk carries it, and then to
  // the segment of the deepest such node.
  lemma {:induction false} LastNameWins(t: Routes, l: Loc, segs: seq<string>, name: string)
    requires Closed(t) && l in t && Depth(l) <= |segs| && name != ""
    ensures name in Bindings(t, l, segs) <==> exists d :: Names(t, l, d, name)
    ensures forall d: nat | Deepest(t, l, d, name) ::
      d <= Depth(l) && name in Bindings(t, l, segs) && Bindings(t, l, segs)[name] == segs[d - 1]
  {
    if l.Down? {
      LastNameWins(t, l.up, segs, name);
      assert forall d :: d != Depth(l) ==> Names(t, l, d, name) == Names(t, l.up, d, name);
      assert Names(t, l, Depth(l), name) <==> t[l].paramName == name;
      assert forall d: nat | Deepest(t, l, d, name) && d != Depth(l) ::
          Deepest(t, l.up, d, name) && !Names(t, l, Depth(l), name);
    }
  }

  // ---------- static routes ----------

  predicate AllStatic(segs: seq<string>) {
    forall s <- segs :: s != "" && KeyOf(s).Static?
  }

  lemma {:induction false} StaticIsGreedy(rx: Regexps, t: Routes, verb: string, segs: seq<string>, n: nat)
    requires n <= |segs| && Closed(t) && AllStatic(segs) && "" !in segs[..n] && Target(Root(verb), segs[..n]) in t
    ensures Greedy(rx, t, Target(Root(verb), segs[..n]), segs)
    ensures Depth(Target(Root(verb), segs[..n])) == n
  {
    TargetDepth(Root(verb), segs[..n]);
    if n > 0 {
      assert segs[..n][..n - 1] == segs[..n - 1];
      assert forall s :: s in segs[..n - 1] ==> s in segs[..n];
      assert segs[n - 1] in segs;
      StaticIsGreedy(rx, t, verb, segs, n - 1);
    }
  }

  lemma AcceptedStays(rx: Regexps, regs: seq<Registration>, i: nat)
    requires i < |regs| && regs[i].handler.Some? && Accepts(rx, Run(rx, regs[..i]), regs[i])
    ensures var t := Run(rx, regs); TargetOf(regs[i]) in t && t[TargetOf(regs[i])].handler == regs[i].handler
  {
    hide AddRoute, WellFormed, Target, PatternSegs;
    assert regs[..i + 1][..i] == regs[..i];
    RunWellFormed(rx, regs[..i]);
    AddRouteRefinesFlatMap(rx, Run(rx, regs[..i]), regs[i]);
    HandlerIsForever(rx, regs, i + 1, TargetOf(regs[i]));
  }

  // A path of static segments that was ever registered with a handler is
  // served by exactly that handler, whatever else is registered before or
  // after it, with the middleware of all nodes on its path.
  lemma StaticRouteIsServed(rx: Regexps, regs: seq<Registration>, i: nat)
    requires i < |regs| && regs[i].handler.Some? && CleanPath(regs[i].path) && AllStatic(Split(regs[i].path[1..]))
    requires Accepts(rx, Run(rx, regs[..i]), regs[i])
    ensures var t := Run(rx, regs);
      var found := FindRoute(rx, t, regs[i].verb, regs[i].path);
      && found.Some? && found.value.loc == TargetOf(regs[i]) && found.value.loc in t
      && t[found.value.loc].handler == regs[i].handler
      && HoldsChain(t, found.value.loc, found.value.mws)
  {
    hide Run, FindRoute, Trim, Split, Frontier, Middlewares, Bindings, Target, Greedy, HoldsChain;
    var r, t := regs[i], Run(rx, regs);
    var segs := Split(r.path[1..]);
    AcceptedStays(rx, regs, i);
    RunWellFormed(rx, regs);
    LookupCutsLikeRegistration(r.path);
    assert segs[..|segs|] == segs;
    StaticIsGreedy(rx, t, r.verb, segs, |segs|);
    TargetDepth(Root(r.verb), segs);
    RootPresent(t, TargetOf(r));
    LookupIsGreedy(rx, t, r.verb, r.path, segs, TargetOf(r));
    FullMatchCollectsChain(rx, t, TargetOf(r), segs);
  }

  lemma {:induction false} RootPresent(t: Routes, x: Loc)
    requires Closed(t) && x in t
    ensures Root(Verb(x)) in t
  {
    if x.Down? { RootPresent(t, x.up); }
  }
}
