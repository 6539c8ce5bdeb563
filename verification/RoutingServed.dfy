// When a registered route serves a request, and what it then binds.
module RoutingServed {
  import opened Wrappers
  import opened Segments
  import opened Routing
  import opened RoutingPatterns
  import opened RoutingLaws
  import opened RoutingCommute
  import opened RoutingLookup

  predicate IsStatic(p: string) { p != "" && p != "*" && p[0] != ':' }

  // The request runs along the pattern: every segment is one the pattern's
  // stands for, and no static route takes it away from a star or a parameter.
  ghost predicate Along(rx: Regexps, t: Routes, verb: string, pattern: seq<string>, segs: seq<string>, n: nat)
    requires "" !in pattern && n <= |pattern| && n <= |segs|
  {
    forall j :: 0 <= j < n ==>
      && StandsFor(rx, pattern[j], segs[j])
      && (IsStatic(pattern[j]) || Down(Ahead(verb, pattern, j), Static(segs[j])) !in t)
  }

  // The node a pattern reaches after `n` segments.
  ghost function Ahead(verb: string, pattern: seq<string>, n: nat): Loc
    requires "" !in pattern && n <= |pattern|
  {
    assert forall s :: s in pattern[..n] ==> s in pattern;
    Target(Root(verb), pattern[..n])
  }

  lemma AheadStep(verb: string, pattern: seq<string>, n: nat)
    requires "" !in pattern && 0 < n <= |pattern|
    ensures pattern[n - 1] != ""
    ensures Ahead(verb, pattern, n) == Down(Ahead(verb, pattern, n - 1), KeyOf(pattern[n - 1]))
    ensures Depth(Ahead(verb, pattern, n)) == n
  {
    assert pattern[n - 1] in pattern;
    assert forall s :: s in pattern[..n] ==> s in pattern;
    assert pattern[..n][..n - 1] == pattern[..n - 1] && pattern[..n][n - 1] == pattern[n - 1];
    TargetDepth(Root(verb), pattern[..n]);
  }

  lemma {:induction false} AheadIn(t: Routes, verb: string, pattern: seq<string>, n: nat)
    requires "" !in pattern && n <= |pattern| && Closed(t) && Ahead(verb, pattern, |pattern|) in t
    ensures Ahead(verb, pattern, n) in t
    decreases |pattern| - n
  {
    if n < |pattern| {
      AheadIn(t, verb, pattern, n + 1);
      AheadStep(verb, pattern, n + 1);
    }
  }

  lemma StandsForTakes(rx: Regexps, p: string, seg: string)
    requires p != ""
    ensures StandsFor(rx, p, seg) <==> Takes(rx, KeyOf(p), seg)
    ensures IsStatic(p) <==> KeyOf(p).Static?
  {
    hide KeyOf, NameOf;
    SegmentReads(p);
    if p != "*" && p[0] == ':' && !PlainParam(p) {
      var name, expr :| WithRegex(p, name, expr);
      forall name', expr' | WithRegex(p, name', expr') ensures expr' == expr {
        assert KeyOf(p) == Regex(expr');
      }
    }
  }

  lemma {:induction false} AlongIsGreedy(rx: Regexps, t: Routes, verb: string, pattern: seq<string>, segs: seq<string>,
                                         n: nat)
    requires "" !in pattern && n <= |pattern| && n <= |segs| && Closed(t) && Ahead(verb, pattern, |pattern|) in t
    ensures Greedy(rx, t, Ahead(verb, pattern, n), segs) <==> Along(rx, t, verb, pattern, segs, n)
  {
    hide KeyOf, Takes, StandsFor, IsStatic, Ahead;
    if n == 0 {
      StartOf(verb, pattern);
    } else {
      AlongIsGreedy(rx, t, verb, pattern, segs, n - 1);
      AheadStep(verb, pattern, n);
      AheadIn(t, verb, pattern, n);
      StandsForTakes(rx, pattern[n - 1], segs[n - 1]);
    }
  }

  lemma StartOf(verb: string, pattern: seq<string>)
    requires "" !in pattern
    ensures Ahead(verb, pattern, 0) == Root(verb)
  {
  }

  // ---------- names ----------

  lemma LabelKept(rx: Regexps, t: Routes, r: Registration, x: Loc)
    requires WellFormed(t) && x in t
    ensures var t' := AddRoute(rx, t, r).0; x in t' && Label(t'[x]) == Label(t[x])
  {
    hide AddRoute, WellFormed;
    AddRouteRefinesFlatMap(rx, t, r);
    if AddRoute(rx, t, r).1 {
      AcceptedNodes(rx, t, r);
    }
  }

  // A node keeps the name it was created with.
  lemma {:induction false} LabelStays(rx: Regexps, regs: seq<Registration>, i: nat, x: Loc)
    requires i <= |regs| && x in Run(rx, regs[..i])
    ensures x in Run(rx, regs) && Label(Run(rx, regs)[x]) == Label(Run(rx, regs[..i])[x])
    decreases |regs|
  {
    hide AddRoute, WellFormed;
    var last := |regs| - 1;
    if i == |regs| {
      assert regs[..i] == regs;
    } else {
      assert regs[..last][..i] == regs[..i];
      LabelStays(rx, regs[..last], i, x);
      RunWellFormed(rx, regs[..last]);
      LabelKept(rx, Run(rx, regs[..last]), regs[last], x);
    }
  }

  lemma OnItsPath(r: Registration, j: nat)
    requires r.path != "" && "" !in PatternSegs(r.path) && j < |PatternSegs(r.path)|
    ensures var x := Ahead(r.verb, PatternSegs(r.path), j + 1);
      Touches(r, x) && x.Down? && SegAt(r, x) == PatternSegs(r.path)[j]
  {
    hide PatternSegs;
    AheadStep(r.verb, PatternSegs(r.path), j + 1);
  }

  // Every node on the path of an accepted registration bears the name the
  // pattern gives it; a regular expression that was there before keeps the name
  // it came with.
  lemma PathName(rx: Regexps, regs: seq<Registration>, i: nat, j: nat)
    requires i < |regs| && Accepts(rx, Run(rx, regs[..i]), regs[i]) && j < |PatternSegs(regs[i].path)|
    ensures var x := Ahead(regs[i].verb, PatternSegs(regs[i].path), j + 1);
      && x.Down? && x in Run(rx, regs)
      && Run(rx, regs)[x].paramName ==
         if x.key.Regex? && x in Run(rx, regs[..i]) then Run(rx, regs[..i])[x].paramName
         else NameOf(PatternSegs(regs[i].path)[j])
  {
    hide AddRoute, PatternSegs, KeyOf, NameOf, Ahead;
    var r, t := regs[i], Run(rx, regs[..i]);
    var x := Ahead(r.verb, PatternSegs(r.path), j + 1);
    assert regs[..i + 1][..i] == regs[..i];
    RunWellFormed(rx, regs[..i]);
    AddRouteRefinesFlatMap(rx, t, r);
    AcceptedNodes(rx, t, r);
    OnItsPath(r, j);
    AheadStep(r.verb, PatternSegs(r.path), j + 1);
    LabelStays(rx, regs, i + 1, x);
    RunWellFormed(rx, regs);
    if x.key.Regex? && x in t {
      LabelStays(rx, regs, i, x);
    } else if !x.key.Regex? {
      KeyAndNameDetermineSegment(Run(rx, regs)[x].path, PatternSegs(r.path)[j]);
    }
  }

  lemma {:induction false} AncestorAhead(verb: string, pattern: seq<string>, n: nat, d: nat)
    requires "" !in pattern && d <= n <= |pattern|
    ensures Depth(Ahead(verb, pattern, n)) == n && AncestorAt(Ahead(verb, pattern, n), d) == Ahead(verb, pattern, d)
    decreases n
  {
    hide Ahead, KeyOf;
    StartOf(verb, pattern);
    if n > 0 {
      AheadStep(verb, pattern, n);
    }
    if d < n {
      AncestorAhead(verb, pattern, n - 1, d);
    }
  }

  lemma BindsIsName(p: string, name: string)
    requires p != ""
    ensures Binds(p, name) <==> p[0] == ':' && NameOf(p) == name
    ensures p[0] != ':' ==> NameOf(p) == ""
  {
    hide KeyOf, NameOf;
    SegmentReads(p);
    assert (":" + name)[1..] == name && (":" + NameOf(p))[1..] == NameOf(p);
    assert forall expr :: WithRegex(p, name, expr) ==> p[0] == ':';
    if p[0] == ':' && !PlainParam(p) {
      var n, expr :| WithRegex(p, n, expr);
      assert NameOf(p) == n;
    }
  }

  // The name a pattern segment gives its node; "" for none.
  ghost predicate Writes(p: string, name: string) {
    if exists n :: Binds(p, n) then Binds(p, name) else name == ""
  }

  lemma WritesIsName(p: string, name: string)
    requires p != ""
    ensures Writes(p, name) <==> name == NameOf(p)
  {
    hide NameOf, Binds;
    BindsIsName(p, name);
    BindsIsName(p, NameOf(p));
    forall n | Binds(p, n) ensures p[0] == ':' {
      BindsIsName(p, n);
    }
  }

  // The parameters are the names given, each with the segment of the last place
  // it was given to.
  ghost predicate BindsAll(names: seq<string>, segs: seq<string>, params: map<string, string>)
    requires |segs| == |names|
  {
    && (forall name :: name in params <==> name != "" && name in names)
    && (forall j, name :: 0 <= j < |names| && name in params && LastToBind(names, j, name) ==> params[name] == segs[j])
  }

  predicate LastToBind(names: seq<string>, j: nat, name: string)
    requires j < |names|
  {
    names[j] == name && forall k :: j < k < |names| ==> names[k] != name
  }

  lemma {:induction false} NoEmptyName(t: Routes, l: Loc, segs: seq<string>)
    ensures "" !in Bindings(t, l, segs)
  {
    if l.Down? {
      NoEmptyName(t, l.up, segs);
    }
  }

  // The nodes along a pattern bear these names.
  ghost predicate Borne(t: Routes, verb: string, pattern: seq<string>, names: seq<string>)
    requires "" !in pattern
  {
    && |names| == |pattern|
    && forall d :: 0 < d <= |pattern| ==>
         Ahead(verb, pattern, d) in t && t[Ahead(verb, pattern, d)].paramName == names[d - 1]
  }

  lemma NamesAlong(t: Routes, verb: string, pattern: seq<string>, names: seq<string>, d: nat, name: string)
    requires "" !in pattern && name != "" && 0 < d <= |pattern| && Borne(t, verb, pattern, names)
    ensures Names(t, Ahead(verb, pattern, |pattern|), d, name) <==> names[d - 1] == name
  {
    hide Ahead;
    AheadStep(verb, pattern, d);
    AncestorAhead(verb, pattern, |pattern|, d);
  }

  lemma BindingsBindAll(t: Routes, verb: string, pattern: seq<string>, names: seq<string>, segs: seq<string>)
    requires Closed(t) && "" !in pattern && |segs| == |pattern| && Borne(t, verb, pattern, names)
    requires Ahead(verb, pattern, |pattern|) in t
    ensures BindsAll(names, segs, Bindings(t, Ahead(verb, pattern, |pattern|), segs))
  {
    hide Ahead, Names, Bindings, Closed, Borne;
    var l := Ahead(verb, pattern, |pattern|);
    NoEmptyName(t, l, segs);
    var params := Bindings(t, l, segs);
    SameSize(t, verb, pattern, names);
    forall name | name != ""
      ensures name in params <==> name in names
      ensures forall j :: 0 <= j < |names| && LastToBind(names, j, name) ==> name in params && params[name] == segs[j]
    {
      OneName(t, verb, pattern, names, segs, name);
    }
  }

  lemma SameSize(t: Routes, verb: string, pattern: seq<string>, names: seq<string>)
    requires "" !in pattern && Borne(t, verb, pattern, names)
    ensures |names| == |pattern|
  {
  }

  lemma OneName(t: Routes, verb: string, pattern: seq<string>, names: seq<string>, segs: seq<string>, name: string)
    requires Closed(t) && "" !in pattern && |segs| == |pattern| && name != "" && Borne(t, verb, pattern, names)
    requires Ahead(verb, pattern, |pattern|) in t
    ensures var params := Bindings(t, Ahead(verb, pattern, |pattern|), segs);
      && |names| == |pattern| && (name in params <==> name in names)
      && forall j :: 0 <= j < |names| && LastToBind(names, j, name) ==> name in params && params[name] == segs[j]
  {
    hide Ahead, Bindings, Closed, Borne;
    var l := Ahead(verb, pattern, |pattern|);
    SameSize(t, verb, pattern, names);
    AncestorAhead(verb, pattern, |pattern|, 0);
    LastNameWins(t, l, segs, name);
    forall d | 0 < d <= |pattern| ensures Names(t, l, d, name) <==> names[d - 1] == name {
      NamesAlong(t, verb, pattern, names, d, name);
    }
    if exists d :: Names(t, l, d, name) {
      var d :| Names(t, l, d, name);
      assert names[d - 1] == name;
    }
    if name in names {
      var j :| 0 <= j < |names| && names[j] == name;
      assert Names(t, l, j + 1, name);
    }
    forall j | 0 <= j < |names| && LastToBind(names, j, name) ensures Deepest(t, l, j + 1, name) {
      assert forall e :: j + 1 < e && Names(t, l, e, name) ==> names[e - 1] == name;
    }
  }

  // ---------- served routes ----------

  // The names the nodes along an accepted registration bear: those its pattern
  // writes, but a regular expression that was there before keeps its name.
  ghost predicate GivenNames(rx: Regexps, regs: seq<Registration>, i: nat, names: seq<string>)
    requires i < |regs| && regs[i].path != "" && "" !in PatternSegs(regs[i].path)
  {
    |names| == |PatternSegs(regs[i].path)| && forall j :: 0 <= j < |names| ==> GivenName(rx, regs, i, j, names[j])
  }

  ghost predicate GivenName(rx: Regexps, regs: seq<Registration>, i: nat, j: nat, name: string)
    requires i < |regs| && regs[i].path != "" && "" !in PatternSegs(regs[i].path) && j < |PatternSegs(regs[i].path)|
  {
    var x := Ahead(regs[i].verb, PatternSegs(regs[i].path), j + 1);
    if x.Down? && x.key.Regex? && x in Run(rx, regs[..i]) then name == Run(rx, regs[..i])[x].paramName
    else Writes(PatternSegs(regs[i].path)[j], name)
  }

  // An accepted route serves a request of its length exactly when the request
  // runs along its pattern. It then runs its own handler with the middleware of
  // all nodes on the way, and binds the names along its pattern.
  lemma RouteIsServed(rx: Regexps, regs: seq<Registration>, i: nat, path: string, names: seq<string>)
    requires i < |regs| && regs[i].handler.Some? && Accepts(rx, Run(rx, regs[..i]), regs[i])
    requires path != "/" && |Split(Trim(path))| == |PatternSegs(regs[i].path)|
    ensures var r, t, pattern, segs := regs[i], Run(rx, regs), PatternSegs(regs[i].path), Split(Trim(path));
      var found := FindRoute(rx, t, r.verb, path);
      && TargetOf(r) in t && t[TargetOf(r)].handler == r.handler
      && (found.Some? && found.value.loc == TargetOf(r) <==> Along(rx, t, r.verb, pattern, segs, |pattern|))
      && (found.Some? && found.value.loc == TargetOf(r) ==> HoldsChain(t, found.value.loc, found.value.mws))
      && (found.Some? && found.value.loc == TargetOf(r) && GivenNames(rx, regs, i, names) ==>
            BindsAll(names, segs, found.value.params))
  {
    hide Run, FindRoute, PatternSegs, Trim, Split, Frontier, Middlewares, Bindings, Greedy, HoldsChain, Along, BindsAll;
    hide GivenNames;
    hide WellFormed;
    var r, t, pattern, segs := regs[i], Run(rx, regs), PatternSegs(regs[i].path), Split(Trim(path));
    var l := TargetOf(r);
    AcceptedStays(rx, regs, i);
    RunWellFormed(rx, regs);
    Parts(t);
    TargetIsAhead(r);
    RootPresent(t, l);
    AncestorAhead(r.verb, pattern, |pattern|, 0);
    AlongIsGreedy(rx, t, r.verb, pattern, segs, |pattern|);
    WalkEnds(rx, t, r.verb, segs);
    var e :| EndsAt(rx, t, r.verb, segs, e);
    LookupIsGreedy(rx, t, r.verb, path, segs, e);
    if Greedy(rx, t, l, segs) {
      EndIsUnique(rx, t, r.verb, segs, l, e);
      FullMatchCollectsChain(rx, t, l, segs);
      if GivenNames(rx, regs, i, names) {
        BoundByName(rx, regs, i, names, segs);
      }
    }
  }

  lemma Parts(t: Routes)
    requires WellFormed(t)
    ensures Closed(t) && Exclusive(t)
  {
  }

  lemma TargetIsAhead(r: Registration)
    requires r.path != "" && "" !in PatternSegs(r.path)
    ensures TargetOf(r) == Ahead(r.verb, PatternSegs(r.path), |PatternSegs(r.path)|) && Verb(TargetOf(r)) == r.verb
  {
    assert PatternSegs(r.path)[..|PatternSegs(r.path)|] == PatternSegs(r.path);
    TargetDepth(Root(r.verb), PatternSegs(r.path));
  }

  lemma BoundByName(rx: Regexps, regs: seq<Registration>, i: nat, names: seq<string>, segs: seq<string>)
    requires i < |regs| && Accepts(rx, Run(rx, regs[..i]), regs[i]) && GivenNames(rx, regs, i, names)
    requires |segs| == |PatternSegs(regs[i].path)| && TargetOf(regs[i]) in Run(rx, regs)
    ensures BindsAll(names, segs, Bindings(Run(rx, regs), TargetOf(regs[i]), segs))
  {
    hide Run, PatternSegs, BindsAll, Bindings, KeyOf, NameOf, Ahead, WellFormed, Writes;
    var r, t, pattern := regs[i], Run(rx, regs), PatternSegs(regs[i].path);
    RunWellFormed(rx, regs);
    Parts(t);
    TargetIsAhead(r);
    forall d | 0 < d <= |pattern|
      ensures Ahead(r.verb, pattern, d) in t && t[Ahead(r.verb, pattern, d)].paramName == names[d - 1]
    {
      AheadStep(r.verb, pattern, d);
      PathName(rx, regs, i, d - 1);
      assert GivenName(rx, regs, i, d - 1, names[d - 1]);
      WritesIsName(pattern[d - 1], names[d - 1]);
    }
    BindingsBindAll(t, r.verb, pattern, names, segs);
  }

  // There are such names.
  lemma NamesAreGiven(rx: Regexps, regs: seq<Registration>, i: nat) returns (names: seq<string>)
    requires i < |regs| && Accepts(rx, Run(rx, regs[..i]), regs[i])
    ensures GivenNames(rx, regs, i, names)
  {
    hide Run, PatternSegs, KeyOf, NameOf, Ahead, WellFormed, Writes;
    var r, t, pattern := regs[i], Run(rx, regs), PatternSegs(regs[i].path);
    forall d | 0 < d <= |pattern| ensures Ahead(r.verb, pattern, d) in t {
      PathName(rx, regs, i, d - 1);
    }
    names := seq(|pattern|, j requires 0 <= j < |pattern| => t[Ahead(r.verb, pattern, j + 1)].paramName);
    forall j | 0 <= j < |names| ensures GivenName(rx, regs, i, j, names[j]) {
      PathName(rx, regs, i, j);
      AheadStep(r.verb, pattern, j + 1);
      WritesIsName(pattern[j], names[j]);
    }
  }

  // So a route that ends in a plain parameter binds its name to the last segment.
  lemma LastParameter(rx: Regexps, regs: seq<Registration>, i: nat, path: string, name: string)
    requires i < |regs| && regs[i].handler.Some? && Accepts(rx, Run(rx, regs[..i]), regs[i])
    requires path != "/" && |Split(Trim(path))| == |PatternSegs(regs[i].path)|
    requires name != "" && '(' !in name && PatternSegs(regs[i].path) != []
    requires PatternSegs(regs[i].path)[|PatternSegs(regs[i].path)| - 1] == ":" + name
    ensures var found, segs := FindRoute(rx, Run(rx, regs), regs[i].verb, path), Split(Trim(path));
      found.Some? && found.value.loc == TargetOf(regs[i]) ==>
        name in found.value.params && found.value.params[name] == segs[|segs| - 1]
  {
    hide Run, FindRoute, PatternSegs, Trim, Split, HoldsChain, Along, NameOf, Ahead;
    var names := NamesAreGiven(rx, regs, i);
    RouteIsServed(rx, regs, i, path, names);
    var pattern := PatternSegs(regs[i].path);
    var n, p := |pattern| - 1, pattern[|pattern| - 1];
    assert forall k :: 1 <= k < |p| ==> p[k] == name[k - 1];
    AheadStep(regs[i].verb, pattern, n + 1);
    SegmentReads(p);
    assert PlainParam(p);
    assert GivenName(rx, regs, i, n, names[n]);
    assert Binds(p, name);
    assert Writes(p, names[n]);
    WritesIsName(p, names[n]);
    BindsIsName(p, name);
    assert LastToBind(names, n, name);
  }

  // ---------- accepted routes ----------

  // An edge the tree has no conflict with: a static one; one that is there, if
  // it is no regular expression below a node of another name; or the only star,
  // parameter or regular expression of its node, and one that compiles.
  ghost predicate EdgeFits(rx: Regexps, t: Routes, l: Loc, p: string) {
    || IsStatic(p)
    || (p != "" && Down(l, KeyOf(p)) in t &&
        (l in t ==> forall name, expr :: WithRegex(p, name, expr) ==> t[l].paramName == name))
    || ((forall k: Key :: Down(l, k) in t ==> k.Static?) &&
        forall name, expr :: WithRegex(p, name, expr) ==> rx.compiles(expr))
  }

  lemma EdgeFitsIs(rx: Regexps, t: Routes, l: Loc, p: string)
    requires p != ""
    ensures EdgeOk(rx, t, l, p) <==> EdgeFits(rx, t, l, p)
  {
    hide KeyOf, NameOf;
    SegmentReads(p);
    assert forall name, expr :: WithRegex(p, name, expr) ==> p[0] == ':' && !PlainParam(p);
    if p[0] == ':' && !PlainParam(p) {
      var name, expr :| WithRegex(p, name, expr);
      forall name', expr' | WithRegex(p, name', expr') ensures name' == name && expr' == expr {
        assert KeyOf(p) == Regex(expr') && NameOf(p) == name';
      }
    }
  }

  lemma {:induction false} RegistrableEdges(rx: Regexps, t: Routes, l: Loc, segs: seq<string>)
    ensures Registrable(rx, t, l, segs) <==>
      "" !in segs && forall j :: 0 <= j < |segs| ==> "" !in segs[..j] && EdgeOk(rx, t, Target(l, segs[..j]), segs[j])
    decreases |segs|
  {
    hide KeyOf, EdgeOk, Target;
    if segs != [] && segs[0] != "" {
      var l', rest := Down(l, KeyOf(segs[0])), segs[1..];
      RegistrableEdges(rx, t, l', rest);
      assert forall s :: s in segs <==> s == segs[0] || s in rest;
      if "" !in segs {
        TargetNone(l, segs[..0]);
        forall j | 0 < j < |segs| ensures "" !in segs[..j] && Target(l, segs[..j]) == Target(l', rest[..j - 1]) {
          assert forall s :: s in segs[..j] ==> s in segs;
          assert segs[..j][1..] == rest[..j - 1];
          TargetHead(l, segs[..j]);
        }
        assert forall j :: 0 <= j < |rest| ==> rest[j] == segs[j + 1] && rest[..j] == segs[..j + 1][1..];
      }
    }
  }

  lemma TargetNone(l: Loc, segs: seq<string>)
    requires segs == []
    ensures Target(l, segs) == l
  {
  }

  // addRoute returns without a panic exactly for the root or a clean path, when
  // every edge of the pattern fits and the node at its end has no handler.
  lemma AcceptedWhen(rx: Regexps, t: Routes, r: Registration)
    requires WellFormed(t)
    ensures AddRoute(rx, t, r).1 <==>
      && (r.path == "/" || CleanPath(r.path))
      && var pattern := if r.path == "/" then [] else Split(r.path[1..]);
         && (forall j :: 0 <= j < |pattern| ==> EdgeFits(rx, t, Ahead(r.verb, pattern, j), pattern[j]))
         && (Ahead(r.verb, pattern, |pattern|) in t ==> t[Ahead(r.verb, pattern, |pattern|)].handler.None?)
  {
    hide KeyOf, NameOf, EdgeOk, EdgeFits, AddRoute, Split, WellFormed, Target;
    AddRouteRefinesFlatMap(rx, t, r);
    if PathShapeOk(r.path) {
      var pattern := PatternSegs(r.path);
      RegistrableEdges(rx, t, Root(r.verb), pattern);
      if "" !in pattern {
        TargetIsAhead(r);
        forall j | 0 <= j < |pattern|
          ensures EdgeOk(rx, t, Ahead(r.verb, pattern, j), pattern[j]) <==>
            EdgeFits(rx, t, Ahead(r.verb, pattern, j), pattern[j])
        {
          assert pattern[j] in pattern;
          EdgeFitsIs(rx, t, Ahead(r.verb, pattern, j), pattern[j]);
        }
      }
    }
  }
}
