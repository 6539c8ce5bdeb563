// Registrations commute: the order in which routes are registered is
// invisible in the table, as long as both orders are accepted.
module RoutingCommute {
  import opened Wrappers
  import opened Segments
  import opened Routing
  import opened RoutingLaws

  function Label(i: Info): (string, string) {
    (i.path, i.paramName)
  }

  ghost predicate Touches(r: Registration, x: Loc)
    requires r.path != ""
  {
    x == Root(r.verb) || OnPath(Root(r.verb), PatternSegs(r.path), x)
  }

  // The segment that names node `x` of the registration's path.
  ghost function SegAt(r: Registration, x: Loc): (seg: string)
    requires r.path != "" && Touches(r, x) && x.Down?
    ensures seg != "" && KeyOf(seg) == x.key
  {
    var segs, d := PatternSegs(r.path), Depth(x);
    assert segs[d - 1] in segs[..d];
    assert segs[..d][d - 1] == segs[d - 1];
    segs[d - 1]
  }

  // The label a registration gives to a node it creates.
  ghost function NewLabel(r: Registration, x: Loc): (string, string)
    requires r.path != "" && Touches(r, x)
  {
    if x.Root? then ("/", "") else Label(Bare(SegAt(r, x)))
  }

  lemma {:induction false} PathReaches(t: Routes, l: Loc, segs: seq<string>, x: Loc)
    requires Closed(t) && "" !in segs && Target(l, segs) in t && OnPath(l, segs, x)
    ensures x in t
    decreases |segs|
  {
    var n := |segs| - 1;
    TargetDepth(l, segs);
    if Depth(x) - Depth(l) < |segs| {
      var init := segs[..n];
      assert forall s :: s in init ==> s in segs;
      assert init[..Depth(x) - Depth(l)] == segs[..Depth(x) - Depth(l)];
      assert Target(l, segs).up == Target(l, init);
      PathReaches(t, l, init, x);
    } else {
      assert segs[..|segs|] == segs;
    }
  }

  // A regex edge that existed before was allowed because its parent's name is
  // the name in the new segment.
  lemma {:induction false} UsedRegexEdge(rx: Regexps, t: Routes, l: Loc, segs: seq<string>, x: Loc)
    requires Closed(t) && Registrable(rx, t, l, segs) && OnPath(l, segs, x)
    requires x in t && x.Down? && x.key.Regex?
    ensures segs[Depth(x) - Depth(l) - 1] != ""
    ensures x.up in t && t[x.up].paramName == NameOf(segs[Depth(x) - Depth(l) - 1])
    decreases |segs|
  {
    var d := Depth(x) - Depth(l);
    var c := Down(l, KeyOf(segs[0]));
    TargetHead(l, segs[..d]);
    assert segs[..d][1..] == segs[1..][..d - 1];
    if d == 1 {
      assert segs[1..][..0] == [];
      assert x == c;
    } else {
      UsedRegexEdge(rx, t, c, segs[1..], x);
    }
  }

  ghost predicate AddsNodes(t: Routes, r: Registration, t': Routes)
    requires r.path != ""
  {
    && (forall x :: x in t' <==> x in t || Touches(r, x))
    && (forall x <- t' :: Label(t'[x]) == if x in t then Label(t[x]) else NewLabel(r, x))
  }

  ghost predicate RegexEdgesAllowed(t: Routes, r: Registration)
    requires r.path != ""
  {
    forall x <- t :: x.Down? && x.key.Regex? && Touches(r, x) ==>
      x.up in t && t[x.up].paramName == NameOf(SegAt(r, x))
  }

  ghost predicate Rebinds(t: Routes, r: Registration, t': Routes)
    requires r.path != "" && "" !in PatternSegs(r.path)
  {
    && Binding(t, TargetOf(r)).0.None?
    && forall x :: Binding(t', x) ==
         if x == TargetOf(r) then (r.handler, Binding(t, x).1 + r.mws) else Binding(t, x)
  }

  // Everything an accepted registration does to the table, node by node.
  ghost predicate Adds(t: Routes, r: Registration, t': Routes) {
    && r.path != "" && "" !in PatternSegs(r.path) && TargetOf(r) in t'
    && AddsNodes(t, r, t') && RegexEdgesAllowed(t, r) && Rebinds(t, r, t')
  }

  lemma GrownLabel(t: Routes, r: Registration, t': Routes, x: Loc)
    requires r.path != "" && x in t'
    requires Grown(WithRoot(t, r.verb), t', Root(r.verb), PatternSegs(r.path))
    ensures x in t || Touches(r, x)
    ensures Label(t'[x]) == if x in t then Label(t[x]) else NewLabel(r, x)
  {
    hide PatternSegs;
    if x !in WithRoot(t, r.verb) {
      assert t'[x] == Bare(SegAt(r, x));
    }
  }

  lemma GrownAddsNodes(t: Routes, r: Registration, t': Routes)
    requires r.path != "" && "" !in PatternSegs(r.path)
    requires Closed(t') && TargetOf(r) in t' && Root(r.verb) in t'
    requires Grown(WithRoot(t, r.verb), t', Root(r.verb), PatternSegs(r.path))
    ensures AddsNodes(t, r, t')
  {
    hide PatternSegs, Closed, OnPath;
    forall x | Touches(r, x) ensures x in t' {
      if x != Root(r.verb) { PathReaches(t', Root(r.verb), PatternSegs(r.path), x); }
    }
    forall x <- t' ensures Label(t'[x]) == if x in t then Label(t[x]) else NewLabel(r, x) {
      GrownLabel(t, r, t', x);
    }
  }

  lemma BindingKeepsNodes(t: Routes, r: Registration, t': Routes, l: Loc)
    requires r.path != "" && AddsNodes(t, r, t') && l in t'
    ensures AddsNodes(t, r, t'[l := Bind(t'[l], r)])
  {}

  lemma AcceptedNodes(rx: Regexps, t: Routes, r: Registration)
    requires WellFormed(t) && AddRoute(rx, t, r).1
    ensures r.path != "" && AddsNodes(t, r, AddRoute(rx, t, r).0)
  {
    var t0, root, segs := WithRoot(t, r.verb), Root(r.verb), PatternSegs(r.path);
    var (t', end) := Walk(rx, t0, root, segs);
    WalkLaw(rx, t0, root, segs);
    WalkGrows(rx, t0, root, segs);
    GrownAddsNodes(t, r, t');
    BindingKeepsNodes(t, r, t', end.value);
  }

  lemma IsClosed(t: Routes)
    requires WellFormed(t)
    ensures Closed(t)
  {
  }

  lemma AcceptedAdds(rx: Regexps, t: Routes, r: Registration)
    requires WellFormed(t) && AddRoute(rx, t, r).1
    ensures Accepts(rx, t, r) && WellFormed(AddRoute(rx, t, r).0)
    ensures Adds(t, r, AddRoute(rx, t, r).0)
  {
    hide AddRoute, WellFormed, Registrable, PatternSegs, Target, AddsNodes;
    IsClosed(t);
    AddRouteRefinesFlatMap(rx, t, r);
    AcceptedNodes(rx, t, r);
    forall x <- t | x.Down? && x.key.Regex? && Touches(r, x)
      ensures x.up in t && t[x.up].paramName == NameOf(SegAt(r, x))
    {
      UsedRegexEdge(rx, t, Root(r.verb), PatternSegs(r.path), x);
    }
  }

  // A regex node both registrations create carries the same name from either
  // side: each, coming second, had to match the name of the common parent.
  lemma {:induction false} SharedNodesAgree(t: Routes, a: Registration, b: Registration, ta: Routes, tb: Routes, x: Loc)
    requires a.path != "" && b.path != "" && Touches(a, x) && Touches(b, x)
    requires AddsNodes(t, a, ta) && AddsNodes(t, b, tb)
    requires RegexEdgesAllowed(ta, b) && RegexEdgesAllowed(tb, a)
    ensures x in ta && x in tb && Label(ta[x]) == Label(tb[x])
  {
    if x.Down? && x !in t {
      if x.key.Regex? {
        if x.up != Root(a.verb) { OnPathUp(Root(a.verb), PatternSegs(a.path), x); }
        if x.up != Root(b.verb) { OnPathUp(Root(b.verb), PatternSegs(b.path), x); }
        SharedNodesAgree(t, a, b, ta, tb, x.up);
        assert ta[x.up].paramName == tb[x.up].paramName;
      }
      KeyAndNameDetermineSegment(SegAt(a, x), SegAt(b, x));
    }
  }

  lemma SameLabels(t: Routes, a: Registration, b: Registration, ta: Routes, tb: Routes, tab: Routes, tba: Routes)
    requires Adds(t, a, ta) && Adds(ta, b, tab) && Adds(t, b, tb) && Adds(tb, a, tba)
    ensures tab.Keys == tba.Keys && forall x <- tab :: Label(tab[x]) == Label(tba[x])
  {
    forall x ensures x in tab <==> x in tba {}
    forall x <- tab ensures Label(tab[x]) == Label(tba[x]) {
      if Touches(a, x) && Touches(b, x) { SharedNodesAgree(t, a, b, ta, tb, x); }
    }
  }

  lemma SameBindings(t: Routes, a: Registration, b: Registration, ta: Routes, tb: Routes, tab: Routes, tba: Routes)
    requires a.path != "" && "" !in PatternSegs(a.path) && b.path != "" && "" !in PatternSegs(b.path)
    requires Rebinds(t, a, ta) && Rebinds(ta, b, tab) && Rebinds(t, b, tb) && Rebinds(tb, a, tba)
    ensures TargetOf(a) != TargetOf(b) || a.mws + b.mws == b.mws + a.mws
      <==> forall x :: Binding(tab, x) == Binding(tba, x)
  {
    var p, q := TargetOf(a), TargetOf(b);
    if p != q {
      forall x ensures Binding(tab, x) == Binding(tba, x) {
        assert Binding(ta, x) == Binding(t, x) || x == p;
        assert Binding(tb, x) == Binding(t, x) || x == q;
      }
    } else {
      var m := Binding(t, p).1;
      assert Binding(ta, p) == (a.handler, m + a.mws) && Binding(tb, p) == (b.handler, m + b.mws);
      assert Binding(tab, p).1 == m + (a.mws + b.mws) && Binding(tba, p).1 == m + (b.mws + a.mws);
      AppendInjective(m, a.mws + b.mws, b.mws + a.mws);
      assert forall x :: x != p ==> Binding(tab, x) == Binding(tba, x);
      assert Binding(tab, p) == Binding(tba, p) <==> a.mws + b.mws == b.mws + a.mws;
    }
  }

  lemma AppendInjective<T>(m: seq<T>, u: seq<T>, v: seq<T>)
    ensures m + u == m + v <==> u == v
  {
    assert (m + u)[|m|..] == u && (m + v)[|m|..] == v;
  }

  // When both orders are accepted they give the same table, except that two
  // registrations for one location append their middleware in call order.
  lemma RegistrationsCommute(rx: Regexps, t: Routes, a: Registration, b: Registration)
    requires WellFormed(t)
    requires AddRoute(rx, t, a).1 && AddRoute(rx, AddRoute(rx, t, a).0, b).1
    requires AddRoute(rx, t, b).1 && AddRoute(rx, AddRoute(rx, t, b).0, a).1
    ensures Accepts(rx, t, a) && Accepts(rx, t, b)
    ensures AddRoute(rx, AddRoute(rx, t, a).0, b).0 == AddRoute(rx, AddRoute(rx, t, b).0, a).0
      <==> TargetOf(a) != TargetOf(b) || a.mws + b.mws == b.mws + a.mws
  {
    var ta, tb := AddRoute(rx, t, a).0, AddRoute(rx, t, b).0;
    var tab, tba := AddRoute(rx, ta, b).0, AddRoute(rx, tb, a).0;
    AcceptedAdds(rx, t, a);
    AcceptedAdds(rx, t, b);
    AcceptedAdds(rx, ta, b);
    AcceptedAdds(rx, tb, a);
    EqualTables(t, a, b, ta, tb, tab, tba);
  }

  lemma EqualTables(t: Routes, a: Registration, b: Registration, ta: Routes, tb: Routes, tab: Routes, tba: Routes)
    requires Adds(t, a, ta) && Adds(ta, b, tab) && Adds(t, b, tb) && Adds(tb, a, tba)
    ensures tab == tba <==> TargetOf(a) != TargetOf(b) || a.mws + b.mws == b.mws + a.mws
  {
    SameLabels(t, a, b, ta, tb, tab, tba);
    SameBindings(t, a, b, ta, tb, tab, tba);
    if forall x :: Binding(tab, x) == Binding(tba, x) {
      forall x <- tab ensures tab[x] == tba[x] {
        assert Binding(tab, x) == Binding(tba, x);
      }
      assert tab == tba;
    }
  }
}
