// The early exit of findRoute at a star, whose middleware walk starts at the
// star instead of the root.
module RoutingStars {
  import opened Wrappers
  import opened Segments
  import opened Routing
  import opened RoutingLookup

  // No node above `l` has middleware.
  ghost predicate PlainAbove(t: Routes, l: Loc) {
    l.Down? ==> l.up in t && t[l.up].mws == [] && PlainAbove(t, l.up)
  }

  lemma {:induction false} EmptyFrontier(rx: Regexps, t: Routes, l: Loc, segs: seq<string>, n: nat)
    requires 0 < n <= |segs| && Kids(rx, t, l, segs[0]) == []
    ensures Frontier(rx, t, l, segs, n) == []
  {
    if n == 1 {
      assert Frontier(rx, t, l, segs, 0) == [l];
      assert NextLevel(rx, t, [l], 1, segs[0]) == NextLevel(rx, t, [l], 0, segs[0]) + Kids(rx, t, l, segs[0]);
    } else {
      EmptyFrontier(rx, t, l, segs, n - 1);
    }
  }

  lemma {:induction false} OwnMiddlewareOnly(rx: Regexps, t: Routes, l: Loc, segs: seq<string>, n: nat)
    requires l in t && n <= |segs| && (segs != [] ==> Kids(rx, t, l, segs[0]) == [])
    ensures Middlewares(rx, t, l, segs, n) == t[l].mws
  {
    if n == 0 {
      assert [l][..0] == [] && MwsOf(t, [l]) == [] + t[l].mws;
    } else {
      OwnMiddlewareOnly(rx, t, l, segs, n - 1);
      EmptyFrontier(rx, t, l, segs, n);
    }
  }

  lemma ExtendChain(t: Routes, l: Loc, a: seq<Middleware>)
    requires l in t && l.Down? && HoldsChain(t, l.up, a)
    ensures HoldsChain(t, l, a + t[l].mws)
  {
    var b: seq<Middleware> := [];
    assert a + t[l].mws == a + b + t[l].mws;
  }

  // A list without any middleware holds the chain of plain nodes only.
  lemma {:induction false} EmptyChain(t: Routes, l: Loc)
    ensures HoldsChain(t, l, []) <==> l in t && t[l].mws == [] && PlainAbove(t, l)
  {
    if l.Down? {
      EmptyChain(t, l.up);
      if HoldsChain(t, l, []) {
        var a: seq<Middleware>, b: seq<Middleware> :| [] == a + b + t[l].mws && HoldsChain(t, l.up, a);
        assert a == [];
      }
      if l in t && t[l].mws == [] && PlainAbove(t, l) {
        ExtendChain(t, l, []);
        assert [] + t[l].mws == [];
      }
    }
  }

  // A walk that ends early at a star with no child for the first segment of the
  // request returns the star's own middleware, which is that of all walked nodes
  // exactly when no node above the star has any.
  lemma StarMiddleware(rx: Regexps, t: Routes, l: Loc, segs: seq<string>)
    requires l in t && AtStar(l) && segs != [] && Kids(rx, t, l, segs[0]) == []
    ensures Middlewares(rx, t, l, segs, |segs|) == t[l].mws
    ensures HoldsChain(t, l, Middlewares(rx, t, l, segs, |segs|)) <==> PlainAbove(t, l)
  {
    OwnMiddlewareOnly(rx, t, l, segs, |segs|);
    EmptyChain(t, l.up);
    if HoldsChain(t, l, t[l].mws) {
      var a: seq<Middleware>, b: seq<Middleware> :| t[l].mws == a + b + t[l].mws && HoldsChain(t, l.up, a);
      assert |a| + |b| == 0 && a == [];
    }
    if PlainAbove(t, l) {
      ExtendChain(t, l, []);
      assert [] + t[l].mws == t[l].mws;
    }
  }

  // ---------- an input ----------

  // `/a` with one middleware, then `/a/*`.
  function TwoRoutes(): seq<Registration> {
    [Registration("GET", "/a", Some(1), [7]), Registration("GET", "/a/*", Some(2), [])]
  }

  function NodeA(): Loc { Down(Root("GET"), Static("a")) }

  function NodeStar(): Loc { Down(NodeA(), Star) }

  lemma SplitLetter(c: char)
    requires c != '/'
    ensures Split([c]) == [[c]]
  {
    assert [c][1..] == "";
    assert Split("") == [""];
    assert [c] + "" == [c];
  }

  lemma SplitLetterAnd(c: char, rest: string)
    requires c != '/'
    ensures Split([c] + "/" + rest) == [[c]] + Split(rest)
  {
    var s := [c] + "/" + rest;
    assert s[1..] == "/" + rest && ("/" + rest)[1..] == rest;
    assert Split("/" + rest) == [""] + Split(rest);
    assert [c] + "" == [c];
  }

  lemma FirstRoute(rx: Regexps)
    ensures AddRoute(rx, map[], TwoRoutes()[0]).0 ==
            map[Root("GET") := Info("/", "", None, []), NodeA() := Info("a", "", Some(1), [7])]
  {
    SplitLetter('a');
    assert "/a"[1..] == "a";
    var t := WithRoot(map[], "GET");
    assert ["a"][1..] == [];
    assert ChildOrCreate(rx, t, Root("GET"), "a") == Some((t[NodeA() := Bare("a")], NodeA()));
    assert Walk(rx, t, Root("GET"), ["a"]) == (t[NodeA() := Bare("a")], Some(NodeA())) by {
      assert Walk(rx, t[NodeA() := Bare("a")], NodeA(), []) == (t[NodeA() := Bare("a")], Some(NodeA()));
    }
    assert Bind(Bare("a"), TwoRoutes()[0]) == Info("a", "", Some(1), [7]);
  }

  lemma SecondRoute(rx: Regexps, t: Routes)
    requires t == map[Root("GET") := Info("/", "", None, []), NodeA() := Info("a", "", Some(1), [7])]
    ensures AddRoute(rx, t, TwoRoutes()[1]).0 == t[NodeStar() := Info("*", "", Some(2), [])]
  {
    SplitLetter('*');
    SplitLetterAnd('a', "*");
    assert "/a/*"[1..] == "a/*" == ['a'] + "/" + "*";
    assert PatternSegs("/a/*") == ["a", "*"];
    assert ["a", "*"][1..] == ["*"] && ["*"][1..] == [];
    assert !HasNonStatic(t, NodeA());
    assert ChildOrCreate(rx, t, Root("GET"), "a") == Some((t, NodeA()));
    assert ChildOrCreate(rx, t, NodeA(), "*") == Some((t[NodeStar() := Bare("*")], NodeStar()));
    assert Walk(rx, t, NodeA(), ["*"]) == (t[NodeStar() := Bare("*")], Some(NodeStar()));
    assert Walk(rx, t, Root("GET"), ["a", "*"]) == (t[NodeStar() := Bare("*")], Some(NodeStar()));
    assert Bind(Bare("*"), TwoRoutes()[1]) == Info("*", "", Some(2), []);
    assert WithRoot(t, "GET") == t;
  }

  lemma StarTable(rx: Regexps)
    ensures Run(rx, TwoRoutes()) == map[Root("GET") := Info("/", "", None, []), NodeA() := Info("a", "", Some(1), [7]),
                                        NodeStar() := Info("*", "", Some(2), [])]
  {
    hide AddRoute;
    var regs := TwoRoutes();
    assert regs[..1] == [regs[0]] && [regs[0]][..0] == [];
    assert Run(rx, [regs[0]]) == AddRoute(rx, map[], regs[0]).0;
    FirstRoute(rx);
    SecondRoute(rx, Run(rx, [regs[0]]));
  }

  // A request for `/a/b/c` is served by the star without the middleware of `/a`.
  lemma StarDropsMiddleware(rx: Regexps, t: Routes)
    requires t == Run(rx, TwoRoutes())
    ensures NodeA() in t && t[NodeA()].mws == [7]
    ensures FindRoute(rx, t, "GET", "/a/b/c") == Some(Match(NodeStar(), map[], []))
    ensures !HoldsChain(t, NodeStar(), [])
  {
    hide Run, TwoRoutes, HoldsChain, Middlewares, Bindings, EndsAt, PlainAbove, Split, Trim, Kids;
    StarTable(rx);
    SplitRequest();
    var segs := ["a", "b", "c"];
    StarWalk(rx, t, segs);
    LookupIsGreedy(rx, t, "GET", "/a/b/c", segs, NodeStar());
    StarMiddleware(rx, t, NodeStar(), segs);
  }

  lemma SplitRequest()
    ensures Split(Trim("/a/b/c")) == ["a", "b", "c"]
  {
    TrimRequest();
    SplitLetter('c');
    SplitLetterAnd('b', "c");
    SplitLetterAnd('a', "b/c");
    assert "b/c" == ['b'] + "/" + "c" && "a/b/c" == ['a'] + "/" + "b/c";
  }

  lemma TrimRequest()
    ensures Trim("/a/b/c") == "a/b/c"
  {
    assert "/a/b/c"[1..] == "a/b/c";
  }

  lemma StarWalk(rx: Regexps, t: Routes, segs: seq<string>)
    requires segs == ["a", "b", "c"]
    requires t == map[Root("GET") := Info("/", "", None, []), NodeA() := Info("a", "", Some(1), [7]),
                      NodeStar() := Info("*", "", Some(2), [])]
    ensures EndsAt(rx, t, "GET", segs, NodeStar()) && Bindings(t, NodeStar(), segs) == map[]
    ensures Kids(rx, t, NodeStar(), "a") == [] && !PlainAbove(t, NodeStar())
  {
    assert Greedy(rx, t, Root("GET"), segs);
    assert Down(NodeA(), Star) in t;
    assert NonStaticKey(t, NodeA()) == Some(Star);
    assert Greedy(rx, t, NodeA(), segs);
    assert ChildOf(rx, t, NodeA(), "b") == Some(NodeStar());
    assert !HasNonStatic(t, NodeStar());
    assert ChildOf(rx, t, NodeStar(), "c") == None;
    assert Bindings(t, Root("GET"), segs) == map[] && Bindings(t, NodeA(), segs) == map[];
  }
}
