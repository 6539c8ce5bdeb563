// Which middleware a lookup returns: that of every node matching the request,
// level by level.
module RoutingMiddleware {
  import opened Wrappers
  import opened Segments
  import opened Routing
  import opened RoutingLookup

  // `x` lies `n` levels below `l` and its keys take the first `n` segments of
  // the whole request.
  ghost predicate Under(rx: Regexps, t: Routes, l: Loc, x: Loc, segs: seq<string>, n: nat)
    requires n <= |segs|
  {
    if n == 0 then x == l
    else x in t && x.Down? && Takes(rx, x.key, segs[n - 1]) && Under(rx, t, l, x.up, segs, n - 1)
  }

  // Whatever node the middleware walk starts at, it starts the request over: it
  // visits the nodes below that node which match from the first segment on.
  lemma {:induction false} WalkStartsOver(rx: Regexps, t: Routes, l: Loc, segs: seq<string>, n: nat, x: Loc)
    requires Exclusive(t) && n <= |segs|
    ensures x in Frontier(rx, t, l, segs, n) <==> Under(rx, t, l, x, segs, n)
  {
    hide NextLevel, Takes, Exclusive;
    if n > 0 {
      var level := Frontier(rx, t, l, segs, n - 1);
      NextLevelExact(rx, t, level, |level|, segs[n - 1], x);
      assert level[..|level|] == level;
      if x.Down? { WalkStartsOver(rx, t, l, segs, n - 1, x.up); }
    }
  }

  // From the root these are the nodes of that depth which match.
  lemma {:induction false} UnderRoot(rx: Regexps, t: Routes, verb: string, segs: seq<string>, n: nat, x: Loc)
    requires Closed(t) && Root(verb) in t && n <= |segs|
    ensures Under(rx, t, Root(verb), x, segs, n) <==> x in t && Verb(x) == verb && Depth(x) == n && Matches(rx, x, segs)
  {
    hide Takes;
    if n > 0 && x.Down? {
      UnderRoot(rx, t, verb, segs, n - 1, x.up);
    }
  }

  // ---------- the list ----------

  // `level` lists the nodes `n` levels below `l`, non-static branches first.
  ghost predicate IsLevel(rx: Regexps, t: Routes, l: Loc, segs: seq<string>, n: nat, level: seq<Loc>)
    requires n <= |segs|
  {
    Ordered(level) && forall x :: x in level <==> Under(rx, t, l, x, segs, n)
  }

  // The middleware of nodes, one after another.
  ghost function Gather(t: Routes, nodes: seq<Loc>): seq<Middleware> {
    if nodes == [] then [] else (if nodes[0] in t then t[nodes[0]].mws else []) + Gather(t, nodes[1..])
  }

  ghost function GatherAll(t: Routes, levels: seq<seq<Loc>>): seq<Middleware> {
    if levels == [] then [] else Gather(t, levels[0]) + GatherAll(t, levels[1..])
  }

  lemma {:induction false} GatherSnoc(t: Routes, nodes: seq<Loc>, x: Loc)
    ensures Gather(t, nodes + [x]) == Gather(t, nodes) + (if x in t then t[x].mws else [])
  {
    if nodes == [] {
      assert ([] + [x])[1..] == [] && [] + [x] == [x];
    } else {
      assert (nodes + [x])[1..] == nodes[1..] + [x];
      GatherSnoc(t, nodes[1..], x);
    }
  }

  lemma {:induction false} GatherAllSnoc(t: Routes, levels: seq<seq<Loc>>, level: seq<Loc>)
    ensures GatherAll(t, levels + [level]) == GatherAll(t, levels) + Gather(t, level)
  {
    if levels == [] {
      assert [] + [level] == [level] && [level][1..] == [];
    } else {
      assert (levels + [level])[1..] == levels[1..] + [level];
      GatherAllSnoc(t, levels[1..], level);
    }
  }

  lemma {:induction false} GatherIsMwsOf(t: Routes, nodes: seq<Loc>)
    ensures MwsOf(t, nodes) == Gather(t, nodes)
  {
    if nodes != [] {
      var n := |nodes| - 1;
      GatherIsMwsOf(t, nodes[..n]);
      GatherSnoc(t, nodes[..n], nodes[n]);
      assert nodes[..n] + [nodes[n]] == nodes;
    }
  }

  lemma {:induction false} BeforeOneWay(l: Loc, m: Loc)
    requires Before(l, m)
    ensures !Before(m, l)
  {
    if l.up != m.up {
      BeforeOneWay(l.up, m.up);
    }
  }

  // An order leaves one way to list a set of nodes.
  lemma {:induction false} OneOrder(f: seq<Loc>, g: seq<Loc>)
    requires Ordered(f) && Ordered(g) && forall x :: x in f <==> x in g
    ensures f == g
    decreases |f|
  {
    if f == [] {
      assert forall i :: 0 <= i < |g| ==> g[i] in g;
    } else {
      assert f[0] in g && g != [] && g[0] in f;
      SameHead(f, g);
      OrderedIsDistinct(f);
      OrderedIsDistinct(g);
      forall x ensures x in f[1..] <==> x in g[1..] {
        assert x in f <==> x == f[0] || x in f[1..];
        assert x in g <==> x == g[0] || x in g[1..];
      }
      OneOrder(f[1..], g[1..]);
      assert f == [f[0]] + f[1..] && g == [g[0]] + g[1..];
    }
  }

  lemma SameHead(f: seq<Loc>, g: seq<Loc>)
    requires Ordered(f) && Ordered(g) && f != [] && g != [] && f[0] in g && g[0] in f
    ensures f[0] == g[0]
  {
    var i :| 0 <= i < |g| && g[i] == f[0];
    var j :| 0 <= j < |f| && f[j] == g[0];
    if i > 0 && j > 0 {
      BeforeOneWay(f[0], f[j]);
    }
  }

  lemma OrderedIsDistinct(f: seq<Loc>)
    requires Ordered(f) && f != []
    ensures f[0] !in f[1..] && Ordered(f[1..])
  {
    forall i | 1 <= i < |f| ensures f[i] != f[0] {
      BeforeIsStrict(f[0]);
    }
  }

  lemma LevelIsFrontier(rx: Regexps, t: Routes, l: Loc, segs: seq<string>, n: nat, level: seq<Loc>)
    requires Exclusive(t) && n <= |segs| && IsLevel(rx, t, l, segs, n, level)
    ensures level == Frontier(rx, t, l, segs, n)
  {
    hide Under, Exclusive, Frontier;
    FrontierOrdered(rx, t, l, segs, n);
    forall x ensures x in level <==> x in Frontier(rx, t, l, segs, n) {
      WalkStartsOver(rx, t, l, segs, n, x);
    }
    OneOrder(level, Frontier(rx, t, l, segs, n));
  }

  // Each level adds the middleware of its nodes, in their order.
  lemma LevelAdds(rx: Regexps, t: Routes, l: Loc, segs: seq<string>, n: nat, level: seq<Loc>)
    requires Exclusive(t) && n <= |segs| && IsLevel(rx, t, l, segs, n, level)
    ensures Middlewares(rx, t, l, segs, n) ==
            if n == 0 then Gather(t, level) else Middlewares(rx, t, l, segs, n - 1) + Gather(t, level)
  {
    LevelIsFrontier(rx, t, l, segs, n, level);
    GatherIsMwsOf(t, level);
  }

  // All levels of a request below `l`.
  ghost predicate AreLevels(rx: Regexps, t: Routes, l: Loc, segs: seq<string>, levels: seq<seq<Loc>>) {
    |levels| == |segs| + 1 && forall n :: 0 <= n <= |segs| ==> IsLevel(rx, t, l, segs, n, levels[n])
  }

  lemma {:induction false} FirstLevels(rx: Regexps, t: Routes, l: Loc, segs: seq<string>, levels: seq<seq<Loc>>, n: nat)
    requires Exclusive(t) && AreLevels(rx, t, l, segs, levels) && n <= |segs|
    ensures Middlewares(rx, t, l, segs, n) == GatherAll(t, levels[..n + 1])
  {
    hide IsLevel, Exclusive, Middlewares;
    LevelAdds(rx, t, l, segs, n, levels[n]);
    assert levels[..n + 1] == levels[..n] + [levels[n]];
    GatherAllSnoc(t, levels[..n], levels[n]);
    if n == 0 {
      assert levels[..0] == [] && [] + Gather(t, levels[0]) == Gather(t, levels[0]);
    } else {
      FirstLevels(rx, t, l, segs, levels, n - 1);
    }
  }

  // The list of findMdls is the middleware of all levels.
  lemma CollectsLevels(rx: Regexps, t: Routes, l: Loc, segs: seq<string>, levels: seq<seq<Loc>>)
    requires Exclusive(t) && AreLevels(rx, t, l, segs, levels)
    ensures Middlewares(rx, t, l, segs, |segs|) == GatherAll(t, levels)
  {
    FirstLevels(rx, t, l, segs, levels, |segs|);
    assert levels[..|segs| + 1] == levels;
  }

  // There always are such levels.
  lemma LevelsExist(rx: Regexps, t: Routes, l: Loc, segs: seq<string>)
    requires Exclusive(t)
    ensures AreLevels(rx, t, l, segs, seq(|segs| + 1, n requires 0 <= n <= |segs| => Frontier(rx, t, l, segs, n)))
  {
    hide Under, Exclusive, Frontier;
    forall n | 0 <= n <= |segs| ensures IsLevel(rx, t, l, segs, n, Frontier(rx, t, l, segs, n)) {
      FrontierOrdered(rx, t, l, segs, n);
      forall x ensures x in Frontier(rx, t, l, segs, n) <==> Under(rx, t, l, x, segs, n) {
        WalkStartsOver(rx, t, l, segs, n, x);
      }
    }
  }

  // ---------- what a lookup returns ----------

  // The nodes of a method that match the request, by depth; of one depth in
  // the order of the walk.
  ghost predicate MatchingLevels(rx: Regexps, t: Routes, verb: string, segs: seq<string>, levels: seq<seq<Loc>>) {
    && |levels| == |segs| + 1
    && forall n :: 0 <= n <= |segs| ==>
         Ordered(levels[n]) &&
         forall x :: x in levels[n] <==> x in t && Verb(x) == verb && Depth(x) == n && Matches(rx, x, segs)
  }

  // A request that is used up gets the middleware of every node that matches it
  // to any depth, whether or not the lookup went through that node.
  lemma FoundWithAllMatching(rx: Regexps, t: Routes, verb: string, path: string, levels: seq<seq<Loc>>)
    requires WellFormed(t) && path != "/" && MatchingLevels(rx, t, verb, Split(Trim(path)), levels)
    ensures var m := FindRoute(rx, t, verb, path);
      m.Some? && Depth(m.value.loc) == |Split(Trim(path))| ==> m.value.mws == GatherAll(t, levels)
  {
    hide Matches, Trim, Split, Middlewares, Frontier, Bindings, EndsAt;
    var segs := Split(Trim(path));
    if Root(verb) in t {
      forall n | 0 <= n <= |segs| ensures IsLevel(rx, t, Root(verb), segs, n, levels[n]) {
        forall x ensures x in levels[n] <==> Under(rx, t, Root(verb), x, segs, n) {
          UnderRoot(rx, t, verb, segs, n, x);
        }
      }
      CollectsLevels(rx, t, Root(verb), segs, levels);
      WalkEnds(rx, t, verb, segs);
      var l :| EndsAt(rx, t, verb, segs, l);
      LookupIsGreedy(rx, t, verb, path, segs, l);
      EndDepth(rx, t, verb, segs, l);
    }
  }

  lemma EndDepth(rx: Regexps, t: Routes, verb: string, segs: seq<string>, l: Loc)
    requires EndsAt(rx, t, verb, segs, l)
    ensures Depth(l) <= |segs|
  {
    GreedyFits(rx, t, l, segs);
  }

  // Any other request that is served gets that of the nodes below the star it
  // ended at which match it from its first segment on.
  lemma FoundAtStar(rx: Regexps, t: Routes, verb: string, path: string, levels: seq<seq<Loc>>)
    requires WellFormed(t) && path != "/"
    ensures var m, segs := FindRoute(rx, t, verb, path), Split(Trim(path));
      m.Some? && Depth(m.value.loc) < |segs| && AreLevels(rx, t, m.value.loc, segs, levels) ==>
        AtStar(m.value.loc) && m.value.mws == GatherAll(t, levels)
  {
    hide Trim, Split, Middlewares, Frontier, Bindings, EndsAt, AreLevels;
    var m, segs := FindRoute(rx, t, verb, path), Split(Trim(path));
    if Root(verb) in t {
      WalkEnds(rx, t, verb, segs);
      var l :| EndsAt(rx, t, verb, segs, l);
      LookupIsGreedy(rx, t, verb, path, segs, l);
      EndDepth(rx, t, verb, segs, l);
      if m.Some? && Depth(m.value.loc) < |segs| && AreLevels(rx, t, m.value.loc, segs, levels) {
        CollectsLevels(rx, t, m.value.loc, segs, levels);
      }
    }
  }

  // The root serves itself with its own middleware, and nothing is served for a
  // method without routes.
  lemma RootAndUnknown(rx: Regexps, t: Routes, verb: string, path: string)
    ensures Root(verb) !in t ==> FindRoute(rx, t, verb, path) == None
    ensures Root(verb) in t ==> FindRoute(rx, t, verb, "/") == Some(Match(Root(verb), map[], t[Root(verb)].mws))
  {
  }
}
