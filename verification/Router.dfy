// The router of homework2/route.go as linked nodes updated in place, proved
// against the flat table of module Routing.
module Router {
  import opened Wrappers
  import opened Segments
  import opened Routing
  import opened RoutingMiddleware

  datatype NodeType = StaticNode | RegNode | ParamNode | AnyNode

  function TypeOf(l: Loc): NodeType {
    if l.Root? then StaticNode else
      match l.key
      case Static(_) => StaticNode
      case Regex(_) => RegNode
      case Param(_) => ParamNode
      case Star => AnyNode
  }

  ghost function One(n: Node?): seq<Node> {
    if n == null then [] else [n]
  }

  ghost function MwsOfNode(n: Node?): seq<Middleware>
    reads n
  {
    if n == null then [] else n.mws
  }

  class Node {
    ghost const at: Loc
    const typ: NodeType
    const path: string
    const paramName: string
    const regExpr: string
    var children: map<string, Node>
    var starChild: Node?
    var paramChild: Node?
    var regChild: Node?
    var handler: Option<Handler>
    var mws: seq<Middleware>

    constructor (path: string, typ: NodeType, paramName: string, regExpr: string, ghost at: Loc)
      ensures this.at == at
      ensures this.path == path && this.typ == typ && this.paramName == paramName && this.regExpr == regExpr
      ensures Contents() == Info(path, paramName, None, []) && Childless() && Exclusive()
    {
      this.at := at;
      this.path, this.typ, this.paramName, this.regExpr := path, typ, paramName, regExpr;
      children, starChild, paramChild, regChild := map[], null, null, null;
      handler, mws := None, [];
    }

    // The child a key selects.
    function Slot(k: Key): Node?
      reads this
    {
      match k
      case Static(name) => if name in children then children[name] else null
      case Regex(expr) => if regChild != null && regChild.regExpr == expr then regChild else null
      case Param(pattern) => if paramChild != null && paramChild.path == pattern then paramChild else null
      case Star => starChild
    }

    // Only one kind of non-static child, as the panics guarantee.
    predicate Exclusive()
      reads this
    {
      && (starChild != null ==> regChild == null && paramChild == null)
      && (regChild != null ==> paramChild == null)
    }

    ghost predicate NoNonStatic()
      reads this
    {
      forall k: Key :: !k.Static? ==> Slot(k) == null
    }

    ghost predicate Childless()
      reads this
    {
      forall k :: Slot(k) == null
    }

    ghost function Contents(): Info
      reads this
    {
      Info(path, paramName, handler, mws)
    }

    // The fixed fields fit the location.
    ghost predicate Fits()
    {
      typ == TypeOf(at) && (at.Down? && at.key.Regex? ==> regExpr == at.key.expr)
    }

    lemma NonStaticSlots()
      requires Exclusive()
      ensures NoNonStatic() <==> starChild == null && paramChild == null && regChild == null
    {
      assert Slot(Star) == starChild;
      if paramChild != null { assert Slot(Param(paramChild.path)) != null; }
      if regChild != null { assert Slot(Regex(regChild.regExpr)) != null; }
    }

    // childOfNonStatic: regex, then parameter, then star.
    function ChildOfNonStatic(rx: Regexps, seg: string): Node?
      reads this
    {
      if regChild != null && rx.matches(regChild.regExpr, seg) then regChild
      else if paramChild != null then paramChild
      else starChild
    }

    function ChildOf(rx: Regexps, seg: string): Node?
      reads this
    {
      if seg in children then children[seg] else ChildOfNonStatic(rx, seg)
    }

    // The same choice as findMdls makes it: star, then regex, then parameter.
    function BranchOf(rx: Regexps, seg: string): Node?
      reads this
    {
      if starChild != null then starChild
      else if regChild != null then if rx.matches(regChild.regExpr, seg) then regChild else null
      else paramChild
    }

    // The two test orders agree on every segment because the panics leave at
    // most one non-static child.
    lemma TestOrdersAgree(rx: Regexps)
      requires Exclusive()
      ensures forall seg :: BranchOf(rx, seg) == ChildOfNonStatic(rx, seg)
    {}

    // The body of the inner loop of findMdls: append this node's matching
    // children and their middleware.
    method Visit(rx: Regexps, seg: string, next: seq<Node>, mws: seq<Middleware>)
      returns (next': seq<Node>, mws': seq<Middleware>)
      ensures next' == next + (One(BranchOf(rx, seg)) + One(Slot(Static(seg))))
      ensures mws' == mws + (MwsOfNode(BranchOf(rx, seg)) + MwsOfNode(Slot(Static(seg))))
    {
      next', mws' := next, mws;
      if starChild != null {
        mws' := mws' + starChild.mws;
        next' := next' + [starChild];
      } else if regChild != null {
        if rx.matches(regChild.regExpr, seg) {
          mws' := mws' + regChild.mws;
          next' := next' + [regChild];
        }
      } else if paramChild != null {
        mws' := mws' + paramChild.mws;
        next' := next' + [paramChild];
      }
      if seg in children {
        var v := children[seg];
        mws' := mws' + v.mws;
        next' := next' + [v];
      }
    }

    // What addRoute does at the end of its walk.
    method Bind(handler: Option<Handler>, mws: seq<Middleware>)
      modifies this`handler, this`mws
      ensures this.handler == handler && this.mws == old(this.mws) + mws
      ensures Exclusive() == old(Exclusive()) && forall k :: Slot(k) == old(Slot(k))
    {
      assert this.mws + [] == this.mws;
      this.handler := handler;
      if |mws| > 0 {
        this.mws := this.mws + mws;
      }
    }

    // childOrCreate and its two helpers; None is a panic.
    method ChildOrCreate(rx: Regexps, seg: string) returns (r: Option<Node>)
      requires seg != "" && Exclusive()
      modifies this
      ensures Exclusive() && Contents() == old(Contents())
      ensures forall k :: k != KeyOf(seg) ==> Slot(k) == old(Slot(k))
      ensures r.Some? <==>
        var k := KeyOf(seg);
        if old(Slot(k)) != null then k.Regex? ==> paramName == NameOf(seg)
        else k.Static? || (old(NoNonStatic()) && (k.Regex? ==> rx.compiles(k.expr)))
      ensures r.Some? ==> r.value == Slot(KeyOf(seg))
      ensures r.None? || old(Slot(KeyOf(seg))) != null ==> Slot(KeyOf(seg)) == old(Slot(KeyOf(seg)))
      ensures r.Some? && old(Slot(KeyOf(seg))) == null ==>
        && fresh(r.value) && r.value.at == Down(at, KeyOf(seg)) && r.value.Fits()
        && r.value.Contents() == Bare(seg) && r.value.Childless() && r.value.Exclusive()
    {
      NonStaticSlots();
      if seg == "*" {
        if paramChild != null { return None; }
        if regChild != null { return None; }
        if starChild == null {
          starChild := new Node(seg, AnyNode, "", "", Down(at, Star));
        }
        return Some(starChild);
      }
      if seg[0] == ':' {
        var (name, expr) := ParseParam(seg);
        if expr.Some? {
          r := ChildOrCreateReg(rx, seg, expr.value, name);
        } else {
          r := ChildOrCreateParam(seg, name);
        }
        return;
      }
      if seg !in children {
        var child := new Node(seg, StaticNode, "", "", Down(at, Static(seg)));
        children := children[seg := child];
      }
      return Some(children[seg]);
    }

    method ChildOrCreateParam(path: string, name: string) returns (r: Option<Node>)
      requires Exclusive()
      modifies this`paramChild
      ensures r.Some? <==>
        regChild == null && starChild == null && (old(paramChild) != null ==> old(paramChild).path == path)
      ensures r.Some? && old(paramChild) == null ==>
        && paramChild != null && fresh(paramChild) && paramChild.at == Down(at, Param(path)) && paramChild.Fits()
        && paramChild.Contents() == Info(path, name, None, []) && paramChild.Exclusive() && paramChild.Childless()
      ensures r.Some? ==> r.value == paramChild
      ensures r.None? || old(paramChild) != null ==> paramChild == old(paramChild)
    {
      if regChild != null { return None; }
      if starChild != null { return None; }
      if paramChild != null {
        if paramChild.path != path { return None; }
      } else {
        paramChild := new Node(path, ParamNode, name, "", Down(at, Param(path)));
      }
      return Some(paramChild);
    }

    method ChildOrCreateReg(rx: Regexps, path: string, expr: string, name: string) returns (r: Option<Node>)
      requires Exclusive()
      modifies this`regChild
      ensures r.Some? <==>
        && starChild == null && paramChild == null
        && if old(regChild) != null then old(regChild).regExpr == expr && paramName == name else rx.compiles(expr)
      ensures r.Some? && old(regChild) == null ==>
        && regChild != null && fresh(regChild) && regChild.at == Down(at, Regex(expr)) && regChild.Fits()
        && regChild.Contents() == Info(path, name, None, []) && regChild.Exclusive() && regChild.Childless()
      ensures r.Some? ==> r.value == regChild
      ensures r.None? || old(regChild) != null ==> regChild == old(regChild)
    {
      if starChild != null { return None; }
      if paramChild != null { return None; }
      if regChild != null {
        if regChild.regExpr != expr || paramName != name { return None; }
      } else {
        if !rx.compiles(expr) { return None; }
        regChild := new Node(path, RegNode, name, expr, Down(at, Regex(expr)));
      }
      return Some(regChild);
    }
  }

  datatype MatchInfo = MatchInfo(n: Node, pathParams: map<string, string>, mws: seq<Middleware>)

  class Router {
    const rx: Regexps
    var trees: map<string, Node>
    // Every node of the trees, by location.
    ghost var nodes: map<Loc, Node>

    ghost function At(l: Loc): Node?
      reads this
    {
      if l in nodes then nodes[l] else null
    }

    ghost predicate Has(n: Node)
      reads this
    {
      n.at in nodes && nodes[n.at] == n
    }

    ghost predicate Linked(l: Loc)
      requires l in nodes
      reads this, nodes.Values
    {
      && nodes[l].at == l && nodes[l].Fits() && nodes[l].Exclusive()
      && forall k :: nodes[l].Slot(k) == At(Down(l, k))
    }

    // The nodes form a proper tree per method.
    ghost predicate Valid()
      reads this, nodes.Values
    {
      && (forall verb :: verb in trees <==> Root(verb) in nodes)
      && (forall verb <- trees :: trees[verb] == nodes[Root(verb)])
      && (forall l <- nodes :: l.Down? ==> l.up in nodes)
      && (forall l <- nodes :: Linked(l))
    }

    ghost function Table(): Routes
      reads this, nodes.Values
    {
      map l <- nodes :: nodes[l].Contents()
    }

    constructor (rx: Regexps)
      ensures Valid() && this.rx == rx && Table() == map[]
    {
      this.rx := rx;
      trees, nodes := map[], map[];
    }

    method AddRoute(verb: string, path: string, handler: Option<Handler>, mws: seq<Middleware>) returns (ok: bool)
      requires Valid()
      modifies this, nodes.Values
      ensures Valid()
      ensures (Table(), ok) == Routing.AddRoute(rx, old(Table()), Registration(verb, path, handler, mws))
      ensures forall n <- nodes.Values :: n in old(nodes.Values) || fresh(n)
    {
      if path == "" { return false; }
      if path[0] != '/' { return false; }
      if path != "/" && path[|path| - 1] == '/' { return false; }
      var root := RootFor(verb);
      ok := Register(root, Registration(verb, path, handler, mws));
    }

    method Register(root: Node, r: Registration) returns (ok: bool)
      requires Valid() && Has(root) && root.at == Root(r.verb) && r.path != ""
      modifies this`nodes, nodes.Values
      ensures Valid()
      ensures (Table(), ok) == Routing.Register(rx, old(Table()), r)
      ensures forall n <- nodes.Values :: n in old(nodes.Values) || fresh(n)
    {
      var segs := if r.path == "/" then [] else Split(r.path[1..]);
      assert segs == PatternSegs(r.path);
      ghost var goal := Walk(rx, Table(), root.at, segs);
      var end := WalkFrom(root, segs);
      assert (Table(), end.Some?) == (goal.0, goal.1.Some?);
      if end.None? { return false; }
      if end.value.handler.Some? { return false; }
      BindAt(end.value, r.handler, r.mws);
      return true;
    }

    // The root of a method's tree, created on first use.
    method RootFor(verb: string) returns (root: Node)
      requires Valid()
      modifies this
      ensures Valid() && Has(root) && root.at == Root(verb)
      ensures Table() == WithRoot(old(Table()), verb)
      ensures forall n <- nodes.Values :: n in old(nodes.Values) || fresh(n)
    {
      if verb !in trees {
        root := new Node("/", StaticNode, "", "", Root(verb));
        trees := trees[verb := root];
        nodes := nodes[Root(verb) := root];
        GrownLinks(Root(verb));
        GrownTable(Root(verb));
      }
      return trees[verb];
    }

    // The segment loop of addRoute; None is a panic on the way.
    method WalkFrom(root: Node, segs: seq<string>) returns (r: Option<Node>)
      requires Valid() && Has(root)
      modifies this`nodes, nodes.Values
      ensures Valid()
      ensures var (t, end) := Walk(rx, old(Table()), root.at, segs);
        && Table() == t && r.Some? == end.Some?
        && (r.Some? ==> Has(r.value) && end.value == r.value.at)
      ensures forall n <- nodes.Values :: n in old(nodes.Values) || fresh(n)
    {
      var node := root;
      ghost var goal := Walk(rx, Table(), root.at, segs);
      for i := 0 to |segs|
        invariant Valid() && Has(node)
        invariant Walk(rx, Table(), node.at, segs[i..]) == goal
        invariant forall n <- nodes.Values :: n in old(nodes.Values) || fresh(n)
      {
        var s := segs[i];
        assert segs[i..][1..] == segs[i + 1..];
        if s == "" { return None; }
        var child := AddChild(node, s);
        if child.None? { return None; }
        node := child.value;
      }
      return Some(node);
    }

    method BindAt(node: Node, handler: Option<Handler>, mws: seq<Middleware>)
      requires Valid() && Has(node)
      modifies node
      ensures Valid() && node.at in old(Table())
      ensures Table() == old(Table())[node.at :=
        old(Table())[node.at].(handler := handler, mws := old(Table())[node.at].mws + mws)]
    {
      hide Node.Slot, Node.Exclusive;
      node.Bind(handler, mws);
      SameLinks();
      ReboundTable(node.at);
    }

    twostate lemma ReboundTable(d: Loc)
      requires old(Valid()) && Valid() && nodes == old(nodes) && d in nodes
      requires forall l <- nodes :: l != d ==> nodes[l].Contents() == old(nodes[l].Contents())
      ensures Table() == old(Table())[d := nodes[d].Contents()]
    {}

    // The links did not change, so the tree did not.
    twostate lemma SameLinks()
      requires old(Valid()) && nodes == old(nodes) && trees == old(trees)
      requires forall l <- nodes :: nodes[l].Exclusive()
      requires forall l, k :: l in nodes ==> nodes[l].Slot(k) == old(nodes[l].Slot(k))
      ensures Valid()
    {
      forall l <- nodes ensures Linked(l) {
        assert old(Linked(l));
        forall k ensures nodes[l].Slot(k) == At(Down(l, k)) {
          assert old(nodes[l].Slot(k)) == old(At(Down(l, k)));
        }
      }
    }

    twostate lemma SameTree()
      requires old(Valid()) && nodes == old(nodes) && trees == old(trees)
      requires forall l <- nodes :: nodes[l].Contents() == old(nodes[l].Contents()) && nodes[l].Exclusive()
      requires forall l, k :: l in nodes ==> nodes[l].Slot(k) == old(nodes[l].Slot(k))
      ensures Valid() && Table() == old(Table())
    {
      SameLinks();
    }

    // A new childless node appeared at location `d`; every other slot is as it was.
    twostate lemma GrownLinks(d: Loc)
      requires old(Valid()) && d !in old(nodes) && d in nodes && nodes == old(nodes)[d := nodes[d]]
      requires nodes[d].at == d && nodes[d].Fits() && nodes[d].Childless() && nodes[d].Exclusive()
      requires d.Down? ==> d.up in old(nodes) && nodes[d.up].Slot(d.key) == nodes[d]
      requires forall l <- old(nodes) :: nodes[l].Exclusive()
      requires forall l, k :: l in old(nodes) && Down(l, k) != d ==> nodes[l].Slot(k) == old(nodes[l].Slot(k))
      ensures forall l <- nodes :: Linked(l)
      ensures forall l <- nodes :: l.Down? ==> l.up in nodes
    {
      forall k ensures Down(d, k) !in nodes {}
      forall l <- old(nodes) ensures Linked(l) {
        assert old(Linked(l));
        forall k ensures nodes[l].Slot(k) == At(Down(l, k)) {
          if Down(l, k) != d {
            assert old(nodes[l].Slot(k)) == old(At(Down(l, k)));
          }
        }
      }
      assert Linked(d);
    }

    twostate lemma GrownTable(d: Loc)
      requires d !in old(nodes) && d in nodes && nodes == old(nodes)[d := nodes[d]]
      requires forall l <- old(nodes) :: nodes[l].Contents() == old(nodes[l].Contents())
      ensures Table() == old(Table())[d := nodes[d].Contents()]
    {}

    // A new node appeared in one slot of the node above it.
    twostate lemma GrownBelow(d: Loc)
      requires old(Valid()) && d !in old(nodes) && d in nodes && nodes == old(nodes)[d := nodes[d]]
      requires trees == old(trees)
      requires nodes[d].at == d && nodes[d].Fits() && nodes[d].Childless() && nodes[d].Exclusive()
      requires d.Down? && d.up in old(nodes) && nodes[d.up].Slot(d.key) == nodes[d]
      requires forall l <- old(nodes) :: l != d.up ==> unchanged(nodes[l])
      requires nodes[d.up].Exclusive() && nodes[d.up].Contents() == old(nodes[d.up].Contents())
      requires forall k :: k != d.key ==> nodes[d.up].Slot(k) == old(nodes[d.up].Slot(k))
      ensures Valid() && Table() == old(Table())[d := nodes[d].Contents()]
    {
      hide Node.Slot, Node.Exclusive, Node.Contents, Node.Fits, Node.Childless, Table;
      forall l <- old(nodes) ensures nodes[l].Exclusive() && nodes[l].Contents() == old(nodes[l].Contents()) {
        assert old(Linked(l));
      }
      GrownLinks(d);
      GrownTable(d);
    }

    // A node kept its slots.
    twostate lemma SameBelow(d: Loc)
      requires old(Valid()) && nodes == old(nodes) && trees == old(trees) && d in nodes
      requires forall l <- nodes :: l != d ==> unchanged(nodes[l])
      requires nodes[d].Exclusive() && nodes[d].Contents() == old(nodes[d].Contents())
      requires forall k :: nodes[d].Slot(k) == old(nodes[d].Slot(k))
      ensures Valid() && Table() == old(Table())
    {
      hide Node.Slot, Node.Exclusive, Node.Contents, Table;
      forall l <- nodes ensures nodes[l].Exclusive() && nodes[l].Contents() == old(nodes[l].Contents()) {
        assert old(Linked(l));
      }
      SameTree();
    }

    // The node's own test for a panic is the table's.
    lemma EdgeTest(n: Node, seg: string)
      requires Valid() && Has(n) && seg != ""
      ensures n.Exclusive() && n.Slot(KeyOf(seg)) == At(Down(n.at, KeyOf(seg)))
      ensures EdgeOk(rx, Table(), n.at, seg) <==>
        var k := KeyOf(seg);
        if n.Slot(k) != null then k.Regex? ==> n.paramName == NameOf(seg)
        else k.Static? || (n.NoNonStatic() && (k.Regex? ==> rx.compiles(k.expr)))
    {
      assert Linked(n.at);
      assert forall k :: n.Slot(k) == At(Down(n.at, k));
    }

    // One childOrCreate on a node of the tree.
    method AddChild(node: Node, seg: string) returns (r: Option<Node>)
      requires Valid() && Has(node) && seg != ""
      modifies this`nodes, node
      ensures Valid()
      ensures r.Some? <==> EdgeOk(rx, old(Table()), node.at, seg)
      ensures r.Some? ==> Has(r.value) && r.value.at == Down(node.at, KeyOf(seg))
      ensures Table() ==
        if r.None? || Down(node.at, KeyOf(seg)) in old(Table()) then old(Table())
        else old(Table())[Down(node.at, KeyOf(seg)) := Bare(seg)]
      ensures forall n <- nodes.Values :: n in old(nodes.Values) || fresh(n)
    {
      hide KeyOf, NameOf, EdgeOk, Bare, Node.Slot, Node.Contents, Node.Exclusive, Node.Fits, Node.Childless;
      hide Node.NoNonStatic;
      ghost var c := Down(node.at, KeyOf(seg));
      EdgeTest(node, seg);
      assert c in nodes ==> Linked(c);
      r := node.ChildOrCreate(rx, seg);
      if c !in nodes && r.Some? {
        nodes := nodes[c := r.value];
        GrownBelow(c);
      } else {
        SameBelow(node.at);
      }
    }

    // ---------- lookups ----------

    lemma BranchMatches(n: Node, seg: string)
      requires Valid() && Has(n)
      ensures n.BranchOf(rx, seg) ==
        match NonStaticKey(Table(), n.at)
        case None => null
        case Some(k) => if Admits(rx, k, seg) then At(Down(n.at, k)) else null
    {
      assert Linked(n.at);
      var key := NonStaticKey(Table(), n.at);
      if key.Some? {
        assert n.Slot(key.value) == At(Down(n.at, key.value));
      } else {
        forall k: Key | !k.Static? ensures n.Slot(k) == null {
          assert n.Slot(k) == At(Down(n.at, k));
        }
        n.NonStaticSlots();
      }
    }

    lemma ChildMatches(n: Node, seg: string)
      requires Valid() && Has(n)
      ensures n.Fits()
      ensures var c := Routing.ChildOf(rx, Table(), n.at, seg);
        if c.None? then n.ChildOf(rx, seg) == null
        else n.ChildOf(rx, seg) == At(c.value) && c.value in nodes && nodes[c.value].at == c.value
    {
      assert Linked(n.at);
      assert n.Slot(Static(seg)) == At(Down(n.at, Static(seg)));
      BranchMatches(n, seg);
      n.TestOrdersAgree(rx);
      var c := Routing.ChildOf(rx, Table(), n.at, seg);
      assert c.Some? ==> Linked(c.value);
    }

    method FindRoute(verb: string, path: string) returns (r: Option<MatchInfo>)
      requires Valid()
      ensures var m := Routing.FindRoute(rx, Table(), verb, path);
        && r.Some? == m.Some?
        && (r.Some? ==> At(m.value.loc) == r.value.n)
        && (r.Some? ==> r.value.pathParams == m.value.params && r.value.mws == m.value.mws)
    {
      if verb !in trees { return None; }
      var root := trees[verb];
      assert Linked(Root(verb));
      if path == "/" { return Some(MatchInfo(root, map[], root.mws)); }
      var segs := Split(Trim(path));
      var end, full, params := WalkDown(root, segs);
      if end == null { return None; }
      var mws := FindMdls(if full then root else end, segs);
      return Some(MatchInfo(end, params, mws));
    }

    // The segment loop of findRoute. It stops early (not `full`) at a node
    // without a matching child, with that node if it is a star, else with null.
    method WalkDown(root: Node, segs: seq<string>) returns (end: Node?, full: bool, params: map<string, string>)
      requires Valid() && Has(root)
      ensures var d := Descend(rx, Table(), root.at, segs, 0, map[]);
        if d.None? then end == null
        else
          && end != null && Has(end) && d.value == Descent(end.at, d.value.used, params)
          && (full <==> d.value.used == |segs|)
    {
      params := map[];
      var current: Node := root;
      ghost var goal := Descend(rx, Table(), root.at, segs, 0, map[]);
      for i := 0 to |segs|
        invariant Has(current)
        invariant Descend(rx, Table(), current.at, segs, i, params) == goal
      {
        var s := segs[i];
        ChildMatches(current, s);
        var child := current.ChildOf(rx, s);
        if child == null {
          if current.typ == AnyNode { return current, false, params; }
          return null, false, params;
        }
        if child.paramName != "" {
          params := params[child.paramName := s];
        }
        current := child;
      }
      return current, true, params;
    }

    // `level` holds the nodes at `locs`.
    ghost predicate Stand(level: seq<Node>, locs: seq<Loc>)
      reads this
    {
      |level| == |locs| && forall j :: 0 <= j < |level| ==> level[j].at == locs[j] && Has(level[j])
    }

    method FindMdls(root: Node, segs: seq<string>) returns (useMws: seq<Middleware>)
      requires Valid() && Has(root)
      ensures useMws == Middlewares(rx, Table(), root.at, segs, |segs|)
      ensures forall levels :: AreLevels(rx, Table(), root.at, segs, levels) ==> useMws == GatherAll(Table(), levels)
    {
      hide Valid, Table, NextLevel, MwsOf;
      ghost var t := Table();
      RootStands(root);
      var level := [root];
      useMws := [];
      if |root.mws| > 0 {
        useMws := useMws + root.mws;
      }
      SingleMws(t, [root.at]);
      for i := 0 to |segs|
        invariant Stand(level, Frontier(rx, t, root.at, segs, i))
        invariant useMws == Middlewares(rx, t, root.at, segs, i)
      {
        level, useMws := NextNodes(level, segs[i], useMws, Frontier(rx, t, root.at, segs, i));
      }
      AllLevels(root, segs);
    }

    lemma OneKind()
      requires Valid()
      ensures Exclusive(Table())
    {
      forall l, k: Key, k': Key | !k.Static? && !k'.Static? && Down(l, k) in Table() && Down(l, k') in Table()
        ensures k == k'
      {
        assert Linked(l);
        assert nodes[l].Slot(k) == At(Down(l, k)) && nodes[l].Slot(k') == At(Down(l, k'));
        assert Linked(Down(l, k)) && Linked(Down(l, k'));
      }
    }

    lemma AllLevels(root: Node, segs: seq<string>)
      requires Valid() && Has(root)
      ensures forall levels | AreLevels(rx, Table(), root.at, segs, levels) ::
        Middlewares(rx, Table(), root.at, segs, |segs|) == GatherAll(Table(), levels)
    {
      hide Valid, Table, AreLevels, GatherAll, Middlewares, Exclusive;
      OneKind();
      forall levels | AreLevels(rx, Table(), root.at, segs, levels)
        ensures Middlewares(rx, Table(), root.at, segs, |segs|) == GatherAll(Table(), levels)
      {
        CollectsLevels(rx, Table(), root.at, segs, levels);
      }
    }

    lemma RootStands(root: Node)
      requires Valid() && Has(root)
      ensures root.at in Table() && Table()[root.at].mws == root.mws
    {}

    // One round of the level loop of findMdls.
    method NextNodes(level: seq<Node>, seg: string, mws: seq<Middleware>, ghost locs: seq<Loc>)
      returns (next: seq<Node>, useMws: seq<Middleware>)
      requires Valid() && Stand(level, locs)
      ensures Stand(next, NextLevel(rx, Table(), locs, |locs|, seg))
      ensures useMws == mws + MwsOf(Table(), NextLevel(rx, Table(), locs, |locs|, seg))
    {
      hide NextLevel, MwsOf, Valid, Table;
      next, useMws := [], mws;
      ghost var t := Table();
      LevelStart(seg, mws, locs);
      for j := 0 to |level|
        invariant Stand(next, NextLevel(rx, t, locs, j, seg))
        invariant useMws == mws + MwsOf(t, NextLevel(rx, t, locs, j, seg))
      {
        var n := level[j];
        LevelGrows(n, seg, next, mws, useMws, locs, j);
        next, useMws := n.Visit(rx, seg, next, useMws);
      }
    }

    lemma LevelStart(seg: string, mws: seq<Middleware>, locs: seq<Loc>)
      ensures Stand([], NextLevel(rx, Table(), locs, 0, seg))
      ensures mws == mws + MwsOf(Table(), NextLevel(rx, Table(), locs, 0, seg))
    {}

    lemma StandAppend(a: seq<Node>, la: seq<Loc>, b: seq<Node>, lb: seq<Loc>)
      requires Stand(a, la) && Stand(b, lb)
      ensures Stand(a + b, la + lb)
    {}

    // What visiting the node at position `j` adds to the next level.
    lemma LevelGrows(n: Node, seg: string, next: seq<Node>, mws: seq<Middleware>, useMws: seq<Middleware>,
                     locs: seq<Loc>, j: nat)
      requires Valid() && Has(n) && j < |locs| && locs[j] == n.at
      requires Stand(next, NextLevel(rx, Table(), locs, j, seg))
      requires useMws == mws + MwsOf(Table(), NextLevel(rx, Table(), locs, j, seg))
      ensures Stand(next + (One(n.BranchOf(rx, seg)) + One(n.Slot(Static(seg)))),
                    NextLevel(rx, Table(), locs, j + 1, seg))
      ensures useMws + (MwsOfNode(n.BranchOf(rx, seg)) + MwsOfNode(n.Slot(Static(seg))))
        == mws + MwsOf(Table(), NextLevel(rx, Table(), locs, j + 1, seg))
    {
      var before, kids := NextLevel(rx, Table(), locs, j, seg), Kids(rx, Table(), locs[j], seg);
      assert NextLevel(rx, Table(), locs, j + 1, seg) == before + kids;
      KidsMatch(n, seg);
      StandAppend(next, before, One(n.BranchOf(rx, seg)) + One(n.Slot(Static(seg))), kids);
      MwsAppend(Table(), before, kids);
      Assoc(mws, MwsOf(Table(), before), MwsOf(Table(), kids));
    }

    lemma Assoc<T>(a: seq<T>, b: seq<T>, c: seq<T>)
      ensures a + b + c == a + (b + c)
    {}

    // The matching children of a node, in the order findMdls takes them.
    lemma KidsMatch(n: Node, seg: string)
      requires Valid() && Has(n)
      ensures var kids := Kids(rx, Table(), n.at, seg);
        && Stand(One(n.BranchOf(rx, seg)) + One(n.Slot(Static(seg))), kids)
        && MwsOf(Table(), kids) == MwsOfNode(n.BranchOf(rx, seg)) + MwsOfNode(n.Slot(Static(seg)))
    {
      hide MwsOf, Admits;
      var t := Table();
      assert Linked(n.at);
      BranchMatches(n, seg);
      var leaf := Down(n.at, Static(seg));
      assert n.Slot(Static(seg)) == At(leaf);
      assert leaf in nodes ==> Linked(leaf);
      var branch := Branch(rx, t, n.at, seg);
      assert branch != [] ==> Linked(branch[0]);
      var tail := if leaf in t then [leaf] else [];
      SingleMws(t, branch);
      SingleMws(t, tail);
      MwsAppend(t, branch, tail);
    }
  }

  lemma SingleMws(t: Routes, locs: seq<Loc>)
    requires |locs| <= 1 && forall l <- locs :: l in t
    ensures MwsOf(t, locs) == if locs == [] then [] else t[locs[0]].mws
  {}

  lemma {:induction false} MwsAppend(t: Routes, a: seq<Loc>, b: seq<Loc>)
    ensures MwsOf(t, a + b) == MwsOf(t, a) + MwsOf(t, b)
    decreases |b|
  {
    if b == [] {
      assert a + b == a;
    } else {
      assert (a + b)[..|a + b| - 1] == a + b[..|b| - 1];
      MwsAppend(t, a, b[..|b| - 1]);
    }
  }
}
