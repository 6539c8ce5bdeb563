// The route table of homework2/route.go as a flat map from locations to
// bindings, with registration and both lookups defined on that map.
module Routing {
  import opened Wrappers
  import opened Segments

  type Handler = nat
  type Middleware = nat

  // The regexp package: which expressions compile, and what they match.
  datatype Regexps = Regexps(compiles: string -> bool, matches: (string, string) -> bool)

  // ---------- keys and locations ----------

  // The slot of its parent a node sits in. A regex edge is keyed by its
  // expression alone.
  datatype Key = Static(name: string) | Regex(expr: string) | Param(pattern: string) | Star

  datatype Loc = Root(verb: string) | Down(up: Loc, key: Key)

  // What a node holds besides its links.
  datatype Info = Info(path: string, paramName: string, handler: Option<Handler>, mws: seq<Middleware>)

  type Routes = map<Loc, Info>

  function IndexOf(s: string, c: char): (i: nat)
    ensures i <= |s| && (i < |s| ==> s[i] == c) && c !in s[..i]
  {
    if s == "" || s[0] == c then 0 else
      var i := 1 + IndexOf(s[1..], c);
      assert s[..i] == [s[0]] + s[1..][..i - 1];
      i
  }

  // (name, Some(expression)) for ":name(expression)", (name, None) for ":name".
  function ParseParam(seg: string): (string, Option<string>)
    requires seg != ""
  {
    var body := seg[1..];
    var i := IndexOf(body, '(');
    if i + 1 < |body| && body[|body| - 1] == ')'
    then (body[..i], Some(body[i + 1..|body| - 1]))
    else (body, None)
  }

  function KeyOf(seg: string): Key
    requires seg != ""
  {
    if seg == "*" then Star
    else if seg[0] == ':' then
      match ParseParam(seg).1
      case Some(expr) => Regex(expr)
      case None => Param(seg)
    else Static(seg)
  }

  function NameOf(seg: string): string
    requires seg != ""
  {
    if seg[0] == ':' then ParseParam(seg).0 else ""
  }

  // A freshly created node.
  function Bare(seg: string): Info
    requires seg != ""
  {
    Info(seg, NameOf(seg), None, [])
  }

  // Key and parameter name determine the segment, so a regex edge keyed by
  // its expression forgets nothing but the name.
  lemma KeyAndNameDetermineSegment(a: string, b: string)
    requires a != "" && b != "" && KeyOf(a) == KeyOf(b)
    requires KeyOf(a).Regex? ==> NameOf(a) == NameOf(b)
    ensures a == b
  {
    if KeyOf(a).Regex? {
      RegexShape(a);
      RegexShape(b);
    }
  }

  lemma RegexShape(seg: string)
    requires seg != "" && KeyOf(seg).Regex?
    ensures seg == ":" + NameOf(seg) + "(" + KeyOf(seg).expr + ")"
  {
    var body := seg[1..];
    var i := IndexOf(body, '(');
    assert body == body[..i] + [body[i]] + body[i + 1..|body| - 1] + [body[|body| - 1]];
  }

  function Depth(l: Loc): nat {
    match l
    case Root(_) => 0
    case Down(up, _) => Depth(up) + 1
  }

  function Verb(l: Loc): string {
    match l
    case Root(verb) => verb
    case Down(up, _) => Verb(up)
  }

  // The location a pattern names below `l`.
  function Target(l: Loc, segs: seq<string>): Loc
    requires "" !in segs
    decreases |segs|
  {
    if segs == [] then l else
      var last := |segs| - 1;
      assert segs[last] in segs && forall s :: s in segs[..last] ==> s in segs;
      Down(Target(l, segs[..last]), KeyOf(segs[last]))
  }

  // ---------- well-formed tables ----------

  ghost predicate HasNonStatic(t: Routes, l: Loc) {
    exists k: Key :: !k.Static? && Down(l, k) in t
  }

  ghost predicate Labelled(l: Loc, i: Info) {
    match l
    case Root(_) => i.path == "/" && i.paramName == ""
    case Down(_, k) => i.path != "" && KeyOf(i.path) == k && NameOf(i.path) == i.paramName
  }

  ghost predicate Closed(t: Routes) {
    forall l <- t :: l.Down? ==> l.up in t
  }

  // At most one of the star, regex and param slots of a node is taken.
  ghost predicate Exclusive(t: Routes) {
    forall l, k: Key, k': Key :: !k.Static? && !k'.Static? && Down(l, k) in t && Down(l, k') in t ==> k == k'
  }

  ghost predicate WellFormed(t: Routes) {
    Closed(t) && Exclusive(t) && forall l <- t :: Labelled(l, t[l])
  }

  // ---------- registration ----------

  // childOrCreate, with a panic as None.
  ghost function ChildOrCreate(rx: Regexps, t: Routes, l: Loc, seg: string): Option<(Routes, Loc)>
    requires l in t && seg != ""
  {
    var k := KeyOf(seg);
    var c := Down(l, k);
    if !EdgeOk(rx, t, l, seg) then None
    else if c in t then Some((t, c))
    else Some((t[c := Bare(seg)], c))
  }

  // The panics of childOrCreate*. The name check on an existing regex edge
  // reads the name of the parent `l`, not of the edge.
  ghost predicate EdgeOk(rx: Regexps, t: Routes, l: Loc, seg: string)
    requires seg != ""
  {
    var k := KeyOf(seg);
    if Down(l, k) in t then k.Regex? && l in t ==> t[l].paramName == NameOf(seg)
    else k.Static? || (!HasNonStatic(t, l) && (k.Regex? ==> rx.compiles(k.expr)))
  }

  ghost function Walk(rx: Regexps, t: Routes, l: Loc, segs: seq<string>): (Routes, Option<Loc>)
    requires l in t
    decreases |segs|
  {
    if segs == [] then (t, Some(l))
    else if segs[0] == "" then (t, None)
    else
      match ChildOrCreate(rx, t, l, segs[0])
      case None => (t, None)
      case Some((t', c)) => Walk(rx, t', c, segs[1..])
  }

  datatype Registration = Registration(verb: string, path: string, handler: Option<Handler>, mws: seq<Middleware>)

  predicate PathShapeOk(path: string) {
    path != "" && path[0] == '/' && (path == "/" || path[|path| - 1] != '/')
  }

  function PatternSegs(path: string): seq<string>
    requires path != ""
  {
    if path == "/" then [] else Split(path[1..])
  }

  function WithRoot(t: Routes, verb: string): Routes {
    if Root(verb) in t then t else t[Root(verb) := Info("/", "", None, [])]
  }

  function Bind(i: Info, r: Registration): Info {
    i.(handler := r.handler, mws := i.mws + r.mws)
  }

  // addRoute: the table afterwards, and whether it returned without a panic.
  ghost function AddRoute(rx: Regexps, t: Routes, r: Registration): (Routes, bool) {
    if PathShapeOk(r.path) then Register(rx, WithRoot(t, r.verb), r) else (t, false)
  }

  ghost function Register(rx: Regexps, t: Routes, r: Registration): (Routes, bool)
    requires r.path != "" && Root(r.verb) in t
  {
    var (t', end) := Walk(rx, t, Root(r.verb), PatternSegs(r.path));
    if end.None? || end.value !in t' || t'[end.value].handler.Some? then (t', false)
    else (t'[end.value := Bind(t'[end.value], r)], true)
  }

  ghost function Run(rx: Regexps, regs: seq<Registration>): Routes {
    if regs == [] then map[] else AddRoute(rx, Run(rx, regs[..|regs| - 1]), regs[|regs| - 1]).0
  }

  // ---------- the greedy lookup ----------

  ghost function NonStaticKey(t: Routes, l: Loc): (r: Option<Key>)
    ensures r.Some? ==> !r.value.Static? && Down(l, r.value) in t
    ensures r.None? ==> !HasNonStatic(t, l)
  {
    if HasNonStatic(t, l) then
      var k: Key :| !k.Static? && Down(l, k) in t;
      Some(k)
    else None
  }

  predicate Admits(rx: Regexps, k: Key, seg: string) {
    match k
    case Static(name) => name == seg
    case Regex(expr) => rx.matches(expr, seg)
    case Param(_) => true
    case Star => true
  }

  ghost function ChildOf(rx: Regexps, t: Routes, l: Loc, seg: string): (c: Option<Loc>)
    ensures c.Some? ==> c.value in t && c.value.Down? && c.value.up == l
  {
    if Down(l, Static(seg)) in t then Some(Down(l, Static(seg)))
    else
      match NonStaticKey(t, l)
      case Some(k) => if Admits(rx, k, seg) then Some(Down(l, k)) else None
      case None => None
  }

  // Where a lookup ends: the node, the segments it consumed, the parameters.
  datatype Descent = Descent(loc: Loc, used: nat, params: map<string, string>)

  function AddValue(params: map<string, string>, name: string, seg: string): map<string, string> {
    if name == "" then params else params[name := seg]
  }

  ghost function Descend(rx: Regexps, t: Routes, l: Loc, segs: seq<string>, i: nat, params: map<string, string>)
      : (d: Option<Descent>)
    requires l in t && i <= |segs|
    ensures d.Some? ==> d.value.loc in t && i <= d.value.used <= |segs|
    decreases |segs| - i
  {
    if i == |segs| then Some(Descent(l, i, params))
    else
      match ChildOf(rx, t, l, segs[i])
      case None => if l.Down? && l.key.Star? then Some(Descent(l, i, params)) else None
      case Some(c) => Descend(rx, t, c, segs, i + 1, AddValue(params, t[c].paramName, segs[i]))
  }

  // ---------- the breadth-first middleware walk ----------

  ghost function Branch(rx: Regexps, t: Routes, l: Loc, seg: string): seq<Loc> {
    match NonStaticKey(t, l)
    case Some(k) => if Admits(rx, k, seg) then [Down(l, k)] else []
    case None => []
  }

  ghost function Kids(rx: Regexps, t: Routes, l: Loc, seg: string): seq<Loc> {
    Branch(rx, t, l, seg) + (if Down(l, Static(seg)) in t then [Down(l, Static(seg))] else [])
  }

  // The matching children of the first `n` nodes of a level.
  ghost function NextLevel(rx: Regexps, t: Routes, level: seq<Loc>, n: nat, seg: string): seq<Loc>
    requires n <= |level|
  {
    if n == 0 then [] else NextLevel(rx, t, level, n - 1, seg) + Kids(rx, t, level[n - 1], seg)
  }

  // The nodes findMdls holds after consuming the first `n` segments from `l`.
  ghost function Frontier(rx: Regexps, t: Routes, l: Loc, segs: seq<string>, n: nat): seq<Loc>
    requires n <= |segs|
  {
    if n == 0 then [l] else
      var level := Frontier(rx, t, l, segs, n - 1);
      NextLevel(rx, t, level, |level|, segs[n - 1])
  }

  ghost function MwsOf(t: Routes, level: seq<Loc>): seq<Middleware> {
    if level == [] then [] else
      MwsOf(t, level[..|level| - 1]) +
      (if level[|level| - 1] in t then t[level[|level| - 1]].mws else [])
  }

  // findMdls: the middleware of all levels up to the `n`th.
  ghost function Middlewares(rx: Regexps, t: Routes, l: Loc, segs: seq<string>, n: nat): seq<Middleware>
    requires n <= |segs|
  {
    if n == 0 then MwsOf(t, [l]) else
      Middlewares(rx, t, l, segs, n - 1) + MwsOf(t, Frontier(rx, t, l, segs, n))
  }

  datatype Match = Match(loc: Loc, params: map<string, string>, mws: seq<Middleware>)

  // findRoute. A walk that stops early at a star starts the middleware walk
  // at that star, with all the segments.
  ghost function FindRoute(rx: Regexps, t: Routes, verb: string, path: string): Option<Match> {
    if Root(verb) !in t then None
    else if path == "/" then Some(Match(Root(verb), map[], t[Root(verb)].mws))
    else
      var segs := Split(Trim(path));
      match Descend(rx, t, Root(verb), segs, 0, map[])
      case None => None
      case Some(d) =>
        Some(Match(d.loc, d.params, Middlewares(rx, t, if d.used == |segs| then Root(verb) else d.loc, segs, |segs|)))
  }
}
