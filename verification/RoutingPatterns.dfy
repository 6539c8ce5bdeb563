// How a pattern segment reads: as a star, a parameter, a parameter with a
// regular expression, or itself.
module RoutingPatterns {
  import opened Wrappers
  import opened Segments
  import opened Routing

  // `:name(expr)`, the name ending at the first parenthesis.
  ghost predicate WithRegex(p: string, name: string, expr: string) {
    '(' !in name && p == ":" + name + "(" + expr + ")"
  }

  // A colon segment that is not of this form is a plain parameter.
  predicate PlainParam(p: string) {
    p != "" && p[0] == ':' && ('(' !in p || p[|p| - 1] != ')')
  }

  lemma {:induction false} IndexBefore(a: string, c: char, b: string)
    requires c !in a
    ensures IndexOf(a + [c] + b, c) == |a|
  {
    var s := a + [c] + b;
    assert forall k :: 0 <= k < |a| ==> s[k] == a[k];
    assert s[|a|] == c && forall j :: |a| < j <= |s| ==> s[..j][|a|] == c;
  }

  lemma ReadsRegex(p: string, name: string, expr: string)
    requires WithRegex(p, name, expr)
    ensures p[0] == ':' && ParseParam(p) == (name, Some(expr))
  {
    var rest := expr + ")";
    assert p == ":" + (name + ['('] + rest);
    var body := p[1..];
    assert body == name + ['('] + rest;
    IndexBefore(name, '(', rest);
    assert body[..|name|] == name && body[|name| + 1..|body| - 1] == expr;
  }

  lemma ReadsPlain(p: string)
    requires PlainParam(p)
    ensures ParseParam(p) == (p[1..], None)
  {
    var body := p[1..];
    var i := IndexOf(body, '(');
    if i < |body| {
      assert body[i] in body && p[i + 1] == '(' && '(' in p;
    }
  }

  lemma RegexForm(p: string)
    requires p != "" && p[0] == ':' && !PlainParam(p)
    ensures var (name, expr) := ParseParam(p); expr.Some? && WithRegex(p, name, expr.value)
  {
    var body := p[1..];
    var i := IndexOf(body, '(');
    var k :| 0 <= k < |p| && p[k] == '(';
    assert body[k - 1] == '(';
    assert i < |body|;
    assert body == body[..i] + [body[i]] + body[i + 1..|body| - 1] + [body[|body| - 1]];
  }

  // What a segment is decides its slot and the parameter it names.
  lemma SegmentReads(p: string)
    requires p != ""
    ensures p == "*" ==> KeyOf(p) == Star && NameOf(p) == ""
    ensures p != "*" && p[0] != ':' ==> KeyOf(p) == Static(p) && NameOf(p) == ""
    ensures PlainParam(p) ==> KeyOf(p) == Param(p) && p == ":" + NameOf(p)
    ensures forall name, expr :: WithRegex(p, name, expr) ==> KeyOf(p) == Regex(expr) && NameOf(p) == name
    ensures p == "*" || p[0] != ':' || PlainParam(p) || exists name, expr :: WithRegex(p, name, expr)
  {
    forall name, expr | WithRegex(p, name, expr) ensures KeyOf(p) == Regex(expr) && NameOf(p) == name {
      ReadsRegex(p, name, expr);
    }
    if PlainParam(p) {
      ReadsPlain(p);
    } else if p[0] == ':' {
      RegexForm(p);
    }
  }

  // In particular `:name` names `name`, and `:name(expr)` too.
  lemma NamesParameter(name: string, expr: string)
    requires '(' !in name
    ensures ParseParam(":" + name) == (name, None)
    ensures ParseParam(":" + name + "(" + expr + ")") == (name, Some(expr))
  {
    var p := ":" + name;
    assert forall i :: 1 <= i < |p| ==> p[i] == name[i - 1];
    ReadsPlain(p);
    assert p[1..] == name;
    ReadsRegex(":" + name + "(" + expr + ")", name, expr);
  }

  // The parameter a pattern segment names; "" for none.
  ghost predicate Binds(p: string, name: string) {
    (PlainParam(p) && p == ":" + name) || exists expr :: WithRegex(p, name, expr)
  }

  // The request segments a pattern segment stands for.
  ghost predicate StandsFor(rx: Regexps, p: string, seg: string) {
    if p == "*" || PlainParam(p) then true
    else if p != "" && p[0] == ':' then forall name, expr :: WithRegex(p, name, expr) ==> rx.matches(expr, seg)
    else p == seg
  }
}
