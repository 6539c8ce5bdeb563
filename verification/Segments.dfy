// The string operations the router uses to cut a path into segments.
module Segments {

  // strings.Split(s, "/"): always at least one segment, possibly empty ones.
  function Split(s: string): (segs: seq<string>)
    ensures |segs| >= 1
  {
    if s == "" then [""]
    else
      var rest := Split(s[1..]);
      if s[0] == '/' then [""] + rest else [[s[0]] + rest[0]] + rest[1..]
  }

  function Join(segs: seq<string>): string
    requires |segs| >= 1
  {
    if |segs| == 1 then segs[0] else segs[0] + "/" + Join(segs[1..])
  }

  // Splitting loses nothing, and no segment keeps a separator.
  lemma {:induction false} JoinSplit(s: string)
    ensures Join(Split(s)) == s
    ensures forall seg :: seg in Split(s) ==> '/' !in seg
  {
    if s != "" {
      var rest := Split(s[1..]);
      JoinSplit(s[1..]);
      if s[0] == '/' {
        assert Split(s)[1..] == rest;
        assert "" + "/" + s[1..] == s;
      } else if |rest| == 1 {
        assert [s[0]] + s[1..] == s;
      } else {
        assert Split(s)[1..] == rest[1..];
        assert ([s[0]] + rest[0]) + "/" + Join(rest[1..]) == [s[0]] + (rest[0] + "/" + Join(rest[1..]));
      }
      forall seg | seg in Split(s) ensures '/' !in seg {
        if seg !in rest && seg != "" {
          assert rest[0] in rest;
        }
      }
    }
  }

  // Segments without separators are recovered from their joined form.
  lemma {:induction false} SplitJoin(segs: seq<string>)
    requires |segs| >= 1
    requires forall seg :: seg in segs ==> '/' !in seg
    ensures Split(Join(segs)) == segs
    decreases |segs|, |segs[0]|
  {
    var s := Join(segs);
    if segs[0] != "" {
      var shorter := [segs[0][1..]] + segs[1..];
      assert segs[0] in segs && segs[0][0] in segs[0];
      forall seg | seg in shorter ensures '/' !in seg {
        if seg == segs[0][1..] {
          assert forall c :: c in seg ==> c in segs[0];
        } else {
          assert seg in segs;
        }
      }
      SplitJoin(shorter);
      assert s[1..] == Join(shorter) by { assert shorter[1..] == segs[1..]; }
      assert [segs[0][0]] + shorter[0] == segs[0] && shorter[1..] == segs[1..];
      assert [segs[0]] + segs[1..] == segs;
    } else if |segs| > 1 {
      SplitJoin(segs[1..]);
      assert s[1..] == Join(segs[1..]);
      assert [""] + segs[1..] == segs;
    }
  }

  function TrimLeft(s: string): string {
    if s != "" && s[0] == '/' then TrimLeft(s[1..]) else s
  }

  function TrimRight(s: string): string {
    if s != "" && s[|s| - 1] == '/' then TrimRight(s[..|s| - 1]) else s
  }

  // strings.Trim(s, "/")
  function Trim(s: string): string {
    TrimRight(TrimLeft(s))
  }

  // A path the router accepts for registration: it starts with a slash, does
  // not end with one, and has no empty segment.
  predicate CleanPath(path: string) {
    && |path| > 1 && path[0] == '/' && path[|path| - 1] != '/'
    && "" !in Split(path[1..])
  }

  // Lookup trims the path and registration drops only the first character;
  // on every registered path the two cut the same segments.
  lemma LookupCutsLikeRegistration(path: string)
    requires CleanPath(path)
    ensures Split(Trim(path)) == Split(path[1..])
  {
    var body := path[1..];
    assert Split(body)[0] in Split(body);
    assert TrimLeft(path) == TrimLeft(body) == body;
    assert body[|body| - 1] == path[|path| - 1];
  }

  // ---------- where segments are empty ----------

  predicate DoubleSlash(s: string) { exists i :: 0 <= i < |s| - 1 && s[i] == s[i + 1] == '/' }

  // The first segment is empty at a leading slash, a later one at a double or a
  // trailing slash.
  lemma {:induction false} EmptySegments(s: string)
    ensures Split(s)[0] == "" <==> s == "" || s[0] == '/'
    ensures "" in Split(s)[1..] <==> s != "" && (s[|s| - 1] == '/' || DoubleSlash(s))
  {
    if s != "" {
      var s' := s[1..];
      EmptySegments(s');
      assert DoubleSlash(s) <==> (s' != "" && s[0] == s'[0] == '/') || DoubleSlash(s') by {
        assert forall i :: 0 <= i < |s'| ==> s'[i] == s[i + 1];
        if DoubleSlash(s) {
          var i :| 0 <= i < |s| - 1 && s[i] == s[i + 1] == '/';
          assert i > 0 ==> s'[i - 1] == s'[i] == '/';
        }
        if DoubleSlash(s') {
          var i :| 0 <= i < |s'| - 1 && s'[i] == s'[i + 1] == '/';
          assert s[i + 1] == s[i + 2] == '/';
        }
      }
      if s[0] == '/' {
        assert Split(s)[1..] == Split(s');
        assert Split(s') == [Split(s')[0]] + Split(s')[1..];
      } else {
        assert Split(s)[1..] == Split(s')[1..];
      }
    }
  }

  // So a clean path is one with a leading slash only and no double one.
  lemma CleanPathIs(path: string)
    ensures CleanPath(path) <==>
      |path| > 1 && path[0] == '/' && path[|path| - 1] != '/' && !DoubleSlash(path)
  {
    if |path| > 1 {
      var body := path[1..];
      EmptySegments(body);
      assert Split(body) == [Split(body)[0]] + Split(body)[1..];
      assert forall i :: 0 <= i < |body| ==> body[i] == path[i + 1];
      if DoubleSlash(body) {
        var i :| 0 <= i < |body| - 1 && body[i] == body[i + 1] == '/';
        assert path[i + 1] == path[i + 2] == '/';
      }
      if DoubleSlash(path) {
        var i :| 0 <= i < |path| - 1 && path[i] == path[i + 1] == '/';
        assert i > 0 ==> body[i - 1] == body[i] == '/';
      }
    }
  }

  function Slashes(n: nat): string { seq(n, _ => '/') }

  // Trim takes away the slashes at both ends and nothing else.
  lemma TrimStrips(a: nat, body: string, b: nat)
    requires body != "" ==> body[0] != '/' && body[|body| - 1] != '/'
    ensures Trim(Slashes(a) + body + Slashes(b)) == body
  {
    LeftSlashes(a, body + Slashes(b));
    assert Slashes(a) + body + Slashes(b) == Slashes(a) + (body + Slashes(b));
    if body == "" {
      assert body + Slashes(b) == Slashes(b) + "" && TrimLeft("") == "";
      LeftSlashes(b, "");
    } else {
      assert TrimLeft(body + Slashes(b)) == body + Slashes(b);
    }
    RightSlashes(body, b);
    RightSlashes("", 0);
  }

  lemma {:induction false} LeftSlashes(n: nat, s: string)
    ensures TrimLeft(Slashes(n) + s) == TrimLeft(s)
  {
    if n == 0 {
      assert Slashes(0) + s == s;
    } else {
      assert (Slashes(n) + s)[1..] == Slashes(n - 1) + s;
      LeftSlashes(n - 1, s);
    }
  }

  lemma {:induction false} RightSlashes(s: string, n: nat)
    ensures TrimRight(s + Slashes(n)) == TrimRight(s)
  {
    if n == 0 {
      assert s + Slashes(0) == s;
    } else {
      var t := s + Slashes(n);
      assert t[|t| - 1] == '/' && t[..|t| - 1] == s + Slashes(n - 1);
      RightSlashes(s, n - 1);
    }
  }

  // A request finds the segments of a registered path whatever slashes are
  // around it.
  lemma SlashesDoNotMatter(path: string, a: nat, b: nat)
    requires CleanPath(path)
    ensures Split(Trim(Slashes(a) + path[1..] + Slashes(b))) == Split(path[1..])
  {
    var body := path[1..];
    assert Split(body)[0] in Split(body);
    assert body[|body| - 1] == path[|path| - 1];
    TrimStrips(a, body, b);
  }
}
