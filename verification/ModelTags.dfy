// Which column a field is stored in, from the text of its tag.
module ModelTags {
  import opened Wrappers
  import opened Models

  datatype Pair = Pair(key: string, val: string)

  // ---------- splitting ----------

  predicate Free(parts: seq<string>, sep: char) { forall i :: 0 <= i < |parts| ==> sep !in parts[i] }

  function JoinWith(parts: seq<string>, sep: char): string
    requires parts != []
  {
    var n := |parts| - 1;
    if n == 0 then parts[0] else JoinWith(parts[..n], sep) + [sep] + parts[n]
  }

  lemma JoinLast(parts: seq<string>, w: string, c: char, sep: char)
    ensures JoinWith(parts + [w + [c]], sep) == JoinWith(parts + [w], sep) + [c]
  {
    assert (parts + [w + [c]])[..|parts|] == parts == (parts + [w])[..|parts|];
  }

  // Splitting loses nothing, and no part keeps a separator.
  lemma {:induction false} SplitLaw(s: string, sep: char)
    ensures Free(SplitOn(s, sep), sep) && JoinWith(SplitOn(s, sep), sep) == s
  {
    if s != "" {
      var front, c := SplitOn(s[..|s| - 1], sep), s[|s| - 1];
      SplitLaw(s[..|s| - 1], sep);
      assert s == s[..|s| - 1] + [c];
      hide SplitOn, Free;
      if c == sep {
        NewPart(front, sep);
      } else {
        LongerPart(front, c, sep);
      }
    }
  }

  lemma NewPart(front: seq<string>, sep: char)
    requires front != [] && Free(front, sep)
    ensures Free(front + [""], sep) && JoinWith(front + [""], sep) == JoinWith(front, sep) + [sep]
  {
    assert (front + [""])[..|front|] == front;
  }

  lemma LongerPart(front: seq<string>, c: char, sep: char)
    requires front != [] && Free(front, sep) && c != sep
    ensures var n := |front| - 1;
      var longer := front[..n] + [front[n] + [c]];
      Free(longer, sep) && JoinWith(longer, sep) == JoinWith(front, sep) + [c]
  {
    hide JoinWith;
    var n := |front| - 1;
    assert front == front[..n] + [front[n]];
    JoinLast(front[..n], front[n], c, sep);
  }

  // Parts without separators are recovered from their joined form.
  lemma {:induction false} JoinLaw(parts: seq<string>, sep: char)
    requires parts != [] && Free(parts, sep)
    ensures SplitOn(JoinWith(parts, sep), sep) == parts
    decreases |parts|, |parts[|parts| - 1]|
  {
    var n := |parts| - 1;
    var s, front, last := JoinWith(parts, sep), parts[..n], parts[n];
    assert parts == front + [last];
    if last != "" {
      var w, c := last[..|last| - 1], last[|last| - 1];
      assert last == w + [c] && c in last && forall d :: d in w ==> d in last;
      JoinLast(front, w, c, sep);
      JoinLaw(front + [w], sep);
      assert s[..|s| - 1] == JoinWith(front + [w], sep);
    } else if n > 0 {
      assert s == JoinWith(front, sep) + [sep];
      JoinLaw(front, sep);
      assert s[..|s| - 1] == JoinWith(front, sep);
    }
  }

  // ---------- tags ----------

  function PairText(p: Pair): string { p.key + "=" + p.val }

  function PairTexts(ps: seq<Pair>): (r: seq<string>)
    ensures |r| == |ps|
  {
    seq(|ps|, i requires 0 <= i < |ps| => PairText(ps[i]))
  }

  // key1=value1,key2=value2
  function TagText(ps: seq<Pair>): string { if ps == [] then "" else JoinWith(PairTexts(ps), ',') }

  predicate Bare(w: string) { ',' !in w && '=' !in w }

  predicate BarePairs(ps: seq<Pair>) { forall i :: 0 <= i < |ps| ==> Bare(ps[i].key) && Bare(ps[i].val) }

  predicate LastAt(ps: seq<Pair>, n: nat, key: string, val: string) {
    n < |ps| && ps[n] == Pair(key, val) && forall k :: n < k < |ps| ==> ps[k].key != key
  }

  // The last pair with this key has this value.
  ghost predicate LastFor(ps: seq<Pair>, key: string, val: string) { exists n: nat :: LastAt(ps, n, key, val) }

  // The last pair for each key counts.
  ghost predicate Holds(ps: seq<Pair>, m: map<string, string>) {
    && (forall key <- m :: LastFor(ps, key, m[key]))
    && (forall n :: 0 <= n < |ps| ==> ps[n].key in m)
  }

  lemma {:induction false} PairsHold(ps: seq<Pair>)
    requires BarePairs(ps)
    ensures Pairs(PairTexts(ps)).Some? && Holds(ps, Pairs(PairTexts(ps)).value)
  {
    hide SplitOn, Holds;
    if ps == [] {
      NothingHeld();
    } else {
      var n := |ps| - 1;
      var p := ps[n];
      assert Bare(p.key) && Bare(p.val);
      PairsHold(ps[..n]);
      assert PairTexts(ps)[..n] == PairTexts(ps[..n]);
      assert ps == ps[..n] + [p];
      hide BarePairs;
      PairIsSplit(p);
      HoldsMore(ps[..n], Pairs(PairTexts(ps[..n])).value, p);
    }
  }

  lemma NothingHeld()
    ensures Holds([], map[])
  {
  }

  lemma PairIsSplit(p: Pair)
    requires Bare(p.key) && Bare(p.val)
    ensures SplitOn(PairText(p), '=') == [p.key, p.val]
  {
    hide SplitOn;
    assert [p.key, p.val][..1] == [p.key];
    assert JoinWith([p.key, p.val], '=') == PairText(p);
    JoinLaw([p.key, p.val], '=');
  }

  lemma HoldsMore(ps: seq<Pair>, m: map<string, string>, p: Pair)
    requires Holds(ps, m)
    ensures Holds(ps + [p], m[p.key := p.val])
  {
    hide LastFor;
    var m' := m[p.key := p.val];
    forall key <- m' ensures LastFor(ps + [p], key, m'[key]) {
      LastStays(ps, p, key, if key in m then m[key] else "");
    }
  }

  lemma LastStays(ps: seq<Pair>, p: Pair, key: string, val: string)
    ensures key != p.key && LastFor(ps, key, val) ==> LastFor(ps + [p], key, val)
    ensures LastFor(ps + [p], p.key, p.val)
  {
    if key != p.key && LastFor(ps, key, val) {
      var n: nat :| LastAt(ps, n, key, val);
      assert LastAt(ps + [p], n, key, val);
    }
    assert LastAt(ps + [p], |ps|, p.key, p.val);
  }

  lemma CommaFree(ps: seq<Pair>)
    requires BarePairs(ps)
    ensures Free(PairTexts(ps), ',')
  {
  }

  lemma {:induction false} JoinIsLonger(parts: seq<string>, sep: char, c: char)
    requires parts != [] && c in parts[0]
    ensures c in JoinWith(parts, sep)
  {
    if |parts| > 1 {
      JoinIsLonger(parts[..|parts| - 1], sep, c);
    }
  }

  lemma TagHolds(ps: seq<Pair>)
    requires BarePairs(ps)
    ensures Tags(TagText(ps)).Some? && Holds(ps, Tags(TagText(ps)).value)
  {
    hide Pairs, SplitOn, JoinWith;
    if ps != [] {
      assert '=' in PairTexts(ps)[0];
      JoinIsLonger(PairTexts(ps), ',', '=');
      CommaFree(ps);
      JoinLaw(PairTexts(ps), ',');
      PairsHold(ps);
    }
  }

  lemma {:induction false} AllArePairs(texts: seq<string>)
    requires Pairs(texts).Some?
    ensures forall i :: 0 <= i < |texts| ==> |SplitOn(texts[i], '=')| == 2
  {
    hide SplitOn;
    if texts != [] {
      var n := |texts| - 1;
      AllArePairs(texts[..n]);
      assert forall i :: 0 <= i < n ==> texts[..n][i] == texts[i];
    }
  }

  function ReadPair(text: string): Pair
    requires |SplitOn(text, '=')| == 2
  {
    Pair(SplitOn(text, '=')[0], SplitOn(text, '=')[1])
  }

  lemma PairIsRead(text: string)
    requires |SplitOn(text, '=')| == 2
    ensures PairText(ReadPair(text)) == text
    ensures ',' !in text ==> Bare(ReadPair(text).key) && Bare(ReadPair(text).val)
  {
    hide SplitOn;
    SplitLaw(text, '=');
    var kv := SplitOn(text, '=');
    assert kv[..1] == [kv[0]];
    assert text == kv[0] + "=" + kv[1];
  }

  // A tag is accepted exactly when it is made of pairs.
  lemma WellFormedTags(tag: string)
    ensures Tags(tag).Some? <==> exists ps :: BarePairs(ps) && TagText(ps) == tag
  {
    hide Pairs, SplitOn, JoinWith, BarePairs;
    if exists ps :: BarePairs(ps) && TagText(ps) == tag {
      var ps :| BarePairs(ps) && TagText(ps) == tag;
      TagHolds(ps);
    }
    if Tags(tag).Some? {
      var ps := TagIsRead(tag);
    }
  }

  ghost predicate Malformed(tag: string) { forall ps :: BarePairs(ps) ==> TagText(ps) != tag }

  lemma TagIsRead(tag: string) returns (ps: seq<Pair>)
    requires Tags(tag).Some?
    ensures BarePairs(ps) && TagText(ps) == tag
  {
    hide Pairs, SplitOn, JoinWith;
    if tag == "" {
      return [];
    }
    var texts := SplitOn(tag, ',');
    SplitLaw(tag, ',');
    AllArePairs(texts);
    ps := seq(|texts|, i requires 0 <= i < |texts| => ReadPair(texts[i]));
    forall i | 0 <= i < |texts| ensures PairText(ps[i]) == texts[i] && Bare(ps[i].key) && Bare(ps[i].val) {
      PairIsRead(texts[i]);
    }
    assert PairTexts(ps) == texts;
  }

  // ---------- columns ----------

  // The tag names this column.
  ghost predicate Named(ps: seq<Pair>, col: string) { col != "" && LastFor(ps, "column", col) }

  // The last column= of the tag names the column unless it is empty; otherwise
  // the field's own name does. A tag that is not made of pairs is an error.
  lemma ColumnIsNamed(fd: StructField)
    ensures ColumnOf(fd).None? <==> Malformed(fd.tag)
    ensures forall ps, col :: BarePairs(ps) && TagText(ps) == fd.tag && Named(ps, col) ==> ColumnOf(fd) == Some(col)
    ensures forall ps :: BarePairs(ps) && TagText(ps) == fd.tag && (forall col :: !Named(ps, col)) ==>
      ColumnOf(fd) == Some(Underscore(fd.name))
  {
    hide Tags, BarePairs, TagText, Underscore, LastFor;
    WellFormedTags(fd.tag);
    forall ps | BarePairs(ps) && TagText(ps) == fd.tag
      ensures forall col :: Named(ps, col) ==> ColumnOf(fd) == Some(col)
      ensures (forall col :: !Named(ps, col)) ==> ColumnOf(fd) == Some(Underscore(fd.name))
    {
      ColumnOfPairs(fd, ps);
    }
  }

  lemma ColumnOfPairs(fd: StructField, ps: seq<Pair>)
    requires BarePairs(ps) && TagText(ps) == fd.tag
    ensures forall col :: Named(ps, col) ==> ColumnOf(fd) == Some(col)
    ensures (forall col :: !Named(ps, col)) ==> ColumnOf(fd) == Some(Underscore(fd.name))
  {
    hide Tags, BarePairs, TagText, Underscore;
    TagHolds(ps);
    var m := Tags(fd.tag).value;
    if "column" in m {
      forall col | Named(ps, col) ensures col == m["column"] {
        OneLast(ps, "column", col, m["column"]);
      }
      assert LastFor(ps, "column", m["column"]);
      assert m["column"] != "" ==> Named(ps, m["column"]);
    }
  }

  lemma OneLast(ps: seq<Pair>, key: string, a: string, b: string)
    requires LastFor(ps, key, a) && LastFor(ps, key, b)
    ensures a == b
  {
  }

  // A field tagged with a column is stored in it, also in the model.
  lemma TaggedColumn(typeName: string, own: Option<string>, fds: seq<StructField>, i: nat, col: string)
    requires i < |fds| && ModelOf(typeName, own, fds).Some?
    requires Bare(col) && col != "" && fds[i].tag == "column=" + col
    ensures var m := ModelOf(typeName, own, fds).value; |m.fields| == |fds| && m.fields[i].col == col
  {
    hide Tags, Underscore, ByName, ByColumn;
    var ps := [Pair("column", col)];
    assert Bare("column");
    assert PairTexts(ps) == [PairText(ps[0])];
    assert "column" + "=" == "column=";
    assert TagText(ps) == fds[i].tag;
    assert LastAt(ps, 0, "column", col);
    assert Named(ps, col);
    ColumnOfPairs(fds[i], ps);
  }

  // ---------- names ----------

  // A capital and what is no capital.
  predicate Word(w: string) { w != "" && IsUpper(w[0]) && forall i :: 1 <= i < |w| ==> !IsUpper(w[i]) }

  predicate Words(ws: seq<string>) { forall i :: 0 <= i < |ws| ==> Word(ws[i]) }

  function Concat(ws: seq<string>): string {
    if ws == [] then "" else Concat(ws[..|ws| - 1]) + ws[|ws| - 1]
  }

  // The same words, each from a small letter on.
  predicate Lowered(ws: seq<string>, ls: seq<string>) {
    |ls| == |ws| && forall i :: 0 <= i < |ws| ==> LowerWord(ws[i], ls[i])
  }

  predicate LowerWord(w: string, l: string) {
    w != "" && l != "" && IsLower(l[0]) && l[0] as int - 'a' as int == w[0] as int - 'A' as int && l[1..] == w[1..]
  }

  lemma {:induction false} OneWord(a: string, w: string, l: string)
    requires Word(w) && LowerWord(w, l)
    ensures Underscore(a + w) == Underscore(a) + (if a == "" then "" else "_") + l
    decreases |w|
  {
    var n := |w| - 1;
    assert (a + w)[..|a + w| - 1] == a + w[..n];
    assert l == [l[0]] + w[1..];
    if n == 0 {
      assert l == [ToLower(w[0])] && a + w[..0] == a;
    } else {
      assert w[..n][1..] == w[1..][..n - 1];
      OneWord(a, w[..n], [l[0]] + w[1..n]);
      assert w[1..n] + [w[n]] == w[1..];
      assert l == [l[0]] + w[1..n] + [w[n]];
    }
  }

  // The words of a name in small letters, with underscores between them.
  lemma {:induction false} WordsAreUnderscored(ws: seq<string>, ls: seq<string>)
    requires ws != [] && Words(ws) && Lowered(ws, ls)
    ensures Underscore(Concat(ws)) == JoinWith(ls, '_') && Concat(ws) != ""
  {
    hide Underscore, Word, LowerWord;
    var n := |ws| - 1;
    NoName();
    OneWord(Concat(ws[..n]), ws[n], ls[n]);
    if n > 0 {
      WordsAreUnderscored(ws[..n], ls[..n]);
    } else {
      assert Concat(ws[..0]) == "" && "" + ws[0] == ws[0] && "" + "" + ls[0] == ls[0];
    }
  }

  lemma NoName()
    ensures Underscore("") == ""
    ensures forall w :: Word(w) ==> w != ""
  {
  }

  // ---------- models ----------

  predicate FieldSays(f: Field, fd: StructField, i: nat) {
    && Some(f.col) == ColumnOf(fd) && f.name == fd.name && f.typ == fd.typ && f.offset == fd.offset && f.index == i
  }

  // The map finds, for each key, the last field that has it.
  ghost predicate Finds(found: map<string, Field>, keys: seq<string>, fields: seq<Field>)
    requires |keys| == |fields|
  {
    && (forall k <- found :: k in keys)
    && (forall i :: 0 <= i < |keys| ==>
         keys[i] in found && ((forall j :: i < j < |keys| ==> keys[j] != keys[i]) ==> found[keys[i]] == fields[i]))
  }

  lemma FindsMore(found: map<string, Field>, keys: seq<string>, fields: seq<Field>, k: string, f: Field)
    requires |keys| == |fields| && Finds(found, keys, fields)
    ensures Finds(found[k := f], keys + [k], fields + [f])
  {
    var found', keys', fields' := found[k := f], keys + [k], fields + [f];
    forall i | 0 <= i < |keys'|
      ensures keys'[i] in found'
      ensures (forall j :: i < j < |keys'| ==> keys'[j] != keys'[i]) ==> found'[keys'[i]] == fields'[i]
    {
      if i < |keys| && forall j :: i < j < |keys'| ==> keys'[j] != keys'[i] {
        assert forall j :: i < j < |keys| ==> keys[j] == keys'[j];
        assert keys'[|keys|] != keys'[i];
      }
    }
  }

  lemma FindsNothing()
    ensures Finds(map[], [], [])
  {
  }

  lemma {:induction false} IndexFindsLast(keys: seq<string>, fields: seq<Field>)
    requires |keys| == |fields|
    ensures Finds(Index(keys, fields), keys, fields)
  {
    hide Finds;
    if keys == [] {
      FindsNothing();
    } else {
      var n := |keys| - 1;
      IndexFindsLast(keys[..n], fields[..n]);
      FindsMore(Index(keys[..n], fields[..n]), keys[..n], fields[..n], keys[n], fields[n]);
      assert keys[..n] + [keys[n]] == keys && fields[..n] + [fields[n]] == fields;
    }
  }

  // A model keeps every field in its place and finds it under its name and its
  // column, unless a later field has the same one; its table is what TableName
  // answers, if that is not empty, or comes from the name of the type.
  lemma ModelSays(typeName: string, own: Option<string>, fds: seq<StructField>)
    requires ModelOf(typeName, own, fds).Some?
    ensures var m := ModelOf(typeName, own, fds).value;
      && |m.fields| == |fds| && (forall i :: 0 <= i < |fds| ==> FieldSays(m.fields[i], fds[i], i))
      && Finds(m.fieldMap, Names(m.fields), m.fields) && Finds(m.columnMap, Columns(m.fields), m.fields)
      && (forall t :: own == Some(t) && t != "" ==> m.table == t)
      && (own == None || own == Some("") ==> m.table == Underscore(typeName))
  {
    hide Index, Finds, Underscore, ColumnOf;
    var m := ModelOf(typeName, own, fds).value;
    IndexFindsLast(Names(m.fields), m.fields);
    IndexFindsLast(Columns(m.fields), m.fields);
  }

  // No model exactly when a tag is malformed.
  lemma NoModel(typeName: string, own: Option<string>, fds: seq<StructField>)
    ensures ModelOf(typeName, own, fds).None? <==> exists i :: 0 <= i < |fds| && Malformed(fds[i].tag)
  {
    hide ColumnOf, Malformed;
    forall i | 0 <= i < |fds| ensures ColumnOf(fds[i]).None? <==> Malformed(fds[i].tag) {
      ColumnIsNamed(fds[i]);
    }
  }
}
