// The model registry: what homework_subquery knows about a struct type.
module Models {
  import opened Wrappers

  // A Go type, by identity, and the number of memory words its values take.
  datatype Type = Type(id: int, size: nat)

  // A field as reflection shows it; `tag` is the content of its orm tag. Values
  // of a field that is not exported cannot be taken out or set by reflection.
  datatype StructField = StructField(name: string, typ: Type, offset: nat, tag: string, exported: bool)

  datatype Field = Field(col: string, name: string, typ: Type, index: nat, offset: nat)

  datatype Model = Model(table: string, fields: seq<Field>, fieldMap: map<string, Field>, columnMap: map<string, Field>)

  // ---------- names ----------

  predicate IsUpper(c: char) { 'A' <= c <= 'Z' }

  predicate IsLower(c: char) { 'a' <= c <= 'z' }

  predicate IsDigit(c: char) { '0' <= c <= '9' }

  function ToLower(c: char): char { if IsUpper(c) then c + ' ' else c }

  function ToUpper(c: char): char { if IsLower(c) then c - ' ' else c }

  // One character of a name; a capital that is not the first gets an underscore.
  function Piece(c: char, first: bool): string {
    if IsUpper(c) then (if first then "" else "_") + [ToLower(c)] else [c]
  }

  function Underscore(name: string): string {
    if name == "" then "" else
      Underscore(name[..|name| - 1]) + Piece(name[|name| - 1], |name| == 1)
  }

  method UnderscoreName(name: string) returns (buf: string)
    ensures buf == Underscore(name)
  {
    buf := "";
    for i := 0 to |name|
      invariant buf == Underscore(name[..i])
    {
      assert name[..i + 1][..i] == name[..i];
      if IsUpper(name[i]) {
        if i != 0 {
          buf := buf + "_";
        }
        buf := buf + [ToLower(name[i])];
      } else {
        buf := buf + [name[i]];
      }
    }
    assert name[..|name|] == name;
  }

  // Letters and digits, a capital first.
  predicate Plain(name: string) {
    && name != "" && IsUpper(name[0])
    && forall i :: 0 <= i < |name| ==> IsUpper(name[i]) || IsLower(name[i]) || IsDigit(name[i])
  }

  // Reads a column name from its end: the first letter and every letter behind
  // an underscore are capitals.
  function Camel(col: string): string {
    var n := |col|;
    if n == 0 then ""
    else if n == 1 then [ToUpper(col[0])]
    else if col[n - 2] == '_' then Camel(col[..n - 2]) + [ToUpper(col[n - 1])]
    else Camel(col[..n - 1]) + [col[n - 1]]
  }

  lemma CamelCapital(s: string, c: char)
    requires IsUpper(c)
    ensures Camel(s + ['_', ToLower(c)]) == Camel(s) + [c]
  {
    var col := s + ['_', ToLower(c)];
    assert col[..|col| - 2] == s;
    assert ToUpper(ToLower(c)) == c;
  }

  lemma CamelOther(s: string, c: char)
    requires s != "" && s[|s| - 1] != '_'
    ensures Camel(s + [c]) == Camel(s) + [c]
  {
    assert (s + [c])[..|s|] == s;
  }

  lemma {:induction false} CamelUndoesUnderscore(name: string)
    requires Plain(name)
    ensures Camel(Underscore(name)) == name
    ensures Underscore(name) != "" && Underscore(name)[|Underscore(name)| - 1] != '_'
    decreases |name|
  {
    hide Camel;
    var n := |name|;
    if n == 1 {
      CamelFirst(name[0]);
      assert name == [name[0]];
      assert Underscore(name) == "" + [ToLower(name[0])] == [ToLower(name[0])];
    } else {
      var front, c := name[..n - 1], name[n - 1];
      CamelUndoesUnderscore(front);
      assert name == front + [c];
      if IsUpper(c) {
        CamelCapital(Underscore(front), c);
        assert Underscore(name) == Underscore(front) + ("_" + [ToLower(c)]) == Underscore(front) + ['_', ToLower(c)];
      } else {
        CamelOther(Underscore(front), c);
      }
    }
  }

  lemma CamelFirst(c: char)
    requires IsUpper(c)
    ensures Camel([ToLower(c)]) == [c]
  {
  }

  lemma PlainNamesKeepApart(a: string, b: string)
    requires Plain(a) && Plain(b) && Underscore(a) == Underscore(b)
    ensures a == b
  {
    CamelUndoesUnderscore(a);
    CamelUndoesUnderscore(b);
  }

  // A name with an underscore of its own can meet another one.
  lemma UnderscoresCollide()
    ensures Underscore("AB") == Underscore("A_b") == "a_b"
  {
    assert "AB"[..1] == "A" && "A"[..0] == "";
    assert "A_b"[..2] == "A_" && "A_"[..1] == "A";
    assert Underscore("A") == "a";
    assert Underscore("A_") == "a_";
  }

  // ---------- tags ----------

  // strings.Split with a one-character separator.
  function SplitOn(s: string, sep: char): (r: seq<string>)
    ensures |r| >= 1
  {
    if s == "" then [""] else
      var front := SplitOn(s[..|s| - 1], sep);
      var c := s[|s| - 1];
      if c == sep then front + [""] else front[..|front| - 1] + [front[|front| - 1] + [c]]
  }

  // The pairs of a tag, later ones winning; None is a malformed tag.
  function Pairs(pairs: seq<string>): Option<map<string, string>> {
    if pairs == [] then Some(map[]) else
      var kv := SplitOn(pairs[|pairs| - 1], '=');
      match Pairs(pairs[..|pairs| - 1])
      case None => None
      case Some(m) => if |kv| == 2 then Some(m[kv[0] := kv[1]]) else None
  }

  function Tags(tag: string): Option<map<string, string>> {
    if tag == "" then Some(map[]) else Pairs(SplitOn(tag, ','))
  }

  method ParseTag(tag: string) returns (r: Option<map<string, string>>)
    ensures r == Tags(tag)
  {
    if tag == "" {
      return Some(map[]);
    }
    var pairs := SplitOn(tag, ',');
    var res: map<string, string> := map[];
    for i := 0 to |pairs|
      invariant Pairs(pairs[..i]) == Some(res)
    {
      var kv := SplitOn(pairs[i], '=');
      assert pairs[..i + 1][..i] == pairs[..i];
      if |kv| != 2 {
        PairsFail(pairs, i + 1);
        return None;
      }
      res := res[kv[0] := kv[1]];
    }
    assert pairs[..|pairs|] == pairs;
    return Some(res);
  }

  lemma {:induction false} PairsFail(pairs: seq<string>, n: nat)
    requires n <= |pairs| && Pairs(pairs[..n]).None?
    ensures Pairs(pairs).None?
  {
    if n < |pairs| {
      assert pairs[..|pairs| - 1][..n] == pairs[..n];
      PairsFail(pairs[..|pairs| - 1], n);
    } else {
      assert pairs[..n] == pairs;
    }
  }

  // The column of a field: its tag if that names one, its name otherwise.
  function ColumnOf(fd: StructField): Option<string> {
    match Tags(fd.tag)
    case None => None
    case Some(m) =>
      if "column" in m && m["column"] != "" then Some(m["column"]) else Some(Underscore(fd.name))
  }

  // ---------- models ----------

  predicate TagsOk(fds: seq<StructField>) {
    forall i :: 0 <= i < |fds| ==> ColumnOf(fds[i]).Some?
  }

  function FieldsOf(fds: seq<StructField>): (fields: seq<Field>)
    requires TagsOk(fds)
    ensures |fields| == |fds|
  {
    seq(|fds|, i requires 0 <= i < |fds| =>
      Field(ColumnOf(fds[i]).value, fds[i].name, fds[i].typ, i, fds[i].offset))
  }

  // A map from keys to fields; a later field replaces an earlier one.
  function Index(keys: seq<string>, fields: seq<Field>): map<string, Field>
    requires |keys| == |fields|
  {
    if keys == [] then map[] else
      var n := |keys| - 1;
      Index(keys[..n], fields[..n])[keys[n] := fields[n]]
  }

  function Names(fields: seq<Field>): (r: seq<string>)
    ensures |r| == |fields|
  {
    seq(|fields|, i requires 0 <= i < |fields| => fields[i].name)
  }

  function Columns(fields: seq<Field>): (r: seq<string>)
    ensures |r| == |fields|
  {
    seq(|fields|, i requires 0 <= i < |fields| => fields[i].col)
  }

  function ByName(fields: seq<Field>): map<string, Field> { Index(Names(fields), fields) }

  function ByColumn(fields: seq<Field>): map<string, Field> { Index(Columns(fields), fields) }

  lemma IndexGrows(keys: seq<string>, fields: seq<Field>, k: string, f: Field)
    requires |keys| == |fields|
    ensures Index(keys + [k], fields + [f]) == Index(keys, fields)[k := f]
  {
    assert (keys + [k])[..|keys|] == keys && (fields + [f])[..|keys|] == fields;
  }

  function TableName(typeName: string, own: Option<string>): string {
    if own.Some? && own.value != "" then own.value else Underscore(typeName)
  }

  function ModelOf(typeName: string, own: Option<string>, fds: seq<StructField>): Option<Model> {
    if TagsOk(fds) then
      Some(Model(TableName(typeName, own), FieldsOf(fds), ByName(FieldsOf(fds)), ByColumn(FieldsOf(fds))))
    else None
  }

  // `own` is what the type's TableName method returns, if it has one.
  method ParseModel(typeName: string, own: Option<string>, fds: seq<StructField>) returns (r: Option<Model>)
    ensures r == ModelOf(typeName, own, fds)
  {
    hide Index, Underscore, Tags, Pairs, SplitOn;
    var fields: seq<Field>, fieldMap: map<string, Field>, colMap: map<string, Field> := [], map[], map[];
    IndexEmpty();
    for i := 0 to |fds|
      invariant TagsOk(fds[..i])
      invariant fields == FieldsOf(fds[..i]) && fieldMap == ByName(fields) && colMap == ByColumn(fields)
    {
      var tags := ParseTag(fds[i].tag);
      if tags.None? {
        assert !TagsOk(fds);
        return None;
      }
      var col := if "column" in tags.value then tags.value["column"] else "";
      if col == "" {
        col := UnderscoreName(fds[i].name);
      }
      var f := Field(col, fds[i].name, fds[i].typ, i, fds[i].offset);
      fieldMap, colMap := fieldMap[f.name := f], colMap[col := f];
      AddField(fds, i, fields, f);
      fields := fields + [f];
    }
    assert fds[..|fds|] == fds;
    var table := if own.Some? then own.value else "";
    if table == "" {
      table := UnderscoreName(typeName);
    }
    return Some(Model(table, fields, fieldMap, colMap));
  }

  lemma IndexEmpty()
    ensures Index([], []) == map[]
  {
  }

  lemma AddField(fds: seq<StructField>, i: nat, fields: seq<Field>, f: Field)
    requires i < |fds| && TagsOk(fds[..i]) && fields == FieldsOf(fds[..i])
    requires ColumnOf(fds[i]) == Some(f.col)
    requires f == Field(f.col, fds[i].name, fds[i].typ, i, fds[i].offset)
    ensures TagsOk(fds[..i + 1]) && fields + [f] == FieldsOf(fds[..i + 1])
    ensures ByName(fields + [f]) == ByName(fields)[f.name := f]
    ensures ByColumn(fields + [f]) == ByColumn(fields)[f.col := f]
  {
    hide ColumnOf;
    IndexGrows(Names(fields), fields, f.name, f);
    IndexGrows(Columns(fields), fields, f.col, f);
    assert Names(fields + [f]) == Names(fields) + [f.name];
    assert Columns(fields + [f]) == Columns(fields) + [f.col];
  }

  // ---------- what the maps hold ----------

  predicate Distinct(keys: seq<string>) { forall i, j :: 0 <= i < j < |keys| ==> keys[i] != keys[j] }

  lemma {:induction false} IndexHasKeys(keys: seq<string>, fields: seq<Field>)
    requires |keys| == |fields|
    ensures Index(keys, fields).Keys == set i | 0 <= i < |keys| :: keys[i]
  {
    if keys != [] {
      var n := |keys| - 1;
      IndexHasKeys(keys[..n], fields[..n]);
    }
  }

  lemma {:induction false} IndexIsSound(keys: seq<string>, fields: seq<Field>, k: string) returns (i: nat)
    requires |keys| == |fields| && k in Index(keys, fields)
    ensures i < |keys| && keys[i] == k && fields[i] == Index(keys, fields)[k]
  {
    var n := |keys| - 1;
    if keys[n] == k {
      i := n;
    } else {
      i := IndexIsSound(keys[..n], fields[..n], k);
    }
  }

  lemma {:induction false} IndexFinds(keys: seq<string>, fields: seq<Field>, i: nat)
    requires |keys| == |fields| && i < |keys| && Distinct(keys)
    ensures keys[i] in Index(keys, fields) && Index(keys, fields)[keys[i]] == fields[i]
  {
    var n := |keys| - 1;
    if i < n {
      IndexFinds(keys[..n], fields[..n], i);
    }
  }

  lemma {:induction false} IndexSize(keys: seq<string>, fields: seq<Field>)
    requires |keys| == |fields|
    ensures |Index(keys, fields)| <= |keys|
    ensures |Index(keys, fields)| == |keys| <==> Distinct(keys)
  {
    if keys != [] {
      var n := |keys| - 1;
      IndexSize(keys[..n], fields[..n]);
      IndexHasKeys(keys[..n], fields[..n]);
      Grow(Index(keys[..n], fields[..n]), keys[n], fields[n]);
      DistinctSnoc(keys);
    }
  }

  lemma DistinctSnoc(keys: seq<string>)
    requires keys != []
    ensures Distinct(keys) <==> Distinct(keys[..|keys| - 1]) && keys[|keys| - 1] !in keys[..|keys| - 1]
  {
    var n := |keys| - 1;
    assert forall i :: 0 <= i < n ==> keys[..n][i] == keys[i];
    if Distinct(keys[..n]) && keys[n] !in keys[..n] {
      forall i, j | 0 <= i < j < |keys| ensures keys[i] != keys[j] {
        assert keys[i] == keys[..n][i];
      }
    }
  }

  lemma Grow(m: map<string, Field>, k: string, f: Field)
    ensures |m[k := f]| == if k in m then |m| else |m| + 1
  {
    var m' := m[k := f];
    if k in m {
      assert m'.Keys == m.Keys;
    } else {
      assert m'.Keys == m.Keys + {k};
    }
  }

  // The column map inverts the column names of the field map.
  ghost predicate Inverts(m: Model) {
    && |m.columnMap| == |m.fieldMap| == |m.fields|
    && forall n <- m.fieldMap :: m.fieldMap[n].col in m.columnMap && m.columnMap[m.fieldMap[n].col] == m.fieldMap[n]
  }

  // It does so exactly when no two fields share a column.
  lemma ColumnMapInverts(typeName: string, own: Option<string>, fds: seq<StructField>)
    requires TagsOk(fds) && Distinct(Names(FieldsOf(fds)))
    ensures Inverts(ModelOf(typeName, own, fds).value) <==> Distinct(Columns(FieldsOf(fds)))
  {
    hide Index, ColumnOf, Distinct, FieldsOf;
    var fields := FieldsOf(fds);
    IndexSize(Names(fields), fields);
    IndexSize(Columns(fields), fields);
    if Distinct(Columns(fields)) {
      forall n <- ByName(fields)
        ensures ByName(fields)[n].col in ByColumn(fields)
        ensures ByColumn(fields)[ByName(fields)[n].col] == ByName(fields)[n]
      {
        var i := IndexIsSound(Names(fields), fields, n);
        IndexFinds(Columns(fields), fields, i);
      }
    }
  }

  // Untagged fields with plain names never share one.
  lemma PlainModelInverts(typeName: string, own: Option<string>, fds: seq<StructField>)
    requires forall i :: 0 <= i < |fds| ==> fds[i].tag == "" && Plain(fds[i].name)
    requires forall i, j :: 0 <= i < j < |fds| ==> fds[i].name != fds[j].name
    ensures ModelOf(typeName, own, fds).Some? && Inverts(ModelOf(typeName, own, fds).value)
  {
    hide Plain, Underscore, Index;
    assert forall i :: 0 <= i < |fds| ==> ColumnOf(fds[i]) == Some(Underscore(fds[i].name));
    var fields := FieldsOf(fds);
    forall i, j | 0 <= i < j < |fields| ensures fields[i].col != fields[j].col {
      if fields[i].col == fields[j].col {
        PlainNamesKeepApart(fds[i].name, fds[j].name);
        assert false;
      }
    }
    ColumnMapInverts(typeName, own, fds);
  }
}
