// The two row valuers of homework_subquery: both copy a result row into a
// struct, one through reflection, one through the offsets of its model.
module Rows {
  import opened Wrappers
  import opened Models

  type Word = int

  // A result row: the columns it reports, unless that fails, and what column i
  // converts to as a value of a type. A pair without a cell does not convert.
  datatype Rows = Rows(cols: Option<seq<string>>, cells: map<(nat, Type), seq<Word>>)

  datatype Error =
    | NoError | ColumnsError | TooManyColumns | UnknownColumn(col: string) | ScanError(index: nat) | Panic(at: nat)

  // A conversion overwrites the whole destination.
  predicate WellSized(rows: Rows) { forall k <- rows.cells :: |rows.cells[k]| == k.1.size }

  predicate Fits(f: Field, size: nat) { f.offset + f.typ.size <= size }

  predicate AllFit(fds: seq<StructField>, size: nat) {
    forall i :: 0 <= i < |fds| ==> fds[i].offset + fds[i].typ.size <= size
  }

  // ---------- memory ----------

  function Splice(c: seq<Word>, at: nat, block: seq<Word>): (r: seq<Word>)
    requires at + |block| <= |c|
    ensures |r| == |c|
  {
    c[..at] + block + c[at + |block|..]
  }

  method WriteBlock(a: array<Word>, at: nat, block: seq<Word>)
    requires at + |block| <= a.Length
    modifies a
    ensures a[..] == Splice(old(a[..]), at, block)
  {
    for j := 0 to |block|
      invariant forall i :: 0 <= i < a.Length ==> a[i] == if at <= i < at + j then block[i - at] else old(a[i])
    {
      a[at + j] := block[j];
    }
  }

  // A destination of Scan: the words of `a` from `at` on.
  datatype Dest = Dest(a: array<Word>, at: nat, typ: Type)

  predicate DestsFit(dests: seq<Dest>) {
    forall i :: 0 <= i < |dests| ==> dests[i].at + dests[i].typ.size <= dests[i].a.Length
  }

  // The words column i converts to; zeros stand for a failed conversion.
  function Block(rows: Rows, i: nat, typ: Type): (block: seq<Word>)
    requires WellSized(rows)
    ensures |block| == typ.size
  {
    if (i, typ) in rows.cells then rows.cells[(i, typ)] else seq(typ.size, _ => 0)
  }

  // The first column that does not convert.
  function Bad(rows: Rows, types: seq<Type>, i: nat): (n: nat)
    requires i <= |types|
    ensures i <= n <= |types|
    ensures forall j :: i <= j < n ==> (j, types[j]) in rows.cells
    ensures n < |types| ==> (n, types[n]) !in rows.cells
    decreases |types| - i
  {
    if i < |types| && (i, types[i]) in rows.cells then Bad(rows, types, i + 1) else i
  }

  function Types(dests: seq<Dest>): (ts: seq<Type>)
    ensures |ts| == |dests|
  {
    seq(|dests|, i requires 0 <= i < |dests| => dests[i].typ)
  }

  // The content of one array after the first n destinations are written.
  ghost function Patched(m: array<Word>, c: seq<Word>, rows: Rows, dests: seq<Dest>, n: nat): (r: seq<Word>)
    requires n <= |dests| && DestsFit(dests) && WellSized(rows) && |c| == m.Length
    ensures |r| == m.Length
  {
    if n == 0 then c else
      var p := Patched(m, c, rows, dests, n - 1);
      var d := dests[n - 1];
      if d.a == m then Splice(p, d.at, Block(rows, n - 1, d.typ)) else p
  }

  // rows.Scan: one conversion after another, up to the first that fails.
  method Scan(rows: Rows, dests: seq<Dest>, ghost arrays: set<array<Word>>) returns (e: Error)
    requires WellSized(rows) && DestsFit(dests)
    requires forall i :: 0 <= i < |dests| ==> dests[i].a in arrays
    modifies arrays
    ensures var n := Bad(rows, Types(dests), 0);
      && e == (if n < |dests| then ScanError(n) else NoError)
      && forall m <- arrays :: m[..] == Patched(m, old(m[..]), rows, dests, n)
  {
    var i := 0;
    while i < |dests|
      invariant i <= Bad(rows, Types(dests), 0) == Bad(rows, Types(dests), i) <= |dests|
      invariant forall m <- arrays :: m[..] == Patched(m, old(m[..]), rows, dests, i)
    {
      var d := dests[i];
      if (i, d.typ) !in rows.cells {
        return ScanError(i);
      }
      WriteBlock(d.a, d.at, rows.cells[(i, d.typ)]);
      i := i + 1;
    }
    return NoError;
  }

  // ---------- what a row leaves in a struct ----------

  // The first reported column the model does not know.
  function Unknown(meta: Model, cs: seq<string>, i: nat): (n: nat)
    requires i <= |cs|
    ensures i <= n <= |cs|
    ensures forall j :: i <= j < n ==> cs[j] in meta.columnMap
    ensures n < |cs| ==> cs[n] !in meta.columnMap
    decreases |cs| - i
  {
    if i < |cs| && cs[i] in meta.columnMap then Unknown(meta, cs, i + 1) else i
  }

  predicate Known(meta: Model, cs: seq<string>) { forall i :: 0 <= i < |cs| ==> cs[i] in meta.columnMap }

  function ColTypes(meta: Model, cs: seq<string>): (ts: seq<Type>)
    requires Known(meta, cs)
    ensures |ts| == |cs|
  {
    seq(|cs|, i requires 0 <= i < |cs| => meta.columnMap[cs[i]].typ)
  }

  // The error of a valuer that allows `limit` columns.
  function ErrorOf(meta: Model, rows: Rows, limit: nat): Error {
    match rows.cols
    case None => ColumnsError
    case Some(cs) =>
      if |cs| > limit then TooManyColumns
      else if !Known(meta, cs) then UnknownColumn(cs[Unknown(meta, cs, 0)])
      else
        var n := Bad(rows, ColTypes(meta, cs), 0);
        if n < |cs| then ScanError(n) else NoError
  }

  predicate MetaFits(meta: Model, size: nat) { forall c <- meta.columnMap :: Fits(meta.columnMap[c], size) }

  // The struct after its first n columns are copied in order.
  function Copied(c: seq<Word>, meta: Model, rows: Rows, cs: seq<string>, n: nat): (r: seq<Word>)
    requires n <= |cs| && Known(meta, cs) && WellSized(rows) && MetaFits(meta, |c|)
    ensures |r| == |c|
  {
    if n == 0 then c else
      var f := meta.columnMap[cs[n - 1]];
      Splice(Copied(c, meta, rows, cs, n - 1), f.offset, Block(rows, n - 1, f.typ))
  }

  // The unsafe valuer writes up to the failing column.
  function UnsafeResult(c: seq<Word>, meta: Model, rows: Rows): seq<Word>
    requires WellSized(rows) && MetaFits(meta, |c|)
  {
    match ErrorOf(meta, rows, |meta.columnMap|)
    case NoError => Copied(c, meta, rows, rows.cols.value, |rows.cols.value|)
    case ScanError(n) => Copied(c, meta, rows, rows.cols.value, n)
    case _ => c
  }

  // A struct type: its own fields, and the fields of embedded structs that Go
  // promotes under a name none of its own fields has.
  datatype StructType = StructType(fields: seq<StructField>, promoted: map<string, StructField>)

  function OwnField(fds: seq<StructField>, name: string): Option<StructField> {
    if fds == [] then None
    else if fds[0].name == name then Some(fds[0])
    else OwnField(fds[1..], name)
  }

  // FieldByName on the struct type.
  function FieldByName(t: StructType, name: string): Option<StructField> {
    match OwnField(t.fields, name)
    case Some(fd) => Some(fd)
    case None => if name in t.promoted then Some(t.promoted[name]) else None
  }

  // Whether reflection may set the field of a column.
  predicate Settable(meta: Model, t: StructType, c: string)
    requires c in meta.columnMap
  {
    var fd := FieldByName(t, meta.columnMap[c].name);
    fd.Some? && fd.value.exported
  }

  // The first reported column from i on whose field reflection may not set.
  function Sealed(meta: Model, t: StructType, cs: seq<string>, i: nat): (n: nat)
    requires i <= |cs| && Known(meta, cs)
    ensures i <= n <= |cs|
    ensures forall j :: i <= j < n ==> Settable(meta, t, cs[j])
    ensures n < |cs| ==> !Settable(meta, t, cs[n])
    decreases |cs| - i
  {
    if i < |cs| && Settable(meta, t, cs[i]) then Sealed(meta, t, cs, i + 1) else i
  }

  function ReflectError(meta: Model, t: StructType, rows: Rows): Error {
    match ErrorOf(meta, rows, |meta.fieldMap|)
    case NoError =>
      var n := Sealed(meta, t, rows.cols.value, 0);
      if n < |rows.cols.value| then Panic(n) else NoError
    case e => e
  }

  // The reflective one writes nothing before every column is converted, and
  // then up to the first field it may not set.
  function ReflectResult(c: seq<Word>, meta: Model, t: StructType, rows: Rows): seq<Word>
    requires WellSized(rows) && MetaFits(meta, |c|)
  {
    match ReflectError(meta, t, rows)
    case NoError => Copied(c, meta, rows, rows.cols.value, |rows.cols.value|)
    case Panic(n) => Copied(c, meta, rows, rows.cols.value, n)
    case _ => c
  }

  // ---------- the unsafe valuer ----------

  // Destinations inside the struct itself; a column may be reported twice.
  predicate PointsInto(dests: seq<Dest>, mem: array<Word>, meta: Model, cs: seq<string>) {
    && |dests| <= |cs|
    && forall j :: 0 <= j < |dests| ==>
         cs[j] in meta.columnMap && dests[j] == Dest(mem, meta.columnMap[cs[j]].offset, meta.columnMap[cs[j]].typ)
  }

  method Pointers(meta: Model, cs: seq<string>, mem: array<Word>) returns (dests: seq<Dest>)
    ensures |dests| == Unknown(meta, cs, 0) && PointsInto(dests, mem, meta, cs)
  {
    dests := [];
    while |dests| < |cs| && cs[|dests|] in meta.columnMap
      invariant |dests| <= |cs| && Unknown(meta, cs, 0) == Unknown(meta, cs, |dests|)
      invariant PointsInto(dests, mem, meta, cs)
      decreases |cs| - |dests|
    {
      var cm := meta.columnMap[cs[|dests|]];
      dests := dests + [Dest(mem, cm.offset, cm.typ)];
    }
  }

  method UnsafeSetColumns(meta: Model, rows: Rows, mem: array<Word>) returns (e: Error)
    requires WellSized(rows) && MetaFits(meta, mem.Length)
    modifies mem
    ensures e == ErrorOf(meta, rows, |meta.columnMap|)
    ensures mem[..] == UnsafeResult(old(mem[..]), meta, rows)
  {
    hide Copied, Patched, Bad, Unknown;
    if rows.cols.None? {
      return ColumnsError;
    }
    var cs := rows.cols.value;
    if |cs| > |meta.columnMap| {
      return TooManyColumns;
    }
    var dests := Pointers(meta, cs, mem);
    if |dests| < |cs| {
      return UnknownColumn(cs[|dests|]);
    }
    assert Types(dests) == ColTypes(meta, cs);
    PatchedIsCopied(mem, mem[..], meta, rows, cs, dests, Bad(rows, ColTypes(meta, cs), 0));
    e := Scan(rows, dests, {mem});
  }

  lemma {:induction false} PatchedIsCopied(m: array<Word>, c: seq<Word>, meta: Model, rows: Rows, cs: seq<string>,
                                           dests: seq<Dest>, n: nat)
    requires Known(meta, cs) && WellSized(rows) && MetaFits(meta, |c|) && |c| == m.Length
    requires n <= |cs| == |dests| && PointsInto(dests, m, meta, cs)
    ensures DestsFit(dests) && Patched(m, c, rows, dests, n) == Copied(c, meta, rows, cs, n)
  {
    if n > 0 {
      PatchedIsCopied(m, c, meta, rows, cs, dests, n - 1);
    }
  }

  // ---------- the reflective valuer ----------

  lemma {:induction false} FindsOwn(fds: seq<StructField>, i: nat)
    requires i < |fds| && forall j :: 0 <= j < i ==> fds[j].name != fds[i].name
    ensures OwnField(fds, fds[i].name) == Some(fds[i])
  {
    if i > 0 {
      FindsOwn(fds[1..], i - 1);
    }
  }

  lemma {:induction false} NotOwn(fds: seq<StructField>, name: string)
    ensures OwnField(fds, name).None? <==> forall i :: 0 <= i < |fds| ==> fds[i].name != name
  {
    if fds != [] {
      NotOwn(fds[1..], name);
      assert forall i :: 0 < i < |fds| ==> fds[i] == fds[1..][i - 1];
    }
  }

  // The model was parsed from the struct, whose field names differ.
  ghost predicate Describes(meta: Model, fds: seq<StructField>) {
    && TagsOk(fds) && Distinct(Names(FieldsOf(fds)))
    && meta.fields == FieldsOf(fds) && meta.fieldMap == ByName(meta.fields) && meta.columnMap == ByColumn(meta.fields)
  }

  // Every mapped column is a field of the struct itself.
  lemma ColumnOwner(meta: Model, fds: seq<StructField>, c: string) returns (i: nat)
    requires Describes(meta, fds) && c in meta.columnMap
    ensures i < |fds| && OwnField(fds, meta.columnMap[c].name) == Some(fds[i])
    ensures var f := meta.columnMap[c]; f.name == fds[i].name && f.offset == fds[i].offset && f.typ == fds[i].typ
  {
    hide Index, OwnField, ColumnOf;
    var fields := FieldsOf(fds);
    i := IndexIsSound(Columns(fields), fields, c);
    forall j | 0 <= j < i ensures fds[j].name != fds[i].name {
      assert Names(fields)[j] != Names(fields)[i];
    }
    FindsOwn(fds, i);
  }

  // So reflection finds it where the model says it is.
  lemma SamePlace(meta: Model, t: StructType, c: string)
    requires Describes(meta, t.fields) && c in meta.columnMap
    ensures var f := meta.columnMap[c];
      var fd := FieldByName(t, f.name);
      fd.Some? && fd.value.offset == f.offset && fd.value.typ == f.typ
  {
    var _ := ColumnOwner(meta, t.fields, c);
  }

  lemma ModelFits(meta: Model, fds: seq<StructField>, size: nat)
    requires Describes(meta, fds) && AllFit(fds, size)
    ensures MetaFits(meta, size)
  {
    hide Index, ColumnOf;
    var fields := FieldsOf(fds);
    forall c <- meta.columnMap ensures Fits(meta.columnMap[c], size) {
      var i := IndexIsSound(Columns(fields), fields, c);
      assert fds[i].offset + fds[i].typ.size <= size;
    }
  }

  // Fresh temporaries, one a column.
  predicate Temporaries(dests: seq<Dest>, meta: Model, cs: seq<string>) {
    && |dests| <= |cs|
    && (forall j :: 0 <= j < |dests| ==>
          cs[j] in meta.columnMap && dests[j].at == 0 && dests[j].typ == meta.columnMap[cs[j]].typ &&
          dests[j].a.Length == dests[j].typ.size)
    && forall j, k :: 0 <= j < k < |dests| ==> dests[j].a != dests[k].a
  }

  method NewTemporaries(meta: Model, cs: seq<string>) returns (dests: seq<Dest>)
    ensures |dests| == Unknown(meta, cs, 0) && Temporaries(dests, meta, cs)
    ensures forall j :: 0 <= j < |dests| ==> fresh(dests[j].a)
  {
    dests := [];
    while |dests| < |cs| && cs[|dests|] in meta.columnMap
      invariant |dests| <= |cs| && Unknown(meta, cs, 0) == Unknown(meta, cs, |dests|) && Temporaries(dests, meta, cs)
      invariant forall j :: 0 <= j < |dests| ==> fresh(dests[j].a)
      decreases |cs| - |dests|
    {
      var typ := meta.columnMap[cs[|dests|]].typ;
      var tmp := new Word[typ.size];
      dests := dests + [Dest(tmp, 0, typ)];
    }
  }

  // A temporary holds its own column once that is scanned.
  lemma {:induction false} HoldsItsColumn(c: seq<Word>, meta: Model, rows: Rows, cs: seq<string>, dests: seq<Dest>,
                                          i: nat, n: nat)
    requires WellSized(rows) && Temporaries(dests, meta, cs) && i < |dests| && n <= |dests| && |c| == dests[i].a.Length
    ensures DestsFit(dests)
    ensures Patched(dests[i].a, c, rows, dests, n) == if i < n then Block(rows, i, dests[i].typ) else c
  {
    if n > 0 {
      HoldsItsColumn(c, meta, rows, cs, dests, i, n - 1);
    }
  }

  // The scanned temporaries.
  ghost predicate AllScanned(rows: Rows, dests: seq<Dest>)
    requires WellSized(rows)
    reads set i | 0 <= i < |dests| :: dests[i].a
  {
    forall i :: 0 <= i < |dests| ==> dests[i].a[..] == Block(rows, i, dests[i].typ)
  }

  method ScanTemporaries(meta: Model, cs: seq<string>, rows: Rows, dests: seq<Dest>) returns (e: Error)
    requires WellSized(rows) && Temporaries(dests, meta, cs)
    modifies set i | 0 <= i < |dests| :: dests[i].a
    ensures var n := Bad(rows, Types(dests), 0); e == if n < |dests| then ScanError(n) else NoError
    ensures e.NoError? ==> AllScanned(rows, dests)
  {
    hide Patched, Bad, Block;
    ghost var arrays := set i | 0 <= i < |dests| :: dests[i].a;
    assert DestsFit(dests);
    forall i | 0 <= i < |dests|
      ensures Patched(dests[i].a, dests[i].a[..], rows, dests, |dests|) == Block(rows, i, dests[i].typ)
    {
      HoldsItsColumn(dests[i].a[..], meta, rows, cs, dests, i, |dests|);
    }
    e := Scan(rows, dests, arrays);
    if e.NoError? {
      forall i | 0 <= i < |dests| ensures dests[i].a[..] == Block(rows, i, dests[i].typ) {
        assert dests[i].a in arrays;
      }
    }
  }

  // Setting the fields by name, one column after another.
  method SetFields(meta: Model, t: StructType, rows: Rows, cs: seq<string>, dests: seq<Dest>, mem: array<Word>)
      returns (e: Error)
    requires WellSized(rows) && Describes(meta, t.fields) && MetaFits(meta, mem.Length) && Known(meta, cs)
    requires Temporaries(dests, meta, cs) && |dests| == |cs| && AllScanned(rows, dests)
    requires forall i :: 0 <= i < |dests| ==> dests[i].a != mem
    modifies mem
    ensures var n := Sealed(meta, t, cs, 0);
      && e == (if n < |cs| then Panic(n) else NoError)
      && mem[..] == Copied(old(mem[..]), meta, rows, cs, n)
  {
    hide Describes, Block, FieldByName;
    for i := 0 to |cs|
      invariant mem[..] == Copied(old(mem[..]), meta, rows, cs, i)
      invariant AllScanned(rows, dests) && Sealed(meta, t, cs, 0) == Sealed(meta, t, cs, i)
    {
      var cm := meta.columnMap[cs[i]];
      SamePlace(meta, t, cs[i]);
      var fd := FieldByName(t, cm.name);
      if !fd.value.exported {
        return Panic(i);
      }
      WriteBlock(mem, fd.value.offset, dests[i].a[..]);
    }
    return NoError;
  }

  method ReflectSetColumns(meta: Model, t: StructType, rows: Rows, mem: array<Word>) returns (e: Error)
    requires WellSized(rows) && Describes(meta, t.fields) && MetaFits(meta, mem.Length)
    modifies mem
    ensures e == ReflectError(meta, t, rows)
    ensures mem[..] == ReflectResult(old(mem[..]), meta, t, rows)
  {
    hide Copied, Bad, Unknown, Describes, Sealed;
    if rows.cols.None? {
      return ColumnsError;
    }
    var cs := rows.cols.value;
    if |cs| > |meta.fieldMap| {
      return TooManyColumns;
    }
    var dests := NewTemporaries(meta, cs);
    if |dests| < |cs| {
      return UnknownColumn(cs[|dests|]);
    }
    assert Types(dests) == ColTypes(meta, cs);
    e := ScanTemporaries(meta, cs, rows, dests);
    if e.NoError? {
      e := SetFields(meta, t, rows, cs, dests, mem);
    }
  }

  // ---------- agreement ----------

  // Up to setting the fields the two report the same error unless the number
  // of columns lies between the sizes of their maps.
  lemma SameErrorIff(meta: Model, fds: seq<StructField>, rows: Rows)
    requires Describes(meta, fds)
    ensures ErrorOf(meta, rows, |meta.columnMap|) == ErrorOf(meta, rows, |meta.fieldMap|) <==>
            !(rows.cols.Some? && |meta.columnMap| < |rows.cols.value| <= |meta.fieldMap|)
  {
    hide Index, Bad, Unknown;
    IndexSize(Columns(meta.fields), meta.fields);
    IndexSize(Names(meta.fields), meta.fields);
  }

  // Every reported column belongs to an exported field of the struct.
  predicate AllExported(fds: seq<StructField>, meta: Model, cs: seq<string>)
    requires Known(meta, cs)
  {
    forall k, i :: 0 <= k < |cs| && 0 <= i < |fds| && fds[i].name == meta.columnMap[cs[k]].name ==> fds[i].exported
  }

  lemma SealedIff(meta: Model, t: StructType, cs: seq<string>)
    requires Describes(meta, t.fields) && Known(meta, cs)
    ensures Sealed(meta, t, cs, 0) == |cs| <==> AllExported(t.fields, meta, cs)
  {
    hide Describes, Sealed;
    forall k | 0 <= k < |cs|
      ensures Settable(meta, t, cs[k]) <==>
              forall i :: 0 <= i < |t.fields| && t.fields[i].name == meta.columnMap[cs[k]].name ==> t.fields[i].exported
    {
      var o := ColumnOwner(meta, t.fields, cs[k]);
      forall i | 0 <= i < |t.fields| && t.fields[i].name == meta.columnMap[cs[k]].name ensures i == o {
        OneOwner(meta, t.fields, i, o);
      }
    }
  }

  lemma OneOwner(meta: Model, fds: seq<StructField>, i: nat, j: nat)
    requires Describes(meta, fds) && i < |fds| && j < |fds| && fds[i].name == fds[j].name
    ensures i == j
  {
    hide Index, ColumnOf;
    assert Names(FieldsOf(fds))[i] == fds[i].name && Names(FieldsOf(fds))[j] == fds[j].name;
  }

  // With distinct columns the fast form refines the simple one: as long as no
  // conversion fails they agree on error and struct exactly when every reported
  // column belongs to an exported field. For others only the fast form succeeds.
  lemma UnsafeRefinesReflect(meta: Model, t: StructType, rows: Rows, c: seq<Word>)
    requires Describes(meta, t.fields) && Distinct(Columns(meta.fields))
    requires WellSized(rows) && MetaFits(meta, |c|)
    ensures var e := ErrorOf(meta, rows, |meta.columnMap|);
      && (!e.NoError? ==> ReflectError(meta, t, rows) == e)
      && (!e.NoError? && !e.ScanError? ==> UnsafeResult(c, meta, rows) == c == ReflectResult(c, meta, t, rows))
      && (e.NoError? ==> Known(meta, rows.cols.value))
      && (e.NoError? ==>
            (ReflectError(meta, t, rows) == e && UnsafeResult(c, meta, rows) == ReflectResult(c, meta, t, rows) <==>
             AllExported(t.fields, meta, rows.cols.value)))
  {
    hide Index, Bad, Unknown, Copied, Sealed, AllExported;
    IndexSize(Columns(meta.fields), meta.fields);
    IndexSize(Names(meta.fields), meta.fields);
    if ErrorOf(meta, rows, |meta.columnMap|).NoError? {
      SealedIff(meta, t, rows.cols.value);
    }
  }

  // In particular they agree on every struct of untagged exported fields with
  // plain names.
  lemma PlainStructsAgree(typeName: string, own: Option<string>, t: StructType, rows: Rows, c: seq<Word>)
    requires forall i :: 0 <= i < |t.fields| ==>
      t.fields[i].tag == "" && Plain(t.fields[i].name) && t.fields[i].exported
    requires forall i, j :: 0 <= i < j < |t.fields| ==> t.fields[i].name != t.fields[j].name
    requires WellSized(rows) && AllFit(t.fields, |c|)
    ensures ModelOf(typeName, own, t.fields).Some?
    ensures var meta := ModelOf(typeName, own, t.fields).value;
      var e := ErrorOf(meta, rows, |meta.columnMap|);
      && Describes(meta, t.fields) && MetaFits(meta, |c|)
      && e == ReflectError(meta, t, rows)
      && (!e.ScanError? ==> UnsafeResult(c, meta, rows) == ReflectResult(c, meta, t, rows))
  {
    hide Plain, Underscore, Index, ErrorOf, UnsafeResult, ReflectResult, ReflectError, MetaFits, ColumnOf;
    PlainModelInverts(typeName, own, t.fields);
    var meta := ModelOf(typeName, own, t.fields).value;
    forall i, j | 0 <= i < j < |t.fields| ensures Names(meta.fields)[i] != Names(meta.fields)[j] {
      assert t.fields[i].name != t.fields[j].name;
    }
    ColumnMapInverts(typeName, own, t.fields);
    ModelFits(meta, t.fields, |c|);
    UnsafeRefinesReflect(meta, t, rows, c);
  }

  // A struct whose one field `id` is not exported, and a row with that column.
  lemma UnexportedFieldPanics(v: Word)
    ensures var t := StructType([StructField("id", Type(0, 1), 0, "", false)], map[]);
      var meta := ModelOf("user", None, t.fields);
      var rows := Rows(Some(["id"]), map[(0, Type(0, 1)) := [v]]);
      && meta.Some? && Describes(meta.value, t.fields) && WellSized(rows)
      && ErrorOf(meta.value, rows, |meta.value.columnMap|) == NoError
      && ReflectError(meta.value, t, rows) == Panic(0)
      && NamesFit(meta.value, 1) && UnsafeField(meta.value, [v], "id") == Got([v])
      && ReflectField(t, [v], "id") == Panics
  {
    hide ErrorOf, ReflectError, UnsafeField, ReflectField, NamesFit;
    var t := StructType([StructField("id", Type(0, 1), 0, "", false)], map[]);
    UnderscoreId();
    var f := Field("id", "id", Type(0, 1), 0, 0);
    assert FieldsOf(t.fields) == [f];
    assert Names([f]) == ["id"] && Columns([f]) == ["id"];
    assert ["id"][..0] == [] && [f][..0] == [];
    assert Index(["id"], [f]) == map["id" := f];
    OneSealed(ModelOf("user", None, t.fields).value, t, v);
  }

  lemma OneSealed(meta: Model, t: StructType, v: Word)
    requires t == StructType([StructField("id", Type(0, 1), 0, "", false)], map[])
    requires meta.columnMap == meta.fieldMap == map["id" := Field("id", "id", Type(0, 1), 0, 0)]
    ensures var rows := Rows(Some(["id"]), map[(0, Type(0, 1)) := [v]]);
      && ErrorOf(meta, rows, |meta.columnMap|) == NoError && ReflectError(meta, t, rows) == Panic(0)
      && NamesFit(meta, 1) && UnsafeField(meta, [v], "id") == Got([v]) && ReflectField(t, [v], "id") == Panics
  {
    assert OwnField(t.fields, "id") == Some(t.fields[0]);
    assert Known(meta, ["id"]) && ColTypes(meta, ["id"]) == [Type(0, 1)];
  }

  lemma UnderscoreId()
    ensures Underscore("id") == "id"
  {
    assert "id"[..1] == "i" && "i"[..0] == "";
    assert Underscore("i") == "i";
  }

  // ---------- reading a field ----------

  function Read(c: seq<Word>, at: nat, size: nat): (block: seq<Word>)
    requires at + size <= |c|
    ensures |block| == size
  {
    c[at..at + size]
  }

  datatype Outcome = Got(block: seq<Word>) | NoField | Panics

  predicate NamesFit(meta: Model, size: nat) { forall n <- meta.fieldMap :: Fits(meta.fieldMap[n], size) }

  function UnsafeField(meta: Model, c: seq<Word>, name: string): Outcome
    requires NamesFit(meta, |c|)
  {
    if name in meta.fieldMap then Got(Read(c, meta.fieldMap[name].offset, meta.fieldMap[name].typ.size)) else NoField
  }

  predicate TypeFits(t: StructType, size: nat) {
    AllFit(t.fields, size) && forall n <- t.promoted :: t.promoted[n].offset + t.promoted[n].typ.size <= size
  }

  lemma {:induction false} OwnFieldIn(fds: seq<StructField>, name: string)
    ensures OwnField(fds, name).Some? ==> OwnField(fds, name).value in fds
  {
    if fds != [] && fds[0].name != name {
      OwnFieldIn(fds[1..], name);
    }
  }

  function ReflectField(t: StructType, c: seq<Word>, name: string): Outcome
    requires TypeFits(t, |c|)
  {
    match FieldByName(t, name)
    case None => NoField
    case Some(fd) =>
      OwnFieldIn(t.fields, name);
      if fd.exported then Got(Read(c, fd.offset, fd.typ.size)) else Panics
  }

  // The two read alike exactly when the name is that of an exported field of
  // the struct itself, or of no field at all: a promoted field is unknown to
  // the model, and reflection panics on a field that is not exported.
  lemma FieldsAgree(meta: Model, t: StructType, c: seq<Word>, name: string)
    requires Describes(meta, t.fields) && TypeFits(t, |c|)
    ensures NamesFit(meta, |c|)
    ensures UnsafeField(meta, c, name) == ReflectField(t, c, name) <==>
      if exists i :: 0 <= i < |t.fields| && t.fields[i].name == name
      then exists i :: 0 <= i < |t.fields| && t.fields[i].name == name && t.fields[i].exported
      else name !in t.promoted
  {
    NamedFieldsFit(meta, t.fields, |c|);
    hide Index, OwnField, ColumnOf;
    var fds, fields := t.fields, FieldsOf(t.fields);
    IndexHasKeys(Names(fields), fields);
    NotOwn(fds, name);
    if name in meta.fieldMap {
      var i := IndexIsSound(Names(fields), fields, name);
      forall j | 0 <= j < |fds| && fds[j].name == name ensures j == i {
        OneOwner(meta, fds, i, j);
      }
      FindsOwn(fds, i);
    } else {
      forall i | 0 <= i < |fds| ensures fds[i].name != name {
        assert Names(fields)[i] == fds[i].name;
      }
    }
  }

  lemma NamedFieldsFit(meta: Model, fds: seq<StructField>, size: nat)
    requires Describes(meta, fds) && AllFit(fds, size)
    ensures NamesFit(meta, size)
  {
    hide Index, ColumnOf;
    forall n <- meta.fieldMap ensures Fits(meta.fieldMap[n], size) {
      var i := IndexIsSound(Names(meta.fields), meta.fields, n);
      assert fds[i].offset + fds[i].typ.size <= size;
    }
  }

  // A field promoted from an embedded struct is read by reflection only.
  lemma PromotedFieldDiffers(v: Word)
    ensures var base, id := StructField("Base", Type(0, 1), 0, "", true), StructField("Id", Type(1, 1), 0, "", true);
      var t := StructType([base], map["Id" := id]);
      var meta := ModelOf("user", None, t.fields);
      && meta.Some? && Describes(meta.value, t.fields)
      && UnsafeField(meta.value, [v], "Id") == NoField && ReflectField(t, [v], "Id") == Got([v])
  {
    var base, id := StructField("Base", Type(0, 1), 0, "", true), StructField("Id", Type(1, 1), 0, "", true);
    var t := StructType([base], map["Id" := id]);
    var f := Field(Underscore("Base"), "Base", Type(0, 1), 0, 0);
    assert FieldsOf(t.fields) == [f];
    assert Names([f]) == ["Base"] && ["Base"][..0] == [] && [f][..0] == [];
    assert Index(["Base"], [f]) == map["Base" := f];
    assert OwnField(t.fields, "Id") == None;
  }

  // ---------- failed conversions ----------

  predicate Disjoint(f: Field, g: Field) {
    f.offset + f.typ.size <= g.offset || g.offset + g.typ.size <= f.offset
  }

  lemma SpliceReads(c: seq<Word>, at: nat, block: seq<Word>)
    requires at + |block| <= |c|
    ensures Read(Splice(c, at, block), at, |block|) == block
  {
  }

  lemma SpliceKeeps(c: seq<Word>, at: nat, block: seq<Word>, from: nat, size: nat)
    requires at + |block| <= |c| && from + size <= |c| && (from + size <= at || at + |block| <= from)
    ensures Read(Splice(c, at, block), from, size) == Read(c, from, size)
  {
  }

  // A copied column can be read back if no later column touches its words.
  lemma {:induction false} CopiedReadsBack(c: seq<Word>, meta: Model, rows: Rows, cs: seq<string>, n: nat, i: nat)
    requires Known(meta, cs) && WellSized(rows) && MetaFits(meta, |c|) && i < n <= |cs|
    requires forall j :: i < j < n ==> Disjoint(meta.columnMap[cs[i]], meta.columnMap[cs[j]])
    ensures var f := meta.columnMap[cs[i]];
      f.offset + f.typ.size <= |c| &&
      Read(Copied(c, meta, rows, cs, n), f.offset, f.typ.size) == Block(rows, i, f.typ)
  {
    hide Block, Splice, Read;
    var f, last := meta.columnMap[cs[i]], meta.columnMap[cs[n - 1]];
    var before, block := Copied(c, meta, rows, cs, n - 1), Block(rows, n - 1, last.typ);
    if i < n - 1 {
      CopiedReadsBack(c, meta, rows, cs, n - 1, i);
      SpliceKeeps(before, last.offset, block, f.offset, f.typ.size);
    } else {
      SpliceReads(before, last.offset, block);
    }
  }

  predicate Covers(f: Field, w: nat) { f.offset <= w < f.offset + f.typ.size }

  // The last of the first n columns whose field covers a word, if any.
  function Writer(meta: Model, cs: seq<string>, n: nat, w: nat): (i: int)
    requires n <= |cs| && Known(meta, cs)
    ensures -1 <= i < n
    ensures i >= 0 ==> Covers(meta.columnMap[cs[i]], w)
    ensures forall j :: i < j < n ==> !Covers(meta.columnMap[cs[j]], w)
  {
    if n == 0 then -1 else if Covers(meta.columnMap[cs[n - 1]], w) then n - 1 else Writer(meta, cs, n - 1, w)
  }

  // Words outside all copied fields keep their value.
  lemma {:induction false} CopiedKeeps(c: seq<Word>, meta: Model, rows: Rows, cs: seq<string>, n: nat, w: nat)
    requires Known(meta, cs) && WellSized(rows) && MetaFits(meta, |c|) && n <= |cs| && w < |c|
    requires Writer(meta, cs, n, w) == -1
    ensures Copied(c, meta, rows, cs, n)[w] == c[w]
  {
    hide Block;
    if n > 0 {
      CopiedKeeps(c, meta, rows, cs, n - 1, w);
    }
  }

  // Different columns have different words.
  predicate Separate(meta: Model) {
    forall a, b :: a in meta.columnMap && b in meta.columnMap && a != b ==>
      Disjoint(meta.columnMap[a], meta.columnMap[b])
  }

  // Column i is the last of the first n with its name.
  predicate LastOfName(cs: seq<string>, n: nat, i: nat)
    requires n <= |cs|
  {
    i < n && forall j :: i < j < n ==> cs[j] != cs[i]
  }

  // The struct holds already what a column converts to.
  predicate Holds(c: seq<Word>, meta: Model, rows: Rows, cs: seq<string>, i: nat)
    requires Known(meta, cs) && WellSized(rows) && MetaFits(meta, |c|) && i < |cs|
  {
    var f := meta.columnMap[cs[i]];
    Read(c, f.offset, f.typ.size) == Block(rows, i, f.typ)
  }

  lemma CopiedHolds(c: seq<Word>, meta: Model, rows: Rows, cs: seq<string>, n: nat, i: nat)
    requires Known(meta, cs) && WellSized(rows) && MetaFits(meta, |c|) && Separate(meta)
    requires n <= |cs| && LastOfName(cs, n, i)
    ensures Holds(Copied(c, meta, rows, cs, n), meta, rows, cs, i)
  {
    hide Copied;
    CopiedReadsBack(c, meta, rows, cs, n, i);
  }

  // Copying columns changes nothing exactly when the struct already holds the
  // value of each, of repeated ones the last.
  lemma CopiedUnchanged(c: seq<Word>, meta: Model, rows: Rows, cs: seq<string>, n: nat)
    requires Known(meta, cs) && WellSized(rows) && MetaFits(meta, |c|) && Separate(meta) && n <= |cs|
    ensures Copied(c, meta, rows, cs, n) == c <==>
            forall i: nat :: i < n && LastOfName(cs, n, i) ==> Holds(c, meta, rows, cs, i)
  {
    hide Copied, Block, Writer;
    var r := Copied(c, meta, rows, cs, n);
    if r == c {
      forall i: nat | i < n && LastOfName(cs, n, i) ensures Holds(c, meta, rows, cs, i) {
        CopiedHolds(c, meta, rows, cs, n, i);
      }
    }
    if forall i: nat :: i < n && LastOfName(cs, n, i) ==> Holds(c, meta, rows, cs, i) {
      forall w: nat | w < |c| ensures r[w] == c[w] {
        var i := Writer(meta, cs, n, w);
        if i < 0 {
          CopiedKeeps(c, meta, rows, cs, n, w);
        } else {
          var f := meta.columnMap[cs[i]];
          assert LastOfName(cs, n, i) && Holds(c, meta, rows, cs, i);
          CopiedHolds(c, meta, rows, cs, n, i);
          assert r[w] == Read(r, f.offset, f.typ.size)[w - f.offset];
          assert c[w] == Read(c, f.offset, f.typ.size)[w - f.offset];
        }
      }
      assert r == c;
    }
  }

  lemma SeparateFields(meta: Model, fds: seq<StructField>)
    requires Describes(meta, fds)
    requires forall i, j :: 0 <= i < j < |fds| ==> Disjoint(FieldsOf(fds)[i], FieldsOf(fds)[j])
    ensures Separate(meta)
  {
    hide Index, ColumnOf;
    var fields := FieldsOf(fds);
    forall a, b | a in meta.columnMap && b in meta.columnMap && a != b
      ensures Disjoint(meta.columnMap[a], meta.columnMap[b])
    {
      var i := IndexIsSound(Columns(fields), fields, a);
      var j := IndexIsSound(Columns(fields), fields, b);
    }
  }

  // A failed conversion leaves the reflective struct alone, while the unsafe
  // one keeps the columns before it. As fields do not overlap, the structs agree
  // exactly when the struct held the values of these columns before.
  lemma AgreeAfterScanError(meta: Model, t: StructType, rows: Rows, c: seq<Word>)
    requires Describes(meta, t.fields) && Distinct(Columns(meta.fields))
    requires forall i, j :: 0 <= i < j < |t.fields| ==> Disjoint(meta.fields[i], meta.fields[j])
    requires WellSized(rows) && MetaFits(meta, |c|) && ErrorOf(meta, rows, |meta.columnMap|).ScanError?
    ensures var n, cs := ErrorOf(meta, rows, |meta.columnMap|).index, rows.cols.value;
      && n < |cs| && Known(meta, cs)
      && (UnsafeResult(c, meta, rows) == ReflectResult(c, meta, t, rows) <==>
          forall i: nat :: i < n && LastOfName(cs, n, i) ==> Holds(c, meta, rows, cs, i))
  {
    hide Index, Bad, Unknown, Copied, Separate, Holds, LastOfName;
    UnsafeRefinesReflect(meta, t, rows, c);
    SeparateFields(meta, t.fields);
    CopiedUnchanged(c, meta, rows, rows.cols.value, ErrorOf(meta, rows, |meta.columnMap|).index);
  }

  // Two columns of which the second does not convert: the first is written by
  // the unsafe valuer only.
  lemma ScanErrorDiffers()
    ensures var a, b := StructField("A", Type(0, 1), 0, "", true), StructField("B", Type(0, 1), 1, "", true);
      var t := StructType([a, b], map[]);
      var meta := ModelOf("pair", None, t.fields);
      var rows := Rows(Some(["a", "b"]), map[(0, Type(0, 1)) := [7]]);
      && meta.Some? && Describes(meta.value, t.fields) && WellSized(rows) && MetaFits(meta.value, 2)
      && ErrorOf(meta.value, rows, |meta.value.columnMap|) == ReflectError(meta.value, t, rows) == ScanError(1)
      && UnsafeResult([0, 0], meta.value, rows) == [7, 0] && ReflectResult([0, 0], meta.value, t, rows) == [0, 0]
  {
    var a, b := StructField("A", Type(0, 1), 0, "", true), StructField("B", Type(0, 1), 1, "", true);
    var t := StructType([a, b], map[]);
    var f, g := Field("a", "A", Type(0, 1), 0, 0), Field("b", "B", Type(0, 1), 1, 1);
    TwoColumns(t.fields, f, g);
    var meta := ModelOf("pair", None, t.fields).value;
    var rows := Rows(Some(["a", "b"]), map[(0, Type(0, 1)) := [7]]);
    assert ByColumn([f, g]) == map["a" := f, "b" := g];
    OneOfTwo(meta, rows, f, g);
  }

  lemma OneOfTwo(meta: Model, rows: Rows, f: Field, g: Field)
    requires f == Field("a", "A", Type(0, 1), 0, 0) && g == Field("b", "B", Type(0, 1), 1, 1)
    requires meta.columnMap == map["a" := f, "b" := g] && |meta.columnMap| == 2
    requires rows == Rows(Some(["a", "b"]), map[(0, Type(0, 1)) := [7]])
    ensures WellSized(rows) && MetaFits(meta, 2) && ErrorOf(meta, rows, 2) == ScanError(1)
    ensures UnsafeResult([0, 0], meta, rows) == [7, 0]
  {
    var cs, types := ["a", "b"], [Type(0, 1), Type(0, 1)];
    assert Known(meta, cs) && ColTypes(meta, cs) == types;
    assert Bad(rows, types, 1) == 1 && Bad(rows, types, 0) == 1;
    assert Copied([0, 0], meta, rows, cs, 0) == [0, 0];
    assert Splice([0, 0], 0, [7]) == [7, 0];
  }

  lemma TwoColumns(fds: seq<StructField>, f: Field, g: Field)
    requires fds == [StructField("A", Type(0, 1), 0, "", true), StructField("B", Type(0, 1), 1, "", true)]
    requires f == Field("a", "A", Type(0, 1), 0, 0) && g == Field("b", "B", Type(0, 1), 1, 1)
    ensures TagsOk(fds) && FieldsOf(fds) == [f, g]
    ensures ByName([f, g]) == map["A" := f, "B" := g] && ByColumn([f, g]) == map["a" := f, "b" := g]
    ensures |ByName([f, g])| == |ByColumn([f, g])| == 2
    ensures Distinct(Names([f, g]))
  {
    assert "A"[..0] == "" && "B"[..0] == "";
    assert Underscore("A") == "a" && Underscore("B") == "b";
    assert FieldsOf(fds) == [f, g];
    assert Names([f, g]) == ["A", "B"] && Columns([f, g]) == ["a", "b"];
    assert ["A", "B"][..1] == ["A"] && ["a", "b"][..1] == ["a"] && [f, g][..1] == [f] && [f][..0] == [];
    assert ["A"][..0] == [] && ["a"][..0] == [];
    assert Index([], []) == map[];
    assert Index(["A"], [f]) == map["A" := f] && Index(["a"], [f]) == map["a" := f];
    IndexSize(["A", "B"], [f, g]);
    IndexSize(["a", "b"], [f, g]);
  }
}
