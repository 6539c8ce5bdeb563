// The INSERT builder of homework_subquery and its two upsert dialects.
module SqlInsert {
  import opened Wrappers
  import opened Models
  import opened SqlTree
  import opened SqlMarks
  import opened SqlWrite
  import opened SqlBuilder
  import opened SqlUpdate

  datatype Dialect = MySQL | SQLite

  datatype OnConflict = OnConflict(columns: seq<string>, assigns: seq<Assignable>)

  datatype Inserter = Inserter(b: Builder, dialect: Dialect, entity: string, values: seq<Struct>, columns: seq<string>,
                               upsert: Option<OnConflict>)

  // ---------- the matrix of placeholders ----------

  // The chosen columns, or all fields.
  function Choose(m: Model, columns: seq<string>): Option<seq<Field>> {
    if columns == [] then Some(m.fields) else Pick(m, columns)
  }

  function Pick(m: Model, columns: seq<string>): Option<seq<Field>> {
    if columns == [] then Some([]) else
      var last := |columns| - 1;
      match Pick(m, columns[..last])
      case Some(fs) => if columns[last] in m.fieldMap then Some(fs + [m.fieldMap[columns[last]]]) else None
      case None => None
  }

  lemma {:induction false} PickPrefix(m: Model, columns: seq<string>, n: nat)
    requires n <= |columns| && Pick(m, columns[..n]).None?
    ensures Pick(m, columns).None?
  {
    if n < |columns| {
      assert columns[..|columns| - 1][..n] == columns[..n];
      PickPrefix(m, columns[..|columns| - 1], n);
    } else {
      assert columns[..n] == columns;
    }
  }

  // A row has a value for every field.
  predicate Covers(val: Struct, fields: seq<Field>) { forall i :: 0 <= i < |fields| ==> fields[i].name in val }

  function RowArgs(val: Struct, fields: seq<Field>): (vs: seq<Value>)
    requires Covers(val, fields)
    ensures |vs| == |fields|
  {
    seq(|fields|, i requires 0 <= i < |fields| => val[fields[i].name])
  }

  predicate AllCover(values: seq<Struct>, fields: seq<Field>) {
    forall i :: 0 <= i < |values| ==> Covers(values[i], fields)
  }

  function Matrix(values: seq<Struct>, fields: seq<Field>): (rows: seq<seq<Value>>)
    requires AllCover(values, fields)
    ensures |rows| == |values| && forall i :: 0 <= i < |rows| ==> |rows[i]| == |fields|
  {
    seq(|values|, i requires 0 <= i < |values| => RowArgs(values[i], fields))
  }

  function ColParts(fields: seq<Field>): (r: seq<seq<Tok>>)
    ensures |r| == |fields|
  {
    seq(|fields|, i requires 0 <= i < |fields| => [Name(fields[i].col)])
  }

  function MarkParts(k: nat): seq<seq<Tok>> { seq(k, _ => [Mark]) }

  function RowText(k: nat): seq<Tok> { [Open] + (CommaJoin(MarkParts(k)) + [Close]) }

  function RowParts(m: nat, k: nat): seq<seq<Tok>> { seq(m, _ => RowText(k)) }

  lemma {:induction false} MarksOfMarks(k: nat)
    ensures Marks(CommaJoin(MarkParts(k))) == k
  {
    MarksJoin(MarkParts(k));
    if k > 0 {
      assert MarkParts(k)[..k - 1] == MarkParts(k - 1);
      MarksOfMarks(k - 1);
      Marks1(Mark);
    }
  }

  // m rows of k placeholders each.
  lemma {:induction false} MarksOfRows(m: nat, k: nat)
    ensures Marks(CommaJoin(RowParts(m, k))) == m * k
  {
    hide Marks, CommaJoin, RowText;
    MarksJoin(RowParts(m, k));
    if m > 0 {
      assert RowParts(m, k)[..m - 1] == RowParts(m - 1, k);
      MarksOfRows(m - 1, k);
      MarksOfRow(k);
      Row(m, k);
    }
  }

  lemma MarksOfRow(k: nat)
    ensures Marks(RowText(k)) == k
  {
    MarksOfMarks(k);
    MarksWrap(Open, CommaJoin(MarkParts(k)), Close);
  }

  // ---------- upserts ----------

  // Copy takes the column of the rejected row.
  datatype UpItem = Copy(col: string) | Set(s: SetItem)

  function ResolveUp(reg: Registry, model: Model, a: Assignable): Option<UpItem> {
    match a
    case SetCol(src, name) => (match ColName(reg, model, src, name) case None => None case Some(c) => Some(Copy(c)))
    case SetTo(_, _) =>
      (match ResolveAssign(reg, model, map[], a) case None => None case Some(s) => Some(Set(s)))
    case SetRaw => None
  }

  // Both dialects return after the first Assignment.
  function Stop(assigns: seq<Assignable>): (n: nat)
    ensures n <= |assigns|
    ensures n < |assigns| ==> n > 0
    ensures forall i :: 0 <= i < n - 1 ==> !assigns[i].SetTo?
  {
    if assigns == [] then 0
    else if assigns[0].SetTo? then 1
    else
      var n := Stop(assigns[1..]);
      assert forall i :: 1 <= i < n ==> assigns[i] == assigns[1..][i - 1];
      n + 1
  }

  // So every assignment is rendered exactly when only the last one may be an
  // Assignment.
  lemma {:induction false} UpsertIsComplete(assigns: seq<Assignable>)
    ensures Stop(assigns) == |assigns| <==> forall i :: 0 <= i < |assigns| - 1 ==> !assigns[i].SetTo?
  {
    if assigns != [] && !assigns[0].SetTo? {
      UpsertIsComplete(assigns[1..]);
      assert forall i :: 0 <= i < |assigns| - 1 ==> assigns[1..][i] == assigns[i + 1];
      if forall i :: 0 <= i < |assigns[1..]| - 1 ==> !assigns[1..][i].SetTo? {
        forall i | 0 <= i < |assigns| - 1 ensures !assigns[i].SetTo? {
          if i > 0 {
            assert assigns[i] == assigns[1..][i - 1];
          }
        }
      }
    }
  }

  lemma {:induction false} StopAt(assigns: seq<Assignable>, i: nat)
    requires forall j :: 0 <= j < i && j < |assigns| ==> !assigns[j].SetTo?
    requires i <= |assigns|
    ensures i == |assigns| ==> Stop(assigns) == i
    ensures i < |assigns| && assigns[i].SetTo? ==> Stop(assigns) == i + 1
    ensures i < |assigns| ==> Stop(assigns) > i
  {
    if i > 0 {
      StopAt(assigns[1..], i - 1);
    }
  }

  function ResolveUps(reg: Registry, model: Model, assigns: seq<Assignable>): Option<seq<UpItem>> {
    if assigns == [] then Some([]) else
      var last := |assigns| - 1;
      match (ResolveUps(reg, model, assigns[..last]), ResolveUp(reg, model, assigns[last]))
      case (Some(us), Some(u)) => Some(us + [u])
      case _ => None
  }

  lemma {:induction false} UpsPrefix(reg: Registry, model: Model, assigns: seq<Assignable>, n: nat)
    requires n <= |assigns| && ResolveUps(reg, model, assigns[..n]).None?
    ensures ResolveUps(reg, model, assigns).None?
  {
    if n < |assigns| {
      assert assigns[..|assigns| - 1][..n] == assigns[..n];
      UpsPrefix(reg, model, assigns[..|assigns| - 1], n);
    } else {
      assert assigns[..n] == assigns;
    }
  }

  lemma {:induction false} UpsSize(reg: Registry, model: Model, assigns: seq<Assignable>)
    requires ResolveUps(reg, model, assigns).Some?
    ensures |ResolveUps(reg, model, assigns).value| == |assigns|
  {
    if assigns != [] {
      UpsSize(reg, model, assigns[..|assigns| - 1]);
    }
  }

  function CopyText(d: Dialect, c: string): seq<Tok> {
    match d
    case MySQL => [Name(c), Assign, Values, Open, Name(c), Close]
    case SQLite => [Name(c), Assign, Upsert("excluded"), Dot, Name(c)]
  }

  function PrintUp(d: Dialect, u: UpItem): seq<Tok> {
    match u case Copy(c) => CopyText(d, c) case Set(s) => PrintSet(s)
  }

  function ArgsUp(u: UpItem): seq<Value> {
    match u case Copy(_) => [] case Set(s) => ArgsPred(s.val)
  }

  function UpParts(d: Dialect, us: seq<UpItem>): (r: seq<seq<Tok>>)
    ensures |r| == |us|
  {
    seq(|us|, i requires 0 <= i < |us| => PrintUp(d, us[i]))
  }

  function UpArgs(us: seq<UpItem>): (r: seq<seq<Value>>)
    ensures |r| == |us|
  {
    seq(|us|, i requires 0 <= i < |us| => ArgsUp(us[i]))
  }

  function PrintTarget(rs: seq<Ref>): seq<Tok> {
    if rs == [] then [] else [Open] + (CommaJoin(RefParts(rs)) + [Close])
  }

  // A clause with its conflict columns (SQLite only) and rendered assignments.
  datatype Clash = Clash(target: seq<Ref>, ups: seq<UpItem>)

  function PrintClash(d: Dialect, c: Clash): seq<Tok> {
    match d
    case MySQL => [Upsert("ON DUPLICATE KEY UPDATE")] + CommaJoin(UpParts(d, c.ups))
    case SQLite =>
      [Upsert("ON CONFLICT")] + (PrintTarget(c.target) + ([Upsert("DO UPDATE SET")] + CommaJoin(UpParts(d, c.ups))))
  }

  function ResolveClash(reg: Registry, model: Model, d: Dialect, u: OnConflict): Option<Clash> {
    match (if d.MySQL? then Some([]) else ResolveGroup(reg, model, UsingCols(u.columns)),
           ResolveUps(reg, model, u.assigns[..Stop(u.assigns)]))
    case (Some(target), Some(ups)) => Some(Clash(target, ups))
    case _ => None
  }

  lemma MarksUp(d: Dialect, u: UpItem)
    ensures Marks(PrintUp(d, u)) == |ArgsUp(u)|
  {
    match u
    case Set(s) => MarksSet(s);
    case Copy(c) =>
      match d {
        case MySQL =>
          Marks3(Name(c), Assign, Values);
          Marks3(Open, Name(c), Close);
          MarksAppend([Name(c), Assign, Values], [Open, Name(c), Close]);
          assert [Name(c), Assign, Values] + [Open, Name(c), Close] == CopyText(d, c);
        case SQLite =>
          Marks3(Name(c), Assign, Upsert("excluded"));
          Marks2(Dot, Name(c));
          MarksAppend([Name(c), Assign, Upsert("excluded")], [Dot, Name(c)]);
          assert [Name(c), Assign, Upsert("excluded")] + [Dot, Name(c)] == CopyText(d, c);
      }
  }

  lemma {:induction false} MarksUps(d: Dialect, us: seq<UpItem>)
    ensures Marks(CommaJoin(UpParts(d, us))) == |Flat(UpArgs(us))|
  {
    hide Marks, PrintUp, ArgsUp, CommaJoin;
    MarksJoin(UpParts(d, us));
    if us != [] {
      var n := |us| - 1;
      MarksUps(d, us[..n]);
      assert UpParts(d, us)[..n] == UpParts(d, us[..n]) && UpArgs(us)[..n] == UpArgs(us[..n]);
      MarksUp(d, us[n]);
    }
  }

  lemma MarksClash(d: Dialect, c: Clash)
    ensures Marks(PrintClash(d, c)) == |Flat(UpArgs(c.ups))|
  {
    hide Marks, CommaJoin, UpParts, UpArgs, RefParts;
    var ups := CommaJoin(UpParts(d, c.ups));
    MarksUps(d, c.ups);
    match d
    case MySQL =>
      Marks1(Upsert("ON DUPLICATE KEY UPDATE"));
      MarksAppend([Upsert("ON DUPLICATE KEY UPDATE")], ups);
    case SQLite =>
      Marks1(Upsert("ON CONFLICT"));
      Marks1(Upsert("DO UPDATE SET"));
      MarksRefs(c.target);
      MarksWrap(Open, CommaJoin(RefParts(c.target)), Close);
      MarksNone();
      MarksAppend([Upsert("DO UPDATE SET")], ups);
      MarksAppend(PrintTarget(c.target), [Upsert("DO UPDATE SET")] + ups);
      MarksAppend([Upsert("ON CONFLICT")], PrintTarget(c.target) + ([Upsert("DO UPDATE SET")] + ups));
  }

  lemma MarksNone()
    ensures Marks([]) == 0
  {
  }

  // ---------- what a build writes ----------

  datatype Insertion = Insertion(table: string, fields: seq<Field>, values: seq<Struct>, clash: Option<Clash>)

  function UpOut(d: Dialect, u: Option<UpItem>): Output {
    match u case None => Failed case Some(u) => Wrote(PrintUp(d, u), ArgsUp(u))
  }

  function UpsOut(d: Dialect, us: Option<seq<UpItem>>): Output {
    match us case None => Failed case Some(us) => Wrote(CommaJoin(UpParts(d, us)), Flat(UpArgs(us)))
  }

  function ClashOut(d: Dialect, c: Option<Clash>): Output {
    match c case None => Failed case Some(c) => Wrote(PrintClash(d, c), Flat(UpArgs(c.ups)))
  }

  function RowOut(val: Struct, fields: seq<Field>): Output {
    if Covers(val, fields) then Wrote(RowText(|fields|), RowArgs(val, fields)) else Failed
  }

  function RowsOut(values: seq<Struct>, fields: seq<Field>): Output {
    if AllCover(values, fields) then Wrote(CommaJoin(RowParts(|values|, |fields|)), Flat(Matrix(values, fields)))
    else Failed
  }

  function HeadOut(table: string, fields: seq<Field>): Output {
    Then(Text([Insert, Name(table), Open]), Then(NamesOut(fields), Text([Close, Values])))
  }

  function UpsertOut(reg: Registry, model: Model, ins: Inserter): Output {
    match ins.upsert
    case None => Text([])
    case Some(u) => ClashOut(ins.dialect, ResolveClash(reg, model, ins.dialect, u))
  }

  // The whole statement but for its semicolon.
  function InsertOut(reg: Registry, ins: Inserter): Output {
    if ins.values == [] || ins.entity !in reg then Failed else
      var m := reg[ins.entity];
      match Choose(m, ins.columns)
      case None => Failed
      case Some(fields) => Then(HeadOut(m.table, fields), Then(RowsOut(ins.values, fields), UpsertOut(reg, m, ins)))
  }

  lemma UpsStep(reg: Registry, model: Model, d: Dialect, assigns: seq<Assignable>, i: nat)
    requires i < |assigns| && ResolveUps(reg, model, assigns[..i]).Some?
    ensures UpsOut(d, ResolveUps(reg, model, assigns[..i + 1])) ==
            Then(UpsOut(d, ResolveUps(reg, model, assigns[..i])),
                 Then(Text(Separator(i)), UpOut(d, ResolveUp(reg, model, assigns[i]))))
  {
    hide ResolveUp, PrintUp, ArgsUp;
    hide CommaJoin, Flat;
    assert assigns[..i + 1][..i] == assigns[..i];
    UpsSize(reg, model, assigns[..i]);
    var us := ResolveUps(reg, model, assigns[..i]).value;
    match ResolveUp(reg, model, assigns[i])
    case None =>
    case Some(u) => UpsSnoc(d, us, u);
  }

  lemma UpsSnoc(d: Dialect, us: seq<UpItem>, u: UpItem)
    ensures CommaJoin(UpParts(d, us + [u])) == CommaJoin(UpParts(d, us)) + (Separator(|us|) + PrintUp(d, u))
    ensures Flat(UpArgs(us + [u])) == Flat(UpArgs(us)) + ([] + ArgsUp(u))
  {
    hide PrintUp, ArgsUp;
    assert UpParts(d, us + [u]) == UpParts(d, us) + [PrintUp(d, u)];
    assert UpArgs(us + [u]) == UpArgs(us) + [ArgsUp(u)];
    CommaSnoc(UpParts(d, us), PrintUp(d, u));
    FlatSnoc(UpArgs(us), ArgsUp(u));
    assert [] + ArgsUp(u) == ArgsUp(u);
  }

  lemma UpsFails(d: Dialect, us: Option<seq<UpItem>>)
    ensures UpsOut(d, us).Failed? <==> us.None?
  {
  }

  lemma NoUps(reg: Registry, model: Model, d: Dialect)
    ensures UpsOut(d, ResolveUps(reg, model, [])) == Text([])
  {
  }

  // ---------- building ----------

  method FindFields(m: Model, columns: seq<string>) returns (fields: Option<seq<Field>>)
    ensures fields == Choose(m, columns)
  {
    if columns == [] {
      return Some(m.fields);
    }
    var found: seq<Field> := [];
    for i := 0 to |columns|
      invariant Pick(m, columns[..i]) == Some(found)
    {
      assert columns[..i + 1][..i] == columns[..i];
      if columns[i] !in m.fieldMap {
        PickPrefix(m, columns, i + 1);
        return None;
      }
      found := found + [m.fieldMap[columns[i]]];
    }
    assert columns[..|columns|] == columns;
    return Some(found);
  }

  function NamesOut(fields: seq<Field>): Output { Text(CommaJoin(ColParts(fields))) }

  lemma NamesStep(fields: seq<Field>, i: nat)
    requires i < |fields|
    ensures NamesOut(fields[..i + 1]) ==
            Then(NamesOut(fields[..i]), Then(Text(Separator(i)), Text([Name(fields[i].col)])))
  {
    assert ColParts(fields[..i + 1]) == ColParts(fields[..i]) + [[Name(fields[i].col)]];
    CommaSnoc(ColParts(fields[..i]), [Name(fields[i].col)]);
  }

  lemma NoNames()
    ensures NamesOut([]) == Text([])
  {
  }

  method BuildNames(b: Builder, fields: seq<Field>)
    modifies b
    ensures b.model == old(b.model)
    ensures Appended(NamesOut(fields), true, old(b.sb), old(b.args), b.sb, b.args)
  {
    hide NamesOut;
    NoNames();
    for i := 0 to |fields|
      invariant b.model == old(b.model)
      invariant Appended(NamesOut(fields[..i]), true, old(b.sb), old(b.args), b.sb, b.args)
    {
      ghost var s1, a1, name := b.sb, b.args, Text([Name(fields[i].col)]);
      NamesStep(fields, i);
      if i > 0 {
        b.Emit([Comma], []);
      }
      ghost var s2, a2 := b.sb, b.args;
      b.Emit([Name(fields[i].col)], []);
      NamesWrote(fields[..i]);
      AppendedThen(Text(Separator(i)), name, true, s1, a1, s2, a2, b.sb, b.args);
      AppendedThen(NamesOut(fields[..i]), Then(Text(Separator(i)), name), true,
                   old(b.sb), old(b.args), s1, a1, b.sb, b.args);
    }
    assert fields[..|fields|] == fields;
  }

  lemma NamesWrote(fields: seq<Field>)
    ensures NamesOut(fields).Wrote?
  {
  }

  method BuildRow(b: Builder, val: Struct, fields: seq<Field>) returns (ok: bool)
    modifies b
    ensures b.model == old(b.model)
    ensures Appended(RowOut(val, fields), ok, old(b.sb), old(b.args), b.sb, b.args)
  {
    hide MarksOut, RowOut;
    ghost var s0, a0 := b.sb, b.args;
    RowShape(val, fields);
    b.Emit([Open], []);
    ghost var s1, a1 := b.sb, b.args;
    ok := BuildMarks(b, val, fields);
    if ok {
      ghost var s2, a2 := b.sb, b.args;
      b.Emit([Close], []);
      AppendedThen(MarksOut(val, fields), Text([Close]), true, s1, a1, s2, a2, b.sb, b.args);
      AppendedThen(Text([Open]), Then(MarksOut(val, fields), Text([Close])), true, s0, a0, s1, a1, b.sb, b.args);
    }
  }

  function MarksOut(val: Struct, fields: seq<Field>): Output {
    if Covers(val, fields) then Wrote(CommaJoin(MarkParts(|fields|)), RowArgs(val, fields)) else Failed
  }

  function MarkOut(val: Struct, f: Field): Output {
    if f.name in val then Wrote([Mark], [val[f.name]]) else Failed
  }

  lemma RowShape(val: Struct, fields: seq<Field>)
    ensures RowOut(val, fields) == Then(Text([Open]), Then(MarksOut(val, fields), Text([Close])))
  {
    if Covers(val, fields) {
      assert [] + (RowArgs(val, fields) + []) == RowArgs(val, fields);
    }
  }

  lemma EmptyRow(val: Struct)
    ensures MarksOut(val, []) == Text([])
  {
  }

  lemma MarksStep(val: Struct, fields: seq<Field>, i: nat)
    requires i < |fields| && MarksOut(val, fields[..i]).Wrote?
    ensures MarksOut(val, fields[..i + 1]) ==
            Then(MarksOut(val, fields[..i]), Then(Text(Separator(i)), MarkOut(val, fields[i])))
    ensures MarkOut(val, fields[i]).Failed? ==> MarksOut(val, fields).Failed?
  {
    assert fields[..i + 1] == fields[..i] + [fields[i]];
    if fields[i].name in val {
      assert MarkParts(i + 1) == MarkParts(i) + [[Mark]];
      CommaSnoc(MarkParts(i), [Mark]);
      assert RowArgs(val, fields[..i + 1]) == RowArgs(val, fields[..i]) + ([] + [val[fields[i].name]]);
    } else {
      assert !Covers(val, fields[..i + 1]) by {
        assert fields[..i + 1][i].name !in val;
      }
    }
  }

  // A placeholder is written before its value is looked up.
  method BuildMark(b: Builder, i: nat, val: Struct, f: Field) returns (ok: bool)
    modifies b
    ensures b.model == old(b.model)
    ensures Appended(Then(Text(Separator(i)), MarkOut(val, f)), ok, old(b.sb), old(b.args), b.sb, b.args)
  {
    if i > 0 {
      b.Emit([Comma], []);
    }
    ghost var s1, a1 := b.sb, b.args;
    if f.name !in val {
      b.Emit([Mark], []);
      return false;
    }
    b.Emit([Mark], [val[f.name]]);
    AppendedThen(Text(Separator(i)), MarkOut(val, f), true, old(b.sb), old(b.args), s1, a1, b.sb, b.args);
    return true;
  }

  method BuildMarks(b: Builder, val: Struct, fields: seq<Field>) returns (ok: bool)
    modifies b
    ensures b.model == old(b.model)
    ensures Appended(MarksOut(val, fields), ok, old(b.sb), old(b.args), b.sb, b.args)
  {
    hide MarksOut, MarkOut;
    EmptyRow(val);
    assert fields[..0] == [];
    for i := 0 to |fields|
      invariant b.model == old(b.model)
      invariant Appended(MarksOut(val, fields[..i]), true, old(b.sb), old(b.args), b.sb, b.args)
    {
      ghost var s1, a1 := b.sb, b.args;
      MarksStep(val, fields, i);
      ok := BuildMark(b, i, val, fields[i]);
      AppendedThen(MarksOut(val, fields[..i]), Then(Text(Separator(i)), MarkOut(val, fields[i])), ok,
                   old(b.sb), old(b.args), s1, a1, b.sb, b.args);
      if !ok {
        return;
      }
    }
    assert fields[..|fields|] == fields;
    return true;
  }

  method BuildRows(b: Builder, values: seq<Struct>, fields: seq<Field>) returns (ok: bool)
    modifies b
    ensures b.model == old(b.model)
    ensures Appended(RowsOut(values, fields), ok, old(b.sb), old(b.args), b.sb, b.args)
  {
    hide CommaJoin, RowText, Covers, Flat;
    EmptyRows(fields);
    for i := 0 to |values|
      invariant b.model == old(b.model)
      invariant Appended(RowsOut(values[..i], fields), true, old(b.sb), old(b.args), b.sb, b.args)
    {
      ghost var s1, a1 := b.sb, b.args;
      RowsStep(values, fields, i);
      if i > 0 {
        b.Emit([Comma], []);
      }
      ghost var s2, a2 := b.sb, b.args;
      ok := BuildRow(b, values[i], fields);
      AppendedThen(Text(Separator(i)), RowOut(values[i], fields), ok, s1, a1, s2, a2, b.sb, b.args);
      AppendedThen(RowsOut(values[..i], fields), Then(Text(Separator(i)), RowOut(values[i], fields)), ok,
                   old(b.sb), old(b.args), s1, a1, b.sb, b.args);
      if !ok {
        return;
      }
    }
    assert values[..|values|] == values;
    return true;
  }

  lemma EmptyRows(fields: seq<Field>)
    ensures RowsOut([], fields) == Text([])
  {
  }

  lemma RowsStep(values: seq<Struct>, fields: seq<Field>, i: nat)
    requires i < |values| && AllCover(values[..i], fields)
    ensures RowsOut(values[..i + 1], fields) ==
            Then(RowsOut(values[..i], fields), Then(Text(Separator(i)), RowOut(values[i], fields)))
    ensures RowOut(values[i], fields).Failed? ==> RowsOut(values, fields).Failed?
  {
    hide RowText, Covers, RowArgs;
    assert values[..i + 1] == values[..i] + [values[i]];
    if Covers(values[i], fields) {
      assert AllCover(values[..i + 1], fields);
      var k := |fields|;
      assert RowParts(i + 1, k) == RowParts(i, k) + [RowText(k)];
      CommaSnoc(RowParts(i, k), RowText(k));
      assert Matrix(values[..i + 1], fields) == Matrix(values[..i], fields) + [RowArgs(values[i], fields)];
      FlatSnoc(Matrix(values[..i], fields), RowArgs(values[i], fields));
    } else {
      assert !Covers(values[..i + 1][i], fields);
    }
  }

  method BuildCopy(b: Builder, reg: Registry, d: Dialect, a: Assignable) returns (ok: bool)
    requires a.SetCol?
    modifies b
    ensures b.model == old(b.model)
    ensures Appended(UpOut(d, ResolveUp(reg, b.model, a)), ok, old(b.sb), old(b.args), b.sb, b.args)
  {
    match ColName(reg, b.model, a.src, a.name)
    case None => return false;
    case Some(c) =>
      b.Emit(CopyText(d, c), []);
      return true;
  }

  // One assignable; `stop` after an Assignment.
  method BuildUp(b: Builder, reg: Registry, d: Dialect, a: Assignable) returns (ok: bool, stop: bool)
    modifies b, FootA(a)
    ensures old(ReadyA(b, a)) ==> b.model == old(b.model)
    ensures old(ReadyA(b, a)) ==>
      Appended(UpOut(d, ResolveUp(reg, old(b.model), a)), ok, old(b.sb), old(b.args), b.sb, b.args)
    ensures stop == a.SetTo?
    ensures !stop ==> b.model == old(b.model)
  {
    hide FootE, TidyE, BalancedE, UntouchedE, ResolveAssign, PrintSet, ArgsPred, ColName;
    stop := a.SetTo?;
    match a
    case SetCol(_, _) =>
      ok := BuildCopy(b, reg, d, a);
    case SetTo(_, _) =>
      ok := BuildAssignment(b, reg, map[], a);
    case SetRaw =>
      ok := false;
  }

  method BuildUpItem(b: Builder, reg: Registry, d: Dialect, i: nat, a: Assignable)
      returns (ok: bool, stop: bool)
    modifies b, FootA(a)
    ensures old(ReadyA(b, a)) ==> b.model == old(b.model)
    ensures old(ReadyA(b, a)) ==>
      Appended(Then(Text(Separator(i)), UpOut(d, ResolveUp(reg, old(b.model), a))), ok,
               old(b.sb), old(b.args), b.sb, b.args)
    ensures stop == a.SetTo?
    ensures !stop ==> b.model == old(b.model)
  {
    hide FootE, TidyE, BalancedE, UntouchedE, ResolveUp, UpOut;
    AllocA(a);
    ghost var ready, s0, a0, up := ReadyA(b, a), b.sb, b.args, UpOut(d, ResolveUp(reg, b.model, a));
    if i > 0 {
      b.Emit([Comma], []);
    }
    ghost var s1, a1 := b.sb, b.args;
    ok, stop := BuildUp(b, reg, d, a);
    if ready {
      AppendedThen(Text(Separator(i)), up, ok, s0, a0, s1, a1, b.sb, b.args);
    }
  }

  method BuildUps(b: Builder, reg: Registry, d: Dialect, assigns: seq<Assignable>)
      returns (ok: bool)
    modifies b, FootAs(assigns)
    ensures old(ReadyFrom(b, assigns, 0)) ==>
      Appended(UpsOut(d, ResolveUps(reg, old(b.model), assigns[..Stop(assigns)])), ok,
               old(b.sb), old(b.args), b.sb, b.args)
  {
    hide FootA, ReadyA, ResolveUps, ResolveUp, UpsOut, UpOut, Stop;
    ghost var ready, s0, a0, m := ReadyFrom(b, assigns, 0), b.sb, b.args, b.model;
    NoUps(reg, m, d);
    AllocAs(assigns);
    assert assigns[..0] == [];
    for i := 0 to |assigns|
      invariant ready ==> b.model == m && ReadyFrom(b, assigns, i)
      invariant ready ==> Appended(UpsOut(d, ResolveUps(reg, m, assigns[..i])), true, s0, a0, b.sb, b.args)
      invariant forall j :: 0 <= j < i ==> !assigns[j].SetTo?
    {
      ghost var s1, a1 := b.sb, b.args;
      if ready {
        Outside(b, assigns, i);
      }
      StopAt(assigns, i);
      NoFoot(assigns[i]);
      var stop;
      ok, stop := BuildUpItem(b, reg, d, i, assigns[i]);
      if ready {
        UpsFails(d, ResolveUps(reg, m, assigns[..i]));
        UpsStep(reg, m, d, assigns, i);
        AppendedThen(UpsOut(d, ResolveUps(reg, m, assigns[..i])),
                     Then(Text(Separator(i)), UpOut(d, ResolveUp(reg, m, assigns[i]))), ok,
                     s0, a0, s1, a1, b.sb, b.args);
        if !ok {
          StopFails(reg, m, d, assigns, i);
        }
      }
      if !ok || stop {
        return;
      }
    }
    StopAt(assigns, |assigns|);
    assert assigns[..|assigns|] == assigns;
    return true;
  }

  lemma StopFails(reg: Registry, m: Model, d: Dialect, assigns: seq<Assignable>, i: nat)
    requires i < Stop(assigns) && UpsOut(d, ResolveUps(reg, m, assigns[..i + 1])).Failed?
    ensures UpsOut(d, ResolveUps(reg, m, assigns[..Stop(assigns)])).Failed?
  {
    assert assigns[..Stop(assigns)][..i + 1] == assigns[..i + 1];
    UpsPrefix(reg, m, assigns[..Stop(assigns)], i + 1);
  }

  lemma NoFoot(a: Assignable)
    ensures !a.SetTo? ==> FootA(a) == {}
  {
  }

  // ON CONFLICT writes its columns; ON DUPLICATE KEY has none.
  method BuildUpsert(b: Builder, reg: Registry, d: Dialect, u: OnConflict) returns (ok: bool)
    modifies b, FootAs(u.assigns)
    ensures old(ReadyFrom(b, u.assigns, 0)) ==>
      Appended(ClashOut(d, ResolveClash(reg, old(b.model), d, u)), ok, old(b.sb), old(b.args), b.sb, b.args)
  {
    hide FootAs, ReadyFrom, ResolveClash, ClashOut, UpsOut, TargetOut;
    AllocAs(u.assigns);
    ghost var ready, s0, a0, m := ReadyFrom(b, u.assigns, 0), b.sb, b.args, b.model;
    ghost var ups := UpsOut(d, ResolveUps(reg, m, u.assigns[..Stop(u.assigns)]));
    ClashText(reg, m, d, u);
    if ready {
      AllOutside(b, u.assigns);
    }
    match d
    case MySQL =>
      b.Emit([Upsert("ON DUPLICATE KEY UPDATE")], []);
      ghost var s1, a1 := b.sb, b.args;
      ok := BuildUps(b, reg, d, u.assigns);
      if ready {
        AppendedThen(Text([Upsert("ON DUPLICATE KEY UPDATE")]), ups, ok, s0, a0, s1, a1, b.sb, b.args);
      }
    case SQLite =>
      ok := BuildConflict(b, reg, u);
      if !ok {
        return;
      }
      ghost var s1, a1 := b.sb, b.args;
      ok := BuildUps(b, reg, d, u.assigns);
      if ready {
        AppendedThen(TargetOut(reg, m, u.columns), ups, ok, s0, a0, s1, a1, b.sb, b.args);
      }
  }

  // What SQLite writes before the assignments.
  function TargetOut(reg: Registry, model: Model, columns: seq<string>): Output {
    match ResolveGroup(reg, model, UsingCols(columns))
    case None => Failed
    case Some(rs) => Text([Upsert("ON CONFLICT")] + (PrintTarget(rs) + [Upsert("DO UPDATE SET")]))
  }

  lemma ClashText(reg: Registry, m: Model, d: Dialect, u: OnConflict)
    ensures var ups := UpsOut(d, ResolveUps(reg, m, u.assigns[..Stop(u.assigns)]));
            ClashOut(d, ResolveClash(reg, m, d, u)) ==
            if d.MySQL? then Then(Text([Upsert("ON DUPLICATE KEY UPDATE")]), ups)
            else Then(TargetOut(reg, m, u.columns), ups)
  {
    hide ResolveUps, ResolveGroup, CommaJoin, UpParts, UpArgs, PrintTarget, Stop;
    match (ResolveGroup(reg, m, UsingCols(u.columns)), ResolveUps(reg, m, u.assigns[..Stop(u.assigns)]))
    case (Some(rs), Some(us)) =>
      var text := CommaJoin(UpParts(d, us));
      assert [Upsert("ON CONFLICT")] + (PrintTarget(rs) + [Upsert("DO UPDATE SET")]) + text
          == [Upsert("ON CONFLICT")] + (PrintTarget(rs) + ([Upsert("DO UPDATE SET")] + text));
      assert [] + Flat(UpArgs(us)) == Flat(UpArgs(us));
    case (None, Some(us)) => assert [] + Flat(UpArgs(us)) == Flat(UpArgs(us));
    case _ =>
  }

  method BuildConflict(b: Builder, reg: Registry, u: OnConflict) returns (ok: bool)
    modifies b
    ensures b.model == old(b.model)
    ensures Appended(TargetOut(reg, b.model, u.columns), ok, old(b.sb), old(b.args), b.sb, b.args)
  {
    hide ResolveGroup, TargetOut, GroupOut;
    ghost var s0, a0 := b.sb, b.args;
    TargetText(reg, b.model, u.columns);
    ghost var cols := GroupOut(ResolveGroup(reg, b.model, UsingCols(u.columns)));
    if u.columns == [] {
      b.Emit([Upsert("ON CONFLICT"), Upsert("DO UPDATE SET")], []);
      return true;
    }
    b.Emit([Upsert("ON CONFLICT"), Open], []);
    ghost var s1, a1 := b.sb, b.args;
    ok := b.BuildRefs(reg, UsingCols(u.columns));
    if ok {
      ghost var s2, a2 := b.sb, b.args;
      b.Emit([Close, Upsert("DO UPDATE SET")], []);
      AppendedThen(cols, Text([Close, Upsert("DO UPDATE SET")]), true, s1, a1, s2, a2, b.sb, b.args);
      AppendedThen(Text([Upsert("ON CONFLICT"), Open]), Then(cols, Text([Close, Upsert("DO UPDATE SET")])), true,
                   s0, a0, s1, a1, b.sb, b.args);
    }
  }

  lemma TargetText(reg: Registry, m: Model, columns: seq<string>)
    ensures TargetOut(reg, m, columns) ==
            if columns == [] then Text([Upsert("ON CONFLICT"), Upsert("DO UPDATE SET")])
            else Then(Text([Upsert("ON CONFLICT"), Open]),
                      Then(GroupOut(ResolveGroup(reg, m, UsingCols(columns))), Text([Close, Upsert("DO UPDATE SET")])))
  {
    hide CommaJoin, RefParts;
    var cs := UsingCols(columns);
    if ResolveGroup(reg, m, cs).Some? {
      GroupSize(reg, m, cs);
      var text := CommaJoin(RefParts(ResolveGroup(reg, m, cs).value));
      var start, end := Upsert("ON CONFLICT"), Upsert("DO UPDATE SET");
      assert [start] + ([] + [end]) == [start, end];
      assert [start] + (([Open] + (text + [Close])) + [end]) == [start, Open] + (text + [Close, end]);
    }
  }

  ghost predicate ReadyUpsert(ins: Inserter)
    reads FootUpsert(ins)
  {
    ins.upsert.Some? ==> ReadyFrom(ins.b, ins.upsert.value.assigns, 0)
  }

  ghost predicate ReadyInsert(ins: Inserter)
    reads ins.b, FootUpsert(ins)
  {
    ReadyUpsert(ins) && ins.b.sb == [] && ins.b.args == []
  }

  lemma UpsertOutside(ins: Inserter)
    requires ReadyUpsert(ins)
    ensures ins.b !in FootUpsert(ins)
    ensures forall o <- FootUpsert(ins) :: allocated(o)
  {
    if ins.upsert.Some? {
      AllOutside(ins.b, ins.upsert.value.assigns);
      AllocAs(ins.upsert.value.assigns);
    }
  }

  function FootUpsert(ins: Inserter): set<object> {
    if ins.upsert.Some? then FootAs(ins.upsert.value.assigns) else {}
  }

  method BuildHead(b: Builder, table: string, fields: seq<Field>)
    modifies b
    ensures b.model == old(b.model)
    ensures Appended(HeadOut(table, fields), true, old(b.sb), old(b.args), b.sb, b.args)
  {
    hide NamesOut;
    NamesWrote(fields);
    ghost var s0, a0 := b.sb, b.args;
    b.Emit([Insert, Name(table), Open], []);
    ghost var s1, a1 := b.sb, b.args;
    BuildNames(b, fields);
    ghost var s2, a2 := b.sb, b.args;
    b.Emit([Close, Values], []);
    AppendedThen(NamesOut(fields), Text([Close, Values]), true, s1, a1, s2, a2, b.sb, b.args);
    AppendedThen(Text([Insert, Name(table), Open]), Then(NamesOut(fields), Text([Close, Values])), true,
                 s0, a0, s1, a1, b.sb, b.args);
  }

  lemma InsertText(reg: Registry, ins: Inserter)
    requires ins.values != [] && ins.entity in reg
    ensures var m := reg[ins.entity];
            InsertOut(reg, ins) == match Choose(m, ins.columns)
                                   case None => Failed
                                   case Some(fields) => Then(HeadOut(m.table, fields), BodyOut(reg, ins, fields))
  {
  }

  // Everything behind VALUES.
  function BodyOut(reg: Registry, ins: Inserter, fields: seq<Field>): Output
    requires ins.entity in reg
  {
    Then(RowsOut(ins.values, fields), UpsertOut(reg, reg[ins.entity], ins))
  }

  method BuildBody(reg: Registry, ins: Inserter, fields: seq<Field>) returns (ok: bool)
    requires ins.entity in reg && ins.b.model == reg[ins.entity]
    modifies ins.b, FootUpsert(ins)
    ensures old(ReadyUpsert(ins)) ==>
      Appended(BodyOut(reg, ins, fields), ok, old(ins.b.sb), old(ins.b.args), ins.b.sb, ins.b.args)
  {
    hide FootUpsert, RowsOut, UpsertOut;
    ghost var ready, s0, a0 := ReadyUpsert(ins), ins.b.sb, ins.b.args;
    ghost var rows, tail := RowsOut(ins.values, fields), UpsertOut(reg, reg[ins.entity], ins);
    if ready {
      UpsertOutside(ins);
    }
    ok := BuildRows(ins.b, ins.values, fields);
    if !ok {
      return;
    }
    ghost var s1, a1 := ins.b.sb, ins.b.args;
    ok := BuildTail(reg, ins);
    if ready {
      AppendedThen(rows, tail, ok, s0, a0, s1, a1, ins.b.sb, ins.b.args);
    }
  }

  method BuildTail(reg: Registry, ins: Inserter) returns (ok: bool)
    modifies ins.b, FootUpsert(ins)
    ensures old(ReadyUpsert(ins)) ==>
      Appended(UpsertOut(reg, old(ins.b.model), ins), ok, old(ins.b.sb), old(ins.b.args), ins.b.sb, ins.b.args)
  {
    hide FootAs, ReadyFrom, ClashOut, ResolveClash;
    match ins.upsert
    case None => return true;
    case Some(u) => ok := BuildUpsert(ins.b, reg, ins.dialect, u);
  }

  // Unlike the other builders INSERT drops earlier arguments, but no text.
  method ResetArgs(b: Builder)
    modifies b
    ensures b.model == old(b.model) && b.sb == old(b.sb) && b.args == []
  {
    b.args := [];
  }

  method BuildInsert(reg: Registry, ins: Inserter) returns (ok: bool)
    modifies ins.b, FootUpsert(ins)
    ensures old(ReadyInsert(ins)) ==>
      Appended(Then(InsertOut(reg, ins), Text([Semi])), ok, [], [], ins.b.sb, ins.b.args)
  {
    hide FootUpsert, ReadyUpsert, HeadOut, BodyOut, InsertOut, Choose, Marks;
    if ins.values == [] || ins.entity !in reg {
      NoInsert(reg, ins);
      return false;
    }
    InsertText(reg, ins);
    ghost var ready := ReadyInsert(ins);
    if ready {
      UpsertOutside(ins);
    }
    var m := reg[ins.entity];
    SetModel(ins.b, m);
    var fields := FindFields(m, ins.columns);
    if fields.None? {
      ins.b.Emit([Insert, Name(m.table), Open], []);
      return false;
    }
    ResetArgs(ins.b);
    BuildHead(ins.b, m.table, fields.value);
    ghost var s1, a1 := ins.b.sb, ins.b.args;
    ok := BuildBody(reg, ins, fields.value);
    if ok {
      ghost var s2, a2 := ins.b.sb, ins.b.args;
      ins.b.Emit([Semi], []);
      if ready {
        AppendedThen(HeadOut(m.table, fields.value), BodyOut(reg, ins, fields.value), true, [], [], s1, a1, s2, a2);
        AppendedThen(InsertOut(reg, ins), Text([Semi]), true, [], [], s2, a2, ins.b.sb, ins.b.args);
      }
    }
  }

  lemma NoInsert(reg: Registry, ins: Inserter)
    requires ins.values == [] || ins.entity !in reg
    ensures InsertOut(reg, ins) == Failed
  {
  }

  // ---------- the arguments of an INSERT ----------

  lemma InsertShape(reg: Registry, ins: Inserter, sb: seq<Tok>, args: seq<Value>)
    requires Appended(Then(InsertOut(reg, ins), Text([Semi])), true, [], [], sb, args)
    ensures ins.values != [] && ins.entity in reg && Choose(reg[ins.entity], ins.columns).Some?
    ensures var model := reg[ins.entity];
      var fields := Choose(model, ins.columns).value;
      && AllCover(ins.values, fields) && UpsertOut(reg, model, ins).Wrote?
      && sb == HeadOut(model.table, fields).text +
               (CommaJoin(RowParts(|ins.values|, |fields|)) + UpsertOut(reg, model, ins).text) + [Semi]
      && args == Flat(Matrix(ins.values, fields)) + UpsertOut(reg, model, ins).args
  {
    hide CommaJoin, RowParts, UpsertOut, Choose, Flat, ColParts, Matrix, AllCover;
    var model := reg[ins.entity];
    var fields := Choose(model, ins.columns).value;
    var rest := Flat(Matrix(ins.values, fields)) + UpsertOut(reg, model, ins).args;
    assert [] + rest == rest && rest + [] == rest;
  }

  predicate HoldsCell(args: seq<Value>, val: Struct, f: Field, i: nat) {
    i < |args| && f.name in val && args[i] == val[f.name]
  }

  // Argument r * k + c is field c of row r.
  predicate HoldsRow(args: seq<Value>, val: Struct, fields: seq<Field>, r: nat) {
    forall c: nat :: c < |fields| ==> HoldsCell(args, val, fields[c], r * |fields| + c)
  }

  lemma RowHeld(values: seq<Struct>, fields: seq<Field>, tail: seq<Value>, r: nat)
    requires AllCover(values, fields) && r < |values|
    ensures HoldsRow(Flat(Matrix(values, fields)) + tail, values[r], fields, r)
  {
    hide Flat, AllCover, HoldsCell, Matrix;
    forall c: nat | c < |fields|
      ensures HoldsCell(Flat(Matrix(values, fields)) + tail, values[r], fields[c], r * |fields| + c)
    {
      CellHeld(values, fields, tail, r, c);
    }
  }

  lemma CellHeld(values: seq<Struct>, fields: seq<Field>, tail: seq<Value>, r: nat, c: nat)
    requires AllCover(values, fields) && r < |values| && c < |fields|
    ensures HoldsCell(Flat(Matrix(values, fields)) + tail, values[r], fields[c], r * |fields| + c)
  {
    hide Flat;
    FlatAt(Matrix(values, fields), |fields|, r, c);
    assert Covers(values[r], fields);
    assert Matrix(values, fields)[r] == RowArgs(values[r], fields);
  }

  // A successful build of m rows over k fields: the rows hold m * k
  // placeholders, argument r * k + c is field c of row r, and behind them come
  // exactly the arguments of the rendered upsert.
  lemma InsertLayout(reg: Registry, ins: Inserter, sb: seq<Tok>, args: seq<Value>)
    requires Appended(Then(InsertOut(reg, ins), Text([Semi])), true, [], [], sb, args)
    ensures ins.values != [] && ins.entity in reg && Choose(reg[ins.entity], ins.columns).Some?
    ensures var model := reg[ins.entity];
      var fields := Choose(model, ins.columns).value;
      var m, k, rows := |ins.values|, |fields|, CommaJoin(RowParts(|ins.values|, |fields|));
      && UpsertOut(reg, model, ins).Wrote?
      && sb == HeadOut(model.table, fields).text + (rows + UpsertOut(reg, model, ins).text) + [Semi]
      && Marks(rows) == m * k <= |args| && args[m * k..] == UpsertOut(reg, model, ins).args
      && forall r: nat :: r < m ==> HoldsRow(args, ins.values[r], fields, r)
  {
    hide CommaJoin, RowParts, UpsertOut, Choose, Marks, Flat, HoldsRow, Matrix, AllCover, HeadOut, Appended, InsertOut;
    InsertShape(reg, ins, sb, args);
    var model := reg[ins.entity];
    var fields := Choose(model, ins.columns).value;
    var tail := UpsertOut(reg, model, ins).args;
    MarksOfRows(|ins.values|, |fields|);
    FlatSize(Matrix(ins.values, fields), |fields|);
    forall r: nat | r < |ins.values| ensures HoldsRow(args, ins.values[r], fields, r) {
      RowHeld(ins.values, fields, tail, r);
    }
  }

  // One argument for every placeholder.
  lemma InsertMarks(reg: Registry, ins: Inserter, sb: seq<Tok>, args: seq<Value>)
    requires Appended(Then(InsertOut(reg, ins), Text([Semi])), true, [], [], sb, args)
    ensures Marks(sb) == |args|
  {
    hide CommaJoin, RowParts, Marks, Flat, Choose, ColParts, ResolveClash, PrintClash;
    InsertShape(reg, ins, sb, args);
    var model := reg[ins.entity];
    var fields := Choose(model, ins.columns).value;
    var rows, head := CommaJoin(RowParts(|ins.values|, |fields|)), HeadOut(model.table, fields).text;
    var tail := UpsertOut(reg, model, ins);
    MarksOfHead(model.table, fields);
    MarksOfRows(|ins.values|, |fields|);
    FlatSize(Matrix(ins.values, fields), |fields|);
    MarksNone();
    Marks1(Semi);
    if ins.upsert.Some? {
      MarksClash(ins.dialect, ResolveClash(reg, model, ins.dialect, ins.upsert.value).value);
    }
    MarksAppend(rows, tail.text);
    MarksAppend(head, rows + tail.text);
    MarksAppend(head + (rows + tail.text), [Semi]);
  }

  lemma {:induction false} MarksOfNames(fields: seq<Field>)
    ensures Marks(CommaJoin(ColParts(fields))) == 0
  {
    MarksJoin(ColParts(fields));
    if fields != [] {
      var n := |fields| - 1;
      assert ColParts(fields)[..n] == ColParts(fields[..n]);
      MarksOfNames(fields[..n]);
      Marks1(Name(fields[n].col));
    }
  }

  lemma MarksOfHead(table: string, fields: seq<Field>)
    ensures Marks(HeadOut(table, fields).text) == 0
  {
    hide Marks, CommaJoin, ColParts;
    MarksOfNames(fields);
    Marks3(Insert, Name(table), Open);
    Marks2(Close, Values);
    MarksAppend(CommaJoin(ColParts(fields)), [Close, Values]);
    MarksAppend([Insert, Name(table), Open], CommaJoin(ColParts(fields)) + [Close, Values]);
  }

  // The arguments behind the rows are those of the first Assignment, if any.
  lemma {:induction false} UpsertArgs(reg: Registry, model: Model, assigns: seq<Assignable>)
    requires ResolveUps(reg, model, assigns[..Stop(assigns)]).Some?
    ensures var ups, n := ResolveUps(reg, model, assigns[..Stop(assigns)]).value, Stop(assigns);
      |ups| == n && Flat(UpArgs(ups)) == if n > 0 && assigns[n - 1].SetTo? then ArgsUp(ups[n - 1]) else []
  {
    hide ArgsUp, ResolveAssign, ColName;
    var n := Stop(assigns);
    UpsSize(reg, model, assigns[..n]);
    if n > 0 {
      var ups := ResolveUps(reg, model, assigns[..n]).value;
      assert assigns[..n][..n - 1] == assigns[..n - 1];
      CopiesHaveNoArgs(reg, model, assigns[..n - 1]);
      UpsSize(reg, model, assigns[..n - 1]);
      assert UpArgs(ups)[..n - 1] == UpArgs(ups[..n - 1]);
      LastUp(reg, model, assigns[..n]);
    }
  }

  lemma LastUp(reg: Registry, model: Model, assigns: seq<Assignable>)
    requires assigns != [] && ResolveUps(reg, model, assigns).Some?
    ensures var ups := ResolveUps(reg, model, assigns).value;
      ups != [] && (!assigns[|assigns| - 1].SetTo? ==> ArgsUp(ups[|ups| - 1]) == [])
  {
  }

  lemma {:induction false} CopiesHaveNoArgs(reg: Registry, model: Model, assigns: seq<Assignable>)
    requires ResolveUps(reg, model, assigns).Some? && forall i :: 0 <= i < |assigns| ==> !assigns[i].SetTo?
    ensures Flat(UpArgs(ResolveUps(reg, model, assigns).value)) == []
  {
    hide ArgsUp, ResolveUp;
    if assigns != [] {
      var n := |assigns| - 1;
      var ups := ResolveUps(reg, model, assigns).value;
      CopiesHaveNoArgs(reg, model, assigns[..n]);
      UpsSize(reg, model, assigns[..n]);
      assert UpArgs(ups)[..n] == UpArgs(ups[..n]);
      LastUp(reg, model, assigns);
    }
  }
}
