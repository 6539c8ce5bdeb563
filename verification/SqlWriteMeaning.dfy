// What a built UPDATE or INSERT asks for, in the user's terms.
module SqlWriteMeaning {
  import opened Wrappers
  import opened Models
  import opened SqlTree
  import opened SqlParse
  import opened SqlRoundTrip
  import opened SqlWrite
  import opened SqlBuilder
  import opened SqlUpdate
  import opened SqlInsert
  import opened SqlMeaning

  // ---------- UPDATE ----------

  // Column by column: the value of the struct's field, or the expression given.
  ghost predicate AssignSays<V>(i: Meaning<V>, reg: Registry, model: Model, val: Struct, a: Assignable, s: SetItem) {
    match a
    case SetCol(src, name) => Denotes(reg, model, src, name, s.ref) && name in val && s.val == Only(ValE(val[name]))
    case SetTo(column, e) =>
      Denotes(reg, model, NoSource, column, s.ref) && Said(i, reg, model, e) == Some(ValueOfPred(i, s.val))
    case SetRaw => false
  }

  ghost predicate Assigns<V>(i: Meaning<V>, reg: Registry, model: Model, val: Struct, assigns: seq<Assignable>,
                             ss: seq<SetItem>)
  {
    |ss| == |assigns| && forall k :: 0 <= k < |assigns| ==> AssignSays(i, reg, model, val, assigns[k], ss[k])
  }

  ghost predicate Changes<V>(i: Meaning<V>, reg: Registry, u: Updater, c: Change) {
    u.entity in reg &&
    var m := reg[u.entity];
    && c.table == m.table && Assigns(i, reg, m, u.val, u.assigns, c.sets) && ClauseSays(i, reg, m, u.where, c.cond)
  }

  // Which of them can be built.
  ghost predicate AssignKnown<V>(i: Meaning<V>, reg: Registry, model: Model, val: Struct, a: Assignable) {
    match a
    case SetCol(src, name) => Known(reg, model, src, name) && name in val
    case SetTo(column, e) => Known(reg, model, NoSource, column) && Said(i, reg, model, e).Some?
    case SetRaw => false
  }

  ghost predicate AssignsKnown<V>(i: Meaning<V>, reg: Registry, model: Model, val: Struct, assigns: seq<Assignable>) {
    forall k :: 0 <= k < |assigns| ==> AssignKnown(i, reg, model, val, assigns[k])
  }

  lemma TopSays<V>(i: Meaning<V>, reg: Registry, model: Model, e: Expression)
    ensures Said(i, reg, model, e) ==
      match ResolveTop(reg, model, e) case None => None case Some(p) => Some(ValueOfPred(i, p))
  {
    hide Said, ResolvePred, ResolveExpr, ValueOf;
    if e.Bin? {
      PredSays(i, reg, model, e);
    } else {
      ExprSays(i, reg, model, e);
    }
  }

  lemma AssignMeans<V>(i: Meaning<V>, reg: Registry, model: Model, val: Struct, a: Assignable)
    ensures ResolveAssign(reg, model, val, a).Some? <==> AssignKnown(i, reg, model, val, a)
    ensures ResolveAssign(reg, model, val, a).Some? ==>
      AssignSays(i, reg, model, val, a, ResolveAssign(reg, model, val, a).value)
  {
    hide Said, ResolveTop, ResolveRef, Known, Denotes, ValueOfPred;
    match a
    case SetCol(src, name) => ColumnMeans(reg, model, src, name);
    case SetTo(column, e) =>
      ColumnMeans(reg, model, NoSource, column);
      TopSays(i, reg, model, e);
    case SetRaw =>
  }

  lemma ColumnMeans(reg: Registry, model: Model, src: ColSource, fd: string)
    ensures Known(reg, model, src, fd) <==> ResolveRef(reg, model, src, fd).Some?
    ensures ResolveRef(reg, model, src, fd).Some? ==>
      Denotes(reg, model, src, fd, ResolveRef(reg, model, src, fd).value)
  {
    KnownMeans(reg, model, src, fd);
    ResolvesAsMeant(reg, model, src, fd);
  }

  lemma {:induction false} AssignsMean<V>(i: Meaning<V>, reg: Registry, model: Model, val: Struct,
                                          assigns: seq<Assignable>)
    ensures ResolveAssigns(reg, model, val, assigns).Some? <==> AssignsKnown(i, reg, model, val, assigns)
    ensures ResolveAssigns(reg, model, val, assigns).Some? ==>
      Assigns(i, reg, model, val, assigns, ResolveAssigns(reg, model, val, assigns).value)
  {
    hide AssignSays, AssignKnown, ResolveAssign;
    if assigns != [] {
      var n := |assigns| - 1;
      AssignsMean(i, reg, model, val, assigns[..n]);
      AssignMeans(i, reg, model, val, assigns[n]);
      assert forall k :: 0 <= k < n ==> assigns[..n][k] == assigns[k];
    }
  }

  // An UPDATE is built exactly when it assigns something and every name in it
  // means something.
  lemma UpdateIsKnown<V>(i: Meaning<V>, reg: Registry, u: Updater)
    requires PredsOnly(u.where)
    ensures ResolveUpdate(reg, u).Some? <==>
      && u.assigns != [] && u.entity in reg
      && AssignsKnown(i, reg, reg[u.entity], u.val, u.assigns) && AllSay(i, reg, reg[u.entity], u.where)
  {
    hide ResolveAssigns, ResolveClause, AssignsKnown, AllSay, PredsOnly, Assigns;
    if u.entity in reg {
      AssignsMean(i, reg, reg[u.entity], u.val, u.assigns);
      ClauseKnown(i, reg, reg[u.entity], u.where);
    }
  }

  // Read back with its arguments, a built UPDATE changes the table of its entity
  // column by column as asked, in the rows for which every predicate is true.
  lemma BuiltUpdateChanges<V(!new)>(i: Meaning<V>, reg: Registry, u: Updater, sb: seq<Tok>, args: seq<Value>)
    requires Appended(Then(ChangeOut(ResolveUpdate(reg, u)), Text([Semi])), true, [], [], sb, args)
    requires Logical(i) && PredsOnly(u.where)
    ensures var r := ParseChange(sb, args); r.Ok? && r.ts == [Semi] && r.xs == [] && Changes(i, reg, u, r.v)
  {
    hide Appended, ParseChange, ChangeOut, ResolveAssigns, ResolveClause, Logical, ClauseSays, Assigns, AssignsKnown;
    hide PredsOnly;
    UpdateReadsBack(reg, u, sb, args);
    var m := reg[u.entity];
    AssignsMean(i, reg, m, u.val, u.assigns);
    ArePreds(u.where);
    ClauseMeans(i, reg, m, u.where);
  }

  // ---------- reading an INSERT ----------

  // What a database reads: a table, its columns, and for each row its values.
  datatype Inserted = Inserted(table: string, cols: seq<string>, rows: seq<seq<Value>>, clash: Option<Clash>)

  // A name and the names after it.
  function ParseNames(done: seq<string>, ts: seq<Tok>): Parsed<seq<string>>
    decreases |ts|
  {
    if |ts| >= 2 && ts[0].Comma? && ts[1].Name? then ParseNames(done + [ts[1].name], ts[2..]) else Ok(done, ts, [])
  }

  function ParseMarks(done: seq<Value>, ts: seq<Tok>, xs: seq<Value>): (r: Parsed<seq<Value>>)
    ensures r.Ok? ==> |r.ts| <= |ts|
    decreases |ts|
  {
    if |ts| >= 2 && ts[0].Comma? && ts[1].Mark? && xs != [] then ParseMarks(done + [xs[0]], ts[2..], xs[1..])
    else Ok(done, ts, xs)
  }

  function ParseMarkList(ts: seq<Tok>, xs: seq<Value>): (r: Parsed<seq<Value>>)
    ensures r.Ok? ==> |r.ts| <= |ts|
  {
    if Starts(ts, Mark) && xs != [] then ParseMarks([xs[0]], ts[1..], xs[1..]) else Ok([], ts, xs)
  }

  // A list of placeholders in parentheses, with the arguments it takes.
  function ParseRow(ts: seq<Tok>, xs: seq<Value>): (r: Parsed<seq<Value>>)
    ensures r.Ok? ==> |r.ts| < |ts|
  {
    if !Starts(ts, Open) then Fail else
      match ParseMarkList(ts[1..], xs)
      case Fail => Fail
      case Ok(vs, ts', xs') => if Starts(ts', Close) then Ok(vs, ts'[1..], xs') else Fail
  }

  function ParseRows(done: seq<seq<Value>>, ts: seq<Tok>, xs: seq<Value>): (r: Parsed<seq<seq<Value>>>)
    decreases |ts|
  {
    if !Starts(ts, Comma) then Ok(done, ts, xs) else
      match ParseRow(ts[1..], xs)
      case Fail => Fail
      case Ok(row, ts', xs') => ParseRows(done + [row], ts', xs')
  }

  // One assignment of an upsert: an expression, or the column of the row that
  // was rejected.
  function ParseUp(d: Dialect, ts: seq<Tok>, xs: seq<Value>): (r: Parsed<UpItem>)
    ensures r.Ok? ==> |r.ts| < |ts|
  {
    match ParseSet(ts, xs)
    case Ok(s, ts', xs') => Ok(Set(s), ts', xs')
    case Fail =>
      if d.MySQL? && |ts| >= 6 && ts[0].Name? && ts[1..4] == [Assign, Values, Open] && ts[4] == ts[0] &&
         ts[5].Close? then
        Ok(Copy(ts[0].name), ts[6..], xs)
      else if d.SQLite? && |ts| >= 5 && ts[0].Name? && ts[1..4] == [Assign, Upsert("excluded"), Dot] &&
              ts[4] == ts[0] then
        Ok(Copy(ts[0].name), ts[5..], xs)
      else Fail
  }

  function ParseUps(d: Dialect, done: seq<UpItem>, ts: seq<Tok>, xs: seq<Value>): Parsed<seq<UpItem>>
    decreases |ts|
  {
    if !Starts(ts, Comma) then Ok(done, ts, xs) else
      match ParseUp(d, ts[1..], xs)
      case Fail => Fail
      case Ok(u, ts', xs') => ParseUps(d, done + [u], ts', xs')
  }

  // The assignments behind the keywords.
  function ParseUpList(d: Dialect, ts: seq<Tok>, xs: seq<Value>): Parsed<seq<UpItem>> {
    if Starts(ts, Semi) then Ok([], ts, xs) else
      match ParseUp(d, ts, xs) case Fail => Fail case Ok(u, ts', xs') => ParseUps(d, [u], ts', xs')
  }

  // The columns in parentheses, if any.
  function ParseTarget(ts: seq<Tok>): Parsed<seq<Ref>> {
    if !Starts(ts, Open) then Ok([], ts, []) else
      match ParseRef(ts[1..], [])
      case Fail => Fail
      case Ok(ref, ts', _) =>
        match ParseRefs([ref], ts', [])
        case Fail => Fail
        case Ok(refs, ts'', _) => if Starts(ts'', Close) then Ok(refs, ts''[1..], []) else Fail
  }

  function ParseClash(d: Dialect, ts: seq<Tok>, xs: seq<Value>): Parsed<Option<Clash>> {
    match d
    case MySQL =>
      if !Starts(ts, Upsert("ON DUPLICATE KEY UPDATE")) then Ok(None, ts, xs) else
        (match ParseUpList(d, ts[1..], xs) case Fail => Fail case Ok(us, ts', xs') => Ok(Some(Clash([], us)), ts', xs'))
    case SQLite =>
      if !Starts(ts, Upsert("ON CONFLICT")) then Ok(None, ts, xs) else
        match ParseTarget(ts[1..])
        case Fail => Fail
        case Ok(target, ts', _) =>
          if !Starts(ts', Upsert("DO UPDATE SET")) then Fail else
            match ParseUpList(d, ts'[1..], xs)
            case Fail => Fail
            case Ok(us, ts'', xs') => Ok(Some(Clash(target, us)), ts'', xs')
  }

  // The names of the columns up to the closing parenthesis.
  function ParseColumns(ts: seq<Tok>): Parsed<seq<string>> {
    if ts != [] && ts[0].Name? then ParseNames([ts[0].name], ts[1..]) else Ok([], ts, [])
  }

  function ParseBody(d: Dialect, table: string, cols: seq<string>, ts: seq<Tok>, xs: seq<Value>): Parsed<Inserted> {
    match ParseRow(ts, xs)
    case Fail => Fail
    case Ok(row, ts1, xs1) =>
      match ParseRows([row], ts1, xs1)
      case Fail => Fail
      case Ok(rows, ts2, xs2) =>
        match ParseClash(d, ts2, xs2)
        case Fail => Fail
        case Ok(clash, ts3, xs3) => Ok(Inserted(table, cols, rows, clash), ts3, xs3)
  }

  function ParseInsert(d: Dialect, ts: seq<Tok>, xs: seq<Value>): Parsed<Inserted> {
    if !(|ts| >= 3 && ts[0].Insert? && ts[1].Name? && ts[2].Open?) then Fail else
      match ParseColumns(ts[3..])
      case Fail => Fail
      case Ok(cols, ts', _) =>
        if Starts(ts', Close) && Starts(ts'[1..], Values) then ParseBody(d, ts[1].name, cols, ts'[2..], xs) else Fail
  }

  // ---------- reading it back ----------

  lemma {:induction false} NamesRT(done: seq<string>, fs: seq<Field>, k: seq<Tok>)
    requires !Starts(k, Comma)
    ensures ParseNames(done, CommaTail(ColParts(fs)) + k) == Ok(done + Columns(fs), k, [])
    decreases |fs|
  {
    if fs == [] {
      assert [] + k == k && done + [] == done;
    } else {
      hide CommaTail;
      TailSplit(ColParts(fs), k);
      assert ColParts(fs)[1..] == ColParts(fs[1..]);
      var ts := CommaTail(ColParts(fs)) + k;
      Behind(Name(fs[0].col), CommaTail(ColParts(fs[1..])) + k);
      assert ts[2..] == ts[1..][1..];
      NamesRT(done + [fs[0].col], fs[1..], k);
      assert done + [fs[0].col] + Columns(fs[1..]) == done + Columns(fs);
    }
  }

  lemma ColumnsRT(fs: seq<Field>, k: seq<Tok>)
    requires Starts(k, Close)
    ensures ParseColumns(CommaJoin(ColParts(fs)) + k) == Ok(Columns(fs), k, [])
  {
    hide CommaJoin, ParseNames;
    if fs == [] {
      assert CommaJoin([]) + k == k by { NoParts(); }
    } else {
      var tail := CommaTail(ColParts(fs[1..]));
      CommaJoinHead(ColParts(fs));
      assert ColParts(fs)[1..] == ColParts(fs[1..]);
      Assoc([Name(fs[0].col)], tail, k);
      Behind(Name(fs[0].col), tail + k);
      NamesRT([fs[0].col], fs[1..], k);
      assert [fs[0].col] + Columns(fs[1..]) == Columns(fs);
    }
  }

  lemma NoParts()
    ensures CommaJoin([]) == []
  {
  }

  lemma {:induction false} MarksRT(done: seq<Value>, vs: seq<Value>, k: seq<Tok>, ys: seq<Value>)
    requires !Starts(k, Comma)
    ensures ParseMarks(done, CommaTail(MarkParts(|vs|)) + k, vs + ys) == Ok(done + vs, k, ys)
    decreases |vs|
  {
    if vs == [] {
      assert [] + k == k && done + [] == done && [] + ys == ys;
    } else {
      hide CommaTail;
      TailSplit(MarkParts(|vs|), k);
      assert MarkParts(|vs|)[1..] == MarkParts(|vs[1..]|);
      var ts := CommaTail(MarkParts(|vs|)) + k;
      Behind(Mark, CommaTail(MarkParts(|vs[1..]|)) + k);
      assert ts[2..] == ts[1..][1..];
      assert (vs + ys)[1..] == vs[1..] + ys;
      MarksRT(done + [vs[0]], vs[1..], k, ys);
      assert done + [vs[0]] + vs[1..] == done + vs;
    }
  }

  lemma MarkListRT(vs: seq<Value>, k: seq<Tok>, ys: seq<Value>)
    requires Starts(k, Close)
    ensures ParseMarkList(CommaJoin(MarkParts(|vs|)) + k, vs + ys) == Ok(vs, k, ys)
  {
    hide CommaJoin, CommaTail, ParseMarks;
    var n := |vs|;
    if n == 0 {
      NoParts();
      assert [] + k == k && [] + ys == ys;
    } else {
      var tail := CommaTail(MarkParts(n - 1));
      CommaJoinHead(MarkParts(n));
      assert MarkParts(n)[1..] == MarkParts(n - 1);
      Assoc([Mark], tail, k);
      Behind(Mark, tail + k);
      assert (vs + ys)[1..] == vs[1..] + ys;
      MarksRT([vs[0]], vs[1..], k, ys);
      assert [vs[0]] + vs[1..] == vs;
    }
  }

  lemma RowRT(vs: seq<Value>, k: seq<Tok>, ys: seq<Value>)
    ensures ParseRow(RowText(|vs|) + k, vs + ys) == Ok(vs, k, ys)
  {
    hide CommaJoin, ParseMarkList, MarkParts;
    var marks := CommaJoin(MarkParts(|vs|));
    assert RowText(|vs|) + k == [Open] + (marks + ([Close] + k));
    Behind(Open, marks + ([Close] + k));
    Behind(Close, k);
    MarkListRT(vs, [Close] + k, ys);
  }

  predicate Wide(rows: seq<seq<Value>>, n: nat) { forall r :: 0 <= r < |rows| ==> |rows[r]| == n }

  // The rows behind the first.
  lemma NextRow(rows: seq<seq<Value>>, n: nat, k: seq<Tok>, ys: seq<Value>)
    requires rows != [] && Wide(rows, n)
    ensures Wide(rows[1..], n)
    ensures var ts, rest := CommaTail(RowParts(|rows|, n)) + k, CommaTail(RowParts(|rows| - 1, n)) + k;
      Starts(ts, Comma) && ParseRow(ts[1..], Flat(rows) + ys) == Ok(rows[0], rest, Flat(rows[1..]) + ys)
  {
    hide CommaTail, RowText, ParseRow, Flat;
    var parts, rest := RowParts(|rows|, n), CommaTail(RowParts(|rows| - 1, n)) + k;
    assert parts[0] == RowText(n) && parts[1..] == RowParts(|rows| - 1, n);
    TailSplit(parts, k);
    FlatHead(rows);
    Assoc(rows[0], Flat(rows[1..]), ys);
    RowRT(rows[0], rest, Flat(rows[1..]) + ys);
  }

  lemma {:induction false} RowsRT(done: seq<seq<Value>>, rows: seq<seq<Value>>, n: nat, k: seq<Tok>, ys: seq<Value>)
    requires !Starts(k, Comma) && Wide(rows, n)
    ensures ParseRows(done, CommaTail(RowParts(|rows|, n)) + k, Flat(rows) + ys) == Ok(done + rows, k, ys)
    decreases |rows|
  {
    hide ParseRow, ParseRows, RowText, RowParts, CommaTail, Flat, Wide;
    if rows == [] {
      NoMoreRows(done, n, k, ys);
    } else {
      var ts, rest := CommaTail(RowParts(|rows|, n)) + k, CommaTail(RowParts(|rows| - 1, n)) + k;
      NextRow(rows, n, k, ys);
      ReadsRow(done, rows[0], ts, Flat(rows) + ys, rest, Flat(rows[1..]) + ys);
      RowsRT(done + [rows[0]], rows[1..], n, k, ys);
      Prepend(done, rows);
    }
  }

  lemma NoMoreRows(done: seq<seq<Value>>, n: nat, k: seq<Tok>, ys: seq<Value>)
    requires !Starts(k, Comma)
    ensures ParseRows(done, CommaTail(RowParts(0, n)) + k, Flat([]) + ys) == Ok(done + [], k, ys)
  {
    assert [] + k == k && done + [] == done && [] + ys == ys;
  }

  lemma ReadsRow(done: seq<seq<Value>>, row: seq<Value>, ts: seq<Tok>, xs: seq<Value>, ts': seq<Tok>, xs': seq<Value>)
    requires Starts(ts, Comma) && ParseRow(ts[1..], xs) == Ok(row, ts', xs')
    ensures ParseRows(done, ts, xs) == ParseRows(done + [row], ts', xs')
  {
    hide ParseRow;
  }

  lemma NoPred(ts: seq<Tok>, xs: seq<Value>)
    requires ts != [] && (ts[0].Values? || ts[0].Upsert?)
    ensures ParsePred(ts, xs) == Fail
  {
    hide ParseQuery;
  }

  lemma UpRT(d: Dialect, u: UpItem, k: seq<Tok>, ys: seq<Value>)
    requires PredEnd(k)
    ensures ParseUp(d, PrintUp(d, u) + k, ArgsUp(u) + ys) == Ok(u, k, ys)
  {
    hide ParsePred, PrintSet, ArgsPred, PredEnd;
    match u
    case Set(s) => SetRT(s, k, ys);
    case Copy(c) =>
      var ts := CopyText(d, c) + k;
      assert [] + ys == ys;
      assert ts[1..][0] == Assign && ts[1..][1..] == ts[2..];
      NoPred(ts[2..], ys);
      assert ts[|CopyText(d, c)|..] == k;
      assert ts[1..4] == CopyText(d, c)[1..4];
  }

  lemma UpTailEnds(d: Dialect, us: seq<UpItem>, k: seq<Tok>)
    requires Starts(k, Semi)
    ensures PredEnd(CommaTail(UpParts(d, us)) + k)
  {
    hide CommaTail;
    TailEnds(UpParts(d, us), k);
  }

  lemma {:induction false} UpsRT(d: Dialect, done: seq<UpItem>, us: seq<UpItem>, k: seq<Tok>, ys: seq<Value>)
    requires Starts(k, Semi)
    ensures ParseUps(d, done, CommaTail(UpParts(d, us)) + k, Flat(UpArgs(us)) + ys) == Ok(done + us, k, ys)
    decreases |us|
  {
    if us == [] {
      assert [] + k == k && done + [] == done && [] + ys == ys;
    } else {
      hide PrintUp, ParseUp, ArgsUp, Flat, CommaTail;
      TailSplit(UpParts(d, us), k);
      assert UpParts(d, us)[1..] == UpParts(d, us[1..]);
      assert UpArgs(us)[1..] == UpArgs(us[1..]);
      FlatHead(UpArgs(us));
      Assoc(UpArgs(us)[0], Flat(UpArgs(us[1..])), ys);
      UpTailEnds(d, us[1..], k);
      UpRT(d, us[0], CommaTail(UpParts(d, us[1..])) + k, Flat(UpArgs(us[1..])) + ys);
      UpsRT(d, done + [us[0]], us[1..], k, ys);
      Prepend(done, us);
    }
  }

  lemma UpStarts(d: Dialect, u: UpItem, k: seq<Tok>)
    ensures !Starts(PrintUp(d, u) + k, Semi)
  {
  }

  lemma UpListRT(d: Dialect, us: seq<UpItem>, k: seq<Tok>, ys: seq<Value>)
    requires Starts(k, Semi)
    ensures ParseUpList(d, CommaJoin(UpParts(d, us)) + k, Flat(UpArgs(us)) + ys) == Ok(us, k, ys)
  {
    hide CommaJoin, PrintUp, ParseUp, ParseUps, ArgsUp, Flat, CommaTail;
    if us == [] {
      NoParts();
      NoArgs();
      assert [] + k == k && [] + ys == ys;
    } else {
      var rest := us[1..];
      var tail := CommaTail(UpParts(d, rest));
      CommaJoinHead(UpParts(d, us));
      assert UpParts(d, us)[1..] == UpParts(d, rest);
      assert UpArgs(us)[1..] == UpArgs(rest);
      FlatHead(UpArgs(us));
      Assoc(PrintUp(d, us[0]), tail, k);
      Assoc(ArgsUp(us[0]), Flat(UpArgs(rest)), ys);
      UpStarts(d, us[0], tail + k);
      UpTailEnds(d, rest, k);
      UpRT(d, us[0], tail + k, Flat(UpArgs(rest)) + ys);
      UpsRT(d, [us[0]], rest, k, ys);
      assert [us[0]] + rest == us;
    }
  }

  lemma NoArgs()
    ensures Flat<Value>([]) == []
  {
  }

  lemma TargetRT(rs: seq<Ref>, k: seq<Tok>)
    requires k != [] && k[0].Upsert?
    ensures ParseTarget(PrintTarget(rs) + k) == Ok(rs, k, [])
  {
    hide CommaJoin, CommaTail, ParseRef, ParseRefs, RefParts;
    if rs == [] {
      assert [] + k == k;
    } else {
      var refs := CommaJoin(RefParts(rs));
      assert PrintTarget(rs) + k == [Open] + (refs + ([Close] + k));
      Behind(Open, refs + ([Close] + k));
      Behind(Close, k);
      RefListRT(rs, [Close] + k, []);
    }
  }

  lemma ClashRT(d: Dialect, c: Clash, k: seq<Tok>, ys: seq<Value>)
    requires Starts(k, Semi) && (d.MySQL? ==> c.target == [])
    ensures ParseClash(d, PrintClash(d, c) + k, Flat(UpArgs(c.ups)) + ys) == Ok(Some(c), k, ys)
  {
    hide CommaJoin, UpParts, UpArgs, PrintTarget, ParseTarget, ParseUpList;
    var ups := CommaJoin(UpParts(d, c.ups));
    UpListRT(d, c.ups, k, ys);
    match d
    case MySQL =>
      Assoc([Upsert("ON DUPLICATE KEY UPDATE")], ups, k);
      Behind(Upsert("ON DUPLICATE KEY UPDATE"), ups + k);
    case SQLite =>
      var tail := [Upsert("DO UPDATE SET")] + (ups + k);
      assert PrintClash(d, c) + k == [Upsert("ON CONFLICT")] + (PrintTarget(c.target) + tail);
      Behind(Upsert("ON CONFLICT"), PrintTarget(c.target) + tail);
      Behind(Upsert("DO UPDATE SET"), ups + k);
      TargetRT(c.target, tail);
  }

  lemma BodyRT(d: Dialect, table: string, cols: seq<string>, rows: seq<seq<Value>>, n: nat, k: seq<Tok>, ys: seq<Value>,
               clash: Option<Clash>)
    requires rows != [] && Wide(rows, n) && !Starts(k, Comma)
    requires ParseClash(d, k, ys) == Ok(clash, [Semi], [])
    ensures ParseBody(d, table, cols, CommaJoin(RowParts(|rows|, n)) + k, Flat(rows) + ys) ==
      Ok(Inserted(table, cols, rows, clash), [Semi], [])
  {
    hide CommaJoin, CommaTail, RowText, ParseRow, ParseRows, Flat, ParseClash;
    var parts, rest := RowParts(|rows|, n), CommaTail(RowParts(|rows| - 1, n)) + k;
    CommaJoinHead(parts);
    assert parts[0] == RowText(n) && parts[1..] == RowParts(|rows| - 1, n);
    Assoc(RowText(n), CommaTail(RowParts(|rows| - 1, n)), k);
    FlatHead(rows);
    Assoc(rows[0], Flat(rows[1..]), ys);
    RowRT(rows[0], rest, Flat(rows[1..]) + ys);
    RowsRT([rows[0]], rows[1..], n, k, ys);
    assert [rows[0]] + rows[1..] == rows;
  }

  function ClashOf(reg: Registry, m: Model, ins: Inserter): Option<Clash> {
    if ins.upsert.None? then None else ResolveClash(reg, m, ins.dialect, ins.upsert.value)
  }

  lemma TailRT(reg: Registry, m: Model, ins: Inserter)
    requires UpsertOut(reg, m, ins).Wrote?
    ensures var tail := UpsertOut(reg, m, ins);
      && ParseClash(ins.dialect, tail.text + [Semi], tail.args) == Ok(ClashOf(reg, m, ins), [Semi], [])
      && !Starts(tail.text + [Semi], Comma)
  {
    hide ParseUpList, ParseTarget, CommaJoin, UpParts, UpArgs, Flat, PrintTarget;
    if ins.upsert.None? {
      assert [] + [Semi] == [Semi];
    } else {
      var c := ResolveClash(reg, m, ins.dialect, ins.upsert.value).value;
      ClashRT(ins.dialect, c, [Semi], []);
      assert Flat(UpArgs(c.ups)) + [] == Flat(UpArgs(c.ups));
    }
  }

  // The text and the arguments of a built INSERT determine its table, columns,
  // rows and upsert.
  lemma InsertRT(reg: Registry, ins: Inserter, sb: seq<Tok>, args: seq<Value>)
    requires Appended(Then(InsertOut(reg, ins), Text([Semi])), true, [], [], sb, args)
    ensures ins.values != [] && ins.entity in reg && Choose(reg[ins.entity], ins.columns).Some?
    ensures var m := reg[ins.entity];
      var fs := Choose(m, ins.columns).value;
      && AllCover(ins.values, fs) && UpsertOut(reg, m, ins).Wrote?
      && ParseInsert(ins.dialect, sb, args)
         == Ok(Inserted(m.table, Columns(fs), Matrix(ins.values, fs), ClashOf(reg, m, ins)), [Semi], [])
  {
    hide CommaJoin, RowParts, UpsertOut, Choose, Flat, ColParts, Matrix, AllCover, Appended, InsertOut, ClashOf;
    hide ParseColumns, ParseBody, Columns, ParseClash;
    InsertShape(reg, ins, sb, args);
    var m := reg[ins.entity];
    var fs := Choose(m, ins.columns).value;
    var names, rows, tail := CommaJoin(ColParts(fs)), CommaJoin(RowParts(|ins.values|, |fs|)), UpsertOut(reg, m, ins);
    var body := rows + (tail.text + [Semi]);
    assert sb == [Insert, Name(m.table), Open] + (names + ([Close, Values] + body));
    assert sb[3..] == names + ([Close, Values] + body);
    ColumnsRT(fs, [Close, Values] + body);
    assert ([Close, Values] + body)[1..][0] == Values && ([Close, Values] + body)[2..] == body;
    TailRT(reg, m, ins);
    BodyRT(ins.dialect, m.table, Columns(fs), Matrix(ins.values, fs), |fs|, tail.text + [Semi], tail.args,
           ClashOf(reg, m, ins));
  }

  // ---------- INSERT ----------

  // The columns named, or all of the model's.
  predicate Chosen(m: Model, columns: seq<string>, fs: seq<Field>) {
    if columns == [] then fs == m.fields else
      |fs| == |columns| && forall k :: 0 <= k < |fs| ==> columns[k] in m.fieldMap && fs[k] == m.fieldMap[columns[k]]
  }

  // The values of one struct, field by field.
  predicate RowSays(fs: seq<Field>, val: Struct, row: seq<Value>) {
    |row| == |fs| && forall k :: 0 <= k < |fs| ==> fs[k].name in val && row[k] == val[fs[k].name]
  }

  predicate RowsSay(fs: seq<Field>, values: seq<Struct>, rows: seq<seq<Value>>) {
    |rows| == |values| && forall j :: 0 <= j < |values| ==> RowSays(fs, values[j], rows[j])
  }

  predicate NamesSay(fs: seq<Field>, cols: seq<string>) {
    |cols| == |fs| && forall k :: 0 <= k < |fs| ==> cols[k] == fs[k].col
  }

  // A column takes the value of the rejected row, or of an expression.
  ghost predicate UpSays<V>(i: Meaning<V>, reg: Registry, m: Model, a: Assignable, u: UpItem) {
    match a
    case SetCol(src, name) => u.Copy? && exists alias :: Denotes(reg, m, src, name, Ref(alias, u.col))
    case SetTo(_, _) => u.Set? && AssignSays(i, reg, m, map[], a, u.s)
    case SetRaw => false
  }

  // The assignments up to the first with an expression.
  predicate Rendered(assigns: seq<Assignable>, n: nat) {
    && n <= |assigns| && (forall k :: 0 <= k < n - 1 ==> !assigns[k].SetTo?)
    && (n < |assigns| ==> n > 0 && assigns[n - 1].SetTo?)
  }

  ghost predicate UpsSay<V>(i: Meaning<V>, reg: Registry, m: Model, assigns: seq<Assignable>, us: seq<UpItem>) {
    |us| <= |assigns| && forall k :: 0 <= k < |us| ==> UpSays(i, reg, m, assigns[k], us[k])
  }

  ghost predicate ClashSays<V>(i: Meaning<V>, reg: Registry, m: Model, d: Dialect, u: OnConflict, c: Clash) {
    && (if d.MySQL? then c.target == [] else GroupSays(reg, m, UsingCols(u.columns), c.target))
    && Rendered(u.assigns, |c.ups|) && UpsSay(i, reg, m, u.assigns, c.ups)
  }

  ghost predicate Inserts<V>(i: Meaning<V>, reg: Registry, ins: Inserter, r: Inserted) {
    && ins.entity in reg && r.table == reg[ins.entity].table
    && (exists fs ::
         Chosen(reg[ins.entity], ins.columns, fs) && NamesSay(fs, r.cols) && RowsSay(fs, ins.values, r.rows))
    && match ins.upsert
       case None => r.clash == None
       case Some(u) => r.clash.Some? && ClashSays(i, reg, reg[ins.entity], ins.dialect, u, r.clash.value)
  }

  lemma {:induction false} PickMeans(m: Model, columns: seq<string>)
    ensures Pick(m, columns).Some? <==> forall k :: 0 <= k < |columns| ==> columns[k] in m.fieldMap
    ensures Pick(m, columns).Some? ==>
      var fs := Pick(m, columns).value;
      |fs| == |columns| && forall k :: 0 <= k < |fs| ==> columns[k] in m.fieldMap && fs[k] == m.fieldMap[columns[k]]
  {
    if columns != [] {
      var n := |columns| - 1;
      PickMeans(m, columns[..n]);
      assert forall k :: 0 <= k < n ==> columns[..n][k] == columns[k];
    }
  }

  lemma ChosenIs(m: Model, columns: seq<string>)
    ensures forall fs :: Chosen(m, columns, fs) <==> Choose(m, columns) == Some(fs)
  {
    hide Pick;
    PickMeans(m, columns);
    if columns != [] {
      forall fs | Chosen(m, columns, fs) ensures Pick(m, columns) == Some(fs) {
        assert Pick(m, columns).Some?;
        assert Pick(m, columns).value == fs;
      }
    }
  }

  ghost predicate UpKnown<V>(i: Meaning<V>, reg: Registry, m: Model, a: Assignable) {
    match a
    case SetCol(src, name) => Known(reg, m, src, name)
    case SetTo(_, _) => AssignKnown(i, reg, m, map[], a)
    case SetRaw => false
  }

  lemma UpMeans<V>(i: Meaning<V>, reg: Registry, m: Model, a: Assignable)
    ensures ResolveUp(reg, m, a).Some? <==> UpKnown(i, reg, m, a)
    ensures ResolveUp(reg, m, a).Some? ==> UpSays(i, reg, m, a, ResolveUp(reg, m, a).value)
  {
    hide Known, Denotes, AssignSays, AssignKnown, ResolveAssign, ColName;
    match a
    case SetCol(src, name) => ColumnMeans(reg, m, src, name);
    case SetTo(_, _) => AssignMeans(i, reg, m, map[], a);
    case SetRaw =>
  }

  ghost predicate UpsKnown<V>(i: Meaning<V>, reg: Registry, m: Model, assigns: seq<Assignable>) {
    forall k :: 0 <= k < |assigns| ==> UpKnown(i, reg, m, assigns[k])
  }

  lemma {:induction false} UpsMean<V>(i: Meaning<V>, reg: Registry, m: Model, assigns: seq<Assignable>)
    ensures ResolveUps(reg, m, assigns).Some? <==> UpsKnown(i, reg, m, assigns)
    ensures ResolveUps(reg, m, assigns).Some? ==>
      |ResolveUps(reg, m, assigns).value| == |assigns| && UpsSay(i, reg, m, assigns, ResolveUps(reg, m, assigns).value)
  {
    hide UpSays, UpKnown, ResolveUp;
    if assigns != [] {
      var n := |assigns| - 1;
      UpsMean(i, reg, m, assigns[..n]);
      UpMeans(i, reg, m, assigns[n]);
      assert forall k :: 0 <= k < n ==> assigns[..n][k] == assigns[k];
    }
  }

  lemma {:induction false} StopIs(assigns: seq<Assignable>)
    ensures Rendered(assigns, Stop(assigns))
  {
    if assigns != [] && !assigns[0].SetTo? {
      StopIs(assigns[1..]);
    }
  }

  // Every name before and in the first expression means something.
  ghost predicate ClashKnown<V>(i: Meaning<V>, reg: Registry, m: Model, d: Dialect, u: OnConflict) {
    && (d.SQLite? ==> AllKnown(reg, m, UsingCols(u.columns)))
    && exists n: nat :: Rendered(u.assigns, n) && UpsKnown(i, reg, m, u.assigns[..n])
  }

  lemma RenderedOnce(assigns: seq<Assignable>, a: nat, b: nat)
    requires Rendered(assigns, a) && Rendered(assigns, b)
    ensures a == b
  {
  }

  lemma ClashMeans<V>(i: Meaning<V>, reg: Registry, m: Model, d: Dialect, u: OnConflict)
    ensures ResolveClash(reg, m, d, u).Some? <==> ClashKnown(i, reg, m, d, u)
    ensures ResolveClash(reg, m, d, u).Some? ==> ClashSays(i, reg, m, d, u, ResolveClash(reg, m, d, u).value)
  {
    hide Stop, ResolveUps, ResolveGroup, UpsKnown, UpSays, AllKnown, Rendered, GroupSays;
    var n := Stop(u.assigns);
    StopIs(u.assigns);
    UpsMean(i, reg, m, u.assigns[..n]);
    forall b: nat | Rendered(u.assigns, b) ensures b == n {
      RenderedOnce(u.assigns, b, n);
    }
    GroupKnown(reg, m, UsingCols(u.columns));
    if ResolveGroup(reg, m, UsingCols(u.columns)).Some? {
      GroupMeans(reg, m, UsingCols(u.columns));
    }
  }

  // Read back with its arguments, a built INSERT puts the values of each struct,
  // in the order given, under the columns chosen, with the upsert asked for.
  lemma BuiltInsertInserts<V>(i: Meaning<V>, reg: Registry, ins: Inserter, sb: seq<Tok>, args: seq<Value>)
    requires Appended(Then(InsertOut(reg, ins), Text([Semi])), true, [], [], sb, args)
    ensures var r := ParseInsert(ins.dialect, sb, args);
      r.Ok? && r.ts == [Semi] && r.xs == [] && Inserts(i, reg, ins, r.v)
  {
    hide Appended, InsertOut, ParseInsert, Choose, Chosen, ClashSays, ResolveClash;
    InsertRT(reg, ins, sb, args);
    var m := reg[ins.entity];
    var fs := Choose(m, ins.columns).value;
    ChosenIs(m, ins.columns);
    assert RowsSay(fs, ins.values, Matrix(ins.values, fs));
    assert NamesSay(fs, Columns(fs));
    if ins.upsert.Some? {
      ClashMeans(i, reg, m, ins.dialect, ins.upsert.value);
    }
  }

  // Every struct has a value for each of the columns chosen.
  ghost predicate HasValues(m: Model, columns: seq<string>, values: seq<Struct>) {
    exists fs :: Chosen(m, columns, fs) && forall j :: 0 <= j < |values| ==> Covers(values[j], fs)
  }

  // An INSERT is built exactly when it has rows, and every name means something.
  lemma InsertIsKnown<V>(i: Meaning<V>, reg: Registry, ins: Inserter)
    ensures InsertOut(reg, ins).Wrote? <==>
      && ins.values != [] && ins.entity in reg && HasValues(reg[ins.entity], ins.columns, ins.values)
      && (ins.upsert.Some? ==> ClashKnown(i, reg, reg[ins.entity], ins.dialect, ins.upsert.value))
  {
    hide Choose, Chosen, ClashKnown, ResolveClash, Covers, HeadOut, CommaJoin, RowParts, Matrix, Flat;
    if ins.values != [] && ins.entity in reg {
      var m := reg[ins.entity];
      ChosenIs(m, ins.columns);
      if Choose(m, ins.columns).Some? {
        var fs := Choose(m, ins.columns).value;
        HeadIsWritten(m.table, fs);
        assert HasValues(m, ins.columns, ins.values) <==> AllCover(ins.values, fs);
      }
      if ins.upsert.Some? {
        ClashMeans(i, reg, m, ins.dialect, ins.upsert.value);
      }
    }
  }

  lemma HeadIsWritten(table: string, fs: seq<Field>)
    ensures HeadOut(table, fs).Wrote?
  {
  }
}
