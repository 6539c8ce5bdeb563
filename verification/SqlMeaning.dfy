// What a built statement asks for, in the user's terms: every condition of a
// clause, every column of the table it was taken from, every number.
module SqlMeaning {
  import opened Wrappers
  import opened Models
  import opened SqlTree
  import opened SqlParse
  import opened SqlStatements
  import opened SqlBuilder

  // ---------- columns ----------

  predicate ColumnIs(m: Model, fd: string, col: string) { fd in m.fieldMap && m.fieldMap[fd].col == col }

  // The column a user means: that of the statement's own model; of the table it
  // was taken from, under that table's alias; or of a subquery, if the subquery
  // selects it.
  predicate Denotes(reg: Registry, model: Model, src: ColSource, fd: string, ref: Ref) {
    match src
    case NoSource => ref.alias == "" && ColumnIs(model, fd, ref.col)
    case OfTable(entity, alias) => ref.alias == alias && entity in reg && ColumnIs(reg[entity], fd, ref.col)
    case OfSub(alias, m, names) => ref.alias == alias && (names == [] || fd in names) && ColumnIs(m, fd, ref.col)
    case OfJoin => false
  }

  ghost function Meant(reg: Registry, model: Model, src: ColSource, fd: string): (r: Option<Ref>)
    ensures forall ref :: r == Some(ref) <==> Denotes(reg, model, src, fd, ref)
  {
    if exists ref :: Denotes(reg, model, src, fd, ref) then
      var ref :| Denotes(reg, model, src, fd, ref);
      Some(ref)
    else None
  }

  lemma ResolvesAsMeant(reg: Registry, model: Model, src: ColSource, fd: string)
    ensures ResolveRef(reg, model, src, fd) == Meant(reg, model, src, fd)
  {
    var r := ResolveRef(reg, model, src, fd);
    assert r.Some? ==> Denotes(reg, model, src, fd, r.value);
  }

  // ---------- values ----------

  // An arbitrary reading of columns, literals, subqueries and operators, and of
  // which values are true.
  datatype Meaning<!V> = Meaning(
    col: Ref -> V, agg: (string, Ref) -> V, lit: Value -> V, raw: RawSql -> V,
    sub: Query -> V, quant: (string, Option<Query>) -> V,
    una: (Op, V) -> V, bin: (Op, V, V) -> V, holds: V -> bool)

  // AND, OR and NOT are read as usual.
  ghost predicate Logical<V(!new)>(i: Meaning<V>) {
    && (forall a, b :: i.holds(i.bin(AND, a, b)) <==> i.holds(a) && i.holds(b))
    && (forall a, b :: i.holds(i.bin(OR, a, b)) <==> i.holds(a) || i.holds(b))
    && (forall a :: i.holds(i.una(NOT, a)) <==> !i.holds(a))
  }

  function ValueOf<V>(i: Meaning<V>, e: Expr): V {
    match e
    case ColE(ref) => i.col(ref)
    case AggE(fn, ref) => i.agg(fn, ref)
    case ValE(v) => i.lit(v)
    case RawE(raw) => i.raw(raw)
    case SubE(q) => i.sub(q)
    case PredE(pred, sub) => i.quant(pred, sub)
    case Nested(p) => ValueOfPred(i, p)
  }

  function ValueOfPred<V>(i: Meaning<V>, p: Pred): V {
    match p
    case Only(l) => ValueOf(i, l)
    case Unary(op, r) => i.una(op, ValueOf(i, r))
    case Binary(l, op, r) => i.bin(op, ValueOf(i, l), ValueOf(i, r))
  }

  // What the user's expression says, by its own operators and operands; None if
  // a name in it means nothing.
  ghost function Said<V>(i: Meaning<V>, reg: Registry, model: Model, e: Expression): Option<V>
    decreases SizeE(e)
  {
    match e
    case NilE => None
    case Col(src, name) =>
      (match Meant(reg, model, src, name) case None => None case Some(ref) => Some(i.col(ref)))
    case Agg(src, fn, arg) =>
      (match Meant(reg, model, src, arg) case None => None case Some(ref) => Some(i.agg(fn, ref)))
    case Val(x) => Some(i.lit(x))
    case Raw(raw) => Some(i.raw(RawSql(raw.text, raw.args)))
    case Bin(l, op, r) =>
      if l.NilE? then
        (match (op, Said(i, reg, model, r)) case (Some(op), Some(b)) => Some(i.una(op, b)) case _ => None)
      else if r.NilE? then Said(i, reg, model, l)
      else
        (match (Said(i, reg, model, l), op, Said(i, reg, model, r))
         case (Some(a), Some(op), Some(b)) => Some(i.bin(op, a, b))
         case _ => None)
    case Sub(s) => (match ResolveSel(reg, s.q) case None => None case Some(q) => Some(i.sub(q)))
    case SubPred(pred, s) => Some(i.quant(pred, ResolveSel(reg, s.q)))
  }

  // An expression resolves exactly when it says something, and keeps it.
  lemma {:induction false} ExprSays<V>(i: Meaning<V>, reg: Registry, model: Model, e: Expression)
    ensures Said(i, reg, model, e) ==
      match ResolveExpr(reg, model, e) case None => None case Some(x) => Some(ValueOf(i, x))
    decreases SizeE(e), 1
  {
    hide ResolveSel, ResolveRef, Denotes;
    match e
    case Col(src, name) => ResolvesAsMeant(reg, model, src, name);
    case Agg(src, fn, arg) => ResolvesAsMeant(reg, model, src, arg);
    case Bin(_, _, _) => PredSays(i, reg, model, e);
    case _ =>
  }

  lemma {:induction false} PredSays<V>(i: Meaning<V>, reg: Registry, model: Model, e: Expression)
    requires e.Bin?
    ensures Said(i, reg, model, e) ==
      match ResolvePred(reg, model, e) case None => None case Some(p) => Some(ValueOfPred(i, p))
    decreases SizeE(e), 0
  {
    hide ResolveExpr, ValueOf;
    ExprSays(i, reg, model, e.l);
    ExprSays(i, reg, model, e.r);
  }

  // ---------- clauses ----------

  ghost predicate IsTrue<V>(i: Meaning<V>, reg: Registry, model: Model, e: Expression) {
    Said(i, reg, model, e).Some? && i.holds(Said(i, reg, model, e).value)
  }

  // A clause is there if it has a condition, and is true exactly when every
  // condition of it is.
  ghost predicate ClauseSays<V>(i: Meaning<V>, reg: Registry, model: Model, ps: seq<Expression>, p: Option<Pred>) {
    && (p.None? <==> ps == [])
    && (p.Some? ==> (i.holds(ValueOfPred(i, p.value)) <==> forall k :: 0 <= k < |ps| ==> IsTrue(i, reg, model, ps[k])))
  }

  lemma {:induction false} AllTrue<V(!new)>(i: Meaning<V>, reg: Registry, model: Model, ps: seq<Expression>)
    requires Logical(i) && ps != [] && forall k :: 0 <= k < |ps| ==> ps[k].Bin?
    requires Said(i, reg, model, AndAll(ps)).Some?
    ensures IsTrue(i, reg, model, AndAll(ps)) <==> forall k :: 0 <= k < |ps| ==> IsTrue(i, reg, model, ps[k])
  {
    hide Said;
    var n := |ps| - 1;
    if n > 0 {
      var init := ps[..n];
      AndSays(i, reg, model, AndAll(init), ps[n]);
      AllTrue(i, reg, model, init);
      assert forall k :: 0 <= k < n ==> init[k] == ps[k];
    }
  }

  // The builder's own conjunction.
  lemma AndSays<V(!new)>(i: Meaning<V>, reg: Registry, model: Model, a: Expression, b: Expression)
    requires Logical(i) && a.Bin? && b.Bin?
    requires Said(i, reg, model, Bin(a, Some(AND), b)).Some?
    ensures Said(i, reg, model, a).Some?
    ensures IsTrue(i, reg, model, Bin(a, Some(AND), b)) <==> IsTrue(i, reg, model, a) && IsTrue(i, reg, model, b)
  {
  }

  lemma ClauseMeans<V(!new)>(i: Meaning<V>, reg: Registry, model: Model, ps: seq<Expression>)
    requires Logical(i) && forall k :: 0 <= k < |ps| ==> ps[k].Bin?
    requires ResolveClause(reg, model, ps).Good?
    ensures ClauseSays(i, reg, model, ps, ResolveClause(reg, model, ps).p)
  {
    hide Said, ResolvePred, ValueOfPred;
    if ps != [] {
      PredSays(i, reg, model, AndAll(ps));
      AllTrue(i, reg, model, ps);
    }
  }

  // ---------- lists of columns ----------

  // The columns of a list, one by one.
  predicate GroupSays(reg: Registry, model: Model, cs: seq<GroupCol>, rs: seq<Ref>) {
    |rs| == |cs| && forall k :: 0 <= k < |cs| ==> Denotes(reg, model, cs[k].src, cs[k].name, rs[k])
  }

  lemma {:induction false} GroupMeans(reg: Registry, model: Model, cs: seq<GroupCol>)
    requires ResolveGroup(reg, model, cs).Some?
    ensures GroupSays(reg, model, cs, ResolveGroup(reg, model, cs).value)
  {
    hide Denotes, ResolveRef;
    if cs != [] {
      var n := |cs| - 1;
      GroupMeans(reg, model, cs[..n]);
      ResolvesAsMeant(reg, model, cs[n].src, cs[n].name);
    }
  }

  predicate SelectableSays(reg: Registry, model: Model, c: Selectable, s: Sel) {
    match c
    case SCol(src, name, alias) => s.SelCol? && Denotes(reg, model, src, name, s.ref) && s.alias == alias
    case SAgg(src, fn, arg, alias) =>
      s.SelAgg? && s.fn == fn && Denotes(reg, model, src, arg, s.ref) && s.alias == alias
    case SRaw(raw) => s == SelRaw(RawSql(raw.text, raw.args))
  }

  predicate ColumnsSay(reg: Registry, model: Model, cs: seq<Selectable>, ss: seq<Sel>) {
    |ss| == |cs| && forall k :: 0 <= k < |cs| ==> SelectableSays(reg, model, cs[k], ss[k])
  }

  lemma SelectableMeans(reg: Registry, model: Model, c: Selectable)
    requires ResolveSelectable(reg, model, c).Some?
    ensures SelectableSays(reg, model, c, ResolveSelectable(reg, model, c).value)
  {
    hide Denotes, ResolveRef;
    match c
    case SCol(src, name, _) => ResolvesAsMeant(reg, model, src, name);
    case SAgg(src, _, arg, _) => ResolvesAsMeant(reg, model, src, arg);
    case _ =>
  }

  lemma {:induction false} ColumnsMean(reg: Registry, model: Model, cs: seq<Selectable>)
    requires ResolveColumns(reg, model, cs).Some?
    ensures ColumnsSay(reg, model, cs, ResolveColumns(reg, model, cs).value)
  {
    hide SelectableSays, ResolveSelectable;
    if cs != [] {
      var n := |cs| - 1;
      ColumnsMean(reg, model, cs[..n]);
      SelectableMeans(reg, model, cs[n]);
    }
  }

  // ---------- whole statements ----------

  // Every clause of the statement and of the subqueries in its FROM is made of
  // predicates.
  predicate PredsOnly(ps: seq<Expression>) { forall k :: 0 <= k < |ps| ==> ps[k].Bin? }

  predicate TableOfPreds(t: TableRef)
    decreases SizeT(t)
  {
    match t
    case SubT(s) => SelOfPreds(s.q)
    case JoinOf(l, _, r, _, on) => TableOfPreds(l) && TableOfPreds(r) && PredsOnly(on)
    case _ => true
  }

  predicate SelOfPreds(q: Selector)
    decreases SizeSel(q)
  {
    TableOfPreds(q.table) && PredsOnly(q.where) && PredsOnly(q.having)
  }

  // A table reference asks for the table of its entity, its subquery, or its
  // join: the tables on their sides, the columns of USING by name, and the
  // condition of ON.
  ghost predicate TableSays<V>(i: Meaning<V>, reg: Registry, model: Model, t: TableRef, r: Table)
    decreases SizeT(t)
  {
    match t
    case NoTable => r == Named(model.table, "")
    case TableOf(entity, alias) => entity in reg && r == Named(reg[entity].table, alias)
    case SubT(s) => r.Derived? && r.alias == s.alias && Asks(i, reg, s.q, r.q)
    case JoinOf(a, typ, b, using, on) =>
      && r.Join? && r.typ == typ && TableSays(i, reg, model, a, r.l) && TableSays(i, reg, model, b, r.r)
      && |r.using| == |using| && (forall k :: 0 <= k < |using| ==> Denotes(reg, model, NoSource, using[k], r.using[k]))
      && ClauseSays(i, reg, model, on, r.on)
  }

  // What a statement asks for, part by part.
  ghost predicate Asks<V>(i: Meaning<V>, reg: Registry, q: Selector, r: Query)
    decreases SizeSel(q)
  {
    q.entity in reg &&
    var m := reg[q.entity];
    && ColumnsSay(reg, m, q.columns, r.cols)
    && TableSays(i, reg, m, q.table, r.table)
    && ClauseSays(i, reg, m, q.where, r.cond)
    && GroupSays(reg, m, q.groupBy, r.group)
    && ClauseSays(i, reg, m, q.having, r.having)
    && (if q.limit > 0 then r.limit == Some(q.limit) else r.limit == None)
    && (if q.offset > 0 then r.offset == Some(q.offset) else r.offset == None)
  }

  lemma {:induction false} TableMeans<V(!new)>(i: Meaning<V>, reg: Registry, model: Model, t: TableRef)
    requires Logical(i) && TableOfPreds(t) && ResolveTable(reg, model, t).Some?
    ensures TableSays(i, reg, model, t, ResolveTable(reg, model, t).value)
    decreases SizeT(t)
  {
    hide Denotes, Logical, ResolveSel, Asks, ClauseSays, ResolveClause, ResolveGroup, SelOfPreds;
    match t
    case SubT(s) => SelectMeans(i, reg, s.q);
    case JoinOf(a, _, b, using, on) =>
      TableMeans(i, reg, model, a);
      TableMeans(i, reg, model, b);
      GroupMeans(reg, model, UsingCols(using));
      ClauseMeans(i, reg, model, on);
    case _ =>
  }

  lemma {:induction false} SelectMeans<V(!new)>(i: Meaning<V>, reg: Registry, q: Selector)
    requires Logical(i) && SelOfPreds(q) && ResolveSel(reg, q).Some?
    ensures Asks(i, reg, q, ResolveSel(reg, q).value)
    decreases SizeSel(q)
  {
    hide Denotes, Logical, TableSays, ClauseSays, GroupSays, ColumnsSay, TableOfPreds, PredsOnly;
    hide ResolveTable, ResolveClause, ResolveGroup, ResolveColumns;
    var m := reg[q.entity];
    ArePreds(q.where);
    ArePreds(q.having);
    ColumnsMean(reg, m, q.columns);
    TableMeans(i, reg, m, q.table);
    ClauseMeans(i, reg, m, q.where);
    GroupMeans(reg, m, q.groupBy);
    ClauseMeans(i, reg, m, q.having);
  }

  lemma ArePreds(ps: seq<Expression>)
    requires PredsOnly(ps)
    ensures forall k :: 0 <= k < |ps| ==> ps[k].Bin?
  {
  }

  // ---------- which statements can be built ----------

  ghost predicate Known(reg: Registry, model: Model, src: ColSource, fd: string) {
    exists ref :: Denotes(reg, model, src, fd, ref)
  }

  lemma KnownMeans(reg: Registry, model: Model, src: ColSource, fd: string)
    ensures Known(reg, model, src, fd) <==> ResolveRef(reg, model, src, fd).Some?
  {
    ResolvesAsMeant(reg, model, src, fd);
  }

  ghost predicate AllSay<V>(i: Meaning<V>, reg: Registry, model: Model, ps: seq<Expression>) {
    forall k :: 0 <= k < |ps| ==> Said(i, reg, model, ps[k]).Some?
  }

  ghost predicate AllKnown(reg: Registry, model: Model, cs: seq<GroupCol>) {
    forall k :: 0 <= k < |cs| ==> Known(reg, model, cs[k].src, cs[k].name)
  }

  ghost predicate SelectableKnown(reg: Registry, model: Model, c: Selectable) {
    match c
    case SCol(src, name, _) => Known(reg, model, src, name)
    case SAgg(src, _, arg, _) => Known(reg, model, src, arg)
    case SRaw(_) => true
  }

  ghost predicate ColumnsKnown(reg: Registry, model: Model, cs: seq<Selectable>) {
    forall k :: 0 <= k < |cs| ==> SelectableKnown(reg, model, cs[k])
  }

  ghost predicate TableKnown<V>(i: Meaning<V>, reg: Registry, model: Model, t: TableRef)
    decreases SizeT(t)
  {
    match t
    case NoTable => true
    case TableOf(entity, _) => entity in reg
    case SubT(s) => Answerable(i, reg, s.q)
    case JoinOf(a, _, b, using, on) =>
      && TableKnown(i, reg, model, a) && TableKnown(i, reg, model, b)
      && AllKnown(reg, model, UsingCols(using)) && AllSay(i, reg, model, on)
  }

  // Its entity is registered and every name in it means something.
  ghost predicate Answerable<V>(i: Meaning<V>, reg: Registry, q: Selector)
    decreases SizeSel(q)
  {
    q.entity in reg &&
    var m := reg[q.entity];
    && ColumnsKnown(reg, m, q.columns) && TableKnown(i, reg, m, q.table) && AllSay(i, reg, m, q.where)
    && AllKnown(reg, m, q.groupBy) && AllSay(i, reg, m, q.having)
  }

  lemma {:induction false} ConjunctionSays<V>(i: Meaning<V>, reg: Registry, model: Model, ps: seq<Expression>)
    requires ps != [] && PredsOnly(ps)
    ensures AndAll(ps).Bin? && (Said(i, reg, model, AndAll(ps)).Some? <==> AllSay(i, reg, model, ps))
  {
    hide Said;
    var n := |ps| - 1;
    if n > 0 {
      ConjunctionSays(i, reg, model, ps[..n]);
      BothSay(i, reg, model, AndAll(ps[..n]), ps[n]);
      assert AllSay(i, reg, model, ps) <==> AllSay(i, reg, model, ps[..n]) && Said(i, reg, model, ps[n]).Some? by {
        assert forall k :: 0 <= k < n ==> ps[..n][k] == ps[k];
      }
    }
  }

  lemma BothSay<V>(i: Meaning<V>, reg: Registry, model: Model, a: Expression, b: Expression)
    requires a.Bin? && b.Bin?
    ensures Said(i, reg, model, Bin(a, Some(AND), b)).Some? <==>
      Said(i, reg, model, a).Some? && Said(i, reg, model, b).Some?
  {
  }

  lemma ClauseKnown<V>(i: Meaning<V>, reg: Registry, model: Model, ps: seq<Expression>)
    requires PredsOnly(ps)
    ensures ResolveClause(reg, model, ps).Good? <==> AllSay(i, reg, model, ps)
  {
    hide Said, ResolvePred;
    if ps != [] {
      ConjunctionSays(i, reg, model, ps);
      PredSays(i, reg, model, AndAll(ps));
    }
  }

  lemma {:induction false} GroupKnown(reg: Registry, model: Model, cs: seq<GroupCol>)
    ensures ResolveGroup(reg, model, cs).Some? <==> AllKnown(reg, model, cs)
  {
    hide Known, ResolveRef;
    if cs != [] {
      var n := |cs| - 1;
      GroupKnown(reg, model, cs[..n]);
      KnownMeans(reg, model, cs[n].src, cs[n].name);
      assert AllKnown(reg, model, cs[..n]) <==> forall k :: 0 <= k < n ==> Known(reg, model, cs[k].src, cs[k].name) by {
        assert forall k :: 0 <= k < n ==> cs[..n][k] == cs[k];
      }
    }
  }

  lemma SelectableIsKnown(reg: Registry, model: Model, c: Selectable)
    ensures ResolveSelectable(reg, model, c).Some? <==> SelectableKnown(reg, model, c)
  {
    hide Known, ResolveRef;
    match c
    case SCol(src, name, _) => KnownMeans(reg, model, src, name);
    case SAgg(src, _, arg, _) => KnownMeans(reg, model, src, arg);
    case _ =>
  }

  lemma {:induction false} ColumnsAreKnown(reg: Registry, model: Model, cs: seq<Selectable>)
    ensures ResolveColumns(reg, model, cs).Some? <==> ColumnsKnown(reg, model, cs)
  {
    hide SelectableKnown, ResolveSelectable;
    if cs != [] {
      var n := |cs| - 1;
      ColumnsAreKnown(reg, model, cs[..n]);
      SelectableIsKnown(reg, model, cs[n]);
      assert ColumnsKnown(reg, model, cs[..n]) <==> forall k :: 0 <= k < n ==> SelectableKnown(reg, model, cs[k]) by {
        assert forall k :: 0 <= k < n ==> cs[..n][k] == cs[k];
      }
    }
  }

  lemma {:induction false} TableIsKnown<V>(i: Meaning<V>, reg: Registry, model: Model, t: TableRef)
    requires TableOfPreds(t)
    ensures ResolveTable(reg, model, t).Some? <==> TableKnown(i, reg, model, t)
    decreases SizeT(t)
  {
    hide ResolveSel, Answerable, AllSay, AllKnown, ResolveClause, ResolveGroup, SelOfPreds;
    match t
    case SubT(s) => SelectIsAnswerable(i, reg, s.q);
    case JoinOf(a, _, b, using, on) =>
      TableIsKnown(i, reg, model, a);
      TableIsKnown(i, reg, model, b);
      GroupKnown(reg, model, UsingCols(using));
      ClauseKnown(i, reg, model, on);
    case _ =>
  }

  // A SELECT fails exactly when it is not answerable.
  lemma {:induction false} SelectIsAnswerable<V>(i: Meaning<V>, reg: Registry, q: Selector)
    requires SelOfPreds(q)
    ensures ResolveSel(reg, q).Some? <==> Answerable(i, reg, q)
    decreases SizeSel(q)
  {
    hide TableKnown, AllSay, AllKnown, ColumnsKnown, TableOfPreds, PredsOnly;
    hide ResolveTable, ResolveClause, ResolveGroup, ResolveColumns;
    if q.entity in reg {
      var m := reg[q.entity];
      ColumnsAreKnown(reg, m, q.columns);
      TableIsKnown(i, reg, m, q.table);
      ClauseKnown(i, reg, m, q.where);
      GroupKnown(reg, m, q.groupBy);
      ClauseKnown(i, reg, m, q.having);
    }
  }

  // A database that reads a built SELECT with its arguments gets what the user
  // asked for, whatever the columns, literals and operators mean.
  lemma BuiltSelectAsks<V(!new)>(i: Meaning<V>, reg: Registry, q: Selector, sb: seq<Tok>, args: seq<Value>)
    requires Appended(Then(QueryOut(ResolveSel(reg, q)), Text([Semi])), true, [], [], sb, args)
    requires Logical(i) && SelOfPreds(q)
    ensures var r := ParseQuery(sb, args); r.Ok? && r.ts == [Semi] && r.xs == [] && Asks(i, reg, q, r.v)
  {
    hide Asks, Appended, ResolveSel, ParseQuery, QueryOut, SelOfPreds, Logical;
    SelectReadsBack(reg, q, sb, args);
    SelectMeans(i, reg, q);
  }
}
