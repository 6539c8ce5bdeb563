// The query builder of homework_subquery as it runs: every Selector owns a
// builder with a text buffer and an argument list, and every Subquery shares a
// cache cell for its text.
module SqlBuilder {
  import opened Wrappers
  import opened SqlTree
  import opened SqlMarks
  import opened Models

  // ---------- what the user builds ----------

  type Registry = map<string, Model>

  // What a column keeps of the table it was taken from.
  datatype ColSource =
    | NoSource
    | OfTable(entity: string, alias: string)
    | OfSub(alias: string, model: Model, names: seq<string>)
    | OfJoin

  datatype RawExpr = RawExpr(text: string, marks: nat, args: seq<Value>)

  // Bin stands for Predicate, MathExpr and binaryExpr alike.
  datatype Expression =
    | NilE
    | Col(src: ColSource, name: string)
    | Agg(src: ColSource, fn: string, arg: string)
    | Val(v: Value)
    | Raw(raw: RawExpr)
    | Bin(l: Expression, op: Option<Op>, r: Expression)
    | Sub(s: Subquery)
    | SubPred(pred: string, s: Subquery)

  datatype Subquery = Subquery(q: Selector, alias: string, cell: CacheCell)

  datatype Selectable =
    | SCol(src: ColSource, name: string, alias: string)
    | SAgg(src: ColSource, fn: string, arg: string, alias: string)
    | SRaw(raw: RawExpr)

  datatype GroupCol = GroupCol(src: ColSource, name: string)

  datatype TableRef =
    | NoTable
    | TableOf(entity: string, alias: string)
    | SubT(s: Subquery)
    | JoinOf(l: TableRef, typ: string, r: TableRef, using: seq<string>, on: seq<Expression>)

  datatype Selector = Selector(b: Builder, entity: string, columns: seq<Selectable>, table: TableRef,
                               where: seq<Expression>, groupBy: seq<GroupCol>, having: seq<Expression>,
                               limit: int, offset: int)

  // The shared *string of a subquery; empty until first built.
  class CacheCell {
    var sql: seq<Tok>

    constructor ()
      ensures sql == []
    {
      sql := [];
    }
  }

  // ---------- sizes and conjunctions ----------

  function SizeE(e: Expression): nat
    decreases e
  {
    match e
    case Bin(l, _, r) => 1 + SizeE(l) + SizeE(r)
    case Sub(s) => 1 + SizeSel(s.q)
    case SubPred(_, s) => 1 + SizeSel(s.q)
    case _ => 1
  }

  function SizeEs(es: seq<Expression>): nat
    decreases es
  {
    if es == [] then 0 else SizeEs(es[..|es| - 1]) + 1 + SizeE(es[|es| - 1])
  }

  function SizeT(t: TableRef): nat
    decreases t
  {
    match t
    case JoinOf(l, _, r, _, on) => 1 + SizeT(l) + SizeT(r) + SizeEs(on)
    case SubT(s) => 1 + SizeSel(s.q)
    case _ => 1
  }

  function SizeSel(q: Selector): nat
    decreases q
  {
    1 + SizeT(q.table) + SizeEs(q.where) + SizeEs(q.having)
  }

  // The predicates of a clause joined with And, from the left.
  function AndAll(ps: seq<Expression>): (p: Expression)
    requires ps != []
    ensures SizeE(p) <= SizeEs(ps)
  {
    if |ps| == 1 then ps[0] else Bin(AndAll(ps[..|ps| - 1]), Some(AND), ps[|ps| - 1])
  }

  // ---------- resolving names ----------

  function AliasOf(src: ColSource): string {
    match src
    case OfTable(_, alias) => alias
    case OfSub(alias, _, _) => alias
    case _ => ""
  }

  function Lookup(fields: map<string, Field>, fd: string): Option<string> {
    if fd in fields then Some(fields[fd].col) else None
  }

  // colName; None is an error.
  function ColName(reg: Registry, model: Model, src: ColSource, fd: string): Option<string> {
    match src
    case NoSource => Lookup(model.fieldMap, fd)
    case OfTable(entity, _) => if entity in reg then Lookup(reg[entity].fieldMap, fd) else None
    case OfSub(_, m, names) => if |names| > 0 && fd !in names then None else Lookup(m.fieldMap, fd)
    case OfJoin => None
  }

  function ResolveRef(reg: Registry, model: Model, src: ColSource, fd: string): Option<Ref> {
    match ColName(reg, model, src, fd)
    case None => None
    case Some(c) => Some(Ref(AliasOf(src), c))
  }

  function ResolveRaw(raw: RawExpr): RawSql { RawSql(raw.text, raw.args) }

  // None is an error. A failing subquery inside ANY, ALL or SOME is no error:
  // buildExpression drops it.
  function ResolveExpr(reg: Registry, model: Model, e: Expression): Option<Expr>
    decreases SizeE(e), 1
  {
    match e
    case NilE => None
    case Col(src, name) =>
      (match ResolveRef(reg, model, src, name) case None => None case Some(ref) => Some(ColE(ref)))
    case Agg(src, fn, arg) =>
      (match ResolveRef(reg, model, src, arg) case None => None case Some(ref) => Some(AggE(fn, ref)))
    case Val(v) => Some(ValE(v))
    case Raw(raw) => Some(RawE(ResolveRaw(raw)))
    case Bin(_, _, _) => (match ResolvePred(reg, model, e) case None => None case Some(p) => Some(Nested(p)))
    case Sub(s) => (match ResolveSel(reg, s.q) case None => None case Some(q) => Some(SubE(q)))
    case SubPred(pred, s) => Some(PredE(pred, ResolveSel(reg, s.q)))
  }

  function ResolvePred(reg: Registry, model: Model, e: Expression): Option<Pred>
    requires e.Bin?
    decreases SizeE(e), 0
  {
    if e.l.NilE? then
      match (e.op, ResolveExpr(reg, model, e.r))
      case (Some(op), Some(r)) => Some(Unary(op, r))
      case _ => None
    else if e.r.NilE? then
      match ResolveExpr(reg, model, e.l) case None => None case Some(l) => Some(Only(l))
    else
      match (ResolveExpr(reg, model, e.l), e.op, ResolveExpr(reg, model, e.r))
      case (Some(l), Some(op), Some(r)) => Some(Binary(l, op, r))
      case _ => None
  }

  // A clause: no predicate at all, or their conjunction.
  datatype Clause = Bad | Good(p: Option<Pred>)

  function ResolveClause(reg: Registry, model: Model, ps: seq<Expression>): Clause
    decreases SizeEs(ps), 2
  {
    if ps == [] then Good(None)
    else if !AndAll(ps).Bin? then Bad
    else match ResolvePred(reg, model, AndAll(ps)) case None => Bad case Some(p) => Good(Some(p))
  }

  function ResolveGroup(reg: Registry, model: Model, cs: seq<GroupCol>): Option<seq<Ref>> {
    if cs == [] then Some([]) else
      var last := |cs| - 1;
      match (ResolveGroup(reg, model, cs[..last]), ResolveRef(reg, model, cs[last].src, cs[last].name))
      case (Some(rs), Some(r)) => Some(rs + [r])
      case _ => None
  }

  function UsingCols(names: seq<string>): (cs: seq<GroupCol>)
    ensures |cs| == |names|
  {
    seq(|names|, i requires 0 <= i < |names| => GroupCol(NoSource, names[i]))
  }

  function ResolveSelectable(reg: Registry, model: Model, s: Selectable): Option<Sel> {
    match s
    case SCol(src, name, alias) =>
      (match ResolveRef(reg, model, src, name) case None => None case Some(ref) => Some(SelCol(ref, alias)))
    case SAgg(src, fn, arg, alias) =>
      (match ResolveRef(reg, model, src, arg) case None => None case Some(ref) => Some(SelAgg(fn, ref, alias)))
    case SRaw(raw) => Some(SelRaw(ResolveRaw(raw)))
  }

  function ResolveColumns(reg: Registry, model: Model, ss: seq<Selectable>): Option<seq<Sel>> {
    if ss == [] then Some([]) else
      var last := |ss| - 1;
      match (ResolveColumns(reg, model, ss[..last]), ResolveSelectable(reg, model, ss[last]))
      case (Some(rs), Some(r)) => Some(rs + [r])
      case _ => None
  }

  function ResolveTable(reg: Registry, model: Model, t: TableRef): Option<Table>
    decreases SizeT(t), 3
  {
    match t
    case NoTable => Some(Named(model.table, ""))
    case TableOf(entity, alias) => if entity in reg then Some(Named(reg[entity].table, alias)) else None
    case SubT(s) => (match ResolveSel(reg, s.q) case None => None case Some(q) => Some(Derived(q, s.alias)))
    case JoinOf(l, typ, r, using, on) =>
      match (ResolveTable(reg, model, l), ResolveTable(reg, model, r), ResolveGroup(reg, model, UsingCols(using)),
             ResolveClause(reg, model, on))
      case (Some(l'), Some(r'), Some(us), Good(p)) => Some(Join(l', typ, r', us, p))
      case _ => None
  }

  function Positive(n: int): Option<Value> { if n > 0 then Some(n) else None }

  function ResolveSel(reg: Registry, q: Selector): Option<Query>
    decreases SizeSel(q), 4
  {
    if q.entity !in reg then None else
      var m := reg[q.entity];
      match (ResolveColumns(reg, m, q.columns), ResolveTable(reg, m, q.table), ResolveClause(reg, m, q.where),
             ResolveGroup(reg, m, q.groupBy), ResolveClause(reg, m, q.having))
      case (Some(cols), Some(table), Good(cond), Some(group), Good(having)) =>
        Some(Query(cols, table, cond, group, having, Positive(q.limit), Positive(q.offset)))
      case _ => None
  }

  // ---------- objects behind a tree ----------

  // The builders and cache cells an expression can write to.
  function FootE(e: Expression): set<object>
    decreases SizeE(e), 0
  {
    match e
    case Bin(l, _, r) => FootE(l) + FootE(r)
    case Sub(s) => {s.cell} + FootSel(s.q)
    case SubPred(_, s) => {s.cell} + FootSel(s.q)
    case _ => {}
  }

  function FootEs(ps: seq<Expression>): set<object>
    decreases SizeEs(ps), 1
  {
    if ps == [] then {} else FootE(AndAll(ps))
  }

  function FootT(t: TableRef): set<object>
    decreases SizeT(t), 2
  {
    match t
    case SubT(s) => FootSel(s.q)
    case JoinOf(l, _, r, _, on) => FootT(l) + FootT(r) + FootEs(on)
    case _ => {}
  }

  function FootSel(q: Selector): set<object>
    decreases SizeSel(q), 3
  {
    {q.b} + FootT(q.table) + FootEs(q.where) + FootEs(q.having)
  }

  // These objects exist as soon as the tree does.
  lemma {:induction false} AllocE(e: Expression)
    ensures forall o <- FootE(e) :: allocated(o)
    decreases SizeE(e), 0
  {
    match e
    case Bin(l, _, r) => AllocE(l); AllocE(r);
    case Sub(s) => AllocSel(s.q);
    case SubPred(_, s) => AllocSel(s.q);
    case _ =>
  }

  lemma {:induction false} AllocEs(ps: seq<Expression>)
    ensures forall o <- FootEs(ps) :: allocated(o)
    decreases SizeEs(ps), 1
  {
    if ps != [] {
      AllocE(AndAll(ps));
    }
  }

  lemma {:induction false} AllocT(t: TableRef)
    ensures forall o <- FootT(t) :: allocated(o)
    decreases SizeT(t), 2
  {
    match t
    case SubT(s) => AllocSel(s.q);
    case JoinOf(l, _, r, _, on) => AllocT(l); AllocT(r); AllocEs(on);
    case _ =>
  }

  lemma {:induction false} AllocSel(q: Selector)
    ensures forall o <- FootSel(q) :: allocated(o)
    decreases SizeSel(q), 3
  {
    AllocT(q.table); AllocEs(q.where); AllocEs(q.having);
  }

  predicate BalancedRaw(raw: RawExpr) { raw.marks == |raw.args| }

  // Every raw expression carries as many arguments as placeholders.
  predicate BalancedE(e: Expression)
    decreases SizeE(e), 0
  {
    match e
    case Bin(l, _, r) => BalancedE(l) && BalancedE(r)
    case Raw(raw) => BalancedRaw(raw)
    case Sub(s) => BalancedSel(s.q)
    case SubPred(_, s) => BalancedSel(s.q)
    case _ => true
  }

  predicate BalancedEs(ps: seq<Expression>)
    decreases SizeEs(ps), 1
  {
    ps == [] || BalancedE(AndAll(ps))
  }

  predicate BalancedT(t: TableRef)
    decreases SizeT(t), 2
  {
    match t
    case SubT(s) => BalancedSel(s.q)
    case JoinOf(l, _, r, _, on) => BalancedT(l) && BalancedT(r) && BalancedEs(on)
    case _ => true
  }

  predicate BalancedCol(c: Selectable) { c.SRaw? ==> BalancedRaw(c.raw) }

  predicate BalancedCols(cs: seq<Selectable>) { forall i :: 0 <= i < |cs| ==> BalancedCol(cs[i]) }

  predicate BalancedSel(q: Selector)
    decreases SizeSel(q), 4
  {
    BalancedCols(q.columns) && BalancedParts(q)
  }

  predicate BalancedParts(q: Selector)
    decreases SizeSel(q), 3
  {
    BalancedT(q.table) && BalancedEs(q.where) && BalancedEs(q.having)
  }

  // Built by the API, and no builder or cache cell occurs twice.
  predicate TidyE(e: Expression)
    decreases SizeE(e), 0
  {
    match e
    case NilE => false
    case Bin(l, op, r) =>
      if l.NilE? then op.Some? && TidyE(r)
      else if r.NilE? then op.None? && TidyE(l)
      else op.Some? && TidyE(l) && TidyE(r) && FootE(l) !! FootE(r)
    case Sub(s) => s.cell !in FootSel(s.q) && TidySel(s.q)
    case SubPred(_, s) => s.cell !in FootSel(s.q) && TidySel(s.q)
    case _ => true
  }

  predicate TidyEs(ps: seq<Expression>)
    decreases SizeEs(ps), 1
  {
    ps == [] || (AndAll(ps).Bin? && TidyE(AndAll(ps)))
  }

  predicate TidyT(t: TableRef)
    decreases SizeT(t), 2
  {
    match t
    case SubT(s) => TidySel(s.q)
    case JoinOf(l, _, r, _, on) =>
      && TidyT(l) && TidyT(r) && TidyEs(on)
      && FootT(l) !! FootT(r) && FootT(l) !! FootEs(on) && FootT(r) !! FootEs(on)
    case _ => true
  }

  predicate TidySel(q: Selector)
    decreases SizeSel(q), 3
  {
    && TidyT(q.table) && TidyEs(q.where) && TidyEs(q.having)
    && q.b !in FootT(q.table) && q.b !in FootEs(q.where) && q.b !in FootEs(q.having)
    && FootT(q.table) !! FootEs(q.where) && FootT(q.table) !! FootEs(q.having) && FootEs(q.where) !! FootEs(q.having)
  }

  // Nothing below has been built yet.
  ghost predicate UntouchedE(e: Expression)
    reads FootE(e)
    decreases SizeE(e), 0
  {
    match e
    case Bin(l, _, r) => UntouchedE(l) && UntouchedE(r)
    case Sub(s) => s.cell.sql == [] && UntouchedSel(s.q)
    case SubPred(_, s) => s.cell.sql == [] && UntouchedSel(s.q)
    case _ => true
  }

  ghost predicate UntouchedEs(ps: seq<Expression>)
    reads FootEs(ps)
    decreases SizeEs(ps), 1
  {
    ps == [] || UntouchedE(AndAll(ps))
  }

  ghost predicate UntouchedT(t: TableRef)
    reads FootT(t)
    decreases SizeT(t), 2
  {
    match t
    case SubT(s) => UntouchedSel(s.q)
    case JoinOf(l, _, r, _, on) => UntouchedT(l) && UntouchedT(r) && UntouchedEs(on)
    case _ => true
  }

  ghost predicate UntouchedSel(q: Selector)
    reads FootSel(q)
    decreases SizeSel(q), 3
  {
    q.b.sb == [] && q.b.args == [] && UntouchedT(q.table) && UntouchedEs(q.where) && UntouchedEs(q.having)
  }

  // ---------- what a tree shares ----------

  // A subquery in an expression is built once: its cell then holds its text for
  // every other use. One that does not resolve is never cached.

  predicate Resolves(reg: Registry, s: Subquery) { ResolveSel(reg, s.q).Some? }

  function Printed(reg: Registry, q: Selector): seq<Tok> {
    match ResolveSel(reg, q) case None => [] case Some(r) => PrintQuery(r)
  }

  // The subqueries that may be used many times: those in expressions that
  // resolve, at any depth.
  function SubsE(reg: Registry, e: Expression): set<Subquery>
    decreases SizeE(e), 0
  {
    match e
    case Bin(l, _, r) => SubsE(reg, l) + SubsE(reg, r)
    case Sub(s) => if Resolves(reg, s) then {s} + SubsSel(reg, s.q) else {}
    case SubPred(_, s) => if Resolves(reg, s) then {s} + SubsSel(reg, s.q) else {}
    case _ => {}
  }

  function SubsEs(reg: Registry, ps: seq<Expression>): set<Subquery>
    decreases SizeEs(ps), 1
  {
    if ps == [] then {} else SubsE(reg, AndAll(ps))
  }

  function SubsT(reg: Registry, t: TableRef): set<Subquery>
    decreases SizeT(t), 2
  {
    match t
    case SubT(s) => SubsSel(reg, s.q)
    case JoinOf(l, _, r, _, on) => SubsT(reg, l) + (SubsT(reg, r) + SubsEs(reg, on))
    case _ => {}
  }

  function SubsSel(reg: Registry, q: Selector): set<Subquery>
    decreases SizeSel(q), 3
  {
    SubsT(reg, q.table) + (SubsEs(reg, q.where) + SubsEs(reg, q.having))
  }

  // The objects used once: the builder of a selector and of the subqueries in
  // its FROM, and all objects of a subquery that does not resolve.
  function OwnE(reg: Registry, e: Expression): set<object>
    decreases SizeE(e), 0
  {
    match e
    case Bin(l, _, r) => OwnE(reg, l) + OwnE(reg, r)
    case Sub(s) => if Resolves(reg, s) then {} else {s.cell} + FootSel(s.q)
    case SubPred(_, s) => if Resolves(reg, s) then {} else {s.cell} + FootSel(s.q)
    case _ => {}
  }

  function OwnEs(reg: Registry, ps: seq<Expression>): set<object>
    decreases SizeEs(ps), 1
  {
    if ps == [] then {} else OwnE(reg, AndAll(ps))
  }

  function OwnT(reg: Registry, t: TableRef): set<object>
    decreases SizeT(t), 2
  {
    match t
    case SubT(s) => OwnSel(reg, s.q)
    case JoinOf(l, _, r, _, on) => OwnT(reg, l) + (OwnT(reg, r) + OwnEs(reg, on))
    case _ => {}
  }

  function OwnSel(reg: Registry, q: Selector): set<object>
    decreases SizeSel(q), 3
  {
    {q.b} + (OwnT(reg, q.table) + (OwnEs(reg, q.where) + OwnEs(reg, q.having)))
  }

  function Cells(subs: set<Subquery>): set<CacheCell> { set s | s in subs :: s.cell }

  function Around(reg: Registry, s: Subquery): set<object> { {s.cell as object} + OwnSel(reg, s.q) }

  // The cells and the builders of shared subqueries.
  function Reach(reg: Registry, subs: set<Subquery>): set<object> {
    set s, o | s in subs && o in Around(reg, s) :: o
  }

  lemma ReachUnion(reg: Registry, a: set<Subquery>, b: set<Subquery>)
    ensures Reach(reg, a + b) == Reach(reg, a) + Reach(reg, b)
  {
  }

  lemma ReachOne(reg: Registry, s: Subquery)
    ensures Reach(reg, {s}) == Around(reg, s)
  {
  }

  // Together these are all the objects behind a tree.
  lemma {:induction false} AreaE(reg: Registry, e: Expression)
    ensures FootE(e) == OwnE(reg, e) + Reach(reg, SubsE(reg, e))
    decreases SizeE(e), 0
  {
    hide Reach, OwnSel, SubsSel;
    NoReach(reg);
    match e
    case Bin(l, _, r) => AreaE(reg, l); AreaE(reg, r); ReachUnion(reg, SubsE(reg, l), SubsE(reg, r));
    case Sub(s) => AreaSel(reg, s.q); ReachOne(reg, s); ReachUnion(reg, {s}, SubsSel(reg, s.q));
    case SubPred(_, s) => AreaSel(reg, s.q); ReachOne(reg, s); ReachUnion(reg, {s}, SubsSel(reg, s.q));
    case _ =>
  }

  lemma NoReach(reg: Registry)
    ensures Reach(reg, {}) == {}
  {
  }

  lemma {:induction false} AreaEs(reg: Registry, ps: seq<Expression>)
    ensures FootEs(ps) == OwnEs(reg, ps) + Reach(reg, SubsEs(reg, ps))
    decreases SizeEs(ps), 1
  {
    NoReach(reg);
    if ps != [] {
      AreaE(reg, AndAll(ps));
    }
  }

  lemma {:induction false} AreaT(reg: Registry, t: TableRef)
    ensures FootT(t) == OwnT(reg, t) + Reach(reg, SubsT(reg, t))
    decreases SizeT(t), 2
  {
    hide Reach, OwnEs, SubsEs, OwnSel, SubsSel;
    NoReach(reg);
    match t
    case SubT(s) => AreaSel(reg, s.q);
    case JoinOf(l, _, r, _, on) =>
      AreaT(reg, l);
      AreaT(reg, r);
      AreaEs(reg, on);
      ReachUnion(reg, SubsT(reg, r), SubsEs(reg, on));
      ReachUnion(reg, SubsT(reg, l), SubsT(reg, r) + SubsEs(reg, on));
    case _ =>
  }

  lemma {:induction false} AreaSel(reg: Registry, q: Selector)
    ensures FootSel(q) == OwnSel(reg, q) + Reach(reg, SubsSel(reg, q))
    decreases SizeSel(q), 3
  {
    hide Reach, OwnEs, SubsEs, OwnT, SubsT;
    AreaT(reg, q.table);
    AreaEs(reg, q.where);
    AreaEs(reg, q.having);
    ReachUnion(reg, SubsEs(reg, q.where), SubsEs(reg, q.having));
    ReachUnion(reg, SubsT(reg, q.table), SubsEs(reg, q.where) + SubsEs(reg, q.having));
  }

  // With a subquery come the subqueries inside it, which are smaller.
  ghost predicate Whole(reg: Registry, subs: set<Subquery>, size: nat) {
    forall s <- subs :: Resolves(reg, s) && SizeSel(s.q) < size && SubsSel(reg, s.q) <= subs
  }

  lemma {:induction false} WholeE(reg: Registry, e: Expression)
    ensures Whole(reg, SubsE(reg, e), SizeE(e))
    decreases SizeE(e), 0
  {
    match e
    case Bin(l, _, r) => WholeE(reg, l); WholeE(reg, r);
    case Sub(s) => WholeSel(reg, s.q);
    case SubPred(_, s) => WholeSel(reg, s.q);
    case _ =>
  }

  lemma {:induction false} WholeEs(reg: Registry, ps: seq<Expression>)
    ensures Whole(reg, SubsEs(reg, ps), SizeEs(ps))
    decreases SizeEs(ps), 1
  {
    if ps != [] {
      WholeE(reg, AndAll(ps));
    }
  }

  lemma {:induction false} WholeT(reg: Registry, t: TableRef)
    ensures Whole(reg, SubsT(reg, t), SizeT(t))
    decreases SizeT(t), 2
  {
    match t
    case SubT(s) => WholeSel(reg, s.q);
    case JoinOf(l, _, r, _, on) => WholeT(reg, l); WholeT(reg, r); WholeEs(reg, on);
    case _ =>
  }

  lemma {:induction false} WholeSel(reg: Registry, q: Selector)
    ensures Whole(reg, SubsSel(reg, q), SizeSel(q))
    decreases SizeSel(q), 3
  {
    WholeT(reg, q.table);
    WholeEs(reg, q.where);
    WholeEs(reg, q.having);
  }

  // A cell stands for one selector, and different cells have different builders.
  ghost predicate Apart(reg: Registry, subs: set<Subquery>) {
    && (forall s, t :: s in subs && t in subs && s.cell == t.cell ==> s.q == t.q)
    && (forall s, t :: s in subs && t in subs && s.cell != t.cell ==> OwnSel(reg, s.q) !! OwnSel(reg, t.q))
    && (forall s, t :: s in subs && t in subs ==> s.cell !in OwnSel(reg, t.q))
  }

  // Nor do they touch the objects used once.
  ghost predicate Fits(reg: Registry, subs: set<Subquery>, own: set<object>) {
    Apart(reg, subs) && forall s <- subs :: s.cell !in own && OwnSel(reg, s.q) !! own
  }

  // Built by the API, sharing subqueries as a whole only.
  ghost predicate ShapeE(reg: Registry, e: Expression)
    decreases SizeE(e), 0
  {
    match e
    case NilE => false
    case Bin(l, op, r) =>
      if l.NilE? then op.Some? && ShapeE(reg, r)
      else if r.NilE? then op.None? && ShapeE(reg, l)
      else op.Some? && ShapeE(reg, l) && ShapeE(reg, r) && OwnE(reg, l) !! OwnE(reg, r)
    case Sub(s) => ShapeSub(reg, s)
    case SubPred(_, s) => ShapeSub(reg, s)
    case _ => true
  }

  ghost predicate ShapeSub(reg: Registry, s: Subquery)
    decreases SizeSel(s.q), 4
  {
    if Resolves(reg, s) then ShapeSel(reg, s.q) else s.cell !in FootSel(s.q) && TidySel(s.q)
  }

  ghost predicate ShapeEs(reg: Registry, ps: seq<Expression>)
    decreases SizeEs(ps), 1
  {
    ps == [] || (AndAll(ps).Bin? && ShapeE(reg, AndAll(ps)))
  }

  ghost predicate ShapeT(reg: Registry, t: TableRef)
    decreases SizeT(t), 2
  {
    match t
    case SubT(s) => ShapeSel(reg, s.q)
    case JoinOf(l, _, r, _, on) =>
      && ShapeT(reg, l) && ShapeT(reg, r) && ShapeEs(reg, on)
      && OwnT(reg, l) !! OwnT(reg, r) + OwnEs(reg, on) && OwnT(reg, r) !! OwnEs(reg, on)
    case _ => true
  }

  ghost predicate ShapeSel(reg: Registry, q: Selector)
    decreases SizeSel(q), 3
  {
    && ShapeT(reg, q.table) && ShapeEs(reg, q.where) && ShapeEs(reg, q.having)
    && q.b !in OwnT(reg, q.table) + (OwnEs(reg, q.where) + OwnEs(reg, q.having))
    && OwnT(reg, q.table) !! OwnEs(reg, q.where) + OwnEs(reg, q.having) && OwnEs(reg, q.where) !! OwnEs(reg, q.having)
    && Fits(reg, SubsSel(reg, q), OwnSel(reg, q))
  }

  // The objects used once have not been used yet.
  ghost predicate LoneE(reg: Registry, e: Expression)
    reads OwnE(reg, e)
    decreases SizeE(e), 0
  {
    match e
    case Bin(l, _, r) => LoneE(reg, l) && LoneE(reg, r)
    case Sub(s) => LoneSub(reg, s)
    case SubPred(_, s) => LoneSub(reg, s)
    case _ => true
  }

  ghost predicate LoneSub(reg: Registry, s: Subquery)
    reads OwnE(reg, Sub(s))
  {
    Resolves(reg, s) || (s.cell.sql == [] && UntouchedSel(s.q))
  }

  ghost predicate LoneEs(reg: Registry, ps: seq<Expression>)
    reads OwnEs(reg, ps)
    decreases SizeEs(ps), 1
  {
    ps == [] || LoneE(reg, AndAll(ps))
  }

  ghost predicate LoneT(reg: Registry, t: TableRef)
    reads OwnT(reg, t)
    decreases SizeT(t), 2
  {
    match t
    case SubT(s) => LoneSel(reg, s.q)
    case JoinOf(l, _, r, _, on) => LoneT(reg, l) && LoneT(reg, r) && LoneEs(reg, on)
    case _ => true
  }

  ghost predicate LoneSel(reg: Registry, q: Selector)
    reads OwnSel(reg, q)
    decreases SizeSel(q), 3
  {
    && q.b.sb == [] && q.b.args == []
    && LoneT(reg, q.table) && LoneEs(reg, q.where) && LoneEs(reg, q.having)
  }

  ghost predicate PlainE(reg: Registry, e: Expression)
    reads OwnE(reg, e)
  {
    ShapeE(reg, e) && BalancedE(e) && LoneE(reg, e)
  }

  ghost predicate PlainEs(reg: Registry, ps: seq<Expression>)
    reads OwnEs(reg, ps)
  {
    ShapeEs(reg, ps) && BalancedEs(ps) && LoneEs(reg, ps)
  }

  ghost predicate PlainT(reg: Registry, t: TableRef)
    reads OwnT(reg, t)
  {
    ShapeT(reg, t) && BalancedT(t) && LoneT(reg, t)
  }

  // `filled` are the cells that hold the text of their subquery; the other
  // subqueries have not been built.
  ghost predicate SubOk(reg: Registry, s: Subquery, filled: set<CacheCell>)
    reads Around(reg, s)
  {
    if s.cell in filled then s.cell.sql == Printed(reg, s.q) else s.cell.sql == [] && LoneSel(reg, s.q)
  }

  ghost predicate SubsOk(reg: Registry, subs: set<Subquery>, filled: set<CacheCell>)
    reads Reach(reg, subs)
  {
    forall s <- subs :: SubOk(reg, s, filled)
  }

  // A filled cell has only filled cells inside.
  ghost predicate Inside(reg: Registry, subs: set<Subquery>, filled: set<CacheCell>) {
    forall s <- subs :: s.cell in filled ==> Cells(SubsSel(reg, s.q)) <= filled
  }

  lemma NoSubs(reg: Registry, filled: set<CacheCell>)
    ensures SubsOk(reg, {}, filled)
  {
  }

  // ---------- arguments when subqueries are shared ----------

  // A use of a cached subquery brings no arguments. `filled` are the cells
  // filled before.
  function OnceE(reg: Registry, e: Expression, filled: set<CacheCell>): seq<Value>
    decreases SizeE(e), 0
  {
    match e
    case Val(v) => [v]
    case Raw(raw) => raw.args
    case Bin(l, _, r) => OnceE(reg, l, filled) + OnceE(reg, r, filled + Cells(SubsE(reg, l)))
    case Sub(s) => OnceSub(reg, s, filled)
    case SubPred(_, s) => OnceSub(reg, s, filled)
    case _ => []
  }

  function OnceSub(reg: Registry, s: Subquery, filled: set<CacheCell>): seq<Value>
    decreases SizeSel(s.q), 4
  {
    if !Resolves(reg, s) || s.cell in filled then [] else OnceSel(reg, s.q, filled)
  }

  function OnceEs(reg: Registry, ps: seq<Expression>, filled: set<CacheCell>): seq<Value>
    decreases SizeEs(ps), 1
  {
    if ps == [] then [] else OnceE(reg, AndAll(ps), filled)
  }

  function OnceT(reg: Registry, t: TableRef, filled: set<CacheCell>): seq<Value>
    decreases SizeT(t), 2
  {
    match t
    case SubT(s) => OnceSel(reg, s.q, filled)
    case JoinOf(l, _, r, _, on) =>
      var afterL := filled + Cells(SubsT(reg, l));
      OnceT(reg, l, filled) + (OnceT(reg, r, afterL) + OnceEs(reg, on, afterL + Cells(SubsT(reg, r))))
    case _ => []
  }

  function RawArgs(cs: seq<Selectable>): seq<Value> {
    if cs == [] then [] else
      RawArgs(cs[..|cs| - 1]) + (if cs[|cs| - 1].SRaw? then cs[|cs| - 1].raw.args else [])
  }

  function NumberArgs(q: Selector): seq<Value> { ArgsNumber(Positive(q.limit)) + ArgsNumber(Positive(q.offset)) }

  function OnceSel(reg: Registry, q: Selector, filled: set<CacheCell>): seq<Value>
    decreases SizeSel(q), 3
  {
    RawArgs(q.columns) + OnceParts(reg, q, filled)
  }

  function OnceParts(reg: Registry, q: Selector, filled: set<CacheCell>): seq<Value>
    decreases SizeSel(q), 2
  {
    OnceT(reg, q.table, filled) + OnceTail(reg, q, filled + Cells(SubsT(reg, q.table)))
  }

  function OnceTail(reg: Registry, q: Selector, filled: set<CacheCell>): seq<Value>
    decreases SizeSel(q), 1
  {
    OnceEs(reg, q.where, filled) +
    (OnceEs(reg, q.having, filled + Cells(SubsEs(reg, q.where))) + NumberArgs(q))
  }

  lemma {:induction false} RawArgsOf(reg: Registry, model: Model, cs: seq<Selectable>)
    requires ResolveColumns(reg, model, cs).Some?
    ensures ArgsSels(ResolveColumns(reg, model, cs).value) == RawArgs(cs)
  {
    if cs != [] {
      var n := |cs| - 1;
      RawArgsOf(reg, model, cs[..n]);
      var ss := ResolveColumns(reg, model, cs[..n]).value;
      var s := ResolveSelectable(reg, model, cs[n]).value;
      assert (ss + [s])[..|ss|] == ss;
    }
  }

  // The right table of a join and its condition.

  function FootRight(t: TableRef): set<object>
    requires t.JoinOf?
  {
    FootT(t.r) + FootEs(t.on)
  }

  function SubsRight(reg: Registry, t: TableRef): set<Subquery>
    requires t.JoinOf?
  {
    SubsT(reg, t.r) + SubsEs(reg, t.on)
  }

  function OwnRight(reg: Registry, t: TableRef): set<object>
    requires t.JoinOf?
  {
    OwnT(reg, t.r) + OwnEs(reg, t.on)
  }

  function OnceRight(reg: Registry, t: TableRef, filled: set<CacheCell>): seq<Value>
    requires t.JoinOf?
  {
    OnceT(reg, t.r, filled) + OnceEs(reg, t.on, filled + Cells(SubsT(reg, t.r)))
  }

  ghost predicate PlainRight(reg: Registry, t: TableRef)
    requires t.JoinOf?
    reads OwnRight(reg, t)
  {
    PlainT(reg, t.r) && PlainEs(reg, t.on) && OwnT(reg, t.r) !! OwnEs(reg, t.on)
  }

  lemma RightParts(reg: Registry, t: TableRef, filled: set<CacheCell>)
    requires t.JoinOf?
    ensures FootT(t.r) == OwnT(reg, t.r) + Reach(reg, SubsT(reg, t.r))
    ensures FootEs(t.on) == OwnEs(reg, t.on) + Reach(reg, SubsEs(reg, t.on))
    ensures Whole(reg, SubsT(reg, t.r), SizeT(t.r)) && Whole(reg, SubsEs(reg, t.on), SizeEs(t.on))
  {
    hide FootT, FootEs, OwnT, OwnEs, SubsT, SubsEs, Reach, Whole;
    AreaT(reg, t.r);
    AreaEs(reg, t.on);
    WholeT(reg, t.r);
    WholeEs(reg, t.on);
  }

  lemma WholeJoin(reg: Registry, ps: set<Subquery>, m: nat, qs: set<Subquery>, n: nat, size: nat)
    requires Whole(reg, ps, m) && Whole(reg, qs, n) && m <= size && n <= size
    ensures Whole(reg, ps + qs, size)
  {
  }

  // WHERE and HAVING; with FROM, all parts of a selector.

  function FootTail(q: Selector): set<object> { FootEs(q.where) + FootEs(q.having) }

  function SubsTail(reg: Registry, q: Selector): set<Subquery> { SubsEs(reg, q.where) + SubsEs(reg, q.having) }

  function OwnTail(reg: Registry, q: Selector): set<object> { OwnEs(reg, q.where) + OwnEs(reg, q.having) }

  ghost predicate PlainTail(reg: Registry, q: Selector)
    reads OwnTail(reg, q)
  {
    PlainEs(reg, q.where) && PlainEs(reg, q.having) && OwnEs(reg, q.where) !! OwnEs(reg, q.having)
  }

  function FootParts(q: Selector): set<object> { FootT(q.table) + FootTail(q) }

  function OwnParts(reg: Registry, q: Selector): set<object> { OwnT(reg, q.table) + OwnTail(reg, q) }

  ghost predicate LoneParts(reg: Registry, q: Selector)
    reads OwnParts(reg, q)
  {
    LoneT(reg, q.table) && LoneEs(reg, q.where) && LoneEs(reg, q.having)
  }

  ghost predicate PlainParts(reg: Registry, q: Selector)
    reads OwnParts(reg, q)
  {
    PlainT(reg, q.table) && PlainTail(reg, q) && OwnT(reg, q.table) !! OwnTail(reg, q)
  }

  lemma TailParts(reg: Registry, q: Selector, filled: set<CacheCell>)
    ensures FootEs(q.where) == OwnEs(reg, q.where) + Reach(reg, SubsEs(reg, q.where))
    ensures FootEs(q.having) == OwnEs(reg, q.having) + Reach(reg, SubsEs(reg, q.having))
    ensures Whole(reg, SubsEs(reg, q.where), SizeEs(q.where)) && Whole(reg, SubsEs(reg, q.having), SizeEs(q.having))
    ensures OnceTail(reg, q, filled) == OnceEs(reg, q.where, filled) +
            (OnceEs(reg, q.having, filled + Cells(SubsEs(reg, q.where))) + NumberArgs(q))
  {
    hide FootEs, OwnEs, SubsEs, OnceEs, Reach, Whole, Cells, NumberArgs;
    AreaEs(reg, q.where);
    AreaEs(reg, q.having);
    WholeEs(reg, q.where);
    WholeEs(reg, q.having);
  }

  lemma FromParts(reg: Registry, q: Selector, filled: set<CacheCell>)
    ensures FootT(q.table) == OwnT(reg, q.table) + Reach(reg, SubsT(reg, q.table))
    ensures FootTail(q) == OwnTail(reg, q) + Reach(reg, SubsTail(reg, q))
    ensures SubsSel(reg, q) == SubsT(reg, q.table) + SubsTail(reg, q)
    ensures Whole(reg, SubsT(reg, q.table), SizeT(q.table)) && Whole(reg, SubsTail(reg, q), SizeSel(q))
    ensures OnceParts(reg, q, filled) ==
            OnceT(reg, q.table, filled) + OnceTail(reg, q, filled + Cells(SubsT(reg, q.table)))
  {
    hide FootT, FootEs, OwnT, OwnEs, SubsT, SubsEs, OnceT, OnceTail, Reach, Whole, Cells;
    AreaT(reg, q.table);
    WholeT(reg, q.table);
    TailParts(reg, q, filled);
    ReachUnion(reg, SubsEs(reg, q.where), SubsEs(reg, q.having));
    WholeJoin(reg, SubsEs(reg, q.where), SizeEs(q.where), SubsEs(reg, q.having), SizeEs(q.having), SizeSel(q));
  }

  lemma PartsArea(reg: Registry, q: Selector)
    ensures FootSel(q) == {q.b as object} + FootParts(q)
    ensures FootParts(q) == OwnParts(reg, q) + Reach(reg, SubsSel(reg, q))
  {
    hide FootT, FootTail, OwnT, OwnTail, SubsT, SubsTail, SubsSel, Reach;
    FromParts(reg, q, {});
    FootBody(q);
    ReachUnion(reg, SubsT(reg, q.table), SubsTail(reg, q));
  }

  lemma FootBody(q: Selector)
    ensures FootSel(q) == {q.b as object} + FootParts(q)
  {
  }

  lemma AllocParts(q: Selector)
    ensures forall o <- FootSel(q) :: allocated(o)
    ensures forall o <- FootT(q.table) :: allocated(o)
    ensures forall o <- FootTail(q) :: allocated(o)
    ensures forall o <- FootParts(q) :: allocated(o)
  {
    AllocSel(q);
    AllocT(q.table);
    AllocEs(q.where);
    AllocEs(q.having);
  }

  lemma OnceBody(reg: Registry, q: Selector, filled: set<CacheCell>)
    ensures OnceSel(reg, q, filled) == RawArgs(q.columns) + OnceParts(reg, q, filled)
  {
  }

  // ---------- one piece after another ----------

  lemma FitsLess(reg: Registry, subs: set<Subquery>, own: set<object>, subs': set<Subquery>, own': set<object>)
    requires Fits(reg, subs, own) && subs' <= subs && own' <= own
    ensures Fits(reg, subs', own')
  {
  }

  // What does not share a cell with ps.
  function Others(qs: set<Subquery>, ps: set<Subquery>): set<Subquery> { set s | s in qs && s.cell !in Cells(ps) }

  lemma Beside(reg: Registry, ps: set<Subquery>, own: set<object>, qs: set<Subquery>)
    requires Fits(reg, ps + qs, own)
    ensures Reach(reg, Others(qs, ps)) !! own + Reach(reg, ps)
    ensures Reach(reg, Others(qs, ps)) <= Reach(reg, qs)
  {
    hide OwnSel;
    forall s <- Others(qs, ps) ensures Around(reg, s) !! own + Reach(reg, ps) {
      forall t <- ps ensures t.cell != s.cell && Around(reg, s) !! Around(reg, t) {
        assert t.cell in Cells(ps);
      }
    }
  }

  // Two pieces written one after the other by builder b.
  lemma TwoPieces(reg: Registry, ps: set<Subquery>, pown: set<object>, qs: set<Subquery>, qown: set<object>, b: Builder)
    requires Fits(reg, ps + qs, pown + qown + {b}) && pown !! qown && b !in pown + qown
    ensures Reach(reg, Others(qs, ps)) !! pown + Reach(reg, ps) + {b} && Reach(reg, Others(qs, ps)) <= Reach(reg, qs)
    ensures Reach(reg, Others(ps, qs)) !! qown + Reach(reg, qs) + {b} && Reach(reg, Others(ps, qs)) <= Reach(reg, ps)
    ensures qown !! pown + Reach(reg, ps) && pown !! qown + Reach(reg, qs)
    ensures Apart(reg, ps + qs) && Fits(reg, ps, pown + {b}) && Fits(reg, qs, qown + {b})
  {
    hide OwnSel, Others;
    assert qs + ps == ps + qs;
    Beside(reg, ps, pown + qown + {b}, qs);
    Beside(reg, qs, pown + qown + {b}, ps);
    FitsLess(reg, ps + qs, pown + qown + {b}, ps, pown + {b});
    FitsLess(reg, ps + qs, pown + qown + {b}, qs, qown + {b});
    FitsReach(reg, ps + qs, pown + qown + {b});
    ReachUnion(reg, ps, qs);
  }

  lemma FitsReach(reg: Registry, subs: set<Subquery>, own: set<object>)
    requires Fits(reg, subs, own)
    ensures own !! Reach(reg, subs)
  {
  }

  lemma OthersOk(reg: Registry, qs: set<Subquery>, ps: set<Subquery>, filled: set<CacheCell>)
    requires SubsOk(reg, qs, filled)
    ensures SubsOk(reg, Others(qs, ps), filled)
  {
  }

  // After the piece with subqueries ps is built, those of another piece are
  // filled or untouched as before.
  lemma Renew(reg: Registry, ps: set<Subquery>, qs: set<Subquery>, filled: set<CacheCell>, size: nat)
    requires Apart(reg, ps + qs) && Whole(reg, ps, size) && Inside(reg, qs, filled)
    requires SubsOk(reg, ps, filled + Cells(ps)) && SubsOk(reg, Others(qs, ps), filled)
    ensures SubsOk(reg, qs, filled + Cells(ps)) && Inside(reg, qs, filled + Cells(ps))
  {
    hide OwnSel, SubsSel, LoneSel, Printed;
    forall s <- qs ensures SubOk(reg, s, filled + Cells(ps)) && (s.cell in filled + Cells(ps) ==>
      Cells(SubsSel(reg, s.q)) <= filled + Cells(ps)) {
      if s.cell in Cells(ps) {
        var t :| t in ps && t.cell == s.cell;
        assert SubOk(reg, t, filled + Cells(ps));
        assert SubsSel(reg, t.q) <= ps;
      } else {
        assert s in Others(qs, ps);
      }
    }
  }

  // Both pieces are built.
  lemma BothOk(reg: Registry, ps: set<Subquery>, qs: set<Subquery>, filled: set<CacheCell>, m: nat, n: nat)
    requires Apart(reg, ps + qs) && Whole(reg, ps, m) && Whole(reg, qs, n)
    requires SubsOk(reg, qs, filled + Cells(ps) + Cells(qs)) && SubsOk(reg, Others(ps, qs), filled + Cells(ps))
    ensures SubsOk(reg, ps + qs, filled + Cells(ps + qs))
  {
    hide OwnSel, SubsSel, LoneSel, Printed, SubOk;
    assert qs + ps == ps + qs;
    Renew(reg, qs, ps, filled + Cells(ps), n);
    assert filled + Cells(ps) + Cells(qs) == filled + Cells(ps + qs);
  }

  // ---------- trees without sharing ----------

  lemma FitsTogether(reg: Registry, ps: set<Subquery>, pown: set<object>, qs: set<Subquery>, qown: set<object>)
    requires Fits(reg, ps, pown) && Fits(reg, qs, qown)
    requires pown + Reach(reg, ps) !! qown + Reach(reg, qs)
    ensures Fits(reg, ps + qs, pown + qown) && pown !! qown
  {
    hide OwnSel;
    forall s, t | s in ps && t in qs
      ensures s.cell != t.cell && Around(reg, s) !! Around(reg, t)
    {
      assert s.cell in Around(reg, s) && t.cell in Around(reg, t);
    }
    forall s <- ps ensures Around(reg, s) !! qown {
      assert forall o <- Around(reg, s) :: o in Reach(reg, ps);
    }
    forall s <- qs ensures Around(reg, s) !! pown {
      assert forall o <- Around(reg, s) :: o in Reach(reg, qs);
    }
  }

  lemma FitsSub(reg: Registry, s: Subquery)
    requires Fits(reg, SubsSel(reg, s.q), OwnSel(reg, s.q)) && s.cell !in FootSel(s.q)
    ensures Fits(reg, {s} + SubsSel(reg, s.q), {})
  {
    hide SubsSel, OwnSel, FootSel;
    AreaSel(reg, s.q);
    FitsOne(reg, s, SubsSel(reg, s.q));
  }

  lemma FitsOne(reg: Registry, s: Subquery, subs: set<Subquery>)
    requires Fits(reg, subs, OwnSel(reg, s.q)) && s.cell !in OwnSel(reg, s.q) + Reach(reg, subs)
    ensures Fits(reg, {s} + subs, {})
  {
    hide OwnSel;
    forall t <- subs ensures t.cell != s.cell && s.cell !in OwnSel(reg, t.q) {
      assert t.cell in Around(reg, t) && forall o <- Around(reg, t) :: o in Reach(reg, subs);
    }
  }

  lemma {:induction false} TidyShapeE(reg: Registry, e: Expression)
    requires TidyE(e)
    ensures ShapeE(reg, e) && Fits(reg, SubsE(reg, e), OwnE(reg, e))
    decreases SizeE(e), 0
  {
    hide Fits, FootSel, SubsSel, OwnSel, Reach;
    NoFits(reg);
    match e
    case Bin(l, _, r) =>
      if l.NilE? {
        TidyShapeE(reg, r);
        OnlySide(reg, r);
      } else if r.NilE? {
        TidyShapeE(reg, l);
        OnlySide(reg, l);
      } else {
        TidyShapeE(reg, l);
        TidyShapeE(reg, r);
        AreaE(reg, l);
        AreaE(reg, r);
        FitsTogether(reg, SubsE(reg, l), OwnE(reg, l), SubsE(reg, r), OwnE(reg, r));
      }
    case Sub(s) =>
      NoFitsOwn(reg, OwnE(reg, e));
      if Resolves(reg, s) { TidyShapeSel(reg, s.q); FitsSub(reg, s); }
    case SubPred(_, s) =>
      NoFitsOwn(reg, OwnE(reg, e));
      if Resolves(reg, s) { TidyShapeSel(reg, s.q); FitsSub(reg, s); }
    case _ =>
  }

  lemma OnlySide(reg: Registry, e: Expression)
    ensures SubsE(reg, e) + {} == SubsE(reg, e) == {} + SubsE(reg, e)
    ensures OwnE(reg, e) + {} == OwnE(reg, e) == {} + OwnE(reg, e)
  {
  }

  lemma NoFits(reg: Registry)
    ensures Fits(reg, {}, {})
  {
  }

  lemma NoFitsOwn(reg: Registry, own: set<object>)
    ensures Fits(reg, {}, own)
  {
  }

  lemma {:induction false} TidyShapeEs(reg: Registry, ps: seq<Expression>)
    requires TidyEs(ps)
    ensures ShapeEs(reg, ps) && Fits(reg, SubsEs(reg, ps), OwnEs(reg, ps))
    decreases SizeEs(ps), 1
  {
    if ps != [] {
      TidyShapeE(reg, AndAll(ps));
    }
  }

  lemma {:induction false} TidyShapeT(reg: Registry, t: TableRef)
    requires TidyT(t)
    ensures ShapeT(reg, t) && Fits(reg, SubsT(reg, t), OwnT(reg, t))
    decreases SizeT(t), 2
  {
    hide Fits, FootSel, SubsSel, OwnSel, Reach, FootEs, SubsEs, OwnEs, TidyEs, ShapeEs, TidySel, ShapeSel;
    NoFits(reg);
    match t
    case SubT(s) => TidyShapeSel(reg, s.q);
    case JoinOf(l, _, r, _, on) =>
      TidyShapeT(reg, l);
      TidyShapeT(reg, r);
      TidyShapeEs(reg, on);
      AreaT(reg, l);
      AreaT(reg, r);
      AreaEs(reg, on);
      ReachUnion(reg, SubsT(reg, r), SubsEs(reg, on));
      FitsTogether(reg, SubsT(reg, r), OwnT(reg, r), SubsEs(reg, on), OwnEs(reg, on));
      FitsTogether(reg, SubsT(reg, l), OwnT(reg, l), SubsT(reg, r) + SubsEs(reg, on), OwnT(reg, r) + OwnEs(reg, on));
    case _ =>
  }

  lemma {:induction false} TidyShapeSel(reg: Registry, q: Selector)
    requires TidySel(q)
    ensures ShapeSel(reg, q) && Fits(reg, SubsSel(reg, q), OwnSel(reg, q))
    decreases SizeSel(q), 3
  {
    hide Fits, Reach, FootT, SubsT, OwnT, TidyT, ShapeT, FootEs, SubsEs, OwnEs, TidyEs, ShapeEs;
    TidyShapeT(reg, q.table);
    TidyShapeEs(reg, q.where);
    TidyShapeEs(reg, q.having);
    AreaT(reg, q.table);
    AreaEs(reg, q.where);
    AreaEs(reg, q.having);
    var (ts, ws, hs) := (SubsT(reg, q.table), SubsEs(reg, q.where), SubsEs(reg, q.having));
    var (town, wown, hown) := (OwnT(reg, q.table), OwnEs(reg, q.where), OwnEs(reg, q.having));
    ReachUnion(reg, ws, hs);
    ReachUnion(reg, ts, ws + hs);
    FitsTogether(reg, ws, wown, hs, hown);
    FitsTogether(reg, ts, town, ws + hs, wown + hown);
    NoFitsOwn(reg, {q.b});
    NoReach(reg);
    FitsTogether(reg, {}, {q.b}, ts + (ws + hs), town + (wown + hown));
    assert {} + (ts + (ws + hs)) == SubsSel(reg, q);
  }

  // Nothing built, nothing filled.
  lemma {:induction false} UntouchedOkE(reg: Registry, e: Expression)
    requires UntouchedE(e)
    ensures LoneE(reg, e) && SubsOk(reg, SubsE(reg, e), {})
    decreases SizeE(e), 0
  {
    hide FootSel, SubsSel, OwnSel;
    match e
    case Bin(l, _, r) => UntouchedOkE(reg, l); UntouchedOkE(reg, r);
    case Sub(s) => if Resolves(reg, s) { UntouchedOkSel(reg, s.q); }
    case SubPred(_, s) => if Resolves(reg, s) { UntouchedOkSel(reg, s.q); }
    case _ =>
  }

  lemma {:induction false} UntouchedOkEs(reg: Registry, ps: seq<Expression>)
    requires UntouchedEs(ps)
    ensures LoneEs(reg, ps) && SubsOk(reg, SubsEs(reg, ps), {})
    decreases SizeEs(ps), 1
  {
    if ps != [] {
      UntouchedOkE(reg, AndAll(ps));
    }
  }

  lemma {:induction false} UntouchedOkT(reg: Registry, t: TableRef)
    requires UntouchedT(t)
    ensures LoneT(reg, t) && SubsOk(reg, SubsT(reg, t), {})
    decreases SizeT(t), 2
  {
    hide FootEs, SubsEs, OwnEs, FootSel, SubsSel, OwnSel;
    match t
    case SubT(s) => UntouchedOkSel(reg, s.q);
    case JoinOf(l, _, r, _, on) => UntouchedOkT(reg, l); UntouchedOkT(reg, r); UntouchedOkEs(reg, on);
    case _ =>
  }

  lemma {:induction false} UntouchedOkSel(reg: Registry, q: Selector)
    requires UntouchedSel(q)
    ensures LoneSel(reg, q) && SubsOk(reg, SubsSel(reg, q), {})
    decreases SizeSel(q), 3
  {
    hide FootT, SubsT, OwnT, FootEs, SubsEs, OwnEs;
    UntouchedOkT(reg, q.table);
    UntouchedOkEs(reg, q.where);
    UntouchedOkEs(reg, q.having);
  }

  // Every subquery is used for the first time.
  lemma {:induction false} TidyOnceE(reg: Registry, model: Model, e: Expression, filled: set<CacheCell>)
    requires TidyE(e) && ResolveExpr(reg, model, e).Some? && Cells(SubsE(reg, e)) !! filled
    ensures OnceE(reg, e, filled) == ArgsExpr(ResolveExpr(reg, model, e).value)
    decreases SizeE(e), 1
  {
    hide FootSel, SubsSel, OwnSel, TidySel, ArgsQuery, ResolveSel, OnceSel;
    match e
    case Bin(_, _, _) => TidyOncePred(reg, model, e, filled);
    case Sub(s) => assert s in SubsE(reg, e); TidyOnceSel(reg, s.q, filled);
    case SubPred(_, s) =>
      if Resolves(reg, s) {
        assert s in SubsE(reg, e);
        TidyOnceSel(reg, s.q, filled);
      }
    case _ =>
  }

  lemma {:induction false} TidyOncePred(reg: Registry, model: Model, e: Expression, filled: set<CacheCell>)
    requires e.Bin? && TidyE(e) && ResolvePred(reg, model, e).Some? && Cells(SubsE(reg, e)) !! filled
    ensures OnceE(reg, e, filled) == ArgsPred(ResolvePred(reg, model, e).value)
    decreases SizeE(e), 0
  {
    hide FootSel, SubsSel, OwnSel, TidySel, ArgsQuery, ResolveSel, ArgsExpr;
    assert forall s <- SubsE(reg, e.l) :: s.cell in Cells(SubsE(reg, e.l)) && s in SubsE(reg, e);
    assert forall s <- SubsE(reg, e.r) :: s.cell in Cells(SubsE(reg, e.r)) && s in SubsE(reg, e);
    if e.l.NilE? {
      TidyOnceE(reg, model, e.r, filled);
      assert [] + OnceE(reg, e.r, filled) == OnceE(reg, e.r, filled);
      assert SubsE(reg, e.l) == {} && filled + Cells({}) == filled;
    } else if e.r.NilE? {
      TidyOnceE(reg, model, e.l, filled);
      assert OnceE(reg, e.l, filled) + [] == OnceE(reg, e.l, filled);
    } else {
      TidyOnceE(reg, model, e.l, filled);
      TidyCells(reg, e);
      TidyOnceE(reg, model, e.r, filled + Cells(SubsE(reg, e.l)));
    }
  }

  lemma TidyCells(reg: Registry, e: Expression)
    requires e.Bin? && FootE(e.l) !! FootE(e.r)
    ensures Cells(SubsE(reg, e.l)) !! Cells(SubsE(reg, e.r))
  {
    AreaE(reg, e.l);
    AreaE(reg, e.r);
    CellsReached(reg, SubsE(reg, e.l));
    CellsReached(reg, SubsE(reg, e.r));
  }

  lemma CellsReached(reg: Registry, subs: set<Subquery>)
    ensures forall c <- Cells(subs) :: c in Reach(reg, subs)
  {
    hide OwnSel;
    forall s <- subs ensures s.cell in Reach(reg, subs) {
      assert s.cell in Around(reg, s);
    }
  }

  lemma {:induction false} TidyOnceEs(reg: Registry, model: Model, ps: seq<Expression>, filled: set<CacheCell>)
    requires TidyEs(ps) && ResolveClause(reg, model, ps).Good? && Cells(SubsEs(reg, ps)) !! filled
    ensures OnceEs(reg, ps, filled) == ArgsClause(ResolveClause(reg, model, ps).p)
    decreases SizeEs(ps), 2
  {
    if ps != [] {
      TidyOncePred(reg, model, AndAll(ps), filled);
    }
  }

  lemma {:induction false} TidyOnceT(reg: Registry, model: Model, t: TableRef, filled: set<CacheCell>)
    requires TidyT(t) && ResolveTable(reg, model, t).Some? && Cells(SubsT(reg, t)) !! filled
    ensures OnceT(reg, t, filled) == ArgsTable(ResolveTable(reg, model, t).value)
    decreases SizeT(t), 3
  {
    hide FootSel, SubsSel, OwnSel, TidySel, ArgsQuery, ResolveSel, OnceSel, ResolveClause, ArgsClause, FootEs;
    hide SubsEs, OnceEs;
    match t
    case SubT(s) => TidyOnceSel(reg, s.q, filled);
    case JoinOf(l, _, r, _, on) =>
      var (ls, rs, os) := (SubsT(reg, l), SubsT(reg, r), SubsEs(reg, on));
      assert Cells(SubsT(reg, t)) == Cells(ls) + Cells(rs) + Cells(os);
      AreaT(reg, l);
      AreaT(reg, r);
      AreaEs(reg, on);
      CellsReached(reg, ls);
      CellsReached(reg, rs);
      CellsReached(reg, os);
      TidyOnceT(reg, model, l, filled);
      TidyOnceT(reg, model, r, filled + Cells(ls));
      TidyOnceEs(reg, model, on, filled + Cells(ls) + Cells(rs));
    case _ =>
  }

  lemma PartCells(reg: Registry, q: Selector)
    requires TidySel(q)
    ensures Cells(SubsSel(reg, q)) ==
            Cells(SubsT(reg, q.table)) + (Cells(SubsEs(reg, q.where)) + Cells(SubsEs(reg, q.having)))
    ensures Cells(SubsT(reg, q.table)) !! Cells(SubsEs(reg, q.where)) + Cells(SubsEs(reg, q.having))
    ensures Cells(SubsEs(reg, q.where)) !! Cells(SubsEs(reg, q.having))
  {
    hide FootT, SubsT, TidyT, FootEs, SubsEs, TidyEs, OwnT, OwnEs, Reach;
    AreaT(reg, q.table);
    AreaEs(reg, q.where);
    AreaEs(reg, q.having);
    CellsReached(reg, SubsT(reg, q.table));
    CellsReached(reg, SubsEs(reg, q.where));
    CellsReached(reg, SubsEs(reg, q.having));
  }

  lemma {:induction false} TidyOnceSel(reg: Registry, q: Selector, filled: set<CacheCell>)
    requires TidySel(q) && ResolveSel(reg, q).Some? && Cells(SubsSel(reg, q)) !! filled
    ensures OnceSel(reg, q, filled) == ArgsQuery(ResolveSel(reg, q).value)
    decreases SizeSel(q), 4
  {
    hide FootT, SubsT, OnceT, TidyT, ResolveTable, ArgsTable, FootEs, SubsEs, OnceEs, TidyEs, ResolveClause, ArgsClause;
    hide ResolveColumns, ArgsSels, RawArgs, ResolveGroup, Cells, SubsSel;
    var m := reg[q.entity];
    PartCells(reg, q);
    RawArgsOf(reg, m, q.columns);
    TidyOnceT(reg, m, q.table, filled);
    TidyOnceEs(reg, m, q.where, filled + Cells(SubsT(reg, q.table)));
    TidyOnceEs(reg, m, q.having, filled + Cells(SubsT(reg, q.table)) + Cells(SubsEs(reg, q.where)));
    var r := ResolveSel(reg, q).value;
    assert OnceTail(reg, q, filled + Cells(SubsT(reg, q.table))) ==
      ArgsClause(r.cond) + (ArgsClause(r.having) + (ArgsNumber(r.limit) + ArgsNumber(r.offset)));
    assert OnceParts(reg, q, filled) == ArgsTable(r.table) + OnceTail(reg, q, filled + Cells(SubsT(reg, q.table)));
  }

  // ---------- what a call appends ----------

  datatype Output = Failed | Wrote(text: seq<Tok>, args: seq<Value>)

  // One output after another; a failure anywhere is a failure.
  function Then(a: Output, b: Output): Output {
    if a.Wrote? && b.Wrote? then Wrote(a.text + b.text, a.args + b.args) else Failed
  }

  function Text(ts: seq<Tok>): Output { Wrote(ts, []) }

  // A buffer and an argument list before and after a call that reports ok.
  predicate Appended(w: Output, ok: bool, sb0: seq<Tok>, args0: seq<Value>, sb1: seq<Tok>, args1: seq<Value>) {
    && (ok <==> w.Wrote?)
    && (ok ==> sb1 == sb0 + w.text && args1 == args0 + w.args)
  }

  lemma AppendedThen(a: Output, b: Output, ok: bool, s0: seq<Tok>, a0: seq<Value>, s1: seq<Tok>, a1: seq<Value>,
                     s2: seq<Tok>, a2: seq<Value>)
    requires Appended(a, true, s0, a0, s1, a1)
    requires Appended(b, ok, s1, a1, s2, a2)
    ensures Appended(Then(a, b), ok, s0, a0, s2, a2)
  {
    if ok {
      assert (s0 + a.text) + b.text == s0 + (a.text + b.text);
      assert (a0 + a.args) + b.args == a0 + (a.args + b.args);
    }
  }

  // The same text with other arguments.
  function With(o: Output, vs: seq<Value>): Output {
    if o.Wrote? then Wrote(o.text, vs) else Failed
  }

  lemma AppendedWith(a: Output, x: seq<Value>, b: Output, y: seq<Value>, ok: bool, s0: seq<Tok>, a0: seq<Value>,
                     s1: seq<Tok>, a1: seq<Value>, s2: seq<Tok>, a2: seq<Value>)
    requires Appended(With(a, x), true, s0, a0, s1, a1)
    requires Appended(With(b, y), ok, s1, a1, s2, a2)
    ensures Appended(With(Then(a, b), x + y), ok, s0, a0, s2, a2)
  {
    AppendedThen(With(a, x), With(b, y), ok, s0, a0, s1, a1, s2, a2);
  }

  // Text before an output, and text behind one.
  lemma AppendedAfter(ts: seq<Tok>, b: Output, y: seq<Value>, ok: bool, s0: seq<Tok>, a0: seq<Value>,
                      s1: seq<Tok>, s2: seq<Tok>, a2: seq<Value>)
    requires s1 == s0 + ts && Appended(With(b, y), ok, s1, a0, s2, a2)
    ensures Appended(With(Then(Text(ts), b), y), ok, s0, a0, s2, a2)
  {
    assert [] + y == y && a0 + [] == a0;
    AppendedWith(Text(ts), [], b, y, ok, s0, a0, s1, a0, s2, a2);
  }

  lemma AppendedBefore(a: Output, x: seq<Value>, ts: seq<Tok>, s0: seq<Tok>, a0: seq<Value>,
                       s1: seq<Tok>, a1: seq<Value>, s2: seq<Tok>)
    requires Appended(With(a, x), true, s0, a0, s1, a1) && s2 == s1 + ts
    ensures Appended(With(Then(a, Text(ts)), x), true, s0, a0, s2, a1)
  {
    assert x + [] == x && a1 + [] == a1;
    AppendedWith(a, x, Text(ts), [], true, s0, a0, s1, a1, s2, a1);
  }

  lemma FirstFails(a: Output, x: seq<Value>, b: Output, y: seq<Value>, s0: seq<Tok>, a0: seq<Value>,
                   s1: seq<Tok>, a1: seq<Value>)
    requires Appended(With(a, x), false, s0, a0, s1, a1)
    ensures Appended(With(Then(a, b), y), false, s0, a0, s1, a1)
  {
  }

  // An output without arguments, then one.
  lemma AppendedText(a: Output, b: Output, y: seq<Value>, ok: bool, s0: seq<Tok>, a0: seq<Value>,
                     s1: seq<Tok>, a1: seq<Value>, s2: seq<Tok>, a2: seq<Value>)
    requires Appended(a, true, s0, a0, s1, a1) && a.args == []
    requires Appended(With(b, y), ok, s1, a1, s2, a2)
    ensures Appended(With(Then(a, b), y), ok, s0, a0, s2, a2)
  {
    assert [] + y == y;
    AppendedWith(a, [], b, y, ok, s0, a0, s1, a1, s2, a2);
  }

  function RefOut(r: Option<Ref>): Output {
    match r case None => Failed case Some(r) => Text(PrintRef(r))
  }

  function AggOut(fn: string, r: Option<Ref>): Output {
    match r case None => Failed case Some(r) => Text(PrintAgg(fn, r))
  }

  lemma AggText(fn: string, r: Option<Ref>)
    ensures AggOut(fn, r) == Then(Text([FnTok(fn), Open]), Then(RefOut(r), Text([Close])))
  {
    if r.Some? {
      assert [FnTok(fn), Open] + PrintRef(r.value) + [Close] == [FnTok(fn), Open] + (PrintRef(r.value) + [Close]);
    }
  }

  function ExprOut(e: Option<Expr>): Output {
    match e case None => Failed case Some(e) => Wrote(PrintExpr(e), ArgsExpr(e))
  }

  function PredOut(p: Option<Pred>): Output {
    match p case None => Failed case Some(p) => Wrote(PrintPred(p), ArgsPred(p))
  }

  function ClauseOut(kw: Tok, c: Clause): Output {
    match c case Bad => Failed case Good(p) => Wrote(PrintClause(kw, p), ArgsClause(p))
  }

  function GroupOut(rs: Option<seq<Ref>>): Output {
    match rs case None => Failed case Some(rs) => Text(CommaJoin(RefParts(rs)))
  }

  function SelOut(s: Option<Sel>): Output {
    match s case None => Failed case Some(s) => Wrote(PrintSel(s), ArgsSel(s))
  }

  function ItemsOut(ss: Option<seq<Sel>>): Output {
    match ss case None => Failed case Some(ss) => Wrote(CommaJoin(SelParts(ss)), ArgsSels(ss))
  }

  function ColumnsOut(ss: Option<seq<Sel>>): Output {
    match ss case None => Failed case Some(ss) => Wrote(PrintCols(ss), ArgsSels(ss))
  }

  function TableOut(t: Option<Table>): Output {
    match t case None => Failed case Some(t) => Wrote(PrintTable(t), ArgsTable(t))
  }

  function QueryOut(q: Option<Query>): Output {
    match q case None => Failed case Some(q) => Wrote(PrintQuery(q), ArgsQuery(q))
  }

  // The parenthesised form of a subquery.
  function SubOut(q: Option<Query>): Output {
    Then(Text([Open]), Then(QueryOut(q), Text([Close])))
  }

  // At the top of a clause a Bin is written without parentheses.
  function TopOut(reg: Registry, model: Model, e: Expression): Output {
    if e.Bin? then PredOut(ResolvePred(reg, model, e)) else ExprOut(ResolveExpr(reg, model, e))
  }

  // An operand; a missing one is no text.
  function SideOut(reg: Registry, model: Model, e: Expression): Output {
    if e.NilE? then Text([]) else ExprOut(ResolveExpr(reg, model, e))
  }

  function OpOut(op: Option<Op>): Output {
    match op case None => Text([]) case Some(op) => Text([OpTok(op)])
  }

  function RestOut(reg: Registry, model: Model, e: Expression): Output
    requires e.Bin?
  {
    Then(OpOut(e.op), SideOut(reg, model, e.r))
  }

  lemma SplitPred(reg: Registry, model: Model, e: Expression)
    requires e.Bin? && ShapeE(reg, e)
    ensures PredOut(ResolvePred(reg, model, e)) == Then(SideOut(reg, model, e.l), RestOut(reg, model, e))
  {
    hide PrintExpr, ArgsExpr, ResolveExpr, OwnE;
    var l, r := ResolveExpr(reg, model, e.l), ResolveExpr(reg, model, e.r);
    if e.l.NilE? && r.Some? {
      assert [] + ([] + ArgsExpr(r.value)) == ArgsExpr(r.value);
    } else if e.r.NilE? && l.Some? {
      assert PrintExpr(l.value) + ([] + []) == PrintExpr(l.value);
      assert ArgsExpr(l.value) + ([] + []) == ArgsExpr(l.value);
    } else if l.Some? && r.Some? {
      assert ArgsExpr(l.value) + ([] + ArgsExpr(r.value)) == ArgsExpr(l.value) + ArgsExpr(r.value);
    }
  }

  lemma SubText(q: Query)
    ensures PrintQuery(q) != []
    ensures SubOut(Some(q)) == Wrote([Open] + (PrintQuery(q) + [Close]), ArgsQuery(q))
    ensures Marks(SubOut(Some(q)).text) == |ArgsQuery(q)|
  {
    MarksQuery(q);
    MarksWrap(Open, PrintQuery(q), Close);
    assert [] + (ArgsQuery(q) + []) == ArgsQuery(q);
  }

  function UsingOut(rs: Option<seq<Ref>>): Output {
    match rs case None => Failed case Some(rs) => Text(PrintUsing(rs))
  }

  function ByOut(rs: Option<seq<Ref>>): Output {
    match rs case None => Failed case Some(rs) => Text(PrintGroup(rs))
  }

  function DerivedOut(q: Output, alias: string): Output {
    Then(Text([Open]), Then(q, Text([Close] + PrintAlias(alias))))
  }

  lemma DerivedText(q: Output, x: seq<Value>, alias: string, ok: bool, ts: seq<Tok>, vs: seq<Value>,
                    s0: seq<Tok>, a0: seq<Value>, s1: seq<Tok>, a1: seq<Value>)
    requires Appended(With(q, x), ok, [], [], ts, vs)
    requires ok ==> s1 == s0 + [Open] + ts + [Close] + PrintAlias(alias) && a1 == a0 + vs
    ensures Appended(With(DerivedOut(q, alias), x), ok, s0, a0, s1, a1)
  {
    if ok {
      assert ts == q.text && vs == x;
      assert s0 + [Open] + ts + [Close] + PrintAlias(alias) == s0 + ([Open] + (ts + ([Close] + PrintAlias(alias))));
    }
  }

  function CondOut(reg: Registry, model: Model, t: TableRef): Output
    requires t.JoinOf?
  {
    Then(UsingOut(ResolveGroup(reg, model, UsingCols(t.using))),
         Then(ClauseOut(On, ResolveClause(reg, model, t.on)), Text([Close])))
  }

  function RightOut(reg: Registry, model: Model, t: TableRef): Output
    requires t.JoinOf?
  {
    Then(Text([JoinKw(t.typ)]), Then(TableOut(ResolveTable(reg, model, t.r)), CondOut(reg, model, t)))
  }

  lemma JoinText(l: Table, typ: string, r: Table, us: seq<Ref>, on: Option<Pred>)
    ensures TableOut(Some(Join(l, typ, r, us, on))) ==
            Then(Text([Open]), Then(TableOut(Some(l)), Then(Text([JoinKw(typ)]), Then(TableOut(Some(r)),
            Then(UsingOut(Some(us)), Then(ClauseOut(On, Good(on)), Text([Close])))))))
  {
    var a, b, c := ArgsTable(l), ArgsTable(r), ArgsClause(on);
    assert a + (b + c) == [] + (a + ([] + (b + ([] + (c + [])))));
  }

  lemma JoinOutput(reg: Registry, model: Model, t: TableRef)
    requires t.JoinOf?
    ensures TableOut(ResolveTable(reg, model, t)) ==
            Then(Text([Open]), Then(TableOut(ResolveTable(reg, model, t.l)), RightOut(reg, model, t)))
  {
    hide PrintTable, ArgsTable, PrintUsing, PrintClause, ArgsClause, ResolveGroup, ResolveClause;
    match (ResolveTable(reg, model, t.l), ResolveTable(reg, model, t.r),
           ResolveGroup(reg, model, UsingCols(t.using)), ResolveClause(reg, model, t.on))
    case (Some(l), Some(r), Some(us), Good(on)) => JoinText(l, t.typ, r, us, on);
    case _ =>
  }

  function NumbersOut(q: Selector): Output {
    Wrote(PrintNumber(Limit, Positive(q.limit)) + PrintNumber(Offset, Positive(q.offset)),
          ArgsNumber(Positive(q.limit)) + ArgsNumber(Positive(q.offset)))
  }

  function EndOut(reg: Registry, model: Model, q: Selector): Output {
    Then(ByOut(ResolveGroup(reg, model, q.groupBy)),
         Then(ClauseOut(Having, ResolveClause(reg, model, q.having)), NumbersOut(q)))
  }

  // The optional clauses.
  function TailOut(reg: Registry, model: Model, q: Selector): Output {
    Then(ClauseOut(Where, ResolveClause(reg, model, q.where)), EndOut(reg, model, q))
  }

  function FromOut(reg: Registry, model: Model, q: Selector): Output {
    Then(Text([From]), Then(TableOut(ResolveTable(reg, model, q.table)), TailOut(reg, model, q)))
  }

  lemma QueryText(q: Query, n: Output)
    requires n == Wrote(PrintNumber(Limit, q.limit) + PrintNumber(Offset, q.offset),
                        ArgsNumber(q.limit) + ArgsNumber(q.offset))
    ensures QueryOut(Some(q)) ==
            Then(Text([Select]), Then(ColumnsOut(Some(q.cols)), Then(Text([From]), Then(TableOut(Some(q.table)),
            Then(ClauseOut(Where, Good(q.cond)), Then(ByOut(Some(q.group)),
            Then(ClauseOut(Having, Good(q.having)), n)))))))
  {
    var a, b, c, d, e := ArgsSels(q.cols), ArgsTable(q.table), ArgsClause(q.cond), ArgsClause(q.having), n.args;
    assert a + (b + (c + (d + e))) == [] + (a + ([] + (b + (c + ([] + (d + e))))));
  }

  lemma QueryOutput(reg: Registry, q: Selector)
    requires q.entity in reg
    ensures var m := reg[q.entity];
            QueryOut(ResolveSel(reg, q)) ==
            Then(Text([Select]), Then(ColumnsOut(ResolveColumns(reg, m, q.columns)), FromOut(reg, m, q)))
  {
    hide PrintCols, ArgsSels, PrintTable, ArgsTable, PrintClause, ArgsClause, PrintGroup, PrintNumber, ArgsNumber;
    hide PrintQuery, ArgsQuery, ResolveColumns, ResolveTable, ResolveClause, ResolveGroup;
    var m := reg[q.entity];
    match (ResolveColumns(reg, m, q.columns), ResolveTable(reg, m, q.table), ResolveClause(reg, m, q.where),
           ResolveGroup(reg, m, q.groupBy), ResolveClause(reg, m, q.having))
    case (Some(cols), Some(table), Good(cond), Some(group), Good(having)) =>
      QueryText(Query(cols, table, cond, group, having, Positive(q.limit), Positive(q.offset)), NumbersOut(q));
    case _ =>
  }

  lemma UsingText(reg: Registry, model: Model, using: seq<string>)
    ensures UsingOut(ResolveGroup(reg, model, UsingCols(using))) ==
            if using == [] then Text([])
            else Then(Text([Using, Open]), Then(GroupOut(ResolveGroup(reg, model, UsingCols(using))), Text([Close])))
  {
    hide CommaJoin, RefParts;
    var cs := UsingCols(using);
    if using != [] && ResolveGroup(reg, model, cs).Some? {
      GroupSize(reg, model, cs);
      var text := CommaJoin(RefParts(ResolveGroup(reg, model, cs).value));
      assert [Using, Open] + text + [Close] == [Using, Open] + (text + [Close]);
    }
  }

  // Resolving a list fails as soon as a prefix does.
  lemma {:induction false} GroupPrefix(reg: Registry, model: Model, cs: seq<GroupCol>, n: nat)
    requires n <= |cs| && ResolveGroup(reg, model, cs[..n]).None?
    ensures ResolveGroup(reg, model, cs).None?
  {
    if n < |cs| {
      assert cs[..|cs| - 1][..n] == cs[..n];
      GroupPrefix(reg, model, cs[..|cs| - 1], n);
    } else {
      assert cs[..n] == cs;
    }
  }

  lemma {:induction false} ColumnsPrefix(reg: Registry, model: Model, cs: seq<Selectable>, n: nat)
    requires n <= |cs| && ResolveColumns(reg, model, cs[..n]).None?
    ensures ResolveColumns(reg, model, cs).None?
  {
    if n < |cs| {
      assert cs[..|cs| - 1][..n] == cs[..n];
      ColumnsPrefix(reg, model, cs[..|cs| - 1], n);
    } else {
      assert cs[..n] == cs;
    }
  }

  lemma {:induction false} GroupSize(reg: Registry, model: Model, cs: seq<GroupCol>)
    requires ResolveGroup(reg, model, cs).Some?
    ensures |ResolveGroup(reg, model, cs).value| == |cs|
  {
    if cs != [] {
      GroupSize(reg, model, cs[..|cs| - 1]);
    }
  }

  lemma {:induction false} ColumnsSize(reg: Registry, model: Model, cs: seq<Selectable>)
    requires ResolveColumns(reg, model, cs).Some?
    ensures |ResolveColumns(reg, model, cs).value| == |cs|
  {
    if cs != [] {
      ColumnsSize(reg, model, cs[..|cs| - 1]);
    }
  }

  lemma NoGroup(reg: Registry, model: Model)
    ensures GroupOut(ResolveGroup(reg, model, [])) == Text([])
  {
  }

  lemma NoItems(reg: Registry, model: Model)
    ensures ItemsOut(ResolveColumns(reg, model, [])) == Text([])
  {
  }

  lemma OutFails(rs: Option<seq<Ref>>, ss: Option<seq<Sel>>)
    ensures GroupOut(rs).Failed? <==> rs.None?
    ensures ItemsOut(ss).Failed? <==> ss.None?
  {
  }

  // Text that goes before the next item of a list.
  function Separator(n: nat): seq<Tok> { if n == 0 then [] else [Comma] }

  lemma CommaSnoc(parts: seq<seq<Tok>>, p: seq<Tok>)
    ensures CommaJoin(parts + [p]) == CommaJoin(parts) + (Separator(|parts|) + p)
  {
    assert (parts + [p])[..|parts|] == parts;
  }

  // The list grows by one item.
  lemma GroupStep(reg: Registry, model: Model, cs: seq<GroupCol>, i: nat)
    requires i < |cs| && ResolveGroup(reg, model, cs[..i]).Some?
    ensures GroupOut(ResolveGroup(reg, model, cs[..i + 1])) ==
            Then(GroupOut(ResolveGroup(reg, model, cs[..i])),
                 Then(Text(Separator(i)), RefOut(ResolveRef(reg, model, cs[i].src, cs[i].name))))
  {
    hide ResolveRef, PrintRef, CommaJoin;
    assert cs[..i + 1][..i] == cs[..i];
    GroupSize(reg, model, cs[..i]);
    var rs := ResolveGroup(reg, model, cs[..i]).value;
    match ResolveRef(reg, model, cs[i].src, cs[i].name)
    case None =>
    case Some(r) =>
      assert RefParts(rs + [r]) == RefParts(rs) + [PrintRef(r)];
      CommaSnoc(RefParts(rs), PrintRef(r));
  }

  lemma ColumnsStep(reg: Registry, model: Model, cs: seq<Selectable>, i: nat)
    requires i < |cs| && ResolveColumns(reg, model, cs[..i]).Some?
    ensures ItemsOut(ResolveColumns(reg, model, cs[..i + 1])) ==
            Then(ItemsOut(ResolveColumns(reg, model, cs[..i])),
                 Then(Text(Separator(i)), SelOut(ResolveSelectable(reg, model, cs[i]))))
  {
    hide ResolveSelectable, PrintSel, ArgsSel, CommaJoin;
    assert cs[..i + 1][..i] == cs[..i];
    ColumnsSize(reg, model, cs[..i]);
    var ss := ResolveColumns(reg, model, cs[..i]).value;
    match ResolveSelectable(reg, model, cs[i])
    case None =>
    case Some(s) =>
      assert SelParts(ss + [s]) == SelParts(ss) + [PrintSel(s)];
      CommaSnoc(SelParts(ss), PrintSel(s));
      assert (ss + [s])[..|ss|] == ss;
  }

  lemma UnknownEntity(reg: Registry, q: Selector, x: seq<Value>)
    requires q.entity !in reg
    ensures With(Then(QueryOut(ResolveSel(reg, q)), Text([Semi])), x) == Failed
  {
  }

  lemma ColumnsArgs(reg: Registry, model: Model, cs: seq<Selectable>)
    ensures var o := ColumnsOut(ResolveColumns(reg, model, cs)); With(o, RawArgs(cs)) == o
  {
    if ResolveColumns(reg, model, cs).Some? {
      RawArgsOf(reg, model, cs);
    }
  }

  // The text without its final semicolon.
  lemma DropSemi(q: Output, x: seq<Value>, ts: seq<Tok>, vs: seq<Value>)
    requires ts != [] && ts[|ts| - 1] == Semi
    ensures Appended(With(Then(q, Text([Semi])), x), true, [], [], ts, vs) ==>
      Appended(With(q, x), true, [], [], ts[..|ts| - 1], vs)
  {
    if Appended(With(Then(q, Text([Semi])), x), true, [], [], ts, vs) {
      assert ts == q.text + [Semi];
      assert vs == x;
    }
  }

  class Builder {
    var sb: seq<Tok>
    var args: seq<Value>
    var model: Model

    constructor ()
      ensures sb == [] && args == []
    {
      sb, args := [], [];
      model := Model("", [], map[], map[]);
    }

    // Every writer below keeps one law. On a ready tree, whose subqueries may be
    // shared, it appends the text of the resolved tree with the arguments of
    // each subquery's first use, fails exactly when the tree does not resolve,
    // and leaves the text of every shared subquery in its cell. `filled` are the
    // cells filled before.

    method Emit(ts: seq<Tok>, vs: seq<Value>)
      modifies this
      ensures model == old(model)
      ensures sb == old(sb) + ts && args == old(args) + vs
    {
      sb := sb + ts;
      args := args + vs;
    }

    method BuildColumn(reg: Registry, src: ColSource, fd: string) returns (ok: bool)
      modifies this
      ensures model == old(model)
      ensures Appended(RefOut(ResolveRef(reg, model, src, fd)), ok, old(sb), old(args), sb, args)
    {
      var alias := AliasOf(src);
      if alias != "" {
        Emit([Name(alias), Dot], []);
      }
      match ColName(reg, model, src, fd)
      case None => return false;
      case Some(c) =>
        Emit([Name(c)], []);
        return true;
    }

    method BuildAs(alias: string)
      modifies this
      ensures model == old(model)
      ensures sb == old(sb) + PrintAlias(alias) && args == old(args)
    {
      if alias != "" {
        Emit([As, Name(alias)], []);
      }
    }

    method BuildAggregate(reg: Registry, src: ColSource, fn: string, arg: string) returns (ok: bool)
      modifies this
      ensures model == old(model)
      ensures Appended(AggOut(fn, ResolveRef(reg, model, src, arg)), ok, old(sb), old(args), sb, args)
    {
      hide ResolveRef, RefOut, AggOut;
      ghost var s0, a0, r := sb, args, RefOut(ResolveRef(reg, model, src, arg));
      AggText(fn, ResolveRef(reg, model, src, arg));
      Emit([FnTok(fn), Open], []);
      ghost var s1, a1 := sb, args;
      ok := BuildColumn(reg, src, arg);
      if ok {
        ghost var s2, a2 := sb, args;
        Emit([Close], []);
        AppendedThen(r, Text([Close]), true, s1, a1, s2, a2, sb, args);
        AppendedThen(Text([FnTok(fn), Open]), Then(r, Text([Close])), true, s0, a0, s1, a1, sb, args);
      }
    }

    method Raw(raw: RawExpr)
      modifies this
      ensures model == old(model)
      ensures BalancedRaw(raw) ==> sb == old(sb) + PrintRaw(ResolveRaw(raw)) && args == old(args) + raw.args
    {
      Emit([RawText(raw.text, raw.marks)], raw.args);
    }

    // ---------- what a writer may be called on ----------

    // The shared subqueries behind a piece this builder is to write: `filled`
    // cells hold their text, the rest is untouched, and nothing else uses them.
    ghost predicate Shares(reg: Registry, subs: set<Subquery>, own: set<object>, filled: set<CacheCell>)
      reads Reach(reg, subs)
    {
      && this !in own && Fits(reg, subs, own + {this})
      && SubsOk(reg, subs, filled) && Inside(reg, subs, filled)
    }

    ghost predicate ReadyE(reg: Registry, e: Expression, filled: set<CacheCell>)
      reads OwnE(reg, e), Reach(reg, SubsE(reg, e))
    {
      PlainE(reg, e) && Shares(reg, SubsE(reg, e), OwnE(reg, e), filled)
    }

    ghost predicate ReadySide(reg: Registry, e: Expression, filled: set<CacheCell>)
      reads OwnE(reg, e), Reach(reg, SubsE(reg, e))
    {
      e.NilE? || ReadyE(reg, e, filled)
    }

    ghost predicate ReadyEs(reg: Registry, ps: seq<Expression>, filled: set<CacheCell>)
      reads OwnEs(reg, ps), Reach(reg, SubsEs(reg, ps))
    {
      PlainEs(reg, ps) && Shares(reg, SubsEs(reg, ps), OwnEs(reg, ps), filled)
    }

    lemma NotMine(reg: Registry, subs: set<Subquery>, own: set<object>, filled: set<CacheCell>)
      requires Shares(reg, subs, own, filled)
      ensures this !in own + Reach(reg, subs)
    {
      FitsReach(reg, subs, own + {this});
    }

    // Writing a first part touches neither the objects of a second part nor, but
    // for the cells both use, its subqueries; and the other way round.
    ghost predicate Splits(reg: Registry, ps: set<Subquery>, pown: set<object>, qs: set<Subquery>, qown: set<object>,
                           filled: set<CacheCell>)
      reads Reach(reg, Others(qs, ps))
    {
      && Reach(reg, Others(qs, ps)) !! pown + Reach(reg, ps) + {this} && Reach(reg, Others(qs, ps)) <= Reach(reg, qs)
      && Reach(reg, Others(ps, qs)) !! qown + Reach(reg, qs) + {this} && Reach(reg, Others(ps, qs)) <= Reach(reg, ps)
      && qown !! pown + Reach(reg, ps) + {this}
      && Apart(reg, ps + qs) && Fits(reg, qs, qown + {this}) && Inside(reg, qs, filled)
      && SubsOk(reg, Others(qs, ps), filled)
    }

    // Before a piece written in two parts.
    lemma Parts(reg: Registry, ps: set<Subquery>, pown: set<object>, qs: set<Subquery>, qown: set<object>,
                filled: set<CacheCell>)
      requires Shares(reg, ps + qs, pown + qown, filled) && pown !! qown
      ensures Shares(reg, ps, pown, filled) && Splits(reg, ps, pown, qs, qown, filled)
      ensures this !in pown + Reach(reg, ps) && this !in qown + Reach(reg, qs)
    {
      hide Reach, Fits, OwnSel, SubsSel, SubOk, Others;
      TwoPieces(reg, ps, pown, qs, qown, this);
      OthersOk(reg, qs, ps, filled);
      FitsReach(reg, ps, pown + {this});
      FitsReach(reg, qs, qown + {this});
    }

    // Between the parts.
    lemma Between(reg: Registry, ps: set<Subquery>, qs: set<Subquery>, qown: set<object>, filled: set<CacheCell>,
                  m: nat)
      requires this !in qown && Fits(reg, qs, qown + {this}) && Inside(reg, qs, filled)
      requires Apart(reg, ps + qs) && Whole(reg, ps, m)
      requires SubsOk(reg, ps, filled + Cells(ps)) && SubsOk(reg, Others(qs, ps), filled)
      ensures Shares(reg, qs, qown, filled + Cells(ps)) && SubsOk(reg, Others(ps, qs), filled + Cells(ps))
    {
      hide Reach, Fits, OwnSel, SubsSel, SubsOk, Others, Apart, Whole;
      Renew(reg, ps, qs, filled, m);
      OthersOk(reg, ps, qs, filled + Cells(ps));
    }

    // ---------- expressions ----------

    // A raw, column, aggregate or value expression holds no subquery.
    method BuildLeaf(reg: Registry, e: Expression) returns (ok: bool)
      requires e.Col? || e.Agg? || e.Val? || e.Raw?
      modifies this
      ensures model == old(model)
      ensures BalancedE(e) ==> Appended(TopOut(reg, model, e), ok, old(sb), old(args), sb, args)
    {
      hide PrintRef, PrintAgg, ResolveRef;
      match e
      case Col(src, name) =>
        ok := BuildColumn(reg, src, name);
      case Agg(src, fn, arg) =>
        ok := BuildAggregate(reg, src, fn, arg);
      case Val(v) =>
        Emit([Mark], [v]);
        return true;
      case Raw(raw) =>
        Raw(raw);
        return true;
    }

    method BuildExpression(reg: Registry, e: Expression, ghost filled: set<CacheCell>) returns (ok: bool)
      modifies this, FootE(e)
      ensures e.NilE? ==> ok && sb == old(sb) && args == old(args) && model == old(model)
      ensures old(ReadyE(reg, e, filled)) ==> model == old(model)
      ensures old(ReadyE(reg, e, filled)) ==>
        Appended(With(TopOut(reg, old(model), e), OnceE(reg, e, filled)), ok, old(sb), old(args), sb, args)
      ensures old(ReadyE(reg, e, filled)) && ok ==> SubsOk(reg, SubsE(reg, e), filled + Cells(SubsE(reg, e)))
      decreases SizeE(e), 2
    {
      hide FootE, FootSel, OwnE, SubsE, PlainE, BalancedE, TopOut, OnceE, Shares, SubsOk, With, SubOut, PredOut;
      hide PrintExpr, ArgsExpr;
      AllocE(e);
      match e
      case NilE =>
        NilPlain(reg);
        return true;
      case Bin(_, _, _) =>
        BinTop(reg, model, e);
        ok := BuildBinary(reg, e, filled);
      case Sub(s) =>
        SubTop(reg, model, s, filled);
        ok := BuildSubQuery(reg, s, filled);
      case SubPred(pred, s) =>
        PredTop(reg, model, pred, s, filled);
        BuildSubqueryExpr(reg, pred, s, filled);
        return true;
      case _ =>
        LeafTop(reg, model, e, filled);
        ok := BuildLeaf(reg, e);
        NoSubs(reg, filled + Cells(SubsE(reg, e)));
    }

    lemma NilPlain(reg: Registry)
      ensures !PlainE(reg, NilE)
    {
    }

    lemma BinTop(reg: Registry, m: Model, e: Expression)
      requires e.Bin?
      ensures TopOut(reg, m, e) == PredOut(ResolvePred(reg, m, e))
    {
    }

    lemma LeafTop(reg: Registry, m: Model, e: Expression, filled: set<CacheCell>)
      requires !e.NilE? && !e.Bin? && !e.Sub? && !e.SubPred?
      ensures With(TopOut(reg, m, e), OnceE(reg, e, filled)) == TopOut(reg, m, e)
      ensures PlainE(reg, e) ==> BalancedE(e)
      ensures SubsE(reg, e) == {}
    {
      hide PrintRef, PrintAgg, ResolveRef;
    }

    lemma SubTop(reg: Registry, m: Model, s: Subquery, filled: set<CacheCell>)
      ensures FootE(Sub(s)) == {s.cell as object} + FootSel(s.q)
      ensures With(TopOut(reg, m, Sub(s)), OnceE(reg, Sub(s), filled)) ==
              With(SubOut(ResolveSel(reg, s.q)), OnceE(reg, Sub(s), filled))
    {
      hide FootSel, PrintQuery, ArgsQuery, ResolveSel, OnceE;
    }

    lemma PredTop(reg: Registry, m: Model, pred: string, s: Subquery, filled: set<CacheCell>)
      ensures FootE(SubPred(pred, s)) == {s.cell as object} + FootSel(s.q)
      ensures TopOut(reg, m, SubPred(pred, s)) == ExprOut(Some(PredE(pred, ResolveSel(reg, s.q))))
    {
      hide FootSel, ResolveSel, PrintExpr, ArgsExpr;
    }

    // The error of the subquery is dropped.
    method BuildSubqueryExpr(reg: Registry, pred: string, s: Subquery, ghost filled: set<CacheCell>)
      modifies this, s.cell, FootSel(s.q)
      ensures old(ReadyE(reg, SubPred(pred, s), filled)) ==> model == old(model)
      ensures old(ReadyE(reg, SubPred(pred, s), filled)) ==>
        Appended(With(ExprOut(Some(PredE(pred, ResolveSel(reg, s.q)))), OnceE(reg, SubPred(pred, s), filled)), true,
                 old(sb), old(args), sb, args)
      ensures old(ReadyE(reg, SubPred(pred, s), filled)) ==>
        SubsOk(reg, SubsE(reg, SubPred(pred, s)), filled + Cells(SubsE(reg, SubPred(pred, s))))
      decreases SizeSel(s.q), 12
    {
      hide FootE, FootSel, OwnE, SubsE, PlainE, ExprOut, OnceE, Shares, SubsOk, SubOut, Reach, Resolves;
      AllocSel(s.q);
      ghost var ready := ReadyE(reg, SubPred(pred, s), filled);
      ghost var e := Sub(s);
      SameReady(reg, pred, s, filled);
      PredText(reg, pred, s, filled);
      AreaE(reg, e);
      if ready {
        NotMine(reg, SubsE(reg, e), OwnE(reg, e), filled);
      }
      Emit([PredTok(pred)], []);
      ghost var s1 := sb;
      var ok := BuildSubQuery(reg, s, filled);
      if ready && ok {
        AppendedAfter([PredTok(pred)], SubOut(ResolveSel(reg, s.q)), OnceE(reg, e, filled), true,
                      old(sb), old(args), s1, sb, args);
      }
      NoSubs(reg, filled + Cells({}));
    }

    lemma SameReady(reg: Registry, pred: string, s: Subquery, filled: set<CacheCell>)
      ensures ReadyE(reg, SubPred(pred, s), filled) <==> ReadyE(reg, Sub(s), filled)
      ensures SubsE(reg, SubPred(pred, s)) == SubsE(reg, Sub(s)) && OwnE(reg, SubPred(pred, s)) == OwnE(reg, Sub(s))
      ensures OnceE(reg, SubPred(pred, s), filled) == OnceE(reg, Sub(s), filled)
      ensures FootE(Sub(s)) == {s.cell as object} + FootSel(s.q)
    {
      hide FootSel, OnceSub, Shares, SubsSel, ShapeSub, LoneSub, BalancedSel, Resolves;
    }

    lemma PredText(reg: Registry, pred: string, s: Subquery, filled: set<CacheCell>)
      ensures var e, vs := ExprOut(Some(PredE(pred, ResolveSel(reg, s.q)))), OnceE(reg, Sub(s), filled);
              if Resolves(reg, s)
              then With(e, vs) == With(Then(Text([PredTok(pred)]), SubOut(ResolveSel(reg, s.q))), vs)
              else With(e, vs) == Text([PredTok(pred)]) && SubsE(reg, Sub(s)) == {}
      ensures SubOut(ResolveSel(reg, s.q)).Wrote? <==> Resolves(reg, s)
    {
      hide OnceSel, PrintQuery, ArgsQuery, ResolveSel;
    }

    method Paren(ts: seq<Tok>, vs: seq<Value>)
      modifies this
      ensures model == old(model) && sb == old(sb) + ([Open] + (ts + [Close])) && args == old(args) + vs
    {
      Emit([Open], []);
      Emit(ts, vs);
      Emit([Close], []);
    }

    // The text of a subquery and the arguments that go with it. A cached text
    // comes without arguments: the cell is shared by all copies of the
    // subquery, the arguments belong to one.
    method Fetch(reg: Registry, s: Subquery, ghost filled: set<CacheCell>) returns (ok: bool, vs: seq<Value>)
      modifies s.cell, FootSel(s.q)
      ensures old(s.cell.sql) != [] ==> ok && vs == [] && unchanged(s.cell) && unchanged(this)
      ensures old(ReadyE(reg, Sub(s), filled)) ==> (ok <==> Resolves(reg, s))
      ensures old(ReadyE(reg, Sub(s), filled)) && ok ==>
        s.cell.sql == Printed(reg, s.q) && vs == OnceE(reg, Sub(s), filled)
      ensures old(ReadyE(reg, Sub(s), filled)) && ok ==>
        SubsOk(reg, SubsE(reg, Sub(s)), filled + Cells(SubsE(reg, Sub(s))))
      decreases SizeSel(s.q), 10
    {
      hide FootSel, OwnSel, SubsSel, OwnE, SubsE, PlainE, Shares, OnceE, SubsOk, Reach, Printed, ReadyBody;
      hide ResolveSel, PrintQuery, ArgsQuery;
      AllocSel(s.q);
      ghost var ready := ReadyE(reg, Sub(s), filled);
      BuilderIn(s.q);
      ok, vs := true, [];
      if s.cell.sql != [] {
        if ready {
          FetchHit(reg, s, filled);
        }
        return;
      }
      ghost var known := if Resolves(reg, s) then filled else {};
      ghost var b0, s0, a0 := s.q.b, s.q.b.sb, s.q.b.args;
      if ready {
        FetchMiss(reg, s, filled);
      }
      ok := s.q.b.Build(reg, s.q, known);
      if ok {
        s.cell.sql := s.q.b.sb[..|s.q.b.sb| - 1];
        vs := s.q.b.args;
      }
      if ready && ok {
        FetchDone(reg, s, filled, s.q.b.sb, vs);
      }
    }

    lemma BuilderIn(q: Selector)
      ensures q.b in FootSel(q)
    {
    }

    // A cached text.
    lemma FetchHit(reg: Registry, s: Subquery, filled: set<CacheCell>)
      requires ReadyE(reg, Sub(s), filled) && s.cell.sql != []
      ensures Resolves(reg, s) && s.cell.sql == Printed(reg, s.q) && OnceE(reg, Sub(s), filled) == []
      ensures SubsOk(reg, SubsE(reg, Sub(s)), filled + Cells(SubsE(reg, Sub(s))))
    {
      hide Fits, Printed, OnceSel, UntouchedSel, LoneSel, ShapeSub, BalancedE, ResolveSel;
      if Resolves(reg, s) {
        assert s in SubsE(reg, Sub(s));
        assert SubOk(reg, s, filled);
        assert Cells(SubsE(reg, Sub(s))) == {s.cell} + Cells(SubsSel(reg, s.q));
        assert filled + Cells(SubsE(reg, Sub(s))) == filled;
      }
    }

    // A subquery about to be built: its builder is ready.
    lemma FetchMiss(reg: Registry, s: Subquery, filled: set<CacheCell>)
      requires ReadyE(reg, Sub(s), filled) && s.cell.sql == []
      ensures s.q.b.ReadyBody(reg, s.q, if Resolves(reg, s) then filled else {}) && s.q.b.sb == [] && s.q.b.args == []
      ensures Resolves(reg, s) ==> s.cell !in filled && s.cell !in Reach(reg, SubsSel(reg, s.q))
    {
      hide Fits, Shares, OnceSel;
      assert ShapeSub(reg, s) && LoneSub(reg, s);
      if Resolves(reg, s) {
        FetchKnown(reg, s, filled);
      } else {
        TidyShapeSel(reg, s.q);
        UntouchedOkSel(reg, s.q);
      }
    }

    lemma FetchKnown(reg: Registry, s: Subquery, filled: set<CacheCell>)
      requires ReadyE(reg, Sub(s), filled) && s.cell.sql == [] && Resolves(reg, s)
      ensures LoneSel(reg, s.q) && s.cell !in filled
      ensures SubsOk(reg, SubsSel(reg, s.q), filled) && Inside(reg, SubsSel(reg, s.q), filled)
      ensures s.cell !in Reach(reg, SubsSel(reg, s.q))
    {
      hide OwnSel, SubsSel, LoneSel, ShapeSub, BalancedE;
      var subs := SubsE(reg, Sub(s));
      assert s in subs && subs == {s} + SubsSel(reg, s.q);
      SubText(ResolveSel(reg, s.q).value);
      assert SubOk(reg, s, filled);
      WholeSel(reg, s.q);
      forall t <- SubsSel(reg, s.q) ensures s.cell !in Around(reg, t) {
        assert t in subs;
      }
    }

    lemma FetchDone(reg: Registry, s: Subquery, filled: set<CacheCell>, ts: seq<Tok>, vs: seq<Value>)
      requires Resolves(reg, s) && s.cell !in filled && ts != [] && s.cell.sql == ts[..|ts| - 1]
      requires Appended(With(Then(QueryOut(ResolveSel(reg, s.q)), Text([Semi])), OnceSel(reg, s.q, filled)), true,
                        [], [], ts, vs)
      requires SubsOk(reg, SubsSel(reg, s.q), filled + Cells(SubsSel(reg, s.q)))
      ensures s.cell.sql == Printed(reg, s.q) && vs == OnceE(reg, Sub(s), filled)
      ensures SubsOk(reg, SubsE(reg, Sub(s)), filled + Cells(SubsE(reg, Sub(s))))
    {
      hide OwnSel, SubsSel, LoneSel, OnceSel, PrintQuery, ArgsQuery, ResolveSel;
      assert ts == PrintQuery(ResolveSel(reg, s.q).value) + [Semi];
      var subs := SubsE(reg, Sub(s));
      assert subs == {s} + SubsSel(reg, s.q);
      forall t <- subs ensures SubOk(reg, t, filled + Cells(subs)) {
        if t in SubsSel(reg, s.q) {
          assert SubOk(reg, t, filled + Cells(SubsSel(reg, s.q)));
        }
      }
    }

    method BuildSubQuery(reg: Registry, s: Subquery, ghost filled: set<CacheCell>) returns (ok: bool)
      modifies this, s.cell, FootSel(s.q)
      ensures old(ReadyE(reg, Sub(s), filled)) ==> model == old(model)
      ensures old(ReadyE(reg, Sub(s), filled)) ==>
        Appended(With(SubOut(ResolveSel(reg, s.q)), OnceE(reg, Sub(s), filled)), ok, old(sb), old(args), sb, args)
      ensures old(ReadyE(reg, Sub(s), filled)) && !ok ==> sb == old(sb) && args == old(args)
      ensures old(ReadyE(reg, Sub(s), filled)) && ok ==>
        SubsOk(reg, SubsE(reg, Sub(s)), filled + Cells(SubsE(reg, Sub(s))))
      ensures old(s.cell.sql) != [] ==>
        ok && sb == old(sb) + ([Open] + (old(s.cell.sql) + [Close])) && args == old(args) && unchanged(s.cell)
      decreases SizeSel(s.q), 11
    {
      hide FootE, FootSel, OwnE, SubsE, PlainE, Shares, OnceE, SubsOk, Reach, PrintQuery, ArgsQuery, ResolveSel;
      AllocSel(s.q);
      ghost var e := Sub(s);
      SubTop(reg, model, s, filled);
      AreaE(reg, e);
      if ReadyE(reg, e, filled) {
        NotMine(reg, SubsE(reg, e), OwnE(reg, e), filled);
      }
      var vs;
      ok, vs := Fetch(reg, s, filled);
      if ok {
        Paren(s.cell.sql, vs);
      }
    }

    // The operator and the right operand.
    method BuildRest(reg: Registry, e: Expression, ghost filled: set<CacheCell>) returns (ok: bool)
      requires e.Bin?
      modifies this, FootE(e.r)
      ensures old(ReadySide(reg, e.r, filled)) ==> model == old(model)
      ensures old(ReadySide(reg, e.r, filled)) ==>
        Appended(With(RestOut(reg, old(model), e), OnceE(reg, e.r, filled)), ok, old(sb), old(args), sb, args)
      ensures old(ReadySide(reg, e.r, filled)) && ok ==> SubsOk(reg, SubsE(reg, e.r), filled + Cells(SubsE(reg, e.r)))
      decreases SizeE(e), 0
    {
      hide FootE, OwnE, SubsE, PlainE, Shares, OnceE, SubsOk, Reach, SideOut, With;
      AllocE(e.r);
      ghost var ready := ReadySide(reg, e.r, filled);
      SideApart(reg, e.r, filled);
      if e.op.Some? {
        Emit([OpTok(e.op.value)], []);
      }
      ghost var s1 := sb;
      ok := BuildSubExpr(reg, e.r, filled);
      if ready {
        AppendedAfter(OpOut(e.op).text, SideOut(reg, old(model), e.r), OnceE(reg, e.r, filled), ok,
                      old(sb), old(args), s1, sb, args);
      }
    }

    lemma SideApart(reg: Registry, e: Expression, filled: set<CacheCell>)
      ensures FootE(e) == OwnE(reg, e) + Reach(reg, SubsE(reg, e))
      ensures ReadySide(reg, e, filled) ==> this !in FootE(e)
    {
      hide Reach, Shares, PlainE;
      AreaE(reg, e);
      NoReach(reg);
      if ReadyE(reg, e, filled) {
        NotMine(reg, SubsE(reg, e), OwnE(reg, e), filled);
      }
    }

    method BuildBinary(reg: Registry, e: Expression, ghost filled: set<CacheCell>) returns (ok: bool)
      requires e.Bin?
      modifies this, FootE(e)
      ensures old(ReadyE(reg, e, filled)) ==> model == old(model)
      ensures old(ReadyE(reg, e, filled)) ==>
        Appended(With(PredOut(ResolvePred(reg, old(model), e)), OnceE(reg, e, filled)), ok,
                 old(sb), old(args), sb, args)
      ensures old(ReadyE(reg, e, filled)) && ok ==> SubsOk(reg, SubsE(reg, e), filled + Cells(SubsE(reg, e)))
      decreases SizeE(e), 1
    {
      hide FootE, OwnE, SubsE, PlainE, Shares, OnceE, SubsOk, Reach, SideOut, RestOut, With, Then, PredOut;
      hide Others, Cells;
      hide Apart, Fits, Inside, Whole;
      AllocE(e.l);
      AllocE(e.r);
      ghost var m, s0, a0, ready := model, sb, args, ReadyE(reg, e, filled);
      ghost var mid := filled + Cells(SubsE(reg, e.l));
      ghost var x, y := OnceE(reg, e.l, filled), OnceE(reg, e.r, mid);
      BinParts(reg, e, filled);
      if ready {
        BinReady(reg, m, e, filled);
      }
      ok := BuildSubExpr(reg, e.l, filled);
      if !ok {
        if ready {
          FirstFails(SideOut(reg, m, e.l), x, RestOut(reg, m, e), OnceE(reg, e, filled), s0, a0, sb, args);
        }
        return false;
      }
      ghost var s1, a1 := sb, args;
      if ready {
        Between(reg, SubsE(reg, e.l), SubsE(reg, e.r), OwnE(reg, e.r), filled, SizeE(e.l));
      }
      ok := BuildRest(reg, e, mid);
      if ready {
        AppendedWith(SideOut(reg, m, e.l), x, RestOut(reg, m, e), y, ok, s0, a0, s1, a1, sb, args);
        if ok {
          BothOk(reg, SubsE(reg, e.l), SubsE(reg, e.r), filled, SizeE(e.l), SizeE(e.r));
        }
      }
    }

    lemma BinParts(reg: Registry, e: Expression, filled: set<CacheCell>)
      requires e.Bin?
      ensures FootE(e) == FootE(e.l) + FootE(e.r) && SubsE(reg, e) == SubsE(reg, e.l) + SubsE(reg, e.r)
      ensures FootE(e.l) == OwnE(reg, e.l) + Reach(reg, SubsE(reg, e.l))
      ensures FootE(e.r) == OwnE(reg, e.r) + Reach(reg, SubsE(reg, e.r))
      ensures OnceE(reg, e, filled) == OnceE(reg, e.l, filled) + OnceE(reg, e.r, filled + Cells(SubsE(reg, e.l)))
      ensures Whole(reg, SubsE(reg, e.l), SizeE(e.l)) && Whole(reg, SubsE(reg, e.r), SizeE(e.r))
    {
      hide Reach, FootSel, SubsSel, OwnSel, Whole, Cells;
      AreaE(reg, e.l);
      AreaE(reg, e.r);
      WholeE(reg, e.l);
      WholeE(reg, e.r);
    }

    lemma BinReady(reg: Registry, m: Model, e: Expression, filled: set<CacheCell>)
      requires e.Bin? && ReadyE(reg, e, filled)
      ensures ReadySide(reg, e.l, filled) && (e.r.NilE? || PlainE(reg, e.r))
      ensures Splits(reg, SubsE(reg, e.l), OwnE(reg, e.l), SubsE(reg, e.r), OwnE(reg, e.r), filled)
      ensures PredOut(ResolvePred(reg, m, e)) == Then(SideOut(reg, m, e.l), RestOut(reg, m, e))
    {
      hide Reach, FootSel, SubsSel, OwnSel, Others, Apart, Fits, Inside, SubsOk, SideOut, RestOut, PredOut;
      hide Then, ResolvePred, Cells;
      SplitPred(reg, m, e);
      Parts(reg, SubsE(reg, e.l), OwnE(reg, e.l), SubsE(reg, e.r), OwnE(reg, e.r), filled);
    }

    method BuildSubExpr(reg: Registry, e: Expression, ghost filled: set<CacheCell>) returns (ok: bool)
      modifies this, FootE(e)
      ensures e.NilE? ==> ok && sb == old(sb) && args == old(args) && model == old(model)
      ensures old(ReadySide(reg, e, filled)) ==> model == old(model)
      ensures old(ReadySide(reg, e, filled)) ==>
        Appended(With(SideOut(reg, old(model), e), OnceE(reg, e, filled)), ok, old(sb), old(args), sb, args)
      ensures old(ReadySide(reg, e, filled)) && ok ==> SubsOk(reg, SubsE(reg, e), filled + Cells(SubsE(reg, e)))
      decreases SizeE(e), 3
    {
      hide FootE, OwnE, SubsE, PlainE, Shares, OnceE, SubsOk, Reach, SideOut, With, PredOut, TopOut;
      AllocE(e);
      ghost var ready, s0, a0, x := ReadySide(reg, e, filled), sb, args, OnceE(reg, e, filled);
      SideApart(reg, e, filled);
      SideTop(reg, model, e, filled);
      if e.Bin? {
        ghost var p := PredOut(ResolvePred(reg, model, e));
        Emit([Open], []);
        ghost var s1 := sb;
        ok := BuildBinary(reg, e, filled);
        if ok {
          ghost var s2, a2 := sb, args;
          Emit([Close], []);
          if ready {
            AppendedBefore(p, x, [Close], s1, a0, s2, a2, sb);
          }
        }
        if ready {
          if !ok {
            FirstFails(p, x, Text([Close]), x, s1, a0, sb, args);
          }
          AppendedAfter([Open], Then(p, Text([Close])), x, ok, s0, a0, s1, sb, args);
        }
      } else {
        ok := BuildExpression(reg, e, filled);
        NoSubs(reg, filled + Cells({}));
      }
    }

    lemma SideTop(reg: Registry, m: Model, e: Expression, filled: set<CacheCell>)
      ensures e.Bin? ==>
        With(SideOut(reg, m, e), OnceE(reg, e, filled)) ==
        With(Then(Text([Open]), Then(PredOut(ResolvePred(reg, m, e)), Text([Close]))), OnceE(reg, e, filled))
      ensures e.NilE? ==> With(SideOut(reg, m, e), OnceE(reg, e, filled)) == Text([]) && SubsE(reg, e) == {}
      ensures !e.Bin? && !e.NilE? ==> SideOut(reg, m, e) == TopOut(reg, m, e)
    {
      hide FootSel, SubsSel, OwnSel, OnceSel, PrintPred, ArgsPred, ResolvePred;
    }

    method BuildClause(reg: Registry, kw: Tok, ps: seq<Expression>, ghost filled: set<CacheCell>) returns (ok: bool)
      modifies this, FootEs(ps)
      ensures old(ReadyEs(reg, ps, filled)) ==> model == old(model)
      ensures old(ReadyEs(reg, ps, filled)) ==>
        Appended(With(ClauseOut(kw, ResolveClause(reg, old(model), ps)), OnceEs(reg, ps, filled)), ok,
                 old(sb), old(args), sb, args)
      ensures old(ReadyEs(reg, ps, filled)) && ok ==> SubsOk(reg, SubsEs(reg, ps), filled + Cells(SubsEs(reg, ps)))
      decreases SizeEs(ps), 4
    {
      hide FootE, OwnE, SubsE, PlainE, Shares, OnceE, SubsOk, Reach, With, TopOut, ClauseOut, ReadyEs, ReadyE, SizeE;
      ClauseReady(reg, kw, model, ps, filled);
      if ps == [] {
        return true;
      }
      AllocEs(ps);
      ghost var ready := ReadyEs(reg, ps, filled);
      Emit([kw], []);
      ghost var s1 := sb;
      var p := ps[0];
      for i := 1 to |ps|
        invariant p == AndAll(ps[..i])
      {
        assert ps[..i + 1][..i] == ps[..i];
        p := Bin(p, Some(AND), ps[i]);
      }
      assert ps[..|ps|] == ps;
      ok := BuildExpression(reg, p, filled);
      if ready {
        AppendedAfter([kw], TopOut(reg, old(model), p), OnceE(reg, p, filled), ok, old(sb), old(args), s1, sb, args);
      }
    }

    // A clause is its conjunction behind its keyword.
    lemma ClauseReady(reg: Registry, kw: Tok, m: Model, ps: seq<Expression>, filled: set<CacheCell>)
      ensures ps == [] ==> With(ClauseOut(kw, ResolveClause(reg, m, ps)), OnceEs(reg, ps, filled)) == Text([])
      ensures ps == [] ==> SubsOk(reg, SubsEs(reg, ps), filled + Cells(SubsEs(reg, ps)))
      ensures ps != [] && ReadyEs(reg, ps, filled) ==> ReadyE(reg, AndAll(ps), filled) && this !in FootEs(ps)
      ensures ps != [] ==> FootEs(ps) == OwnE(reg, AndAll(ps)) + Reach(reg, SubsE(reg, AndAll(ps)))
      ensures ps != [] ==> FootEs(ps) == FootE(AndAll(ps)) && SubsEs(reg, ps) == SubsE(reg, AndAll(ps))
      ensures ps != [] && ReadyEs(reg, ps, filled) ==>
        With(ClauseOut(kw, ResolveClause(reg, m, ps)), OnceEs(reg, ps, filled)) ==
        With(Then(Text([kw]), TopOut(reg, m, AndAll(ps))), OnceE(reg, AndAll(ps), filled))
    {
      hide FootE, OwnE, SubsE, OnceE, Reach, PrintPred, ArgsPred, ResolvePred, Shares;
      if ps != [] {
        SideApart(reg, AndAll(ps), filled);
      }
    }

    method BuildRef(reg: Registry, i: nat, c: GroupCol) returns (ok: bool)
      modifies this
      ensures model == old(model)
      ensures Appended(Then(Text(Separator(i)), RefOut(ResolveRef(reg, model, c.src, c.name))), ok,
                       old(sb), old(args), sb, args)
    {
      hide ResolveRef, PrintRef;
      if i > 0 {
        Emit([Comma], []);
      }
      ghost var s1, a1 := sb, args;
      ok := BuildColumn(reg, c.src, c.name);
      AppendedThen(Text(Separator(i)), RefOut(ResolveRef(reg, model, c.src, c.name)), ok,
                   old(sb), old(args), s1, a1, sb, args);
    }

    method BuildRefs(reg: Registry, cs: seq<GroupCol>) returns (ok: bool)
      modifies this
      ensures model == old(model)
      ensures Appended(GroupOut(ResolveGroup(reg, model, cs)), ok, old(sb), old(args), sb, args)
    {
      hide ResolveGroup, ResolveRef, GroupOut;
      NoGroup(reg, model);
      assert cs[..0] == [];
      for i := 0 to |cs|
        invariant model == old(model)
        invariant Appended(GroupOut(ResolveGroup(reg, model, cs[..i])), true, old(sb), old(args), sb, args)
      {
        OutFails(ResolveGroup(reg, model, cs[..i]), None);
        GroupStep(reg, model, cs, i);
        ghost var s1, a1 := sb, args;
        ok := BuildRef(reg, i, cs[i]);
        AppendedThen(GroupOut(ResolveGroup(reg, model, cs[..i])),
                     Then(Text(Separator(i)), RefOut(ResolveRef(reg, model, cs[i].src, cs[i].name))), ok,
                     old(sb), old(args), s1, a1, sb, args);
        if !ok {
          OutFails(ResolveGroup(reg, model, cs[..i + 1]), None);
          GroupPrefix(reg, model, cs, i + 1);
          OutFails(ResolveGroup(reg, model, cs), None);
          return;
        }
      }
      assert cs[..|cs|] == cs;
      return true;
    }

    method BuildUsing(reg: Registry, using: seq<string>) returns (ok: bool)
      modifies this
      ensures model == old(model)
      ensures Appended(UsingOut(ResolveGroup(reg, model, UsingCols(using))), ok, old(sb), old(args), sb, args)
    {
      hide ResolveGroup, UsingOut, GroupOut, UsingCols;
      ghost var s0, a0 := sb, args;
      UsingText(reg, model, using);
      if using == [] {
        return true;
      }
      ghost var cols := GroupOut(ResolveGroup(reg, model, UsingCols(using)));
      Emit([Using, Open], []);
      ghost var s1, a1 := sb, args;
      ok := BuildRefs(reg, UsingCols(using));
      if ok {
        ghost var s2, a2 := sb, args;
        Emit([Close], []);
        AppendedThen(cols, Text([Close]), true, s1, a1, s2, a2, sb, args);
        AppendedThen(Text([Using, Open]), Then(cols, Text([Close])), true, s0, a0, s1, a1, sb, args);
      }
    }

    method BuildGroupBy(reg: Registry, cs: seq<GroupCol>) returns (ok: bool)
      modifies this
      ensures model == old(model)
      ensures Appended(ByOut(ResolveGroup(reg, model, cs)), ok, old(sb), old(args), sb, args)
    {
      if cs == [] {
        return true;
      }
      Emit([GroupBy], []);
      ok := BuildRefs(reg, cs);
      if ok {
        GroupSize(reg, model, cs);
      }
    }

    method BuildSelectable(reg: Registry, c: Selectable) returns (ok: bool)
      modifies this
      ensures model == old(model)
      ensures BalancedCol(c) ==> Appended(SelOut(ResolveSelectable(reg, model, c)), ok, old(sb), old(args), sb, args)
    {
      match c
      case SCol(src, name, alias) =>
        ok := BuildColumn(reg, src, name);
        if ok {
          BuildAs(alias);
        }
      case SAgg(src, fn, arg, alias) =>
        ok := BuildAggregate(reg, src, fn, arg);
        if ok {
          BuildAs(alias);
        }
      case SRaw(raw) =>
        Raw(raw);
        return true;
    }

    method BuildItem(reg: Registry, i: nat, c: Selectable) returns (ok: bool)
      modifies this
      ensures model == old(model)
      ensures BalancedCol(c) ==>
        Appended(Then(Text(Separator(i)), SelOut(ResolveSelectable(reg, model, c))), ok, old(sb), old(args), sb, args)
    {
      hide ResolveSelectable, BalancedCol, SelOut;
      if i > 0 {
        Emit([Comma], []);
      }
      ghost var s1, a1 := sb, args;
      ok := BuildSelectable(reg, c);
      if BalancedCol(c) {
        AppendedThen(Text(Separator(i)), SelOut(ResolveSelectable(reg, model, c)), ok,
                     old(sb), old(args), s1, a1, sb, args);
      }
    }

    method BuildItems(reg: Registry, cs: seq<Selectable>) returns (ok: bool)
      modifies this
      ensures model == old(model)
      ensures BalancedCols(cs) ==> Appended(ItemsOut(ResolveColumns(reg, model, cs)), ok, old(sb), old(args), sb, args)
    {
      hide ResolveColumns, ResolveSelectable, ItemsOut, BalancedCol, SelOut;
      NoItems(reg, model);
      assert cs[..0] == [];
      for i := 0 to |cs|
        invariant model == old(model)
        invariant BalancedCols(cs) ==>
          Appended(ItemsOut(ResolveColumns(reg, model, cs[..i])), true, old(sb), old(args), sb, args)
      {
        ghost var s1, a1 := sb, args;
        ok := BuildItem(reg, i, cs[i]);
        if BalancedCols(cs) {
          OutFails(None, ResolveColumns(reg, model, cs[..i]));
          ColumnsStep(reg, model, cs, i);
          AppendedThen(ItemsOut(ResolveColumns(reg, model, cs[..i])),
                       Then(Text(Separator(i)), SelOut(ResolveSelectable(reg, model, cs[i]))), ok,
                       old(sb), old(args), s1, a1, sb, args);
          if !ok {
            OutFails(None, ResolveColumns(reg, model, cs[..i + 1]));
            ColumnsPrefix(reg, model, cs, i + 1);
            OutFails(None, ResolveColumns(reg, model, cs));
          }
        }
        if !ok {
          return;
        }
      }
      assert cs[..|cs|] == cs;
      return true;
    }

    method BuildColumns(reg: Registry, cs: seq<Selectable>) returns (ok: bool)
      modifies this
      ensures model == old(model)
      ensures BalancedCols(cs) ==>
        Appended(ColumnsOut(ResolveColumns(reg, model, cs)), ok, old(sb), old(args), sb, args)
    {
      if cs == [] {
        Emit([AllCols], []);
        return true;
      }
      ok := BuildItems(reg, cs);
      if ok && BalancedCols(cs) {
        ColumnsSize(reg, model, cs);
      }
    }

    ghost predicate ReadyT(reg: Registry, t: TableRef, filled: set<CacheCell>)
      reads OwnT(reg, t), Reach(reg, SubsT(reg, t))
    {
      PlainT(reg, t) && Shares(reg, SubsT(reg, t), OwnT(reg, t), filled)
    }

    method BuildTable(reg: Registry, t: TableRef, ghost filled: set<CacheCell>) returns (ok: bool)
      modifies this, FootT(t)
      ensures old(ReadyT(reg, t, filled)) ==> model == old(model)
      ensures old(ReadyT(reg, t, filled)) ==>
        Appended(With(TableOut(ResolveTable(reg, old(model), t)), OnceT(reg, t, filled)), ok,
                 old(sb), old(args), sb, args)
      ensures old(ReadyT(reg, t, filled)) && ok ==> SubsOk(reg, SubsT(reg, t), filled + Cells(SubsT(reg, t)))
      decreases SizeT(t), 6
    {
      hide FootSel, OwnT, SubsT, PlainT, Shares, OnceT, SubsOk, Reach, With, TableOut, DerivedOut, Cells;
      TableLeaf(reg, model, t, filled);
      match t
      case NoTable =>
        Emit([Name(model.table)], []);
        NoSubs(reg, filled + Cells({}));
        return true;
      case TableOf(entity, alias) =>
        if entity !in reg {
          return false;
        }
        Emit([Name(reg[entity].table)], []);
        BuildAs(alias);
        NoSubs(reg, filled + Cells({}));
        return true;
      case SubT(s) =>
        ok := BuildDerived(reg, s, filled);
      case JoinOf(_, _, _, _, _) =>
        ok := BuildJoin(reg, t, filled);
    }

    lemma TableLeaf(reg: Registry, m: Model, t: TableRef, filled: set<CacheCell>)
      ensures t.NoTable? || t.TableOf? ==>
        SubsT(reg, t) == {} &&
        With(TableOut(ResolveTable(reg, m, t)), OnceT(reg, t, filled)) == match t
          case NoTable => Text([Name(m.table)])
          case TableOf(entity, alias) =>
            if entity in reg then Text([Name(reg[entity].table)] + PrintAlias(alias)) else Failed
      ensures t.SubT? ==>
        FootT(t) == FootSel(t.s.q) &&
        With(TableOut(ResolveTable(reg, m, t)), OnceT(reg, t, filled)) ==
        With(DerivedOut(QueryOut(ResolveSel(reg, t.s.q)), t.s.alias), OnceT(reg, t, filled))
    {
      hide FootSel, OnceSel, SubsSel, PrintQuery, ArgsQuery, ResolveSel;
    }

    // A subquery in FROM is always built; its cache cell is not used.
    method BuildFrom(reg: Registry, s: Subquery, ghost filled: set<CacheCell>)
        returns (ok: bool, ts: seq<Tok>, vs: seq<Value>)
      modifies FootSel(s.q)
      ensures old(ReadyT(reg, SubT(s), filled)) ==>
        Appended(With(QueryOut(ResolveSel(reg, s.q)), OnceT(reg, SubT(s), filled)), ok, [], [], ts, vs)
      ensures old(ReadyT(reg, SubT(s), filled)) && ok ==>
        SubsOk(reg, SubsT(reg, SubT(s)), filled + Cells(SubsT(reg, SubT(s))))
      decreases SizeSel(s.q), 10
    {
      hide FootSel, OwnSel, SubsSel, OnceSel, Shares, SubsOk, Reach, QueryOut, Cells, PlainT, ReadyBody;
      BuilderIn(s.q);
      ts, vs := [], [];
      if ReadyT(reg, SubT(s), filled) {
        FromReady(reg, s, filled);
      }
      ok := s.q.b.Build(reg, s.q, filled);
      if ok {
        DropSemi(QueryOut(ResolveSel(reg, s.q)), OnceSel(reg, s.q, filled), s.q.b.sb, s.q.b.args);
        ts, vs := s.q.b.sb[..|s.q.b.sb| - 1], s.q.b.args;
      }
    }

    lemma FromReady(reg: Registry, s: Subquery, filled: set<CacheCell>)
      requires ReadyT(reg, SubT(s), filled)
      ensures s.q.b.ReadyBody(reg, s.q, filled) && s.q.b.sb == [] && s.q.b.args == []
    {
      hide Fits, Reach;
      assert ShapeSel(reg, s.q) && BalancedSel(s.q) && LoneSel(reg, s.q);
    }

    method BuildDerived(reg: Registry, s: Subquery, ghost filled: set<CacheCell>) returns (ok: bool)
      modifies this, FootSel(s.q)
      ensures old(ReadyT(reg, SubT(s), filled)) ==> model == old(model)
      ensures old(ReadyT(reg, SubT(s), filled)) ==>
        Appended(With(DerivedOut(QueryOut(ResolveSel(reg, s.q)), s.alias), OnceT(reg, SubT(s), filled)), ok,
                 old(sb), old(args), sb, args)
      ensures old(ReadyT(reg, SubT(s), filled)) && ok ==>
        SubsOk(reg, SubsT(reg, SubT(s)), filled + Cells(SubsT(reg, SubT(s))))
      decreases SizeSel(s.q), 11
    {
      hide FootSel, FootT, OwnT, SubsT, PlainT, Shares, OnceT, SubsOk, Reach, Cells, QueryOut, DerivedOut, With;
      AllocSel(s.q);
      ghost var ready, s0, a0 := ReadyT(reg, SubT(s), filled), sb, args;
      ghost var q, x := QueryOut(ResolveSel(reg, s.q)), OnceT(reg, SubT(s), filled);
      DerivedApart(reg, s, filled);
      Emit([Open], []);
      var ts, vs;
      ok, ts, vs := BuildFrom(reg, s, filled);
      if ok {
        Emit(ts, vs);
        Emit([Close], []);
        BuildAs(s.alias);
      }
      if ready {
        DerivedText(q, x, s.alias, ok, ts, vs, s0, a0, sb, args);
      }
    }

    lemma DerivedApart(reg: Registry, s: Subquery, filled: set<CacheCell>)
      ensures FootSel(s.q) == OwnT(reg, SubT(s)) + Reach(reg, SubsT(reg, SubT(s)))
      ensures ReadyT(reg, SubT(s), filled) ==> this !in FootSel(s.q)
    {
      hide FootSel, OwnSel, SubsSel, Shares, Reach, PlainT;
      AreaSel(reg, s.q);
      if ReadyT(reg, SubT(s), filled) {
        NotMine(reg, SubsT(reg, SubT(s)), OwnT(reg, SubT(s)), filled);
      }
    }

    lemma TableApart(reg: Registry, t: TableRef, filled: set<CacheCell>)
      ensures FootT(t) == OwnT(reg, t) + Reach(reg, SubsT(reg, t))
      ensures ReadyT(reg, t, filled) ==> this !in FootT(t)
    {
      hide Reach, Shares, PlainT;
      AreaT(reg, t);
      if ReadyT(reg, t, filled) {
        NotMine(reg, SubsT(reg, t), OwnT(reg, t), filled);
      }
    }

    method BuildJoin(reg: Registry, t: TableRef, ghost filled: set<CacheCell>) returns (ok: bool)
      requires t.JoinOf?
      modifies this, FootT(t)
      ensures old(ReadyT(reg, t, filled)) ==> model == old(model)
      ensures old(ReadyT(reg, t, filled)) ==>
        Appended(With(TableOut(ResolveTable(reg, old(model), t)), OnceT(reg, t, filled)), ok,
                 old(sb), old(args), sb, args)
      ensures old(ReadyT(reg, t, filled)) && ok ==> SubsOk(reg, SubsT(reg, t), filled + Cells(SubsT(reg, t)))
      decreases SizeT(t), 5
    {
      hide FootT, FootEs, OwnT, OwnEs, SubsT, SubsEs, PlainT, PlainEs, Shares, OnceT, OnceEs, SubsOk, Reach;
      hide Others, Cells;
      hide Apart, Fits, Inside, Whole, With, Then, TableOut, RightOut, ResolveTable;
      AllocT(t);
      ghost var m, s0, a0, ready := model, sb, args, ReadyT(reg, t, filled);
      ghost var mid := filled + Cells(SubsT(reg, t.l));
      ghost var x, y := OnceT(reg, t.l, filled), OnceRight(reg, t, mid);
      ghost var l, rest := TableOut(ResolveTable(reg, m, t.l)), RightOut(reg, m, t);
      JoinParts(reg, t, filled);
      JoinOutput(reg, m, t);
      TableApart(reg, t, filled);
      if ready {
        JoinReady(reg, t, filled);
      }
      Emit([Open], []);
      ghost var s1 := sb;
      ok := BuildTable(reg, t.l, filled);
      if !ok {
        if ready {
          FirstFails(l, x, rest, x + y, s1, a0, sb, args);
          AppendedAfter([Open], Then(l, rest), x + y, false, s0, a0, s1, sb, args);
        }
        return;
      }
      ghost var s2, a2 := sb, args;
      if ready {
        Between(reg, SubsT(reg, t.l), SubsRight(reg, t), OwnRight(reg, t), filled, SizeT(t.l));
      }
      ok := BuildRight(reg, t, mid);
      if ready {
        AppendedWith(l, x, rest, y, ok, s1, a0, s2, a2, sb, args);
        AppendedAfter([Open], Then(l, rest), x + y, ok, s0, a0, s1, sb, args);
        if ok {
          BothOk(reg, SubsT(reg, t.l), SubsRight(reg, t), filled, SizeT(t.l), SizeT(t));
        }
      }
    }

    lemma JoinParts(reg: Registry, t: TableRef, filled: set<CacheCell>)
      requires t.JoinOf?
      ensures FootT(t) == FootT(t.l) + FootRight(t)
      ensures SubsT(reg, t) == SubsT(reg, t.l) + SubsRight(reg, t) && OwnT(reg, t) == OwnT(reg, t.l) + OwnRight(reg, t)
      ensures FootT(t.l) == OwnT(reg, t.l) + Reach(reg, SubsT(reg, t.l))
      ensures FootRight(t) == OwnRight(reg, t) + Reach(reg, SubsRight(reg, t))
      ensures OnceT(reg, t, filled) == OnceT(reg, t.l, filled) + OnceRight(reg, t, filled + Cells(SubsT(reg, t.l)))
      ensures Whole(reg, SubsT(reg, t.l), SizeT(t.l)) && Whole(reg, SubsRight(reg, t), SizeT(t))
    {
      hide FootEs, OwnEs, SubsEs, OnceEs, Reach, Cells, FootSel, OwnSel, SubsSel, OnceSel;
      AreaT(reg, t.l);
      RightParts(reg, t, filled);
      ReachUnion(reg, SubsT(reg, t.r), SubsEs(reg, t.on));
      WholeT(reg, t.l);
      WholeT(reg, t);
      WholeJoin(reg, SubsT(reg, t.r), SizeT(t.r), SubsEs(reg, t.on), SizeEs(t.on), SizeT(t));
    }

    lemma JoinReady(reg: Registry, t: TableRef, filled: set<CacheCell>)
      requires t.JoinOf? && ReadyT(reg, t, filled)
      ensures ReadyT(reg, t.l, filled) && PlainRight(reg, t)
      ensures Splits(reg, SubsT(reg, t.l), OwnT(reg, t.l), SubsRight(reg, t), OwnRight(reg, t), filled)
    {
      hide Reach, FootEs, SubsEs, OwnEs, ShapeEs, LoneEs, BalancedEs, FootSel, SubsSel, OwnSel, Others, Apart;
      hide Fits, Inside, SubsOk;
      Parts(reg, SubsT(reg, t.l), OwnT(reg, t.l), SubsRight(reg, t), OwnRight(reg, t), filled);
    }

    ghost predicate ReadyRight(reg: Registry, t: TableRef, filled: set<CacheCell>)
      requires t.JoinOf?
      reads OwnRight(reg, t), Reach(reg, SubsRight(reg, t))
    {
      PlainRight(reg, t) && Shares(reg, SubsRight(reg, t), OwnRight(reg, t), filled)
    }

    // The kind of join, its right table and what follows.
    method BuildRight(reg: Registry, t: TableRef, ghost filled: set<CacheCell>) returns (ok: bool)
      requires t.JoinOf?
      modifies this, FootRight(t)
      ensures old(ReadyRight(reg, t, filled)) ==> model == old(model)
      ensures old(ReadyRight(reg, t, filled)) ==>
        Appended(With(RightOut(reg, old(model), t), OnceRight(reg, t, filled)), ok, old(sb), old(args), sb, args)
      ensures old(ReadyRight(reg, t, filled)) && ok ==>
        SubsOk(reg, SubsRight(reg, t), filled + Cells(SubsRight(reg, t)))
      decreases SizeT(t), 4
    {
      hide FootT, FootEs, OwnT, OwnEs, SubsT, SubsEs, PlainT, PlainEs, Shares, OnceT, OnceEs, SubsOk, Reach;
      hide Others, Cells;
      hide Apart, Fits, Inside, Whole, With, TableOut, CondOut, ResolveTable;
      AllocT(t.r);
      AllocEs(t.on);
      ghost var m, s0, a0, ready := model, sb, args, ReadyRight(reg, t, filled);
      ghost var mid := filled + Cells(SubsT(reg, t.r));
      ghost var x, y := OnceT(reg, t.r, filled), OnceEs(reg, t.on, mid);
      ghost var r, c := TableOut(ResolveTable(reg, m, t.r)), CondOut(reg, m, t);
      RightParts(reg, t, filled);
      if ready {
        RightReady(reg, t, filled);
      }
      Emit([JoinKw(t.typ)], []);
      ghost var s1 := sb;
      ok := BuildTable(reg, t.r, filled);
      if !ok {
        if ready {
          FirstFails(r, x, c, x + y, s1, a0, sb, args);
          AppendedAfter([JoinKw(t.typ)], Then(r, c), x + y, false, s0, a0, s1, sb, args);
        }
        return;
      }
      ghost var s2, a2 := sb, args;
      if ready {
        Between(reg, SubsT(reg, t.r), SubsEs(reg, t.on), OwnEs(reg, t.on), filled, SizeT(t.r));
      }
      ok := BuildJoinCond(reg, t, mid);
      if ready {
        AppendedWith(r, x, c, y, ok, s1, a0, s2, a2, sb, args);
        AppendedAfter([JoinKw(t.typ)], Then(r, c), x + y, ok, s0, a0, s1, sb, args);
        if ok {
          BothOk(reg, SubsT(reg, t.r), SubsEs(reg, t.on), filled, SizeT(t.r), SizeEs(t.on));
        }
      }
    }

    lemma RightReady(reg: Registry, t: TableRef, filled: set<CacheCell>)
      requires t.JoinOf? && ReadyRight(reg, t, filled)
      ensures ReadyT(reg, t.r, filled) && PlainEs(reg, t.on) && this !in FootRight(t)
      ensures Splits(reg, SubsT(reg, t.r), OwnT(reg, t.r), SubsEs(reg, t.on), OwnEs(reg, t.on), filled)
    {
      hide Reach, FootEs, SubsEs, OwnEs, PlainEs, FootT, SubsT, OwnT, PlainT, Others, Apart, Fits, Inside, SubsOk;
      Parts(reg, SubsT(reg, t.r), OwnT(reg, t.r), SubsEs(reg, t.on), OwnEs(reg, t.on), filled);
      AreaT(reg, t.r);
      AreaEs(reg, t.on);
    }

    // USING, ON and the closing parenthesis.
    method BuildJoinCond(reg: Registry, t: TableRef, ghost filled: set<CacheCell>) returns (ok: bool)
      requires t.JoinOf?
      modifies this, FootEs(t.on)
      ensures old(ReadyEs(reg, t.on, filled)) ==> model == old(model)
      ensures old(ReadyEs(reg, t.on, filled)) ==>
        Appended(With(CondOut(reg, old(model), t), OnceEs(reg, t.on, filled)), ok, old(sb), old(args), sb, args)
      ensures old(ReadyEs(reg, t.on, filled)) && ok ==>
        SubsOk(reg, SubsEs(reg, t.on), filled + Cells(SubsEs(reg, t.on)))
      decreases SizeT(t), 3
    {
      hide FootEs, OwnEs, SubsEs, PlainEs, Shares, OnceEs, SubsOk, Reach, PrintUsing, ClauseOut, ResolveClause;
      hide ResolveGroup, Cells;
      AllocEs(t.on);
      ghost var m, s0, a0, ready, x := model, sb, args, ReadyEs(reg, t.on, filled), OnceEs(reg, t.on, filled);
      ghost var us := UsingOut(ResolveGroup(reg, m, UsingCols(t.using)));
      ghost var on := ClauseOut(On, ResolveClause(reg, m, t.on));
      ClauseApart(reg, t.on, filled);
      ok := BuildUsing(reg, t.using);
      if !ok {
        return;
      }
      ghost var s1, a1 := sb, args;
      ok := BuildClause(reg, On, t.on, filled);
      ghost var s2, a2 := sb, args;
      if ok {
        Emit([Close], []);
        if ready {
          AppendedBefore(on, x, [Close], s1, a1, s2, a2, sb);
        }
      }
      if ready {
        if !ok {
          FirstFails(on, x, Text([Close]), x, s1, a1, sb, args);
        }
        AppendedText(us, Then(on, Text([Close])), x, ok, s0, a0, s1, a1, sb, args);
      }
    }

    lemma ClauseApart(reg: Registry, ps: seq<Expression>, filled: set<CacheCell>)
      ensures FootEs(ps) == OwnEs(reg, ps) + Reach(reg, SubsEs(reg, ps))
      ensures ReadyEs(reg, ps, filled) ==> this !in FootEs(ps)
    {
      hide Reach, Shares, PlainEs;
      AreaEs(reg, ps);
      if ReadyEs(reg, ps, filled) {
        NotMine(reg, SubsEs(reg, ps), OwnEs(reg, ps), filled);
      }
    }

    method BuildNumber(kw: Tok, n: int)
      modifies this
      ensures model == old(model)
      ensures sb == old(sb) + PrintNumber(kw, Positive(n)) && args == old(args) + ArgsNumber(Positive(n))
    {
      if n > 0 {
        Emit([kw, Mark], [n]);
      }
    }

    // GROUP BY, HAVING, LIMIT and OFFSET.
    method BuildEnd(reg: Registry, q: Selector, ghost filled: set<CacheCell>) returns (ok: bool)
      modifies this, FootEs(q.having)
      ensures old(ReadyEs(reg, q.having, filled)) ==>
        Appended(With(EndOut(reg, old(model), q), OnceEs(reg, q.having, filled) + NumberArgs(q)), ok,
                 old(sb), old(args), sb, args)
      ensures old(ReadyEs(reg, q.having, filled)) && ok ==>
        SubsOk(reg, SubsEs(reg, q.having), filled + Cells(SubsEs(reg, q.having)))
      decreases SizeSel(q), 5
    {
      hide FootEs, OwnEs, SubsEs, PlainEs, Shares, OnceEs, SubsOk, Reach, PrintGroup, PrintNumber, ArgsNumber, Cells;
      hide ClauseOut, ResolveClause, ResolveGroup;
      AllocEs(q.having);
      ghost var m, s0, a0, ready, x := model, sb, args, ReadyEs(reg, q.having, filled), OnceEs(reg, q.having, filled);
      ghost var g, h := ByOut(ResolveGroup(reg, m, q.groupBy)), ClauseOut(Having, ResolveClause(reg, m, q.having));
      ClauseApart(reg, q.having, filled);
      ok := BuildGroupBy(reg, q.groupBy);
      if !ok {
        return;
      }
      ghost var s1, a1 := sb, args;
      ok := BuildClause(reg, Having, q.having, filled);
      if !ok {
        if ready {
          FirstFails(h, x, NumbersOut(q), x + NumberArgs(q), s1, a1, sb, args);
          AppendedText(g, Then(h, NumbersOut(q)), x + NumberArgs(q), false, s0, a0, s1, a1, sb, args);
        }
        return;
      }
      ghost var s2, a2 := sb, args;
      BuildNumber(Limit, q.limit);
      BuildNumber(Offset, q.offset);
      if ready {
        assert Appended(With(NumbersOut(q), NumberArgs(q)), true, s2, a2, sb, args);
        AppendedWith(h, x, NumbersOut(q), NumberArgs(q), true, s1, a1, s2, a2, sb, args);
        AppendedText(g, Then(h, NumbersOut(q)), x + NumberArgs(q), true, s0, a0, s1, a1, sb, args);
      }
    }

    ghost predicate ReadyTail(reg: Registry, q: Selector, filled: set<CacheCell>)
      reads OwnTail(reg, q), Reach(reg, SubsTail(reg, q))
    {
      PlainTail(reg, q) && Shares(reg, SubsTail(reg, q), OwnTail(reg, q), filled)
    }

    method BuildTail(reg: Registry, q: Selector, ghost filled: set<CacheCell>) returns (ok: bool)
      modifies this, FootTail(q)
      ensures old(ReadyTail(reg, q, filled)) ==>
        Appended(With(TailOut(reg, old(model), q), OnceTail(reg, q, filled)), ok, old(sb), old(args), sb, args)
      ensures old(ReadyTail(reg, q, filled)) && ok ==> SubsOk(reg, SubsTail(reg, q), filled + Cells(SubsTail(reg, q)))
      decreases SizeSel(q), 6
    {
      hide FootEs, OwnEs, SubsEs, PlainEs, Shares, OnceEs, SubsOk, Reach, Others, Cells, Apart, Fits, Inside;
      hide Whole, With;
      hide ClauseOut, ResolveClause, EndOut, OnceTail;
      AllocEs(q.where);
      AllocEs(q.having);
      ghost var m, s0, a0, ready := model, sb, args, ReadyTail(reg, q, filled);
      ghost var mid := filled + Cells(SubsEs(reg, q.where));
      ghost var x, y := OnceEs(reg, q.where, filled), OnceEs(reg, q.having, mid) + NumberArgs(q);
      ghost var w, e := ClauseOut(Where, ResolveClause(reg, m, q.where)), EndOut(reg, m, q);
      TailParts(reg, q, filled);
      if ready {
        TailReady(reg, q, filled);
      }
      ok := BuildClause(reg, Where, q.where, filled);
      if !ok {
        if ready {
          FirstFails(w, x, e, x + y, s0, a0, sb, args);
        }
        return;
      }
      ghost var s1, a1 := sb, args;
      if ready {
        Between(reg, SubsEs(reg, q.where), SubsEs(reg, q.having), OwnEs(reg, q.having), filled, SizeEs(q.where));
      }
      ok := BuildEnd(reg, q, mid);
      if ready {
        AppendedWith(w, x, e, y, ok, s0, a0, s1, a1, sb, args);
        if ok {
          BothOk(reg, SubsEs(reg, q.where), SubsEs(reg, q.having), filled, SizeEs(q.where), SizeEs(q.having));
        }
      }
    }

    lemma TailReady(reg: Registry, q: Selector, filled: set<CacheCell>)
      requires ReadyTail(reg, q, filled)
      ensures ReadyEs(reg, q.where, filled) && PlainEs(reg, q.having)
      ensures Splits(reg, SubsEs(reg, q.where), OwnEs(reg, q.where), SubsEs(reg, q.having), OwnEs(reg, q.having),
                     filled)
    {
      hide Reach, FootEs, SubsEs, OwnEs, PlainEs, Others, Apart, Fits, Inside, SubsOk;
      Parts(reg, SubsEs(reg, q.where), OwnEs(reg, q.where), SubsEs(reg, q.having), OwnEs(reg, q.having), filled);
    }

    ghost predicate ReadyParts(reg: Registry, q: Selector, filled: set<CacheCell>)
      reads OwnParts(reg, q), Reach(reg, SubsSel(reg, q))
    {
      PlainParts(reg, q) && Shares(reg, SubsSel(reg, q), OwnParts(reg, q), filled)
    }

    // FROM and everything after it.
    method BuildFromOn(reg: Registry, q: Selector, ghost filled: set<CacheCell>) returns (ok: bool)
      modifies this, FootParts(q)
      ensures old(ReadyParts(reg, q, filled)) ==>
        Appended(With(FromOut(reg, old(model), q), OnceParts(reg, q, filled)), ok, old(sb), old(args), sb, args)
      ensures old(ReadyParts(reg, q, filled)) && ok ==> SubsOk(reg, SubsSel(reg, q), filled + Cells(SubsSel(reg, q)))
      decreases SizeSel(q), 7
    {
      hide FootT, OwnT, SubsT, PlainT, OnceT, FootTail, OwnTail, SubsTail, PlainTail, OnceTail, OnceParts;
      hide SubsSel, Shares, SubsOk;
      hide Reach, Others, Cells, Apart, Fits, Inside, Whole, With, TableOut, ResolveTable, TailOut;
      AllocParts(q);
      ghost var m, s0, a0, ready := model, sb, args, ReadyParts(reg, q, filled);
      ghost var mid := filled + Cells(SubsT(reg, q.table));
      ghost var x, y := OnceT(reg, q.table, filled), OnceTail(reg, q, mid);
      ghost var t, end := TableOut(ResolveTable(reg, m, q.table)), TailOut(reg, m, q);
      FromParts(reg, q, filled);
      if ready {
        PartsReady(reg, q, filled);
      }
      Emit([From], []);
      ghost var s1 := sb;
      ok := BuildTable(reg, q.table, filled);
      if !ok {
        if ready {
          FirstFails(t, x, end, x + y, s1, a0, sb, args);
          AppendedAfter([From], Then(t, end), x + y, false, s0, a0, s1, sb, args);
        }
        return;
      }
      ghost var s2, a2 := sb, args;
      if ready {
        Between(reg, SubsT(reg, q.table), SubsTail(reg, q), OwnTail(reg, q), filled, SizeT(q.table));
      }
      ok := BuildTail(reg, q, mid);
      if ready {
        AppendedWith(t, x, end, y, ok, s1, a0, s2, a2, sb, args);
        AppendedAfter([From], Then(t, end), x + y, ok, s0, a0, s1, sb, args);
        if ok {
          BothOk(reg, SubsT(reg, q.table), SubsTail(reg, q), filled, SizeT(q.table), SizeSel(q));
        }
      }
    }

    lemma PartsReady(reg: Registry, q: Selector, filled: set<CacheCell>)
      requires ReadyParts(reg, q, filled)
      ensures ReadyT(reg, q.table, filled) && PlainTail(reg, q) && this !in FootParts(q)
      ensures Splits(reg, SubsT(reg, q.table), OwnT(reg, q.table), SubsTail(reg, q), OwnTail(reg, q), filled)
    {
      hide Reach, FootT, SubsT, OwnT, PlainT, SubsEs, OwnEs, FootTail, SubsSel, SubsTail, OwnTail, PlainTail;
      hide Others, Apart, Fits, Inside, SubsOk;
      FromParts(reg, q, filled);
      Parts(reg, SubsT(reg, q.table), OwnT(reg, q.table), SubsTail(reg, q), OwnTail(reg, q), filled);
    }

    // Everything but the builder itself is ready.
    ghost predicate ReadyBody(reg: Registry, q: Selector, filled: set<CacheCell>)
      reads OwnParts(reg, q), Reach(reg, SubsSel(reg, q))
    {
      && q.b == this && ShapeSel(reg, q) && BalancedSel(q) && LoneParts(reg, q)
      && SubsOk(reg, SubsSel(reg, q), filled) && Inside(reg, SubsSel(reg, q), filled)
    }

    lemma BodyParts(reg: Registry, q: Selector, filled: set<CacheCell>)
      requires ReadyBody(reg, q, filled)
      ensures ReadyParts(reg, q, filled) && BalancedCols(q.columns)
      ensures FootSel(q) == {this as object} + FootParts(q) && this !in FootParts(q)
      ensures FootParts(q) == OwnParts(reg, q) + Reach(reg, SubsSel(reg, q))
    {
      hide FootT, FootTail, SubsT, SubsTail, OwnT, OwnTail, SubsSel, PlainParts, LoneParts;
      hide Fits, Reach, SubsOk, Inside, BalancedCols, ReadyBody;
      BodyPlain(reg, q, filled);
      NotMine(reg, SubsSel(reg, q), OwnParts(reg, q), filled);
      PartsArea(reg, q);
    }

    lemma BodyPlain(reg: Registry, q: Selector, filled: set<CacheCell>)
      requires ReadyBody(reg, q, filled)
      ensures q.b == this && BalancedCols(q.columns)
      ensures PlainParts(reg, q) && Shares(reg, SubsSel(reg, q), OwnParts(reg, q), filled)
    {
      hide SubsT, SubsEs, OwnT, OwnEs, ShapeT, ShapeEs, BalancedT, BalancedEs, LoneT, LoneEs, SubsSel;
      hide Fits, Reach, SubsOk, Inside, BalancedCols;
      assert ShapeSel(reg, q) && BalancedParts(q) && OwnSel(reg, q) == OwnParts(reg, q) + {this};
    }

    method BuildBody(reg: Registry, q: Selector, ghost filled: set<CacheCell>) returns (ok: bool)
      requires q.b == this && q.entity in reg && model == reg[q.entity]
      modifies FootSel(q)
      ensures old(ReadyBody(reg, q, filled)) ==>
        Appended(With(QueryOut(ResolveSel(reg, q)), OnceSel(reg, q, filled)), ok, old(sb), old(args), sb, args)
      ensures old(ReadyBody(reg, q, filled)) && ok ==> SubsOk(reg, SubsSel(reg, q), filled + Cells(SubsSel(reg, q)))
      decreases SizeSel(q), 8
    {
      hide FootSel, FootParts, OwnParts, SubsSel, OnceSel, OnceParts, Reach, SubsOk, Cells, PlainParts, Shares;
      hide ReadyBody, BalancedCols;
      hide QueryOut, ResolveSel, ColumnsOut, ResolveColumns, FromOut, RawArgs;
      FootBody(q);
      AllocParts(q);
      ghost var m, s0, a0, ready := model, sb, args, ReadyBody(reg, q, filled);
      ghost var cs, from := ColumnsOut(ResolveColumns(reg, m, q.columns)), FromOut(reg, m, q);
      ghost var x, y := RawArgs(q.columns), OnceParts(reg, q, filled);
      QueryOutput(reg, q);
      OnceBody(reg, q, filled);
      if ready {
        BodyParts(reg, q, filled);
        ColumnsArgs(reg, m, q.columns);
      }
      Emit([Select], []);
      ghost var s1 := sb;
      ok := BuildColumns(reg, q.columns);
      if !ok {
        if ready {
          FirstFails(cs, x, from, x + y, s1, a0, sb, args);
          AppendedAfter([Select], Then(cs, from), x + y, false, s0, a0, s1, sb, args);
        }
        return;
      }
      ghost var s2, a2 := sb, args;
      ok := BuildFromOn(reg, q, filled);
      if ready {
        AppendedWith(cs, x, from, y, ok, s1, a0, s2, a2, sb, args);
        AppendedAfter([Select], Then(cs, from), x + y, ok, s0, a0, s1, sb, args);
      }
    }

    // Neither the buffer nor the arguments are reset before a build.
    method Build(reg: Registry, q: Selector, ghost filled: set<CacheCell>) returns (ok: bool)
      requires q.b == this
      modifies FootSel(q)
      ensures old(ReadyBody(reg, q, filled)) ==>
        Appended(With(Then(QueryOut(ResolveSel(reg, q)), Text([Semi])), OnceSel(reg, q, filled)), ok,
                 old(sb), old(args), sb, args)
      ensures old(ReadyBody(reg, q, filled)) && ok ==> SubsOk(reg, SubsSel(reg, q), filled + Cells(SubsSel(reg, q)))
      ensures ok ==> sb != [] && sb[|sb| - 1] == Semi
      ensures filled == {} && old(TidySel(q) && BalancedSel(q) && UntouchedSel(q)) ==>
        Appended(Then(QueryOut(ResolveSel(reg, q)), Text([Semi])), ok, [], [], sb, args)
      decreases SizeSel(q), 9
    {
      hide FootSel, FootParts, OwnParts, SubsSel, OnceSel, Reach, SubsOk, Cells, ReadyBody, QueryOut, TidySel;
      hide BalancedSel, UntouchedSel;
      if filled == {} && TidySel(q) && BalancedSel(q) && UntouchedSel(q) {
        FreshBody(reg, q);
      }
      FootBody(q);
      AllocParts(q);
      if q.entity !in reg {
        UnknownEntity(reg, q, OnceSel(reg, q, filled));
        return false;
      }
      ghost var ready, s0, a0 := ReadyBody(reg, q, filled), sb, args;
      ghost var o, x := QueryOut(ResolveSel(reg, q)), OnceSel(reg, q, filled);
      if ready {
        BodyApart(reg, q, filled);
      }
      model := reg[q.entity];
      ok := BuildBody(reg, q, filled);
      if ok {
        ghost var s1, a1 := sb, args;
        Emit([Semi], []);
        if ready {
          AppendedBefore(o, x, [Semi], s0, a0, s1, a1, sb);
        }
      } else if ready {
        FirstFails(o, x, Text([Semi]), x, s0, a0, sb, args);
      }
    }

    lemma BodyApart(reg: Registry, q: Selector, filled: set<CacheCell>)
      requires ReadyBody(reg, q, filled)
      ensures this !in OwnParts(reg, q) + Reach(reg, SubsSel(reg, q))
      ensures FootParts(q) == OwnParts(reg, q) + Reach(reg, SubsSel(reg, q))
    {
      hide ReadyBody, Reach, OwnParts, SubsSel, ReadyParts, FootParts, FootSel;
      BodyParts(reg, q, filled);
    }

    // Since nothing is reset, building a selector a second time returns its text
    // twice over, the second copy without the arguments of its subqueries.
    method BuildAgain(reg: Registry, q: Selector, ghost filled: set<CacheCell>) returns (ok: bool)
      requires ReadyBody(reg, q, filled) && OwnParts(reg, q) == {}
      modifies FootSel(q)
      ensures ok <==> ResolveSel(reg, q).Some?
      ensures ok ==> var text := PrintQuery(ResolveSel(reg, q).value) + [Semi];
        && sb == old(sb) + text + text
        && args == old(args) + OnceSel(reg, q, filled) + OnceSel(reg, q, filled + Cells(SubsSel(reg, q)))
    {
      hide FootSel, FootParts, OwnParts, SubsSel, OnceSel, Reach, SubsOk, Cells, ResolveSel, PrintQuery, ArgsQuery;
      hide ShapeSel, BalancedSel, LoneParts, Inside;
      ok := Build(reg, q, filled);
      if ok {
        AgainReady(reg, q, filled);
        ok := Build(reg, q, filled + Cells(SubsSel(reg, q)));
      }
    }

    lemma AgainReady(reg: Registry, q: Selector, filled: set<CacheCell>)
      requires q.b == this && ShapeSel(reg, q) && BalancedSel(q) && LoneParts(reg, q)
      requires SubsOk(reg, SubsSel(reg, q), filled + Cells(SubsSel(reg, q)))
      ensures ReadyBody(reg, q, filled + Cells(SubsSel(reg, q)))
    {
      hide SubsOk, SubsSel, ShapeSel, BalancedSel, LoneParts;
      WholeSel(reg, q);
    }

    lemma SubAgain(reg: Registry, s: Subquery)
      requires Resolves(reg, s) && ShapeE(reg, Sub(s)) && BalancedE(Sub(s))
      requires Fits(reg, SubsE(reg, Sub(s)), OwnE(reg, Sub(s)) + {this})
      requires SubsOk(reg, SubsE(reg, Sub(s)), {} + Cells(SubsE(reg, Sub(s))))
      ensures ReadyE(reg, Sub(s), Cells(SubsE(reg, Sub(s)))) && OnceE(reg, Sub(s), Cells(SubsE(reg, Sub(s)))) == []
    {
      hide SubOk, SubsSel, ShapeSub, BalancedE, Fits, OnceSel, ResolveSel;
      var subs := SubsE(reg, Sub(s));
      assert s in subs && {} + Cells(subs) == Cells(subs);
      WholeE(reg, Sub(s));
    }

    // Writing one subquery twice loses the arguments of the second copy, so
    // placeholders and arguments still agree exactly when it has none.
    method BuildTwice(reg: Registry, s: Subquery) returns (ok: bool)
      requires FreshE(Sub(s)) && Marks(sb) == |args|
      modifies this, s.cell, FootSel(s.q)
      ensures ok <==> ResolveSel(reg, s.q).Some?
      ensures ok ==> var text, vs := SubOut(ResolveSel(reg, s.q)).text, ArgsQuery(ResolveSel(reg, s.q).value);
        && sb == old(sb) + text + text && args == old(args) + vs
        && Marks(sb) == |args| + |vs|
    {
      hide FootE, FootSel, OwnE, SubsE, ShapeE, BalancedE, LoneE, Fits, Inside, OnceE, SubsOk, Reach, Cells, FreshE;
      hide PrintQuery, ArgsQuery, ResolveSel, Marks;
      AllocSel(s.q);
      ghost var s0 := sb;
      FreshSub(reg, s);
      ok := BuildSubQuery(reg, s, {});
      if ok {
        ghost var q := ResolveSel(reg, s.q).value;
        SubText(q);
        SubAgain(reg, s);
        ok := BuildSubQuery(reg, s, Cells(SubsE(reg, Sub(s))));
        MarksAppend(s0, SubOut(Some(q)).text);
        MarksAppend(s0 + SubOut(Some(q)).text, SubOut(Some(q)).text);
      }
    }

    // ---------- single use ----------

    // Nothing in the tree is shared and nothing has been built.
    ghost predicate FreshE(e: Expression)
      reads FootE(e)
    {
      this !in FootE(e) && TidyE(e) && BalancedE(e) && UntouchedE(e)
    }

    ghost predicate FreshT(t: TableRef)
      reads FootT(t)
    {
      this !in FootT(t) && TidyT(t) && BalancedT(t) && UntouchedT(t)
    }

    ghost predicate FreshEs(ps: seq<Expression>)
      reads FootEs(ps)
    {
      this !in FootEs(ps) && TidyEs(ps) && BalancedEs(ps) && UntouchedEs(ps)
    }

    lemma FreshShares(reg: Registry, subs: set<Subquery>, own: set<object>)
      requires this !in own + Reach(reg, subs) && Fits(reg, subs, own) && SubsOk(reg, subs, {})
      ensures Shares(reg, subs, own, {})
    {
      hide OwnSel, SubsSel, SubOk;
      forall s <- subs ensures this !in Around(reg, s) {
        assert forall o <- Around(reg, s) :: o in Reach(reg, subs);
      }
    }

    // On such a tree the law is the single-use law: the text and the arguments
    // of the resolved tree.
    lemma FreshReady(reg: Registry, m: Model, e: Expression)
      requires FreshE(e)
      ensures ReadyE(reg, e, {})
      ensures With(TopOut(reg, m, e), OnceE(reg, e, {})) == TopOut(reg, m, e)
    {
      hide FootE, OwnE, SubsE, OnceE, TidyE, ShapeE, BalancedE, LoneE, UntouchedE, Reach, Fits, SubsOk, Shares;
      hide ResolvePred, PrintPred, ArgsPred, PrintExpr, ArgsExpr, Cells;
      AreaE(reg, e);
      TidyShapeE(reg, e);
      UntouchedOkE(reg, e);
      FreshShares(reg, SubsE(reg, e), OwnE(reg, e));
      if e.Bin? && ResolvePred(reg, m, e).Some? {
        TidyOncePred(reg, m, e, {});
      } else if !e.Bin? && ResolveExpr(reg, m, e).Some? {
        TidyOnceE(reg, m, e, {});
      }
    }

    lemma FreshClause(reg: Registry, m: Model, kw: Tok, ps: seq<Expression>)
      requires FreshEs(ps)
      ensures ReadyEs(reg, ps, {})
      ensures var o := ClauseOut(kw, ResolveClause(reg, m, ps)); With(o, OnceEs(reg, ps, {})) == o
    {
      hide FootEs, OwnEs, SubsEs, OnceEs, TidyEs, ShapeEs, BalancedEs, LoneEs, UntouchedEs, Reach, Fits, SubsOk, Shares;
      hide ResolveClause, PrintClause, ArgsClause, Cells;
      AreaEs(reg, ps);
      TidyShapeEs(reg, ps);
      UntouchedOkEs(reg, ps);
      FreshShares(reg, SubsEs(reg, ps), OwnEs(reg, ps));
      if ResolveClause(reg, m, ps).Good? {
        TidyOnceEs(reg, m, ps, {});
      }
    }

    lemma FreshTable(reg: Registry, m: Model, t: TableRef)
      requires FreshT(t)
      ensures ReadyT(reg, t, {})
      ensures With(TableOut(ResolveTable(reg, m, t)), OnceT(reg, t, {})) == TableOut(ResolveTable(reg, m, t))
    {
      hide FootT, OwnT, SubsT, OnceT, TidyT, ShapeT, BalancedT, LoneT, UntouchedT, Reach, Fits, SubsOk, Shares;
      hide ResolveTable, PrintTable, ArgsTable, Cells;
      AreaT(reg, t);
      TidyShapeT(reg, t);
      UntouchedOkT(reg, t);
      FreshShares(reg, SubsT(reg, t), OwnT(reg, t));
      if ResolveTable(reg, m, t).Some? {
        TidyOnceT(reg, m, t, {});
      }
    }

    lemma FreshBody(reg: Registry, q: Selector)
      requires q.b == this && TidySel(q) && BalancedSel(q) && UntouchedSel(q)
      ensures ReadyBody(reg, q, {}) && sb == [] && args == []
      ensures With(QueryOut(ResolveSel(reg, q)), OnceSel(reg, q, {})) == QueryOut(ResolveSel(reg, q))
    {
      hide OnceSel, TidySel, ShapeSel, BalancedSel, UntouchedSel, Reach, Fits, SubsOk, ResolveSel, PrintQuery;
      hide ArgsQuery, Cells;
      hide SubsSel, LoneT, LoneEs;
      TidyShapeSel(reg, q);
      UntouchedOkSel(reg, q);
      if ResolveSel(reg, q).Some? {
        TidyOnceSel(reg, q, {});
      }
    }

    lemma FreshSub(reg: Registry, s: Subquery)
      requires FreshE(Sub(s))
      ensures ReadyE(reg, Sub(s), {})
      ensures With(SubOut(ResolveSel(reg, s.q)), OnceE(reg, Sub(s), {})) == SubOut(ResolveSel(reg, s.q))
    {
      hide FreshE, ReadyE, OnceE, PrintQuery, ArgsQuery;
      FreshReady(reg, Model("", [], map[], map[]), Sub(s));
      if ResolveSel(reg, s.q).Some? {
        SubText(ResolveSel(reg, s.q).value);
      }
    }
  }
}
