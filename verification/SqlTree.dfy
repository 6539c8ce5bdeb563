// The SQL the builder writes, as tokens, and the resolved statement trees it
// is the text of. White space is not a token.
module SqlTree {
  import opened Wrappers

  type Value = int

  datatype Op = EQ | LT | GT | IN | EXIST | AND | OR | NOT | ADD | MULTI

  datatype Tok =
    | Select | From | Where | GroupBy | Having | Limit | Offset | As | Using | On
    | JoinKw(typ: string) | OpTok(op: Op) | PredTok(pred: string) | FnTok(fn: string)
    | Open | Close | Comma | Dot | AllCols | Semi
    | Name(name: string)               // a quoted identifier
    | Mark                             // a placeholder
    | RawText(text: string, marks: nat) // user text with its own placeholders
    | Update | SetKw | Assign | Insert | Values | Upsert(text: string)

  // A column with the alias of the table it is taken from, if any.
  datatype Ref = Ref(alias: string, col: string)

  datatype RawSql = RawSql(text: string, args: seq<Value>)

  datatype Expr =
    | ColE(ref: Ref)
    | AggE(fn: string, ref: Ref)
    | ValE(v: Value)
    | RawE(raw: RawSql)
    | SubE(q: Query)
    | PredE(pred: string, sub: Option<Query>)
    | Nested(p: Pred)

  // A Predicate, MathExpr or binaryExpr.
  datatype Pred = Only(l: Expr) | Unary(op: Op, r: Expr) | Binary(l: Expr, op: Op, r: Expr)

  datatype Sel = SelCol(ref: Ref, alias: string) | SelAgg(fn: string, ref: Ref, alias: string) | SelRaw(raw: RawSql)

  datatype Table =
    | Named(name: string, alias: string)
    | Derived(q: Query, alias: string)
    | Join(l: Table, typ: string, r: Table, using: seq<Ref>, on: Option<Pred>)

  datatype Query = Query(cols: seq<Sel>, table: Table, cond: Option<Pred>, group: seq<Ref>,
                         having: Option<Pred>, limit: Option<Value>, offset: Option<Value>)

  // ---------- text ----------

  function PrintRef(r: Ref): seq<Tok> {
    if r.alias == "" then [Name(r.col)] else [Name(r.alias), Dot, Name(r.col)]
  }

  function PrintAlias(alias: string): seq<Tok> {
    if alias == "" then [] else [As, Name(alias)]
  }

  function PrintAgg(fn: string, ref: Ref): seq<Tok> {
    [FnTok(fn), Open] + PrintRef(ref) + [Close]
  }

  function PrintRaw(r: RawSql): seq<Tok> { [RawText(r.text, |r.args|)] }

  function PrintExpr(e: Expr): seq<Tok> {
    match e
    case ColE(ref) => PrintRef(ref)
    case AggE(fn, ref) => PrintAgg(fn, ref)
    case ValE(_) => [Mark]
    case RawE(raw) => PrintRaw(raw)
    case SubE(q) => [Open] + (PrintQuery(q) + [Close])
    case PredE(pred, None) => [PredTok(pred)]
    case PredE(pred, Some(q)) => [PredTok(pred)] + ([Open] + (PrintQuery(q) + [Close]))
    case Nested(p) => [Open] + (PrintPred(p) + [Close])
  }

  function PrintPred(p: Pred): seq<Tok> {
    match p
    case Only(l) => PrintExpr(l)
    case Unary(op, r) => [OpTok(op)] + PrintExpr(r)
    case Binary(l, op, r) => PrintExpr(l) + ([OpTok(op)] + PrintExpr(r))
  }

  function PrintSel(s: Sel): seq<Tok> {
    match s
    case SelCol(ref, alias) => PrintRef(ref) + PrintAlias(alias)
    case SelAgg(fn, ref, alias) => PrintAgg(fn, ref) + PrintAlias(alias)
    case SelRaw(raw) => PrintRaw(raw)
  }

  // Items separated by commas.
  function CommaJoin(parts: seq<seq<Tok>>): seq<Tok> {
    if parts == [] then [] else if |parts| == 1 then parts[0]
    else CommaJoin(parts[..|parts| - 1]) + ([Comma] + parts[|parts| - 1])
  }

  function SelParts(ss: seq<Sel>): (r: seq<seq<Tok>>)
    ensures |r| == |ss|
  {
    seq(|ss|, i requires 0 <= i < |ss| => PrintSel(ss[i]))
  }

  function RefParts(rs: seq<Ref>): (r: seq<seq<Tok>>)
    ensures |r| == |rs|
  {
    seq(|rs|, i requires 0 <= i < |rs| => PrintRef(rs[i]))
  }

  function PrintCols(cols: seq<Sel>): seq<Tok> {
    if cols == [] then [AllCols] else CommaJoin(SelParts(cols))
  }

  function PrintUsing(rs: seq<Ref>): seq<Tok> {
    if rs == [] then [] else [Using, Open] + CommaJoin(RefParts(rs)) + [Close]
  }

  function PrintClause(kw: Tok, p: Option<Pred>): seq<Tok>
    decreases p
  {
    match p case None => [] case Some(p) => [kw] + PrintPred(p)
  }

  function PrintGroup(rs: seq<Ref>): seq<Tok> {
    if rs == [] then [] else [GroupBy] + CommaJoin(RefParts(rs))
  }

  function PrintNumber(kw: Tok, v: Option<Value>): seq<Tok> {
    if v.None? then [] else [kw, Mark]
  }

  function PrintTable(t: Table): seq<Tok> {
    match t
    case Named(name, alias) => [Name(name)] + PrintAlias(alias)
    case Derived(q, alias) => [Open] + (PrintQuery(q) + ([Close] + PrintAlias(alias)))
    case Join(l, typ, r, using, on) =>
      [Open] + (PrintTable(l) + ([JoinKw(typ)] + (PrintTable(r) +
      (PrintUsing(using) + (PrintClause(On, on) + [Close])))))
  }

  // Without the final semicolon.
  function PrintQuery(q: Query): seq<Tok> {
    [Select] + (PrintCols(q.cols) + ([From] + (PrintTable(q.table) + (PrintClause(Where, q.cond) +
    (PrintGroup(q.group) + (PrintClause(Having, q.having) +
    (PrintNumber(Limit, q.limit) + PrintNumber(Offset, q.offset))))))))
  }

  // ---------- arguments, in the order the builder appends them ----------

  function ArgsExpr(e: Expr): seq<Value> {
    match e
    case ValE(v) => [v]
    case RawE(raw) => raw.args
    case SubE(q) => ArgsQuery(q)
    case PredE(_, Some(q)) => ArgsQuery(q)
    case Nested(p) => ArgsPred(p)
    case _ => []
  }

  function ArgsPred(p: Pred): seq<Value> {
    match p
    case Only(l) => ArgsExpr(l)
    case Unary(_, r) => ArgsExpr(r)
    case Binary(l, _, r) => ArgsExpr(l) + ArgsExpr(r)
  }

  function ArgsClause(p: Option<Pred>): seq<Value> {
    match p case None => [] case Some(p) => ArgsPred(p)
  }

  function ArgsSels(ss: seq<Sel>): seq<Value> {
    if ss == [] then [] else
      ArgsSels(ss[..|ss| - 1]) + ArgsSel(ss[|ss| - 1])
  }

  function ArgsSel(s: Sel): seq<Value> {
    if s.SelRaw? then s.raw.args else []
  }

  function ArgsNumber(v: Option<Value>): seq<Value> {
    if v.None? then [] else [v.value]
  }

  function ArgsTable(t: Table): seq<Value> {
    match t
    case Named(_, _) => []
    case Derived(q, _) => ArgsQuery(q)
    case Join(l, _, r, _, on) => ArgsTable(l) + (ArgsTable(r) + ArgsClause(on))
  }

  function ArgsQuery(q: Query): seq<Value> {
    ArgsSels(q.cols) + (ArgsTable(q.table) + (ArgsClause(q.cond) + (ArgsClause(q.having) +
    (ArgsNumber(q.limit) + ArgsNumber(q.offset)))))
  }

  // ---------- placeholders ----------

  function MarksOf(t: Tok): nat {
    match t case Mark => 1 case RawText(_, n) => n case _ => 0
  }

  function Marks(ts: seq<Tok>): nat {
    if ts == [] then 0 else Marks(ts[..|ts| - 1]) + MarksOf(ts[|ts| - 1])
  }

  lemma {:induction false} MarksAppend(a: seq<Tok>, b: seq<Tok>)
    ensures Marks(a + b) == Marks(a) + Marks(b)
    decreases |b|
  {
    if b == [] {
      assert a + b == a;
    } else {
      assert (a + b)[..|a + b| - 1] == a + b[..|b| - 1];
      MarksAppend(a, b[..|b| - 1]);
    }
  }
}
