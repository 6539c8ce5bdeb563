// Reading back what was printed: the text together with the argument list
// determines the statement.
module SqlRoundTrip {
  import opened Wrappers
  import opened SqlTree
  import opened SqlParse

  lemma Assoc<T>(a: seq<T>, b: seq<T>, c: seq<T>)
    ensures (a + b) + c == a + (b + c)
  {}

  lemma Behind<T>(t: T, b: seq<T>)
    ensures ([t] + b)[0] == t && ([t] + b)[1..] == b
  {}

  // ---------- what may follow ----------

  predicate PredEnd(k: seq<Tok>) {
    || k == [] || k[0].Close? || k[0].Semi? || k[0].Comma? || k[0].Where? || k[0].GroupBy? || k[0].Having?
    || k[0].Limit? || k[0].Offset?
  }

  predicate ExprEnd(k: seq<Tok>) { PredEnd(k) || k[0].OpTok? }

  predicate TableEnd(k: seq<Tok>) {
    PredEnd(k) || k[0].JoinKw? || k[0].Using? || k[0].On?
  }

  predicate QueryEnd(k: seq<Tok>) { k == [] || k[0].Close? || k[0].Semi? }

  // ---------- leaves ----------

  lemma RefRT(r: Ref, k: seq<Tok>, xs: seq<Value>)
    requires k == [] || !k[0].Dot?
    ensures ParseRef(PrintRef(r) + k, xs) == Ok(r, k, xs)
  {
    var ts := PrintRef(r) + k;
    if r.alias == "" {
      assert ts[1..] == k;
    } else {
      assert ts[3..] == k;
    }
  }

  lemma AliasRT(alias: string, k: seq<Tok>)
    requires k == [] || !k[0].As?
    ensures ParseAlias(PrintAlias(alias) + k) == (alias, k)
  {
    if alias == "" {
      assert PrintAlias(alias) + k == k;
    } else {
      assert (PrintAlias(alias) + k)[2..] == k;
    }
  }

  lemma AggRT(fn: string, ref: Ref, k: seq<Tok>, xs: seq<Value>)
    ensures var ts := PrintAgg(fn, ref) + k;
      ts[0] == FnTok(fn) && ParseAggArg(ts[1..], xs) == Ok(ref, k, xs)
  {
    var ts := PrintAgg(fn, ref) + k;
    assert ts[1..] == [Open] + (PrintRef(ref) + ([Close] + k));
    assert ts[1..][1..] == PrintRef(ref) + ([Close] + k);
    RefRT(ref, [Close] + k, xs);
    Behind(Close, k);
  }

  lemma RawRT(raw: RawSql, k: seq<Tok>, ys: seq<Value>)
    ensures ParseRaw(raw.text, |raw.args|, k, raw.args + ys) == Ok(raw, k, ys)
  {
    assert (raw.args + ys)[..|raw.args|] == raw.args && (raw.args + ys)[|raw.args|..] == ys;
  }

  lemma SelColRT(ref: Ref, alias: string, k: seq<Tok>, xs: seq<Value>)
    requires k == [] || k[0].Comma? || k[0].From?
    ensures ParseSel((PrintRef(ref) + PrintAlias(alias)) + k, xs) == Ok(SelCol(ref, alias), k, xs)
  {
    var rest := PrintAlias(alias) + k;
    Assoc(PrintRef(ref), PrintAlias(alias), k);
    RefRT(ref, rest, xs);
    AliasRT(alias, k);
    assert (PrintRef(ref) + rest)[0].Name?;
  }

  lemma SelAggRT(fn: string, ref: Ref, alias: string, k: seq<Tok>, xs: seq<Value>)
    requires k == [] || k[0].Comma? || k[0].From?
    ensures ParseSel((PrintAgg(fn, ref) + PrintAlias(alias)) + k, xs) == Ok(SelAgg(fn, ref, alias), k, xs)
  {
    var rest := PrintAlias(alias) + k;
    Assoc(PrintAgg(fn, ref), PrintAlias(alias), k);
    AggRT(fn, ref, rest, xs);
    AliasRT(alias, k);
  }

  lemma SelRT(s: Sel, k: seq<Tok>, ys: seq<Value>)
    requires k == [] || k[0].Comma? || k[0].From?
    ensures ParseSel(PrintSel(s) + k, ArgsSel(s) + ys) == Ok(s, k, ys)
  {
    match s {
      case SelCol(ref, alias) =>
        SelColRT(ref, alias, k, ys);
        assert [] + ys == ys;
      case SelAgg(fn, ref, alias) =>
        SelAggRT(fn, ref, alias, k, ys);
        assert [] + ys == ys;
      case SelRaw(raw) =>
        Behind(RawText(raw.text, |raw.args|), k);
        RawRT(raw, k, ys);
    }
  }

  // ---------- comma-separated lists ----------

  function CommaTail(parts: seq<seq<Tok>>): seq<Tok> {
    if parts == [] then [] else [Comma] + (parts[0] + CommaTail(parts[1..]))
  }

  lemma {:induction false} CommaJoinHead(parts: seq<seq<Tok>>)
    requires parts != []
    ensures CommaJoin(parts) == parts[0] + CommaTail(parts[1..])
    decreases |parts|
  {
    var n := |parts| - 1;
    if n == 0 {
      assert parts[0] + [] == parts[0];
    } else {
      CommaJoinHead(parts[..n]);
      assert parts[..n][1..] == parts[1..][..n - 1];
      CommaTailSnoc(parts[1..]);
      Assoc(parts[0], CommaTail(parts[1..][..n - 1]), [Comma] + parts[n]);
    }
  }

  lemma {:induction false} CommaTailSnoc(parts: seq<seq<Tok>>)
    requires parts != []
    ensures CommaTail(parts) == CommaTail(parts[..|parts| - 1]) + ([Comma] + parts[|parts| - 1])
    decreases |parts|
  {
    var n := |parts| - 1;
    if n == 0 {
      assert parts[0] + CommaTail(parts[1..]) == parts[0];
      assert [] + ([Comma] + parts[0]) == [Comma] + parts[0];
    } else {
      CommaTailSnoc(parts[1..]);
      assert parts[1..][..n - 1] == parts[..n][1..];
      Assoc(parts[0], CommaTail(parts[..n][1..]), [Comma] + parts[n]);
      Assoc([Comma], parts[0] + CommaTail(parts[..n][1..]), [Comma] + parts[n]);
    }
  }

  lemma TailSplit(parts: seq<seq<Tok>>, k: seq<Tok>)
    requires parts != []
    ensures var ts := CommaTail(parts) + k;
      ts != [] && ts[0] == Comma && ts[1..] == parts[0] + (CommaTail(parts[1..]) + k)
  {
    Assoc([Comma], parts[0] + CommaTail(parts[1..]), k);
    Assoc(parts[0], CommaTail(parts[1..]), k);
    Behind(Comma, parts[0] + (CommaTail(parts[1..]) + k));
  }

  lemma Prepend<T>(done: seq<T>, items: seq<T>)
    requires items != []
    ensures done + [items[0]] + items[1..] == done + items
  {}

  lemma {:induction false} RefsRT(done: seq<Ref>, rs: seq<Ref>, k: seq<Tok>, xs: seq<Value>)
    requires k == [] || (!k[0].Comma? && !k[0].Dot?)
    ensures ParseRefs(done, CommaTail(RefParts(rs)) + k, xs) == Ok(done + rs, k, xs)
    decreases |rs|
  {
    if rs == [] {
      assert [] + k == k && done + [] == done;
    } else {
      TailSplit(RefParts(rs), k);
      assert RefParts(rs)[1..] == RefParts(rs[1..]);
      RefRT(rs[0], CommaTail(RefParts(rs[1..])) + k, xs);
      RefsRT(done + [rs[0]], rs[1..], k, xs);
      Prepend(done, rs);
    }
  }

  lemma RefListRT(rs: seq<Ref>, k: seq<Tok>, xs: seq<Value>)
    requires rs != [] && (k == [] || (!k[0].Comma? && !k[0].Dot?))
    ensures ParseRef(CommaJoin(RefParts(rs)) + k, xs) == Ok(rs[0], CommaTail(RefParts(rs)[1..]) + k, xs)
    ensures ParseRefs([rs[0]], CommaTail(RefParts(rs)[1..]) + k, xs) == Ok(rs, k, xs)
  {
    var rest := CommaTail(RefParts(rs)[1..]);
    CommaJoinHead(RefParts(rs));
    Assoc(PrintRef(rs[0]), rest, k);
    assert RefParts(rs)[1..] == RefParts(rs[1..]);
    RefsRT([rs[0]], rs[1..], k, xs);
    assert [rs[0]] + rs[1..] == rs;
    RefRT(rs[0], rest + k, xs);
  }

  lemma GroupRT(rs: seq<Ref>, k: seq<Tok>, xs: seq<Value>)
    requires k == [] || (!k[0].Comma? && !k[0].Dot? && !k[0].GroupBy?)
    ensures ParseGroup(PrintGroup(rs) + k, xs) == Ok(rs, k, xs)
  {
    if rs == [] {
      assert [] + k == k;
    } else {
      Assoc([GroupBy], CommaJoin(RefParts(rs)), k);
      Behind(GroupBy, CommaJoin(RefParts(rs)) + k);
      RefListRT(rs, k, xs);
    }
  }

  lemma UsingRT(rs: seq<Ref>, k: seq<Tok>, xs: seq<Value>)
    requires k != [] && !k[0].Using?
    ensures ParseUsing(PrintUsing(rs) + k, xs) == Ok(rs, k, xs)
  {
    hide CommaJoin, RefParts, ParseRefs, ParseRef;
    if rs == [] {
      assert [] + k == k;
    } else {
      UsingSplit(CommaJoin(RefParts(rs)), k);
      RefListRT(rs, [Close] + k, xs);
      Behind(Close, k);
    }
  }

  lemma UsingSplit(names: seq<Tok>, k: seq<Tok>)
    ensures var ts := [Using, Open] + names + [Close] + k;
      ts[0] == Using && ts[1..][0] == Open && ts[2..] == names + ([Close] + k)
  {}

  function ArgsTail(ss: seq<Sel>): seq<Value> {
    if ss == [] then [] else ArgsSel(ss[0]) + ArgsTail(ss[1..])
  }

  lemma {:induction false} ArgsSelsFront(ss: seq<Sel>)
    ensures ArgsSels(ss) == ArgsTail(ss)
    decreases |ss|
  {
    var n := |ss| - 1;
    if n == 0 {
      assert ArgsTail(ss[1..]) == [] && ss[..0] == [];
      assert [] + ArgsSel(ss[0]) == ArgsSel(ss[0]) + [];
    } else if n > 0 {
      ArgsSelsFront(ss[..n]);
      ArgsSelsFront(ss[1..]);
      ArgsSelsFront(ss[1..][..n - 1]);
      assert ss[..n][1..] == ss[1..][..n - 1];
      Assoc(ArgsSel(ss[0]), ArgsTail(ss[..n][1..]), ArgsSel(ss[n]));
    }
  }

  lemma {:induction false} SelsRT(done: seq<Sel>, ss: seq<Sel>, k: seq<Tok>, ys: seq<Value>)
    requires k != [] && k[0].From?
    ensures ParseSels(done, CommaTail(SelParts(ss)) + k, ArgsTail(ss) + ys) == Ok(done + ss, k, ys)
    decreases |ss|
  {
    if ss == [] {
      assert [] + k == k && done + [] == done && [] + ys == ys;
    } else {
      TailSplit(SelParts(ss), k);
      assert SelParts(ss)[1..] == SelParts(ss[1..]);
      Assoc(ArgsSel(ss[0]), ArgsTail(ss[1..]), ys);
      SelRT(ss[0], CommaTail(SelParts(ss[1..])) + k, ArgsTail(ss[1..]) + ys);
      SelsRT(done + [ss[0]], ss[1..], k, ys);
      Prepend(done, ss);
    }
  }

  lemma ColsRT(ss: seq<Sel>, k: seq<Tok>, ys: seq<Value>)
    requires k != [] && k[0].From?
    ensures ParseCols(PrintCols(ss) + k, ArgsSels(ss) + ys) == Ok(ss, k, ys)
  {
    if ss == [] {
      Behind(AllCols, k);
      assert [] + ys == ys;
    } else {
      CommaJoinHead(SelParts(ss));
      var rest := CommaTail(SelParts(ss[1..]));
      assert SelParts(ss)[1..] == SelParts(ss[1..]);
      Assoc(PrintSel(ss[0]), rest, k);
      ArgsSelsFront(ss);
      Assoc(ArgsSel(ss[0]), ArgsTail(ss[1..]), ys);
      SelRT(ss[0], rest + k, ArgsTail(ss[1..]) + ys);
      SelHead(ss[0], rest + k);
      SelsRT([ss[0]], ss[1..], k, ys);
      assert [ss[0]] + ss[1..] == ss;
    }
  }

  lemma SelHead(s: Sel, k: seq<Tok>)
    ensures PrintSel(s) != [] && (PrintSel(s) + k)[0] != AllCols
  {}

  lemma NumberRT(kw: Tok, v: Option<Value>, k: seq<Tok>, ys: seq<Value>)
    requires k == [] || k[0] != kw
    ensures ParseNumber(kw, PrintNumber(kw, v) + k, ArgsNumber(v) + ys) == Ok(v, k, ys)
  {
    if v.None? {
      assert [] + k == k && [] + ys == ys;
    } else {
      assert ([kw, Mark] + k)[2..] == k && ([v.value] + ys)[1..] == ys;
    }
  }

  // ---------- first tokens ----------

  lemma ExprHead(e: Expr, k: seq<Tok>)
    ensures PrintExpr(e) != [] && PrintExpr(e) + k != []
    ensures var t := (PrintExpr(e) + k)[0];
      t.Name? || t.FnTok? || t.Mark? || t.RawText? || t.PredTok? || t.Open?
  {}

  lemma PredHead(p: Pred, k: seq<Tok>)
    ensures PrintPred(p) + k != [] && !(PrintPred(p) + k)[0].Select?
  {
    match p {
      case Only(l) => ExprHead(l, k);
      case Unary(op, r) => assert (PrintPred(p) + k)[0] == OpTok(op);
      case Binary(l, op, r) =>
        Assoc(PrintExpr(l), [OpTok(op)] + PrintExpr(r), k);
        ExprHead(l, [OpTok(op)] + PrintExpr(r) + k);
    }
  }

  lemma TableHead(t: Table, k: seq<Tok>)
    ensures PrintTable(t) + k != [] && ((PrintTable(t) + k)[0].Name? || (PrintTable(t) + k)[0].Open?)
  {}

  lemma QueryHead(q: Query, k: seq<Tok>)
    ensures PrintQuery(q) + k != [] && (PrintQuery(q) + k)[0] == Select
  {}

  // ---------- expressions, tables, queries ----------

  lemma {:induction false} ExprRT(e: Expr, k: seq<Tok>, ys: seq<Value>)
    requires ExprEnd(k)
    ensures ParseExpr(PrintExpr(e) + k, ArgsExpr(e) + ys) == Ok(e, k, ys)
    decreases e, 1
  {
    match e {
      case SubE(q) =>
        ParenRT(q, k, ys);
        ParenHead(q, k);
      case PredE(pred, Some(q)) =>
        Assoc([PredTok(pred)], [Open] + (PrintQuery(q) + [Close]), k);
        Behind(PredTok(pred), ([Open] + (PrintQuery(q) + [Close])) + k);
        ParenRT(q, k, ys);
        ParenHead(q, k);
      case Nested(p) =>
        NestedRT(p, k, ys);
      case _ => LeafRT(e, k, ys);
    }
  }

  lemma LeafRT(e: Expr, k: seq<Tok>, ys: seq<Value>)
    requires ExprEnd(k)
    requires !e.SubE? && !e.Nested? && (e.PredE? ==> e.sub.None?)
    ensures ParseExpr(PrintExpr(e) + k, ArgsExpr(e) + ys) == Ok(e, k, ys)
  {
    match e {
      case ValE(v) =>
        Behind(Mark, k);
        Behind(v, ys);
      case RawE(raw) =>
        Behind(RawText(raw.text, |raw.args|), k);
        RawRT(raw, k, ys);
      case _ =>
        PlainRT(e, k, ys);
        NoArgs(ys);
    }
  }

  lemma NoArgs(ys: seq<Value>)
    ensures [] + ys == ys
  {}

  // Leaves without arguments.
  lemma PlainRT(e: Expr, k: seq<Tok>, ys: seq<Value>)
    requires ExprEnd(k)
    requires e.ColE? || e.AggE? || (e.PredE? && e.sub.None?)
    ensures ParseExpr(PrintExpr(e) + k, ys) == Ok(e, k, ys)
  {
    hide ParseRef, ParseAggArg, ParsePred, ParseParenQuery, ParseRaw;
    match e {
      case ColE(ref) =>
        RefRT(ref, k, ys);
        assert (PrintRef(ref) + k)[0].Name?;
      case AggE(fn, ref) => AggRT(fn, ref, k, ys);
      case PredE(pred, _) => Behind(PredTok(pred), k);
    }
  }

  lemma {:induction false} NestedRT(p: Pred, k: seq<Tok>, ys: seq<Value>)
    ensures ParseExpr(PrintExpr(Nested(p)) + k, ArgsPred(p) + ys) == Ok(Nested(p), k, ys)
    decreases p, 1
  {
    hide ParsePred, PrintPred, ArgsPred, ParseParenQuery, ParseRef, ParseAggArg, ParseRaw;
    Assoc([Open], PrintPred(p) + [Close], k);
    Assoc(PrintPred(p), [Close], k);
    Behind(Open, PrintPred(p) + ([Close] + k));
    PredHead(p, [Close] + k);
    Behind(Close, k);
    PredRT(p, [Close] + k, ys);
  }

  lemma {:induction false} PredRT(p: Pred, k: seq<Tok>, ys: seq<Value>)
    requires PredEnd(k)
    ensures ParsePred(PrintPred(p) + k, ArgsPred(p) + ys) == Ok(p, k, ys)
    decreases p, 0
  {
    hide PrintExpr, ArgsExpr, ParseExpr;
    match p {
      case Only(l) =>
        ExprHead(l, k);
        ExprRT(l, k, ys);
      case Unary(op, r) =>
        Assoc([OpTok(op)], PrintExpr(r), k);
        Behind(OpTok(op), PrintExpr(r) + k);
        ExprRT(r, k, ys);
      case Binary(l, op, r) =>
        var rest := PrintExpr(r) + k;
        Assoc(PrintExpr(l), [OpTok(op)] + PrintExpr(r), k);
        Assoc([OpTok(op)], PrintExpr(r), k);
        Assoc(ArgsExpr(l), ArgsExpr(r), ys);
        Behind(OpTok(op), rest);
        ExprHead(l, [OpTok(op)] + rest);
        ExprRT(l, [OpTok(op)] + rest, ArgsExpr(r) + ys);
        ExprRT(r, k, ys);
    }
  }

  lemma ParenHead(q: Query, k: seq<Tok>)
    ensures var ts := ([Open] + (PrintQuery(q) + [Close])) + k;
      Starts(ts, Open) && Starts(ts[1..], Select)
  {
    Assoc([Open], PrintQuery(q) + [Close], k);
    Assoc(PrintQuery(q), [Close], k);
    Behind(Open, PrintQuery(q) + ([Close] + k));
    QueryHead(q, [Close] + k);
  }

  lemma {:induction false} ParenRT(q: Query, k: seq<Tok>, ys: seq<Value>)
    ensures ParseParenQuery(([Open] + (PrintQuery(q) + [Close])) + k, ArgsQuery(q) + ys) == Ok(q, k, ys)
    decreases q, 1
  {
    Assoc([Open], PrintQuery(q) + [Close], k);
    Assoc(PrintQuery(q), [Close], k);
    Behind(Open, PrintQuery(q) + ([Close] + k));
    Behind(Close, k);
    QueryRT(q, [Close] + k, ys);
  }

  lemma {:induction false} ClauseRT(kw: Tok, p: Option<Pred>, k: seq<Tok>, ys: seq<Value>)
    requires PredEnd(k) && (k == [] || k[0] != kw)
    ensures ParseClause(kw, PrintClause(kw, p) + k, ArgsClause(p) + ys) == Ok(p, k, ys)
    decreases p, 0
  {
    match p {
      case None => assert [] + k == k && [] + ys == ys;
      case Some(pred) =>
        Assoc([kw], PrintPred(pred), k);
        Behind(kw, PrintPred(pred) + k);
        PredRT(pred, k, ys);
    }
  }

  lemma {:induction false} TableRT(t: Table, k: seq<Tok>, ys: seq<Value>)
    requires TableEnd(k)
    ensures ParseTable(PrintTable(t) + k, ArgsTable(t) + ys) == Ok(t, k, ys)
    decreases t
  {
    match t {
      case Named(name, alias) =>
        Assoc([Name(name)], PrintAlias(alias), k);
        Behind(Name(name), PrintAlias(alias) + k);
        AliasRT(alias, k);
        assert [] + ys == ys;
      case Derived(q, alias) => DerivedRT(q, alias, k, ys);
      case Join(l, _, r, using, on) =>
        var tail := JoinTail(t, k);
        var rest := [JoinKw(t.typ)] + (PrintTable(r) + tail);
        var xs2 := ArgsClause(on) + ys;
        TailIsTableEnd(using, on, k);
        TableRT(l, rest, ArgsTable(r) + xs2);
        TableRT(r, tail, xs2);
        JoinTailRT(t, k, ys);
        JoinShape(t, k);
        JoinArgs(t, ys);
        TableHead(l, rest);
        ParseJoin(PrintTable(l) + rest, ArgsTable(l) + (ArgsTable(r) + xs2), l, t.typ, PrintTable(r) + tail,
          ArgsTable(r) + xs2, r, tail, xs2);
    }
  }

  // Parsing a join is parsing its two tables and its tail.
  lemma ParseJoin(ts: seq<Tok>, xs: seq<Value>, l: Table, typ: string, ts1: seq<Tok>, xs1: seq<Value>, r: Table,
                  ts2: seq<Tok>, xs2: seq<Value>)
    requires ts != [] && !ts[0].Select?
    requires ParseTable(ts, xs) == Ok(l, [JoinKw(typ)] + ts1, xs1) && ParseTable(ts1, xs1) == Ok(r, ts2, xs2)
    ensures ParseTable([Open] + ts, xs) == ParseJoinTail(l, typ, r, ts2, xs2)
  {
    hide ParseJoinTail, ParseQuery, ParseAlias;
    Behind(Open, ts);
    Behind(JoinKw(typ), ts1);
  }

  // What follows the right table of a join.
  function JoinTail(t: Table, k: seq<Tok>): seq<Tok>
    requires t.Join?
  {
    PrintUsing(t.using) + (PrintClause(On, t.on) + ([Close] + k))
  }

  lemma JoinArgs(t: Table, ys: seq<Value>)
    requires t.Join?
    ensures ArgsTable(t) + ys == ArgsTable(t.l) + (ArgsTable(t.r) + (ArgsClause(t.on) + ys))
  {
    Assoc(ArgsTable(t.l), ArgsTable(t.r) + ArgsClause(t.on), ys);
    Assoc(ArgsTable(t.r), ArgsClause(t.on), ys);
  }

  lemma {:induction false} DerivedRT(q: Query, alias: string, k: seq<Tok>, ys: seq<Value>)
    requires TableEnd(k)
    ensures ParseTable(PrintTable(Derived(q, alias)) + k, ArgsQuery(q) + ys) == Ok(Derived(q, alias), k, ys)
    decreases q, 2
  {
    var rest := PrintAlias(alias) + k;
    DerivedShape(q, alias, k);
    ParenHead(q, rest);
    ParenRT(q, rest, ys);
    AliasRT(alias, k);
  }

  lemma DerivedShape(q: Query, alias: string, k: seq<Tok>)
    ensures PrintTable(Derived(q, alias)) + k == ([Open] + (PrintQuery(q) + [Close])) + (PrintAlias(alias) + k)
  {
    var (a, b, c) := (PrintQuery(q), [Close], PrintAlias(alias));
    Assoc(a, b, c);
    Assoc([Open], a + b, c);
    Assoc([Open] + (a + b), c, k);
  }

  lemma JoinShape(t: Table, k: seq<Tok>)
    requires t.Join?
    ensures PrintTable(t) + k == [Open] + (PrintTable(t.l) + ([JoinKw(t.typ)] + (PrintTable(t.r) +
      (PrintUsing(t.using) + (PrintClause(On, t.on) + ([Close] + k))))))
  {
    var (a, b, c) := (PrintTable(t.l), [JoinKw(t.typ)], PrintTable(t.r));
    var (d, e) := (PrintUsing(t.using), PrintClause(On, t.on));
    Assoc([Open], a + (b + (c + (d + (e + [Close])))), k);
    Assoc(a, b + (c + (d + (e + [Close]))), k);
    Assoc(b, c + (d + (e + [Close])), k);
    Assoc(c, d + (e + [Close]), k);
    Assoc(d, e + [Close], k);
    Assoc(e, [Close], k);
  }

  lemma TailIsTableEnd(using: seq<Ref>, on: Option<Pred>, k: seq<Tok>)
    ensures TableEnd(PrintUsing(using) + (PrintClause(On, on) + ([Close] + k)))
    ensures var rest := PrintClause(On, on) + ([Close] + k); rest != [] && !rest[0].Using?
  {}

  lemma {:induction false} JoinTailRT(t: Table, k: seq<Tok>, ys: seq<Value>)
    requires t.Join?
    ensures ParseJoinTail(t.l, t.typ, t.r, JoinTail(t, k), ArgsClause(t.on) + ys) == Ok(t, k, ys)
    decreases t, 0
  {
    TailIsTableEnd(t.using, t.on, k);
    UsingRT(t.using, PrintClause(On, t.on) + ([Close] + k), ArgsClause(t.on) + ys);
    Behind(Close, k);
    ClauseRT(On, t.on, [Close] + k, ys);
  }

  lemma {:induction false} QueryRT(q: Query, k: seq<Tok>, ys: seq<Value>)
    requires QueryEnd(k)
    ensures ParseQuery(PrintQuery(q) + k, ArgsQuery(q) + ys) == Ok(q, k, ys)
    decreases q, 0
  {
    var tail := PrintTail(q) + k;
    var xs := ArgsTailOf(q) + ys;
    ColsRT(q.cols, [From] + (PrintTable(q.table) + tail), ArgsTable(q.table) + xs);
    TailHead(q, k);
    TableRT(q.table, tail, xs);
    QueryTailRT(q, k, ys);
    QueryCompose(q, k, ys, tail, xs);
  }

  lemma QueryCompose(q: Query, k: seq<Tok>, ys: seq<Value>, tail: seq<Tok>, xs: seq<Value>)
    requires tail == PrintTail(q) + k && xs == ArgsTailOf(q) + ys
    requires ParseCols(PrintCols(q.cols) + ([From] + (PrintTable(q.table) + tail)),
                       ArgsSels(q.cols) + (ArgsTable(q.table) + xs))
      == Ok(q.cols, [From] + (PrintTable(q.table) + tail), ArgsTable(q.table) + xs)
    requires ParseTable(PrintTable(q.table) + tail, ArgsTable(q.table) + xs) == Ok(q.table, tail, xs)
    requires ParseQueryTail(q.cols, q.table, tail, xs) == Ok(q, k, ys)
    ensures ParseQuery(PrintQuery(q) + k, ArgsQuery(q) + ys) == Ok(q, k, ys)
  {
    QueryShape(q, k);
    ArgsShape(q, ys);
    Behind(Select, PrintCols(q.cols) + ([From] + (PrintTable(q.table) + tail)));
    Behind(From, PrintTable(q.table) + tail);
  }

  function PrintTail(q: Query): seq<Tok> {
    PrintClause(Where, q.cond) + (PrintGroup(q.group) + (PrintClause(Having, q.having) +
    (PrintNumber(Limit, q.limit) + PrintNumber(Offset, q.offset))))
  }

  function ArgsTailOf(q: Query): seq<Value> {
    ArgsClause(q.cond) + (ArgsClause(q.having) + (ArgsNumber(q.limit) + ArgsNumber(q.offset)))
  }

  lemma QueryShape(q: Query, k: seq<Tok>)
    ensures PrintQuery(q) + k == [Select] + (PrintCols(q.cols) + ([From] + (PrintTable(q.table) + (PrintTail(q) + k))))
  {
    var (a, b, c) := (PrintCols(q.cols), PrintTable(q.table), PrintTail(q));
    Assoc([Select], a + ([From] + (b + c)), k);
    Assoc(a, [From] + (b + c), k);
    Assoc([From], b + c, k);
    Assoc(b, c, k);
  }

  lemma ArgsShape(q: Query, ys: seq<Value>)
    ensures ArgsQuery(q) + ys == ArgsSels(q.cols) + (ArgsTable(q.table) + (ArgsTailOf(q) + ys))
  {
    Assoc(ArgsSels(q.cols), ArgsTable(q.table) + ArgsTailOf(q), ys);
    Assoc(ArgsTable(q.table), ArgsTailOf(q), ys);
  }

  lemma NumbersHead(q: Query, k: seq<Tok>)
    requires QueryEnd(k)
    ensures var t := PrintNumber(Offset, q.offset) + k; t == [] || t[0].Close? || t[0].Semi? || t[0].Offset?
    ensures var t := PrintNumber(Limit, q.limit) + (PrintNumber(Offset, q.offset) + k);
      t == [] || t[0].Close? || t[0].Semi? || t[0].Offset? || t[0].Limit?
  {}

  lemma TailHead(q: Query, k: seq<Tok>)
    requires QueryEnd(k)
    ensures TableEnd(PrintTail(q) + k)
    ensures var numbers := PrintNumber(Limit, q.limit) + (PrintNumber(Offset, q.offset) + k);
      var t2 := PrintClause(Having, q.having) + numbers;
      var t1 := PrintGroup(q.group) + t2;
      && (t2 == [] || t2[0].Close? || t2[0].Semi? || t2[0].Offset? || t2[0].Limit? || t2[0].Having?)
      && PredEnd(t1) && (t1 == [] || !t1[0].Where?) && PrintTail(q) + k == PrintClause(Where, q.cond) + t1
  {
    NumbersHead(q, k);
    TailShape(q, k);
  }

  lemma TailShape(q: Query, k: seq<Tok>)
    ensures PrintTail(q) + k == PrintClause(Where, q.cond) + (PrintGroup(q.group) + (PrintClause(Having, q.having) +
      (PrintNumber(Limit, q.limit) + (PrintNumber(Offset, q.offset) + k))))
  {
    var (a, b, c, d, e) := (PrintClause(Where, q.cond), PrintGroup(q.group), PrintClause(Having, q.having),
      PrintNumber(Limit, q.limit), PrintNumber(Offset, q.offset));
    Assoc(a, b + (c + (d + e)), k);
    Assoc(b, c + (d + e), k);
    Assoc(c, d + e, k);
    Assoc(d, e, k);
  }

  lemma {:induction false} QueryTailRT(q: Query, k: seq<Tok>, ys: seq<Value>)
    requires QueryEnd(k)
    ensures ParseQueryTail(q.cols, q.table, PrintTail(q) + k, ArgsTailOf(q) + ys) == Ok(q, k, ys)
    decreases q, 0, 0
  {
    hide PrintClause, ArgsClause, PrintGroup, PrintNumber, ArgsNumber, ParseClause, ParseGroup, ParseNumber;
    var k4 := PrintNumber(Offset, q.offset) + k;
    var k3 := PrintNumber(Limit, q.limit) + k4;
    var k2 := PrintClause(Having, q.having) + k3;
    var k1 := PrintGroup(q.group) + k2;
    var y4 := ArgsNumber(q.offset) + ys;
    var y3 := ArgsNumber(q.limit) + y4;
    var y2 := ArgsClause(q.having) + y3;
    TailHead(q, k);
    NumbersHead(q, k);
    Assoc(ArgsClause(q.cond), ArgsClause(q.having) + (ArgsNumber(q.limit) + ArgsNumber(q.offset)), ys);
    Assoc(ArgsClause(q.having), ArgsNumber(q.limit) + ArgsNumber(q.offset), ys);
    Assoc(ArgsNumber(q.limit), ArgsNumber(q.offset), ys);
    ClauseRT(Where, q.cond, k1, y2);
    GroupRT(q.group, k2, y2);
    ClauseRT(Having, q.having, k3, y3);
    NumberRT(Limit, q.limit, k4, y4);
    NumberRT(Offset, q.offset, k, ys);
  }
}
