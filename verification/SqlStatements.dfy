// What a built SELECT says.
module SqlStatements {
  import opened Wrappers
  import opened SqlTree
  import opened SqlMarks
  import opened SqlParse
  import opened SqlRoundTrip
  import opened SqlBuilder

  // A successful single-use build can be read back to the resolved tree, taking
  // its arguments in the order of the placeholders, whatever is nested in it.
  lemma SelectReadsBack(reg: Registry, q: Selector, sb: seq<Tok>, args: seq<Value>)
    requires Appended(Then(QueryOut(ResolveSel(reg, q)), Text([Semi])), true, [], [], sb, args)
    ensures ResolveSel(reg, q).Some? && ParseQuery(sb, args) == Ok(ResolveSel(reg, q).value, [Semi], [])
    ensures Marks(sb) == |args|
  {
    hide ResolveSel, PrintQuery, ArgsQuery, ParseQuery;
    var r := ResolveSel(reg, q).value;
    assert sb == PrintQuery(r) + [Semi];
    assert args == ArgsQuery(r) + [];
    QueryRT(r, [Semi], []);
    MarksQuery(r);
    MarksAppend(PrintQuery(r), [Semi]);
  }

  // No two statements share their text and arguments.
  lemma SelectIsUnambiguous(a: Query, b: Query)
    requires PrintQuery(a) == PrintQuery(b) && ArgsQuery(a) == ArgsQuery(b)
    ensures a == b
  {
    hide PrintQuery, ArgsQuery, ParseQuery;
    QueryRT(a, [Semi], []);
    QueryRT(b, [Semi], []);
  }

  // The same for the condition of a clause: the parentheses of nested
  // predicates leave one reading whatever the operators' precedence.
  lemma ConditionIsUnambiguous(a: Pred, b: Pred)
    requires PrintPred(a) == PrintPred(b) && ArgsPred(a) == ArgsPred(b)
    ensures a == b
  {
    hide PrintPred, ArgsPred, ParsePred;
    PredRT(a, [Semi], []);
    PredRT(b, [Semi], []);
  }

  // And for a FROM or JOIN tree.
  lemma TableIsUnambiguous(a: Table, b: Table)
    requires PrintTable(a) == PrintTable(b) && ArgsTable(a) == ArgsTable(b)
    ensures a == b
  {
    hide PrintTable, ArgsTable, ParseTable;
    TableRT(a, [Semi], []);
    TableRT(b, [Semi], []);
  }

  lemma TwoParts(a: seq<Tok>, b: seq<Tok>)
    ensures CommaJoin([a, b]) == a + ([Comma] + b) && CommaJoin([a]) == a
  {
    assert [a, b][..1] == [a];
  }

  lemma ColumnsText(c: string, fn: string, f: string)
    ensures var cols := [SelCol(Ref("", c), ""), SelAgg(fn, Ref("", f), "x")];
      PrintCols(cols) == [Name(c), Comma, FnTok(fn), Open, Name(f), Close, As, Name("x")] && ArgsSels(cols) == []
  {
    hide CommaJoin;
    var a, b := SelCol(Ref("", c), ""), SelAgg(fn, Ref("", f), "x");
    TwoParts(PrintSel(a), PrintSel(b));
    assert SelParts([a, b]) == [PrintSel(a), PrintSel(b)];
    assert [a, b][..1] == [a] && [a][..0] == [];
    assert ArgsSels([]) == [] && ArgsSels([a]) == [];
  }

  lemma ConditionText(kw: Tok, l: Expr, op: Op, v: Value)
    ensures var p := Some(Binary(l, op, ValE(v)));
      PrintClause(kw, p) == [kw] + PrintExpr(l) + [OpTok(op), Mark] && ArgsClause(p) == ArgsExpr(l) + [v]
  {
    var r := ValE(v);
    assert PrintExpr(r) == [Mark] && ArgsExpr(r) == [v];
    assert [kw] + (PrintExpr(l) + ([OpTok(op)] + [Mark])) == [kw] + PrintExpr(l) + [OpTok(op), Mark];
  }

  lemma ColumnText(x: string, c: string)
    requires x != ""
    ensures PrintExpr(ColE(Ref(x, c))) == [Name(x), Dot, Name(c)] && ArgsExpr(ColE(Ref(x, c))) == []
    ensures PrintTable(Named(c, x)) == [Name(c), As, Name(x)] && ArgsTable(Named(c, x)) == []
    ensures PrintTable(Named(c, "")) == [Name(c)]
  {
  }

  lemma AggregateText(fn: string, c: string)
    ensures PrintExpr(AggE(fn, Ref("", c))) == [FnTok(fn), Open, Name(c), Close] && ArgsExpr(AggE(fn, Ref("", c))) == []
  {
  }

  lemma InOrder<T>(a: seq<T>, b: seq<T>, c: seq<T>, d: seq<T>, e: seq<T>, f: seq<T>, g: seq<T>, h: seq<T>)
    ensures a + (b + (c + (d + (e + (f + (g + h)))))) == a + b + c + d + e + f + g + h
  {
    assert a + (b + (c + (d + (e + (f + (g + h)))))) == a + b + (c + (d + (e + (f + (g + h)))));
    assert c + (d + (e + (f + (g + h)))) == c + d + (e + (f + (g + h)));
    assert e + (f + (g + h)) == e + f + g + h;
  }

  lemma NumbersText(n: Value, m: Value)
    ensures PrintNumber(Limit, Some(n)) + PrintNumber(Offset, Some(m)) == [Limit, Mark, Offset, Mark]
    ensures ArgsNumber(Some(n)) + ArgsNumber(Some(m)) == [n, m]
  {
  }

  // The words of a SELECT with every clause, in their order, and its arguments.
  lemma SelectWords(c: string, t: string, f: string, g: string, fn: string, op: Op, v: Value, w: Value, n: Value,
                   m: Value)
    ensures var q := Query([SelCol(Ref("", c), ""), SelAgg(fn, Ref("", f), "x")], Named(t, "y"),
                           Some(Binary(ColE(Ref("y", f)), op, ValE(v))), [Ref("", g)],
                           Some(Binary(AggE(fn, Ref("", f)), op, ValE(w))), Some(n), Some(m));
      && PrintQuery(q) ==
         [Select] + [Name(c), Comma, FnTok(fn), Open, Name(f), Close, As, Name("x")]
         + [From] + [Name(t), As, Name("y")]
         + [Where, Name("y"), Dot, Name(f), OpTok(op), Mark]
         + [GroupBy, Name(g)]
         + [Having, FnTok(fn), Open, Name(f), Close, OpTok(op), Mark]
         + [Limit, Mark, Offset, Mark]
      && ArgsQuery(q) == [v, w, n, m]
  {
    hide CommaJoin, PrintCols, PrintClause, PrintTable, PrintExpr, PrintNumber, PrintGroup;
    hide ArgsSels, ArgsClause, ArgsTable, ArgsExpr, ArgsNumber;
    var where, having := Some(Binary(ColE(Ref("y", f)), op, ValE(v))), Some(Binary(AggE(fn, Ref("", f)), op, ValE(w)));
    var cols := [SelCol(Ref("", c), ""), SelAgg(fn, Ref("", f), "x")];
    ColumnsText(c, fn, f);
    ColumnText("y", f);
    ColumnText("y", t);
    AggregateText(fn, f);
    ConditionText(Where, ColE(Ref("y", f)), op, v);
    ConditionText(Having, AggE(fn, Ref("", f)), op, w);
    GroupText(g);
    NumbersText(n, m);
    assert PrintClause(Where, where) == [Where, Name("y"), Dot, Name(f), OpTok(op), Mark];
    assert PrintClause(Having, having) == [Having, FnTok(fn), Open, Name(f), Close, OpTok(op), Mark];
    InOrder([Select], PrintCols(cols), [From], PrintTable(Named(t, "y")), PrintClause(Where, where),
            PrintGroup([Ref("", g)]), PrintClause(Having, having), [Limit, Mark, Offset, Mark]);
    assert ArgsClause(where) == [v] && ArgsClause(having) == [w];
    assert [] + ([] + ([v] + ([w] + [n, m]))) == [v, w, n, m];
  }

  lemma GroupText(g: string)
    ensures PrintGroup([Ref("", g)]) == [GroupBy, Name(g)]
  {
    TwoParts([Name(g)], []);
    assert RefParts([Ref("", g)]) == [[Name(g)]];
  }

  lemma EqualText(a: string, c: string, op: Op, b: string, d: string)
    requires a != "" && b != ""
    ensures PrintClause(On, Some(Binary(ColE(Ref(a, c)), op, ColE(Ref(b, d))))) ==
      [On, Name(a), Dot, Name(c), OpTok(op), Name(b), Dot, Name(d)]
  {
    hide PrintExpr;
    ColumnText(a, c);
    ColumnText(b, d);
  }

  // The words of a join with USING, and of one with ON.
  lemma JoinWords(a: string, typ: string, b: string, c: string, d: string, op: Op)
    requires a != "" && b != ""
    ensures PrintTable(Join(Named(a, ""), typ, Named(b, ""), [Ref("", c), Ref("", d)], None)) ==
      [Open, Name(a), JoinKw(typ), Name(b), Using, Open, Name(c), Comma, Name(d), Close, Close]
    ensures PrintTable(Join(Named(a, ""), typ, Named(b, ""), [], Some(Binary(ColE(Ref(a, c)), op, ColE(Ref(b, d)))))) ==
      [Open, Name(a), JoinKw(typ), Name(b), On, Name(a), Dot, Name(c), OpTok(op), Name(b), Dot, Name(d), Close]
  {
    hide CommaJoin, PrintExpr, PrintPred;
    TwoParts([Name(c)], [Name(d)]);
    assert RefParts([Ref("", c), Ref("", d)]) == [[Name(c)], [Name(d)]];
    ColumnText(a, a);
    ColumnText(b, b);
    EqualText(a, c, op, b, d);
    assert PrintUsing([Ref("", c), Ref("", d)]) == [Using, Open, Name(c), Comma, Name(d), Close];
  }
}
