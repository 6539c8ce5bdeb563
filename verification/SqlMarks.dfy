// The text of a resolved tree has as many placeholders as the tree has
// arguments.
module SqlMarks {
  import opened Wrappers
  import opened SqlTree

  lemma Marks1(a: Tok)
    ensures Marks([a]) == MarksOf(a)
  {
  }

  lemma Marks2(a: Tok, b: Tok)
    ensures Marks([a, b]) == MarksOf(a) + MarksOf(b)
  {
    MarksAppend([a], [b]);
    assert [a] + [b] == [a, b];
  }

  lemma Marks3(a: Tok, b: Tok, c: Tok)
    ensures Marks([a, b, c]) == MarksOf(a) + MarksOf(b) + MarksOf(c)
  {
    Marks2(a, b);
    MarksAppend([a, b], [c]);
    assert [a, b] + [c] == [a, b, c];
  }

  // Parentheses hold no placeholder.
  lemma MarksWrap(a: Tok, ts: seq<Tok>, b: Tok)
    ensures Marks([a] + (ts + [b])) == MarksOf(a) + Marks(ts) + MarksOf(b)
  {
    MarksAppend([a], ts + [b]);
    MarksAppend(ts, [b]);
  }

  lemma MarksRef(r: Ref)
    ensures Marks(PrintRef(r)) == 0
  {
    if r.alias != "" {
      Marks3(Name(r.alias), Dot, Name(r.col));
    }
  }

  lemma MarksAgg(fn: string, r: Ref)
    ensures Marks(PrintAgg(fn, r)) == 0
  {
    MarksRef(r);
    Marks2(FnTok(fn), Open);
    MarksAppend([FnTok(fn), Open], PrintRef(r));
    MarksAppend([FnTok(fn), Open] + PrintRef(r), [Close]);
  }

  lemma MarksAlias(alias: string)
    ensures Marks(PrintAlias(alias)) == 0
  {
    if alias != "" {
      Marks2(As, Name(alias));
    }
  }

  lemma {:induction false} MarksJoin(parts: seq<seq<Tok>>)
    ensures parts == [] ==> Marks(CommaJoin(parts)) == 0
    ensures parts != [] ==>
      Marks(CommaJoin(parts)) == Marks(CommaJoin(parts[..|parts| - 1])) + Marks(parts[|parts| - 1])
  {
    if |parts| > 1 {
      MarksAppend([Comma], parts[|parts| - 1]);
      MarksAppend(CommaJoin(parts[..|parts| - 1]), [Comma] + parts[|parts| - 1]);
    }
  }

  lemma {:induction false} MarksRefs(rs: seq<Ref>)
    ensures Marks(CommaJoin(RefParts(rs))) == 0
  {
    MarksJoin(RefParts(rs));
    if rs != [] {
      MarksRef(rs[|rs| - 1]);
      MarksRefs(rs[..|rs| - 1]);
      assert RefParts(rs)[..|rs| - 1] == RefParts(rs[..|rs| - 1]);
    }
  }

  lemma MarksSel(s: Sel)
    ensures Marks(PrintSel(s)) == |ArgsSel(s)|
  {
    match s
    case SelCol(ref, alias) => MarksRef(ref); MarksAlias(alias); MarksAppend(PrintRef(ref), PrintAlias(alias));
    case SelAgg(fn, ref, alias) =>
      MarksAgg(fn, ref); MarksAlias(alias); MarksAppend(PrintAgg(fn, ref), PrintAlias(alias));
    case SelRaw(_) =>
  }

  lemma {:induction false} MarksSels(ss: seq<Sel>)
    ensures Marks(CommaJoin(SelParts(ss))) == |ArgsSels(ss)|
  {
    MarksJoin(SelParts(ss));
    if ss != [] {
      MarksSel(ss[|ss| - 1]);
      MarksSels(ss[..|ss| - 1]);
      assert SelParts(ss)[..|ss| - 1] == SelParts(ss[..|ss| - 1]);
    }
  }

  lemma {:induction false} MarksExpr(e: Expr)
    ensures Marks(PrintExpr(e)) == |ArgsExpr(e)|
  {
    hide PrintQuery, ArgsQuery, PrintPred, ArgsPred, PrintRef, PrintAgg, Marks;
    match e
    case ColE(ref) => MarksRef(ref);
    case AggE(fn, ref) => MarksAgg(fn, ref);
    case ValE(_) => Marks1(Mark);
    case RawE(raw) => Marks1(RawText(raw.text, |raw.args|));
    case SubE(q) => MarksQuery(q); MarksWrap(Open, PrintQuery(q), Close);
    case PredE(pred, None) => Marks1(PredTok(pred));
    case PredE(pred, Some(q)) =>
      MarksQuery(q);
      Marks1(PredTok(pred));
      MarksWrap(Open, PrintQuery(q), Close);
      MarksAppend([PredTok(pred)], [Open] + (PrintQuery(q) + [Close]));
    case Nested(p) => MarksPred(p); MarksWrap(Open, PrintPred(p), Close);
  }

  lemma {:induction false} MarksPred(p: Pred)
    ensures Marks(PrintPred(p)) == |ArgsPred(p)|
  {
    match p
    case Only(l) => MarksExpr(l);
    case Unary(op, r) => MarksExpr(r); MarksAppend([OpTok(op)], PrintExpr(r));
    case Binary(l, op, r) =>
      MarksExpr(l);
      MarksExpr(r);
      MarksAppend([OpTok(op)], PrintExpr(r));
      MarksAppend(PrintExpr(l), [OpTok(op)] + PrintExpr(r));
  }

  lemma {:induction false} MarksClause(kw: Tok, p: Option<Pred>)
    requires MarksOf(kw) == 0
    ensures Marks(PrintClause(kw, p)) == |ArgsClause(p)|
    decreases p
  {
    match p
    case None =>
    case Some(p') => MarksPred(p'); MarksAppend([kw], PrintPred(p'));
  }

  lemma MarksNumber(kw: Tok, v: Option<Value>)
    requires MarksOf(kw) == 0
    ensures Marks(PrintNumber(kw, v)) == |ArgsNumber(v)|
  {
    if v.Some? {
      Marks2(kw, Mark);
    }
  }

  lemma MarksUsing(rs: seq<Ref>)
    ensures Marks(PrintUsing(rs)) == 0
  {
    if rs != [] {
      MarksRefs(rs);
      Marks2(Using, Open);
      MarksAppend([Using, Open], CommaJoin(RefParts(rs)));
      MarksAppend([Using, Open] + CommaJoin(RefParts(rs)), [Close]);
    }
  }

  lemma {:induction false} MarksTable(t: Table)
    ensures Marks(PrintTable(t)) == |ArgsTable(t)|
  {
    match t
    case Named(name, alias) => MarksAlias(alias); MarksAppend([Name(name)], PrintAlias(alias));
    case Derived(q, alias) =>
      MarksQuery(q);
      MarksAlias(alias);
      MarksAppend([Close], PrintAlias(alias));
      MarksAppend(PrintQuery(q), [Close] + PrintAlias(alias));
      MarksAppend([Open], PrintQuery(q) + ([Close] + PrintAlias(alias)));
    case Join(l, typ, r, using, on) =>
      MarksTable(l);
      MarksTable(r);
      MarksUsing(using);
      MarksClause(On, on);
      var l', r', us, c := PrintTable(l), PrintTable(r), PrintUsing(using), PrintClause(On, on);
      MarksAppend(c, [Close]);
      MarksAppend(us, c + [Close]);
      MarksAppend(r', us + (c + [Close]));
      MarksAppend([JoinKw(typ)], r' + (us + (c + [Close])));
      MarksAppend(l', [JoinKw(typ)] + (r' + (us + (c + [Close]))));
      MarksAppend([Open], l' + ([JoinKw(typ)] + (r' + (us + (c + [Close])))));
  }

  lemma {:induction false} MarksEnd(q: Query)
    ensures Marks(PrintClause(Having, q.having) + (PrintNumber(Limit, q.limit) + PrintNumber(Offset, q.offset))) ==
            |ArgsClause(q.having)| + |ArgsNumber(q.limit)| + |ArgsNumber(q.offset)|
    decreases q, 0
  {
    MarksClause(Having, q.having);
    MarksNumber(Limit, q.limit);
    MarksNumber(Offset, q.offset);
    MarksAppend(PrintNumber(Limit, q.limit), PrintNumber(Offset, q.offset));
    MarksAppend(PrintClause(Having, q.having), PrintNumber(Limit, q.limit) + PrintNumber(Offset, q.offset));
  }

  // One argument for every placeholder, at any depth of nesting.
  lemma {:induction false} MarksQuery(q: Query)
    ensures Marks(PrintQuery(q)) == |ArgsQuery(q)|
    decreases q, 1
  {
    MarksSels(q.cols);
    MarksTable(q.table);
    MarksClause(Where, q.cond);
    MarksEnd(q);
    MarksRefs(q.group);
    var cols, t, w, g := PrintCols(q.cols), PrintTable(q.table), PrintClause(Where, q.cond), PrintGroup(q.group);
    var end := PrintClause(Having, q.having) + (PrintNumber(Limit, q.limit) + PrintNumber(Offset, q.offset));
    if q.group != [] {
      MarksAppend([GroupBy], CommaJoin(RefParts(q.group)));
    }
    MarksAppend(g, end);
    MarksAppend(w, g + end);
    MarksAppend(t, w + (g + end));
    MarksAppend([From], t + (w + (g + end)));
    MarksAppend(cols, [From] + (t + (w + (g + end))));
    MarksAppend([Select], cols + ([From] + (t + (w + (g + end)))));
  }
}
