// A reader of the token text. It is given the text and the argument list, as a
// database is, and takes an argument whenever it meets a placeholder.
module SqlParse {
  import opened Wrappers
  import opened SqlTree

  datatype Parsed<T> = Fail | Ok(v: T, ts: seq<Tok>, xs: seq<Value>)

  predicate Starts(ts: seq<Tok>, t: Tok) { ts != [] && ts[0] == t }

  function ParseRef(ts: seq<Tok>, xs: seq<Value>): (r: Parsed<Ref>)
    ensures r.Ok? ==> |r.ts| < |ts|
  {
    if |ts| >= 3 && ts[0].Name? && ts[1].Dot? && ts[2].Name? then Ok(Ref(ts[0].name, ts[2].name), ts[3..], xs)
    else if ts != [] && ts[0].Name? then Ok(Ref("", ts[0].name), ts[1..], xs)
    else Fail
  }

  function ParseAlias(ts: seq<Tok>): (r: (string, seq<Tok>))
    ensures |r.1| <= |ts|
  {
    if |ts| >= 2 && ts[0].As? && ts[1].Name? then (ts[1].name, ts[2..]) else ("", ts)
  }

  // After the function name.
  function ParseAggArg(ts: seq<Tok>, xs: seq<Value>): (r: Parsed<Ref>)
    ensures r.Ok? ==> |r.ts| < |ts|
  {
    if !Starts(ts, Open) then Fail else
      match ParseRef(ts[1..], xs)
      case Fail => Fail
      case Ok(ref, ts', xs') => if Starts(ts', Close) then Ok(ref, ts'[1..], xs') else Fail
  }

  function ParseRaw(text: string, n: nat, ts: seq<Tok>, xs: seq<Value>): (r: Parsed<RawSql>)
    ensures r.Ok? ==> r.ts == ts
  {
    if |xs| < n then Fail else Ok(RawSql(text, xs[..n]), ts, xs[n..])
  }

  function ParseExpr(ts: seq<Tok>, xs: seq<Value>): (r: Parsed<Expr>)
    ensures r.Ok? ==> |r.ts| < |ts|
    decreases |ts|, 2
  {
    if ts == [] then Fail else
      match ts[0]
      case Name(_) => (match ParseRef(ts, xs) case Fail => Fail case Ok(ref, ts', xs') => Ok(ColE(ref), ts', xs'))
      case FnTok(fn) =>
        (match ParseAggArg(ts[1..], xs) case Fail => Fail case Ok(ref, ts', xs') => Ok(AggE(fn, ref), ts', xs'))
      case Mark => if xs == [] then Fail else Ok(ValE(xs[0]), ts[1..], xs[1..])
      case RawText(text, n) =>
        (match ParseRaw(text, n, ts[1..], xs) case Fail => Fail case Ok(raw, ts', xs') => Ok(RawE(raw), ts', xs'))
      case PredTok(pred) =>
        if !Starts(ts[1..], Open) then Ok(PredE(pred, None), ts[1..], xs) else
          (match ParseParenQuery(ts[1..], xs)
           case Fail => Fail
           case Ok(q, ts', xs') => Ok(PredE(pred, Some(q)), ts', xs'))
      case Open =>
        if Starts(ts[1..], Select) then
          (match ParseParenQuery(ts, xs) case Fail => Fail case Ok(q, ts', xs') => Ok(SubE(q), ts', xs'))
        else
          (match ParsePred(ts[1..], xs)
           case Fail => Fail
           case Ok(p, ts', xs') => if Starts(ts', Close) then Ok(Nested(p), ts'[1..], xs') else Fail)
      case _ => Fail
  }

  function ParsePred(ts: seq<Tok>, xs: seq<Value>): (r: Parsed<Pred>)
    ensures r.Ok? ==> |r.ts| < |ts|
    decreases |ts|, 3
  {
    if ts != [] && ts[0].OpTok? then
      match ParseExpr(ts[1..], xs)
      case Fail => Fail
      case Ok(e, ts', xs') => Ok(Unary(ts[0].op, e), ts', xs')
    else
      match ParseExpr(ts, xs)
      case Fail => Fail
      case Ok(l, ts', xs') =>
        if ts' != [] && ts'[0].OpTok? then
          match ParseExpr(ts'[1..], xs')
          case Fail => Fail
          case Ok(e, ts'', xs'') => Ok(Binary(l, ts'[0].op, e), ts'', xs'')
        else Ok(Only(l), ts', xs')
  }

  function ParseParenQuery(ts: seq<Tok>, xs: seq<Value>): (r: Parsed<Query>)
    ensures r.Ok? ==> |r.ts| < |ts|
    decreases |ts|, 1
  {
    if !Starts(ts, Open) then Fail else
      match ParseQuery(ts[1..], xs)
      case Fail => Fail
      case Ok(q, ts', xs') => if Starts(ts', Close) then Ok(q, ts'[1..], xs') else Fail
  }

  function ParseSel(ts: seq<Tok>, xs: seq<Value>): (r: Parsed<Sel>)
    ensures r.Ok? ==> |r.ts| < |ts|
  {
    if ts == [] then Fail else
      match ts[0]
      case Name(_) =>
        (match ParseRef(ts, xs)
         case Fail => Fail
         case Ok(ref, ts', xs') => var (alias, ts'') := ParseAlias(ts'); Ok(SelCol(ref, alias), ts'', xs'))
      case FnTok(fn) =>
        (match ParseAggArg(ts[1..], xs)
         case Fail => Fail
         case Ok(ref, ts', xs') => var (alias, ts'') := ParseAlias(ts'); Ok(SelAgg(fn, ref, alias), ts'', xs'))
      case RawText(text, n) =>
        (match ParseRaw(text, n, ts[1..], xs) case Fail => Fail case Ok(raw, ts', xs') => Ok(SelRaw(raw), ts', xs'))
      case _ => Fail
  }

  // `done`, and the items after it.
  function ParseSels(done: seq<Sel>, ts: seq<Tok>, xs: seq<Value>): (r: Parsed<seq<Sel>>)
    ensures r.Ok? ==> |r.ts| <= |ts|
    decreases |ts|
  {
    if !Starts(ts, Comma) then Ok(done, ts, xs) else
      match ParseSel(ts[1..], xs)
      case Fail => Fail
      case Ok(s, ts', xs') => ParseSels(done + [s], ts', xs')
  }

  function ParseCols(ts: seq<Tok>, xs: seq<Value>): (r: Parsed<seq<Sel>>)
    ensures r.Ok? ==> |r.ts| < |ts|
  {
    if Starts(ts, AllCols) then Ok([], ts[1..], xs) else
      match ParseSel(ts, xs) case Fail => Fail case Ok(s, ts', xs') => ParseSels([s], ts', xs')
  }

  function ParseRefs(done: seq<Ref>, ts: seq<Tok>, xs: seq<Value>): (r: Parsed<seq<Ref>>)
    ensures r.Ok? ==> |r.ts| <= |ts|
    decreases |ts|
  {
    if !Starts(ts, Comma) then Ok(done, ts, xs) else
      match ParseRef(ts[1..], xs)
      case Fail => Fail
      case Ok(s, ts', xs') => ParseRefs(done + [s], ts', xs')
  }

  function ParseGroup(ts: seq<Tok>, xs: seq<Value>): (r: Parsed<seq<Ref>>)
    ensures r.Ok? ==> |r.ts| <= |ts|
  {
    if !Starts(ts, GroupBy) then Ok([], ts, xs) else
      match ParseRef(ts[1..], xs) case Fail => Fail case Ok(s, ts', xs') => ParseRefs([s], ts', xs')
  }

  function ParseUsing(ts: seq<Tok>, xs: seq<Value>): (r: Parsed<seq<Ref>>)
    ensures r.Ok? ==> |r.ts| <= |ts|
  {
    if !Starts(ts, Using) then Ok([], ts, xs)
    else if !Starts(ts[1..], Open) then Fail
    else
      match ParseRef(ts[2..], xs)
      case Fail => Fail
      case Ok(s, ts', xs') =>
        match ParseRefs([s], ts', xs')
        case Fail => Fail
        case Ok(rs, ts'', xs'') => if Starts(ts'', Close) then Ok(rs, ts''[1..], xs'') else Fail
  }

  function ParseClause(kw: Tok, ts: seq<Tok>, xs: seq<Value>): (r: Parsed<Option<Pred>>)
    ensures r.Ok? ==> |r.ts| <= |ts|
    decreases |ts|, 4
  {
    if !Starts(ts, kw) then Ok(None, ts, xs) else
      match ParsePred(ts[1..], xs) case Fail => Fail case Ok(p, ts', xs') => Ok(Some(p), ts', xs')
  }

  function ParseNumber(kw: Tok, ts: seq<Tok>, xs: seq<Value>): (r: Parsed<Option<Value>>)
    ensures r.Ok? ==> |r.ts| <= |ts|
  {
    if !Starts(ts, kw) then Ok(None, ts, xs)
    else if |ts| >= 2 && ts[1].Mark? && xs != [] then Ok(Some(xs[0]), ts[2..], xs[1..])
    else Fail
  }

  function ParseTable(ts: seq<Tok>, xs: seq<Value>): (r: Parsed<Table>)
    ensures r.Ok? ==> |r.ts| < |ts|
    decreases |ts|, 2
  {
    if ts == [] then Fail
    else if ts[0].Name? then
      var (alias, ts') := ParseAlias(ts[1..]);
      Ok(Named(ts[0].name, alias), ts', xs)
    else if Starts(ts, Open) && Starts(ts[1..], Select) then
      match ParseParenQuery(ts, xs)
      case Fail => Fail
      case Ok(q, ts', xs') => var (alias, ts'') := ParseAlias(ts'); Ok(Derived(q, alias), ts'', xs')
    else if Starts(ts, Open) then
      match ParseTable(ts[1..], xs)
      case Fail => Fail
      case Ok(l, ts1, xs1) =>
        if ts1 == [] || !ts1[0].JoinKw? then Fail else
          match ParseTable(ts1[1..], xs1)
          case Fail => Fail
          case Ok(r, ts2, xs2) => ParseJoinTail(l, ts1[0].typ, r, ts2, xs2)
    else Fail
  }

  function ParseJoinTail(l: Table, typ: string, r: Table, ts: seq<Tok>, xs: seq<Value>): (t: Parsed<Table>)
    ensures t.Ok? ==> |t.ts| < |ts|
    decreases |ts|, 5
  {
    match ParseUsing(ts, xs)
    case Fail => Fail
    case Ok(using, ts1, xs1) =>
      match ParseClause(On, ts1, xs1)
      case Fail => Fail
      case Ok(on, ts2, xs2) =>
        if Starts(ts2, Close) then Ok(Join(l, typ, r, using, on), ts2[1..], xs2) else Fail
  }

  function ParseQuery(ts: seq<Tok>, xs: seq<Value>): (r: Parsed<Query>)
    ensures r.Ok? ==> |r.ts| < |ts|
    decreases |ts|, 0
  {
    if !Starts(ts, Select) then Fail else
      match ParseCols(ts[1..], xs)
      case Fail => Fail
      case Ok(cols, ts1, xs1) =>
        if !Starts(ts1, From) then Fail else
          match ParseTable(ts1[1..], xs1)
          case Fail => Fail
          case Ok(table, ts2, xs2) => ParseQueryTail(cols, table, ts2, xs2)
  }

  function ParseQueryTail(cols: seq<Sel>, table: Table, ts: seq<Tok>, xs: seq<Value>): (r: Parsed<Query>)
    ensures r.Ok? ==> |r.ts| <= |ts|
    decreases |ts|, 5
  {
    match ParseClause(Where, ts, xs)
    case Fail => Fail
    case Ok(cond, ts1, xs1) =>
      match ParseGroup(ts1, xs1)
      case Fail => Fail
      case Ok(group, ts2, xs2) =>
        match ParseClause(Having, ts2, xs2)
        case Fail => Fail
        case Ok(having, ts3, xs3) =>
          match ParseNumber(Limit, ts3, xs3)
          case Fail => Fail
          case Ok(limit, ts4, xs4) =>
            match ParseNumber(Offset, ts4, xs4)
            case Fail => Fail
            case Ok(offset, ts5, xs5) =>
              Ok(Query(cols, table, cond, group, having, limit, offset), ts5, xs5)
  }
}
