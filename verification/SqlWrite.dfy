// UPDATE and INSERT statements: their resolved trees, their text and their
// arguments, and reading an UPDATE back.
module SqlWrite {
  import opened Wrappers
  import opened SqlTree
  import opened SqlMarks
  import opened SqlParse
  import opened SqlRoundTrip

  // ---------- flattening ----------

  function Flat<T>(xss: seq<seq<T>>): seq<T> {
    if xss == [] then [] else Flat(xss[..|xss| - 1]) + xss[|xss| - 1]
  }

  lemma FlatSnoc<T>(xss: seq<seq<T>>, xs: seq<T>)
    ensures Flat(xss + [xs]) == Flat(xss) + xs
  {
    assert (xss + [xs])[..|xss|] == xss;
  }

  lemma {:induction false} FlatHead<T>(xss: seq<seq<T>>)
    requires xss != []
    ensures Flat(xss) == xss[0] + Flat(xss[1..])
    decreases |xss|
  {
    var n := |xss| - 1;
    if n == 0 {
      assert Flat(xss[..0]) == [] && Flat(xss[1..]) == [];
      assert [] + xss[0] == xss[0] + [];
    } else {
      FlatHead(xss[..n]);
      assert xss[..n][1..] == xss[1..][..n - 1];
      Assoc(xss[0], Flat(xss[1..][..n - 1]), xss[n]);
    }
  }

  lemma Row(m: nat, k: nat)
    requires m > 0
    ensures m * k == (m - 1) * k + k
  {
  }

  lemma {:induction false} FlatSize<T>(xss: seq<seq<T>>, k: nat)
    requires forall r :: 0 <= r < |xss| ==> |xss[r]| == k
    ensures |Flat(xss)| == |xss| * k
  {
    if xss != [] {
      FlatSize(xss[..|xss| - 1], k);
      Row(|xss|, k);
    }
  }

  // Rows of equal width keep their places.
  lemma {:induction false} FlatAt<T>(xss: seq<seq<T>>, k: nat, r: nat, c: nat)
    requires forall i :: 0 <= i < |xss| ==> |xss[i]| == k
    requires r < |xss| && c < k
    ensures 0 <= r * k + c < |Flat(xss)| == |xss| * k && Flat(xss)[r * k + c] == xss[r][c]
  {
    var n := |xss| - 1;
    FlatSize(xss, k);
    FlatSize(xss[..n], k);
    if r < n {
      FlatAt(xss[..n], k, r, c);
    }
  }

  // ---------- UPDATE ----------

  datatype SetItem = SetItem(ref: Ref, val: Pred)

  datatype Change = Change(table: string, sets: seq<SetItem>, cond: Option<Pred>)

  function PrintSet(s: SetItem): seq<Tok> { PrintRef(s.ref) + ([Assign] + PrintPred(s.val)) }

  function SetParts(ss: seq<SetItem>): (r: seq<seq<Tok>>)
    ensures |r| == |ss|
  {
    seq(|ss|, i requires 0 <= i < |ss| => PrintSet(ss[i]))
  }

  function SetArgs(ss: seq<SetItem>): (r: seq<seq<Value>>)
    ensures |r| == |ss|
  {
    seq(|ss|, i requires 0 <= i < |ss| => ArgsPred(ss[i].val))
  }

  function PrintChange(c: Change): seq<Tok> {
    [Update, Name(c.table), SetKw] + (CommaJoin(SetParts(c.sets)) + PrintClause(Where, c.cond))
  }

  function ArgsChange(c: Change): seq<Value> { Flat(SetArgs(c.sets)) + ArgsClause(c.cond) }

  function ParseSet(ts: seq<Tok>, xs: seq<Value>): (r: Parsed<SetItem>)
    ensures r.Ok? ==> |r.ts| < |ts|
  {
    match ParseRef(ts, xs)
    case Fail => Fail
    case Ok(ref, ts', xs') =>
      if !Starts(ts', Assign) then Fail else
        match ParsePred(ts'[1..], xs')
        case Fail => Fail
        case Ok(p, ts'', xs'') => Ok(SetItem(ref, p), ts'', xs'')
  }

  // `done`, and the items after it.
  function ParseSets(done: seq<SetItem>, ts: seq<Tok>, xs: seq<Value>): Parsed<seq<SetItem>>
    decreases |ts|
  {
    if !Starts(ts, Comma) then Ok(done, ts, xs) else
      match ParseSet(ts[1..], xs)
      case Fail => Fail
      case Ok(s, ts', xs') => ParseSets(done + [s], ts', xs')
  }

  function ParseChange(ts: seq<Tok>, xs: seq<Value>): Parsed<Change> {
    if !(|ts| >= 3 && ts[0].Update? && ts[1].Name? && ts[2].SetKw?) then Fail else
      match ParseSet(ts[3..], xs)
      case Fail => Fail
      case Ok(s, ts', xs') =>
        match ParseSets([s], ts', xs')
        case Fail => Fail
        case Ok(sets, ts'', xs'') =>
          match ParseClause(Where, ts'', xs'')
          case Fail => Fail
          case Ok(cond, k, ys) => Ok(Change(ts[1].name, sets, cond), k, ys)
  }

  lemma SetRT(s: SetItem, k: seq<Tok>, ys: seq<Value>)
    requires PredEnd(k)
    ensures ParseSet(PrintSet(s) + k, ArgsPred(s.val) + ys) == Ok(s, k, ys)
  {
    hide ParseRef, ParsePred, PrintRef, PrintPred, ArgsPred;
    var tail := [Assign] + (PrintPred(s.val) + k);
    Assoc(PrintRef(s.ref), [Assign] + PrintPred(s.val), k);
    Assoc([Assign], PrintPred(s.val), k);
    RefRT(s.ref, tail, ArgsPred(s.val) + ys);
    Behind(Assign, PrintPred(s.val) + k);
    PredRT(s.val, k, ys);
  }

  lemma {:induction false} SetsRT(done: seq<SetItem>, ss: seq<SetItem>, k: seq<Tok>, ys: seq<Value>)
    requires PredEnd(k) && !Starts(k, Comma)
    ensures ParseSets(done, CommaTail(SetParts(ss)) + k, Flat(SetArgs(ss)) + ys) == Ok(done + ss, k, ys)
    decreases |ss|
  {
    if ss == [] {
      assert [] + k == k && done + [] == done && [] + ys == ys;
    } else {
      hide PrintSet, ParseSet, ArgsPred, Flat, CommaTail;
      TailSplit(SetParts(ss), k);
      assert SetParts(ss)[1..] == SetParts(ss[1..]);
      assert SetArgs(ss)[1..] == SetArgs(ss[1..]);
      FlatHead(SetArgs(ss));
      Assoc(SetArgs(ss)[0], Flat(SetArgs(ss[1..])), ys);
      TailEnds(SetParts(ss[1..]), k);
      SetRT(ss[0], CommaTail(SetParts(ss[1..])) + k, Flat(SetArgs(ss[1..])) + ys);
      SetsRT(done + [ss[0]], ss[1..], k, ys);
      Prepend(done, ss);
    }
  }

  lemma TailEnds(parts: seq<seq<Tok>>, k: seq<Tok>)
    requires PredEnd(k)
    ensures PredEnd(CommaTail(parts) + k)
  {
    if parts == [] {
      assert [] + k == k;
    } else {
      TailSplit(parts, k);
    }
  }

  // The text and the arguments of an UPDATE determine it.
  lemma ChangeRT(c: Change)
    requires c.sets != []
    ensures ParseChange(PrintChange(c) + [Semi], ArgsChange(c)) == Ok(c, [Semi], [])
  {
    hide PrintChange, ArgsChange, ParseSet, ParseSets, ParseClause, PrintSet, ArgsPred, PrintClause, ArgsClause, Flat;
    hide CommaTail, SetParts, SetArgs, PredEnd;
    var tail := PrintClause(Where, c.cond) + [Semi];
    var first, rest := c.sets[0], c.sets[1..];
    ChangeShape(c);
    ChangeTail(c.cond);
    TailEnds(SetParts(rest), tail);
    SetRT(first, CommaTail(SetParts(rest)) + tail, Flat(SetArgs(rest)) + ArgsClause(c.cond));
    SetsRT([first], rest, tail, ArgsClause(c.cond));
    ClauseRT(Where, c.cond, [Semi], []);
    assert ArgsClause(c.cond) + [] == ArgsClause(c.cond);
    assert [first] + rest == c.sets;
  }

  lemma ChangeTail(cond: Option<Pred>)
    ensures var k := PrintClause(Where, cond) + [Semi]; PredEnd(k) && !Starts(k, Comma)
    ensures PredEnd([Semi])
  {
  }

  lemma ChangeShape(c: Change)
    requires c.sets != []
    ensures var ts, tail := PrintChange(c) + [Semi], PrintClause(Where, c.cond) + [Semi];
      && |ts| >= 3 && ts[..3] == [Update, Name(c.table), SetKw]
      && ts[3..] == PrintSet(c.sets[0]) + (CommaTail(SetParts(c.sets[1..])) + tail)
    ensures ArgsChange(c) == ArgsPred(c.sets[0].val) + (Flat(SetArgs(c.sets[1..])) + ArgsClause(c.cond))
  {
    hide PrintSet, ArgsPred, PrintClause, ArgsClause, Flat, CommaTail, CommaJoin;
    var rest := c.sets[1..];
    CommaJoinHead(SetParts(c.sets));
    assert SetParts(c.sets)[1..] == SetParts(rest);
    FlatHead(SetArgs(c.sets));
    assert SetArgs(c.sets)[1..] == SetArgs(rest);
    Assoc(ArgsPred(c.sets[0].val), Flat(SetArgs(rest)), ArgsClause(c.cond));
    var head, sets, where := PrintSet(c.sets[0]), CommaTail(SetParts(rest)), PrintClause(Where, c.cond);
    assert ([Update, Name(c.table), SetKw] + ((head + sets) + where)) + [Semi]
        == [Update, Name(c.table), SetKw] + (head + (sets + (where + [Semi])));
  }

  lemma MarksSet(s: SetItem)
    ensures Marks(PrintSet(s)) == |ArgsPred(s.val)|
  {
    MarksRef(s.ref);
    MarksPred(s.val);
    MarksAppend([Assign], PrintPred(s.val));
    MarksAppend(PrintRef(s.ref), [Assign] + PrintPred(s.val));
  }

  lemma {:induction false} MarksSets(ss: seq<SetItem>)
    ensures Marks(CommaJoin(SetParts(ss))) == |Flat(SetArgs(ss))|
  {
    hide Marks, PrintSet, ArgsPred, CommaJoin;
    MarksJoin(SetParts(ss));
    if ss != [] {
      var n := |ss| - 1;
      MarksSets(ss[..n]);
      assert SetParts(ss)[..n] == SetParts(ss[..n]) && SetArgs(ss)[..n] == SetArgs(ss[..n]);
      MarksSet(ss[n]);
    }
  }

  lemma MarksChange(c: Change)
    ensures Marks(PrintChange(c)) == |ArgsChange(c)|
  {
    MarksSets(c.sets);
    MarksClause(Where, c.cond);
    Marks3(Update, Name(c.table), SetKw);
    MarksAppend(CommaJoin(SetParts(c.sets)), PrintClause(Where, c.cond));
    MarksAppend([Update, Name(c.table), SetKw], CommaJoin(SetParts(c.sets)) + PrintClause(Where, c.cond));
  }
}
