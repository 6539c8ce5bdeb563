// The UPDATE builder of homework_subquery.
module SqlUpdate {
  import opened Wrappers
  import opened Models
  import opened SqlTree
  import opened SqlMarks
  import opened SqlParse
  import opened SqlRoundTrip
  import opened SqlWrite
  import opened SqlBuilder

  // SetRaw is an assignable the builders reject.
  datatype Assignable = SetCol(src: ColSource, name: string) | SetTo(column: string, val: Expression) | SetRaw

  // What val.Field answers, by Go field name.
  type Struct = map<string, Value>

  datatype Updater = Updater(b: Builder, entity: string, val: Struct, assigns: seq<Assignable>, where: seq<Expression>)

  // ---------- resolving ----------

  // An expression where buildExpression writes it without parentheses.
  function ResolveTop(reg: Registry, model: Model, e: Expression): Option<Pred> {
    if e.Bin? then ResolvePred(reg, model, e) else
      match ResolveExpr(reg, model, e) case None => None case Some(x) => Some(Only(x))
  }

  function ResolveAssign(reg: Registry, model: Model, val: Struct, a: Assignable): Option<SetItem> {
    match a
    case SetCol(src, name) =>
      (match ResolveRef(reg, model, src, name)
       case None => None
       case Some(ref) => if name in val then Some(SetItem(ref, Only(ValE(val[name])))) else None)
    case SetTo(column, e) =>
      (match (ResolveRef(reg, model, NoSource, column), ResolveTop(reg, model, e))
       case (Some(ref), Some(p)) => Some(SetItem(ref, p))
       case _ => None)
    case SetRaw => None
  }

  function ResolveAssigns(reg: Registry, model: Model, val: Struct, assigns: seq<Assignable>): Option<seq<SetItem>> {
    if assigns == [] then Some([]) else
      var last := |assigns| - 1;
      match (ResolveAssigns(reg, model, val, assigns[..last]), ResolveAssign(reg, model, val, assigns[last]))
      case (Some(ss), Some(s)) => Some(ss + [s])
      case _ => None
  }

  function ResolveUpdate(reg: Registry, u: Updater): Option<Change> {
    if u.assigns == [] || u.entity !in reg then None else
      match (ResolveAssigns(reg, reg[u.entity], u.val, u.assigns), ResolveClause(reg, reg[u.entity], u.where))
      case (Some(sets), Good(cond)) => Some(Change(reg[u.entity].table, sets, cond))
      case _ => None
  }

  lemma {:induction false} AssignsPrefix(reg: Registry, model: Model, val: Struct, assigns: seq<Assignable>, n: nat)
    requires n <= |assigns| && ResolveAssigns(reg, model, val, assigns[..n]).None?
    ensures ResolveAssigns(reg, model, val, assigns).None?
  {
    if n < |assigns| {
      assert assigns[..|assigns| - 1][..n] == assigns[..n];
      AssignsPrefix(reg, model, val, assigns[..|assigns| - 1], n);
    } else {
      assert assigns[..n] == assigns;
    }
  }

  lemma {:induction false} AssignsSize(reg: Registry, model: Model, val: Struct, assigns: seq<Assignable>)
    requires ResolveAssigns(reg, model, val, assigns).Some?
    ensures |ResolveAssigns(reg, model, val, assigns).value| == |assigns|
  {
    if assigns != [] {
      AssignsSize(reg, model, val, assigns[..|assigns| - 1]);
    }
  }

  // ---------- the objects involved ----------

  function FootA(a: Assignable): set<object> { if a.SetTo? then FootE(a.val) else {} }

  function FootAs(assigns: seq<Assignable>): set<object> {
    set i, o | 0 <= i < |assigns| && o in FootA(assigns[i]) :: o
  }

  lemma AllocA(a: Assignable)
    ensures forall o <- FootA(a) :: allocated(o)
  {
    if a.SetTo? {
      AllocE(a.val);
    }
  }

  ghost predicate ReadyA(b: Builder, a: Assignable)
    reads FootA(a)
  {
    a.SetTo? ==> b.FreshE(a.val)
  }

  // The assignments from i on are untouched.
  ghost predicate ReadyFrom(b: Builder, assigns: seq<Assignable>, i: nat)
    reads FootAs(assigns)
  {
    forall j :: i <= j < |assigns| ==> ReadyA(b, assigns[j])
  }

  // None shares an object with another.
  predicate Apart(assigns: seq<Assignable>) {
    forall j, k :: 0 <= j < k < |assigns| ==> FootA(assigns[j]) !! FootA(assigns[k])
  }

  ghost predicate ReadyUpdate(u: Updater)
    reads u.b, FootAs(u.assigns), FootEs(u.where)
  {
    && ReadyFrom(u.b, u.assigns, 0) && Apart(u.assigns) && u.b.FreshEs(u.where) && FootAs(u.assigns) !! FootEs(u.where)
    && u.b.sb == [] && u.b.args == []
  }

  // ---------- what a build writes ----------

  function SetOut(s: Option<SetItem>): Output {
    match s case None => Failed case Some(s) => Wrote(PrintSet(s), ArgsPred(s.val))
  }

  function SetsOut(ss: Option<seq<SetItem>>): Output {
    match ss case None => Failed case Some(ss) => Wrote(CommaJoin(SetParts(ss)), Flat(SetArgs(ss)))
  }

  function ChangeOut(c: Option<Change>): Output {
    match c case None => Failed case Some(c) => Wrote(PrintChange(c), ArgsChange(c))
  }

  lemma TopIsPred(reg: Registry, model: Model, e: Expression)
    ensures TopOut(reg, model, e) == PredOut(ResolveTop(reg, model, e))
  {
  }

  lemma FieldText(reg: Registry, model: Model, val: Struct, a: Assignable)
    requires a.SetCol?
    ensures SetOut(ResolveAssign(reg, model, val, a)) ==
            Then(RefOut(ResolveRef(reg, model, a.src, a.name)),
                 if a.name in val then Wrote([Assign, Mark], [val[a.name]]) else Failed)
  {
    hide ResolveRef, PrintRef;
    if a.name in val {
      var v := ValE(val[a.name]);
      assert PrintExpr(v) == [Mark] && ArgsExpr(v) == [val[a.name]];
      assert PrintPred(Only(v)) == PrintExpr(v) && ArgsPred(Only(v)) == ArgsExpr(v);
      assert [Assign] + [Mark] == [Assign, Mark] && [] + [val[a.name]] == [val[a.name]];
    }
  }

  lemma SetText(reg: Registry, model: Model, val: Struct, a: Assignable)
    requires a.SetTo?
    ensures SetOut(ResolveAssign(reg, model, val, a)) ==
            Then(RefOut(ResolveRef(reg, model, NoSource, a.column)), Then(Text([Assign]), TopOut(reg, model, a.val)))
  {
    hide TopOut, ResolveTop, ResolveRef, PrintRef, PrintPred, ArgsPred;
    TopIsPred(reg, model, a.val);
    match ResolveTop(reg, model, a.val)
    case None =>
    case Some(p) => assert [] + ([] + ArgsPred(p)) == ArgsPred(p);
  }

  lemma AssignsStep(reg: Registry, model: Model, val: Struct, assigns: seq<Assignable>, i: nat)
    requires i < |assigns| && ResolveAssigns(reg, model, val, assigns[..i]).Some?
    ensures SetsOut(ResolveAssigns(reg, model, val, assigns[..i + 1])) ==
            Then(SetsOut(ResolveAssigns(reg, model, val, assigns[..i])),
                 Then(Text(Separator(i)), SetOut(ResolveAssign(reg, model, val, assigns[i]))))
  {
    hide ResolveAssign, PrintSet, ArgsPred, CommaJoin, Flat;
    assert assigns[..i + 1][..i] == assigns[..i];
    AssignsSize(reg, model, val, assigns[..i]);
    var ss := ResolveAssigns(reg, model, val, assigns[..i]).value;
    match ResolveAssign(reg, model, val, assigns[i])
    case None =>
    case Some(s) => SetsSnoc(ss, s);
  }

  lemma SetsSnoc(ss: seq<SetItem>, s: SetItem)
    ensures CommaJoin(SetParts(ss + [s])) == CommaJoin(SetParts(ss)) + (Separator(|ss|) + PrintSet(s))
    ensures Flat(SetArgs(ss + [s])) == Flat(SetArgs(ss)) + ([] + ArgsPred(s.val))
  {
    hide PrintSet, ArgsPred;
    assert SetParts(ss + [s]) == SetParts(ss) + [PrintSet(s)];
    assert SetArgs(ss + [s]) == SetArgs(ss) + [ArgsPred(s.val)];
    CommaSnoc(SetParts(ss), PrintSet(s));
    FlatSnoc(SetArgs(ss), ArgsPred(s.val));
    assert [] + ArgsPred(s.val) == ArgsPred(s.val);
  }

  lemma ChangeText(reg: Registry, u: Updater)
    requires u.assigns != [] && u.entity in reg
    ensures var m := reg[u.entity];
            ChangeOut(ResolveUpdate(reg, u)) ==
            Then(Text([Update, Name(m.table), SetKw]),
                 Then(SetsOut(ResolveAssigns(reg, m, u.val, u.assigns)),
                      ClauseOut(Where, ResolveClause(reg, m, u.where))))
  {
    hide ResolveAssigns, ResolveClause, CommaJoin, SetParts, SetArgs, Flat, PrintClause, ArgsClause;
    var m := reg[u.entity];
    match (ResolveAssigns(reg, m, u.val, u.assigns), ResolveClause(reg, m, u.where))
    case (Some(sets), Good(cond)) =>
      assert [] + (Flat(SetArgs(sets)) + ArgsClause(cond)) == Flat(SetArgs(sets)) + ArgsClause(cond);
    case _ =>
  }

  lemma NoAssigns(reg: Registry, model: Model, val: Struct)
    ensures SetsOut(ResolveAssigns(reg, model, val, [])) == Text([])
  {
  }

  // ---------- building ----------

  method BuildAssign(b: Builder, reg: Registry, val: Struct, a: Assignable) returns (ok: bool)
    modifies b, FootA(a)
    ensures old(ReadyA(b, a)) ==> b.model == old(b.model)
    ensures old(ReadyA(b, a)) ==>
      Appended(SetOut(ResolveAssign(reg, old(b.model), val, a)), ok, old(b.sb), old(b.args), b.sb, b.args)
  {
    match a
    case SetCol(src, name) =>
      ok := BuildField(b, reg, val, a);
    case SetTo(column, e) =>
      ok := BuildAssignment(b, reg, val, a);
    case SetRaw =>
      return false;
  }

  method BuildField(b: Builder, reg: Registry, val: Struct, a: Assignable) returns (ok: bool)
    requires a.SetCol?
    modifies b
    ensures b.model == old(b.model)
    ensures Appended(SetOut(ResolveAssign(reg, b.model, val, a)), ok, old(b.sb), old(b.args), b.sb, b.args)
  {
    hide ResolveAssign, ResolveRef, SetOut, RefOut;
    ghost var s0, a0 := b.sb, b.args;
    ghost var r := RefOut(ResolveRef(reg, b.model, a.src, a.name));
    FieldText(reg, b.model, val, a);
    ok := b.BuildColumn(reg, a.src, a.name);
    if !ok {
      return;
    }
    ghost var s1, a1 := b.sb, b.args;
    if a.name !in val {
      b.Emit([Assign, Mark], []);
      return false;
    }
    b.Emit([Assign, Mark], [val[a.name]]);
    AppendedThen(r, Wrote([Assign, Mark], [val[a.name]]), true, s0, a0, s1, a1, b.sb, b.args);
  }

  method BuildAssignment(b: Builder, reg: Registry, val: Struct, a: Assignable) returns (ok: bool)
    requires a.SetTo?
    modifies b, FootA(a)
    ensures old(ReadyA(b, a)) ==> b.model == old(b.model)
    ensures old(ReadyA(b, a)) ==>
      Appended(SetOut(ResolveAssign(reg, old(b.model), val, a)), ok, old(b.sb), old(b.args), b.sb, b.args)
  {
    hide FootE, TidyE, BalancedE, UntouchedE, OwnE, SubsE, OnceE, ResolveAssign, ResolveRef, TopOut, SetOut;
    hide RefOut, With;
    hide Builder.ReadyE, SubsOk, Cells, Reach;
    AllocE(a.val);
    ghost var ready, s0, a0 := ReadyA(b, a), b.sb, b.args;
    ghost var r, v := RefOut(ResolveRef(reg, b.model, NoSource, a.column)), TopOut(reg, b.model, a.val);
    SetText(reg, b.model, val, a);
    ok := b.BuildColumn(reg, NoSource, a.column);
    if !ok {
      return;
    }
    ghost var s1, a1 := b.sb, b.args;
    b.Emit([Assign], []);
    ghost var s2, a2 := b.sb, b.args;
    if ready {
      b.FreshReady(reg, b.model, a.val);
    }
    ok := b.BuildExpression(reg, a.val, {});
    if ready {
      AppendedThen(Text([Assign]), v, ok, s1, a1, s2, a2, b.sb, b.args);
      AppendedThen(r, Then(Text([Assign]), v), ok, s0, a0, s1, a1, b.sb, b.args);
    }
  }

  method BuildOne(b: Builder, reg: Registry, val: Struct, i: nat, a: Assignable) returns (ok: bool)
    modifies b, FootA(a)
    ensures old(ReadyA(b, a)) ==> b.model == old(b.model)
    ensures old(ReadyA(b, a)) ==>
      Appended(Then(Text(Separator(i)), SetOut(ResolveAssign(reg, old(b.model), val, a))), ok,
               old(b.sb), old(b.args), b.sb, b.args)
  {
    hide FootE, TidyE, BalancedE, UntouchedE, ResolveAssign, SetOut;
    AllocA(a);
    ghost var ready, s0, a0 := ReadyA(b, a), b.sb, b.args;
    ghost var item := SetOut(ResolveAssign(reg, b.model, val, a));
    if i > 0 {
      b.Emit([Comma], []);
    }
    ghost var s1, a1 := b.sb, b.args;
    ok := BuildAssign(b, reg, val, a);
    if ready {
      AppendedThen(Text(Separator(i)), item, ok, s0, a0, s1, a1, b.sb, b.args);
    }
  }

  method BuildAssigns(b: Builder, reg: Registry, val: Struct, assigns: seq<Assignable>)
      returns (ok: bool)
    modifies b, FootAs(assigns)
    ensures Apart(assigns) && old(ReadyFrom(b, assigns, 0)) ==> b.model == old(b.model)
    ensures Apart(assigns) && old(ReadyFrom(b, assigns, 0)) ==>
      Appended(SetsOut(ResolveAssigns(reg, old(b.model), val, assigns)), ok, old(b.sb), old(b.args), b.sb, b.args)
  {
    hide FootA, ReadyA, ResolveAssigns, ResolveAssign, SetsOut, SetOut;
    ghost var ready, s0, a0, m := Apart(assigns) && ReadyFrom(b, assigns, 0), b.sb, b.args, b.model;
    NoAssigns(reg, m, val);
    assert assigns[..0] == [];
    for i := 0 to |assigns|
      invariant ready ==> b.model == m && ReadyFrom(b, assigns, i)
      invariant ready ==> Appended(SetsOut(ResolveAssigns(reg, m, val, assigns[..i])), true, s0, a0, b.sb, b.args)
    {
      ghost var s1, a1 := b.sb, b.args;
      AllocAs(assigns);
      if ready {
        Outside(b, assigns, i);
      }
      ok := BuildOne(b, reg, val, i, assigns[i]);
      if ready {
        SetsFails(ResolveAssigns(reg, m, val, assigns[..i]));
        AssignsStep(reg, m, val, assigns, i);
        AppendedThen(SetsOut(ResolveAssigns(reg, m, val, assigns[..i])),
                     Then(Text(Separator(i)), SetOut(ResolveAssign(reg, m, val, assigns[i]))), ok,
                     s0, a0, s1, a1, b.sb, b.args);
        if !ok {
          SetsFails(ResolveAssigns(reg, m, val, assigns[..i + 1]));
          AssignsPrefix(reg, m, val, assigns, i + 1);
          SetsFails(ResolveAssigns(reg, m, val, assigns));
        }
      }
      if !ok {
        return;
      }
    }
    assert assigns[..|assigns|] == assigns;
    return true;
  }

  lemma Outside(b: Builder, assigns: seq<Assignable>, i: nat)
    requires ReadyFrom(b, assigns, i)
    ensures forall j :: i <= j < |assigns| ==> b !in FootA(assigns[j])
  {
  }

  lemma SetsFails(ss: Option<seq<SetItem>>)
    ensures SetsOut(ss).Failed? <==> ss.None?
  {
  }

  lemma AllocAs(assigns: seq<Assignable>)
    ensures forall i :: 0 <= i < |assigns| ==> forall o <- FootA(assigns[i]) :: allocated(o)
    ensures forall o <- FootAs(assigns) :: allocated(o)
  {
    forall i | 0 <= i < |assigns| ensures forall o <- FootA(assigns[i]) :: allocated(o) {
      AllocA(assigns[i]);
    }
  }

  method SetModel(b: Builder, m: Model)
    modifies b
    ensures b.model == m && b.sb == old(b.sb) && b.args == old(b.args)
  {
    b.model := m;
  }

  // The whole statement. On a fresh builder and with no shared subquery the
  // text and the arguments are those of the resolved UPDATE.
  method BuildUpdate(reg: Registry, u: Updater) returns (ok: bool)
    modifies u.b, FootAs(u.assigns), FootEs(u.where)
    ensures old(ReadyUpdate(u)) ==>
      Appended(Then(ChangeOut(ResolveUpdate(reg, u)), Text([Semi])), ok, [], [], u.b.sb, u.b.args)
  {
    hide FootAs, FootEs, TidyEs, BalancedEs, UntouchedEs, ResolveAssigns, ResolveClause, ResolveUpdate;
    hide SetsOut, ClauseOut, ChangeOut, ReadyFrom, OwnEs, SubsEs, OnceEs, SubsOk, Cells, Reach, With, Builder.ReadyEs;
    if u.assigns == [] || u.entity !in reg {
      NoUpdate(reg, u);
      return false;
    }
    AllocAs(u.assigns);
    AllocEs(u.where);
    ghost var ready := ReadyUpdate(u);
    ChangeText(reg, u);
    if ready {
      AllOutside(u.b, u.assigns);
    }
    var m := reg[u.entity];
    SetModel(u.b, m);
    ghost var sets := SetsOut(ResolveAssigns(reg, m, u.val, u.assigns));
    ghost var cond := ClauseOut(Where, ResolveClause(reg, m, u.where));
    u.b.Emit([Update, Name(m.table), SetKw], []);
    ghost var s1, a1 := u.b.sb, u.b.args;
    ok := BuildAssigns(u.b, reg, u.val, u.assigns);
    if !ok {
      return;
    }
    ghost var s2, a2 := u.b.sb, u.b.args;
    if ready {
      u.b.FreshClause(reg, m, Where, u.where);
    }
    ok := u.b.BuildClause(reg, Where, u.where, {});
    if !ok {
      return;
    }
    ghost var s3, a3 := u.b.sb, u.b.args;
    u.b.Emit([Semi], []);
    if ready {
      AppendedThen(sets, cond, true, s1, a1, s2, a2, s3, a3);
      AppendedThen(Text([Update, Name(m.table), SetKw]), Then(sets, cond), true, [], [], s1, a1, s3, a3);
      AppendedThen(ChangeOut(ResolveUpdate(reg, u)), Text([Semi]), true, [], [], s3, a3, u.b.sb, u.b.args);
    }
  }

  lemma NoUpdate(reg: Registry, u: Updater)
    requires u.assigns == [] || u.entity !in reg
    ensures ChangeOut(ResolveUpdate(reg, u)) == Failed
  {
  }

  lemma AllOutside(b: Builder, assigns: seq<Assignable>)
    requires ReadyFrom(b, assigns, 0)
    ensures b !in FootAs(assigns)
  {
    Outside(b, assigns, 0);
  }

  // What a successful build writes can be read back, and has one argument for
  // every placeholder.
  lemma UpdateReadsBack(reg: Registry, u: Updater, sb: seq<Tok>, args: seq<Value>)
    requires Appended(Then(ChangeOut(ResolveUpdate(reg, u)), Text([Semi])), true, [], [], sb, args)
    ensures ResolveUpdate(reg, u).Some? && ParseChange(sb, args) == Ok(ResolveUpdate(reg, u).value, [Semi], [])
    ensures Marks(sb) == |args|
  {
    hide PrintChange, ArgsChange, ParseChange, ResolveClause, ResolveAssigns, Marks;
    var c := ResolveUpdate(reg, u).value;
    AssignsSize(reg, reg[u.entity], u.val, u.assigns);
    assert sb == PrintChange(c) + [Semi] && args == ArgsChange(c);
    ChangeRT(c);
    MarksChange(c);
    Marks1(Semi);
    MarksAppend(PrintChange(c), [Semi]);
  }
}
