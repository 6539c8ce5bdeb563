// What sharing a subquery costs. Its text is cached and its arguments are not,
// so a statement keeps one argument for every placeholder exactly when no cell
// whose text has placeholders is reached twice.
module SqlSharing {
  import opened Wrappers
  import opened SqlTree
  import opened SqlMarks
  import opened Models
  import opened SqlBuilder

  // The uses of subqueries in expressions, in the order they are written; FROM
  // does not use the cell.
  function UsesE(reg: Registry, e: Expression): seq<Subquery>
    decreases SizeE(e), 0
  {
    match e
    case Bin(l, _, r) => UsesE(reg, l) + UsesE(reg, r)
    case Sub(s) => if Resolves(reg, s) then [s] + UsesSel(reg, s.q) else []
    case SubPred(_, s) => if Resolves(reg, s) then [s] + UsesSel(reg, s.q) else []
    case _ => []
  }

  function UsesEs(reg: Registry, ps: seq<Expression>): seq<Subquery>
    decreases SizeEs(ps), 1
  {
    if ps == [] then [] else UsesE(reg, AndAll(ps))
  }

  function UsesT(reg: Registry, t: TableRef): seq<Subquery>
    decreases SizeT(t), 2
  {
    match t
    case SubT(s) => UsesSel(reg, s.q)
    case JoinOf(l, _, r, _, on) => UsesT(reg, l) + (UsesT(reg, r) + UsesEs(reg, on))
    case _ => []
  }

  function UsesSel(reg: Registry, q: Selector): seq<Subquery>
    decreases SizeSel(q), 3
  {
    UsesT(reg, q.table) + (UsesEs(reg, q.where) + UsesEs(reg, q.having))
  }

  // The text of a subquery has no placeholder.
  predicate Bare(reg: Registry, s: Subquery) { Marks(Printed(reg, s.q)) == 0 }

  // No cell whose text has placeholders is used twice, or once if it is filled.
  ghost predicate Clean(reg: Registry, us: seq<Subquery>, filled: set<CacheCell>) {
    && (forall i :: 0 <= i < |us| && us[i].cell in filled ==> Bare(reg, us[i]))
    && (forall i, j :: 0 <= i < j < |us| && us[i].cell == us[j].cell ==> Bare(reg, us[i]))
  }

  // A cell stands for one selector.
  ghost predicate Alike(subs: set<Subquery>) {
    forall s, t :: s in subs && t in subs && s.cell == t.cell ==> s.q == t.q
  }

  // The uses of a set of subqueries.
  ghost predicate Lists(us: seq<Subquery>, subs: set<Subquery>) {
    (forall i :: 0 <= i < |us| ==> us[i] in subs) && forall s <- subs :: s in us
  }

  lemma CleanParts(reg: Registry, a: seq<Subquery>, ps: set<Subquery>, b: seq<Subquery>, qs: set<Subquery>,
                   filled: set<CacheCell>)
    requires Lists(a, ps) && Lists(b, qs) && Alike(ps + qs)
    ensures Clean(reg, a + b, filled) <==> Clean(reg, a, filled) && Clean(reg, b, filled + Cells(ps))
  {
    hide Bare;
    var ab := a + b;
    assert forall i :: 0 <= i < |a| ==> ab[i] == a[i];
    assert forall i :: 0 <= i < |b| ==> ab[|a| + i] == b[i];
    if Clean(reg, ab, filled) {
      forall i | 0 <= i < |b| && b[i].cell in filled + Cells(ps) ensures Bare(reg, b[i]) {
        if b[i].cell in filled {
          assert ab[|a| + i].cell in filled;
        } else {
          var s :| s in ps && s.cell == b[i].cell;
          var k :| 0 <= k < |a| && a[k] == s;
          assert s in ps + qs && b[i] in ps + qs;
          assert ab[k].cell == ab[|a| + i].cell;
          BareAlike(reg, s, b[i]);
        }
      }
      forall i, j | 0 <= i < j < |b| && b[i].cell == b[j].cell ensures Bare(reg, b[i]) {
        assert ab[|a| + i].cell == ab[|a| + j].cell;
      }
    }
    if Clean(reg, a, filled) && Clean(reg, b, filled + Cells(ps)) {
      forall i, j | 0 <= i < j < |ab| && ab[i].cell == ab[j].cell ensures Bare(reg, ab[i]) {
        if i < |a| && j >= |a| {
          assert b[j - |a|] == ab[j] && a[i] in ps && ab[j] in qs;
          assert a[i] in ps + qs && ab[j] in ps + qs;
          assert b[j - |a|].cell in Cells(ps);
          BareAlike(reg, ab[i], ab[j]);
        } else if i >= |a| {
          assert b[i - |a|] == ab[i] && b[j - |a|] == ab[j];
        }
      }
      forall i | 0 <= i < |ab| && ab[i].cell in filled ensures Bare(reg, ab[i]) {
        if i >= |a| {
          assert b[i - |a|] == ab[i];
        }
      }
    }
  }

  lemma BareAlike(reg: Registry, s: Subquery, t: Subquery)
    requires s.q == t.q
    ensures Bare(reg, s) <==> Bare(reg, t)
  {
  }

  lemma {:induction false} UsesAllE(reg: Registry, e: Expression)
    ensures Lists(UsesE(reg, e), SubsE(reg, e))
    decreases SizeE(e), 0
  {
    match e
    case Bin(l, _, r) => UsesAllE(reg, l); UsesAllE(reg, r);
    case Sub(s) => UsesAllSel(reg, s.q);
    case SubPred(_, s) => UsesAllSel(reg, s.q);
    case _ =>
  }

  lemma {:induction false} UsesAllEs(reg: Registry, ps: seq<Expression>)
    ensures Lists(UsesEs(reg, ps), SubsEs(reg, ps))
    decreases SizeEs(ps), 1
  {
    if ps != [] {
      UsesAllE(reg, AndAll(ps));
    }
  }

  lemma {:induction false} UsesAllT(reg: Registry, t: TableRef)
    ensures Lists(UsesT(reg, t), SubsT(reg, t))
    decreases SizeT(t), 2
  {
    match t
    case SubT(s) => UsesAllSel(reg, s.q);
    case JoinOf(l, _, r, _, on) => UsesAllT(reg, l); UsesAllT(reg, r); UsesAllEs(reg, on);
    case _ =>
  }

  lemma {:induction false} UsesAllSel(reg: Registry, q: Selector)
    ensures Lists(UsesSel(reg, q), SubsSel(reg, q))
    decreases SizeSel(q), 3
  {
    UsesAllT(reg, q.table);
    UsesAllEs(reg, q.where);
    UsesAllEs(reg, q.having);
  }

  // A subquery inside a bare one is bare.
  lemma {:induction false} BareInE(reg: Registry, m: Model, e: Expression)
    requires ResolveExpr(reg, m, e).Some? && ArgsExpr(ResolveExpr(reg, m, e).value) == []
    ensures forall s <- SubsE(reg, e) :: Bare(reg, s)
    decreases SizeE(e), 1
  {
    hide SubsSel, ArgsQuery, ResolveSel, PrintQuery, Marks;
    match e
    case Bin(_, _, _) => BareInPred(reg, m, e);
    case Sub(s) => BareInSub(reg, s);
    case SubPred(_, s) => if Resolves(reg, s) { BareInSub(reg, s); }
    case _ =>
  }

  lemma {:induction false} BareInSub(reg: Registry, s: Subquery)
    requires Resolves(reg, s) && ArgsQuery(ResolveSel(reg, s.q).value) == []
    ensures Bare(reg, s) && forall t <- SubsSel(reg, s.q) :: Bare(reg, t)
    decreases SizeSel(s.q), 4
  {
    hide SubsSel, ArgsQuery, ResolveSel, PrintQuery, Marks;
    MarksQuery(ResolveSel(reg, s.q).value);
    BareInSel(reg, s.q);
  }

  lemma {:induction false} BareInPred(reg: Registry, m: Model, e: Expression)
    requires e.Bin? && ResolvePred(reg, m, e).Some? && ArgsPred(ResolvePred(reg, m, e).value) == []
    ensures forall s <- SubsE(reg, e) :: Bare(reg, s)
    decreases SizeE(e), 0
  {
    hide ArgsExpr, ResolveExpr, Bare;
    if !e.l.NilE? { BareInE(reg, m, e.l); }
    if !e.r.NilE? { BareInE(reg, m, e.r); }
  }

  lemma {:induction false} BareInEs(reg: Registry, m: Model, ps: seq<Expression>)
    requires ResolveClause(reg, m, ps).Good? && ArgsClause(ResolveClause(reg, m, ps).p) == []
    ensures forall s <- SubsEs(reg, ps) :: Bare(reg, s)
    decreases SizeEs(ps), 2
  {
    if ps != [] {
      BareInPred(reg, m, AndAll(ps));
    }
  }

  lemma {:induction false} BareInT(reg: Registry, m: Model, t: TableRef)
    requires ResolveTable(reg, m, t).Some? && ArgsTable(ResolveTable(reg, m, t).value) == []
    ensures forall s <- SubsT(reg, t) :: Bare(reg, s)
    decreases SizeT(t), 3
  {
    hide Bare, ArgsQuery, ResolveSel, ResolveClause, ArgsClause, SubsEs, SubsSel;
    match t
    case SubT(s) => BareInSel(reg, s.q);
    case JoinOf(l, _, r, _, on) => BareInT(reg, m, l); BareInT(reg, m, r); BareInEs(reg, m, on);
    case _ =>
  }

  lemma {:induction false} BareInSel(reg: Registry, q: Selector)
    requires ResolveSel(reg, q).Some? && ArgsQuery(ResolveSel(reg, q).value) == []
    ensures forall s <- SubsSel(reg, q) :: Bare(reg, s)
    decreases SizeSel(q), 3
  {
    hide Bare, ResolveTable, ArgsTable, ResolveClause, ArgsClause, SubsT, SubsEs, ResolveColumns, ResolveGroup;
    hide ArgsSels;
    var m := reg[q.entity];
    BareInT(reg, m, q.table);
    BareInEs(reg, m, q.where);
    BareInEs(reg, m, q.having);
  }

  // ---------- how many arguments are left ----------

  // No more arguments than the tree has, and all of them exactly on clean uses.
  ghost predicate Kept(reg: Registry, once: seq<Value>, all: seq<Value>, us: seq<Subquery>, filled: set<CacheCell>) {
    |once| <= |all| && (|once| == |all| <==> Clean(reg, us, filled))
  }

  lemma KeptParts(reg: Registry, x: seq<Value>, a: seq<Value>, us: seq<Subquery>, ps: set<Subquery>,
                  y: seq<Value>, b: seq<Value>, vs: seq<Subquery>, qs: set<Subquery>, filled: set<CacheCell>)
    requires Lists(us, ps) && Lists(vs, qs) && Alike(ps + qs)
    requires Kept(reg, x, a, us, filled) && Kept(reg, y, b, vs, filled + Cells(ps))
    ensures Kept(reg, x + y, a + b, us + vs, filled)
  {
    hide Clean;
    CleanParts(reg, us, ps, vs, qs, filled);
  }

  lemma KeptRest(reg: Registry, x: seq<Value>, a: seq<Value>, us: seq<Subquery>, filled: set<CacheCell>, y: seq<Value>)
    requires Kept(reg, x, a, us, filled)
    ensures Kept(reg, x + y, a + y, us, filled) && Kept(reg, y + x, y + a, us, filled)
  {
  }

  lemma NoUses(reg: Registry, vs: seq<Value>, filled: set<CacheCell>)
    ensures Kept(reg, vs, vs, [], filled)
  {
  }

  lemma {:induction false} KeptE(reg: Registry, m: Model, e: Expression, filled: set<CacheCell>)
    requires ResolveExpr(reg, m, e).Some? && Alike(SubsE(reg, e))
    ensures Kept(reg, OnceE(reg, e, filled), ArgsExpr(ResolveExpr(reg, m, e).value), UsesE(reg, e), filled)
    decreases SizeE(e), 1
  {
    hide Kept, SubsSel, UsesSel, OnceSel, ArgsQuery, ResolveSel, ArgsPred, ResolvePred, Alike;
    match e
    case Bin(_, _, _) => KeptPred(reg, m, e, filled);
    case Sub(s) => KeptSub(reg, s, filled);
    case SubPred(_, s) =>
      if Resolves(reg, s) {
        KeptSub(reg, s, filled);
      } else {
        NoUses(reg, [], filled);
      }
    case Val(v) => NoUses(reg, [v], filled);
    case Raw(raw) => NoUses(reg, raw.args, filled);
    case _ => NoUses(reg, [], filled);
  }

  lemma {:induction false} KeptSub(reg: Registry, s: Subquery, filled: set<CacheCell>)
    requires Resolves(reg, s) && Alike({s} + SubsSel(reg, s.q))
    ensures Kept(reg, OnceSub(reg, s, filled), ArgsQuery(ResolveSel(reg, s.q).value), [s] + UsesSel(reg, s.q), filled)
    decreases SizeSel(s.q), 5
  {
    hide SubsSel, UsesSel, OnceSel, ArgsQuery, ResolveSel, PrintQuery, Marks;
    var us := [s] + UsesSel(reg, s.q);
    MarksQuery(ResolveSel(reg, s.q).value);
    UsesAllSel(reg, s.q);
    WholeSel(reg, s.q);
    if s.cell in filled {
      if ArgsQuery(ResolveSel(reg, s.q).value) == [] {
        BareInSel(reg, s.q);
        assert forall t <- us :: Bare(reg, t);
      } else {
        assert us[0] == s && !Bare(reg, s);
      }
    } else {
      KeptSel(reg, s.q, filled);
      forall t <- UsesSel(reg, s.q) ensures t.cell != s.cell {
        assert t in SubsSel(reg, s.q) && SizeSel(t.q) < SizeSel(s.q);
      }
      FirstUse(reg, s, UsesSel(reg, s.q), filled);
    }
  }

  lemma FirstUse(reg: Registry, s: Subquery, vs: seq<Subquery>, filled: set<CacheCell>)
    requires s.cell !in filled && forall t <- vs :: t.cell != s.cell
    ensures Clean(reg, [s] + vs, filled) <==> Clean(reg, vs, filled)
  {
    hide Bare;
    var us := [s] + vs;
    assert forall i :: 0 <= i < |vs| ==> us[i + 1] == vs[i];
    if Clean(reg, us, filled) {
      forall i, j | 0 <= i < j < |vs| && vs[i].cell == vs[j].cell ensures Bare(reg, vs[i]) {
        assert us[i + 1].cell == us[j + 1].cell;
      }
    }
  }

  lemma {:induction false} KeptPred(reg: Registry, m: Model, e: Expression, filled: set<CacheCell>)
    requires e.Bin? && ResolvePred(reg, m, e).Some? && Alike(SubsE(reg, e))
    ensures Kept(reg, OnceE(reg, e, filled), ArgsPred(ResolvePred(reg, m, e).value), UsesE(reg, e), filled)
    decreases SizeE(e), 0
  {
    hide Kept, ArgsExpr, ResolveExpr, Cells;
    var mid := filled + Cells(SubsE(reg, e.l));
    UsesAllE(reg, e.l);
    UsesAllE(reg, e.r);
    if e.l.NilE? {
      assert mid == filled by { NoCells(); }
      KeptE(reg, m, e.r, filled);
      assert [] + OnceE(reg, e.r, filled) == OnceE(reg, e.r, filled) && [] + UsesE(reg, e.r) == UsesE(reg, e.r);
    } else if e.r.NilE? {
      KeptE(reg, m, e.l, filled);
      assert OnceE(reg, e.l, filled) + [] == OnceE(reg, e.l, filled) && UsesE(reg, e.l) + [] == UsesE(reg, e.l);
    } else {
      var (l, r) := (ResolveExpr(reg, m, e.l).value, ResolveExpr(reg, m, e.r).value);
      KeptE(reg, m, e.l, filled);
      KeptE(reg, m, e.r, mid);
      KeptParts(reg, OnceE(reg, e.l, filled), ArgsExpr(l), UsesE(reg, e.l), SubsE(reg, e.l),
                OnceE(reg, e.r, mid), ArgsExpr(r), UsesE(reg, e.r), SubsE(reg, e.r), filled);
    }
  }

  lemma NoCells()
    ensures Cells({}) == {}
  {
  }

  lemma {:induction false} KeptEs(reg: Registry, m: Model, ps: seq<Expression>, filled: set<CacheCell>)
    requires ResolveClause(reg, m, ps).Good? && Alike(SubsEs(reg, ps))
    ensures Kept(reg, OnceEs(reg, ps, filled), ArgsClause(ResolveClause(reg, m, ps).p), UsesEs(reg, ps), filled)
    decreases SizeEs(ps), 2
  {
    hide Kept;
    if ps == [] {
      NoUses(reg, [], filled);
    } else {
      KeptPred(reg, m, AndAll(ps), filled);
    }
  }

  lemma {:induction false} KeptT(reg: Registry, m: Model, t: TableRef, filled: set<CacheCell>)
    requires ResolveTable(reg, m, t).Some? && Alike(SubsT(reg, t))
    ensures Kept(reg, OnceT(reg, t, filled), ArgsTable(ResolveTable(reg, m, t).value), UsesT(reg, t), filled)
    decreases SizeT(t), 3
  {
    hide Kept, Cells, ArgsQuery, ResolveSel, SubsSel, OnceSel, UsesSel, ResolveClause, ArgsClause, SubsEs;
    hide OnceEs, UsesEs;
    match t
    case SubT(s) => KeptSel(reg, s.q, filled);
    case JoinOf(l, _, r, _, on) =>
      var (l', r', on') := (ResolveTable(reg, m, l).value, ResolveTable(reg, m, r).value, ResolveClause(reg, m, on).p);
      var (ls, rs, os) := (SubsT(reg, l), SubsT(reg, r), SubsEs(reg, on));
      var afterL := filled + Cells(ls);
      UsesAllT(reg, l);
      UsesAllT(reg, r);
      UsesAllEs(reg, on);
      KeptT(reg, m, l, filled);
      KeptT(reg, m, r, afterL);
      KeptEs(reg, m, on, afterL + Cells(rs));
      KeptParts(reg, OnceT(reg, r, afterL), ArgsTable(r'), UsesT(reg, r), rs,
                OnceEs(reg, on, afterL + Cells(rs)), ArgsClause(on'), UsesEs(reg, on), os, afterL);
      KeptParts(reg, OnceT(reg, l, filled), ArgsTable(l'), UsesT(reg, l), ls,
                OnceT(reg, r, afterL) + OnceEs(reg, on, afterL + Cells(rs)), ArgsTable(r') + ArgsClause(on'),
                UsesT(reg, r) + UsesEs(reg, on), rs + os, filled);
    case _ => NoUses(reg, [], filled);
  }

  lemma {:induction false} KeptSel(reg: Registry, q: Selector, filled: set<CacheCell>)
    requires ResolveSel(reg, q).Some? && Alike(SubsSel(reg, q))
    ensures Kept(reg, OnceSel(reg, q, filled), ArgsQuery(ResolveSel(reg, q).value), UsesSel(reg, q), filled)
    decreases SizeSel(q), 4
  {
    hide Kept, Cells, ResolveTable, ArgsTable, SubsT, OnceT, UsesT, ResolveClause, ArgsClause, SubsEs, OnceEs, UsesEs;
    hide ResolveColumns, ArgsSels, RawArgs, ResolveGroup, NumberArgs, ArgsNumber;
    var m := reg[q.entity];
    var (ts, ws, hs) := (SubsT(reg, q.table), SubsEs(reg, q.where), SubsEs(reg, q.having));
    var r := ResolveSel(reg, q).value;
    var afterT, afterW := filled + Cells(ts), filled + Cells(ts) + Cells(ws);
    var (xt, xw, xh) := (OnceT(reg, q.table, filled), OnceEs(reg, q.where, afterT), OnceEs(reg, q.having, afterW));
    UsesAllT(reg, q.table);
    UsesAllEs(reg, q.where);
    UsesAllEs(reg, q.having);
    RawArgsOf(reg, m, q.columns);
    KeptT(reg, m, q.table, filled);
    KeptEs(reg, m, q.where, afterT);
    KeptEs(reg, m, q.having, afterW);
    KeptRest(reg, xh, ArgsClause(r.having), UsesEs(reg, q.having), afterW, NumberArgs(q));
    KeptParts(reg, xw, ArgsClause(r.cond), UsesEs(reg, q.where), ws,
              xh + NumberArgs(q), ArgsClause(r.having) + NumberArgs(q), UsesEs(reg, q.having), hs, afterT);
    KeptParts(reg, xt, ArgsTable(r.table), UsesT(reg, q.table), ts,
              xw + (xh + NumberArgs(q)), ArgsClause(r.cond) + (ArgsClause(r.having) + NumberArgs(q)),
              UsesEs(reg, q.where) + UsesEs(reg, q.having), ws + hs, filled);
    KeptRest(reg, xt + (xw + (xh + NumberArgs(q))),
             ArgsTable(r.table) + (ArgsClause(r.cond) + (ArgsClause(r.having) + NumberArgs(q))),
             UsesSel(reg, q), filled, RawArgs(q.columns));
    OnceSelIs(reg, q, filled);
    ArgsQueryIs(reg, q);
  }

  lemma OnceSelIs(reg: Registry, q: Selector, filled: set<CacheCell>)
    ensures var afterT := filled + Cells(SubsT(reg, q.table));
            var afterW := afterT + Cells(SubsEs(reg, q.where));
            OnceSel(reg, q, filled) == RawArgs(q.columns) + (OnceT(reg, q.table, filled) +
            (OnceEs(reg, q.where, afterT) + (OnceEs(reg, q.having, afterW) + NumberArgs(q))))
  {
    FromParts(reg, q, filled);
    TailParts(reg, q, filled + Cells(SubsT(reg, q.table)));
  }

  lemma ArgsQueryIs(reg: Registry, q: Selector)
    requires ResolveSel(reg, q).Some?
    ensures var r := ResolveSel(reg, q).value;
            ArgsQuery(r) == ArgsSels(r.cols) + (ArgsTable(r.table) +
            (ArgsClause(r.cond) + (ArgsClause(r.having) + NumberArgs(q))))
  {
    hide ResolveColumns, ResolveTable, ResolveClause, ResolveGroup;
  }

  // ---------- whole statements ----------

  // Whatever a statement shares, its text is that of its tree. It has as many
  // arguments as placeholders exactly when no cell whose text has placeholders
  // is used twice, or once if it was filled before; otherwise it has fewer.
  method BuildShared(reg: Registry, q: Selector, ghost filled: set<CacheCell>) returns (ok: bool)
    requires q.b.ReadyBody(reg, q, filled) && q.b.sb == [] && q.b.args == []
    modifies FootSel(q)
    ensures ok <==> ResolveSel(reg, q).Some?
    ensures ok ==> q.b.sb == PrintQuery(ResolveSel(reg, q).value) + [Semi]
    ensures ok ==> |q.b.args| <= Marks(q.b.sb)
    ensures ok ==> (|q.b.args| == Marks(q.b.sb) <==> Clean(reg, UsesSel(reg, q), filled))
  {
    hide FootSel, OwnParts, SubsSel, OnceSel, Reach, SubsOk, Cells, ShapeSel, BalancedSel, LoneParts, Inside;
    hide ResolveSel, PrintQuery, ArgsQuery, UsesSel, Clean, Alike, Marks;
    BuilderOf(q);
    SelAlike(reg, q);
    ok := q.b.Build(reg, q, filled);
    if ok {
      ghost var r := ResolveSel(reg, q).value;
      KeptSel(reg, q, filled);
      MarksQuery(r);
      MarksAppend(PrintQuery(r), [Semi]);
      Marks1(Semi);
    }
  }

  lemma BuilderOf(q: Selector)
    ensures q.b in FootSel(q)
  {
  }

  lemma SelAlike(reg: Registry, q: Selector)
    requires ShapeSel(reg, q)
    ensures Alike(SubsSel(reg, q))
  {
    hide SubsSel, OwnSel;
  }

  // A subquery compared with itself.

  function OneColumn(): Registry {
    map["T" := Model("t", [], map["Id" := Field("id", "Id", Type(0, 1), 0, 0)], map[])]
  }

  function Only(b: Builder, e: Expression): Selector {
    Selector(b, "T", [], NoTable, [e], [], [], 0, 0)
  }

  function SevenOf(b: Builder, cell: CacheCell): Subquery {
    Subquery(Only(b, Bin(Col(NoSource, "Id"), Some(EQ), Val(7))), "", cell)
  }

  lemma OnlyIs(b: Builder, e: Expression)
    requires e.Bin?
    ensures var reg, q := OneColumn(), Only(b, e);
            var p := ResolvePred(reg, reg["T"], e);
            && (p.None? ==> ResolveSel(reg, q) == None)
            && (p.Some? ==> ResolveSel(reg, q) == Some(Query([], Named("t", ""), p, [], None, None, None)))
            && (p.Some? ==> ArgsQuery(ResolveSel(reg, q).value) == ArgsPred(p.value))
            && OnceSel(reg, q, {}) == OnceE(reg, e, {})
            && UsesSel(reg, q) == UsesE(reg, e) && SubsSel(reg, q) == SubsE(reg, e)
  {
    hide ResolvePred, OnceE, UsesE, SubsE, ArgsPred;
    var reg, q := OneColumn(), Only(b, e);
    assert q.where == [e] && AndAll([e]) == e;
    NoCells();
    assert SubsT(reg, NoTable) == {} && {} + Cells(SubsT(reg, NoTable)) == {};
    OnceSelIs(reg, q, {});
    assert [] + ([] + (OnceE(reg, e, {}) + ([] + []))) == OnceE(reg, e, {});
    if ResolvePred(reg, reg["T"], e).Some? {
      ArgsQueryIs(reg, q);
    }
  }

  lemma SevenUsed(b: Builder, cell: CacheCell)
    ensures var reg, s := OneColumn(), SevenOf(b, cell);
            && Resolves(reg, s) && ArgsQuery(ResolveSel(reg, s.q).value) == [7] && !Bare(reg, s)
            && OnceSel(reg, s.q, {}) == [7] && UsesSel(reg, s.q) == [] && SubsSel(reg, s.q) == {}
  {
    hide PrintQuery, ResolveSel, ArgsQuery, OnceSel, UsesSel, SubsSel;
    var reg, s, e := OneColumn(), SevenOf(b, cell), Bin(Col(NoSource, "Id"), Some(EQ), Val(7));
    OnlyIs(b, e);
    assert ResolveExpr(reg, reg["T"], e.l) == Some(ColE(Ref("", "id")));
    assert ResolvePred(reg, reg["T"], e) == Some(Binary(ColE(Ref("", "id")), EQ, ValE(7)));
    NoCells();
    assert OnceE(reg, e.l, {}) == [] && OnceE(reg, e.r, {}) == [7];
    assert OnceE(reg, e, {}) == [7];
    MarksQuery(ResolveSel(reg, s.q).value);
  }

  // Two placeholders, one argument.
  lemma ComparedWithItself(b: Builder, inner: Builder, cell: CacheCell)
    ensures var s := SevenOf(inner, cell);
            var reg, q := OneColumn(), Only(b, Bin(Sub(s), Some(EQ), Sub(s)));
            && ResolveSel(reg, q).Some? && OnceSel(reg, q, {}) == [7] && ArgsQuery(ResolveSel(reg, q).value) == [7, 7]
            && !Clean(reg, UsesSel(reg, q), {})
  {
    hide SevenOf, Bare, ResolveSel, OnceSel, UsesSel, ArgsQuery, SubsSel;
    var reg, s := OneColumn(), SevenOf(inner, cell);
    var e := Bin(Sub(s), Some(EQ), Sub(s));
    OnlyIs(b, e);
    SevenUsed(inner, cell);
    var mid := {} + Cells(SubsE(reg, e.l));
    assert OnceE(reg, e.l, {}) == [7];
    assert s.cell in mid && OnceE(reg, e.r, mid) == [];
    assert OnceE(reg, e, {}) == [7];
    var r := ResolveSel(reg, s.q).value;
    assert ResolvePred(reg, reg["T"], e) == Some(Binary(SubE(r), EQ, SubE(r)));
    var us := UsesE(reg, e);
    assert us == [s, s] && us[0].cell == us[1].cell;
  }

  lemma OnlyShape(b: Builder, e: Expression)
    requires e.Bin?
    ensures var reg, q := OneColumn(), Only(b, e);
            && SubsSel(reg, q) == SubsE(reg, e) && OwnSel(reg, q) == {b as object} + OwnE(reg, e)
            && (ShapeE(reg, e) && b !in OwnE(reg, e) && Fits(reg, SubsE(reg, e), {b as object} + OwnE(reg, e)) ==>
                  ShapeSel(reg, q))
            && BalancedSel(q) == BalancedE(e) && LoneParts(reg, q) == LoneE(reg, e)
            && LoneSel(reg, q) == (b.sb == [] && b.args == [] && LoneE(reg, e))
  {
    hide SubsE, OwnE, ShapeE, BalancedE, LoneE, Fits;
    var reg, q := OneColumn(), Only(b, e);
    assert q.where == [e] && AndAll([e]) == e;
    assert {b as object} + ({} + (OwnE(reg, e) + {})) == {b as object} + OwnE(reg, e);
    assert {} + (SubsE(reg, e) + {}) == SubsE(reg, e);
    assert BalancedCols(q.columns) && BalancedParts(q) == BalancedE(e);
  }

  lemma SevenShape(b: Builder, cell: CacheCell)
    requires b.sb == [] && b.args == []
    ensures var reg, s := OneColumn(), SevenOf(b, cell);
            && SubsSel(reg, s.q) == {} && OwnSel(reg, s.q) == {b as object}
            && ShapeSel(reg, s.q) && BalancedSel(s.q) && LoneSel(reg, s.q)
  {
    hide SubsSel, OwnSel, ShapeSel, BalancedSel, LoneSel;
    var reg, e := OneColumn(), Bin(Col(NoSource, "Id"), Some(EQ), Val(7));
    OnlyShape(b, e);
    assert SubsE(reg, e.l) == SubsE(reg, e.r) == {} && OwnE(reg, e.l) == OwnE(reg, e.r) == {};
    assert {b as object} + OwnE(reg, e) == {b as object};
  }

  // Three new objects make that statement ready to be built.
  lemma ComparedReady(b: Builder, inner: Builder, cell: CacheCell)
    requires b != inner && inner.sb == [] && inner.args == [] && cell.sql == []
    ensures var s := SevenOf(inner, cell);
            b.ReadyBody(OneColumn(), Only(b, Bin(Sub(s), Some(EQ), Sub(s))), {})
  {
    hide SevenOf, SubsSel, OwnSel, ShapeSel, BalancedSel, LoneSel, LoneParts, ResolveSel;
    var reg, s := OneColumn(), SevenOf(inner, cell);
    var e := Bin(Sub(s), Some(EQ), Sub(s));
    SevenCell(inner, cell);
    SevenUsed(inner, cell);
    SevenShape(inner, cell);
    OnlyShape(b, e);
    assert SubsE(reg, e.l) == {s} == SubsE(reg, e.r) && OwnE(reg, e.l) == OwnE(reg, e.r) == {};
    assert SubsE(reg, e) == {s} && OwnE(reg, e) == {};
    assert Around(reg, s) == {cell as object, inner};
    assert ShapeSub(reg, s) && ShapeE(reg, e.l);
  }

  lemma SevenCell(b: Builder, cell: CacheCell)
    ensures SevenOf(b, cell).cell == cell && SevenOf(b, cell).q.b == b
  {
  }

  // So it is what a user gets who compares a new subquery with itself.
  method BuildCompared() returns (b: Builder, ok: bool)
    ensures fresh(b) && ok && Marks(b.sb) == 2 && b.args == [7]
  {
    hide SevenOf, ResolveSel, OnceSel, UsesSel, ArgsQuery, PrintQuery, SubsSel, Clean, Marks, Builder.ReadyBody;
    b := new Builder();
    var inner := new Builder();
    var cell := new CacheCell();
    var s := SevenOf(inner, cell);
    var q := Only(b, Bin(Sub(s), Some(EQ), Sub(s)));
    ComparedReady(b, inner, cell);
    ComparedWithItself(b, inner, cell);
    ComparedFoot(b, inner, cell);
    ok := b.Build(OneColumn(), q, {});
    ghost var r := ResolveSel(OneColumn(), q).value;
    assert b.sb == PrintQuery(r) + [Semi];
    MarksQuery(r);
    MarksAppend(PrintQuery(r), [Semi]);
    Marks1(Semi);
  }

  lemma ComparedFoot(b: Builder, inner: Builder, cell: CacheCell)
    ensures var s := SevenOf(inner, cell);
            FootSel(Only(b, Bin(Sub(s), Some(EQ), Sub(s)))) <= {b as object, inner, cell}
  {
    var s := SevenOf(inner, cell);
    var e, e0 := Bin(Sub(s), Some(EQ), Sub(s)), Bin(Col(NoSource, "Id"), Some(EQ), Val(7));
    OnlyFoot(inner, e0);
    OnlyFoot(b, e);
    assert FootE(e.l) == {cell as object} + FootSel(s.q) == FootE(e.r);
  }

  lemma OnlyFoot(b: Builder, e: Expression)
    ensures FootSel(Only(b, e)) == {b as object} + FootE(e)
  {
    hide FootE;
    assert AndAll([e]) == e;
  }
}
