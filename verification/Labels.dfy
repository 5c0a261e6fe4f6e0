// Every label is defined exactly once.

module Labels {
  // That is because every node of a function has its own number.

  import opened Ir
  import opened Machine
  import opened Ast
  import opened LowerExpr
  import opened LowerCond
  import opened LowerStmt

  function StmtIds(s: Stmt): set<nat>
    decreases s
  {
    match s
    case If(id, c, thn, els) =>
      {id} + CondIds(c) + StmtIds(thn) + (if els.Some? then StmtIds(els.value) else {})
    case While(id, c, body) => {id} + CondIds(c) + StmtIds(body)
    case For(id, _, body) => {id} + StmtIds(body)
    case Block(b) => StmtsIds(b)
    case _ => {}
  }

  function StmtsIds(b: Stmts): set<nat>
    decreases b
  {
    match b
    case NoStmts => {}
    case MoreStmts(s, rest) => StmtIds(s) + StmtsIds(rest)
  }

  predicate Numbered(s: Stmt)
    decreases s
  {
    match s
    case If(id, c, thn, els) =>
      var ec := if els.Some? then StmtIds(els.value) else {};
      && CondNumbered(c) && Numbered(thn) && (els.Some? ==> Numbered(els.value))
      && id !in CondIds(c) + StmtIds(thn) + ec
      && CondIds(c) !! StmtIds(thn) && CondIds(c) !! ec && StmtIds(thn) !! ec
    case While(id, c, body) =>
      CondNumbered(c) && Numbered(body) && id !in CondIds(c) + StmtIds(body) && CondIds(c) !! StmtIds(body)
    case For(id, _, body) => Numbered(body) && id !in StmtIds(body)
    case Block(b) => NumberedAll(b)
    case _ => true
  }

  predicate NumberedAll(b: Stmts)
    decreases b
  {
    match b
    case NoStmts => true
    case MoreStmts(s, rest) => Numbered(s) && NumberedAll(rest) && StmtIds(s) !! StmtsIds(rest)
  }

  // ----- The labels a piece of code defines -----

  function Defs(code: seq<Instr>): set<Instr> {
    set i | i in code && i.op.MakeLabel?
  }

  function NodeOf(l: Label): Option<nat> {
    match l
    case FuncLabel(_) => None
    case ShortLabel(n) => Some(n)
    case IfBody(n) => Some(n)
    case IfElse(n) => Some(n)
    case IfEnd(n) => Some(n)
    case WhileCond(n) => Some(n)
    case WhileBody(n) => Some(n)
    case WhileEnd(n) => Some(n)
    case ForCond(n) => Some(n)
    case ForBody(n) => Some(n)
    case ForNegative(n) => Some(n)
    case ForEnd(n) => Some(n)
  }

  // A label instruction of one of the nodes.
  predicate Owned(i: Instr, ids: set<nat>) {
    |i.operands| == 1 && i.operands[0].LabelOp?
    && NodeOf(i.operands[0].target).Some? && NodeOf(i.operands[0].target).value in ids
  }

  // The code defines its labels once, and only labels of the given nodes.
  ghost predicate Tidy(code: seq<Instr>, ids: set<nat>) {
    UniqueLabels(code) && forall i | i in Defs(code) :: Owned(i, ids)
  }

  lemma DefsConcat(a: seq<Instr>, b: seq<Instr>)
    ensures Defs(a + b) == Defs(a) + Defs(b)
  {
  }

  lemma UniqueConcat(a: seq<Instr>, b: seq<Instr>)
    requires UniqueLabels(a) && UniqueLabels(b) && Defs(a) !! Defs(b)
    ensures UniqueLabels(a + b)
  {
    forall i, j | 0 <= i < j < |a + b| && (a + b)[i].op.MakeLabel? ensures (a + b)[i] != (a + b)[j] {
      if i < |a| <= j {
        var x, y := a[i], b[j - |a|];
        assert x in Defs(a);
        assert y.op.MakeLabel? ==> y in Defs(b);
      }
    }
  }

  lemma OwnedApart(x: set<Instr>, y: set<Instr>, xs: set<nat>, ys: set<nat>)
    requires (forall i | i in x :: Owned(i, xs)) && (forall i | i in y :: Owned(i, ys)) && xs !! ys
    ensures x !! y
  {
    forall i | i in x ensures i !in y {
      assert Owned(i, xs);
    }
  }

  // Two tidy pieces of different nodes.
  lemma TidyConcat(a: seq<Instr>, b: seq<Instr>, xs: set<nat>, ys: set<nat>)
    requires Tidy(a, xs) && Tidy(b, ys) && xs !! ys
    ensures Tidy(a + b, xs + ys)
  {
    OwnedApart(Defs(a), Defs(b), xs, ys);
    UniqueConcat(a, b);
    DefsConcat(a, b);
  }

  // Code without labels.
  lemma TidyPlain(a: seq<Instr>)
    requires Defs(a) == {}
    ensures Tidy(a, {})
  {
    forall i | 0 <= i < |a| ensures !a[i].op.MakeLabel? {
      var x := a[i];
      assert x.op.MakeLabel? ==> x in Defs(a);
    }
  }

  lemma TidyMore(a: seq<Instr>, xs: set<nat>, ys: set<nat>)
    requires Tidy(a, xs) && xs <= ys
    ensures Tidy(a, ys)
  {
    forall i | i in Defs(a) ensures Owned(i, ys) {
      assert Owned(i, xs);
    }
  }

  // ----- Expressions define no labels -----

  lemma {:induction false} ExprPlain(e: Expr)
    ensures Defs(ExprCode(e)) == {}
    decreases e
  {
    match e
    case IntLit(_, _) =>
    case Ident(_) =>
    case Arith(ty, op, l, r) => PairPlain(e, l, r, Instr(Opcode(op), ty, [ExprOperand(l), ExprOperand(r)]));
    case Compare(ty, op, l, r) => PairPlain(e, l, r, CompareInstr(ty, op, false, l, r));
    case Negate(ty, x) =>
      ExprPlain(x);
      DefsConcat(ExprCode(x), [Instr(Neg, ty, [ExprOperand(x)])]);
    case Not(x) =>
      if x.Compare? {
        PairPlain(e, x.left, x.right, CompareInstr(x.ty, x.cmp, true, x.left, x.right));
      } else {
        ExprPlain(x);
      }
    case CallExpr(ty, f, args) =>
      ArgsPlain(args);
      DefsConcat(ArgsCode(args), [Instr(Call, ty, [LabelOp(f)] + ArgOperands(args))]);
  }

  lemma {:induction false} PairPlain(e: Expr, l: Expr, r: Expr, last: Instr)
    requires l < e && r < e && !last.op.MakeLabel?
    ensures Defs(ExprCode(l) + (ExprCode(r) + [last])) == {}
    decreases e, 0
  {
    ExprPlain(l);
    ExprPlain(r);
    DefsConcat(ExprCode(r), [last]);
    DefsConcat(ExprCode(l), ExprCode(r) + [last]);
  }

  lemma {:induction false} ArgsPlain(es: Exprs)
    ensures Defs(ArgsCode(es)) == {}
    decreases es
  {
    if es.MoreExprs? {
      ExprPlain(es.head);
      ArgsPlain(es.tail);
      DefsConcat(ExprCode(es.head), ArgsCode(es.tail));
    }
  }

  lemma LaterPlain(ty: TypeId, w: Later)
    ensures Defs(LaterCode(ty, w)) == {}
  {
    match w
    case AssignLater(d, e) =>
      ExprPlain(e);
      DefsConcat(ExprCode(e), [StoreInstr(ty, d, e)]);
    case CallLater(f, args) =>
      ArgsPlain(args);
      DefsConcat(ArgsCode(args), [VoidCall(f, args)]);
  }

  lemma {:induction false} AssignsPlain(xs: Assigns)
    ensures Defs(AssignsCode(xs)) == {}
    decreases xs
  {
    if xs.MoreAssigns? {
      LaterPlain(xs.ty, xs.what);
      AssignsPlain(xs.rest);
      DefsConcat(LaterCode(xs.ty, xs.what), AssignsCode(xs.rest));
    }
  }

  // ----- Conditions -----

  lemma {:induction false} ValuePlain(c: Cond)
    ensures Defs(ValueCode(c)) == {}
    decreases c
  {
    match c
    case Cmp(_, _, _, _, _) => ComparePlain(c, CompareInstr(c.ty, c.cmp, false, c.a, c.b));
    case Bang(_, x) =>
      if x.Cmp? {
        ComparePlain(x, CompareInstr(x.ty, x.cmp, true, x.a, x.b));
      } else {
        ValuePlain(x);
      }
    case Logic(_, _, l, r) =>
      ValuePlain(l);
      ValuePlain(r);
      DefsConcat(ValueCode(l), ValueCode(r));
  }

  lemma ComparePlain(c: Cond, last: Instr)
    requires c.Cmp? && !last.op.MakeLabel?
    ensures Defs(ExprCode(c.a) + (ExprCode(c.b) + [last])) == {}
  {
    PairPlain(Arith(NoType, Plus, c.a, c.b), c.a, c.b, last);
  }

  // The jump code of a condition defines labels of nodes below its root.
  lemma {:induction false} CondTidy(c: Cond, t: Label, f: Label)
    requires CondNumbered(c)
    ensures Tidy(CondCode(c, t, f), CondIds(c) - {c.id})
    decreases c, 1
  {
    match c
    case Cmp(_, _, _, _, _) => JumpTidy(c, true, f);
    case Bang(_, x) =>
      if x.Cmp? {
        JumpTidy(x, false, f);
        TidyMore(CondCode(c, t, f), {}, CondIds(c) - {c.id});
      } else if x.Logic? {
        CondTidy(x, f, t);
        TidyMore(CondCode(x, f, t), CondIds(x) - {x.id}, CondIds(c) - {c.id});
      } else {
        ValuePlain(x);
        TidyPlain(ValueCode(x));
        TidyMore(ValueCode(x), {}, CondIds(c) - {c.id});
      }
    case Logic(id, op, l, r) =>
      LeftTidy(op, l, r, t, f);
      CondTidy(r, t, f);
      var lc, sc, rc := LeftCode(op, l, r, t, f), SelfLabel(op, l, r), CondCode(r, t, f);
      SelfTidy(op, l, r);
      TidyConcat(sc, rc, {r.id}, CondIds(r) - {r.id});
      TidyConcat(lc, sc + rc, CondIds(l), {r.id} + (CondIds(r) - {r.id}));
      TidyMore(CondCode(c, t, f), CondIds(l) + ({r.id} + (CondIds(r) - {r.id})), CondIds(c) - {c.id});
  }

  lemma JumpTidy(c: Cond, invert: bool, target: Label)
    requires c.Cmp?
    ensures Tidy(CmpJump(c, invert, target), {})
  {
    ComparePlain(c, CondJumpInstr(JumpOpcode(c.cmp, invert), ExprOperand(c.a), ExprOperand(c.b), target));
    TidyPlain(CmpJump(c, invert, target));
  }

  lemma SelfTidy(op: LogicOp, l: Cond, r: Cond)
    ensures Tidy(SelfLabel(op, l, r), {r.id})
  {
  }

  lemma {:induction false} LeftTidy(op: LogicOp, l: Cond, r: Cond, t: Label, f: Label)
    requires CondNumbered(l)
    ensures Tidy(LeftCode(op, l, r, t, f), CondIds(l))
    decreases l, 2
  {
    if l.Bang? {
      ValuePlain(l);
      TidyPlain(ValueCode(l));
      TidyMore(ValueCode(l), {}, CondIds(l));
    } else if l.Cmp? && op.OrOr? {
      JumpTidy(l, false, t);
      TidyMore(CmpJump(l, false, t), {}, CondIds(l));
    } else {
      var t', f' := LeftTrueLabel(op, l, r, t), LeftFalseLabel(op, l, r, f);
      CondTidy(l, t', f');
      TidyMore(CondCode(l, t', f'), CondIds(l) - {l.id}, CondIds(l));
    }
  }

  // ----- Statements -----

  // The labels of a node itself are told apart by their kind.
  ghost predicate TidyWith(code: seq<Instr>, own: set<Label>, id: nat, ids: set<nat>) {
    && UniqueLabels(code) && id !in ids
    && (forall l | l in own :: NodeOf(l) == Some(id))
    && (forall i | i in Defs(code) :: Owned(i, ids) || (exists l | l in own :: i == LabelInstr(l)))
  }

  lemma WithInner(a: seq<Instr>, id: nat, ids: set<nat>)
    requires Tidy(a, ids) && id !in ids
    ensures TidyWith(a, {}, id, ids)
  {
  }

  lemma WithLabel(l: Label, id: nat)
    requires NodeOf(l) == Some(id)
    ensures TidyWith([LabelInstr(l)], {l}, id, {})
  {
  }

  lemma WithPlain(a: seq<Instr>, id: nat)
    requires Defs(a) == {}
    ensures TidyWith(a, {}, id, {})
  {
    TidyPlain(a);
  }

  lemma WithConcat(a: seq<Instr>, b: seq<Instr>, own1: set<Label>, own2: set<Label>, id: nat, xs: set<nat>, ys: set<nat>)
    requires TidyWith(a, own1, id, xs) && TidyWith(b, own2, id, ys) && own1 !! own2 && xs !! ys
    ensures TidyWith(a + b, own1 + own2, id, xs + ys)
  {
    forall i | i in Defs(a) ensures i !in Defs(b) {
      if Owned(i, xs) {
        assert !Owned(i, ys);
      } else {
        var l :| l in own1 && i == LabelInstr(l);
        assert NodeOf(l) == Some(id);
      }
    }
    UniqueConcat(a, b);
    DefsConcat(a, b);
    forall i | i in Defs(a + b)
      ensures Owned(i, xs + ys) || (exists l | l in own1 + own2 :: i == LabelInstr(l))
    {
      if !Owned(i, xs + ys) {
        assert !Owned(i, xs) && !Owned(i, ys);
        var l :| (l in own1 || l in own2) && i == LabelInstr(l);
        assert l in own1 + own2;
      }
    }
  }

  lemma WithDone(a: seq<Instr>, own: set<Label>, id: nat, ids: set<nat>)
    requires TidyWith(a, own, id, ids)
    ensures Tidy(a, {id} + ids)
  {
  }

  lemma {:induction false} StmtTidy(s: Stmt, ctx: Ctx)
    requires Numbered(s)
    ensures Tidy(StmtCode(s, ctx), StmtIds(s))
    decreases s
  {
    match s
    case If(_, _, _, _) => IfTidy(s, ctx);
    case While(_, _, _) => WhileTidy(s, ctx);
    case For(_, _, _) => ForTidy(s, ctx);
    case Block(b) => BlockTidy(b, NoAssigns, ctx, true);
    case _ => SimpleTidy(s, ctx);
  }

  lemma SimpleTidy(s: Stmt, ctx: Ctx)
    requires !s.If? && !s.While? && !s.For? && !s.Block?
    ensures Tidy(StmtCode(s, ctx), {})
  {
    match s
    case Assign(d, e) =>
      ExprPlain(e);
      DefsConcat(ExprCode(e), [StoreInstr(NoType, d, e)]);
      TidyPlain(StmtCode(s, ctx));
    case ExprStmt(e) =>
      ExprPlain(e);
      DefsConcat(ExprCode(e), [Instr(Noop, VoidType, [ExprOperand(e)])]);
      TidyPlain(StmtCode(s, ctx));
    case CallStmt(f, args) =>
      ArgsPlain(args);
      DefsConcat(ArgsCode(args), [VoidCall(f, args)]);
      TidyPlain(StmtCode(s, ctx));
    case ReturnStmt(None, ty) =>
      AssignsPlain(ctx.pending);
      DefsConcat(AssignsCode(ctx.pending), [Instr(Return, ty, [IntOp(0, NoType)])]);
      TidyPlain(StmtCode(s, ctx));
    case ReturnStmt(Some(e), ty) =>
      var last := [Instr(Return, ty, [ExprOperand(e)])];
      ExprPlain(e);
      AssignsPlain(ctx.pending);
      DefsConcat(AssignsCode(ctx.pending), last);
      DefsConcat(ExprCode(e), AssignsCode(ctx.pending) + last);
      TidyPlain(StmtCode(s, ctx));
    case _ => TidyPlain(StmtCode(s, ctx));
  }

  lemma {:induction false} IfTidy(s: Stmt, ctx: Ctx)
    requires s.If? && Numbered(s)
    ensures Tidy(StmtCode(s, ctx), StmtIds(s))
    decreases s, 1
  {
    var id, cc, tc := s.id, CondCode(s.cond, IfBody(s.id), IfElse(s.id)), StmtCode(s.thn, ctx);
    var cs, ts := CondIds(s.cond) - {s.cond.id}, StmtIds(s.thn);
    CondTidy(s.cond, IfBody(id), IfElse(id));
    StmtTidy(s.thn, ctx);
    WithInner(cc, id, cs);
    WithLabel(IfBody(id), id);
    WithInner(tc, id, ts);
    var ec, own, es := ElseTidy(s, ctx);
    WithConcat(tc, ec, {}, own, id, ts, es);
    WithConcat([LabelInstr(IfBody(id))], tc + ec, {IfBody(id)}, {} + own, id, {}, ts + es);
    WithConcat(cc, [LabelInstr(IfBody(id))] + (tc + ec), {}, {IfBody(id)} + ({} + own), id, cs, {} + (ts + es));
    WithDone(StmtCode(s, ctx), {} + ({IfBody(id)} + ({} + own)), id, cs + ({} + (ts + es)));
    TidyMore(StmtCode(s, ctx), {id} + (cs + ({} + (ts + es))), StmtIds(s));
  }

  lemma {:induction false} ElseTidy(s: Stmt, ctx: Ctx) returns (ec: seq<Instr>, own: set<Label>, es: set<nat>)
    requires s.If? && Numbered(s)
    ensures StmtCode(s, ctx)
         == CondCode(s.cond, IfBody(s.id), IfElse(s.id)) + ([LabelInstr(IfBody(s.id))] + (StmtCode(s.thn, ctx) + ec))
    ensures own <= {IfElse(s.id), IfEnd(s.id)} && es == if s.els.Some? then StmtIds(s.els.value) else {}
    ensures TidyWith(ec, own, s.id, es)
    decreases s, 0
  {
    var id := s.id;
    WithLabel(IfElse(id), id);
    if s.els.Some? {
      var sc, jump, le, lend := StmtCode(s.els.value, ctx), [JumpInstr(IfEnd(id))], [LabelInstr(IfElse(id))], [LabelInstr(IfEnd(id))];
      es := StmtIds(s.els.value);
      StmtTidy(s.els.value, ctx);
      WithInner(sc, id, es);
      WithLabel(IfEnd(id), id);
      WithPlain(jump, id);
      WithConcat(jump, le, {}, {IfElse(id)}, id, {}, {});
      WithConcat(sc, lend, {}, {IfEnd(id)}, id, es, {});
      assert jump + le == [JumpInstr(IfEnd(id)), LabelInstr(IfElse(id))];
      WithConcat(jump + le, sc + lend, {} + {IfElse(id)}, {} + {IfEnd(id)}, id, {} + {}, es + {});
      ec := (jump + le) + (sc + lend);
      own := ({} + {IfElse(id)}) + ({} + {IfEnd(id)});
      assert ({} + {}) + (es + {}) == es;
    } else {
      ec, own, es := [LabelInstr(IfElse(id))], {IfElse(id)}, {};
    }
  }

  lemma {:induction false} WhileTidy(s: Stmt, ctx: Ctx)
    requires s.While? && Numbered(s)
    ensures Tidy(StmtCode(s, ctx), StmtIds(s))
    decreases s, 0
  {
    var id, cc, bc := s.id, CondCode(s.cond, WhileBody(s.id), WhileEnd(s.id)), StmtCode(s.body, WhileCtx(s.id, ctx));
    var lc, lb, jump, le := [LabelInstr(WhileCond(id))], [LabelInstr(WhileBody(id))], [JumpInstr(WhileCond(id))], [LabelInstr(WhileEnd(id))];
    var cs, bs := CondIds(s.cond) - {s.cond.id}, StmtIds(s.body);
    CondTidy(s.cond, WhileBody(id), WhileEnd(id));
    StmtTidy(s.body, WhileCtx(id, ctx));
    WithInner(cc, id, cs);
    WithInner(bc, id, bs);
    WithLabel(WhileCond(id), id);
    WithLabel(WhileBody(id), id);
    WithLabel(WhileEnd(id), id);
    WithPlain(jump, id);
    assert jump + le == [JumpInstr(WhileCond(id)), LabelInstr(WhileEnd(id))];
    WithConcat(jump, le, {}, {WhileEnd(id)}, id, {}, {});
    WithConcat(bc, jump + le, {}, {} + {WhileEnd(id)}, id, bs, {} + {});
    var own, ids := {} + ({} + {WhileEnd(id)}), bs + ({} + {});
    WithConcat(lb, bc + (jump + le), {WhileBody(id)}, own, id, {}, ids);
    WithConcat(cc, lb + (bc + (jump + le)), {}, {WhileBody(id)} + own, id, cs, {} + ids);
    WithConcat(lc, cc + (lb + (bc + (jump + le))), {WhileCond(id)}, {} + ({WhileBody(id)} + own), id, {}, cs + ({} + ids));
    WithDone(StmtCode(s, ctx), {WhileCond(id)} + ({} + ({WhileBody(id)} + own)), id, {} + (cs + ({} + ids)));
    TidyMore(StmtCode(s, ctx), {id} + ({} + (cs + ({} + ids))), StmtIds(s));
  }

  lemma ForTestTidy(id: nat, g: Range)
    ensures TidyWith(ForTest(id, g), {ForCond(id), ForNegative(id)}, id, {})
  {
    var head := [LabelInstr(ForCond(id)), CondJumpInstr(JmpGtEq, FirstOp(g), SecondOp(g), ForNegative(id))];
    var rest := StepSetup(g, -1) + [CondJumpInstr(JmpLtEq, ElemOp(g), SecondOp(g), ForEnd(id))];
    WithPlain(UpwardTest(id, g), id);
    WithPlain(rest, id);
    WithLabel(ForNegative(id), id);
    WithConcat([LabelInstr(ForNegative(id))], rest, {ForNegative(id)}, {}, id, {}, {});
    WithConcat(UpwardTest(id, g), DownwardTest(id, g), {}, {ForNegative(id)} + {}, id, {}, {} + {});
    assert TidyWith(head, {ForCond(id)}, id, {});
    WithConcat(head, UpwardTest(id, g) + DownwardTest(id, g), {ForCond(id)}, {} + ({ForNegative(id)} + {}), id, {}, {} + ({} + {}));
    assert {ForCond(id)} + ({} + ({ForNegative(id)} + {})) == {ForCond(id), ForNegative(id)};
    var none: set<nat> := {};
    assert none + (none + (none + none)) == none;
  }

  lemma {:induction false} ForTidy(s: Stmt, ctx: Ctx)
    requires s.For? && Numbered(s)
    ensures Tidy(StmtCode(s, ctx), StmtIds(s))
    decreases s, 0
  {
    var id, g, bs := s.id, s.range, StmtIds(s.body);
    var ac, tc, lb, bc, adv, le := AssignsCode(RangeAssigns(g)), ForTest(id, g), [LabelInstr(ForBody(id))],
      StmtCode(s.body, ForCtx(id, ctx)), ForAdvance(id, g), [LabelInstr(ForEnd(id))];
    AssignsPlain(RangeAssigns(g));
    WithPlain(ac, id);
    ForTestTidy(id, g);
    WithLabel(ForBody(id), id);
    StmtTidy(s.body, ForCtx(id, ctx));
    WithInner(bc, id, bs);
    WithPlain(adv, id);
    WithLabel(ForEnd(id), id);
    WithConcat(adv, le, {}, {ForEnd(id)}, id, {}, {});
    WithConcat(bc, adv + le, {}, {} + {ForEnd(id)}, id, bs, {} + {});
    var own, ids := {} + ({} + {ForEnd(id)}), bs + ({} + {});
    WithConcat(lb, bc + (adv + le), {ForBody(id)}, own, id, {}, ids);
    WithConcat(tc, lb + (bc + (adv + le)), {ForCond(id), ForNegative(id)}, {ForBody(id)} + own, id, {}, {} + ids);
    var all, idsAll := {ForCond(id), ForNegative(id)} + ({ForBody(id)} + own), {} + ({} + ids);
    WithConcat(ac, tc + (lb + (bc + (adv + le))), {}, all, id, {}, idsAll);
    WithDone(StmtCode(s, ctx), {} + all, id, {} + idsAll);
    TidyMore(StmtCode(s, ctx), {id} + ({} + idsAll), StmtIds(s));
  }

  lemma {:induction false} BlockTidy(b: Stmts, ds: Assigns, ctx: Ctx, replay: bool)
    requires NumberedAll(b)
    ensures Tidy(BlockCode(b, ds, ctx, replay), StmtsIds(b))
    decreases b
  {
    match b
    case NoStmts =>
      if replay {
        AssignsPlain(ds);
      }
      TidyPlain(BlockCode(b, ds, ctx, replay));
    case MoreStmts(s, rest) =>
      if s.DeferStmt? {
        BlockTidy(rest, MoreAssigns(NoType, s.what, ds), ctx, replay);
        assert StmtsIds(b) == StmtsIds(rest);
      } else {
        StmtTidy(s, Inside(ds, ctx));
        BlockTidy(rest, ds, ctx, replay);
        TidyConcat(StmtCode(s, Inside(ds, ctx)), BlockCode(rest, ds, ctx, replay), StmtIds(s), StmtsIds(rest));
      }
  }

  /** Every label of a function is defined once. */
  lemma FuncLabels(body: Stmts)
    requires NumberedAll(body)
    ensures UniqueLabels(FuncCode(body))
  {
    BlockTidy(body, NoAssigns, TOP, !HasReturns(body));
  }
}
