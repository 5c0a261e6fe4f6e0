// Return instructions.

module Returns {
  // The code of a statement returns somewhere exactly when the statement has a return,
  // which decides whether the end of a function replays what it has deferred.

  import opened Ir
  import opened Ast
  import opened LowerExpr
  import opened LowerCond
  import opened LowerStmt

  predicate Returning(c: seq<Instr>) {
    exists k :: 0 <= k < |c| && c[k].op.Return?
  }

  lemma ReturningJoin(a: seq<Instr>, b: seq<Instr>)
    ensures Returning(a + b) <==> Returning(a) || Returning(b)
  {
    var c := a + b;
    if k :| 0 <= k < |c| && c[k].op.Return? {
      assert if k < |a| then c[k] == a[k] else c[k] == b[k - |a|];
    }
    if k :| 0 <= k < |a| && a[k].op.Return? {
      assert c[k] == a[k];
    }
    if k :| 0 <= k < |b| && b[k].op.Return? {
      assert c[|a| + k] == b[k];
    }
  }

  lemma ReturningOne(i: Instr)
    ensures Returning([i]) <==> i.op.Return?
  {
    assert [i][0] == i;
  }

  lemma LabelsStay(l: Label)
    ensures !Returning([LabelInstr(l)]) && !Returning([JumpInstr(l)]) && !Returning([])
  {
  }

  lemma JumpLabelStays(j: Label, l: Label)
    ensures !Returning([JumpInstr(j), LabelInstr(l)])
  {
  }

  // Two operands and an instruction.
  lemma PairStays(a: seq<Instr>, b: seq<Instr>, i: Instr)
    requires !Returning(a) && !Returning(b) && !i.op.Return?
    ensures !Returning(a + (b + [i]))
  {
    hide Returning;
    ReturningOne(i);
    ReturningJoin(b, [i]);
    ReturningJoin(a, b + [i]);
  }

  lemma OneStays(a: seq<Instr>, i: Instr)
    requires !Returning(a) && !i.op.Return?
    ensures !Returning(a + [i])
  {
    hide Returning;
    ReturningOne(i);
    ReturningJoin(a, [i]);
  }

  lemma {:induction false} ExprStays(e: Expr)
    ensures !Returning(ExprCode(e))
    decreases e
  {
    hide Returning;
    match e
    case IntLit(_, ty) => NothingStays();
    case Ident(_) => NothingStays();
    case Arith(ty, op, l, r) =>
      ExprStays(l);
      ExprStays(r);
      PairStays(ExprCode(l), ExprCode(r), Instr(Opcode(op), ty, [ExprOperand(l), ExprOperand(r)]));
    case Compare(ty, op, l, r) =>
      ExprStays(l);
      ExprStays(r);
      PairStays(ExprCode(l), ExprCode(r), CompareInstr(ty, op, false, l, r));
    case Negate(ty, x) =>
      ExprStays(x);
      OneStays(ExprCode(x), Instr(Neg, ty, [ExprOperand(x)]));
    case Not(x) =>
      ExprStays(x);
      if x.Compare? {
        ExprStays(x.left);
        ExprStays(x.right);
        PairStays(ExprCode(x.left), ExprCode(x.right), CompareInstr(x.ty, x.cmp, true, x.left, x.right));
      }
    case CallExpr(ty, f, args) =>
      ArgsStay(args);
      OneStays(ArgsCode(args), Instr(Call, ty, [LabelOp(f)] + ArgOperands(args)));
  }

  lemma NothingStays()
    ensures !Returning([])
  {
  }

  lemma {:induction false} ArgsStay(es: Exprs)
    ensures !Returning(ArgsCode(es))
    decreases es
  {
    hide Returning;
    if es.MoreExprs? {
      ExprStays(es.head);
      ArgsStay(es.tail);
      ReturningJoin(ExprCode(es.head), ArgsCode(es.tail));
    } else {
      NothingStays();
    }
  }

  lemma CmpStays(c: Cond, i: Instr)
    requires c.Cmp? && !i.op.Return?
    ensures !Returning(ExprCode(c.a) + (ExprCode(c.b) + [i]))
  {
    ExprStays(c.a);
    ExprStays(c.b);
    PairStays(ExprCode(c.a), ExprCode(c.b), i);
  }

  lemma CmpJumpStays(c: Cond, invert: bool, target: Label)
    requires c.Cmp?
    ensures !Returning(CmpJump(c, invert, target)) && !Returning(CmpValue(c, invert))
  {
    hide Returning;
    CmpStays(c, CondJumpInstr(JumpOpcode(c.cmp, invert), ExprOperand(c.a), ExprOperand(c.b), target));
    CmpStays(c, CompareInstr(c.ty, c.cmp, invert, c.a, c.b));
  }

  lemma {:induction false} ValueStays(c: Cond)
    ensures !Returning(ValueCode(c))
    decreases c
  {
    hide Returning, CmpValue;
    match c
    case Cmp(_, _, _, _, _) => CmpJumpStays(c, false, IfEnd(0));
    case Bang(_, x) =>
      if x.Cmp? {
        CmpJumpStays(x, true, IfEnd(0));
      } else {
        ValueStays(x);
      }
    case Logic(_, _, l, r) =>
      ValueStays(l);
      ValueStays(r);
      ReturningJoin(ValueCode(l), ValueCode(r));
  }

  lemma {:induction false} CondStays(c: Cond, t: Label, f: Label)
    ensures !Returning(CondCode(c, t, f))
    decreases c, 0
  {
    hide Returning, CmpJump, ValueCode, LeftCode, SelfLabel;
    match c
    case Cmp(_, _, _, _, _) => CmpJumpStays(c, true, f);
    case Bang(_, x) =>
      if x.Cmp? {
        CmpJumpStays(x, false, f);
      } else if x.Logic? {
        CondStays(x, f, t);
      } else {
        ValueStays(x);
      }
    case Logic(_, op, l, r) =>
      LeftStays(op, l, r, t, f);
      CondStays(r, t, f);
      SelfStays(op, l, r);
      ReturningJoin(SelfLabel(op, l, r), CondCode(r, t, f));
      ReturningJoin(LeftCode(op, l, r, t, f), SelfLabel(op, l, r) + CondCode(r, t, f));
  }

  lemma SelfStays(op: LogicOp, l: Cond, r: Cond)
    ensures !Returning(SelfLabel(op, l, r))
  {
  }

  lemma {:induction false} LeftStays(op: LogicOp, l: Cond, r: Cond, t: Label, f: Label)
    ensures !Returning(LeftCode(op, l, r, t, f))
    decreases l, 1
  {
    hide Returning, CmpJump, ValueCode, CondCode, LeftTrueLabel, LeftFalseLabel;
    if l.Bang? {
      ValueStays(l);
    } else if l.Cmp? && op.OrOr? {
      CmpJumpStays(l, false, t);
    } else {
      CondStays(l, LeftTrueLabel(op, l, r, t), LeftFalseLabel(op, l, r, f));
    }
  }

  lemma LaterStays(ty: TypeId, w: Later)
    ensures !Returning(LaterCode(ty, w))
  {
    hide Returning;
    match w
    case AssignLater(d, e) =>
      ExprStays(e);
      OneStays(ExprCode(e), StoreInstr(ty, d, e));
    case CallLater(f, args) =>
      ArgsStay(args);
      OneStays(ArgsCode(args), VoidCall(f, args));
  }

  lemma {:induction false} AssignsStay(xs: Assigns)
    ensures !Returning(AssignsCode(xs))
    decreases xs
  {
    hide Returning, LaterCode;
    if xs.MoreAssigns? {
      LaterStays(xs.ty, xs.what);
      AssignsStay(xs.rest);
      ReturningJoin(LaterCode(xs.ty, xs.what), AssignsCode(xs.rest));
    } else {
      NothingStays();
    }
  }

  lemma ForPartsStay(id: nat, g: Range)
    ensures !Returning(ForTest(id, g)) && !Returning(ForAdvance(id, g) + [LabelInstr(ForEnd(id))])
  {
  }

  lemma ReturnJoin5(a: seq<Instr>, b: seq<Instr>, c: seq<Instr>, d: seq<Instr>, e: seq<Instr>)
    ensures Returning(a + (b + (c + (d + e)))) <==> Returning(a) || Returning(b) || Returning(c) || Returning(d) || Returning(e)
  {
    hide Returning;
    ReturningJoin(d, e);
    ReturningJoin(c, d + e);
    ReturningJoin(b, c + (d + e));
    ReturningJoin(a, b + (c + (d + e)));
  }

  /** In any context. */
  lemma {:induction false} ReturnEmitted(s: Stmt, ctx: Ctx)
    ensures Returning(StmtCode(s, ctx)) <==> HasReturn(s)
    decreases s
  {
    hide Returning, ExprCode, LaterCode, CondCode, AssignsCode, ForTest, ForAdvance;
    match s
    case Assign(d, e) => LaterStays(NoType, AssignLater(d, e));
    case ExprStmt(e) =>
      ExprStays(e);
      OneStays(ExprCode(e), Instr(Noop, VoidType, [ExprOperand(e)]));
    case CallStmt(f, args) => LaterStays(NoType, CallLater(f, args));
    case If(_, _, _, _) => IfReturns(s, ctx);
    case While(id, c, body) =>
      CondStays(c, WhileBody(id), WhileEnd(id));
      ReturnEmitted(body, WhileCtx(id, ctx));
      LabelsStay(WhileCond(id));
      LabelsStay(WhileBody(id));
      JumpLabelStays(WhileCond(id), WhileEnd(id));
      ReturnJoin5([LabelInstr(WhileCond(id))], CondCode(c, WhileBody(id), WhileEnd(id)), [LabelInstr(WhileBody(id))],
                  StmtCode(body, WhileCtx(id, ctx)), [JumpInstr(WhileCond(id)), LabelInstr(WhileEnd(id))]);
    case For(id, g, body) =>
      AssignsStay(RangeAssigns(g));
      ReturnEmitted(body, ForCtx(id, ctx));
      LabelsStay(ForBody(id));
      ForPartsStay(id, g);
      ReturnJoin5(AssignsCode(RangeAssigns(g)), ForTest(id, g), [LabelInstr(ForBody(id))],
                  StmtCode(body, ForCtx(id, ctx)), ForAdvance(id, g) + [LabelInstr(ForEnd(id))]);
    case Block(b) => BlockReturns(b, NoAssigns, ctx, true);
    case ReturnStmt(Some(e), ty) =>
      var last := Instr(Return, ty, [ExprOperand(e)]);
      ReturningOne(last);
      ReturningJoin(AssignsCode(ctx.pending), [last]);
      ReturningJoin(ExprCode(e), AssignsCode(ctx.pending) + [last]);
    case ReturnStmt(None, ty) =>
      var last := Instr(Return, ty, [IntOp(0, NoType)]);
      ReturningOne(last);
      ReturningJoin(AssignsCode(ctx.pending), [last]);
    case Break => JumpStays(ctx.brk);
    case Continue => JumpStays(ctx.cont);
    case DeferStmt(_) => NothingStays();
  }

  lemma JumpStays(l: Option<Label>)
    ensures !Returning(OptJump(l))
  {
  }

  lemma {:induction false} IfReturns(s: Stmt, ctx: Ctx)
    requires s.If?
    ensures Returning(StmtCode(s, ctx)) <==> HasReturn(s)
    decreases s, 0
  {
    hide Returning, CondCode;
    var id := s.id;
    CondStays(s.cond, IfBody(id), IfElse(id));
    ReturnEmitted(s.thn, ctx);
    LabelsStay(IfBody(id));
    LabelsStay(IfElse(id));
    if s.els.Some? {
      var skip, end := [JumpInstr(IfEnd(id)), LabelInstr(IfElse(id))], [LabelInstr(IfEnd(id))];
      ReturnEmitted(s.els.value, ctx);
      JumpLabelStays(IfEnd(id), IfElse(id));
      LabelsStay(IfEnd(id));
      ReturningJoin(StmtCode(s.els.value, ctx), end);
      ReturnJoin5(CondCode(s.cond, IfBody(id), IfElse(id)), [LabelInstr(IfBody(id))], StmtCode(s.thn, ctx), skip,
                  StmtCode(s.els.value, ctx) + end);
    } else {
      ReturningJoin(StmtCode(s.thn, ctx), [LabelInstr(IfElse(id))]);
      ReturningJoin([LabelInstr(IfBody(id))], StmtCode(s.thn, ctx) + [LabelInstr(IfElse(id))]);
      ReturningJoin(CondCode(s.cond, IfBody(id), IfElse(id)),
                    [LabelInstr(IfBody(id))] + (StmtCode(s.thn, ctx) + [LabelInstr(IfElse(id))]));
    }
  }

  lemma {:induction false} BlockReturns(b: Stmts, ds: Assigns, ctx: Ctx, replay: bool)
    ensures Returning(BlockCode(b, ds, ctx, replay)) <==> HasReturns(b)
    decreases b
  {
    hide Returning, AssignsCode;
    match b
    case NoStmts =>
      AssignsStay(ds);
      NothingStays();
    case MoreStmts(s, rest) =>
      if s.DeferStmt? {
        BlockReturns(rest, MoreAssigns(NoType, s.what, ds), ctx, replay);
      } else {
        ReturnEmitted(s, Inside(ds, ctx));
        BlockReturns(rest, ds, ctx, replay);
        ReturningJoin(StmtCode(s, Inside(ds, ctx)), BlockCode(rest, ds, ctx, replay));
      }
  }

  /** The end of a function replays what it has deferred exactly when its code has no return instruction. */
  lemma FuncReturns(body: Stmts)
    ensures Returning(FuncCode(body)) <==> HasReturns(body)
    ensures FuncCode(body) == BlockCode(body, NoAssigns, TOP, !Returning(FuncCode(body)))
  {
    BlockReturns(body, NoAssigns, TOP, !HasReturns(body));
  }
}
