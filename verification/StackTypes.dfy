// The types of the values on the stack.

module StackTypes {
  // Each operand that is popped names a type; in lowered code it is the result type of the
  // instruction that pushed the value.

  import opened Ir
  import opened Ast
  import opened LowerExpr
  import opened LowerCond
  import opened CondExact
  import opened LowerStmt
  import opened StmtCorrect
  import opened Optimizer
  import opened StackHeight
  import D = Destinations

  // What is left of the types on the stack once an operand has been fetched; None if the
  // top is of another type than the operand names.
  function Taken(o: Operand, s: seq<TypeId>): Option<seq<TypeId>> {
    if !o.RefOp? || Plain(o.ref) then Some(s)
    else if s != [] && s[|s| - 1] == Root(o.ref).ty then Some(s[..|s| - 1])
    else None
  }

  function AllTaken(os: seq<Operand>, s: seq<TypeId>): Option<seq<TypeId>> {
    if os == [] then Some(s)
    else match AllTaken(os[1..], s) case None => None case Some(t) => Taken(os[0], t)
  }

  function TypesAfter(i: Instr, s: seq<TypeId>): Option<seq<TypeId>> {
    match AllTaken(i.operands, s)
    case None => None
    case Some(t) => Some(if PushesToStack(i) then t + [i.resultType] else t)
  }

  function TypesOver(c: seq<Instr>, s: seq<TypeId>): Option<seq<TypeId>>
    decreases |c|
  {
    if c == [] then Some(s)
    else match TypesAfter(c[0], s) case None => None case Some(t) => TypesOver(c[1..], t)
  }

  lemma {:induction false} TypesJoin(a: seq<Instr>, b: seq<Instr>, s: seq<TypeId>)
    requires TypesOver(a, s).Some?
    ensures TypesOver(a + b, s) == TypesOver(b, TypesOver(a, s).value)
    decreases |a|
  {
    hide TypesAfter;
    if a == [] {
      assert a + b == b;
    } else {
      assert (a + b)[1..] == a[1..] + b;
      TypesJoin(a[1..], b, TypesAfter(a[0], s).value);
    }
  }

  lemma TypesOne(i: Instr, s: seq<TypeId>)
    ensures TypesOver([i], s) == TypesAfter(i, s)
  {
    hide TypesAfter;
    assert [i][1..] == [];
  }

  lemma NoTypes(s: seq<TypeId>)
    ensures TypesOver([], s) == Some(s)
  {
  }

  // ----- Against the list of pending values -----

  function TypesOf(c: seq<Instr>, ks: seq<nat>): seq<TypeId>
    requires forall a :: 0 <= a < |ks| ==> ks[a] < |c|
  {
    seq(|ks|, a requires 0 <= a < |ks| => c[ks[a]].resultType)
  }

  // The types of the pending values before instruction i.
  function PendingTypes(c: seq<Instr>, i: nat): seq<TypeId>
    requires i <= |c|
  {
    D.PendingBelow(c, i);
    TypesOf(c, D.Pending(c, i))
  }

  /** Every instruction pops values of the types its operands name. */
  predicate WellTyped(c: seq<Instr>) {
    forall i :: 0 <= i < |c| ==> AllTaken(c[i].operands, PendingTypes(c, i)).Some?
  }

  lemma TakenLess(o: Operand, s: seq<TypeId>)
    ensures Taken(o, s).Some? ==>
              OperandConsumption(o) <= |s| && Taken(o, s).value == s[..|s| - OperandConsumption(o)]
  {
    if o.RefOp? {
      RefTakes(o);
    }
  }

  lemma {:induction false} AllTakenLess(os: seq<Operand>, s: seq<TypeId>)
    ensures AllTaken(os, s).Some? ==>
              OperandsConsumption(os) <= |s| && AllTaken(os, s).value == s[..|s| - OperandsConsumption(os)]
    decreases |os|
  {
    hide Taken, OperandConsumption;
    if os != [] && AllTaken(os, s).Some? {
      AllTakenLess(os[1..], s);
      TakenLess(os[0], AllTaken(os[1..], s).value);
    }
  }

  lemma TypesNext(c: seq<Instr>, i: nat)
    requires i < |c| && AllTaken(c[i].operands, PendingTypes(c, i)).Some?
    ensures TypesAfter(c[i], PendingTypes(c, i)) == Some(PendingTypes(c, i + 1))
  {
    hide AllTaken, PushesToStack, D.Pending;
    AllTakenLess(c[i].operands, PendingTypes(c, i));
    D.PendingNext(c, i);
    D.PendingBelow(c, i);
    D.PendingBelow(c, i + 1);
    var ks, n := D.Pending(c, i), Consumption(c[i]);
    var left := ks[..|ks| - n];
    assert TypesOf(c, left) == TypesOf(c, ks)[..|ks| - n];
    assert PushesToStack(c[i]) ==> TypesOf(c, left + [i]) == TypesOf(c, left) + [c[i].resultType];
    assert !PushesToStack(c[i]) ==> left + [] == left;
  }

  lemma {:induction false} TypesReach(c: seq<Instr>, i: nat)
    requires TypesOver(c, []).Some? && i <= |c|
    ensures TypesOver(c[..i], []) == Some(PendingTypes(c, i))
    ensures i < |c| ==> AllTaken(c[i].operands, PendingTypes(c, i)).Some?
    decreases i
  {
    hide AllTaken, PushesToStack, D.Pending;
    if i > 0 {
      TypesReach(c, i - 1);
      TypesNext(c, i - 1);
      assert c[..i] == c[..i - 1] + [c[i - 1]];
      TypesJoin(c[..i - 1], [c[i - 1]], []);
      TypesOne(c[i - 1], PendingTypes(c, i - 1));
    } else {
      NothingPending(c);
    }
    if i < |c| {
      assert c == c[..i] + c[i..];
      TypesJoin(c[..i], c[i..], []);
    }
  }

  lemma NothingPending(c: seq<Instr>)
    ensures c[..0] == [] && PendingTypes(c, 0) == []
  {
  }

  // ----- Lowered code -----

  // The type of a computed value, as its node carries it.
  function ComputedType(e: Expr): TypeId {
    match e
    case Arith(ty, _, _, _) => ty
    case Compare(ty, _, _, _) => ty
    case Negate(ty, _) => ty
    case Not(x) => ComputedType(x)
    case CallExpr(ty, _, _) => ty
    case _ => NoType
  }

  function Kept(e: Expr): seq<TypeId> {
    if IsPop(ExprOperand(e)) then [ComputedType(e)] else []
  }

  lemma {:induction false} OperandType(e: Expr)
    requires Pure(e)
    ensures IsPop(ExprOperand(e)) ==> ExprOperand(e) == RefOp(StackPop(ComputedType(e)))
    decreases e
  {
    if e.Not? {
      OperandType(e.arg);
    }
  }

  lemma OperandTaken(e: Expr, s: seq<TypeId>)
    requires Pure(e)
    ensures Taken(ExprOperand(e), s + Kept(e)) == Some(s)
  {
    PopOrPlain(e);
    OperandType(e);
    if ExprOperand(e).RefOp? {
      RefTakes(ExprOperand(e));
    }
    assert s + [] == s && (s + Kept(e))[..|s|] == s;
  }

  lemma PairTaken(l: Expr, r: Expr, s: seq<TypeId>)
    requires Pure(l) && Pure(r)
    ensures AllTaken([ExprOperand(l), ExprOperand(r)], s + Kept(l) + Kept(r)) == Some(s)
  {
    hide Taken, Kept;
    OperandTaken(r, s + Kept(l));
    OperandTaken(l, s);
    assert [ExprOperand(l), ExprOperand(r)][1..] == [ExprOperand(r)];
    OneTaken(ExprOperand(r), s + Kept(l) + Kept(r));
  }

  lemma OneTaken(o: Operand, s: seq<TypeId>)
    ensures AllTaken([o], s) == Taken(o, s)
  {
    assert [o][1..] == [];
  }

  lemma PairTyped(l: Expr, r: Expr, i: Instr, s: seq<TypeId>)
    requires Pure(l) && Pure(r) && i.operands == [ExprOperand(l), ExprOperand(r)]
    requires TypesOver(ExprCode(l), s) == Some(s + Kept(l))
    requires TypesOver(ExprCode(r), s + Kept(l)) == Some(s + Kept(l) + Kept(r))
    ensures TypesOver(ExprCode(l) + (ExprCode(r) + [i]), s) == Some(if PushesToStack(i) then s + [i.resultType] else s)
  {
    hide ExprCode, TypesOver, AllTaken, Kept, PushesToStack;
    PairTaken(l, r, s);
    TypesOne(i, s + Kept(l) + Kept(r));
    TypesJoin(ExprCode(r), [i], s + Kept(l));
    TypesJoin(ExprCode(l), ExprCode(r) + [i], s);
  }

  // An instruction with the one value of an expression.
  lemma UseTyped(e: Expr, i: Instr, s: seq<TypeId>)
    requires Pure(e) && i.operands == [ExprOperand(e)] && TypesOver(ExprCode(e), s) == Some(s + Kept(e))
    ensures TypesOver(ExprCode(e) + [i], s) == Some(if PushesToStack(i) then s + [i.resultType] else s)
  {
    hide ExprCode, TypesOver, Kept, PushesToStack;
    OperandTaken(e, s);
    OneTaken(ExprOperand(e), s + Kept(e));
    TypesOne(i, s + Kept(e));
    TypesJoin(ExprCode(e), [i], s);
  }

  lemma {:induction false} ExprTyped(e: Expr, s: seq<TypeId>)
    requires Pure(e)
    ensures TypesOver(ExprCode(e), s) == Some(s + Kept(e))
    decreases e
  {
    hide TypesAfter, TypesOver, AllTaken;
    assert s + [] == s;
    match e
    case IntLit(_, _) => NoTypes(s);
    case Ident(_) => NoTypes(s);
    case Arith(ty, op, l, r) =>
      ExprTyped(l, s);
      ExprTyped(r, s + Kept(l));
      PairTyped(l, r, Instr(Opcode(op), ty, [ExprOperand(l), ExprOperand(r)]), s);
    case Compare(ty, op, l, r) =>
      ExprTyped(l, s);
      ExprTyped(r, s + Kept(l));
      PairTyped(l, r, CompareInstr(ty, op, false, l, r), s);
    case Negate(ty, x) =>
      ExprTyped(x, s);
      UseTyped(x, Instr(Neg, ty, [ExprOperand(x)]), s);
    case Not(x) =>
      ExprTyped(x.left, s);
      ExprTyped(x.right, s + Kept(x.left));
      assert Kept(e) == Kept(x) == [x.ty];
      PairTyped(x.left, x.right, CompareInstr(x.ty, x.cmp, true, x.left, x.right), s);
    case CallExpr(ty, f, args) =>
      ArgsTyped(args, s);
      CallTyped(f, ty, args, s);
  }

  function ArgTypes(es: Exprs): seq<TypeId> {
    match es
    case NoExprs => []
    case MoreExprs(e, rest) => Kept(e) + ArgTypes(rest)
  }

  lemma {:induction false} ArgsTyped(es: Exprs, s: seq<TypeId>)
    requires PureAll(es)
    ensures TypesOver(ArgsCode(es), s) == Some(s + ArgTypes(es))
    ensures AllTaken(ArgOperands(es), s + ArgTypes(es)) == Some(s)
    decreases es
  {
    hide TypesOver, ExprCode, Taken, Kept;
    assert s + [] == s;
    match es
    case NoExprs => NoTypes(s);
    case MoreExprs(e, rest) =>
      ExprTyped(e, s);
      OperandTaken(e, s);
      ArgsTyped(rest, s + Kept(e));
      TypesJoin(ExprCode(e), ArgsCode(rest), s);
      assert ArgOperands(es)[1..] == ArgOperands(rest);
      assert s + Kept(e) + ArgTypes(rest) == s + ArgTypes(es);
  }

  lemma CallTyped(f: Label, ty: TypeId, args: Exprs, s: seq<TypeId>)
    requires TypesOver(ArgsCode(args), s) == Some(s + ArgTypes(args))
    requires AllTaken(ArgOperands(args), s + ArgTypes(args)) == Some(s)
    ensures TypesOver(ArgsCode(args) + [Instr(Call, ty, [LabelOp(f)] + ArgOperands(args))], s)
         == Some(if ty == VoidType then s else s + [ty])
  {
    hide TypesOver, ArgsCode, ArgOperands, ArgTypes;
    var i := Instr(Call, ty, [LabelOp(f)] + ArgOperands(args));
    assert i.operands[1..] == ArgOperands(args);
    TypesOne(i, s + ArgTypes(args));
    TypesJoin(ArgsCode(args), [i], s);
  }

  // Code that starts and ends with an empty stack.
  predicate Closes(c: seq<Instr>) {
    TypesOver(c, []) == Some([])
  }

  lemma ClosesJoin(a: seq<Instr>, b: seq<Instr>)
    requires Closes(a) && Closes(b)
    ensures Closes(a + b)
  {
    TypesJoin(a, b, []);
  }

  lemma ClosesJoin5(a: seq<Instr>, b: seq<Instr>, c: seq<Instr>, d: seq<Instr>, e: seq<Instr>)
    requires Closes(a) && Closes(b) && Closes(c) && Closes(d) && Closes(e)
    ensures Closes(a + (b + (c + (d + e))))
  {
    hide Closes;
    ClosesJoin(d, e);
    ClosesJoin(c, d + e);
    ClosesJoin(b, c + (d + e));
    ClosesJoin(a, b + (c + (d + e)));
  }

  // Labels, jumps and stores that name no stack value.
  lemma {:induction false} QuietCloses(c: seq<Instr>)
    requires forall k :: 0 <= k < |c| ==> Quiet(c[k])
    ensures Closes(c)
    decreases |c|
  {
    hide Quiet, TypesAfter;
    if c != [] {
      QuietTypes(c[0]);
      QuietCloses(c[1..]);
    }
  }

  lemma QuietTypes(i: Instr)
    requires Quiet(i)
    ensures TypesAfter(i, []) == Some([])
  {
    NothingTaken(i.operands, []);
  }

  lemma {:induction false} NothingTaken(os: seq<Operand>, s: seq<TypeId>)
    requires OperandsConsumption(os) == 0
    ensures AllTaken(os, s) == Some(s)
    decreases |os|
  {
    if os != [] {
      if os[0].RefOp? {
        RefTakes(os[0]);
      }
      NothingTaken(os[1..], s);
    }
  }

  lemma LabelCloses(l: Label)
    ensures Closes([LabelInstr(l)]) && Closes([JumpInstr(l)])
  {
    LabelsQuiet(l);
    QuietCloses([LabelInstr(l)]);
    QuietCloses([JumpInstr(l)]);
  }

  lemma JumpLabelCloses(j: Label, l: Label)
    ensures Closes([JumpInstr(j), LabelInstr(l)])
  {
    LabelCloses(j);
    LabelCloses(l);
    ClosesJoin([JumpInstr(j)], [LabelInstr(l)]);
    assert [JumpInstr(j)] + [LabelInstr(l)] == [JumpInstr(j), LabelInstr(l)];
  }

  lemma CmpJumpCloses(c: Cond, invert: bool, target: Label)
    requires c.Cmp? && PureCond(c)
    ensures Closes(CmpJump(c, invert, target))
  {
    hide ExprCode, TypesOver, AllTaken, Kept, PushesToStack;
    var i := CondJumpInstr(JumpOpcode(c.cmp, invert), ExprOperand(c.a), ExprOperand(c.b), target);
    ExprTyped(c.a, []);
    ExprTyped(c.b, [] + Kept(c.a));
    TripleTaken(c.a, c.b, target);
    JumpsPushNothing(i);
    TypesOne(i, [] + Kept(c.a) + Kept(c.b));
    TypesJoin(ExprCode(c.b), [i], [] + Kept(c.a));
    TypesJoin(ExprCode(c.a), ExprCode(c.b) + [i], []);
  }

  lemma JumpsPushNothing(i: Instr)
    ensures (exists op, invert :: i.op == JumpOpcode(op, invert)) ==> !PushesToStack(i)
  {
  }

  lemma TripleTaken(l: Expr, r: Expr, target: Label)
    requires Pure(l) && Pure(r)
    ensures AllTaken([ExprOperand(l), ExprOperand(r), LabelOp(target)], [] + Kept(l) + Kept(r)) == Some([])
  {
    hide Taken, Kept;
    var os, s := [ExprOperand(l), ExprOperand(r), LabelOp(target)], [] + Kept(l) + Kept(r);
    OneTaken(LabelOp(target), s);
    LabelTaken(target, s);
    OperandTaken(r, [] + Kept(l));
    OperandTaken(l, []);
    assert os[1..][1..] == [LabelOp(target)];
    assert AllTaken(os[1..], s) == Taken(ExprOperand(r), s);
  }

  lemma LabelTaken(l: Label, s: seq<TypeId>)
    ensures Taken(LabelOp(l), s) == Some(s)
  {
  }

  lemma {:induction false} CondCloses(c: Cond, t: Label, f: Label)
    requires PureCond(c) && !Strays(c)
    ensures Closes(CondCode(c, t, f))
    decreases c
  {
    hide Closes, CmpJump;
    match c
    case Cmp(_, _, _, _, _) => CmpJumpCloses(c, true, f);
    case Bang(_, x) =>
      if x.Cmp? {
        CmpJumpCloses(x, false, f);
      } else {
        CondCloses(x, f, t);
      }
    case Logic(_, op, l, r) =>
      if l.Cmp? && op.OrOr? {
        CmpJumpCloses(l, false, t);
      } else {
        CondCloses(l, LeftTrueLabel(op, l, r, t), LeftFalseLabel(op, l, r, f));
      }
      CondCloses(r, t, f);
      var self := SelfLabel(op, l, r);
      LabelCloses(ShortLabel(r.id));
      QuietCloses([]);
      ClosesJoin(self, CondCode(r, t, f));
      ClosesJoin(LeftCode(op, l, r, t, f), self + CondCode(r, t, f));
  }

  // A store, whatever lies below its value.
  lemma StoreTyped(ty: TypeId, d: Name, e: Expr, s: seq<TypeId>)
    requires Pure(e)
    ensures TypesOver(ExprCode(e) + [StoreInstr(ty, d, e)], s) == Some(s)
  {
    hide ExprCode, TypesOver, Kept, Taken;
    var i := StoreInstr(ty, d, e);
    ExprTyped(e, s);
    OperandTaken(e, s);
    OneTaken(ExprOperand(e), s + Kept(e));
    NameTaken(d, s);
    assert i.operands[1..] == [ExprOperand(e)];
    TypesOne(i, s + Kept(e));
    TypesJoin(ExprCode(e), [i], s);
  }

  lemma NameTaken(d: Name, s: seq<TypeId>)
    ensures Taken(RefOp(d), s) == Some(s)
  {
  }

  lemma LaterTyped(ty: TypeId, w: Later, s: seq<TypeId>)
    requires PureLater(w)
    ensures TypesOver(LaterCode(ty, w), s) == Some(s)
  {
    hide TypesOver, ExprCode, ArgsCode;
    match w
    case AssignLater(d, e) => StoreTyped(ty, d, e, s);
    case CallLater(f, args) =>
      ArgsTyped(args, s);
      CallTyped(f, VoidType, args, s);
  }

  lemma {:induction false} AssignsTyped(xs: Assigns, s: seq<TypeId>)
    requires PureAssigns(xs)
    ensures TypesOver(AssignsCode(xs), s) == Some(s)
    decreases xs
  {
    hide LaterCode, TypesOver;
    if xs.MoreAssigns? {
      LaterTyped(xs.ty, xs.what, s);
      AssignsTyped(xs.rest, s);
      TypesJoin(LaterCode(xs.ty, xs.what), AssignsCode(xs.rest), s);
    } else {
      NoTypes(s);
    }
  }

  lemma ReturnCloses(e: Expr, ty: TypeId, pending: Assigns)
    requires Pure(e) && PureAssigns(pending)
    ensures Closes(ExprCode(e) + (AssignsCode(pending) + [Instr(Return, ty, [ExprOperand(e)])]))
  {
    hide ExprCode, TypesOver, Pure, PureAssigns, Kept, Taken;
    var i := Instr(Return, ty, [ExprOperand(e)]);
    ExprTyped(e, []);
    AssignsTyped(pending, [] + Kept(e));
    OperandTaken(e, []);
    OneTaken(ExprOperand(e), [] + Kept(e));
    TypesOne(i, [] + Kept(e));
    TypesJoin(AssignsCode(pending), [i], [] + Kept(e));
    TypesJoin(ExprCode(e), AssignsCode(pending) + [i], []);
  }

  lemma {:induction false} StmtCloses(s: Stmt, jumps: bool, ctx: Ctx)
    requires Supported(s, jumps, ctx.pending) && PureAssigns(ctx.pending)
    ensures Closes(StmtCode(s, ctx))
    decreases s, 1
  {
    hide ExprCode, Closes, CondCode, AssignsCode, ForTest, ForAdvance, TypesOver;
    match s
    case Assign(d, e) => AssignCloses(d, e);
    case ExprStmt(e) => DiscardCloses(e);
    case CallStmt(f, args) => CallStmtCloses(f, args);
    case If(_, _, _, _) => IfCloses(s, jumps, ctx);
    case While(id, c, body) =>
      CondCloses(c, WhileBody(id), WhileEnd(id));
      StmtCloses(body, true, WhileCtx(id, ctx));
      WhileCloses(id, CondCode(c, WhileBody(id), WhileEnd(id)), StmtCode(body, WhileCtx(id, ctx)));
    case For(id, g, body) =>
      StmtCloses(body, true, ForCtx(id, ctx));
      ForCloses(id, g, StmtCode(body, ForCtx(id, ctx)));
    case Block(b) => BlockCloses(b, NoAssigns, jumps, ctx, true);
    case ReturnStmt(Some(e), ty) => ReturnCloses(e, ty, ctx.pending);
    case ReturnStmt(None, ty) => PlainReturnCloses(ty, ctx.pending);
    case Break => JumpCloses(ctx.brk);
    case Continue => JumpCloses(ctx.cont);
    case DeferStmt(_) => QuietCloses([]);
  }

  lemma AssignCloses(d: Name, e: Expr)
    requires Pure(e)
    ensures Closes(ExprCode(e) + [StoreInstr(NoType, d, e)])
  {
    StoreTyped(NoType, d, e, []);
  }

  lemma DiscardCloses(e: Expr)
    requires Pure(e)
    ensures Closes(ExprCode(e) + [Instr(Noop, VoidType, [ExprOperand(e)])])
  {
    hide ExprCode, Pure, TypesOver;
    ExprTyped(e, []);
    UseTyped(e, Instr(Noop, VoidType, [ExprOperand(e)]), []);
  }

  lemma CallStmtCloses(f: Label, args: Exprs)
    requires PureAll(args)
    ensures Closes(ArgsCode(args) + [VoidCall(f, args)])
  {
    LaterTyped(NoType, CallLater(f, args), []);
  }

  lemma JumpCloses(l: Option<Label>)
    ensures Closes(OptJump(l))
  {
    if l.Some? {
      LabelCloses(l.value);
    }
  }

  lemma PlainReturnCloses(ty: TypeId, pending: Assigns)
    requires PureAssigns(pending)
    ensures Closes(AssignsCode(pending) + [Instr(Return, ty, [IntOp(0, NoType)])])
  {
    hide AssignsCode, TypesOver;
    var last := Instr(Return, ty, [IntOp(0, NoType)]);
    AssignsTyped(pending, []);
    OneTaken(IntOp(0, NoType), []);
    TypesOne(last, []);
    ClosesJoin(AssignsCode(pending), [last]);
  }

  lemma WhileCloses(id: nat, cond: seq<Instr>, body: seq<Instr>)
    requires Closes(cond) && Closes(body)
    ensures Closes([LabelInstr(WhileCond(id))]
                   + (cond + ([LabelInstr(WhileBody(id))] + (body + [JumpInstr(WhileCond(id)), LabelInstr(WhileEnd(id))]))))
  {
    JumpLabelCloses(WhileCond(id), WhileEnd(id));
    LabelCloses(WhileCond(id));
    LabelCloses(WhileBody(id));
    ClosesJoin5([LabelInstr(WhileCond(id))], cond, [LabelInstr(WhileBody(id))], body,
                [JumpInstr(WhileCond(id)), LabelInstr(WhileEnd(id))]);
  }

  lemma {:induction false} IfCloses(s: Stmt, jumps: bool, ctx: Ctx)
    requires s.If? && Supported(s, jumps, ctx.pending) && PureAssigns(ctx.pending)
    ensures Closes(StmtCode(s, ctx))
    decreases s, 0
  {
    hide Closes, CondCode;
    var id := s.id;
    CondCloses(s.cond, IfBody(id), IfElse(id));
    StmtCloses(s.thn, jumps, ctx);
    LabelCloses(IfBody(id));
    if s.els.Some? {
      StmtCloses(s.els.value, jumps, ctx);
      var skip, end := [JumpInstr(IfEnd(id)), LabelInstr(IfElse(id))], [LabelInstr(IfEnd(id))];
      JumpLabelCloses(IfEnd(id), IfElse(id));
      LabelCloses(IfEnd(id));
      ClosesJoin(StmtCode(s.els.value, ctx), end);
      ClosesJoin5(CondCode(s.cond, IfBody(id), IfElse(id)), [LabelInstr(IfBody(id))], StmtCode(s.thn, ctx), skip,
                  StmtCode(s.els.value, ctx) + end);
    } else {
      LabelCloses(IfElse(id));
      ClosesJoin(StmtCode(s.thn, ctx), [LabelInstr(IfElse(id))]);
      ClosesJoin([LabelInstr(IfBody(id))], StmtCode(s.thn, ctx) + [LabelInstr(IfElse(id))]);
      ClosesJoin(CondCode(s.cond, IfBody(id), IfElse(id)),
                 [LabelInstr(IfBody(id))] + (StmtCode(s.thn, ctx) + [LabelInstr(IfElse(id))]));
    }
  }

  lemma ForTestCloses(id: nat, g: Range)
    ensures Closes(ForTest(id, g))
  {
    hide Quiet, ForTest;
    forall k | 0 <= k < |ForTest(id, g)|
      ensures Quiet(ForTest(id, g)[k])
    {
      TestQuiet(id, g, ForTest(id, g)[k]);
    }
    QuietCloses(ForTest(id, g));
  }

  lemma AdvanceCloses(id: nat, g: Range)
    ensures Closes(ForAdvance(id, g) + [LabelInstr(ForEnd(id))])
  {
    hide Closes;
    var sum := Arith(g.ty, Plus, Ident(g.elem), Ident(g.stepvar));
    assert ExprCode(sum) == [Instr(Add, g.ty, [ElemOp(g), RefOp(g.stepvar)])];
    AssignCloses(g.elem, sum);
    var tail := [JumpInstr(ForCond(id)), LabelInstr(ForEnd(id))];
    JumpLabelCloses(ForCond(id), ForEnd(id));
    ClosesJoin(ExprCode(sum) + [StoreInstr(NoType, g.elem, sum)], tail);
    assert ForAdvance(id, g) + [LabelInstr(ForEnd(id))] == (ExprCode(sum) + [StoreInstr(NoType, g.elem, sum)]) + tail;
  }

  lemma ForCloses(id: nat, g: Range, body: seq<Instr>)
    requires PureRange(g) && Closes(body)
    ensures Closes(AssignsCode(RangeAssigns(g))
                   + (ForTest(id, g) + ([LabelInstr(ForBody(id))] + (body + (ForAdvance(id, g) + [LabelInstr(ForEnd(id))])))))
  {
    RangePure(g);
    AssignsTyped(RangeAssigns(g), []);
    ForTestCloses(id, g);
    LabelCloses(ForBody(id));
    AdvanceCloses(id, g);
    ClosesJoin5(AssignsCode(RangeAssigns(g)), ForTest(id, g), [LabelInstr(ForBody(id))], body,
                ForAdvance(id, g) + [LabelInstr(ForEnd(id))]);
  }

  lemma {:induction false} BlockCloses(b: Stmts, ds: Assigns, jumps: bool, ctx: Ctx, replay: bool)
    requires SupportedAll(b, jumps, ds, ctx.pending) && PureAssigns(ds) && PureAssigns(ctx.pending)
    ensures Closes(BlockCode(b, ds, ctx, replay))
    decreases b, 0
  {
    hide Closes, AssignsCode;
    match b
    case NoStmts => ReplayCloses(ds);
    case MoreStmts(s, rest) =>
      if s.DeferStmt? {
        BlockCloses(rest, MoreAssigns(NoType, s.what, ds), jumps, ctx, replay);
      } else {
        AppendPure(ds, ctx.pending);
        StmtCloses(s, jumps && ds.NoAssigns?, Inside(ds, ctx));
        BlockCloses(rest, ds, jumps, ctx, replay);
        ClosesJoin(StmtCode(s, Inside(ds, ctx)), BlockCode(rest, ds, ctx, replay));
      }
  }

  lemma ReplayCloses(ds: Assigns)
    requires PureAssigns(ds)
    ensures Closes(AssignsCode(ds)) && Closes([])
  {
    AssignsTyped(ds, []);
    NoTypes([]);
  }

  /**
   * In the code of a function, as lowered and as optimized, every value is popped as a
   * value of the type it was computed with.
   */
  lemma FuncTyped(body: Stmts, optimized: bool)
    requires SupportedFunc(body)
    ensures WellTyped(if optimized then Optimized(FuncCode(body)) else FuncCode(body))
  {
    hide WellTyped, TypesOver;
    BlockCloses(body, NoAssigns, false, TOP, !HasReturns(body));
    ClosedTyped(FuncCode(body));
    OptimizedTyped(FuncCode(body));
  }

  lemma ClosedTyped(c: seq<Instr>)
    requires Closes(c)
    ensures WellTyped(c)
  {
    hide AllTaken, PendingTypes;
    forall i | 0 <= i < |c|
      ensures AllTaken(c[i].operands, PendingTypes(c, i)).Some?
    {
      TypesReach(c, i);
    }
  }

  lemma OptimizedTyped(c: seq<Instr>)
    requires WellTyped(c)
    ensures WellTyped(Optimized(c))
  {
    hide AllTaken, Optimized, D.Pending;
    ProfileKept(c);
    var d := Optimized(c);
    forall i | 0 <= i < |d|
      ensures AllTaken(d[i].operands, PendingTypes(d, i)).Some?
    {
      D.SameBefore(c, [], i);
      D.PendingBelow(c, i);
      assert PendingTypes(d, i) == PendingTypes(c, i);
      RewrittenTaken(c, i, PendingTypes(c, i));
    }
  }

  lemma RewrittenTaken(c: seq<Instr>, i: nat, s: seq<TypeId>)
    requires i < |c| && AllTaken(c[i].operands, s).Some?
    ensures AllTaken(Optimized(c)[i].operands, s).Some?
  {
    hide Repeats;
  }
}
