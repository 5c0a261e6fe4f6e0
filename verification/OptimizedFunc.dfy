// The peephole pass on the code that statements are lowered to.

module OptimizedFunc {
  import opened Ir
  import opened Machine
  import opened Ast
  import opened LowerExpr
  import opened LowerCond
  import opened CondExact
  import opened LowerStmt
  import opened StmtCorrect
  import opened Labels
  import opened FuncCorrect
  import opened Optimizer
  import opened X64Arith

  // Every instruction pushes.
  predicate AllPush(c: seq<Instr>) {
    forall k :: 0 <= k < |c| ==> PushesToStack(c[k])
  }

  // Tight code that does not end in a push: any code may follow.
  predicate Closed(c: seq<Instr>) {
    Tight(c) && (c != [] ==> !PushesToStack(c[|c| - 1]))
  }

  lemma ClosedJoin(a: seq<Instr>, b: seq<Instr>)
    requires Closed(a) && Closed(b)
    ensures Closed(a + b)
  {
    hide PushesToStack, StackEffect;
  }

  // Pushed values go straight into the code that follows.
  lemma FeedJoin(a: seq<Instr>, b: seq<Instr>)
    requires AllPush(a) && Closed(b)
    requires a != [] ==> b != [] && StackEffect(b[0]) != 0
    ensures Closed(a + b)
  {
    hide PushesToStack, Consumption;
    var c := a + b;
    forall k | 0 <= k < |c| - 1 && PushesToStack(c[k])
      ensures StackEffect(c[k + 1]) != 0
    {
      if k >= |a| {
        assert c[k] == b[k - |a|] && c[k + 1] == b[k - |a| + 1];
      } else if k == |a| - 1 {
        assert c[k + 1] == b[0];
      }
    }
  }

  // The code of a value expression pushes at every instruction, and its value is then
  // taken from the stack; only a constant or a name has no code.
  lemma {:induction false} ExprPushes(e: Expr)
    requires Pure(e)
    ensures AllPush(ExprCode(e))
    ensures ExprCode(e) != [] <==> IsPop(ExprOperand(e))
    decreases e
  {
    hide AllPush;
    match e
    case IntLit(_, _) => NothingPushes();
    case Ident(_) => NothingPushes();
    case Arith(ty, op, l, r) =>
      ExprPushes(l);
      ExprPushes(r);
      PushJoin3(ExprCode(l), ExprCode(r), Instr(Opcode(op), ty, [ExprOperand(l), ExprOperand(r)]));
    case Compare(ty, op, l, r) =>
      ExprPushes(l);
      ExprPushes(r);
      PushJoin3(ExprCode(l), ExprCode(r), CompareInstr(ty, op, false, l, r));
    case Negate(ty, x) =>
      ExprPushes(x);
      PushJoin(ExprCode(x), Instr(Neg, ty, [ExprOperand(x)]));
    case Not(x) =>
      ExprPushes(x.left);
      ExprPushes(x.right);
      PushJoin3(ExprCode(x.left), ExprCode(x.right), CompareInstr(x.ty, x.cmp, true, x.left, x.right));
    case CallExpr(ty, f, args) =>
      ArgsPush(args);
      PushJoin(ArgsCode(args), Instr(Call, ty, [LabelOp(f)] + ArgOperands(args)));
  }

  lemma NothingPushes()
    ensures AllPush([])
  {
  }

  lemma PushJoin(a: seq<Instr>, i: Instr)
    requires AllPush(a) && PushesToStack(i)
    ensures AllPush(a + [i])
  {
  }

  lemma PushJoin3(a: seq<Instr>, b: seq<Instr>, i: Instr)
    requires AllPush(a) && AllPush(b) && PushesToStack(i)
    ensures AllPush(a + (b + [i]))
  {
  }

  lemma {:induction false} ArgsPush(es: Exprs)
    requires PureAll(es)
    ensures AllPush(ArgsCode(es))
    decreases es
  {
    if es.MoreExprs? {
      ExprPushes(es.head);
      ArgsPush(es.tail);
    }
  }

  // An instruction that takes the value of an expression, after its code.
  lemma UseClosed(e: Expr, i: Instr, k: nat)
    requires Pure(e) && k < |i.operands| <= 3 && i.operands[k] == ExprOperand(e) && !PushesToStack(i)
    ensures Closed(ExprCode(e) + [i])
  {
    hide AllPush, ExprCode, PushesToStack;
    ExprPushes(e);
    if ExprCode(e) != [] {
      PopsSome(i.operands, k);
    }
    FeedJoin(ExprCode(e), [i]);
  }

  lemma PopsSome(os: seq<Operand>, k: nat)
    requires k < |os| && IsPop(os[k])
    ensures OperandsConsumption(os) > 0
    decreases |os|
  {
    if k > 0 {
      PopsSome(os[1..], k - 1);
    }
  }

  lemma CmpJumpClosed(c: Cond, invert: bool, target: Label)
    requires c.Cmp? && PureCond(c)
    ensures Closed(CmpJump(c, invert, target))
  {
    hide ExprCode;
    var a, b, i := ExprCode(c.a), ExprCode(c.b), CondJumpInstr(JumpOpcode(c.cmp, invert), ExprOperand(c.a), ExprOperand(c.b), target);
    ExprPushes(c.a);
    ExprPushes(c.b);
    if a != [] {
      PopsSome(i.operands, 0);
    }
    if b != [] {
      PopsSome(i.operands, 1);
    }
    FeedJoin(a + b, [i]);
    assert (a + b) + [i] == a + (b + [i]);
  }

  lemma {:induction false} CondClosed(c: Cond, t: Label, f: Label)
    requires PureCond(c) && !Strays(c)
    ensures Closed(CondCode(c, t, f))
    decreases c
  {
    hide Closed, CmpJump;
    match c
    case Cmp(_, _, _, _, _) => CmpJumpClosed(c, true, f);
    case Bang(_, x) =>
      if x.Cmp? {
        CmpJumpClosed(x, false, f);
      } else {
        CondClosed(x, f, t);
      }
    case Logic(_, op, l, r) =>
      if l.Cmp? && op.OrOr? {
        CmpJumpClosed(l, false, t);
      } else {
        CondClosed(l, LeftTrueLabel(op, l, r, t), LeftFalseLabel(op, l, r, f));
      }
      CondClosed(r, t, f);
      var self := SelfLabel(op, l, r);
      QuietClosed(self);
      ClosedJoin(self, CondCode(r, t, f));
      ClosedJoin(LeftCode(op, l, r, t, f), self + CondCode(r, t, f));
  }

  // Code that pushes nothing.
  lemma QuietClosed(c: seq<Instr>)
    requires forall k :: 0 <= k < |c| ==> !PushesToStack(c[k])
    ensures Closed(c)
  {
  }

  lemma LaterClosed(ty: TypeId, w: Later)
    requires PureLater(w)
    ensures Closed(LaterCode(ty, w))
  {
    hide ExprCode, ArgsCode, Closed;
    match w
    case AssignLater(d, e) => UseClosed(e, StoreInstr(ty, d, e), 1);
    case CallLater(f, args) => CallStmtClosed(f, args);
  }

  lemma {:induction false} AssignsClosed(xs: Assigns)
    requires PureAssigns(xs)
    ensures Closed(AssignsCode(xs))
    decreases xs
  {
    hide LaterCode, Closed;
    if xs.MoreAssigns? {
      LaterClosed(xs.ty, xs.what);
      AssignsClosed(xs.rest);
      ClosedJoin(LaterCode(xs.ty, xs.what), AssignsCode(xs.rest));
    } else {
      QuietClosed([]);
    }
  }

  // Its code begins with a computation.
  predicate Computed(w: Later) {
    match w
    case AssignLater(_, e) => IsPop(ExprOperand(e))
    case CallLater(_, args) => ArgsCode(args) != []
  }

  // A computed result is not left on the stack while constants or names are stored or
  // passed to a call.
  predicate Prompt(s: Stmt, pending: Assigns)
    decreases s
  {
    match s
    case If(_, _, thn, els) => Prompt(thn, pending) && (els.Some? ==> Prompt(els.value, pending))
    case While(_, _, body) => Prompt(body, pending)
    case For(_, _, body) => Prompt(body, pending)
    case Block(b) => PromptAll(b, NoAssigns, pending)
    case ReturnStmt(Some(e), _) =>
      !IsPop(ExprOperand(e)) || pending.NoAssigns? || Computed(pending.what)
    case _ => true
  }

  predicate PromptAll(b: Stmts, ds: Assigns, pending: Assigns)
    decreases b
  {
    match b
    case NoStmts => true
    case MoreStmts(s, rest) =>
      if s.DeferStmt? then PromptAll(rest, MoreAssigns(NoType, s.what, ds), pending)
      else Prompt(s, Append(ds, pending)) && PromptAll(rest, ds, pending)
  }

  /** No return of a computed value is directly followed by something deferred that computes nothing first. */
  predicate PromptFunc(body: Stmts) {
    PromptAll(body, NoAssigns, NoAssigns)
  }

  lemma ReturnClosed(e: Expr, ty: TypeId, pending: Assigns)
    requires Pure(e) && PureAssigns(pending) && Prompt(ReturnStmt(Some(e), ty), pending)
    ensures Closed(ExprCode(e) + (AssignsCode(pending) + [Instr(Return, ty, [ExprOperand(e)])]))
  {
    hide ExprCode, AllPush, LaterCode;
    var back := [Instr(Return, ty, [ExprOperand(e)])];
    ExprPushes(e);
    AssignsClosed(pending);
    QuietClosed(back);
    ClosedJoin(AssignsCode(pending), back);
    if pending.MoreAssigns? && ExprCode(e) != [] {
      LaterPushesFirst(pending.ty, pending.what);
      assert AssignsCode(pending)[0] == LaterCode(pending.ty, pending.what)[0];
    }
    FeedJoin(ExprCode(e), AssignsCode(pending) + back);
  }

  lemma LaterPushesFirst(ty: TypeId, w: Later)
    requires PureLater(w) && Computed(w)
    ensures LaterCode(ty, w) != [] && PushesToStack(LaterCode(ty, w)[0])
  {
    hide ExprCode, ArgsCode, AllPush, PushesToStack;
    match w
    case AssignLater(_, e) =>
      ExprPushes(e);
      AllPushFirst(ExprCode(e));
    case CallLater(_, args) =>
      ArgsPush(args);
      AllPushFirst(ArgsCode(args));
  }

  lemma AllPushFirst(c: seq<Instr>)
    requires AllPush(c) && c != []
    ensures PushesToStack(c[0])
  {
  }

  lemma {:induction false} StmtClosed(s: Stmt, jumps: bool, ctx: Ctx)
    requires Supported(s, jumps, ctx.pending) && PureAssigns(ctx.pending) && Prompt(s, ctx.pending)
    ensures Closed(StmtCode(s, ctx))
    decreases s
  {
    hide ExprCode, Closed, CondCode, AssignsCode, ForTest, ForAdvance;
    match s
    case Assign(d, e) => UseClosed(e, StoreInstr(NoType, d, e), 1);
    case ExprStmt(e) => UseClosed(e, Instr(Noop, VoidType, [ExprOperand(e)]), 0);
    case CallStmt(f, args) => CallStmtClosed(f, args);
    case If(_, _, _, _) => IfClosed(s, jumps, ctx);
    case While(id, c, body) =>
      CondClosed(c, WhileBody(id), WhileEnd(id));
      StmtClosed(body, true, WhileCtx(id, ctx));
      var head, mid, tail := [LabelInstr(WhileCond(id))], [LabelInstr(WhileBody(id))], [JumpInstr(WhileCond(id)), LabelInstr(WhileEnd(id))];
      QuietClosed(head);
      QuietClosed(mid);
      QuietClosed(tail);
      ClosedJoin5(head, CondCode(c, WhileBody(id), WhileEnd(id)), mid, StmtCode(body, WhileCtx(id, ctx)), tail);
    case For(id, g, body) =>
      StmtClosed(body, true, ForCtx(id, ctx));
      ForClosed(id, g, StmtCode(body, ForCtx(id, ctx)));
    case Block(b) => BlockClosed(b, NoAssigns, jumps, ctx, true);
    case ReturnStmt(Some(e), ty) => ReturnClosed(e, ty, ctx.pending);
    case ReturnStmt(None, ty) =>
      AssignsClosed(ctx.pending);
      QuietClosed([Instr(Return, ty, [IntOp(0, NoType)])]);
      ClosedJoin(AssignsCode(ctx.pending), [Instr(Return, ty, [IntOp(0, NoType)])]);
    case Break => QuietClosed(OptJump(ctx.brk));
    case Continue => QuietClosed(OptJump(ctx.cont));
    case DeferStmt(_) => QuietClosed([]);
  }

  lemma CallStmtClosed(f: Label, args: Exprs)
    requires PureAll(args)
    ensures Closed(ArgsCode(args) + [VoidCall(f, args)])
  {
    hide AllPush, ArgsCode, ArgOperands;
    ArgsPush(args);
    ArgsPopped(args);
    assert VoidCall(f, args).operands[1..] == ArgOperands(args);
    QuietClosed([VoidCall(f, args)]);
    FeedJoin(ArgsCode(args), [VoidCall(f, args)]);
  }

  // Arguments that are computed are popped.
  lemma {:induction false} ArgsPopped(args: Exprs)
    requires PureAll(args)
    ensures ArgsCode(args) != [] ==> OperandsConsumption(ArgOperands(args)) > 0
    decreases args
  {
    if args.MoreExprs? {
      ExprPushes(args.head);
      ArgsPopped(args.tail);
      assert ArgOperands(args)[1..] == ArgOperands(args.tail);
    }
  }

  lemma ClosedJoin5(a: seq<Instr>, b: seq<Instr>, c: seq<Instr>, d: seq<Instr>, e: seq<Instr>)
    requires Closed(a) && Closed(b) && Closed(c) && Closed(d) && Closed(e)
    ensures Closed(a + (b + (c + (d + e))))
  {
    hide Closed;
    ClosedJoin(d, e);
    ClosedJoin(c, d + e);
    ClosedJoin(b, c + (d + e));
    ClosedJoin(a, b + (c + (d + e)));
  }

  lemma {:induction false} IfClosed(s: Stmt, jumps: bool, ctx: Ctx)
    requires s.If? && Supported(s, jumps, ctx.pending) && PureAssigns(ctx.pending) && Prompt(s, ctx.pending)
    ensures Closed(StmtCode(s, ctx))
    decreases s, 0
  {
    hide Closed, CondCode;
    var id := s.id;
    CondClosed(s.cond, IfBody(id), IfElse(id));
    StmtClosed(s.thn, jumps, ctx);
    var mid := [LabelInstr(IfBody(id))];
    QuietClosed(mid);
    if s.els.Some? {
      StmtClosed(s.els.value, jumps, ctx);
      var skip, end := [JumpInstr(IfEnd(id)), LabelInstr(IfElse(id))], [LabelInstr(IfEnd(id))];
      QuietClosed(skip);
      QuietClosed(end);
      ClosedJoin(StmtCode(s.els.value, ctx), end);
      ClosedJoin5(CondCode(s.cond, IfBody(id), IfElse(id)), mid, StmtCode(s.thn, ctx), skip, StmtCode(s.els.value, ctx) + end);
    } else {
      var end := [LabelInstr(IfElse(id))];
      QuietClosed(end);
      ClosedJoin(StmtCode(s.thn, ctx), end);
      ClosedJoin(mid, StmtCode(s.thn, ctx) + end);
      ClosedJoin(CondCode(s.cond, IfBody(id), IfElse(id)), mid + (StmtCode(s.thn, ctx) + end));
    }
  }

  lemma RangeClosed(g: Range)
    requires PureRange(g)
    ensures Closed(AssignsCode(RangeAssigns(g)))
  {
    RangePure(g);
    AssignsClosed(RangeAssigns(g));
  }

  lemma ForClosed(id: nat, g: Range, body: seq<Instr>)
    requires PureRange(g) && Closed(body)
    ensures Closed(AssignsCode(RangeAssigns(g))
                   + (ForTest(id, g) + ([LabelInstr(ForBody(id))] + (body + (ForAdvance(id, g) + [LabelInstr(ForEnd(id))])))))
  {
    hide Closed, AssignsCode;
    RangeClosed(g);
    QuietClosed(ForTest(id, g));
    QuietClosed([LabelInstr(ForBody(id))]);
    AdvanceClosed(id, g);
    ClosedJoin(body, ForAdvance(id, g) + [LabelInstr(ForEnd(id))]);
    var rest := body + (ForAdvance(id, g) + [LabelInstr(ForEnd(id))]);
    ClosedJoin([LabelInstr(ForBody(id))], rest);
    ClosedJoin(ForTest(id, g), [LabelInstr(ForBody(id))] + rest);
    ClosedJoin(AssignsCode(RangeAssigns(g)), ForTest(id, g) + ([LabelInstr(ForBody(id))] + rest));
  }

  lemma AdvanceClosed(id: nat, g: Range)
    ensures Closed(ForAdvance(id, g) + [LabelInstr(ForEnd(id))])
  {
    assert ForAdvance(id, g)[1].operands[1] == RefOp(StackPop(g.ty));
    PopsSome(ForAdvance(id, g)[1].operands, 1);
  }

  lemma {:induction false} BlockClosed(b: Stmts, ds: Assigns, jumps: bool, ctx: Ctx, replay: bool)
    requires SupportedAll(b, jumps, ds, ctx.pending) && PureAssigns(ds) && PureAssigns(ctx.pending)
    requires PromptAll(b, ds, ctx.pending)
    ensures Closed(BlockCode(b, ds, ctx, replay))
    decreases b
  {
    hide Closed, AssignsCode;
    match b
    case NoStmts =>
      AssignsClosed(ds);
      QuietClosed([]);
    case MoreStmts(s, rest) =>
      if s.DeferStmt? {
        BlockClosed(rest, MoreAssigns(NoType, s.what, ds), jumps, ctx, replay);
      } else {
        AppendPure(ds, ctx.pending);
        StmtClosed(s, jumps && ds.NoAssigns?, Inside(ds, ctx));
        BlockClosed(rest, ds, jumps, ctx, replay);
        ClosedJoin(StmtCode(s, Inside(ds, ctx)), BlockCode(rest, ds, ctx, replay));
      }
  }

  /** In the code of such a function only neighbours are rewritten. */
  lemma FuncTight(body: Stmts)
    requires SupportedFunc(body) && PromptFunc(body)
    ensures Tight(FuncCode(body)) && Guarded(FuncCode(body))
  {
    BlockClosed(body, NoAssigns, false, TOP, !HasReturns(body));
    TightGuarded(FuncCode(body));
  }

  function OptimizedProgram(body: Stmts, env: Env): Program {
    Program(Optimized(FuncCode(body)), env)
  }

  /**
   * The optimized code of a function ends exactly as its source does. Guarded is a
   * check on the code; by FuncTight it holds for every prompt function.
   */
  lemma OptimizedFuncExact(body: Stmts, st: Store, stk: Stack, env: Env, t: State)
    requires SupportedFunc(body) && NumberedAll(body) && Guarded(FuncCode(body))
    ensures (exists fuel: nat :: SourceEnds(body, st, stk, env, t, fuel))
       <==> (exists n: nat :: MachineEnds(OptimizedProgram(body, env), st, stk, t, n))
  {
    hide Step, Run, ExecBlock, SupportedFunc, NumberedAll, FuncCode, Guarded;
    FuncExact(body, st, stk, env, t);
    var p, q := FuncProgram(body, env), OptimizedProgram(body, env);
    forall n: nat
      ensures MachineEnds(p, st, stk, t, n) == MachineEnds(q, st, stk, t, n)
    {
      OptimizedRuns(FuncCode(body), env, st, stk, n);
    }
  }

  /** And it makes exactly the calls of its source, even in a run without end. */
  lemma OptimizedCallsExact(body: Stmts, st: Store, stk: Stack, env: Env, cs: seq<CallMade>)
    requires SupportedFunc(body) && NumberedAll(body) && Guarded(FuncCode(body))
    ensures SourceMakes(body, st, env, cs) <==> MachineMakes(OptimizedProgram(body, env), st, stk, cs)
  {
    hide Step, Run, ExecBlock, SupportedFunc, NumberedAll, FuncCode, Guarded, CallsOf;
    CallsExact(body, st, stk, env, cs);
    forall n: nat
      ensures Run(OptimizedProgram(body, env), Running(0, st, stk), n) == Run(FuncProgram(body, env), Running(0, st, stk), n)
    {
      OptimizedRuns(FuncCode(body), env, st, stk, n);
    }
    var p, q, s := FuncProgram(body, env), OptimizedProgram(body, env), Running(0, st, stk);
    if n: nat :| cs <= CallsOf(Run(p, s, n)) {
      assert cs <= CallsOf(Run(q, s, n));
    }
    if n: nat :| cs <= CallsOf(Run(q, s, n)) {
      assert cs <= CallsOf(Run(p, s, n));
    }
  }

  // ----- A function that is optimized wrongly -----

  const A := Local(0, Int32Type)
  const B := Local(1, Int32Type)
  const Y := Local(2, Int32Type)

  function Sum(): Expr {
    Arith(Int32Type, Plus, Ident(A), Ident(B))
  }

  // defer y = a + b; defer a = 5; return a + b
  function LateSum(): Stmts {
    MoreStmts(DeferStmt(AssignLater(Y, Sum())),
      MoreStmts(DeferStmt(AssignLater(A, IntLit(5, Int32Type))), MoreStmts(ReturnStmt(Some(Sum()), Int32Type), NoStmts)))
  }

  function SumInstr(): Instr {
    Instr(Add, Int32Type, [RefOp(A), RefOp(B)])
  }

  function LateSumCode(): seq<Instr> {
    [SumInstr(), StoreInstr(NoType, A, IntLit(5, Int32Type)), SumInstr(),
     StoreInstr(NoType, Y, Sum()), Instr(Return, Int32Type, [RefOp(StackPop(Int32Type))])]
  }

  lemma LateSumLowered()
    ensures SupportedFunc(LateSum()) && NumberedAll(LateSum())
    ensures FuncCode(LateSum()) == LateSumCode()
  {
    var ret := ReturnStmt(Some(Sum()), Int32Type);
    var ds := Assignment(NoType, A, IntLit(5, Int32Type), Assignment(NoType, Y, Sum(), NoAssigns));
    var last := MoreStmts(ret, NoStmts);
    assert ExprCode(Sum()) == [SumInstr()];
    assert Append(ds, NoAssigns) == ds by {
      assert Append(ds.rest, NoAssigns) == ds.rest;
    }
    assert AssignsCode(ds.rest) == [SumInstr(), StoreInstr(NoType, Y, Sum())];
    assert StmtCode(ret, Inside(ds, TOP)) == LateSumCode();
    assert BlockCode(last, ds, TOP, false) == LateSumCode();
    assert BlockCode(LateSum().tail, ds.rest, TOP, false) == LateSumCode();
    assert HasReturns(LateSum().tail) && HasReturns(LateSum());
    assert Pure(Sum());
    assert SupportedAll(last, false, ds, NoAssigns);
    assert SupportedAll(LateSum().tail, false, ds.rest, NoAssigns);
    assert NumberedAll(LateSum().tail);
    assert Replayed(LateSum().tail, ds.rest, false);
  }

  lemma PairConsumption(i: Instr)
    requires |i.operands| == 2
    ensures Consumption(i) == OperandConsumption(i.operands[0]) + OperandConsumption(i.operands[1])
  {
    assert OperandsConsumption(i.operands[1..]) == OperandConsumption(i.operands[1]) + OperandsConsumption(i.operands[2..]);
  }

  lemma LateSumEffects()
    ensures var c := LateSumCode();
            && StackEffect(c[0]) == 1 && StackEffect(c[1]) == 0 && StackEffect(c[2]) == 1 && StackEffect(c[3]) == 1
            && CanBeReplaced(c[2]) && !CanBeReplaced(c[1]) && !CanBeReplaced(c[3]) && !CanBeReplaced(c[4])
  {
    hide OperandsConsumption;
    var c := LateSumCode();
    PairConsumption(c[0]);
    PairConsumption(c[1]);
    PairConsumption(c[3]);
  }

  lemma LateSumOptimized()
    ensures Optimized(LateSumCode()) == LateSumCode()[2 := Duplicate(SumInstr())]
    ensures !Guarded(LateSumCode())
  {
    hide StackEffect;
    var c := LateSumCode();
    LateSumEffects();
    assert Touch(c, 1) == 0 && Touch(c, 2) == 0 && Touch(c, 3) == 2 && Touch(c, 4) == 3;
    assert Repeats(c, 2) && !Undisturbed(c, 2);
  }

  /**
   * With a = 1 and b = 2 this supported function leaves y = 7, but y = 3 once
   * optimized: the deferred assignments run between the sum and its repetition.
   */
  lemma LateSumMiscompiled(env: Env, st: Store)
    requires env == Native(env) && Read(st, A) == 1 && Read(st, B) == 2
    ensures SupportedFunc(LateSum()) && NumberedAll(LateSum()) && !Guarded(FuncCode(LateSum()))
    ensures && MachineEnds(FuncProgram(LateSum(), env), st, Empty, Returned(Set(Set(st, A, 5), Y, 7), 3), 5)
            && MachineEnds(OptimizedProgram(LateSum(), env), st, Empty, Returned(Set(Set(st, A, 5), Y, 3), 3), 5)
  {
    hide FuncCode, SupportedFunc, NumberedAll;
    LateSumLowered();
    LateSumOptimized();
    assert Compute(Add, 1, 2) == Some(3) && Compute(Add, 5, 2) == Some(7);
    LateSumRuns(FuncProgram(LateSum(), env), 7, st);
    LateSumRuns(OptimizedProgram(LateSum(), env), 3, st);
  }

  predicate IsLateSum(p: Program, y: int) {
    && p.env.arith(Add, 1, 2) == Some(3) && p.env.arith(Add, 5, 2) == Some(7)
    && ((p.code == LateSumCode() && y == 7) || (p.code == LateSumCode()[2 := Duplicate(SumInstr())] && y == 3))
  }

  lemma LateSumStarts(p: Program, y: int, st: Store)
    requires IsLateSum(p, y) && Read(st, A) == 1 && Read(st, B) == 2
    ensures Run(p, Running(0, st, Empty), 2) == Running(2, Set(st, A, 5), Push(3, Empty))
  {
    hide StepCall, StepAccess, StepWrite, StepCondJump, StepNoop, StepReturn, StepNeg;
    var s1 := Running(1, st, Push(3, Empty));
    assert Step(p, Running(0, st, Empty)) == s1;
    assert Run(p, s1, 1) == Running(2, Set(st, A, 5), Push(3, Empty));
  }

  lemma LateSumRepeats(p: Program, y: int, st: Store)
    requires IsLateSum(p, y) && Read(st, A) == 5 && Read(st, B) == 2
    ensures Run(p, Running(2, st, Push(3, Empty)), 1) == Running(3, st, Push(y, Push(3, Empty)))
  {
    assert Step(p, Running(2, st, Push(3, Empty))) == Running(3, st, Push(y, Push(3, Empty)));
  }

  lemma LateSumEnds(p: Program, y: int, st: Store)
    requires IsLateSum(p, y)
    ensures Run(p, Running(3, st, Push(y, Push(3, Empty))), 2) == Returned(Set(st, Y, y), 3)
  {
    hide StepCall, StepAccess, StepWrite, StepCondJump, StepNoop, StepArith, StepNeg;
    var s4 := Running(4, Set(st, Y, y), Push(3, Empty));
    assert Step(p, Running(3, st, Push(y, Push(3, Empty)))) == s4;
    assert Run(p, s4, 1) == Returned(Set(st, Y, y), 3);
  }

  lemma LateSumRuns(p: Program, y: int, st: Store)
    requires IsLateSum(p, y) && Read(st, A) == 1 && Read(st, B) == 2
    ensures Run(p, Running(0, st, Empty), 5) == Returned(Set(Set(st, A, 5), Y, y), 3)
  {
    hide Run, Step;
    LateSumStarts(p, y, st);
    LateSumRepeats(p, y, Set(st, A, 5));
    LateSumEnds(p, y, Set(st, A, 5));
    RunAdd(p, Running(2, Set(st, A, 5), Push(3, Empty)), 1, 2);
    RunAdd(p, Running(0, st, Empty), 2, 3);
  }
}
