// The lowered code does what the source statement does: from every label and store the
// machine ends where the big-step outcome says, or keeps running as long as the source does.

module StmtCorrect {
  import opened Ir
  import opened Machine
  import opened Ast
  import opened LowerExpr
  import opened LowerCond
  import opened CondExact
  import opened LowerStmt
  import opened Escape

  function LabelState(p: Program, l: Option<Label>, st: Store, stk: Stack): State {
    if l.Some? then Goto(p, LabelOp(l.value), st, stk) else Stuck
  }

  // Where the machine ends up for an outcome of a statement whose code ends at index end.
  function OutcomeState(p: Program, end: int, ctx: Ctx, stk: Stack, o: Outcome): State {
    match o
    case Normal(st) => Running(end, st, stk)
    case Broke(st) => LabelState(p, ctx.brk, st, stk)
    case Continued(st) => LabelState(p, ctx.cont, st, stk)
    case Result(st, v) =>
      ReturnState(p, ctx.pending, st, v)
    case Trap(st) => Trapped(st)
    case Timeout(_) => Stuck
  }

  // A source run that needs more fuel: after that many steps or more the machine is still
  // running, and it has come to the store the source has come to.
  ghost predicate Simulates(p: Program, s: State, end: int, ctx: Ctx, stk: Stack, o: Outcome, fuel: nat) {
    if o.Timeout? then Live(p, s, fuel, o.store) else Reaches(p, s, OutcomeState(p, end, ctx, stk, o))
  }

  ghost predicate Ready(p: Program, ctx: Ctx, jumps: bool) {
    UniqueLabels(p.code) && PureAssigns(ctx.pending) && (jumps ==> ctx.brk.Some? && ctx.cont.Some?)
  }

  lemma SimulatesFrom(p: Program, s: State, t: State, end: int, ctx: Ctx, stk: Stack, o: Outcome, fuel: nat)
    requires Reaches(p, s, t) && Simulates(p, t, end, ctx, stk, o, fuel)
    ensures Simulates(p, s, end, ctx, stk, o, fuel)
  {
    hide Reaches, Live, OutcomeState;
    if o.Timeout? {
      LiveAfter(p, s, t, fuel, o.store);
    } else {
      ReachesTrans(p, s, t, OutcomeState(p, end, ctx, stk, o));
    }
  }

  // ----- Straight-line pieces -----

  lemma ExprReaches(p: Program, k: int, e: Expr, st: Store, stk: Stack)
    requires Pure(e) && At(p.code, k, ExprCode(e))
    ensures Eval(e, st, p.env).None? ==> Reaches(p, Running(k, st, stk), Trapped(Ran(e, st, p.env)))
    ensures Eval(e, st, p.env).Some? ==>
              var made, after := Ran(e, st, p.env), AfterExpr(e, st, p.env, stk);
              && Reaches(p, Running(k, st, stk), Running(k + |ExprCode(e)|, made, after))
              && Fetch(ExprOperand(e), made, after) == Got(Eval(e, st, p.env).value, stk)
  {
    hide Reaches, At, Eval, Ran, ExprCode, ExprOperand, AfterExpr, Pure, Fetch;
    ExprCorrect(p, k, e, st, stk);
  }

  // An expression followed by one instruction that uses its operand.
  lemma StoreReaches(p: Program, k: int, ty: TypeId, d: Name, e: Expr, st: Store, stk: Stack)
    requires Pure(e) && At(p.code, k, ExprCode(e))
    requires 0 <= k + |ExprCode(e)| < |p.code| && p.code[k + |ExprCode(e)|] == StoreInstr(ty, d, e)
    ensures Eval(e, st, p.env).None? ==> Reaches(p, Running(k, st, stk), Trapped(Ran(e, st, p.env)))
    ensures Eval(e, st, p.env).Some? ==>
              var after := Set(Ran(e, st, p.env), d, Eval(e, st, p.env).value);
              Reaches(p, Running(k, st, stk), Running(k + |ExprCode(e)| + 1, after, stk))
  {
    hide Reaches, At, Eval, Ran, Set, ExprCode, ExprOperand, AfterExpr, Pure, Fetch, Plain;
    ExprReaches(p, k, e, st, stk);
    var v := Eval(e, st, p.env);
    if v.Some? {
      var pc, made, stk1 := k + |ExprCode(e)|, Ran(e, st, p.env), AfterExpr(e, st, p.env, stk);
      LoadReaches(p, pc, made, stk1, StoreInstr(ty, d, e), d, ExprOperand(e), v.value, stk);
      ReachesTrans(p, Running(k, st, stk), Running(pc, made, stk1), Running(pc + 1, Set(made, d, v.value), stk));
    }
  }

  // The machine at the end of code that ends normally or traps.
  function EndState(end: int, o: Outcome, stk: Stack): State {
    if o.Normal? then Running(end, o.store, stk) else Trapped(o.store)
  }

  lemma LaterReaches(p: Program, k: int, ty: TypeId, w: Later, st: Store, stk: Stack)
    requires PureLater(w) && At(p.code, k, LaterCode(ty, w))
    ensures Reaches(p, Running(k, st, stk), EndState(k + |LaterCode(ty, w)|, RunLater(w, st, p.env), stk))
  {
    hide Reaches, At, Eval, Ran, EvalAll, RanAll, ExprCode, ExprOperand, Pure, Plain, ArgsCode, ArgOperands, PureAll, PushedAll, FetchAll;
    match w
    case AssignLater(d, e) =>
      AtSplit(p.code, k, ExprCode(e), [StoreInstr(ty, d, e)]);
      AtHead(p.code, k + |ExprCode(e)|, [StoreInstr(ty, d, e)]);
      StoreReaches(p, k, ty, d, e, st, stk);
    case CallLater(f, args) =>
      var vs, last := EvalAll(args, st, p.env), [VoidCall(f, args)];
      AtSplit(p.code, k, ArgsCode(args), last);
      AtHead(p.code, k + |ArgsCode(args)|, last);
      ArgsCorrect(p, k, args, st, stk);
      if vs.Some? {
        var t := Running(k + |ArgsCode(args)|, RanAll(args, st, p.env), PushedAll(args, vs.value, stk));
        CallStep(p, t, last[0], f, ArgOperands(args), vs.value, stk);
        ReachesTrans(p, Running(k, st, stk), t, Running(t.pc + 1, AddCall(t.store, f, vs.value), stk));
      }
  }

  function AssignsState(p: Program, end: int, xs: Assigns, st: Store, stk: Stack): State {
    EndState(end, RunAssigns(xs, st, p.env), stk)
  }

  lemma {:induction false} AssignsReach(p: Program, k: int, xs: Assigns, st: Store, stk: Stack)
    requires PureAssigns(xs) && At(p.code, k, AssignsCode(xs))
    ensures Reaches(p, Running(k, st, stk), AssignsState(p, k + |AssignsCode(xs)|, xs, st, stk))
    decreases xs
  {
    hide Reaches, At, RunLater, LaterCode, PureLater;
    match xs
    case NoAssigns => ReachesSelf(p, Running(k, st, stk));
    case MoreAssigns(ty, w, rest) =>
      var lc := LaterCode(ty, w);
      AtSplit(p.code, k, lc, AssignsCode(rest));
      LaterReaches(p, k, ty, w, st, stk);
      var o := RunLater(w, st, p.env);
      if o.Normal? {
        AssignsReach(p, k + |lc|, rest, o.store, stk);
        ReachesTrans(p, Running(k, st, stk), Running(k + |lc|, o.store, stk),
          AssignsState(p, k + |AssignsCode(xs)|, rest, o.store, stk));
      }
  }

  lemma OneConsumption(o: Operand)
    ensures OperandsConsumption([o]) == OperandConsumption(o)
  {
    assert [o][1..] == [];
  }

  lemma NoopReaches(p: Program, k: int, e: Expr, st: Store, stk: Stack)
    requires 0 <= k < |p.code| && p.code[k] == Instr(Noop, VoidType, [ExprOperand(e)])
    requires Pure(e) && Eval(e, st, p.env).Some?
    ensures var made := Ran(e, st, p.env);
            Reaches(p, Running(k, made, AfterExpr(e, st, p.env, stk)), Running(k + 1, made, stk))
  {
    var i := Instr(Noop, VoidType, [ExprOperand(e)]);
    PopOrPlain(e);
    OneConsumption(ExprOperand(e));
    var s := Running(k, Ran(e, st, p.env), AfterExpr(e, st, p.env, stk));
    if IsPop(ExprOperand(e)) {
      assert s.stack == Push(ValueOr0(Eval(e, st, p.env)), stk);
      assert Drop(0, stk) == Got((), stk);
    }
    ReachesStep(p, s);
  }

  // The operand of a value expression is a literal, a plain place or one stack value.
  lemma {:induction false} PopOrPlain(e: Expr)
    requires Pure(e)
    ensures OperandConsumption(ExprOperand(e)) == if IsPop(ExprOperand(e)) then 1 else 0
    ensures ExprOperand(e).RefOp? && !IsPop(ExprOperand(e)) ==> e.Ident?
    ensures ExprOperand(e).RefOp? || ExprOperand(e).IntOp?
  {
    if ExprOperand(e).RefOp? {
      RefTakes(ExprOperand(e));
    }
  }

  // ----- Conditions -----

  // Behind the condition comes the label of its true exit.
  lemma BranchReaches(p: Program, k: int, c: Cond, t: Label, f: Label, st: Store, stk: Stack)
    requires UniqueLabels(p.code) && PureCond(c) && Accepted(c)
    requires At(p.code, k, CondCode(c, t, f) + [LabelInstr(t)])
    ensures var v, made, end := EvalCond(c, st, p.env), RanCond(c, st, p.env), k + |CondCode(c, t, f)|;
            && (v == None ==> Reaches(p, Running(k, st, stk), Trapped(made)))
            && (v == Some(true) ==> Reaches(p, Running(k, st, stk), Running(end, made, stk)))
            && (v == Some(false) ==> Reaches(p, Running(k, st, stk), Goto(p, LabelOp(f), made, stk)))
  {
    hide Reaches, At, EvalCond, RanCond, CondRoute, CondCode, Accepted, UniqueLabels, PureCond;
    AtSplit(p.code, k, CondCode(c, t, f), [LabelInstr(t)]);
    AtHead(p.code, k + |CondCode(c, t, f)|, [LabelInstr(t)]);
    LabelFound(p.code, k + |CondCode(c, t, f)|, t);
    AcceptedRight(c, st, p.env, stk);
    CondFollows(p, k, c, t, f, st, stk);
  }

  // ----- Statements -----

  /** The machine follows the source statement to each of its outcomes. */
  lemma {:induction false} StmtFollows(p: Program, k: int, s: Stmt, ctx: Ctx, jumps: bool, st: Store, stk: Stack, fuel: nat)
    requires Ready(p, ctx, jumps) && Supported(s, jumps, ctx.pending)
    requires At(p.code, k, StmtCode(s, ctx))
    ensures Simulates(p, Running(k, st, stk), k + |StmtCode(s, ctx)|, ctx, stk, Exec(s, st, p.env, fuel), fuel)
    decreases fuel, s, 3
  {
    hide Reaches, Live, At, Eval, Ready, ExprCode, StmtCode, Exec, OutcomeState, Supported;
    match s
    case Assign(_, _) => AssignFollows(p, k, s, ctx, jumps, st, stk, fuel);
    case ExprStmt(_) => ExprStmtFollows(p, k, s, ctx, jumps, st, stk, fuel);
    case CallStmt(_, _) => CallStmtFollows(p, k, s, ctx, jumps, st, stk, fuel);
    case If(_, _, _, _) => IfFollows(p, k, s, ctx, jumps, st, stk, fuel);
    case While(_, _, _) => WhileFollows(p, k, s, ctx, jumps, st, stk, fuel);
    case For(_, _, _) => ForFollows(p, k, s, ctx, jumps, st, stk, fuel);
    case Block(_) => BlockStmtFollows(p, k, s, ctx, jumps, st, stk, fuel);
    case DeferStmt(_) => DeferFollows(p, k, s, ctx, st, stk, fuel);
    case Break => JumpFollows(p, k, s, ctx, jumps, st, stk, fuel);
    case Continue => JumpFollows(p, k, s, ctx, jumps, st, stk, fuel);
    case ReturnStmt(_, _) => ReturnFollows(p, k, s, ctx, jumps, st, stk, fuel);
  }

  lemma AssignFollows(p: Program, k: int, s: Stmt, ctx: Ctx, jumps: bool, st: Store, stk: Stack, fuel: nat)
    requires s.Assign? && Supported(s, jumps, ctx.pending) && At(p.code, k, StmtCode(s, ctx))
    ensures Simulates(p, Running(k, st, stk), k + |StmtCode(s, ctx)|, ctx, stk, Exec(s, st, p.env, fuel), fuel)
  {
    hide Reaches, At, RunLater, LaterCode, Pure;
    LaterReaches(p, k, NoType, AssignLater(s.dest, s.value), st, stk);
  }

  lemma ExprStmtFollows(p: Program, k: int, s: Stmt, ctx: Ctx, jumps: bool, st: Store, stk: Stack, fuel: nat)
    requires s.ExprStmt? && Supported(s, jumps, ctx.pending) && At(p.code, k, StmtCode(s, ctx))
    ensures Simulates(p, Running(k, st, stk), k + |StmtCode(s, ctx)|, ctx, stk, Exec(s, st, p.env, fuel), fuel)
  {
    hide Reaches, Live, At, Eval, Ran, ExprCode, Pure, AfterExpr;
    var e, nc := s.expr, [Instr(Noop, VoidType, [ExprOperand(s.expr)])];
    AtSplit(p.code, k, ExprCode(e), nc);
    AtHead(p.code, k + |ExprCode(e)|, nc);
    ExprReaches(p, k, e, st, stk);
    if Eval(e, st, p.env).Some? {
      NoopReaches(p, k + |ExprCode(e)|, e, st, stk);
      var made := Ran(e, st, p.env);
      ReachesTrans(p, Running(k, st, stk), Running(k + |ExprCode(e)|, made, AfterExpr(e, st, p.env, stk)),
        Running(k + |ExprCode(e)| + 1, made, stk));
    }
  }

  lemma CallStmtFollows(p: Program, k: int, s: Stmt, ctx: Ctx, jumps: bool, st: Store, stk: Stack, fuel: nat)
    requires s.CallStmt? && Supported(s, jumps, ctx.pending) && At(p.code, k, StmtCode(s, ctx))
    ensures Simulates(p, Running(k, st, stk), k + |StmtCode(s, ctx)|, ctx, stk, Exec(s, st, p.env, fuel), fuel)
  {
    hide Reaches, At, RunLater, LaterCode, PureAll;
    LaterReaches(p, k, NoType, CallLater(s.callee, s.args), st, stk);
  }

  lemma DeferFollows(p: Program, k: int, s: Stmt, ctx: Ctx, st: Store, stk: Stack, fuel: nat)
    requires s.DeferStmt?
    ensures Simulates(p, Running(k, st, stk), k + |StmtCode(s, ctx)|, ctx, stk, Exec(s, st, p.env, fuel), fuel)
  {
    ReachesSelf(p, Running(k, st, stk));
  }

  lemma JumpFollows(p: Program, k: int, s: Stmt, ctx: Ctx, jumps: bool, st: Store, stk: Stack, fuel: nat)
    requires (s.Break? || s.Continue?) && Supported(s, jumps, ctx.pending) && Ready(p, ctx, jumps)
    requires At(p.code, k, StmtCode(s, ctx))
    ensures Simulates(p, Running(k, st, stk), k + |StmtCode(s, ctx)|, ctx, stk, Exec(s, st, p.env, fuel), fuel)
  {
    hide Reaches, Live, At, Goto;
    var l := if s.Break? then ctx.brk.value else ctx.cont.value;
    AtHead(p.code, k, [JumpInstr(l)]);
    JumpReaches(p, k, st, stk, l);
  }

  lemma ReturnFollows(p: Program, k: int, s: Stmt, ctx: Ctx, jumps: bool, st: Store, stk: Stack, fuel: nat)
    requires s.ReturnStmt? && Supported(s, jumps, ctx.pending) && Ready(p, ctx, jumps)
    requires At(p.code, k, StmtCode(s, ctx))
    ensures Simulates(p, Running(k, st, stk), k + |StmtCode(s, ctx)|, ctx, stk, Exec(s, st, p.env, fuel), fuel)
  {
    hide Reaches, Live, At, Eval, Ran, ExprCode, Pure, PureAssigns, RunAssigns, Assigned, UniqueLabels, AssignsCode;
    if s.result.None? {
      var last := Instr(Return, s.ty, [IntOp(0, NoType)]);
      LeaveReaches(p, k, last, ctx.pending, st, stk);
      FetchLiteral(0, NoType, st, stk);
      ReturnValue(p, k, last, ctx.pending, st, stk, 0, stk);
    } else {
      ReturnExpr(p, k, s.result.value, Instr(Return, s.ty, [ExprOperand(s.result.value)]), ctx.pending, st, stk);
    }
  }

  function ReturnState(p: Program, xs: Assigns, st: Store, v: int): State {
    match RunAssigns(xs, st, p.env) case Normal(st') => Returned(st', v) case o => Trapped(o.store)
  }

  lemma ReturnExpr(p: Program, k: int, e: Expr, last: Instr, xs: Assigns, st: Store, stk: Stack)
    requires Pure(e) && (e.Ident? ==> !Assigned(e.ref, xs)) && PureAssigns(xs)
    requires last.op.Return? && last.operands == [ExprOperand(e)]
    requires At(p.code, k, ExprCode(e) + (AssignsCode(xs) + [last]))
    ensures Eval(e, st, p.env).None? ==> Reaches(p, Running(k, st, stk), Trapped(Ran(e, st, p.env)))
    ensures Eval(e, st, p.env).Some? ==>
              Reaches(p, Running(k, st, stk), ReturnState(p, xs, Ran(e, st, p.env), Answer(last.resultType, Eval(e, st, p.env).value)))
  {
    hide Reaches, At, Eval, Ran, ExprCode, Pure, PureAssigns, RunAssigns, AssignsCode, AfterExpr, Fetch, ReturnState, ExprOperand;
    AtSplit(p.code, k, ExprCode(e), AssignsCode(xs) + [last]);
    ExprReaches(p, k, e, st, stk);
    var v := Eval(e, st, p.env);
    if v.Some? {
      var pc, made, stk1 := k + |ExprCode(e)|, Ran(e, st, p.env), AfterExpr(e, st, p.env, stk);
      LeaveReaches(p, pc, last, xs, made, stk1);
      LateOperand(p, e, xs, st, stk);
      ReturnValue(p, pc, last, xs, made, stk1, v.value, stk);
      ReachesTrans(p, Running(k, st, stk), Running(pc, made, stk1), ReturnState(p, xs, made, Answer(last.resultType, v.value)));
    }
  }

  lemma FetchLiteral(v: int, ty: TypeId, st: Store, stk: Stack)
    ensures forall st: Store :: Fetch(IntOp(v, ty), st, stk) == Got(v, stk)
  {
  }

  // Replaying the deferred statements in front of the return instruction.
  lemma LeaveReaches(p: Program, k: int, last: Instr, xs: Assigns, st: Store, stk: Stack)
    requires PureAssigns(xs) && At(p.code, k, AssignsCode(xs) + [last])
    ensures Reaches(p, Running(k, st, stk), AssignsState(p, k + |AssignsCode(xs)|, xs, st, stk))
    ensures 0 <= k + |AssignsCode(xs)| < |p.code| && p.code[k + |AssignsCode(xs)|] == last
  {
    AtSplit(p.code, k, AssignsCode(xs), [last]);
    AtHead(p.code, k + |AssignsCode(xs)|, [last]);
    AssignsReach(p, k, xs, st, stk);
  }

  lemma ReturnValue(p: Program, k: int, last: Instr, xs: Assigns, st: Store, stk: Stack, v: int, rest: Stack)
    requires Reaches(p, Running(k, st, stk), AssignsState(p, k + |AssignsCode(xs)|, xs, st, stk))
    requires 0 <= k + |AssignsCode(xs)| < |p.code| && p.code[k + |AssignsCode(xs)|] == last
    requires last.op.Return? && |last.operands| == 1
    requires RunAssigns(xs, st, p.env).Normal? ==>
               Fetch(last.operands[0], RunAssigns(xs, st, p.env).store, stk) == Got(v, rest)
    ensures Reaches(p, Running(k, st, stk), ReturnState(p, xs, st, Answer(last.resultType, v)))
  {
    hide Reaches, RunAssigns, Fetch, AssignsCode;
    var pc := k + |AssignsCode(xs)|;
    if RunAssigns(xs, st, p.env).Normal? {
      var st' := RunAssigns(xs, st, p.env).store;
      ReturnReaches(p, pc, st', stk, last, v, rest);
      ReachesTrans(p, Running(k, st, stk), Running(pc, st', stk), Returned(st', Answer(last.resultType, v)));
    }
  }

  lemma LaterVars(w: Later, st: Store, env: Env)
    ensures var st' := RunLater(w, st, env).store;
            st'.vars == st.vars || (w.AssignLater? && st'.vars == st.vars[w.dest := Read(st', w.dest)])
  {
    match w
    case AssignLater(_, e) => RanVars(e, st, env);
    case CallLater(_, args) => RanAllVars(args, st, env);
  }

  lemma LaterKeeps(w: Later, r: Ref, st: Store, env: Env)
    requires w.AssignLater? ==> w.dest != r
    ensures Read(RunLater(w, st, env).store, r) == Read(st, r)
  {
    hide RunLater;
    LaterVars(w, st, env);
  }

  lemma {:induction false} AssignsKeep(xs: Assigns, r: Ref, st: Store, env: Env)
    requires !Assigned(r, xs)
    ensures Read(RunAssigns(xs, st, env).store, r) == Read(st, r)
    decreases xs
  {
    if xs.MoreAssigns? {
      LaterKeeps(xs.what, r, st, env);
      var o := RunLater(xs.what, st, env);
      if o.Normal? {
        AssignsKeep(xs.rest, r, o.store, env);
      }
    }
  }

  // A returned operand that the deferred statements do not write still has its value
  // after they have run.
  lemma LateOperand(p: Program, e: Expr, xs: Assigns, st: Store, stk: Stack)
    requires Pure(e) && (e.Ident? ==> !Assigned(e.ref, xs))
    requires Eval(e, st, p.env).Some?
    ensures Fetch(ExprOperand(e), RunAssigns(xs, Ran(e, st, p.env), p.env).store, AfterExpr(e, st, p.env, stk))
         == Got(Eval(e, st, p.env).value, stk)
  {
    PopOrPlain(e);
    if e.Ident? {
      AssignsKeep(xs, e.ref, st, p.env);
    } else if !e.IntLit? {
      assert IsPop(ExprOperand(e));
    }
  }

  // ----- Putting runs together -----

  // A normal end is carried on to the end of the enclosing code.
  lemma SimulatesNormal(p: Program, s: State, mid: int, end: int, ctx: Ctx, stk: Stack, o: Outcome, fuel: nat)
    requires Simulates(p, s, mid, ctx, stk, o, fuel)
    requires o.Normal? ==> Reaches(p, Running(mid, o.store, stk), Running(end, o.store, stk))
    ensures Simulates(p, s, end, ctx, stk, o, fuel)
  {
    hide Reaches, Live, RunAssigns, LabelState;
    if o.Normal? {
      ReachesTrans(p, s, Running(mid, o.store, stk), Running(end, o.store, stk));
    }
  }

  // The first step of a loop iteration pays for one unit of fuel.
  lemma SimulatesLater(p: Program, s: State, t: State, end: int, ctx: Ctx, stk: Stack, o: Outcome, fuel: nat)
    requires fuel > 0 && CanStep(p, s) && Reaches(p, Step(p, s), t)
    requires Simulates(p, t, end, ctx, stk, o, fuel - 1)
    ensures Simulates(p, s, end, ctx, stk, o, fuel)
  {
    if o.Timeout? {
      LiveAfter(p, Step(p, s), t, fuel - 1, o.store);
      LiveStep(p, s, fuel - 1, o.store);
    } else {
      StepThen(p, s, t);
      SimulatesFrom(p, s, t, end, ctx, stk, o, fuel);
    }
  }

  // ----- If -----

  function ElseCode(s: Stmt, ctx: Ctx): seq<Instr>
    requires s.If?
  {
    if s.els.Some?
    then [JumpInstr(IfEnd(s.id)), LabelInstr(IfElse(s.id))]
         + (StmtCode(s.els.value, ctx) + [LabelInstr(IfEnd(s.id))])
    else [LabelInstr(IfElse(s.id))]
  }

  lemma {:induction false} IfFollows(p: Program, k: int, s: Stmt, ctx: Ctx, jumps: bool, st: Store, stk: Stack, fuel: nat)
    requires s.If? && Ready(p, ctx, jumps) && Supported(s, jumps, ctx.pending)
    requires At(p.code, k, StmtCode(s, ctx))
    ensures Simulates(p, Running(k, st, stk), k + |StmtCode(s, ctx)|, ctx, stk, Exec(s, st, p.env, fuel), fuel)
    decreases fuel, s, 2
  {
    hide Reaches, Live, At, EvalCond, RanCond, Accepted, PureCond, CondCode, StmtCode, Ready, Simulates, ElseCode, Goto;
    var cc, lb, tc, ec := CondCode(s.cond, IfBody(s.id), IfElse(s.id)), [LabelInstr(IfBody(s.id))],
      StmtCode(s.thn, ctx), ElseCode(s, ctx);
    assert StmtCode(s, ctx) == cc + (lb + (tc + ec)) by { ElseShape(s, ctx); }
    AtSplit3(p.code, k, cc, lb, tc + ec);
    AtSplit(p.code, k + |cc| + 1, tc, ec);
    ReadyUnique(p, ctx, jumps);
    BranchReaches(p, k, s.cond, IfBody(s.id), IfElse(s.id), st, stk);
    var v, made, end := EvalCond(s.cond, st, p.env), RanCond(s.cond, st, p.env), k + |StmtCode(s, ctx)|;
    if v == None {
      SimulatesTrap(p, Running(k, st, stk), made, end, ctx, stk, fuel);
    } else if v.value {
      AtHead(p.code, k + |cc|, lb);
      LabelReaches(p, k + |cc|, made, stk, IfBody(s.id));
      ReachesTrans(p, Running(k, st, stk), Running(k + |cc|, made, stk), Running(k + |cc| + 1, made, stk));
      ThenFollows(p, k + |cc| + 1, s, ctx, jumps, made, stk, fuel);
      SimulatesFrom(p, Running(k, st, stk), Running(k + |cc| + 1, made, stk), end, ctx, stk, Exec(s.thn, made, p.env, fuel), fuel);
    } else {
      ElseFollows(p, k + |cc| + 1 + |tc|, s, ctx, jumps, made, stk, fuel);
      SimulatesFrom(p, Running(k, st, stk), Goto(p, LabelOp(IfElse(s.id)), made, stk), end, ctx, stk,
        Exec(s, st, p.env, fuel), fuel);
    }
  }

  lemma ElseShape(s: Stmt, ctx: Ctx)
    requires s.If?
    ensures StmtCode(s, ctx)
         == CondCode(s.cond, IfBody(s.id), IfElse(s.id))
            + ([LabelInstr(IfBody(s.id))] + (StmtCode(s.thn, ctx) + ElseCode(s, ctx)))
  {
  }

  lemma ReadyUnique(p: Program, ctx: Ctx, jumps: bool)
    requires Ready(p, ctx, jumps)
    ensures UniqueLabels(p.code)
  {
  }

  lemma SimulatesTrap(p: Program, s: State, st: Store, end: int, ctx: Ctx, stk: Stack, fuel: nat)
    requires Reaches(p, s, Trapped(st))
    ensures Simulates(p, s, end, ctx, stk, Trap(st), fuel)
  {
  }

  // The then branch, from behind its label, and over the else branch.
  lemma {:induction false} ThenFollows(p: Program, k: int, s: Stmt, ctx: Ctx, jumps: bool, st: Store, stk: Stack, fuel: nat)
    requires s.If? && Ready(p, ctx, jumps) && Supported(s, jumps, ctx.pending)
    requires At(p.code, k, StmtCode(s.thn, ctx)) && At(p.code, k + |StmtCode(s.thn, ctx)|, ElseCode(s, ctx))
    ensures Simulates(p, Running(k, st, stk), k + |StmtCode(s.thn, ctx)| + |ElseCode(s, ctx)|, ctx, stk,
                      Exec(s.thn, st, p.env, fuel), fuel)
    decreases fuel, s, 1
  {
    hide Reaches, Live, At, Exec, Ready, Simulates, Goto;
    StmtFollows(p, k, s.thn, ctx, jumps, st, stk, fuel);
    var o, mid := Exec(s.thn, st, p.env, fuel), k + |StmtCode(s.thn, ctx)|;
    var end := mid + |ElseCode(s, ctx)|;
    if o.Normal? {
      SkipsElse(p, mid, s, ctx, jumps, o.store, stk);
    }
    SimulatesNormal(p, Running(k, st, stk), mid, end, ctx, stk, o, fuel);
  }

  // Where the else branch lies, and its labels.
  lemma ElseLayout(p: Program, k: int, s: Stmt, ctx: Ctx)
    requires s.If? && At(p.code, k, ElseCode(s, ctx))
    ensures if s.els.None? then |ElseCode(s, ctx)| == 1 && 0 <= k < |p.code| && p.code[k] == LabelInstr(IfElse(s.id))
            else
              var ec := StmtCode(s.els.value, ctx);
              && |ElseCode(s, ctx)| == |ec| + 3 && 0 <= k && k + 2 + |ec| < |p.code|
              && p.code[k] == JumpInstr(IfEnd(s.id)) && p.code[k + 1] == LabelInstr(IfElse(s.id)) && At(p.code, k + 2, ec)
              && p.code[k + 2 + |ec|] == LabelInstr(IfEnd(s.id))
  {
    hide At, StmtCode;
    if s.els.Some? {
      var head, ec := [JumpInstr(IfEnd(s.id)), LabelInstr(IfElse(s.id))], StmtCode(s.els.value, ctx);
      AtSplit3(p.code, k, head, ec, [LabelInstr(IfEnd(s.id))]);
      AtPair(p.code, k, head[0], head[1]);
      AtHead(p.code, k + 2 + |ec|, [LabelInstr(IfEnd(s.id))]);
    } else {
      AtHead(p.code, k, [LabelInstr(IfElse(s.id))]);
    }
  }

  lemma SkipsElse(p: Program, k: int, s: Stmt, ctx: Ctx, jumps: bool, st: Store, stk: Stack)
    requires s.If? && Ready(p, ctx, jumps) && At(p.code, k, ElseCode(s, ctx))
    ensures Reaches(p, Running(k, st, stk), Running(k + |ElseCode(s, ctx)|, st, stk))
  {
    hide Reaches, At, StmtCode, ElseCode, Goto, UniqueLabels;
    ElseLayout(p, k, s, ctx);
    if s.els.Some? {
      var end := k + 2 + |StmtCode(s.els.value, ctx)|;
      JumpReaches(p, k, st, stk, IfEnd(s.id));
      GotoReaches(p, end, st, stk, IfEnd(s.id));
      ReachesTrans(p, Running(k, st, stk), Goto(p, LabelOp(IfEnd(s.id)), st, stk), Running(end + 1, st, stk));
    } else {
      LabelReaches(p, k, st, stk, IfElse(s.id));
    }
  }

  // The false exit of the condition, through the else branch.
  lemma {:induction false} ElseFollows(p: Program, k: int, s: Stmt, ctx: Ctx, jumps: bool, st: Store, stk: Stack, fuel: nat)
    requires s.If? && Ready(p, ctx, jumps) && Supported(s, jumps, ctx.pending)
    requires At(p.code, k, ElseCode(s, ctx))
    ensures Simulates(p, Goto(p, LabelOp(IfElse(s.id)), st, stk), k + |ElseCode(s, ctx)|, ctx, stk,
                      if s.els.Some? then Exec(s.els.value, st, p.env, fuel) else Normal(st), fuel)
    decreases fuel, s, 1
  {
    hide Reaches, Live, At, StmtCode, ElseCode, Exec, Ready, Goto, UniqueLabels;
    ReadyUnique(p, ctx, jumps);
    ElseLayout(p, k, s, ctx);
    if s.els.Some? {
      var ec := StmtCode(s.els.value, ctx);
      GotoReaches(p, k + 1, st, stk, IfElse(s.id));
      StmtFollows(p, k + 2, s.els.value, ctx, jumps, st, stk, fuel);
      var o := Exec(s.els.value, st, p.env, fuel);
      if o.Normal? {
        LabelReaches(p, k + 2 + |ec|, o.store, stk, IfEnd(s.id));
      }
      SimulatesNormal(p, Running(k + 2, st, stk), k + 2 + |ec|, k + 3 + |ec|, ctx, stk, o, fuel);
      SimulatesFrom(p, Goto(p, LabelOp(IfElse(s.id)), st, stk), Running(k + 2, st, stk), k + 3 + |ec|, ctx, stk, o, fuel);
    } else {
      GotoReaches(p, k, st, stk, IfElse(s.id));
    }
  }

  // ----- While -----

  lemma {:induction false} WhileFollows(p: Program, k: int, s: Stmt, ctx: Ctx, jumps: bool, st: Store, stk: Stack, fuel: nat)
    requires s.While? && Ready(p, ctx, jumps) && Supported(s, jumps, ctx.pending)
    requires At(p.code, k, StmtCode(s, ctx))
    ensures Simulates(p, Running(k, st, stk), k + |StmtCode(s, ctx)|, ctx, stk, Exec(s, st, p.env, fuel), fuel)
    decreases fuel, s, 2
  {
    hide Reaches, Run, Step, At, Ready, OutcomeState, StmtCode, Supported, Exec;
    WhileLayout(p, k, s, ctx, jumps);
    LabelStep(p, k, st, stk, WhileCond(s.id));
    if fuel == 0 {
      LiveNow(p, Running(k, st, stk));
      WhileStarved(s, st, p.env);
    } else {
      WhileTestFollows(p, k, s, ctx, jumps, st, stk, fuel);
      ReachesSelf(p, Running(k + 1, st, stk));
      SimulatesLater(p, Running(k, st, stk), Running(k + 1, st, stk), k + |StmtCode(s, ctx)|, ctx, stk,
        Exec(s, st, p.env, fuel), fuel);
    }
  }

  // One iteration, from behind the label of the condition.
  lemma {:induction false} WhileTestFollows(
      p: Program, k: int, s: Stmt, ctx: Ctx, jumps: bool, st: Store, stk: Stack, fuel: nat)
    requires fuel > 0 && s.While? && Ready(p, ctx, jumps) && Supported(s, jumps, ctx.pending)
    requires At(p.code, k, StmtCode(s, ctx))
    ensures Simulates(p, Running(k + 1, st, stk), k + |StmtCode(s, ctx)|, ctx, stk,
                      Exec(s, st, p.env, fuel), fuel - 1)
    decreases fuel, s, 1, 1
  {
    hide Reaches, Live, At, EvalCond, RanCond, Accepted, PureCond, CondCode, Ready, OutcomeState, Goto, Exec, Simulates, StmtCode;
    WhileLayout(p, k, s, ctx, jumps);
    WhileUnfold(s, st, p.env, fuel);
    var cc, end := CondCode(s.cond, WhileBody(s.id), WhileEnd(s.id)), k + |StmtCode(s, ctx)|;
    BranchReaches(p, k + 1, s.cond, WhileBody(s.id), WhileEnd(s.id), st, stk);
    var v, made, start := EvalCond(s.cond, st, p.env), RanCond(s.cond, st, p.env), Running(k + 1, st, stk);
    if v == None {
      SimulatesTrap(p, start, made, end, ctx, stk, fuel - 1);
    } else if v.value {
      LabelReaches(p, k + 1 + |cc|, made, stk, WhileBody(s.id));
      ReachesTrans(p, start, Running(k + 1 + |cc|, made, stk), Running(k + 2 + |cc|, made, stk));
      WhileBodyFollows(p, k, s, ctx, jumps, made, stk, fuel);
      SimulatesFrom(p, start, Running(k + 2 + |cc|, made, stk), end, ctx, stk, Exec(s, st, p.env, fuel), fuel - 1);
    } else {
      GotoReaches(p, end - 1, made, stk, WhileEnd(s.id));
      ReachesTrans(p, start, Goto(p, LabelOp(WhileEnd(s.id)), made, stk), Running(end, made, stk));
      SimulatesEnd(p, end, ctx, made, stk, fuel - 1);
      SimulatesFrom(p, start, Running(end, made, stk), end, ctx, stk, Normal(made), fuel - 1);
    }
  }

  lemma WhileStarved(s: Stmt, st: Store, env: Env)
    requires s.While?
    ensures Exec(s, st, env, 0) == Timeout(st)
  {
  }

  lemma WhileUnfold(s: Stmt, st: Store, env: Env, fuel: nat)
    requires s.While? && fuel > 0
    ensures Exec(s, st, env, fuel)
         == var made := RanCond(s.cond, st, env);
            match EvalCond(s.cond, st, env)
            case None => Trap(made)
            case Some(false) => Normal(made)
            case Some(true) => AfterWhile(s, Exec(s.body, made, env, fuel - 1), env, fuel - 1)
  {
    assert Exec(s, st, env, fuel) == ExecWhile(s, st, env, fuel);
    var o := Exec(s.body, RanCond(s.cond, st, env), env, fuel - 1);
    if o.Normal? || o.Continued? {
      assert Exec(s, o.store, env, fuel - 1) == ExecWhile(s, o.store, env, fuel - 1);
    }
  }

  lemma SimulatesEnd(p: Program, end: int, ctx: Ctx, st: Store, stk: Stack, fuel: nat)
    ensures Simulates(p, Running(end, st, stk), end, ctx, stk, Normal(st), fuel)
  {
    ReachesSelf(p, Running(end, st, stk));
  }

  // Where the parts of a while are.
  lemma WhileLayout(p: Program, k: int, s: Stmt, ctx: Ctx, jumps: bool)
    requires s.While? && Ready(p, ctx, jumps) && At(p.code, k, StmtCode(s, ctx))
    ensures UniqueLabels(p.code)
    ensures var cc, bc, end := CondCode(s.cond, WhileBody(s.id), WhileEnd(s.id)), StmtCode(s.body, WhileCtx(s.id, ctx)),
              k + |StmtCode(s, ctx)|;
            && end == k + 4 + |cc| + |bc| && 0 <= k && end <= |p.code|
            && p.code[k] == LabelInstr(WhileCond(s.id))
            && At(p.code, k + 1, cc + [LabelInstr(WhileBody(s.id))])
            && p.code[k + 1 + |cc|] == LabelInstr(WhileBody(s.id))
            && At(p.code, k + 2 + |cc|, bc)
            && p.code[end - 2] == JumpInstr(WhileCond(s.id))
            && p.code[end - 1] == LabelInstr(WhileEnd(s.id))
  {
    hide At, CondCode, StmtCode, UniqueLabels, ExprCode, PureAssigns;
    var cc, bc := CondCode(s.cond, WhileBody(s.id), WhileEnd(s.id)), StmtCode(s.body, WhileCtx(s.id, ctx));
    WhileShape(s, ctx);
    var lc, lb, tail := [LabelInstr(WhileCond(s.id))], [LabelInstr(WhileBody(s.id))],
      [JumpInstr(WhileCond(s.id)), LabelInstr(WhileEnd(s.id))];
    AtSplit(p.code, k, lc, cc + (lb + (bc + tail)));
    AtSplit3(p.code, k + 1, cc, lb, bc + tail);
    AtSplit(p.code, k + 2 + |cc|, bc, tail);
    AtHead(p.code, k, lc);
    AtHead(p.code, k + 1 + |cc|, lb);
    AtPair(p.code, k + 2 + |cc| + |bc|, tail[0], tail[1]);
  }

  lemma WhileShape(s: Stmt, ctx: Ctx)
    requires s.While?
    ensures StmtCode(s, ctx)
         == [LabelInstr(WhileCond(s.id))]
            + (CondCode(s.cond, WhileBody(s.id), WhileEnd(s.id))
               + ([LabelInstr(WhileBody(s.id))]
                  + (StmtCode(s.body, WhileCtx(s.id, ctx)) + [JumpInstr(WhileCond(s.id)), LabelInstr(WhileEnd(s.id))])))
  {
  }

  lemma AtPair(code: seq<Instr>, k: int, i: Instr, j: Instr)
    requires At(code, k, [i, j])
    ensures 0 <= k && k + 1 < |code| && code[k] == i && code[k + 1] == j
  {
    assert code[k..k + 2][1] == code[k + 1];
  }

  // What becomes of a loop whose body ended with outcome o.
  function AfterWhile(s: Stmt, o: Outcome, env: Env, fuel: nat): Outcome
    requires s.While?
  {
    match o
    case Normal(st) => Exec(s, st, env, fuel)
    case Continued(st) => Exec(s, st, env, fuel)
    case Broke(st) => Normal(st)
    case _ => o
  }

  lemma {:induction false} WhileBodyFollows(
      p: Program, k: int, s: Stmt, ctx: Ctx, jumps: bool, st: Store, stk: Stack, fuel: nat)
    requires fuel > 0 && s.While? && Ready(p, ctx, jumps) && Supported(s, jumps, ctx.pending)
    requires At(p.code, k, StmtCode(s, ctx))
    ensures Simulates(p, Running(k + 2 + |CondCode(s.cond, WhileBody(s.id), WhileEnd(s.id))|, st, stk),
                      k + |StmtCode(s, ctx)|, ctx, stk,
                      AfterWhile(s, Exec(s.body, st, p.env, fuel - 1), p.env, fuel - 1), fuel - 1)
    decreases fuel, s, 1, 0
  {
    hide Reaches, At, CondCode, Exec, Ready, Goto, StmtCode, RunAssigns;
    WhileLayout(p, k, s, ctx, jumps);
    var end, b := k + |StmtCode(s, ctx)|, k + 2 + |CondCode(s.cond, WhileBody(s.id), WhileEnd(s.id))|;
    LoopReady(p, ctx, WhileCtx(s.id, ctx), jumps);
    StmtFollows(p, b, s.body, WhileCtx(s.id, ctx), true, st, stk, fuel - 1);
    var o := Exec(s.body, st, p.env, fuel - 1);
    if o.Normal? {
      JumpReaches(p, end - 2, o.store, stk, WhileCond(s.id));
      GotoLabel(p, k, o.store, stk, WhileCond(s.id));
      ReachesTrans(p, Running(b, st, stk), Running(end - 2, o.store, stk), Running(k, o.store, stk));
    } else if o.Broke? {
      GotoReaches(p, end - 1, o.store, stk, WhileEnd(s.id));
      ReachesTrans(p, Running(b, st, stk), Goto(p, LabelOp(WhileEnd(s.id)), o.store, stk), Running(end, o.store, stk));
    } else if o.Continued? {
      GotoLabel(p, k, o.store, stk, WhileCond(s.id));
    }
    if o.Normal? || o.Continued? {
      WhileFollows(p, k, s, ctx, jumps, o.store, stk, fuel - 1);
      SimulatesFrom(p, Running(b, st, stk), Running(k, o.store, stk), end, ctx, stk,
        Exec(s, o.store, p.env, fuel - 1), fuel - 1);
    }
  }

  lemma LoopReady(p: Program, ctx: Ctx, inner: Ctx, jumps: bool)
    requires Ready(p, ctx, jumps) && inner.brk.Some? && inner.cont.Some? && inner.pending == ctx.pending
    ensures Ready(p, inner, true)
  {
  }

  // ----- Numeric for -----

  lemma CompareReaches(p: Program, pc: int, op: Op, a: Name, b: Name, l: Label, st: Store, stk: Stack)
    requires 0 <= pc < |p.code| && p.code[pc] == CondJumpInstr(op, RefOp(a), RefOp(b), l)
    requires IsCondJump(op)
    ensures Reaches(p, Running(pc, st, stk),
                    if Holds(op, Read(st, a), Read(st, b)) then Goto(p, LabelOp(l), st, stk) else Running(pc + 1, st, stk))
  {
    hide Reaches, Goto, Holds, Read;
    assert !a.StackPop? && !b.StackPop?;
    CondJumpReaches(p, pc, st, stk, CondJumpInstr(op, RefOp(a), RefOp(b), l), Read(st, a), Read(st, b), stk);
  }

  function WithStep(g: Range, v: int, st: Store): Store {
    if g.step.None? then Set(st, g.stepvar, v) else st
  }

  lemma SetupReaches(p: Program, pc: int, g: Range, v: int, st: Store, stk: Stack)
    requires At(p.code, pc, StepSetup(g, v))
    ensures Reaches(p, Running(pc, st, stk), Running(pc + |StepSetup(g, v)|, WithStep(g, v, st), stk))
  {
    if g.step.None? {
      AtHead(p.code, pc, StepSetup(g, v));
      LoadReaches(p, pc, st, stk, StepSetup(g, v)[0], g.stepvar, IntOp(v, Int32Type), v, stk);
    } else {
      ReachesSelf(p, Running(pc, st, stk));
    }
  }

  // The test of an upward range: on to the body or out of the loop.
  lemma UpwardReaches(p: Program, k: int, body: int, id: nat, g: Range, st: Store, stk: Stack)
    requires UniqueLabels(p.code) && PureRange(g) && At(p.code, k, UpwardTest(id, g))
    requires 0 <= body < |p.code| && p.code[body] == LabelInstr(ForBody(id))
    ensures var st1 := WithStep(g, 1, st);
            Reaches(p, Running(k, st, stk),
                    if Read(st1, g.elem) < Read(st1, Second(g)) then Running(body, st1, stk)
                    else Goto(p, LabelOp(ForEnd(id)), st1, stk))
  {
    hide Reaches, At, Goto, UniqueLabels;
    var sc, test, jump := StepSetup(g, 1), CondJumpInstr(JmpGtEq, ElemOp(g), SecondOp(g), ForEnd(id)), JumpInstr(ForBody(id));
    AtSplit(p.code, k, sc, [test, jump]);
    AtPair(p.code, k + |sc|, test, jump);
    var pc, st1 := k + |sc|, WithStep(g, 1, st);
    SetupReaches(p, k, g, 1, st, stk);
    CompareReaches(p, pc, JmpGtEq, g.elem, Second(g), ForEnd(id), st1, stk);
    if Read(st1, g.elem) < Read(st1, Second(g)) {
      JumpReaches(p, pc + 1, st1, stk, ForBody(id));
      GotoLabel(p, body, st1, stk, ForBody(id));
      ReachesTrans(p, Running(pc, st1, stk), Running(pc + 1, st1, stk), Running(body, st1, stk));
      ReachesTrans(p, Running(k, st, stk), Running(pc, st1, stk), Running(body, st1, stk));
    } else {
      ReachesTrans(p, Running(k, st, stk), Running(pc, st1, stk), Goto(p, LabelOp(ForEnd(id)), st1, stk));
    }
  }

  // The test of a downward range, reached through its label.
  lemma DownwardReaches(p: Program, k: int, id: nat, g: Range, st: Store, stk: Stack)
    requires UniqueLabels(p.code) && PureRange(g) && At(p.code, k, DownwardTest(id, g))
    ensures var st1 := WithStep(g, -1, st);
            Reaches(p, Goto(p, LabelOp(ForNegative(id)), st, stk),
                    if Read(st1, g.elem) > Read(st1, Second(g)) then Running(k + |DownwardTest(id, g)|, st1, stk)
                    else Goto(p, LabelOp(ForEnd(id)), st1, stk))
  {
    hide Reaches, At, Goto, UniqueLabels;
    var lc, sc, test := [LabelInstr(ForNegative(id))], StepSetup(g, -1), CondJumpInstr(JmpLtEq, ElemOp(g), SecondOp(g), ForEnd(id));
    AtSplit3(p.code, k, lc, sc, [test]);
    AtHead(p.code, k, lc);
    AtHead(p.code, k + 1 + |sc|, [test]);
    var start, pc, st1 := Goto(p, LabelOp(ForNegative(id)), st, stk), k + 1 + |sc|, WithStep(g, -1, st);
    GotoReaches(p, k, st, stk, ForNegative(id));
    SetupReaches(p, k + 1, g, -1, st, stk);
    ReachesTrans(p, start, Running(k + 1, st, stk), Running(pc, st1, stk));
    CompareReaches(p, pc, JmpLtEq, g.elem, Second(g), ForEnd(id), st1, stk);
    ReachesTrans(p, start, Running(pc, st1, stk),
      if Read(st1, g.elem) > Read(st1, Second(g)) then Running(pc + 1, st1, stk) else Goto(p, LabelOp(ForEnd(id)), st1, stk));
  }

  // The whole test, from behind its label: on to the label of the body or out.
  lemma ForTestReaches(p: Program, k: int, id: nat, g: Range, st: Store, stk: Stack)
    requires UniqueLabels(p.code) && PureRange(g) && At(p.code, k, ForTest(id, g) + [LabelInstr(ForBody(id))])
    ensures Reaches(p, Running(k + 1, st, stk),
                    if InRange(g, st) then Running(k + |ForTest(id, g)|, SetStep(g, st), stk)
                    else Goto(p, LabelOp(ForEnd(id)), SetStep(g, st), stk))
  {
    hide Reaches, At, Goto, UniqueLabels, UpwardTest, DownwardTest;
    var head := [LabelInstr(ForCond(id)), CondJumpInstr(JmpGtEq, FirstOp(g), SecondOp(g), ForNegative(id))];
    var uc, dc, body := UpwardTest(id, g), DownwardTest(id, g), k + |ForTest(id, g)|;
    AtSplit(p.code, k, ForTest(id, g), [LabelInstr(ForBody(id))]);
    AtSplit3(p.code, k, head, uc, dc);
    AtPair(p.code, k, head[0], head[1]);
    AtHead(p.code, body, [LabelInstr(ForBody(id))]);
    CompareReaches(p, k + 1, JmpGtEq, First(g), Second(g), ForNegative(id), st, stk);
    var goal := if InRange(g, st) then Running(body, SetStep(g, st), stk) else Goto(p, LabelOp(ForEnd(id)), SetStep(g, st), stk);
    if Upward(g, st) {
      UpwardReaches(p, k + 2, body, id, g, st, stk);
      ReachesTrans(p, Running(k + 1, st, stk), Running(k + 2, st, stk), goal);
    } else {
      DownwardReaches(p, k + 2 + |uc|, id, g, st, stk);
      ReachesTrans(p, Running(k + 1, st, stk), Goto(p, LabelOp(ForNegative(id)), st, stk), goal);
    }
  }

  function AdvanceState(p: Program, g: Range, pc: int, st: Store, stk: Stack): State {
    match Advance(g, st, p.env)
    case None => Trapped(st)
    case Some(st') => Running(pc, st', stk)
  }

  // elem = elem + step, back to the test.
  lemma AdvanceReaches(p: Program, k: int, test: int, id: nat, g: Range, st: Store, stk: Stack)
    requires UniqueLabels(p.code) && PureRange(g) && At(p.code, k, ForAdvance(id, g))
    requires 0 <= test < |p.code| && p.code[test] == LabelInstr(ForCond(id))
    ensures Reaches(p, Running(k, st, stk), AdvanceState(p, g, test, st, stk))
  {
    hide Reaches, At, Goto, UniqueLabels;
    var add, load, jump := ForAdvance(id, g)[0], ForAdvance(id, g)[1], ForAdvance(id, g)[2];
    assert ForAdvance(id, g) == [add] + [load, jump];
    AtSplit(p.code, k, [add], [load, jump]);
    AtHead(p.code, k, [add]);
    AtPair(p.code, k + 1, load, jump);
    assert !g.elem.StackPop? && !g.stepvar.StackPop?;
    var a, b := Read(st, g.elem), Read(st, g.stepvar);
    Arith2Reaches(p, k, st, stk, add, a, b, stk);
    var v := p.env.arith(Add, a, b);
    if v.Some? {
      var st' := Set(st, g.elem, v.value);
      LoadReaches(p, k + 1, st, Push(v.value, stk), load, g.elem, RefOp(StackPop(g.ty)), v.value, stk);
      JumpReaches(p, k + 2, st', stk, ForCond(id));
      GotoLabel(p, test, st', stk, ForCond(id));
      ReachesTrans(p, Running(k + 1, st, Push(v.value, stk)), Running(k + 2, st', stk), Running(test, st', stk));
      ReachesTrans(p, Running(k, st, stk), Running(k + 1, st, Push(v.value, stk)), Running(test, st', stk));
    }
  }

  // The loop itself, without the evaluation of the range.
  function LoopCode(s: Stmt, ctx: Ctx): seq<Instr>
    requires s.For?
  {
    ForTest(s.id, s.range)
    + ([LabelInstr(ForBody(s.id))]
       + (StmtCode(s.body, ForCtx(s.id, ctx)) + (ForAdvance(s.id, s.range) + [LabelInstr(ForEnd(s.id))])))
  }

  lemma {:induction false} ForFollows(p: Program, k: int, s: Stmt, ctx: Ctx, jumps: bool, st: Store, stk: Stack, fuel: nat)
    requires s.For? && Ready(p, ctx, jumps) && Supported(s, jumps, ctx.pending)
    requires At(p.code, k, StmtCode(s, ctx))
    ensures Simulates(p, Running(k, st, stk), k + |StmtCode(s, ctx)|, ctx, stk, Exec(s, st, p.env, fuel), fuel)
    decreases fuel, s, 2
  {
    hide Reaches, Live, At, Ready, Simulates, RunAssigns, AssignsCode, ForTest, ForAdvance, ExecFor;
    var ac, end := AssignsCode(RangeAssigns(s.range)), k + |StmtCode(s, ctx)|;
    assert StmtCode(s, ctx) == ac + LoopCode(s, ctx);
    AtSplit(p.code, k, ac, LoopCode(s, ctx));
    RangePure(s.range);
    AssignsReach(p, k, RangeAssigns(s.range), st, stk);
    var r := RunAssigns(RangeAssigns(s.range), st, p.env);
    if r.Trap? {
      SimulatesTrap(p, Running(k, st, stk), r.store, end, ctx, stk, fuel);
    } else {
      ForLoopFollows(p, k + |ac|, s, ctx, jumps, r.store, stk, fuel);
      SimulatesFrom(p, Running(k, st, stk), Running(k + |ac|, r.store, stk), end, ctx, stk,
        ExecFor(s, r.store, p.env, fuel), fuel);
    }
  }

  lemma RangePure(g: Range)
    requires PureRange(g)
    ensures PureAssigns(RangeAssigns(g))
  {
    assert Plain(First(g)) && Plain(Second(g)) && Plain(Third(g));
    var xs := RangeAssigns(g);
    assert Pure(Ident(First(g))) && Pure(Ident(Third(g)));
    if g.step.Some? {
      assert PureAssigns(xs.rest.rest.rest.rest);
      assert PureAssigns(xs.rest.rest.rest);
    }
    assert PureAssigns(xs.rest.rest);
    assert PureAssigns(xs.rest);
  }

  lemma ForLayout(p: Program, k: int, s: Stmt, ctx: Ctx, jumps: bool)
    requires s.For? && Ready(p, ctx, jumps) && At(p.code, k, LoopCode(s, ctx))
    ensures UniqueLabels(p.code)
    ensures var tc, bc, end := ForTest(s.id, s.range), StmtCode(s.body, ForCtx(s.id, ctx)), k + |LoopCode(s, ctx)|;
            && end == k + |tc| + |bc| + 5 && 0 <= k && end <= |p.code|
            && p.code[k] == LabelInstr(ForCond(s.id))
            && At(p.code, k, tc + [LabelInstr(ForBody(s.id))])
            && p.code[k + |tc|] == LabelInstr(ForBody(s.id))
            && At(p.code, k + |tc| + 1, bc)
            && At(p.code, end - 4, ForAdvance(s.id, s.range))
            && p.code[end - 1] == LabelInstr(ForEnd(s.id))
  {
    hide At, StmtCode, UpwardTest, DownwardTest;
    var tc, bc := ForTest(s.id, s.range), StmtCode(s.body, ForCtx(s.id, ctx));
    var lb, adv, le := [LabelInstr(ForBody(s.id))], ForAdvance(s.id, s.range), [LabelInstr(ForEnd(s.id))];
    AtSplit3(p.code, k, tc, lb, bc + (adv + le));
    AtSplit3(p.code, k + |tc| + 1, bc, adv, le);
    AtHead(p.code, k, tc);
    AtHead(p.code, k + |tc|, lb);
    AtHead(p.code, k + |tc| + 1 + |bc| + 3, le);
  }

  lemma {:induction false} ForLoopFollows(
      p: Program, k: int, s: Stmt, ctx: Ctx, jumps: bool, st: Store, stk: Stack, fuel: nat)
    requires s.For? && Ready(p, ctx, jumps) && Supported(s, jumps, ctx.pending)
    requires At(p.code, k, LoopCode(s, ctx))
    ensures Simulates(p, Running(k, st, stk), k + |LoopCode(s, ctx)|, ctx, stk, ExecFor(s, st, p.env, fuel), fuel)
    decreases fuel, s, 1, 2
  {
    hide Reaches, Run, Step, At, Ready, OutcomeState, LoopCode, Supported, ExecFor;
    ForLayout(p, k, s, ctx, jumps);
    LabelStep(p, k, st, stk, ForCond(s.id));
    if fuel == 0 {
      LiveNow(p, Running(k, st, stk));
      ForStarved(s, st, p.env);
    } else {
      ForIterationFollows(p, k, s, ctx, jumps, st, stk, fuel);
      ReachesSelf(p, Running(k + 1, st, stk));
      SimulatesLater(p, Running(k, st, stk), Running(k + 1, st, stk), k + |LoopCode(s, ctx)|, ctx, stk,
        ExecFor(s, st, p.env, fuel), fuel);
    }
  }

  lemma ForStarved(s: Stmt, st: Store, env: Env)
    requires s.For?
    ensures ExecFor(s, st, env, 0) == Timeout(st)
  {
  }

  // What becomes of a loop whose body ended with outcome o.
  function AfterFor(s: Stmt, o: Outcome, env: Env, fuel: nat): Outcome
    requires s.For?
  {
    match o
    case Normal(st) =>
      (match Advance(s.range, st, env) case None => Trap(st) case Some(st') => ExecFor(s, st', env, fuel))
    case Continued(st) =>
      (match Advance(s.range, st, env) case None => Trap(st) case Some(st') => ExecFor(s, st', env, fuel))
    case Broke(st) => Normal(st)
    case _ => o
  }

  lemma ForUnfold(s: Stmt, st: Store, env: Env, fuel: nat)
    requires s.For? && fuel > 0
    ensures ExecFor(s, st, env, fuel)
         == if InRange(s.range, st) then AfterFor(s, Exec(s.body, SetStep(s.range, st), env, fuel - 1), env, fuel - 1)
            else Normal(SetStep(s.range, st))
  {
  }

  // One iteration, from behind the label of the test.
  lemma {:induction false} ForIterationFollows(
      p: Program, k: int, s: Stmt, ctx: Ctx, jumps: bool, st: Store, stk: Stack, fuel: nat)
    requires fuel > 0 && s.For? && Ready(p, ctx, jumps) && Supported(s, jumps, ctx.pending)
    requires At(p.code, k, LoopCode(s, ctx))
    ensures Simulates(p, Running(k + 1, st, stk), k + |LoopCode(s, ctx)|, ctx, stk, ExecFor(s, st, p.env, fuel), fuel - 1)
    decreases fuel, s, 1, 1
  {
    hide Reaches, Live, At, Ready, OutcomeState, Goto, ExecFor, Simulates, LoopCode, InRange, SetStep, ForTest;
    ForLayout(p, k, s, ctx, jumps);
    ForUnfold(s, st, p.env, fuel);
    var b, end, st1 := k + |ForTest(s.id, s.range)|, k + |LoopCode(s, ctx)|, SetStep(s.range, st);
    var start := Running(k + 1, st, stk);
    ForTestReaches(p, k, s.id, s.range, st, stk);
    if InRange(s.range, st) {
      LabelReaches(p, b, st1, stk, ForBody(s.id));
      ReachesTrans(p, start, Running(b, st1, stk), Running(b + 1, st1, stk));
      ForBodyFollows(p, k, s, ctx, jumps, st1, stk, fuel);
      SimulatesFrom(p, start, Running(b + 1, st1, stk), end, ctx, stk, ExecFor(s, st, p.env, fuel), fuel - 1);
    } else {
      GotoReaches(p, end - 1, st1, stk, ForEnd(s.id));
      ReachesTrans(p, start, Goto(p, LabelOp(ForEnd(s.id)), st1, stk), Running(end, st1, stk));
      SimulatesEnd(p, end, ctx, st1, stk, fuel - 1);
      SimulatesFrom(p, start, Running(end, st1, stk), end, ctx, stk, Normal(st1), fuel - 1);
    }
  }

  lemma {:induction false} ForBodyFollows(
      p: Program, k: int, s: Stmt, ctx: Ctx, jumps: bool, st: Store, stk: Stack, fuel: nat)
    requires fuel > 0 && s.For? && Ready(p, ctx, jumps) && Supported(s, jumps, ctx.pending)
    requires At(p.code, k, LoopCode(s, ctx))
    ensures Simulates(p, Running(k + |ForTest(s.id, s.range)| + 1, st, stk), k + |LoopCode(s, ctx)|, ctx, stk,
                      AfterFor(s, Exec(s.body, st, p.env, fuel - 1), p.env, fuel - 1), fuel - 1)
    decreases fuel, s, 1, 0
  {
    hide Reaches, At, Exec, ExecFor, Ready, Goto, LoopCode, ForTest, RunAssigns, Advance, StmtCode;
    ForLayout(p, k, s, ctx, jumps);
    var end, start := k + |LoopCode(s, ctx)|, Running(k + |ForTest(s.id, s.range)| + 1, st, stk);
    LoopReady(p, ctx, ForCtx(s.id, ctx), jumps);
    StmtFollows(p, start.pc, s.body, ForCtx(s.id, ctx), true, st, stk, fuel - 1);
    NeverContinues(s.body, st, p.env, fuel - 1);
    var o := Exec(s.body, st, p.env, fuel - 1);
    if o.Normal? {
      AdvanceReaches(p, end - 4, k, s.id, s.range, o.store, stk);
      ReachesTrans(p, start, Running(end - 4, o.store, stk), AdvanceState(p, s.range, k, o.store, stk));
      if Advance(s.range, o.store, p.env).Some? {
        AgainFor(p, start, k, s, ctx, jumps, Advance(s.range, o.store, p.env).value, stk, fuel - 1);
      }
    } else if o.Broke? {
      GotoReaches(p, end - 1, o.store, stk, ForEnd(s.id));
      ReachesTrans(p, start, Goto(p, LabelOp(ForEnd(s.id)), o.store, stk), Running(end, o.store, stk));
    }
  }

  lemma {:induction false} AgainFor(
      p: Program, start: State, k: int, s: Stmt, ctx: Ctx, jumps: bool, st: Store, stk: Stack, fuel: nat)
    requires s.For? && Ready(p, ctx, jumps) && Supported(s, jumps, ctx.pending) && At(p.code, k, LoopCode(s, ctx))
    requires Reaches(p, start, Running(k, st, stk))
    ensures Simulates(p, start, k + |LoopCode(s, ctx)|, ctx, stk, ExecFor(s, st, p.env, fuel), fuel)
    decreases fuel, s, 1, 3
  {
    ForLoopFollows(p, k, s, ctx, jumps, st, stk, fuel);
    SimulatesFrom(p, start, Running(k, st, stk), k + |LoopCode(s, ctx)|, ctx, stk, ExecFor(s, st, p.env, fuel), fuel);
  }

  // ----- Blocks and deferred statements -----

  lemma {:induction false} RunAppend(xs: Assigns, ys: Assigns, st: Store, env: Env)
    ensures RunAssigns(Append(xs, ys), st, env)
         == match RunAssigns(xs, st, env) case Normal(st') => RunAssigns(ys, st', env) case o => o
    decreases xs
  {
    if xs.MoreAssigns? {
      var o := RunLater(xs.what, st, env);
      if o.Normal? {
        RunAppend(xs.rest, ys, o.store, env);
      }
    }
  }

  lemma {:induction false} AppendPure(xs: Assigns, ys: Assigns)
    requires PureAssigns(xs) && PureAssigns(ys)
    ensures PureAssigns(Append(xs, ys))
    decreases xs
  {
    if xs.MoreAssigns? {
      AppendPure(xs.rest, ys);
    }
  }

  // Without permission to jump, a statement ends neither by break nor by continue.
  lemma {:induction false} NoEscape(s: Stmt, pending: Assigns, st: Store, env: Env, fuel: nat)
    requires Supported(s, false, pending)
    ensures !Exec(s, st, env, fuel).Broke? && !Exec(s, st, env, fuel).Continued?
    decreases fuel, s, 2
  {
    match s
    case If(_, c, thn, els) =>
      NoEscape(thn, pending, RanCond(c, st, env), env, fuel);
      if els.Some? {
        NoEscape(els.value, pending, RanCond(c, st, env), env, fuel);
      }
    case While(_, _, _) => LoopStays(s, st, env, fuel);
    case For(_, g, _) =>
      var r := RunAssigns(RangeAssigns(g), st, env);
      if r.Normal? {
        LoopStays(s, r.store, env, fuel);
      }
    case Block(b) => NoEscapeAll(b, NoAssigns, pending, st, env, fuel);
    case _ =>
  }

  lemma {:induction false} NoEscapeAll(b: Stmts, ds: Assigns, pending: Assigns, st: Store, env: Env, fuel: nat)
    requires SupportedAll(b, false, ds, pending)
    ensures !ExecBlock(b, ds, st, env, fuel).Broke? && !ExecBlock(b, ds, st, env, fuel).Continued?
    decreases fuel, b, 1
  {
    if b.MoreStmts? {
      var s := b.head;
      if s.DeferStmt? {
        NoEscapeAll(b.tail, MoreAssigns(NoType, s.what, ds), pending, st, env, fuel);
      } else {
        NoEscape(s, Append(ds, pending), st, env, fuel);
        var o := Exec(s, st, env, fuel);
        if o.Normal? {
          NoEscapeAll(b.tail, ds, pending, o.store, env, fuel);
        }
      }
    }
  }

  lemma {:induction false} BlockStmtFollows(p: Program, k: int, s: Stmt, ctx: Ctx, jumps: bool, st: Store, stk: Stack, fuel: nat)
    requires s.Block? && Ready(p, ctx, jumps) && Supported(s, jumps, ctx.pending)
    requires At(p.code, k, StmtCode(s, ctx))
    ensures Simulates(p, Running(k, st, stk), k + |StmtCode(s, ctx)|, ctx, stk, Exec(s, st, p.env, fuel), fuel)
    decreases fuel, s, 2
  {
    hide Reaches, Live, At, Ready, Simulates, RunAssigns;
    AlwaysReplayed(s.stmts, NoAssigns);
    BlockFollows(p, k, s.stmts, NoAssigns, ctx, true, jumps, st, stk, fuel);
  }

  lemma {:induction false} AlwaysReplayed(b: Stmts, ds: Assigns)
    ensures Replayed(b, ds, true)
    decreases b
  {
    if b.MoreStmts? {
      AlwaysReplayed(b.tail, if b.head.DeferStmt? then MoreAssigns(NoType, b.head.what, ds) else ds);
    }
  }

  /**
   * A block follows its statements and replays what it deferred, latest first, at its
   * end and in front of every return inside it.
   */
  lemma {:induction false} BlockFollows(
      p: Program, k: int, b: Stmts, ds: Assigns, ctx: Ctx, replay: bool, jumps: bool, st: Store, stk: Stack, fuel: nat)
    requires Ready(p, ctx, jumps) && PureAssigns(ds)
    requires SupportedAll(b, jumps, ds, ctx.pending) && Replayed(b, ds, replay)
    requires At(p.code, k, BlockCode(b, ds, ctx, replay))
    ensures Simulates(p, Running(k, st, stk), k + |BlockCode(b, ds, ctx, replay)|, ctx, stk,
                      ExecBlock(b, ds, st, p.env, fuel), fuel)
    decreases fuel, b, 1
  {
    hide Reaches, Live, At, Ready, Simulates, Exec, StmtCode, RunAssigns, AssignsCode, Supported, Pure, Plain;
    match b
    case NoStmts => BlockEnds(p, k, ds, ctx, replay, st, stk, fuel);
    case MoreStmts(s, rest) =>
      if s.DeferStmt? {
        BlockFollows(p, k, rest, MoreAssigns(NoType, s.what, ds), ctx, replay, jumps, st, stk, fuel);
      } else {
        BlockHeadFollows(p, k, b, ds, ctx, replay, jumps, st, stk, fuel);
      }
  }

  lemma BlockEnds(p: Program, k: int, ds: Assigns, ctx: Ctx, replay: bool, st: Store, stk: Stack, fuel: nat)
    requires PureAssigns(ds) && (replay || ds.NoAssigns?)
    requires At(p.code, k, BlockCode(NoStmts, ds, ctx, replay))
    ensures Simulates(p, Running(k, st, stk), k + |BlockCode(NoStmts, ds, ctx, replay)|, ctx, stk,
                      Leave(ds, Normal(st), p.env), fuel)
  {
    hide Reaches, At;
    if replay {
      AssignsReach(p, k, ds, st, stk);
    } else {
      ReachesSelf(p, Running(k, st, stk));
    }
  }

  lemma {:induction false} BlockHeadFollows(
      p: Program, k: int, b: Stmts, ds: Assigns, ctx: Ctx, replay: bool, jumps: bool, st: Store, stk: Stack, fuel: nat)
    requires b.MoreStmts? && !b.head.DeferStmt?
    requires Ready(p, ctx, jumps) && PureAssigns(ds)
    requires SupportedAll(b, jumps, ds, ctx.pending) && Replayed(b, ds, replay)
    requires At(p.code, k, BlockCode(b, ds, ctx, replay))
    ensures Simulates(p, Running(k, st, stk), k + |BlockCode(b, ds, ctx, replay)|, ctx, stk,
                      ExecBlock(b, ds, st, p.env, fuel), fuel)
    decreases fuel, b, 0
  {
    hide Reaches, Live, At, Ready, Simulates, Exec, StmtCode, RunAssigns, AssignsCode, Supported, Leave;
    var s, rest := b.head, b.tail;
    var sc, end := StmtCode(s, Inside(ds, ctx)), k + |BlockCode(b, ds, ctx, replay)|;
    AtSplit(p.code, k, sc, BlockCode(rest, ds, ctx, replay));
    InsideReady(p, ds, ctx, jumps);
    StmtFollows(p, k, s, Inside(ds, ctx), jumps && ds.NoAssigns?, st, stk, fuel);
    var o := Exec(s, st, p.env, fuel);
    if o.Normal? {
      NormalHead(p, Running(k, st, stk), k + |sc|, Inside(ds, ctx), stk, o.store, fuel);
      if s.ReturnStmt? {
        ReturnNotNormal(s, st, p.env, fuel);
      } else {
        BlockFollows(p, k + |sc|, rest, ds, ctx, replay, jumps, o.store, stk, fuel);
        SimulatesFrom(p, Running(k, st, stk), Running(k + |sc|, o.store, stk), end, ctx, stk,
          ExecBlock(rest, ds, o.store, p.env, fuel), fuel);
      }
    } else {
      if !(jumps && ds.NoAssigns?) {
        NoEscape(s, Append(ds, ctx.pending), st, p.env, fuel);
      }
      LeavesBlock(p, Running(k, st, stk), k + |sc|, end, ds, ctx, stk, o, fuel);
    }
  }

  lemma ReturnNotNormal(s: Stmt, st: Store, env: Env, fuel: nat)
    requires s.ReturnStmt?
    ensures !Exec(s, st, env, fuel).Normal?
  {
  }

  lemma NormalHead(p: Program, s: State, mid: int, ctx: Ctx, stk: Stack, st: Store, fuel: nat)
    requires Simulates(p, s, mid, ctx, stk, Normal(st), fuel)
    ensures Reaches(p, s, Running(mid, st, stk))
  {
  }

  lemma InsideReady(p: Program, ds: Assigns, ctx: Ctx, jumps: bool)
    requires Ready(p, ctx, jumps) && PureAssigns(ds)
    ensures Ready(p, Inside(ds, ctx), jumps && ds.NoAssigns?)
  {
    AppendPure(ds, ctx.pending);
  }

  // An outcome that leaves the block: what the block deferred is part of what a return replays.
  lemma LeavesBlock(
      p: Program, s: State, mid: int, end: int, ds: Assigns, ctx: Ctx, stk: Stack, o: Outcome, fuel: nat)
    requires !o.Normal? && (o.Broke? || o.Continued? ==> ds.NoAssigns?)
    requires Simulates(p, s, mid, Inside(ds, ctx), stk, o, fuel)
    ensures Simulates(p, s, end, ctx, stk, Leave(ds, o, p.env), fuel)
  {
    hide Reaches, Live;
    if o.Result? {
      RunAppend(ds, ctx.pending, o.store, p.env);
    }
  }
}
