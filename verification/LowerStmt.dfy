// Lowering of statements to labels and jumps.

module LowerStmt {
  import opened Ir
  import opened Ast
  import opened LowerExpr
  import opened LowerCond
  import opened CondExact
  import opened Escape

  // Where break and continue go, and what is deferred in the open scopes,
  // in the order in which a return replays them.
  datatype Ctx = Ctx(brk: Option<Label>, cont: Option<Label>, pending: Assigns)

  function Append(xs: Assigns, ys: Assigns): Assigns {
    match xs
    case NoAssigns => ys
    case MoreAssigns(ty, w, rest) => MoreAssigns(ty, w, Append(rest, ys))
  }

  function StoreInstr(ty: TypeId, d: Name, e: Expr): Instr {
    Instr(Load, ty, [RefOp(d), ExprOperand(e)])
  }

  // It pushes nothing, so nothing is discarded behind it.
  function VoidCall(f: Label, args: Exprs): Instr {
    Instr(Call, VoidType, [LabelOp(f)] + ArgOperands(args))
  }

  function LaterCode(ty: TypeId, w: Later): seq<Instr> {
    match w
    case AssignLater(d, e) => ExprCode(e) + [StoreInstr(ty, d, e)]
    case CallLater(f, args) => ArgsCode(args) + [VoidCall(f, args)]
  }

  function AssignsCode(xs: Assigns): seq<Instr> {
    match xs
    case NoAssigns => []
    case MoreAssigns(ty, w, rest) => LaterCode(ty, w) + AssignsCode(rest)
  }

  function OptJump(l: Option<Label>): seq<Instr> {
    if l.Some? then [JumpInstr(l.value)] else []
  }

  // ----- Numeric for -----

  function ElemOp(g: Range): Operand { RefOp(g.elem) }

  function FirstOp(g: Range): Operand { RefOp(First(g)) }

  function SecondOp(g: Range): Operand { RefOp(Second(g)) }

  function StepSetup(g: Range, v: int): seq<Instr> {
    if g.step.None? then [LoadInstr(g.stepvar, IntOp(v, Int32Type))] else []
  }

  function UpwardTest(id: nat, g: Range): seq<Instr> {
    StepSetup(g, 1)
    + [CondJumpInstr(JmpGtEq, ElemOp(g), SecondOp(g), ForEnd(id)), JumpInstr(ForBody(id))]
  }

  function DownwardTest(id: nat, g: Range): seq<Instr> {
    [LabelInstr(ForNegative(id))]
    + (StepSetup(g, -1) + [CondJumpInstr(JmpLtEq, ElemOp(g), SecondOp(g), ForEnd(id))])
  }

  function ForTest(id: nat, g: Range): seq<Instr> {
    [LabelInstr(ForCond(id)), CondJumpInstr(JmpGtEq, FirstOp(g), SecondOp(g), ForNegative(id))]
    + (UpwardTest(id, g) + DownwardTest(id, g))
  }

  function ForAdvance(id: nat, g: Range): seq<Instr> {
    [Instr(Add, g.ty, [ElemOp(g), RefOp(g.stepvar)]),
     LoadInstr(g.elem, RefOp(StackPop(g.ty))),
     JumpInstr(ForCond(id))]
  }

  // ----- Statements -----

  function WhileCtx(id: nat, ctx: Ctx): Ctx {
    ctx.(brk := Some(WhileEnd(id)), cont := Some(WhileCond(id)))
  }

  function ForCtx(id: nat, ctx: Ctx): Ctx {
    ctx.(brk := Some(ForEnd(id)), cont := Some(ForCond(id)))
  }

  function StmtCode(s: Stmt, ctx: Ctx): seq<Instr>
    decreases s
  {
    match s
    case Assign(d, e) => LaterCode(NoType, AssignLater(d, e))
    case ExprStmt(e) => ExprCode(e) + [Instr(Noop, VoidType, [ExprOperand(e)])]
    case CallStmt(f, args) => LaterCode(NoType, CallLater(f, args))
    case If(id, c, thn, els) =>
      CondCode(c, IfBody(id), IfElse(id))
      + ([LabelInstr(IfBody(id))]
         + (StmtCode(thn, ctx)
            + (if els.Some?
               then [JumpInstr(IfEnd(id)), LabelInstr(IfElse(id))]
                    + (StmtCode(els.value, ctx) + [LabelInstr(IfEnd(id))])
               else [LabelInstr(IfElse(id))])))
    case While(id, c, body) =>
      [LabelInstr(WhileCond(id))]
      + (CondCode(c, WhileBody(id), WhileEnd(id))
         + ([LabelInstr(WhileBody(id))]
            + (StmtCode(body, WhileCtx(id, ctx))
               + [JumpInstr(WhileCond(id)), LabelInstr(WhileEnd(id))])))
    case For(id, g, body) =>
      AssignsCode(RangeAssigns(g))
      + (ForTest(id, g)
         + ([LabelInstr(ForBody(id))]
            + (StmtCode(body, ForCtx(id, ctx)) + (ForAdvance(id, g) + [LabelInstr(ForEnd(id))]))))
    case Block(b) => BlockCode(b, NoAssigns, ctx, true)
    case DeferStmt(_) => []
    case Break => OptJump(ctx.brk)
    case Continue => OptJump(ctx.cont)
    case ReturnStmt(None, ty) => AssignsCode(ctx.pending) + [Instr(Return, ty, [IntOp(0, NoType)])]
    case ReturnStmt(Some(e), ty) =>
      ExprCode(e) + (AssignsCode(ctx.pending) + [Instr(Return, ty, [ExprOperand(e)])])
  }

  function Inside(ds: Assigns, ctx: Ctx): Ctx {
    ctx.(pending := Append(ds, ctx.pending))
  }

  // ds: what the block has deferred so far; replay: whether its end replays it.
  function BlockCode(b: Stmts, ds: Assigns, ctx: Ctx, replay: bool): seq<Instr>
    decreases b
  {
    match b
    case NoStmts => if replay then AssignsCode(ds) else []
    case MoreStmts(s, rest) =>
      if s.DeferStmt? then BlockCode(rest, MoreAssigns(NoType, s.what, ds), ctx, replay)
      else StmtCode(s, Inside(ds, ctx)) + BlockCode(rest, ds, ctx, replay)
  }

  predicate HasReturn(s: Stmt)
    decreases s
  {
    match s
    case ReturnStmt(_, _) => true
    case If(_, _, thn, els) => HasReturn(thn) || (els.Some? && HasReturn(els.value))
    case While(_, _, body) => HasReturn(body)
    case For(_, _, body) => HasReturn(body)
    case Block(b) => HasReturns(b)
    case _ => false
  }

  predicate HasReturns(b: Stmts)
    decreases b
  {
    match b
    case NoStmts => false
    case MoreStmts(s, rest) => HasReturn(s) || HasReturns(rest)
  }

  const TOP := Ctx(None, None, NoAssigns)

  /** A function body; its end replays what is deferred only if nothing returns. */
  function FuncCode(body: Stmts): seq<Instr> {
    BlockCode(body, NoAssigns, TOP, !HasReturns(body))
  }

  // ----- The programs considered -----

  predicate Assigned(r: Ref, xs: Assigns) {
    xs.MoreAssigns? && ((xs.what.AssignLater? && xs.what.dest == r) || Assigned(r, xs.rest))
  }

  predicate PureLater(w: Later) {
    match w
    case AssignLater(_, e) => Pure(e)
    case CallLater(_, args) => PureAll(args)
  }

  predicate PureAssigns(xs: Assigns) {
    xs.MoreAssigns? ==> PureLater(xs.what) && PureAssigns(xs.rest)
  }

  predicate PureRange(g: Range) {
    Pure(g.start) && Pure(g.end) && (g.step.Some? ==> Pure(g.step.value))
  }

  // Only a statement list discards the value of an expression statement and replays what
  // it has deferred.
  predicate Listed(s: Stmt) {
    s.ExprStmt? || s.DeferStmt?
  }

  // jumps: break and continue are allowed, which they are in a loop as long as no
  // block they would leave has deferred anything. The body of a numeric loop does not
  // continue: the code would repeat the element.
  predicate Supported(s: Stmt, jumps: bool, pending: Assigns)
    decreases s
  {
    match s
    case Assign(_, e) => Pure(e)
    case ExprStmt(e) => Pure(e)
    case CallStmt(_, args) => PureAll(args)
    case If(_, c, thn, els) =>
      && PureCond(c) && Accepted(c)
      && !Listed(thn) && Supported(thn, jumps, pending)
      && (els.Some? ==> !Listed(els.value) && Supported(els.value, jumps, pending))
    case While(_, c, body) =>
      PureCond(c) && Accepted(c) && !Listed(body) && Supported(body, true, pending)
    case For(_, g, body) => PureRange(g) && !Listed(body) && NoContinue(body) && Supported(body, true, pending)
    case Block(b) => SupportedAll(b, jumps, NoAssigns, pending)
    case DeferStmt(w) => PureLater(w)
    case Break => jumps
    case Continue => jumps
    case ReturnStmt(None, _) => true
    case ReturnStmt(Some(e), _) => Pure(e) && (e.Ident? ==> !Assigned(e.ref, pending))
  }

  predicate SupportedAll(b: Stmts, jumps: bool, ds: Assigns, pending: Assigns)
    decreases b
  {
    match b
    case NoStmts => true
    case MoreStmts(s, rest) =>
      if s.DeferStmt? then
        PureLater(s.what)
        && SupportedAll(rest, jumps, MoreAssigns(NoType, s.what, ds), pending)
      else
        Supported(s, jumps && ds.NoAssigns?, Append(ds, pending)) && SupportedAll(rest, jumps, ds, pending)
  }

  // The end of the block is not reached with deferred statements that it does not replay.
  predicate Replayed(b: Stmts, ds: Assigns, replay: bool) {
    match b
    case NoStmts => replay || ds.NoAssigns?
    case MoreStmts(s, rest) =>
      if s.DeferStmt? then Replayed(rest, MoreAssigns(NoType, s.what, ds), replay)
      else s.ReturnStmt? || Replayed(rest, ds, replay)
  }

  predicate SupportedFunc(body: Stmts) {
    SupportedAll(body, false, NoAssigns, NoAssigns) && Replayed(body, NoAssigns, !HasReturns(body))
  }
}
