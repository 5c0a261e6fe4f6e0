// Lowering of if and for conditions to conditional jumps.

module LowerCond {
  import opened Ir
  import opened Machine
  import opened Ast
  import opened LowerExpr

  // The conditional jump of a comparison, as written or inverted.
  function JumpOpcode(op: CmpOp, invert: bool): Op {
    match op
    case Lt => if invert then JmpGtEq else JmpLt
    case Gt => if invert then JmpLtEq else JmpGt
    case LtEq => if invert then JmpGt else JmpLtEq
    case GtEq => if invert then JmpLt else JmpGtEq
    case Eq => if invert then JmpNeq else JmpEq
    case Neq => if invert then JmpEq else JmpNeq
  }

  // Only binary nodes emit the label other operands jump to; ! does not.
  predicate IsBinary(c: Cond) {
    c.Cmp? || c.Logic?
  }

  function OtherOp(op: LogicOp): LogicOp {
    if op.AndAnd? then OrOr else AndAnd
  }

  // A left operand of the other logic operator jumps to the right operand.
  predicate LinksRight(op: LogicOp, l: Cond) {
    l.Logic? && l.op == OtherOp(op)
  }

  function LeftTrueLabel(op: LogicOp, l: Cond, r: Cond, t: Label): Label {
    if op.AndAnd? && LinksRight(op, l) then ShortLabel(r.id) else t
  }

  function LeftFalseLabel(op: LogicOp, l: Cond, r: Cond, f: Label): Label {
    if op.OrOr? && LinksRight(op, l) then ShortLabel(r.id) else f
  }

  function CmpJump(c: Cond, invert: bool, target: Label): seq<Instr>
    requires c.Cmp?
  {
    ExprCode(c.a)
    + (ExprCode(c.b) + [CondJumpInstr(JumpOpcode(c.cmp, invert), ExprOperand(c.a), ExprOperand(c.b), target)])
  }

  function CmpValue(c: Cond, invert: bool): seq<Instr>
    requires c.Cmp?
  {
    ExprCode(c.a) + (ExprCode(c.b) + [CompareInstr(c.ty, c.cmp, invert, c.a, c.b)])
  }

  // Code of a condition that was given no labels: every comparison pushes a value.
  function ValueCode(c: Cond): seq<Instr> {
    match c
    case Cmp(_, _, _, _, _) => CmpValue(c, false)
    case Bang(_, x) => if x.Cmp? then CmpValue(x, true) else ValueCode(x)
    case Logic(_, _, l, r) => ValueCode(l) + ValueCode(r)
  }

  // The operands such a condition leaves on the operand stack of the generator.
  function ValueOperands(c: Cond): seq<Operand> {
    match c
    case Cmp(_, ty, _, _, _) => [RefOp(StackPop(ty))]
    case Bang(_, x) => ValueOperands(x)
    case Logic(_, _, l, r) => ValueOperands(l) + ValueOperands(r)
  }

  function SelfLabel(op: LogicOp, l: Cond, r: Cond): seq<Instr> {
    if LinksRight(op, l) && IsBinary(r) then [LabelInstr(ShortLabel(r.id))] else []
  }

  function LeftCode(op: LogicOp, l: Cond, r: Cond, t: Label, f: Label): seq<Instr>
    decreases l, 1
  {
    if l.Bang? then ValueCode(l)
    else if l.Cmp? && op.OrOr? then CmpJump(l, false, t)
    else CondCode(l, LeftTrueLabel(op, l, r, t), LeftFalseLabel(op, l, r, f))
  }

  /** The jump code of a condition with the labels of its true and false exits. */
  function CondCode(c: Cond, t: Label, f: Label): seq<Instr>
    decreases c, 0
  {
    match c
    case Cmp(_, _, _, _, _) => CmpJump(c, true, f)
    case Bang(_, x) =>
      if x.Cmp? then CmpJump(x, false, f) else if x.Logic? then CondCode(x, f, t) else ValueCode(x)
    case Logic(_, op, l, r) =>
      LeftCode(op, l, r, t, f) + (SelfLabel(op, l, r) + CondCode(r, t, f))
  }

  // The operands left on the operand stack of the generator.
  function CondOperands(c: Cond): seq<Operand> {
    match c
    case Cmp(_, _, _, _, _) => []
    case Bang(_, x) => if x.Cmp? then [] else if x.Logic? then CondOperands(x) else ValueOperands(x)
    case Logic(_, _, l, r) => (if l.Bang? then ValueOperands(l) else CondOperands(l)) + CondOperands(r)
  }

  // ----- Where the jump code goes -----

  datatype Exit = Fall | ToTrue | ToFalse

  datatype Route =
    | Routed(exit: Exit, store: Store, stack: Stack)
    | Lost        // a jump to a label that is never emitted
    | RouteTrap(store: Store)

  function CmpValueRoute(c: Cond, invert: bool, st: Store, env: Env, stk: Stack): Route
    requires c.Cmp?
  {
    var made := RanCmp(c, st, env);
    match EvalCmp(c, st, env)
    case None => RouteTrap(made)
    case Some(b) => Routed(Fall, made, Push(Bit(b != invert), stk))
  }

  // Code without labels pushes the value of each comparison and falls through.
  function ValueRoute(c: Cond, invert: bool, st: Store, env: Env, stk: Stack): Route {
    match c
    case Cmp(_, _, _, _, _) =>
      CmpValueRoute(c, invert, st, env, stk)
    case Bang(_, x) => ValueRoute(x, x.Cmp?, st, env, stk)
    case Logic(_, _, l, r) =>
      match ValueRoute(l, false, st, env, stk)
      case Routed(_, st1, stk1) => ValueRoute(r, false, st1, env, stk1)
      case o => o
  }

  function CmpRoute(c: Cond, onTrue: Exit, onFalse: Exit, st: Store, env: Env, stk: Stack): Route
    requires c.Cmp?
  {
    var made := RanCmp(c, st, env);
    match EvalCmp(c, st, env)
    case None => RouteTrap(made)
    case Some(b) => Routed(if b then onTrue else onFalse, made, stk)
  }

  function Swap(x: Exit): Exit {
    match x case Fall => Fall case ToTrue => ToFalse case ToFalse => ToTrue
  }

  function SwapRoute(r: Route): Route {
    if r.Routed? then r.(exit := Swap(r.exit)) else r
  }

  // The exit through which a left operand of the other operator goes on to the right one.
  function LinkExit(op: LogicOp): Exit {
    if op.AndAnd? then ToTrue else ToFalse
  }

  function LeftRoute(op: LogicOp, l: Cond, st: Store, env: Env, stk: Stack): Route
    decreases l, 1
  {
    if l.Bang? then ValueRoute(l, false, st, env, stk)
    else if l.Cmp? && op.OrOr? then CmpRoute(l, ToTrue, Fall, st, env, stk)
    else CondRoute(l, st, env, stk)
  }

  function CondRoute(c: Cond, st: Store, env: Env, stk: Stack): Route
    decreases c, 0
  {
    match c
    case Cmp(_, _, _, _, _) => CmpRoute(c, Fall, ToFalse, st, env, stk)
    case Bang(_, x) =>
      if x.Cmp? then CmpRoute(x, ToFalse, Fall, st, env, stk)
      else if x.Bang? then ValueRoute(x, false, st, env, stk)
      else SwapRoute(CondRoute(x, st, env, stk))
    case Logic(_, op, l, r) =>
      match LeftRoute(op, l, st, env, stk)
      case Routed(e, st1, stk1) =>
        if e == Fall then CondRoute(r, st1, env, stk1)
        else if LinksRight(op, l) && e == LinkExit(op) then
          if IsBinary(r) then CondRoute(r, st1, env, stk1) else Lost
        else Routed(e, st1, stk1)
      case o => o
  }

  // ----- The machine follows the route -----

  function ExitState(p: Program, e: Exit, end: int, t: Label, f: Label, st: Store, stk: Stack): State {
    match e
    case Fall => Running(end, st, stk)
    case ToTrue => Goto(p, LabelOp(t), st, stk)
    case ToFalse => Goto(p, LabelOp(f), st, stk)
  }

  // Where the machine is when the jump code is left by a route.
  function RouteState(p: Program, end: int, t: Label, f: Label, r: Route): State {
    match r
    case Routed(e, st, stk) => ExitState(p, e, end, t, f, st, stk)
    case Lost => Stuck
    case RouteTrap(st) => Trapped(st)
  }

  // A label that an operand jumps to but that its target does not emit is defined nowhere.
  ghost predicate LinksUndefined(c: Cond, code: seq<Instr>) {
    match c
    case Cmp(_, _, _, _, _) => true
    case Bang(_, x) => LinksUndefined(x, code)
    case Logic(_, op, l, r) =>
      && LinksUndefined(l, code) && LinksUndefined(r, code)
      && (LinksRight(op, l) && !IsBinary(r) ==> LabelInstr(ShortLabel(r.id)) !in code)
  }

  // Needed only of a route that takes such a jump.
  ghost predicate LinkedBy(route: Route, c: Cond, code: seq<Instr>) {
    route.Lost? ==> LinksUndefined(c, code)
  }

  lemma LinkedParts(c: Cond, st: Store, env: Env, stk: Stack, code: seq<Instr>)
    requires c.Logic? && LinkedBy(CondRoute(c, st, env, stk), c, code)
    ensures var first := LeftRoute(c.op, c.left, st, env, stk);
            && LinkedBy(first, c.left, code)
            && (first.Routed? && GoesRight(c.op, c.left, c.right, first.exit) ==>
                  LinkedBy(CondRoute(c.right, first.store, env, first.stack), c.right, code))
            && (first.Routed? && LinksRight(c.op, c.left) && first.exit == LinkExit(c.op) && !IsBinary(c.right) ==>
                  LabelInstr(ShortLabel(c.right.id)) !in code)
  {
  }

  // The two operands of a comparison, then its last instruction.
  lemma CmpOperands(p: Program, k: int, c: Cond, last: Instr, st: Store, stk: Stack)
    requires c.Cmp? && PureCond(c) && At(p.code, k, ExprCode(c.a) + (ExprCode(c.b) + [last]))
    ensures 0 <= k + |ExprCode(c.a)| + |ExprCode(c.b)| < |p.code|
    ensures p.code[k + |ExprCode(c.a)| + |ExprCode(c.b)|] == last
    ensures var st1 := Ran(c.a, st, p.env);
            match Eval(c.a, st, p.env)
            case None => Reaches(p, Running(k, st, stk), Trapped(st1))
            case Some(a) =>
              var st2 := Ran(c.b, st1, p.env);
              match Eval(c.b, st1, p.env)
              case None => Reaches(p, Running(k, st, stk), Trapped(st2))
              case Some(b) =>
                var s := Running(k + |ExprCode(c.a)| + |ExprCode(c.b)|, st2, Pushed(c.b, b, Pushed(c.a, a, stk)));
                && Reaches(p, Running(k, st, stk), s)
                && Fetch2(ExprOperand(c.a), ExprOperand(c.b), st2, s.stack) == Got((a, b), stk)
  {
    OperandsCorrect(p, k, Arith(NoType, Plus, c.a, c.b), c.a, c.b, last, st, stk);
  }

  lemma CompareMeaning(op: CmpOp, invert: bool, a: int, b: int)
    ensures IsCompare(CompareOpcode(op, invert)) && !IsArith2(CompareOpcode(op, invert))
    ensures Holds(CompareOpcode(op, invert), a, b) <==> Compares(op, a, b) != invert
  {
  }

  lemma JumpMeaning(op: CmpOp, invert: bool, a: int, b: int)
    ensures IsCondJump(JumpOpcode(op, invert))
    ensures Holds(JumpOpcode(op, invert), a, b) <==> Compares(op, a, b) != invert
  {
  }

  lemma CmpJumpFollows(p: Program, k: int, c: Cond, invert: bool, target: Label, st: Store, stk: Stack)
    requires c.Cmp? && PureCond(c) && At(p.code, k, CmpJump(c, invert, target))
    ensures var made := RanCmp(c, st, p.env);
            match EvalCmp(c, st, p.env)
            case None => Reaches(p, Running(k, st, stk), Trapped(made))
            case Some(b) =>
              Reaches(p, Running(k, st, stk),
                      if b != invert then Goto(p, LabelOp(target), made, stk)
                      else Running(k + |CmpJump(c, invert, target)|, made, stk))
  {
    hide Reaches, Step, Run, At, Eval, Ran, ExprCode, ExprOperand, Pushed, Pure, Fetch2,
      Holds, Compares, CompareOpcode, JumpOpcode, IsCompare, IsArith2, IsCondJump, Goto, PureCond;
    var last := CondJumpInstr(JumpOpcode(c.cmp, invert), ExprOperand(c.a), ExprOperand(c.b), target);
    CmpOperands(p, k, c, last, st, stk);
    if EvalCmp(c, st, p.env).Some? {
      var st1, made := Ran(c.a, st, p.env), RanCmp(c, st, p.env);
      var a, b := Eval(c.a, st, p.env).value, Eval(c.b, st1, p.env).value;
      var pc, stk1 := k + |ExprCode(c.a)| + |ExprCode(c.b)|, Pushed(c.b, b, Pushed(c.a, a, stk));
      JumpMeaning(c.cmp, invert, a, b);
      CondJumpReaches(p, pc, made, stk1, last, a, b, stk);
      ReachesTrans(p, Running(k, st, stk), Running(pc, made, stk1),
        if Holds(last.op, a, b) then Goto(p, LabelOp(target), made, stk) else Running(pc + 1, made, stk));
    }
  }

  lemma CmpValueFollows(p: Program, k: int, c: Cond, invert: bool, st: Store, stk: Stack)
    requires c.Cmp? && PureCond(c) && At(p.code, k, CmpValue(c, invert))
    ensures var made := RanCmp(c, st, p.env);
            match EvalCmp(c, st, p.env)
            case None => Reaches(p, Running(k, st, stk), Trapped(made))
            case Some(b) =>
              Reaches(p, Running(k, st, stk), Running(k + |CmpValue(c, invert)|, made, Push(Bit(b != invert), stk)))
  {
    hide Reaches, Step, Run, At, Eval, Ran, ExprCode, ExprOperand, Pushed, Pure, Fetch2,
      Holds, Compares, CompareOpcode, JumpOpcode, IsCompare, IsArith2, IsCondJump, Goto, PureCond;
    var last := CompareInstr(c.ty, c.cmp, invert, c.a, c.b);
    CmpOperands(p, k, c, last, st, stk);
    if EvalCmp(c, st, p.env).Some? {
      var st1, made := Ran(c.a, st, p.env), RanCmp(c, st, p.env);
      var a, b := Eval(c.a, st, p.env).value, Eval(c.b, st1, p.env).value;
      var pc, stk1 := k + |ExprCode(c.a)| + |ExprCode(c.b)|, Pushed(c.b, b, Pushed(c.a, a, stk));
      CompareMeaning(c.cmp, invert, a, b);
      Arith2Reaches(p, pc, made, stk1, last, a, b, stk);
      ReachesTrans(p, Running(k, st, stk), Running(pc, made, stk1), Running(pc + 1, made, Push(Bit(Holds(last.op, a, b)), stk)));
    }
  }

  lemma {:induction false} ValueFollows(p: Program, k: int, c: Cond, t: Label, f: Label, st: Store, stk: Stack)
    requires PureCond(c) && At(p.code, k, ValueCode(c))
    ensures var r := ValueRoute(c, false, st, p.env, stk);
            && (r.Routed? ==> r.exit == Fall)
            && Reaches(p, Running(k, st, stk), RouteState(p, k + |ValueCode(c)|, t, f, r))
    decreases c, 1
  {
    hide Reaches, Step, Run, At, CmpValue, EvalCmp, RanCmp, Goto;
    match c
    case Cmp(_, _, _, _, _) => CmpValueFollows(p, k, c, false, st, stk);
    case Bang(_, x) =>
      if x.Cmp? {
        CmpValueFollows(p, k, x, true, st, stk);
      } else {
        ValueFollows(p, k, x, t, f, st, stk);
      }
    case Logic(_, _, _, _) => ValuesFollow(p, k, c, t, f, st, stk);
  }

  // Both operands are computed, one after the other.
  lemma {:induction false} ValuesFollow(p: Program, k: int, c: Cond, t: Label, f: Label, st: Store, stk: Stack)
    requires c.Logic? && PureCond(c) && At(p.code, k, ValueCode(c))
    ensures var r := ValueRoute(c, false, st, p.env, stk);
            && (r.Routed? ==> r.exit == Fall)
            && Reaches(p, Running(k, st, stk), RouteState(p, k + |ValueCode(c)|, t, f, r))
    decreases c, 0
  {
    hide Reaches, Step, Run, At, CmpValueRoute, Goto, CmpValue;
    var l, r := c.left, c.right;
    AtSplit(p.code, k, ValueCode(l), ValueCode(r));
    ValueFollows(p, k, l, t, f, st, stk);
    var first := ValueRoute(l, false, st, p.env, stk);
    if first.Routed? {
      ValueFollows(p, k + |ValueCode(l)|, r, t, f, first.store, first.stack);
      ReachesTrans(p, Running(k, st, stk), Running(k + |ValueCode(l)|, first.store, first.stack),
        RouteState(p, k + |ValueCode(c)|, t, f, ValueRoute(r, false, first.store, p.env, first.stack)));
    }
  }

  lemma LeftFollows(p: Program, k: int, op: LogicOp, l: Cond, r: Cond, t: Label, f: Label, st: Store, stk: Stack)
    requires UniqueLabels(p.code) && PureCond(l)
    requires LinkedBy(LeftRoute(op, l, st, p.env, stk), l, p.code)
    requires At(p.code, k, LeftCode(op, l, r, t, f))
    ensures Reaches(p, Running(k, st, stk),
                    RouteState(p, k + |LeftCode(op, l, r, t, f)|, LeftTrueLabel(op, l, r, t), LeftFalseLabel(op, l, r, f),
                               LeftRoute(op, l, st, p.env, stk)))
    decreases l, 1
  {
    hide Reaches, Step, Run, At, EvalCmp, Goto;
    if l.Bang? {
      ValueFollows(p, k, l, LeftTrueLabel(op, l, r, t), LeftFalseLabel(op, l, r, f), st, stk);
    } else if l.Cmp? && op.OrOr? {
      CmpJumpFollows(p, k, l, false, t, st, stk);
    } else {
      CondFollows(p, k, l, LeftTrueLabel(op, l, r, t), LeftFalseLabel(op, l, r, f), st, stk);
    }
  }

  /** For every condition, in or outside the supported forms, the jump code takes the route. */
  lemma {:induction false} CondFollows(p: Program, k: int, c: Cond, t: Label, f: Label, st: Store, stk: Stack)
    requires UniqueLabels(p.code) && PureCond(c)
    requires LinkedBy(CondRoute(c, st, p.env, stk), c, p.code)
    requires At(p.code, k, CondCode(c, t, f))
    ensures Reaches(p, Running(k, st, stk),
                    RouteState(p, k + |CondCode(c, t, f)|, t, f, CondRoute(c, st, p.env, stk)))
    decreases c, 0, 1
  {
    hide Reaches, Step, Run, At, EvalCmp, Goto, CmpJump, ValueRoute, ValueCode;
    match c
    case Cmp(_, _, _, _, _) => CmpJumpFollows(p, k, c, true, f, st, stk);
    case Bang(_, x) =>
      if x.Cmp? {
        CmpJumpFollows(p, k, x, false, f, st, stk);
      } else {
        BangFollows(p, k, c, t, f, st, stk);
      }
    case Logic(_, _, _, _) => LogicFollows(p, k, c, t, f, st, stk);
  }

  lemma BangFollows(p: Program, k: int, c: Cond, t: Label, f: Label, st: Store, stk: Stack)
    requires c.Bang? && !c.arg.Cmp? && UniqueLabels(p.code) && PureCond(c)
    requires LinkedBy(CondRoute(c, st, p.env, stk), c, p.code)
    requires At(p.code, k, CondCode(c, t, f))
    ensures Reaches(p, Running(k, st, stk),
                    RouteState(p, k + |CondCode(c, t, f)|, t, f, CondRoute(c, st, p.env, stk)))
    decreases c, 0, 0
  {
    hide Reaches, Step, Run, At, EvalCmp, Goto, CmpJump, ValueRoute, ValueCode, UniqueLabels, LeftCode, LeftRoute,
      RouteState, CmpRoute;
    var x := c.arg;
    assert x.Logic? && CondRoute(x, st, p.env, stk).Lost? ==> SwapRoute(CondRoute(x, st, p.env, stk)).Lost?;
    if x.Bang? {
      ValueFollows(p, k, x, t, f, st, stk);
    } else {
      CondFollows(p, k, x, f, t, st, stk);
      SwapState(p, k + |CondCode(c, t, f)|, t, f, CondRoute(x, st, p.env, stk));
    }
  }

  lemma SwapState(p: Program, end: int, t: Label, f: Label, r: Route)
    ensures RouteState(p, end, t, f, SwapRoute(r)) == RouteState(p, end, f, t, r)
  {
  }

  predicate GoesRight(op: LogicOp, l: Cond, r: Cond, e: Exit) {
    e == Fall || (LinksRight(op, l) && e == LinkExit(op) && IsBinary(r))
  }

  lemma LogicCode(c: Cond, t: Label, f: Label)
    requires c.Logic?
    ensures CondCode(c, t, f)
         == LeftCode(c.op, c.left, c.right, t, f) + (SelfLabel(c.op, c.left, c.right) + CondCode(c.right, t, f))
  {
  }

  // Where the left operand leads on to the right one, so does the whole condition.
  lemma RightRoute(c: Cond, st: Store, env: Env, stk: Stack)
    requires c.Logic? && LeftRoute(c.op, c.left, st, env, stk).Routed?
    requires GoesRight(c.op, c.left, c.right, LeftRoute(c.op, c.left, st, env, stk).exit)
    ensures var first := LeftRoute(c.op, c.left, st, env, stk);
            CondRoute(c, st, env, stk) == CondRoute(c.right, first.store, env, first.stack)
  {
  }

  lemma LogicFollows(p: Program, k: int, c: Cond, t: Label, f: Label, st: Store, stk: Stack)
    requires c.Logic? && UniqueLabels(p.code) && PureCond(c)
    requires LinkedBy(CondRoute(c, st, p.env, stk), c, p.code)
    requires At(p.code, k, CondCode(c, t, f))
    ensures Reaches(p, Running(k, st, stk),
                    RouteState(p, k + |CondCode(c, t, f)|, t, f, CondRoute(c, st, p.env, stk)))
    decreases c, 0, 0
  {
    hide Reaches, Step, Run, At, LeftCode, LeftRoute, SelfLabel, LinksUndefined, LinkedBy, CondCode, CondRoute, RouteState, GoesRight;
    var op, l, r := c.op, c.left, c.right;
    LogicCode(c, t, f);
    var lc, sc, rc := LeftCode(op, l, r, t, f), SelfLabel(op, l, r), CondCode(r, t, f);
    AtSplit(p.code, k, lc, sc + rc);
    AtSplit(p.code, k + |lc|, sc, rc);
    LinkedParts(c, st, p.env, stk, p.code);
    LeftFollows(p, k, op, l, r, t, f, st, stk);
    var first := LeftRoute(op, l, st, p.env, stk);
    if first.Routed? && GoesRight(op, l, r, first.exit) {
      EntersRight(p, k, op, l, r, t, f, st, stk, first);
      RightRoute(c, st, p.env, stk);
      CondFollows(p, k + |lc| + |sc|, r, t, f, first.store, first.stack);
      ReachesTrans(p, Running(k, st, stk), Running(k + |lc| + |sc|, first.store, first.stack),
        RouteState(p, k + |CondCode(c, t, f)|, t, f, CondRoute(r, first.store, p.env, first.stack)));
    } else {
      LeavesLeft(p, c, t, f, st, stk, k + |lc|, k + |CondCode(c, t, f)|);
    }
  }

  // An operand that does not go on to the right one ends the whole condition.
  lemma LeavesLeft(p: Program, c: Cond, t: Label, f: Label, st: Store, stk: Stack, end: int, last: int)
    requires c.Logic?
    requires LinkedBy(CondRoute(c, st, p.env, stk), c, p.code)
    requires var first := LeftRoute(c.op, c.left, st, p.env, stk);
             first.Routed? ==> !GoesRight(c.op, c.left, c.right, first.exit)
    ensures RouteState(p, last, t, f, CondRoute(c, st, p.env, stk))
         == RouteState(p, end, LeftTrueLabel(c.op, c.left, c.right, t), LeftFalseLabel(c.op, c.left, c.right, f),
                       LeftRoute(c.op, c.left, st, p.env, stk))
  {
    hide Goto, LabelIndex;
    LinkedParts(c, st, p.env, stk, p.code);
    var first := LeftRoute(c.op, c.left, st, p.env, stk);
    if first.Routed? {
      GotoNowhere(p, ShortLabel(c.right.id), first.store, first.stack);
    }
  }

  lemma GotoNowhere(p: Program, l: Label, st: Store, stk: Stack)
    ensures LabelInstr(l) !in p.code ==> Goto(p, LabelOp(l), st, stk) == Stuck
  {
  }

  // By falling through or by jumping to its own label, the right operand is entered.
  lemma EntersRight(
      p: Program, k: int, op: LogicOp, l: Cond, r: Cond, t: Label, f: Label, st: Store, stk: Stack, first: Route)
    requires UniqueLabels(p.code)
    requires At(p.code, k + |LeftCode(op, l, r, t, f)|, SelfLabel(op, l, r))
    requires first.Routed? && GoesRight(op, l, r, first.exit)
    requires Reaches(p, Running(k, st, stk),
                     RouteState(p, k + |LeftCode(op, l, r, t, f)|, LeftTrueLabel(op, l, r, t), LeftFalseLabel(op, l, r, f),
                                first))
    ensures Reaches(p, Running(k, st, stk),
                    Running(k + |LeftCode(op, l, r, t, f)| + |SelfLabel(op, l, r)|, first.store, first.stack))
  {
    hide Reaches, Step, Run, At, LeftCode;
    var at, sc := k + |LeftCode(op, l, r, t, f)|, SelfLabel(op, l, r);
    if sc != [] {
      AtHead(p.code, at, sc);
      LabelFound(p.code, at, ShortLabel(r.id));
      LabelReaches(p, at, first.store, first.stack, ShortLabel(r.id));
      ReachesTrans(p, Running(k, st, stk), Running(at, first.store, first.stack), Running(at + 1, first.store, first.stack));
    }
  }
}
