// Lowering of value expressions to the hybrid stack machine.

module LowerExpr {
  import opened Ir
  import opened Machine
  import opened Ast

  function Opcode(op: BinOp): Op {
    match op
    case Plus => Add
    case Minus => Sub
    case Times => Mul
    case Over => Div
    case BitAnd => And
    case BitOr => Or
    case ShiftRight => Shr
    case ShiftLeft => Shl
  }

  // The comparison that yields a value, as written or inverted.
  function CompareOpcode(op: CmpOp, invert: bool): Op {
    match op
    case Lt => if invert then CmpGtEq else CmpLt
    case Gt => if invert then CmpLtEq else CmpGt
    case LtEq => if invert then CmpGt else CmpLtEq
    case GtEq => if invert then CmpLt else CmpGtEq
    case Eq => if invert then CmpNeq else CmpEq
    case Neq => if invert then CmpEq else CmpNeq
  }

  // What is pushed on the operand stack of the generator.
  function ExprOperand(e: Expr): Operand {
    match e
    case IntLit(v, ty) => IntOp(v, ty)
    case Ident(r) => RefOp(r)
    case Arith(ty, _, _, _) => RefOp(StackPop(ty))
    case Compare(ty, _, _, _) => RefOp(StackPop(ty))
    case Negate(ty, _) => RefOp(StackPop(ty))
    case Not(x) => ExprOperand(x)
    case CallExpr(ty, _, _) => RefOp(StackPop(ty))
  }

  function CompareInstr(ty: TypeId, op: CmpOp, invert: bool, l: Expr, r: Expr): Instr {
    Instr(CompareOpcode(op, invert), ty, [ExprOperand(l), ExprOperand(r)])
  }

  function ExprCode(e: Expr): seq<Instr>
    decreases e
  {
    match e
    case IntLit(_, _) => []
    case Ident(_) => []
    case Arith(ty, op, l, r) =>
      ExprCode(l) + (ExprCode(r) + [Instr(Opcode(op), ty, [ExprOperand(l), ExprOperand(r)])])
    case Compare(ty, op, l, r) => ExprCode(l) + (ExprCode(r) + [CompareInstr(ty, op, false, l, r)])
    case Negate(ty, x) => ExprCode(x) + [Instr(Neg, ty, [ExprOperand(x)])]
    case Not(x) =>
      if x.Compare? then
        ExprCode(x.left) + (ExprCode(x.right) + [CompareInstr(x.ty, x.cmp, true, x.left, x.right)])
      else ExprCode(x)
    case CallExpr(ty, f, args) => ArgsCode(args) + [Instr(Call, ty, [LabelOp(f)] + ArgOperands(args))]
  }

  function ArgsCode(es: Exprs): seq<Instr>
    decreases es
  {
    match es
    case NoExprs => []
    case MoreExprs(e, rest) => ExprCode(e) + ArgsCode(rest)
  }

  function ArgOperands(es: Exprs): seq<Operand> {
    match es
    case NoExprs => []
    case MoreExprs(e, rest) => [ExprOperand(e)] + ArgOperands(rest)
  }

  // ----- Simulation -----

  predicate IsPop(o: Operand) {
    o.RefOp? && o.ref.StackPop?
  }

  // The value stack once an expression of value v has been computed.
  function Pushed(e: Expr, v: int, stk: Stack): Stack {
    if IsPop(ExprOperand(e)) then Push(v, stk) else stk
  }

  function PushedAll(es: Exprs, vs: seq<int>, stk: Stack): Stack {
    match es
    case NoExprs => stk
    case MoreExprs(e, rest) => if vs == [] then stk else PushedAll(rest, vs[1..], Pushed(e, vs[0], stk))
  }

  // Running the code of an expression from index k: past the code, with the calls made and
  // the value available through the returned operand, or trapped.
  ghost predicate Computes(p: Program, k: int, size: nat, o: Operand, v: Option<int>, st: Store, made: Store, stk: Stack, after: Stack) {
    match v
    case None => Reaches(p, Running(k, st, stk), Trapped(made))
    case Some(x) =>
      && Reaches(p, Running(k, st, stk), Running(k + size, made, after))
      && Fetch(o, made, after) == Got(x, stk)
  }

  function ValueOr0(v: Option<int>): int {
    if v.Some? then v.value else 0
  }

  function AfterExpr(e: Expr, st: Store, env: Env, stk: Stack): Stack {
    Pushed(e, ValueOr0(Eval(e, st, env)), stk)
  }

  // Fetching looks at the places only.
  lemma FetchVars(o: Operand, st: Store, st': Store, stk: Stack)
    requires st.vars == st'.vars
    ensures Fetch(o, st, stk) == Fetch(o, st', stk)
  {
  }

  /**
   * The code of a value expression makes the calls of the expression, leaves the places
   * alone and adds at most one value to the stack; the returned operand then fetches
   * exactly the source value and restores the stack. A trapping expression traps.
   */
  lemma {:induction false} ExprCorrect(p: Program, k: int, e: Expr, st: Store, stk: Stack)
    requires Pure(e) && At(p.code, k, ExprCode(e))
    ensures Computes(p, k, |ExprCode(e)|, ExprOperand(e), Eval(e, st, p.env), st, Ran(e, st, p.env), stk,
                     AfterExpr(e, st, p.env, stk))
    decreases e, 3
  {
    hide Reaches, Step, Run;
    match e
    case IntLit(_, _) => ReachesSelf(p, Running(k, st, stk));
    case Ident(_) => ReachesSelf(p, Running(k, st, stk));
    case Arith(_, _, _, _) => ArithCorrect(p, k, e, st, stk);
    case Compare(_, _, _, _) => CompareCorrect(p, k, e, e, false, st, stk);
    case Not(_) => NotCorrect(p, k, e, st, stk);
    case Negate(_, _) => NegateCorrect(p, k, e, st, stk);
    case CallExpr(_, _, _) => CallCorrect(p, k, e, st, stk);
  }

  lemma {:induction false} ArithCorrect(p: Program, k: int, e: Expr, st: Store, stk: Stack)
    requires e.Arith? && Pure(e) && At(p.code, k, ExprCode(e))
    ensures var made := Ran(e, st, p.env);
            match Eval(e, st, p.env)
            case None => Reaches(p, Running(k, st, stk), Trapped(made))
            case Some(v) => Reaches(p, Running(k, st, stk), Running(k + |ExprCode(e)|, made, Push(v, stk)))
    decreases e, 1
  {
    hide Reaches;
    BinaryCorrect(p, k, e, e.left, e.right, Instr(Opcode(e.op), e.ty, [ExprOperand(e.left), ExprOperand(e.right)]), st, stk);
  }

  // A comparison used as a value: 1 or 0, negated when inverted.
  lemma {:induction false} CompareCorrect(p: Program, k: int, e: Expr, x: Expr, invert: bool, st: Store, stk: Stack)
    requires x.Compare? && x.left < e && x.right < e && Pure(x.left) && Pure(x.right)
    requires At(p.code, k, ExprCode(x.left) + (ExprCode(x.right) + [CompareInstr(x.ty, x.cmp, invert, x.left, x.right)]))
    ensures var size, made := |ExprCode(x.left)| + |ExprCode(x.right)| + 1, Ran(x, st, p.env);
            match Eval(x, st, p.env)
            case None => Reaches(p, Running(k, st, stk), Trapped(made))
            case Some(v) =>
              && (v == 0 || v == 1)
              && Reaches(p, Running(k, st, stk), Running(k + size, made, Push(if invert then 1 - v else v, stk)))
    decreases e, 1
  {
    BinaryCorrect(p, k, e, x.left, x.right, CompareInstr(x.ty, x.cmp, invert, x.left, x.right), st, stk);
  }

  lemma {:induction false} NotCorrect(p: Program, k: int, e: Expr, st: Store, stk: Stack)
    requires e.Not? && Pure(e) && At(p.code, k, ExprCode(e))
    ensures var made := Ran(e, st, p.env);
            match Eval(e, st, p.env)
            case None => Reaches(p, Running(k, st, stk), Trapped(made))
            case Some(v) => Reaches(p, Running(k, st, stk), Running(k + |ExprCode(e)|, made, Push(v, stk)))
    ensures IsPop(ExprOperand(e))
    decreases e, 2
  {
    CompareCorrect(p, k, e, e.arg, true, st, stk);
  }

  lemma {:induction false} NegateCorrect(p: Program, k: int, e: Expr, st: Store, stk: Stack)
    requires e.Negate? && Pure(e) && At(p.code, k, ExprCode(e))
    ensures var made := Ran(e, st, p.env);
            match Eval(e, st, p.env)
            case None => Reaches(p, Running(k, st, stk), Trapped(made))
            case Some(v) => Reaches(p, Running(k, st, stk), Running(k + |ExprCode(e)|, made, Push(v, stk)))
    decreases e, 1
  {
    hide Reaches, Step, Run;
    var x := e.arg;
    var last := [Instr(Neg, e.ty, [ExprOperand(x)])];
    AtSplit(p.code, k, ExprCode(x), last);
    AtHead(p.code, k + |ExprCode(x)|, last);
    ExprCorrect(p, k, x, st, stk);
    if Eval(x, st, p.env).Some? {
      var s := Running(k + |ExprCode(x)|, Ran(x, st, p.env), AfterExpr(x, st, p.env, stk));
      NegStep(p, s, last[0], Eval(x, st, p.env).value, stk);
      ReachesTrans(p, Running(k, st, stk), s, Negated(p, s.pc, s.store, Eval(x, st, p.env).value, stk));
    }
  }

  function Negated(p: Program, pc: int, st: Store, a: int, stk: Stack): State {
    match p.env.arith(Neg, 0, a)
    case None => Trapped(st)
    case Some(v) => Running(pc + 1, st, Push(v, stk))
  }

  lemma NegStep(p: Program, s: State, i: Instr, a: int, rest: Stack)
    requires CanStep(p, s) && p.code[s.pc] == i && i.op.Neg? && |i.operands| == 1
    requires Fetch(i.operands[0], s.store, s.stack) == Got(a, rest)
    ensures Reaches(p, s, Negated(p, s.pc, s.store, a, rest))
  {
    ReachesStep(p, s);
  }

  lemma {:induction false} CallCorrect(p: Program, k: int, e: Expr, st: Store, stk: Stack)
    requires e.CallExpr? && Pure(e) && At(p.code, k, ExprCode(e))
    ensures var made := Ran(e, st, p.env);
            match Eval(e, st, p.env)
            case None => Reaches(p, Running(k, st, stk), Trapped(made))
            case Some(v) => Reaches(p, Running(k, st, stk), Running(k + |ExprCode(e)|, made, Push(v, stk)))
    decreases e, 1
  {
    hide Reaches, Step, Run;
    var last := [Instr(Call, e.result, [LabelOp(e.callee)] + ArgOperands(e.args))];
    AtSplit(p.code, k, ArgsCode(e.args), last);
    AtHead(p.code, k + |ArgsCode(e.args)|, last);
    ArgsCorrect(p, k, e.args, st, stk);
    var vs := EvalAll(e.args, st, p.env);
    if vs.Some? {
      var s := Running(k + |ArgsCode(e.args)|, RanAll(e.args, st, p.env), PushedAll(e.args, vs.value, stk));
      CallStep(p, s, last[0], e.callee, ArgOperands(e.args), vs.value, stk);
      ReachesTrans(p, Running(k, st, stk), s, Called(p, s.pc, AddCall(s.store, e.callee, vs.value), true, stk));
    }
  }

  // Behind a call that has been made.
  function Called(p: Program, pc: int, made: Store, pushes: bool, stk: Stack): State {
    Running(pc + 1, made, if pushes then Push(p.env.call(made), stk) else stk)
  }

  lemma CallStep(p: Program, s: State, i: Instr, f: Label, args: seq<Operand>, vs: seq<int>, rest: Stack)
    requires CanStep(p, s) && p.code[s.pc] == i && i.op.Call?
    requires i.operands == [LabelOp(f)] + args && FetchAll(args, s.store, s.stack) == Got(vs, rest)
    ensures Reaches(p, s, Called(p, s.pc, AddCall(s.store, f, vs), i.resultType != VoidType, rest))
  {
    hide FetchAll;
    assert i.operands[1..] == args;
    ReachesStep(p, s);
  }

  // The two operands of a binary instruction: computed left to right, fetched right to left.
  lemma {:induction false} OperandsCorrect(p: Program, k: int, e: Expr, l: Expr, r: Expr, last: Instr, st: Store, stk: Stack)
    requires l < e && r < e && Pure(l) && Pure(r) && At(p.code, k, ExprCode(l) + (ExprCode(r) + [last]))
    ensures p.code[k + |ExprCode(l)| + |ExprCode(r)|] == last
    ensures var st1 := Ran(l, st, p.env);
            match Eval(l, st, p.env)
            case None => Reaches(p, Running(k, st, stk), Trapped(st1))
            case Some(a) =>
              var st2 := Ran(r, st1, p.env);
              match Eval(r, st1, p.env)
              case None => Reaches(p, Running(k, st, stk), Trapped(st2))
              case Some(b) =>
                var s := Running(k + |ExprCode(l)| + |ExprCode(r)|, st2, Pushed(r, b, Pushed(l, a, stk)));
                && Reaches(p, Running(k, st, stk), s)
                && Fetch2(ExprOperand(l), ExprOperand(r), st2, s.stack) == Got((a, b), stk)
    decreases e, 0, 0
  {
    hide ExprCode, Eval, Ran, Reaches, At, Step, Run;
    AtSplit(p.code, k, ExprCode(l), ExprCode(r) + [last]);
    AtSplit(p.code, k + |ExprCode(l)|, ExprCode(r), [last]);
    AtHead(p.code, k + |ExprCode(l)| + |ExprCode(r)|, [last]);
    ExprCorrect(p, k, l, st, stk);
    if Eval(l, st, p.env).Some? {
      var s1 := Running(k + |ExprCode(l)|, Ran(l, st, p.env), AfterExpr(l, st, p.env, stk));
      ExprCorrect(p, s1.pc, r, s1.store, s1.stack);
      var st2 := Ran(r, s1.store, p.env);
      if Eval(r, s1.store, p.env).Some? {
        RanVars(r, s1.store, p.env);
        FetchVars(ExprOperand(l), s1.store, st2, s1.stack);
        ReachesTrans(p, Running(k, st, stk), s1, Running(s1.pc + |ExprCode(r)|, st2, AfterExpr(r, s1.store, p.env, s1.stack)));
      } else {
        ReachesTrans(p, Running(k, st, stk), s1, Trapped(st2));
      }
    }
  }

  lemma {:induction false} BinaryCorrect(p: Program, k: int, e: Expr, l: Expr, r: Expr, last: Instr, st: Store, stk: Stack)
    requires l < e && r < e && Pure(l) && Pure(r) && At(p.code, k, ExprCode(l) + (ExprCode(r) + [last]))
    requires last.operands == [ExprOperand(l), ExprOperand(r)] && (IsArith2(last.op) || IsCompare(last.op))
    ensures var st1 := Ran(l, st, p.env);
            match Eval(l, st, p.env)
            case None => Reaches(p, Running(k, st, stk), Trapped(st1))
            case Some(a) =>
              var st2 := Ran(r, st1, p.env);
              match Eval(r, st1, p.env)
              case None => Reaches(p, Running(k, st, stk), Trapped(st2))
              case Some(b) =>
                match if IsCompare(last.op) then Some(Bit(Holds(last.op, a, b))) else p.env.arith(last.op, a, b)
                case None => Reaches(p, Running(k, st, stk), Trapped(st2))
                case Some(v) =>
                  Reaches(p, Running(k, st, stk), Running(k + |ExprCode(l)| + |ExprCode(r)| + 1, st2, Push(v, stk)))
    decreases e, 0, 1
  {
    hide Eval, Ran, ExprCode;
    OperandsCorrect(p, k, e, l, r, last, st, stk);
    var st1 := Ran(l, st, p.env);
    if Eval(l, st, p.env).Some? && Eval(r, st1, p.env).Some? {
      var a, b := Eval(l, st, p.env).value, Eval(r, st1, p.env).value;
      var s := Running(k + |ExprCode(l)| + |ExprCode(r)|, Ran(r, st1, p.env), Pushed(r, b, Pushed(l, a, stk)));
      ReachesStep(p, s);
      ReachesTrans(p, Running(k, st, stk), s, Step(p, s));
    }
  }

  lemma {:induction false} ArgsCorrect(p: Program, k: int, es: Exprs, st: Store, stk: Stack)
    requires PureAll(es) && At(p.code, k, ArgsCode(es))
    ensures var made := RanAll(es, st, p.env);
            match EvalAll(es, st, p.env)
            case None => Reaches(p, Running(k, st, stk), Trapped(made))
            case Some(vs) =>
              && Reaches(p, Running(k, st, stk), Running(k + |ArgsCode(es)|, made, PushedAll(es, vs, stk)))
              && FetchAll(ArgOperands(es), made, PushedAll(es, vs, stk)) == Got(vs, stk)
    decreases es
  {
    hide Reaches, Step, Run, Fetch;
    match es
    case NoExprs => ReachesSelf(p, Running(k, st, stk));
    case MoreExprs(e, rest) =>
      AtSplit(p.code, k, ExprCode(e), ArgsCode(rest));
      ExprCorrect(p, k, e, st, stk);
      var v := Eval(e, st, p.env);
      if v.Some? {
        var s := Running(k + |ExprCode(e)|, Ran(e, st, p.env), AfterExpr(e, st, p.env, stk));
        ArgsCorrect(p, s.pc, rest, s.store, s.stack);
        var vs, made := EvalAll(rest, s.store, p.env), RanAll(rest, s.store, p.env);
        assert ArgOperands(es)[1..] == ArgOperands(rest);
        if vs.Some? {
          assert ([v.value] + vs.value)[1..] == vs.value;
          RanAllVars(rest, s.store, p.env);
          FetchVars(ExprOperand(e), s.store, made, s.stack);
          ReachesTrans(p, Running(k, st, stk), s, Running(s.pc + |ArgsCode(rest)|, made, PushedAll(rest, vs.value, s.stack)));
        } else {
          ReachesTrans(p, Running(k, st, stk), s, Trapped(made));
        }
      }
  }

  // What the code of !x really delivers for a value expression x.
  function BangValue(x: Expr, v: int): int {
    if x.Compare? then Bit(v == 0) else v
  }

  /**
   * ! in value position inverts a comparison; on any other operand it emits the
   * operand unchanged. The delivered value is the negation exactly for comparisons.
   */
  lemma NotExact(p: Program, k: int, x: Expr, v: int, st: Store, stk: Stack)
    requires Pure(x) && At(p.code, k, ExprCode(Not(x))) && Eval(x, st, p.env) == Some(v)
    ensures Computes(p, k, |ExprCode(Not(x))|, ExprOperand(Not(x)), Some(BangValue(x, v)), st, Ran(x, st, p.env), stk,
                     Pushed(x, BangValue(x, v), stk))
    ensures Some(BangValue(x, v)) == Eval(Not(x), st, p.env) <==> x.Compare?
  {
    if x.Compare? {
      ExprCorrect(p, k, Not(x), st, stk);
    } else {
      ExprCorrect(p, k, x, st, stk);
    }
  }

  // ! written n times.
  function Bangs(n: nat, x: Expr): Expr {
    if n == 0 then x else Not(Bangs(n - 1, x))
  }

  lemma {:induction false} BangsMean(n: nat, x: Expr, st: Store, env: Env)
    requires x.Compare?
    ensures n > 0 ==> ExprCode(Bangs(n, x)) == ExprCode(Not(x))
    ensures Ran(Bangs(n, x), st, env) == Ran(x, st, env)
    ensures match Eval(x, st, env)
            case None => Eval(Bangs(n, x), st, env) == None
            case Some(v) => Eval(Bangs(n, x), st, env) == Some(if n % 2 == 0 then v else 1 - v)
    decreases n
  {
    if n > 0 {
      BangsMean(n - 1, x, st, env);
    }
  }

  /** However often ! is written in front of a comparison, the code negates it once: right for an odd number only. */
  lemma BangsExact(p: Program, k: int, n: nat, x: Expr, v: int, st: Store, stk: Stack)
    requires n > 0 && x.Compare? && Pure(x) && At(p.code, k, ExprCode(Bangs(n, x))) && Eval(x, st, p.env) == Some(v)
    ensures Reaches(p, Running(k, st, stk), Running(k + |ExprCode(Bangs(n, x))|, Ran(x, st, p.env), Push(1 - v, stk)))
    ensures Eval(Bangs(n, x), st, p.env) == Some(1 - v) <==> n % 2 == 1
  {
    hide ExprCode, Reaches;
    BangsMean(n, x, st, p.env);
    BangsMean(1, x, st, p.env);
    assert Bangs(1, x) == Not(x);
    NotCorrect(p, k, Not(x), st, stk);
  }
}
