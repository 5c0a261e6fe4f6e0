// The height of the value stack: known before every instruction of lowered code, and the
// same in every run as the allocator computes it.

module StackHeight {
  import opened Ir
  import opened Machine
  import opened Ast
  import opened LowerExpr
  import opened LowerCond
  import opened CondExact
  import opened LowerStmt
  import opened StmtCorrect
  import opened Optimizer
  import opened Destinations

  predicate IsFlow(i: Instr) {
    i.op.MakeLabel? || i.op.Jmp? || i.op.Return? || IsCondJump(i.op)
  }

  // Operands that are not fetched name no stack value.
  predicate Proper(i: Instr) {
    && (i.op.MakeLabel? || i.op.Jmp? || i.op.StackDup? ==> Consumption(i) == 0)
    && (IsCondJump(i.op) && |i.operands| == 3 ==> i.operands[2].LabelOp?)
  }

  // The height after an instruction; labels and jumps must leave the stack empty.
  function After(h: nat, i: Instr): Option<nat> {
    if Proper(i) && Consumption(i) <= h && (IsFlow(i) ==> Consumption(i) == h)
    then Some(h - Consumption(i) + (if PushesToStack(i) then 1 else 0)) else None
  }

  function Over(c: seq<Instr>, h: nat): Option<nat>
    decreases |c|
  {
    if c == [] then Some(h)
    else match After(h, c[0]) case None => None case Some(h') => Over(c[1..], h')
  }

  lemma {:induction false} OverJoin(a: seq<Instr>, b: seq<Instr>, h: nat)
    requires Over(a, h).Some?
    ensures Over(a + b, h) == Over(b, Over(a, h).value)
    decreases |a|
  {
    hide After;
    if a == [] {
      assert a + b == b;
    } else {
      assert (a + b)[1..] == a[1..] + b;
      OverJoin(a[1..], b, After(h, a[0]).value);
    }
  }

  lemma {:induction false} OverPrefix(a: seq<Instr>, b: seq<Instr>, h: nat)
    requires Over(a + b, h).Some?
    ensures Over(a, h).Some?
    decreases |a|
  {
    hide After;
    if a != [] {
      assert (a + b)[1..] == a[1..] + b;
      OverPrefix(a[1..], b, After(h, a[0]).value);
    }
  }

  lemma OverOne(i: Instr, h: nat)
    ensures Over([i], h) == After(h, i)
  {
    hide After;
    assert [i][1..] == [];
  }

  /** Code that starts with an empty stack, never pops from an empty one, and branches with an empty one. */
  predicate Level(c: seq<Instr>) {
    Over(c, 0).Some?
  }

  function HeightAt(c: seq<Instr>, pc: nat): nat
    requires Level(c) && pc <= |c|
  {
    assert c == c[..pc] + c[pc..];
    OverPrefix(c[..pc], c[pc..], 0);
    Over(c[..pc], 0).value
  }

  lemma HeightNext(c: seq<Instr>, pc: nat)
    requires Level(c) && pc < |c|
    ensures After(HeightAt(c, pc), c[pc]) == Some(HeightAt(c, pc + 1))
  {
    hide After;
    assert c == c[..pc] + c[pc..] && c == c[..pc + 1] + c[pc + 1..] && c[..pc + 1] == c[..pc] + [c[pc]];
    OverPrefix(c[..pc], c[pc..], 0);
    OverPrefix(c[..pc + 1], c[pc + 1..], 0);
    OverJoin(c[..pc], [c[pc]], 0);
    OverOne(c[pc], HeightAt(c, pc));
  }

  // ----- Against the allocator's list of pending values -----

  lemma {:induction false} HeightPending(c: seq<Instr>, i: nat)
    requires Level(c) && i <= |c|
    ensures |Pending(c, i)| == HeightAt(c, i)
    ensures i < |c| ==> Consumption(c[i]) <= |Pending(c, i)|
    decreases i
  {
    hide PushesToStack, Consumption, HeightAt;
    if i > 0 {
      HeightPending(c, i - 1);
      HeightNext(c, i - 1);
    } else {
      HeightStart(c);
    }
    if i < |c| {
      HeightNext(c, i);
    }
  }

  lemma HeightStart(c: seq<Instr>)
    requires Level(c)
    ensures HeightAt(c, 0) == 0
  {
    assert c[..0] == [];
  }

  lemma LevelNeverUnderflows(c: seq<Instr>)
    requires Level(c)
    ensures NeverUnderflows(c)
  {
    hide Consumption, Pending;
    forall i | 0 <= i < |c|
      ensures Consumption(c[i]) <= |Pending(c, i)|
    {
      HeightPending(c, i);
    }
  }

  // ----- Against the runs of the machine -----

  function Size(s: Stack): nat {
    if s.Empty? then 0 else 1 + Size(s.rest)
  }

  lemma FetchSize(o: Operand, st: Store, stk: Stack)
    ensures var f := Fetch(o, st, stk); f.Got? ==> Size(stk) == Size(f.stack) + OperandConsumption(o)
  {
    if o.RefOp? {
      RefTakes(o);
    }
  }

  lemma {:induction false} FetchAllSize(os: seq<Operand>, st: Store, stk: Stack)
    ensures var f := FetchAll(os, st, stk); f.Got? ==> Size(stk) == Size(f.stack) + OperandsConsumption(os)
  {
    if os != [] {
      FetchAllSize(os[1..], st, stk);
      var f := FetchAll(os[1..], st, stk);
      if f.Got? {
        FetchSize(os[0], st, f.stack);
      }
    }
  }

  lemma PeekSize(o: Operand, st: Store, stk: Stack)
    ensures var f := Peek(o, st, stk); f.Got? ==> Size(stk) == Size(f.stack) + OperandConsumption(o)
  {
    if o.RefOp? {
      RefTakes(o);
    }
  }

  lemma {:induction false} PeekAllSize(os: seq<Operand>, st: Store, stk: Stack)
    ensures var f := PeekAll(os, st, stk); f.Got? ==> Size(stk) == Size(f.stack) + OperandsConsumption(os)
    decreases |os|
  {
    hide Peek, OperandConsumption;
    if os != [] {
      PeekAllSize(os[1..], st, stk);
      var f := PeekAll(os[1..], st, stk);
      if f.Got? {
        PeekSize(os[0], st, f.stack);
      }
    }
  }

  lemma {:induction false} DropSize(n: nat, stk: Stack)
    ensures var f := Drop(n, stk); f.Got? ==> Size(stk) == Size(f.stack) + n
    decreases n
  {
    if n > 0 && stk.Push? {
      DropSize(n - 1, stk.rest);
    }
  }

  lemma ConsumptionUpTo3(os: seq<Operand>)
    requires 0 < |os| <= 3
    ensures OperandsConsumption(os) == OperandConsumption(os[0])
            + (if |os| > 1 then OperandConsumption(os[1]) else 0) + (if |os| > 2 then OperandConsumption(os[2]) else 0)
  {
    assert OperandsConsumption(os[1..]) == if |os| > 1 then OperandConsumption(os[1]) + OperandsConsumption(os[1..][1..]) else 0;
  }

  // A step that goes on pops what the instruction consumes and pushes its result.
  ghost predicate Sized(p: Program, s: State)
    requires CanStep(p, s)
  {
    var i, t := p.code[s.pc], Step(p, s);
    t.Running? ==> Size(s.stack) + (if PushesToStack(i) then 1 else 0) == Size(t.stack) + Consumption(i)
  }

  lemma PairStepSize(p: Program, s: State)
    requires CanStep(p, s) && Proper(p.code[s.pc])
    requires var op := p.code[s.pc].op; IsArith2(op) || IsCompare(op) || IsCondJump(op)
    ensures Sized(p, s)
  {
    hide OperandConsumption, OperandsConsumption;
    var os := p.code[s.pc].operands;
    PairSize(os, s.store, s.stack);
    if 0 < |os| <= 3 {
      ConsumptionUpTo3(os);
      LabelTakesNothing(os);
    }
  }

  lemma LabelTakesNothing(os: seq<Operand>)
    ensures forall k :: 0 <= k < |os| && os[k].LabelOp? ==> OperandConsumption(os[k]) == 0
  {
  }

  lemma StepSize(p: Program, s: State)
    requires CanStep(p, s) && Proper(p.code[s.pc])
    ensures Sized(p, s)
  {
    var i := p.code[s.pc];
    var os := i.operands;
    if IsArith2(i.op) || IsCompare(i.op) || IsCondJump(i.op) {
      PairStepSize(p, s);
    } else if IsAccess(i.op) || WritesMemory(i) {
      hide Peek, PeekAll;
      PeekAllSize(os, s.store, s.stack);
      PeekAllSize(os, NOTHING, s.stack);
    } else {
      hide Consumption;
      OtherStepSize(p, s);
    }
  }

  lemma OtherStepSize(p: Program, s: State)
    requires CanStep(p, s) && Proper(p.code[s.pc])
    requires var op := p.code[s.pc].op; !IsArith2(op) && !IsCompare(op) && !IsCondJump(op) && !IsAccess(op)
    requires !WritesMemory(p.code[s.pc])
    ensures Sized(p, s)
  {
    hide OperandConsumption, OperandsConsumption;
    var i := p.code[s.pc];
    var os := i.operands;
    if 0 < |os| <= 2 {
      ConsumptionUpTo3(os);
      FetchSize(os[|os| - 1], s.store, s.stack);
    }
    if i.op.Call? && |os| > 0 && os[0].LabelOp? {
      FetchAllSize(os[1..], s.store, s.stack);
      CallConsumption(os);
    } else if i.op.Noop? {
      DropSize(Consumption(i), s.stack);
    } else if i.op.Load? && |os| == 2 {
      PlainTakesNothing(os[0]);
    }
  }

  lemma CallConsumption(os: seq<Operand>)
    requires os != [] && os[0].LabelOp?
    ensures OperandsConsumption(os) == OperandsConsumption(os[1..])
  {
  }

  lemma PlainTakesNothing(o: Operand)
    ensures o.RefOp? && Plain(o.ref) ==> OperandConsumption(o) == 0
  {
    if o.RefOp? {
      RefTakes(o);
    }
  }

  lemma PairSize(os: seq<Operand>, st: Store, stk: Stack)
    ensures |os| >= 2 ==>
              var f := Fetch2(os[0], os[1], st, stk);
              f.Got? ==> Size(stk) == Size(f.stack) + OperandConsumption(os[0]) + OperandConsumption(os[1])
  {
    if |os| >= 2 {
      FetchSize(os[1], st, stk);
      var f := Fetch(os[1], st, stk);
      if f.Got? {
        FetchSize(os[0], st, f.stack);
      }
    }
  }

  // Only an instruction that branches leaves the sequence.
  lemma StepBranches(p: Program, s: State)
    requires CanStep(p, s) && Step(p, s).Running? && Step(p, s).pc != s.pc + 1
    ensures 0 <= Step(p, s).pc < |p.code| && p.code[Step(p, s).pc].op.MakeLabel?
    ensures IsFlow(p.code[s.pc]) && !PushesToStack(p.code[s.pc])
  {
  }

  lemma LabelLevel(c: seq<Instr>, pc: nat)
    requires Level(c) && pc < |c| && c[pc].op.MakeLabel?
    ensures HeightAt(c, pc) == 0
  {
    HeightNext(c, pc);
  }

  lemma StepStays(p: Program, s: State, base: nat)
    requires Level(p.code) && CanStep(p, s) && Step(p, s).Running?
    requires Size(s.stack) == base + HeightAt(p.code, s.pc)
    ensures var t := Step(p, s);
            0 <= t.pc <= |p.code| && Size(t.stack) == base + HeightAt(p.code, t.pc)
  {
    hide Step, HeightAt, PushesToStack, Consumption, Level;
    HeightNext(p.code, s.pc);
    StepSize(p, s);
    if Step(p, s).pc != s.pc + 1 {
      StepBranches(p, s);
      LabelLevel(p.code, Step(p, s).pc);
    }
  }

  lemma {:induction false} RunStays(p: Program, s: State, base: nat, n: nat)
    requires Level(p.code) && s.Running? && 0 <= s.pc <= |p.code| && Size(s.stack) == base + HeightAt(p.code, s.pc)
    ensures var t := Run(p, s, n);
            t.Running? ==> 0 <= t.pc <= |p.code| && Size(t.stack) == base + HeightAt(p.code, t.pc)
    decreases n
  {
    hide Step, HeightAt, Level;
    if n > 0 && CanStep(p, s) {
      var t := Step(p, s);
      if t.Running? {
        StepStays(p, s, base);
        RunStays(p, t, base, n - 1);
      }
    }
  }

  /**
   * In every run of level code the stack is, at every moment, as high above its start
   * as the list of pending values that the allocator computes for that instruction.
   */
  lemma RunHeights(p: Program, st: Store, stk: Stack, n: nat)
    requires Level(p.code)
    ensures var t := Run(p, Running(0, st, stk), n);
            t.Running? ==> 0 <= t.pc <= |p.code| && Size(t.stack) == Size(stk) + |Pending(p.code, t.pc)|
  {
    hide Run, HeightAt, Level, Pending;
    HeightStart(p.code);
    RunStays(p, Running(0, st, stk), Size(stk), n);
    var t := Run(p, Running(0, st, stk), n);
    if t.Running? {
      HeightPending(p.code, t.pc);
    }
  }

  // ----- Lowered code is level -----

  predicate Balanced(c: seq<Instr>) {
    Over(c, 0) == Some(0)
  }

  lemma BalancedJoin(a: seq<Instr>, b: seq<Instr>)
    requires Balanced(a) && Balanced(b)
    ensures Balanced(a + b)
  {
    OverJoin(a, b, 0);
  }

  lemma BalancedJoin5(a: seq<Instr>, b: seq<Instr>, c: seq<Instr>, d: seq<Instr>, e: seq<Instr>)
    requires Balanced(a) && Balanced(b) && Balanced(c) && Balanced(d) && Balanced(e)
    ensures Balanced(a + (b + (c + (d + e))))
  {
    hide Balanced;
    BalancedJoin(d, e);
    BalancedJoin(c, d + e);
    BalancedJoin(b, c + (d + e));
    BalancedJoin(a, b + (c + (d + e)));
  }

  // How many stack values the operand of an expression takes.
  function Uses(e: Expr): nat {
    if IsPop(ExprOperand(e)) then 1 else 0
  }

  lemma ExprUses(e: Expr)
    requires Pure(e)
    ensures OperandConsumption(ExprOperand(e)) == Uses(e)
  {
    PopOrPlain(e);
  }

  function AllUses(es: Exprs): nat {
    match es
    case NoExprs => 0
    case MoreExprs(e, rest) => Uses(e) + AllUses(rest)
  }

  lemma {:induction false} ExprHeight(e: Expr, h: nat)
    requires Pure(e)
    ensures Over(ExprCode(e), h) == Some(h + Uses(e))
    decreases e
  {
    hide After, Over, PushesToStack, Proper, CompareInstr, Opcode;
    match e
    case IntLit(_, _) => NoCode(h);
    case Ident(_) => NoCode(h);
    case Arith(ty, op, l, r) =>
      ExprHeight(l, h);
      ExprHeight(r, h + Uses(l));
      ArithHeight(ty, op, l, r, h);
    case Compare(ty, op, l, r) =>
      ExprHeight(l, h);
      ExprHeight(r, h + Uses(l));
      CompareHeight(ty, op, false, l, r, h);
    case Negate(ty, x) =>
      ExprHeight(x, h);
      NegateHeight(ty, x, h);
    case Not(x) =>
      ExprHeight(x.left, h);
      ExprHeight(x.right, h + Uses(x.left));
      assert Uses(e) == Uses(x) == 1;
      CompareHeight(x.ty, x.cmp, true, x.left, x.right, h);
    case CallExpr(ty, f, args) =>
      ArgsHeight(args, h);
      CallHeight(e, h);
  }

  // The code of both operands, one after the other.
  predicate PairReady(l: Expr, r: Expr, h: nat) {
    && Pure(l) && Pure(r)
    && Over(ExprCode(l), h) == Some(h + Uses(l)) && Over(ExprCode(r), h + Uses(l)) == Some(h + Uses(l) + Uses(r))
  }

  lemma ArithHeight(ty: TypeId, op: BinOp, l: Expr, r: Expr, h: nat)
    requires PairReady(l, r, h)
    ensures Over(ExprCode(l) + (ExprCode(r) + [Instr(Opcode(op), ty, [ExprOperand(l), ExprOperand(r)])]), h) == Some(h + 1)
  {
    hide PairReady;
    PairHeight(l, r, Instr(Opcode(op), ty, [ExprOperand(l), ExprOperand(r)]), h);
  }

  lemma CompareHeight(ty: TypeId, op: CmpOp, invert: bool, l: Expr, r: Expr, h: nat)
    requires PairReady(l, r, h)
    ensures Over(ExprCode(l) + (ExprCode(r) + [CompareInstr(ty, op, invert, l, r)]), h) == Some(h + 1)
  {
    hide PairReady;
    PairHeight(l, r, CompareInstr(ty, op, invert, l, r), h);
  }

  lemma NegateHeight(ty: TypeId, x: Expr, h: nat)
    requires Pure(x) && Over(ExprCode(x), h) == Some(h + Uses(x))
    ensures Over(ExprCode(x) + [Instr(Neg, ty, [ExprOperand(x)])], h) == Some(h + 1)
  {
    hide ExprCode, Over, Pure;
    UseHeight(x, Instr(Neg, ty, [ExprOperand(x)]), h);
  }

  lemma NoCode(h: nat)
    ensures Over([], h) == Some(h)
  {
  }

  // An instruction behind the code of its two operands, or of its one operand.
  lemma PairHeight(l: Expr, r: Expr, i: Instr, h: nat)
    requires PairReady(l, r, h) && i.operands == [ExprOperand(l), ExprOperand(r)]
    requires PushesToStack(i) && !i.op.StackDup? && !IsFlow(i)
    ensures Over(ExprCode(l) + (ExprCode(r) + [i]), h) == Some(h + 1)
  {
    hide ExprCode, Over, Pure, PushesToStack;
    ExprUses(l);
    ExprUses(r);
    ConsumptionUpTo3(i.operands);
    OverOne(i, h + Uses(l) + Uses(r));
    OverJoin(ExprCode(r), [i], h + Uses(l));
    OverJoin(ExprCode(l), ExprCode(r) + [i], h);
  }

  lemma UseHeight(e: Expr, i: Instr, h: nat)
    requires Pure(e) && i.operands == [ExprOperand(e)] && (IsFlow(i) ==> h == 0) && Proper(i)
    requires Over(ExprCode(e), h) == Some(h + Uses(e))
    ensures Over(ExprCode(e) + [i], h) == Some(h + (if PushesToStack(i) then 1 else 0))
  {
    hide ExprCode, Over, Pure, PushesToStack;
    ExprUses(e);
    ConsumptionUpTo3(i.operands);
    OverOne(i, h + Uses(e));
    OverJoin(ExprCode(e), [i], h);
  }

  lemma {:induction false} ArgsHeight(es: Exprs, h: nat)
    requires PureAll(es)
    ensures Over(ArgsCode(es), h) == Some(h + AllUses(es))
    ensures OperandsConsumption(ArgOperands(es)) == AllUses(es)
    decreases es
  {
    hide After, Over, ExprCode;
    match es
    case NoExprs => NoCode(h);
    case MoreExprs(e, rest) =>
      ExprHeight(e, h);
      ExprUses(e);
      ArgsHeight(rest, h + Uses(e));
      OverJoin(ExprCode(e), ArgsCode(rest), h);
      assert ArgOperands(es)[1..] == ArgOperands(rest);
  }

  lemma CallHeight(e: Expr, h: nat)
    requires e.CallExpr? && Pure(e) && Over(ArgsCode(e.args), h) == Some(h + AllUses(e.args))
    requires OperandsConsumption(ArgOperands(e.args)) == AllUses(e.args)
    ensures Over(ExprCode(e), h) == Some(h + 1)
  {
    hide Over, ArgsCode, ArgOperands;
    var i := Instr(Call, e.result, [LabelOp(e.callee)] + ArgOperands(e.args));
    assert i.operands[1..] == ArgOperands(e.args);
    OverOne(i, h + AllUses(e.args));
    OverJoin(ArgsCode(e.args), [i], h);
  }

  lemma CmpJumpBalanced(c: Cond, invert: bool, target: Label)
    requires c.Cmp? && PureCond(c)
    ensures Balanced(CmpJump(c, invert, target))
  {
    hide ExprCode, Over, Pure;
    var i := CondJumpInstr(JumpOpcode(c.cmp, invert), ExprOperand(c.a), ExprOperand(c.b), target);
    ExprUses(c.a);
    ExprUses(c.b);
    ExprHeight(c.a, 0);
    ExprHeight(c.b, Uses(c.a));
    ConsumptionUpTo3(i.operands);
    OverOne(i, Uses(c.a) + Uses(c.b));
    OverJoin(ExprCode(c.b), [i], Uses(c.a));
    OverJoin(ExprCode(c.a), ExprCode(c.b) + [i], 0);
  }

  // Labels, jumps and stores that name no stack value.
  predicate Quiet(i: Instr) {
    Consumption(i) == 0 && !PushesToStack(i) && Proper(i)
  }

  lemma {:induction false} QuietHeight(c: seq<Instr>)
    requires forall k :: 0 <= k < |c| ==> Quiet(c[k])
    ensures Balanced(c)
    decreases |c|
  {
    hide PushesToStack, Consumption;
    if c != [] {
      QuietHeight(c[1..]);
    }
  }

  lemma LabelsQuiet(l: Label)
    ensures Quiet(LabelInstr(l)) && Quiet(JumpInstr(l))
    ensures Balanced([LabelInstr(l)]) && Balanced([JumpInstr(l)])
  {
    ConsumptionUpTo3([LabelOp(l)]);
    QuietHeight([LabelInstr(l)]);
    QuietHeight([JumpInstr(l)]);
  }

  // A jump past a label.
  lemma JumpLabelBalanced(j: Label, l: Label)
    ensures Balanced([JumpInstr(j), LabelInstr(l)])
  {
    LabelsQuiet(j);
    LabelsQuiet(l);
    BalancedJoin([JumpInstr(j)], [LabelInstr(l)]);
    assert [JumpInstr(j)] + [LabelInstr(l)] == [JumpInstr(j), LabelInstr(l)];
  }

  lemma {:induction false} CondBalanced(c: Cond, t: Label, f: Label)
    requires PureCond(c) && !Strays(c)
    ensures Balanced(CondCode(c, t, f))
    decreases c
  {
    hide Balanced, CmpJump;
    match c
    case Cmp(_, _, _, _, _) => CmpJumpBalanced(c, true, f);
    case Bang(_, x) =>
      if x.Cmp? {
        CmpJumpBalanced(x, false, f);
      } else {
        CondBalanced(x, f, t);
      }
    case Logic(_, op, l, r) =>
      if l.Cmp? && op.OrOr? {
        CmpJumpBalanced(l, false, t);
      } else {
        CondBalanced(l, LeftTrueLabel(op, l, r, t), LeftFalseLabel(op, l, r, f));
      }
      CondBalanced(r, t, f);
      var self := SelfLabel(op, l, r);
      LabelsQuiet(ShortLabel(r.id));
      QuietHeight([]);
      BalancedJoin(self, CondCode(r, t, f));
      BalancedJoin(LeftCode(op, l, r, t, f), self + CondCode(r, t, f));
  }

  // A store, whatever lies below its value.
  lemma StoreHeight(ty: TypeId, d: Name, e: Expr, h: nat)
    requires Pure(e)
    ensures Over(ExprCode(e) + [StoreInstr(ty, d, e)], h) == Some(h)
  {
    hide ExprCode, Over, Pure;
    var i := StoreInstr(ty, d, e);
    RefTakes(RefOp(d));
    ExprUses(e);
    ExprHeight(e, h);
    ConsumptionUpTo3(i.operands);
    OverOne(i, h + Uses(e));
    OverJoin(ExprCode(e), [i], h);
  }

  lemma CallHeightVoid(f: Label, args: Exprs, h: nat)
    requires PureAll(args)
    ensures Over(ArgsCode(args) + [VoidCall(f, args)], h) == Some(h)
  {
    hide Over, ArgsCode, ArgOperands;
    ArgsHeight(args, h);
    var i := VoidCall(f, args);
    assert i.operands[1..] == ArgOperands(args);
    OverOne(i, h + AllUses(args));
    OverJoin(ArgsCode(args), [i], h);
  }

  // Whatever lies below.
  lemma LaterHeight(ty: TypeId, w: Later, h: nat)
    requires PureLater(w)
    ensures Over(LaterCode(ty, w), h) == Some(h)
  {
    hide Over, ExprCode, ArgsCode;
    match w
    case AssignLater(d, e) => StoreHeight(ty, d, e, h);
    case CallLater(f, args) => CallHeightVoid(f, args, h);
  }

  lemma {:induction false} AssignsHeight(xs: Assigns, h: nat)
    requires PureAssigns(xs)
    ensures Over(AssignsCode(xs), h) == Some(h)
    decreases xs
  {
    hide LaterCode, Over;
    if xs.MoreAssigns? {
      LaterHeight(xs.ty, xs.what, h);
      AssignsHeight(xs.rest, h);
      OverJoin(LaterCode(xs.ty, xs.what), AssignsCode(xs.rest), h);
    } else {
      NoCode(h);
    }
  }

  lemma ReturnBalanced(e: Expr, ty: TypeId, pending: Assigns)
    requires Pure(e) && PureAssigns(pending)
    ensures Balanced(ExprCode(e) + (AssignsCode(pending) + [Instr(Return, ty, [ExprOperand(e)])]))
  {
    hide ExprCode, Over, Pure, PureAssigns;
    var i := Instr(Return, ty, [ExprOperand(e)]);
    ExprUses(e);
    ExprHeight(e, 0);
    AssignsHeight(pending, Uses(e));
    ConsumptionUpTo3(i.operands);
    OverOne(i, Uses(e));
    OverJoin(AssignsCode(pending), [i], Uses(e));
    OverJoin(ExprCode(e), AssignsCode(pending) + [i], 0);
  }

  lemma {:induction false} StmtBalanced(s: Stmt, jumps: bool, ctx: Ctx)
    requires Supported(s, jumps, ctx.pending) && PureAssigns(ctx.pending)
    ensures Balanced(StmtCode(s, ctx))
    decreases s, 1
  {
    hide ExprCode, Balanced, CondCode, AssignsCode, ForTest, ForAdvance, Over;
    match s
    case Assign(d, e) => AssignBalanced(d, e);
    case ExprStmt(e) => DiscardBalanced(e);
    case CallStmt(f, args) => CallStmtBalanced(f, args);
    case If(_, _, _, _) => IfBalanced(s, jumps, ctx);
    case While(id, c, body) =>
      CondBalanced(c, WhileBody(id), WhileEnd(id));
      StmtBalanced(body, true, WhileCtx(id, ctx));
      WhileJoined(id, CondCode(c, WhileBody(id), WhileEnd(id)), StmtCode(body, WhileCtx(id, ctx)));
    case For(id, g, body) =>
      StmtBalanced(body, true, ForCtx(id, ctx));
      ForBalanced(id, g, StmtCode(body, ForCtx(id, ctx)));
    case Block(b) => BlockBalanced(b, NoAssigns, jumps, ctx, true);
    case ReturnStmt(Some(e), ty) => ReturnBalanced(e, ty, ctx.pending);
    case ReturnStmt(None, ty) => PlainReturnBalanced(ty, ctx.pending);
    case Break => JumpBalanced(ctx.brk);
    case Continue => JumpBalanced(ctx.cont);
    case DeferStmt(_) => QuietHeight([]);
  }

  lemma AssignBalanced(d: Name, e: Expr)
    requires Pure(e)
    ensures Balanced(ExprCode(e) + [StoreInstr(NoType, d, e)])
  {
    StoreHeight(NoType, d, e, 0);
  }

  lemma DiscardBalanced(e: Expr)
    requires Pure(e)
    ensures Balanced(ExprCode(e) + [Instr(Noop, VoidType, [ExprOperand(e)])])
  {
    hide ExprCode, Pure;
    ExprHeight(e, 0);
    UseHeight(e, Instr(Noop, VoidType, [ExprOperand(e)]), 0);
  }

  lemma CallStmtBalanced(f: Label, args: Exprs)
    requires PureAll(args)
    ensures Balanced(ArgsCode(args) + [VoidCall(f, args)])
  {
    CallHeightVoid(f, args, 0);
  }

  lemma JumpBalanced(l: Option<Label>)
    ensures Balanced(OptJump(l))
  {
    if l.Some? {
      LabelsQuiet(l.value);
    }
  }

  lemma PlainReturnBalanced(ty: TypeId, pending: Assigns)
    requires PureAssigns(pending)
    ensures Balanced(AssignsCode(pending) + [Instr(Return, ty, [IntOp(0, NoType)])])
  {
    AssignsHeight(pending, 0);
    QuietHeight([Instr(Return, ty, [IntOp(0, NoType)])]);
    BalancedJoin(AssignsCode(pending), [Instr(Return, ty, [IntOp(0, NoType)])]);
  }

  lemma WhileJoined(id: nat, cond: seq<Instr>, body: seq<Instr>)
    requires Balanced(cond) && Balanced(body)
    ensures Balanced([LabelInstr(WhileCond(id))]
                     + (cond + ([LabelInstr(WhileBody(id))] + (body + [JumpInstr(WhileCond(id)), LabelInstr(WhileEnd(id))]))))
  {
    JumpLabelBalanced(WhileCond(id), WhileEnd(id));
    LabelsQuiet(WhileCond(id));
    LabelsQuiet(WhileBody(id));
    BalancedJoin5([LabelInstr(WhileCond(id))], cond, [LabelInstr(WhileBody(id))], body,
                  [JumpInstr(WhileCond(id)), LabelInstr(WhileEnd(id))]);
  }

  lemma {:induction false} IfBalanced(s: Stmt, jumps: bool, ctx: Ctx)
    requires s.If? && Supported(s, jumps, ctx.pending) && PureAssigns(ctx.pending)
    ensures Balanced(StmtCode(s, ctx))
    decreases s, 0
  {
    hide Balanced, CondCode;
    var id := s.id;
    CondBalanced(s.cond, IfBody(id), IfElse(id));
    StmtBalanced(s.thn, jumps, ctx);
    LabelsQuiet(IfBody(id));
    if s.els.Some? {
      StmtBalanced(s.els.value, jumps, ctx);
      var skip, end := [JumpInstr(IfEnd(id)), LabelInstr(IfElse(id))], [LabelInstr(IfEnd(id))];
      JumpLabelBalanced(IfEnd(id), IfElse(id));
      LabelsQuiet(IfEnd(id));
      BalancedJoin(StmtCode(s.els.value, ctx), end);
      BalancedJoin5(CondCode(s.cond, IfBody(id), IfElse(id)), [LabelInstr(IfBody(id))], StmtCode(s.thn, ctx), skip,
                    StmtCode(s.els.value, ctx) + end);
    } else {
      LabelsQuiet(IfElse(id));
      BalancedJoin(StmtCode(s.thn, ctx), [LabelInstr(IfElse(id))]);
      BalancedJoin([LabelInstr(IfBody(id))], StmtCode(s.thn, ctx) + [LabelInstr(IfElse(id))]);
      BalancedJoin(CondCode(s.cond, IfBody(id), IfElse(id)),
                   [LabelInstr(IfBody(id))] + (StmtCode(s.thn, ctx) + [LabelInstr(IfElse(id))]));
    }
  }

  lemma PlainJumpQuiet(op: Op, a: Name, b: Name, l: Label)
    requires IsCondJump(op)
    ensures Quiet(CondJumpInstr(op, RefOp(a), RefOp(b), l))
  {
    hide OperandsConsumption;
    RefTakes(RefOp(a));
    RefTakes(RefOp(b));
    ConsumptionUpTo3([RefOp(a), RefOp(b), LabelOp(l)]);
  }

  lemma SetQuiet(r: Name, v: int)
    ensures Quiet(LoadInstr(r, IntOp(v, Int32Type)))
  {
    hide OperandsConsumption;
    RefTakes(RefOp(r));
    ConsumptionUpTo3([RefOp(r), IntOp(v, Int32Type)]);
  }

  lemma TestQuiet(id: nat, g: Range, i: Instr)
    requires i in ForTest(id, g)
    ensures Quiet(i)
  {
    hide Quiet;
    LabelsQuiet(ForCond(id));
    LabelsQuiet(ForBody(id));
    LabelsQuiet(ForNegative(id));
    PlainJumpQuiet(JmpGtEq, First(g), Second(g), ForNegative(id));
    PlainJumpQuiet(JmpGtEq, g.elem, Second(g), ForEnd(id));
    PlainJumpQuiet(JmpLtEq, g.elem, Second(g), ForEnd(id));
    SetQuiet(g.stepvar, 1);
    SetQuiet(g.stepvar, -1);
  }

  lemma ForTestQuiet(id: nat, g: Range)
    requires PureRange(g)
    ensures Balanced(ForTest(id, g))
  {
    assert Plain(First(g)) && Plain(Second(g));
    forall k | 0 <= k < |ForTest(id, g)|
      ensures Quiet(ForTest(id, g)[k])
    {
      TestQuiet(id, g, ForTest(id, g)[k]);
    }
    QuietHeight(ForTest(id, g));
  }

  lemma AdvanceBalanced(id: nat, g: Range)
    requires PureRange(g)
    ensures Balanced(ForAdvance(id, g) + [LabelInstr(ForEnd(id))])
  {
    hide Balanced;
    var sum := Arith(g.ty, Plus, Ident(g.elem), Ident(g.stepvar));
    assert ExprCode(sum) == [Instr(Add, g.ty, [ElemOp(g), RefOp(g.stepvar)])];
    AssignBalanced(g.elem, sum);
    var tail := [JumpInstr(ForCond(id)), LabelInstr(ForEnd(id))];
    JumpLabelBalanced(ForCond(id), ForEnd(id));
    BalancedJoin(ExprCode(sum) + [StoreInstr(NoType, g.elem, sum)], tail);
    assert ForAdvance(id, g) + [LabelInstr(ForEnd(id))] == (ExprCode(sum) + [StoreInstr(NoType, g.elem, sum)]) + tail;
  }

  lemma ForBalanced(id: nat, g: Range, body: seq<Instr>)
    requires PureRange(g) && Balanced(body)
    ensures Balanced(AssignsCode(RangeAssigns(g))
                     + (ForTest(id, g) + ([LabelInstr(ForBody(id))] + (body + (ForAdvance(id, g) + [LabelInstr(ForEnd(id))])))))
  {
    RangePure(g);
    AssignsHeight(RangeAssigns(g), 0);
    ForTestQuiet(id, g);
    LabelsQuiet(ForBody(id));
    AdvanceBalanced(id, g);
    BalancedJoin5(AssignsCode(RangeAssigns(g)), ForTest(id, g), [LabelInstr(ForBody(id))], body,
                  ForAdvance(id, g) + [LabelInstr(ForEnd(id))]);
  }

  lemma {:induction false} BlockBalanced(b: Stmts, ds: Assigns, jumps: bool, ctx: Ctx, replay: bool)
    requires SupportedAll(b, jumps, ds, ctx.pending) && PureAssigns(ds) && PureAssigns(ctx.pending)
    ensures Balanced(BlockCode(b, ds, ctx, replay))
    decreases b, 0
  {
    hide Balanced, AssignsCode;
    match b
    case NoStmts =>
      ReplayBalanced(ds);
    case MoreStmts(s, rest) =>
      if s.DeferStmt? {
        BlockBalanced(rest, MoreAssigns(NoType, s.what, ds), jumps, ctx, replay);
      } else {
        AppendPure(ds, ctx.pending);
        StmtBalanced(s, jumps && ds.NoAssigns?, Inside(ds, ctx));
        BlockBalanced(rest, ds, jumps, ctx, replay);
        BalancedJoin(StmtCode(s, Inside(ds, ctx)), BlockCode(rest, ds, ctx, replay));
      }
  }

  lemma ReplayBalanced(ds: Assigns)
    requires PureAssigns(ds)
    ensures Balanced(AssignsCode(ds)) && Balanced([])
  {
    AssignsHeight(ds, 0);
    NoCode(0);
  }

  lemma FuncLevel(body: Stmts)
    requires SupportedFunc(body)
    ensures Level(FuncCode(body))
  {
    BlockBalanced(body, NoAssigns, false, TOP, !HasReturns(body));
  }

  /**
   * The destinations chosen for a lowered function never overwrite a pending value, in
   * the plain and in the optimized code, and in every run of either the stack holds
   * exactly the pending values.
   */
  lemma FuncAllocation(body: Stmts, own: seq<TypeId>, env: Env, st: Store, stk: Stack, n: nat, optimized: bool)
    requires SupportedFunc(body)
    ensures var c := if optimized then Optimized(FuncCode(body)) else FuncCode(body);
            && NeverUnderflows(c)
            && var t := Run(Program(c, env), Running(0, st, stk), n);
               t.Running? ==> 0 <= t.pc <= |c| && Size(t.stack) == Size(stk) + |Pending(c, t.pc)|
  {
    hide Run, Pending, FuncCode, NeverUnderflows, Optimized, SupportedFunc, Level;
    FuncLevel(body);
    OptimizedLevel(FuncCode(body));
    var c := if optimized then Optimized(FuncCode(body)) else FuncCode(body);
    LevelNeverUnderflows(c);
    RunHeights(Program(c, env), st, stk, n);
  }

  // A duplication stands where a value was computed, so it is level too.
  lemma {:induction false} SameOver(c: seq<Instr>, d: seq<Instr>, h: nat)
    requires |c| == |d| && forall k :: 0 <= k < |c| ==> d[k] == c[k] || (CanBeReplaced(c[k]) && d[k] == Duplicate(c[k]))
    ensures Over(c, h).Some? ==> Over(d, h) == Over(c, h)
    decreases |c|
  {
    if c != [] && After(h, c[0]).Some? {
      SameAfter(h, c[0]);
      SameOver(c[1..], d[1..], After(h, c[0]).value);
    }
  }

  lemma SameAfter(h: nat, i: Instr)
    ensures CanBeReplaced(i) ==> After(h, Duplicate(i)) == Some(h + 1) && (After(h, i).Some? ==> After(h, i) == Some(h + 1))
  {
  }

  lemma OptimizedLevel(c: seq<Instr>)
    requires Level(c)
    ensures Level(Optimized(c))
  {
    hide CanBeReplaced, Duplicate, Over;
    SameOver(c, Optimized(c), 0);
  }
}
