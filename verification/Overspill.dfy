// A function that spills two types to one local.

module Overspill {
  import opened Ir
  import opened Ast
  import opened LowerExpr
  import opened LowerStmt
  import opened Labels
  import opened OptimizedFunc
  import opened Destinations
  import opened StackHeight
  import opened SpillSlots

  function Pair(n: nat): Expr {
    Arith(Int32Type, Plus, IntLit(n, Int32Type), IntLit(1, Int32Type))
  }

  function PairInstr(n: nat): Instr {
    Instr(Add, Int32Type, [IntOp(n, Int32Type), IntOp(1, Int32Type)])
  }

  // (n + 1) + ((n - 1 + 1) + ( ... + e))
  function Tower(n: nat, e: Expr): Expr {
    if n == 0 then e else Arith(Int32Type, Plus, Pair(n), Tower(n - 1, e))
  }

  // f(6 < 1, 7 + 1), whose first argument has type t and whose result has type u.
  function Called(t: TypeId, u: ValueType): Expr {
    var test := Compare(t, Lt, IntLit(6, Int32Type), IntLit(1, Int32Type));
    CallExpr(u, FuncLabel("f"), MoreExprs(test, MoreExprs(Pair(7), NoExprs)))
  }

  // return (6 + 1) + (... + ((1 + 1) + (f(6 < 1, 7 + 1) + (9 + 1))))
  function SpillBody(t: TypeId, u: ValueType): Stmts {
    MoreStmts(ReturnStmt(Some(Tower(6, Arith(Int32Type, Plus, Called(t, u), Pair(9)))), Int32Type), NoStmts)
  }

  function TestInstr(t: TypeId): Instr {
    Instr(CmpLt, t, [IntOp(6, Int32Type), IntOp(1, Int32Type)])
  }

  function CallInstr(t: TypeId, u: ValueType): Instr {
    Instr(Call, u, [LabelOp(FuncLabel("f")), RefOp(StackPop(t)), RefOp(StackPop(Int32Type))])
  }

  // Its first instructions: six values that wait, the test that waits, the other argument,
  // the call that waits, and one more value.
  function SpillStart(t: TypeId, u: ValueType): seq<Instr> {
    [PairInstr(6), PairInstr(5), PairInstr(4), PairInstr(3), PairInstr(2), PairInstr(1),
     TestInstr(t), PairInstr(7), CallInstr(t, u), PairInstr(9)]
  }

  lemma {:induction false} TowerCode(n: nat, e: Expr)
    ensures n > 0 ==> ExprCode(Tower(n, e)) == [PairInstr(n)] + (ExprCode(Tower(n - 1, e)) + [Instr(Add, Int32Type, [RefOp(StackPop(Int32Type)), ExprOperand(Tower(n - 1, e))])])
  {
    if n > 0 {
      assert ExprCode(Pair(n)) == [PairInstr(n)];
    }
  }

  lemma TwoArgs(a: Expr, b: Expr)
    ensures var es := MoreExprs(a, MoreExprs(b, NoExprs));
            ArgsCode(es) == ExprCode(a) + ExprCode(b) && ArgOperands(es) == [ExprOperand(a), ExprOperand(b)]
  {
    hide ExprCode, ExprOperand;
    var more := MoreExprs(b, NoExprs);
    assert ArgsCode(NoExprs) == [] && ArgOperands(NoExprs) == [];
    assert ArgsCode(more) == ExprCode(b) + [] && ArgOperands(more) == [ExprOperand(b)] + [];
  }

  lemma CalledCode(t: TypeId, u: ValueType)
    ensures ExprCode(Called(t, u)) == [TestInstr(t), PairInstr(7), CallInstr(t, u)]
  {
    var test, more := Compare(t, Lt, IntLit(6, Int32Type), IntLit(1, Int32Type)), MoreExprs(Pair(7), NoExprs);
    assert ExprCode(Pair(7)) == [PairInstr(7)] && ExprCode(test) == [TestInstr(t)];
    TwoArgs(test, Pair(7));
    assert [LabelOp(FuncLabel("f"))] + ArgOperands(MoreExprs(test, more)) == CallInstr(t, u).operands;
  }

  lemma TowerPure(n: nat, e: Expr)
    requires n > 0
    ensures Pure(Tower(n - 1, e)) ==> Pure(Tower(n, e))
  {
    var one: Expr := IntLit(1, Int32Type);
    assert Pure(IntLit(n, Int32Type)) && Pure(one);
    assert Pure(Pair(n));
  }

  lemma {:induction false} TowerStarts(n: nat, e: Expr)
    ensures n + |ExprCode(e)| <= |ExprCode(Tower(n, e))|
    ensures forall k :: 0 <= k < n ==> ExprCode(Tower(n, e))[k] == PairInstr(n - k)
    ensures forall k :: 0 <= k < |ExprCode(e)| ==> ExprCode(Tower(n, e))[n + k] == ExprCode(e)[k]
    ensures Pure(e) ==> Pure(Tower(n, e))
    decreases n
  {
    hide ExprCode, Pure;
    if n > 0 {
      TowerStarts(n - 1, e);
      TowerCode(n, e);
      TowerPure(n, e);
      var c, d := ExprCode(Tower(n, e)), ExprCode(Tower(n - 1, e));
      assert forall k :: 0 < k <= |d| ==> c[k] == d[k - 1];
    }
  }

  predicate Starts(c: seq<Instr>, t: TypeId, u: ValueType) {
    |c| >= 10 && c[..10] == SpillStart(t, u)
  }

  lemma ReturnLowered(e: Expr, ty: TypeId)
    requires Pure(e) && !e.Ident?
    ensures var body := MoreStmts(ReturnStmt(Some(e), ty), NoStmts);
            SupportedFunc(body) && NumberedAll(body) && FuncCode(body) == ExprCode(e) + [Instr(Return, ty, [ExprOperand(e)])]
  {
    hide ExprCode, Pure;
    var s := ReturnStmt(Some(e), ty);
    var body := MoreStmts(s, NoStmts);
    assert HasReturn(s) && HasReturns(body) && Replayed(body, NoAssigns, false);
    assert SupportedAll(NoStmts, false, NoAssigns, NoAssigns) && Supported(s, false, Append(NoAssigns, NoAssigns));
    assert Inside(NoAssigns, TOP).pending == NoAssigns;
    assert StmtCode(s, Inside(NoAssigns, TOP)) == ExprCode(e) + [Instr(Return, ty, [ExprOperand(e)])];
    assert BlockCode(NoStmts, NoAssigns, TOP, false) == [];
  }

  lemma SpillLowered(t: TypeId, u: ValueType)
    ensures SupportedFunc(SpillBody(t, u)) && NumberedAll(SpillBody(t, u)) && Starts(FuncCode(SpillBody(t, u)), t, u)
  {
    hide ExprCode, Called, SpillStart, FuncCode, SupportedFunc, NumberedAll, Pure;
    var last := Arith(Int32Type, Plus, Called(t, u), Pair(9));
    var e := Tower(6, last);
    LastCode(t, u);
    TowerStarts(6, last);
    ReturnLowered(e, Int32Type);
    assert ExprCode(e)[6..10] == ExprCode(last)[..4];
    FirstTen(ExprCode(e), t, u);
    assert FuncCode(SpillBody(t, u))[..10] == ExprCode(e)[..10];
  }

  lemma LastCode(t: TypeId, u: ValueType)
    ensures var last := Arith(Int32Type, Plus, Called(t, u), Pair(9));
            && |ExprCode(last)| == 5 && ExprCode(last)[..4] == [TestInstr(t), PairInstr(7), CallInstr(t, u), PairInstr(9)]
            && Pure(last)
  {
    CalledCode(t, u);
    assert ExprCode(Pair(9)) == [PairInstr(9)];
    assert Pure(Pair(9)) && Pure(Called(t, u)) by {
      assert PureAll(MoreExprs(Pair(7), NoExprs));
      assert PureAll(Called(t, u).args);
    }
  }

  lemma FirstTen(c: seq<Instr>, t: TypeId, u: ValueType)
    requires |c| >= 10 && forall k :: 0 <= k < 6 ==> c[k] == PairInstr(6 - k)
    requires c[6..10] == [TestInstr(t), PairInstr(7), CallInstr(t, u), PairInstr(9)]
    ensures Starts(c, t, u)
  {
    assert c[..10] == c[..6] + c[6..10];
    assert c[..6] == [PairInstr(6), PairInstr(5), PairInstr(4), PairInstr(3), PairInstr(2), PairInstr(1)];
  }

  // ----- Its destinations -----

  lemma StartEffects(t: TypeId, u: ValueType)
    ensures forall k :: 0 <= k < 10 ==> PushesToStack(SpillStart(t, u)[k])
    ensures forall k :: 0 <= k < 10 ==> Consumption(SpillStart(t, u)[k]) == if k == 8 then 2 else 0
  {
    hide OperandsConsumption;
    var s := SpillStart(t, u);
    forall k | 0 <= k < 10 && k != 8 {
      PairConsumption(s[k]);
    }
    CallConsumption(t, u);
  }

  lemma CallConsumption(t: TypeId, u: ValueType)
    ensures Consumption(CallInstr(t, u)) == 2
  {
    var args := Instr(Noop, VoidType, [RefOp(StackPop(t)), RefOp(StackPop(Int32Type))]);
    PairConsumption(args);
    assert CallInstr(t, u).operands[1..] == args.operands;
  }

  lemma NextWaits(c: seq<Instr>, t: TypeId, u: ValueType, k: nat)
    requires Starts(c, t, u) && k < 9
    ensures Waits(c, k) <==> k != 7
    ensures c[k] == SpillStart(t, u)[k] && Consumption(c[k]) == if k == 8 then 2 else 0
  {
    hide Consumption, PushesToStack, SpillStart;
    StartEffects(t, u);
    assert c[k] == c[..10][k] && c[k + 1] == c[..10][k + 1];
  }

  // Five values fill the registers.
  lemma FirstFive(c: seq<Instr>, own: seq<TypeId>, t: TypeId, u: ValueType, k: nat)
    requires Starts(c, t, u) && k <= 5
    ensures Before(c, own, k) == Counters(k, 0, own)
    decreases k
  {
    hide Consumption, Waits, SpillStart;
    if k > 0 {
      FirstFive(c, own, t, u, k - 1);
      NextWaits(c, t, u, k - 1);
    }
  }

  // The sixth value and the test are spilled, and the call takes the place of the test.
  lemma StartDests(c: seq<Instr>, own: seq<TypeId>, t: TypeId, u: ValueType)
    requires Starts(c, t, u)
    ensures DestOf(c, own, 5) == Spill(|own|) && DestOf(c, own, 6) == Spill(|own| + 1) == DestOf(c, own, 8)
    ensures c[5] == PairInstr(1) && c[6] == TestInstr(t) && c[8] == CallInstr(t, u)
  {
    hide Consumption, Waits;
    FirstFive(c, own, t, u, 5);
    NextWaits(c, t, u, 5);
    NextWaits(c, t, u, 6);
    NextWaits(c, t, u, 7);
    NextWaits(c, t, u, 8);
    assert Before(c, own, 6) == Counters(5, 1, own + [c[5].resultType]);
    assert Before(c, own, 7) == Counters(5, 2, own + [c[5].resultType] + [t]);
    assert Before(c, own, 8) == Before(c, own, 7);
    assert Release(Before(c, own, 8), 1).spills == 1;
  }

  lemma StartPending(c: seq<Instr>, t: TypeId, u: ValueType, k: nat)
    requires Starts(c, t, u) && k <= 8
    ensures Pending(c, k) == seq(k, i => i)
    decreases k
  {
    hide Consumption, PushesToStack, SpillStart;
    if k > 0 {
      StartPending(c, t, u, k - 1);
      NextWaits(c, t, u, k - 1);
      StartEffects(t, u);
      PendingNext(c, k - 1);
    }
  }

  lemma StillPending(c: seq<Instr>, t: TypeId, u: ValueType)
    requires Starts(c, t, u)
    ensures 5 in Pending(c, 9) && 8 in Pending(c, 9)
  {
    hide Consumption, PushesToStack, SpillStart;
    StartPending(c, t, u, 8);
    NextWaits(c, t, u, 8);
    StartEffects(t, u);
    PendingNext(c, 8);
    assert Pending(c, 9) == seq(8, i => i)[..6] + [8];
    assert Pending(c, 9)[5] == 5 && Pending(c, 9)[6] == 8;
  }

  /**
   * In a supported function, whatever its own locals and whatever the types t and u: the
   * local for the waiting test of type t is given again to the waiting result of type u,
   * and keeps type t, while the value in the local in front of it is still pending.
   */
  lemma SpillsTwice(t: TypeId, u: ValueType, own: seq<TypeId>)
    ensures SupportedFunc(SpillBody(t, u)) && NumberedAll(SpillBody(t, u))
    ensures var c, n := FuncCode(SpillBody(t, u)), |own|;
            && NeverUnderflows(c)
            && SpillsTo(c, own, 5, n) && SpillsTo(c, own, 6, n + 1) && SpillsTo(c, own, 8, n + 1)
            && c[5] == PairInstr(1) && c[6] == TestInstr(t) && c[8] == CallInstr(t, u)
            && |LocalsOf(c, own)| > n + 1 && LocalsOf(c, own)[n] == Int32Type && LocalsOf(c, own)[n + 1] == t
            && 5 in Pending(c, 9) && 8 in Pending(c, 9)
    ensures t != u ==> !TypesKept(FuncCode(SpillBody(t, u)), own)
  {
    hide Consumption, SpillStart, FuncCode, SupportedFunc, NumberedAll, NeverUnderflows, LocalsOf, Level, DestOf, Pending;
    var c, n := FuncCode(SpillBody(t, u)), |own|;
    SpillLowered(t, u);
    FuncLevel(SpillBody(t, u));
    LevelNeverUnderflows(c);
    StartDests(c, own, t, u);
    StillPending(c, t, u);
    var i := SlotType(c, own, 5, n);
    var j := SlotType(c, own, 6, n + 1);
    NoneEarlier(c, own, t, u, i);
    NoneEarlier(c, own, t, u, j);
  }

  lemma NoneEarlier(c: seq<Instr>, own: seq<TypeId>, t: TypeId, u: ValueType, i: nat)
    requires Starts(c, t, u) && i < 10 && DestOf(c, own, i).Spill?
    ensures i >= 5
  {
    hide Consumption, Waits, SpillStart;
    if i < 5 {
      FirstFive(c, own, t, u, i);
      NextWaits(c, t, u, i);
    }
  }
}
