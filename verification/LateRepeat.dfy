// Late repetitions.

module LateRepeat {
  // Returning a value that the assignment deferred first computes again.

  import opened Ir
  import opened Machine
  import opened Ast
  import opened LowerExpr
  import opened LowerStmt
  import opened Deferral
  import opened LateReturn
  import opened Labels
  import opened FuncCorrect
  import opened Optimizer
  import opened OptimizedFunc
  import opened Stale

  // Deferred assignments of constants and names.
  predicate Simple(xs: Assigns) {
    xs.MoreAssigns? ==>
      && xs.ty == NoType && xs.what.AssignLater? && (xs.what.value.IntLit? || xs.what.value.Ident?) && Pure(xs.what.value)
      && Simple(xs.rest)
  }

  // An expression computed by one instruction, without a call.
  predicate Single(e: Expr) {
    Pure(e) && |ExprCode(e)| == 1 && !e.CallExpr?
  }

  function Computing(e: Expr): Instr
    requires Single(e)
  {
    ExprCode(e)[0]
  }

  function Replay(xs: Assigns, y: Name, e: Expr): Assigns {
    Append(xs, Assignment(NoType, y, e, NoAssigns))
  }

  // defer y = e; defers of xs; return e
  function LateBody(xs: Assigns, y: Name, e: Expr, ty: TypeId): Stmts {
    Deferring(Replay(xs, y, e), MoreStmts(ReturnStmt(Some(e), ty), NoStmts))
  }

  function LateCode(xs: Assigns, y: Name, e: Expr, ty: TypeId): seq<Instr>
    requires Single(e)
  {
    [Computing(e)] + (AssignsCode(xs) + ([Computing(e), StoreInstr(NoType, y, e)] + [Instr(Return, ty, [ExprOperand(e)])]))
  }

  // The optimized function ends in every case as its source does.
  ghost predicate OptimizedRight(body: Stmts) {
    forall env, st, stk, t :: EndsAlike(body, env, st, stk, t)
  }

  ghost predicate EndsAlike(body: Stmts, env: Env, st: Store, stk: Stack, t: State) {
    (exists fuel: nat :: SourceEnds(body, st, stk, env, t, fuel))
    <==> (exists n: nat :: MachineEnds(OptimizedProgram(body, env), st, stk, t, n))
  }

  // None of these places is an operand the value depends on.
  predicate Untouched(i: Instr, xs: Assigns) {
    xs.MoreAssigns? ==> (xs.what.AssignLater? ==> !DependsOn(i, RefOp(xs.what.dest))) && Untouched(i, xs.rest)
  }

  // ----- The code -----

  lemma NoCode(e: Expr)
    requires Pure(e) && ExprCode(e) == []
    ensures Readable(ExprOperand(e)) && !IsNestedField(ExprOperand(e))
  {
    ExprPushes(e);
  }

  lemma PairEvaluated(l: Expr, r: Expr, i: Instr)
    requires Pure(l) && Pure(r) && |ExprCode(l) + (ExprCode(r) + [i])| == 1
    requires (IsArith2(i.op) || IsCompare(i.op)) && i.operands == [ExprOperand(l), ExprOperand(r)]
    ensures ExprCode(l) + (ExprCode(r) + [i]) == [i] && Evaluated(i) && ContentsEqual(i, i)
  {
    hide ExprCode, Readable, IsNestedField;
    NoCode(l);
    NoCode(r);
  }

  lemma SingleEvaluated(e: Expr)
    requires Single(e)
    ensures Evaluated(Computing(e)) && IsPop(ExprOperand(e)) && ExprCode(e) == [Computing(e)]
    ensures ContentsEqual(Computing(e), Computing(e))
  {
    hide Evaluated, Pure, ContentsEqual;
    ExprPushes(e);
    SingleCases(e);
  }

  lemma SingleCases(e: Expr)
    requires Single(e)
    ensures Evaluated(ExprCode(e)[0]) && ContentsEqual(ExprCode(e)[0], ExprCode(e)[0])
  {
    match e
    case Arith(ty, op, l, r) => PairEvaluated(l, r, Instr(Opcode(op), ty, [ExprOperand(l), ExprOperand(r)]));
    case Compare(ty, op, l, r) => PairEvaluated(l, r, CompareInstr(ty, op, false, l, r));
    case Not(x) =>
      assert Pure(x);
      PairEvaluated(x.left, x.right, CompareInstr(x.ty, x.cmp, true, x.left, x.right));
    case Negate(ty, x) =>
      assert ExprCode(x) == [];
      NoCode(x);
    case _ =>
  }

  lemma {:induction false} ReplayPure(xs: Assigns, y: Name, e: Expr)
    requires Simple(xs) && Pure(e)
    ensures PureAssigns(Replay(xs, y, e)) && Untyped(Replay(xs, y, e))
    ensures AssignsCode(Replay(xs, y, e)) == AssignsCode(xs) + (ExprCode(e) + [StoreInstr(NoType, y, e)])
    decreases xs
  {
    hide ExprCode;
    if xs.MoreAssigns? {
      ReplayPure(xs.rest, y, e);
    }
  }

  lemma LateLowered(xs: Assigns, y: Name, e: Expr, ty: TypeId)
    requires Simple(xs) && Single(e)
    ensures SupportedFunc(LateBody(xs, y, e, ty)) && NumberedAll(LateBody(xs, y, e, ty))
    ensures FuncCode(LateBody(xs, y, e, ty)) == LateCode(xs, y, e, ty)
  {
    hide ExprCode, AssignsCode, PureAssigns, Append;
    var all, last := Replay(xs, y, e), MoreStmts(ReturnStmt(Some(e), ty), NoStmts);
    SingleEvaluated(e);
    ReplayPure(xs, y, e);
    AppendNone(all);
    DeferringLowers(all, last, NoAssigns, TOP, false);
    assert HasReturns(last) by {
      assert HasReturn(last.head);
    }
    assert BlockCode(last, all, TOP, false) == StmtCode(last.head, Inside(all, TOP)) + [];
    assert Inside(all, TOP).pending == all;
  }

  // ----- What the pass does to it -----

  lemma {:induction false} SimpleCode(xs: Assigns, i: Instr)
    requires Simple(xs) && !ReadsMemory(i.op)
    ensures forall k :: 0 <= k < |AssignsCode(xs)| ==> AssignsCode(xs)[k].op.Load? && StackEffect(AssignsCode(xs)[k]) == 0
    ensures Untouched(i, xs) <==> NoneDisturbs(AssignsCode(xs), i)
    decreases xs
  {
    hide DependsOn, StackEffect, StoreInstr, Disturbs;
    if xs.MoreAssigns? {
      SimpleCode(xs.rest, i);
      SimpleStore(xs, i);
      QuietInFront(StoreInstr(NoType, xs.what.dest, xs.what.value), AssignsCode(xs.rest), i);
      assert AssignsCode(xs) == [StoreInstr(NoType, xs.what.dest, xs.what.value)] + AssignsCode(xs.rest);
    }
  }

  lemma QuietInFront(first: Instr, c: seq<Instr>, i: Instr)
    requires first.op.Load? && StackEffect(first) == 0
    requires forall k :: 0 <= k < |c| ==> c[k].op.Load? && StackEffect(c[k]) == 0
    ensures forall k :: 0 <= k < |[first] + c| ==> ([first] + c)[k].op.Load? && StackEffect(([first] + c)[k]) == 0
    ensures NoneDisturbs([first] + c, i) <==> !Disturbs(first, i) && NoneDisturbs(c, i)
  {
    hide StackEffect, NoneDisturbs;
    FirstDisturbs([first] + c, i);
    assert ([first] + c)[1..] == c;
  }

  lemma SimpleStore(xs: Assigns, i: Instr)
    requires Simple(xs) && xs.MoreAssigns? && !ReadsMemory(i.op)
    ensures ExprCode(xs.what.value) == []
    ensures var first := StoreInstr(NoType, xs.what.dest, xs.what.value);
            first.op.Load? && StackEffect(first) == 0 && (Disturbs(first, i) <==> DependsOn(i, RefOp(xs.what.dest)))
  {
    RefTakes(RefOp(xs.what.dest));
    if xs.what.value.Ident? {
      RefTakes(RefOp(xs.what.value.ref));
    }
    PairConsumption(StoreInstr(NoType, xs.what.dest, xs.what.value));
  }

  // Only the second computation is a repetition.
  lemma LateShape(xs: Assigns, y: Name, e: Expr, ty: TypeId)
    requires Simple(xs) && Single(e)
    ensures var c, j, i := LateCode(xs, y, e, ty), |AssignsCode(xs)| + 1, Computing(e);
            && |c| == j + 3 && c[0] == c[j] == i && Touch(c, j) == 0
            && c[1..j] == AssignsCode(xs)
            && c[j + 1] == StoreInstr(NoType, y, e) && c[j + 2] == Instr(Return, ty, [ExprOperand(e)])
            && forall k :: 0 <= k < |c| ==> (Repeats(c, k) <==> k == j)
  {
    hide Single, ExprCode, Evaluated, ContentsEqual, StoreInstr, Consumption, Simple, AssignsCode, NoneDisturbs;
    var c, j, i := LateCode(xs, y, e, ty), |AssignsCode(xs)| + 1, Computing(e);
    SingleEvaluated(e);
    EvaluatedReplaceable(i);
    SimpleCode(xs, i);
    forall k | 0 < k < j
      ensures c[k] == AssignsCode(xs)[k - 1] && c[k].op.Load? && StackEffect(c[k]) == 0
    {
    }
    assert StoreInstr(NoType, y, e).op.Load? by {
      StoreLoads(y, e);
    }
  }

  lemma StoreLoads(y: Name, e: Expr)
    ensures StoreInstr(NoType, y, e).op.Load?
  {
  }

  lemma LateGuarded(xs: Assigns, y: Name, e: Expr, ty: TypeId)
    requires Simple(xs) && Single(e) && Untouched(Computing(e), xs)
    ensures Guarded(LateCode(xs, y, e, ty))
  {
    hide LateCode, Single, Repeats, Disturbs, Touch, ContentsEqual;
    var c, j := LateCode(xs, y, e, ty), |AssignsCode(xs)| + 1;
    LateShape(xs, y, e, ty);
    SingleEvaluated(e);
    EvaluatedReplaceable(Computing(e));
    SimpleCode(xs, Computing(e));
    if Repeats(c, j) {
      forall k | 0 < k < j
        ensures !Disturbs(c[k], c[j])
      {
        assert c[k] == AssignsCode(xs)[k - 1];
      }
    }
  }

  // ----- The two codes on one input -----

  // From the store into y on.
  lemma LateEnds(p: Program, k: nat, y: Name, e: Expr, ty: TypeId, st: Store, v: int, top: int)
    requires k + 2 == |p.code| && IsPop(ExprOperand(e))
    requires p.code[k] == StoreInstr(NoType, y, e) && p.code[k + 1] == Instr(Return, ty, [ExprOperand(e)])
    ensures Run(p, Running(k, st, Push(top, Push(v, Empty))), 2) == Returned(Set(st, y, top), Answer(ty, v))
  {
    var s1 := Running(k + 1, Set(st, y, top), Push(v, Empty));
    assert Step(p, Running(k, st, Push(top, Push(v, Empty)))) == s1;
    assert Step(p, s1) == Returned(Set(st, y, top), Answer(ty, v));
    assert Run(p, s1, 1) == Returned(Set(st, y, top), Answer(ty, v));
  }

  lemma OptimizedLate(xs: Assigns, y: Name, e: Expr, ty: TypeId)
    requires Simple(xs) && Single(e)
    ensures var c, j := LateCode(xs, y, e, ty), |AssignsCode(xs)| + 1;
            j < |c| && Optimized(c) == c[j := Duplicate(c[j])] && Optimized(c)[j] != c[j] && CanBeReplaced(c[j])
  {
    hide LateCode, Single, Repeats, Optimized, Duplicate, Touch, ContentsEqual, Evaluated, AssignsCode, StackEffect;
    var c, j := LateCode(xs, y, e, ty), |AssignsCode(xs)| + 1;
    LateShape(xs, y, e, ty);
    SingleEvaluated(e);
    EvaluatedReplaceable(Computing(e));
    DuplicateEffect(c[j]);
    OneRewritten(c, j);
  }

  lemma OneRewritten(c: seq<Instr>, j: nat)
    requires j < |c| && forall k :: 0 <= k < |c| ==> (Repeats(c, k) <==> k == j)
    ensures Optimized(c) == c[j := Duplicate(c[j])]
  {
    hide Repeats, Duplicate;
    forall k | 0 <= k < |c|
      ensures Optimized(c)[k] == c[j := Duplicate(c[j])][k]
    {
      assert Repeats(c, k) <==> k == j;
    }
  }

  // Both codes behind the computation and its repetition: the value on top is the one
  // computed late, or the one computed first.
  lemma LateRuns(xs: Assigns, y: Name, e: Expr, ty: TypeId, env: Env, st: Store, v: int, w: int)
    requires Simple(xs) && ConstantStores(AssignsCode(xs)) && Single(e)
    requires Value(Computing(e), env, st) == Some(v)
    requires Value(Computing(e), env, Stored(GapWrites(AssignsCode(xs)), st)) == Some(w)
    ensures var c, n, late := LateCode(xs, y, e, ty), |AssignsCode(xs)| + 2, Stored(GapWrites(AssignsCode(xs)), st);
            && Run(Program(c, env), Running(0, st, Empty), n) == Running(n, late, Push(w, Push(v, Empty)))
            && Run(Program(Optimized(c), env), Running(0, st, Empty), n) == Running(n, late, Push(v, Push(v, Empty)))
  {
    hide LateCode, Single, Touch, ContentsEqual, Value, Run, Step, Stored, Simple, AssignsCode;
    hide GapWrites, ConstantStores, Duplicate, Optimized, Repeats, CanBeReplaced;
    var c, j := LateCode(xs, y, e, ty), |AssignsCode(xs)| + 1;
    LateShape(xs, y, e, ty);
    OptimizedLate(xs, y, e, ty);
    OriginalRuns(c, j, env, st, Empty, v);
    DuplicateRuns(c, j, env, st, Empty, v);
    ValueStep(Program(c, env), Running(j, Stored(GapWrites(AssignsCode(xs)), st), Push(v, Empty)));
  }

  lemma LateStops(xs: Assigns, y: Name, e: Expr, ty: TypeId, env: Env, st: Store, v: int, w: int)
    requires Simple(xs) && ConstantStores(AssignsCode(xs)) && Single(e)
    requires Value(Computing(e), env, st) == Some(v)
    requires Value(Computing(e), env, Stored(GapWrites(AssignsCode(xs)), st)) == Some(w)
    ensures var c, n, late := LateCode(xs, y, e, ty), |AssignsCode(xs)| + 4, Stored(GapWrites(AssignsCode(xs)), st);
            && Run(Program(c, env), Running(0, st, Empty), n) == Returned(Set(late, y, w), Answer(ty, v))
            && Run(Program(Optimized(c), env), Running(0, st, Empty), n) == Returned(Set(late, y, v), Answer(ty, v))
  {
    hide LateCode, Single, Touch, ContentsEqual, Value, Run, Step, Stored, StoreInstr, Repeats, CanBeReplaced;
    hide GapWrites, ConstantStores, Duplicate, Optimized, Simple, AssignsCode;
    var c, n := LateCode(xs, y, e, ty), |AssignsCode(xs)| + 2;
    var late := Stored(GapWrites(AssignsCode(xs)), st);
    LateShape(xs, y, e, ty);
    SingleEvaluated(e);
    LateRuns(xs, y, e, ty, env, st, v, w);
    OptimizedLate(xs, y, e, ty);
    LateEnds(Program(c, env), n, y, e, ty, late, v, w);
    LateEnds(Program(Optimized(c), env), n, y, e, ty, late, v, v);
    RunAdd(Program(c, env), Running(0, st, Empty), n, 2);
    RunAdd(Program(Optimized(c), env), Running(0, st, Empty), n, 2);
  }

  lemma LateDiffers(xs: Assigns, y: Name, e: Expr, ty: TypeId, env: Env, st: Store, v: int, w: int)
    requires Simple(xs) && ConstantStores(AssignsCode(xs)) && Single(e)
    requires Value(Computing(e), env, st) == Some(v)
    requires Value(Computing(e), env, Stored(GapWrites(AssignsCode(xs)), st)) == Some(w) && v != w
    ensures !OptimizedRight(LateBody(xs, y, e, ty))
  {
    hide LateCode, Single, ContentsEqual, Value, Run, Stored, FuncCode, LateBody, SupportedFunc, NumberedAll, OptimizedRight, Optimized;
    var late := Stored(GapWrites(AssignsCode(xs)), st);
    LateLowered(xs, y, e, ty);
    LateStops(xs, y, e, ty, env, st, v, w);
    Parted(LateBody(xs, y, e, ty), env, st, Returned(Set(late, y, w), Answer(ty, v)), Returned(Set(late, y, v), Answer(ty, v)), |AssignsCode(xs)| + 4);
    assert Read(Set(late, y, w), y) != Read(Set(late, y, v), y);
  }

  // The two versions stop in different states.
  lemma Parted(body: Stmts, env: Env, st: Store, t: State, u: State, n: nat)
    requires SupportedFunc(body) && NumberedAll(body) && t.Returned? && u.Returned?
    requires Run(FuncProgram(body, env), Running(0, st, Empty), n) == t
    requires Run(OptimizedProgram(body, env), Running(0, st, Empty), n) == u
    ensures t != u ==> !OptimizedRight(body)
  {
    hide Run, Step, SourceEnds, FuncProgram, OptimizedProgram, SupportedFunc, NumberedAll;
    FuncExact(body, st, Empty, env, t);
    assert MachineEnds(FuncProgram(body, env), st, Empty, t, n);
    if m: nat :| MachineEnds(OptimizedProgram(body, env), st, Empty, t, m) {
      StopsOnce(OptimizedProgram(body, env), Running(0, st, Empty), m, n);
    } else {
      assert !EndsAlike(body, env, st, Empty, t);
    }
  }

  // ----- The exact condition -----

  lemma {:induction false} SamePlacesUntouched(i: Instr, xs: Assigns, ys: Assigns)
    requires SamePlaces(xs, ys)
    ensures Untouched(i, xs) == Untouched(i, ys)
    decreases xs
  {
    if xs.MoreAssigns? {
      SamePlacesUntouched(i, xs.rest, ys.rest);
    }
  }

  lemma {:induction false} AllSetSimple(xs: Assigns)
    requires Simple(xs)
    ensures SamePlaces(xs, AllSet(xs, 1)) && Simple(AllSet(xs, 1)) && ConstantStores(AssignsCode(AllSet(xs, 1)))
    decreases xs
  {
    if xs.MoreAssigns? {
      AllSetSimple(xs.rest);
      var first := StoreInstr(NoType, xs.what.dest, IntLit(1, Int32Type));
      assert AssignsCode(AllSet(xs, 1)) == [first] + AssignsCode(AllSet(xs.rest, 1));
    }
  }

  /**
   * The optimized function ends as its source does, for every row of deferred constants
   * and names to these places, for all arithmetic, stores and stacks, exactly when no
   * place deferred is an operand the returned value depends on.
   */
  lemma LateRepeatExact(xs: Assigns, y: Name, e: Expr, ty: TypeId)
    requires Simple(xs) && Single(e)
    ensures (forall ys :: SamePlaces(xs, ys) && Simple(ys) ==> OptimizedRight(LateBody(ys, y, e, ty)))
       <==> Untouched(Computing(e), xs)
  {
    hide OptimizedRight, LateBody, Single, Simple, SamePlaces, Untouched;
    if Untouched(Computing(e), xs) {
      forall ys | SamePlaces(xs, ys) && Simple(ys)
        ensures OptimizedRight(LateBody(ys, y, e, ty))
      {
        SamePlacesUntouched(Computing(e), xs, ys);
        UntouchedRight(ys, y, e, ty);
      }
    } else {
      AllSetSimple(xs);
      SamePlacesUntouched(Computing(e), xs, AllSet(xs, 1));
      TouchedWrong(AllSet(xs, 1), y, e, ty);
    }
  }

  lemma UntouchedRight(xs: Assigns, y: Name, e: Expr, ty: TypeId)
    requires Simple(xs) && Single(e) && Untouched(Computing(e), xs)
    ensures OptimizedRight(LateBody(xs, y, e, ty))
  {
    hide SourceEnds, MachineEnds, LateBody, LateCode, FuncCode, Single, Guarded, SupportedFunc, NumberedAll, OptimizedProgram;
    var body := LateBody(xs, y, e, ty);
    LateLowered(xs, y, e, ty);
    LateGuarded(xs, y, e, ty);
    forall env, st, stk, t
      ensures EndsAlike(body, env, st, stk, t)
    {
      OptimizedFuncExact(body, st, stk, env, t);
    }
  }

  lemma TouchedWrong(xs: Assigns, y: Name, e: Expr, ty: TypeId)
    requires Simple(xs) && ConstantStores(AssignsCode(xs)) && Single(e) && !Untouched(Computing(e), xs)
    ensures !OptimizedRight(LateBody(xs, y, e, ty))
  {
    hide OptimizedRight, LateBody, Single, Value, Evaluated, Clear, Disturbs, ContentsEqual;
    var i := Computing(e);
    SingleEvaluated(e);
    EvaluatedReplaceable(i);
    SimpleCode(xs, i);
    GapClear(AssignsCode(xs), i);
    var env, st := StaleWitness(i, GapWrites(AssignsCode(xs)));
    LateDiffers(xs, y, e, ty, env, st, Value(i, env, st).value, Value(i, env, Stored(GapWrites(AssignsCode(xs)), st)).value);
  }
}
