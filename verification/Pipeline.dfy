// The whole way.

module Pipeline {
  // From the source of a function to its optimized instructions and their destinations.

  import opened Ir
  import opened Machine
  import opened Ast
  import opened LowerStmt
  import opened Labels
  import opened FuncCorrect
  import opened Optimizer
  import opened OptimizedFunc
  import opened Destinations
  import opened StackHeight
  import G = Generator

  /** Lowering followed by the peephole pass in place. */
  method GenerateIr(body: Stmts) returns (instrs: array<Instr>)
    requires NumberedAll(body) && G.QuietAll(body, false)
    ensures instrs[..] == Optimized(FuncCode(body))
  {
    var code := G.GenerateFunc(body);
    instrs := new Instr[|code|](i requires 0 <= i < |code| => code[i]);
    assert instrs[..] == code;
    ReplaceDuplicates(instrs);
  }

  /**
   * What is handed to the code generator for a guarded function ends exactly as the source
   * does, and before each of its instructions the pending values have destinations of
   * their own.
   */
  lemma PipelineExact(body: Stmts, own: seq<TypeId>, st: Store, stk: Stack, env: Env, t: State)
    requires SupportedFunc(body) && NumberedAll(body) && Guarded(FuncCode(body))
    ensures (exists fuel: nat :: SourceEnds(body, st, stk, env, t, fuel))
       <==> (exists n: nat :: MachineEnds(OptimizedProgram(body, env), st, stk, t, n))
    ensures var c := Optimized(FuncCode(body)); forall i :: 0 <= i <= |c| ==> HeldApart(c, own, i)
  {
    hide FuncCode, SupportedFunc, NumberedAll, Guarded, NeverUnderflows, Optimized, Run, HeldApart;
    OptimizedFuncExact(body, st, stk, env, t);
    var c := Optimized(FuncCode(body));
    FuncAllocation(body, own, env, st, stk, 0, true);
    forall i | 0 <= i <= |c|
      ensures HeldApart(c, own, i)
    {
      NoneOverwritten(c, own, i);
    }
  }
}
