// Whole functions.

module FuncCorrect {
  // The lowered code terminates exactly when the source does, in the same way, with the
  // same store and result, and it makes the same calls whether it terminates or not.

  import opened Ir
  import opened Machine
  import opened Ast
  import opened LowerStmt
  import opened StmtCorrect
  import opened Labels

  function FuncProgram(body: Stmts, env: Env): Program {
    Program(FuncCode(body), env)
  }

  // The machine state in which a source outcome shows itself.
  function FinalState(body: Stmts, stk: Stack, o: Outcome): State {
    match o
    case Normal(st) => Running(|FuncCode(body)|, st, stk)
    case Result(st, v) => Returned(st, v)
    case Trap(st) => Trapped(st)
    case _ => Stuck
  }

  predicate SourceEnds(body: Stmts, st: Store, stk: Stack, env: Env, t: State, fuel: nat) {
    var o := ExecBlock(body, NoAssigns, st, env, fuel);
    !o.Timeout? && t == FinalState(body, stk, o)
  }

  predicate MachineEnds(p: Program, st: Store, stk: Stack, t: State, n: nat) {
    Run(p, Running(0, st, stk), n) == t && !CanStep(p, t)
  }

  lemma BodyFollows(body: Stmts, st: Store, stk: Stack, env: Env, fuel: nat)
    requires SupportedFunc(body) && NumberedAll(body)
    ensures var p, o := FuncProgram(body, env), ExecBlock(body, NoAssigns, st, env, fuel);
            if o.Timeout? then Live(p, Running(0, st, stk), fuel, o.store)
            else Reaches(p, Running(0, st, stk), FinalState(body, stk, o))
  {
    hide Reaches, Live, UniqueLabels, SupportedAll, RunAssigns;
    var p, replay := FuncProgram(body, env), !HasReturns(body);
    FuncLabels(body);
    WholeAt(p.code);
    TopReady(p);
    BlockFollows(p, 0, body, NoAssigns, TOP, replay, false, st, stk, fuel);
    NoEscapeAll(body, NoAssigns, NoAssigns, st, env, fuel);
    NothingPending(st, env);
  }

  lemma WholeAt(code: seq<Instr>)
    ensures At(code, 0, code)
  {
  }

  lemma TopReady(p: Program)
    requires UniqueLabels(p.code)
    ensures Ready(p, TOP, false)
  {
  }

  lemma NothingPending(st: Store, env: Env)
    ensures forall st :: RunAssigns(NoAssigns, st, env) == Normal(st)
  {
  }

  /**
   * For every supported function, store and environment and every state t: the source
   * ends in t for some fuel exactly when the machine stops in t.
   */
  lemma FuncExact(body: Stmts, st: Store, stk: Stack, env: Env, t: State)
    requires SupportedFunc(body) && NumberedAll(body)
    ensures (exists fuel: nat :: SourceEnds(body, st, stk, env, t, fuel))
       <==> (exists n: nat :: MachineEnds(FuncProgram(body, env), st, stk, t, n))
  {
    hide ExecBlock, Step, FuncProgram;
    var p := FuncProgram(body, env);
    if fuel: nat :| SourceEnds(body, st, stk, env, t, fuel) {
      SourceToMachine(body, st, stk, env, t, fuel);
    }
    if n: nat :| MachineEnds(p, st, stk, t, n) {
      MachineToSource(body, st, stk, env, t, n);
    }
  }

  lemma SourceToMachine(body: Stmts, st: Store, stk: Stack, env: Env, t: State, fuel: nat)
    requires SupportedFunc(body) && NumberedAll(body) && SourceEnds(body, st, stk, env, t, fuel)
    ensures exists n: nat :: MachineEnds(FuncProgram(body, env), st, stk, t, n)
  {
    hide ExecBlock, Step, Run, SupportedFunc, NumberedAll;
    var p := FuncProgram(body, env);
    BodyFollows(body, st, stk, env, fuel);
    var n: nat :| Run(p, Running(0, st, stk), n) == t;
    assert MachineEnds(p, st, stk, t, n);
  }

  lemma MachineToSource(body: Stmts, st: Store, stk: Stack, env: Env, t: State, n: nat)
    requires SupportedFunc(body) && NumberedAll(body) && MachineEnds(FuncProgram(body, env), st, stk, t, n)
    ensures SourceEnds(body, st, stk, env, t, n)
  {
    hide ExecBlock, Step, Run, SupportedFunc, NumberedAll, FuncCode;
    var p, o := FuncProgram(body, env), ExecBlock(body, NoAssigns, st, env, n);
    BodyFollows(body, st, stk, env, n);
    if o.Timeout? {
      LiveNotStopped(p, Running(0, st, stk), n, o.store);
    } else {
      var m: nat :| Run(p, Running(0, st, stk), m) == FinalState(body, stk, o);
      StopsOnce(p, Running(0, st, stk), m, n);
    }
  }

  // ----- Calls -----

  // The calls made up to a state.
  function CallsOf(s: State): seq<CallMade> {
    if s.Stuck? then [] else s.store.calls
  }

  // With enough fuel the source makes these calls first, in this order.
  ghost predicate SourceMakes(body: Stmts, st: Store, env: Env, cs: seq<CallMade>) {
    exists fuel: nat :: cs <= ExecBlock(body, NoAssigns, st, env, fuel).store.calls
  }

  ghost predicate MachineMakes(p: Program, st: Store, stk: Stack, cs: seq<CallMade>) {
    exists n: nat :: cs <= CallsOf(Run(p, Running(0, st, stk), n))
  }

  // No call is taken back.
  lemma {:induction false} CallsGrow(p: Program, s: State, n: nat)
    requires !Run(p, s, n).Stuck?
    ensures CallsOf(s) <= CallsOf(Run(p, s, n))
    decreases n
  {
    hide Step;
    if n > 0 && CanStep(p, s) {
      StepCalls(p, s);
      CallsGrow(p, Step(p, s), n - 1);
    }
  }

  lemma StepCalls(p: Program, s: State)
    requires CanStep(p, s)
    ensures !Step(p, s).Stuck? ==> CallsOf(s) <= CallsOf(Step(p, s))
  {
  }

  /**
   * Any list of calls is what a run of the source makes first exactly when it is what the
   * machine makes first: the same callees with the same arguments in the same order,
   * whether the run ends, traps or goes on for ever.
   */
  lemma CallsExact(body: Stmts, st: Store, stk: Stack, env: Env, cs: seq<CallMade>)
    requires SupportedFunc(body) && NumberedAll(body)
    ensures SourceMakes(body, st, env, cs) <==> MachineMakes(FuncProgram(body, env), st, stk, cs)
  {
    hide ExecBlock, Step, Run, SupportedFunc, NumberedAll, FuncProgram;
    if fuel: nat :| cs <= ExecBlock(body, NoAssigns, st, env, fuel).store.calls {
      var n := SourceCallsReached(body, st, stk, env, fuel);
    }
    if n: nat :| cs <= CallsOf(Run(FuncProgram(body, env), Running(0, st, stk), n)) {
      MachineCallsMade(body, st, stk, env, n);
    }
  }

  // At some moment the machine has made exactly the calls the source has made.
  lemma SourceCallsReached(body: Stmts, st: Store, stk: Stack, env: Env, fuel: nat) returns (m: nat)
    requires SupportedFunc(body) && NumberedAll(body)
    ensures var p, o := FuncProgram(body, env), ExecBlock(body, NoAssigns, st, env, fuel);
            var t := Run(p, Running(0, st, stk), m);
            && !t.Stuck? && CallsOf(t) == o.store.calls && (if o.Timeout? then m >= fuel else !CanStep(p, t))
  {
    hide ExecBlock, Step, Run, SupportedFunc, FuncCode;
    var p, o := FuncProgram(body, env), ExecBlock(body, NoAssigns, st, env, fuel);
    BodyFollows(body, st, stk, env, fuel);
    if o.Timeout? {
      m :| fuel <= m && LiveAt(p, Running(0, st, stk), m, o.store);
    } else {
      NoEscapeAll(body, NoAssigns, NoAssigns, st, env, fuel) by {
        SupportedParts(body);
      }
      m :| Run(p, Running(0, st, stk), m) == FinalState(body, stk, o);
    }
  }

  lemma SupportedParts(body: Stmts)
    requires SupportedFunc(body)
    ensures SupportedAll(body, false, NoAssigns, NoAssigns)
  {
  }

  // With as much fuel as the machine has taken steps, the source has made its calls.
  lemma MachineCallsMade(body: Stmts, st: Store, stk: Stack, env: Env, n: nat)
    requires SupportedFunc(body) && NumberedAll(body)
    ensures CallsOf(Run(FuncProgram(body, env), Running(0, st, stk), n)) <= ExecBlock(body, NoAssigns, st, env, n).store.calls
  {
    hide ExecBlock, Step, Run, SupportedFunc, NumberedAll, FuncProgram;
    var p, s := FuncProgram(body, env), Running(0, st, stk);
    var m := SourceCallsReached(body, st, stk, env, n);
    if n <= m {
      RunAdd(p, s, n, m - n);
      CallsGrow(p, Run(p, s, n), m - n);
    } else {
      RunAdd(p, s, m, n - m);
      RunStopped(p, Run(p, s, m), n - m);
    }
  }
}
