// Skipped defers.

module Skipped {
  // Leaving a block that has deferred something, without the replay.

  import opened Ir
  import opened Machine
  import opened Ast
  import opened LowerStmt
  import opened StmtCorrect
  import opened Labels
  import opened FuncCorrect
  import opened Deferral
  import opened LateReturn

  // { defers of xs; break or continue }
  function Leaving(xs: Assigns, jump: Stmt): Stmt {
    Block(Deferring(xs, MoreStmts(jump, NoStmts)))
  }

  function Target(jump: Stmt, ctx: Ctx): Option<Label> {
    if jump.Break? then ctx.brk else ctx.cont
  }

  lemma {:induction false} DeferringRuns(xs: Assigns, tail: Stmts, ds: Assigns, st: Store, env: Env, fuel: nat)
    requires Untyped(xs)
    ensures ExecBlock(Deferring(xs, tail), ds, st, env, fuel) == ExecBlock(tail, Append(xs, ds), st, env, fuel)
    decreases xs
  {
    if xs.MoreAssigns? {
      DeferringRuns(xs.rest, MoreStmts(DeferStmt(xs.what), tail), ds, st, env, fuel);
    }
  }

  // In the source what is deferred runs on the way out.
  lemma LeavingRuns(xs: Assigns, jump: Stmt, st: Store, env: Env, fuel: nat)
    requires Untyped(xs) && (jump.Break? || jump.Continue?)
    ensures Exec(Leaving(xs, jump), st, env, fuel) == Leave(xs, if jump.Break? then Broke(st) else Continued(st), env)
  {
    AppendNone(xs);
    DeferringRuns(xs, MoreStmts(jump, NoStmts), NoAssigns, st, env, fuel);
  }

  /** The code jumps at once: control is at the label of the loop with the store as it was. */
  lemma JumpSkips(p: Program, k: int, xs: Assigns, jump: Stmt, ctx: Ctx, st: Store, stk: Stack)
    requires PureAssigns(xs) && Untyped(xs) && (jump.Break? || jump.Continue?) && Target(jump, ctx).Some?
    requires At(p.code, k, StmtCode(Leaving(xs, jump), ctx))
    ensures Reaches(p, Running(k, st, stk), Goto(p, LabelOp(Target(jump, ctx).value), st, stk))
  {
    hide Reaches, AssignsCode, Deferring, Step, Run, PureAssigns, Goto;
    var tail := MoreStmts(jump, NoStmts);
    AppendNone(xs);
    DeferringLowers(xs, tail, NoAssigns, ctx, true);
    assert BlockCode(tail, xs, ctx, true) == [JumpInstr(Target(jump, ctx).value)] + AssignsCode(xs);
    AtHead(p.code, k, StmtCode(Leaving(xs, jump), ctx));
    JumpReaches(p, k, st, stk, Target(jump, ctx).value);
  }

  // A function that defers xs, then runs a statement.
  function Ending(xs: Assigns, s: Stmt): Stmts {
    Deferring(xs, MoreStmts(s, NoStmts))
  }

  /**
   * When the statement has a return but is not left by it, the source runs the deferred
   * statements at the end of the function, and the code stops without them.
   */
  lemma EndSkips(xs: Assigns, s: Stmt, st: Store, stk: Stack, env: Env, fuel: nat)
    requires PureAssigns(xs) && Untyped(xs) && !s.DeferStmt? && HasReturn(s) && Supported(s, false, xs) && Numbered(s)
    requires Exec(s, st, env, fuel).Normal?
    ensures var p, left := FuncProgram(Ending(xs, s), env), Exec(s, st, env, fuel).store;
            && Reaches(p, Running(0, st, stk), Running(|p.code|, left, stk))
            && ExecBlock(Ending(xs, s), NoAssigns, st, env, fuel) == Leave(xs, Normal(left), env)
  {
    hide Reaches, Exec, StmtCode, Supported, UniqueLabels, Simulates;
    var p, tail := FuncProgram(Ending(xs, s), env), MoreStmts(s, NoStmts);
    EndingCode(xs, s);
    FuncLabels(Ending(xs, s));
    WholeAt(p.code);
    StmtFollows(p, 0, s, Ctx(None, None, xs), false, st, stk, fuel);
    DeferringRuns(xs, tail, NoAssigns, st, env, fuel);
    AppendNone(xs);
    EndReached(p, xs, s, st, stk, fuel);
  }

  lemma EndReached(p: Program, xs: Assigns, s: Stmt, st: Store, stk: Stack, fuel: nat)
    requires Simulates(p, Running(0, st, stk), |p.code|, Ctx(None, None, xs), stk, Exec(s, st, p.env, fuel), fuel)
    requires Exec(s, st, p.env, fuel).Normal?
    ensures Reaches(p, Running(0, st, stk), Running(|p.code|, Exec(s, st, p.env, fuel).store, stk))
  {
    hide Reaches, Exec;
  }

  lemma EndingCode(xs: Assigns, s: Stmt)
    requires PureAssigns(xs) && Untyped(xs) && !s.DeferStmt? && HasReturn(s) && Numbered(s)
    ensures FuncCode(Ending(xs, s)) == StmtCode(s, Ctx(None, None, xs)) && NumberedAll(Ending(xs, s))
  {
    hide HasReturn, StmtCode;
    var tail := MoreStmts(s, NoStmts);
    AppendNone(xs);
    DeferringLowers(xs, tail, NoAssigns, TOP, false);
    assert BlockCode(tail, xs, TOP, false) == StmtCode(s, Inside(xs, TOP)) + [];
    assert Inside(xs, TOP) == Ctx(None, None, xs);
    assert HasReturns(tail);
  }

  /**
   * The store with which the code leaves the block is the one of the source, for all
   * assignments to these places and calls of these functions that are deferred and all
   * stores, exactly when nothing is deferred.
   */
  lemma SkipExact(xs: Assigns, jump: Stmt, env: Env, fuel: nat)
    requires PureAssigns(xs) && Untyped(xs) && (jump.Break? || jump.Continue?)
    ensures (forall ys, st :: SamePlaces(xs, ys) && PureAssigns(ys) && Untyped(ys) ==>
               Exec(Leaving(ys, jump), st, env, fuel) == if jump.Break? then Broke(st) else Continued(st))
       <==> xs.NoAssigns?
  {
    hide Exec;
    if xs.NoAssigns? {
      forall ys, st | SamePlaces(xs, ys) && PureAssigns(ys) && Untyped(ys)
        ensures Exec(Leaving(ys, jump), st, env, fuel) == if jump.Break? then Broke(st) else Continued(st)
      {
        LeavingRuns(ys, jump, st, env, fuel);
      }
    } else {
      var st := NOTHING;
      var v := AllSetChanges(xs, st, env);
      AllSetUntyped(xs, v);
      LeavingRuns(AllSet(xs, v), jump, st, env, fuel);
    }
  }

  // Anything deferred may leave a trace: another value in its place, or its call.
  lemma AllSetChanges(xs: Assigns, st: Store, env: Env) returns (v: int)
    requires PureAssigns(xs) && xs.MoreAssigns?
    ensures SamePlaces(xs, AllSet(xs, v)) && PureAssigns(AllSet(xs, v))
    ensures var o := RunAssigns(AllSet(xs, v), st, env); o.Normal? && o.store != st
  {
    hide RunAssigns, AllSet, PureAssigns;
    var d: Ref := if xs.what.AssignLater? then xs.what.dest else Local(0, NoType);
    v := Read(st, d) + 1;
    AllSetRun(xs, v, d, st, env);
  }

  lemma {:induction false} AllSetUntyped(xs: Assigns, v: int)
    requires Untyped(xs)
    ensures Untyped(AllSet(xs, v))
    decreases xs
  {
    if xs.MoreAssigns? {
      AllSetUntyped(xs.rest, v);
    }
  }

  // ----- The end of a function -----

  // What is supported depends on the places deferred only.
  lemma {:induction false} SamePlacesSupported(s: Stmt, jumps: bool, xs: Assigns, ys: Assigns)
    requires SamePlaces(xs, ys) && Supported(s, jumps, xs)
    ensures Supported(s, jumps, ys)
    decreases s
  {
    match s
    case If(_, _, thn, els) =>
      SamePlacesSupported(thn, jumps, xs, ys);
      if els.Some? {
        SamePlacesSupported(els.value, jumps, xs, ys);
      }
    case While(_, _, body) => SamePlacesSupported(body, true, xs, ys);
    case For(_, _, body) => SamePlacesSupported(body, true, xs, ys);
    case Block(b) => SamePlacesSupportedAll(b, jumps, NoAssigns, xs, ys);
    case ReturnStmt(Some(e), _) =>
      if e.Ident? {
        SamePlacesAssigned(e.ref, xs, ys);
      }
    case _ =>
  }

  lemma {:induction false} SamePlacesSupportedAll(b: Stmts, jumps: bool, ds: Assigns, xs: Assigns, ys: Assigns)
    requires SamePlaces(xs, ys) && SupportedAll(b, jumps, ds, xs)
    ensures SupportedAll(b, jumps, ds, ys)
    decreases b
  {
    if b.MoreStmts? {
      var s := b.head;
      if s.DeferStmt? {
        SamePlacesSupportedAll(b.tail, jumps, MoreAssigns(NoType, s.what, ds), xs, ys);
      } else {
        SamePlacesAppend(ds, xs, ys);
        SamePlacesSupported(s, jumps && ds.NoAssigns?, Append(ds, xs), Append(ds, ys));
        SamePlacesSupportedAll(b.tail, jumps, ds, xs, ys);
      }
    }
  }

  lemma {:induction false} SamePlacesAppend(ds: Assigns, xs: Assigns, ys: Assigns)
    requires SamePlaces(xs, ys)
    ensures SamePlaces(Append(ds, xs), Append(ds, ys))
    decreases ds
  {
    if ds.MoreAssigns? {
      SamePlacesAppend(ds.rest, xs, ys);
    }
  }

  // The machine stops in the state in which the source ends.
  ghost predicate EndsRight(xs: Assigns, s: Stmt, st: Store, stk: Stack, env: Env, fuel: nat) {
    var body := Ending(xs, s);
    var t := FinalState(body, stk, ExecBlock(body, NoAssigns, st, env, fuel));
    exists n: nat :: MachineEnds(FuncProgram(body, env), st, stk, t, n)
  }

  // It does so if the deferred statements change nothing.
  lemma EndsRightIff(xs: Assigns, s: Stmt, st: Store, stk: Stack, env: Env, fuel: nat)
    requires PureAssigns(xs) && Untyped(xs) && !s.DeferStmt? && HasReturn(s) && Supported(s, false, xs) && Numbered(s)
    requires Exec(s, st, env, fuel).Normal?
    ensures EndsRight(xs, s, st, stk, env, fuel)
       <==> RunAssigns(xs, Exec(s, st, env, fuel).store, env) == Normal(Exec(s, st, env, fuel).store)
  {
    hide Exec, ExecBlock, Supported, Ending, FuncCode, HasReturn, Numbered, PureAssigns, Step, Run, RunAssigns;
    var p, left := FuncProgram(Ending(xs, s), env), Exec(s, st, env, fuel).store;
    EndSkips(xs, s, st, stk, env, fuel);
    var end := Running(|p.code|, left, stk);
    var m: nat :| Run(p, Running(0, st, stk), m) == end;
    assert MachineEnds(p, st, stk, end, m);
    var t := FinalState(Ending(xs, s), stk, ExecBlock(Ending(xs, s), NoAssigns, st, env, fuel));
    if n: nat :| MachineEnds(p, st, stk, t, n) {
      StopsOnce(p, Running(0, st, stk), m, n);
    }
  }

  /**
   * When a statement with a return ends without returning: the machine stops as the source
   * ends, for all assignments to these places and calls of these functions that are deferred,
   * exactly when nothing is deferred.
   */
  lemma EndExact(xs: Assigns, s: Stmt, st: Store, stk: Stack, env: Env, fuel: nat)
    requires PureAssigns(xs) && Untyped(xs) && !s.DeferStmt? && HasReturn(s) && Supported(s, false, xs) && Numbered(s)
    requires Exec(s, st, env, fuel).Normal?
    ensures (forall ys :: SamePlaces(xs, ys) && PureAssigns(ys) && Untyped(ys) ==> EndsRight(ys, s, st, stk, env, fuel))
       <==> xs.NoAssigns?
  {
    hide EndsRight, Exec, Supported, HasReturn, Numbered;
    var left := Exec(s, st, env, fuel).store;
    if xs.NoAssigns? {
      EndsRightIff(NoAssigns, s, st, stk, env, fuel);
    } else {
      var v := AllSetChanges(xs, left, env);
      AllSetUntyped(xs, v);
      SamePlacesSupported(s, false, xs, AllSet(xs, v));
      EndsRightIff(AllSet(xs, v), s, st, stk, env, fuel);
    }
  }
}
