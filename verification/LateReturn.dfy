// Late returns.

module LateReturn {
  // Returning a variable that a pending deferred assignment writes.

  import opened Ir
  import opened Machine
  import opened Ast
  import opened LowerStmt
  import opened StmtCorrect

  /**
   * The returned variable is read only after the deferred statements have run, so the
   * function returns what they leave in it.
   */
  lemma ReadLate(p: Program, k: int, r: Name, ty: TypeId, ctx: Ctx, st: Store, stk: Stack)
    requires PureAssigns(ctx.pending) && RunAssigns(ctx.pending, st, p.env).Normal?
    requires At(p.code, k, StmtCode(ReturnStmt(Some(Ident(r)), ty), ctx))
    ensures var st' := RunAssigns(ctx.pending, st, p.env).store;
            Reaches(p, Running(k, st, stk), Returned(st', Answer(ty, Read(st', r))))
  {
    hide RunAssigns, Reaches, AssignsCode, PureAssigns;
    var last := Instr(Return, ty, [RefOp(r)]);
    var st' := RunAssigns(ctx.pending, st, p.env).store;
    assert StmtCode(ReturnStmt(Some(Ident(r)), ty), ctx) == AssignsCode(ctx.pending) + [last];
    LeaveReaches(p, k, last, ctx.pending, st, stk);
    ReturnValue(p, k, last, ctx.pending, st, stk, Read(st', r), stk);
  }

  predicate SameTarget(w: Later, x: Later) {
    match w
    case AssignLater(d, _) => x.AssignLater? && x.dest == d
    case CallLater(f, _) => x.CallLater? && x.callee == f
  }

  // Deferred assignments to the same places and calls of the same functions.
  predicate SamePlaces(xs: Assigns, ys: Assigns) {
    match xs
    case NoAssigns => ys.NoAssigns?
    case MoreAssigns(_, w, rest) => ys.MoreAssigns? && SameTarget(w, ys.what) && SamePlaces(rest, ys.rest)
  }

  // What is returned is the value the variable had at the return statement.
  predicate ReturnRight(r: Ref, xs: Assigns, st: Store, env: Env) {
    RunAssigns(xs, st, env).Normal? ==> Read(RunAssigns(xs, st, env).store, r) == Read(st, r)
  }

  // The same places, all set to one number, and the same functions, called without arguments.
  function AllSet(xs: Assigns, v: int): Assigns {
    match xs
    case NoAssigns => NoAssigns
    case MoreAssigns(ty, w, rest) =>
      var plain := match w case AssignLater(d, _) => AssignLater(d, IntLit(v, Int32Type)) case CallLater(f, _) => CallLater(f, NoExprs);
      MoreAssigns(ty, plain, AllSet(rest, v))
  }

  function CallsIn(xs: Assigns): nat {
    if xs.NoAssigns? then 0 else (if xs.what.CallLater? then 1 else 0) + CallsIn(xs.rest)
  }

  lemma {:induction false} AllSetRun(xs: Assigns, v: int, r: Ref, st: Store, env: Env)
    requires PureAssigns(xs)
    ensures SamePlaces(xs, AllSet(xs, v)) && PureAssigns(AllSet(xs, v))
    ensures var o := RunAssigns(AllSet(xs, v), st, env);
            && o.Normal? && |o.store.calls| == |st.calls| + CallsIn(xs)
            && (Assigned(r, xs) || Read(st, r) == v ==> Read(o.store, r) == v)
    decreases xs
  {
    if xs.MoreAssigns? {
      AllSetRun(xs.rest, v, r, RunLater(AllSet(xs, v).what, st, env).store, env);
    }
  }

  lemma {:induction false} SamePlacesAssigned(r: Ref, xs: Assigns, ys: Assigns)
    requires SamePlaces(xs, ys)
    ensures Assigned(r, xs) == Assigned(r, ys)
    decreases xs
  {
    if xs.MoreAssigns? {
      SamePlacesAssigned(r, xs.rest, ys.rest);
    }
  }

  /**
   * A variable is returned with its value at the return statement, for all deferred
   * assignments to these places and all stores, exactly when it is none of the places.
   */
  lemma ReturnExact(r: Ref, xs: Assigns, env: Env)
    requires PureAssigns(xs)
    ensures (forall ys, st :: SamePlaces(xs, ys) && PureAssigns(ys) ==> ReturnRight(r, ys, st, env))
       <==> !Assigned(r, xs)
  {
    if Assigned(r, xs) {
      AllSetRun(xs, 1, r, NOTHING, env);
      assert !ReturnRight(r, AllSet(xs, 1), NOTHING, env);
    } else {
      forall ys, st | SamePlaces(xs, ys) && PureAssigns(ys)
        ensures ReturnRight(r, ys, st, env)
      {
        SamePlacesAssigned(r, xs, ys);
        AssignsKeep(ys, r, st, env);
      }
    }
  }
}
