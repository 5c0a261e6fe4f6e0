// Which elements a numeric for visits.

module ForLoop {
  import opened Ir
  import opened Machine
  import opened Ast
  import opened LowerStmt
  import opened Escape
  import opened StmtCorrect
  import opened X64Arith

  // ----- More fuel changes nothing once a run has ended -----

  lemma {:induction false} ExecMore(s: Stmt, st: Store, env: Env, f: nat, g: nat)
    requires f <= g && !Exec(s, st, env, f).Timeout?
    ensures Exec(s, st, env, g) == Exec(s, st, env, f)
    decreases f, s, 1
  {
    match s
    case If(_, c, thn, els) =>
      var v, made := EvalCond(c, st, env), RanCond(c, st, env);
      if v == Some(true) {
        ExecMore(thn, made, env, f, g);
      } else if v == Some(false) && els.Some? {
        ExecMore(els.value, made, env, f, g);
      }
    case While(_, _, _) => WhileMore(s, st, env, f, g);
    case For(_, r, _) =>
      var v := RunAssigns(RangeAssigns(r), st, env);
      if v.Normal? {
        ForMore(s, v.store, env, f, g);
      }
    case Block(b) => BlockMore(b, NoAssigns, st, env, f, g);
    case _ =>
  }

  lemma {:induction false} WhileMore(s: Stmt, st: Store, env: Env, f: nat, g: nat)
    requires s.While? && f <= g && !ExecWhile(s, st, env, f).Timeout?
    ensures ExecWhile(s, st, env, g) == ExecWhile(s, st, env, f)
    decreases f, s, 0
  {
    if EvalCond(s.cond, st, env) == Some(true) {
      var made := RanCond(s.cond, st, env);
      ExecMore(s.body, made, env, f - 1, g - 1);
      var o := Exec(s.body, made, env, f - 1);
      if o.Normal? || o.Continued? {
        WhileMore(s, o.store, env, f - 1, g - 1);
      }
    }
  }

  lemma {:induction false} ForMore(s: Stmt, st: Store, env: Env, f: nat, g: nat)
    requires s.For? && f <= g && !ExecFor(s, st, env, f).Timeout?
    ensures ExecFor(s, st, env, g) == ExecFor(s, st, env, f)
    decreases f, s, 0
  {
    if InRange(s.range, st) {
      ExecMore(s.body, SetStep(s.range, st), env, f - 1, g - 1);
      var o := Exec(s.body, SetStep(s.range, st), env, f - 1);
      if (o.Normal? || o.Continued?) && Advance(s.range, o.store, env).Some? {
        ForMore(s, Advance(s.range, o.store, env).value, env, f - 1, g - 1);
      }
    }
  }

  lemma {:induction false} BlockMore(b: Stmts, ds: Assigns, st: Store, env: Env, f: nat, g: nat)
    requires f <= g && !ExecBlock(b, ds, st, env, f).Timeout?
    ensures ExecBlock(b, ds, st, env, g) == ExecBlock(b, ds, st, env, f)
    decreases f, b, 0
  {
    if b.MoreStmts? {
      var s := b.head;
      if s.DeferStmt? {
        BlockMore(b.tail, MoreAssigns(NoType, s.what, ds), st, env, f, g);
      } else {
        ExecMore(s, st, env, f, g);
        var o := Exec(s, st, env, f);
        if o.Normal? {
          BlockMore(b.tail, ds, o.store, env, f, g);
        }
      }
    }
  }

  // ----- Places a statement never writes -----

  predicate Untouched(r: Ref, s: Stmt)
    decreases s
  {
    match s
    case Assign(d, _) => d != r
    case If(_, _, thn, els) => Untouched(r, thn) && (els.Some? ==> Untouched(r, els.value))
    case While(_, _, body) => Untouched(r, body)
    case For(_, g, body) => !Assigned(r, RangeAssigns(g)) && r != g.stepvar && Untouched(r, body)
    case Block(b) => UntouchedAll(r, b)
    case DeferStmt(w) => w.AssignLater? ==> w.dest != r
    case _ => true
  }

  predicate UntouchedAll(r: Ref, b: Stmts)
    decreases b
  {
    b.MoreStmts? ==> Untouched(r, b.head) && UntouchedAll(r, b.tail)
  }

  predicate Same(r: Ref, st: Store, st': Store) {
    r in st.vars ==> r in st'.vars && st'.vars[r] == st.vars[r]
  }

  // In the store of the outcome r is as it was.
  predicate Keeps(r: Ref, st: Store, o: Outcome) {
    Same(r, st, o.store)
  }

  lemma {:induction false} AssignsUntouched(r: Ref, xs: Assigns, st: Store, env: Env)
    requires !Assigned(r, xs)
    ensures Keeps(r, st, RunAssigns(xs, st, env))
    decreases xs
  {
    if xs.MoreAssigns? {
      LaterVars(xs.what, st, env);
      var o := RunLater(xs.what, st, env);
      if o.Normal? {
        AssignsUntouched(r, xs.rest, o.store, env);
      }
    }
  }

  lemma {:induction false} CondVars(c: Cond, st: Store, env: Env)
    ensures RanCond(c, st, env).vars == st.vars
    decreases c
  {
    match c
    case Cmp(_, _, _, a, b) =>
      RanVars(a, st, env);
      RanVars(b, Ran(a, st, env), env);
    case Bang(_, x) => CondVars(x, st, env);
    case Logic(_, _, l, r) =>
      CondVars(l, st, env);
      CondVars(r, RanCond(l, st, env), env);
  }

  lemma {:induction false} ExecKeeps(r: Ref, s: Stmt, st: Store, env: Env, f: nat)
    requires Untouched(r, s)
    ensures Keeps(r, st, Exec(s, st, env, f))
    decreases f, s, 1
  {
    match s
    case Assign(_, e) => RanVars(e, st, env);
    case ExprStmt(e) => RanVars(e, st, env);
    case CallStmt(_, args) => RanAllVars(args, st, env);
    case If(_, c, thn, els) =>
      var made := RanCond(c, st, env);
      CondVars(c, st, env);
      ExecKeeps(r, thn, made, env, f);
      if els.Some? {
        ExecKeeps(r, els.value, made, env, f);
      }
    case While(_, _, _) => LoopKeeps(r, s, st, env, f);
    case For(_, g, _) =>
      AssignsUntouched(r, RangeAssigns(g), st, env);
      var v := RunAssigns(RangeAssigns(g), st, env);
      if v.Normal? {
        LoopKeeps(r, s, v.store, env, f);
      }
    case Block(b) => BlockKeeps(r, b, NoAssigns, st, env, f);
    case ReturnStmt(Some(e), _) => RanVars(e, st, env);
    case _ =>
  }

  lemma {:induction false} LoopKeeps(r: Ref, s: Stmt, st: Store, env: Env, f: nat)
    requires Untouched(r, s)
    ensures s.While? ==> Keeps(r, st, ExecWhile(s, st, env, f))
    ensures s.For? ==> Keeps(r, st, ExecFor(s, st, env, f))
    decreases f, s, 0
  {
    hide RanCond, EvalCond, InRange, Assigned;
    if f > 0 && s.While? {
      var made := RanCond(s.cond, st, env);
      CondVars(s.cond, st, env);
      ExecKeeps(r, s.body, made, env, f - 1);
      var o := Exec(s.body, made, env, f - 1);
      if o.Normal? || o.Continued? {
        LoopKeeps(r, s, o.store, env, f - 1);
      }
    } else if f > 0 && s.For? {
      var st1 := SetStep(s.range, st);
      assert r != s.range.elem by { RangeElem(r, s.range); }
      ExecKeeps(r, s.body, st1, env, f - 1);
      var o := Exec(s.body, st1, env, f - 1);
      if (o.Normal? || o.Continued?) && Advance(s.range, o.store, env).Some? {
        LoopKeeps(r, s, Advance(s.range, o.store, env).value, env, f - 1);
      }
    }
  }

  lemma RangeElem(r: Ref, g: Range)
    requires !Assigned(r, RangeAssigns(g))
    ensures r != g.elem
  {
    var xs := RangeAssigns(g);
    assert !Assigned(r, xs.rest.rest);
    if g.step.Some? {
      assert !Assigned(r, xs.rest.rest.rest);
    }
  }

  lemma {:induction false} BlockKeeps(r: Ref, b: Stmts, ds: Assigns, st: Store, env: Env, f: nat)
    requires UntouchedAll(r, b) && !Assigned(r, ds)
    ensures Keeps(r, st, ExecBlock(b, ds, st, env, f))
    decreases f, b, 0
  {
    match b
    case NoStmts => LeaveKeeps(r, ds, st, Normal(st), env);
    case MoreStmts(s, rest) =>
      if s.DeferStmt? {
        BlockKeeps(r, rest, MoreAssigns(NoType, s.what, ds), st, env, f);
      } else {
        ExecKeeps(r, s, st, env, f);
        var o := Exec(s, st, env, f);
        if o.Normal? {
          BlockKeeps(r, rest, ds, o.store, env, f);
        } else {
          LeaveKeeps(r, ds, st, o, env);
        }
      }
  }

  lemma LeaveKeeps(r: Ref, ds: Assigns, st: Store, o: Outcome, env: Env)
    requires !Assigned(r, ds) && Keeps(r, st, o)
    ensures Keeps(r, st, Leave(ds, o, env))
  {
    AssignsUntouched(r, ds, o.store, env);
  }

  // ----- The elements -----

  predicate Short(a: int, b: int, s: int) {
    if s > 0 then a < b else a > b
  }

  // How many elements lie in a progression from a short of b.
  function Count(a: int, b: int, s: int): nat
    requires s != 0
    decreases if s > 0 then b - a else a - b
  {
    if Short(a, b, s) then 1 + Count(a + s, b, s) else 0
  }

  function Elements(a: int, b: int, s: int): seq<int>
    requires s != 0
    decreases if s > 0 then b - a else a - b
  {
    if Short(a, b, s) then [a] + Elements(a + s, b, s) else []
  }

  // The first value that is not short of b.
  function Past(a: int, b: int, s: int): int
    requires s != 0
    decreases if s > 0 then b - a else a - b
  {
    if Short(a, b, s) then Past(a + s, b, s) else a
  }

  lemma Shifted(a: int, s: int, i: int)
    ensures a + i * s == (a + s) + (i - 1) * s
  {
  }

  /** The elements are a, a + s, a + 2s, ..., all of them short of b, and the next is not. */
  lemma {:induction false} ElementsAre(a: int, b: int, s: int)
    requires s != 0
    ensures |Elements(a, b, s)| == Count(a, b, s)
    ensures forall i :: 0 <= i < Count(a, b, s) ==> Elements(a, b, s)[i] == a + i * s && Short(a + i * s, b, s)
    ensures Past(a, b, s) == a + Count(a, b, s) * s && !Short(Past(a, b, s), b, s)
    decreases if s > 0 then b - a else a - b
  {
    if Short(a, b, s) {
      ElementsAre(a + s, b, s);
      var n := Count(a + s, b, s);
      Shifted(a, s, n + 1);
      forall i | 0 <= i < n + 1
        ensures Elements(a, b, s)[i] == a + i * s && Short(a + i * s, b, s)
      {
        if i > 0 {
          assert Elements(a, b, s)[i] == Elements(a + s, b, s)[i - 1];
          Shifted(a, s, i);
        }
      }
    }
  }

  // With steps of one the range ends exactly at its bound.
  lemma {:induction false} UnitCount(a: int, b: int)
    ensures a <= b ==> Count(a, b, 1) == b - a
    ensures a >= b ==> Count(a, b, -1) == a - b
    ensures (a <= b ==> Past(a, b, 1) == b) && (a >= b ==> Past(a, b, -1) == b)
    decreases if a <= b then b - a else a - b
  {
    if a < b {
      UnitCount(a + 1, b);
    } else if a > b {
      UnitCount(a - 1, b);
    }
  }

  // The meaning the documentation gives a numeric for: the body runs for each element.
  function Visit(elem: Ref, body: Stmt, vs: seq<int>, st: Store, env: Env, f: nat): Outcome
    decreases |vs|
  {
    if vs == [] then Normal(st)
    else
      match Exec(body, Set(st, elem, vs[0]), env, f)
      case Normal(st') => Visit(elem, body, vs[1..], st', env, f)
      case Continued(st') => Visit(elem, body, vs[1..], st', env, f)
      case o => o
  }

  // ----- The theorem -----

  // The compiler's variables of the loop are distinct and the body writes none of them.
  predicate Undisturbed(s: Stmt)
    requires s.For?
  {
    var g := s.range;
    && g.elem != First(g) && g.elem != Second(g) && g.elem != g.stepvar
    && Untouched(g.elem, s.body) && Untouched(g.stepvar, s.body)
    && Untouched(First(g), s.body) && Untouched(Second(g), s.body)
  }

  predicate Is(st: Store, r: Ref, v: int) {
    r in st.vars && st.vars[r] == v
  }

  // The loop variables hold the range a, b and the current element v; d is the step.
  predicate LoopState(g: Range, st: Store, a: int, b: int, d: int, v: int) {
    && Is(st, First(g), a) && Is(st, Second(g), b) && Is(st, g.elem, v)
    && (if g.step.Some? then Is(st, g.stepvar, d) else d == if a < b then 1 else -1)
  }

  predicate RightWay(a: int, b: int, d: int) {
    d != 0 && (a < b ==> d > 0) && (a > b ==> d < 0)
  }

  ghost predicate AddsExactly(env: Env, v: int, b: int, d: int)
    requires d != 0
  {
    forall x | x in Elements(v, b, d) :: env.arith(Add, x, d) == Some(x + d)
  }

  // A loop that was not left early ends with the first value past the range.
  function LoopOutcome(g: Range, past: int, o: Outcome): Outcome {
    match o
    case Normal(st) => Normal(Set(st, g.elem, past))
    case Broke(st) => Normal(st)
    case _ => o
  }

  lemma LoopStateKept(g: Range, s: Stmt, st: Store, env: Env, f: nat, a: int, b: int, d: int, v: int)
    requires s.For? && g == s.range && Undisturbed(s) && LoopState(g, st, a, b, d, v)
    requires GoesOn(Exec(s.body, SetStep(g, st), env, f))
    ensures var st' := Exec(s.body, SetStep(g, st), env, f).store;
            LoopState(g, st', a, b, d, v) && SetStep(g, st') == st' && Is(st', g.stepvar, d)
  {
    var st1 := SetStep(g, st);
    ExecKeeps(g.elem, s.body, st1, env, f);
    ExecKeeps(g.stepvar, s.body, st1, env, f);
    ExecKeeps(First(g), s.body, st1, env, f);
    ExecKeeps(Second(g), s.body, st1, env, f);
  }

  lemma {:induction false} ForVisits(s: Stmt, st: Store, env: Env, a: int, b: int, d: int, v: int, f: nat)
    requires s.For? && Undisturbed(s)
    requires LoopState(s.range, st, a, b, d, v) && RightWay(a, b, d) && (a == b ==> v == b)
    requires AddsExactly(env, v, b, d)
    ensures var n, o := Count(v, b, d), Visit(s.range.elem, s.body, Elements(v, b, d), SetStep(s.range, st), env, f);
            !o.Timeout? ==> ExecFor(s, st, env, f + n + 1) == LoopOutcome(s.range, Past(v, b, d), o)
    decreases Count(v, b, d), 1
  {
    hide Exec, AddsExactly;
    var g, st1 := s.range, SetStep(s.range, st);
    assert InRange(g, st) <==> Short(v, b, d);
    assert Set(st1, g.elem, v) == st1;
    if Short(v, b, d) {
      var n := Count(v, b, d);
      assert Elements(v, b, d)[1..] == Elements(v + d, b, d);
      var o := Exec(s.body, st1, env, f);
      if !o.Timeout? {
        ExecMore(s.body, st1, env, f, f + n);
        if GoesOn(o) {
          ForVisitsOn(s, st, env, a, b, d, v, f);
        }
      }
    }
  }

  // After a body run that goes on the rest of the elements are visited.
  lemma {:induction false} ForVisitsOn(s: Stmt, st: Store, env: Env, a: int, b: int, d: int, v: int, f: nat)
    requires s.For? && Undisturbed(s)
    requires LoopState(s.range, st, a, b, d, v) && RightWay(a, b, d) && (a == b ==> v == b)
    requires AddsExactly(env, v, b, d) && Short(v, b, d)
    requires GoesOn(Exec(s.body, SetStep(s.range, st), env, f))
    ensures var st1 := Exec(s.body, SetStep(s.range, st), env, f).store;
            var n, o := Count(v, b, d), Visit(s.range.elem, s.body, Elements(v + d, b, d), st1, env, f);
            && Advance(s.range, st1, env).Some?
            && (!o.Timeout? ==>
                  ExecFor(s, Advance(s.range, st1, env).value, env, f + n) == LoopOutcome(s.range, Past(v, b, d), o))
    decreases Count(v, b, d), 0
  {
    hide Untouched, Exec, ExecFor, LoopState, SetStep, Visit, AddsExactly;
    var g, n := s.range, Count(v, b, d);
    var st1 := Exec(s.body, SetStep(g, st), env, f).store;
    LoopStateKept(g, s, st, env, f, a, b, d, v);
    NextElement(v, b, d, env);
    var st2 := Set(st1, g.elem, v + d);
    NextState(g, st1, a, b, d, v);
    ForVisits(s, st2, env, a, b, d, v + d, f);
    VisitFrom(g.elem, s.body, Elements(v + d, b, d), st1, v + d, env, f, Past(v, b, d), g);
  }

  lemma NextState(g: Range, st: Store, a: int, b: int, d: int, v: int)
    requires LoopState(g, st, a, b, d, v) && Is(st, g.stepvar, d)
    requires g.elem != First(g) && g.elem != Second(g) && g.elem != g.stepvar
    ensures var st' := Set(st, g.elem, v + d); LoopState(g, st', a, b, d, v + d) && SetStep(g, st') == st'
    ensures Read(st, g.elem) == v && Read(st, g.stepvar) == d
  {
    var st' := Set(st, g.elem, v + d);
    assert SetStep(g, st') == st';
  }

  lemma NextElement(v: int, b: int, d: int, env: Env)
    requires d != 0 && Short(v, b, d) && AddsExactly(env, v, b, d)
    ensures AddsExactly(env, v + d, b, d) && env.arith(Add, v, d) == Some(v + d)
    ensures Count(v, b, d) == 1 + Count(v + d, b, d) && Past(v, b, d) == Past(v + d, b, d)
    ensures (Elements(v + d, b, d) != [] ==> Elements(v + d, b, d)[0] == v + d)
  {
    assert v in Elements(v, b, d);
    forall x | x in Elements(v + d, b, d) ensures env.arith(Add, x, d) == Some(x + d) {
      assert x in Elements(v, b, d);
    }
  }

  // The visit sets the element itself, so a store that already has it makes no difference.
  lemma VisitFrom(elem: Ref, body: Stmt, vs: seq<int>, st: Store, v: int, env: Env, f: nat, past: int, g: Range)
    requires g.elem == elem && (vs != [] ==> vs[0] == v)
    ensures LoopOutcome(g, past, Visit(elem, body, vs, Set(st, elem, v), env, f))
         == LoopOutcome(g, past, Visit(elem, body, vs, st, env, f))
  {
    if vs != [] {
      assert Set(Set(st, elem, v), elem, v) == Set(st, elem, v);
    } else {
      assert Set(Set(st, elem, v), elem, past) == Set(st, elem, past);
    }
  }

  lemma FitAdds(env: Env, v: int, d: int)
    requires Fits(v + d)
    ensures Native(env).arith(Add, v, d) == Some(v + d)
  {
  }

  // Every element of the range but the first is the sum of one addition, and so is the
  // first value past it.
  lemma NextFits(v: int, b: int, d: int)
    requires d != 0 && Fits(v) && Fits(b) && Fits(Past(v, b, d)) && Short(v, b, d)
    ensures Fits(v + d)
  {
    assert Past(v, b, d) == Past(v + d, b, d);
    assert !Short(v + d, b, d) ==> Past(v + d, b, d) == v + d;
  }

  lemma {:induction false} FitsAdds(env: Env, v: int, b: int, d: int)
    requires d != 0 && Fits(v) && Fits(b) && Fits(Past(v, b, d))
    ensures AddsExactly(Native(env), v, b, d)
    decreases Count(v, b, d)
  {
    hide Native, Fits;
    if Short(v, b, d) {
      NextFits(v, b, d);
      if Short(v + d, b, d) {
        FitsAdds(env, v + d, b, d);
      }
      assert Past(v, b, d) == Past(v + d, b, d);
      forall x | x in Elements(v, b, d) ensures Native(env).arith(Add, x, d) == Some(x + d) {
        if x != v {
          assert x in Elements(v + d, b, d);
        } else {
          FitAdds(env, v, d);
        }
      }
    }
  }

  function StepOf(g: Range, st: Store): int {
    if g.step.Some? then Read(st, g.stepvar) else if Upward(g, st) then 1 else -1
  }

  /**
   * A numeric for on 64-bit values runs its body for exactly the elements of its range, in
   * order, and ends with the element variable past the range; with a step of the right
   * sign it terminates whenever its body does, provided the last addition does not overflow.
   */
  lemma ForRuns(s: Stmt, st: Store, st0: Store, env: Env, f: nat)
    requires s.For? && Undisturbed(s)
    requires RunAssigns(RangeAssigns(s.range), st, Native(env)) == Normal(st0)
    requires var a, b, d := Read(st0, First(s.range)), Read(st0, Second(s.range)), StepOf(s.range, st0);
             Fits(a) && Fits(b) && RightWay(a, b, d) && Fits(Past(a, b, d))
    ensures var g, native := s.range, Native(env);
            var a, b, d := Read(st0, First(g)), Read(st0, Second(g)), StepOf(g, st0);
            var o := Visit(g.elem, s.body, Elements(a, b, d), SetStep(g, st0), native, f);
            !o.Timeout? ==>
              Exec(s, st, native, f + Count(a, b, d) + 1) == LoopOutcome(g, Past(a, b, d), o)
  {
    hide Visit, Count, Elements, Untouched;
    var g := s.range;
    var a, b, d := Read(st0, First(g)), Read(st0, Second(g)), StepOf(g, st0);
    RangeEntered(g, st, st0, Native(env));
    FitsAdds(env, a, b, d);
    ForVisits(s, st0, Native(env), a, b, d, a, f);
  }

  lemma RangeEntered(g: Range, st: Store, st0: Store, env: Env)
    requires RunAssigns(RangeAssigns(g), st, env) == Normal(st0)
    requires g.elem != First(g) && g.elem != Second(g) && g.elem != g.stepvar
    ensures LoopState(g, st0, Read(st0, First(g)), Read(st0, Second(g)), StepOf(g, st0), Read(st0, First(g)))
  {
    var xs := RangeAssigns(g);
    var st1 := RunLater(xs.what, st, env).store;
    assert RunAssigns(xs.rest, st1, env) == Normal(st0);
    var st2 := RunLater(xs.rest.what, st1, env).store;
    assert RunAssigns(xs.rest.rest, st2, env) == Normal(st0);
    RanVars(g.end, st1, env);
    if g.step.None? {
      assert RunAssigns(NoAssigns, Set(st2, g.elem, Read(st2, First(g))), env) == Normal(st0);
    } else {
      var st3 := RunLater(xs.rest.rest.what, st2, env).store;
      assert RunAssigns(xs.rest.rest.rest, st3, env) == Normal(st0);
      RanVars(g.step.value, st2, env);
      var st4 := Set(st3, g.elem, Read(st3, First(g)));
      assert RunAssigns(xs.rest.rest.rest.rest, st4, env) == Normal(st0);
      assert RunAssigns(NoAssigns, Set(st4, g.stepvar, Read(st4, Third(g))), env) == Normal(st0);
    }
  }

  // Without an explicit step the addition never overflows.
  lemma UnitRange(a: int, b: int)
    requires Fits(a) && Fits(b)
    ensures var d := if a < b then 1 else -1;
            RightWay(a, b, d) && Fits(Past(a, b, d)) && Past(a, b, d) == b
  {
    UnitCount(a, b);
  }

  /** The code of such a loop, wherever it stands, ends as the visit of its elements does. */
  lemma ForRunsInCode(
      p: Program, k: int, s: Stmt, ctx: Ctx, jumps: bool, st: Store, stk: Stack, st0: Store,
      env: Env, f: nat)
    requires s.For? && Ready(p, ctx, jumps) && Supported(s, jumps, ctx.pending)
    requires p.env == Native(env) && At(p.code, k, StmtCode(s, ctx)) && Undisturbed(s)
    requires RunAssigns(RangeAssigns(s.range), st, p.env) == Normal(st0)
    requires var a, b, d := Read(st0, First(s.range)), Read(st0, Second(s.range)), StepOf(s.range, st0);
             Fits(a) && Fits(b) && RightWay(a, b, d) && Fits(Past(a, b, d))
    ensures var g := s.range;
            var a, b, d := Read(st0, First(g)), Read(st0, Second(g)), StepOf(g, st0);
            var o := Visit(g.elem, s.body, Elements(a, b, d), SetStep(g, st0), p.env, f);
            !o.Timeout? ==>
              Reaches(p, Running(k, st, stk), OutcomeState(p, k + |StmtCode(s, ctx)|, ctx, stk, LoopOutcome(g, Past(a, b, d), o)))
  {
    hide Visit, Count, Elements, Untouched, Reaches, StmtCode, At, Supported, Ready, Exec, OutcomeState, Native;
    var g := s.range;
    var a, b, d := Read(st0, First(g)), Read(st0, Second(g)), StepOf(g, st0);
    ForRuns(s, st, st0, env, f);
    StmtFollows(p, k, s, ctx, jumps, st, stk, f + Count(a, b, d) + 1);
  }

  // ----- continue -----

  // What one iteration of the code leaves when the body, on element v, ended with o.
  function CodeAdvances(g: Range, o: Outcome, v: int, d: int): Store
    requires GoesOn(o)
  {
    if o.Continued? then o.store else Set(o.store, g.elem, v + d)
  }

  /**
   * continue jumps to the test without advancing. From the label of the test, with
   * element v, one iteration of the code is back there; the source goes on with v + d,
   * and the code does so exactly when the body run did not end by continue. Otherwise the
   * element is visited again.
   */
  lemma ContinueRepeats(
      p: Program, k: int, s: Stmt, ctx: Ctx, jumps: bool, st: Store, stk: Stack, a: int, b: int, d: int, v: int, f: nat)
    requires s.For? && Ready(p, ctx, jumps) && PureRange(s.range) && Supported(s.body, true, ctx.pending)
    requires At(p.code, k, LoopCode(s, ctx))
    requires Undisturbed(s) && LoopState(s.range, st, a, b, d, v) && InRange(s.range, st)
    requires d != 0 && p.env.arith(Add, v, d) == Some(v + d)
    requires GoesOn(Exec(s.body, SetStep(s.range, st), p.env, f))
    ensures var g, o := s.range, Exec(s.body, SetStep(s.range, st), p.env, f);
            var st' := CodeAdvances(g, o, v, d);
            && Reaches(p, Running(k, st, stk), Running(k, st', stk))
            && LoopState(g, st', a, b, d, if o.Continued? then v else v + d)
            && ExecFor(s, st, p.env, f + 1) == ExecFor(s, Set(o.store, g.elem, v + d), p.env, f)
            && (LoopState(g, st', a, b, d, v + d) <==> !o.Continued?)
            && (st' == Set(o.store, g.elem, v + d) <==> !o.Continued?)
  {
    hide Reaches, At, Ready, Supported, LoopCode, Exec, Untouched, ForTest, Goto;
    var g := s.range;
    var st1 := SetStep(g, st);
    var o := Exec(s.body, st1, p.env, f);
    LoopStateKept(g, s, st, p.env, f, a, b, d, v);
    NextState(g, o.store, a, b, d, v);
    ForUnfold(s, st, p.env, f + 1);
    ToBody(p, k, s, ctx, jumps, st, stk);
    BodyGoesOn(p, k, s, ctx, jumps, st1, stk, f, v, d);
    ReachesTrans(p, Running(k, st, stk), Running(k + |ForTest(s.id, g)| + 1, st1, stk), Running(k, CodeAdvances(g, o, v, d), stk));
  }

  // From the label of the test of a range that goes on, to the body.
  lemma ToBody(p: Program, k: int, s: Stmt, ctx: Ctx, jumps: bool, st: Store, stk: Stack)
    requires s.For? && Ready(p, ctx, jumps) && PureRange(s.range) && At(p.code, k, LoopCode(s, ctx)) && InRange(s.range, st)
    ensures CanStep(p, Running(k, st, stk)) && Step(p, Running(k, st, stk)) == Running(k + 1, st, stk)
    ensures Reaches(p, Running(k + 1, st, stk), Running(k + |ForTest(s.id, s.range)| + 1, SetStep(s.range, st), stk))
    ensures Reaches(p, Running(k, st, stk), Running(k + |ForTest(s.id, s.range)| + 1, SetStep(s.range, st), stk))
  {
    hide Reaches, At, Ready, LoopCode, ForTest, Goto, InRange, Step;
    ForLayout(p, k, s, ctx, jumps);
    var b, st1 := k + |ForTest(s.id, s.range)|, SetStep(s.range, st);
    LabelStep(p, k, st, stk, ForCond(s.id));
    ForTestReaches(p, k, s.id, s.range, st, stk);
    LabelReaches(p, b, st1, stk, ForBody(s.id));
    ReachesTrans(p, Running(k + 1, st, stk), Running(b, st1, stk), Running(b + 1, st1, stk));
    StepThen(p, Running(k, st, stk), Running(b + 1, st1, stk));
  }

  // From the body, through the advance or past it, back to the label of the test.
  lemma BodyGoesOn(
      p: Program, k: int, s: Stmt, ctx: Ctx, jumps: bool, st: Store, stk: Stack, f: nat, v: int, d: int)
    requires s.For? && Ready(p, ctx, jumps) && PureRange(s.range) && Supported(s.body, true, ctx.pending)
    requires At(p.code, k, LoopCode(s, ctx)) && p.env.arith(Add, v, d) == Some(v + d)
    requires var o := Exec(s.body, st, p.env, f);
             GoesOn(o) && Read(o.store, s.range.elem) == v && Read(o.store, s.range.stepvar) == d
    ensures Reaches(p, Running(k + |ForTest(s.id, s.range)| + 1, st, stk),
                    Running(k, CodeAdvances(s.range, Exec(s.body, st, p.env, f), v, d), stk))
  {
    hide Reaches, At, Exec, Ready, Goto, LoopCode, ForTest, Supported, StmtCode, PureRange;
    ForLayout(p, k, s, ctx, jumps);
    var end, start := k + |LoopCode(s, ctx)|, Running(k + |ForTest(s.id, s.range)| + 1, st, stk);
    LoopReady(p, ctx, ForCtx(s.id, ctx), jumps);
    StmtFollows(p, start.pc, s.body, ForCtx(s.id, ctx), true, st, stk, f);
    var o := Exec(s.body, st, p.env, f);
    if o.Normal? {
      AdvanceReaches(p, end - 4, k, s.id, s.range, o.store, stk);
      ReachesTrans(p, start, Running(end - 4, o.store, stk), AdvanceState(p, s.range, k, o.store, stk));
    } else {
      GotoLabel(p, k, o.store, stk, ForCond(s.id));
    }
  }

  /**
   * The code of a loop whose body is just continue, on its own: it runs for ever exactly
   * when its range is not empty.
   */
  lemma ContinueForever(p: Program, s: Stmt, ctx: Ctx, jumps: bool, st: Store, stk: Stack)
    requires s.For? && s.body.Continue? && Ready(p, ctx, jumps) && PureRange(s.range) && p.code == LoopCode(s, ctx)
    requires s.range.stepvar != s.range.elem
    ensures (forall n: nat :: CanStep(p, Run(p, Running(0, st, stk), n))) <==> InRange(s.range, st)
  {
    hide Reaches, Live, Ready, LoopCode, PureRange, InRange, Run;
    assert At(p.code, 0, LoopCode(s, ctx));
    if InRange(s.range, st) {
      forall n: nat
        ensures CanStep(p, Run(p, Running(0, st, stk), n))
      {
        var late := RepeatsFor(p, s, ctx, jumps, st, stk, n);
        LiveNotStopped(p, Running(0, st, stk), n, late);
      }
    } else {
      EmptyEnds(p, s, ctx, jumps, st, stk);
    }
  }

  lemma EmptyEnds(p: Program, s: Stmt, ctx: Ctx, jumps: bool, st: Store, stk: Stack)
    requires s.For? && Ready(p, ctx, jumps) && PureRange(s.range) && p.code == LoopCode(s, ctx) && !InRange(s.range, st)
    ensures exists n: nat :: !CanStep(p, Run(p, Running(0, st, stk), n))
  {
    hide Reaches, Ready, LoopCode, PureRange, InRange, At, Goto, ForTest, Step;
    assert At(p.code, 0, LoopCode(s, ctx)) by { CodeAtStart(p.code); }
    ForLayout(p, 0, s, ctx, jumps);
    var end, st1 := |p.code|, SetStep(s.range, st);
    var out := Goto(p, LabelOp(ForEnd(s.id)), st1, stk);
    LabelStep(p, 0, st, stk, ForCond(s.id));
    ForTestReaches(p, 0, s.id, s.range, st, stk);
    GotoReaches(p, end - 1, st1, stk, ForEnd(s.id));
    ReachesTrans(p, Running(1, st, stk), out, Running(end, st1, stk));
    StepThen(p, Running(0, st, stk), Running(end, st1, stk));
    ReachedStop(p, Running(0, st, stk), Running(end, st1, stk));
  }

  lemma CodeAtStart(code: seq<Instr>)
    ensures At(code, 0, code)
  {
  }

  lemma ReachedStop(p: Program, s: State, t: State)
    requires Reaches(p, s, t) && !CanStep(p, t)
    ensures exists n: nat :: !CanStep(p, Run(p, s, n))
  {
    var n: nat :| Run(p, s, n) == t;
    assert !CanStep(p, Run(p, s, n));
  }

  lemma {:induction false} RepeatsFor(p: Program, s: Stmt, ctx: Ctx, jumps: bool, st: Store, stk: Stack, n: nat)
    returns (late: Store)
    requires s.For? && s.body.Continue? && Ready(p, ctx, jumps) && PureRange(s.range) && p.code == LoopCode(s, ctx)
    requires s.range.stepvar != s.range.elem
    requires InRange(s.range, st)
    ensures Live(p, Running(0, st, stk), n, late)
    decreases n
  {
    hide Reaches, Live, Ready, LoopCode, PureRange, At, ForTest, Step;
    CodeAtStart(p.code);
    ToBody(p, 0, s, ctx, jumps, st, stk);
    if n == 0 {
      LiveNow(p, Running(0, st, stk));
      late := st;
    } else {
      var body, again := Running(|ForTest(s.id, s.range)| + 1, SetStep(s.range, st), stk), Running(0, SetStep(s.range, st), stk);
      ContinueBack(p, s, ctx, jumps, SetStep(s.range, st), stk);
      ReachesTrans(p, Running(1, st, stk), body, again);
      late := RepeatsFor(p, s, ctx, jumps, SetStep(s.range, st), stk, n - 1);
      LiveAfter(p, Running(1, st, stk), again, n - 1, late);
      LiveStep(p, Running(0, st, stk), n - 1, late);
    }
  }

  lemma ContinueBack(p: Program, s: Stmt, ctx: Ctx, jumps: bool, st: Store, stk: Stack)
    requires s.For? && s.body.Continue? && Ready(p, ctx, jumps) && p.code == LoopCode(s, ctx)
    ensures Reaches(p, Running(|ForTest(s.id, s.range)| + 1, st, stk), Running(0, st, stk))
  {
    hide Reaches, Ready, LoopCode, At, ForTest, Goto;
    CodeAtStart(p.code);
    ForLayout(p, 0, s, ctx, jumps);
    var pc := |ForTest(s.id, s.range)| + 1;
    AtHead(p.code, pc, [JumpInstr(ForCond(s.id))]);
    JumpReaches(p, pc, st, stk, ForCond(s.id));
    GotoLabel(p, 0, st, stk, ForCond(s.id));
  }
}
