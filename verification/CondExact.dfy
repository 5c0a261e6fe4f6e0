// Which conditions are lowered correctly.

module CondExact {
  // Accepted is a check on the shape of a condition alone: its operators, their
  // nesting and the places of its comparisons.

  import opened Ir
  import opened Machine
  import opened Ast
  import opened LowerCond

  // What the jump code must do: make the calls of the condition and trap with it,
  // otherwise leave the stack alone and go to the false label exactly when it is false.
  predicate RightRoute(v: Option<bool>, made: Store, r: Route, stk: Stack) {
    match v
    case None => r == RouteTrap(made)
    case Some(b) => r.Routed? && r.store == made && r.stack == stk && (r.exit == ToFalse <==> !b)
  }

  // ----- The check -----

  predicate LeftMay(op: LogicOp, l: Cond, t: bool, x: Exit)
    decreases l, 1
  {
    if l.Bang? then false
    else if l.Cmp? && op.OrOr? then x == (if t then ToTrue else Fall)
    else May(l, t, x)
  }

  predicate MayEnter(op: LogicOp, l: Cond, r: Cond, t: bool)
    decreases l, 2
  {
    || LeftMay(op, l, t, Fall)
    || (LinksRight(op, l) && IsBinary(r) && LeftMay(op, l, t, LinkExit(op)))
  }

  predicate MayLeave(op: LogicOp, l: Cond, t: bool, x: Exit)
    decreases l, 2
  {
    x != Fall && !(LinksRight(op, l) && x == LinkExit(op)) && LeftMay(op, l, t, x)
  }

  function Combine(op: LogicOp, a: bool, b: bool): bool {
    if op.AndAnd? then a && b else a || b
  }


  /** Some condition of this shape has truth value t and leaves its code through x. */
  predicate May(c: Cond, t: bool, x: Exit)
    decreases c, 0
  {
    match c
    case Cmp(_, _, _, _, _) => x == (if t then Fall else ToFalse)
    case Bang(_, y) =>
      if y.Cmp? then x == (if t then Fall else ToFalse)
      else if y.Bang? then false
      else May(y, !t, Swap(x))
    case Logic(_, op, l, r) =>
      exists a: bool, b: bool ::
        Combine(op, a, b) == t && (MayLeave(op, l, a, x) || (MayEnter(op, l, r, a) && May(r, b, x)))
  }

  /** Some condition of this shape leaves values on the stack or jumps to a missing label. */
  predicate Strays(c: Cond) {
    match c
    case Cmp(_, _, _, _, _) => false
    case Bang(_, y) => y.Bang? || (y.Logic? && Strays(y))
    case Logic(_, op, l, r) =>
      || l.Bang? || Strays(l) || Strays(r)
      || (LinksRight(op, l) && !IsBinary(r) && (May(l, true, LinkExit(op)) || May(l, false, LinkExit(op))))
  }

  predicate Accepted(c: Cond) {
    !Strays(c) && !May(c, true, ToFalse) && !May(c, false, Fall) && !May(c, false, ToTrue)
  }

  // No exit is shared by true and false conditions of the shape.
  predicate Separated(c: Cond) {
    forall x: Exit :: !(May(c, true, x) && May(c, false, x))
  }

  predicate Can(c: Cond, t: bool) {
    May(c, t, Fall) || May(c, t, ToTrue) || May(c, t, ToFalse)
  }

  predicate LeftCan(op: LogicOp, l: Cond, t: bool) {
    LeftMay(op, l, t, Fall) || LeftMay(op, l, t, ToTrue) || LeftMay(op, l, t, ToFalse)
  }

  // ----- Properties of the check -----

  lemma MayIntro(c: Cond, a: bool, b: bool, x: Exit)
    requires c.Logic?
    requires MayLeave(c.op, c.left, a, x) || (MayEnter(c.op, c.left, c.right, a) && May(c.right, b, x))
    ensures May(c, Combine(c.op, a, b), x)
  {
  }

  lemma {:induction false} BothTruths(c: Cond, t: bool)
    requires !Strays(c)
    ensures Can(c, t)
    decreases c, 1
  {
    match c
    case Cmp(_, _, _, _, _) => assert May(c, t, if t then Fall else ToFalse);
    case Bang(_, y) =>
      if y.Cmp? {
        assert May(c, t, if t then Fall else ToFalse);
      } else {
        BothTruths(y, !t);
        assert forall x :: May(y, !t, Swap(x)) ==> May(c, t, x);
        assert Swap(Swap(Fall)) == Fall && Swap(ToTrue) == ToFalse && Swap(ToFalse) == ToTrue;
      }
    case Logic(_, op, l, r) =>
      LeftBothTruths(c, t);
      BothTruths(r, t);
      var x := LeftExit(op, l, t);
      if MayLeave(op, l, t, x) {
        MayIntro(c, t, t, x);
      } else {
        var y := if May(r, t, Fall) then Fall else if May(r, t, ToTrue) then ToTrue else ToFalse;
        MayIntro(c, t, t, y);
      }
  }

  function LeftExit(op: LogicOp, l: Cond, t: bool): (x: Exit)
    requires LeftCan(op, l, t)
    ensures LeftMay(op, l, t, x)
  {
    if LeftMay(op, l, t, Fall) then Fall else if LeftMay(op, l, t, ToTrue) then ToTrue else ToFalse
  }

  lemma {:induction false} LeftBothTruths(c: Cond, t: bool)
    requires c.Logic? && !Strays(c)
    ensures LeftCan(c.op, c.left, t)
    ensures forall x :: LeftMay(c.op, c.left, t, x) ==>
              MayLeave(c.op, c.left, t, x) || GoesRight(c.op, c.left, c.right, x)
    decreases c, 0
  {
    if c.left.Cmp? && c.op.OrOr? {
      assert LeftMay(c.op, c.left, t, if t then ToTrue else Fall);
    } else {
      BothTruths(c.left, t);
    }
  }

  // In a separated condition an operand that decides the result always leaves, an
  // operand that does not decide it always enters, and both operands are separated.
  lemma SeparatedParts(c: Cond)
    requires c.Logic? && !Strays(c) && Separated(c)
    ensures !MayEnter(c.op, c.left, c.right, c.op.OrOr?)
    ensures forall x :: !MayLeave(c.op, c.left, c.op.AndAnd?, x)
    ensures Separated(c.right)
    ensures forall x :: !(LeftMay(c.op, c.left, true, x) && LeftMay(c.op, c.left, false, x))
  {
    NeverLeavesUndecided(c);
    NeverEntersDecided(c);
    var op, l, r := c.op, c.left, c.right;
    LeftBothTruths(c, op.AndAnd?);
    forall x ensures !(May(r, true, x) && May(r, false, x)) {
      if May(r, true, x) && May(r, false, x) {
        MayIntro(c, op.AndAnd?, true, x);
        MayIntro(c, op.AndAnd?, false, x);
      }
    }
    forall x ensures !(LeftMay(op, l, true, x) && LeftMay(op, l, false, x)) {
      assert LeftMay(op, l, op.AndAnd?, x) ==> GoesRight(op, l, r, x);
      assert LeftMay(op, l, op.OrOr?, x) && GoesRight(op, l, r, x) ==> MayEnter(op, l, r, op.OrOr?);
    }
  }

  lemma NeverLeavesUndecided(c: Cond)
    requires c.Logic? && !Strays(c) && Separated(c)
    ensures forall x :: !MayLeave(c.op, c.left, c.op.AndAnd?, x)
  {
    forall x ensures !MayLeave(c.op, c.left, c.op.AndAnd?, x) {
      if MayLeave(c.op, c.left, c.op.AndAnd?, x) {
        MayIntro(c, c.op.AndAnd?, true, x);
        MayIntro(c, c.op.AndAnd?, false, x);
      }
    }
  }

  lemma NeverEntersDecided(c: Cond)
    requires c.Logic? && !Strays(c) && Separated(c)
    ensures !MayEnter(c.op, c.left, c.right, c.op.OrOr?)
  {
    var op, l, r := c.op, c.left, c.right;
    if MayEnter(op, l, r, op.OrOr?) {
      NeverLeavesUndecided(c);
      LeftBothTruths(c, op.AndAnd?);
      BothTruths(r, op.AndAnd?);
      var b := op.AndAnd?;
      var x := if May(r, b, Fall) then Fall else if May(r, b, ToTrue) then ToTrue else ToFalse;
      MayIntro(c, op.AndAnd?, b, x);
      MayIntro(c, op.OrOr?, b, x);
    }
  }

  // ----- Accepted conditions are lowered correctly -----

  /** A separated condition evaluates exactly what short-circuit evaluation does. */
  lemma {:induction false} RouteAgrees(c: Cond, st: Store, env: Env, stk: Stack)
    requires !Strays(c) && Separated(c)
    ensures match EvalCond(c, st, env)
            case None => CondRoute(c, st, env, stk) == RouteTrap(RanCond(c, st, env))
            case Some(b) =>
              var r := CondRoute(c, st, env, stk);
              r.Routed? && r.store == RanCond(c, st, env) && r.stack == stk && May(c, b, r.exit)
    decreases c, 1
  {
    match c
    case Cmp(_, _, _, _, _) =>
    case Bang(_, y) =>
      if y.Logic? {
        BangSeparated(c);
        RouteAgrees(y, st, env, stk);
        BangRoute(c, st, env, stk);
      } else {
        BangCmpRoute(c, st, env, stk);
      }
    case Logic(_, _, _, _) => LogicRouteAgrees(c, st, env, stk);
  }

  lemma BangCmpRoute(c: Cond, st: Store, env: Env, stk: Stack)
    requires c.Bang? && c.arg.Cmp?
    ensures match EvalCond(c, st, env)
            case None => CondRoute(c, st, env, stk) == RouteTrap(RanCond(c, st, env))
            case Some(b) => CondRoute(c, st, env, stk) == Routed(if b then Fall else ToFalse, RanCond(c, st, env), stk)
    ensures May(c, true, Fall) && May(c, false, ToFalse)
  {
    assert EvalCond(c.arg, st, env) == EvalCmp(c.arg, st, env);
  }

  lemma BangSeparated(c: Cond)
    requires c.Bang? && c.arg.Logic? && !Strays(c) && Separated(c)
    ensures !Strays(c.arg) && Separated(c.arg)
    ensures forall t: bool, x: Exit :: May(c.arg, t, x) ==> May(c, !t, Swap(x))
  {
    forall x: Exit, t: bool
      ensures May(c.arg, t, x) == May(c, !t, Swap(x))
    {
      assert Swap(Swap(x)) == x;
    }
  }

  lemma BangRoute(c: Cond, st: Store, env: Env, stk: Stack)
    requires c.Bang? && c.arg.Logic?
    ensures match CondRoute(c.arg, st, env, stk)
            case Routed(x, st1, stk1) => CondRoute(c, st, env, stk) == Routed(Swap(x), st1, stk1)
            case o => CondRoute(c, st, env, stk) == o
  {
  }

  lemma LogicRouteAgrees(c: Cond, st: Store, env: Env, stk: Stack)
    requires c.Logic? && !Strays(c) && Separated(c)
    ensures match EvalCond(c, st, env)
            case None => CondRoute(c, st, env, stk) == RouteTrap(RanCond(c, st, env))
            case Some(b) =>
              var r := CondRoute(c, st, env, stk);
              r.Routed? && r.store == RanCond(c, st, env) && r.stack == stk && May(c, b, r.exit)
    decreases c, 0, 1
  {
    SeparatedParts(c);
    LeftRouteAgrees(c, st, env, stk);
    var op, l, r := c.op, c.left, c.right;
    var a := EvalCond(l, st, env);
    if a.Some? {
      LeftBothTruths(c, a.value);
      var x := LeftRoute(op, l, st, env, stk).exit;
      if a.value == op.OrOr? {
        assert GoesRight(op, l, r, x) ==> MayEnter(op, l, r, op.OrOr?);
        MayIntro(c, a.value, a.value, x);
      } else {
        assert GoesRight(op, l, r, x);
        var st1 := RanCond(l, st, env);
        RouteAgrees(r, st1, env, stk);
        var b := EvalCond(r, st1, env);
        if b.Some? {
          MayIntro(c, a.value, b.value, CondRoute(r, st1, env, stk).exit);
        }
      }
    }
  }

  lemma {:induction false} LeftRouteAgrees(c: Cond, st: Store, env: Env, stk: Stack)
    requires c.Logic? && !Strays(c) && Separated(c)
    ensures match EvalCond(c.left, st, env)
            case None => LeftRoute(c.op, c.left, st, env, stk) == RouteTrap(RanCond(c.left, st, env))
            case Some(b) =>
              var r := LeftRoute(c.op, c.left, st, env, stk);
              r.Routed? && r.store == RanCond(c.left, st, env) && r.stack == stk && LeftMay(c.op, c.left, b, r.exit)
    decreases c, 0, 0
  {
    SeparatedParts(c);
    if !(c.left.Cmp? && c.op.OrOr?) {
      assert forall x :: May(c.left, true, x) ==> LeftMay(c.op, c.left, true, x);
      RouteAgrees(c.left, st, env, stk);
    }
  }

  lemma AcceptedRight(c: Cond, st: Store, env: Env, stk: Stack)
    requires Accepted(c)
    ensures RightRoute(EvalCond(c, st, env), RanCond(c, st, env), CondRoute(c, st, env, stk), stk)
  {
    RouteAgrees(c, st, env, stk);
  }

  // ----- Every other shape has a condition that is lowered wrongly -----

  // The same operators, comparisons and nesting; only the compared values differ.
  predicate SameShape(c: Cond, d: Cond)
    decreases c
  {
    match c
    case Cmp(id, ty, cmp, _, _) => d.Cmp? && d.id == id && d.ty == ty && d.cmp == cmp
    case Bang(id, x) => d.Bang? && d.id == id && SameShape(x, d.arg)
    case Logic(id, op, l, r) =>
      d.Logic? && d.id == id && d.op == op && SameShape(l, d.left) && SameShape(r, d.right)
  }

  // Literals for which the comparison has a given truth value.
  function Literals(op: CmpOp, t: bool): (v: (int, int))
    ensures Compares(op, v.0, v.1) == t
  {
    match op
    case Lt => if t then (0, 1) else (1, 0)
    case Gt => if t then (1, 0) else (0, 1)
    case LtEq => if t then (0, 0) else (1, 0)
    case GtEq => if t then (0, 0) else (0, 1)
    case Eq => if t then (0, 0) else (0, 1)
    case Neq => if t then (0, 1) else (0, 0)
  }

  function CmpInstance(c: Cond, t: bool): (d: Cond)
    requires c.Cmp?
    ensures d.Cmp? && SameShape(c, d) && PureCond(d)
    ensures forall st, env :: EvalCmp(d, st, env) == Some(t) && RanCmp(d, st, env) == st
  {
    var (a, b) := Literals(c.cmp, t);
    c.(a := IntLit(a, NoType), b := IntLit(b, NoType))
  }

  // The condition has value t, makes no call, and its code leaves through x.
  predicate SettlesAt(d: Cond, t: bool, x: Exit, st: Store, env: Env, stk: Stack) {
    EvalCond(d, st, env) == Some(t) && RanCond(d, st, env) == st && CondRoute(d, st, env, stk) == Routed(x, st, stk)
  }

  predicate LeftSettlesAt(op: LogicOp, d: Cond, t: bool, x: Exit, st: Store, env: Env, stk: Stack) {
    EvalCond(d, st, env) == Some(t) && RanCond(d, st, env) == st && LeftRoute(op, d, st, env, stk) == Routed(x, st, stk)
  }

  ghost predicate Settles(d: Cond, t: bool, x: Exit) {
    forall st, env, stk :: SettlesAt(d, t, x, st, env, stk)
  }

  ghost predicate LeftSettles(op: LogicOp, d: Cond, t: bool, x: Exit) {
    forall st, env, stk :: LeftSettlesAt(op, d, t, x, st, env, stk)
  }

  /** Every exit the check allows for is taken by some condition of the shape. */
  lemma {:induction false} Witness(c: Cond, t: bool, x: Exit) returns (d: Cond)
    requires !Strays(c) && May(c, t, x)
    ensures SameShape(c, d) && PureCond(d) && Settles(d, t, x)
    decreases c, 1
  {
    match c
    case Cmp(_, _, _, _, _) =>
      d := CmpInstance(c, t);
      forall st, env, stk ensures SettlesAt(d, t, x, st, env, stk) {
        assert EvalCmp(d, st, env) == Some(t);
      }
    case Bang(_, y) =>
      if y.Cmp? {
        d := c.(arg := CmpInstance(y, !t));
        forall st, env, stk ensures SettlesAt(d, t, x, st, env, stk) {
          assert EvalCmp(d.arg, st, env) == Some(!t);
        }
      } else {
        var e := Witness(y, !t, Swap(x));
        d := c.(arg := e);
        forall st, env, stk ensures SettlesAt(d, t, x, st, env, stk) {
          assert SettlesAt(e, !t, Swap(x), st, env, stk);
        }
      }
    case Logic(_, op, l, r) =>
      var a, b :| Combine(op, a, b) == t && (MayLeave(op, l, a, x) || (MayEnter(op, l, r, a) && May(r, b, x)));
      if MayLeave(op, l, a, x) {
        d := LeavingWitness(c, a, b, x);
      } else {
        d := EnteringWitness(c, a, b, x);
      }
  }

  lemma {:induction false} LeftWitness(op: LogicOp, l: Cond, t: bool, x: Exit) returns (d: Cond)
    requires !Strays(l) && LeftMay(op, l, t, x)
    ensures SameShape(l, d) && PureCond(d) && LeftSettles(op, d, t, x)
    decreases l, 2
  {
    if l.Cmp? && op.OrOr? {
      d := CmpInstance(l, t);
    } else {
      d := Witness(l, t, x);
      forall st, env, stk ensures LeftSettlesAt(op, d, t, x, st, env, stk) {
        assert SettlesAt(d, t, x, st, env, stk);
      }
    }
  }

  lemma {:induction false} LeavingWitness(c: Cond, a: bool, b: bool, x: Exit) returns (d: Cond)
    requires c.Logic? && !Strays(c) && MayLeave(c.op, c.left, a, x)
    ensures SameShape(c, d) && PureCond(d) && Settles(d, Combine(c.op, a, b), x)
    decreases c, 0, 1
  {
    var l' := LeftWitness(c.op, c.left, a, x);
    BothTruths(c.right, b);
    var y := if May(c.right, b, Fall) then Fall else if May(c.right, b, ToTrue) then ToTrue else ToFalse;
    var r' := Witness(c.right, b, y);
    d := c.(left := l', right := r');
    forall st, env, stk ensures SettlesAt(d, Combine(c.op, a, b), x, st, env, stk) {
      assert LeftSettlesAt(c.op, l', a, x, st, env, stk) && SettlesAt(r', b, y, st, env, stk);
    }
  }

  lemma {:induction false} EnteringWitness(c: Cond, a: bool, b: bool, x: Exit) returns (d: Cond)
    requires c.Logic? && !Strays(c) && MayEnter(c.op, c.left, c.right, a) && May(c.right, b, x)
    ensures SameShape(c, d) && PureCond(d) && Settles(d, Combine(c.op, a, b), x)
    decreases c, 0, 1
  {
    var y := if LeftMay(c.op, c.left, a, Fall) then Fall else LinkExit(c.op);
    var l' := LeftWitness(c.op, c.left, a, y);
    var r' := Witness(c.right, b, x);
    d := c.(left := l', right := r');
    forall st, env, stk ensures SettlesAt(d, Combine(c.op, a, b), x, st, env, stk) {
      assert LeftSettlesAt(c.op, l', a, y, st, env, stk) && SettlesAt(r', b, x, st, env, stk);
    }
  }

  function Depth(stk: Stack): nat {
    if stk.Empty? then 0 else 1 + Depth(stk.rest)
  }

  // Leaves garbage on the stack or jumps to a missing label.
  predicate Astray(r: Route, stk: Stack) {
    r.Lost? || (r.Routed? && Depth(r.stack) > Depth(stk))
  }

  // All comparisons true, so that nothing traps.
  function Constant(c: Cond): (d: Cond)
    ensures SameShape(c, d) && PureCond(d)
  {
    match c
    case Cmp(_, _, _, _, _) => CmpInstance(c, true)
    case Bang(_, x) => c.(arg := Constant(x))
    case Logic(_, _, l, r) => c.(left := Constant(l), right := Constant(r))
  }

  lemma {:induction false} ConstantValue(c: Cond, invert: bool, st: Store, env: Env, stk: Stack)
    ensures var r := ValueRoute(Constant(c), invert, st, env, stk);
            r.Routed? && r.exit == Fall && Depth(r.stack) > Depth(stk)
    decreases c
  {
    match c
    case Cmp(_, _, _, _, _) =>
    case Bang(_, x) => ConstantValue(x, x.Cmp?, st, env, stk);
    case Logic(_, _, l, r) =>
      ConstantValue(l, false, st, env, stk);
      var first := ValueRoute(Constant(l), false, st, env, stk);
      ConstantValue(r, false, first.store, env, first.stack);
  }

  // The code of a constant condition never shrinks the stack.
  lemma {:induction false} ConstantRoute(c: Cond, st: Store, env: Env, stk: Stack)
    ensures var r := CondRoute(Constant(c), st, env, stk);
            r.Lost? || (r.Routed? && Depth(r.stack) >= Depth(stk))
    decreases c
  {
    match c
    case Cmp(_, _, _, _, _) =>
    case Bang(_, x) =>
      if x.Bang? {
        ConstantValue(x, false, st, env, stk);
      } else if x.Logic? {
        ConstantRoute(x, st, env, stk);
      }
    case Logic(_, op, l, r) =>
      if l.Bang? {
        ConstantValue(l, false, st, env, stk);
      } else {
        ConstantRoute(l, st, env, stk);
      }
      var first := LeftRoute(op, Constant(l), st, env, stk);
      if first.Routed? {
        ConstantRoute(r, first.store, env, first.stack);
      }
  }

  lemma {:induction false} StrayWitness(c: Cond) returns (d: Cond)
    requires Strays(c)
    ensures SameShape(c, d) && PureCond(d)
    ensures forall st, env, stk :: Astray(CondRoute(d, st, env, stk), stk)
    decreases c
  {
    match c
    case Bang(_, y) =>
      if y.Bang? {
        d := Constant(c);
        forall st, env, stk ensures Astray(CondRoute(d, st, env, stk), stk) {
          ConstantValue(y, false, st, env, stk);
        }
      } else {
        var e := StrayWitness(y);
        d := c.(arg := e);
        forall st, env, stk ensures Astray(CondRoute(d, st, env, stk), stk) {
          assert Astray(CondRoute(e, st, env, stk), stk);
        }
      }
    case Logic(_, _, l, r) =>
      if l.Bang? {
        d := StrayBang(c);
      } else if Strays(l) {
        d := StrayLeft(c);
      } else if Strays(r) {
        d := StrayRight(c);
      } else {
        d := StrayLink(c);
      }
  }

  lemma StrayBang(c: Cond) returns (d: Cond)
    requires c.Logic? && c.left.Bang?
    ensures SameShape(c, d) && PureCond(d)
    ensures forall st, env, stk :: Astray(CondRoute(d, st, env, stk), stk)
  {
    d := Constant(c);
    forall st, env, stk ensures Astray(CondRoute(d, st, env, stk), stk) {
      ConstantValue(c.left, false, st, env, stk);
      var first := ValueRoute(Constant(c.left), false, st, env, stk);
      ConstantRoute(c.right, first.store, env, first.stack);
    }
  }

  lemma {:induction false} StrayLeft(c: Cond) returns (d: Cond)
    requires c.Logic? && Strays(c.left) && !c.left.Bang?
    ensures SameShape(c, d) && PureCond(d)
    ensures forall st, env, stk :: Astray(CondRoute(d, st, env, stk), stk)
    decreases c, 0
  {
    var l' := StrayWitness(c.left);
    d := c.(left := l', right := Constant(c.right));
    forall st, env, stk ensures Astray(CondRoute(d, st, env, stk), stk) {
      var first := CondRoute(l', st, env, stk);
      assert Astray(first, stk);
      if first.Routed? {
        ConstantRoute(c.right, first.store, env, first.stack);
      }
    }
  }

  // Some condition of every shape that does not stray falls through.
  lemma {:induction false} FallExists(c: Cond) returns (t: bool)
    requires !Strays(c)
    ensures May(c, t, Fall)
    decreases c
  {
    match c
    case Cmp(_, _, _, _, _) => t := true;
    case Bang(_, y) =>
      if y.Cmp? {
        t := true;
      } else {
        var u := FallExists(y);
        t := !u;
      }
    case Logic(_, op, l, r) =>
      var a: bool;
      if l.Cmp? {
        a := op.AndAnd?;
      } else {
        a := FallExists(l);
      }
      var b := FallExists(r);
      assert LeftMay(op, l, a, Fall);
      MayIntro(c, a, b, Fall);
      t := Combine(op, a, b);
  }

  lemma {:induction false} StrayRight(c: Cond) returns (d: Cond)
    requires c.Logic? && !c.left.Bang? && !Strays(c.left) && Strays(c.right)
    ensures SameShape(c, d) && PureCond(d)
    ensures forall st, env, stk :: Astray(CondRoute(d, st, env, stk), stk)
    decreases c, 0
  {
    var a: bool;
    if c.left.Cmp? {
      a := c.op.AndAnd?;
    } else {
      a := FallExists(c.left);
    }
    var l' := LeftWitness(c.op, c.left, a, Fall);
    var r' := StrayWitness(c.right);
    d := c.(left := l', right := r');
    forall st, env, stk ensures Astray(CondRoute(d, st, env, stk), stk) {
      assert LeftSettlesAt(c.op, l', a, Fall, st, env, stk);
      assert Astray(CondRoute(r', st, env, stk), stk);
    }
  }

  lemma StrayLink(c: Cond) returns (d: Cond)
    requires c.Logic? && !c.left.Bang? && !Strays(c.left) && LinksRight(c.op, c.left) && !IsBinary(c.right)
    requires May(c.left, true, LinkExit(c.op)) || May(c.left, false, LinkExit(c.op))
    ensures SameShape(c, d) && PureCond(d)
    ensures forall st, env, stk :: Astray(CondRoute(d, st, env, stk), stk)
  {
    var a := May(c.left, true, LinkExit(c.op));
    var l' := LeftWitness(c.op, c.left, a, LinkExit(c.op));
    d := c.(left := l', right := Constant(c.right));
    forall st, env, stk ensures Astray(CondRoute(d, st, env, stk), stk) {
      assert LeftSettlesAt(c.op, l', a, LinkExit(c.op), st, env, stk);
    }
  }

  // ----- The theorem -----

  // The condition is lowered correctly, whatever is in the store and on the stack.
  ghost predicate LowersRight(d: Cond) {
    forall st, env, stk :: RightRoute(EvalCond(d, st, env), RanCond(d, st, env), CondRoute(d, st, env, stk), stk)
  }

  lemma {:induction false} ShapeKeepsMay(c: Cond, d: Cond, t: bool, x: Exit)
    requires SameShape(c, d)
    ensures May(c, t, x) == May(d, t, x)
    decreases c
  {
    match c
    case Cmp(_, _, _, _, _) =>
    case Bang(_, y) =>
      if y.Logic? {
        ShapeKeepsMay(y, d.arg, !t, Swap(x));
      }
    case Logic(_, op, l, r) =>
      forall a: bool, y: Exit ensures LeftMay(op, l, a, y) == LeftMay(op, d.left, a, y) {
        ShapeKeepsMay(l, d.left, a, y);
      }
      forall b: bool ensures May(r, b, x) == May(d.right, b, x) {
        ShapeKeepsMay(r, d.right, b, x);
      }
      forall a: bool
        ensures MayLeave(op, l, a, x) == MayLeave(op, d.left, a, x)
        ensures MayEnter(op, l, r, a) == MayEnter(op, d.left, d.right, a)
      {
      }
  }

  lemma {:induction false} ShapeKeepsStrays(c: Cond, d: Cond)
    requires SameShape(c, d)
    ensures Strays(c) == Strays(d)
    decreases c
  {
    match c
    case Cmp(_, _, _, _, _) =>
    case Bang(_, y) => ShapeKeepsStrays(y, d.arg);
    case Logic(_, op, l, r) =>
      ShapeKeepsStrays(l, d.left);
      ShapeKeepsStrays(r, d.right);
      ShapeKeepsMay(l, d.left, true, LinkExit(op));
      ShapeKeepsMay(l, d.left, false, LinkExit(op));
  }

  lemma ShapeKeepsAccepted(c: Cond, d: Cond)
    requires SameShape(c, d)
    ensures Accepted(c) == Accepted(d)
  {
    ShapeKeepsStrays(c, d);
    ShapeKeepsMay(c, d, true, ToFalse);
    ShapeKeepsMay(c, d, false, Fall);
    ShapeKeepsMay(c, d, false, ToTrue);
  }

  /**
   * A shape is accepted exactly when all its conditions are lowered correctly: for a
   * rejected shape there are compared values for which the code goes wrong.
   */
  lemma AcceptedExact(c: Cond)
    ensures Accepted(c) <==> forall d :: SameShape(c, d) && PureCond(d) ==> LowersRight(d)
  {
    if Accepted(c) {
      forall d | SameShape(c, d) && PureCond(d) ensures LowersRight(d) {
        ShapeKeepsAccepted(c, d);
        forall st, env, stk ensures RightRoute(EvalCond(d, st, env), RanCond(d, st, env), CondRoute(d, st, env, stk), stk) {
          AcceptedRight(d, st, env, stk);
        }
      }
    } else {
      var d := RejectedWitness(c);
    }
  }

  lemma RejectedWitness(c: Cond) returns (d: Cond)
    requires !Accepted(c)
    ensures SameShape(c, d) && PureCond(d) && !LowersRight(d)
  {
    var st, env, stk := NOTHING, Env(s => 0, (o, a, b) => None, (i, vs, s) => 0, (i, vs, s: Store) => s.vars), Empty;
    if Strays(c) {
      d := StrayWitness(c);
      assert Astray(CondRoute(d, st, env, stk), stk);
    } else {
      var t := May(c, true, ToFalse);
      var x := if t then ToFalse else if May(c, false, Fall) then Fall else ToTrue;
      d := Witness(c, t, x);
      assert SettlesAt(d, t, x, st, env, stk);
    }
    assert !RightRoute(EvalCond(d, st, env), RanCond(d, st, env), CondRoute(d, st, env, stk), stk);
  }

  // Where the code of a || b leaves, and that of a && b when it is true.
  lemma OrMay(c: Cond, t: bool, x: Exit)
    requires c.Logic? && c.op.OrOr? && c.left.Cmp? && c.right.Cmp?
    ensures May(c, t, x) <==> if t then x != ToFalse else x == ToFalse
    ensures !Strays(c)
  {
    var l, r := c.left, c.right;
    assert forall y: Exit :: (LeftMay(OrOr, l, true, y) <==> y == ToTrue) && (LeftMay(OrOr, l, false, y) <==> y == Fall);
    assert forall y: Exit :: (May(r, true, y) <==> y == Fall) && (May(r, false, y) <==> y == ToFalse);
    assert !MayEnter(OrOr, l, r, true) && MayEnter(OrOr, l, r, false);
    assert c == Logic(c.id, OrOr, l, r);
    if May(c, t, x) {
      var p, q :| Combine(OrOr, p, q) == t && (MayLeave(OrOr, l, p, x) || (MayEnter(OrOr, l, r, p) && May(r, q, x)));
      assert LeftMay(OrOr, l, p, x) <==> x == if p then ToTrue else Fall;
      assert MayEnter(OrOr, l, r, p) ==> !p;
      assert if t then x != ToFalse else x == ToFalse;
    }
    if t {
      if x == ToTrue {
        MayIntro(c, true, true, x);
      } else if x == Fall {
        MayIntro(c, false, true, x);
      }
    } else if x == ToFalse {
      MayIntro(c, false, false, x);
    }
  }

  /** (a || b) || c and (a && b) || c are lowered wrongly. */
  lemma LeftNestedRejected(a: Cond, b: Cond, c: Cond, i: nat, j: nat)
    requires a.Cmp? && b.Cmp? && c.Cmp?
    ensures !Accepted(Logic(i, OrOr, Logic(j, OrOr, a, b), c))
    ensures !Accepted(Logic(i, OrOr, Logic(j, AndAnd, a, b), c))
  {
    var either, both := Logic(j, OrOr, a, b), Logic(j, AndAnd, a, b);
    OrMay(either, true, Fall);
    FallIntoRight(Logic(i, OrOr, either, c));
    AndMay(both);
    FallIntoRight(Logic(i, OrOr, both, c));
  }

  /**
   * What they are lowered to instead: (a || b) || c to the code of a || (b && c), and
   * (a && b) || c to code that evaluates a && b and then goes by c alone.
   */
  lemma LeftNestedMeaning(a: Cond, b: Cond, c: Cond, i: nat, j: nat, st: Store, env: Env, stk: Stack)
    requires a.Cmp? && b.Cmp? && c.Cmp?
    ensures var other := Logic(i, OrOr, a, Logic(j, AndAnd, b, c));
            RightRoute(EvalCond(other, st, env), RanCond(other, st, env),
                       CondRoute(Logic(i, OrOr, Logic(j, OrOr, a, b), c), st, env, stk), stk)
    ensures var both := Logic(j, AndAnd, a, b);
            var r, st1 := CondRoute(Logic(i, OrOr, both, c), st, env, stk), RanCond(both, st, env);
            if EvalCond(both, st, env).None? then r == RouteTrap(st1)
            else RightRoute(EvalCond(c, st1, env), RanCond(c, st1, env), r, stk)
  {
    hide EvalCmp, RanCmp, CmpRoute;
    var either, both, inner := Logic(j, OrOr, a, b), Logic(j, AndAnd, a, b), Logic(j, AndAnd, b, c);
    var st1 := RanCmp(a, st, env);
    PairRoute(j, OrOr, a, b, st, env, stk);
    PairRoute(j, AndAnd, a, b, st, env, stk);
    PairValue(j, AndAnd, a, b, st, env);
    PairValue(j, AndAnd, b, c, st1, env);
    OverPair(i, either, c, st, env, stk);
    OverPair(i, both, c, st, env, stk);
    assert EvalCond(a, st, env) == EvalCmp(a, st, env) && RanCond(a, st, env) == st1;
    CmpRoutes(a, st, env, stk);
    CmpRoutes(b, st1, env, stk);
    CmpRoutes(c, RanCmp(b, st1, env), env, stk);
    CmpRoutes(c, RanCond(both, st, env), env, stk);
  }

  lemma CmpRoutes(c: Cond, st: Store, env: Env, stk: Stack)
    requires c.Cmp?
    ensures CondRoute(c, st, env, stk) == CmpRoute(c, Fall, ToFalse, st, env, stk)
    ensures EvalCond(c, st, env) == EvalCmp(c, st, env) && RanCond(c, st, env) == RanCmp(c, st, env)
    ensures forall x, y ::
              CmpRoute(c, x, y, st, env, stk)
              == if EvalCmp(c, st, env).None? then RouteTrap(RanCmp(c, st, env))
                 else Routed(if EvalCmp(c, st, env).value then x else y, RanCmp(c, st, env), stk)
  {
  }

  // The code of two comparisons.
  lemma PairRoute(j: nat, op: LogicOp, a: Cond, b: Cond, st: Store, env: Env, stk: Stack)
    requires a.Cmp? && b.Cmp?
    ensures var st1 := RanCmp(a, st, env);
            CondRoute(Logic(j, op, a, b), st, env, stk)
            == match EvalCmp(a, st, env)
               case None => RouteTrap(st1)
               case Some(t) =>
                 if t == op.OrOr? then Routed(if t then ToTrue else ToFalse, st1, stk)
                 else CmpRoute(b, Fall, ToFalse, st1, env, stk)
  {
    hide EvalCmp, RanCmp, CmpRoute;
    CmpRoutes(a, st, env, stk);
    CmpRoutes(b, RanCmp(a, st, env), env, stk);
    var first := LeftRoute(op, a, st, env, stk);
    assert first == if op.OrOr? then CmpRoute(a, ToTrue, Fall, st, env, stk) else CmpRoute(a, Fall, ToFalse, st, env, stk);
    assert !LinksRight(op, a);
  }

  lemma PairValue(j: nat, op: LogicOp, a: Cond, b: Cond, st: Store, env: Env)
    requires a.Cmp? && b.Cmp?
    ensures var st1, c := RanCmp(a, st, env), Logic(j, op, a, b);
            match EvalCmp(a, st, env)
            case None => EvalCond(c, st, env) == None && RanCond(c, st, env) == st1
            case Some(t) =>
              if t == op.OrOr? then EvalCond(c, st, env) == Some(t) && RanCond(c, st, env) == st1
              else EvalCond(c, st, env) == EvalCmp(b, st1, env) && RanCond(c, st, env) == RanCmp(b, st1, env)
  {
    hide EvalCmp, RanCmp;
  }

  // An operator || over two comparisons and a third.
  lemma OverPair(i: nat, pair: Cond, c: Cond, st: Store, env: Env, stk: Stack)
    requires pair.Logic? && c.Cmp?
    ensures CondRoute(Logic(i, OrOr, pair, c), st, env, stk)
         == match CondRoute(pair, st, env, stk)
            case Routed(e, st1, stk1) =>
              if e == Fall || (pair.op.AndAnd? && e == ToFalse) then CondRoute(c, st1, env, stk1) else Routed(e, st1, stk1)
            case o => o
  {
    hide EvalCmp, RanCmp;
    assert LeftRoute(OrOr, pair, st, env, stk) == CondRoute(pair, st, env, stk);
  }

  lemma AndMay(c: Cond)
    requires c.Logic? && c.op.AndAnd? && c.left.Cmp? && c.right.Cmp?
    ensures May(c, true, Fall)
  {
    assert May(c.left, true, Fall) && LeftMay(AndAnd, c.left, true, Fall);
    assert MayEnter(AndAnd, c.left, c.right, true);
    assert May(c.right, true, Fall);
    MayIntro(c, true, true, Fall);
  }

  // A true left operand of || that falls through runs into the right operand.
  lemma FallIntoRight(c: Cond)
    requires c.Logic? && c.op.OrOr? && c.left.Logic? && c.right.Cmp? && May(c.left, true, Fall)
    ensures !Accepted(c)
  {
    assert LeftMay(OrOr, c.left, true, Fall);
    assert MayEnter(OrOr, c.left, c.right, true);
    assert May(c.right, false, ToFalse);
    MayIntro(c, true, false, ToFalse);
  }

  /** (a || b) && c is lowered correctly. */
  lemma OrInAndAccepted(a: Cond, b: Cond, c: Cond, i: nat, j: nat)
    requires a.Cmp? && b.Cmp? && c.Cmp?
    ensures Accepted(Logic(i, AndAnd, Logic(j, OrOr, a, b), c))
  {
    var l := Logic(j, OrOr, a, b);
    forall t: bool, x: Exit
      ensures LeftMay(AndAnd, l, t, x) <==> if t then x != ToFalse else x == ToFalse
    {
      OrMay(l, t, x);
    }
    OrMay(l, true, Fall);
    assert LinkExit(AndAnd) == ToTrue;
    assert forall y: Exit :: (May(c, true, y) <==> y == Fall) && (May(c, false, y) <==> y == ToFalse);
    assert forall y: Exit :: !MayLeave(AndAnd, l, true, y);
    assert !MayEnter(AndAnd, l, c, false);
  }
}
