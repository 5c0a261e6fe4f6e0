// Folding of constant expressions at compile time.

module Fold {
  import opened Ir
  import opened Machine
  import opened Ast
  import opened LowerExpr
  import opened X64Arith

  function Defined(x: int): Option<int> {
    if Fits(x) then Some(x) else None
  }

  // A 64-bit signed operation of the compiler itself; None where it is undefined:
  // on overflow, on division by zero, and for shift counts outside 0..63.
  function FoldOp(op: BinOp, a: int, b: int): Option<int> {
    match op
    case Plus => Defined(a + b)
    case Minus => Defined(a - b)
    case Times => Defined(a * b)
    case Over => if b == 0 then None else Defined(Quotient(a, b))
    case BitAnd => Some(Wrap(Bitwise(true, a, b, 64)))
    case BitOr => Some(Wrap(Bitwise(false, a, b, 64)))
    case ShiftLeft => if 0 <= b < 64 then Defined(a * Pow2(b)) else None
    case ShiftRight => if 0 <= b < 64 then Some(a / Pow2(b)) else None
  }

  // Comparisons for equality are not folded to integers.
  function FoldCompare(op: CmpOp, a: int, b: int): Option<int> {
    match op
    case Lt => Some(Bit(a < b))
    case Gt => Some(Bit(a > b))
    case LtEq => Some(Bit(a <= b))
    case GtEq => Some(Bit(a >= b))
    case _ => None
  }

  /** The integer an expression folds to, if it folds to one. */
  function Fold(e: Expr): Option<int>
    decreases e
  {
    match e
    case IntLit(v, _) => Defined(v)
    case Negate(_, x) =>
      (match Fold(x) case None => None case Some(a) => Defined(-a))
    case Arith(_, op, l, r) =>
      (match Fold(l)
       case None => None
       case Some(a) => match Fold(r) case None => None case Some(b) => FoldOp(op, a, b))
    case Compare(_, op, l, r) =>
      (match Fold(l)
       case None => None
       case Some(a) => match Fold(r) case None => None case Some(b) => FoldCompare(op, a, b))
    case _ => None
  }

  lemma OpAgrees(op: BinOp, a: int, b: int, env: Env)
    ensures FoldOp(op, a, b).Some? ==> Meaning(op, a, b, Native(env)) == FoldOp(op, a, b)
  {
    hide Wrap, Bitwise, Pow2, Quotient;
    if (op.ShiftLeft? || op.ShiftRight?) && 0 <= b < 64 {
      assert b % 64 == b;
    }
  }

  lemma {:induction false} FoldAgrees(e: Expr, st: Store, env: Env)
    requires Fold(e).Some?
    ensures Pure(e) && Eval(e, st, Native(env)) == Fold(e) && Ran(e, st, Native(env)) == st
    decreases e
  {
    hide FoldOp, Meaning, Native, Wrap;
    match e
    case IntLit(_, _) =>
    case Negate(_, x) =>
      FoldAgrees(x, st, env);
      NegationAgrees(Fold(x).value, env);
    case Arith(_, op, l, r) =>
      FoldAgrees(l, st, env);
      FoldAgrees(r, st, env);
      OpAgrees(op, Fold(l).value, Fold(r).value, env);
    case Compare(_, op, l, r) =>
      FoldAgrees(l, st, env);
      FoldAgrees(r, st, env);
    case _ =>
  }

  // ----- When an expression folds -----

  // Integers without bounds; None where the operation itself is undefined.
  function ExactOp(op: Op, a: int, b: int): Option<int> {
    match op
    case Add => Some(a + b)
    case Sub | Neg => Some(a - b)
    case Mul => Some(a * b)
    case Div => if b == 0 then None else Some(Quotient(a, b))
    case And => Some(Wrap(Bitwise(true, a, b, 64)))
    case Or => Some(Wrap(Bitwise(false, a, b, 64)))
    case Shl => if 0 <= b < 64 then Some(a * Pow2(b)) else None
    case Shr => if 0 <= b < 64 then Some(a / Pow2(b)) else None
    case _ => None
  }

  function Unbounded(env: Env): Env {
    env.(arith := ExactOp)
  }

  predicate FitsExactly(e: Expr, st: Store, env: Env) {
    match Eval(e, st, Unbounded(env)) case None => false case Some(v) => Fits(v)
  }

  // Literals under negations, arithmetic and comparisons for order, every part of which
  // has an exact value of 64 bits.
  predicate Foldable(e: Expr, st: Store, env: Env)
    decreases e
  {
    && FitsExactly(e, st, env)
    && match e
       case IntLit(_, _) => true
       case Negate(_, x) => Foldable(x, st, env)
       case Arith(_, _, l, r) => Foldable(l, st, env) && Foldable(r, st, env)
       case Compare(_, cmp, l, r) => cmp != Eq && cmp != Neq && Foldable(l, st, env) && Foldable(r, st, env)
       case _ => false
  }

  lemma Scaled(p: int, x: int)
    requires p > 0
    ensures x >= 0 ==> p * x >= x
    ensures x <= 0 ==> p * x <= x
  {
    var y := p - 1;
    assert p * x == y * x + x;
    assert x >= 0 ==> y * x >= 0;
    assert x <= 0 ==> y * x <= 0;
  }

  lemma ShiftFits(a: int, p: int)
    requires Fits(a) && p > 0
    ensures Fits(a / p)
  {
    var q, r := a / p, a % p;
    assert a == p * q + r;
    Scaled(p, q);
    Scaled(p, q + 1);
    assert p * (q + 1) == p * q + p;
  }

  // An operation of the compiler has its exact value when that fits.
  lemma OpExact(op: BinOp, a: int, b: int, env: Env)
    requires Fits(a)
    ensures FoldOp(op, a, b)
         == match Meaning(op, a, b, Unbounded(env)) case None => None case Some(v) => Defined(v)
  {
    hide Wrap, Bitwise, Pow2, Quotient;
    if 0 <= b < 64 {
      ShiftFits(a, Pow2(b));
    }
  }

  /** Exactly these expressions fold, to their exact value. */
  lemma {:induction false} FoldExact(e: Expr, st: Store, env: Env)
    ensures Fold(e) == if Foldable(e, st, env) then Eval(e, st, Unbounded(env)) else None
    ensures Fold(e).Some? ==> Ran(e, st, Unbounded(env)) == st && Fits(Fold(e).value)
    decreases e
  {
    hide FoldOp, Meaning;
    match e
    case Negate(_, x) => FoldExact(x, st, env);
    case Arith(_, op, l, r) =>
      FoldExact(l, st, env);
      FoldExact(r, st, env);
      if Fold(l).Some? && Fold(r).Some? {
        OpExact(op, Fold(l).value, Fold(r).value, env);
      }
    case Compare(_, _, l, r) =>
      FoldExact(l, st, env);
      FoldExact(r, st, env);
    case _ =>
  }

  lemma NegationAgrees(a: int, env: Env)
    ensures Fits(-a) ==> Native(env).arith(Neg, 0, a) == Some(-a)
  {
  }

  /**
   * Whenever an expression folds to an integer, the code emitted for it, run in any
   * program with any store and stack, delivers that integer.
   */
  lemma FoldedCode(p: Program, k: int, e: Expr, st: Store, stk: Stack, env: Env)
    requires p.env == Native(env) && Fold(e).Some? && At(p.code, k, ExprCode(e))
    ensures exists after: Stack :: Computes(p, k, |ExprCode(e)|, ExprOperand(e), Fold(e), st, st, stk, after)
  {
    hide Fold, ExprCode, Native, Computes;
    FoldAgrees(e, st, env);
    ExprCorrect(p, k, e, st, stk);
  }
}
