// The grammar of expressions.

module Grammar {
  // Which operators bind tighter than which, level by level, without numbers.

  import opened Tokens
  import opened Parser

  const LEVELS := 13

  // The tightest level first. Every level groups to the left, the assignments too.
  function Level(n: nat): set<OpKind>
    requires n < LEVELS
  {
    match n
    case 0 => {ArrowRight}
    case 1 => {Star, Slash, Percent}
    case 2 => {Plus, Minus}
    case 3 => {ShiftLeft, ShiftRight}
    case 4 => {Less, LessEq, Greater, GreaterEq}
    case 5 => {EqEq, NotEq}
    case 6 => {Ampersand}
    case 7 => {Caret}
    case 8 => {Pipe}
    case 9 => {DotDot}
    case 10 => {AndAnd}
    case 11 => {OrOr}
    case 12 => {PlusAssign, MinusAssign, MulAssign, DivAssign, AndAssign, OrAssign, ShlAssign, ShrAssign}
  }

  const PREFIXES: set<OpKind> := {Exclamation, AtSign, Ampersand, Minus}

  predicate UnaryTree(t: Node) {
    t.Leaf? && (t.prefix.Some? ==> t.prefix.value.Op? && t.prefix.value.kind in PREFIXES)
  }

  predicate OfLevel(t: Token, n: nat)
    requires n < LEVELS
  {
    t.Op? && t.kind in Level(n)
  }

  /**
   * A tree of the n tightest levels: of the n - 1 tightest ones, or an operator of level n
   * with a tree of these n levels on its left and one of the tighter levels on its right.
   */
  predicate Derived(t: Node, n: nat)
    requires n <= LEVELS
    decreases t, n
  {
    if n == 0 then UnaryTree(t)
    else
      || Derived(t, n - 1)
      || (t.Binary? && OfLevel(t.op, n - 1) && Derived(t.left, n) && Derived(t.right, n - 1))
  }

  predicate IsExpression(t: Node) {
    Derived(t, LEVELS)
  }

  // ----- Against the table -----

  function Bound(n: nat): nat
    requires n < LEVELS
  {
    match n
    case 0 => 1200
    case 1 => 1100
    case 2 => 1000
    case 3 => 900
    case 4 => 800
    case 5 => 700
    case 6 => 600
    case 7 => 590
    case 8 => 580
    case 9 => 550
    case 10 => 500
    case 11 => 490
    case 12 => 400
  }

  lemma LevelBound(t: Token, n: nat)
    requires n < LEVELS
    ensures OfLevel(t, n) <==> IsBinaryOp(t) && Precedence(t) == Bound(n)
  {
  }

  lemma Falling(m: nat, n: nat)
    requires m < n < LEVELS
    ensures Bound(m) > Bound(n)
  {
  }

  lemma PrefixesAre(t: Token)
    ensures IsUnaryOp(t) <==> t.Op? && t.kind in PREFIXES
  {
  }

  function LevelOf(t: Token): (n: nat)
    requires IsBinaryOp(t)
    ensures n < LEVELS && OfLevel(t, n)
  {
    match t.kind
    case ArrowRight => 0
    case Star | Slash | Percent => 1
    case Plus | Minus => 2
    case ShiftLeft | ShiftRight => 3
    case Less | LessEq | Greater | GreaterEq => 4
    case EqEq | NotEq => 5
    case Ampersand => 6
    case Caret => 7
    case Pipe => 8
    case DotDot => 9
    case AndAnd => 10
    case OrOr => 11
    case _ => 12
  }

  predicate IsOperator(t: Token) {
    exists n :: 0 <= n < LEVELS && OfLevel(t, n)
  }

  lemma OperatorsAre(t: Token)
    ensures IsOperator(t) <==> IsBinaryOp(t)
  {
    hide IsBinaryOp, Precedence, Bound, OfLevel, LevelOf;
    if IsBinaryOp(t) {
      assert OfLevel(t, LevelOf(t));
    }
    if n :| 0 <= n < LEVELS && OfLevel(t, n) {
      LevelBound(t, n);
    }
  }

  // Operators where operators belong, prefixes where prefixes belong.
  predicate Proper(t: Node) {
    match t
    case Leaf(_, _) => UnaryTree(t)
    case Binary(op, l, r) => IsBinaryOp(op) && Proper(l) && Proper(r)
  }

  lemma {:induction false} LeafDerived(t: Node, n: nat)
    requires t.Leaf? && n <= LEVELS
    ensures Derived(t, n) <==> UnaryTree(t)
    decreases n
  {
    if n > 0 {
      LeafDerived(t, n - 1);
    }
  }

  // Only the level of the root decides.
  lemma {:induction false} RootDerived(t: Node, n: nat)
    requires t.Binary? && n <= LEVELS
    ensures Derived(t, n) <==>
              && IsBinaryOp(t.op) && LevelOf(t.op) < n
              && Derived(t.left, LevelOf(t.op) + 1) && Derived(t.right, LevelOf(t.op))
    decreases n
  {
    hide IsBinaryOp, Precedence, Bound, OfLevel, LevelOf;
    if n > 0 {
      RootDerived(t, n - 1);
      LevelBound(t.op, n - 1);
      if IsBinaryOp(t.op) {
        SameLevel(t.op, n - 1);
      }
    }
  }

  lemma SameLevel(t: Token, n: nat)
    requires IsBinaryOp(t) && n < LEVELS
    ensures OfLevel(t, n) <==> LevelOf(t) == n
    ensures LevelOf(t) > n <==> Precedence(t) < Bound(n)
  {
    hide IsBinaryOp, Precedence, Bound, OfLevel, LevelOf;
    var m := LevelOf(t);
    LevelBound(t, m);
    LevelBound(t, n);
    if m < n {
      Falling(m, n);
    } else if n < m {
      Falling(n, m);
    }
  }

  // The root is of one of the n tightest levels.
  predicate Within(t: Node, n: nat) {
    t.Binary? ==> IsBinaryOp(t.op) && LevelOf(t.op) < n
  }

  lemma {:induction false} DerivedExact(t: Node, n: nat)
    requires n <= LEVELS
    ensures Derived(t, n) <==> Proper(t) && Canonical(t) && Within(t, n)
    decreases t
  {
    hide IsBinaryOp, Precedence, Bound, OfLevel, LevelOf, Derived;
    if t.Leaf? {
      LeafDerived(t, n);
    } else {
      RootDerived(t, n);
      if IsBinaryOp(t.op) {
        var m := LevelOf(t.op);
        DerivedExact(t.left, m + 1);
        DerivedExact(t.right, m);
        LevelBound(t.op, m);
        if Proper(t.left) && Proper(t.right) {
          OperandLevel(t.left, m);
          OperandLevel(t.right, m);
        }
      }
    }
  }

  lemma OperandLevel(t: Node, m: nat)
    requires m < LEVELS && Proper(t)
    ensures Within(t, m + 1) <==> (t.Binary? ==> Precedence(t.op) >= Bound(m))
    ensures Within(t, m) <==> (t.Binary? ==> Precedence(t.op) > Bound(m))
  {
    hide IsBinaryOp, Precedence, Bound, OfLevel, LevelOf;
    if t.Binary? {
      SameLevel(t.op, m);
      LevelBound(t.op, m);
    }
  }

  /** The trees that precedences allow are exactly those of the grammar. */
  lemma GrammarExact(t: Node)
    ensures IsExpression(t) <==> Proper(t) && Canonical(t)
  {
    hide IsBinaryOp, Precedence, Bound, OfLevel, LevelOf, Derived;
    DerivedExact(t, LEVELS);
  }

  // ----- What is parsed -----

  predicate AllProper(ps: seq<Pair>) {
    forall i :: 0 <= i < |ps| ==> IsBinaryOp(ps[i].op) && UnaryTree(ps[i].node)
  }

  lemma AllProperJoin(l: seq<Pair>, q: Pair, r: seq<Pair>)
    ensures AllProper(l + ([q] + r)) <==> AllProper(l) && IsBinaryOp(q.op) && UnaryTree(q.node) && AllProper(r)
  {
    hide IsBinaryOp, UnaryTree;
    var ps := l + ([q] + r);
    assert ps[|l|] == q;
    assert forall i :: 0 <= i < |l| ==> ps[i] == l[i];
    assert forall i :: 0 <= i < |r| ==> r[i] == ps[|l| + 1 + i];
    if AllProper(l) && IsBinaryOp(q.op) && UnaryTree(q.node) && AllProper(r) {
      forall i | 0 <= i < |ps|
        ensures IsBinaryOp(ps[i].op) && UnaryTree(ps[i].node)
      {
        assert i > |l| ==> ps[i] == r[i - |l| - 1];
      }
    }
  }

  lemma {:induction false} RowProper(t: Node)
    ensures Proper(t) <==> UnaryTree(FirstLeaf(t)) && AllProper(Row(t))
    decreases t
  {
    hide IsBinaryOp, UnaryTree, AllProper;
    if t.Binary? {
      RowProper(t.left);
      RowProper(t.right);
      AllProperJoin(Row(t.left), Pair(t.op, FirstLeaf(t.right)), Row(t.right));
    } else {
      NoneImproper();
    }
  }

  lemma NoneImproper()
    ensures AllProper([])
  {
  }

  lemma UnaryProper(ts: seq<Token>, pos: nat)
    ensures UnaryTree(UnaryNode(ts, pos))
  {
    PrefixesAre(TokenAt(ts, pos));
  }

  lemma {:induction false} TakeProper(ts: seq<Token>, pos: nat, minPrec: int)
    ensures var r := Take(ts, pos, minPrec); r.Taken? ==> AllProper(r.row)
    decreases |ts| - pos
  {
    hide IsBinaryOp, Precedence, UnaryTree, UnaryNode, AfterUnary;
    var r := Take(ts, pos, minPrec);
    if r.Taken? && Continues(ts, pos, minPrec) {
      OperatorsInside(ts, pos);
      UnaryProper(ts, pos + 1);
      TakeProper(ts, AfterUnary(ts, pos + 1), minPrec);
    }
  }

  /** Whatever is parsed is an expression of the grammar, made of exactly the tokens read. */
  lemma ParsedIsExpression(ts: seq<Token>, pos: nat)
    requires pos <= |ts|
    ensures var (r, p) := Expression(ts, pos);
            r.Parsed? ==> p <= |ts| && IsExpression(r.value) && Flatten(r.value) == ts[pos..p]
  {
    hide Take, Build, IsBinaryOp, Precedence, UnaryTree, UnaryNode, AfterUnary, IsExpression, Flatten;
    ExpressionSound(ts, pos);
    var r := Take(ts, AfterUnary(ts, pos), 0);
    if r.Taken? {
      var t := Build(UnaryNode(ts, pos), r.row);
      BuildCanonical(UnaryNode(ts, pos), r.row, 0);
      TakeProper(ts, AfterUnary(ts, pos), 0);
      UnaryProper(ts, pos);
      RowProper(t);
      GrammarExact(t);
    }
  }

  // No operand is missing.
  predicate Filled(t: Node) {
    match t
    case Leaf(_, operand) => operand.Some?
    case Binary(_, l, r) => Filled(l) && Filled(r)
  }

  lemma {:induction false} FilledComplete(t: Node)
    ensures Proper(t) && Filled(t) <==> CompleteTree(t)
    decreases t
  {
    hide IsBinaryOp, IsUnaryOp;
    if t.Binary? {
      FilledComplete(t.left);
      FilledComplete(t.right);
    } else if t.prefix.Some? {
      PrefixesAre(t.prefix.value);
    }
  }

  /** The tokens of any expression of the grammar, in front of no operator, are parsed to it. */
  lemma ExpressionIsParsed(ts: seq<Token>, pos: nat, t: Node)
    requires IsExpression(t) && Filled(t)
    requires pos + |Flatten(t)| <= |ts| && ts[pos..pos + |Flatten(t)|] == Flatten(t)
    requires !IsOperator(TokenAt(ts, pos + |Flatten(t)|))
    ensures Expression(ts, pos) == (Parsed(t), pos + |Flatten(t)|)
  {
    hide IsExpression, IsOperator, IsBinaryOp, Flatten, Expression;
    GrammarExact(t);
    FilledComplete(t);
    OperatorsAre(TokenAt(ts, pos + |Flatten(t)|));
    RoundTrip(ts, pos, t);
  }

  /** No two expressions have the same tokens. */
  lemma Unambiguous(t: Node, u: Node)
    requires IsExpression(t) && Filled(t) && IsExpression(u) && Filled(u) && Flatten(t) == Flatten(u)
    ensures t == u
  {
    hide IsExpression, Flatten, Expression;
    assert Flatten(t)[0..|Flatten(t)|] == Flatten(t);
    ExpressionIsParsed(Flatten(t), 0, t);
    ExpressionIsParsed(Flatten(t), 0, u);
  }
}
