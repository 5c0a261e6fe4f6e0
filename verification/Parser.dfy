// Precedence climbing over a stream of tokens.

module Parser {
  import opened Tokens

  datatype Option<+T> = None | Some(value: T)

  datatype Result<+T> = Parsed(value: T) | UnfinishedExpression(pos: nat)

  // Leaves are unary expressions: an optional prefix operator and an operand, each of
  // which the parser accepts as missing.
  datatype Node =
    | Leaf(prefix: Option<Token>, operand: Option<nat>)
    | Binary(op: Token, left: Node, right: Node)

  datatype Pair = Pair(op: Token, node: Node)

  // ----- The reference: one tree for a row of operands and operators -----

  // The last of the loosest operators.
  function Pivot(ps: seq<Pair>): (k: nat)
    requires ps != []
    ensures k < |ps|
  {
    var n := |ps| - 1;
    if n == 0 then 0
    else
      var k := Pivot(ps[..n]);
      if Precedence(ps[n].op) <= Precedence(ps[k].op) then n else k
  }

  lemma {:induction false} PivotIsLast(ps: seq<Pair>)
    requires ps != []
    ensures var k := Pivot(ps);
            && (forall i :: 0 <= i < k ==> Precedence(ps[i].op) >= Precedence(ps[k].op))
            && (forall i :: k < i < |ps| ==> Precedence(ps[i].op) > Precedence(ps[k].op))
    decreases |ps|
  {
    hide Precedence;
    var n := |ps| - 1;
    if n > 0 {
      PivotIsLast(ps[..n]);
      assert forall i :: 0 <= i < n ==> ps[..n][i] == ps[i];
    }
  }

  lemma PivotUnique(ps: seq<Pair>, k: nat)
    requires k < |ps|
    requires forall i :: 0 <= i < k ==> Precedence(ps[i].op) >= Precedence(ps[k].op)
    requires forall i :: k < i < |ps| ==> Precedence(ps[i].op) > Precedence(ps[k].op)
    ensures Pivot(ps) == k
  {
    hide Precedence, Pivot;
    PivotIsLast(ps);
    var p := Pivot(ps);
    assert Precedence(ps[p].op) == Precedence(ps[k].op);
  }

  /** The tree of a row: its root is the last of the loosest operators. */
  function Build(first: Node, ps: seq<Pair>): Node
    decreases |ps|
  {
    if ps == [] then first
    else
      var k := Pivot(ps);
      Binary(ps[k].op, Build(first, ps[..k]), Build(ps[k].node, ps[k + 1..]))
  }

  // Left operands bind at least as tightly as their parent, right operands tighter.
  predicate Canonical(t: Node) {
    match t
    case Leaf(_, _) => true
    case Binary(op, l, r) =>
      && Canonical(l) && Canonical(r)
      && (l.Binary? ==> Precedence(l.op) >= Precedence(op))
      && (r.Binary? ==> Precedence(r.op) > Precedence(op))
  }

  // The row of a tree, in order.
  function FirstLeaf(t: Node): Node {
    if t.Leaf? then t else FirstLeaf(t.left)
  }

  function Row(t: Node): seq<Pair> {
    if t.Leaf? then [] else Row(t.left) + ([Pair(t.op, FirstLeaf(t.right))] + Row(t.right))
  }

  predicate LeafRow(ps: seq<Pair>) {
    forall i :: 0 <= i < |ps| ==> ps[i].node.Leaf?
  }

  predicate AtLeast(ps: seq<Pair>, p: int) {
    forall i :: 0 <= i < |ps| ==> Precedence(ps[i].op) >= p
  }

  lemma BuildBranches(first: Node, ps: seq<Pair>)
    ensures ps == [] ==> Build(first, ps) == first
    ensures ps != [] ==>
              var k := Pivot(ps);
              Build(first, ps) == Binary(ps[k].op, Build(first, ps[..k]), Build(ps[k].node, ps[k + 1..]))
  {
    hide Pivot, Precedence;
  }

  /** The reference tree is canonical and holds exactly its row, in order. */
  lemma {:induction false} BuildCanonical(first: Node, ps: seq<Pair>, p: int)
    requires first.Leaf? && LeafRow(ps) && AtLeast(ps, p)
    ensures var t := Build(first, ps);
            && Canonical(t) && FirstLeaf(t) == first && Row(t) == ps
            && (t.Binary? ==> Precedence(t.op) >= p)
    decreases |ps|
  {
    hide Pivot, Precedence, Build;
    BuildBranches(first, ps);
    if ps != [] {
      PivotIsLast(ps);
      var k := Pivot(ps);
      var q := Precedence(ps[k].op);
      BuildCanonical(first, ps[..k], q);
      BuildCanonical(ps[k].node, ps[k + 1..], q + 1);
      assert ps == ps[..k] + ([Pair(ps[k].op, ps[k].node)] + ps[k + 1..]);
    }
  }

  lemma {:induction false} CanonicalBounds(t: Node, p: int)
    requires Canonical(t) && (t.Binary? ==> Precedence(t.op) >= p)
    ensures AtLeast(Row(t), p)
    decreases t
  {
    hide Precedence, Pivot;
    if t.Binary? {
      CanonicalBounds(t.left, p);
      CanonicalBounds(t.right, p);
    }
  }

  lemma {:induction false} RowLeaves(t: Node)
    ensures LeafRow(Row(t)) && FirstLeaf(t).Leaf?
    decreases t
  {
    if t.Binary? {
      RowLeaves(t.left);
      RowLeaves(t.right);
    }
  }

  lemma RootPivot(ps: seq<Pair>, q: Pair, qs: seq<Pair>)
    requires AtLeast(ps, Precedence(q.op)) && AtLeast(qs, Precedence(q.op) + 1)
    ensures var row := ps + ([q] + qs);
            Pivot(row) == |ps| && row[|ps|] == q && row[..|ps|] == ps && row[|ps| + 1..] == qs
  {
    hide Precedence, Pivot;
    var row := ps + ([q] + qs);
    assert row[|ps|] == q;
    assert forall i :: |ps| < i < |row| ==> row[i] == qs[i - |ps| - 1];
    PivotUnique(row, |ps|);
  }

  // A canonical tree is the reference tree of its row.
  lemma {:induction false} CanonicalIsBuilt(t: Node)
    requires Canonical(t)
    ensures t == Build(FirstLeaf(t), Row(t))
    decreases t
  {
    hide Precedence, Pivot, Build, AtLeast;
    BuildBranches(FirstLeaf(t), Row(t));
    if t.Binary? {
      var l, r, q := Row(t.left), Row(t.right), Precedence(t.op);
      CanonicalBounds(t.left, q);
      CanonicalBounds(t.right, q + 1);
      CanonicalIsBuilt(t.left);
      CanonicalIsBuilt(t.right);
      var ps := Row(t);
      assert ps == l + ([Pair(t.op, FirstLeaf(t.right))] + r);
      RootPivot(l, Pair(t.op, FirstLeaf(t.right)), r);
    }
  }

  /** Being canonical is being the one tree the reference builds from the row. */
  lemma CanonicalExact(t: Node)
    ensures Canonical(t) <==> t == Build(FirstLeaf(t), Row(t))
  {
    RowLeaves(t);
    if t == Build(FirstLeaf(t), Row(t)) {
      BuildCanonical(FirstLeaf(t), Row(t), 0);
    }
    if Canonical(t) {
      CanonicalIsBuilt(t);
    }
  }

  // A row whose operators are no tighter than a finished part in front of it can be
  // built with that part as its first operand.
  lemma {:induction false} BuildOn(first: Node, ps: seq<Pair>, qs: seq<Pair>)
    requires qs != [] ==> AtLeast(ps, Precedence(qs[0].op)) && AtLeast(qs, Precedence(qs[0].op))
    ensures Build(Build(first, ps), qs) == Build(first, ps + qs)
    decreases |qs|
  {
    hide Precedence, Pivot, Build;
    BuildBranches(first, ps + qs);
    BuildBranches(Build(first, ps), qs);
    if qs == [] {
      assert ps + qs == ps;
    } else {
      PivotIsLast(qs);
      var k := Pivot(qs);
      assert Precedence(qs[k].op) == Precedence(qs[0].op);
      PivotUnique(ps + qs, |ps| + k);
      assert (ps + qs)[..|ps| + k] == ps + qs[..k];
      assert (ps + qs)[|ps| + k + 1..] == qs[k + 1..];
      BuildOn(first, ps, qs[..k]);
    }
  }

  // The next operator becomes the root when nothing before it is looser and
  // everything in its right operand is tighter.
  lemma BuildRoot(first: Node, ps: seq<Pair>, q: Pair, qs: seq<Pair>)
    requires AtLeast(ps, Precedence(q.op)) && AtLeast(qs, Precedence(q.op) + 1)
    ensures Build(first, ps + ([q] + qs)) == Binary(q.op, Build(first, ps), Build(q.node, qs))
  {
    hide Precedence, Pivot, Build;
    BuildBranches(first, ps + ([q] + qs));
    RootPivot(ps, q, qs);
  }

  // ----- What is read from the tokens -----

  function TokenAt(ts: seq<Token>, pos: nat): Token {
    if pos < |ts| then ts[pos] else Eof
  }

  // A unary expression: an optional prefix operator, then an operand if there is one.
  function UnaryPrefix(ts: seq<Token>, pos: nat): Option<Token> {
    if IsUnaryOp(TokenAt(ts, pos)) then Some(TokenAt(ts, pos)) else None
  }

  function AfterPrefix(ts: seq<Token>, pos: nat): nat {
    if IsUnaryOp(TokenAt(ts, pos)) then pos + 1 else pos
  }

  function UnaryNode(ts: seq<Token>, pos: nat): (n: Node)
    ensures n.Leaf?
  {
    var t := TokenAt(ts, AfterPrefix(ts, pos));
    Leaf(UnaryPrefix(ts, pos), if t.Operand? then Some(t.id) else None)
  }

  function AfterUnary(ts: seq<Token>, pos: nat): (p: nat)
    ensures pos <= p && (pos <= |ts| ==> p <= |ts|)
  {
    var p := AfterPrefix(ts, pos);
    if TokenAt(ts, p).Operand? then p + 1 else p
  }

  datatype Taken = Unfinished(pos: nat) | Taken(row: seq<Pair>, pos: nat)

  predicate Continues(ts: seq<Token>, pos: nat, minPrec: int) {
    IsBinaryOp(TokenAt(ts, pos)) && Precedence(TokenAt(ts, pos)) >= minPrec
  }

  // The operators at least as tight as minPrec with their operands, up to the first
  // looser one; an operator at the end of a line is an error.
  function Take(ts: seq<Token>, pos: nat, minPrec: int): (r: Taken)
    ensures pos <= |ts| ==> pos <= r.pos <= |ts|
    ensures r.Taken? ==> !Continues(ts, r.pos, minPrec) && AtLeast(r.row, minPrec) && LeafRow(r.row)
    ensures r.Taken? && Continues(ts, pos, minPrec) ==> r.row != [] && r.row[0].op == TokenAt(ts, pos) && pos < r.pos
    ensures !Continues(ts, pos, minPrec) ==> r == Taken([], pos)
    decreases |ts| - pos
  {
    if !Continues(ts, pos, minPrec) then Taken([], pos)
    else if TokenAt(ts, pos + 1).Newline? || TokenAt(ts, pos + 1).Eof? then Unfinished(pos + 1)
    else
      match Take(ts, AfterUnary(ts, pos + 1), minPrec)
      case Unfinished(p) => Unfinished(p)
      case Taken(row, p) => Taken([Pair(TokenAt(ts, pos), UnaryNode(ts, pos + 1))] + row, p)
  }

  function Prepend(ps: seq<Pair>, r: Taken): Taken {
    match r
    case Unfinished(p) => Unfinished(p)
    case Taken(row, p) => Taken(ps + row, p)
  }

  // Taking the tight operators first and going on from there is taking all at once.
  lemma {:induction false} TakeSplit(ts: seq<Token>, pos: nat, tight: int, minPrec: int)
    requires minPrec <= tight
    ensures match Take(ts, pos, tight)
            case Unfinished(p) => Take(ts, pos, minPrec) == Unfinished(p)
            case Taken(row, p) => Take(ts, pos, minPrec) == Prepend(row, Take(ts, p, minPrec))
    decreases |ts| - pos
  {
    hide Precedence, Pivot;
    if Continues(ts, pos, tight) {
      var next := AfterUnary(ts, pos + 1);
      TakeSplit(ts, next, tight, minPrec);
      var q := [Pair(TokenAt(ts, pos), UnaryNode(ts, pos + 1))];
      var r := Take(ts, next, tight);
      if r.Taken? {
        var s := Take(ts, r.pos, minPrec);
        assert s.Taken? ==> q + (r.row + s.row) == (q + r.row) + s.row;
      }
    } else {
      var s := Take(ts, pos, minPrec);
      assert s.Taken? ==> [] + s.row == s.row;
    }
  }

  // Taking the first operator with its operand, whose tight operators are all taken,
  // and going on behind it.
  lemma TakeOperator(ts: seq<Token>, opPos: nat, minPrec: int)
    requires Continues(ts, opPos, minPrec) && !TokenAt(ts, opPos + 1).Newline? && !TokenAt(ts, opPos + 1).Eof?
    ensures var op, rhsPos := TokenAt(ts, opPos), AfterUnary(ts, opPos + 1);
            match Take(ts, rhsPos, Precedence(op) + 1)
            case Unfinished(p) => Take(ts, opPos, minPrec) == Unfinished(p)
            case Taken(row, p) =>
              Take(ts, opPos, minPrec) == Prepend([Pair(op, UnaryNode(ts, opPos + 1))] + row, Take(ts, p, minPrec))
  {
    hide Precedence, Take, Prepend, UnaryNode, AfterUnary;
    var op, rhsPos := TokenAt(ts, opPos), AfterUnary(ts, opPos + 1);
    var q := [Pair(op, UnaryNode(ts, opPos + 1))];
    TakeFirst(ts, opPos, minPrec);
    TakeSplit(ts, rhsPos, Precedence(op) + 1, minPrec);
    var r := Take(ts, rhsPos, Precedence(op) + 1);
    if r.Taken? {
      PrependTwice(q, r.row, Take(ts, r.pos, minPrec));
    } else {
      PrependError(q, r.pos);
    }
  }

  lemma TakeFirst(ts: seq<Token>, opPos: nat, minPrec: int)
    requires Continues(ts, opPos, minPrec) && !TokenAt(ts, opPos + 1).Newline? && !TokenAt(ts, opPos + 1).Eof?
    ensures Take(ts, opPos, minPrec)
         == Prepend([Pair(TokenAt(ts, opPos), UnaryNode(ts, opPos + 1))], Take(ts, AfterUnary(ts, opPos + 1), minPrec))
  {
    hide Precedence, UnaryNode, AfterUnary;
  }

  // The right operand grows by a row of operators that are tighter than its parent.
  // No operator binds to the right, so the operand goes on with tighter operators only.
  lemma GoesOnTighter(t: Token, op: Token)
    ensures PrecedenceCmp(t, op) > 0 || (IsRightAssoc(t) && PrecedenceCmp(t, op) >= 0) <==> Precedence(t) >= Precedence(op) + 1
  {
    hide Precedence;
  }

  lemma OperandGrows(ts: seq<Token>, rhsPos: nat, pos: nat, tight: int, operand: Node, row: seq<Pair>)
    requires Continues(ts, pos, tight) && AtLeast(row, tight) && AtLeast(row, Precedence(TokenAt(ts, pos)))
    requires Take(ts, rhsPos, tight) == Prepend(row, Take(ts, pos, tight))
    ensures var r := Take(ts, pos, Precedence(TokenAt(ts, pos)));
            && (r.Unfinished? ==> Take(ts, rhsPos, tight) == r)
            && (r.Taken? ==>
                  && Build(Build(operand, row), r.row) == Build(operand, row + r.row)
                  && Take(ts, rhsPos, tight) == Prepend(row + r.row, Take(ts, r.pos, tight))
                  && AtLeast(row + r.row, tight)
                  && (IsBinaryOp(TokenAt(ts, r.pos)) ==> AtLeast(row + r.row, Precedence(TokenAt(ts, r.pos)))))
  {
    hide Precedence, Build, Take, Prepend, AtLeast, IsBinaryOp;
    var t := Precedence(TokenAt(ts, pos));
    TakeSplit(ts, pos, t, tight);
    var r := Take(ts, pos, t);
    if r.Taken? {
      BuildOn(operand, row, r.row);
      PrependTwice(row, r.row, Take(ts, r.pos, tight));
      AtLeastJoin(row, r.row, tight, t);
      if IsBinaryOp(TokenAt(ts, r.pos)) {
        AtLeastJoin(row, r.row, Precedence(TokenAt(ts, r.pos)), t);
      }
    } else {
      PrependError(row, r.pos);
    }
  }

  lemma PrependEnd(ps: seq<Pair>, pos: nat)
    ensures Prepend(ps, Taken([], pos)) == Taken(ps, pos)
  {
  }

  lemma PrependError(ps: seq<Pair>, pos: nat)
    ensures Prepend(ps, Unfinished(pos)) == Unfinished(pos)
  {
  }

  lemma AtLeastJoin(ps: seq<Pair>, qs: seq<Pair>, p: int, q: int)
    requires AtLeast(ps, p) || AtLeast(ps, q)
    requires p <= q && AtLeast(qs, q)
    ensures AtLeast(ps + qs, p)
  {
    hide Precedence;
  }

  lemma TakeUnfinished(ts: seq<Token>, opPos: nat, minPrec: int)
    requires Continues(ts, opPos, minPrec) && (TokenAt(ts, opPos + 1).Newline? || TokenAt(ts, opPos + 1).Eof?)
    ensures Take(ts, opPos, minPrec) == Unfinished(opPos + 1)
  {
  }

  lemma OperatorsInside(ts: seq<Token>, pos: nat)
    ensures IsBinaryOp(TokenAt(ts, pos)) ==> pos < |ts|
  {
  }

  lemma PrependTwice(ps: seq<Pair>, qs: seq<Pair>, r: Taken)
    ensures Prepend(ps, Prepend(qs, r)) == Prepend(ps + qs, r)
  {
    if r.Taken? {
      assert ps + (qs + r.row) == (ps + qs) + r.row;
    }
  }

  lemma PrependNone(r: Taken)
    ensures Prepend([], r) == r
  {
    if r.Taken? {
      assert [] + r.row == r.row;
    }
  }

  // ----- Whole expressions -----

  // What parsing an expression returns, and where it stops.
  function Expression(ts: seq<Token>, pos: nat): (Result<Node>, nat) {
    match Take(ts, AfterUnary(ts, pos), 0)
    case Unfinished(p) => (UnfinishedExpression(p), p)
    case Taken(row, p) => (Parsed(Build(UnaryNode(ts, pos), row)), p)
  }

  function LeafTokens(n: Node): seq<Token>
    requires n.Leaf?
  {
    (if n.prefix.Some? then [n.prefix.value] else []) + (if n.operand.Some? then [Operand(n.operand.value)] else [])
  }

  function Flatten(t: Node): seq<Token> {
    if t.Leaf? then LeafTokens(t) else Flatten(t.left) + ([t.op] + Flatten(t.right))
  }

  function RowTokens(ps: seq<Pair>): seq<Token>
    requires LeafRow(ps)
  {
    if ps == [] then [] else [ps[0].op] + (LeafTokens(ps[0].node) + RowTokens(ps[1..]))
  }

  lemma {:induction false} RowTokensJoin(ps: seq<Pair>, qs: seq<Pair>)
    requires LeafRow(ps) && LeafRow(qs)
    ensures RowTokens(ps + qs) == RowTokens(ps) + RowTokens(qs)
    decreases |ps|
  {
    hide LeafTokens;
    if ps == [] {
      assert ps + qs == qs;
    } else {
      assert (ps + qs)[1..] == ps[1..] + qs;
      RowTokensJoin(ps[1..], qs);
    }
  }

  lemma {:induction false} FlattenRow(t: Node)
    ensures LeafRow(Row(t)) && FirstLeaf(t).Leaf?
    ensures Flatten(t) == LeafTokens(FirstLeaf(t)) + RowTokens(Row(t))
    decreases t
  {
    hide LeafTokens;
    RowLeaves(t);
    if t.Binary? {
      FlattenRow(t.left);
      FlattenRow(t.right);
      var q := Pair(t.op, FirstLeaf(t.right));
      assert ([q] + Row(t.right))[1..] == Row(t.right);
      assert LeafRow([q] + Row(t.right));
      RowTokensJoin(Row(t.left), [q] + Row(t.right));
    }
  }

  lemma UnaryTokens(ts: seq<Token>, pos: nat)
    requires pos <= |ts|
    ensures AfterUnary(ts, pos) <= |ts| && ts[pos..AfterUnary(ts, pos)] == LeafTokens(UnaryNode(ts, pos))
  {
    hide IsUnaryOp;
    NoUnaryAtEnd(ts, pos);
  }

  lemma NoUnaryAtEnd(ts: seq<Token>, pos: nat)
    ensures IsUnaryOp(TokenAt(ts, pos)) ==> pos < |ts|
  {
  }

  lemma {:induction false} TakeTokens(ts: seq<Token>, pos: nat, minPrec: int)
    requires pos <= |ts|
    ensures var r := Take(ts, pos, minPrec); r.Taken? ==> ts[pos..r.pos] == RowTokens(r.row)
    decreases |ts| - pos
  {
    hide LeafTokens, UnaryNode, AfterUnary, Precedence, IsBinaryOp;
    var r := Take(ts, pos, minPrec);
    if Continues(ts, pos, minPrec) && r.Taken? {
      OperatorsInside(ts, pos);
      UnaryTokens(ts, pos + 1);
      var next := AfterUnary(ts, pos + 1);
      TakeTokens(ts, next, minPrec);
      var q, rest := Pair(ts[pos], UnaryNode(ts, pos + 1)), Take(ts, next, minPrec).row;
      assert r.row[0] == q && r.row[1..] == rest;
      assert ts[pos..r.pos] == [ts[pos]] + (ts[pos + 1..next] + ts[next..r.pos]);
    }
  }

  lemma ExpressionSound(ts: seq<Token>, pos: nat)
    requires pos <= |ts|
    ensures var (r, p) := Expression(ts, pos);
            && pos <= p <= |ts|
            && (r.Parsed? ==> Canonical(r.value) && Flatten(r.value) == ts[pos..p] && !IsBinaryOp(TokenAt(ts, p)))
  {
    hide Take, Build, LeafTokens, IsBinaryOp, IsUnaryOp, Precedence;
    var first, next := UnaryNode(ts, pos), AfterUnary(ts, pos);
    UnaryTokens(ts, pos);
    TakeTokens(ts, next, 0);
    var r := Take(ts, next, 0);
    if r.Taken? {
      BuildCanonical(first, r.row, 0);
      FlattenRow(Build(first, r.row));
      assert ts[pos..r.pos] == ts[pos..next] + ts[next..r.pos];
    }
  }

  // A leaf as the parser reads it back: an operand, and at most a prefix operator.
  predicate Complete(n: Node)
    requires n.Leaf?
  {
    n.operand.Some? && (n.prefix.Some? ==> IsUnaryOp(n.prefix.value))
  }

  predicate CompleteRow(ps: seq<Pair>) {
    LeafRow(ps) && forall i :: 0 <= i < |ps| ==> Complete(ps[i].node) && IsBinaryOp(ps[i].op)
  }

  predicate CompleteTree(t: Node) {
    match t
    case Leaf(_, _) => Complete(t)
    case Binary(op, l, r) => IsBinaryOp(op) && CompleteTree(l) && CompleteTree(r)
  }

  lemma {:induction false} TreeRowComplete(t: Node)
    requires CompleteTree(t)
    ensures CompleteRow(Row(t)) && FirstLeaf(t).Leaf? && Complete(FirstLeaf(t))
    decreases t
  {
    hide IsBinaryOp, Complete;
    if t.Binary? {
      TreeRowComplete(t.left);
      TreeRowComplete(t.right);
    }
  }

  lemma UnaryReadBack(ts: seq<Token>, pos: nat, n: Node)
    requires n.Leaf? && Complete(n) && pos + |LeafTokens(n)| <= |ts| && ts[pos..pos + |LeafTokens(n)|] == LeafTokens(n)
    ensures UnaryNode(ts, pos) == n && AfterUnary(ts, pos) == pos + |LeafTokens(n)|
    ensures !TokenAt(ts, pos).Newline? && !TokenAt(ts, pos).Eof?
  {
    var w := LeafTokens(n);
    assert forall i :: 0 <= i < |w| ==> ts[pos + i] == w[i];
    assert ts[pos] == w[0];
  }

  lemma RowParts(ts: seq<Token>, pos: nat, op: Token, w: seq<Token>, rest: seq<Token>)
    requires pos + 1 + |w| + |rest| <= |ts| && ts[pos..pos + 1 + |w| + |rest|] == [op] + (w + rest)
    ensures ts[pos] == op && ts[pos + 1..pos + 1 + |w|] == w
    ensures ts[pos + 1 + |w|..pos + 1 + |w| + |rest|] == rest
  {
    var row := [op] + (w + rest);
    var end := pos + 1 + |w| + |rest|;
    assert ts[pos..end] == row;
    assert ts[pos..end][0] == op && ts[pos..end][1..] == w + rest;
    assert ts[pos + 1..end] == w + rest;
    assert (w + rest)[..|w|] == w && (w + rest)[|w|..] == rest;
    assert ts[pos + 1..end][..|w|] == ts[pos + 1..pos + 1 + |w|];
    assert ts[pos + 1..end][|w|..] == ts[pos + 1 + |w|..end];
  }

  lemma {:induction false} RowReadBack(ts: seq<Token>, pos: nat, ps: seq<Pair>)
    requires CompleteRow(ps)
    requires pos + |RowTokens(ps)| <= |ts| && ts[pos..pos + |RowTokens(ps)|] == RowTokens(ps)
    requires !IsBinaryOp(TokenAt(ts, pos + |RowTokens(ps)|))
    ensures Take(ts, pos, 0) == Taken(ps, pos + |RowTokens(ps)|)
    decreases |ps|
  {
    hide LeafTokens, UnaryNode, AfterUnary, Precedence, IsBinaryOp, Complete;
    if ps != [] {
      var w, rest := LeafTokens(ps[0].node), RowTokens(ps[1..]);
      var next := pos + 1 + |w|;
      RowParts(ts, pos, ps[0].op, w, rest);
      UnaryReadBack(ts, pos + 1, ps[0].node);
      RowReadBack(ts, next, ps[1..]);
      assert ps == [Pair(ps[0].op, ps[0].node)] + ps[1..];
    }
  }

  /**
   * Round trip: wherever the tokens of a canonical tree stand in front of a token that is
   * no binary operator, parsing there gives that tree and stops right behind it.
   */
  lemma RoundTrip(ts: seq<Token>, pos: nat, t: Node)
    requires Canonical(t) && CompleteTree(t)
    requires pos + |Flatten(t)| <= |ts| && ts[pos..pos + |Flatten(t)|] == Flatten(t)
    requires !IsBinaryOp(TokenAt(ts, pos + |Flatten(t)|))
    ensures Expression(ts, pos) == (Parsed(t), pos + |Flatten(t)|)
  {
    hide Take, Build, LeafTokens, IsBinaryOp, IsUnaryOp, Precedence, Complete, UnaryNode, AfterUnary;
    FlattenRow(t);
    TreeRowComplete(t);
    CanonicalExact(t);
    var first, row := FirstLeaf(t), Row(t);
    var next := pos + |LeafTokens(first)|;
    assert ts[pos..next] == Flatten(t)[..|LeafTokens(first)|];
    assert ts[next..next + |RowTokens(row)|] == Flatten(t)[|LeafTokens(first)|..];
    UnaryReadBack(ts, pos, first);
    RowReadBack(ts, next, row);
  }

  // An operator with nothing behind it in its line.
  predicate Dangling(ts: seq<Token>, pos: nat) {
    IsBinaryOp(TokenAt(ts, pos)) && (TokenAt(ts, pos + 1).Newline? || TokenAt(ts, pos + 1).Eof?)
  }

  lemma {:induction false} RowThenDangling(ts: seq<Token>, pos: nat, ps: seq<Pair>)
    requires CompleteRow(ps)
    requires pos + |RowTokens(ps)| <= |ts| && ts[pos..pos + |RowTokens(ps)|] == RowTokens(ps)
    requires Dangling(ts, pos + |RowTokens(ps)|)
    ensures Take(ts, pos, 0) == Unfinished(pos + |RowTokens(ps)| + 1)
    decreases |ps|
  {
    hide LeafTokens, UnaryNode, AfterUnary, Precedence, IsBinaryOp, Complete;
    if ps != [] {
      var w, rest := LeafTokens(ps[0].node), RowTokens(ps[1..]);
      RowParts(ts, pos, ps[0].op, w, rest);
      UnaryReadBack(ts, pos + 1, ps[0].node);
      RowThenDangling(ts, pos + 1 + |w|, ps[1..]);
    }
  }

  lemma {:induction false} UnfinishedAt(ts: seq<Token>, pos: nat, minPrec: int)
    ensures var r := Take(ts, pos, minPrec); r.Unfinished? ==> r.pos > 0 && Dangling(ts, r.pos - 1)
    decreases |ts| - pos
  {
    hide UnaryNode, AfterUnary, Precedence, IsBinaryOp;
    if Continues(ts, pos, minPrec) && !Dangling(ts, pos) {
      OperatorsInside(ts, pos);
      UnfinishedAt(ts, AfterUnary(ts, pos + 1), minPrec);
    }
  }

  /** The error is reported behind an operator that ends its line or the input ... */
  lemma ErrorIsDangling(ts: seq<Token>, pos: nat)
    ensures var (r, p) := Expression(ts, pos); r.UnfinishedExpression? ==> r.pos == p > 0 && Dangling(ts, p - 1)
  {
    hide Take, Build, UnaryNode, AfterUnary, IsBinaryOp;
    UnfinishedAt(ts, AfterUnary(ts, pos), 0);
  }

  /** ... and whenever such an operator follows a whole expression. */
  lemma DanglingIsError(ts: seq<Token>, pos: nat, t: Node)
    requires CompleteTree(t) && pos + |Flatten(t)| <= |ts| && ts[pos..pos + |Flatten(t)|] == Flatten(t)
    requires Dangling(ts, pos + |Flatten(t)|)
    ensures var p := pos + |Flatten(t)| + 1; Expression(ts, pos) == (UnfinishedExpression(p), p)
  {
    hide Take, Build, LeafTokens, IsBinaryOp, Complete, UnaryNode, AfterUnary, Dangling;
    FlattenRow(t);
    TreeRowComplete(t);
    var first, row := FirstLeaf(t), Row(t);
    var next := pos + |LeafTokens(first)|;
    assert ts[pos..next] == Flatten(t)[..|LeafTokens(first)|];
    assert ts[next..next + |RowTokens(row)|] == Flatten(t)[|LeafTokens(first)|..];
    UnaryReadBack(ts, pos, first);
    RowThenDangling(ts, next, row);
  }

  // ----- The parser -----

  class Parser {
    const tokens: seq<Token>
    var pos: nat

    constructor (ts: seq<Token>)
      ensures tokens == ts && pos == 0
    {
      tokens := ts;
      pos := 0;
    }

    function Tok(): Token
      reads this
    {
      TokenAt(tokens, pos)
    }

    method Next()
      requires pos < |tokens|
      modifies this
      ensures pos == old(pos) + 1
    {
      pos := pos + 1;
    }

    method ParseUnaryExpr() returns (n: Node)
      requires pos <= |tokens|
      modifies this
      ensures n == UnaryNode(tokens, old(pos)) && pos == AfterUnary(tokens, old(pos)) <= |tokens|
    {
      var prefix := None;
      if IsUnaryOp(Tok()) {
        prefix := Some(Tok());
        Next();
      }
      var operand := None;
      if Tok().Operand? {
        operand := Some(Tok().id);
        Next();
      }
      n := Leaf(prefix, operand);
    }

    /**
     * Reads all operators that bind at least as tightly as minPrec, with their operands,
     * and returns the reference tree of the left operand and this row.
     */
    method ParseBinaryExpr(left: Node, minPrec: int) returns (r: Result<Node>)
      requires pos <= |tokens|
      modifies this
      ensures match Take(tokens, old(pos), minPrec)
              case Unfinished(p) => r == UnfinishedExpression(p) && pos == p
              case Taken(row, p) => r == Parsed(Build(left, row)) && pos == p
      ensures old(pos) <= pos <= |tokens|
      decreases |tokens| - pos
    {
      hide Precedence, PrecedenceCmp, IsRightAssoc, IsBinaryOp, IsUnaryOp, Build, Take, Prepend, UnaryNode, AfterUnary;
      var lhs := left;
      BuildBranches(left, []);
      ghost var start, row := pos, [];
      PrependNone(Take(tokens, pos, minPrec));
      while IsBinaryOp(Tok()) && Precedence(Tok()) >= minPrec
        invariant start <= pos <= |tokens|
        invariant lhs == Build(left, row)
        invariant IsBinaryOp(Tok()) ==> AtLeast(row, Precedence(Tok()))
        invariant Take(tokens, start, minPrec) == Prepend(row, Take(tokens, pos, minPrec))
        decreases |tokens| - pos
      {
        var op := Tok();
        ghost var opPos := pos;
        OperatorsInside(tokens, pos);
        Next();
        if Tok().Newline? || Tok().Eof? {
          TakeUnfinished(tokens, opPos, minPrec);
          PrependError(row, pos);
          return UnfinishedExpression(pos);
        }
        TakeOperator(tokens, opPos, minPrec);
        var rhs := ParseUnaryExpr();
        ghost var operand, rhsPos, rhsRow, tight := rhs, pos, [], Precedence(op) + 1;
        PrependNone(Take(tokens, pos, tight));
        BuildBranches(operand, []);
        GoesOnTighter(Tok(), op);
        while IsBinaryOp(Tok()) && (PrecedenceCmp(Tok(), op) > 0 || (IsRightAssoc(Tok()) && PrecedenceCmp(Tok(), op) >= 0))
          invariant opPos < rhsPos <= pos <= |tokens|
          invariant rhs == Build(operand, rhsRow) && AtLeast(rhsRow, tight)
          invariant IsBinaryOp(Tok()) ==> AtLeast(rhsRow, Precedence(Tok()))
          invariant Take(tokens, rhsPos, tight) == Prepend(rhsRow, Take(tokens, pos, tight))
          invariant PrecedenceCmp(Tok(), op) > 0 || (IsRightAssoc(Tok()) && PrecedenceCmp(Tok(), op) >= 0)
            <==> Precedence(Tok()) >= tight
          decreases |tokens| - pos
        {
          var thisOp := Tok();
          ghost var taken := Take(tokens, pos, Precedence(thisOp));
          OperandGrows(tokens, rhsPos, pos, tight, operand, rhsRow);
          var inner := ParseBinaryExpr(rhs, Precedence(thisOp));
          if inner.UnfinishedExpression? {
            PrependError(row, inner.pos);
            return inner;
          }
          rhs := inner.value;
          rhsRow := rhsRow + taken.row;
          GoesOnTighter(Tok(), op);
        }
        PrependEnd(rhsRow, pos);
        BuildRoot(left, row, Pair(op, operand), rhsRow);
        lhs := Binary(op, lhs, rhs);
        PrependTwice(row, [Pair(op, operand)] + rhsRow, Take(tokens, pos, minPrec));
        row := row + ([Pair(op, operand)] + rhsRow);
      }
      PrependEnd(row, pos);
      return Parsed(lhs);
    }
  
    /** A whole expression: canonical, made of exactly the tokens read, and followed by no operator. */
    method ParseExpr() returns (r: Result<Node>)
      requires pos <= |tokens|
      modifies this
      ensures old(pos) <= pos <= |tokens| && r == Expression(tokens, old(pos)).0 && pos == Expression(tokens, old(pos)).1
      ensures r.Parsed? ==>
                Canonical(r.value) && Flatten(r.value) == tokens[old(pos)..pos] && !IsBinaryOp(Tok())
    {
      hide Take, Build, Canonical, Flatten, IsBinaryOp;
      ghost var start := pos;
      ExpressionSound(tokens, pos);
      var first := ParseUnaryExpr();
      r := ParseBinaryExpr(first, 0);
    }
  }
}
