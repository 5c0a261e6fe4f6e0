// The generator as it works: instructions are appended, operands not yet used wait on an
// operand stack, labels are kept on the nodes of conditions, and the open loops and
// scopes are stacks.

module Generator {
  import opened Ir
  import opened Ast
  import opened LowerExpr
  import opened LowerCond
  import opened LowerStmt
  import opened Deferral
  import opened Labels
  import opened NodeLabels
  import opened StmtCorrect

  datatype ControlLabels = ControlLabels(cont: Label, brk: Label)

  // What one scope has deferred, as a return or the end of the scope replays it.
  function Latest(ds: seq<Later>): Assigns {
    if ds == [] then NoAssigns
    else MoreAssigns(NoType, ds[|ds| - 1], Latest(ds[..|ds| - 1]))
  }

  // Innermost scope first.
  function Collected(scopes: seq<seq<Later>>): Assigns {
    if scopes == [] then NoAssigns
    else Append(Latest(scopes[|scopes| - 1]), Collected(scopes[..|scopes| - 1]))
  }

  function CtxOf(loops: seq<ControlLabels>, scopes: seq<seq<Later>>): Ctx {
    if loops == [] then Ctx(None, None, Collected(scopes))
    else Ctx(Some(loops[|loops| - 1].brk), Some(loops[|loops| - 1].cont), Collected(scopes))
  }

  // Statements that leave no operand unused: their conditions leave none, their branches and
  // bodies are not bare expressions. break and continue stand in loops.
  predicate Quiet(s: Stmt, inLoop: bool)
    decreases s
  {
    match s
    case If(_, c, thn, els) =>
      && CondOperands(c) == []
      && !Listed(thn) && Quiet(thn, inLoop)
      && (els.Some? ==> !Listed(els.value) && Quiet(els.value, inLoop))
    case While(_, c, body) => CondOperands(c) == [] && !Listed(body) && Quiet(body, true)
    case For(_, _, body) => !Listed(body) && Quiet(body, true)
    case Block(b) => QuietAll(b, inLoop)
    case Break => inLoop
    case Continue => inLoop
    case _ => true
  }

  predicate QuietAll(b: Stmts, inLoop: bool)
    decreases b
  {
    b.MoreStmts? ==> Quiet(b.head, inLoop) && QuietAll(b.tail, inLoop)
  }

  /** Supported statements are quiet. */
  lemma {:induction false} SupportedQuiet(s: Stmt, inLoop: bool, pending: Assigns)
    requires Supported(s, inLoop, pending)
    ensures Quiet(s, inLoop)
    decreases s
  {
    match s
    case If(_, c, thn, els) =>
      AcceptedOperands(c);
      SupportedQuiet(thn, inLoop, pending);
      if els.Some? {
        SupportedQuiet(els.value, inLoop, pending);
      }
    case While(_, c, body) =>
      AcceptedOperands(c);
      SupportedQuiet(body, true, pending);
    case For(_, _, body) => SupportedQuiet(body, true, pending);
    case Block(b) => SupportedAllQuiet(b, inLoop, NoAssigns, pending);
    case _ =>
  }

  lemma {:induction false} QuietInLoop(s: Stmt)
    requires Quiet(s, false)
    ensures Quiet(s, true)
    decreases s
  {
    match s
    case If(_, _, thn, els) =>
      QuietInLoop(thn);
      if els.Some? {
        QuietInLoop(els.value);
      }
    case Block(b) => QuietAllInLoop(b);
    case _ =>
  }

  lemma {:induction false} QuietAllInLoop(b: Stmts)
    requires QuietAll(b, false)
    ensures QuietAll(b, true)
    decreases b
  {
    if b.MoreStmts? {
      QuietInLoop(b.head);
      QuietAllInLoop(b.tail);
    }
  }

  lemma {:induction false} SupportedAllQuiet(b: Stmts, inLoop: bool, ds: Assigns, pending: Assigns)
    requires SupportedAll(b, inLoop, ds, pending)
    ensures QuietAll(b, inLoop)
    decreases b
  {
    if b.MoreStmts? {
      var s := b.head;
      if s.DeferStmt? {
        SupportedAllQuiet(b.tail, inLoop, MoreAssigns(NoType, s.what, ds), pending);
      } else {
        SupportedQuiet(s, inLoop && ds.NoAssigns?, Append(ds, pending));
        if inLoop && !ds.NoAssigns? {
          QuietInLoop(s);
        }
        SupportedAllQuiet(b.tail, inLoop, ds, pending);
      }
    }
  }

  // The n operands on top of a stack, the top one first.
  function Tops(s: seq<Operand>, n: nat): seq<Operand>
    requires n <= |s|
  {
    seq(n, i requires 0 <= i < n => s[|s| - 1 - i])
  }

  class Generator {
    var instrs: seq<Instr>
    var operandStack: seq<Operand>
    var labels: NodeMap
    var loops: seq<ControlLabels>
    var scopes: seq<seq<Later>>

    constructor ()
      ensures instrs == [] && operandStack == [] && labels == map[] && loops == [] && scopes == []
    {
      instrs, operandStack, labels, loops, scopes := [], [], map[], [], [];
    }

    method Push(o: Operand)
      modifies this`operandStack
      ensures operandStack == old(operandStack) + [o]
    {
      operandStack := operandStack + [o];
    }

    method Pop() returns (o: Operand)
      requires operandStack != []
      modifies this`operandStack
      ensures operandStack == old(operandStack)[..|old(operandStack)| - 1]
      ensures o == old(operandStack)[|old(operandStack)| - 1]
    {
      o := operandStack[|operandStack| - 1];
      operandStack := operandStack[..|operandStack| - 1];
    }

    method Emit(i: Instr)
      modifies this`instrs
      ensures instrs == old(instrs) + [i]
    {
      instrs := instrs + [i];
    }

    method EmitTwo(i: Instr, j: Instr)
      modifies this`instrs
      ensures instrs == old(instrs) + [i, j]
    {
      instrs := instrs + [i, j];
    }

    /**
     * Discarding down to a size. The loop bound shrinks with every pop, so only half of
     * the surplus goes; the promised size is reached exactly for a surplus of at most one.
     */
    method DiscardOpstack(tosize: nat)
      requires tosize <= |operandStack|
      modifies this`instrs, this`operandStack
      ensures var surplus := |old(operandStack)| - tosize;
              && operandStack == old(operandStack)[..tosize + surplus / 2]
              && (|operandStack| == tosize <==> surplus <= 1)
              && instrs == old(instrs)
                 + (if surplus == 0 then [] else [Instr(Noop, VoidType, Tops(old(operandStack), surplus - surplus / 2))])
    {
      if |operandStack| > tosize {
        var args: seq<Operand> := [];
        var i := tosize;
        while i < |operandStack|
          invariant tosize <= i && |args| == i - tosize
          invariant |operandStack| == |old(operandStack)| - |args| && |operandStack| >= tosize
          invariant i <= |operandStack| + 1
          invariant operandStack == old(operandStack)[..|operandStack|]
          invariant args == Tops(old(operandStack), |args|)
          invariant instrs == old(instrs)
        {
          var o := Pop();
          args := args + [o];
          i := i + 1;
        }
        Emit(Instr(Noop, VoidType, args));
      }
    }

    // ----- Expressions -----

    method GenerateExpr(e: Expr)
      modifies this`instrs, this`operandStack
      ensures instrs == old(instrs) + ExprCode(e)
      ensures operandStack == old(operandStack) + [ExprOperand(e)]
      decreases e, 1
    {
      match e
      case IntLit(v, ty) => Push(IntOp(v, ty));
      case Ident(r) => Push(RefOp(r));
      case Arith(ty, op, l, r) =>
        var a := GenerateOperand(l);
        var b := GenerateOperand(r);
        Emit(Instr(Opcode(op), ty, [a, b]));
        Push(RefOp(StackPop(ty)));
      case Compare(ty, op, l, r) => GenerateCompare(e, ty, op, false, l, r);
      case Negate(ty, x) =>
        var a := GenerateOperand(x);
        Emit(Instr(Neg, ty, [a]));
        Push(RefOp(StackPop(ty)));
      case Not(x) =>
        if x.Compare? {
          GenerateCompare(e, x.ty, x.cmp, true, x.left, x.right);
        } else {
          GenerateExpr(x);
        }
      case CallExpr(ty, f, args) =>
        var operands := GenerateArgs(args);
        Emit(Instr(Call, ty, [LabelOp(f)] + operands));
        Push(RefOp(StackPop(ty)));
    }

    // An expression whose operand is used at once.
    method GenerateOperand(e: Expr) returns (o: Operand)
      modifies this`instrs, this`operandStack
      ensures instrs == old(instrs) + ExprCode(e)
      ensures operandStack == old(operandStack) && o == ExprOperand(e)
      decreases e, 2
    {
      GenerateExpr(e);
      o := Pop();
    }

    method GenerateCompare(ghost e: Expr, ty: TypeId, op: CmpOp, invert: bool, l: Expr, r: Expr)
      requires l < e && r < e
      modifies this`instrs, this`operandStack
      ensures instrs == old(instrs) + (ExprCode(l) + (ExprCode(r) + [CompareInstr(ty, op, invert, l, r)]))
      ensures operandStack == old(operandStack) + [RefOp(StackPop(ty))]
      decreases e, 0
    {
      var a := GenerateOperand(l);
      var b := GenerateOperand(r);
      Emit(Instr(CompareOpcode(op, invert), ty, [a, b]));
      Push(RefOp(StackPop(ty)));
    }

    method GenerateArgs(es: Exprs) returns (operands: seq<Operand>)
      modifies this`instrs, this`operandStack
      ensures instrs == old(instrs) + ArgsCode(es)
      ensures operandStack == old(operandStack) && operands == ArgOperands(es)
      decreases es
    {
      match es
      case NoExprs => operands := [];
      case MoreExprs(e, rest) =>
        var o := GenerateOperand(e);
        var more := GenerateArgs(rest);
        operands := [o] + more;
    }

    // ----- Conditions -----

    method SetTarget(c: Cond, invert: bool, l: Label)
      modifies this`labels
      ensures labels == old(labels)[c.id := Get(old(labels), c.id).(target := Some(l), invert := invert)]
    {
      labels := labels[c.id := Get(labels, c.id).(target := Some(l), invert := invert)];
    }

    method SetSelf(c: Cond)
      modifies this`labels
      ensures labels == old(labels)[c.id := Get(old(labels), c.id).(self := Some(ShortLabel(c.id)))]
    {
      labels := labels[c.id := Get(labels, c.id).(self := Some(ShortLabel(c.id)))];
    }

    /** Distributing the labels of the exits over the nodes of a condition. */
    method Distribute(c: Cond, t: Label, f: Label)
      requires CondNumbered(c)
      requires forall id | id in CondIds(c) && id != c.id :: Get(labels, id) == BLANK
      modifies this`labels
      ensures Labelled(c, t, f, labels)
      ensures Get(labels, c.id).self == Get(old(labels), c.id).self
      ensures forall id | id !in CondIds(c) :: Get(labels, id) == Get(old(labels), id)
      decreases c, 2
    {
      match c
      case Cmp(_, _, _, _, _) => SetTarget(c, true, f);
      case Bang(_, _) => DistributeBang(c, t, f);
      case Logic(_, _, _, _) => DistributeLogic(c, t, f);
    }

    method DistributeBang(c: Cond, t: Label, f: Label)
      requires c.Bang? && CondNumbered(c)
      requires forall id | id in CondIds(c) && id != c.id :: Get(labels, id) == BLANK
      modifies this`labels
      ensures Labelled(c, t, f, labels)
      ensures forall id | id !in CondIds(c) || id == c.id :: Get(labels, id) == Get(old(labels), id)
      decreases c, 1
    {
      hide Labelled, Unlabelled, CondIds, CondNumbered;
      BangParts(c);
      var x := c.arg;
      if x.Logic? {
        Distribute(x, f, t);
      } else if x.Cmp? {
        SetTarget(x, false, f);
      } else {
        BlankUnlabelled(x, labels);
      }
      BangLabelled(c, t, f, labels);
    }

    method DistributeLogic(c: Cond, t: Label, f: Label)
      requires c.Logic? && CondNumbered(c)
      requires forall id | id in CondIds(c) && id != c.id :: Get(labels, id) == BLANK
      modifies this`labels
      ensures Labelled(c, t, f, labels)
      ensures forall id | id !in CondIds(c) || id == c.id :: Get(labels, id) == Get(old(labels), id)
      decreases c, 1
    {
      hide Labelled, LabelledLeft, Unlabelled, CondIds, CondNumbered;
      NumberedParts(c);
      DistributeLeft(c, t, f);
      ghost var m1 := labels;
      RightBlank(c, old(labels), m1);
      MarkRight(c);
      Distribute(c.right, t, f);
      LogicDistributed(c, t, f, old(labels), m1, labels);
    }

    method MarkRight(c: Cond)
      requires c.Logic? && Get(labels, c.right.id) == BLANK
      modifies this`labels
      ensures Get(labels, c.right.id).self == (if LinksRight(c.op, c.left) then Some(ShortLabel(c.right.id)) else None)
      ensures forall id | id != c.right.id :: Get(labels, id) == Get(old(labels), id)
    {
      if LinksRight(c.op, c.left) {
        SetSelf(c.right);
      }
    }

    // The left operand of a logic operator.
    method DistributeLeft(c: Cond, t: Label, f: Label)
      requires c.Logic? && CondNumbered(c)
      requires forall id | id in CondIds(c.left) :: Get(labels, id) == BLANK
      modifies this`labels
      ensures LabelledLeft(c.op, c.left, c.right, t, f, labels)
      ensures forall id | id !in CondIds(c.left) :: Get(labels, id) == Get(old(labels), id)
      decreases c, 0
    {
      var l, r := c.left, c.right;
      SetTarget(l, c.op.AndAnd?, if c.op.AndAnd? then f else t);
      if l.Logic? {
        Distribute(l, LeftTrueLabel(c.op, l, r, t), LeftFalseLabel(c.op, l, r, f));
      } else if l.Bang? {
        BlankUnlabelled(l, old(labels));
        BangUnlabelled(l, old(labels), labels);
      }
    }

    /** Generating a condition from the labels on its nodes. */
    method GenerateCond(c: Cond)
      requires CondNumbered(c)
      modifies this`instrs, this`operandStack, this`labels
      ensures instrs == old(instrs) + CondGen(c, old(labels))
      ensures operandStack == old(operandStack) + OperandsGen(c, old(labels))
      ensures forall id | id !in CondIds(c) :: Get(labels, id) == Get(old(labels), id)
      decreases c, 1
    {
      match c
      case Cmp(_, _, _, _, _) => GenerateCmp(c);
      case Bang(_, _) => GenerateBang(c);
      case Logic(_, _, _, _) => GenerateLogic(c);
    }

    method GenerateLogic(c: Cond)
      requires c.Logic? && CondNumbered(c)
      modifies this`instrs, this`operandStack, this`labels
      ensures instrs == old(instrs) + CondGen(c, old(labels))
      ensures operandStack == old(operandStack) + OperandsGen(c, old(labels))
      ensures forall id | id !in CondIds(c) :: Get(labels, id) == Get(old(labels), id)
      decreases c, 0
    {
      hide CondIds, CondNumbered, CondGen, OperandsGen, Agree;
      ghost var m, before := labels, instrs;
      NumberedParts(c);
      LogicGen(c, m);
      if Get(labels, c.id).self.Some? {
        Emit(LabelInstr(Get(labels, c.id).self.value));
      }
      assert instrs == before + SelfInstrs(c.id, m);
      GenerateCond(c.left);
      ghost var m' := labels;
      RightKept(c, m, m');
      GenAgree(c.right, m, m');
      GenerateCond(c.right);
      OutsideKept(c, m, m', labels);
    }

    method GenerateBang(c: Cond)
      requires c.Bang? && CondNumbered(c)
      modifies this`instrs, this`operandStack, this`labels
      ensures instrs == old(instrs) + CondGen(c, old(labels))
      ensures operandStack == old(operandStack) + OperandsGen(c, old(labels))
      ensures forall id | id !in CondIds(c) :: Get(labels, id) == Get(old(labels), id)
      decreases c, 0
    {
      var x := c.arg;
      if x.Cmp? && Get(labels, x.id).target.None? {
        labels := labels[x.id := Get(labels, x.id).(invert := true)];
      }
      if x.Cmp? {
        GenerateCmp(x);
      } else {
        GenerateCond(x);
      }
    }

    method GenerateCmp(c: Cond)
      requires c.Cmp?
      modifies this`instrs, this`operandStack
      ensures instrs == old(instrs) + (SelfInstrs(c.id, labels) + CmpGen(c, Get(labels, c.id).invert, labels))
      ensures operandStack
           == old(operandStack) + (if Get(labels, c.id).target.Some? then [] else [RefOp(StackPop(c.ty))])
    {
      hide ExprCode, ExprOperand, Get;
      var data := Get(labels, c.id);
      if data.self.Some? {
        Emit(LabelInstr(data.self.value));
      }
      var a := GenerateOperand(c.a);
      var b := GenerateOperand(c.b);
      if data.target.Some? {
        Emit(CondJumpInstr(JumpOpcode(c.cmp, data.invert), a, b, data.target.value));
      } else {
        Emit(Instr(CompareOpcode(c.cmp, data.invert), c.ty, [a, b]));
        Push(RefOp(StackPop(c.ty)));
      }
    }

    // ----- Statements -----

    /** The analysis pass: every condition of the statement gets its labels. */
    method Analyse(s: Stmt)
      requires Numbered(s) && forall id | id in StmtIds(s) :: Get(labels, id) == BLANK
      modifies this`labels
      ensures Analysed(s, labels)
      ensures forall id | id !in StmtIds(s) :: Get(labels, id) == Get(old(labels), id)
      decreases s
    {
      match s
      case If(id, c, thn, els) =>
        Distribute(c, IfBody(id), IfElse(id));
        ghost var m1 := labels;
        Analyse(thn);
        LabelledAgree(c, IfBody(id), IfElse(id), m1, labels);
        if els.Some? {
          ghost var m2 := labels;
          Analyse(els.value);
          LabelledAgree(c, IfBody(id), IfElse(id), m2, labels);
          AnalysedAgree(thn, m2, labels);
        }
      case While(id, c, body) =>
        Distribute(c, WhileBody(id), WhileEnd(id));
        ghost var m1 := labels;
        Analyse(body);
        LabelledAgree(c, WhileBody(id), WhileEnd(id), m1, labels);
      case For(_, _, body) => Analyse(body);
      case Block(b) => AnalyseAll(b);
      case _ =>
    }

    method AnalyseAll(b: Stmts)
      requires NumberedAll(b) && forall id | id in StmtsIds(b) :: Get(labels, id) == BLANK
      modifies this`labels
      ensures AnalysedAll(b, labels)
      ensures forall id | id !in StmtsIds(b) :: Get(labels, id) == Get(old(labels), id)
      decreases b
    {
      match b
      case NoStmts =>
      case MoreStmts(s, rest) =>
        Analyse(s);
        ghost var m1 := labels;
        AnalyseAll(rest);
        AnalysedAgree(s, m1, labels);
    }

    // Assignment of a value expression to a place.
    method GenerateAssign(ty: TypeId, d: Name, e: Expr)
      modifies this`instrs, this`operandStack
      ensures instrs == old(instrs) + (ExprCode(e) + [StoreInstr(ty, d, e)])
      ensures operandStack == old(operandStack)
    {
      Push(RefOp(d));
      var dest := Pop();
      var src := GenerateOperand(e);
      Emit(Instr(Load, ty, [dest, src]));
    }

    // A deferred statement, where it runs. A value on the operand stack stays there.
    method GenerateLater(w: Later)
      modifies this`instrs, this`operandStack
      ensures instrs == old(instrs) + LaterCode(NoType, w)
      ensures operandStack == old(operandStack)
    {
      match w
      case AssignLater(d, e) => GenerateAssign(NoType, d, e);
      case CallLater(f, args) => GenerateCallStmt(f, args);
    }

    // The end of a scope: what it deferred, latest first.
    method ReplayScope(ds: seq<Later>)
      modifies this`instrs, this`operandStack
      ensures instrs == old(instrs) + AssignsCode(Latest(ds))
      ensures operandStack == old(operandStack)
    {
      hide LaterCode;
      var i := |ds|;
      assert ds[..i] == ds;
      while i > 0
        invariant 0 <= i <= |ds|
        invariant instrs + AssignsCode(Latest(ds[..i])) == old(instrs) + AssignsCode(Latest(ds))
        invariant operandStack == old(operandStack)
      {
        ghost var before := instrs;
        var d := ds[i - 1];
        assert ds[..i][..i - 1] == ds[..i - 1] && ds[..i][i - 1] == d;
        GenerateLater(d);
        var lc, rest := LaterCode(NoType, d), AssignsCode(Latest(ds[..i - 1]));
        assert before + lc + rest == before + (lc + rest);
        i := i - 1;
      }
      assert AssignsCode(Latest(ds[..0])) == [];
    }

    /** What a return replays: the open scopes from the inside out, each latest first. */
    method CollectDefers() returns (result: seq<Later>)
      ensures InOrder(result) == Collected(scopes)
    {
      result := [];
      var k := |scopes|;
      assert scopes[..k] == scopes;
      while k > 0
        invariant 0 <= k <= |scopes|
        invariant Append(InOrder(result), Collected(scopes[..k])) == Collected(scopes)
      {
        ghost var outer := Collected(scopes[..k - 1]);
        var scope := scopes[k - 1];
        assert scopes[..k][..k - 1] == scopes[..k - 1];
        var i := |scope|;
        assert scope[..i] == scope;
        while i > 0
          invariant 0 <= i <= |scope|
          invariant Append(InOrder(result), Append(Latest(scope[..i]), outer)) == Collected(scopes)
        {
          assert scope[..i][..i - 1] == scope[..i - 1];
          InOrderMore(result, scope[i - 1], Append(Latest(scope[..i - 1]), outer));
          result := result + [scope[i - 1]];
          i := i - 1;
        }
        k := k - 1;
      }
      AppendNone(InOrder(result));
    }

    method GenerateReturn(s: Stmt)
      requires s.ReturnStmt?
      modifies this`instrs, this`operandStack
      ensures instrs == old(instrs) + StmtCode(s, CtxOf(loops, scopes))
      ensures operandStack == old(operandStack)
    {
      hide AssignsCode, ExprCode, Collected, InOrder;
      var defers := CollectDefers();
      var val := IntOp(0, NoType);
      if s.result.Some? {
        val := GenerateOperand(s.result.value);
      }
      ReplayAll(defers);
      Emit(Instr(Return, s.ty, [val]));
      ghost var ac := AssignsCode(Collected(scopes));
      if s.result.Some? {
        var ec := ExprCode(s.result.value);
        assert old(instrs) + ec + ac + [Instr(Return, s.ty, [val])] == old(instrs) + (ec + (ac + [Instr(Return, s.ty, [val])]));
      } else {
        assert old(instrs) + ac + [Instr(Return, s.ty, [val])] == old(instrs) + (ac + [Instr(Return, s.ty, [val])]);
      }
    }

    method ReplayAll(defers: seq<Later>)
      modifies this`instrs, this`operandStack
      ensures instrs == old(instrs) + AssignsCode(InOrder(defers))
      ensures operandStack == old(operandStack)
    {
      hide LaterCode;
      var i := 0;
      while i < |defers|
        invariant 0 <= i <= |defers|
        invariant instrs + AssignsCode(InOrder(defers[i..])) == old(instrs) + AssignsCode(InOrder(defers))
        invariant operandStack == old(operandStack)
      {
        ghost var now := instrs;
        var d := defers[i];
        assert defers[i..][1..] == defers[i + 1..];
        GenerateLater(d);
        var lc, rest := LaterCode(NoType, d), AssignsCode(InOrder(defers[i + 1..]));
        assert now + lc + rest == now + (lc + rest);
        i := i + 1;
      }
      assert AssignsCode(InOrder(defers[i..])) == [];
    }

    /** Generating an analysed statement appends exactly its code and uses up every operand. */
    method GenerateStmt(s: Stmt, ghost inLoop: bool)
      requires Numbered(s) && Analysed(s, labels) && !Listed(s)
      requires Quiet(s, inLoop) && (inLoop ==> loops != [])
      modifies this
      ensures instrs == old(instrs) + StmtCode(s, CtxOf(old(loops), old(scopes)))
      ensures operandStack == old(operandStack) && loops == old(loops) && scopes == old(scopes)
      ensures forall id | id !in StmtIds(s) :: Get(labels, id) == Get(old(labels), id)
      decreases s, 2
    {
      match s
      case Assign(d, e) => GenerateAssign(NoType, d, e);
      case CallStmt(f, args) => GenerateCallStmt(f, args);
      case If(_, _, _, _) => GenerateIf(s, inLoop);
      case While(_, _, _) => GenerateWhile(s, inLoop);
      case For(_, _, _) => GenerateFor(s, inLoop);
      case Block(b) => GenerateBlock(b, true, inLoop);
      case Break => Emit(JumpInstr(loops[|loops| - 1].brk));
      case Continue => Emit(JumpInstr(loops[|loops| - 1].cont));
      case ReturnStmt(_, _) => GenerateReturn(s);
    }

    // A call that returns nothing pushes no operand.
    method GenerateCallStmt(f: Label, args: Exprs)
      modifies this`instrs, this`operandStack
      ensures instrs == old(instrs) + (ArgsCode(args) + [VoidCall(f, args)])
      ensures operandStack == old(operandStack)
    {
      var operands := GenerateArgs(args);
      Emit(Instr(Call, VoidType, [LabelOp(f)] + operands));
    }

    // The condition of a statement, whose label for the true exit follows.
    method GenerateTest(c: Cond, t: Label, f: Label)
      requires CondNumbered(c) && Prepared(c, t, f, labels) && CondOperands(c) == []
      modifies this`instrs, this`operandStack, this`labels
      ensures instrs == old(instrs) + (CondCode(c, t, f) + [LabelInstr(t)])
      ensures operandStack == old(operandStack)
      ensures forall id | id !in CondIds(c) :: Get(labels, id) == Get(old(labels), id)
    {
      LabelledCode(c, t, f, labels);
      GenerateCond(c);
      Emit(LabelInstr(t));
    }

    method GenerateIf(s: Stmt, ghost inLoop: bool)
      requires s.If? && Numbered(s) && Analysed(s, labels)
      requires Quiet(s, inLoop) && (inLoop ==> loops != [])
      modifies this
      ensures instrs == old(instrs) + StmtCode(s, CtxOf(old(loops), old(scopes)))
      ensures operandStack == old(operandStack) && loops == old(loops) && scopes == old(scopes)
      ensures forall id | id !in StmtIds(s) :: Get(labels, id) == Get(old(labels), id)
      decreases s, 1
    {
      hide StmtCode, CondCode, Labelled;
      ghost var ctx := CtxOf(loops, scopes);
      GenerateTest(s.cond, IfBody(s.id), IfElse(s.id));
      AnalysedAgree(s.thn, old(labels), labels);
      GenerateStmt(s.thn, inLoop);
      GenerateElse(s, inLoop, old(labels));
      IfJoined(old(instrs), s, ctx);
    }

    method GenerateElse(s: Stmt, ghost inLoop: bool, ghost before: NodeMap)
      requires s.If? && Numbered(s) && Analysed(s, before)
      requires s.els.Some? ==> Agree(StmtIds(s.els.value), before, labels)
      requires Quiet(s, inLoop) && (inLoop ==> loops != [])
      modifies this
      ensures instrs == old(instrs) + ElseCode(s, CtxOf(old(loops), old(scopes)))
      ensures operandStack == old(operandStack) && loops == old(loops) && scopes == old(scopes)
      ensures forall id | id !in StmtIds(s) :: Get(labels, id) == Get(old(labels), id)
      decreases s, 0
    {
      if s.els.Some? {
        EmitTwo(JumpInstr(IfEnd(s.id)), LabelInstr(IfElse(s.id)));
        AnalysedAgree(s.els.value, before, labels);
        GenerateStmt(s.els.value, inLoop);
        Emit(LabelInstr(IfEnd(s.id)));
      } else {
        Emit(LabelInstr(IfElse(s.id)));
      }
    }

    // The body of a loop, inside its control labels.
    method GenerateBody(body: Stmt, cl: ControlLabels)
      requires Numbered(body) && Analysed(body, labels) && !Listed(body)
      requires Quiet(body, true)
      modifies this
      ensures instrs == old(instrs)
                        + StmtCode(body, CtxOf(old(loops), old(scopes)).(brk := Some(cl.brk), cont := Some(cl.cont)))
      ensures operandStack == old(operandStack) && loops == old(loops) && scopes == old(scopes)
      ensures forall id | id !in StmtIds(body) :: Get(labels, id) == Get(old(labels), id)
      decreases body, 3
    {
      loops := loops + [cl];
      GenerateStmt(body, true);
      loops := loops[..|loops| - 1];
    }

    method GenerateWhile(s: Stmt, ghost inLoop: bool)
      requires s.While? && Numbered(s) && Analysed(s, labels)
      requires Quiet(s, inLoop) && (inLoop ==> loops != [])
      modifies this
      ensures instrs == old(instrs) + StmtCode(s, CtxOf(old(loops), old(scopes)))
      ensures operandStack == old(operandStack) && loops == old(loops) && scopes == old(scopes)
      ensures forall id | id !in StmtIds(s) :: Get(labels, id) == Get(old(labels), id)
      decreases s, 1
    {
      hide StmtCode, CondCode;
      ghost var ctx := CtxOf(loops, scopes);
      Emit(LabelInstr(WhileCond(s.id)));
      GenerateTest(s.cond, WhileBody(s.id), WhileEnd(s.id));
      AnalysedAgree(s.body, old(labels), labels);
      GenerateBody(s.body, ControlLabels(WhileCond(s.id), WhileEnd(s.id)));
      EmitTwo(JumpInstr(WhileCond(s.id)), LabelInstr(WhileEnd(s.id)));
      WhileJoined(old(instrs), s, ctx);
    }

    // The range tuple, the first element and the step.
    method GenerateRange(g: Range)
      modifies this`instrs, this`operandStack
      ensures instrs == old(instrs) + AssignsCode(RangeAssigns(g))
      ensures operandStack == old(operandStack)
    {
      hide AssignsCode, RangeAssigns;
      GenerateAssign(g.ty, First(g), g.start);
      GenerateAssign(g.ty, Second(g), g.end);
      if g.step.Some? {
        GenerateAssign(g.ty, Third(g), g.step.value);
      }
      GenerateAssign(NoType, g.elem, Ident(First(g)));
      if g.step.Some? {
        GenerateAssign(NoType, g.stepvar, Ident(Third(g)));
      }
      RangeCode(g);
    }

    method GenerateFor(s: Stmt, ghost inLoop: bool)
      requires s.For? && Numbered(s) && Analysed(s, labels)
      requires Quiet(s, inLoop) && (inLoop ==> loops != [])
      modifies this
      ensures instrs == old(instrs) + StmtCode(s, CtxOf(old(loops), old(scopes)))
      ensures operandStack == old(operandStack) && loops == old(loops) && scopes == old(scopes)
      ensures forall id | id !in StmtIds(s) :: Get(labels, id) == Get(old(labels), id)
      decreases s, 1
    {
      hide StmtCode, AssignsCode, ForTest, ForAdvance, RangeAssigns, PureRange;
      ghost var ctx := CtxOf(loops, scopes);
      GenerateRange(s.range);
      GenerateForTest(s.id, s.range);
      Emit(LabelInstr(ForBody(s.id)));
      GenerateBody(s.body, ControlLabels(ForCond(s.id), ForEnd(s.id)));
      GenerateAdvance(s.id, s.range);
      ForJoined(old(instrs), s, ctx);
    }

    method GenerateForTest(id: nat, g: Range)
      modifies this`instrs, this`operandStack
      ensures instrs == old(instrs) + ForTest(id, g)
      ensures operandStack == old(operandStack)
    {
      Emit(LabelInstr(ForCond(id)));
      var first := GenerateOperand(Ident(First(g)));
      var second := GenerateOperand(Ident(Second(g)));
      Emit(CondJumpInstr(JmpGtEq, first, second, ForNegative(id)));
      GenerateUpward(id, g);
      GenerateDownward(id, g);
    }

    method GenerateUpward(id: nat, g: Range)
      modifies this`instrs, this`operandStack
      ensures instrs == old(instrs) + UpwardTest(id, g)
      ensures operandStack == old(operandStack)
    {
      if g.step.None? {
        Emit(LoadInstr(g.stepvar, IntOp(1, Int32Type)));
      }
      var elem := GenerateOperand(Ident(g.elem));
      var second := GenerateOperand(Ident(Second(g)));
      EmitTwo(CondJumpInstr(JmpGtEq, elem, second, ForEnd(id)), JumpInstr(ForBody(id)));
    }

    method GenerateDownward(id: nat, g: Range)
      modifies this`instrs, this`operandStack
      ensures instrs == old(instrs) + DownwardTest(id, g)
      ensures operandStack == old(operandStack)
    {
      Emit(LabelInstr(ForNegative(id)));
      if g.step.None? {
        Emit(LoadInstr(g.stepvar, IntOp(-1, Int32Type)));
      }
      var elem := GenerateOperand(Ident(g.elem));
      var second := GenerateOperand(Ident(Second(g)));
      Emit(CondJumpInstr(JmpLtEq, elem, second, ForEnd(id)));
    }

    method GenerateAdvance(id: nat, g: Range)
      modifies this`instrs, this`operandStack
      ensures instrs == old(instrs) + (ForAdvance(id, g) + [LabelInstr(ForEnd(id))])
      ensures operandStack == old(operandStack)
    {
      var elem := GenerateOperand(Ident(g.elem));
      Emit(Instr(Add, g.ty, [elem, RefOp(g.stepvar)]));
      Emit(LoadInstr(g.elem, RefOp(StackPop(g.ty))));
      EmitTwo(JumpInstr(ForCond(id)), LabelInstr(ForEnd(id)));
    }

    // One entry of a statement list. The value of an expression statement is discarded.
    method GenerateChild(s: Stmt, ghost inLoop: bool)
      requires scopes != [] && Numbered(s) && Analysed(s, labels)
      requires Quiet(s, inLoop) && (inLoop ==> loops != [])
      modifies this
      ensures instrs == old(instrs) + StmtCode(s, CtxOf(old(loops), old(scopes)))
      ensures operandStack == old(operandStack) && loops == old(loops)
      ensures scopes == if s.DeferStmt? then
                          old(scopes)[..|old(scopes)| - 1] + [old(scopes)[|old(scopes)| - 1] + [s.what]]
                        else old(scopes)
      ensures forall id | id !in StmtIds(s) :: Get(labels, id) == Get(old(labels), id)
      decreases s, 3
    {
      var size := |operandStack|;
      if s.ExprStmt? {
        GenerateExpr(s.expr);
        assert Tops(operandStack, 1) == [ExprOperand(s.expr)];
      } else if s.DeferStmt? {
        scopes := scopes[..|scopes| - 1] + [scopes[|scopes| - 1] + [s.what]];
      } else {
        GenerateStmt(s, inLoop);
      }
      DiscardOpstack(size);
    }

    method GenerateBlock(b: Stmts, replay: bool, ghost inLoop: bool)
      requires NumberedAll(b) && AnalysedAll(b, labels)
      requires QuietAll(b, inLoop) && (inLoop ==> loops != [])
      modifies this
      ensures instrs == old(instrs) + BlockCode(b, NoAssigns, CtxOf(old(loops), old(scopes)), replay)
      ensures operandStack == old(operandStack) && loops == old(loops) && scopes == old(scopes)
      ensures forall id | id !in StmtsIds(b) :: Get(labels, id) == Get(old(labels), id)
      decreases b, 1
    {
      ghost var ctx := CtxOf(loops, scopes);
      scopes := scopes + [[]];
      var rest := b;
      ghost var ds: seq<Later> := [];
      while rest.MoreStmts?
        invariant rest == b || rest < b
        invariant scopes == old(scopes) + [ds] && loops == old(loops) && operandStack == old(operandStack)
        invariant NumberedAll(rest) && AnalysedAll(rest, labels) && StmtsIds(rest) <= StmtsIds(b)
        invariant QuietAll(rest, inLoop)
        invariant instrs + BlockCode(rest, Latest(ds), ctx, replay) == old(instrs) + BlockCode(b, NoAssigns, ctx, replay)
        invariant forall id | id !in StmtsIds(b) :: Get(labels, id) == Get(old(labels), id)
        decreases rest
      {
        ghost var before, m := instrs, labels;
        var s := rest.head;
        hide StmtCode, Quiet, Analysed, Numbered, StmtIds, CtxOf, Collected;
        ScopeOpen(old(scopes), ds, loops);
        FirstOf(rest, inLoop, labels);
        GenerateChild(s, inLoop);
        AnalysedAllAgree(rest.tail, m, labels);
        BlockMoves(before, rest, ds, ctx, replay);
        if s.DeferStmt? {
          ds := ds + [s.what];
        }
        rest := rest.tail;
      }
      if replay {
        ReplayScope(scopes[|scopes| - 1]);
      }
      scopes := scopes[..|scopes| - 1];
    }
  }

  /** The whole of a function: analysis, then generation. */
  method GenerateFunc(body: Stmts) returns (code: seq<Instr>)
    requires NumberedAll(body) && QuietAll(body, false)
    ensures code == FuncCode(body)
  {
    var g := new Generator();
    g.AnalyseAll(body);
    g.GenerateBlock(body, !HasReturns(body), false);
    code := g.instrs;
  }

  function InOrder(ds: seq<Later>): Assigns {
    if ds == [] then NoAssigns else MoreAssigns(NoType, ds[0], InOrder(ds[1..]))
  }

  lemma {:induction false} InOrderMore(ds: seq<Later>, d: Later, rest: Assigns)
    ensures Append(InOrder(ds + [d]), rest) == Append(InOrder(ds), MoreAssigns(NoType, d, rest))
    decreases |ds|
  {
    if ds == [] {
      assert (ds + [d])[1..] == [];
    } else {
      assert (ds + [d])[1..] == ds[1..] + [d];
      InOrderMore(ds[1..], d, rest);
    }
  }

  // The context inside a block that has deferred ds.
  lemma ScopeOpen(scopes: seq<seq<Later>>, ds: seq<Later>, loops: seq<ControlLabels>)
    ensures CtxOf(loops, scopes + [ds]) == Inside(Latest(ds), CtxOf(loops, scopes))
    ensures Collected(scopes + [ds]) == Append(Latest(ds), Collected(scopes))
    ensures Latest(ds).NoAssigns? <==> ds == []
  {
    assert (scopes + [ds])[..|scopes|] == scopes;
  }

  // The first statement of a block, a deferred one included.
  lemma FirstOf(b: Stmts, inLoop: bool, m: NodeMap)
    requires b.MoreStmts? && QuietAll(b, inLoop) && NumberedAll(b) && AnalysedAll(b, m)
    ensures Quiet(b.head, inLoop) && QuietAll(b.tail, inLoop)
    ensures Numbered(b.head) && NumberedAll(b.tail) && Analysed(b.head, m) && AnalysedAll(b.tail, m)
    ensures StmtIds(b.head) <= StmtsIds(b) && StmtsIds(b.tail) <= StmtsIds(b) && StmtIds(b.head) !! StmtsIds(b.tail)
  {
  }

  lemma BlockMoves(before: seq<Instr>, b: Stmts, ds: seq<Later>, ctx: Ctx, replay: bool)
    requires b.MoreStmts?
    ensures var s := b.head;
            var more := if s.DeferStmt? then ds + [s.what] else ds;
            (before + StmtCode(s, Inside(Latest(ds), ctx)) + BlockCode(b.tail, Latest(more), ctx, replay)
             == before + BlockCode(b, Latest(ds), ctx, replay))
    ensures b.head.DeferStmt? ==>
              Latest(ds + [b.head.what]) == MoreAssigns(NoType, b.head.what, Latest(ds))
  {
    var s := b.head;
    if s.DeferStmt? {
      var more := ds + [s.what];
      assert more[..|more| - 1] == ds;
    } else {
      var sc, rc := StmtCode(s, Inside(Latest(ds), ctx)), BlockCode(b.tail, Latest(ds), ctx, replay);
      assert before + sc + rc == before + (sc + rc);
    }
  }

  lemma IfJoined(before: seq<Instr>, s: Stmt, ctx: Ctx)
    requires s.If?
    ensures before + (CondCode(s.cond, IfBody(s.id), IfElse(s.id)) + [LabelInstr(IfBody(s.id))])
            + StmtCode(s.thn, ctx) + ElseCode(s, ctx)
         == before + StmtCode(s, ctx)
  {
    hide CondCode;
    ElseShape(s, ctx);
    Joined(before, CondCode(s.cond, IfBody(s.id), IfElse(s.id)), [LabelInstr(IfBody(s.id))], StmtCode(s.thn, ctx),
      ElseCode(s, ctx));
  }

  lemma WhileJoined(before: seq<Instr>, s: Stmt, ctx: Ctx)
    requires s.While?
    ensures before + [LabelInstr(WhileCond(s.id))]
            + (CondCode(s.cond, WhileBody(s.id), WhileEnd(s.id)) + [LabelInstr(WhileBody(s.id))])
            + StmtCode(s.body, WhileCtx(s.id, ctx)) + [JumpInstr(WhileCond(s.id)), LabelInstr(WhileEnd(s.id))]
         == before + StmtCode(s, ctx)
  {
    hide CondCode;
    var lc := [LabelInstr(WhileCond(s.id))];
    var rest := CondCode(s.cond, WhileBody(s.id), WhileEnd(s.id))
      + ([LabelInstr(WhileBody(s.id))]
         + (StmtCode(s.body, WhileCtx(s.id, ctx)) + [JumpInstr(WhileCond(s.id)), LabelInstr(WhileEnd(s.id))]));
    Joined(before + lc, CondCode(s.cond, WhileBody(s.id), WhileEnd(s.id)), [LabelInstr(WhileBody(s.id))],
      StmtCode(s.body, WhileCtx(s.id, ctx)), [JumpInstr(WhileCond(s.id)), LabelInstr(WhileEnd(s.id))]);
    assert before + lc + rest == before + (lc + rest);
  }

  lemma ForJoined(before: seq<Instr>, s: Stmt, ctx: Ctx)
    requires s.For?
    ensures before + AssignsCode(RangeAssigns(s.range)) + ForTest(s.id, s.range) + [LabelInstr(ForBody(s.id))]
            + StmtCode(s.body, ForCtx(s.id, ctx)) + (ForAdvance(s.id, s.range) + [LabelInstr(ForEnd(s.id))])
         == before + StmtCode(s, ctx)
  {
    hide AssignsCode, RangeAssigns, ForTest, ForAdvance;
    var ac := AssignsCode(RangeAssigns(s.range));
    var rest := ForTest(s.id, s.range)
      + ([LabelInstr(ForBody(s.id))]
         + (StmtCode(s.body, ForCtx(s.id, ctx)) + (ForAdvance(s.id, s.range) + [LabelInstr(ForEnd(s.id))])));
    Joined(before + ac, ForTest(s.id, s.range), [LabelInstr(ForBody(s.id))], StmtCode(s.body, ForCtx(s.id, ctx)),
      ForAdvance(s.id, s.range) + [LabelInstr(ForEnd(s.id))]);
    assert before + ac + rest == before + (ac + rest);
  }

  lemma Joined(before: seq<Instr>, a: seq<Instr>, b: seq<Instr>, c: seq<Instr>, d: seq<Instr>)
    ensures before + (a + b) + c + d == before + (a + (b + (c + d)))
    ensures before + a + b + c + d == before + (a + (b + (c + d)))
  {
  }

  lemma LastOfRange(g: Range)
    ensures AssignsCode(Assignment(NoType, g.elem, Ident(First(g)), NoAssigns)) == [StoreInstr(NoType, g.elem, Ident(First(g)))]
    ensures AssignsCode(Assignment(NoType, g.elem, Ident(First(g)), Assignment(NoType, g.stepvar, Ident(Third(g)), NoAssigns)))
         == [StoreInstr(NoType, g.elem, Ident(First(g))), StoreInstr(NoType, g.stepvar, Ident(Third(g)))]
  {
    hide StoreInstr;
    var last := Assignment(NoType, g.stepvar, Ident(Third(g)), NoAssigns);
    assert ExprCode(Ident(First(g))) == [] && ExprCode(Ident(Third(g))) == [] && AssignsCode(NoAssigns) == [];
    assert AssignsCode(last) == [StoreInstr(NoType, g.stepvar, Ident(Third(g)))];
  }

  lemma RangeCode(g: Range)
    ensures AssignsCode(RangeAssigns(g))
         == (ExprCode(g.start) + [StoreInstr(g.ty, First(g), g.start)])
            + (ExprCode(g.end) + [StoreInstr(g.ty, Second(g), g.end)])
            + (if g.step.Some? then ExprCode(g.step.value) + [StoreInstr(g.ty, Third(g), g.step.value)] else [])
            + [StoreInstr(NoType, g.elem, Ident(First(g)))]
            + (if g.step.Some? then [StoreInstr(NoType, g.stepvar, Ident(Third(g)))] else [])
  {
    hide ExprCode, StoreInstr;
    var xs := RangeAssigns(g);
    LastOfRange(g);
    if g.step.Some? {
      assert AssignsCode(xs.rest.rest)
          == ExprCode(g.step.value) + ([StoreInstr(g.ty, Third(g), g.step.value)] + AssignsCode(xs.rest.rest.rest));
    }
  }

  // The condition is ready to be generated with the given exits.
  predicate Prepared(c: Cond, t: Label, f: Label, m: NodeMap) {
    Labelled(c, t, f, m) && Get(m, c.id).self.None?
  }

  predicate Analysed(s: Stmt, m: NodeMap)
    decreases s
  {
    match s
    case If(id, c, thn, els) =>
      Prepared(c, IfBody(id), IfElse(id), m) && Analysed(thn, m) && (els.Some? ==> Analysed(els.value, m))
    case While(id, c, body) => Prepared(c, WhileBody(id), WhileEnd(id), m) && Analysed(body, m)
    case For(_, _, body) => Analysed(body, m)
    case Block(b) => AnalysedAll(b, m)
    case _ => true
  }

  predicate AnalysedAll(b: Stmts, m: NodeMap)
    decreases b
  {
    b.MoreStmts? ==> Analysed(b.head, m) && AnalysedAll(b.tail, m)
  }

  lemma {:induction false} AnalysedAgree(s: Stmt, m: NodeMap, m': NodeMap)
    requires Agree(StmtIds(s), m, m') && Analysed(s, m)
    ensures Analysed(s, m')
    decreases s
  {
    match s
    case If(id, c, thn, els) =>
      PreparedAgree(c, IfBody(id), IfElse(id), m, m');
      AnalysedAgree(thn, m, m');
      if els.Some? {
        AnalysedAgree(els.value, m, m');
      }
    case While(id, c, body) =>
      PreparedAgree(c, WhileBody(id), WhileEnd(id), m, m');
      AnalysedAgree(body, m, m');
    case For(_, _, body) => AnalysedAgree(body, m, m');
    case Block(b) => AnalysedAllAgree(b, m, m');
    case _ =>
  }

  lemma PreparedAgree(c: Cond, t: Label, f: Label, m: NodeMap, m': NodeMap)
    requires Agree(CondIds(c), m, m') && Prepared(c, t, f, m)
    ensures Prepared(c, t, f, m')
  {
    assert c.id in CondIds(c);
    LabelledAgree(c, t, f, m, m');
  }

  lemma {:induction false} AnalysedAllAgree(b: Stmts, m: NodeMap, m': NodeMap)
    requires Agree(StmtsIds(b), m, m') && AnalysedAll(b, m)
    ensures AnalysedAll(b, m')
    decreases b
  {
    if b.MoreStmts? {
      AnalysedAgree(b.head, m, m');
      AnalysedAllAgree(b.tail, m, m');
    }
  }

  lemma BangParts(c: Cond)
    requires c.Bang? && CondNumbered(c)
    ensures CondNumbered(c.arg) && CondIds(c) == {c.id} + CondIds(c.arg) && c.id !in CondIds(c.arg)
    ensures c.arg.id in CondIds(c.arg)
  {
  }

  lemma BangLabelled(c: Cond, t: Label, f: Label, m: NodeMap)
    requires c.Bang? && Get(m, c.arg.id).self.None?
    requires c.arg.Logic? ==> Labelled(c.arg, f, t, m)
    requires c.arg.Cmp? ==> Get(m, c.arg.id) == NodeData(None, Some(f), false)
    requires c.arg.Bang? ==> Unlabelled(c.arg, m)
    ensures Labelled(c, t, f, m)
  {
  }

  lemma NumberedParts(c: Cond)
    requires c.Logic? && CondNumbered(c)
    ensures CondIds(c) == {c.id} + CondIds(c.left) + CondIds(c.right) && CondIds(c.left) !! CondIds(c.right)
    ensures c.id !in CondIds(c.left) && c.id !in CondIds(c.right)
    ensures c.left.id in CondIds(c.left) && c.right.id in CondIds(c.right)
    ensures CondNumbered(c.left) && CondNumbered(c.right)
  {
  }

  lemma LogicGen(c: Cond, m: NodeMap)
    requires c.Logic?
    ensures CondGen(c, m) == SelfInstrs(c.id, m) + (CondGen(c.left, m) + CondGen(c.right, m))
    ensures OperandsGen(c, m) == OperandsGen(c.left, m) + OperandsGen(c.right, m)
  {
  }

  // m: at first; m1: after the left operand; m2: after the right one.
  lemma RightKept(c: Cond, m: NodeMap, m1: NodeMap)
    requires c.Logic? && CondNumbered(c)
    requires forall id | id !in CondIds(c.left) :: Get(m1, id) == Get(m, id)
    ensures Agree(CondIds(c.right), m, m1)
  {
    hide CondIds, CondNumbered, Get;
    NumberedParts(c);
  }

  lemma OutsideKept(c: Cond, m: NodeMap, m1: NodeMap, m2: NodeMap)
    requires c.Logic? && CondNumbered(c)
    requires forall id | id !in CondIds(c.left) :: Get(m1, id) == Get(m, id)
    requires forall id | id !in CondIds(c.right) :: Get(m2, id) == Get(m1, id)
    ensures forall id | id !in CondIds(c) :: Get(m2, id) == Get(m, id)
  {
    hide CondIds, CondNumbered, Get;
    NumberedParts(c);
    forall id | id !in CondIds(c)
      ensures Get(m2, id) == Get(m, id)
    {
      assert id !in CondIds(c.left) && id !in CondIds(c.right);
    }
  }

  lemma RightBlank(c: Cond, m: NodeMap, m1: NodeMap)
    requires c.Logic? && CondNumbered(c)
    requires forall id | id in CondIds(c) && id != c.id :: Get(m, id) == BLANK
    requires forall id | id !in CondIds(c.left) :: Get(m1, id) == Get(m, id)
    ensures forall id | id in CondIds(c.right) :: Get(m1, id) == BLANK
  {
    NumberedParts(c);
  }

  // m1: after the left operand; m2: after the right one.
  lemma LogicDistributed(c: Cond, t: Label, f: Label, m: NodeMap, m1: NodeMap, m2: NodeMap)
    requires c.Logic? && CondNumbered(c)
    requires LabelledLeft(c.op, c.left, c.right, t, f, m1) && Labelled(c.right, t, f, m2)
    requires Get(m2, c.right.id).self == (if LinksRight(c.op, c.left) then Some(ShortLabel(c.right.id)) else None)
    requires forall id | id !in CondIds(c.left) :: Get(m1, id) == Get(m, id)
    requires forall id | id !in CondIds(c.right) :: Get(m2, id) == Get(m1, id)
    ensures Labelled(c, t, f, m2)
    ensures forall id | id !in CondIds(c) || id == c.id :: Get(m2, id) == Get(m, id)
  {
    hide Labelled, LabelledLeft, Unlabelled, CondIds, CondNumbered;
    NumberedParts(c);
    LeftAgree(c.op, c.left, c.right, t, f, m1, m2);
    LogicLabelled(c, t, f, m2);
  }

  lemma LogicLabelled(c: Cond, t: Label, f: Label, m: NodeMap)
    requires c.Logic? && LabelledLeft(c.op, c.left, c.right, t, f, m) && Labelled(c.right, t, f, m)
    requires Get(m, c.right.id).self == (if LinksRight(c.op, c.left) then Some(ShortLabel(c.right.id)) else None)
    ensures Labelled(c, t, f, m)
  {
  }

  lemma {:induction false} BlankUnlabelled(c: Cond, m: NodeMap)
    requires forall id | id in CondIds(c) :: Get(m, id) == BLANK
    ensures Unlabelled(c, m)
    decreases c
  {
    match c
    case Cmp(id, _, _, _, _) => assert id in CondIds(c);
    case Bang(_, x) =>
      assert x.id in CondIds(c);
      BlankUnlabelled(x, m);
    case Logic(_, _, l, r) =>
      assert l.id in CondIds(c) && r.id in CondIds(c);
      BlankUnlabelled(l, m);
      BlankUnlabelled(r, m);
  }

  // A target on a ! node itself is never looked at.
  lemma BangUnlabelled(c: Cond, m: NodeMap, m': NodeMap)
    requires c.Bang? && CondNumbered(c) && Unlabelled(c, m)
    requires forall id | id != c.id :: Get(m', id) == Get(m, id)
    ensures Unlabelled(c, m')
  {
    assert c.arg.id in CondIds(c.arg);
    UnlabelledAgree(c.arg, m, m');
  }
}
