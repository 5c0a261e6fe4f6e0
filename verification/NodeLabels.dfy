// The labels on the nodes of a condition.

module NodeLabels {
  // The analysis leaves them there, and the code is generated from them.

  import opened Ir
  import opened Ast
  import opened LowerCond
  import opened CondExact

  // What the analysis leaves on a node of a condition.
  datatype NodeData = NodeData(self: Option<Label>, target: Option<Label>, invert: bool)

  const BLANK := NodeData(None, None, false)

  type NodeMap = map<nat, NodeData>

  function Get(m: NodeMap, id: nat): NodeData {
    if id in m then m[id] else BLANK
  }

  // ----- What the labels on the nodes stand for -----

  function SelfInstrs(id: nat, m: NodeMap): seq<Instr> {
    if Get(m, id).self.Some? then [LabelInstr(Get(m, id).self.value)] else []
  }

  // A comparison jumps if it was given a target and pushes its value otherwise.
  function CmpGen(c: Cond, invert: bool, m: NodeMap): seq<Instr>
    requires c.Cmp?
  {
    if Get(m, c.id).target.Some? then CmpJump(c, invert, Get(m, c.id).target.value) else CmpValue(c, invert)
  }

  function CondGen(c: Cond, m: NodeMap): seq<Instr> {
    match c
    case Cmp(id, _, _, _, _) => SelfInstrs(id, m) + CmpGen(c, Get(m, id).invert, m)
    case Bang(_, x) =>
      if x.Cmp? && Get(m, x.id).target.None? then SelfInstrs(x.id, m) + CmpValue(x, true) else CondGen(x, m)
    case Logic(id, _, l, r) => SelfInstrs(id, m) + (CondGen(l, m) + CondGen(r, m))
  }

  function OperandsGen(c: Cond, m: NodeMap): seq<Operand> {
    match c
    case Cmp(id, ty, _, _, _) => if Get(m, id).target.Some? then [] else [RefOp(StackPop(ty))]
    case Bang(_, x) => OperandsGen(x, m)
    case Logic(_, _, l, r) => OperandsGen(l, m) + OperandsGen(r, m)
  }

  predicate Agree(ids: set<nat>, m: NodeMap, m': NodeMap) {
    forall id | id in ids :: Get(m, id) == Get(m', id)
  }

  lemma {:induction false} GenAgree(c: Cond, m: NodeMap, m': NodeMap)
    requires Agree(CondIds(c), m, m')
    ensures CondGen(c, m) == CondGen(c, m') && OperandsGen(c, m) == OperandsGen(c, m')
    decreases c
  {
    match c
    case Cmp(id, _, _, _, _) => assert id in CondIds(c);
    case Bang(_, x) =>
      assert x.id in CondIds(c);
      GenAgree(x, m, m');
    case Logic(id, _, l, r) =>
      assert id in CondIds(c);
      GenAgree(l, m, m');
      GenAgree(r, m, m');
  }

  // No labels anywhere below.
  predicate Unlabelled(c: Cond, m: NodeMap) {
    match c
    case Cmp(id, _, _, _, _) => Get(m, id) == BLANK
    case Bang(_, x) => Get(m, x.id).self.None? && Unlabelled(x, m)
    case Logic(_, _, l, r) =>
      Get(m, l.id).self.None? && Get(m, r.id).self.None? && Unlabelled(l, m) && Unlabelled(r, m)
  }

  predicate LabelledLeft(op: LogicOp, l: Cond, r: Cond, t: Label, f: Label, m: NodeMap)
    decreases l, 1
  {
    && Get(m, l.id).self.None?
    && if l.Bang? then Unlabelled(l, m)
       else if l.Cmp? && op.OrOr? then Get(m, l.id) == NodeData(None, Some(t), false)
       else Labelled(l, LeftTrueLabel(op, l, r, t), LeftFalseLabel(op, l, r, f), m)
  }

  // The labels distributed to a condition with exits t and f, its own self label aside.
  predicate Labelled(c: Cond, t: Label, f: Label, m: NodeMap)
    decreases c, 0
  {
    match c
    case Cmp(id, _, _, _, _) => Get(m, id).target == Some(f) && Get(m, id).invert
    case Bang(_, x) =>
      && Get(m, x.id).self.None?
      && if x.Cmp? then Get(m, x.id) == NodeData(None, Some(f), false)
         else if x.Logic? then Labelled(x, f, t, m) else Unlabelled(x, m)
    case Logic(_, op, l, r) =>
      && LabelledLeft(op, l, r, t, f, m)
      && Get(m, r.id).self == (if LinksRight(op, l) then Some(ShortLabel(r.id)) else None)
      && Labelled(r, t, f, m)
  }

  lemma {:induction false} UnlabelledAgree(c: Cond, m: NodeMap, m': NodeMap)
    requires Agree(CondIds(c), m, m') && Unlabelled(c, m)
    ensures Unlabelled(c, m')
    decreases c
  {
    match c
    case Cmp(id, _, _, _, _) => assert id in CondIds(c);
    case Bang(_, x) =>
      assert x.id in CondIds(c);
      UnlabelledAgree(x, m, m');
    case Logic(_, _, l, r) =>
      assert l.id in CondIds(c) && r.id in CondIds(c);
      UnlabelledAgree(l, m, m');
      UnlabelledAgree(r, m, m');
  }

  lemma {:induction false} LabelledAgree(c: Cond, t: Label, f: Label, m: NodeMap, m': NodeMap)
    requires Agree(CondIds(c), m, m') && Labelled(c, t, f, m)
    ensures Labelled(c, t, f, m')
    decreases c, 0
  {
    match c
    case Cmp(id, _, _, _, _) => assert id in CondIds(c);
    case Bang(_, x) =>
      assert x.id in CondIds(c);
      if x.Logic? {
        LabelledAgree(x, f, t, m, m');
      } else if x.Bang? {
        UnlabelledAgree(x, m, m');
      }
    case Logic(_, op, l, r) =>
      LogicLabels(c, t, f, m);
      assert r.id in CondIds(c);
      LeftAgree(op, l, r, t, f, m, m');
      LabelledAgree(r, t, f, m, m');
  }

  lemma {:induction false} LeftAgree(op: LogicOp, l: Cond, r: Cond, t: Label, f: Label, m: NodeMap, m': NodeMap)
    requires Agree(CondIds(l), m, m') && LabelledLeft(op, l, r, t, f, m)
    ensures LabelledLeft(op, l, r, t, f, m')
    decreases l, 1
  {
    assert l.id in CondIds(l);
    if l.Bang? {
      UnlabelledAgree(l, m, m');
    } else if !(l.Cmp? && op.OrOr?) {
      LabelledAgree(l, LeftTrueLabel(op, l, r, t), LeftFalseLabel(op, l, r, f), m, m');
    }
  }

  lemma {:induction false} UnlabelledCode(c: Cond, m: NodeMap)
    requires Unlabelled(c, m) && Get(m, c.id).self.None?
    ensures CondGen(c, m) == ValueCode(c) && OperandsGen(c, m) == ValueOperands(c)
    decreases c
  {
    match c
    case Cmp(_, _, _, _, _) =>
    case Bang(_, x) => UnlabelledCode(x, m);
    case Logic(_, _, l, r) =>
      UnlabelledCode(l, m);
      UnlabelledCode(r, m);
  }

  function OwnLabel(c: Cond, m: NodeMap): seq<Instr> {
    if IsBinary(c) then SelfInstrs(c.id, m) else []
  }

  /** Generating from distributed labels emits the jump code of the condition. */
  lemma {:induction false} LabelledCode(c: Cond, t: Label, f: Label, m: NodeMap)
    requires Labelled(c, t, f, m)
    ensures CondGen(c, m) == OwnLabel(c, m) + CondCode(c, t, f)
    ensures OperandsGen(c, m) == CondOperands(c)
    decreases c, 0, 1
  {
    match c
    case Cmp(_, _, _, _, _) =>
    case Bang(_, x) =>
      if x.Logic? {
        LabelledCode(x, f, t, m);
        assert CondGen(x, m) == CondCode(x, f, t);
      } else if x.Bang? {
        UnlabelledCode(x, m);
      }
    case Logic(_, _, _, _) => LogicLabelledCode(c, t, f, m);
  }

  lemma {:induction false} LogicLabelledCode(c: Cond, t: Label, f: Label, m: NodeMap)
    requires c.Logic? && Labelled(c, t, f, m)
    ensures CondGen(c, m) == OwnLabel(c, m) + CondCode(c, t, f)
    ensures OperandsGen(c, m) == CondOperands(c)
    decreases c, 0, 0
  {
    hide Labelled, LeftCode, Unlabelled;
    var op, l, r := c.op, c.left, c.right;
    LogicLabels(c, t, f, m);
    LeftLabelledCode(op, l, r, t, f, m);
    LabelledCode(r, t, f, m);
    assert OwnLabel(r, m) == SelfLabel(op, l, r);
  }

  lemma LogicLabels(c: Cond, t: Label, f: Label, m: NodeMap)
    requires c.Logic? && Labelled(c, t, f, m)
    ensures LabelledLeft(c.op, c.left, c.right, t, f, m) && Labelled(c.right, t, f, m)
    ensures Get(m, c.right.id).self == (if LinksRight(c.op, c.left) then Some(ShortLabel(c.right.id)) else None)
  {
  }

  lemma {:induction false} LeftLabelledCode(op: LogicOp, l: Cond, r: Cond, t: Label, f: Label, m: NodeMap)
    requires LabelledLeft(op, l, r, t, f, m)
    ensures CondGen(l, m) == LeftCode(op, l, r, t, f)
    ensures OperandsGen(l, m) == if l.Bang? then ValueOperands(l) else CondOperands(l)
    decreases l, 1
  {
    if l.Bang? {
      UnlabelledCode(l, m);
    } else if !(l.Cmp? && op.OrOr?) {
      LabelledCode(l, LeftTrueLabel(op, l, r, t), LeftFalseLabel(op, l, r, f), m);
    }
  }

  // An accepted condition leaves no operand behind.
  lemma {:induction false} AcceptedOperands(c: Cond)
    requires !Strays(c)
    ensures CondOperands(c) == []
    decreases c
  {
    match c
    case Cmp(_, _, _, _, _) =>
    case Bang(_, x) =>
      if x.Logic? {
        AcceptedOperands(x);
      }
    case Logic(_, _, l, r) =>
      AcceptedOperands(l);
      AcceptedOperands(r);
  }

  function Comparisons(c: Cond): nat {
    match c
    case Cmp(_, _, _, _, _) => 1
    case Bang(_, x) => Comparisons(x)
    case Logic(_, _, l, r) => Comparisons(l) + Comparisons(r)
  }

  lemma {:induction false} OneOperandEach(c: Cond)
    ensures |ValueOperands(c)| == Comparisons(c)
    decreases c
  {
    match c
    case Cmp(_, _, _, _, _) =>
    case Bang(_, x) => OneOperandEach(x);
    case Logic(_, _, l, r) =>
      OneOperandEach(l);
      OneOperandEach(r);
  }

  /** The condition !!c leaves one operand for each of its comparisons. */
  lemma DoubleBangOperands(i: nat, j: nat, c: Cond)
    ensures |CondOperands(Bang(i, Bang(j, c)))| == Comparisons(c)
  {
    OneOperandEach(c);
    assert ValueOperands(Bang(j, c)) == ValueOperands(c);
  }
}
