// The hybrid stack IR: instructions whose operands are either named places and
// constants, read when the instruction runs, or values popped from a stack.

module Ir {

  datatype Option<+T> = None | Some(value: T)

  // A type identity; instructions emitted without one carry NoType.
  datatype TypeId = NoType | VoidType | Int32Type | TypeRef(index: nat)

  // The type of a value.
  type ValueType = t: TypeId | t != VoidType witness Int32Type

  // Label names are spelled from a node number and a fixed suffix, so a label
  // is the pair of both; a call names its callee by a label too.
  datatype Label =
    | FuncLabel(name: string)
    | ShortLabel(node: nat)
    | IfBody(node: nat)
    | IfElse(node: nat)
    | IfEnd(node: nat)
    | WhileCond(node: nat)
    | WhileBody(node: nat)
    | WhileEnd(node: nat)
    | ForCond(node: nat)
    | ForBody(node: nat)
    | ForNegative(node: nat)
    | ForEnd(node: nat)

  datatype Ref =
    | Global(name: string, ty: TypeId)
    | Local(index: nat, ty: TypeId)
    | Arg(index: nat, ty: TypeId)
    | StackPop(ty: TypeId)
    | Field(base: Ref, fieldIndex: nat)

  datatype Operand =
    | LabelOp(target: Label)
    | RefOp(ref: Ref)
    | IntOp(val: int, ty: TypeId)
    | StringOp(index: nat)
    | TextOp(text: string)

  datatype Op =
    | Load | LoadPtr | Copy | StoreOp | Cast
    | Add | Sub | Mul | Div | Neg | And | Or | Shr | Shl
    | Call | Return | Index | Deref | LoadAddr | MakeLabel | Asm
    | CmpLt | CmpGt | CmpLtEq | CmpGtEq | CmpEq | CmpNeq
    | Jmp | JmpEq | JmpNeq | JmpGt | JmpGtEq | JmpLt | JmpLtEq
    | StackDup | Noop

  datatype Instr = Instr(op: Op, resultType: TypeId, operands: seq<Operand>)

  function RefConsumption(r: Ref): nat {
    match r
    case StackPop(_) => 1
    case Field(base, _) => RefConsumption(base)
    case _ => 0
  }

  function OperandConsumption(o: Operand): nat {
    if o.RefOp? then RefConsumption(o.ref) else 0
  }

  function OperandsConsumption(os: seq<Operand>): nat {
    if os == [] then 0 else OperandConsumption(os[0]) + OperandsConsumption(os[1..])
  }

  /** How many stack values an instruction pops. */
  function Consumption(i: Instr): nat {
    OperandsConsumption(i.operands)
  }

  /** Whether an instruction pushes its result. */
  predicate PushesToStack(i: Instr) {
    match i.op
    case Add | Sub | Mul | Div | And | Or | Shr | Shl => true
    case Deref | Index | LoadAddr | Cast | StackDup | Neg => true
    case CmpGt | CmpLt | CmpLtEq | CmpGtEq | CmpEq | CmpNeq => true
    case Call => i.resultType != VoidType
    case _ => false
  }

  predicate HasSideEffect(i: Instr) {
    i.op.Call? || i.op.StackDup?
  }

  predicate IsNestedField(o: Operand) {
    o.RefOp? && o.ref.Field? && o.ref.base.Field?
  }

  /**
   * Equality of two instructions. A field of a field is held through a shared
   * pointer and compared by address, so such operands never match.
   */
  predicate ContentsEqual(a: Instr, b: Instr) {
    a == b && forall o | o in a.operands :: !IsNestedField(o)
  }

  function LabelInstr(l: Label): Instr {
    Instr(MakeLabel, NoType, [LabelOp(l)])
  }

  function JumpInstr(l: Label): Instr {
    Instr(Jmp, NoType, [LabelOp(l)])
  }

  function LoadInstr(dest: Ref, src: Operand): Instr {
    Instr(Load, NoType, [RefOp(dest), src])
  }

  function CondJumpInstr(op: Op, a: Operand, b: Operand, l: Label): Instr {
    Instr(op, NoType, [a, b, LabelOp(l)])
  }

  // The place a field, or a field of a field, belongs to.
  function Root(r: Ref): Ref {
    if r.Field? then Root(r.base) else r
  }

  // A place whose name involves no stack value.
  predicate Plain(r: Ref) {
    !Root(r).StackPop?
  }

  // Only a popped address is taken from the stack.
  lemma {:induction false} RootTakes(r: Ref)
    ensures RefConsumption(r) == if Plain(r) then 0 else 1
    decreases r
  {
    if r.Field? {
      RootTakes(r.base);
    }
  }

  lemma RefTakes(o: Operand)
    requires o.RefOp?
    ensures OperandConsumption(o) == if Plain(o.ref) then 0 else 1
  {
    RootTakes(o.ref);
  }

  // A place that is named without computing an address: a variable or a field of one.
  type Name = r: Ref | Plain(r) && (r.Field? ==> !r.base.Field?) witness Local(0, NoType)

  type Variable = r: Ref | Plain(r) && !r.Field? witness Local(0, NoType)
}
