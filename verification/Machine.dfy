// A small-step machine for the IR. A state is a program counter, a store of named places
// and a stack of values; it may also have returned, trapped, or got stuck on an
// instruction it does not interpret. Stepping is a function, so a run is determined by its start.

module Machine {
  import opened Ir

  // One call, as the callee sees it.
  datatype CallMade = CallMade(callee: Label, args: seq<int>)

  // The values of the named places, and the calls made so far, the latest last.
  datatype Store = Store(vars: map<Ref, int>, calls: seq<CallMade>)

  // What the instructions mean. A call sees the places and all calls made, itself the last.
  // An arithmetic instruction may trap (division). A cast or an address sees its operands, and
  // an access through an address all places and all calls made, which may have written what it
  // reads; what is written through an address, or by inline assembly, may be any place.
  datatype Env = Env(
    call: Store -> int,
    arith: (Op, int, int) -> Option<int>,
    access: (Instr, seq<int>, Store) -> int,
    write: (Instr, seq<int>, Store) -> map<Ref, int>)

  datatype Program = Program(code: seq<Instr>, env: Env)

  datatype Stack = Empty | Push(top: int, rest: Stack)

  datatype State =
    | Running(pc: int, store: Store, stack: Stack)
    | Returned(store: Store, value: int)
    | Trapped(store: Store)
    | Stuck

  const NOTHING := Store(map[], [])

  function Read(st: Store, r: Ref): int {
    if r in st.vars then st.vars[r] else 0
  }

  function Set(st: Store, r: Ref, v: int): Store {
    st.(vars := st.vars[r := v])
  }

  function AddCall(st: Store, f: Label, args: seq<int>): Store {
    st.(calls := st.calls + [CallMade(f, args)])
  }

  // Operand fetch. An instruction fetches its operands from the last to the first.
  datatype Fetched<T> = Got(value: T, stack: Stack) | Missing

  function Fetch(o: Operand, st: Store, stk: Stack): Fetched<int> {
    match o
    case IntOp(v, _) => Got(v, stk)
    case RefOp(StackPop(_)) => if stk.Push? then Got(stk.top, stk.rest) else Missing
    case RefOp(r) => if Plain(r) then Got(Read(st, r), stk) else Missing
    case _ => Missing
  }

  function Fetch2(a: Operand, b: Operand, st: Store, stk: Stack): Fetched<(int, int)> {
    match Fetch(b, st, stk)
    case Missing => Missing
    case Got(vb, stk1) =>
      match Fetch(a, st, stk1)
      case Missing => Missing
      case Got(va, stk2) => Got((va, vb), stk2)
  }

  function FetchAll(os: seq<Operand>, st: Store, stk: Stack): Fetched<seq<int>> {
    if os == [] then Got([], stk)
    else
      match FetchAll(os[1..], st, stk)
      case Missing => Missing
      case Got(vs, stk1) =>
        match Fetch(os[0], st, stk1)
        case Missing => Missing
        case Got(v, stk2) => Got([v] + vs, stk2)
  }

  // Operands of which some may be places named through a popped address.
  function Peek(o: Operand, st: Store, stk: Stack): Fetched<int> {
    match o
    case IntOp(v, _) => Got(v, stk)
    case RefOp(r) =>
      if Plain(r) then Got(Read(st, r), stk)
      else if stk.Push? then Got(stk.top, stk.rest)
      else Missing
    case _ => Got(0, stk)
  }

  function PeekAll(os: seq<Operand>, st: Store, stk: Stack): Fetched<seq<int>> {
    if os == [] then Got([], stk)
    else
      match PeekAll(os[1..], st, stk)
      case Missing => Missing
      case Got(vs, stk1) =>
        match Peek(os[0], st, stk1)
        case Missing => Missing
        case Got(v, stk2) => Got([v] + vs, stk2)
  }

  function Drop(n: nat, stk: Stack): Fetched<()> {
    if n == 0 then Got((), stk)
    else if stk.Empty? then Missing
    else Drop(n - 1, stk.rest)
  }

  predicate IsCompare(op: Op) {
    op.CmpLt? || op.CmpGt? || op.CmpLtEq? || op.CmpGtEq? || op.CmpEq? || op.CmpNeq?
  }

  predicate IsCondJump(op: Op) {
    op.JmpEq? || op.JmpNeq? || op.JmpGt? || op.JmpGtEq? || op.JmpLt? || op.JmpLtEq?
  }

  predicate IsArith2(op: Op) {
    op.Add? || op.Sub? || op.Mul? || op.Div? || op.And? || op.Or? || op.Shr? || op.Shl?
  }

  predicate IsAccess(op: Op) {
    op.Cast? || op.Deref? || op.Index? || op.LoadAddr?
  }

  // Reads through an address, so any place may be read.
  predicate ReadsMemory(op: Op) {
    op.Deref? || op.Index?
  }

  // Writes a place that is not named, or several.
  predicate WritesMemory(i: Instr) {
    || i.op.LoadPtr? || i.op.Copy? || i.op.StoreOp? || i.op.Asm?
    || (i.op.Load? && |i.operands| == 2 && i.operands[0].RefOp? && !Plain(i.operands[0].ref))
  }

  // The test made by a comparison or by a conditional jump.
  predicate Holds(op: Op, a: int, b: int) {
    match op
    case CmpLt | JmpLt => a < b
    case CmpGt | JmpGt => a > b
    case CmpLtEq | JmpLtEq => a <= b
    case CmpGtEq | JmpGtEq => a >= b
    case CmpEq | JmpEq => a == b
    case CmpNeq | JmpNeq => a != b
    case _ => false
  }

  function Bit(b: bool): int {
    if b then 1 else 0
  }

  // The index of the instruction defining a label, or -1.
  function LabelIndex(code: seq<Instr>, l: Label): (i: int)
    ensures i == -1 || (0 <= i < |code| && code[i] == LabelInstr(l))
    ensures i == -1 ==> LabelInstr(l) !in code
  {
    if code == [] then -1
    else if code[|code| - 1] == LabelInstr(l) then |code| - 1
    else LabelIndex(code[..|code| - 1], l)
  }

  function Goto(p: Program, o: Operand, st: Store, stk: Stack): State {
    if o.LabelOp? && LabelIndex(p.code, o.target) >= 0
    then Running(LabelIndex(p.code, o.target), st, stk)
    else Stuck
  }

  function StepArith(p: Program, i: Instr, pc: int, st: Store, stk: Stack): State {
    if |i.operands| != 2 then Stuck
    else
      match Fetch2(i.operands[0], i.operands[1], st, stk)
      case Missing => Stuck
      case Got((a, b), rest) =>
        if IsCompare(i.op) then Running(pc + 1, st, Push(Bit(Holds(i.op, a, b)), rest))
        else
          match p.env.arith(i.op, a, b)
          case None => Trapped(st)
          case Some(v) => Running(pc + 1, st, Push(v, rest))
  }

  function StepNeg(p: Program, i: Instr, pc: int, st: Store, stk: Stack): State {
    if |i.operands| != 1 then Stuck
    else
      match Fetch(i.operands[0], st, stk)
      case Missing => Stuck
      case Got(a, rest) =>
        match p.env.arith(Neg, 0, a)
        case None => Trapped(st)
        case Some(v) => Running(pc + 1, st, Push(v, rest))
  }

  function StepCondJump(p: Program, i: Instr, pc: int, st: Store, stk: Stack): State {
    if |i.operands| != 3 then Stuck
    else
      match Fetch2(i.operands[0], i.operands[1], st, stk)
      case Missing => Stuck
      case Got((a, b), rest) =>
        if Holds(i.op, a, b) then Goto(p, i.operands[2], st, rest) else Running(pc + 1, st, rest)
  }

  function StepLoad(i: Instr, pc: int, st: Store, stk: Stack): State {
    if |i.operands| != 2 then Stuck
    else
      match Fetch(i.operands[1], st, stk)
      case Missing => Stuck
      case Got(v, rest) =>
        if i.operands[0].RefOp? then Running(pc + 1, Set(st, i.operands[0].ref, v), rest) else Stuck
  }

  function StepWrite(p: Program, i: Instr, pc: int, st: Store, stk: Stack): State {
    match PeekAll(i.operands, st, stk)
    case Missing => Stuck
    case Got(vs, rest) => Running(pc + 1, st.(vars := p.env.write(i, vs, st)), rest)
  }

  function StepCall(p: Program, i: Instr, pc: int, st: Store, stk: Stack): State {
    if |i.operands| == 0 || !i.operands[0].LabelOp? then Stuck
    else
      match FetchAll(i.operands[1..], st, stk)
      case Missing => Stuck
      case Got(vs, rest) =>
        var made := AddCall(st, i.operands[0].target, vs);
        Running(pc + 1, made, if i.resultType == VoidType then rest else Push(p.env.call(made), rest))
  }

  // An address is taken of a place, not of what it holds.
  function StepAccess(p: Program, i: Instr, pc: int, st: Store, stk: Stack): State {
    if |i.operands| != (if i.op.Index? then 2 else 1) then Stuck
    else
      match PeekAll(i.operands, if i.op.LoadAddr? then NOTHING else st, stk)
      case Missing => Stuck
      case Got(vs, rest) =>
        Running(pc + 1, st, Push(p.env.access(i, vs, if ReadsMemory(i.op) then st else NOTHING), rest))
  }

  // What the caller gets; nothing is handed over as a result of void type.
  function Answer(ty: TypeId, v: int): int {
    if ty == VoidType then 0 else v
  }

  function StepReturn(i: Instr, st: Store, stk: Stack): State {
    if |i.operands| != 1 then Stuck
    else
      match Fetch(i.operands[0], st, stk)
      case Missing => Stuck
      case Got(v, _) => Returned(st, Answer(i.resultType, v))
  }

  function StepNoop(i: Instr, pc: int, st: Store, stk: Stack): State {
    match Drop(Consumption(i), stk)
    case Missing => Stuck
    case Got(_, rest) => Running(pc + 1, st, rest)
  }

  /** One instruction. */
  function Step(p: Program, s: State): State
    requires s.Running? && 0 <= s.pc < |p.code|
  {
    var i := p.code[s.pc];
    if IsArith2(i.op) || IsCompare(i.op) then StepArith(p, i, s.pc, s.store, s.stack)
    else if IsCondJump(i.op) then StepCondJump(p, i, s.pc, s.store, s.stack)
    else if WritesMemory(i) then StepWrite(p, i, s.pc, s.store, s.stack)
    else if IsAccess(i.op) then StepAccess(p, i, s.pc, s.store, s.stack)
    else
      match i.op
      case MakeLabel => Running(s.pc + 1, s.store, s.stack)
      case Jmp => if |i.operands| == 1 then Goto(p, i.operands[0], s.store, s.stack) else Stuck
      case Load => StepLoad(i, s.pc, s.store, s.stack)
      case Neg => StepNeg(p, i, s.pc, s.store, s.stack)
      case Call => StepCall(p, i, s.pc, s.store, s.stack)
      case Return => StepReturn(i, s.store, s.stack)
      case StackDup => if s.stack.Push? then Running(s.pc + 1, s.store, Push(s.stack.top, s.stack)) else Stuck
      case Noop => StepNoop(i, s.pc, s.store, s.stack)
  }

  predicate CanStep(p: Program, s: State) {
    s.Running? && 0 <= s.pc < |p.code|
  }

  function Run(p: Program, s: State, n: nat): State
    decreases n
  {
    if n == 0 || !CanStep(p, s) then s else Run(p, Step(p, s), n - 1)
  }

  ghost predicate Reaches(p: Program, s: State, t: State) {
    exists n: nat :: Run(p, s, n) == t
  }

  // Still running after m steps, with this store.
  predicate LiveAt(p: Program, s: State, m: nat, st: Store) {
    var t := Run(p, s, m);
    CanStep(p, t) && t.store == st
  }

  // Still running after n steps or more, with this store.
  ghost predicate Live(p: Program, s: State, n: nat, st: Store) {
    exists m: nat :: n <= m && LiveAt(p, s, m, st)
  }

  lemma {:induction false} RunAdd(p: Program, s: State, m: nat, n: nat)
    ensures Run(p, s, m + n) == Run(p, Run(p, s, m), n)
    decreases m
  {
    if m != 0 && CanStep(p, s) {
      RunAdd(p, Step(p, s), m - 1, n);
    } else if m != 0 {
      RunStopped(p, s, n);
      RunStopped(p, s, m + n);
    }
  }

  lemma RunStopped(p: Program, s: State, n: nat)
    requires !CanStep(p, s)
    ensures Run(p, s, n) == s
  {
  }

  lemma ReachesTrans(p: Program, s: State, t: State, u: State)
    requires Reaches(p, s, t) && Reaches(p, t, u)
    ensures Reaches(p, s, u)
  {
    var m: nat :| Run(p, s, m) == t;
    var n: nat :| Run(p, t, n) == u;
    RunAdd(p, s, m, n);
  }

  lemma ReachesSelf(p: Program, s: State)
    ensures Reaches(p, s, s)
  {
    assert Run(p, s, 0) == s;
  }

  lemma ReachesStep(p: Program, s: State)
    requires CanStep(p, s)
    ensures Reaches(p, s, Step(p, s))
  {
    assert Run(p, Step(p, s), 0) == Step(p, s);
    assert Run(p, s, 1) == Step(p, s);
  }

  // One more step in front of a path.
  lemma StepThen(p: Program, s: State, t: State)
    requires CanStep(p, s) && Reaches(p, Step(p, s), t)
    ensures Reaches(p, s, t)
  {
    ReachesStep(p, s);
    ReachesTrans(p, s, Step(p, s), t);
  }

  lemma LiveAfter(p: Program, s: State, t: State, n: nat, st: Store)
    requires Reaches(p, s, t) && Live(p, t, n, st)
    ensures Live(p, s, n, st)
  {
    var k: nat :| Run(p, s, k) == t;
    var m: nat :| n <= m && LiveAt(p, t, m, st);
    RunAdd(p, s, k, m);
    assert LiveAt(p, s, k + m, st);
  }

  lemma LiveNow(p: Program, s: State)
    requires CanStep(p, s)
    ensures Live(p, s, 0, s.store)
  {
    assert LiveAt(p, s, 0, s.store);
  }

  // A step followed by a run of n steps is a run of n + 1 steps.
  lemma LiveStep(p: Program, s: State, n: nat, st: Store)
    requires CanStep(p, s) && Live(p, Step(p, s), n, st)
    ensures Live(p, s, n + 1, st)
  {
    var m: nat :| n <= m && LiveAt(p, Step(p, s), m, st);
    assert LiveAt(p, s, m + 1, st);
  }

  // Before a machine stops it is still running.
  lemma LiveNotStopped(p: Program, s: State, n: nat, st: Store)
    requires Live(p, s, n, st)
    ensures CanStep(p, Run(p, s, n))
  {
    var m: nat :| n <= m && LiveAt(p, s, m, st);
    RunAdd(p, s, n, m - n);
  }

  // A machine that stops never stops in two ways.
  lemma StopsOnce(p: Program, s: State, m: nat, n: nat)
    requires !CanStep(p, Run(p, s, m)) && !CanStep(p, Run(p, s, n))
    ensures Run(p, s, m) == Run(p, s, n)
  {
    if m <= n {
      RunAdd(p, s, m, n - m);
      RunStopped(p, Run(p, s, m), n - m);
    } else {
      RunAdd(p, s, n, m - n);
      RunStopped(p, Run(p, s, n), m - n);
    }
  }

  // The fragment c sits in the program's code at index k.
  ghost predicate At(code: seq<Instr>, k: int, c: seq<Instr>) {
    0 <= k && k + |c| <= |code| && code[k..k + |c|] == c
  }

  lemma AtSplit(code: seq<Instr>, k: int, a: seq<Instr>, b: seq<Instr>)
    requires At(code, k, a + b)
    ensures At(code, k, a) && At(code, k + |a|, b)
  {
    assert a == (a + b)[..|a|];
    assert b == (a + b)[|a|..];
  }

  lemma AtSplit3(code: seq<Instr>, k: int, a: seq<Instr>, b: seq<Instr>, c: seq<Instr>)
    requires At(code, k, a + (b + c))
    ensures At(code, k, a) && At(code, k + |a|, b) && At(code, k + |a| + |b|, c) && At(code, k, a + b)
  {
    AtSplit(code, k, a, b + c);
    AtSplit(code, k + |a|, b, c);
    assert a + b == (a + (b + c))[..|a| + |b|];
  }

  lemma AtHead(code: seq<Instr>, k: int, c: seq<Instr>)
    requires At(code, k, c) && |c| > 0
    ensures 0 <= k < |code| && code[k] == c[0]
  {
    assert code[k..k + |c|][0] == code[k];
  }

  ghost predicate UniqueLabels(code: seq<Instr>) {
    forall i, j :: 0 <= i < j < |code| && code[i].op.MakeLabel? ==> code[i] != code[j]
  }

  lemma LabelFound(code: seq<Instr>, i: int, l: Label)
    requires UniqueLabels(code) && 0 <= i < |code| && code[i] == LabelInstr(l)
    ensures LabelIndex(code, l) == i
  {
    assert LabelInstr(l) in code;
  }

  // ----- What one instruction reaches -----

  lemma Arith2Reaches(p: Program, pc: int, st: Store, stk: Stack, i: Instr, a: int, b: int, rest: Stack)
    requires 0 <= pc < |p.code| && p.code[pc] == i && |i.operands| == 2 && (IsArith2(i.op) || IsCompare(i.op))
    requires Fetch2(i.operands[0], i.operands[1], st, stk) == Got((a, b), rest)
    ensures match if IsCompare(i.op) then Some(Bit(Holds(i.op, a, b))) else p.env.arith(i.op, a, b)
            case None => Reaches(p, Running(pc, st, stk), Trapped(st))
            case Some(v) => Reaches(p, Running(pc, st, stk), Running(pc + 1, st, Push(v, rest)))
  {
    ReachesStep(p, Running(pc, st, stk));
  }

  lemma CondJumpReaches(p: Program, pc: int, st: Store, stk: Stack, i: Instr, a: int, b: int, rest: Stack)
    requires 0 <= pc < |p.code| && p.code[pc] == i && |i.operands| == 3 && IsCondJump(i.op)
    requires Fetch2(i.operands[0], i.operands[1], st, stk) == Got((a, b), rest)
    ensures Reaches(p, Running(pc, st, stk),
                    if Holds(i.op, a, b) then Goto(p, i.operands[2], st, rest) else Running(pc + 1, st, rest))
  {
    ReachesStep(p, Running(pc, st, stk));
  }

  lemma LabelReaches(p: Program, pc: int, st: Store, stk: Stack, l: Label)
    requires 0 <= pc < |p.code| && p.code[pc] == LabelInstr(l)
    ensures Reaches(p, Running(pc, st, stk), Running(pc + 1, st, stk))
  {
    ReachesStep(p, Running(pc, st, stk));
  }

  // A step onto a label, for counting the steps of a loop.
  lemma LabelStep(p: Program, pc: int, st: Store, stk: Stack, l: Label)
    requires 0 <= pc < |p.code| && p.code[pc] == LabelInstr(l)
    ensures CanStep(p, Running(pc, st, stk)) && Step(p, Running(pc, st, stk)) == Running(pc + 1, st, stk)
  {
  }

  lemma GotoLabel(p: Program, pc: int, st: Store, stk: Stack, l: Label)
    requires UniqueLabels(p.code) && 0 <= pc < |p.code| && p.code[pc] == LabelInstr(l)
    ensures Goto(p, LabelOp(l), st, stk) == Running(pc, st, stk)
  {
    LabelFound(p.code, pc, l);
  }

  // Jumping to a label and stepping over it.
  lemma GotoReaches(p: Program, pc: int, st: Store, stk: Stack, l: Label)
    requires UniqueLabels(p.code) && 0 <= pc < |p.code| && p.code[pc] == LabelInstr(l)
    ensures Reaches(p, Goto(p, LabelOp(l), st, stk), Running(pc + 1, st, stk))
  {
    GotoLabel(p, pc, st, stk, l);
    LabelReaches(p, pc, st, stk, l);
  }

  lemma JumpReaches(p: Program, pc: int, st: Store, stk: Stack, l: Label)
    requires 0 <= pc < |p.code| && p.code[pc] == JumpInstr(l)
    ensures Reaches(p, Running(pc, st, stk), Goto(p, LabelOp(l), st, stk))
  {
    ReachesStep(p, Running(pc, st, stk));
  }

  lemma LoadReaches(p: Program, pc: int, st: Store, stk: Stack, i: Instr, d: Ref, src: Operand, v: int, rest: Stack)
    requires 0 <= pc < |p.code| && p.code[pc] == i && i.op == Load && i.operands == [RefOp(d), src]
    requires Plain(d) && Fetch(src, st, stk) == Got(v, rest)
    ensures Reaches(p, Running(pc, st, stk), Running(pc + 1, Set(st, d, v), rest))
  {
    ReachesStep(p, Running(pc, st, stk));
  }

  lemma ReturnReaches(p: Program, pc: int, st: Store, stk: Stack, i: Instr, v: int, rest: Stack)
    requires 0 <= pc < |p.code| && p.code[pc] == i && i.op == Return && |i.operands| == 1
    requires Fetch(i.operands[0], st, stk) == Got(v, rest)
    ensures Reaches(p, Running(pc, st, stk), Returned(st, Answer(i.resultType, v)))
  {
    ReachesStep(p, Running(pc, st, stk));
  }
}
