// Parameters during a call.

module ParamKept {
  // Where the body of a function reads its parameters, and when they still have there the
  // value they were called with.

  import opened Ir
  import opened Frame
  import opened FrameCode
  import opened CallChain
  import opened X64Arith

  // ----- What the code of an instruction does to the registers of the arguments -----

  // The parameter a place belongs to.
  function ParamOf(r: Ref): Option<nat> {
    match r
    case Arg(k, _) => Some(k)
    case Field(base, _) => ParamOf(base)
    case _ => None
  }

  predicate Assigns(i: Instr, k: nat) {
    (i.op.Load? || i.op.LoadPtr?) && |i.operands| > 0 && i.operands[0].RefOp? && ParamOf(i.operands[0].ref) == Some(k)
  }

  // A load into a place assigns the parameter the place belongs to, and no other.
  lemma {:induction false} AssignsExact(d: Ref, ty: TypeId, src: Operand, k: nat)
    ensures Assigns(Instr(Load, ty, [RefOp(d), src]), k) <==> Root(d).Arg? && Root(d).index == k
    decreases d
  {
    if d.Field? {
      AssignsExact(d.base, ty, src, k);
    }
  }

  predicate InRegister(f: Func, k: nat) {
    k < RegisterArgs(f) && !StoresArgs(f)
  }

  predicate LeftIsParam(i: Instr, k: nat) {
    |i.operands| > 0 && i.operands[0].RefOp? && i.operands[0].ref.Arg? && i.operands[0].ref.index == k
  }

  // The lowest bytes of a register, which instructions name apart from the whole.
  datatype Part = Part(reg: Reg, width: nat)

  // A register that must not be computed in: one of the list of argument registers, all whole.
  predicate IsConstReg(p: Part) {
    exists k :: 0 <= k < ARG_REGISTERS && p == Part(ArgReg(k), 8)
  }

  // A left operand in such a register, or not in a register, is copied before it is
  // computed with; in any other register it is replaced by the result.
  predicate ComputesIn(f: Func, i: Instr, k: nat) {
    && (i.op.Add? || i.op.Sub? || i.op.Mul? || i.op.And? || i.op.Or?)
    && LeftIsParam(i, k) && InRegister(f, k) && !IsConstReg(Part(ArgReg(k), RegisterWidth(f.params[k])))
  }

  // So a parameter is computed in exactly when it fills only a part of its register.
  lemma ConstRegExact(k: nat, size: nat)
    requires k < ARG_REGISTERS
    ensures IsConstReg(Part(ArgReg(k), RegisterWidth(size))) <==> size != 1 && size != 2 && size != 4
  {
    if RegisterWidth(size) == 8 {
      assert Part(ArgReg(k), RegisterWidth(size)) == Part(ArgReg(k), 8);
    }
  }

  // The argument registers that the code of an instruction may leave changed: a call puts
  // its arguments there, and the callee may use them all; the strings are copied and
  // filled by counting in rcx, which also takes a shift count; a division leaves the
  // remainder in rdx.
  predicate Overwrites(i: Instr, k: nat) {
    match i.op
    case Call => true
    case Copy | StoreOp => k == 3
    case Shl | Shr => k == 3
    case Div => k == 2
    case _ => Assigns(i, k)
  }

  // The lowest w bytes of a register.
  function LowPart(x: int, w: nat): int {
    x % Pow2(8 * w)
  }

  // An action that belongs to the code of an instruction of f.
  ghost predicate Does(f: Func, i: Instr, a: Action, c: Cpu) {
    match a
    case WriteLocal(_, _, _, _) => true
    case WriteOutgoing(_, _) => i.op.Call?
    case WriteParam(k, _, _) => Assigns(i, k) && !InRegister(f, k)
    case Invoke(g, _, _) => i.op.Call? && CallArgs(i) == |g.params|
    case SetReg(r, v) =>
      r.ArgReg? ==> Overwrites(i, r.index) || (ComputesIn(f, i, r.index) && IsResult(f, i, r.index, v, c))
  }

  // The part of the register that holds the parameter gets the result, for some right operand.
  ghost predicate IsResult(f: Func, i: Instr, k: nat, v: int, c: Cpu)
    requires k < |f.params|
  {
    var w := RegisterWidth(f.params[k]);
    exists b: int ::
      var r := Compute(i.op, Get(c.regs, ArgReg(k)), b);
      r.Some? && LowPart(v, w) == LowPart(r.value, w)
  }

  datatype Move = Move(instr: Instr, what: Action)

  // A course of the body: instructions of the function in any order, with what they do.
  ghost predicate Course(f: Func, entry: int, moves: seq<Move>, c: Cpu)
    requires WellTyped(f)
    decreases |moves|
  {
    moves != [] ==>
      var m := moves[0];
      && m.instr in f.code && !m.instr.op.Asm? && Allowed(f, m.what) && Does(f, m.instr, m.what, c)
      && Course(f, entry, moves[1..], Act(f, entry, m.what, c))
  }

  // The machine at the end of a course; a function is entered with c.
  ghost function During(f: Func, moves: seq<Move>, c: Cpu): Cpu
    requires WellTyped(f) && Course(f, c.rsp, moves, Exec(Prologue(f), c))
  {
    Moved(f, c.rsp, moves, Exec(Prologue(f), c))
  }

  ghost function Moved(f: Func, entry: int, moves: seq<Move>, c: Cpu): Cpu
    requires WellTyped(f) && Course(f, entry, moves, c)
    decreases |moves|
  {
    if moves == [] then c else Moved(f, entry, moves[1..], Act(f, entry, moves[0].what, c))
  }

  // ----- What is read of a parameter -----

  function ParamAddress(f: Func, entry: int, k: nat): int
    requires WellTyped(f)
  {
    FramePointer(f, entry) + ArgOffset(f, k)
  }

  // A parameter read as the body does has the value of the call: in its register, in the
  // word its register was stored to, or in the word the caller wrote.
  predicate ReadsEntry(f: Func, k: nat, entered: Cpu, c: Cpu)
    requires WellTyped(f) && k < |f.params|
  {
    var w, at := RegisterWidth(f.params[k]), ParamAddress(f, entered.rsp, k);
    if InRegister(f, k) then LowPart(Get(c.regs, ArgReg(k)), w) == LowPart(Get(entered.regs, ArgReg(k)), w)
    else if k < ARG_REGISTERS then HoldsBytes(c.mem, at, w, Get(entered.regs, ArgReg(k)))
    else forall x :: at <= x < at + 8 ==> Peek(c.mem, x) == Peek(entered.mem, x)
  }

  // ----- Proof -----

  lemma AddressIs(f: Func, entry: int, k: nat)
    requires WellTyped(f)
    ensures ParamAddress(f, entry, k) == entry + 8 * (k + 1)
  {
    hide NumPushes, Padding;
  }

  lemma StartReads(f: Func, k: nat, c: Cpu)
    requires WellTyped(f) && k < |f.params|
    ensures ReadsEntry(f, k, c, Exec(Prologue(f), c))
  {
    hide Exec, Prologue, NeedsRbp, StoresArgs, StackPointer, FramePointer, ArgOffset, Word, LowPart, RegisterWidth, Peek, SavedRegs;
    var d, at := Exec(Prologue(f), c), ParamAddress(f, c.rsp, k);
    PrologueDoes(f, c);
    AddressIs(f, c.rsp, k);
    if k < ARG_REGISTERS && !InRegister(f, k) {
      assert Homed(d.mem, c.rsp, c.regs, f.params, k);
    } else if !InRegister(f, k) {
      var n := if StoresArgs(f) then RegisterArgs(f) else 0;
      forall x | at <= x < at + 8
        ensures Peek(d.mem, x) == Peek(c.mem, x)
      {
        assert n <= k && !InWords(x, c.rsp, n, |SavedRegs(f)|);
      }
    }
  }

  // Inside a body everything from the saved registers upwards stays as it is, but for the
  // word of an assigned parameter.
  lemma ActAbove(f: Func, entry: int, a: Action, c: Cpu, x: int)
    requires WellTyped(f) && Allowed(f, a) && c.rsp == StackPointer(f, entry) && entry + 8 <= x
    requires a.WriteParam? ==> !(entry + 8 * (a.i + 1) <= x < entry + 8 * (a.i + 2))
    ensures Peek(Act(f, entry, a, c).mem, x) == Peek(c.mem, x)
  {
    hide NumPushes, Padding, StackPointer, FramePointer, LocalOffsets, ArgOffset, Write, Peek;
    WritesInside(f, entry, a);
    if a.WriteParam? {
      AddressIs(f, entry, a.i);
    } else if a.Invoke? {
      var g := a.callee;
      CallKeeps(g, a.body, Cpu(c.rsp - 8, c.regs, Write(c.mem, c.rsp - 8, 8, a.returnTo)));
      CalleeInside(f, entry, g, x);
    }
  }

  // What the instructions of the function leave alone.
  predicate Unassigned(f: Func, k: nat) {
    forall i :: i in f.code ==> !Assigns(i, k)
  }

  predicate ComputedIn(f: Func, k: nat) {
    exists i :: i in f.code && ComputesIn(f, i, k)
  }

  lemma OverwritingStores(f: Func, i: Instr, k: nat)
    requires i in f.code && k < |f.params| && Overwrites(i, k) && !Assigns(i, k)
    ensures StoresArgs(f)
  {
    assert ClobbersArgs(i, |f.params|);
  }

  lemma ActReads(f: Func, k: nat, entered: Cpu, m: Move, c: Cpu)
    requires WellTyped(f) && k < |f.params| && Unassigned(f, k) && !ComputedIn(f, k)
    requires m.instr in f.code && Allowed(f, m.what) && Does(f, m.instr, m.what, c)
    requires c.rsp == StackPointer(f, entered.rsp) && ReadsEntry(f, k, entered, c)
    ensures ReadsEntry(f, k, entered, Act(f, entered.rsp, m.what, c))
  {
    hide StackPointer, FramePointer, ArgOffset, Act, LowPart, RegisterWidth, Peek, StoresArgs, IsResult, Overwrites, ComputesIn;
    var a, d := m.what, Act(f, entered.rsp, m.what, c);
    AddressIs(f, entered.rsp, k);
    if InRegister(f, k) {
      RegisterKept(f, k, entered.rsp, m, c);
    } else {
      forall x | ParamAddress(f, entered.rsp, k) <= x < ParamAddress(f, entered.rsp, k) + 8
        ensures Peek(d.mem, x) == Peek(c.mem, x)
      {
        ActAbove(f, entered.rsp, a, c, x);
      }
      assert RegisterWidth(f.params[k]) <= 8;
    }
  }

  lemma RegisterKept(f: Func, k: nat, entry: int, m: Move, c: Cpu)
    requires WellTyped(f) && k < |f.params| && Unassigned(f, k) && !ComputedIn(f, k) && InRegister(f, k)
    requires m.instr in f.code && Allowed(f, m.what) && Does(f, m.instr, m.what, c)
    ensures Get(Act(f, entry, m.what, c).regs, ArgReg(k)) == Get(c.regs, ArgReg(k))
  {
    hide FramePointer, ArgOffset, Write, IsResult, Overwrites, ComputesIn, StoresArgs;
    if m.what.Invoke? {
      CallOverwrites(m.instr, k);
      OverwritingStores(f, m.instr, k);
    } else if m.what.SetReg? && m.what.reg == ArgReg(k) {
      if Overwrites(m.instr, k) {
        OverwritingStores(f, m.instr, k);
      }
    }
  }

  lemma CallOverwrites(i: Instr, k: nat)
    requires i.op.Call?
    ensures Overwrites(i, k)
  {
  }

  lemma {:induction false} MovesRead(f: Func, k: nat, entered: Cpu, moves: seq<Move>, start: Cpu, c: Cpu)
    requires WellTyped(f) && k < |f.params| && Unassigned(f, k) && !ComputedIn(f, k)
    requires Course(f, entered.rsp, moves, c) && Keeps(f, entered.rsp, start, c) && ReadsEntry(f, k, entered, c)
    ensures ReadsEntry(f, k, entered, Moved(f, entered.rsp, moves, c))
    decreases |moves|
  {
    hide ReadsEntry, Act, Does, StackPointer, KeepsRegs, KeepsAbove, Allowed, Unassigned, ComputedIn;
    if moves != [] {
      var m := moves[0];
      ActKeeps(f, entered.rsp, m.what, start, c);
      ActReads(f, k, entered, m, c);
      MovesRead(f, k, entered, moves[1..], start, Act(f, entered.rsp, m.what, c));
    }
  }

  ghost predicate AlwaysKept(f: Func, k: nat)
    requires WellTyped(f) && k < |f.params|
  {
    forall c: Cpu, moves: seq<Move> :: Course(f, c.rsp, moves, Exec(Prologue(f), c)) ==> ReadsEntry(f, k, c, During(f, moves, c))
  }

  /**
   * A parameter that is not assigned has the value of the call at every moment of every
   * course of the body exactly when nothing is computed in its register: when it is not
   * the left operand of an arithmetic instruction while it is in a part of a register.
   */
  lemma ParamKeptExact(f: Func, k: nat)
    requires WellTyped(f) && k < |f.params| && Unassigned(f, k)
    ensures AlwaysKept(f, k) <==> !ComputedIn(f, k)
  {
    hide Exec, Prologue, Course, ReadsEntry, Moved, ComputesIn, Unassigned;
    if ComputedIn(f, k) {
      var i :| i in f.code && ComputesIn(f, i, k);
      var c, m := LostIn(f, i, k);
      assert Course(f, c.rsp, [m], Exec(Prologue(f), c));
    } else {
      forall c: Cpu, moves: seq<Move> | Course(f, c.rsp, moves, Exec(Prologue(f), c))
        ensures ReadsEntry(f, k, c, During(f, moves, c))
      {
        var start := Exec(Prologue(f), c);
        StartReads(f, k, c);
        StartKeeps(f, c);
        MovesRead(f, k, c, moves, start, start);
      }
    }
  }

  lemma StartKeeps(f: Func, c: Cpu)
    requires WellTyped(f)
    ensures Keeps(f, c.rsp, Exec(Prologue(f), c), Exec(Prologue(f), c))
  {
    hide Exec, Prologue, NeedsRbp, StackPointer, NumPushes, Peek;
    PrologueDoes(f, c);
  }

  // Left operand, right operand and result of an operation that changes its left operand.
  function Changing(op: Op): (int, int, int) {
    match op
    case Add | Or => (0, 1, 1)
    case _ => (1, if op.Sub? then 1 else 0, 0)
  }

  lemma {:induction false} ZeroBits(conj: bool, n: nat)
    ensures Bitwise(conj, 0, 0, n) == 0
    decreases n
  {
    if n > 0 {
      ZeroBits(conj, n - 1);
    }
  }

  lemma OneBit(n: nat)
    requires n > 0
    ensures Bitwise(true, 1, 0, n) == 0 && Bitwise(false, 0, 1, n) == 1
  {
    ZeroBits(true, n - 1);
    ZeroBits(false, n - 1);
  }

  lemma ChangingComputes(op: Op)
    requires op.Add? || op.Sub? || op.Mul? || op.And? || op.Or?
    ensures var (x, b, y) := Changing(op); Compute(op, x, b) == Some(y)
  {
    hide Bitwise, Pow2, Quotient, Wrap;
    OneBit(64);
  }

  lemma PartsDiffer(w: nat)
    requires w > 0
    ensures LowPart(0, w) == 0 && LowPart(1, w) == 1
  {
    var p := Pow2(8 * w);
    assert p >= 2 by {
      assert p == 2 * Pow2(8 * w - 1);
    }
    RemainderOfOne(p);
  }

  lemma RemainderOfOne(p: int)
    requires p >= 2
    ensures 0 % p == 0 && 1 % p == 1
  {
  }

  lemma LostIn(f: Func, i: Instr, k: nat) returns (c: Cpu, m: Move)
    requires WellTyped(f) && k < |f.params| && i in f.code && ComputesIn(f, i, k)
    ensures Course(f, c.rsp, [m], Exec(Prologue(f), c)) && !ReadsEntry(f, k, c, During(f, [m], c))
  {
    hide Exec, Prologue, NeedsRbp, StoresArgs, StackPointer, FramePointer, ArgOffset, NumPushes, LowPart, RegisterWidth, Compute;
    var (x, b, y) := Changing(i.op);
    c := Cpu(0, map[ArgReg(k) := x], map[]);
    m := Move(i, SetReg(ArgReg(k), y));
    PrologueDoes(f, c);
    ChangingComputes(i.op);
    PartsDiffer(RegisterWidth(f.params[k]));
    var start := Exec(Prologue(f), c);
    assert Get(start.regs, ArgReg(k)) == x;
    assert IsResult(f, i, k, y, start) by {
      assert Compute(i.op, Get(start.regs, ArgReg(k)), b) == Some(y);
    }
    assert [m][1..] == [];
    assert Course(f, c.rsp, [], Act(f, c.rsp, m.what, start));
    assert Moved(f, c.rsp, [], Act(f, c.rsp, m.what, start)) == Act(f, c.rsp, m.what, start);
    assert During(f, [m], c) == Act(f, c.rsp, m.what, start);
  }

  /** Parameters are stored only in a function with an instruction that overwrites an argument register. */
  lemma StoredForReason(f: Func)
    requires StoresArgs(f)
    ensures exists i, k :: i in f.code && 0 <= k < ARG_REGISTERS && Overwrites(i, k)
  {
    hide Overwrites;
    var n :| 0 <= n < |f.code| && ClobbersArgs(f.code[n], |f.params|);
    ClobbersOne(f.code[n], |f.params|);
    assert f.code[n] in f.code;
  }

  lemma ClobbersOne(i: Instr, args: nat)
    requires ClobbersArgs(i, args)
    ensures Overwrites(i, 2) || Overwrites(i, 3)
  {
  }
}
