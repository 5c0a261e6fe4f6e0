// Allocated frames.

module FrameAlloc {
  // The frame of a function whose values have been given their destinations.

  import opened Ir
  import A = Ast
  import opened LowerExpr
  import opened LowerStmt
  import opened Destinations
  import opened SpillSlots
  import opened Overspill
  import opened Alignment
  import opened Frame
  import opened FrameCode
  import opened CallChain

  // The first n temporary registers that were handed out, in increasing order.
  function TempsOf(given: set<int>, n: nat): (temps: seq<nat>)
    ensures forall k :: k in temps <==> 0 <= k < n && k in given
  {
    if n == 0 then [] else TempsOf(given, n - 1) + (if n - 1 in given then [n - 1] else [])
  }

  // ----- The arguments of a call -----

  function Count(es: A.Exprs): nat {
    match es
    case NoExprs => 0
    case MoreExprs(_, rest) => 1 + Count(rest)
  }

  /** What the frame counts for a lowered call are the arguments of the call, computed or not. */
  lemma {:induction false} CallArgsExact(f: Label, ty: TypeId, args: A.Exprs)
    ensures CallArgs(Instr(Call, ty, [LabelOp(f)] + ArgOperands(args))) == Count(args)
    decreases args
  {
    if args.MoreExprs? {
      CallArgsExact(f, ty, args.tail);
    }
  }

  // ----- The registers -----

  datatype Hardware =
    | Rax | Rbx | Rcx | Rdx | Rdi | Rsi | BasePointer | Rsp | R8 | R9 | R10 | R11 | R12 | R13 | R14 | R15

  function HardwareOf(r: Reg): Option<Hardware> {
    match r
    case Rbp => Some(BasePointer)
    case Temp(k) =>
      (match k
       case 0 => Some(Rbx)
       case 1 => Some(R12)
       case 2 => Some(R13)
       case 3 => Some(R14)
       case 4 => Some(R15)
       case _ => None)
    case ArgReg(k) =>
      (match k
       case 0 => Some(Rdi)
       case 1 => Some(Rsi)
       case 2 => Some(Rdx)
       case 3 => Some(Rcx)
       case 4 => Some(R8)
       case 5 => Some(R9)
       case _ => None)
  }

  // Section 3.2.1 of the System V AMD64 ABI: the registers that belong to the caller.
  const CALLER_OWNED: set<Hardware> := {Rbx, BasePointer, Rsp, R12, R13, R14, R15}

  /**
   * The temporary registers, rbp and rsp, which a call leaves as they were by
   * CallChain.CallKeeps, are exactly the registers that a call must leave so.
   */
  lemma RegistersAbi(h: Hardware)
    ensures h in CALLER_OWNED <==>
              h == Rsp || HardwareOf(Rbp) == Some(h) || exists k :: 0 <= k < REGISTERS && HardwareOf(Temp(k)) == Some(h)
  {
    if h == Rbx {
      assert HardwareOf(Temp(0)) == Some(h);
    } else if h == R12 {
      assert HardwareOf(Temp(1)) == Some(h);
    } else if h == R13 {
      assert HardwareOf(Temp(2)) == Some(h);
    } else if h == R14 {
      assert HardwareOf(Temp(3)) == Some(h);
    } else if h == R15 {
      assert HardwareOf(Temp(4)) == Some(h);
    }
  }

  // Section 3.2.3: the registers of the first integer arguments.
  const ARGUMENTS: seq<Hardware> := [Rdi, Rsi, Rdx, Rcx, R8, R9]

  /** Arguments arrive in the registers of the convention, none of which the caller owns. */
  lemma ArgumentsAbi()
    ensures ARG_REGISTERS == |ARGUMENTS|
    ensures forall k :: 0 <= k < ARG_REGISTERS ==> HardwareOf(ArgReg(k)) == Some(ARGUMENTS[k]) && ARGUMENTS[k] !in CALLER_OWNED
  {
    forall k: nat | k < ARG_REGISTERS
      ensures HardwareOf(ArgReg(k)) == Some(ARGUMENTS[k])
    {
    }
  }

  /** No register has two uses. */
  lemma OneUse(r: Reg, q: Reg)
    requires HardwareOf(r).Some? && HardwareOf(r) == HardwareOf(q)
    ensures r == q
  {
  }

  // What the allocator leaves for the frame: the locals with those it added, and the
  // registers it handed out.
  function Allocated(c: seq<Instr>, own: seq<TypeId>, params: seq<nat>, callsExternC: bool, typed: TypeId -> LocalVar): (f: Func)
    ensures |f.locals| == |LocalsOf(c, own)|
    ensures forall k :: 0 <= k < |f.locals| ==> f.locals[k] == typed(LocalsOf(c, own)[k])
    ensures f.params == params && f.code == c && f.callsExternC == callsExternC
  {
    var locals := LocalsOf(c, own);
    Func(params, seq(|locals|, k requires 0 <= k < |locals| => typed(locals[k])),
         TempsOf(HandedOut(c, own, |c|), REGISTERS), c, callsExternC)
  }

  ghost predicate Aligning(typed: TypeId -> LocalVar) {
    forall t :: typed(t).alignment > 0
  }

  lemma {:induction false} GivenTemps(c: seq<Instr>, own: seq<TypeId>, n: nat, k: int)
    requires n <= |c|
    ensures k in HandedOut(c, own, n) <==> exists i :: 0 <= i < n && DestOf(c, own, i) == TempReg(k)
    decreases n
  {
    hide DestOf;
    if n > 0 {
      GivenTemps(c, own, n - 1, k);
    }
  }

  /** The frame saves exactly the registers that are the destination of some instruction. */
  lemma SavedExact(c: seq<Instr>, own: seq<TypeId>, params: seq<nat>, callsExternC: bool, typed: TypeId -> LocalVar, k: nat)
    ensures k in Allocated(c, own, params, callsExternC, typed).temps
       <==> exists i :: 0 <= i < |c| && DestOf(c, own, i) == TempReg(k)
  {
    hide HandedOut, Before;
    GivenTemps(c, own, |c|, k);
  }

  // How many bytes of a local the code writes for a result: for an element or a
  // dereferenced value its address, for a duplicate nothing.
  function Width(i: Instr, typed: TypeId -> LocalVar): nat {
    match i.op
    case Deref | Index => 8
    case StackDup => 0
    case _ => typed(i.resultType).size
  }

  // The write of the result of instruction i to its destination.
  function StoreOf(c: seq<Instr>, own: seq<TypeId>, typed: TypeId -> LocalVar, i: nat, v: int): Option<Action>
    requires i < |c|
  {
    match DestOf(c, own, i)
    case TempReg(k) => if k >= 0 then Some(SetReg(Temp(k), v)) else None
    case Spill(k) => if k >= 0 then Some(WriteLocal(k, 0, Width(c[i], typed), v)) else None
    case ResultReg => None
  }

  // The write of every result stays within what the frame provides.
  ghost predicate StoresAllowed(c: seq<Instr>, own: seq<TypeId>, f: Func, typed: TypeId -> LocalVar, v: int) {
    forall i: nat :: i < |c| && StoreOf(c, own, typed, i, v).Some? ==> Allowed(f, StoreOf(c, own, typed, i, v).value)
  }

  lemma TempAllowed(c: seq<Instr>, own: seq<TypeId>, params: seq<nat>, callsExternC: bool, typed: TypeId -> LocalVar, i: nat, v: int)
    requires i < |c| && DestOf(c, own, i).TempReg?
    ensures var k := DestOf(c, own, i).index;
            k >= 0 && k in Allocated(c, own, params, callsExternC, typed).temps && StoreOf(c, own, typed, i, v) == Some(SetReg(Temp(k), v))
  {
    hide HandedOut, Before, Allocated;
    SavedExact(c, own, params, callsExternC, typed, DestOf(c, own, i).index);
  }

  lemma SpillAllowed(c: seq<Instr>, own: seq<TypeId>, params: seq<nat>, callsExternC: bool, typed: TypeId -> LocalVar, i: nat, k: int, v: int)
    requires NeverUnderflows(c) && SpillsTo(c, own, i, k)
    ensures 0 <= k < |LocalsOf(c, own)| && StoreOf(c, own, typed, i, v).Some?
    ensures Allowed(Allocated(c, own, params, callsExternC, typed), StoreOf(c, own, typed, i, v).value)
       <==> Width(c[i], typed) <= typed(LocalsOf(c, own)[k]).size
  {
    hide DestOf, NeverUnderflows, LocalsOf, FirstSpill;
    var m := SlotType(c, own, i, k);
  }

  /** An address fits where a word does, a duplicate writes nothing, and any other result needs the room of its type. */
  lemma WritesFit(c: seq<Instr>, own: seq<TypeId>, params: seq<nat>, callsExternC: bool, typed: TypeId -> LocalVar, i: nat, k: int, v: int)
    requires NeverUnderflows(c) && SpillsTo(c, own, i, k)
    ensures 0 <= k < |LocalsOf(c, own)| && StoreOf(c, own, typed, i, v).Some?
    ensures var room := typed(LocalsOf(c, own)[k]).size;
            Allowed(Allocated(c, own, params, callsExternC, typed), StoreOf(c, own, typed, i, v).value)
            <==> (c[i].op.StackDup? || (if c[i].op.Deref? || c[i].op.Index? then 8 else typed(c[i].resultType).size) <= room)
  {
    hide DestOf, NeverUnderflows, LocalsOf, Allowed, Allocated, StoreOf;
    SpillAllowed(c, own, params, callsExternC, typed, i, k, v);
  }

  /**
   * The results of all instructions may be written to their destinations, in the sense
   * in which CallChain.CallKeeps allows writes, exactly when everything written to a
   * spill local fits into the type of the first value spilled there.
   */
  lemma StoresExact(c: seq<Instr>, own: seq<TypeId>, params: seq<nat>, callsExternC: bool, typed: TypeId -> LocalVar, v: int)
    requires NeverUnderflows(c)
    ensures StoresAllowed(c, own, Allocated(c, own, params, callsExternC, typed), typed, v)
       <==> FirstWidest(c, own, i => Width(i, typed), t => typed(t).size)
  {
    hide NeverUnderflows, DestOf, LocalsOf, FirstWidest, Allowed, Allocated, Width;
    var f := Allocated(c, own, params, callsExternC, typed);
    SpillWidthsExact(c, own, i => Width(i, typed), t => typed(t).size);
    if WidthsFit(c, own, i => Width(i, typed), t => typed(t).size) {
      forall i: nat | i < |c| && StoreOf(c, own, typed, i, v).Some?
        ensures Allowed(f, StoreOf(c, own, typed, i, v).value)
      {
        match DestOf(c, own, i)
        case TempReg(k) =>
          TempAllowed(c, own, params, callsExternC, typed, i, v);
          TempStores(f, k, v);
        case Spill(k) =>
          assert SpillsTo(c, own, i, k);
          SpillAllowed(c, own, params, callsExternC, typed, i, k, v);
        case ResultReg =>
      }
    } else {
      var i: nat, k: int :| SpillsTo(c, own, i, k) && !(0 <= k < |LocalsOf(c, own)| && Width(c[i], typed) <= typed(LocalsOf(c, own)[k]).size);
      SpillAllowed(c, own, params, callsExternC, typed, i, k, v);
    }
  }

  lemma TempStores(f: Func, k: nat, v: int)
    requires k in f.temps
    ensures Allowed(f, SetReg(Temp(k), v))
  {
  }

  /**
   * Every register given to an instruction is at the return as it was on entry, however
   * the body has used the machine, as long as it kept rsp and the saved words.
   */
  lemma DestRestored(c: seq<Instr>, own: seq<TypeId>, params: seq<nat>, callsExternC: bool, typed: TypeId -> LocalVar, i: nat, cpu: Cpu, body: Cpu)
    requires i < |c| && DestOf(c, own, i).TempReg? && Aligning(typed)
    requires var f := Allocated(c, own, params, callsExternC, typed);
             && WellTyped(f) && body.rsp == Exec(Prologue(f), cpu).rsp
             && KeepsSaved(Exec(Prologue(f), cpu).mem, body.mem, cpu.rsp, NumPushes(f))
    ensures var f, k := Allocated(c, own, params, callsExternC, typed), DestOf(c, own, i).index;
            k >= 0 && Get(Exec(Epilogue(f), body).regs, Temp(k)) == Get(cpu.regs, Temp(k))
  {
    hide Exec, Prologue, Epilogue, NumPushes, KeepsSaved, DestOf, Allocated;
    TempAllowed(c, own, params, callsExternC, typed, i, 0);
    EpilogueRestores(Allocated(c, own, params, callsExternC, typed), cpu, body);
  }

  // ----- A spilled value that is too large -----

  // The bytes of n bytes written to local k are apart from those of every other local
  // and from everything above the locals.
  predicate StaysApart(ls: seq<LocalVar>, k: nat, n: nat)
    requires k < |ls| && forall l :: l in ls ==> l.alignment > 0
  {
    var offsets := LocalOffsets(ls);
    && offsets[k] + n <= 0
    && forall i :: 0 <= i < |ls| && i != k ==> Apart(offsets[k], offsets[k] + n, offsets[i], offsets[i] + ls[i].size)
  }

  /**
   * n bytes written to a local touch no other local and nothing above the locals exactly
   * when they end before the local in front of it.
   */
  lemma OverrunExact(ls: seq<LocalVar>, k: nat, n: nat)
    requires k < |ls| && forall l :: l in ls ==> l.alignment > 0 && l.size > 0
    ensures StaysApart(ls, k, n) <==> LocalOffsets(ls)[k] + n <= if k == 0 then 0 else LocalOffsets(ls)[k - 1]
  {
    hide LocalOffsets, LocalArea, LocalsAligned;
    LocalsApart(ls);
    var offsets := LocalOffsets(ls);
    if k > 0 && StaysApart(ls, k, n) {
      assert Apart(offsets[k], offsets[k] + n, offsets[k - 1], offsets[k - 1] + ls[k - 1].size);
    }
  }

  /**
   * In the function of Overspill.SpillsTwice, with a test of one byte and a call of a larger
   * result: the result, written to the local of the test, runs over the value in the local
   * in front of it. Both are pending.
   */
  lemma PendingOverrun(t: TypeId, u: ValueType, own: seq<TypeId>, params: seq<nat>, callsExternC: bool, typed: TypeId -> LocalVar)
    requires Aligning(typed) && typed(Int32Type).size > 0
    requires typed(t) == LocalVar(1, 1) && typed(u).size > 1
    ensures var c, n := FuncCode(SpillBody(t, u)), |own|;
            var f := Allocated(c, own, params, callsExternC, typed);
            && WellTyped(f) && n + 1 < |f.locals| && 9 <= |c|
            && 5 in Pending(c, 9) && 8 in Pending(c, 9)
            && DestOf(c, own, 5) == Spill(n) && DestOf(c, own, 8) == Spill(n + 1)
            && var offsets := LocalOffsets(f.locals);
               !Apart(offsets[n], offsets[n] + Width(c[5], typed), offsets[n + 1], offsets[n + 1] + Width(c[8], typed))
  {
    hide FuncCode, SpillBody, DestOf, Pending, LocalsOf, LocalOffsets, Apart, NeverUnderflows, SupportedFunc, TypesKept, Allocated;
    var c, n := FuncCode(SpillBody(t, u)), |own|;
    SpillsTwice(t, u, own);
    OneByteOverrun(Allocated(c, own, params, callsExternC, typed).locals, n, typed(u).size);
  }

  lemma OneByteOverrun(ls: seq<LocalVar>, k: nat, n: nat)
    requires forall l :: l in ls ==> l.alignment > 0
    requires k + 1 < |ls| && ls[k].size > 0 && ls[k + 1] == LocalVar(1, 1) && n > 1
    ensures var offsets := LocalOffsets(ls);
            !Apart(offsets[k], offsets[k] + ls[k].size, offsets[k + 1], offsets[k + 1] + n)
  {
    hide Align, LocalsEnd;
    OneMoreLocal(ls, k + 1);
    AlignOne(LocalsEnd(ls, k + 1) + 1);
  }

  lemma AlignOne(x: nat)
    ensures Align(x, 1) == x
  {
  }
}
