// The code that enters and leaves a function, run on a small x64 machine.

module FrameCode {
  import opened Ir
  import opened Frame
  import opened Alignment

  datatype Reg = Rbp | Temp(index: nat) | ArgReg(index: nat)

  datatype X64 =
    | MovStore(offset: int, width: nat, src: Reg)   // to [rsp + offset]
    | PushReg(reg: Reg)
    | PopReg(reg: Reg)
    | SubRsp(bytes: nat)
    | AddRsp(bytes: nat)
    | MovRbpRsp

  // Memory is made of bytes; a byte is one of those of some stored value.
  datatype Byte = Byte(of: int, index: nat)

  type Memory = map<int, Byte>

  datatype Cpu = Cpu(rsp: int, regs: map<Reg, int>, mem: Memory)

  function Get<K>(m: map<K, int>, k: K): int {
    if k in m then m[k] else 0
  }

  function Peek(m: Memory, x: int): Option<Byte> {
    if x in m then Some(m[x]) else None
  }

  // The first n bytes of a value, stored at an address.
  function Write(m: Memory, at: int, n: nat, value: int): (w: Memory)
    ensures forall x :: Peek(w, x) == if at <= x < at + n then Some(Byte(value, x - at)) else Peek(m, x)
  {
    if n == 0 then m
    else
      var most := Write(m, at, n - 1, value);
      var all := most[at + (n - 1) := Byte(value, n - 1)];
      assert forall x :: Peek(all, x) == if x == at + (n - 1) then Some(Byte(value, n - 1)) else Peek(most, x);
      all
  }

  // The first n bytes of a value lie at an address.
  predicate HoldsBytes(m: Memory, at: int, n: nat, value: int) {
    forall x :: at <= x < at + n ==> Peek(m, x) == Some(Byte(value, x - at))
  }

  predicate HoldsWord(m: Memory, at: int, value: int) {
    HoldsBytes(m, at, 8, value)
  }

  // The word of eight bytes at an address; 0 stands for bytes that do not belong together.
  function Word(m: Memory, at: int): int {
    if at in m && HoldsWord(m, at, m[at].of) then m[at].of else 0
  }

  lemma WordIs(m: Memory, at: int, value: int)
    requires HoldsWord(m, at, value)
    ensures Word(m, at) == value
  {
    assert Peek(m, at) == Some(Byte(value, 0));
  }

  lemma WordKept(before: Memory, after: Memory, at: int)
    requires forall x :: at <= x < at + 8 ==> Peek(after, x) == Peek(before, x)
    ensures Word(after, at) == Word(before, at)
  {
    assert Peek(after, at) == Peek(before, at);
    if at in before {
      assert HoldsWord(before, at, before[at].of) <==> HoldsWord(after, at, before[at].of);
    }
  }

  lemma Written(m: Memory, at: int, n: nat, value: int)
    ensures forall x :: !(at <= x < at + n) ==> Peek(Write(m, at, n, value), x) == Peek(m, x)
    ensures HoldsBytes(Write(m, at, n, value), at, n, value)
    ensures n == 8 ==> Word(Write(m, at, n, value), at) == value
  {
    if n == 8 {
      assert HoldsWord(Write(m, at, 8, value), at, value);
      WordIs(Write(m, at, 8, value), at, value);
    }
  }

  function Step(i: X64, c: Cpu): Cpu {
    match i
    case MovStore(offset, n, r) => c.(mem := Write(c.mem, c.rsp + offset, n, Get(c.regs, r)))
    case PushReg(r) => c.(rsp := c.rsp - 8, mem := Write(c.mem, c.rsp - 8, 8, Get(c.regs, r)))
    case PopReg(r) => c.(rsp := c.rsp + 8, regs := c.regs[r := Word(c.mem, c.rsp)])
    case SubRsp(n) => c.(rsp := c.rsp - n)
    case AddRsp(n) => c.(rsp := c.rsp + n)
    case MovRbpRsp => c.(regs := c.regs[Rbp := c.rsp])
  }

  function Exec(code: seq<X64>, c: Cpu): Cpu {
    if code == [] then c else Exec(code[1..], Step(code[0], c))
  }

  lemma {:induction false} ExecJoin(a: seq<X64>, b: seq<X64>, c: Cpu)
    ensures Exec(a + b, c) == Exec(b, Exec(a, c))
    decreases |a|
  {
    if a == [] {
      assert a + b == b;
    } else {
      assert (a + b)[1..] == a[1..] + b;
      ExecJoin(a[1..], b, Step(a[0], c));
    }
  }

  // ----- The emitted code -----

  function SavedRegs(f: Func): seq<Reg>
    requires WellTyped(f)
  {
    (if NeedsRbp(f) then [Rbp] else []) + seq(|f.temps|, i requires 0 <= i < |f.temps| => Temp(f.temps[i]))
  }

  function RegisterArgs(f: Func): nat {
    Min(ARG_REGISTERS, |f.params|)
  }

  // Register arguments are stored into the caller's frame, the last first.
  function HomeStores(params: seq<nat>, n: nat): seq<X64>
    requires n <= |params|
  {
    if n == 0 then [] else [HomeStore(params, n)] + HomeStores(params, n - 1)
  }

  // How much of a register a value of some size takes: the whole, if no part has that size.
  function RegisterWidth(size: nat): (w: nat)
    ensures 0 < w <= 8 && (size <= 8 ==> size <= w)
    ensures size == 1 || size == 2 || size == 4 || size == 8 ==> w == size
  {
    if size == 1 || size == 2 || size == 4 then size else 8
  }

  // Parameter number n - 1, from its register.
  function HomeStore(params: seq<nat>, n: nat): X64
    requires 0 < n <= |params|
  {
    MovStore(8 * n, RegisterWidth(params[n - 1]), ArgReg(n - 1))
  }

  function Pushes(regs: seq<Reg>): seq<X64> {
    seq(|regs|, i requires 0 <= i < |regs| => PushReg(regs[i]))
  }

  function Pops(regs: seq<Reg>): seq<X64> {
    seq(|regs|, i requires 0 <= i < |regs| => PopReg(regs[|regs| - 1 - i]))
  }

  predicate StoresArgs(f: Func) {
    |f.params| > 0 && exists i :: 0 <= i < |f.code| && ClobbersArgs(f.code[i], |f.params|)
  }

  function Prologue(f: Func): seq<X64>
    requires WellTyped(f)
  {
    (if StoresArgs(f) then HomeStores(f.params, RegisterArgs(f)) else [])
    + (Pushes(SavedRegs(f)) + Establish(f))
  }

  function Establish(f: Func): seq<X64>
    requires WellTyped(f)
  {
    (if Padding(f) > 0 then [SubRsp(8)] else [])
    + (if NeedsRbp(f) then [MovRbpRsp] else [])
    + (if StackSize(f) > 0 then [SubRsp(StackSize(f))] else [])
  }

  function Epilogue(f: Func): seq<X64>
    requires WellTyped(f)
  {
    var size := StackSize(f) + Padding(f);
    (if size > 0 then [AddRsp(size)] else []) + Pops(SavedRegs(f))
  }

  // Where parameter i lies relative to the frame pointer.
  function ArgOffset(f: Func, i: nat): int
    requires WellTyped(f)
  {
    8 * (i + 1) + 8 * NumPushes(f) + Padding(f)
  }

  method EmitHomeStores(params: seq<nat>, n: nat) returns (out: seq<X64>)
    requires n <= |params|
    ensures out == HomeStores(params, n)
  {
    out := [];
    var i := n;
    while i > 0
      invariant 0 <= i <= n
      invariant out + HomeStores(params, i) == HomeStores(params, n)
    {
      out := out + [MovStore(8 * i, RegisterWidth(params[i - 1]), ArgReg(i - 1))];
      i := i - 1;
    }
  }

  method EmitPushes(f: Func, needsRbp: bool) returns (out: seq<X64>)
    requires WellTyped(f) && needsRbp == NeedsRbp(f)
    ensures out == Pushes(SavedRegs(f))
  {
    hide NeedsRbp;
    out := if needsRbp then [PushReg(Rbp)] else [];
    var k := 0;
    while k < |f.temps|
      invariant 0 <= k <= |f.temps|
      invariant out == Pushes(SavedRegs(f))[..(if needsRbp then 1 else 0) + k]
    {
      out := out + [PushReg(Temp(f.temps[k]))];
      k := k + 1;
    }
  }

  method EmitPops(f: Func, needsRbp: bool) returns (out: seq<X64>)
    requires WellTyped(f) && needsRbp == NeedsRbp(f)
    ensures out == Pops(SavedRegs(f))
  {
    hide NeedsRbp;
    out := [];
    var k := |f.temps|;
    while k > 0
      invariant 0 <= k <= |f.temps|
      invariant out == Pops(SavedRegs(f))[..|f.temps| - k]
    {
      out := out + [PopReg(Temp(f.temps[k - 1]))];
      k := k - 1;
    }
    if needsRbp {
      out := out + [PopReg(Rbp)];
    }
  }

  // The parameters of the caller's frame, seen from the frame pointer about to be set.
  method AdjustArgOffsets(argOffset: array<int>, distance: int)
    modifies argOffset
    ensures forall i :: 0 <= i < argOffset.Length ==> argOffset[i] == old(argOffset[i]) + distance
  {
    var a := 0;
    while a < argOffset.Length
      invariant 0 <= a <= argOffset.Length
      invariant forall i :: 0 <= i < a ==> argOffset[i] == old(argOffset[i]) + distance
      invariant forall i :: a <= i < argOffset.Length ==> argOffset[i] == old(argOffset[i])
    {
      argOffset[a] := argOffset[a] + distance;
      a := a + 1;
    }
  }

  /** Both ends of a function, and the places of its parameters and locals. */
  method GenerateFrame(f: Func, argOffset: array<int>, localOffset: array<int>)
    returns (prologue: seq<X64>, epilogue: seq<X64>)
    requires WellTyped(f) && argOffset.Length == |f.params| && localOffset.Length == |f.locals| && argOffset != localOffset
    modifies argOffset, localOffset
    ensures prologue == Prologue(f) && epilogue == Epilogue(f)
    ensures localOffset[..] == LocalOffsets(f.locals)
    ensures forall i :: 0 <= i < |f.params| ==> argOffset[i] == ArgOffset(f, i)
  {
    hide OutArea, LocalArea, LocalOffsets, HomeStores, Pushes, Pops, SavedRegs, ClobbersArgs;
    var localSize, callArgSize, callsEverMade := GetFrameSize(f, argOffset, localOffset);
    var stackSize := localSize + callArgSize;
    var tempRegsOffset := |f.temps| * 8;
    var needsRbp := !(stackSize == 0 && |f.params| == 0);
    var numPushes := if needsRbp then |f.temps| + 1 else |f.temps|;
    if numPushes % 2 == 0 {
      tempRegsOffset := tempRegsOffset + 8;
    }
    prologue := [];
    if |f.params| != 0 {
      if callsEverMade {
        prologue := EmitHomeStores(f.params, Min(ARG_REGISTERS, |f.params|));
      }
      AdjustArgOffsets(argOffset, if needsRbp then tempRegsOffset + 8 else tempRegsOffset);
    }
    var pushes := EmitPushes(f, needsRbp);
    var establish :=
      (if numPushes % 2 == 0 then [SubRsp(8)] else [])
      + (if needsRbp then [MovRbpRsp] else [])
      + (if stackSize > 0 then [SubRsp(stackSize)] else []);
    prologue := prologue + (pushes + establish);
    if numPushes % 2 == 0 {
      stackSize := stackSize + 8;
    }
    var pops := EmitPops(f, needsRbp);
    epilogue := (if stackSize > 0 then [AddRsp(stackSize)] else []) + pops;
  }

  // ----- What it does -----

  function FramePointer(f: Func, entry: int): int
    requires WellTyped(f)
  {
    entry - 8 * NumPushes(f) - Padding(f)
  }

  function StackPointer(f: Func, entry: int): int
    requires WellTyped(f)
  {
    FramePointer(f, entry) - StackSize(f)
  }

  // The bytes of the n words above and of the m words below the word at an address.
  predicate InWords(x: int, at: int, n: nat, m: nat) {
    at - 8 * m <= x < at || at + 8 <= x < at + 8 * (n + 1)
  }

  // Memory is the same except there.
  ghost predicate SameBut(before: Memory, after: Memory, at: int, n: nat, m: nat) {
    forall x :: !InWords(x, at, n, m) ==> Peek(after, x) == Peek(before, x)
  }

  lemma {:induction false} HomeStoresDo(params: seq<nat>, n: nat, c: Cpu)
    requires n <= |params|
    ensures var d := Exec(HomeStores(params, n), c);
            && d.rsp == c.rsp && d.regs == c.regs && SameBut(c.mem, d.mem, c.rsp, n, 0)
            && forall i :: 0 <= i < n ==> Homed(d.mem, c.rsp, c.regs, params, i)
    decreases n
  {
    hide Write, Word, Peek, RegisterWidth;
    if n > 0 {
      var s := HomeStore(params, n);
      assert HomeStores(params, n)[0] == s && HomeStores(params, n)[1..] == HomeStores(params, n - 1);
      var c' := Step(s, c);
      Written(c.mem, c.rsp + 8 * n, s.width, Get(c.regs, ArgReg(n - 1)));
      HomeStoresDo(params, n - 1, c');
    }
  }

  // A register argument, as wide as its parameter, lies above the return address.
  predicate Homed(m: Memory, at: int, regs: map<Reg, int>, params: seq<nat>, i: nat)
    requires i < |params|
  {
    HoldsBytes(m, at + 8 * (i + 1), RegisterWidth(params[i]), Get(regs, ArgReg(i)))
  }

  lemma {:induction false} PushesDo(regs: seq<Reg>, c: Cpu)
    ensures var d := Exec(Pushes(regs), c);
            && d.rsp == c.rsp - 8 * |regs| && d.regs == c.regs && SameBut(c.mem, d.mem, c.rsp, 0, |regs|)
            && forall i :: 0 <= i < |regs| ==> Word(d.mem, c.rsp - 8 * (i + 1)) == Get(c.regs, regs[i])
    decreases |regs|
  {
    hide Write, Word, Peek;
    if regs != [] {
      var rest := regs[..|regs| - 1];
      var last := PushReg(regs[|regs| - 1]);
      assert Pushes(regs) == Pushes(rest) + [last];
      PushesDo(rest, c);
      ExecJoin(Pushes(rest), [last], c);
      var m := Exec(Pushes(rest), c);
      OneOrNone([last], m);
      Written(m.mem, m.rsp - 8, 8, Get(m.regs, last.reg));
      forall i | 0 <= i < |rest|
        ensures Word(Step(last, m).mem, c.rsp - 8 * (i + 1)) == Get(c.regs, regs[i])
      {
        assert Word(m.mem, c.rsp - 8 * (i + 1)) == Get(c.regs, rest[i]);
        WordKept(m.mem, Step(last, m).mem, c.rsp - 8 * (i + 1));
      }
    }
  }

  // Words pushed and kept are popped into the registers they came from.
  lemma {:induction false} PopsDo(regs: seq<Reg>, origin: map<Reg, int>, top: int, e: Cpu)
    requires e.rsp == top - 8 * |regs|
    requires forall i :: 0 <= i < |regs| ==> Word(e.mem, top - 8 * (i + 1)) == Get(origin, regs[i])
    ensures var d := Exec(Pops(regs), e);
            && d.rsp == top && d.mem == e.mem
            && forall r :: Get(d.regs, r) == if r in regs then Get(origin, r) else Get(e.regs, r)
    decreases |regs|
  {
    hide Word;
    if regs != [] {
      var n := |regs| - 1;
      var rest := regs[..n];
      var first := PopReg(regs[n]);
      assert Pops(regs) == [first] + Pops(rest);
      assert Pops(regs)[1..] == Pops(rest);
      assert Word(e.mem, top - 8 * (n + 1)) == Get(origin, regs[n]);
      PopsDo(rest, origin, top, Step(first, e));
      assert forall r :: r in regs <==> r in rest || r == regs[n];
    }
  }

  lemma EstablishDoes(f: Func, c: Cpu)
    requires WellTyped(f)
    ensures var d := Exec(Establish(f), c);
            && d.mem == c.mem && d.rsp == c.rsp - Padding(f) - StackSize(f)
            && d.regs == if NeedsRbp(f) then c.regs[Rbp := c.rsp - Padding(f)] else c.regs
  {
    hide Padding, StackSize, NeedsRbp;
    var pad := if Padding(f) > 0 then [SubRsp(8)] else [];
    var rbp := if NeedsRbp(f) then [MovRbpRsp] else [];
    var sub := if StackSize(f) > 0 then [SubRsp(StackSize(f))] else [];
    PaddingSize(f);
    ExecJoin(pad + rbp, sub, c);
    ExecJoin(pad, rbp, c);
    OneOrNone(pad, c);
    OneOrNone(rbp, Exec(pad, c));
    OneOrNone(sub, Exec(pad + rbp, c));
  }

  lemma PaddingSize(f: Func)
    requires WellTyped(f)
    ensures Padding(f) > 0 ==> Padding(f) == 8
  {
  }

  lemma OneOrNone(code: seq<X64>, c: Cpu)
    requires |code| <= 1
    ensures Exec(code, c) == if code == [] then c else Step(code[0], c)
  {
  }

  /**
   * On entry the saved registers go right below the return address and the register
   * arguments right above it; rsp and rbp end up at the bottom and the top of the new
   * frame. Outside the words of these registers no byte of memory changes, and no register
   * but rbp does.
   */
  lemma PrologueDoes(f: Func, c: Cpu)
    requires WellTyped(f)
    ensures var d, saved := Exec(Prologue(f), c), SavedRegs(f);
            && d.rsp == StackPointer(f, c.rsp)
            && d.regs == (if NeedsRbp(f) then c.regs[Rbp := FramePointer(f, c.rsp)] else c.regs)
            && (forall i :: 0 <= i < |saved| ==> Word(d.mem, c.rsp - 8 * (i + 1)) == Get(c.regs, saved[i]))
            && (StoresArgs(f) ==> forall i :: 0 <= i < RegisterArgs(f) ==>
                  Homed(d.mem, c.rsp, c.regs, f.params, i))
            && SameBut(c.mem, d.mem, c.rsp, if StoresArgs(f) then RegisterArgs(f) else 0, |saved|)
  {
    hide Exec, Establish, Pushes, HomeStores, StoresArgs, NeedsRbp, Padding, StackSize, RegisterArgs, Word, Peek;
    RegisterArgsFit(f);
    var n := if StoresArgs(f) then RegisterArgs(f) else 0;
    var stores := if StoresArgs(f) then HomeStores(f.params, RegisterArgs(f)) else [];
    var saved := SavedRegs(f);
    NoStores(f.params, c);
    HomeStoresDo(f.params, n, c);
    var c1 := Exec(stores, c);
    var c2 := Exec(Pushes(saved), c1);
    PushesDo(saved, c1);
    EstablishDoes(f, c2);
    ExecJoin(stores, Pushes(saved) + Establish(f), c);
    ExecJoin(Pushes(saved), Establish(f), c1);
    forall i | 0 <= i < n
      ensures Homed(c2.mem, c.rsp, c.regs, f.params, i)
    {
      assert Homed(c1.mem, c.rsp, c.regs, f.params, i);
    }
  }

  // The n words below an address are the same.
  ghost predicate KeepsSaved(before: Memory, after: Memory, at: int, n: nat) {
    forall x :: at - 8 * n <= x < at ==> Peek(after, x) == Peek(before, x)
  }

  lemma RegisterArgsFit(f: Func)
    ensures RegisterArgs(f) <= |f.params|
  {
  }

  lemma NoStores(params: seq<nat>, c: Cpu)
    ensures HomeStores(params, 0) == [] && Exec([], c) == c
  {
  }

  // The epilogue pops the saved words, wherever they came from.
  lemma EpilogueDoes(f: Func, origin: map<Reg, int>, top: int, body: Cpu)
    requires WellTyped(f) && body.rsp == StackPointer(f, top) && |SavedRegs(f)| == NumPushes(f)
    requires forall i :: 0 <= i < |SavedRegs(f)| ==> Word(body.mem, top - 8 * (i + 1)) == Get(origin, SavedRegs(f)[i])
    ensures var d := Exec(Epilogue(f), body);
            && d.rsp == top && d.mem == body.mem
            && forall r :: Get(d.regs, r) == if r in SavedRegs(f) then Get(origin, r) else Get(body.regs, r)
  {
    hide Exec, Pops, NumPushes, Padding, StackSize, SavedRegs, Word;
    var size := StackSize(f) + Padding(f);
    var add := if size > 0 then [AddRsp(size)] else [];
    ExecJoin(add, Pops(SavedRegs(f)), body);
    OneOrNone(add, body);
    PopsDo(SavedRegs(f), origin, top, Exec(add, body));
  }

  /**
   * However the body has used the machine, as long as it kept rsp and the saved words:
   * at the return, rsp, rbp and every temporary handed out are as they were on entry.
   */
  lemma EpilogueRestores(f: Func, c: Cpu, body: Cpu)
    requires WellTyped(f)
    requires body.rsp == Exec(Prologue(f), c).rsp
    requires KeepsSaved(Exec(Prologue(f), c).mem, body.mem, c.rsp, NumPushes(f))
    ensures var d := Exec(Epilogue(f), body);
            && d.rsp == c.rsp && d.mem == body.mem
            && Get(d.regs, Rbp) == Get(if NeedsRbp(f) then c.regs else body.regs, Rbp)
            && forall t :: Get(d.regs, Temp(t)) == if t in f.temps then Get(c.regs, Temp(t)) else Get(body.regs, Temp(t))
  {
    hide Exec, Prologue, Epilogue, NeedsRbp, NumPushes, StackPointer, SameBut, RegisterArgs, StoresArgs, SavedRegs, Word, Peek;
    PrologueDoes(f, c);
    SavedAre(f);
    forall i | 0 <= i < |SavedRegs(f)|
      ensures Word(body.mem, c.rsp - 8 * (i + 1)) == Get(c.regs, SavedRegs(f)[i])
    {
      WordKept(Exec(Prologue(f), c).mem, body.mem, c.rsp - 8 * (i + 1));
    }
    EpilogueDoes(f, c.regs, c.rsp, body);
  }

  lemma SavedAre(f: Func)
    requires WellTyped(f)
    ensures |SavedRegs(f)| == NumPushes(f)
    ensures forall t :: Temp(t) in SavedRegs(f) <==> t in f.temps
    ensures Rbp in SavedRegs(f) <==> NeedsRbp(f)
  {
    hide NeedsRbp;
    forall t | t in f.temps
      ensures Temp(t) in SavedRegs(f)
    {
      var i :| 0 <= i < |f.temps| && f.temps[i] == t;
      assert SavedRegs(f)[(if NeedsRbp(f) then 1 else 0) + i] == Temp(t);
    }
  }

  /** With rsp + 8 a multiple of 16 on entry, rsp is a multiple of 16 in the body, at every call. */
  lemma BodyAligned(f: Func, entry: int)
    requires WellTyped(f) && (entry + 8) % 16 == 0
    ensures StackPointer(f, entry) % 16 == 0 && FramePointer(f, entry) % 16 == 0
  {
    hide OutArea, LocalArea;
    var n := NumPushes(f);
    assert (8 * n + Padding(f)) % 16 == 8 by {
      assert n % 2 == 0 || n % 2 == 1;
    }
    assert FramePointer(f, entry) % 16 == 0;
    AreasAligned(f);
  }

  lemma AreasAligned(f: Func)
    requires WellTyped(f)
    ensures LocalArea(f.locals) % 16 == 0 && OutArea(f) % 16 == 0 && StackSize(f) % 16 == 0
  {
    hide Align, LocalArea, OutArea;
    LocalAreaAligned(f.locals);
    OutAreaAligned(f);
    SumOfMultiples(LocalArea(f.locals), OutArea(f), 16);
  }

  lemma LocalAreaAligned(ls: seq<LocalVar>)
    requires forall l :: l in ls ==> l.alignment > 0
    ensures LocalArea(ls) % 16 == 0
  {
    hide Align, LocalsEnd;
  }

  lemma OutAreaAligned(f: Func)
    ensures OutArea(f) % 16 == 0
  {
    hide Align, MaxCallArgs;
  }
}
