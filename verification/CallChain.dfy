// Chains of calls.

module CallChain {
  // Their frames, and what a whole call leaves unchanged.

  import opened Alignment
  import opened Frame
  import opened FrameCode

  // ----- Frames do not overlap -----

  // A function that is running: its code was entered with rsp == entry, right below
  // which nothing was in use; the return address lies at entry.
  datatype Activation = Activation(f: Func, entry: int)

  // The places a frame is made of, from top to bottom.
  datatype Cell = ReturnAddress | Saved(k: nat) | Local(i: nat) | Outgoing(k: nat)

  predicate Owns(a: Activation, c: Cell)
    requires WellTyped(a.f)
  {
    match c
    case ReturnAddress => true
    case Saved(k) => k < NumPushes(a.f)
    case Local(i) => i < |a.f.locals|
    case Outgoing(k) => 8 * (k + 1) <= OutArea(a.f)
  }

  function Low(a: Activation, c: Cell): int
    requires WellTyped(a.f) && Owns(a, c)
  {
    match c
    case ReturnAddress => a.entry
    case Saved(k) => a.entry - 8 * (k + 1)
    case Local(i) => FramePointer(a.f, a.entry) + LocalOffsets(a.f.locals)[i]
    case Outgoing(k) => StackPointer(a.f, a.entry) + 8 * k
  }

  function High(a: Activation, c: Cell): int
    requires WellTyped(a.f) && Owns(a, c)
  {
    Low(a, c) + if c.Local? then a.f.locals[c.i].size else 8
  }

  predicate Apart(low1: int, high1: int, low2: int, high2: int) {
    high1 <= low2 || high2 <= low1
  }

  lemma CellInside(a: Activation, c: Cell)
    requires WellTyped(a.f) && Owns(a, c)
    ensures StackPointer(a.f, a.entry) <= Low(a, c) && High(a, c) <= a.entry + 8
    ensures c.Saved? ==> FramePointer(a.f, a.entry) <= Low(a, c)
    ensures c.Local? ==> FramePointer(a.f, a.entry) - LocalArea(a.f.locals) <= Low(a, c) && High(a, c) <= FramePointer(a.f, a.entry)
    ensures c.Outgoing? ==> High(a, c) <= FramePointer(a.f, a.entry) - LocalArea(a.f.locals)
  {
    hide NumPushes, Padding, OutArea, LocalArea, LocalOffsets;
    if c.Local? {
      LocalsApart(a.f.locals);
    }
  }

  lemma CellsApart(a: Activation, c: Cell, d: Cell)
    requires WellTyped(a.f) && Owns(a, c) && Owns(a, d) && c != d
    ensures Apart(Low(a, c), High(a, c), Low(a, d), High(a, d))
  {
    hide NumPushes, Padding, OutArea, LocalArea, LocalOffsets, FramePointer, StackPointer;
    CellInside(a, c);
    CellInside(a, d);
    LocalsApart(a.f.locals);
    FrameOrder(a);
    if c.Local? && d.Local? {
      var i, j := c.i, d.i;
      assert i < j || j < i;
    }
  }

  lemma FrameOrder(a: Activation)
    requires WellTyped(a.f)
    ensures FramePointer(a.f, a.entry) <= a.entry - 8 * NumPushes(a.f)
  {
  }

  // A call with as many arguments as the callee has parameters.
  predicate Calls(f: Func, g: Func) {
    exists i :: 0 <= i < |f.code| && f.code[i].op.Call? && CallArgs(f.code[i]) == |g.params|
  }

  // One activation called the other; the call pushed the return address.
  predicate Enters(a: Activation, b: Activation)
    requires WellTyped(a.f)
  {
    Calls(a.f, b.f) && b.entry == StackPointer(a.f, a.entry) - 8
  }

  predicate Chain(acts: seq<Activation>) {
    && (forall k :: 0 <= k < |acts| ==> WellTyped(acts[k].f))
    && forall k :: 0 < k < |acts| ==> Enters(acts[k - 1], acts[k])
  }

  lemma {:induction false} FramesBelow(acts: seq<Activation>, j: nat, k: nat)
    requires Chain(acts) && j < k < |acts|
    ensures acts[k].entry + 8 <= StackPointer(acts[j].f, acts[j].entry)
    decreases k
  {
    hide NumPushes, Padding, StackSize;
    if j < k - 1 {
      FramesBelow(acts, j, k - 1);
      assert Enters(acts[k - 1], acts[k]);
    }
  }

  /** In a chain of calls of any depth, no two places of any frames overlap. */
  lemma ChainApart(acts: seq<Activation>, j: nat, k: nat, c: Cell, d: Cell)
    requires Chain(acts) && j < |acts| && k < |acts| && Owns(acts[j], c) && Owns(acts[k], d)
    requires j != k || c != d
    ensures Apart(Low(acts[j], c), High(acts[j], c), Low(acts[k], d), High(acts[k], d))
  {
    hide StackPointer, Low, High, Owns;
    if j == k {
      CellsApart(acts[j], c, d);
    } else {
      CellInside(acts[j], c);
      CellInside(acts[k], d);
      if j < k {
        FramesBelow(acts, j, k);
      } else {
        FramesBelow(acts, k, j);
      }
    }
  }

  /**
   * A parameter is, for the callee, at its offset from the frame pointer and at the word
   * the prologue stores a register argument to; for the caller it is an outgoing word of
   * its own frame, at its offset from rsp.
   */
  lemma ArgumentsMeet(acts: seq<Activation>, k: nat, i: nat)
    requires Chain(acts) && 0 < k < |acts| && i < |acts[k].f.params|
    ensures var caller, callee := acts[k - 1], acts[k];
            && Owns(caller, Outgoing(i))
            && Low(caller, Outgoing(i)) == StackPointer(caller.f, caller.entry) + 8 * i
            && Low(caller, Outgoing(i)) == callee.entry + 8 * (i + 1)
            && Low(caller, Outgoing(i)) == FramePointer(callee.f, callee.entry) + ArgOffset(callee.f, i)
  {
    hide NumPushes, Padding, StackSize;
    assert Enters(acts[k - 1], acts[k]);
    OutgoingRoom(acts[k - 1].f, acts[k].f);
  }

  lemma OutgoingRoom(f: Func, g: Func)
    requires Calls(f, g)
    ensures 8 * |g.params| <= OutArea(f)
  {
    hide Align;
    var i :| 0 <= i < |f.code| && f.code[i].op.Call? && CallArgs(f.code[i]) == |g.params|;
    MaxCallArgsIs(f.code);
    assert 8 * CallArgs(f.code[i]) <= MaxCallArgs(f.code);
  }

  /** If the first function is entered aligned, rsp is a multiple of 16 in every frame of the chain. */
  lemma {:induction false} ChainAligned(acts: seq<Activation>, k: nat)
    requires Chain(acts) && k < |acts| && (acts[0].entry + 8) % 16 == 0
    ensures StackPointer(acts[k].f, acts[k].entry) % 16 == 0
    decreases k
  {
    hide StackPointer;
    if k > 0 {
      ChainAligned(acts, k - 1);
      assert Enters(acts[k - 1], acts[k]);
    }
    BodyAligned(acts[k].f, acts[k].entry);
  }

  // ----- What a call leaves unchanged -----

  // What a function body does to the machine: writes of any width to its locals and its
  // parameters, writes to its outgoing words, changes of registers, and calls.
  datatype Action =
    | WriteLocal(i: nat, at: nat, width: nat, value: int)
    | WriteParam(i: nat, width: nat, value: int)
    | WriteOutgoing(k: nat, value: int)
    | SetReg(reg: Reg, value: int)
    | Invoke(callee: Func, returnTo: int, body: Actions)

  datatype Actions = Done | Next(first: Action, rest: Actions)

  predicate Allowed(f: Func, a: Action)
    decreases a
  {
    match a
    case WriteLocal(i, at, n, _) => i < |f.locals| && at + n <= f.locals[i].size
    case WriteParam(i, n, _) => i < |f.params| && n <= 8
    case WriteOutgoing(k, _) => 8 * (k + 1) <= OutArea(f)
    case SetReg(r, _) => r.ArgReg? || (r.Temp? && r.index in f.temps)
    case Invoke(g, _, body) => WellTyped(g) && Calls(f, g) && AllAllowed(g, body)
  }

  predicate AllAllowed(f: Func, acts: Actions)
    decreases acts
  {
    match acts
    case Done => true
    case Next(a, rest) => Allowed(f, a) && AllAllowed(f, rest)
  }

  function Act(f: Func, entry: int, a: Action, c: Cpu): Cpu
    requires WellTyped(f) && Allowed(f, a)
    decreases a
  {
    match a
    case WriteLocal(i, at, n, v) => c.(mem := Write(c.mem, FramePointer(f, entry) + LocalOffsets(f.locals)[i] + at, n, v))
    case WriteParam(i, n, v) => c.(mem := Write(c.mem, FramePointer(f, entry) + ArgOffset(f, i), n, v))
    case WriteOutgoing(k, v) => c.(mem := Write(c.mem, c.rsp + 8 * k, 8, v))
    case SetReg(r, v) => c.(regs := c.regs[r := v])
    case Invoke(g, back, body) =>
      var d := Call(g, body, Cpu(c.rsp - 8, c.regs, Write(c.mem, c.rsp - 8, 8, back)));
      d.(rsp := d.rsp + 8)
  }

  function Body(f: Func, entry: int, acts: Actions, c: Cpu): Cpu
    requires WellTyped(f) && AllAllowed(f, acts)
    decreases acts, 0
  {
    match acts
    case Done => c
    case Next(a, rest) => Body(f, entry, rest, Act(f, entry, a, c))
  }

  /** A call from the first instruction of the callee up to its return. */
  function Call(f: Func, acts: Actions, c: Cpu): Cpu
    requires WellTyped(f) && AllAllowed(f, acts)
    decreases acts, 1
  {
    Exec(Epilogue(f), Body(f, c.rsp, acts, Exec(Prologue(f), c)))
  }

  // A byte between the return address and the end of the last parameter.
  predicate IsParam(x: int, entry: int, args: nat) {
    entry + 8 <= x < entry + 8 * (args + 1)
  }

  // Everything from the bottom upwards is the same, but for the parameters.
  ghost predicate KeepsAbove(before: Memory, after: Memory, bottom: int, entry: int, args: nat) {
    forall x :: bottom <= x && !IsParam(x, entry, args) ==> Peek(after, x) == Peek(before, x)
  }

  ghost predicate KeepsRegs(before: map<Reg, int>, after: map<Reg, int>, used: seq<nat>) {
    && Get(after, Rbp) == Get(before, Rbp)
    && forall t :: t !in used ==> Get(after, Temp(t)) == Get(before, Temp(t))
  }

  // What every moment of a body keeps, compared with the moment after the prologue.
  ghost predicate Keeps(f: Func, entry: int, start: Cpu, c: Cpu)
    requires WellTyped(f)
  {
    && c.rsp == start.rsp == StackPointer(f, entry)
    && KeepsRegs(start.regs, c.regs, f.temps)
    && KeepsAbove(start.mem, c.mem, entry - 8 * NumPushes(f), entry, |f.params|)
  }

  lemma WriteKeeps(f: Func, entry: int, start: Cpu, c: Cpu, at: int, n: nat, v: int)
    requires WellTyped(f) && Keeps(f, entry, start, c)
    requires forall x :: at <= x < at + n ==> x < entry - 8 * NumPushes(f) || IsParam(x, entry, |f.params|)
    ensures Keeps(f, entry, start, c.(mem := Write(c.mem, at, n, v)))
  {
    hide NumPushes, StackPointer, IsParam, Peek, Write;
  }

  lemma WritesInside(f: Func, entry: int, a: Action)
    requires WellTyped(f) && Allowed(f, a)
    ensures a.WriteLocal? ==>
              FramePointer(f, entry) + LocalOffsets(f.locals)[a.i] + a.at + a.width <= entry - 8 * NumPushes(f)
    ensures a.WriteParam? ==>
              var at := FramePointer(f, entry) + ArgOffset(f, a.i); entry + 8 <= at && at + 8 <= entry + 8 * (|f.params| + 1)
    ensures a.WriteOutgoing? ==> StackPointer(f, entry) + 8 * a.k + 8 <= entry - 8 * NumPushes(f)
  {
    hide NumPushes, Padding, LocalArea, LocalOffsets, OutArea;
    LocalsApart(f.locals);
  }

  // The callee's parameters are outgoing words of the caller.
  lemma CalleeInside(f: Func, entry: int, g: Func, x: int)
    requires WellTyped(f) && Calls(f, g) && entry - 8 * NumPushes(f) <= x
    ensures StackPointer(f, entry) <= x && !IsParam(x, StackPointer(f, entry) - 8, |g.params|)
  {
    hide NumPushes, Padding, LocalArea, OutArea;
    OutgoingRoom(f, g);
  }

  lemma {:induction false} ActKeeps(f: Func, entry: int, a: Action, start: Cpu, c: Cpu)
    requires WellTyped(f) && Allowed(f, a) && Keeps(f, entry, start, c)
    ensures Keeps(f, entry, start, Act(f, entry, a, c))
    decreases a
  {
    hide NumPushes, StackPointer, FramePointer, LocalOffsets, ArgOffset, Write;
    WritesInside(f, entry, a);
    match a
    case WriteLocal(i, at, n, v) => WriteKeeps(f, entry, start, c, FramePointer(f, entry) + LocalOffsets(f.locals)[i] + at, n, v);
    case WriteParam(i, n, v) => WriteKeeps(f, entry, start, c, FramePointer(f, entry) + ArgOffset(f, i), n, v);
    case WriteOutgoing(k, v) => WriteKeeps(f, entry, start, c, c.rsp + 8 * k, 8, v);
    case SetReg(_, _) =>
    case Invoke(_, _, _) => InvokeKeeps(f, entry, a, start, c);
  }

  lemma {:induction false} InvokeKeeps(f: Func, entry: int, a: Action, start: Cpu, c: Cpu)
    requires a.Invoke? && WellTyped(f) && Allowed(f, a) && Keeps(f, entry, start, c)
    ensures Keeps(f, entry, start, Act(f, entry, a, c))
    decreases a, 0
  {
    hide NumPushes, StackPointer, IsParam, Call, Peek, Write;
    var g := a.callee;
    var called := Cpu(c.rsp - 8, c.regs, Write(c.mem, c.rsp - 8, 8, a.returnTo));
    CallKeeps(g, a.body, called);
    var d := Call(g, a.body, called);
    forall x | entry - 8 * NumPushes(f) <= x && !IsParam(x, entry, |f.params|)
      ensures Peek(d.mem, x) == Peek(start.mem, x)
    {
      CalleeInside(f, entry, g, x);
    }
  }

  lemma {:induction false} BodyKeeps(f: Func, entry: int, acts: Actions, start: Cpu, c: Cpu)
    requires WellTyped(f) && AllAllowed(f, acts) && Keeps(f, entry, start, c)
    ensures Keeps(f, entry, start, Body(f, entry, acts, c))
    decreases acts, 0
  {
    hide Keeps, Act;
    if acts.Next? {
      ActKeeps(f, entry, acts.first, start, c);
      BodyKeeps(f, entry, acts.rest, start, Act(f, entry, acts.first, c));
    }
  }

  /**
   * A call, with everything it calls in turn: at its return rsp, rbp and all temporary
   * registers are as on entry, and of the memory from the return address upwards only
   * the parameters may have changed.
   */
  lemma {:induction false} CallKeeps(f: Func, acts: Actions, c: Cpu)
    requires WellTyped(f) && AllAllowed(f, acts)
    ensures var d := Call(f, acts, c);
            && d.rsp == c.rsp && KeepsRegs(c.regs, d.regs, [])
            && KeepsAbove(c.mem, d.mem, c.rsp, c.rsp, |f.params|)
    decreases acts, 1
  {
    hide Exec, Prologue, Epilogue, NumPushes, StackPointer, FramePointer, NeedsRbp, Body, InWords, Peek;
    var start := Exec(Prologue(f), c);
    PrologueDoes(f, c);
    BodyKeeps(f, c.rsp, acts, start, start);
    var done := Body(f, c.rsp, acts, start);
    SavedAbove(f, c, start, done);
    EpilogueRestores(f, c, done);
    RegsRestored(f, c, start, done);
    PrologueAbove(f, c);
  }

  lemma SavedAbove(f: Func, c: Cpu, start: Cpu, done: Cpu)
    requires WellTyped(f) && Keeps(f, c.rsp, start, done)
    ensures KeepsSaved(start.mem, done.mem, c.rsp, NumPushes(f))
  {
    hide NumPushes;
  }

  lemma RegsRestored(f: Func, c: Cpu, start: Cpu, done: Cpu)
    requires WellTyped(f) && start == Exec(Prologue(f), c) && KeepsRegs(start.regs, done.regs, f.temps)
    ensures var before, after := c.regs, done.regs;
            && (!NeedsRbp(f) ==> Get(after, Rbp) == Get(before, Rbp))
            && forall t :: t !in f.temps ==> Get(after, Temp(t)) == Get(before, Temp(t))
  {
    hide Exec, Prologue, NeedsRbp;
    PrologueDoes(f, c);
  }

  lemma PrologueAbove(f: Func, c: Cpu)
    requires WellTyped(f)
    ensures KeepsAbove(c.mem, Exec(Prologue(f), c).mem, c.rsp, c.rsp, |f.params|)
  {
    hide Exec, Prologue, NeedsRbp, StoresArgs, Peek;
    PrologueDoes(f, c);
  }
}
