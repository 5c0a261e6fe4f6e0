// Stack frames of the x64 code.

module Frame {
  import opened Ir
  import opened Alignment

  // rdi, rsi, rdx, rcx, r8, r9
  const ARG_REGISTERS := 6

  // Room reserved for arguments when C functions are called.
  const EXTERN_AREA := 48

  datatype LocalVar = LocalVar(size: nat, alignment: nat)

  // params: the sizes of its parameters. temps: the temporary registers handed out, in increasing order.
  datatype Func = Func(params: seq<nat>, locals: seq<LocalVar>, temps: seq<nat>, code: seq<Instr>, callsExternC: bool)

  function Max(a: int, b: int): int {
    if a > b then a else b
  }

  function Min(a: int, b: int): int {
    if a < b then a else b
  }

  // ----- The areas of a frame -----

  function CallArgs(i: Instr): nat {
    if i.operands == [] then 0 else |i.operands| - 1
  }

  // Instructions that overwrite a register in which arguments arrive.
  predicate ClobbersArgs(i: Instr, args: nat) {
    i.op.Call? || i.op.Copy? || i.op.StoreOp? || i.op.Shl? || i.op.Shr? || (i.op.Div? && args >= 2)
  }

  predicate IsMaxCallArgs(code: seq<Instr>, sz: nat) {
    && (forall i :: 0 <= i < |code| && code[i].op.Call? ==> 8 * CallArgs(code[i]) <= sz)
    && (sz == 0 || exists i :: 0 <= i < |code| && code[i].op.Call? && 8 * CallArgs(code[i]) == sz)
  }

  method FindMaxCallArgSize(code: seq<Instr>, args: nat) returns (sz: nat, callsEverMade: bool)
    ensures IsMaxCallArgs(code, sz)
    ensures callsEverMade <==> exists i :: 0 <= i < |code| && ClobbersArgs(code[i], args)
  {
    sz, callsEverMade := 0, false;
    var k := 0;
    while k < |code|
      invariant 0 <= k <= |code|
      invariant IsMaxCallArgs(code[..k], sz)
      invariant callsEverMade <==> exists i :: 0 <= i < k && ClobbersArgs(code[i], args)
    {
      var inst := code[k];
      assert code[..k + 1] == code[..k] + [inst];
      if inst.op.Call? {
        var argsSize := 0;
        var i := 0;
        while i < |inst.operands|
          invariant 0 <= i <= |inst.operands|
          invariant argsSize == if i == 0 then 0 else 8 * (i - 1)
        {
          if i != 0 {
            argsSize := argsSize + 8;
            argsSize := Align(argsSize, 8);
          }
          i := i + 1;
        }
        MaxSoFar(code[..k], sz, inst, argsSize);
        sz := Max(sz, argsSize);
        callsEverMade := true;
      } else if inst.op.Copy? || inst.op.StoreOp? {
        callsEverMade := true;
      } else if inst.op.Shl? || inst.op.Shr? {
        callsEverMade := true;
      } else if inst.op.Div? {
        if args >= 2 {
          callsEverMade := true;
        }
      }
      if !inst.op.Call? {
        NoCallAdded(code[..k], sz, inst);
      }
      k := k + 1;
    }
    assert code[..k] == code;
  }

  lemma MaxSoFar(code: seq<Instr>, sz: nat, i: Instr, argsSize: nat)
    requires IsMaxCallArgs(code, sz) && i.op.Call? && argsSize == 8 * CallArgs(i)
    ensures IsMaxCallArgs(code + [i], Max(sz, argsSize))
  {
    if argsSize >= sz {
      assert (code + [i])[|code|] == i;
    } else {
      var k :| 0 <= k < |code| && code[k].op.Call? && 8 * CallArgs(code[k]) == sz;
      assert (code + [i])[k] == code[k];
    }
  }

  lemma NoCallAdded(code: seq<Instr>, sz: nat, i: Instr)
    requires IsMaxCallArgs(code, sz) && !i.op.Call?
    ensures IsMaxCallArgs(code + [i], sz)
  {
    if sz != 0 {
      var k :| 0 <= k < |code| && code[k].op.Call? && 8 * CallArgs(code[k]) == sz;
      assert (code + [i])[k] == code[k];
    }
  }

  // Bytes below the frame pointer that hold the first n locals.
  function LocalsEnd(ls: seq<LocalVar>, n: nat): nat
    requires n <= |ls| && forall l :: l in ls ==> l.alignment > 0
  {
    if n == 0 then 0
    else
      var l := ls[n - 1];
      Align(LocalsEnd(ls, n - 1) + l.size, if l.size > 8 then 16 else l.alignment)
  }

  // Every local has its own place below the frame pointer, inside the area.
  predicate LocalsPlaced(ls: seq<LocalVar>, offsets: seq<int>, area: int) {
    && |offsets| == |ls|
    && (forall i :: 0 <= i < |ls| ==> -area <= offsets[i] && offsets[i] + ls[i].size <= 0)
    && (forall i, j :: 0 <= i < j < |ls| ==> offsets[j] + ls[j].size <= offsets[i])
  }

  // With an aligned frame pointer every local is aligned.
  predicate LocalsAligned(ls: seq<LocalVar>, offsets: seq<int>) {
    |offsets| == |ls| && forall i :: 0 <= i < |ls| && PowerUpTo16(ls[i].alignment) ==> offsets[i] % ls[i].alignment == 0
  }

  function LocalOffsets(ls: seq<LocalVar>): (offsets: seq<int>)
    requires forall l :: l in ls ==> l.alignment > 0
    ensures |offsets| == |ls|
  {
    seq(|ls|, i requires 0 <= i < |ls| => -(LocalsEnd(ls, i + 1) as int))
  }

  function LocalArea(ls: seq<LocalVar>): nat
    requires forall l :: l in ls ==> l.alignment > 0
  {
    Align(LocalsEnd(ls, |ls|), 16)
  }

  lemma {:induction false} LocalsEndGrows(ls: seq<LocalVar>, m: nat, n: nat)
    requires m <= n <= |ls| && forall l :: l in ls ==> l.alignment > 0
    ensures LocalsEnd(ls, m) <= LocalsEnd(ls, n)
    ensures m < n ==> LocalsEnd(ls, m) + ls[n - 1].size <= LocalsEnd(ls, n)
    decreases n
  {
    hide Align;
    if m < n {
      LocalsEndGrows(ls, m, n - 1);
    }
  }

  lemma SixteenIsPower()
    ensures PowerUpTo16(16) && forall a :: PowerUpTo16(a) ==> a <= 16
  {
  }

  lemma EndAligned(ls: seq<LocalVar>, i: nat)
    requires i < |ls| && forall l :: l in ls ==> l.alignment > 0
    ensures PowerUpTo16(ls[i].alignment) ==> LocalOffsets(ls)[i] % ls[i].alignment == 0
  {
    hide PowerUpTo16;
    var e, a := LocalsEnd(ls, i + 1), ls[i].alignment;
    if PowerUpTo16(a) {
      if ls[i].size > 8 {
        SixteenIsPower();
        Coarser(e, a, 16);
      }
      MultipleOf(0, a);
      SumOfMultiples(0, e, a);
    }
  }

  lemma LocalInside(ls: seq<LocalVar>, i: nat)
    requires i < |ls| && forall l :: l in ls ==> l.alignment > 0
    ensures LocalsEnd(ls, i + 1) <= LocalArea(ls) && LocalsEnd(ls, i) + ls[i].size <= LocalsEnd(ls, i + 1)
  {
    hide Align;
    LocalsEndGrows(ls, i + 1, |ls|);
    LocalsEndGrows(ls, i, i + 1);
  }

  /** Locals do not overlap, lie inside the local area and are aligned. */
  lemma LocalsApart(ls: seq<LocalVar>)
    requires forall l :: l in ls ==> l.alignment > 0
    ensures LocalsPlaced(ls, LocalOffsets(ls), LocalArea(ls)) && LocalsAligned(ls, LocalOffsets(ls))
  {
    hide LocalsEnd, LocalArea, PowerUpTo16;
    var offsets := LocalOffsets(ls);
    forall i | 0 <= i < |ls|
      ensures -(LocalArea(ls) as int) <= offsets[i] && offsets[i] + ls[i].size <= 0
    {
      LocalInside(ls, i);
    }
    forall i | 0 <= i < |ls|
      ensures PowerUpTo16(ls[i].alignment) ==> offsets[i] % ls[i].alignment == 0
    {
      EndAligned(ls, i);
    }
    forall i, j | 0 <= i < j < |ls|
      ensures offsets[j] + ls[j].size <= offsets[i]
    {
      LocalsEndGrows(ls, i + 1, j + 1);
    }
  }

  // ----- Frame sizes as the generator computes them -----

  predicate WellTyped(f: Func) {
    forall l :: l in f.locals ==> l.alignment > 0
  }

  function MaxCallArgs(code: seq<Instr>): nat {
    if code == [] then 0
    else
      var last := code[|code| - 1];
      Max(MaxCallArgs(code[..|code| - 1]), if last.op.Call? then 8 * CallArgs(last) else 0)
  }

  lemma {:induction false} MaxCallArgsIs(code: seq<Instr>)
    ensures IsMaxCallArgs(code, MaxCallArgs(code))
    decreases |code|
  {
    if code != [] {
      var n, last := |code| - 1, code[|code| - 1];
      assert code == code[..n] + [last];
      MaxCallArgsIs(code[..n]);
      if last.op.Call? {
        MaxSoFar(code[..n], MaxCallArgs(code[..n]), last, 8 * CallArgs(last));
      } else {
        NoCallAdded(code[..n], MaxCallArgs(code[..n]), last);
      }
    }
  }

  lemma OneMax(code: seq<Instr>, x: nat, y: nat)
    requires IsMaxCallArgs(code, x) && IsMaxCallArgs(code, y)
    ensures x <= y
  {
    if x != 0 {
      var i :| 0 <= i < |code| && code[i].op.Call? && 8 * CallArgs(code[i]) == x;
    }
  }

  function OutArea(f: Func): nat {
    var sz := MaxCallArgs(f.code);
    Align(if f.callsExternC then Max(sz, EXTERN_AREA) else sz, 16)
  }

  /** There is room for the arguments of every call, and for all argument registers when C functions are called. */
  lemma OutAreaHolds(f: Func, i: Instr)
    requires i in f.code && i.op.Call?
    ensures 8 * CallArgs(i) <= OutArea(f)
    ensures f.callsExternC ==> 8 * ARG_REGISTERS <= OutArea(f)
  {
    hide Align;
    MaxCallArgsIs(f.code);
  }

  function StackSize(f: Func): nat
    requires WellTyped(f)
  {
    LocalArea(f.locals) + OutArea(f)
  }

  predicate NeedsRbp(f: Func)
    requires WellTyped(f)
  {
    !(StackSize(f) == 0 && |f.params| == 0)
  }

  function NumPushes(f: Func): nat
    requires WellTyped(f)
  {
    |f.temps| + (if NeedsRbp(f) then 1 else 0)
  }

  function Padding(f: Func): nat
    requires WellTyped(f)
  {
    if NumPushes(f) % 2 == 0 then 8 else 0
  }

  lemma WholeWords(n: nat)
    ensures Align(8 * n, 8) == 8 * n
  {
  }

  lemma NoLocalsYet(ls: seq<LocalVar>)
    requires forall l :: l in ls ==> l.alignment > 0
    ensures LocalsEnd(ls, 0) == 0
  {
  }

  lemma OneMoreLocal(ls: seq<LocalVar>, n: nat)
    requires n < |ls| && forall l :: l in ls ==> l.alignment > 0
    ensures var l := ls[n];
            LocalsEnd(ls, n + 1) == Align(LocalsEnd(ls, n) + l.size, if l.size > 8 then 16 else l.alignment)
  {
  }

  method GetFrameSize(f: Func, argOffset: array<int>, localOffset: array<int>)
    returns (localSize: nat, callArgSize: nat, callsEverMade: bool)
    requires WellTyped(f) && argOffset.Length == |f.params| && localOffset.Length == |f.locals| && argOffset != localOffset
    modifies argOffset, localOffset
    ensures localSize == LocalArea(f.locals) && callArgSize == OutArea(f)
    ensures callsEverMade <==> exists i :: 0 <= i < |f.code| && ClobbersArgs(f.code[i], |f.params|)
    ensures forall i :: 0 <= i < |f.params| ==> argOffset[i] == 8 * (i + 1)
    ensures localOffset[..] == LocalOffsets(f.locals)
  {
    hide Align, LocalsEnd, MaxCallArgs, IsMaxCallArgs, ClobbersArgs;
    callArgSize, callsEverMade := FindMaxCallArgSize(f.code, |f.params|);
    MaxCallArgsIs(f.code);
    OneMax(f.code, callArgSize, MaxCallArgs(f.code));
    OneMax(f.code, MaxCallArgs(f.code), callArgSize);
    if f.callsExternC {
      callArgSize := Max(callArgSize, EXTERN_AREA);
    }
    var ownArgSize := 0;
    var ai := 0;
    while ai < |f.params|
      invariant 0 <= ai <= |f.params| && ownArgSize == 8 * ai
      invariant forall i :: 0 <= i < ai ==> argOffset[i] == 8 * (i + 1)
    {
      ownArgSize := ownArgSize + 8;
      WholeWords(ai + 1);
      ownArgSize := Align(ownArgSize, 8);
      argOffset[ai] := ownArgSize;
      ai := ai + 1;
    }
    localSize := 0;
    NoLocalsYet(f.locals);
    var li := 0;
    while li < |f.locals|
      invariant 0 <= li <= |f.locals| && localSize == LocalsEnd(f.locals, li)
      invariant forall i :: 0 <= i < |f.params| ==> argOffset[i] == 8 * (i + 1)
      invariant forall i :: 0 <= i < li ==> localOffset[i] == -(LocalsEnd(f.locals, i + 1) as int)
    {
      var l := f.locals[li];
      localSize := localSize + l.size;
      if l.size > 8 {
        localSize := Align(localSize, 16);
      } else {
        localSize := Align(localSize, l.alignment);
      }
      OneMoreLocal(f.locals, li);
      localOffset[li] := -(localSize as int);
      li := li + 1;
    }
    localSize := Align(localSize, 16);
    callArgSize := Align(callArgSize, 16);
  }
}
