// Where the values of instructions go.

module Destinations {
  // Each goes to the result register, to one of the callee-saved temporaries, or to a
  // spill local.

  import opened Ir
  import opened Optimizer

  // rbx, r12, r13, r14, r15
  const REGISTERS := 5

  datatype Dest = ResultReg | TempReg(index: int) | Spill(local: int)

  // Its counters: registers and spill locals in use, and the locals of the function.
  datatype Counters = Counters(regs: int, spills: int, locals: seq<TypeId>)

  // A negative count compares as a huge unsigned one.
  predicate RegisterLeft(regs: int) {
    0 <= regs < REGISTERS
  }

  function Take(a: Counters, base: nat, ty: TypeId): (Counters, Dest) {
    if RegisterLeft(a.regs) then (a.(regs := a.regs + 1), TempReg(a.regs))
    else (Counters(a.regs, a.spills + 1, if |a.locals| - base - a.spills == 0 then a.locals + [ty] else a.locals),
          Spill(base + a.spills))
  }

  function Release(a: Counters, times: int): Counters
    decreases times
  {
    if times <= 0 then a
    else Release(if a.spills != 0 then a.(spills := a.spills - 1) else a.(regs := a.regs - 1), times - 1)
  }

  // The value of instruction i is not consumed by the next instruction.
  predicate Waits(c: seq<Instr>, i: nat)
    requires i < |c|
  {
    i + 1 < |c| && PushesToStack(c[i]) && Consumption(c[i + 1]) == 0
  }

  // The counters before instruction i; a function starts with its own locals.
  function Before(c: seq<Instr>, own: seq<TypeId>, i: nat): Counters
    requires i <= |c|
  {
    if i == 0 then Counters(0, 0, own)
    else
      var a := Release(Before(c, own, i - 1), Consumption(c[i - 1]) - 1);
      if Waits(c, i - 1) then Take(a, |own|, c[i - 1].resultType).0 else a
  }

  function DestOf(c: seq<Instr>, own: seq<TypeId>, i: nat): Dest
    requires i < |c|
  {
    if Waits(c, i) then Take(Release(Before(c, own, i), Consumption(c[i]) - 1), |own|, c[i].resultType).1
    else ResultReg
  }

  // ----- The pass -----

  class Allocator {
    var usedTempRegisters: int
    var usedTempLocals: int
    var tempLocalsBase: nat
    var locals: seq<TypeId>
    var handedOut: set<int>

    constructor (own: seq<TypeId>)
      ensures locals == own && handedOut == {}
    {
      locals := own;
      handedOut := {};
      usedTempRegisters, usedTempLocals, tempLocalsBase := 0, 0, |own|;
    }

    ghost predicate Valid()
      reads this
    {
      usedTempLocals <= |locals| - tempLocalsBase
    }

    function State(): Counters
      reads this
    {
      Counters(usedTempRegisters, usedTempLocals, locals)
    }

    method UseTempRegister() returns (reg: Option<int>)
      modifies this`usedTempRegisters, this`handedOut
      ensures reg == if RegisterLeft(old(usedTempRegisters)) then Some(old(usedTempRegisters)) else None
      ensures usedTempRegisters == old(usedTempRegisters) + (if reg.Some? then 1 else 0)
      ensures handedOut == old(handedOut) + (if reg.Some? then {reg.value} else {})
    {
      if usedTempRegisters < 0 || usedTempRegisters >= REGISTERS {
        return None;
      }
      var next := usedTempRegisters;
      usedTempRegisters := usedTempRegisters + 1;
      handedOut := handedOut + {next};
      return Some(next);
    }

    method UseTempLocal(ty: TypeId) returns (index: int)
      requires Valid()
      modifies this`usedTempLocals, this`locals
      ensures Valid() && index == tempLocalsBase + old(usedTempLocals) && usedTempLocals == old(usedTempLocals) + 1
      ensures locals == if |old(locals)| - tempLocalsBase == old(usedTempLocals) then old(locals) + [ty] else old(locals)
    {
      var available := |locals| - tempLocalsBase - usedTempLocals;
      if available == 0 {
        usedTempLocals := usedTempLocals + 1;
        locals := locals + [ty];
        return |locals| - 1;
      }
      index := tempLocalsBase + usedTempLocals;
      usedTempLocals := usedTempLocals + 1;
    }

    method UseTempDestination(ty: TypeId) returns (d: Dest)
      requires Valid()
      modifies this`usedTempRegisters, this`usedTempLocals, this`locals, this`handedOut
      ensures Valid() && (State(), d) == Take(old(State()), tempLocalsBase, ty)
      ensures handedOut == old(handedOut) + (if d.TempReg? then {d.index} else {})
    {
      var reg := UseTempRegister();
      if reg.Some? {
        return TempReg(reg.value);
      }
      var local := UseTempLocal(ty);
      return Spill(local);
    }

    method FreeTempDestination()
      requires Valid()
      modifies this`usedTempRegisters, this`usedTempLocals
      ensures Valid() && State() == Release(old(State()), 1)
    {
      if usedTempLocals != 0 {
        usedTempLocals := usedTempLocals - 1;
      } else {
        usedTempRegisters := usedTempRegisters - 1;
      }
    }

    /** Gives every instruction its destination, in one pass from the first to the last. */
    method DetermineDestinations(code: seq<Instr>, dest: array<Dest>)
      requires dest.Length == |code|
      modifies this, dest
      ensures forall i :: 0 <= i < |code| ==> dest[i] == DestOf(code, old(locals), i)
      ensures State() == Before(code, old(locals), |code|) && old(locals) <= locals
      ensures handedOut == old(handedOut) + HandedOut(code, old(locals), |code|)
    {
      hide PushesToStack, Consumption, HandedOut;
      NothingHandedOut(code, locals);
      tempLocalsBase := |locals|;
      usedTempLocals := 0;
      usedTempRegisters := 0;
      ghost var own, given := locals, handedOut;
      var i := 0;
      while i < |code|
        invariant 0 <= i <= |code| && Valid() && tempLocalsBase == |own| && own <= locals
        invariant State() == Before(code, own, i)
        invariant handedOut == given + HandedOut(code, own, i)
        invariant forall k :: 0 <= k < i ==> dest[k] == DestOf(code, own, k)
      {
        var consumed := Consumption(code[i]);
        var sc := 1;
        ghost var start := State();
        while sc < consumed
          invariant 1 <= sc && (sc <= consumed || sc == 1) && Valid() && tempLocalsBase == |own| && own <= locals
          invariant Release(State(), consumed as int - sc) == Release(start, consumed as int - 1)
          invariant handedOut == given + HandedOut(code, own, i)
          invariant forall k :: 0 <= k < i ==> dest[k] == DestOf(code, own, k)
        {
          FreeTempDestination();
          sc := sc + 1;
        }
        StepHandsOut(code, own, i);
        dest[i] := ResultReg;
        if i < |code| - 1 {
          if PushesToStack(code[i]) && Consumption(code[i + 1]) == 0 {
            var d := UseTempDestination(code[i].resultType);
            dest[i] := d;
          }
        }
        i := i + 1;
      }
    }
  }

  // The temporary registers handed out before instruction i.
  function HandedOut(c: seq<Instr>, own: seq<TypeId>, i: nat): set<int>
    requires i <= |c|
  {
    if i == 0 then {}
    else HandedOut(c, own, i - 1) + (if DestOf(c, own, i - 1).TempReg? then {DestOf(c, own, i - 1).index} else {})
  }

  lemma NothingHandedOut(c: seq<Instr>, own: seq<TypeId>)
    ensures HandedOut(c, own, 0) == {} && Before(c, own, 0) == Counters(0, 0, own)
  {
  }

  lemma StepHandsOut(c: seq<Instr>, own: seq<TypeId>, i: nat)
    requires i < |c|
    ensures var d := DestOf(c, own, i);
            HandedOut(c, own, i + 1) == HandedOut(c, own, i) + (if d.TempReg? then {d.index} else {})
  {
  }

  // ----- No pending value is overwritten -----

  // The instructions whose values are on the stack before instruction i, bottom first.
  function Pending(c: seq<Instr>, i: nat): seq<nat>
    requires i <= |c|
  {
    if i == 0 then []
    else
      var left := Popped(Pending(c, i - 1), Consumption(c[i - 1]));
      if PushesToStack(c[i - 1]) then left + [i - 1] else left
  }

  function Popped<T>(s: seq<T>, n: nat): seq<T> {
    if n <= |s| then s[..|s| - n] else []
  }

  predicate NeverUnderflows(c: seq<Instr>) {
    forall i :: 0 <= i < |c| ==> Consumption(c[i]) <= |Pending(c, i)|
  }

  // Temporaries in use before instruction i, and once it has popped its operands.
  function InUse(c: seq<Instr>, i: nat): int
    requires i <= |c|
    decreases i, 0
  {
    if i == 0 then 0 else Freed(c, i - 1) + (if Waits(c, i - 1) then 1 else 0)
  }

  function Freed(c: seq<Instr>, i: nat): int
    requires i < |c|
    decreases i, 1
  {
    InUse(c, i) - (if Consumption(c[i]) > 0 then Consumption(c[i]) as int - 1 else 0)
  }

  // The value pushed last is in the result register, for the next instruction to consume.
  predicate TopInResult(c: seq<Instr>, i: nat)
    requires i <= |c|
  {
    i > 0 && PushesToStack(c[i - 1]) && !Waits(c, i - 1)
  }

  // The numbers of the temporaries that hold pending values, bottom first.
  function Temps(c: seq<Instr>, i: nat): seq<int>
    requires i <= |c|
  {
    if i == 0 then []
    else
      var left := Popped(Temps(c, i - 1), TempsPopped(c, i - 1));
      if Waits(c, i - 1) then left + [Freed(c, i - 1)] else left
  }

  function TempsPopped(c: seq<Instr>, i: nat): nat
    requires i < |c|
  {
    if TopInResult(c, i) && Consumption(c[i]) > 0 then Consumption(c[i]) - 1 else Consumption(c[i])
  }

  // Every pending value has its temporary, except one on top in the result register.
  ghost predicate Tracks(c: seq<Instr>, i: nat)
    requires i <= |c|
  {
    var s, t := Pending(c, i), Temps(c, i);
    && |s| == |t| + (if TopInResult(c, i) then 1 else 0)
    && (forall a :: 0 <= a < |t| ==> s[a] < i && Waits(c, s[a]) && t[a] == Freed(c, s[a]))
    && (TopInResult(c, i) ==> s[|s| - 1] == i - 1)
  }

  lemma PendingNext(c: seq<Instr>, i: nat)
    requires i < |c|
    ensures Pending(c, i + 1) == Popped(Pending(c, i), Consumption(c[i])) + (if PushesToStack(c[i]) then [i] else [])
  {
    hide PushesToStack, Consumption;
  }

  lemma TempsNext(c: seq<Instr>, i: nat)
    requires i < |c|
    ensures Temps(c, i + 1) == Popped(Temps(c, i), TempsPopped(c, i)) + (if Waits(c, i) then [Freed(c, i)] else [])
  {
    hide PushesToStack, Consumption, Waits, Freed, TempsPopped;
  }

  lemma TracksStep(c: seq<Instr>, i: nat)
    requires i < |c| && Tracks(c, i) && Consumption(c[i]) <= |Pending(c, i)|
    ensures Tracks(c, i + 1)
  {
    hide PushesToStack, Consumption, Pending, Temps, Freed;
    PendingNext(c, i);
    TempsNext(c, i);
    assert TopInResult(c, i) ==> Consumption(c[i]) > 0;
    var s, t := Pending(c, i), Temps(c, i);
    assert |Popped(s, Consumption(c[i]))| == |Popped(t, TempsPopped(c, i))|;
  }

  // Numbers rise with the stack and leave room below u for the values above them.
  predicate Rising(t: seq<int>, u: int) {
    && (forall a :: 0 <= a < |t| ==> 0 <= t[a] && t[a] + (|t| - a) <= u)
    && (forall a, b :: 0 <= a < b < |t| ==> t[a] < t[b])
  }

  lemma RisingPop(t: seq<int>, u: int, n: nat, freed: nat)
    requires Rising(t, u) && 0 <= u && freed <= n <= |t|
    ensures 0 <= u - freed && Rising(t[..|t| - n], u - freed) && Rising(t[..|t| - n] + [u - freed], u - freed + 1)
  {
    assert n > 0 ==> t[0] + |t| <= u;
    var left := t[..|t| - n];
    forall a | 0 <= a < |left|
      ensures left[a] + (|left| - a) <= u - freed
    {
      assert t[a] + (|t| - a) <= u;
    }
  }

  lemma NothingYet(c: seq<Instr>)
    ensures Tracks(c, 0) && Rising(Temps(c, 0), 0)
  {
  }

  lemma {:induction false} TempsRise(c: seq<Instr>, i: nat)
    requires NeverUnderflows(c) && i <= |c|
    ensures Tracks(c, i) && 0 <= InUse(c, i) && Rising(Temps(c, i), InUse(c, i))
    ensures i < |c| ==> 0 <= Freed(c, i)
    decreases i
  {
    hide PushesToStack, Consumption, Waits, Pending, Rising;
    if i > 0 {
      TempsRise(c, i - 1);
      TracksStep(c, i - 1);
      TempsStep(c, i - 1);
    } else {
      NothingYet(c);
    }
    if i < |c| {
      TempsStep(c, i);
    }
  }

  lemma TempsStep(c: seq<Instr>, i: nat)
    requires i < |c| && Tracks(c, i) && 0 <= InUse(c, i) && Rising(Temps(c, i), InUse(c, i))
    requires Consumption(c[i]) <= |Pending(c, i)|
    ensures 0 <= Freed(c, i) && 0 <= InUse(c, i + 1) && Rising(Temps(c, i + 1), InUse(c, i + 1))
  {
    hide PushesToStack, Consumption, Rising;
    var freed := if Consumption(c[i]) > 0 then Consumption(c[i]) - 1 else 0;
    RisingPop(Temps(c, i), InUse(c, i), TempsPopped(c, i), freed);
  }

  // The temporary with a given number.
  function TempDest(n: int, own: nat): Dest {
    if n < REGISTERS then TempReg(n) else Spill(own + (n - REGISTERS))
  }

  // The counters agree with the number of temporaries in use.
  predicate Counted(a: Counters, u: int) {
    0 <= a.regs <= REGISTERS && 0 <= a.spills && (a.spills > 0 ==> a.regs == REGISTERS) && a.regs + a.spills == u
  }

  lemma {:induction false} ReleaseCounted(a: Counters, u: int, times: int)
    requires Counted(a, u) && 0 <= u - times
    ensures Counted(Release(a, times), if times > 0 then u - times else u)
    decreases times
  {
    if times > 0 {
      ReleaseCounted(if a.spills != 0 then a.(spills := a.spills - 1) else a.(regs := a.regs - 1), u - 1, times - 1);
    }
  }

  lemma {:induction false} AlwaysCounted(c: seq<Instr>, own: seq<TypeId>, i: nat)
    requires NeverUnderflows(c) && i <= |c|
    ensures Counted(Before(c, own, i), InUse(c, i))
    ensures i < |c| ==> DestOf(c, own, i) == if Waits(c, i) then TempDest(Freed(c, i), |own|) else ResultReg
    decreases i
  {
    hide Waits, Tracks, NeverUnderflows, Freed, DestOf, Rising, Temps;
    if i > 0 {
      AlwaysCounted(c, own, i - 1);
      TempsRise(c, i - 1);
      CountedStep(c, own, i - 1);
    }
    if i < |c| {
      TempsRise(c, i);
      CountedStep(c, own, i);
    }
  }

  lemma CountedStep(c: seq<Instr>, own: seq<TypeId>, i: nat)
    requires i < |c| && Counted(Before(c, own, i), InUse(c, i)) && 0 <= InUse(c, i) && 0 <= Freed(c, i)
    ensures DestOf(c, own, i) == if Waits(c, i) then TempDest(Freed(c, i), |own|) else ResultReg
    ensures Counted(Before(c, own, i + 1), InUse(c, i + 1))
  {
    hide PushesToStack, Consumption, Waits;
    ReleaseCounted(Before(c, own, i), InUse(c, i), Consumption(c[i]) as int - 1);
  }

  /**
   * The pending values before instruction i have pairwise distinct destinations; the
   * result register holds at most the top one, pushed by the instruction just before and
   * consumed by the very next.
   */
  predicate HeldApart(c: seq<Instr>, own: seq<TypeId>, i: nat)
    requires i <= |c|
  {
    var s := Pending(c, i);
    && (forall a :: 0 <= a < |s| ==> s[a] < i)
    && (forall a, b :: 0 <= a < b < |s| ==> DestOf(c, own, s[a]) != DestOf(c, own, s[b]))
    && (forall a :: 0 <= a < |s| && DestOf(c, own, s[a]) == ResultReg ==>
          a == |s| - 1 && s[a] == i - 1 && (i < |c| ==> Consumption(c[i]) > 0))
  }

  /**
   * In code that never underflows the counters stay non-negative, and no instruction is
   * given the destination of a value that is still pending.
   */
  lemma NoneOverwritten(c: seq<Instr>, own: seq<TypeId>, i: nat)
    requires NeverUnderflows(c) && i <= |c|
    ensures var a := Before(c, own, i); 0 <= a.regs <= REGISTERS && 0 <= a.spills
    ensures HeldApart(c, own, i)
  {
    hide PushesToStack, Consumption, NeverUnderflows, DestOf, Freed, Temps, Pending, InUse;
    TempsRise(c, i);
    AlwaysCounted(c, own, i);
    var s := Pending(c, i);
    forall a | 0 <= a < |s|
      ensures s[a] < i && DestOf(c, own, s[a]) == if Waits(c, s[a]) then TempDest(Freed(c, s[a]), |own|) else ResultReg
    {
      AlwaysCounted(c, own, s[a]);
    }
  }

  // ----- The types of spill locals -----

  // The counters between the pops of instruction i and its own destination.
  function Between(c: seq<Instr>, own: seq<TypeId>, i: nat): Counters
    requires i < |c|
  {
    Release(Before(c, own, i), Consumption(c[i]) as int - 1)
  }

  lemma {:induction false} ReleaseLocals(a: Counters, times: int)
    ensures Release(a, times).locals == a.locals
    decreases times
  {
    if times > 0 {
      ReleaseLocals(if a.spills != 0 then a.(spills := a.spills - 1) else a.(regs := a.regs - 1), times - 1);
    }
  }

  // Instruction j is the first to be given the local k.
  predicate FirstSpill(c: seq<Instr>, own: seq<TypeId>, j: nat, k: int)
    requires j < |c|
  {
    DestOf(c, own, j) == Spill(k) && forall m :: 0 <= m < j ==> DestOf(c, own, m) != Spill(k)
  }

  // The locals beyond the function's own are exactly those that were spilled to.
  ghost predicate SlotsUsed(c: seq<Instr>, own: seq<TypeId>, i: nat)
    requires i <= |c|
  {
    var a := Before(c, own, i);
    && own <= a.locals && 0 <= a.spills <= |a.locals| - |own|
    && (forall j :: 0 <= j < i && DestOf(c, own, j).Spill? ==> |own| <= DestOf(c, own, j).local < |a.locals|)
    && (forall k :: |own| <= k < |a.locals| ==> SpilledTo(c, own, i, k))
  }

  ghost predicate SpilledTo(c: seq<Instr>, own: seq<TypeId>, i: nat, k: int)
    requires i <= |c|
  {
    exists j :: 0 <= j < i && DestOf(c, own, j) == Spill(k)
  }

  // Each has the type of the first value spilled there.
  ghost predicate SlotsTyped(c: seq<Instr>, own: seq<TypeId>, i: nat)
    requires i <= |c|
  {
    var a := Before(c, own, i);
    && SlotsUsed(c, own, i)
    && forall j, k :: 0 <= j < i && FirstSpill(c, own, j, k) ==> 0 <= k < |a.locals| && a.locals[k] == c[j].resultType
  }

  // What instruction i adds to the locals.
  lemma SlotAdded(c: seq<Instr>, own: seq<TypeId>, i: nat)
    requires i < |c| && SlotsUsed(c, own, i) && 0 <= Between(c, own, i).spills <= Before(c, own, i).spills
    ensures var a, b, d := Before(c, own, i).locals, Before(c, own, i + 1), DestOf(c, own, i);
            && 0 <= b.spills <= |b.locals| - |own|
            && (d.Spill? ==> |own| <= d.local <= |a|)
            && b.locals == if d == Spill(|a|) then a + [c[i].resultType] else a
  {
    hide PushesToStack, Consumption, Release, SpilledTo;
    ReleaseLocals(Before(c, own, i), Consumption(c[i]) as int - 1);
  }

  lemma SlotsStep(c: seq<Instr>, own: seq<TypeId>, i: nat)
    requires i < |c| && SlotsUsed(c, own, i) && 0 <= Between(c, own, i).spills <= Before(c, own, i).spills
    ensures SlotsUsed(c, own, i + 1)
  {
    hide DestOf, Between, SpilledTo, Before;
    SlotAdded(c, own, i);
    var n := i + 1;
    forall k | |own| <= k < |Before(c, own, n).locals|
      ensures SpilledTo(c, own, n, k)
    {
      StillSpilled(c, own, i, k);
    }
  }

  lemma StillSpilled(c: seq<Instr>, own: seq<TypeId>, i: nat, k: int)
    requires i < |c|
    ensures SpilledTo(c, own, i, k) || DestOf(c, own, i) == Spill(k) ==> SpilledTo(c, own, i + 1, k)
  {
    hide DestOf;
  }

  lemma TypesStep(c: seq<Instr>, own: seq<TypeId>, i: nat)
    requires i < |c| && SlotsTyped(c, own, i) && 0 <= Between(c, own, i).spills <= Before(c, own, i).spills
    ensures SlotsTyped(c, own, i + 1)
  {
    hide DestOf, Between, Before, SlotsUsed;
    SlotsStep(c, own, i);
    SlotAdded(c, own, i);
    var a, b := Before(c, own, i).locals, Before(c, own, i + 1).locals;
    forall j, k | 0 <= j < i + 1 && FirstSpill(c, own, j, k)
      ensures 0 <= k < |b| && b[k] == c[j].resultType
    {
      if j == i && k != |a| {
        NotFirst(c, own, i, k);
      }
    }
  }

  lemma NotFirst(c: seq<Instr>, own: seq<TypeId>, i: nat, k: int)
    requires i < |c| && SlotsUsed(c, own, i) && |own| <= k < |Before(c, own, i).locals|
    ensures !FirstSpill(c, own, i, k)
  {
    hide DestOf, Before;
    assert SpilledTo(c, own, i, k);
  }

  /**
   * A value is spilled to a local that exists, but the local keeps the type of the
   * first value spilled there, whatever the type of later ones.
   */
  lemma {:induction false} SpillTypes(c: seq<Instr>, own: seq<TypeId>, i: nat)
    requires NeverUnderflows(c) && i <= |c|
    ensures SlotsTyped(c, own, i)
    decreases i
  {
    hide NeverUnderflows, SlotsTyped, Before, Between;
    if i > 0 {
      SpillTypes(c, own, i - 1);
      SpillsReleased(c, own, i - 1);
      TypesStep(c, own, i - 1);
    } else {
      NoSlots(c, own);
    }
  }

  lemma SpillsReleased(c: seq<Instr>, own: seq<TypeId>, i: nat)
    requires NeverUnderflows(c) && i < |c|
    ensures 0 <= Between(c, own, i).spills <= Before(c, own, i).spills
  {
    hide PushesToStack, Consumption, InUse, Before, Tracks, Rising, Release, Counted, Temps, Pending, NeverUnderflows;
    AlwaysCounted(c, own, i);
    TempsRise(c, i);
    ReleaseFewer(Before(c, own, i), InUse(c, i), Consumption(c[i]) as int - 1);
  }

  lemma NoSlots(c: seq<Instr>, own: seq<TypeId>)
    ensures SlotsTyped(c, own, 0)
  {
  }

  lemma {:induction false} ReleaseFewer(a: Counters, u: int, times: int)
    requires Counted(a, u) && (times <= 0 || 0 <= u - times)
    ensures 0 <= Release(a, times).spills <= a.spills
    decreases times
  {
    if times > 0 {
      ReleaseFewer(if a.spills != 0 then a.(spills := a.spills - 1) else a.(regs := a.regs - 1), u - 1, times - 1);
    }
  }

  // ----- What the generator really pushes -----

  predicate IsShift(op: Op) {
    op.Shr? || op.Shl?
  }

  // What the case for an instruction pushes in the end: nothing, an operand made of the
  // instruction's destination, or its own top operand again.
  datatype Pushing = Nothing | Destination | Top

  function Pushes(i: Instr): Pushing {
    match i.op
    case Asm | MakeLabel | Noop | Return => Nothing
    case Jmp | JmpEq | JmpNeq | JmpLt | JmpLtEq | JmpGt | JmpGtEq => Nothing
    case CmpGt | CmpLt | CmpLtEq | CmpGtEq | CmpEq | CmpNeq => Destination
    case Call => if i.resultType == VoidType then Nothing else Destination
    case Index | Deref | LoadAddr => Destination
    case Load | LoadPtr | StoreOp | Copy => Nothing
    case Add | Sub | Mul | Div | And | Or => Destination
    case Shr | Shl => Nothing
    case Neg | Cast => Destination
    case StackDup => Top
  }

  /** The generator pushes for exactly the instructions that are counted as pushing, except shifts. */
  lemma PushesAgree(i: Instr)
    ensures PushesToStack(i) <==> Pushes(i) != Nothing || IsShift(i.op)
    ensures IsShift(i.op) ==> Pushes(i) == Nothing
    ensures Pushes(i) == Top <==> i.op.StackDup?
  {
  }

  // Its own operand stack before instruction i. None when it pops from an empty stack.
  function GenStack(c: seq<Instr>, own: seq<TypeId>, i: nat): Option<seq<Dest>>
    requires i <= |c|
  {
    if i == 0 then Some([])
    else
      match GenStack(c, own, i - 1)
      case None => None
      case Some(s) =>
        var n := Consumption(c[i - 1]);
        if n > |s| then None
        else GenPush(c[i - 1], DestOf(c, own, i - 1), s[..|s| - n])
  }

  function GenPush(i: Instr, d: Dest, s: seq<Dest>): Option<seq<Dest>> {
    match Pushes(i)
    case Nothing => Some(s)
    case Destination => Some(s + [d])
    case Top => if s == [] then None else Some(s + [s[|s| - 1]])
  }

  function Dests(c: seq<Instr>, own: seq<TypeId>, s: seq<nat>): seq<Dest>
    requires forall a :: 0 <= a < |s| ==> s[a] < |c|
  {
    seq(|s|, a requires 0 <= a < |s| => DestOf(c, own, s[a]))
  }

  predicate HasShift(c: seq<Instr>, n: nat) {
    exists k :: 0 <= k < n && k < |c| && IsShift(c[k].op)
  }

  predicate HasDup(c: seq<Instr>, n: nat) {
    exists k :: 0 <= k < n && k < |c| && c[k].op.StackDup?
  }

  // A duplication has something to duplicate.
  predicate DupsFilled(c: seq<Instr>) {
    forall i :: 0 <= i < |c| && c[i].op.StackDup? ==> Consumption(c[i]) < |Pending(c, i)|
  }

  lemma {:induction false} PendingBelow(c: seq<Instr>, i: nat)
    requires i <= |c|
    ensures forall a :: 0 <= a < |Pending(c, i)| ==> Pending(c, i)[a] < i
    decreases i
  {
    hide PushesToStack, Consumption;
    if i > 0 {
      PendingBelow(c, i - 1);
    }
  }

  // Both stacks are equally high before instruction i.
  predicate SameHeight(c: seq<Instr>, own: seq<TypeId>, i: nat)
    requires i <= |c|
  {
    GenStack(c, own, i).Some? && |GenStack(c, own, i).value| == |Pending(c, i)|
  }

  lemma GenNext(c: seq<Instr>, own: seq<TypeId>, i: nat)
    requires i < |c| && GenStack(c, own, i).Some? && Consumption(c[i]) <= |GenStack(c, own, i).value|
    ensures var s := GenStack(c, own, i).value;
            GenStack(c, own, i + 1) == GenPush(c[i], DestOf(c, own, i), s[..|s| - Consumption(c[i])])
  {
    hide Consumption, DestOf, GenPush;
  }

  lemma HeightStep(c: seq<Instr>, own: seq<TypeId>, i: nat)
    requires i < |c| && SameHeight(c, own, i) && Consumption(c[i]) <= |Pending(c, i)| && !IsShift(c[i].op)
    requires c[i].op.StackDup? ==> Consumption(c[i]) < |Pending(c, i)|
    ensures SameHeight(c, own, i + 1)
  {
    hide Consumption, DestOf, Pending, GenStack, Pushes, PushesToStack;
    PendingNext(c, i);
    GenNext(c, own, i);
    PushesAgree(c[i]);
  }

  lemma {:induction false} GenHeight(c: seq<Instr>, own: seq<TypeId>, i: nat)
    requires NeverUnderflows(c) && DupsFilled(c) && i <= |c| && !HasShift(c, i)
    ensures SameHeight(c, own, i)
    decreases i
  {
    hide Consumption, DestOf, SameHeight, Pending;
    if i > 0 {
      GenHeight(c, own, i - 1);
      HeightStep(c, own, i - 1);
    } else {
      BothEmpty(c, own);
    }
  }

  lemma BothEmpty(c: seq<Instr>, own: seq<TypeId>)
    ensures Pending(c, 0) == [] && GenStack(c, own, 0) == Some([]) && Dests(c, own, []) == []
    ensures SameHeight(c, own, 0)
  {
  }

  // Before anything is shifted or duplicated, the generator's stack holds the
  // destinations of the pending values.
  lemma {:induction false} GenTracks(c: seq<Instr>, own: seq<TypeId>, i: nat)
    requires NeverUnderflows(c) && i <= |c| && !HasShift(c, i) && !HasDup(c, i)
    ensures forall a :: 0 <= a < |Pending(c, i)| ==> Pending(c, i)[a] < i
    ensures GenStack(c, own, i) == Some(Dests(c, own, Pending(c, i)))
    decreases i
  {
    hide PushesToStack, Consumption, DestOf, Pending, GenStack, GenPush;
    PendingBelow(c, i);
    if i > 0 {
      GenTracks(c, own, i - 1);
      GenNext(c, own, i - 1);
      PendingNext(c, i - 1);
      var s, n := Pending(c, i - 1), Consumption(c[i - 1]);
      assert !IsShift(c[i - 1].op) && !c[i - 1].op.StackDup?;
      DestsStep(c, own, s, n, i - 1);
      PlainPush(c[i - 1], DestOf(c, own, i - 1), Dests(c, own, s)[..|s| - n]);
    } else {
      BothEmpty(c, own);
    }
  }

  lemma PlainPush(i: Instr, d: Dest, s: seq<Dest>)
    requires !IsShift(i.op) && !i.op.StackDup?
    ensures GenPush(i, d, s) == Some(s + (if PushesToStack(i) then [d] else []))
  {
    hide Pushes, PushesToStack;
    PushesAgree(i);
    assert s + [] == s;
  }

  lemma DestsStep(c: seq<Instr>, own: seq<TypeId>, s: seq<nat>, n: nat, i: nat)
    requires n <= |s| && i < |c| && forall a :: 0 <= a < |s| ==> s[a] < |c|
    ensures Dests(c, own, s)[..|s| - n] == Dests(c, own, s[..|s| - n])
    ensures Dests(c, own, s[..|s| - n]) + [DestOf(c, own, i)] == Dests(c, own, s[..|s| - n] + [i])
    ensures Dests(c, own, s[..|s| - n]) + [] == Dests(c, own, s[..|s| - n] + [])
  {
    hide DestOf;
    var left := s[..|s| - n];
    assert left + [] == left && Dests(c, own, left) + [] == Dests(c, own, left);
    assert Dests(c, own, s)[..|s| - n] == Dests(c, own, left);
    assert Dests(c, own, left) + [DestOf(c, own, i)] == Dests(c, own, left + [i]);
  }

  predicate Distinct<T(==)>(s: seq<T>) {
    forall a, b :: 0 <= a < b < |s| ==> s[a] != s[b]
  }

  // The generator keeps the values on its stack apart before every instruction.
  predicate KeptApart(c: seq<Instr>, own: seq<TypeId>) {
    forall i :: 0 <= i <= |c| ==> GenStack(c, own, i).Some? && Distinct(GenStack(c, own, i).value)
  }

  /** Without shifts, the operands the generator works with are kept apart iff nothing is duplicated. */
  lemma KeptApartExact(c: seq<Instr>, own: seq<TypeId>)
    requires NeverUnderflows(c) && DupsFilled(c) && !HasShift(c, |c|)
    ensures KeptApart(c, own) <==> !HasDup(c, |c|)
  {
    hide PushesToStack, Consumption, DestOf, NeverUnderflows, DupsFilled, Pending;
    if HasDup(c, |c|) {
      var k :| 0 <= k < |c| && c[k].op.StackDup?;
      DupAliases(c, own, k);
    } else {
      forall i | 0 <= i <= |c|
        ensures GenStack(c, own, i).Some? && Distinct(GenStack(c, own, i).value)
      {
        GenTracks(c, own, i);
        NoneOverwritten(c, own, i);
      }
    }
  }

  lemma DupAliases(c: seq<Instr>, own: seq<TypeId>, k: nat)
    requires NeverUnderflows(c) && DupsFilled(c) && !HasShift(c, |c|) && k < |c| && c[k].op.StackDup?
    ensures GenStack(c, own, k + 1).Some? && !Distinct(GenStack(c, own, k + 1).value)
  {
    hide Consumption, DestOf, Pending, GenStack, PushesToStack, NeverUnderflows;
    GenHeight(c, own, k);
    GenNext(c, own, k);
    DupPushes(c[k], DestOf(c, own, k), GenStack(c, own, k).value[..|GenStack(c, own, k).value| - Consumption(c[k])]);
  }

  lemma DupPushes(i: Instr, d: Dest, s: seq<Dest>)
    requires i.op.StackDup? && s != []
    ensures GenPush(i, d, s).Some? && !Distinct(GenPush(i, d, s).value)
  {
    var t := GenPush(i, d, s).value;
    assert t[|t| - 2] == t[|t| - 1];
  }

  /**
   * The generator's stack is as high as the program's before every instruction exactly
   * when the code has no shift: the result of a shift is never pushed.
   */
  lemma HeightExact(c: seq<Instr>, own: seq<TypeId>)
    requires NeverUnderflows(c) && DupsFilled(c)
    ensures (forall i :: 0 <= i <= |c| ==> SameHeight(c, own, i))
       <==> !HasShift(c, |c|)
  {
    hide PushesToStack, Consumption, DestOf, NeverUnderflows, DupsFilled, SameHeight;
    if HasShift(c, |c|) {
      var k :| 0 <= k < |c| && IsShift(c[k].op);
      if SameHeight(c, own, k) {
        ShiftLost(c, own, k);
      }
    } else {
      forall i | 0 <= i <= |c|
        ensures SameHeight(c, own, i)
      {
        GenHeight(c, own, i);
      }
    }
  }

  lemma ShiftLost(c: seq<Instr>, own: seq<TypeId>, k: nat)
    requires NeverUnderflows(c) && k < |c| && IsShift(c[k].op) && SameHeight(c, own, k)
    ensures !SameHeight(c, own, k + 1)
  {
    hide Consumption, DestOf;
  }

  // ----- The peephole pass and the allocation -----

  lemma {:induction false} SameBefore(c: seq<Instr>, own: seq<TypeId>, i: nat)
    requires i <= |c|
    ensures Before(Optimized(c), own, i) == Before(c, own, i)
    ensures Pending(Optimized(c), i) == Pending(c, i)
    decreases i
  {
    hide PushesToStack, Consumption, Optimized;
    ProfileKept(c);
    if i > 0 {
      SameBefore(c, own, i - 1);
    }
  }

  /** Destinations and pending values are the same before and after the peephole pass. */
  lemma OptimizedAllocation(c: seq<Instr>, own: seq<TypeId>, i: nat)
    requires i < |c|
    ensures DestOf(Optimized(c), own, i) == DestOf(c, own, i)
    ensures Pending(Optimized(c), i) == Pending(c, i)
  {
    hide PushesToStack, Consumption, Optimized, Before;
    ProfileKept(c);
    SameBefore(c, own, i);
  }
}
