// The peephole pass over the instructions of a function: an instruction that computes
// again what already lies on top of the stack becomes a duplication of the top.

module Optimizer {
  import opened Ir
  import opened Machine

  predicate CanBeReplaced(i: Instr) {
    PushesToStack(i) && Consumption(i) == 0 && !HasSideEffect(i)
  }

  function Duplicate(i: Instr): Instr {
    Instr(StackDup, i.resultType, [])
  }

  function StackEffect(i: Instr): nat {
    Consumption(i) + (if PushesToStack(i) then 1 else 0)
  }

  // The last instruction before j that pops or pushes, or -1.
  function Touch(c: seq<Instr>, j: nat): (k: int)
    requires j <= |c|
    ensures -1 <= k < j
    ensures k >= 0 ==> StackEffect(c[k]) != 0
    ensures forall m :: k < m < j ==> StackEffect(c[m]) == 0
  {
    if j == 0 then -1 else if StackEffect(c[j - 1]) != 0 then j - 1 else Touch(c, j - 1)
  }

  // Instruction j computes again what the last stack operation before it computed.
  predicate Repeats(c: seq<Instr>, j: nat)
    requires j < |c|
  {
    Touch(c, j) >= 0 && ContentsEqual(c[Touch(c, j)], c[j]) && CanBeReplaced(c[j])
  }

  /**
   * An instruction is rewritten exactly when an equal one stands before it with nothing in
   * between that pops or pushes, and it pushes, pops nothing, is neither a call nor a
   * duplication, and names no field of a field.
   */
  lemma RepeatsExact(c: seq<Instr>, j: nat)
    requires j < |c|
    ensures Repeats(c, j) <==>
              && (exists k :: 0 <= k < j && c[k] == c[j] && forall m :: k < m < j ==> StackEffect(c[m]) == 0)
              && PushesToStack(c[j]) && Consumption(c[j]) == 0 && !c[j].op.Call? && !c[j].op.StackDup?
              && forall o :: o in c[j].operands && o.RefOp? && o.ref.Field? ==> !o.ref.base.Field?
  {
    hide PushesToStack, Consumption;
    if k :| 0 <= k < j && c[k] == c[j] && forall m :: k < m < j ==> StackEffect(c[m]) == 0 {
      if PushesToStack(c[j]) {
        assert Touch(c, j) == k;
      }
    }
    if Repeats(c, j) {
      var k := Touch(c, j);
      assert c[k] == c[j] && forall m :: k < m < j ==> StackEffect(c[m]) == 0;
    }
  }

  /** What the pass leaves of a function. */
  function Optimized(c: seq<Instr>): (d: seq<Instr>)
    ensures |d| == |c|
  {
    seq(|c|, j requires 0 <= j < |c| => if Repeats(c, j) then Duplicate(c[j]) else c[j])
  }

  // ----- The pass in place -----

  // The first instruction of a row of repetitions.
  function Origin(c: seq<Instr>, j: nat): (i: nat)
    requires j < |c|
    ensures i <= j && c[i] == c[j] && !Repeats(c, i)
    ensures i < j <==> Repeats(c, j)
    decreases j
  {
    if Repeats(c, j) then Origin(c, Touch(c, j)) else j
  }

  // Between an instruction and its repetition only other repetitions touch the stack.
  lemma {:induction false} OriginBetween(c: seq<Instr>, j: nat, m: nat)
    requires j < |c| && Origin(c, j) < m < j && StackEffect(c[m]) != 0
    ensures Origin(c, m) == Origin(c, j)
    decreases j
  {
    var k := Touch(c, j);
    if m < k {
      OriginBetween(c, k, m);
    }
  }

  // Instruction k has been rewritten once rows starting before i are done, and the row
  // starting at i up to j.
  predicate Rewritten(c: seq<Instr>, k: nat, i: nat, j: nat)
    requires k < |c|
  {
    Repeats(c, k) && (Origin(c, k) < i || (Origin(c, k) == i && k < j))
  }

  predicate DoneUpTo(c: seq<Instr>, a: seq<Instr>, i: nat, j: nat) {
    |a| == |c| && forall k :: 0 <= k < |c| ==> a[k] == if Rewritten(c, k, i, j) then Duplicate(c[k]) else c[k]
  }

  // Nothing before j ends the row that starts at i.
  predicate RowOpen(c: seq<Instr>, i: nat, j: nat) {
    forall m :: i < m < j && m < |c| ==> StackEffect(c[m]) == 0 || Origin(c, m) == i
  }

  lemma DuplicateEffect(i: Instr)
    ensures CanBeReplaced(i) ==> StackEffect(Duplicate(i)) == StackEffect(i) == 1
    ensures StackEffect(Duplicate(i)) == 1 && !CanBeReplaced(Duplicate(i))
  {
  }

  // The scan rewrites exactly the members of the row.
  lemma ScanExact(c: seq<Instr>, a: seq<Instr>, i: nat, j: nat)
    requires i < j < |c| && DoneUpTo(c, a, i, j) && RowOpen(c, i, j)
    ensures ContentsEqual(a[i], a[j]) && CanBeReplaced(a[j]) <==> Repeats(c, j) && Origin(c, j) == i
    ensures StackEffect(a[j]) == StackEffect(c[j])
  {
    hide PushesToStack, Consumption, Duplicate, CanBeReplaced;
    DuplicateEffect(c[i]);
    DuplicateEffect(c[j]);
    if ContentsEqual(a[i], a[j]) && CanBeReplaced(a[j]) {
      assert a[i] == c[i] && a[j] == c[j];
      RowMember(c, i, j);
    }
  }

  // In an open row, a further copy of its first instruction is a member.
  lemma RowMember(c: seq<Instr>, i: nat, j: nat)
    requires i < j < |c| && RowOpen(c, i, j) && ContentsEqual(c[i], c[j]) && CanBeReplaced(c[j])
    requires !Repeats(c, i)
    ensures Repeats(c, j) && Origin(c, j) == i
  {
    hide PushesToStack, Consumption;
    assert StackEffect(c[i]) != 0 by {
      DuplicateEffect(c[j]);
    }
    assert Touch(c, j) >= i;
  }

  // A row that was closed has no members further on.
  lemma RowClosed(c: seq<Instr>, i: nat, m: nat, k: nat)
    requires i < m < k < |c| && StackEffect(c[m]) != 0 && Origin(c, m) != i
    ensures Origin(c, k) != i
  {
    if Origin(c, k) == i {
      OriginBetween(c, k, m);
    }
  }

  // One step of the scan: the row stays open, or instruction j closes it.
  lemma ScanStep(c: seq<Instr>, a: seq<Instr>, i: nat, j: nat)
    requires i < j < |c| && DoneUpTo(c, a, i, j) && RowOpen(c, i, j)
    ensures if ContentsEqual(a[i], a[j]) && CanBeReplaced(a[j])
            then DoneUpTo(c, a[j := Duplicate(a[j])], i, j + 1) && RowOpen(c, i, j + 1)
            else DoneUpTo(c, a, i, j + 1)
                 && (if StackEffect(a[j]) == 0 then RowOpen(c, i, j + 1) else StackEffect(c[j]) != 0 && Origin(c, j) != i)
  {
    hide StackEffect, CanBeReplaced, ContentsEqual, Duplicate, Origin, Repeats;
    ScanExact(c, a, i, j);
  }

  // A closed row is done for good.
  lemma RowDone(c: seq<Instr>, a: seq<Instr>, i: nat, j: nat, closed: nat)
    requires i < j <= |c| && DoneUpTo(c, a, i, j)
    requires j == |c| || (i < closed < j && StackEffect(c[closed]) != 0 && Origin(c, closed) != i)
    ensures DoneUpTo(c, a, i + 1, i + 1)
  {
    hide StackEffect, Duplicate, Repeats, Origin;
    forall k | 0 <= k < |c|
      ensures Rewritten(c, k, i, j) == Rewritten(c, k, i + 1, i + 1)
    {
      if j <= k {
        RowClosed(c, i, closed, k);
      }
    }
  }

  lemma ScanStart(c: seq<Instr>, a: seq<Instr>, i: nat)
    requires DoneUpTo(c, a, i, i) && i < |c|
    ensures DoneUpTo(c, a, i, i + 1) && RowOpen(c, i, i + 1)
  {
  }

  method ReplaceDuplicates(instrs: array<Instr>)
    modifies instrs
    ensures instrs[..] == Optimized(old(instrs[..]))
  {
    hide StackEffect, CanBeReplaced, ContentsEqual, Duplicate, Origin, Repeats, RowOpen, DoneUpTo;
    ghost var c := instrs[..];
    AllUndone(c);
    var i := 0;
    while i < instrs.Length
      invariant 0 <= i <= instrs.Length
      invariant DoneUpTo(c, instrs[..], i, i)
    {
      var stackEffect := 0;
      var j := i + 1;
      ghost var closed := i;
      ScanStart(c, instrs[..], i);
      while j < instrs.Length
        invariant i < j <= instrs.Length
        invariant DoneUpTo(c, instrs[..], i, j)
        invariant if stackEffect == 0 then RowOpen(c, i, j)
                  else i < closed < j && StackEffect(c[closed]) != 0 && Origin(c, closed) != i
      {
        if stackEffect != 0 {
          break;
        }
        ghost var a := instrs[..];
        ScanStep(c, a, i, j);
        if ContentsEqual(instrs[i], instrs[j]) && CanBeReplaced(instrs[j]) {
          instrs[j] := Duplicate(instrs[j]);
          assert instrs[..] == a[j := Duplicate(a[j])];
        } else {
          stackEffect := stackEffect + StackEffect(instrs[j]);
          closed := j;
        }
        j := j + 1;
      }
      RowDone(c, instrs[..], i, j, closed);
      i := i + 1;
    }
    AllDone(c, instrs[..]);
  }

  lemma AllUndone(c: seq<Instr>)
    ensures DoneUpTo(c, c, 0, 0)
  {
  }

  lemma AllDone(c: seq<Instr>, a: seq<Instr>)
    requires DoneUpTo(c, a, |c|, |c|)
    ensures a == Optimized(c)
  {
  }

  /**
   * Without any condition, the pass keeps the number and the places of the
   * instructions, their result types, and what each of them pops and pushes.
   */
  lemma ProfileKept(c: seq<Instr>)
    ensures |Optimized(c)| == |c|
    ensures forall j :: 0 <= j < |c| ==>
              && Optimized(c)[j].resultType == c[j].resultType
              && Consumption(Optimized(c)[j]) == Consumption(c[j])
              && PushesToStack(Optimized(c)[j]) == PushesToStack(c[j])
  {
    hide Repeats, PushesToStack, Consumption;
    forall j | 0 <= j < |c|
      ensures Optimized(c)[j].resultType == c[j].resultType
      ensures Consumption(Optimized(c)[j]) == Consumption(c[j]) && PushesToStack(Optimized(c)[j]) == PushesToStack(c[j])
    {
      if Repeats(c, j) {
        DuplicateProfile(c, j);
      }
    }
  }

  lemma DuplicateProfile(c: seq<Instr>, j: nat)
    requires j < |c| && Repeats(c, j)
    ensures Consumption(Duplicate(c[j])) == Consumption(c[j]) && PushesToStack(Duplicate(c[j])) == PushesToStack(c[j])
  {
  }

  // ----- Meaning -----

  // The value an instruction without stack operands pushes, if it runs at all.
  function Value(i: Instr, env: Env, st: Store): Option<int> {
    var t := Step(Program([i], env), Running(0, st, Empty));
    if t.Running? && t.stack.Push? then Some(t.stack.top) else None
  }

  // The value of an instruction depends on an operand, unless it compares it with itself or
  // takes its address.
  predicate DependsOn(i: Instr, o: Operand) {
    o in i.operands && !i.op.LoadAddr? && !(IsCompare(i.op) && |i.operands| == 2 && i.operands[0] == i.operands[1])
  }

  // An instruction after which the value of computed may no longer be the one on top:
  // a label, where control may come from elsewhere, or a write to a place it reads.
  predicate Disturbs(i: Instr, computed: Instr) {
    match i.op
    case MakeLabel | LoadPtr | Copy | StoreOp | Asm | Call => true
    case Load => |i.operands| > 0 && (DependsOn(computed, i.operands[0]) || ReadsMemory(computed.op))
    case _ => false
  }

  predicate Undisturbed(c: seq<Instr>, j: nat)
    requires j < |c|
  {
    forall k :: Touch(c, j) < k < j ==> !Disturbs(c[k], c[j])
  }

  /** Nothing disturbs a rewritten instruction since the one it repeats. */
  predicate Guarded(c: seq<Instr>) {
    forall j :: 0 <= j < |c| && Repeats(c, j) ==> Undisturbed(c, j)
  }

  // Every repetition control is on its way to will find its value on top of the stack.
  ghost predicate OnTop(c: seq<Instr>, env: Env, s: State)
    requires s.Running?
  {
    forall j :: 0 <= s.pc <= j < |c| && Repeats(c, j) && Touch(c, j) < s.pc ==>
      s.stack.Push? && Value(c[j], env, s.store) == Some(s.stack.top)
  }

  lemma FetchPlain(o: Operand, st: Store, stk: Stack)
    requires OperandConsumption(o) == 0
    ensures Fetch(o, st, stk) == match Fetch(o, st, Empty) case Missing => Missing case Got(v, _) => Got(v, stk)
  {
  }

  lemma PeekPlain(o: Operand, st: Store, stk: Stack)
    requires OperandConsumption(o) == 0
    ensures Peek(o, st, stk) == match Peek(o, st, Empty) case Missing => Missing case Got(v, _) => Got(v, stk)
  {
    if o.RefOp? {
      RefTakes(o);
    }
  }

  lemma {:induction false} PeekAllPlain(os: seq<Operand>, st: Store, stk: Stack)
    requires OperandsConsumption(os) == 0
    ensures PeekAll(os, st, stk) == match PeekAll(os, st, Empty) case Missing => Missing case Got(vs, _) => Got(vs, stk)
    decreases |os|
  {
    hide Peek;
    if os != [] {
      PeekAllPlain(os[1..], st, stk);
      PeekPlain(os[0], st, stk);
      PeekAllPlain(os[1..], st, Empty);
    }
  }

  lemma PlainOperands(os: seq<Operand>)
    requires OperandsConsumption(os) == 0 && 0 < |os| <= 3
    ensures forall k :: 0 <= k < |os| ==> OperandConsumption(os[k]) == 0
  {
    assert OperandsConsumption(os[1..]) == 0;
    if |os| > 1 {
      assert OperandsConsumption(os[1..][1..]) == 0;
    }
  }

  // A replaceable instruction pushes its value, or the machine stops.
  lemma ValueStep(p: Program, s: State)
    requires CanStep(p, s) && CanBeReplaced(p.code[s.pc])
    ensures match Value(p.code[s.pc], p.env, s.store)
            case Some(v) => Step(p, s) == Running(s.pc + 1, s.store, Push(v, s.stack))
            case None => !Step(p, s).Running?
  {
    hide Peek, PeekAll;
    var os := p.code[s.pc].operands;
    PeekAllPlain(os, s.store, s.stack);
    PeekAllPlain(os, NOTHING, s.stack);
    if 0 < |os| <= 3 {
      PlainOperands(os);
      forall k | 0 <= k < |os| {
        FetchPlain(os[k], s.store, s.stack);
      }
    }
  }

  // A value compared with itself is the same whatever it is.
  lemma SelfCompared(i: Instr, env: Env, st: Store, d: Ref, v: int)
    requires CanBeReplaced(i) && IsCompare(i.op) && |i.operands| == 2 && i.operands[0] == i.operands[1]
    ensures Value(i, env, Set(st, d, v)) == Value(i, env, st)
  {
    PlainOperands(i.operands);
    FetchPlain(i.operands[0], st, Empty);
    FetchPlain(i.operands[0], Set(st, d, v), Empty);
  }

  // Its value depends on such operands only.
  lemma ValueFrame(i: Instr, env: Env, st: Store, d: Ref, v: int)
    requires CanBeReplaced(i) && !DependsOn(i, RefOp(d)) && !ReadsMemory(i.op)
    ensures Value(i, env, Set(st, d, v)) == Value(i, env, st)
  {
    if i.op.LoadAddr? {
    } else if RefOp(d) in i.operands {
      SelfCompared(i, env, st, d, v);
    } else {
      OperandsFrame(i, env, st, d, v);
    }
  }

  lemma OperandsFrame(i: Instr, env: Env, st: Store, d: Ref, v: int)
    requires CanBeReplaced(i) && RefOp(d) !in i.operands && !ReadsMemory(i.op)
    ensures Value(i, env, Set(st, d, v)) == Value(i, env, st)
  {
    hide Fetch, Peek, PeekAll, OperandsConsumption;
    var os := i.operands;
    PeekAllFrame(os, st, d, v);
    forall k | 0 <= k < |os|
      ensures Fetch(os[k], Set(st, d, v), Empty) == Fetch(os[k], st, Empty)
    {
      assert os[k] in os;
      FetchFrame(os[k], st, d, v);
    }
    if 0 < |os| <= 3 {
      PlainOperands(os);
      forall k | 0 <= k < |os|
        ensures var f := Fetch(os[k], st, Empty); f.Got? ==> f.stack == Empty
      {
        FetchPlain(os[k], st, Empty);
      }
    }
  }

  lemma {:induction false} PeekAllFrame(os: seq<Operand>, st: Store, d: Ref, v: int)
    requires RefOp(d) !in os
    ensures PeekAll(os, Set(st, d, v), Empty) == PeekAll(os, st, Empty)
    decreases |os|
  {
    if os != [] {
      assert os[0] in os && (forall o | o in os[1..] :: o in os);
      PeekAllFrame(os[1..], st, d, v);
    }
  }

  lemma FetchFrame(o: Operand, st: Store, d: Ref, v: int)
    requires o != RefOp(d)
    ensures Fetch(o, Set(st, d, v), Empty) == Fetch(o, st, Empty)
  {
  }

  // An instruction that neither pops nor pushes leaves the stack alone, and the value
  // of an instruction it does not disturb.
  lemma NeutralStep(p: Program, s: State, computed: Instr)
    requires CanStep(p, s) && StackEffect(p.code[s.pc]) == 0
    requires CanBeReplaced(computed) && !Disturbs(p.code[s.pc], computed)
    ensures var t := Step(p, s);
            t.Running? ==> t.stack == s.stack && Value(computed, p.env, t.store) == Value(computed, p.env, s.store)
  {
    hide Value;
    var i := p.code[s.pc];
    var os := i.operands;
    if 0 < |os| <= 3 {
      PlainOperands(os);
      forall k | 0 <= k < |os| {
        FetchPlain(os[k], s.store, s.stack);
      }
    }
    if 0 < |os| <= 3 && os[0].RefOp? {
      RefTakes(os[0]);
    }
    if i.op.Load? && Step(p, s).Running? {
      ValueFrame(computed, p.env, s.store, os[0].ref, Read(Step(p, s).store, os[0].ref));
    }
  }

  // Control goes to the next instruction or to a label.
  lemma StepLands(p: Program, s: State)
    requires CanStep(p, s) && Step(p, s).Running?
    ensures var t := Step(p, s);
            t.pc == s.pc + 1 || (0 <= t.pc < |p.code| && p.code[t.pc].op.MakeLabel?)
  {
  }

  lemma {:induction false} LabelsKept(c: seq<Instr>, d: seq<Instr>, l: Label)
    requires |c| == |d|
    requires forall k :: 0 <= k < |c| ==> c[k] == d[k] || (!c[k].op.MakeLabel? && !d[k].op.MakeLabel?)
    ensures LabelIndex(c, l) == LabelIndex(d, l)
    decreases |c|
  {
    if |c| > 0 {
      LabelsKept(c[..|c| - 1], d[..|d| - 1], l);
    }
  }

  lemma TargetsKept(c: seq<Instr>, l: Label)
    ensures LabelIndex(Optimized(c), l) == LabelIndex(c, l)
  {
    LabelsKept(c, Optimized(c), l);
  }

  // The same instruction does the same in both programs.
  lemma SameStep(p: Program, q: Program, s: State)
    requires CanStep(p, s) && |p.code| == |q.code| && p.env == q.env && p.code[s.pc] == q.code[s.pc]
    requires forall l :: LabelIndex(p.code, l) == LabelIndex(q.code, l)
    ensures Step(p, s) == Step(q, s)
  {
  }

  lemma StepKept(c: seq<Instr>, env: Env, s: State)
    requires CanStep(Program(c, env), s) && OnTop(c, env, s)
    ensures Step(Program(Optimized(c), env), s) == Step(Program(c, env), s)
  {
    hide Value, LabelIndex;
    var p, q := Program(c, env), Program(Optimized(c), env);
    if Repeats(c, s.pc) {
      ValueStep(p, s);
    } else {
      forall l ensures LabelIndex(p.code, l) == LabelIndex(q.code, l) {
        TargetsKept(c, l);
      }
      SameStep(p, q, s);
    }
  }

  // At a label no repetition is under way.
  lemma OnTopAtLabel(c: seq<Instr>, env: Env, t: State)
    requires Guarded(c) && t.Running? && 0 <= t.pc < |c| && c[t.pc].op.MakeLabel?
    ensures OnTop(c, env, t)
  {
    forall j | t.pc <= j < |c| && Repeats(c, j)
      ensures Touch(c, j) >= t.pc
    {
      assert Undisturbed(c, j);
    }
  }

  lemma OnTopNext(c: seq<Instr>, env: Env, s: State, j: nat)
    requires Guarded(c) && CanStep(Program(c, env), s) && OnTop(c, env, s)
    requires Step(Program(c, env), s).Running? && s.pc < j < |c| && Repeats(c, j) && Touch(c, j) <= s.pc
    ensures var t := Step(Program(c, env), s);
            t.stack.Push? && Value(c[j], env, t.store) == Some(t.stack.top)
  {
    hide Value;
    var p := Program(c, env);
    if Touch(c, j) == s.pc {
      ValueStep(p, s);
    } else {
      assert Undisturbed(c, j);
      NeutralStep(p, s, c[j]);
    }
  }

  lemma OnTopKept(c: seq<Instr>, env: Env, s: State)
    requires Guarded(c) && CanStep(Program(c, env), s) && OnTop(c, env, s)
    ensures var t := Step(Program(c, env), s); t.Running? ==> OnTop(c, env, t)
  {
    hide Value, Step;
    var t := Step(Program(c, env), s);
    if t.Running? {
      StepLands(Program(c, env), s);
      if t.pc != s.pc + 1 {
        OnTopAtLabel(c, env, t);
      } else {
        forall j | t.pc <= j < |c| && Repeats(c, j) && Touch(c, j) < t.pc
          ensures t.stack.Push? && Value(c[j], env, t.store) == Some(t.stack.top)
        {
          OnTopNext(c, env, s, j);
        }
      }
    }
  }

  lemma {:induction false} RunKept(c: seq<Instr>, env: Env, s: State, n: nat)
    requires Guarded(c) && (s.Running? ==> OnTop(c, env, s))
    ensures Run(Program(Optimized(c), env), s, n) == Run(Program(c, env), s, n)
    decreases n
  {
    hide OnTop, Step;
    if n > 0 && CanStep(Program(c, env), s) {
      StepKept(c, env, s);
      OnTopKept(c, env, s);
      RunKept(c, env, Step(Program(c, env), s), n - 1);
    }
  }

  /**
   * The pass changes no execution of a guarded function: from its first instruction,
   * with any store and stack, both versions are in the same state after any number of steps.
   */
  lemma OptimizedRuns(c: seq<Instr>, env: Env, st: Store, stk: Stack, n: nat)
    requires Guarded(c)
    ensures Run(Program(Optimized(c), env), Running(0, st, stk), n) == Run(Program(c, env), Running(0, st, stk), n)
  {
    hide Step;
    RunKept(c, env, Running(0, st, stk), n);
  }

  // ----- Code in which every pushed value meets a stack operation at once -----

  predicate Tight(c: seq<Instr>) {
    forall k :: 0 <= k < |c| - 1 && PushesToStack(c[k]) ==> StackEffect(c[k + 1]) != 0
  }

  /** In such code only neighbours are rewritten, and it is guarded. */
  lemma TightGuarded(c: seq<Instr>)
    requires Tight(c)
    ensures Guarded(c)
    ensures forall j :: 0 <= j < |c| && Repeats(c, j) ==> j > 0 && c[j - 1] == c[j]
  {
    forall j | 0 <= j < |c| && Repeats(c, j)
      ensures Touch(c, j) == j - 1
    {
      var k := Touch(c, j);
      assert PushesToStack(c[k]);
      assert StackEffect(c[k + 1]) != 0;
    }
  }
}
