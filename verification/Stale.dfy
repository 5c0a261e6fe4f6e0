// Repeated values.

module Stale {
  // When a repeated instruction still has the value of its original.

  import opened Ir
  import opened Machine
  import opened Optimizer

  // An operand that is read without the stack.
  predicate Readable(o: Operand) {
    o.IntOp? || (o.RefOp? && Plain(o.ref))
  }

  // Arithmetic, comparisons and casts of constants and places.
  predicate Evaluated(i: Instr) {
    || ((IsArith2(i.op) || IsCompare(i.op)) && |i.operands| == 2 && Readable(i.operands[0]) && Readable(i.operands[1]))
    || ((i.op.Neg? || i.op.Cast?) && |i.operands| == 1 && Readable(i.operands[0]))
  }

  datatype Write = Write(place: Ref, value: int)

  // The store after a row of constants has been stored, the first one first.
  function Stored(ws: seq<Write>, st: Store): Store {
    if ws == [] then st else Stored(ws[1..], Set(st, ws[0].place, ws[0].value))
  }

  predicate Writes(ws: seq<Write>, d: Ref) {
    exists k :: 0 <= k < |ws| && ws[k].place == d
  }

  // No place written is one the value depends on.
  predicate Clear(i: Instr, ws: seq<Write>) {
    forall k :: 0 <= k < |ws| ==> !DependsOn(i, RefOp(ws[k].place))
  }

  function Amount(o: Operand, st: Store): int {
    match o
    case IntOp(v, _) => v
    case RefOp(r) => Read(st, r)
    case _ => 0
  }

  function Amounts(i: Instr, st: Store): (int, int)
    requires Evaluated(i)
  {
    if i.op.Neg? || i.op.Cast? then (0, Amount(i.operands[0], st)) else (Amount(i.operands[0], st), Amount(i.operands[1], st))
  }

  lemma ValueOf(i: Instr, env: Env, st: Store)
    requires Evaluated(i)
    ensures var (a, b) := Amounts(i, st);
            Value(i, env, st) == if IsCompare(i.op) then Some(Bit(Holds(i.op, a, b)))
                                 else if i.op.Cast? then Some(env.access(i, [b], NOTHING))
                                 else env.arith(i.op, a, b)
  {
    if i.op.Cast? {
      assert i.operands[1..] == [] && [Amount(i.operands[0], st)] + [] == [Amount(i.operands[0], st)];
      assert PeekAll(i.operands, st, Empty) == Got([Amount(i.operands[0], st)], Empty);
    }
  }

  lemma EvaluatedReplaceable(i: Instr)
    requires Evaluated(i)
    ensures CanBeReplaced(i) && !ReadsMemory(i.op)
  {
    var os := i.operands;
    forall o | o in os && o.RefOp?
      ensures OperandConsumption(o) == 0
    {
      RefTakes(o);
    }
    assert OperandsConsumption(os[1..]) == if |os| == 1 then 0 else OperandConsumption(os[1]) + OperandsConsumption(os[1..][1..]);
  }

  // What a row of constants leaves in a place does not depend on the store, if it is written.
  lemma {:induction false} StoredRead(ws: seq<Write>, st: Store, st': Store, d: Ref)
    ensures Writes(ws, d) ==> Read(Stored(ws, st), d) == Read(Stored(ws, st'), d)
    ensures !Writes(ws, d) ==> Read(Stored(ws, st), d) == Read(st, d)
    decreases |ws|
  {
    if ws != [] {
      var w, rest := ws[0], ws[1..];
      StoredRead(rest, Set(st, w.place, w.value), Set(st', w.place, w.value), d);
      if Writes(rest, d) {
        var k :| 0 <= k < |rest| && rest[k].place == d;
        assert ws[k + 1].place == d;
      } else if Writes(ws, d) {
        assert w.place == d;
        StoredRead(rest, Set(st', w.place, w.value), st, d);
      }
    }
  }

  lemma {:induction false} ClearKeeps(i: Instr, env: Env, ws: seq<Write>, st: Store)
    requires Evaluated(i) && Clear(i, ws)
    ensures Value(i, env, Stored(ws, st)) == Value(i, env, st)
    decreases |ws|
  {
    hide Value, DependsOn;
    if ws != [] {
      EvaluatedReplaceable(i);
      ValueFrame(i, env, st, ws[0].place, ws[0].value);
      assert forall k :: 0 <= k < |ws[1..]| ==> ws[1..][k] == ws[k + 1];
      ClearKeeps(i, env, ws[1..], Set(st, ws[0].place, ws[0].value));
    }
  }

  // A number on one side of a comparison for which it has a given truth.
  function Chosen(op: Op, k: int, truth: bool, left: bool): (x: int)
    requires IsCompare(op)
    ensures Holds(op, if left then x else k, if left then k else x) == truth
  {
    match op
    case CmpEq => if truth then k else k + 1
    case CmpNeq => if truth then k + 1 else k
    case CmpLt => if truth == left then k - 1 else if left then k else k + 1
    case CmpGtEq => if truth == left then (if left then k else k + 1) else k - 1
    case CmpGt => if truth == left then k + 1 else if left then k else k - 1
    case _ => if truth == left then (if left then k else k - 1) else k + 1
  }

  // Instructions that tell these operands from all others.
  function Telling(a: int, b: int): Env {
    Env(s => 0, (op, x, y) => Some(if x == a && y == b then 1 else 0), (i, vs, s) => if vs == [b] then 1 else 0,
        (i, vs, s: Store) => s.vars)
  }

  // A written place that is an operand: a store and arithmetic for which the value changes.
  lemma StaleWitness(i: Instr, ws: seq<Write>) returns (env: Env, st: Store)
    requires Evaluated(i) && !Clear(i, ws)
    ensures Value(i, env, st).Some? && Value(i, env, Stored(ws, st)).Some?
    ensures Value(i, env, Stored(ws, st)) != Value(i, env, st)
  {
    hide Value;
    var n :| 0 <= n < |ws| && DependsOn(i, RefOp(ws[n].place));
    var d := ws[n].place;
    assert Writes(ws, d);
    var left := i.operands[0] == RefOp(d);
    var late := Stored(ws, NOTHING);
    if IsCompare(i.op) {
      var other := if left then i.operands[1] else i.operands[0];
      var (a, b) := Amounts(i, late);
      st := Store(map[d := Chosen(i.op, Amount(other, NOTHING), !Holds(i.op, a, b), left)], []);
      env := Telling(0, 0);
      OtherSame(other, d, ws, st);
    } else {
      st := Store(map[d := Read(late, d) + 1], []);
      var (a, b) := Amounts(i, Stored(ws, st));
      env := Telling(a, b);
    }
    StoredRead(ws, NOTHING, st, d);
    ValueOf(i, env, st);
    ValueOf(i, env, Stored(ws, st));
  }

  // Another operand reads the same in both stores, before and after the row.
  lemma OtherSame(o: Operand, d: Ref, ws: seq<Write>, st: Store)
    requires Readable(o) && o != RefOp(d) && st.vars.Keys == {d}
    ensures Amount(o, st) == Amount(o, NOTHING)
    ensures Amount(o, Stored(ws, st)) == Amount(o, Stored(ws, NOTHING))
  {
    if o.RefOp? {
      StoredRead(ws, st, NOTHING, o.ref);
      StoredRead(ws, NOTHING, st, o.ref);
    }
  }

  /**
   * An instruction on constants and places has, after a row of constants has been stored,
   * the value it had before, for all arithmetic and all stores, exactly when none of
   * the places stored to is an operand its value depends on.
   */
  lemma ValueExact(i: Instr, ws: seq<Write>)
    requires Evaluated(i)
    ensures (forall env, st :: Value(i, env, Stored(ws, st)) == Value(i, env, st)) <==> Clear(i, ws)
  {
    hide Value, Clear, Evaluated;
    if Clear(i, ws) {
      forall env, st
        ensures Value(i, env, Stored(ws, st)) == Value(i, env, st)
      {
        ClearKeeps(i, env, ws, st);
      }
    } else {
      var env, st := StaleWitness(i, ws);
    }
  }

  // ----- In the code -----

  predicate IsConstantStore(i: Instr) {
    i.op.Load? && |i.operands| == 2 && i.operands[0].RefOp? && Plain(i.operands[0].ref) && i.operands[1].IntOp?
  }

  // Between a repeated instruction and the one it repeats constants are stored, nothing else.
  predicate ConstantGap(c: seq<Instr>, j: nat)
    requires j < |c|
  {
    ConstantStores(c[Touch(c, j) + 1..j])
  }

  function WriteOf(i: Instr): Write
    requires IsConstantStore(i)
  {
    Write(i.operands[0].ref, i.operands[1].val)
  }

  predicate ConstantStores(c: seq<Instr>) {
    forall k :: 0 <= k < |c| ==> IsConstantStore(c[k])
  }

  function GapWrites(c: seq<Instr>): seq<Write>
    requires ConstantStores(c)
  {
    if c == [] then [] else [WriteOf(c[0])] + GapWrites(c[1..])
  }

  lemma {:induction false} GapRuns(p: Program, k: nat, j: nat, st: Store, stk: Stack)
    requires k <= j <= |p.code| && ConstantStores(p.code[k..j])
    ensures Run(p, Running(k, st, stk), j - k) == Running(j, Stored(GapWrites(p.code[k..j]), st), stk)
    decreases j - k
  {
    if k < j {
      assert p.code[k..j][0] == p.code[k] && p.code[k..j][1..] == p.code[k + 1..j];
      var w := WriteOf(p.code[k]);
      assert Step(p, Running(k, st, stk)) == Running(k + 1, Set(st, w.place, w.value), stk);
      GapRuns(p, k + 1, j, Set(st, w.place, w.value), stk);
    }
  }

  predicate NoneDisturbs(c: seq<Instr>, i: Instr) {
    forall k :: 0 <= k < |c| ==> !Disturbs(c[k], i)
  }

  lemma {:induction false} GapClear(c: seq<Instr>, i: Instr)
    requires ConstantStores(c) && !ReadsMemory(i.op)
    ensures Clear(i, GapWrites(c)) <==> NoneDisturbs(c, i)
    decreases |c|
  {
    hide DependsOn;
    if c != [] {
      GapClear(c[1..], i);
      ClearMore(i, WriteOf(c[0]), GapWrites(c[1..]));
      FirstDisturbs(c, i);
    }
  }

  lemma FirstDisturbs(c: seq<Instr>, i: Instr)
    requires c != []
    ensures NoneDisturbs(c, i) <==> !Disturbs(c[0], i) && NoneDisturbs(c[1..], i)
  {
    hide Disturbs;
    if !Disturbs(c[0], i) && NoneDisturbs(c[1..], i) {
      forall k | 0 <= k < |c|
        ensures !Disturbs(c[k], i)
      {
        if k > 0 {
          assert c[k] == c[1..][k - 1];
        }
      }
    }
  }

  lemma ClearMore(i: Instr, w: Write, ws: seq<Write>)
    ensures Clear(i, [w] + ws) <==> !DependsOn(i, RefOp(w.place)) && Clear(i, ws)
  {
    hide DependsOn;
    var all := [w] + ws;
    if Clear(i, all) {
      assert all[0] == w;
      forall k | 0 <= k < |ws|
        ensures !DependsOn(i, RefOp(ws[k].place))
      {
        assert all[k + 1] == ws[k];
      }
    }
  }

  // From the repeated instruction on, rewriting number j changes nothing up to behind it.
  ghost predicate StillValid(c: seq<Instr>, j: nat, env: Env, st: Store, stk: Stack)
    requires j < |c| && Repeats(c, j)
  {
    var k := Touch(c, j);
    Run(Program(c[j := Duplicate(c[j])], env), Running(k, st, stk), j - k + 1) == Run(Program(c, env), Running(k, st, stk), j - k + 1)
  }

  // The machine at a repeated instruction: the constants are stored, the value is on top.
  lemma RepeatReached(p: Program, k: nat, j: nat, st: Store, stk: Stack, v: int)
    requires k < j < |p.code| && CanBeReplaced(p.code[k]) && ConstantStores(p.code[k + 1..j])
    requires Value(p.code[k], p.env, st) == Some(v)
    ensures Run(p, Running(k, st, stk), j - k) == Running(j, Stored(GapWrites(p.code[k + 1..j]), st), Push(v, stk))
  {
    hide Value, CanBeReplaced, Step, Stored, GapWrites, ConstantStores;
    ValueStep(p, Running(k, st, stk));
    GapRuns(p, k + 1, j, st, Push(v, stk));
    OneRun(p, Running(k, st, stk));
    RunAdd(p, Running(k, st, stk), 1, j - k - 1);
  }

  // One step further, as the instruction stands.
  lemma OriginalRuns(c: seq<Instr>, j: nat, env: Env, st: Store, stk: Stack, v: int)
    requires j < |c| && Repeats(c, j) && ConstantGap(c, j) && Value(c[j], env, st) == Some(v)
    ensures var k := Touch(c, j);
            Run(Program(c, env), Running(k, st, stk), j - k + 1)
            == Step(Program(c, env), Running(j, Stored(GapWrites(c[k + 1..j]), st), Push(v, stk)))
  {
    hide Value, CanBeReplaced, Step, Stored, GapWrites, ConstantStores, Run, Touch;
    var p, k := Program(c, env), Touch(c, j);
    RepeatReached(p, k, j, st, stk, v);
    OneRun(p, Running(j, Stored(GapWrites(c[k + 1..j]), st), Push(v, stk)));
    RunAdd(p, Running(k, st, stk), j - k, 1);
  }

  // And where it was rewritten.
  lemma DuplicateRuns(c: seq<Instr>, j: nat, env: Env, st: Store, stk: Stack, v: int)
    requires j < |c| && Repeats(c, j) && ConstantGap(c, j) && Value(c[j], env, st) == Some(v)
    ensures var k := Touch(c, j);
            Run(Program(c[j := Duplicate(c[j])], env), Running(k, st, stk), j - k + 1)
            == Running(j + 1, Stored(GapWrites(c[k + 1..j]), st), Push(v, Push(v, stk)))
  {
    hide Value, CanBeReplaced, Step, Stored, GapWrites, ConstantStores, Run, Touch, Duplicate;
    var p, k := Program(c[j := Duplicate(c[j])], env), Touch(c, j);
    BeforeKept(c, j, Duplicate(c[j]), k);
    RepeatReached(p, k, j, st, stk, v);
    var s := Running(j, Stored(GapWrites(c[k + 1..j]), st), Push(v, stk));
    OneRun(p, s);
    RunAdd(p, Running(k, st, stk), j - k, 1);
    DupStep(p, s, c[j]);
  }

  lemma BeforeKept(c: seq<Instr>, j: nat, i: Instr, k: nat)
    requires k < j < |c|
    ensures c[j := i][k] == c[k] && c[j := i][j] == i && c[j := i][k + 1..j] == c[k + 1..j]
  {
  }

  lemma OneRun(p: Program, s: State)
    requires CanStep(p, s)
    ensures Run(p, s, 1) == Step(p, s)
  {
    hide Step;
    assert Run(p, Step(p, s), 0) == Step(p, s);
  }

  lemma DupStep(p: Program, s: State, i: Instr)
    requires CanStep(p, s) && p.code[s.pc] == Duplicate(i) && s.stack.Push?
    ensures Step(p, s) == Running(s.pc + 1, s.store, Push(s.stack.top, s.stack))
  {
  }

  /**
   * Rewriting a repeated instruction behind stored constants keeps every execution, for
   * all arithmetic, stores and stacks, exactly when nothing disturbs it.
   */
  lemma GapExact(c: seq<Instr>, j: nat)
    requires j < |c| && Repeats(c, j) && Evaluated(c[j]) && ConstantGap(c, j)
    ensures (forall env, st, stk :: StillValid(c, j, env, st, stk)) <==> Undisturbed(c, j)
  {
    hide StillValid, Evaluated, Value, Clear, Undisturbed, NoneDisturbs;
    var gap := c[Touch(c, j) + 1..j];
    EvaluatedReplaceable(c[j]);
    GapClear(gap, c[j]);
    GapDisturbed(c, j);
    if Undisturbed(c, j) {
      forall env, st, stk
        ensures StillValid(c, j, env, st, stk)
      {
        ClearKeeps(c[j], env, GapWrites(gap), st);
        SameBehind(c, j, env, st, stk);
      }
    } else {
      var env, st := StaleWitness(c[j], GapWrites(gap));
      OtherBehind(c, j, env, st, Empty);
    }
  }

  lemma SliceDisturbed(c: seq<Instr>, a: nat, b: nat, i: Instr)
    requires a <= b <= |c|
    ensures NoneDisturbs(c[a..b], i) <==> forall m :: a <= m < b ==> !Disturbs(c[m], i)
  {
    hide Disturbs;
    if forall m :: a <= m < b ==> !Disturbs(c[m], i) {
      forall k | 0 <= k < b - a
        ensures !Disturbs(c[a..b][k], i)
      {
        SliceAt(c, a, b, k);
      }
    } else {
      var m :| a <= m < b && Disturbs(c[m], i);
      SliceAt(c, a, b, m - a);
    }
  }

  lemma GapDisturbed(c: seq<Instr>, j: nat)
    requires j < |c|
    ensures NoneDisturbs(c[Touch(c, j) + 1..j], c[j]) <==> Undisturbed(c, j)
  {
    hide Disturbs, Touch, NoneDisturbs;
    SliceDisturbed(c, Touch(c, j) + 1, j, c[j]);
  }

  lemma SliceAt(c: seq<Instr>, a: nat, b: nat, k: nat)
    requires a <= b <= |c| && k < b - a
    ensures c[a..b][k] == c[a + k]
  {
  }

  lemma SameBehind(c: seq<Instr>, j: nat, env: Env, st: Store, stk: Stack)
    requires j < |c| && Repeats(c, j) && ConstantGap(c, j)
    requires Value(c[j], env, Stored(GapWrites(c[Touch(c, j) + 1..j]), st)) == Value(c[j], env, st)
    ensures StillValid(c, j, env, st, stk)
  {
    hide Value, CanBeReplaced, Step, Run, Touch, Stored, GapWrites, Duplicate, ConstantStores;
    var d, k := c[j := Duplicate(c[j])], Touch(c, j);
    BeforeKept(c, j, Duplicate(c[j]), k);
    var v := Value(c[j], env, st);
    if v.Some? {
      OriginalRuns(c, j, env, st, stk, v.value);
      DuplicateRuns(c, j, env, st, stk, v.value);
      ValueStep(Program(c, env), Running(j, Stored(GapWrites(c[k + 1..j]), st), Push(v.value, stk)));
    } else {
      ValueStep(Program(c, env), Running(k, st, stk));
      ValueStep(Program(d, env), Running(k, st, stk));
      StopsAtOnce(c, d, env, Running(k, st, stk), j - k + 1);
    }
  }

  // The first instruction stops both machines in the same way.
  lemma StopsAtOnce(c: seq<Instr>, d: seq<Instr>, env: Env, s: State, n: nat)
    requires |c| == |d| && n > 0 && CanStep(Program(c, env), s) && c[s.pc] == d[s.pc] && CanBeReplaced(c[s.pc])
    requires !Step(Program(c, env), s).Running? && !Step(Program(d, env), s).Running?
    ensures Run(Program(c, env), s, n) == Run(Program(d, env), s, n)
  {
    RunStopped(Program(c, env), Step(Program(c, env), s), n - 1);
    RunStopped(Program(d, env), Step(Program(d, env), s), n - 1);
  }

  lemma OtherBehind(c: seq<Instr>, j: nat, env: Env, st: Store, stk: Stack)
    requires j < |c| && Repeats(c, j) && ConstantGap(c, j) && Value(c[j], env, st).Some?
    requires Value(c[j], env, Stored(GapWrites(c[Touch(c, j) + 1..j]), st)) != Value(c[j], env, st)
    ensures !StillValid(c, j, env, st, stk)
  {
    hide Value, CanBeReplaced, Step, Run, Touch, Stored, GapWrites, Duplicate, ConstantStores;
    var k := Touch(c, j);
    var v := Value(c[j], env, st).value;
    OriginalRuns(c, j, env, st, stk, v);
    DuplicateRuns(c, j, env, st, stk, v);
    ValueStep(Program(c, env), Running(j, Stored(GapWrites(c[k + 1..j]), st), Push(v, stk)));
  }
}
