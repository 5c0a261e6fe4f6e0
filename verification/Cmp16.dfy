// Comparison of aggregates sixteen bytes at a time.

module Cmp16 {
  import opened Ir

  type Bytes = seq<int>

  predicate AreBytes(s: Bytes) {
    forall i :: 0 <= i < |s| ==> 0 <= s[i] < 256
  }

  // ----- The vector instructions -----

  function Distance(x: int, y: int): int {
    if x < y then y - x else x - y
  }

  // Sum of absolute differences of the first n bytes.
  function Sad(a: Bytes, b: Bytes, n: nat): int
    requires n <= |a| == |b|
  {
    if n == 0 then 0 else Sad(a, b, n - 1) + Distance(a[n - 1], b[n - 1])
  }

  // psadbw: one sum for each half, in the low bytes of the half.
  function Psadbw(a: Bytes, b: Bytes): Bytes
    requires |a| == |b| == 16
  {
    Word(Sad(a[..8], b[..8], 8)) + Word(Sad(a[8..], b[8..], 8))
  }

  function Word(v: int): (w: Bytes)
    ensures |w| == 8
  {
    [v % 256, v / 256 % 256, 0, 0, 0, 0, 0, 0]
  }

  // pshufb: a selector byte with its top bit set gives zero.
  function Pshufb(x: Bytes, selector: Bytes): Bytes
    requires |x| == |selector| == 16
  {
    seq(16, i requires 0 <= i < 16 => if selector[i] >= 128 then 0 else x[selector[i] % 16])
  }

  const SELECTOR: Bytes := [0, 1, 8, 9, 0x80, 0x80, 0x80, 0x80, 0x80, 0x80, 0x80, 0x80, 0x80, 0x80, 0x80, 0x80]

  // The low 32 bits of a vector.
  function Low32(x: Bytes): int
    requires |x| == 16
  {
    x[0] + 0x100 * x[1] + 0x10000 * x[2] + 0x1000000 * x[3]
  }

  lemma {:induction false} SadExact(a: Bytes, b: Bytes, n: nat)
    requires n <= |a| == |b| && AreBytes(a) && AreBytes(b)
    ensures 0 <= Sad(a, b, n) <= 255 * n
    ensures Sad(a, b, n) == 0 <==> a[..n] == b[..n]
    decreases n
  {
    if n > 0 {
      SadExact(a, b, n - 1);
      assert a[..n] == a[..n - 1] + [a[n - 1]] && b[..n] == b[..n - 1] + [b[n - 1]];
    }
  }

  lemma WordZero(v: int)
    requires 0 <= v < 0x10000
    ensures Word(v)[0] >= 0 && Word(v)[1] >= 0
    ensures Word(v)[0] == 0 && Word(v)[1] == 0 <==> v == 0
  {
  }

  /** The shuffled sums fit in their sixteen bits, and are zero exactly when the sixteen bytes agree. */
  lemma ChunkExact(a: Bytes, b: Bytes)
    requires |a| == |b| == 16 && AreBytes(a) && AreBytes(b)
    ensures Sad(a[..8], b[..8], 8) < 0x10000 && Sad(a[8..], b[8..], 8) < 0x10000
    ensures Low32(Pshufb(Psadbw(a, b), SELECTOR)) == 0 <==> a == b
  {
    hide Sad, Word;
    SadExact(a[..8], b[..8], 8);
    SadExact(a[8..], b[8..], 8);
    var x := Psadbw(a, b);
    var lo, hi := Word(Sad(a[..8], b[..8], 8)), Word(Sad(a[8..], b[8..], 8));
    WordZero(Sad(a[..8], b[..8], 8));
    WordZero(Sad(a[8..], b[8..], 8));
    assert x[0] == lo[0] && x[1] == lo[1] && x[8] == hi[0] && x[9] == hi[1];
    assert a[..8][..8] == a[..8] && b[..8][..8] == b[..8] && a[8..][..8] == a[8..] && b[8..][..8] == b[8..];
    assert a == a[..8] + a[8..] && b == b[..8] + b[8..];
  }

  // ----- The emitted code -----

  datatype Cc = Equal | NotEqual

  datatype Target = JumpLabel | EndLabel

  datatype X64 =
    | LoadSelector          // movdqa xmm0, selector
    | LoadChunk(at: nat)    // movdqa xmm7, [a + at]
    | SadChunk(at: nat)     // psadbw xmm7, [b + at]
    | Shuffle               // pshufb xmm7, xmm0
    | MoveLow               // movq r10, xmm7
    | CompareZero           // cmp r10d, 0
    | Jcc(cc: Cc, target: Target)
    | AtEndLabel
    | SetCc(cc: Cc)

  predicate IsEquality(op: Op) {
    op.CmpEq? || op.CmpNeq? || op.JmpEq? || op.JmpNeq?
  }

  // The jump after every chunk but the last.
  function EarlyJump(op: Op): Cc {
    if op.CmpEq? || op.JmpNeq? then NotEqual else Equal
  }

  // The jump or the set instruction that follows the comparison.
  function FinalTest(op: Op): X64 {
    match op
    case CmpEq => SetCc(Equal)
    case CmpNeq => SetCc(NotEqual)
    case JmpEq => Jcc(Equal, JumpLabel)
    case _ => Jcc(NotEqual, JumpLabel)
  }

  predicate Jumps(op: Op) {
    op.JmpEq? || op.JmpNeq?
  }

  function ExitTarget(op: Op): Target {
    if Jumps(op) then JumpLabel else EndLabel
  }

  function Chunks(op: Op, at: nat, size: nat): seq<X64>
    requires size % 16 == 0
    decreases size
  {
    if size == 0 then []
    else
      [LoadChunk(at), SadChunk(at), Shuffle, MoveLow, CompareZero]
      + ((if size > 16 then [Jcc(EarlyJump(op), ExitTarget(op))] else []) + Chunks(op, at + 16, size - 16))
  }

  lemma ChunksHead(op: Op, at: nat, size: nat)
    requires size % 16 == 0
    ensures Chunks(op, at, size)
         == if size == 0 then []
            else [LoadChunk(at), SadChunk(at), Shuffle, MoveLow, CompareZero]
                 + ((if size > 16 then [Jcc(EarlyJump(op), ExitTarget(op))] else []) + Chunks(op, at + 16, size - 16))
  {
  }

  // Emitting one chunk and its jump leaves the rest to emit.
  lemma ChunkEmitted(out: seq<X64>, op: Op, at: nat, size: nat, jump: seq<X64>)
    requires size >= 16 && size % 16 == 0
    requires jump == if size > 16 then [Jcc(EarlyJump(op), ExitTarget(op))] else []
    ensures out + [LoadChunk(at), SadChunk(at), Shuffle, MoveLow, CompareZero] + jump + Chunks(op, at + 16, size - 16)
         == out + Chunks(op, at, size)
  {
    hide Chunks, EarlyJump, ExitTarget;
    ChunksHead(op, at, size);
    Regroup(out, [LoadChunk(at), SadChunk(at), Shuffle, MoveLow, CompareZero], jump, Chunks(op, at + 16, size - 16));
  }

  lemma Regroup(a: seq<X64>, b: seq<X64>, c: seq<X64>, d: seq<X64>)
    ensures a + b + c + d == a + (b + (c + d))
  {
  }

  function Rest(op: Op, size: nat): seq<X64> {
    if size > 16 && !Jumps(op) then [AtEndLabel, FinalTest(op)] else [FinalTest(op)]
  }

  function CompareCode(op: Op, size: nat): seq<X64>
    requires size % 16 == 0
  {
    [LoadSelector] + (Chunks(op, 0, size) + Rest(op, size))
  }

  method CmpAggregate16(op: Op, size: nat) returns (out: seq<X64>)
    requires IsEquality(op) && size % 16 == 0
    ensures out == CompareCode(op, size)
  {
    hide Chunks;
    ChunksHead(op, size, 0);
    var jmpop := if op.CmpEq? || op.JmpNeq? then NotEqual else Equal;
    out := [LoadSelector];
    var sz, offset := size, 0;
    while sz > 0
      invariant 0 <= sz <= size && sz % 16 == 0 && offset == size - sz
      invariant out + Chunks(op, offset, sz) == [LoadSelector] + Chunks(op, 0, size)
    {
      var chunk := [LoadChunk(offset), SadChunk(offset), Shuffle, MoveLow, CompareZero];
      var jump := if sz > 16 then [Jcc(jmpop, ExitTarget(op))] else [];
      ChunkEmitted(out, op, offset, sz, jump);
      out := out + chunk + jump;
      offset := offset + 16;
      sz := sz - 16;
    }
    assert out + [] == out;
    if size > 16 && !Jumps(op) {
      out := out + [AtEndLabel];
    }
    out := out + [FinalTest(op)];
  }

  // ----- Running it -----

  datatype Vectors = Vectors(xmm0: Bytes, xmm7: Bytes, r10: int, zf: bool)

  datatype Verdict = Jumped | FellThrough | Bit(value: int) | Undefined

  predicate Met(cc: Cc, zf: bool) {
    zf == cc.Equal?
  }

  // Code behind the end label.
  function Behind(code: seq<X64>): seq<X64> {
    if code == [] then [] else if code[0].AtEndLabel? then code[1..] else Behind(code[1..])
  }

  lemma BehindShorter(code: seq<X64>)
    ensures |Behind(code)| <= |code|
  {
  }

  // The instructions that compute; None when an operand is out of range.
  function Compute(i: X64, a: Bytes, b: Bytes, v: Vectors): Option<Vectors>
    requires |a| == |b|
  {
    match i
    case LoadSelector => Some(v.(xmm0 := SELECTOR))
    case LoadChunk(at) => if at + 16 <= |a| then Some(v.(xmm7 := a[at..at + 16])) else None
    case SadChunk(at) =>
      if at + 16 <= |b| && |v.xmm7| == 16 then Some(v.(xmm7 := Psadbw(v.xmm7, b[at..at + 16]))) else None
    case Shuffle => if |v.xmm0| == |v.xmm7| == 16 then Some(v.(xmm7 := Pshufb(v.xmm7, v.xmm0))) else None
    case MoveLow => if |v.xmm7| == 16 then Some(v.(r10 := Low32(v.xmm7))) else None
    case _ => Some(v.(zf := v.r10 == 0))
  }

  predicate IsControl(i: X64) {
    i.Jcc? || i.AtEndLabel? || i.SetCc?
  }

  function Exec(code: seq<X64>, a: Bytes, b: Bytes, v: Vectors): Verdict
    requires |a| == |b|
    decreases |code|
  {
    if code == [] then FellThrough
    else
      var rest := code[1..];
      match code[0]
      case Jcc(cc, target) =>
        if !Met(cc, v.zf) then Exec(rest, a, b, v)
        else if target.JumpLabel? then Jumped
        else
          BehindShorter(rest);
          Exec(Behind(rest), a, b, v)
      case AtEndLabel => Exec(rest, a, b, v)
      case SetCc(cc) => Bit(if Met(cc, v.zf) then 1 else 0)
      case i =>
        match Compute(i, a, b, v)
        case None => Undefined
        case Some(w) => Exec(rest, a, b, w)
  }

  lemma ExecHead(i: X64, rest: seq<X64>, a: Bytes, b: Bytes, v: Vectors)
    requires |a| == |b| && !IsControl(i) && Compute(i, a, b, v).Some?
    ensures Exec([i] + rest, a, b, v) == Exec(rest, a, b, Compute(i, a, b, v).value)
  {
    hide Compute;
    assert ([i] + rest)[1..] == rest;
  }

  // ----- What it decides -----

  predicate ChunkEqual(a: Bytes, b: Bytes, at: nat)
    requires at + 16 <= |a| == |b|
  {
    a[at..at + 16] == b[at..at + 16]
  }

  // The zero flag when the chunks from a place on have been compared, up to an early exit.
  function FlagFrom(op: Op, a: Bytes, b: Bytes, at: nat): bool
    requires |a| == |b| && at < |a| && (|a| - at) % 16 == 0
    decreases |a| - at
  {
    var z := ChunkEqual(a, b, at);
    if at + 16 == |a| || Met(EarlyJump(op), z) then z else FlagFrom(op, a, b, at + 16)
  }

  function Decision(op: Op, zf: bool): Verdict {
    match op
    case CmpEq => Bit(if zf then 1 else 0)
    case CmpNeq => Bit(if zf then 0 else 1)
    case JmpEq => if zf then Jumped else FellThrough
    case _ => if zf then FellThrough else Jumped
  }

  // The vectors once a chunk has been compared with zero.
  function Compared(at: nat, a: Bytes, b: Bytes, v: Vectors): Vectors
    requires at + 16 <= |a| == |b|
  {
    var x := Pshufb(Psadbw(a[at..at + 16], b[at..at + 16]), SELECTOR);
    Vectors(v.xmm0, x, Low32(x), Low32(x) == 0)
  }

  lemma ComparedExact(at: nat, a: Bytes, b: Bytes, v: Vectors)
    requires at + 16 <= |a| == |b| && AreBytes(a) && AreBytes(b) && v.xmm0 == SELECTOR
    ensures var w := Compared(at, a, b, v); w.xmm0 == SELECTOR && w.zf == ChunkEqual(a, b, at)
  {
    hide Psadbw, Pshufb, Low32;
    ChunkExact(a[at..at + 16], b[at..at + 16]);
  }

  // One chunk, up to its comparison with zero.
  lemma ChunkRuns(rest: seq<X64>, at: nat, a: Bytes, b: Bytes, v: Vectors)
    requires at + 16 <= |a| == |b| && v.xmm0 == SELECTOR
    ensures Exec([LoadChunk(at), SadChunk(at), Shuffle, MoveLow, CompareZero] + rest, a, b, v)
         == Exec(rest, a, b, Compared(at, a, b, v))
  {
    hide Psadbw, Pshufb, Low32, Exec;
    var sum := Psadbw(a[at..at + 16], b[at..at + 16]);
    SadLength(a[at..at + 16], b[at..at + 16]);
    var x := Pshufb(sum, SELECTOR);
    var v1 := v.(xmm7 := a[at..at + 16]);
    var v2 := v1.(xmm7 := sum);
    var v3 := v2.(xmm7 := x);
    var v4 := v3.(r10 := Low32(x));
    var c4 := [CompareZero] + rest;
    var c3 := [MoveLow] + c4;
    var c2 := [Shuffle] + c3;
    var c1 := [SadChunk(at)] + c2;
    assert [LoadChunk(at), SadChunk(at), Shuffle, MoveLow, CompareZero] + rest == [LoadChunk(at)] + c1;
    ExecHead(LoadChunk(at), c1, a, b, v);
    ExecHead(SadChunk(at), c2, a, b, v1);
    ExecHead(Shuffle, c3, a, b, v2);
    ExecHead(MoveLow, c4, a, b, v3);
    ExecHead(CompareZero, rest, a, b, v4);
  }

  lemma SadLength(a: Bytes, b: Bytes)
    requires |a| == |b| == 16
    ensures |Psadbw(a, b)| == 16 && |Pshufb(Psadbw(a, b), SELECTOR)| == 16
  {
  }

  lemma {:induction false} BehindChunks(op: Op, at: nat, size: nat, rest: seq<X64>)
    requires size % 16 == 0
    ensures Behind(Chunks(op, at, size) + rest) == Behind(rest)
    decreases size
  {
    hide Chunks;
    ChunksHead(op, at, size);
    if size == 0 {
      assert Chunks(op, at, size) + rest == rest;
    } else {
      BehindChunks(op, at + 16, size - 16, rest);
      var head := [LoadChunk(at), SadChunk(at), Shuffle, MoveLow, CompareZero]
                  + (if size > 16 then [Jcc(EarlyJump(op), ExitTarget(op))] else []);
      BehindNone(head, Chunks(op, at + 16, size - 16) + rest);
      assert Chunks(op, at, size) + rest == head + (Chunks(op, at + 16, size - 16) + rest);
    }
  }

  lemma {:induction false} BehindNone(head: seq<X64>, rest: seq<X64>)
    requires forall i :: 0 <= i < |head| ==> !head[i].AtEndLabel?
    ensures Behind(head + rest) == Behind(rest)
    decreases |head|
  {
    if head == [] {
      assert head + rest == rest;
    } else {
      assert (head + rest)[1..] == head[1..] + rest;
      BehindNone(head[1..], rest);
    }
  }

  lemma FinalRuns(op: Op, a: Bytes, b: Bytes, v: Vectors)
    requires IsEquality(op) && |a| == |b|
    ensures Exec([FinalTest(op)], a, b, v) == Decision(op, v.zf)
    ensures !Jumps(op) ==> Exec([AtEndLabel, FinalTest(op)], a, b, v) == Decision(op, v.zf)
    ensures Jumps(op) && Met(EarlyJump(op), v.zf) ==> Decision(op, v.zf) == Jumped
  {
    assert [AtEndLabel, FinalTest(op)][1..] == [FinalTest(op)];
  }

  // The jump behind a chunk that is not the last: out of the comparison, or on.
  lemma EarlyJumpRuns(op: Op, next: seq<X64>, size: nat, a: Bytes, b: Bytes, w: Vectors)
    requires IsEquality(op) && |a| == |b| && size > 16 && Behind(next) == Behind(Rest(op, size))
    ensures Exec([Jcc(EarlyJump(op), ExitTarget(op))] + next, a, b, w)
         == if Met(EarlyJump(op), w.zf) then Decision(op, w.zf) else Exec(next, a, b, w)
  {
    hide FinalTest, Decision, Exec, EarlyJump;
    JccRuns(EarlyJump(op), ExitTarget(op), next, a, b, w);
    FinalRuns(op, a, b, w);
    if !Jumps(op) {
      assert Rest(op, size)[1..] == [FinalTest(op)];
    }
  }

  lemma JccRuns(cc: Cc, target: Target, next: seq<X64>, a: Bytes, b: Bytes, w: Vectors)
    requires |a| == |b|
    ensures Exec([Jcc(cc, target)] + next, a, b, w)
         == if !Met(cc, w.zf) then Exec(next, a, b, w) else if target.JumpLabel? then Jumped else Exec(Behind(next), a, b, w)
  {
    hide Compute, Behind;
    assert ([Jcc(cc, target)] + next)[1..] == next;
  }

  lemma {:induction false} ChunksRun(op: Op, size: nat, at: nat, a: Bytes, b: Bytes, v: Vectors)
    requires IsEquality(op) && |a| == |b| == size && AreBytes(a) && AreBytes(b) && v.xmm0 == SELECTOR
    requires at < size && (size - at) % 16 == 0 && (at > 0 ==> size > 16)
    ensures Exec(Chunks(op, at, size - at) + Rest(op, size), a, b, v) == Decision(op, FlagFrom(op, a, b, at))
    decreases size - at
  {
    hide FinalTest, Decision, ChunkEqual, Exec, Compared, EarlyJump, Chunks;
    var left := size - at;
    ChunksHead(op, at, left);
    ChunksHead(op, at + 16, 0);
    var end := Rest(op, size);
    var next := Chunks(op, at + 16, left - 16) + end;
    var jump := if left > 16 then [Jcc(EarlyJump(op), ExitTarget(op))] else [];
    assert Chunks(op, at, left) + end
        == [LoadChunk(at), SadChunk(at), Shuffle, MoveLow, CompareZero] + (jump + next);
    var w := Compared(at, a, b, v);
    ChunkRuns(jump + next, at, a, b, v);
    ComparedExact(at, a, b, v);
    if left == 16 {
      FinalRuns(op, a, b, w);
      assert jump + next == end;
    } else {
      BehindChunks(op, at + 16, left - 16, end);
      EarlyJumpRuns(op, next, size, a, b, w);
      ChunksRun(op, size, at + 16, a, b, w);
    }
  }

  lemma CompareRuns(op: Op, a: Bytes, b: Bytes, v: Vectors)
    requires IsEquality(op) && |a| == |b| > 0 && |a| % 16 == 0 && AreBytes(a) && AreBytes(b)
    ensures Exec(CompareCode(op, |a|), a, b, v) == Decision(op, FlagFrom(op, a, b, 0))
  {
    var rest := Chunks(op, 0, |a|) + Rest(op, |a|);
    assert CompareCode(op, |a|)[1..] == rest;
    ChunksRun(op, |a|, 0, a, b, v.(xmm0 := SELECTOR));
  }

  // With the jump on a difference, the flag says whether all bytes agree.
  lemma {:induction false} FlagAllEqual(op: Op, a: Bytes, b: Bytes, at: nat)
    requires |a| == |b| && at < |a| && (|a| - at) % 16 == 0 && EarlyJump(op).NotEqual?
    ensures FlagFrom(op, a, b, at) <==> a[at..] == b[at..]
    decreases |a| - at
  {
    assert a[at..] == a[at..at + 16] + a[at + 16..] && b[at..] == b[at..at + 16] + b[at + 16..];
    if at + 16 < |a| {
      FlagAllEqual(op, a, b, at + 16);
    }
  }

  predicate SomeChunkEqual(a: Bytes, b: Bytes, at: nat)
    requires |a| == |b| && at <= |a| && (|a| - at) % 16 == 0
    decreases |a| - at
  {
    at < |a| && (ChunkEqual(a, b, at) || SomeChunkEqual(a, b, at + 16))
  }

  // With the jump on agreement, it says whether any chunk agrees.
  lemma {:induction false} FlagSomeEqual(op: Op, a: Bytes, b: Bytes, at: nat)
    requires |a| == |b| && at < |a| && (|a| - at) % 16 == 0 && EarlyJump(op).Equal?
    ensures FlagFrom(op, a, b, at) <==> SomeChunkEqual(a, b, at)
    decreases |a| - at
  {
    if at + 16 < |a| {
      FlagSomeEqual(op, a, b, at + 16);
    } else {
      assert !SomeChunkEqual(a, b, |a|);
    }
  }

  /** For every size, == yields 1 exactly when all bytes agree, and the jump on != jumps exactly when some differ. */
  lemma EqualityExact(a: Bytes, b: Bytes, v: Vectors)
    requires |a| == |b| > 0 && |a| % 16 == 0 && AreBytes(a) && AreBytes(b)
    ensures Exec(CompareCode(CmpEq, |a|), a, b, v) == Bit(if a == b then 1 else 0)
    ensures Exec(CompareCode(JmpNeq, |a|), a, b, v) == if a == b then FellThrough else Jumped
  {
    hide Exec, CompareCode, FlagFrom;
    assert a[0..] == a && b[0..] == b;
    CompareRuns(CmpEq, a, b, v);
    FlagAllEqual(CmpEq, a, b, 0);
    CompareRuns(JmpNeq, a, b, v);
    FlagAllEqual(JmpNeq, a, b, 0);
  }

  /** What != and the jump on == really decide: whether any chunk agrees. */
  lemma InequalityDecides(a: Bytes, b: Bytes, v: Vectors)
    requires |a| == |b| > 0 && |a| % 16 == 0 && AreBytes(a) && AreBytes(b)
    ensures Exec(CompareCode(CmpNeq, |a|), a, b, v) == Bit(if SomeChunkEqual(a, b, 0) then 0 else 1)
    ensures Exec(CompareCode(JmpEq, |a|), a, b, v) == if SomeChunkEqual(a, b, 0) then Jumped else FellThrough
  {
    hide Exec, CompareCode, FlagFrom, SomeChunkEqual;
    CompareRuns(CmpNeq, a, b, v);
    FlagSomeEqual(CmpNeq, a, b, 0);
    CompareRuns(JmpEq, a, b, v);
    FlagSomeEqual(JmpEq, a, b, 0);
  }

  predicate InequalityRight(a: Bytes, b: Bytes, v: Vectors)
    requires |a| == |b| > 0 && |a| % 16 == 0
  {
    && Exec(CompareCode(CmpNeq, |a|), a, b, v) == Bit(if a == b then 0 else 1)
    && Exec(CompareCode(JmpEq, |a|), a, b, v) == if a == b then Jumped else FellThrough
  }

  /** != and the jump on == are right for all contents of a size exactly when the size is 16. */
  lemma InequalityExact(size: nat, v: Vectors)
    requires size > 0 && size % 16 == 0
    ensures (forall a: Bytes, b: Bytes :: |a| == |b| == size && AreBytes(a) && AreBytes(b) ==> InequalityRight(a, b, v))
       <==> size == 16
  {
    hide Exec, CompareCode, InequalityRight, SomeChunkEqual;
    if size == 16 {
      forall a: Bytes, b: Bytes | |a| == |b| == size && AreBytes(a) && AreBytes(b)
        ensures InequalityRight(a, b, v)
      {
        OneChunk(a, b, v);
      }
    } else {
      var a, b := seq(size, i => 0), seq(size, i => if i < 16 then 0 else 1);
      HalfEqual(a, b, v);
    }
  }

  lemma OneChunk(a: Bytes, b: Bytes, v: Vectors)
    requires |a| == |b| == 16 && AreBytes(a) && AreBytes(b)
    ensures InequalityRight(a, b, v)
  {
    hide Exec, CompareCode;
    InequalityDecides(a, b, v);
    assert a[0..16] == a && b[0..16] == b;
    assert !SomeChunkEqual(a, b, 16);
  }

  lemma HalfEqual(a: Bytes, b: Bytes, v: Vectors)
    requires |a| == |b| > 16 && |a| % 16 == 0 && AreBytes(a) && AreBytes(b) && a[..16] == b[..16] && a[16] != b[16]
    ensures !InequalityRight(a, b, v)
  {
    hide Exec, CompareCode;
    InequalityDecides(a, b, v);
    assert a[0..16] == a[..16] && b[0..16] == b[..16];
  }
}
