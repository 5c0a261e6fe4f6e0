// Layout of aggregates: the offsets of the fields, and the size and the alignment of the
// whole. First one aggregate over the shapes of its fields, then types of any depth down
// to their scalars.

module Layout {
  import opened Alignment

  type Positive = n: nat | n > 0 witness 1

  // What the layout of an aggregate sees of a field's type.
  datatype Shape = Shape(size: nat, alignment: Positive)

  // ----- One aggregate -----

  // The running offset once n fields have been placed.
  function Running(fs: seq<Shape>, n: nat): nat
    requires n <= |fs|
  {
    if n == 0 then 0 else Align(Running(fs, n - 1) + fs[n - 1].size, fs[n - 1].alignment)
  }

  function Offset(fs: seq<Shape>, i: nat): nat
    requires i < |fs|
  {
    Align(Running(fs, i), fs[i].alignment)
  }

  function MaxAlign(fs: seq<Shape>, n: nat): Positive
    requires n <= |fs|
  {
    if n == 0 then 1
    else if fs[n - 1].alignment > MaxAlign(fs, n - 1) then fs[n - 1].alignment
    else MaxAlign(fs, n - 1)
  }

  function AggregateShape(isC: bool, fs: seq<Shape>): Shape {
    var offs, most := Running(fs, |fs|), MaxAlign(fs, |fs|);
    if !isC && Align(offs, most) > 8 then Shape(Align(offs, 16), 16) else Shape(Align(offs, most), most)
  }

  datatype Field = Field(shape: Shape, offset: nat)

  class TypeDef {
    const isC: bool
    var fields: array<Field>
    var size: nat
    var alignment: Positive

    constructor (isC: bool, fields: array<Field>)
      ensures this.isC == isC && this.fields == fields
    {
      this.isC := isC;
      this.fields := fields;
      size, alignment := 0, 1;
    }

    function Shapes(): seq<Shape>
      reads this, fields
    {
      seq(fields.Length, i requires 0 <= i < fields.Length reads this, fields => fields[i].shape)
    }

    method ComputeSizeAlignmentOffsets()
      modifies this`size, this`alignment, fields
      ensures Shapes() == old(Shapes())
      ensures Shape(size, alignment) == AggregateShape(isC, Shapes())
      ensures forall i :: 0 <= i < fields.Length ==> fields[i].offset == Offset(Shapes(), i)
    {
      hide Align, Offset, Running, MaxAlign;
      ghost var shapes := Shapes();
      NoField(shapes);
      var maxAlign: Positive, offs: nat := 1, 0;
      var i := 0;
      while i < fields.Length
        invariant 0 <= i <= fields.Length && forall k :: 0 <= k < fields.Length ==> fields[k].shape == shapes[k]
        invariant offs == Running(shapes, i) && maxAlign == MaxAlign(shapes, i)
        invariant forall k :: 0 <= k < i ==> fields[k].offset == Offset(shapes, k)
      {
        var ftype := fields[i].shape;
        OffsetStep(shapes, i);
        RunningStep(shapes, i);
        fields[i] := Field(ftype, if offs > 0 then Align(offs, ftype.alignment) else 0);
        offs := offs + ftype.size;
        offs := Align(offs, ftype.alignment);
        maxAlign := if ftype.alignment > maxAlign then ftype.alignment else maxAlign;
        i := i + 1;
      }
      assert Shapes() == shapes;
      size := Align(offs, maxAlign);
      if !isC && size > 8 {
        size := Align(offs, 16);
        alignment := 16;
      } else {
        alignment := maxAlign;
      }
    }
  }

  lemma OffsetStep(fs: seq<Shape>, i: nat)
    requires i < |fs|
    ensures Offset(fs, i) == if Running(fs, i) > 0 then Align(Running(fs, i), fs[i].alignment) else 0
  {
    hide Running;
    AlignLeast(0, fs[i].alignment, 0);
  }

  // ----- Which fields get enough room -----

  // The remainders of the running offset and of the size add up badly.
  predicate Squeezed(o: nat, f: Shape) {
    o % f.alignment != 0 && f.size % f.alignment != 0 && o % f.alignment + f.size % f.alignment <= f.alignment
  }

  lemma WholePart(n: nat, a: nat)
    requires a > 0
    ensures n - n % a >= 0 && (n - n % a) % a == 0
  {
    assert n - n % a == a * (n / a);
    MultipleOf(n / a, a);
  }

  lemma WholeParts(o: nat, s: nat, a: nat)
    requires a > 0
    ensures o - o % a >= 0 && s - s % a >= 0 && (o - o % a + (s - s % a)) % a == 0
  {
    WholePart(o, a);
    WholePart(s, a);
    SumOfMultiples(o - o % a, s - s % a, a);
  }

  lemma AddRemainder(m: nat, r: nat, a: nat)
    requires a > 0 && m % a == 0 && r < 2 * a
    ensures (m + r) % a == if r < a then r else r - a
  {
    var k, x := m / a, m + r;
    assert m == a * k;
    assert x == a * (x / a) + x % a;
    var d := x / a - k;
    assert a * d == r - x % a;
    if r < a {
      OnlyZero(a, d);
    } else {
      assert a * (d - 1) == a * d - a;
      OnlyZero(a, d - 1);
    }
  }

  lemma RemainderOfSum(o: nat, s: nat, a: nat)
    requires a > 0
    ensures (o + s) % a == if o % a + s % a < a then o % a + s % a else o % a + s % a - a
  {
    var p, q := o % a, s % a;
    WholeParts(o, s, a);
    var m := o - p + (s - q);
    AddRemainder(m, p + q, a);
    assert o + s == m + (p + q);
  }

  /** A field ends within the running offset, so that no later field can overlap it, exactly unless it is squeezed. */
  lemma RoomExact(fs: seq<Shape>, i: nat)
    requires i < |fs|
    ensures Offset(fs, i) + fs[i].size <= Running(fs, i + 1) <==> !Squeezed(Running(fs, i), fs[i])
  {
    hide Running;
    var o, s, a := Running(fs, i), fs[i].size, fs[i].alignment;
    assert Running(fs, i + 1) == Align(o + s, a) by {
      RunningStep(fs, i);
    }
    RemainderOfSum(o, s, a);
  }

  lemma RunningStep(fs: seq<Shape>, i: nat)
    requires i < |fs|
    ensures Running(fs, i + 1) == Align(Running(fs, i) + fs[i].size, fs[i].alignment)
    ensures MaxAlign(fs, i + 1) == if fs[i].alignment > MaxAlign(fs, i) then fs[i].alignment else MaxAlign(fs, i)
  {
  }

  lemma NoField(fs: seq<Shape>)
    ensures Running(fs, 0) == 0 && MaxAlign(fs, 0) == 1
  {
  }

  // ----- Aggregates of regular fields -----

  // An alignment of at most 16 that divides the size.
  predicate RegularShape(f: Shape) {
    PowerUpTo16(f.alignment) && f.size % f.alignment == 0
  }

  predicate RegularShapes(fs: seq<Shape>) {
    forall i :: 0 <= i < |fs| ==> RegularShape(fs[i])
  }

  lemma MaxAlignAtLeast(fs: seq<Shape>, n: nat, i: nat)
    requires i < n <= |fs| && RegularShapes(fs)
    ensures fs[i].alignment <= MaxAlign(fs, n)
    decreases n
  {
    if i < n - 1 {
      MaxAlignAtLeast(fs, n - 1, i);
    }
  }

  lemma {:induction false} MaxAlignRegular(fs: seq<Shape>, n: nat)
    requires n <= |fs| && RegularShapes(fs)
    ensures PowerUpTo16(MaxAlign(fs, n))
    decreases n
  {
    if n > 0 {
      MaxAlignRegular(fs, n - 1);
    }
  }

  lemma {:induction false} RunningGrows(fs: seq<Shape>, m: nat, n: nat)
    requires m <= n <= |fs|
    ensures Running(fs, m) <= Running(fs, n)
    decreases n
  {
    hide Align;
    if m < n {
      RunningGrows(fs, m, n - 1);
    }
  }

  lemma FieldRoom(fs: seq<Shape>, i: nat)
    requires i < |fs| && RegularShapes(fs)
    ensures Running(fs, i) <= Offset(fs, i) && Offset(fs, i) + fs[i].size <= Running(fs, i + 1) <= Running(fs, |fs|)
    ensures Offset(fs, i) % fs[i].alignment == 0
  {
    hide Running, Align;
    RoomExact(fs, i);
    RunningGrows(fs, i + 1, |fs|);
  }

  /**
   * An aggregate of regular fields: fields lie in order without overlap, inside the
   * aggregate and aligned, and the aggregate is regular itself.
   */
  lemma AggregateSound(isC: bool, fs: seq<Shape>)
    requires RegularShapes(fs)
    ensures var s := AggregateShape(isC, fs);
            && RegularShape(s) && Running(fs, |fs|) <= s.size
            && (forall i :: 0 <= i < |fs| ==> Offset(fs, i) + fs[i].size <= s.size && Offset(fs, i) % fs[i].alignment == 0)
            && (forall i, j :: 0 <= i < j < |fs| ==> Offset(fs, i) + fs[i].size <= Offset(fs, j))
            && (forall i :: 0 <= i < |fs| ==> fs[i].alignment <= s.alignment)
  {
    hide Running, Align, Offset;
    MaxAlignRegular(fs, |fs|);
    forall i | 0 <= i < |fs|
      ensures Offset(fs, i) + fs[i].size <= Running(fs, |fs|) && Offset(fs, i) % fs[i].alignment == 0
      ensures fs[i].alignment <= MaxAlign(fs, |fs|)
    {
      FieldRoom(fs, i);
      MaxAlignAtLeast(fs, |fs|, i);
    }
    forall i, j | 0 <= i < j < |fs|
      ensures Offset(fs, i) + fs[i].size <= Offset(fs, j)
    {
      FieldRoom(fs, i);
      FieldRoom(fs, j);
      RunningGrows(fs, i + 1, j);
    }
  }

  // ----- C structs -----

  // The end of the field before field i.
  function EndBefore(fs: seq<Shape>, i: nat): nat
    requires i <= |fs|
  {
    if i == 0 then 0 else Offset(fs, i - 1) + fs[i - 1].size
  }

  // n is the lowest multiple of a that is not below m.
  ghost predicate LowestAligned(n: nat, m: nat, a: Positive) {
    m <= n && n % a == 0 && forall x: nat :: m <= x && x % a == 0 ==> n <= x
  }

  lemma AlignIsLowest(m: nat, a: Positive)
    ensures LowestAligned(Align(m, a), m, a)
  {
    forall x: nat | m <= x && x % a == 0
      ensures Align(m, a) <= x
    {
      AlignLeast(m, a, x);
    }
  }

  // With regular fields the running offset is the end of the last field.
  lemma RunningIsEnd(fs: seq<Shape>, i: nat)
    requires i <= |fs| && RegularShapes(fs)
    ensures Running(fs, i) == EndBefore(fs, i)
  {
    hide Align;
    if i > 0 {
      var o, s, a := Running(fs, i - 1), fs[i - 1].size, fs[i - 1].alignment;
      SumAligned(o, s, a);
    }
  }

  lemma SumAligned(o: nat, s: nat, a: Positive)
    requires s % a == 0
    ensures Align(o + s, a) == Align(o, a) + s
  {
    RemainderOfSum(o, s, a);
  }

  /**
   * A C struct as section 3.1.2 of the System V AMD64 ABI lays it out: each member at
   * the lowest aligned offset behind the one before, the struct as aligned as its most
   * strictly aligned member, its size the lowest multiple of that alignment.
   */
  lemma CStructAbi(fs: seq<Shape>)
    requires RegularShapes(fs)
    ensures forall i :: 0 <= i < |fs| ==> LowestAligned(Offset(fs, i), EndBefore(fs, i), fs[i].alignment)
    ensures var s := AggregateShape(true, fs);
            && (forall i :: 0 <= i < |fs| ==> fs[i].alignment <= s.alignment)
            && (s.alignment == 1 || exists i :: 0 <= i < |fs| && fs[i].alignment == s.alignment)
            && LowestAligned(s.size, EndBefore(fs, |fs|), s.alignment)
  {
    hide Align, Running, LowestAligned;
    forall i | 0 <= i < |fs|
      ensures LowestAligned(Offset(fs, i), EndBefore(fs, i), fs[i].alignment)
      ensures fs[i].alignment <= MaxAlign(fs, |fs|)
    {
      RunningIsEnd(fs, i);
      AlignIsLowest(Running(fs, i), fs[i].alignment);
      MaxAlignAtLeast(fs, |fs|, i);
    }
    RunningIsEnd(fs, |fs|);
    AlignIsLowest(Running(fs, |fs|), MaxAlign(fs, |fs|));
    MaxAlignReached(fs, |fs|);
  }

  /**
   * Any other aggregate has its members at the same offsets. It is like the C struct up to
   * eight bytes; above, it is aligned to 16 and its size is the lowest multiple of 16 that
   * holds the members.
   */
  lemma NativeAbi(fs: seq<Shape>)
    requires RegularShapes(fs)
    ensures var s, c := AggregateShape(false, fs), AggregateShape(true, fs);
            if c.size <= 8 then s == c else s.alignment == 16 && LowestAligned(s.size, EndBefore(fs, |fs|), 16)
  {
    hide Align, Running, LowestAligned;
    RunningIsEnd(fs, |fs|);
    AlignIsLowest(Running(fs, |fs|), 16);
  }

  lemma {:induction false} MaxAlignReached(fs: seq<Shape>, n: nat)
    requires n <= |fs|
    ensures MaxAlign(fs, n) == 1 || exists i :: 0 <= i < n && fs[i].alignment == MaxAlign(fs, n)
    decreases n
  {
    if n > 0 {
      MaxAlignReached(fs, n - 1);
    }
  }

  // ----- Types of any depth -----

  datatype Type =
    | Scalar(shape: Shape)
    | Struct(isC: bool, members: Types)
    | StaticArray(length: nat, elem: Type)

  datatype Types = NoTypes | MoreTypes(head: Type, tail: Types)

  function ShapeOf(t: Type): Shape
    decreases t
  {
    match t
    case Scalar(s) => s
    case Struct(isC, ms) => AggregateShape(isC, ShapesOf(ms))
    case StaticArray(n, e) =>
      var size := n * ShapeOf(e).size;
      Shape(size, if size > 8 then 16 else ShapeOf(e).alignment)
  }

  function ShapesOf(ts: Types): seq<Shape>
    decreases ts
  {
    match ts
    case NoTypes => []
    case MoreTypes(t, rest) => [ShapeOf(t)] + ShapesOf(rest)
  }

  // Scalars are regular, and so are arrays: a large one fills whole 16-byte units.
  predicate Regular(t: Type)
    decreases t
  {
    match t
    case Scalar(s) => RegularShape(s)
    case Struct(_, ms) => AllRegular(ms)
    case StaticArray(n, e) => Regular(e) && (n * ShapeOf(e).size <= 8 || n * ShapeOf(e).size % 16 == 0)
  }

  predicate AllRegular(ts: Types)
    decreases ts
  {
    match ts
    case NoTypes => true
    case MoreTypes(t, rest) => Regular(t) && AllRegular(rest)
  }

  // The scalars of a type placed at base, first to last.
  datatype Placed = Placed(offset: nat, shape: Shape)

  function Leaves(t: Type, base: nat): seq<Placed>
    decreases t, 0
  {
    match t
    case Scalar(s) => [Placed(base, s)]
    case Struct(_, ms) => MemberLeaves(ms, ShapesOf(ms), 0, base)
    case StaticArray(n, e) => ElementLeaves(e, n, base)
  }

  // The members from number i on.
  function MemberLeaves(ts: Types, fs: seq<Shape>, i: nat, base: nat): seq<Placed>
    decreases ts, 1
  {
    if ts.NoTypes? || i >= |fs| then []
    else Leaves(ts.head, base + Offset(fs, i)) + MemberLeaves(ts.tail, fs, i + 1, base)
  }

  function ElementLeaves(e: Type, n: nat, base: nat): seq<Placed>
    decreases e, n + 1
  {
    if n == 0 then [] else ElementLeaves(e, n - 1, base) + Leaves(e, base + (n - 1) * ShapeOf(e).size)
  }

  // In order without overlap, within bounds, and each aligned.
  predicate Sound(ps: seq<Placed>, lo: nat, hi: nat) {
    && (forall i :: 0 <= i < |ps| ==> lo <= ps[i].offset && ps[i].offset + ps[i].shape.size <= hi)
    && (forall i, j :: 0 <= i < j < |ps| ==> ps[i].offset + ps[i].shape.size <= ps[j].offset)
    && (forall i :: 0 <= i < |ps| ==> ps[i].offset % ps[i].shape.alignment == 0)
  }

  lemma SoundJoin(ps: seq<Placed>, qs: seq<Placed>, lo: nat, mid: nat, hi: nat)
    requires Sound(ps, lo, mid) && Sound(qs, mid, hi) && lo <= mid <= hi
    ensures Sound(ps + qs, lo, hi)
  {
  }

  lemma SoundWider(ps: seq<Placed>, lo: nat, hi: nat, lo1: nat, hi1: nat)
    requires Sound(ps, lo1, hi1) && lo <= lo1 && hi1 <= hi
    ensures Sound(ps, lo, hi)
  {
  }

  lemma {:induction false} TypeRegular(t: Type)
    requires Regular(t)
    ensures RegularShape(ShapeOf(t))
    decreases t
  {
    match t
    case Scalar(_) =>
    case Struct(isC, ms) =>
      TypesRegular(ms);
      AggregateSound(isC, ShapesOf(ms));
    case StaticArray(n, e) =>
      TypeRegular(e);
      ArrayRegular(n, ShapeOf(e));
  }

  lemma {:induction false} TypesRegular(ts: Types)
    requires AllRegular(ts)
    ensures RegularShapes(ShapesOf(ts))
    decreases ts
  {
    if ts.MoreTypes? {
      TypeRegular(ts.head);
      TypesRegular(ts.tail);
    }
  }

  lemma ArrayRegular(n: nat, s: Shape)
    requires RegularShape(s) && (n * s.size <= 8 || n * s.size % 16 == 0)
    ensures RegularShape(Shape(n * s.size, if n * s.size > 8 then 16 else s.alignment))
  {
    TimesAligned(n, s.size, s.alignment);
  }

  lemma {:induction false} TimesAligned(n: nat, size: nat, a: Positive)
    requires size % a == 0
    ensures n * size % a == 0
  {
    var q := size / a;
    assert size == a * q;
    assert n * size == a * (n * q) by {
      assert n * (a * q) == a * (n * q);
    }
    MultipleOf(n * q, a);
  }

  /**
   * Types of any depth: every scalar lies aligned inside the type, and no two overlap,
   * wherever a value of the type is placed at its alignment.
   */
  lemma {:induction false} TypeSound(t: Type, base: nat)
    requires Regular(t) && base % ShapeOf(t).alignment == 0
    ensures Sound(Leaves(t, base), base, base + ShapeOf(t).size)
    decreases t, 0
  {
    hide Sound, AggregateShape, Offset, RegularShapes;
    match t
    case Scalar(s) => OneSound(base, s);
    case Struct(isC, ms) =>
      var fs := ShapesOf(ms);
      TypesRegular(ms);
      AggregateSound(isC, fs);
      StartSound(fs, base);
      MembersSound(ms, fs, 0, base, ShapeOf(t));
    case StaticArray(n, e) =>
      TypeRegular(e);
      ElementAligned(n, ShapeOf(e), base);
      ElementsSound(e, n, base);
  }

  lemma OneSound(base: nat, s: Shape)
    requires base % s.alignment == 0
    ensures Sound([Placed(base, s)], base, base + s.size)
  {
  }

  lemma StartSound(fs: seq<Shape>, base: nat)
    ensures Running(fs, 0) == 0 && Sound([], base, base)
  {
  }

  lemma ElementAligned(n: nat, s: Shape, base: nat)
    requires RegularShape(s) && base % (if n * s.size > 8 then 16 else s.alignment) == 0
    ensures base % s.alignment == 0
  {
    if n * s.size > 8 {
      Coarser(base, s.alignment, 16);
    }
  }

  lemma {:induction false} ElementsSound(e: Type, n: nat, base: nat)
    requires Regular(e) && base % ShapeOf(e).alignment == 0
    ensures Sound(ElementLeaves(e, n, base), base, base + n * ShapeOf(e).size)
    decreases e, n + 1
  {
    hide Sound, ShapeOf, Regular, Leaves, PowerUpTo16;
    var s := ShapeOf(e);
    if n == 0 {
      NoneSound(base);
    } else {
      var at := (n - 1) * s.size;
      OneMoreTime(n, s.size);
      ElementsSound(e, n - 1, base);
      TypeRegular(e);
      TimesAligned(n - 1, s.size, s.alignment);
      SumOfMultiples(base, at, s.alignment);
      TypeSound(e, base + at);
      SoundJoin(ElementLeaves(e, n - 1, base), Leaves(e, base + at), base, base + at, base + n * s.size);
    }
  }

  lemma OneMoreTime(n: nat, size: nat)
    requires n > 0
    ensures n * size == (n - 1) * size + size
  {
  }

  lemma NoneSound(base: nat)
    ensures Sound([], base, base)
  {
  }

  // ts are the members of the aggregate from number i on.
  predicate Suffix(ts: Types, fs: seq<Shape>, i: nat) {
    i <= |fs| && fs[i..] == ShapesOf(ts)
  }

  lemma MemberAligned(s: Shape, f: Shape, offset: nat, base: nat)
    requires RegularShape(s) && RegularShape(f) && f.alignment <= s.alignment
    requires base % s.alignment == 0 && offset % f.alignment == 0
    ensures (base + offset) % f.alignment == 0
  {
    Coarser(base, f.alignment, s.alignment);
    SumOfMultiples(base, offset, f.alignment);
  }

  lemma {:induction false} MembersSound(ts: Types, fs: seq<Shape>, i: nat, base: nat, s: Shape)
    requires Suffix(ts, fs, i) && AllRegular(ts) && RegularShapes(fs) && RegularShape(s)
    requires forall k :: 0 <= k < |fs| ==> fs[k].alignment <= s.alignment
    requires base % s.alignment == 0 && Running(fs, |fs|) <= s.size
    ensures Sound(MemberLeaves(ts, fs, i, base), base + Running(fs, i), base + s.size)
    decreases ts, 1
  {
    hide Sound, Running, Offset, RegularShape;
    RunningGrows(fs, i, |fs|);
    if ts.NoTypes? {
      NoneSound(base + s.size);
      SoundWider([], base + Running(fs, i), base + s.size, base + s.size, base + s.size);
    } else {
      assert fs[i] == fs[i..][0] && fs[i + 1..] == fs[i..][1..];
      var at := base + Offset(fs, i);
      FieldRoom(fs, i);
      MemberAligned(s, fs[i], Offset(fs, i), base);
      TypeSound(ts.head, at);
      MembersSound(ts.tail, fs, i + 1, base, s);
      SoundWider(Leaves(ts.head, at), base + Running(fs, i), base + Running(fs, i + 1), at, at + fs[i].size);
      RunningGrows(fs, i + 1, |fs|);
      SoundJoin(Leaves(ts.head, at), MemberLeaves(ts.tail, fs, i + 1, base),
                base + Running(fs, i), base + Running(fs, i + 1), base + s.size);
    }
  }

  // ----- A large array that is not regular -----

  // struct { x: int32; a: array of three int32; y: int32 }
  function Overlapping(): Type {
    var int32 := Scalar(Shape(4, 4));
    Struct(false, MoreTypes(int32, MoreTypes(StaticArray(3, int32), MoreTypes(int32, NoTypes))))
  }

  /** Its array is squeezed: the member behind it is placed on its first element. */
  lemma ArrayOverlaps()
    ensures var fs := ShapesOf(Overlapping().members);
            && !Regular(Overlapping()) && Squeezed(Running(fs, 1), fs[1])
            && Offset(fs, 1) == Offset(fs, 2) == 16
  {
    var int32 := Scalar(Shape(4, 4));
    var ms := Overlapping().members;
    var fs := ShapesOf(ms);
    assert ShapesOf(ms.tail.tail) == [Shape(4, 4)];
    assert ShapesOf(ms.tail) == [Shape(12, 16), Shape(4, 4)];
    assert fs == [Shape(4, 4), Shape(12, 16), Shape(4, 4)];
    assert Running(fs, 1) == 4 && Running(fs, 2) == 16;
  }
}
