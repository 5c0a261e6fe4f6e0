// The bucket arena.

module Arena {
  import opened Alignment

  // ----- Powers of two -----

  predicate IsPow2(n: nat) {
    n == 1 || (n > 0 && n % 2 == 0 && IsPow2(n / 2))
  }

  lemma {:induction false} Pow2Double(n: nat)
    requires IsPow2(n)
    ensures IsPow2(2 * n)
  {
    assert 2 * n / 2 == n;
  }

  // There is no power of two between one and its double.
  lemma {:induction false} Pow2Gap(p: nat, q: nat)
    requires IsPow2(p) && IsPow2(q) && p < q
    ensures 2 * p <= q
    decreases p
  {
    if p != 1 {
      Pow2Gap(p / 2, q / 2);
    }
  }

  /** The least power of two that is not below n. */
  ghost predicate LeastPow2(n: nat, p: nat) {
    IsPow2(p) && n <= p && forall q: nat :: IsPow2(q) && n <= q ==> p <= q
  }

  function BitAnd(x: nat, y: nat): nat {
    if x == 0 || y == 0 then 0
    else 2 * BitAnd(x / 2, y / 2) + (if x % 2 == 1 && y % 2 == 1 then 1 else 0)
  }

  // Clearing the lowest bit of a number leaves nothing of a power of two only.
  lemma {:induction false} LowestBit(n: nat)
    requires n > 0
    ensures BitAnd(n, n - 1) == 0 <==> IsPow2(n)
    decreases n
  {
    if n > 1 {
      LowestBit(n / 2);
      if n % 2 == 1 {
        AndSelf(n / 2);
      }
    }
  }

  lemma {:induction false} AndSelf(n: nat)
    ensures BitAnd(n, n) == n
  {
    if n > 0 {
      AndSelf(n / 2);
    }
  }

  lemma {:induction false} AndBelow(x: nat, y: nat)
    ensures BitAnd(x, y) <= y
    decreases x
  {
    if x > 0 && y > 0 {
      AndBelow(x / 2, y / 2);
    }
  }

  /** The mask a - 1 takes the remainder by a power of two. */
  lemma {:induction false} MaskRemainder(x: nat, a: nat)
    requires IsPow2(a)
    ensures BitAnd(x, a - 1) == x % a
    decreases a
  {
    if a > 1 {
      var b := a / 2;
      MaskRemainder(x / 2, b);
      AndOdd(x, b - 1);
      HalfRemainder(x, b);
      assert a - 1 == 2 * (b - 1) + 1;
    } else {
      assert x % 1 == 0;
    }
  }

  lemma AndOdd(x: nat, m: nat)
    ensures BitAnd(x, 2 * m + 1) == 2 * BitAnd(x / 2, m) + x % 2
  {
    assert (2 * m + 1) / 2 == m && (2 * m + 1) % 2 == 1;
  }

  lemma HalfRemainder(x: nat, b: nat)
    requires b > 0
    ensures x % (2 * b) == 2 * (x / 2 % b) + x % 2
  {
    var q, r := x / 2 / b, x / 2 % b;
    assert x == 2 * (q * b + r) + x % 2;
    RemainderOf(q, 2 * b, 2 * r + x % 2);
    assert x == (2 * b) * q + (2 * r + x % 2);
  }

  lemma RemainderOf(q: nat, m: nat, r: nat)
    requires r < m
    ensures (m * q + r) % m == r
  {
    var x := m * q + r;
    var d := x / m - q;
    assert m * d == r - x % m;
    OnlyZero(m, d);
  }

  // For any other number some address below it is taken to be aligned.
  lemma {:induction false} MaskMisses(a: nat) returns (x: nat)
    requires a > 0 && !IsPow2(a)
    ensures 0 < x < a && BitAnd(x, a - 1) == 0
    decreases a
  {
    if a % 2 == 1 {
      x := 1;
    } else {
      var y := MaskMisses(a / 2);
      x := 2 * y;
      assert (a - 1) / 2 == a / 2 - 1;
    }
  }

  // Above 2^63 the doubled value wraps around to 0 and the loop has no end.
  method NextPow2(n: nat) returns (p: nat)
    requires n <= 0x8000_0000_0000_0000
    ensures LeastPow2(n, p)
  {
    p := 1;
    if n != 0 {
      LowestBit(n);
      if BitAnd(n, n - 1) == 0 {
        return n;
      }
    }
    while p < n
      invariant IsPow2(p)
      invariant p == 1 || forall q: nat :: IsPow2(q) && n <= q ==> p <= q
      decreases n - p
    {
      forall q: nat | IsPow2(q) && n <= q
        ensures 2 * p <= q
      {
        Pow2Gap(p, q);
      }
      Pow2Double(p);
      p := 2 * p;
    }
  }

  // ----- Buckets -----

  datatype Bucket = Bucket(data: nat, size: nat, capacity: nat, alignment: nat)

  // From the end of the used part to the next aligned address, with the mask alignment - 1.
  function AlignmentOffset(b: Bucket): (offset: nat)
    requires b.alignment > 0
  {
    var rest := BitAnd(b.data + b.size, b.alignment - 1);
    AndBelow(b.data + b.size, b.alignment - 1);
    if rest != 0 then b.alignment - rest else 0
  }

  predicate FitsInBucket(b: Bucket, size: nat)
    requires b.alignment > 0
  {
    b.size + size + AlignmentOffset(b) <= b.capacity
  }

  function BlockAddress(b: Bucket): nat
    requires b.alignment > 0
  {
    b.data + b.size + AlignmentOffset(b)
  }

  function Grown(b: Bucket, size: nat): Bucket
    requires b.alignment > 0
  {
    b.(size := b.size + size + AlignmentOffset(b))
  }

  lemma BlockAligned(b: Bucket)
    requires IsPow2(b.alignment)
    ensures BlockAddress(b) % b.alignment == 0
  {
    MaskRemainder(b.data + b.size, b.alignment);
    assert BlockAddress(b) == Align(b.data + b.size, b.alignment);
  }

  // Its next block is aligned.
  predicate NextAligned(b: Bucket)
    requires b.alignment > 0
  {
    BlockAddress(b) % b.alignment == 0
  }

  lemma MissedBlock(alignment: nat) returns (b: Bucket)
    requires alignment > 0 && !IsPow2(alignment)
    ensures b.alignment == alignment && !NextAligned(b)
  {
    hide BitAnd, IsPow2;
    var x := MaskMisses(alignment);
    b := Bucket(x, 0, 0, alignment);
    assert BlockAddress(b) == x;
  }

  /** Blocks are aligned wherever they start exactly when the alignment is a power of two. */
  lemma AlignedExact(alignment: nat)
    requires alignment > 0
    ensures (forall b: Bucket :: b.alignment == alignment ==> NextAligned(b)) <==> IsPow2(alignment)
  {
    hide BitAnd, IsPow2, AlignmentOffset, BlockAddress;
    if IsPow2(alignment) {
      forall b: Bucket | b.alignment == alignment
        ensures NextAligned(b)
      {
        BlockAligned(b);
      }
    } else {
      var b := MissedBlock(alignment);
    }
  }

  // A block of some size at an aligned address behind the used part of a bucket.
  predicate Gap(b: Bucket, address: nat, size: nat)
    requires b.alignment > 0
  {
    address % b.alignment == 0 && b.data + b.size <= address && address + size <= b.data + b.capacity
  }

  /** For alignments that are powers of two a bucket has room exactly when it has such a gap, and its next block is the lowest. */
  lemma FitsExact(b: Bucket, size: nat)
    requires IsPow2(b.alignment)
    ensures FitsInBucket(b, size) <==> exists address: nat :: Gap(b, address, size)
    ensures forall address: nat :: Gap(b, address, size) ==> BlockAddress(b) <= address
  {
    hide BitAnd;
    MaskRemainder(b.data + b.size, b.alignment);
    assert BlockAddress(b) == Align(b.data + b.size, b.alignment);
    BlockAligned(b);
    forall address: nat | Gap(b, address, size)
      ensures BlockAddress(b) <= address && FitsInBucket(b, size)
    {
      AlignLeast(b.data + b.size, b.alignment, address);
    }
    if FitsInBucket(b, size) {
      assert Gap(b, BlockAddress(b), size);
    }
  }

  // The first bucket with room, or the number of buckets.
  function FirstFit(bs: seq<Bucket>, size: nat): (k: nat)
    requires forall i :: 0 <= i < |bs| ==> bs[i].alignment > 0
    ensures k <= |bs| && (k < |bs| ==> FitsInBucket(bs[k], size))
    ensures forall i :: 0 <= i < k ==> !FitsInBucket(bs[i], size)
  {
    if bs == [] then 0
    else if FitsInBucket(bs[0], size) then 0
    else
      var k := FirstFit(bs[1..], size);
      assert forall i :: 0 < i < k + 1 ==> bs[i] == bs[1..][i - 1];
      k + 1
  }

  // ----- What is live -----

  // A block handed out since the last clear.
  datatype Block = Block(address: nat, size: nat, bucket: nat)

  predicate Apart(a: nat, n: nat, b: nat, m: nat) {
    a + n <= b || b + m <= a
  }

  // Buckets are separate pieces of memory.
  predicate Separate(bs: seq<Bucket>) {
    forall i, j :: 0 <= i < j < |bs| ==> Apart(bs[i].data, bs[i].capacity, bs[j].data, bs[j].capacity)
  }

  predicate BucketsFit(bs: seq<Bucket>, alignment: nat) {
    forall i :: 0 <= i < |bs| ==> bs[i].size <= bs[i].capacity && bs[i].alignment == alignment > 0
  }

  predicate Inside(bs: seq<Bucket>, x: Block) {
    x.bucket < |bs| && bs[x.bucket].data <= x.address && x.address + x.size <= bs[x.bucket].data + bs[x.bucket].size
  }

  /**
   * Every live block is in the used part of its bucket and apart from all others, and it
   * is aligned if the alignment is a power of two.
   */
  predicate Safe(bs: seq<Bucket>, alignment: nat, live: seq<Block>) {
    && Separate(bs) && BucketsFit(bs, alignment)
    && (forall i :: 0 <= i < |live| ==> Inside(bs, live[i]))
    && (IsPow2(alignment) ==> forall i :: 0 <= i < |live| ==> live[i].address % alignment == 0)
    && (forall i, j :: 0 <= i < j < |live| ==> Apart(live[i].address, live[i].size, live[j].address, live[j].size))
  }

  // A block in the used part of a bucket and one in its unused part, or in another bucket.
  lemma NewBlockApart(bs: seq<Bucket>, x: Block, k: nat, size: nat)
    requires k < |bs| && Separate(bs) && (forall i :: 0 <= i < |bs| ==> bs[i].size <= bs[i].capacity)
    requires bs[k].alignment > 0 && FitsInBucket(bs[k], size) && Inside(bs, x)
    ensures Apart(x.address, x.size, BlockAddress(bs[k]), size)
  {
    if x.bucket != k {
      var i, j := if x.bucket < k then x.bucket else k, if x.bucket < k then k else x.bucket;
      assert Apart(bs[i].data, bs[i].capacity, bs[j].data, bs[j].capacity);
    }
  }

  lemma GrowSafe(bs: seq<Bucket>, alignment: nat, live: seq<Block>, k: nat, size: nat)
    requires Safe(bs, alignment, live) && k < |bs| && FitsInBucket(bs[k], size)
    ensures Safe(bs[k := Grown(bs[k], size)], alignment, live + [Block(BlockAddress(bs[k]), size, k)])
  {
    hide IsPow2, AlignmentOffset;
    if IsPow2(alignment) {
      BlockAligned(bs[k]);
    }
    forall i | 0 <= i < |live|
      ensures Apart(live[i].address, live[i].size, BlockAddress(bs[k]), size)
    {
      NewBlockApart(bs, live[i], k, size);
    }
  }

  predicate Fresh(bs: seq<Bucket>, data: nat, capacity: nat) {
    forall i :: 0 <= i < |bs| ==> Apart(bs[i].data, bs[i].capacity, data, capacity)
  }

  lemma AddSafe(bs: seq<Bucket>, alignment: nat, live: seq<Block>, b: Bucket)
    requires Safe(bs, alignment, live) && Fresh(bs, b.data, b.capacity) && b.size == 0 && b.alignment == alignment > 0
    ensures Safe(bs + [b], alignment, live)
  {
    assert forall x :: Inside(bs, x) ==> Inside(bs + [b], x);
  }

  class MemoryArena {
    var buckets: seq<Bucket>
    const bucketSize: nat
    const alignment: nat
    ghost var live: seq<Block>

    ghost predicate Valid()
      reads this
    {
      alignment > 0 && Safe(buckets, alignment, live)
    }

    constructor (size: nat, alignment: nat)
      requires size <= 0x8000_0000_0000_0000 && alignment > 0
      ensures Valid() && live == [] && buckets == []
      ensures this.alignment == alignment && LeastPow2(size, bucketSize)
    {
      this.alignment := alignment;
      buckets, live := [], [];
      var p := NextPow2(size);
      bucketSize := p;
    }

    // All buckets have the alignment of the arena.
    predicate Uniform()
      reads this
    {
      alignment > 0 && forall i :: 0 <= i < |buckets| ==> buckets[i].alignment == alignment
    }

    /**
     * memory is where the system would put a new bucket; it is used only when no bucket
     * has room. Safe before, the arena is safe after it exactly when the block fits: in a
     * bucket or, alone, in the new one.
     */
    method Alloc(size: nat, memory: nat) returns (address: nat)
      requires Uniform()
      modifies this
      ensures Uniform()
      ensures var k, b := FirstFit(old(buckets), size), Bucket(memory, 0, bucketSize, alignment);
              && (k < |old(buckets)| ==> buckets == old(buckets)[k := Grown(old(buckets)[k], size)])
              && (k == |old(buckets)| ==> buckets == old(buckets) + [Grown(b, size)])
              && address == BlockAddress(if k < |old(buckets)| then old(buckets)[k] else b)
              && live == old(live) + [Block(address, size, k)]
              && (old(Valid()) && Fresh(old(buckets), memory, bucketSize) ==>
                    (Valid() <==> k < |old(buckets)| || FitsInBucket(b, size)))
    {
      hide IsPow2, BitAnd, AlignmentOffset, Separate, Fresh;
      ghost var bs := buckets;
      var i := 0;
      while i < |buckets|
        invariant 0 <= i <= |buckets| && buckets == bs && live == old(live)
        invariant forall j :: 0 <= j < i ==> !FitsInBucket(bs[j], size)
      {
        if FitsInBucket(buckets[i], size) {
          if Valid() {
            GrowSafe(buckets, alignment, live, i, size);
          }
          address := BlockAddress(buckets[i]);
          buckets := buckets[i := Grown(buckets[i], size)];
          live := live + [Block(address, size, i)];
          return;
        }
        i := i + 1;
      }
      var b := Bucket(memory, 0, bucketSize, alignment);
      ghost var safe := Valid() && Fresh(buckets, memory, bucketSize);
      if safe {
        AddSafe(buckets, alignment, live, b);
      }
      buckets := buckets + [b];
      var last := |buckets| - 1;
      if safe && FitsInBucket(b, size) {
        GrowSafe(buckets, alignment, live, last, size);
      }
      address := BlockAddress(buckets[last]);
      buckets := buckets[last := Grown(buckets[last], size)];
      live := live + [Block(address, size, last)];
      assert buckets[last].size <= bucketSize <==> FitsInBucket(b, size);
    }

    // Every bucket is empty again; what was handed out is given up.
    method Clear()
      requires Uniform()
      modifies this
      ensures Uniform() && live == [] && (old(Separate(buckets)) ==> Valid())
      ensures |buckets| == |old(buckets)|
      ensures forall i :: 0 <= i < |buckets| ==> buckets[i] == old(buckets)[i].(size := 0)
    {
      ghost var bs := buckets;
      var i := 0;
      while i < |buckets|
        invariant 0 <= i <= |buckets| == |bs|
        invariant forall j :: 0 <= j < i ==> buckets[j] == bs[j].(size := 0)
        invariant forall j :: i <= j < |bs| ==> buckets[j] == bs[j]
      {
        buckets := buckets[i := buckets[i].(size := 0)];
        i := i + 1;
      }
      live := [];
    }
  }

  // ----- Whole runs -----

  // A request and the place the system has for a new bucket, should one be needed.
  datatype Request = Request(size: nat, memory: nat)

  datatype State = State(buckets: seq<Bucket>, live: seq<Block>)

  function Serve(s: State, r: Request, bucketSize: nat, alignment: nat): State
    requires alignment > 0 && forall i :: 0 <= i < |s.buckets| ==> s.buckets[i].alignment == alignment
  {
    var k := FirstFit(s.buckets, r.size);
    var bs := if k < |s.buckets| then s.buckets else s.buckets + [Bucket(r.memory, 0, bucketSize, alignment)];
    State(bs[k := Grown(bs[k], r.size)], s.live + [Block(BlockAddress(bs[k]), r.size, k)])
  }

  ghost predicate Served(s: State, rs: seq<Request>, t: State, bucketSize: nat, alignment: nat)
    decreases |rs|
  {
    if rs == [] then s == t
    else
      && BucketsFit(s.buckets, alignment) && alignment > 0
      && Fresh(s.buckets, rs[0].memory, bucketSize)
      && Served(Serve(s, rs[0], bucketSize, alignment), rs[1..], t, bucketSize, alignment)
  }

  /**
   * A run of requests none of which exceeds the bucket size, with new buckets that need no
   * padding: all blocks of the run are inside their buckets and pairwise apart, and aligned
   * if the alignment is a power of two.
   */
  lemma {:induction false} RunSafe(s: State, rs: seq<Request>, t: State, bucketSize: nat, alignment: nat)
    requires alignment > 0 && Safe(s.buckets, alignment, s.live) && Served(s, rs, t, bucketSize, alignment)
    requires forall i :: 0 <= i < |rs| ==> rs[i].size <= bucketSize && BitAnd(rs[i].memory, alignment - 1) == 0
    ensures Safe(t.buckets, alignment, t.live) && |t.live| == |s.live| + |rs|
    decreases |rs|
  {
    hide Safe, BitAnd;
    if rs != [] {
      ServeSafe(s, rs[0], bucketSize, alignment);
      RunSafe(Serve(s, rs[0], bucketSize, alignment), rs[1..], t, bucketSize, alignment);
    }
  }

  lemma ServeSafe(s: State, r: Request, bucketSize: nat, alignment: nat)
    requires alignment > 0 && Safe(s.buckets, alignment, s.live) && Fresh(s.buckets, r.memory, bucketSize)
    requires r.size <= bucketSize && BitAnd(r.memory, alignment - 1) == 0
    ensures BucketsFit(s.buckets, alignment)
    ensures var t := Serve(s, r, bucketSize, alignment); Safe(t.buckets, alignment, t.live) && |t.live| == |s.live| + 1
  {
    hide BitAnd, IsPow2, Fresh;
    var k := FirstFit(s.buckets, r.size);
    var b := Bucket(r.memory, 0, bucketSize, alignment);
    if k == |s.buckets| {
      AddSafe(s.buckets, alignment, s.live, b);
      GrowSafe(s.buckets + [b], alignment, s.live, k, r.size);
    } else {
      GrowSafe(s.buckets, alignment, s.live, k, r.size);
    }
  }
}
