// What is spilled to a local of another type.

module SpillSlots {
  import opened Ir
  import opened Destinations

  function LocalsOf(c: seq<Instr>, own: seq<TypeId>): seq<TypeId> {
    Before(c, own, |c|).locals
  }

  // The value of instruction j is spilled to local k.
  predicate SpillsTo(c: seq<Instr>, own: seq<TypeId>, j: nat, k: int) {
    j < |c| && DestOf(c, own, j) == Spill(k)
  }

  lemma {:induction false} FirstOf(c: seq<Instr>, own: seq<TypeId>, j: nat, k: int) returns (i: nat)
    requires SpillsTo(c, own, j, k)
    ensures i <= j < |c| && FirstSpill(c, own, i, k)
    decreases j
  {
    hide DestOf;
    if m: nat :| m < j && DestOf(c, own, m) == Spill(k) {
      i := FirstOf(c, own, m, k);
    } else {
      i := j;
    }
  }

  // The local has the type of the first value spilled there.
  lemma SlotType(c: seq<Instr>, own: seq<TypeId>, j: nat, k: int) returns (i: nat)
    requires NeverUnderflows(c) && SpillsTo(c, own, j, k)
    ensures i <= j < |c| && FirstSpill(c, own, i, k) && SpillsTo(c, own, i, k)
    ensures |own| <= k < |LocalsOf(c, own)| && LocalsOf(c, own)[k] == c[i].resultType
  {
    hide DestOf, NeverUnderflows, Before;
    i := FirstOf(c, own, j, k);
    SpillTypes(c, own, |c|);
  }

  // Every spilled value finds a local of its own type.
  ghost predicate TypesKept(c: seq<Instr>, own: seq<TypeId>) {
    forall j: nat, k: int :: SpillsTo(c, own, j, k) ==>
      0 <= k < |LocalsOf(c, own)| && LocalsOf(c, own)[k] == c[j].resultType
  }

  // Instructions that are given the same local have the same result type.
  ghost predicate OneTypeEach(c: seq<Instr>, own: seq<TypeId>) {
    forall i: nat, j: nat, k: int :: SpillsTo(c, own, i, k) && SpillsTo(c, own, j, k) ==>
      c[i].resultType == c[j].resultType
  }

  /** All spilled values get locals of their own types exactly when no local is given to two types. */
  lemma SpillTypesExact(c: seq<Instr>, own: seq<TypeId>)
    requires NeverUnderflows(c)
    ensures TypesKept(c, own) <==> OneTypeEach(c, own)
  {
    hide NeverUnderflows, DestOf, LocalsOf, FirstSpill;
    if OneTypeEach(c, own) {
      forall j: nat, k: int | SpillsTo(c, own, j, k)
        ensures 0 <= k < |LocalsOf(c, own)| && LocalsOf(c, own)[k] == c[j].resultType
      {
        var i := SlotType(c, own, j, k);
      }
    }
  }

  // ----- Sizes -----

  // No spilled value is written with more bytes than the local it is spilled to has.
  ghost predicate WidthsFit(c: seq<Instr>, own: seq<TypeId>, width: Instr -> nat, sizeOf: TypeId -> nat) {
    forall j: nat, k: int :: SpillsTo(c, own, j, k) ==>
      0 <= k < |LocalsOf(c, own)| && width(c[j]) <= sizeOf(LocalsOf(c, own)[k])
  }

  // None is written with more bytes than the first value spilled to the same local has.
  ghost predicate FirstWidest(c: seq<Instr>, own: seq<TypeId>, width: Instr -> nat, sizeOf: TypeId -> nat) {
    forall i: nat, j: nat, k: int :: i < |c| && FirstSpill(c, own, i, k) && SpillsTo(c, own, j, k) ==>
      width(c[j]) <= sizeOf(c[i].resultType)
  }

  /** All spilled values fit into their locals exactly when each fits into the type spilled there first. */
  lemma SpillWidthsExact(c: seq<Instr>, own: seq<TypeId>, width: Instr -> nat, sizeOf: TypeId -> nat)
    requires NeverUnderflows(c)
    ensures WidthsFit(c, own, width, sizeOf) <==> FirstWidest(c, own, width, sizeOf)
  {
    hide NeverUnderflows, DestOf, LocalsOf;
    if FirstWidest(c, own, width, sizeOf) {
      forall j: nat, k: int | SpillsTo(c, own, j, k)
        ensures 0 <= k < |LocalsOf(c, own)| && width(c[j]) <= sizeOf(LocalsOf(c, own)[k])
      {
        var i := SlotType(c, own, j, k);
      }
    } else {
      var i: nat, j: nat, k: int :| i < |c| && FirstSpill(c, own, i, k) && SpillsTo(c, own, j, k)
        && width(c[j]) > sizeOf(c[i].resultType);
      var m := SlotType(c, own, j, k);
      OneFirst(c, own, i, m, k);
    }
  }

  lemma OneFirst(c: seq<Instr>, own: seq<TypeId>, i: nat, m: nat, k: int)
    requires i < |c| && m < |c| && FirstSpill(c, own, i, k) && FirstSpill(c, own, m, k)
    ensures i == m
  {
    hide DestOf;
  }
}
