// Blocks that begin with deferred statements.

module Deferral {
  import opened Ir
  import opened Ast
  import opened LowerStmt
  import opened Labels

  lemma {:induction false} AppendNone(xs: Assigns)
    ensures Append(xs, NoAssigns) == xs
    decreases xs
  {
    if xs.MoreAssigns? {
      AppendNone(xs.rest);
    }
  }

  // Statements that register xs so that they run in this order, then go on.
  function Deferring(xs: Assigns, tail: Stmts): Stmts
    decreases xs
  {
    match xs
    case NoAssigns => tail
    case MoreAssigns(_, w, rest) => Deferring(rest, MoreStmts(DeferStmt(w), tail))
  }

  predicate Untyped(xs: Assigns) {
    xs.MoreAssigns? ==> xs.ty == NoType && Untyped(xs.rest)
  }

  lemma {:induction false} DeferringLowers(xs: Assigns, tail: Stmts, ds: Assigns, ctx: Ctx, replay: bool)
    requires PureAssigns(xs) && Untyped(xs)
    ensures BlockCode(Deferring(xs, tail), ds, ctx, replay) == BlockCode(tail, Append(xs, ds), ctx, replay)
    ensures HasReturns(Deferring(xs, tail)) == HasReturns(tail)
    ensures SupportedAll(Deferring(xs, tail), false, ds, NoAssigns) == SupportedAll(tail, false, Append(xs, ds), NoAssigns)
    ensures Replayed(Deferring(xs, tail), ds, replay) == Replayed(tail, Append(xs, ds), replay)
    ensures NumberedAll(Deferring(xs, tail)) == NumberedAll(tail)
    decreases xs
  {
    if xs.MoreAssigns? {
      DeferringLowers(xs.rest, MoreStmts(DeferStmt(xs.what), tail), ds, ctx, replay);
    }
  }
}
