// The order in which a return replays what was deferred.

module Defers {
  import opened Ast
  import opened LowerStmt
  import opened Generator

  // What a row replays, as a list.
  function Replays(xs: Assigns): seq<Later> {
    match xs
    case NoAssigns => []
    case MoreAssigns(_, w, rest) => [w] + Replays(rest)
  }

  // What the open scopes have deferred, in the order of the statements: an inner scope
  // was opened after everything its outer scopes have deferred so far.
  function Registered(scopes: seq<seq<Later>>): seq<Later> {
    if scopes == [] then [] else Registered(scopes[..|scopes| - 1]) + scopes[|scopes| - 1]
  }

  predicate Mirrors(xs: seq<Later>, ys: seq<Later>) {
    |xs| == |ys| && forall i :: 0 <= i < |xs| ==> xs[i] == ys[|ys| - 1 - i]
  }

  lemma {:induction false} LatestMirrors(ds: seq<Later>)
    ensures Mirrors(Replays(Latest(ds)), ds)
    decreases |ds|
  {
    if ds != [] {
      LatestMirrors(ds[..|ds| - 1]);
    }
  }

  lemma {:induction false} ReplaysAppend(xs: Assigns, ys: Assigns)
    ensures Replays(Append(xs, ys)) == Replays(xs) + Replays(ys)
    decreases xs
  {
    if xs.MoreAssigns? {
      ReplaysAppend(xs.rest, ys);
    }
  }

  /**
   * At a return inside any number of open scopes, the assignments and calls replayed are exactly
   * those deferred so far in these scopes, the last one first.
   */
  lemma {:induction false} CollectedMirrors(scopes: seq<seq<Later>>)
    ensures Mirrors(Replays(Collected(scopes)), Registered(scopes))
    decreases |scopes|
  {
    if scopes != [] {
      var n := |scopes| - 1;
      CollectedMirrors(scopes[..n]);
      LatestMirrors(scopes[n]);
      ReplaysAppend(Latest(scopes[n]), Collected(scopes[..n]));
    }
  }
}
