// How statements can end.

module Escape {
  import opened Ir
  import opened Machine
  import opened Ast

  // The statement contains no continue of its own; those of loops inside it are theirs.
  predicate NoContinue(s: Stmt)
    decreases s
  {
    match s
    case If(_, _, thn, els) => NoContinue(thn) && (els.Some? ==> NoContinue(els.value))
    case Block(b) => NoContinues(b)
    case Continue => false
    case _ => true
  }

  predicate NoContinues(b: Stmts)
    decreases b
  {
    b.MoreStmts? ==> NoContinue(b.head) && NoContinues(b.tail)
  }

  // A body that ended like this leads on to the next element.
  predicate GoesOn(o: Outcome) {
    o.Normal? || o.Continued?
  }

  // A loop keeps its breaks and continues to itself.
  lemma {:induction false} LoopStays(s: Stmt, st: Store, env: Env, fuel: nat)
    ensures s.While? ==> !ExecWhile(s, st, env, fuel).Broke? && !ExecWhile(s, st, env, fuel).Continued?
    ensures s.For? ==> !ExecFor(s, st, env, fuel).Broke? && !ExecFor(s, st, env, fuel).Continued?
    decreases fuel, s, 0
  {
    if fuel > 0 && s.While? {
      var o := Exec(s.body, RanCond(s.cond, st, env), env, fuel - 1);
      if o.Normal? || o.Continued? {
        LoopStays(s, o.store, env, fuel - 1);
      }
    } else if fuel > 0 && s.For? {
      var o := Exec(s.body, SetStep(s.range, st), env, fuel - 1);
      if (o.Normal? || o.Continued?) && Advance(s.range, o.store, env).Some? {
        LoopStays(s, Advance(s.range, o.store, env).value, env, fuel - 1);
      }
    }
  }

  lemma {:induction false} NeverContinues(s: Stmt, st: Store, env: Env, f: nat)
    requires NoContinue(s)
    ensures !Exec(s, st, env, f).Continued?
    decreases f, s, 1
  {
    match s
    case If(_, c, thn, els) =>
      NeverContinues(thn, RanCond(c, st, env), env, f);
      if els.Some? {
        NeverContinues(els.value, RanCond(c, st, env), env, f);
      }
    case While(_, _, _) => LoopStays(s, st, env, f);
    case For(_, g, _) =>
      var v := RunAssigns(RangeAssigns(g), st, env);
      if v.Normal? {
        LoopStays(s, v.store, env, f);
      }
    case Block(b) => BlockNeverContinues(b, NoAssigns, st, env, f);
    case _ =>
  }

  lemma {:induction false} BlockNeverContinues(b: Stmts, ds: Assigns, st: Store, env: Env, f: nat)
    requires NoContinues(b)
    ensures !ExecBlock(b, ds, st, env, f).Continued?
    decreases f, b, 0
  {
    if b.MoreStmts? {
      var s := b.head;
      if s.DeferStmt? {
        BlockNeverContinues(b.tail, MoreAssigns(NoType, s.what, ds), st, env, f);
      } else {
        NeverContinues(s, st, env, f);
        var o := Exec(s, st, env, f);
        if o.Normal? {
          BlockNeverContinues(b.tail, ds, o.store, env, f);
        }
      }
    }
  }
}
