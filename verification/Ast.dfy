// The source language that is lowered, and its meaning.

module Ast {
  import opened Ir
  import opened Machine

  datatype BinOp = Plus | Minus | Times | Over | BitAnd | BitOr | ShiftRight | ShiftLeft

  datatype CmpOp = Lt | Gt | LtEq | GtEq | Eq | Neq

  datatype LogicOp = AndAnd | OrOr

  datatype Expr =
    | IntLit(val: int, ty: TypeId)
    | Ident(ref: Name)
    | Arith(ty: TypeId, op: BinOp, left: Expr, right: Expr)
    | Compare(ty: TypeId, cmp: CmpOp, left: Expr, right: Expr)
    | Negate(ty: TypeId, arg: Expr)
    | Not(arg: Expr)
    | CallExpr(result: ValueType, callee: Label, args: Exprs)

  datatype Exprs = NoExprs | MoreExprs(head: Expr, tail: Exprs)

  // The condition of an if or a for. Every node carries its number; the leaves are
  // comparisons, because any other bool operand is compared with false first.
  datatype Cond =
    | Cmp(id: nat, ty: TypeId, cmp: CmpOp, a: Expr, b: Expr)
    | Logic(id: nat, op: LogicOp, left: Cond, right: Cond)
    | Bang(id: nat, arg: Cond)

  // What can be deferred: an assignment, or a call of void type.
  datatype Later = AssignLater(dest: Name, value: Expr) | CallLater(callee: Label, args: Exprs)

  // A row of these in the order in which they run; ty is the type of an assignment's load. The
  // deferred ones of a scope are kept with the latest registered first.
  datatype Assigns = NoAssigns | MoreAssigns(ty: TypeId, what: Later, rest: Assigns)

  // A call of void type is a statement of its own.
  datatype Stmt =
    | Assign(dest: Name, value: Expr)
    | ExprStmt(expr: Expr)
    | CallStmt(callee: Label, args: Exprs)
    | If(id: nat, cond: Cond, thn: Stmt, els: Option<Stmt>)
    | While(id: nat, cond: Cond, body: Stmt)
    | For(id: nat, range: Range, body: Stmt)
    | Block(stmts: Stmts)
    | DeferStmt(what: Later)
    | Break
    | Continue
    | ReturnStmt(result: Option<Expr>, ty: TypeId)

  datatype Stmts = NoStmts | MoreStmts(head: Stmt, tail: Stmts)

  // for (elem in start, end) or for (elem in start, end, step). The range is kept in
  // the fields of the tuple iter; stepvar is a compiler temporary.
  datatype Range = Range(
    elem: Name, iter: Variable, stepvar: Variable, ty: TypeId,
    start: Expr, end: Expr, step: Option<Expr>)

  // ----- Expressions -----

  function Meaning(op: BinOp, a: int, b: int, env: Env): Option<int> {
    match op
    case Plus => env.arith(Add, a, b)
    case Minus => env.arith(Sub, a, b)
    case Times => env.arith(Mul, a, b)
    case Over => env.arith(Div, a, b)
    case BitAnd => env.arith(And, a, b)
    case BitOr => env.arith(Or, a, b)
    case ShiftRight => env.arith(Shr, a, b)
    case ShiftLeft => env.arith(Shl, a, b)
  }

  predicate Compares(op: CmpOp, a: int, b: int) {
    match op
    case Lt => a < b
    case Gt => a > b
    case LtEq => a <= b
    case GtEq => a >= b
    case Eq => a == b
    case Neq => a != b
  }

  // Left to right; None when some operation traps.
  function Eval(e: Expr, st: Store, env: Env): Option<int>
    decreases e
  {
    match e
    case IntLit(v, _) => Some(v)
    case Ident(r) => Some(Read(st, r))
    case Arith(_, op, l, r) =>
      (match Eval(l, st, env)
       case None => None
       case Some(a) =>
         match Eval(r, Ran(l, st, env), env)
         case None => None
         case Some(b) => Meaning(op, a, b, env))
    case Compare(_, op, l, r) =>
      (match Eval(l, st, env)
       case None => None
       case Some(a) =>
         match Eval(r, Ran(l, st, env), env)
         case None => None
         case Some(b) => Some(Bit(Compares(op, a, b))))
    case Negate(_, x) =>
      (match Eval(x, st, env)
       case None => None
       case Some(a) => env.arith(Neg, 0, a))
    case Not(x) =>
      (match Eval(x, st, env)
       case None => None
       case Some(a) => Some(Bit(a == 0)))
    case CallExpr(_, f, args) =>
      (match EvalAll(args, st, env)
       case None => None
       case Some(vs) => Some(env.call(AddCall(RanAll(args, st, env), f, vs))))
  }

  // The store once an expression has been evaluated, as far as it got: it has made calls.
  function Ran(e: Expr, st: Store, env: Env): Store
    decreases e
  {
    match e
    case IntLit(_, _) => st
    case Ident(_) => st
    case Arith(_, _, l, r) => if Eval(l, st, env).None? then Ran(l, st, env) else Ran(r, Ran(l, st, env), env)
    case Compare(_, _, l, r) => if Eval(l, st, env).None? then Ran(l, st, env) else Ran(r, Ran(l, st, env), env)
    case Negate(_, x) => Ran(x, st, env)
    case Not(x) => Ran(x, st, env)
    case CallExpr(_, f, args) => RanCall(f, args, st, env)
  }

  // The call itself is made only after all arguments have a value.
  function RanCall(f: Label, args: Exprs, st: Store, env: Env): Store
    decreases args, 1
  {
    var made := RanAll(args, st, env);
    match EvalAll(args, st, env) case None => made case Some(vs) => AddCall(made, f, vs)
  }

  function EvalAll(es: Exprs, st: Store, env: Env): Option<seq<int>>
    decreases es, 0
  {
    match es
    case NoExprs => Some([])
    case MoreExprs(e, rest) =>
      match Eval(e, st, env)
      case None => None
      case Some(v) =>
        match EvalAll(rest, Ran(e, st, env), env)
        case None => None
        case Some(vs) => Some([v] + vs)
  }

  function RanAll(es: Exprs, st: Store, env: Env): Store
    decreases es, 0
  {
    match es
    case NoExprs => st
    case MoreExprs(e, rest) =>
      if Eval(e, st, env).None? then Ran(e, st, env) else RanAll(rest, Ran(e, st, env), env)
  }

  // Evaluation writes no place.
  lemma {:induction false} RanVars(e: Expr, st: Store, env: Env)
    ensures Ran(e, st, env).vars == st.vars
    decreases e
  {
    match e
    case IntLit(_, _) =>
    case Ident(_) =>
    case Arith(_, _, l, r) =>
      RanVars(l, st, env);
      RanVars(r, Ran(l, st, env), env);
    case Compare(_, _, l, r) =>
      RanVars(l, st, env);
      RanVars(r, Ran(l, st, env), env);
    case Negate(_, x) => RanVars(x, st, env);
    case Not(x) => RanVars(x, st, env);
    case CallExpr(_, _, args) => RanAllVars(args, st, env);
  }

  lemma {:induction false} RanAllVars(es: Exprs, st: Store, env: Env)
    ensures RanAll(es, st, env).vars == st.vars
    decreases es
  {
    if es.MoreExprs? {
      RanVars(es.head, st, env);
      RanAllVars(es.tail, Ran(es.head, st, env), env);
    }
  }

  // Value expressions: ! negates a comparison.
  predicate Pure(e: Expr)
    decreases e
  {
    match e
    case IntLit(_, _) => true
    case Ident(_) => true
    case Arith(_, _, l, r) => Pure(l) && Pure(r)
    case Compare(_, _, l, r) => Pure(l) && Pure(r)
    case Negate(_, x) => Pure(x)
    case Not(x) => x.Compare? && Pure(x)
    case CallExpr(_, _, args) => PureAll(args)
  }

  predicate PureAll(es: Exprs)
    decreases es
  {
    match es
    case NoExprs => true
    case MoreExprs(e, rest) => Pure(e) && PureAll(rest)
  }

  // ----- Conditions -----

  function EvalCmp(c: Cond, st: Store, env: Env): Option<bool>
    requires c.Cmp?
  {
    match Eval(c.a, st, env)
    case None => None
    case Some(a) =>
      match Eval(c.b, Ran(c.a, st, env), env)
      case None => None
      case Some(b) => Some(Compares(c.cmp, a, b))
  }

  function RanCmp(c: Cond, st: Store, env: Env): Store
    requires c.Cmp?
  {
    if Eval(c.a, st, env).None? then Ran(c.a, st, env) else Ran(c.b, Ran(c.a, st, env), env)
  }

  // Short-circuit evaluation; None when an evaluated comparison traps.
  function EvalCond(c: Cond, st: Store, env: Env): Option<bool> {
    match c
    case Cmp(_, _, _, _, _) => EvalCmp(c, st, env)
    case Bang(_, x) =>
      (match EvalCond(x, st, env)
       case None => None
       case Some(b) => Some(!b))
    case Logic(_, op, l, r) =>
      (match EvalCond(l, st, env)
       case None => None
       case Some(b) => if b == op.OrOr? then Some(b) else EvalCond(r, RanCond(l, st, env), env))
  }

  // The store once a condition has been evaluated, as far as it got.
  function RanCond(c: Cond, st: Store, env: Env): Store {
    match c
    case Cmp(_, _, _, _, _) => RanCmp(c, st, env)
    case Bang(_, x) => RanCond(x, st, env)
    case Logic(_, op, l, r) =>
      match EvalCond(l, st, env)
      case None => RanCond(l, st, env)
      case Some(b) => if b == op.OrOr? then RanCond(l, st, env) else RanCond(r, RanCond(l, st, env), env)
  }

  predicate PureCond(c: Cond) {
    match c
    case Cmp(_, _, _, a, b) => Pure(a) && Pure(b)
    case Bang(_, x) => PureCond(x)
    case Logic(_, _, l, r) => PureCond(l) && PureCond(r)
  }

  function CondIds(c: Cond): set<nat> {
    match c
    case Cmp(id, _, _, _, _) => {id}
    case Bang(id, x) => {id} + CondIds(x)
    case Logic(id, _, l, r) => {id} + CondIds(l) + CondIds(r)
  }

  // Every node of the condition has its own number.
  predicate CondNumbered(c: Cond) {
    match c
    case Cmp(_, _, _, _, _) => true
    case Bang(id, x) => id !in CondIds(x) && CondNumbered(x)
    case Logic(id, _, l, r) =>
      id !in CondIds(l) + CondIds(r) && CondIds(l) !! CondIds(r) && CondNumbered(l) && CondNumbered(r)
  }

  // ----- Statements -----

  datatype Outcome =
    | Normal(store: Store)
    | Broke(store: Store)
    | Continued(store: Store)
    | Result(store: Store, value: int)
    | Trap(store: Store)
    | Timeout(store: Store)

  function RunLater(w: Later, st: Store, env: Env): (o: Outcome)
    ensures o.Normal? || o.Trap?
  {
    match w
    case AssignLater(d, e) =>
      var made := Ran(e, st, env);
      (match Eval(e, st, env) case None => Trap(made) case Some(v) => Normal(Set(made, d, v)))
    case CallLater(f, args) =>
      var made := RanCall(f, args, st, env);
      if EvalAll(args, st, env).None? then Trap(made) else Normal(made)
  }

  function RunAssigns(xs: Assigns, st: Store, env: Env): (o: Outcome)
    ensures o.Normal? || o.Trap?
  {
    match xs
    case NoAssigns => Normal(st)
    case MoreAssigns(_, w, rest) =>
      match RunLater(w, st, env)
      case Normal(st') => RunAssigns(rest, st', env)
      case o => o
  }

  // Leaving a block: what it has deferred runs on the way out.
  function Leave(ds: Assigns, o: Outcome, env: Env): Outcome {
    if o.Trap? || o.Timeout? then o
    else
      match RunAssigns(ds, o.store, env)
      case Normal(st) => o.(store := st)
      case t => t
  }

  function First(g: Range): Name { Field(g.iter, 0) }

  function Second(g: Range): Name { Field(g.iter, 1) }

  function Third(g: Range): Name { Field(g.iter, 2) }

  function Assignment(ty: TypeId, d: Name, e: Expr, rest: Assigns): Assigns {
    MoreAssigns(ty, AssignLater(d, e), rest)
  }

  // The range tuple is evaluated into its fields, then the first element is set.
  function RangeAssigns(g: Range): Assigns {
    Assignment(g.ty, First(g), g.start,
      Assignment(g.ty, Second(g), g.end,
        match g.step
        case None => Assignment(NoType, g.elem, Ident(First(g)), NoAssigns)
        case Some(e) =>
          Assignment(g.ty, Third(g), e,
            Assignment(NoType, g.elem, Ident(First(g)),
              Assignment(NoType, g.stepvar, Ident(Third(g)), NoAssigns)))))
  }

  predicate Upward(g: Range, st: Store) {
    Read(st, First(g)) < Read(st, Second(g))
  }

  // Without an explicit step, every test sets the step to 1 or -1.
  function SetStep(g: Range, st: Store): Store {
    if g.step.Some? then st else Set(st, g.stepvar, if Upward(g, st) then 1 else -1)
  }

  predicate InRange(g: Range, st: Store) {
    var st1 := SetStep(g, st);
    if Upward(g, st) then Read(st1, g.elem) < Read(st1, Second(g)) else Read(st1, g.elem) > Read(st1, Second(g))
  }

  function Advance(g: Range, st: Store, env: Env): Option<Store> {
    match env.arith(Add, Read(st, g.elem), Read(st, g.stepvar))
    case None => None
    case Some(v) => Some(Set(st, g.elem, v))
  }

  // Big-step execution. Each loop iteration takes one unit of fuel.
  function Exec(s: Stmt, st: Store, env: Env, fuel: nat): Outcome
    decreases fuel, s, 1
  {
    match s
    case Assign(d, e) => RunLater(AssignLater(d, e), st, env)
    case ExprStmt(e) =>
      var st' := Ran(e, st, env);
      if Eval(e, st, env).None? then Trap(st') else Normal(st')
    case CallStmt(f, args) => RunLater(CallLater(f, args), st, env)
    case If(_, c, thn, els) =>
      var st' := RanCond(c, st, env);
      (match EvalCond(c, st, env)
       case None => Trap(st')
       case Some(b) =>
         if b then Exec(thn, st', env, fuel)
         else if els.Some? then Exec(els.value, st', env, fuel)
         else Normal(st'))
    case While(_, _, _) => ExecWhile(s, st, env, fuel)
    case For(_, g, _) =>
      (match RunAssigns(RangeAssigns(g), st, env) case Normal(st') => ExecFor(s, st', env, fuel) case t => t)
    case Block(b) => ExecBlock(b, NoAssigns, st, env, fuel)
    case DeferStmt(_) => Normal(st)
    case Break => Broke(st)
    case Continue => Continued(st)
    case ReturnStmt(None, _) => Result(st, 0)
    case ReturnStmt(Some(e), ty) =>
      var st' := Ran(e, st, env);
      match Eval(e, st, env) case None => Trap(st') case Some(v) => Result(st', Answer(ty, v))
  }

  function ExecWhile(s: Stmt, st: Store, env: Env, fuel: nat): Outcome
    requires s.While?
    decreases fuel, s, 0
  {
    var st1 := RanCond(s.cond, st, env);
    if fuel == 0 then Timeout(st)
    else
      match EvalCond(s.cond, st, env)
      case None => Trap(st1)
      case Some(false) => Normal(st1)
      case Some(true) =>
        match Exec(s.body, st1, env, fuel - 1)
        case Normal(st') => ExecWhile(s, st', env, fuel - 1)
        case Continued(st') => ExecWhile(s, st', env, fuel - 1)
        case Broke(st') => Normal(st')
        case o => o
  }

  // A numeric for. The next element is visited after the body, and after a continue in it.
  function ExecFor(s: Stmt, st: Store, env: Env, fuel: nat): Outcome
    requires s.For?
    decreases fuel, s, 0
  {
    var st1 := SetStep(s.range, st);
    if fuel == 0 then Timeout(st)
    else if !InRange(s.range, st) then Normal(st1)
    else
      match Exec(s.body, st1, env, fuel - 1)
      case Normal(st2) =>
        (match Advance(s.range, st2, env)
         case None => Trap(st2)
         case Some(st3) => ExecFor(s, st3, env, fuel - 1))
      case Continued(st2) =>
        (match Advance(s.range, st2, env)
         case None => Trap(st2)
         case Some(st3) => ExecFor(s, st3, env, fuel - 1))
      case Broke(st2) => Normal(st2)
      case o => o
  }

  // ds: what the block has deferred so far.
  function ExecBlock(b: Stmts, ds: Assigns, st: Store, env: Env, fuel: nat): Outcome
    decreases fuel, b, 0
  {
    match b
    case NoStmts => Leave(ds, Normal(st), env)
    case MoreStmts(s, rest) =>
      if s.DeferStmt? then ExecBlock(rest, MoreAssigns(NoType, s.what, ds), st, env, fuel)
      else
        match Exec(s, st, env, fuel)
        case Normal(st') => ExecBlock(rest, ds, st', env, fuel)
        case o => Leave(ds, o, env)
  }
}
