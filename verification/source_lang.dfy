/// The integer and boolean fragment of the source language: typed expressions
/// and structured statements, with a big-step meaning.

module SourceLang {
  import opened Mir

  datatype Expr =
    | IntLit(ty: Ty, text: string)
    | BoolLit(ty: Ty, value: bool)
    | Var(name: string, ty: Ty)
    | Unary(op: string, ty: Ty, operand: Expr)
    | Bin(op: string, ty: Ty, lhs: Expr, rhs: Expr)

  /// `Assign` with `op` is a compound assignment; a first assignment that
  /// introduces its name is a `Let`.
  datatype Stmt =
    | Let(name: string, ty: Ty, init: Expr)
    | Assign(name: string, ty: Ty, op: Option<string>, value: Expr)
    | ExprStmt(expr: Expr)
    | Ret(returned: Option<Expr>)
    | BlockStmt(body: seq<Stmt>)
    | If(cond: Expr, thn: seq<Stmt>, els: seq<Stmt>)
    | While(cond: Expr, body: seq<Stmt>)
    | For(name: string, inclusive: bool, begin: Expr, end: Expr, body: seq<Stmt>)
    | Loop(body: seq<Stmt>)
    | Break
    | Continue

  function Spell(t: Ty): string {
    match t
    case UnitTy => "unit"
    case BoolTy => "bool"
    case IntTy(name) => name
    case OtherTy(name) => name
  }

  /// Conversions the lowering materializes.
  predicate Converts(from: Ty, to: Ty) { from != to && (from.IntTy? || from.BoolTy?) && to.IntTy? }

  predicate IsComparison(op: string) { op in {"==", "!=", "<", "<=", ">", ">="} }

  // ---- expressions ----

  function Convert(w: World, v: Value, from: Ty, to: Ty): Option<Value> {
    if Converts(from, to) then w.apply(Cast, to, Spell(from), [v]) else Some(v)
  }

  /// Scopes, innermost last.
  type Scopes<T> = seq<map<string, T>>

  type Env = Scopes<Value>

  /// The innermost scope that binds `x`, or -1.
  function Innermost<T>(env: Scopes<T>, x: string): (i: int)
    ensures -1 <= i < |env|
    ensures i >= 0 ==> x in env[i]
    ensures forall j :: i < j < |env| ==> x !in env[j]
  {
    if env == [] then -1
    else if x in env[|env| - 1] then |env| - 1
    else Innermost(env[..|env| - 1], x)
  }

  function Lookup<T>(env: Scopes<T>, x: string): Option<T> {
    var i := Innermost(env, x);
    if i < 0 then None else Some(env[i][x])
  }

  /// The innermost binding of `x` gets a new value.
  function Update<T>(env: Scopes<T>, x: string, v: T): Scopes<T> {
    var i := Innermost(env, x);
    if i < 0 then env else env[i := env[i][x := v]]
  }

  function Declare<T>(env: Scopes<T>, x: string, v: T): Scopes<T>
    requires env != []
  {
    env[|env| - 1 := env[|env| - 1][x := v]]
  }

  function Pop<T>(env: Scopes<T>): Scopes<T> { if env == [] then env else env[..|env| - 1] }

  /// `None` is a fault. Both operands of `&&` and `||` are evaluated, as
  /// both are lowered to plain binary operations.
  function Eval(w: World, e: Expr, env: Env): Option<Value> {
    match e
    case IntLit(ty, text) => w.apply(ConstInt, ty, text, [])
    case BoolLit(ty, b) => w.apply(ConstBool, ty, if b then "1" else "0", [])
    case Var(x, _) => Lookup(env, x)
    case Unary(op, ty, x) => (match Eval(w, x, env) case None => None case Some(v) => EvalUnary(w, op, ty, x.ty, v))
    case Bin(op, ty, l, r) =>
      match Eval(w, l, env)
      case None => None
      case Some(a) =>
        match Eval(w, r, env)
        case None => None
        case Some(b) => EvalBin(w, BinKind(op), op, BinTy(op, l.ty, ty), l.ty, r.ty, a, b)
  }

  function EvalUnary(w: World, op: string, ty: Ty, from: Ty, v: Value): Option<Value> {
    match EvalCast(w, from, ty, v) case None => None case Some(operand) => EvalApply1(w, op, ty, operand)
  }

  function EvalCast(w: World, from: Ty, ty: Ty, v: Value): Option<Value> {
    if from != ty then w.apply(Cast, ty, Spell(from), [v]) else Some(v)
  }

  /// Negation subtracts from zero; other operators apply to their operand.
  function EvalApply1(w: World, op: string, ty: Ty, v: Value): Option<Value> {
    if op == "-" then
      match w.apply(ConstInt, ty, "0", [])
      case None => None
      case Some(zero) => w.apply(Binary, ty, "-", [zero, v])
    else w.apply(Binary, ty, op, [v])
  }

  function BinKind(op: string): Op { if IsComparison(op) then Compare else Binary }

  /// Operands of a comparison are converted to the type of the left one.
  function BinTy(op: string, left: Ty, ty: Ty): Ty { if IsComparison(op) then left else ty }

  function EvalBin(w: World, kind: Op, op: string, to: Ty, left: Ty, right: Ty, a: Value, b: Value): Option<Value> {
    match Convert(w, a, left, to)
    case None => None
    case Some(a') =>
      match Convert(w, b, right, to)
      case None => None
      case Some(b') => w.apply(kind, to, op, [a', b'])
  }

  function EvalAs(w: World, e: Expr, to: Ty, env: Env): Option<Value> {
    match Eval(w, e, env) case None => None case Some(v) => Convert(w, v, e.ty, to)
  }

  // ---- statements ----

  datatype Out =
    | Normal(env: Env)
    | Broke(env: Env)
    | Continued(env: Env)
    | Done(value: Option<Value>)
    | Fault
    | OutOfFuel

  function LeaveScope(o: Out): Out {
    match o
    case Normal(env) => Normal(Pop(env))
    case Broke(env) => Broke(Pop(env))
    case Continued(env) => Continued(Pop(env))
    case _ => o
  }

  /// `result` is the function's result type. One unit of fuel is spent per
  /// pass through a loop head.
  function ExecStmt(w: World, s: Stmt, result: Ty, env: Env, fuel: nat): Out
    decreases fuel, s, 1
  {
    match s
    case Let(x, ty, init) =>
      (match EvalAs(w, init, ty, env)
       case None => Fault
       case Some(v) => if env == [] then Fault else Normal(Declare(env, x, v)))
    case Assign(x, ty, op, value) =>
      (match EvalAs(w, value, ty, env)
       case None => Fault
       case Some(v) =>
         match op
         case None => if Lookup(env, x).None? then Fault else Normal(Update(env, x, v))
         case Some(o) =>
           match Lookup(env, x)
           case None => Fault
           case Some(was) =>
             match w.apply(Binary, ty, o, [was, v])
             case None => Fault
             case Some(v') => Normal(Update(env, x, v')))
    case ExprStmt(e) => (match Eval(w, e, env) case None => Fault case Some(_) => Normal(env))
    case Ret(None) => Done(None)
    case Ret(Some(e)) => (match EvalAs(w, e, result, env) case None => Fault case Some(v) => Done(Some(v)))
    case BlockStmt(body) => ExecBlock(w, body, result, env, fuel)
    case If(c, thn, els) =>
      (match Eval(w, c, env)
       case Some(Num(b)) => ExecBlock(w, if b != 0 then thn else els, result, env, fuel)
       case _ => Fault)
    case While(_, _) => ExecLoop(w, s, None, result, env, fuel)
    case For(x, _, b, e, _) =>
      (match Eval(w, b, env)
       case None => Fault
       case Some(from) =>
         match Eval(w, e, env)
         case None => Fault
         case Some(to) => LeaveScope(ExecLoop(w, s, Some(to), result, env + [map[x := from]], fuel)))
    case Loop(_) => ExecLoop(w, s, None, result, env, fuel)
    case Break => Broke(env)
    case Continue => Continued(env)
  }

  function ExecBlock(w: World, body: seq<Stmt>, result: Ty, env: Env, fuel: nat): Out
    decreases fuel, body, 3
  {
    LeaveScope(ExecSeq(w, body, result, env + [map[]], fuel))
  }

  function ExecSeq(w: World, ss: seq<Stmt>, result: Ty, env: Env, fuel: nat): Out
    decreases fuel, ss, 2
  {
    if ss == [] then Normal(env)
    else match ExecStmt(w, ss[0], result, env, fuel)
      case Normal(env') => ExecSeq(w, ss[1..], result, env', fuel)
      case o => o
  }

  predicate IsLoop(s: Stmt) { s.While? || s.For? || s.Loop? }

  /// The test at the head of a loop; `limit` is the end of a `for`.
  function Test(w: World, s: Stmt, limit: Option<Value>, env: Env): Option<Value>
    requires IsLoop(s)
  {
    match s
    case While(c, _) => Eval(w, c, env)
    case For(x, inclusive, b, _, _) =>
      (match Lookup(env, x)
       case None => None
       case Some(current) =>
         match limit
         case None => None
         case Some(l) => w.apply(Compare, b.ty, if inclusive then "<=" else "<", [current, l]))
    case Loop(_) => Some(Num(1))
  }

  /// The step of a `for` at the end of a pass; other loops have none.
  function Advance(w: World, s: Stmt, env: Env): Option<Env>
    requires IsLoop(s)
  {
    if !s.For? then Some(env)
    else match Lookup(env, s.name)
      case None => None
      case Some(was) =>
        match w.apply(ConstInt, s.begin.ty, "1", [])
        case None => None
        case Some(one) =>
          match w.apply(Binary, s.begin.ty, "+", [was, one])
          case None => None
          case Some(next) => Some(Update(env, s.name, next))
  }

  function ExecLoop(w: World, s: Stmt, limit: Option<Value>, result: Ty, env: Env, fuel: nat): Out
    requires IsLoop(s)
    decreases fuel, s, 0
  {
    if fuel == 0 then OutOfFuel
    else match Test(w, s, limit, env)
      case Some(Num(b)) =>
        if b == 0 then Normal(env)
        else (match ExecBlock(w, s.body, result, env, fuel - 1)
          case Broke(env') => Normal(env')
          case Normal(env') => (match Advance(w, s, env') case None => Fault case Some(e) => ExecLoop(w, s, limit, result, e, fuel - 1))
          case Continued(env') => (match Advance(w, s, env') case None => Fault case Some(e) => ExecLoop(w, s, limit, result, e, fuel - 1))
          case o => o)
      case _ => Fault
  }

  /// A function: its parameters, its result type and its body.
  datatype Function = Function(params: seq<(string, Ty)>, result: Ty, body: seq<Stmt>)

  /// Falling off the end returns nothing.
  function ExecFunction(w: World, f: Function, args: map<string, Value>, fuel: nat): Out {
    match ExecBlock(w, f.body, f.result, [args], fuel)
    case Normal(_) => Done(None)
    case o => o
  }
}
