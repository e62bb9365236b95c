/// The fragment as arithmetic on machine integers: a meaning of programs in
/// numbers and truth values, with no target and nothing of the lowering in it.
/// On a target that behaves like the backend's, both meanings are the same.

module SourceMeaning {
  // Types are 64 bits wide, or `bool`.

  import opened Mir
  import opened SourceLang
  import IL = IntegerLiteral
  import C = ConstantFold

  datatype Val = Truth(b: bool) | Number(n: int)

  predicate SignedWord(ty: Ty) { ty == IntTy("i64") || ty == IntTy("isize") }

  predicate UnsignedWord(ty: Ty) { ty == IntTy("u64") || ty == IntTy("usize") }

  predicate Word(ty: Ty) { SignedWord(ty) || UnsignedWord(ty) }

  predicate InRange(ty: Ty, n: int) {
    if UnsignedWord(ty) then 0 <= n < 0x1_0000_0000_0000_0000 else -0x8000_0000_0000_0000 <= n < 0x8000_0000_0000_0000
  }

  predicate HasType(v: Val, ty: Ty) {
    match v
    case Truth(_) => ty == BoolTy
    case Number(n) => Word(ty) && InRange(ty, n)
  }

  /// The number of the type that is `n` modulo 2^64.
  function Fit(ty: Ty, n: int): (r: int)
    ensures InRange(ty, r)
  {
    var m := n % 0x1_0000_0000_0000_0000;
    if UnsignedWord(ty) || m < 0x8000_0000_0000_0000 then m else m - 0x1_0000_0000_0000_0000
  }

  // ---- operators ----

  predicate IsOrder(op: string) { op in {"<", "<=", ">", ">="} }

  predicate IsEquality(op: string) { op in {"==", "!="} }

  predicate Stands(op: string, a: int, b: int) {
    if op == "==" then a == b
    else if op == "!=" then a != b
    else if op == "<" then a < b
    else if op == "<=" then a <= b
    else if op == ">" then a > b
    else a >= b
  }

  function Abs(n: int): nat { if n < 0 then -n else n }

  /// The quotient, rounded toward zero.
  function Rounded(a: int, b: int): int
    requires b != 0
  {
    var q := Abs(a) / Abs(b);
    if (a < 0) == (b < 0) then q else -q
  }

  predicate IsArithmetic(op: string) { op in {"+", "-", "*", "/", "%", "&", "|", "^", "<<", ">>"} }

  function BitLogic(op: string): C.Logic { if op == "&" then C.AndBits else if op == "|" then C.OrBits else C.XorBits }

  /// `None` where the operation is not defined: division by zero, a quotient out
  /// of range, a shift by 64 or more.
  function Calculate(op: string, ty: Ty, a: int, b: int): Option<int> {
    if op == "+" then Some(Fit(ty, a + b))
    else if op == "-" then Some(Fit(ty, a - b))
    else if op == "*" then Some(Fit(ty, a * b))
    else if op == "/" then if b == 0 || !InRange(ty, Rounded(a, b)) then None else Some(Rounded(a, b))
    else if op == "%" then if b == 0 || !InRange(ty, Rounded(a, b)) then None else Some(a - b * Rounded(a, b))
    else if op == "<<" then if 0 <= b < 64 then Some(Fit(ty, a * C.Power2(b))) else None
    else if op == ">>" then if 0 <= b < 64 then Some(a / C.Power2(b)) else None
    else Some(Fit(ty, C.Combine(BitLogic(op), a % 0x1_0000_0000_0000_0000, b % 0x1_0000_0000_0000_0000, 64)))
  }

  /// The value in another type: 64-bit integers wrap, a truth value becomes 0 or 1.
  function As(v: Val, ty: Ty): Val {
    if !Word(ty) then v
    else match v
      case Truth(b) => Number(if b then 1 else 0)
      case Number(n) => Number(Fit(ty, n))
  }

  function Prefix(op: string, ty: Ty, v: Val): Option<Val> {
    match v
    case Truth(b) => if op == "!" then Some(Truth(!b)) else None
    case Number(n) => Some(Number(if op == "-" then Fit(ty, -n) else Fit(ty, -n - 1)))
  }

  /// Comparisons take their operands in the type of the left one, other operators
  /// in the type of the result.
  function Infix(op: string, ty: Ty, left: Ty, a: Val, b: Val): Option<Val> {
    if IsOrder(op) || IsEquality(op) then
      match (a, As(b, left))
      case (Number(m), Number(n)) => Some(Truth(Stands(op, m, n)))
      case (Truth(x), Truth(y)) => if IsEquality(op) then Some(Truth((op == "==") == (x == y))) else None
      case _ => None
    else
      match (As(a, ty), As(b, ty))
      case (Number(m), Number(n)) => (match Calculate(op, ty, m, n) case None => None case Some(r) => Some(Number(r)))
      case (Truth(x), Truth(y)) => if op == "&&" then Some(Truth(x && y)) else if op == "||" then Some(Truth(x || y)) else None
      case _ => None
  }

  type Vals = Scopes<Val>

  function Evaluate(e: Expr, env: Vals): Option<Val> {
    match e
    case IntLit(ty, text) => (match IL.Meaning(text) case None => None case Some(n) => Some(Number(Fit(ty, n))))
    case BoolLit(_, b) => Some(Truth(b))
    case Var(x, _) => Lookup(env, x)
    case Unary(op, ty, x) => (match Evaluate(x, env) case None => None case Some(v) => Prefix(op, ty, As(v, ty)))
    case Bin(op, ty, l, r) =>
      match Evaluate(l, env)
      case None => None
      case Some(a) => match Evaluate(r, env) case None => None case Some(b) => Infix(op, ty, l.ty, a, b)
  }

  // ---- types ----

  /// Values of the first type may stand where the second is asked for.
  predicate Becomes(from: Ty, to: Ty) { from == to || ((Word(from) || from == BoolTy) && Word(to)) }

  predicate TypedExpr(e: Expr, types: Scopes<Ty>) {
    match e
    case IntLit(ty, text) => Word(ty) && IL.Meaning(text).Some?
    case BoolLit(ty, _) => ty == BoolTy
    case Var(x, ty) => Lookup(types, x) == Some(ty) && (Word(ty) || ty == BoolTy)
    case Unary(op, ty, x) =>
      TypedExpr(x, types) && (if ty == BoolTy then op == "!" && x.ty == BoolTy else Word(ty) && Becomes(x.ty, ty) && op in {"-", "!", "~"})
    case Bin(op, ty, l, r) =>
      && TypedExpr(l, types) && TypedExpr(r, types)
      && if IsOrder(op) then ty == BoolTy && Word(l.ty) && Becomes(r.ty, l.ty)
         else if IsEquality(op) then ty == BoolTy && Becomes(r.ty, l.ty)
         else if op == "&&" || op == "||" then ty == BoolTy && l.ty == BoolTy && r.ty == BoolTy
         else IsArithmetic(op) && Word(ty) && Becomes(l.ty, ty) && Becomes(r.ty, ty)
  }

  /// The types after a statement.
  function TypesAfter(s: Stmt, types: Scopes<Ty>): (r: Scopes<Ty>)
    ensures |r| == |types|
  {
    if s.Let? && types != [] then Declare(types, s.name, s.ty) else types
  }

  predicate TypedStmt(s: Stmt, result: Ty, types: Scopes<Ty>)
    decreases s, 1
  {
    match s
    case Let(_, ty, init) => types != [] && TypedExpr(init, types) && Becomes(init.ty, ty)
    case Assign(x, ty, op, value) =>
      && Lookup(types, x) == Some(ty) && TypedExpr(value, types) && Becomes(value.ty, ty)
      && (op.Some? ==> IsArithmetic(op.value) && Word(ty))
    case ExprStmt(e) => TypedExpr(e, types)
    case Ret(e) => e.Some? ==> TypedExpr(e.value, types) && Becomes(e.value.ty, result)
    case BlockStmt(body) => TypedSeq(body, result, types + [map[]])
    case If(c, thn, els) =>
      TypedExpr(c, types) && c.ty == BoolTy && TypedSeq(thn, result, types + [map[]]) && TypedSeq(els, result, types + [map[]])
    case While(c, body) => TypedExpr(c, types) && c.ty == BoolTy && TypedSeq(body, result, types + [map[]])
    case For(x, _, b, e, body) =>
      && TypedExpr(b, types) && TypedExpr(e, types) && Word(b.ty) && e.ty == b.ty
      && TypedSeq(body, result, types + [map[x := b.ty]] + [map[]])
    case Loop(body) => TypedSeq(body, result, types + [map[]])
    case Break => true
    case Continue => true
  }

  predicate TypedSeq(ss: seq<Stmt>, result: Ty, types: Scopes<Ty>)
    decreases ss, 0
  {
    ss != [] ==> TypedStmt(ss[0], result, types) && TypedSeq(ss[1..], result, TypesAfter(ss[0], types))
  }

  // ---- statements ----

  datatype Result =
    | Proceeds(env: Vals)
    | Breaks(env: Vals)
    | Continues(env: Vals)
    | Answers(value: Option<Val>)
    | Fails
    | Lasts

  function Left(r: Result): Result {
    match r
    case Proceeds(env) => Proceeds(Pop(env))
    case Breaks(env) => Breaks(Pop(env))
    case Continues(env) => Continues(Pop(env))
    case _ => r
  }

  function EvaluateAs(e: Expr, ty: Ty, env: Vals): Option<Val> {
    match Evaluate(e, env) case None => None case Some(v) => Some(As(v, ty))
  }

  /// The new value of a variable.
  function Assigned(op: Option<string>, ty: Ty, was: Val, v: Val): Option<Val> {
    match op case None => Some(v) case Some(o) => Infix(o, ty, ty, was, v)
  }

  function Perform(s: Stmt, result: Ty, env: Vals, fuel: nat): Result
    decreases fuel, s, 1
  {
    match s
    case Let(x, ty, init) =>
      (match EvaluateAs(init, ty, env)
       case None => Fails
       case Some(v) => if env == [] then Fails else Proceeds(Declare(env, x, v)))
    case Assign(x, ty, op, value) =>
      (match EvaluateAs(value, ty, env)
       case None => Fails
       case Some(v) =>
         match Lookup(env, x)
         case None => Fails
         case Some(was) => match Assigned(op, ty, was, v) case None => Fails case Some(v') => Proceeds(Update(env, x, v')))
    case ExprStmt(e) => if Evaluate(e, env).None? then Fails else Proceeds(env)
    case Ret(None) => Answers(None)
    case Ret(Some(e)) => (match EvaluateAs(e, result, env) case None => Fails case Some(v) => Answers(Some(v)))
    case BlockStmt(body) => PerformBlock(body, result, env, fuel)
    case If(c, thn, els) =>
      (match Evaluate(c, env)
       case Some(Truth(b)) => PerformBlock(if b then thn else els, result, env, fuel)
       case _ => Fails)
    case While(_, _) => PerformLoop(s, 0, result, env, fuel)
    case For(x, _, b, e, _) =>
      (match Evaluate(b, env)
       case None => Fails
       case Some(from) =>
         match Evaluate(e, env)
         case Some(Number(to)) => Left(PerformLoop(s, to, result, env + [map[x := from]], fuel))
         case _ => Fails)
    case Loop(_) => PerformLoop(s, 0, result, env, fuel)
    case Break => Breaks(env)
    case Continue => Continues(env)
  }

  function PerformBlock(body: seq<Stmt>, result: Ty, env: Vals, fuel: nat): Result
    decreases fuel, body, 3
  {
    Left(PerformSeq(body, result, env + [map[]], fuel))
  }

  function PerformSeq(ss: seq<Stmt>, result: Ty, env: Vals, fuel: nat): Result
    decreases fuel, ss, 2
  {
    if ss == [] then Proceeds(env)
    else match Perform(ss[0], result, env, fuel)
      case Proceeds(env') => PerformSeq(ss[1..], result, env', fuel)
      case r => r
  }

  /// Does another pass begin? `limit` is the end of a `for`.
  function Again(s: Stmt, limit: int, env: Vals): Option<bool>
    requires IsLoop(s)
  {
    match s
    case While(c, _) => (match Evaluate(c, env) case Some(Truth(b)) => Some(b) case _ => None)
    case For(x, inclusive, _, _, _) =>
      (match Lookup<Val>(env, x) case Some(Number(i)) => Some(if inclusive then i <= limit else i < limit) case _ => None)
    case Loop(_) => Some(true)
  }

  /// The variable of a `for` moves on, and wraps at the end of its type.
  function Stepped(s: Stmt, env: Vals): Option<Vals>
    requires IsLoop(s)
  {
    if !s.For? then Some(env)
    else match Lookup<Val>(env, s.name)
      case Some(Number(i)) => Some(Update(env, s.name, Number(Fit(s.begin.ty, i + 1))))
      case _ => None
  }

  /// One unit of fuel is spent per pass.
  function PerformLoop(s: Stmt, limit: int, result: Ty, env: Vals, fuel: nat): Result
    requires IsLoop(s)
    decreases fuel, s, 0
  {
    if fuel == 0 then Lasts
    else match Again(s, limit, env)
      case None => Fails
      case Some(again) =>
        if !again then Proceeds(env)
        else
          var r := PerformBlock(s.body, result, env, fuel - 1);
          if r.Breaks? then Proceeds(r.env)
          else if r.Proceeds? || r.Continues? then
            match Stepped(s, r.env) case None => Fails case Some(env') => PerformLoop(s, limit, result, env', fuel - 1)
          else r
  }

  function PerformFunction(f: Function, args: map<string, Val>, fuel: nat): Result {
    match PerformBlock(f.body, f.result, [args], fuel)
    case Proceeds(_) => Answers(None)
    case r => r
  }
}
