/// Statements on a target that behaves like the backend's do, in bit patterns,
/// what they mean in numbers and truth values.

module MeaningRuns {
  import opened Mir
  import opened SourceLang
  import opened SourceMeaning
  import opened MeaningAgrees
  import IL = IntegerLiteral
  import C = ConstantFold

  function RepResult(r: Result): Out {
    match r
    case Proceeds(env) => Normal(RepEnv(env))
    case Breaks(env) => Broke(RepEnv(env))
    case Continues(env) => Continued(RepEnv(env))
    case Answers(v) => Done(RepOpt(v))
    case Fails => Fault
    case Lasts => OutOfFuel
  }

  /// Every environment the result carries has these types.
  ghost predicate Carries(r: Result, types: Scopes<Ty>) {
    r.Proceeds? || r.Breaks? || r.Continues? ==> TypedEnv(r.env, types)
  }

  /// Only the innermost scope may have got more or other variables.
  ghost predicate CarriesOuter(r: Result, types: Scopes<Ty>) {
    r.Proceeds? || r.Breaks? || r.Continues? ==> |r.env| == |types| && TypedEnv(Pop(r.env), Pop(types))
  }

  lemma RepLeft(r: Result)
    ensures RepResult(Left(r)) == LeaveScope(RepResult(r))
  {
    if r.Proceeds? || r.Breaks? || r.Continues? { RepPop(r.env); }
  }

  lemma TypedPop(env: Vals, types: Scopes<Ty>)
    requires TypedEnv(env, types)
    ensures TypedEnv(Pop(env), Pop(types))
  {
  }

  lemma TypedPush(env: Vals, types: Scopes<Ty>, m: map<string, Val>, t: map<string, Ty>)
    requires TypedEnv(env, types) && TypedScope(m, t)
    ensures TypedEnv(env + [m], types + [t]) && Pop(types + [t]) == types
  {
  }

  lemma TypesAfterPop(s: Stmt, types: Scopes<Ty>)
    ensures Pop(TypesAfter(s, types)) == Pop(types)
  {
  }

  // ---- loops ----

  function RepLimit(s: Stmt, limit: int): Option<Value> { if s.For? then Some(Num(Pattern(limit))) else None }

  /// What the parts of a loop need, with the variable of a `for` in scope.
  predicate TypedLoop(s: Stmt, limit: int, result: Ty, types: Scopes<Ty>)
    requires IsLoop(s)
  {
    && TypedSeq(s.body, result, types + [map[]])
    && (s.While? ==> TypedExpr(s.cond, types) && s.cond.ty == BoolTy)
    && (s.For? ==> Word(s.begin.ty) && InRange(s.begin.ty, limit) && Lookup(types, s.name) == Some(s.begin.ty))
  }

  lemma AgainAgrees(w: World, s: Stmt, limit: int, result: Ty, env: Vals, types: Scopes<Ty>)
    requires IsLoop(s) && C.Machine(w) && TypedLoop(s, limit, result, types) && TypedEnv(env, types)
    ensures Test(w, s, RepLimit(s, limit), RepEnv(env))
      == match Again(s, limit, env) case None => None case Some(b) => Some(Num(if b then 1 else 0))
  {
    hide C.Machine, TypedSeq;
    if s.While? {
      ExprAgrees(w, s.cond, env, types);
    } else if s.For? {
      RepLookup(env, s.name);
      TypedLookup(env, types, s.name);
      var i := Lookup<Val>(env, s.name).value;
      ComparisonRuns(w, if s.inclusive then "<=" else "<", s.begin.ty, i, Number(limit));
    }
  }

  lemma OneReads()
    ensures IL.Meaning("1") == IL.Some(1)
  {
    IL.NumeralReads(1);
  }

  lemma StepAgrees(w: World, s: Stmt, limit: int, result: Ty, env: Vals, types: Scopes<Ty>)
    requires IsLoop(s) && C.Machine(w) && TypedLoop(s, limit, result, types) && TypedEnv(env, types)
    ensures var next := Stepped(s, env);
      && Advance(w, s, RepEnv(env)) == (if next.None? then None else Some(RepEnv(next.value)))
      && (next.Some? ==> TypedEnv(next.value, types))
  {
    hide C.Machine, TypedSeq, TypedExpr, TypedEnv, RepEnv, Lookup, Update, Rep, Fit, Advance, Stepped, Word, InRange;
    if s.For? {
      RepLookup(env, s.name);
      TypedLookup(env, types, s.name);
      var i := Lookup<Val>(env, s.name).value;
      WordIsNumber(i, s.begin.ty);
      OneMore(w, s.begin.ty, i);
      var next := Number(Fit(s.begin.ty, i.n + 1));
      AdvanceIs(w, s, RepEnv(env), Rep(i), Rep(next));
      SteppedIs(s, env, i.n);
      RepUpdate(env, s.name, next);
      TypedUpdate(env, types, s.name, next);
    } else {
      NoStep(w, s, env);
    }
  }

  lemma WordIsNumber(v: Val, ty: Ty)
    requires HasType(v, ty) && Word(ty)
    ensures v.Number?
  {
  }

  lemma NoStep(w: World, s: Stmt, env: Vals)
    requires IsLoop(s) && !s.For?
    ensures Advance(w, s, RepEnv(env)) == Some(RepEnv(env)) && Stepped(s, env) == Some(env)
  {
  }

  lemma AdvanceIs(w: World, s: Stmt, env: Env, was: Value, next: Value)
    requires s.For? && Lookup(env, s.name) == Some(was) && w.apply(ConstInt, s.begin.ty, "1", []).Some?
    requires w.apply(Binary, s.begin.ty, "+", [was, w.apply(ConstInt, s.begin.ty, "1", []).value]) == Some(next)
    ensures Advance(w, s, env) == Some(Update(env, s.name, next))
  {
    hide Lookup, Update;
  }

  lemma SteppedIs(s: Stmt, env: Vals, i: int)
    requires s.For? && Lookup(env, s.name) == Some(Number(i))
    ensures Stepped(s, env) == Some(Update(env, s.name, Number(Fit(s.begin.ty, i + 1))))
  {
    hide Lookup, Update, Fit;
  }

  lemma OneMore(w: World, ty: Ty, i: Val)
    requires C.Machine(w) && Word(ty) && HasType(i, ty)
    ensures var one := w.apply(ConstInt, ty, "1", []);
      one.Some? && w.apply(Binary, ty, "+", [Rep(i), one.value]) == Some(Rep(Number(Fit(ty, i.n + 1))))
  {
    hide C.Machine, IL.Meaning;
    OneReads();
    LiteralAgrees(w, ty, "1");
    ArithmeticRuns(w, "+", ty, i, Number(1));
    hide Rep;
  }

  // ---- statements ----

  lemma {:induction false} StmtAgrees(w: World, s: Stmt, result: Ty, env: Vals, types: Scopes<Ty>, fuel: nat)
    requires C.Machine(w) && TypedStmt(s, result, types) && TypedEnv(env, types)
    ensures var r := Perform(s, result, env, fuel);
      && ExecStmt(w, s, result, RepEnv(env), fuel) == RepResult(r)
      && CarriesOuter(r, types) && (r.Proceeds? ==> TypedEnv(r.env, TypesAfter(s, types)))
    decreases fuel, s, 2
  {
    TypedPop(env, types);
    match s
    case Let(_, _, _) => LetAgrees(w, s, result, env, types, fuel);
    case Assign(_, _, _, _) => AssignAgrees(w, s, result, env, types, fuel);
    case ExprStmt(e) => ExprAgrees(w, e, env, types);
    case Ret(_) => ReturnAgrees(w, s, result, env, types, fuel);
    case BlockStmt(body) => BlockAgrees(w, body, result, env, types, fuel);
    case If(c, thn, els) =>
      ExprAgrees(w, c, env, types);
      BranchAgrees(w, s, result, env, types, fuel);
    case While(_, _) => LoopAgrees(w, s, 0, result, env, types, fuel);
    case For(x, _, b, e, _) => ForAgrees(w, s, result, env, types, fuel);
    case Loop(_) => LoopAgrees(w, s, 0, result, env, types, fuel);
    case Break =>
    case Continue =>
  }

  lemma EvalAsAgrees(w: World, e: Expr, ty: Ty, env: Vals, types: Scopes<Ty>)
    requires C.Machine(w) && TypedExpr(e, types) && Becomes(e.ty, ty) && TypedEnv(env, types)
    ensures EvalAs(w, e, ty, RepEnv(env)) == RepOpt(EvaluateAs(e, ty, env))
    ensures EvaluateAs(e, ty, env).Some? ==> HasType(EvaluateAs(e, ty, env).value, ty)
  {
    hide C.Machine, TypedEnv, TypedExpr, Convert, Becomes, As, HasType, Rep, Eval, Evaluate;
    ExprAgrees(w, e, env, types);
    if Evaluate(e, env).Some? {
      var v := Evaluate(e, env).value;
      ConvertAgrees(w, v, e.ty, ty);
      AsTyped(v, e.ty, ty);
    }
  }

  lemma LetAgrees(w: World, s: Stmt, result: Ty, env: Vals, types: Scopes<Ty>, fuel: nat)
    requires s.Let? && C.Machine(w) && TypedStmt(s, result, types) && TypedEnv(env, types)
    ensures var r := Perform(s, result, env, fuel);
      && ExecStmt(w, s, result, RepEnv(env), fuel) == RepResult(r)
      && CarriesOuter(r, types) && (r.Proceeds? ==> TypedEnv(r.env, TypesAfter(s, types)))
  {
    EvalAsAgrees(w, s.init, s.ty, env, types);
    hide C.Machine, EvalAs, EvaluateAs, Rep, RepEnv;
    var v := EvaluateAs(s.init, s.ty, env);
    if v.Some? {
      RepDeclare(env, s.name, v.value);
      TypedDeclare(env, types, s.name, v.value, s.ty);
      TypedPop(Declare(env, s.name, v.value), Declare(types, s.name, s.ty));
      TypesAfterPop(s, types);
    }
  }

  /// An assignment of a value to a variable that has one.
  lemma AssignIs(w: World, s: Stmt, result: Ty, env: Env, fuel: nat, v: Value, was: Value)
    requires s.Assign? && EvalAs(w, s.value, s.ty, env) == Some(v) && Lookup(env, s.name) == Some(was)
    ensures var next := if s.op.None? then Some(v) else w.apply(Binary, s.ty, s.op.value, [was, v]);
      ExecStmt(w, s, result, env, fuel) == if next.None? then Fault else Normal(Update(env, s.name, next.value))
  {
    hide EvalAs, Lookup, Update;
  }

  lemma AssignMeans(s: Stmt, result: Ty, env: Vals, fuel: nat, v: Val, was: Val)
    requires s.Assign? && EvaluateAs(s.value, s.ty, env) == Some(v) && Lookup(env, s.name) == Some(was)
    ensures var next := Assigned(s.op, s.ty, was, v);
      Perform(s, result, env, fuel) == if next.None? then Fails else Proceeds(Update(env, s.name, next.value))
  {
    hide EvaluateAs, Lookup, Update, Assigned;
  }

  lemma AssignFails(w: World, s: Stmt, result: Ty, env: Vals, fuel: nat)
    requires s.Assign? && EvalAs(w, s.value, s.ty, RepEnv(env)).None? && EvaluateAs(s.value, s.ty, env).None?
    ensures ExecStmt(w, s, result, RepEnv(env), fuel) == Fault && Perform(s, result, env, fuel) == Fails
  {
    hide EvalAs, EvaluateAs, RepEnv;
  }

  lemma AssignTyped(s: Stmt, result: Ty, types: Scopes<Ty>)
    requires s.Assign? && TypedStmt(s, result, types)
    ensures TypedExpr(s.value, types) && Becomes(s.value.ty, s.ty) && Lookup(types, s.name) == Some(s.ty)
    ensures s.op.Some? ==> IsArithmetic(s.op.value) && Word(s.ty)
  {
  }

  lemma AssignAgrees(w: World, s: Stmt, result: Ty, env: Vals, types: Scopes<Ty>, fuel: nat)
    requires s.Assign? && C.Machine(w) && TypedStmt(s, result, types) && TypedEnv(env, types)
    ensures var r := Perform(s, result, env, fuel);
      && ExecStmt(w, s, result, RepEnv(env), fuel) == RepResult(r)
      && CarriesOuter(r, types) && (r.Proceeds? ==> TypedEnv(r.env, types))
  {
    hide C.Machine, EvalAs, EvaluateAs, Rep, RepEnv, ExecStmt, Perform, Assigned, TypedStmt, TypedEnv, Lookup, Update, TypedExpr, Becomes, Word, HasType;
    AssignTyped(s, result, types);
    EvalAsAgrees(w, s.value, s.ty, env, types);
    var v := EvaluateAs(s.value, s.ty, env);
    if v.None? {
      AssignFails(w, s, result, env, fuel);
    } else {
      RepLookup(env, s.name);
      TypedLookup(env, types, s.name);
      var was := Lookup<Val>(env, s.name).value;
      CombineAgrees(w, s.op, s.ty, was, v.value);
      AssignIs(w, s, result, RepEnv(env), fuel, Rep(v.value), Rep(was));
      AssignMeans(s, result, env, fuel, v.value, was);
      var next := Assigned(s.op, s.ty, was, v.value);
      if next.Some? {
        RepUpdate(env, s.name, next.value);
        TypedUpdate(env, types, s.name, next.value);
        TypedPop(Update(env, s.name, next.value), types);
        SameDepth(Update(env, s.name, next.value), types);
      }
    }
  }

  lemma CombineAgrees(w: World, op: Option<string>, ty: Ty, was: Val, v: Val)
    requires C.Machine(w) && HasType(was, ty) && HasType(v, ty) && (op.Some? ==> IsArithmetic(op.value) && Word(ty))
    ensures var next := Assigned(op, ty, was, v);
      && (op.None? ==> next == Some(v))
      && (op.Some? ==> w.apply(Binary, ty, op.value, [Rep(was), Rep(v)]) == RepOpt(next))
      && (next.Some? ==> HasType(next.value, ty))
  {
    if op.Some? {
      AsTyped(was, ty, ty);
      AsTyped(v, ty, ty);
      ArithmeticRuns(w, op.value, ty, was, v);
      hide C.Machine, As, Calculate, Rep;
    }
  }

  lemma ReturnAgrees(w: World, s: Stmt, result: Ty, env: Vals, types: Scopes<Ty>, fuel: nat)
    requires s.Ret? && C.Machine(w) && TypedStmt(s, result, types) && TypedEnv(env, types)
    ensures ExecStmt(w, s, result, RepEnv(env), fuel) == RepResult(Perform(s, result, env, fuel))
    ensures var r := Perform(s, result, env, fuel); r.Fails? || r.Answers?
  {
    hide C.Machine, EvalAs, EvaluateAs, Rep, RepEnv, TypedEnv, TypedExpr, Becomes;
    if s.returned.Some? { EvalAsAgrees(w, s.returned.value, result, env, types); }
  }

  lemma {:induction false} BranchAgrees(w: World, s: Stmt, result: Ty, env: Vals, types: Scopes<Ty>, fuel: nat)
    requires s.If? && C.Machine(w) && TypedStmt(s, result, types) && TypedEnv(env, types)
    requires Eval(w, s.cond, RepEnv(env)) == RepOpt(Evaluate(s.cond, env))
    requires Evaluate(s.cond, env).Some? ==> Evaluate(s.cond, env).value.Truth?
    ensures var r := Perform(s, result, env, fuel);
      ExecStmt(w, s, result, RepEnv(env), fuel) == RepResult(r) && Carries(r, types)
    decreases fuel, s, 1
  {
    hide C.Machine, Eval, Evaluate, RepEnv, TypedExpr, ExecBlock, PerformBlock;
    match Evaluate(s.cond, env)
    case Some(Truth(b)) => BlockAgrees(w, if b then s.thn else s.els, result, env, types, fuel);
    case _ =>
  }

  lemma {:induction false} ForAgrees(w: World, s: Stmt, result: Ty, env: Vals, types: Scopes<Ty>, fuel: nat)
    requires s.For? && C.Machine(w) && TypedStmt(s, result, types) && TypedEnv(env, types)
    ensures var r := Perform(s, result, env, fuel);
      ExecStmt(w, s, result, RepEnv(env), fuel) == RepResult(r) && Carries(r, types)
    decreases fuel, s, 1
  {
    hide C.Machine, Eval, Evaluate, TypedExpr, ExecLoop, PerformLoop;
    ExprAgrees(w, s.begin, env, types);
    ExprAgrees(w, s.end, env, types);
    if Evaluate(s.begin, env).Some? && Evaluate(s.end, env).Some? {
      var from, to := Evaluate(s.begin, env).value, Evaluate(s.end, env).value;
      var m, t := map[s.name := from], map[s.name := s.begin.ty];
      RepPush(env, m);
      assert RepMap(m) == map[s.name := Rep(from)];
      TypedPush(env, types, m, t);
      FoundOnTop(types, s.name, s.begin.ty);
      LoopAgrees(w, s, to.n, result, env + [m], types + [t], fuel);
      var r := PerformLoop(s, to.n, result, env + [m], fuel);
      RepLeft(r);
      if r.Proceeds? { TypedPop(r.env, types + [t]); }
    }
  }

  lemma FoundOnTop(types: Scopes<Ty>, x: string, ty: Ty)
    ensures Lookup(types + [map[x := ty]], x) == Some(ty)
  {
  }

  lemma {:induction false} BlockAgrees(w: World, body: seq<Stmt>, result: Ty, env: Vals, types: Scopes<Ty>, fuel: nat)
    requires C.Machine(w) && TypedSeq(body, result, types + [map[]]) && TypedEnv(env, types)
    ensures var r := PerformBlock(body, result, env, fuel);
      ExecBlock(w, body, result, RepEnv(env), fuel) == RepResult(r) && Carries(r, types)
    decreases fuel, body, 3
  {
    hide C.Machine, ExecSeq, PerformSeq;
    var none: map<string, Val> := map[];
    var untyped: map<string, Ty> := map[];
    RepPush(env, none);
    assert RepMap(none) == map[];
    TypedPush(env, types, none, untyped);
    SeqAgrees(w, body, result, env + [none], types + [untyped], fuel);
    RepLeft(PerformSeq(body, result, env + [none], fuel));
  }

  lemma {:induction false} SeqAgrees(w: World, ss: seq<Stmt>, result: Ty, env: Vals, types: Scopes<Ty>, fuel: nat)
    requires C.Machine(w) && TypedSeq(ss, result, types) && TypedEnv(env, types)
    ensures var r := PerformSeq(ss, result, env, fuel);
      ExecSeq(w, ss, result, RepEnv(env), fuel) == RepResult(r) && CarriesOuter(r, types)
    decreases fuel, ss, 2
  {
    hide C.Machine, ExecStmt, Perform, TypedStmt, TypedEnv, RepEnv;
    if ss == [] {
      TypedPop(env, types);
      SameDepth(env, types);
    } else {
      StmtAgrees(w, ss[0], result, env, types, fuel);
      var r := Perform(ss[0], result, env, fuel);
      if r.Proceeds? {
        TypesAfterPop(ss[0], types);
        SeqAgrees(w, ss[1..], result, r.env, TypesAfter(ss[0], types), fuel);
      }
    }
  }

  lemma SameDepth(env: Vals, types: Scopes<Ty>)
    requires TypedEnv(env, types)
    ensures |env| == |types|
  {
  }

  lemma {:induction false} LoopAgrees(w: World, s: Stmt, limit: int, result: Ty, env: Vals, types: Scopes<Ty>, fuel: nat)
    requires IsLoop(s) && C.Machine(w) && TypedLoop(s, limit, result, types) && TypedEnv(env, types)
    ensures var r := PerformLoop(s, limit, result, env, fuel);
      ExecLoop(w, s, RepLimit(s, limit), result, RepEnv(env), fuel) == RepResult(r) && Carries(r, types)
    ensures var r := PerformLoop(s, limit, result, env, fuel); !r.Breaks? && !r.Continues?
    decreases fuel, s, 0
  {
    hide C.Machine, Test, Again, Advance, Stepped, ExecBlock, PerformBlock, TypedEnv, RepEnv;
    if fuel > 0 {
      AgainAgrees(w, s, limit, result, env, types);
      if Again(s, limit, env) == Some(true) {
        BlockAgrees(w, s.body, result, env, types, fuel - 1);
        var r := PerformBlock(s.body, result, env, fuel - 1);
        if r.Proceeds? || r.Continues? {
          StepAgrees(w, s, limit, result, r.env, types);
          var next := Stepped(s, r.env);
          if next.Some? { LoopAgrees(w, s, limit, result, next.value, types, fuel - 1); }
        }
      }
    }
  }

  // ---- functions ----

  /// The types of the parameters by name.
  function ParamTypes(params: seq<(string, Ty)>, types: map<string, Ty>): map<string, Ty>
    decreases |params|
  {
    if params == [] then types else ParamTypes(params[1..], types[params[0].0 := params[0].1])
  }

  predicate TypedFunction(f: Function) { TypedSeq(f.body, f.result, [ParamTypes(f.params, map[])] + [map[]]) }

  ghost predicate TypedArgs(f: Function, args: map<string, Val>) { TypedScope(args, ParamTypes(f.params, map[])) }

  /// A typed function does with represented arguments what it means.
  lemma FunctionAgrees(w: World, f: Function, args: map<string, Val>, fuel: nat)
    requires C.Machine(w) && TypedFunction(f) && TypedArgs(f, args)
    ensures ExecFunction(w, f, RepMap(args), fuel) == RepResult(PerformFunction(f, args, fuel))
  {
    hide C.Machine, ExecBlock, PerformBlock;
    BlockAgrees(w, f.body, f.result, [args], [ParamTypes(f.params, map[])], fuel);
    assert RepEnv([args]) == [RepMap(args)];
  }
}
