/// Compiled code computes what the source means in numbers and truth values.

module CompiledMeaning {
  import opened Mir
  import opened SourceLang
  import opened SourceMeaning
  import opened MeaningAgrees
  import opened MeaningRuns
  import L = Lowering
  import opened LoweringCorrect
  import opened LoweringTheorem
  import opened LoweringLocal
  import F = ForwardLoads
  import C = ConstantFold
  import IL = IntegerLiteral
  import opened CompilePipeline

  ghost predicate MeansReturn(f: Function, args: map<string, Val>, v: Option<Val>) {
    exists fuel: nat :: PerformFunction(f, args, fuel) == Answers(v)
  }

  ghost predicate MeansFailure(f: Function, args: map<string, Val>) {
    exists fuel: nat :: PerformFunction(f, args, fuel) == Fails
  }

  ghost predicate MeansForever(f: Function, args: map<string, Val>) {
    forall fuel: nat :: PerformFunction(f, args, fuel) == Lasts
  }

  /// What the big-step meaning over a target says is what the source means.
  lemma MeaningsMatch(w: World, f: Function, args: map<string, Val>)
    requires C.Machine(w) && TypedFunction(f) && TypedArgs(f, args)
    ensures forall v :: MeansReturn(f, args, v) ==> SourceReturns(w, f, RepMap(args), RepOpt(v))
    ensures forall u :: SourceReturns(w, f, RepMap(args), u) ==> exists v :: MeansReturn(f, args, v) && u == RepOpt(v)
    ensures MeansFailure(f, args) <==> SourceFaults(w, f, RepMap(args))
    ensures MeansForever(f, args) <==> SourceDiverges(w, f, RepMap(args))
  {
    hide C.Machine, ExecFunction, PerformFunction, TypedFunction, TypedArgs, RepMap;
    forall fuel: nat ensures ExecFunction(w, f, RepMap(args), fuel) == RepResult(PerformFunction(f, args, fuel)) {
      FunctionAgrees(w, f, args, fuel);
    }
    forall u | SourceReturns(w, f, RepMap(args), u) ensures exists v :: MeansReturn(f, args, v) && u == RepOpt(v) {
      var fuel: nat :| ExecFunction(w, f, RepMap(args), fuel) == Done(u);
      assert PerformFunction(f, args, fuel) == Answers(PerformFunction(f, args, fuel).value);
      assert MeansReturn(f, args, PerformFunction(f, args, fuel).value);
    }
  }

  /// For every typed function of 64-bit integers and truth values, all arguments and
  /// every target that behaves like the backend's: the lowered code returns exactly
  /// the patterns of what the source means, and faults or diverges exactly when the
  /// source does.
  lemma LoweredCodeComputes(w: World, f: Function, args: map<string, Val>, c: Config)
    requires C.Machine(w) && TypedFunction(f) && TypedArgs(f, args) && Applied(f, RepMap(args), c)
    requires ClearSeq(f.body, {}, false) && !L.LowerFunction(f).err
    ensures var blocks := L.LowerFunction(f).blocks;
      && (forall u :: CodeReturns(w, blocks, c, u) <==> exists v :: MeansReturn(f, args, v) && u == RepOpt(v))
      && (CodeFaults(w, blocks, c) <==> MeansFailure(f, args))
      && (CodeDiverges(w, blocks, c) <==> MeansForever(f, args))
  {
    hide *;
    MeaningsMatch(w, f, args);
    LoweringPreservesMeaning(w, f, RepMap(args), c);
  }

  /// The same of the optimized code at every level, under the conditions that the
  /// passes ask; it may lose a failure, but gains none.
  lemma CompiledCodeComputes(w: World, f: Function, level: int, args: map<string, Val>, c: Config)
    requires C.Machine(w) && F.Quiet(w) && TypedFunction(f) && TypedArgs(f, args) && Applied(f, RepMap(args), c)
    requires ClearSeq(f.body, {}, false) && FitsSeq(f.body) && !L.LowerFunction(f).err
    ensures var blocks := Compiled(f, level);
      && (forall v :: MeansReturn(f, args, v) ==> CodeReturns(w, blocks, c, RepOpt(v)))
      && (MeansForever(f, args) ==> CodeDiverges(w, blocks, c))
      && (CodeFaults(w, blocks, c) ==> MeansFailure(f, args))
  {
    hide *;
    MeaningsMatch(w, f, args);
    OptimizedCodeMeansSource(w, f, level, RepMap(args), c);
  }

  /// A conversion is emitted exactly from an integer or a truth value to another
  /// integer type: one cast into a fresh temporary, which names the type it is from.
  lemma ConversionsMade(st: L.LState, v: Name, from: Ty, to: Ty)
    requires st.cur < |st.blocks| && !st.blocks[st.cur].terminated
    ensures var r := L.Coerce(st, v, from, to);
      if to.IntTy? && from != to && (from.IntTy? || from == BoolTy) then
        && r.name == Temp(st.temps)
        && r.st.blocks == st.blocks[st.cur := Block(st.blocks[st.cur].tag, st.blocks[st.cur].instrs
             + [Instr(Cast, Some(Temp(st.temps)), to, [v], if from == BoolTy then "bool" else from.name, false)], false)]
      else r == L.Lowered(v, st)
  {
  }

  // ---- a loop that never ends ----

  function Largest(ty: Ty): int { if UnsignedWord(ty) then 0xFFFF_FFFF_FFFF_FFFF else 0x7FFF_FFFF_FFFF_FFFF }

  function CountTo(ty: Ty, from: int, to: int): Stmt {
    For("i", true, IntLit(ty, IL.Numeral(from)), IntLit(ty, IL.Numeral(to)), [])
  }

  /// `for i in from ..= to` with nothing in its body, then the end of the function.
  function Counting(ty: Ty, from: int, to: int): Function { Function([], UnitTy, [CountTo(ty, from, to)]) }

  lemma EmptyBlock(result: Ty, env: Vals, fuel: nat)
    ensures PerformBlock([], result, env, fuel) == Proceeds(env)
  {
    assert Pop(env + [map[]]) == env;
  }

  lemma CountStep(ty: Ty, from: int, to: int, i: int, env: Vals, fuel: nat)
    requires Word(ty) && fuel > 0
    ensures var s := CountTo(ty, from, to);
      PerformLoop(s, to, UnitTy, env + [map["i" := Number(i)]], fuel)
      == if i > to then Proceeds(env + [map["i" := Number(i)]])
         else PerformLoop(s, to, UnitTy, env + [map["i" := Number(Fit(ty, i + 1))]], fuel - 1)
  {
    hide IL.Numeral, PerformBlock, Fit;
    var here := env + [map["i" := Number(i)]];
    EmptyBlock(UnitTy, here, fuel - 1);
    assert Lookup(here, "i") == Some(Number(i));
    var next := Number(Fit(ty, i + 1));
    assert Update(here, "i", next) == env + [map["i" := next]] by {
      assert map["i" := Number(i)]["i" := next] == map["i" := next];
    }
  }

  lemma {:induction false} CountForever(ty: Ty, from: int, i: int, env: Vals, fuel: nat)
    requires Word(ty) && InRange(ty, i)
    ensures PerformLoop(CountTo(ty, from, Largest(ty)), Largest(ty), UnitTy, env + [map["i" := Number(i)]], fuel) == Lasts
    decreases fuel
  {
    hide IL.Numeral, CountTo, Fit;
    if fuel > 0 {
      CountStep(ty, from, Largest(ty), i, env, fuel);
      CountForever(ty, from, Fit(ty, i + 1), env, fuel - 1);
    }
  }

  lemma {:induction false} CountEnds(ty: Ty, from: int, to: int, i: int, env: Vals) returns (fuel: nat)
    requires Word(ty) && InRange(ty, i) && InRange(ty, to) && to < Largest(ty)
    ensures var r := PerformLoop(CountTo(ty, from, to), to, UnitTy, env + [map["i" := Number(i)]], fuel);
      r.Proceeds? && Pop(r.env) == env
    decreases (to) + 1 - i
  {
    hide IL.Numeral, CountTo;
    if i > to {
      fuel := 1;
    } else {
      PatternOf(ty, i + 1);
      var rest := CountEnds(ty, from, to, i + 1, env);
      fuel := rest + 1;
    }
    CountStep(ty, from, to, i, env, fuel);
    assert Pop(env + [map["i" := Number(i)]]) == env;
  }

  /// An inclusive range ends if and only if its end is not the largest number of
  /// its type: the variable wraps and is never above it.
  lemma InclusiveRangeEnds(ty: Ty, from: int, to: int)
    requires Word(ty) && InRange(ty, from) && InRange(ty, to)
    ensures TypedFunction(Counting(ty, from, to))
    ensures MeansReturn(Counting(ty, from, to), map[], None) <==> to < Largest(ty)
    ensures MeansForever(Counting(ty, from, to), map[]) <==> to == Largest(ty)
  {
    var f := Counting(ty, from, to);
    CountingTyped(ty, from, to);
    if to == Largest(ty) {
      forall fuel: nat ensures PerformFunction(f, map[], fuel) == Lasts {
        CountingIs(ty, from, to, fuel);
        CountForever(ty, from, from, [map[], map[]], fuel);
      }
    } else {
      var fuel := CountEnds(ty, from, to, from, [map[], map[]]);
      CountingIs(ty, from, to, fuel);
      assert PerformFunction(f, map[], fuel) == Answers(None);
    }
    hide PerformFunction, TypedFunction;
  }

  lemma LiteralIs(ty: Ty, n: int)
    requires Word(ty) && InRange(ty, n)
    ensures IL.Meaning(IL.Numeral(n)) == IL.Some(n) && Fit(ty, n) == n
  {
    IL.NumeralReads(n);
    hide IL.Meaning, IL.Numeral;
    PatternOf(ty, n);
  }

  lemma OneTyped(s: Stmt, result: Ty, types: Scopes<Ty>)
    requires TypedStmt(s, result, types)
    ensures TypedSeq([s], result, types)
  {
    var rest: seq<Stmt> := [];
    assert [s][1..] == rest;
    assert TypedSeq(rest, result, TypesAfter(s, types));
    hide TypedStmt;
  }

  lemma LiteralTyped(ty: Ty, n: int, types: Scopes<Ty>)
    requires Word(ty) && InRange(ty, n)
    ensures TypedExpr(IntLit(ty, IL.Numeral(n)), types)
  {
    LiteralIs(ty, n);
    hide IL.Meaning, IL.Numeral;
  }

  lemma EmptyTyped(result: Ty, types: Scopes<Ty>)
    ensures TypedSeq([], result, types)
  {
  }

  lemma CountTyped(ty: Ty, from: int, to: int, types: Scopes<Ty>)
    requires Word(ty) && InRange(ty, from) && InRange(ty, to)
    ensures TypedStmt(CountTo(ty, from, to), UnitTy, types)
  {
    hide IL.Numeral, TypedExpr, TypedSeq, Word, InRange;
    LiteralTyped(ty, from, types);
    LiteralTyped(ty, to, types);
    EmptyTyped(UnitTy, types + [map["i" := ty]] + [map[]]);
  }

  lemma CountingTyped(ty: Ty, from: int, to: int)
    requires Word(ty) && InRange(ty, from) && InRange(ty, to)
    ensures TypedFunction(Counting(ty, from, to))
  {
    hide TypedStmt, TypedSeq, CountTo;
    var none: map<string, Ty> := map[];
    CountTyped(ty, from, to, [none] + [none]);
    OneTyped(CountTo(ty, from, to), UnitTy, [none] + [none]);
  }

  lemma OnePerformed(s: Stmt, result: Ty, env: Vals, fuel: nat)
    ensures PerformSeq([s], result, env, fuel) == Perform(s, result, env, fuel)
  {
    var rest: seq<Stmt> := [];
    assert [s][1..] == rest;
    hide Perform;
  }

  lemma LiteralEvaluates(ty: Ty, n: int, env: Vals)
    requires Word(ty) && InRange(ty, n)
    ensures Evaluate(IntLit(ty, IL.Numeral(n)), env) == Some(Number(n))
  {
    LiteralIs(ty, n);
    hide IL.Meaning, IL.Numeral;
  }

  lemma CountPerformed(ty: Ty, from: int, to: int, env: Vals, fuel: nat)
    requires Word(ty) && InRange(ty, from) && InRange(ty, to)
    ensures Perform(CountTo(ty, from, to), UnitTy, env, fuel)
      == Left(PerformLoop(CountTo(ty, from, to), to, UnitTy, env + [map["i" := Number(from)]], fuel))
  {
    hide IL.Numeral, PerformLoop, Left, Evaluate, Word, InRange;
    LiteralEvaluates(ty, from, env);
    LiteralEvaluates(ty, to, env);
  }

  lemma CountingIs(ty: Ty, from: int, to: int, fuel: nat)
    requires Word(ty) && InRange(ty, from) && InRange(ty, to)
    ensures PerformFunction(Counting(ty, from, to), map[], fuel)
      == match PerformLoop(CountTo(ty, from, to), to, UnitTy, [map[], map[]] + [map["i" := Number(from)]], fuel)
         case Proceeds(_) => Answers(None)
         case r => Left(Left(r))
  {
    hide PerformLoop, Perform, PerformSeq, CountTo;
    var none: map<string, Val> := map[];
    assert [none] + [none] == [none, none];
    CountPerformed(ty, from, to, [none, none], fuel);
    OnePerformed(CountTo(ty, from, to), UnitTy, [none, none], fuel);
  }
}
