/// On a target that behaves like the backend's, the source computes in bit
/// patterns what its arithmetic means.

module MeaningAgrees {
  import opened Mir
  import opened SourceLang
  import opened SourceMeaning
  import IL = IntegerLiteral
  import C = ConstantFold
  import CM = ConstantMeaning

  // ---- representation ----

  /// A number of a 64-bit type as its pattern read with a sign.
  function Pattern(n: int): int { if n < 0x8000_0000_0000_0000 then n else n - 0x1_0000_0000_0000_0000 }

  function Rep(v: Val): Value {
    match v case Truth(b) => Num(if b then 1 else 0) case Number(n) => Num(Pattern(n))
  }

  function RepOpt(v: Option<Val>): Option<Value> { match v case None => None case Some(x) => Some(Rep(x)) }

  function RepMap(m: map<string, Val>): map<string, Value> { map x | x in m :: Rep(m[x]) }

  function RepEnv(env: Vals): (r: Env)
    ensures |r| == |env| && forall i :: 0 <= i < |env| ==> r[i] == RepMap(env[i])
  {
    seq(|env|, i requires 0 <= i < |env| => RepMap(env[i]))
  }

  lemma {:induction false} RepInnermost(env: Vals, x: string)
    ensures Innermost(RepEnv(env), x) == Innermost(env, x)
    decreases |env|
  {
    if env != [] {
      assert RepEnv(env)[..|env| - 1] == RepEnv(env[..|env| - 1]);
      RepInnermost(env[..|env| - 1], x);
    }
  }

  lemma RepLookup(env: Vals, x: string)
    ensures Lookup(RepEnv(env), x) == RepOpt(Lookup(env, x))
  {
    RepInnermost(env, x);
  }

  lemma RepUpdate(env: Vals, x: string, v: Val)
    ensures RepEnv(Update(env, x, v)) == Update(RepEnv(env), x, Rep(v))
  {
    RepInnermost(env, x);
    var i := Innermost(env, x);
    if i >= 0 { assert RepMap(env[i][x := v]) == RepMap(env[i])[x := Rep(v)]; }
  }

  lemma RepDeclare(env: Vals, x: string, v: Val)
    requires env != []
    ensures RepEnv(Declare(env, x, v)) == Declare(RepEnv(env), x, Rep(v))
  {
    var i := |env| - 1;
    assert RepMap(env[i][x := v]) == RepMap(env[i])[x := Rep(v)];
  }

  lemma RepPush(env: Vals, m: map<string, Val>)
    ensures RepEnv(env + [m]) == RepEnv(env) + [RepMap(m)]
  {
  }

  lemma RepPop(env: Vals)
    ensures RepEnv(Pop(env)) == Pop(RepEnv(env))
  {
  }

  // ---- typed environments ----

  ghost predicate TypedScope(m: map<string, Val>, types: map<string, Ty>) {
    m.Keys == types.Keys && forall x :: x in m ==> HasType(m[x], types[x])
  }

  ghost predicate TypedEnv(env: Vals, types: Scopes<Ty>) {
    |env| == |types| && forall i :: 0 <= i < |env| ==> TypedScope(env[i], types[i])
  }

  lemma {:induction false} TypedInnermost(env: Vals, types: Scopes<Ty>, x: string)
    requires TypedEnv(env, types)
    ensures Innermost(env, x) == Innermost(types, x)
    decreases |env|
  {
    if env != [] {
      assert TypedScope(env[|env| - 1], types[|env| - 1]);
      TypedInnermost(env[..|env| - 1], types[..|env| - 1], x);
    }
  }

  lemma TypedLookup(env: Vals, types: Scopes<Ty>, x: string)
    requires TypedEnv(env, types) && Lookup(types, x).Some?
    ensures Lookup(env, x).Some? && HasType(Lookup(env, x).value, Lookup(types, x).value)
  {
    TypedInnermost(env, types, x);
    var i := Innermost(env, x);
    assert TypedScope(env[i], types[i]);
  }

  lemma TypedUpdate(env: Vals, types: Scopes<Ty>, x: string, v: Val)
    requires TypedEnv(env, types) && Lookup(types, x).Some? && HasType(v, Lookup(types, x).value)
    ensures TypedEnv(Update(env, x, v), types)
  {
    TypedInnermost(env, types, x);
    var i := Innermost(env, x);
    assert TypedScope(env[i], types[i]);
    assert TypedScope(env[i][x := v], types[i]);
  }

  lemma TypedDeclare(env: Vals, types: Scopes<Ty>, x: string, v: Val, ty: Ty)
    requires TypedEnv(env, types) && env != [] && HasType(v, ty)
    ensures TypedEnv(Declare(env, x, v), Declare(types, x, ty))
  {
    var i := |env| - 1;
    assert TypedScope(env[i], types[i]);
    assert TypedScope(env[i][x := v], types[i][x := ty]);
  }

  // ---- operators ----

  lemma PatternWraps(ty: Ty, n: int)
    ensures Pattern(Fit(ty, n)) == C.Wrap(n) && C.Signed(Pattern(Fit(ty, n)))
  {
  }

  lemma PatternOf(ty: Ty, n: int)
    requires Word(ty) && InRange(ty, n)
    ensures C.Signed(Pattern(n)) && Fit(ty, n) == n && Pattern(n) == C.Wrap(n) && C.Unsigned(Pattern(n)) == n % C.TWO64
    ensures if C.UnsignedTy(ty) then UnsignedWord(ty) && C.Unsigned(Pattern(n)) == n && n >= 0 else SignedWord(ty) && Pattern(n) == n
  {
  }

  lemma Shifts(n: int) returns (k: int)
    ensures Pattern(n) == n + k * C.TWO64
  {
    k := if n < C.TWO63 then 0 else -1;
  }

  lemma WrapSum(a: int, b: int)
    ensures C.Wrap(Pattern(a) + Pattern(b)) == C.Wrap(a + b) && C.Wrap(Pattern(a) - Pattern(b)) == C.Wrap(a - b)
  {
    var j := Shifts(a);
    var k := Shifts(b);
    assert (a + j * C.TWO64) + (b + k * C.TWO64) == (a + b) + (j + k) * C.TWO64;
    C.WrapCongruent(a + b, j + k);
    assert (a + j * C.TWO64) - (b + k * C.TWO64) == (a - b) + (j - k) * C.TWO64;
    C.WrapCongruent(a - b, j - k);
  }

  lemma WrapScaled(a: int, b: int)
    ensures C.Wrap(Pattern(a) * b) == C.Wrap(a * b)
  {
    var j := Shifts(a);
    assert (a + j * C.TWO64) * b == a * b + (j * b) * C.TWO64;
    C.WrapCongruent(a * b, j * b);
  }

  lemma WrapProduct(a: int, b: int)
    ensures C.Wrap(Pattern(a) * Pattern(b)) == C.Wrap(a * b)
  {
    WrapScaled(a, Pattern(b));
    WrapScaled(b, a);
    assert a * Pattern(b) == Pattern(b) * a && b * a == a * b;
  }

  function Executed(op: string, ty: Ty, a: int, b: int): Option<int>
    requires C.Signed(Pattern(a)) && C.Signed(Pattern(b))
  {
    C.Execute(C.ArithmeticOpcode(C.UnsignedTy(ty), op), Pattern(a), Pattern(b))
  }

  function PatternOpt(n: Option<int>): Option<int> { match n case None => None case Some(m) => Some(Pattern(m)) }

  /// A natural number no larger than one of the type is its own pattern's meaning.
  lemma PatternBelow(ty: Ty, n: int, m: int)
    requires Word(ty) && InRange(ty, n) && (0 <= m <= n || n <= m <= 0)
    ensures InRange(ty, m) && C.Wrap(m) == Pattern(m)
  {
    PatternOf(ty, m);
  }

  lemma ZeroPattern(b: int)
    ensures Pattern(b) == 0 <==> b == 0 || b == C.TWO64
    ensures Pattern(b) == -1 <==> b == -1 || b == C.TWO64 - 1
  {
  }

  lemma RoundedNatural(a: nat, b: nat)
    requires b != 0
    ensures Rounded(a, b) == a / b
  {
  }

  lemma UnsignedParts(ty: Ty, a: int, b: int, q: int, r: int)
    requires Word(ty) && InRange(ty, a) && InRange(ty, b) && 0 <= q <= a && 0 <= r < b
    ensures InRange(ty, q) && InRange(ty, r) && C.Wrap(q) == Pattern(q) && C.Wrap(r) == Pattern(r)
  {
    PatternBelow(ty, a, q);
    PatternBelow(ty, b, r);
  }

  lemma UnsignedDivision(ty: Ty, a: nat, b: nat)
    requires Word(ty) && b > 0 && InRange(ty, a) && InRange(ty, b)
    ensures InRange(ty, a / b) && InRange(ty, a % b) && Rounded(a, b) == a / b && a - b * (a / b) == a % b
    ensures C.Wrap(a / b) == Pattern(a / b) && C.Wrap(a % b) == Pattern(a % b)
  {
    hide *;
    var q, r := a / b, a % b;
    RoundedNatural(a, b);
    C.DivideShrinks(a, b);
    C.Division(a, b);
    UnsignedParts(ty, a, b, q, r);
  }

  lemma SignedDivision(ty: Ty, a: int, b: int)
    requires SignedWord(ty) && InRange(ty, a) && InRange(ty, b) && b != 0
    ensures Rounded(a, b) == C.Quotient(a, b)
    ensures InRange(ty, Rounded(a, b)) <==> !(a == -C.TWO63 && b == -1)
    ensures InRange(ty, C.Remainder(a, b))
  {
    C.RemainderFits(a, b);
    hide C.Remainder;
    if a == -C.TWO63 && b == -1 {
      assert C.TWO63 / 1 == C.TWO63;
    } else {
      C.QuotientFits(a, b);
    }
  }

  lemma DivisionAgrees(op: string, ty: Ty, a: int, b: int)
    requires Word(ty) && InRange(ty, a) && InRange(ty, b) && (op == "/" || op == "%")
    ensures C.Signed(Pattern(a)) && C.Signed(Pattern(b)) && Executed(op, ty, a, b) == PatternOpt(Calculate(op, ty, a, b))
    ensures Calculate(op, ty, a, b).Some? ==> InRange(ty, Calculate(op, ty, a, b).value)
  {
    PatternOf(ty, a);
    PatternOf(ty, b);
    ZeroPattern(b);
    if b != 0 {
      if C.UnsignedTy(ty) {
        UnsignedDivision(ty, a, b);
      } else {
        SignedDivision(ty, a, b);
      }
    }
    hide C.Unsigned, Pattern, C.Wrap, C.Quotient, Rounded, C.UnsignedTy, Word, C.Bitwise, C.ShiftRight, C.ShiftLeft, C.Power2;
  }

  lemma ShiftAgrees(ty: Ty, a: int, b: nat)
    requires Word(ty) && InRange(ty, a)
    ensures C.Signed(Pattern(a)) && C.ShiftLeft(Pattern(a), b) == Pattern(Fit(ty, a * C.Power2(b)))
    ensures InRange(ty, a / C.Power2(b)) && C.Wrap(a / C.Power2(b)) == Pattern(a / C.Power2(b))
    ensures if C.UnsignedTy(ty) then C.Unsigned(Pattern(a)) == a && C.ShiftRight(a, b) == a / C.Power2(b)
            else C.ShiftRight(Pattern(a), b) == a / C.Power2(b) == Pattern(a / C.Power2(b))
  {
    PatternOf(ty, a);
    WrapScaled(a, C.Power2(b));
    PatternWraps(ty, a * C.Power2(b));
    C.ShiftRightFits(a, b);
    var q := a / C.Power2(b);
    assert InRange(ty, q);
    PatternOf(ty, q);
  }

  lemma BitwiseAgrees(op: C.Logic, ty: Ty, a: int, b: int)
    requires Word(ty) && InRange(ty, a) && InRange(ty, b)
    ensures C.Signed(Pattern(a)) && C.Signed(Pattern(b))
    ensures C.Bitwise(op, Pattern(a), Pattern(b)) == Pattern(Fit(ty, C.Combine(op, a % C.TWO64, b % C.TWO64, 64)))
  {
    PatternOf(ty, a);
    PatternOf(ty, b);
    hide C.Combine;
    PatternWraps(ty, C.Combine(op, a % C.TWO64, b % C.TWO64, 64));
  }

  lemma SumAgrees(op: string, ty: Ty, a: int, b: int)
    requires Word(ty) && InRange(ty, a) && InRange(ty, b) && (op == "+" || op == "-" || op == "*")
    ensures C.Signed(Pattern(a)) && C.Signed(Pattern(b)) && Executed(op, ty, a, b) == PatternOpt(Calculate(op, ty, a, b))
    ensures Calculate(op, ty, a, b).Some? && InRange(ty, Calculate(op, ty, a, b).value)
  {
    PatternOf(ty, a);
    PatternOf(ty, b);
    hide C.Unsigned, Pattern, C.Wrap, C.UnsignedTy, Word, Fit;
    WrapSum(a, b);
    WrapProduct(a, b);
    PatternWraps(ty, a + b);
    PatternWraps(ty, a - b);
    PatternWraps(ty, a * b);
  }

  lemma ShiftsAgree(op: string, ty: Ty, a: int, b: int)
    requires Word(ty) && InRange(ty, a) && InRange(ty, b) && (op == "<<" || op == ">>")
    ensures C.Signed(Pattern(a)) && C.Signed(Pattern(b)) && Executed(op, ty, a, b) == PatternOpt(Calculate(op, ty, a, b))
    ensures Calculate(op, ty, a, b).Some? ==> InRange(ty, Calculate(op, ty, a, b).value)
  {
    PatternOf(ty, a);
    PatternOf(ty, b);
    SmallPattern(ty, b);
    if 0 <= b < 64 { ShiftAgrees(ty, a, b); }
    hide C.Unsigned, Pattern, C.Wrap, C.UnsignedTy, Word, Fit, C.ShiftLeft, C.ShiftRight, C.Power2;
  }

  lemma BitLogicAgrees(op: string, ty: Ty, a: int, b: int)
    requires Word(ty) && InRange(ty, a) && InRange(ty, b) && (op == "&" || op == "|" || op == "^")
    ensures C.Signed(Pattern(a)) && C.Signed(Pattern(b)) && Executed(op, ty, a, b) == PatternOpt(Calculate(op, ty, a, b))
    ensures Calculate(op, ty, a, b).Some? && InRange(ty, Calculate(op, ty, a, b).value)
  {
    hide C.Unsigned, Pattern, C.Wrap, C.UnsignedTy, Word, Fit, C.Bitwise, C.Combine;
    BitwiseAgrees(BitLogic(op), ty, a, b);
  }

  /// The operation that the backend selects computes the pattern of the number.
  lemma CalculateAgrees(op: string, ty: Ty, a: int, b: int)
    requires Word(ty) && InRange(ty, a) && InRange(ty, b) && IsArithmetic(op)
    ensures C.Signed(Pattern(a)) && C.Signed(Pattern(b)) && Executed(op, ty, a, b) == PatternOpt(Calculate(op, ty, a, b))
    ensures Calculate(op, ty, a, b).Some? ==> InRange(ty, Calculate(op, ty, a, b).value)
  {
    hide Executed, Calculate, C.Signed, PatternOpt, Word, Pattern, InRange;
    if op == "/" || op == "%" {
      DivisionAgrees(op, ty, a, b);
    } else if op == "+" || op == "-" || op == "*" {
      SumAgrees(op, ty, a, b);
    } else if op == "<<" || op == ">>" {
      ShiftsAgree(op, ty, a, b);
    } else {
      BitLogicAgrees(op, ty, a, b);
    }
  }

  lemma SmallPattern(ty: Ty, b: int)
    requires Word(ty) && InRange(ty, b)
    ensures 0 <= Pattern(b) < 64 <==> 0 <= b < 64
    ensures 0 <= b < 64 ==> Pattern(b) == b
  {
  }

  /// The predicate that the backend selects tells how the numbers stand.
  lemma StandsAgrees(op: string, ty: Ty, a: int, b: int)
    requires Word(ty) && InRange(ty, a) && InRange(ty, b) && (IsOrder(op) || IsEquality(op))
    ensures C.Signed(Pattern(a)) && C.Signed(Pattern(b))
    ensures C.Test(C.ComparePredicate(C.UnsignedTy(ty), op), Pattern(a), Pattern(b)) <==> Stands(op, a, b)
  {
    PatternOf(ty, a);
    PatternOf(ty, b);
    assert Pattern(a) == Pattern(b) <==> a == b;
    hide C.Unsigned, Pattern, C.UnsignedTy;
  }

  // ---- values on the target ----

  lemma RepHeld(v: Val, ty: Ty)
    requires HasType(v, ty)
    ensures C.Wide(ty) && C.Held(ty, Rep(v))
  {
    if v.Number? { PatternOf(ty, v.n); }
  }

  lemma AsTyped(v: Val, from: Ty, to: Ty)
    requires HasType(v, from) && Becomes(from, to)
    ensures HasType(As(v, to), to) && Rep(As(v, to)) == Rep(v) && (from == to ==> As(v, to) == v)
  {
    if v.Number? {
      PatternOf(from, v.n);
      PatternWraps(to, v.n);
      if from == to { PatternOf(to, v.n); }
    }
  }

  lemma SpellNames(ty: Ty)
    requires C.Wide(ty)
    ensures C.Named(Spell(ty)) == ty
  {
  }

  lemma Applies(w: World, op: Op, ty: Ty, text: string, vs: seq<Value>)
    requires C.Machine(w) && C.Specified(op, ty, text)
    ensures w.apply(op, ty, text, vs) == C.Target(op, ty, text, vs)
  {
  }

  /// A conversion is made exactly between different types, of an integer or a
  /// truth value, to an integer type; it yields the value in the other type.
  lemma ConvertAgrees(w: World, v: Val, from: Ty, to: Ty)
    requires C.Machine(w) && HasType(v, from) && Becomes(from, to)
    ensures Convert(w, Rep(v), from, to) == Some(Rep(As(v, to)))
    ensures EvalCast(w, from, to, Rep(v)) == Some(Rep(As(v, to)))
  {
    AsTyped(v, from, to);
    RepHeld(v, from);
    if from != to {
      SpellNames(from);
      RepHeld(As(v, to), to);
      hide C.Machine;
      Applies(w, Cast, to, Spell(from), [Rep(v)]);
    }
  }

  lemma ZeroReads()
    ensures IL.Meaning("0") == IL.Some(0)
  {
    IL.NumeralReads(0);
  }

  lemma PrefixAgrees(w: World, op: string, ty: Ty, v: Val)
    requires C.Machine(w) && HasType(v, ty) && (if ty == BoolTy then op == "!" else op in {"-", "!", "~"})
    ensures EvalApply1(w, op, ty, Rep(v)) == RepOpt(Prefix(op, ty, v))
    ensures Prefix(op, ty, v).Some? && HasType(Prefix(op, ty, v).value, ty)
  {
    RepHeld(v, ty);
    hide C.Machine;
    if op == "-" {
      NegationAgrees(w, ty, v.n);
    } else {
      Applies(w, Binary, ty, op, [Rep(v)]);
      if v.Number? {
        PatternOf(ty, v.n);
        PatternWraps(ty, -v.n - 1);
        ComplementWraps(v.n);
      }
    }
  }

  lemma ComplementWraps(n: int)
    requires C.Signed(Pattern(n))
    ensures C.Wrap(-n - 1) == -Pattern(n) - 1
  {
    var k := Shifts(n);
    C.WrapCongruent(-n - 1, -k);
    C.WrapSigned(-Pattern(n) - 1);
  }

  lemma NegationAgrees(w: World, ty: Ty, n: int)
    requires C.Machine(w) && Word(ty) && InRange(ty, n) && C.Held(ty, Num(Pattern(n))) && C.Wide(ty)
    ensures EvalApply1(w, "-", ty, Num(Pattern(n))) == Some(Num(Pattern(Fit(ty, -n))))
  {
    hide C.Machine, IL.Meaning;
    ZeroReads();
    Applies(w, ConstInt, ty, "0", []);
    Applies(w, Binary, ty, "-", [Num(0), Num(Pattern(n))]);
    CalculateAgrees("-", ty, 0, n);
    hide Pattern, Fit, C.Execute;
    ZeroPattern(0);
  }

  lemma InfixAgrees(w: World, op: string, ty: Ty, left: Ty, right: Ty, a: Val, b: Val)
    requires C.Machine(w) && HasType(a, left) && HasType(b, right)
    requires if IsOrder(op) then ty == BoolTy && Word(left) && Becomes(right, left)
             else if IsEquality(op) then ty == BoolTy && Becomes(right, left)
             else if op == "&&" || op == "||" then ty == BoolTy && left == BoolTy && right == BoolTy
             else IsArithmetic(op) && Word(ty) && Becomes(left, ty) && Becomes(right, ty)
    ensures EvalBin(w, BinKind(op), op, BinTy(op, left, ty), left, right, Rep(a), Rep(b)) == RepOpt(Infix(op, ty, left, a, b))
    ensures Infix(op, ty, left, a, b).Some? ==> HasType(Infix(op, ty, left, a, b).value, ty)
  {
    var to := if IsOrder(op) || IsEquality(op) then left else ty;
    assert Becomes(left, to) && Becomes(right, to);
    ConvertAgrees(w, a, left, to);
    ConvertAgrees(w, b, right, to);
    AsTyped(a, left, to);
    AsTyped(b, right, to);
    RepHeld(As(a, to), to);
    RepHeld(As(b, to), to);
    if IsOrder(op) || IsEquality(op) {
      ComparisonRuns(w, op, to, As(a, to), As(b, to));
    } else if op == "&&" || op == "||" {
      LogicRuns(w, op, As(a, to), As(b, to));
    } else {
      ArithmeticRuns(w, op, to, As(a, to), As(b, to));
    }
    hide C.Machine, Convert, Becomes, Rep, Calculate, Stands;
  }

  lemma ComparisonRuns(w: World, op: string, ty: Ty, a: Val, b: Val)
    requires C.Machine(w) && HasType(a, ty) && HasType(b, ty) && (IsEquality(op) || (IsOrder(op) && Word(ty)))
    ensures w.apply(Compare, ty, op, [Rep(a), Rep(b)])
      == Some(Rep(Truth(if a.Number? && b.Number? then Stands(op, a.n, b.n) else (op == "==") == (a == b))))
  {
    RepHeld(a, ty);
    RepHeld(b, ty);
    Applies(w, Compare, ty, op, [Rep(a), Rep(b)]);
    hide C.Machine;
    if a.Number? { StandsAgrees(op, ty, a.n, b.n); }
    hide Stands, Pattern;
  }

  lemma LogicRuns(w: World, op: string, a: Val, b: Val)
    requires C.Machine(w) && HasType(a, BoolTy) && HasType(b, BoolTy) && (op == "&&" || op == "||")
    ensures w.apply(Binary, BoolTy, op, [Rep(a), Rep(b)]) == Some(Rep(Truth(if op == "&&" then a.b && b.b else a.b || b.b)))
  {
    Applies(w, Binary, BoolTy, op, [Rep(a), Rep(b)]);
    hide C.Machine;
    LogicTarget(op, a.b, b.b);
  }

  lemma LogicTarget(op: string, x: bool, y: bool)
    requires op == "&&" || op == "||"
    ensures C.Target(Binary, BoolTy, op, [Num(if x then 1 else 0), Num(if y then 1 else 0)])
      == Some(Num(if (if op == "&&" then x && y else x || y) then 1 else 0))
  {
    CM.LogicOnTruth(x, y);
    hide C.Bitwise, C.Wrap, C.Quotient, C.Remainder, C.Unsigned, C.ShiftLeft, C.ShiftRight;
  }

  lemma ArithmeticRuns(w: World, op: string, ty: Ty, a: Val, b: Val)
    requires C.Machine(w) && HasType(a, ty) && HasType(b, ty) && Word(ty) && IsArithmetic(op)
    ensures var r := Calculate(op, ty, a.n, b.n);
      && w.apply(Binary, ty, op, [Rep(a), Rep(b)]) == (if r.None? then None else Some(Rep(Number(r.value))))
      && (r.Some? ==> InRange(ty, r.value))
  {
    RepHeld(a, ty);
    RepHeld(b, ty);
    Applies(w, Binary, ty, op, [Rep(a), Rep(b)]);
    CalculateAgrees(op, ty, a.n, b.n);
    hide C.Machine, Calculate, C.Execute, Pattern;
  }

  /// Expressions evaluate to the representation of what they mean.
  lemma {:induction false} ExprAgrees(w: World, e: Expr, env: Vals, types: Scopes<Ty>)
    requires C.Machine(w) && TypedExpr(e, types) && TypedEnv(env, types)
    ensures Eval(w, e, RepEnv(env)) == RepOpt(Evaluate(e, env))
    ensures Evaluate(e, env).Some? ==> HasType(Evaluate(e, env).value, e.ty)
  {
    match e
    case IntLit(ty, text) => LiteralAgrees(w, ty, text);
    case BoolLit(ty, b) => TruthAgrees(w, b);
    case Var(x, ty) =>
      RepLookup(env, x);
      TypedLookup(env, types, x);
    case Unary(op, ty, x) =>
      ExprAgrees(w, x, env, types);
      if Evaluate(x, env).Some? {
        var v := Evaluate(x, env).value;
        UnaryTyped(op, ty, x, types);
        hide C.Machine, TypedExpr, EvalApply1, EvalCast, Prefix, As, Rep;
        ConvertAgrees(w, v, x.ty, ty);
        AsTyped(v, x.ty, ty);
        PrefixAgrees(w, op, ty, As(v, ty));
      }
    case Bin(op, ty, l, r) =>
      ExprAgrees(w, l, env, types);
      ExprAgrees(w, r, env, types);
      hide C.Machine, EvalBin, Infix, Rep;
      if Evaluate(l, env).Some? && Evaluate(r, env).Some? {
        InfixAgrees(w, op, ty, l.ty, r.ty, Evaluate(l, env).value, Evaluate(r, env).value);
      }
  }

  lemma UnaryTyped(op: string, ty: Ty, x: Expr, types: Scopes<Ty>)
    requires TypedExpr(Unary(op, ty, x), types)
    ensures Becomes(x.ty, ty) && (if ty == BoolTy then op == "!" else op in {"-", "!", "~"})
  {
  }

  lemma LiteralAgrees(w: World, ty: Ty, text: string)
    requires C.Machine(w) && Word(ty) && IL.Meaning(text).Some?
    ensures w.apply(ConstInt, ty, text, []) == Some(Rep(Number(Fit(ty, IL.Meaning(text).value))))
  {
    PatternWraps(ty, IL.Meaning(text).value);
    Applies(w, ConstInt, ty, text, []);
    hide IL.Meaning, C.Machine;
  }

  lemma TruthAgrees(w: World, b: bool)
    requires C.Machine(w)
    ensures w.apply(ConstBool, BoolTy, if b then "1" else "0", []) == Some(Rep(Truth(b)))
  {
    Applies(w, ConstBool, BoolTy, if b then "1" else "0", []);
  }
}
