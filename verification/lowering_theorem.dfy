/// Lowering preserves meaning, for every function of the fragment that lowers
/// without an error; and the one way it does not.

module LoweringTheorem {
  import opened Mir
  import opened SourceLang
  import opened Lowering
  import opened LoweringShape
  import opened LoweringSound
  import opened LoweringRuns
  import opened LoweringCorrect
  import opened LoweringSimulation
  import opened LoweringControl

  function Params(params: seq<(string, Ty)>): set<string> {
    set p | p in params :: p.0
  }

  /// The arguments are in the parameters' registers.
  ghost predicate Applied(f: Function, args: map<string, Value>, c: Config) {
    && args.Keys == Params(f.params)
    && forall x :: x in args ==> Arg(x) in c.regs && c.regs[Arg(x)] == args[x]
  }

  // ---- parameters ----

  function BindParams(params: seq<(string, Ty)>, args: map<string, Value>, m: map<string, Value>): map<string, Value>
    requires Params(params) <= args.Keys
    decreases |params|
  {
    if params == [] then m
    else
      assert params[0] in params && params[0].0 in Params(params) && Params(params[1..]) <= Params(params);
      BindParams(params[1..], args, m[params[0].0 := args[params[0].0]])
  }

  lemma {:induction false} BindParamsIs(params: seq<(string, Ty)>, args: map<string, Value>, m: map<string, Value>)
    requires Params(params) <= args.Keys && m.Keys <= args.Keys && forall x :: x in m ==> m[x] == args[x]
    ensures BindParams(params, args, m).Keys == m.Keys + Params(params)
    ensures forall x :: x in BindParams(params, args, m) ==> x in args && BindParams(params, args, m)[x] == args[x]
    decreases |params|
  {
    if params == [] {
    } else {
      var p := params[0];
      assert p in params && p.0 in Params(params);
      assert Params(params) == {p.0} + Params(params[1..]) by {
        forall x | x in Params(params) ensures x in {p.0} + Params(params[1..]) {
          var q :| q in params && q.0 == x;
          if q != p { assert q in params[1..]; }
        }
        forall x | x in Params(params[1..]) ensures x in Params(params) {
          var q :| q in params[1..] && q.0 == x;
          assert q in params;
        }
      }
      BindParamsIs(params[1..], args, m[p.0 := args[p.0]]);
    }
  }

  lemma {:induction false} ParamsRun(w: World, final: seq<Block>, params: seq<(string, Ty)>, args: map<string, Value>, st: LState,
                                     scope: map<string, Name>, m: map<string, Value>, c: Config)
    returns (d: Config, scope': map<string, Name>)
    requires Open(st) && Sound(st) && Params(params) <= args.Keys && st.loops == []
    requires forall x :: x in args ==> Arg(x) in c.regs && c.regs[Arg(x)] == args[x]
    requires Holds([m], [scope], c.mem) && Placed([scope], st.slotCount) && Resolved([scope], st.slots, {})
    requires Grows(LowerParams(params, st).blocks, final)
    ensures var r := LowerParams(params, st);
      && Open(r) && r.loops == [] && Reaches(w, final, Here(st, c), Here(r, d), 0)
      && Holds([BindParams(params, args, m)], [scope'], d.mem) && Placed([scope'], r.slotCount) && Resolved([scope'], r.slots, {})
    decreases |params|
  {
    hide Bind, Holds, Placed, Resolved, Grows, Reaches, Sound, Extends;
    d, scope' := c, scope;
    if params == [] {
      ReachesSelf(w, final, Here(st, c));
    } else {
      var p := params[0];
      assert p in params && p.0 in Params(params);
      assert Params(params[1..]) <= Params(params);
      var next := Bind(st, p.0, p.1, Arg(p.0));
      BindExtends(st, p.0, p.1, Arg(p.0));
      BindSound(st, p.0, p.1, Arg(p.0));
      ExtendsMore(st, next);
      ParamsExtend(params[1..], next);
      GrowsBack(next, LowerParams(params[1..], next), final);
      var d1 := BindRuns(w, final, st, p.0, p.1, Arg(p.0), [scope], {}, [m], c);
      assert {} - {p.0} == {};
      assert Declare([m], p.0, args[p.0]) == [m[p.0 := args[p.0]]];
      assert Declare([scope], p.0, Slot(p.0, st.slotCount)) == [scope[p.0 := Slot(p.0, st.slotCount)]];
      d, scope' := ParamsRun(w, final, params[1..], args, next, scope[p.0 := Slot(p.0, st.slotCount)], m[p.0 := args[p.0]], d1);
      ReachesTransitive(w, final, Here(st, c), Here(next, d1), Here(LowerParams(params, st), d), 0, 0);
    }
  }

  lemma StartReady(m: Mem)
    ensures Open(Start) && Sound(Start) && Holds([map[]], [map[]], m) && Placed([map[]], 0) && Resolved([map[]], map[], {})
  {
  }

  // ---- functions ----

  /// One direction: whatever the source does, the emitted code does.
  lemma FunctionRuns(w: World, f: Function, args: map<string, Value>, c: Config, fuel: nat) returns (n: nat)
    requires Applied(f, args, c) && ClearSeq(f.body, {}, false) && !LowerFunction(f).err
    ensures var final := LowerFunction(f).blocks;
      match ExecFunction(w, f, args, fuel)
      case Done(v) => Run(w, final, c, n).Returned? && Run(w, final, c, n).value == v
      case Fault => Run(w, final, c, n).Faulted?
      case OutOfFuel => forall m: nat :: m < fuel ==> Run(w, final, c, m).Running?
      case _ => false
  {
    hide LowerParams, LowerSeq, Holds, Placed, Resolved, Grows, Reaches, Extends, ExecBlock, SoundBlock, RunFrom, BindParams, Emit;
    var final := LowerFunction(f).blocks;
    var ready := LowerParams(f.params, Start);
    var st := LowerSeq(f.body, f.result, ready);
    FunctionIs(f, ready, st);
    GraphIsWellFormed(f);
    StartReady(c.mem);
    ParamsExtend(f.params, Start);
    var d, scope := ParamsRun(w, final, f.params, args, Start, map[], map[], c);
    BindParamsIs(f.params, args, map[]);
    assert BindParams(f.params, args, map[]) == args;
    var m, d2 := BlockRuns(w, final, f.body, f.result, ready, [scope], {}, [args], d, fuel);
    var o := ExecBlock(w, f.body, f.result, [args], fuel);
    assert Here(Start, c) == Spot(0, 0, c);
    if o.Done? || o.Fault? {
      ReachesEnd(w, final, Here(Start, c), Here(ready, d), 0, m);
    } else if o.OutOfFuel? {
      ReachesLasts(w, final, Here(Start, c), Here(ready, d), 0, fuel);
      LastsIs(w, final, c, fuel);
    } else if o.Normal? {
      assert Open(st);
      ReachesEnd(w, final, Here(Start, c), Here(ready, d), 0, m);
      ReachesEnd(w, final, Here(ready, d), Here(st, d2), m, 0);
      ReturnRuns(w, final, st, UnitTy, [], d2);
    }
    n := m;
  }

  lemma LastsIs(w: World, final: seq<Block>, c: Config, fuel: nat)
    requires Lasts(w, final, Here(Start, c), fuel)
    ensures forall m: nat :: m < fuel ==> Run(w, final, c, m).Running?
  {
    hide RunFrom;
    forall m: nat | m < fuel ensures Run(w, final, c, m).Running? {
      assert RunAt(w, final, Here(Start, c), m).Running?;
    }
  }

  lemma FunctionIs(f: Function, ready: LState, st: LState)
    requires ready == LowerParams(f.params, Start) && st == LowerSeq(f.body, f.result, ready) && !LowerFunction(f).err
    ensures Grows(st.blocks, LowerFunction(f).blocks) && Grows(ready.blocks, LowerFunction(f).blocks) && !st.err
    ensures Open(ready) && ready.loops == []
    ensures Open(st) ==> LowerFunction(f) == Emit(st, Instr(Return, None, UnitTy, [], "", false)) && f.result == UnitTy
    ensures Grows(LowerFunction(f).blocks, LowerFunction(f).blocks)
  {
    hide LowerParams, LowerSeq, Extends, SoundBlock, Grows;
    StartSound();
    ParamsExtend(f.params, Start);
    SeqExtends(f.body, f.result, ready);
    ExtendsMore(ready, st);
    var r := LowerFunction(f);
    ExtendsSelf(st);
    EmitExtends(st, Instr(Return, None, UnitTy, [], "", false));
    EmitTemps(st, Instr(Return, None, UnitTy, [], "", false));
    ExtendsGrows(ready, st);
    GrowsSelf(r.blocks);
    GrowsBack(st, r, r.blocks);
    GrowsBack(ready, st, r.blocks);
  }

  lemma GrowsSelf(blocks: seq<Block>)
    ensures Grows(blocks, blocks)
  {
  }

  // ---- the theorem ----

  ghost predicate SourceReturns(w: World, f: Function, args: map<string, Value>, v: Option<Value>) {
    exists fuel: nat :: ExecFunction(w, f, args, fuel) == Done(v)
  }

  ghost predicate SourceFaults(w: World, f: Function, args: map<string, Value>) {
    exists fuel: nat :: ExecFunction(w, f, args, fuel) == Fault
  }

  /// However much fuel, it is not enough.
  ghost predicate SourceDiverges(w: World, f: Function, args: map<string, Value>) {
    forall fuel: nat :: ExecFunction(w, f, args, fuel) == OutOfFuel
  }

  ghost predicate CodeReturns(w: World, blocks: seq<Block>, c: Config, v: Option<Value>) {
    exists n: nat :: Run(w, blocks, c, n).Returned? && Run(w, blocks, c, n).value == v
  }

  ghost predicate CodeFaults(w: World, blocks: seq<Block>, c: Config) {
    exists n: nat :: Run(w, blocks, c, n).Faulted?
  }

  ghost predicate CodeDiverges(w: World, blocks: seq<Block>, c: Config) {
    forall n: nat :: Run(w, blocks, c, n).Running?
  }

  lemma OneEnd(w: World, blocks: seq<Block>, c: Config, n: nat, m: nat)
    requires !Run(w, blocks, c, n).Running? && !Run(w, blocks, c, m).Running?
    ensures Run(w, blocks, c, n) == Run(w, blocks, c, m)
  {
    if n <= m { FuelMonotone(w, blocks, 0, 0, c, n, m); } else { FuelMonotone(w, blocks, 0, 0, c, m, n); }
  }

  /// For every function that lowers without an error and uses no stale name,
  /// every target, every memory and every arguments: the run from `entry`
  /// returns the value the source returns, and faults or diverges exactly when
  /// the source does.
  lemma LoweringPreservesMeaning(w: World, f: Function, args: map<string, Value>, c: Config)
    requires Applied(f, args, c) && ClearSeq(f.body, {}, false) && !LowerFunction(f).err
    ensures var blocks := LowerFunction(f).blocks;
      && (forall v :: SourceReturns(w, f, args, v) <==> CodeReturns(w, blocks, c, v))
      && (SourceFaults(w, f, args) <==> CodeFaults(w, blocks, c))
      && (SourceDiverges(w, f, args) <==> CodeDiverges(w, blocks, c))
  {
    hide ExecFunction, Run, LowerFunction, ClearSeq, Applied;
    var blocks := LowerFunction(f).blocks;
    forall fuel: nat
      ensures ExecFunction(w, f, args, fuel).Done? ==> CodeReturns(w, blocks, c, ExecFunction(w, f, args, fuel).value)
      ensures ExecFunction(w, f, args, fuel).Fault? ==> CodeFaults(w, blocks, c)
      ensures ExecFunction(w, f, args, fuel).OutOfFuel? ==> forall m: nat :: m < fuel ==> Run(w, blocks, c, m).Running?
      ensures ExecFunction(w, f, args, fuel).Done? || ExecFunction(w, f, args, fuel).Fault? || ExecFunction(w, f, args, fuel).OutOfFuel?
    {
      var n := FunctionRuns(w, f, args, c, fuel);
    }
    forall n: nat | !Run(w, blocks, c, n).Running?
      ensures Run(w, blocks, c, n).Returned? ==> SourceReturns(w, f, args, Run(w, blocks, c, n).value)
      ensures Run(w, blocks, c, n).Faulted? ==> SourceFaults(w, f, args)
      ensures !ExecFunction(w, f, args, n + 1).OutOfFuel?
    {
      var o := ExecFunction(w, f, args, n + 1);
      var m := FunctionRuns(w, f, args, c, n + 1);
      OneEnd(w, blocks, c, n, m);
    }
  }

  // ---- shadowing ----

  /// Lowering does not see the scope of a block: its code is that of its
  /// statements in the enclosing sequence.
  lemma {:induction false} BlocksAreFlattened(before: seq<Stmt>, rest: seq<Stmt>, result: Ty, st: LState)
    ensures LowerSeq([BlockStmt(before)] + rest, result, st) == LowerSeq(before + rest, result, st)
  {
    hide LowerStmt;
    assert ([BlockStmt(before)] + rest)[1..] == rest;
    if Terminated(st) {
    } else {
      BlockIs(before, result, st);
      SeqAppended(before, rest, result, st);
    }
  }

  lemma BlockIs(body: seq<Stmt>, result: Ty, st: LState)
    ensures LowerStmt(BlockStmt(body), result, st) == LowerSeq(body, result, st)
  {
  }

  lemma {:induction false} SeqAppended(a: seq<Stmt>, b: seq<Stmt>, result: Ty, st: LState)
    ensures LowerSeq(a + b, result, st) == LowerSeq(b, result, LowerSeq(a, result, st))
    decreases a
  {
    hide LowerStmt;
    if a == [] {
      assert a + b == b;
    } else if !Terminated(st) {
      assert (a + b)[1..] == a[1..] + b;
      SeqAppended(a[1..], b, result, LowerStmt(a[0], result, st));
    }
  }

  /// `let x = a; { let y = b; } return x;`
  function Nested(x: string, y: string, ty: Ty, a: string, b: string): Function {
    Function([], ty, [Let(x, ty, IntLit(ty, a)), BlockStmt([Let(y, ty, IntLit(ty, b))]), Ret(Some(Var(x, ty)))])
  }

  /// `let x = a; let y = b; return x;`
  function Flat(x: string, y: string, ty: Ty, a: string, b: string): Function {
    Function([], ty, [Let(x, ty, IntLit(ty, a)), Let(y, ty, IntLit(ty, b)), Ret(Some(Var(x, ty)))])
  }

  lemma SameCode(x: string, y: string, ty: Ty, a: string, b: string)
    ensures LowerFunction(Nested(x, y, ty, a, b)) == LowerFunction(Flat(x, y, ty, a, b))
  {
    hide LowerStmt, LowerParams;
    var first, inner, last := Let(x, ty, IntLit(ty, a)), Let(y, ty, IntLit(ty, b)), Ret(Some(Var(x, ty)));
    assert [first, BlockStmt([inner]), last] == [first] + ([BlockStmt([inner])] + [last]);
    assert [first, inner, last] == [first] + ([inner] + [last]);
    var st := LowerParams([], Start);
    SeqAppended([first], [BlockStmt([inner])] + [last], ty, st);
    SeqAppended([first], [inner] + [last], ty, st);
    BlocksAreFlattened([inner], [last], ty, LowerSeq([first], ty, st));
  }

  lemma LowerThree(r: Stmt, s: Stmt, t: Stmt, result: Ty, st: LState)
    requires !Terminated(st) && !Terminated(LowerStmt(r, result, st)) && !Terminated(LowerStmt(s, result, LowerStmt(r, result, st)))
    ensures LowerSeq([r, s, t], result, st) == LowerStmt(t, result, LowerStmt(s, result, LowerStmt(r, result, st)))
  {
    hide LowerStmt, Terminated;
    assert [r, s, t][1..] == [s, t] && [s, t][1..] == [t] && [t][1..] == [];
    var two := LowerStmt(s, result, LowerStmt(r, result, st));
    assert LowerSeq([t], result, two) == LowerStmt(t, result, two);
    assert LowerSeq([s, t], result, LowerStmt(r, result, st)) == LowerSeq([t], result, two);
  }

  lemma FlatLowers(x: string, y: string, ty: Ty, a: string, b: string)
    ensures !LowerFunction(Flat(x, y, ty, a, b)).err && ClearSeq(Flat(x, y, ty, a, b).body, {}, false)
  {
    hide LowerStmt, Clear, LowerSeq, StaleAfter;
    var first, inner, last := Let(x, ty, IntLit(ty, a)), Let(y, ty, IntLit(ty, b)), Ret(Some(Var(x, ty)));
    var body := [first, inner, last];
    assert body[1..] == [inner, last] && body[1..][1..] == [last] && body[1..][1..][1..] == [];
    StartSound();
    LetLowers(x, ty, a, ty, Start);
    var one := LowerStmt(first, ty, Start);
    LetLowers(y, ty, b, ty, one);
    var two := LowerStmt(inner, ty, one);
    RetLowers(x, ty, two);
    LowerThree(first, inner, last, ty, Start);
    assert LowerParams([], Start) == Start;
    ClearLets(x, y, ty, a, b);
    assert ClearSeq([last], {}, false) by { assert [last][1..] == []; }
    assert ClearSeq([inner, last], {}, false) by { assert [inner, last][1..] == [last]; }
  }

  lemma ClearLets(x: string, y: string, ty: Ty, a: string, b: string)
    ensures Clear(Let(x, ty, IntLit(ty, a)), {}, false) && Clear(Let(y, ty, IntLit(ty, b)), {}, false)
    ensures StaleAfter(Let(x, ty, IntLit(ty, a)), {}) == {} && StaleAfter(Let(y, ty, IntLit(ty, b)), {}) == {}
    ensures Clear(Ret(Some(Var(x, ty))), {}, false)
  {
  }

  lemma LetLowers(x: string, ty: Ty, text: string, result: Ty, st: LState)
    requires Open(st) && !st.err
    ensures var r := LowerStmt(Let(x, ty, IntLit(ty, text)), result, st);
      Open(r) && !r.err && r.slots == st.slots[x := Slot(x, st.slotCount)]
  {
    LetExtends(x, ty, IntLit(ty, text), result, st);
  }

  lemma RetLowers(x: string, ty: Ty, st: LState)
    requires Open(st) && !st.err && x in st.slots
    ensures var r := LowerStmt(Ret(Some(Var(x, ty))), ty, st); !r.err && Terminated(r)
  {
  }

  lemma ExecThree(w: World, r: Stmt, s: Stmt, t: Stmt, result: Ty, env: Env, env1: Env, env2: Env, v: Option<Value>)
    requires ExecStmt(w, r, result, env, 0) == Normal(env1) && ExecStmt(w, s, result, env1, 0) == Normal(env2)
    requires ExecStmt(w, t, result, env2, 0) == Done(v)
    ensures ExecSeq(w, [r, s, t], result, env, 0) == Done(v)
  {
    hide ExecStmt;
    assert [r, s, t][1..] == [s, t] && [s, t][1..] == [t] && [t][1..] == [];
    assert ExecSeq(w, [t], result, env2, 0) == Done(v);
    assert ExecSeq(w, [s, t], result, env1, 0) == Done(v);
  }

  lemma NestedMeans(w: World, x: string, y: string, ty: Ty, a: string, b: string)
    requires w.apply(ConstInt, ty, a, []).Some? && w.apply(ConstInt, ty, b, []).Some?
    ensures ExecFunction(w, Nested(x, y, ty, a, b), map[], 0) == Done(w.apply(ConstInt, ty, a, []))
    ensures ExecFunction(w, Flat(x, y, ty, a, b), map[], 0) == Done(w.apply(ConstInt, ty, if x == y then b else a, []))
  {
    var va, vb := w.apply(ConstInt, ty, a, []).value, w.apply(ConstInt, ty, b, []).value;
    var first, inner, last := Let(x, ty, IntLit(ty, a)), Let(y, ty, IntLit(ty, b)), Ret(Some(Var(x, ty)));
    var env: Env := [map[], map[]];
    var env1: Env := [map[], map[x := va]];
    assert Declare(env, x, va) == env1;
    assert ExecStmt(w, first, ty, env, 0) == Normal(env1);
    // In a block of its own.
    var env2: Env := [map[], map[x := va], map[y := vb]];
    assert Declare(env1 + [map[]], y, vb) == env2;
    assert [inner][1..] == [];
    assert ExecSeq(w, [inner], ty, env1 + [map[]], 0) == Normal(env2);
    assert Pop(env2) == env1;
    assert ExecStmt(w, BlockStmt([inner]), ty, env1, 0) == Normal(env1);
    assert Innermost(env1, x) == 1;
    assert ExecStmt(w, last, ty, env1, 0) == Done(Some(va));
    ExecThree(w, first, BlockStmt([inner]), last, ty, env, env1, env1, Some(va));
    // In the same scope.
    var env3: Env := [map[], map[x := va][y := vb]];
    assert Declare(env1, y, vb) == env3;
    assert ExecStmt(w, inner, ty, env1, 0) == Normal(env3);
    assert Innermost(env3, x) == 1;
    var v := if x == y then vb else va;
    assert ExecStmt(w, last, ty, env3, 0) == Done(Some(v));
    ExecThree(w, first, inner, last, ty, env, env1, env3, Some(v));
    hide ExecSeq;
    var args: Env := [map[]];
    assert args + [map[]] == env;
  }

  /// A block that binds a name of an enclosing scope breaks the uses of that
  /// name after it: on `let x = a; { let y = b; } return x;` the emitted code
  /// returns what the source returns if and only if `x` and `y` are different names.
  lemma ShadowingIsNotPreserved(w: World, x: string, y: string, ty: Ty, a: string, b: string, c: Config)
    requires w.apply(ConstInt, ty, a, []).Some? && w.apply(ConstInt, ty, b, []).Some?
    requires w.apply(ConstInt, ty, a, []) != w.apply(ConstInt, ty, b, [])
    ensures var f := Nested(x, y, ty, a, b);
      && !LowerFunction(f).err && SourceReturns(w, f, map[], w.apply(ConstInt, ty, a, []))
      && (CodeReturns(w, LowerFunction(f).blocks, c, w.apply(ConstInt, ty, a, [])) <==> x != y)
  {
    hide LowerFunction, ExecFunction, ClearSeq, Run;
    var flat := Flat(x, y, ty, a, b);
    SameCode(x, y, ty, a, b);
    FlatLowers(x, y, ty, a, b);
    NestedMeans(w, x, y, ty, a, b);
    assert Applied(flat, map[], c);
    LoweringPreservesMeaning(w, flat, map[], c);
    var blocks := LowerFunction(flat).blocks;
    assert SourceReturns(w, flat, map[], w.apply(ConstInt, ty, if x == y then b else a, []));
    if x == y && CodeReturns(w, blocks, c, w.apply(ConstInt, ty, a, [])) {
      var n: nat :| Run(w, blocks, c, n).Returned? && Run(w, blocks, c, n).value == w.apply(ConstInt, ty, a, []);
      var m: nat :| Run(w, blocks, c, m).Returned? && Run(w, blocks, c, m).value == w.apply(ConstInt, ty, b, []);
      OneEnd(w, blocks, c, n, m);
    }
  }
}
