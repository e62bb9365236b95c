/// The emitted code means what the source means: expressions and single
/// statements without control flow. Each lemma runs the straight-line code one
/// construct appends to the current block: it ends with the value the source
/// expression has in the result temporary, temporaries handed out before keep
/// theirs, and it faults exactly when the expression has no value.

module LoweringCorrect {
  import opened Mir
  import opened SourceLang
  import opened Lowering
  import opened LoweringShape
  import opened LoweringRuns

  // ---- when the flat slot map names the right slot ----

  function Uses(e: Expr): set<string> {
    match e
    case Var(x, _) => {x}
    case Unary(_, _, x) => Uses(x)
    case Bin(_, _, l, r) => Uses(l) + Uses(r)
    case _ => {}
  }

  /// Names whose entry in the flat slot map was overwritten by a scope that has
  /// closed since; binding such a name again makes it good.
  function StaleAfter(s: Stmt, stale: set<string>): set<string> {
    if s.Let? then stale - {s.name} else stale + Bound(s)
  }

  /// No stale name is used, and `break` and `continue` stand inside a loop.
  predicate Clear(s: Stmt, stale: set<string>, inLoop: bool)
    decreases s
  {
    match s
    case Let(_, _, init) => Uses(init) !! stale
    case Assign(x, _, _, value) => x !in stale && Uses(value) !! stale
    case ExprStmt(e) => Uses(e) !! stale
    case Ret(None) => true
    case Ret(Some(e)) => Uses(e) !! stale
    case BlockStmt(body) => ClearSeq(body, stale, inLoop)
    case If(c, thn, els) => Uses(c) !! stale && ClearSeq(thn, stale, inLoop) && ClearSeq(els, stale + BoundSeq(thn), inLoop)
    case While(c, body) => Uses(c) !! stale && ClearSeq(body, stale, true)
    case For(x, _, b, e, body) => Uses(b) !! stale && Uses(e) !! stale && ClearSeq(body, stale - {x}, true)
    case Loop(body) => ClearSeq(body, stale, true)
    case Break => inLoop
    case Continue => inLoop
  }

  predicate ClearSeq(ss: seq<Stmt>, stale: set<string>, inLoop: bool)
    decreases ss
  {
    ss == [] || (Clear(ss[0], stale, inLoop) && ClearSeq(ss[1..], StaleAfter(ss[0], stale), inLoop))
  }

  // ---- scopes of values, scopes of slots ----

  /// Every binding has a slot of its own below `count`.
  ghost predicate Placed(places: Scopes<Name>, count: nat) {
    && (forall i, x :: 0 <= i < |places| && x in places[i] ==>
      places[i][x].Slot? && places[i][x].hint == x && places[i][x].n < count)
    && (forall i, j, x :: 0 <= i < j < |places| && x in places[i] && x in places[j] ==> places[i][x] != places[j][x])
  }

  /// The slot of every binding holds its value.
  ghost predicate Holds(env: Env, places: Scopes<Name>, m: Mem) {
    && |env| == |places|
    && (forall i, x :: 0 <= i < |env| ==> (x in env[i] <==> x in places[i]))
    && (forall i, x :: 0 <= i < |env| && x in places[i] ==> places[i][x] in m.slots && m.slots[places[i][x]] == env[i][x])
  }

  /// The flat map agrees with the scopes on every name that is not stale.
  ghost predicate Resolved(places: Scopes<Name>, slots: map<string, Name>, stale: set<string>) {
    forall x :: x in slots && x !in stale ==> Lookup(places, x) == Some(slots[x])
  }

  lemma SameScope(env: Env, places: Scopes<Name>, m: Mem, x: string)
    requires Holds(env, places, m)
    ensures Innermost(env, x) == Innermost(places, x)
  {
    var i, j := Innermost(env, x), Innermost(places, x);
    if i >= 0 { assert x in places[i]; }
    if j >= 0 { assert x in env[j]; }
  }

  lemma LookupHolds(env: Env, places: Scopes<Name>, m: Mem, count: nat, x: string)
    requires Holds(env, places, m) && Placed(places, count)
    ensures Lookup(env, x).Some? <==> Lookup(places, x).Some?
    ensures Lookup(places, x).Some? ==>
      var p := Lookup(places, x).value; p.Slot? && p in m.slots && Lookup(env, x) == Some(m.slots[p])
  {
    SameScope(env, places, m, x);
  }

  lemma UpdateHolds(env: Env, places: Scopes<Name>, m: Mem, count: nat, x: string, v: Value)
    requires Holds(env, places, m) && Placed(places, count) && Lookup(places, x).Some?
    ensures Holds(Update(env, x, v), places, m.(slots := m.slots[Lookup(places, x).value := v]))
  {
    SameScope(env, places, m, x);
    var i := Innermost(places, x);
    var p := places[i][x];
    var env' := Update(env, x, v);
    forall j, y | 0 <= j < |env| && y in places[j] && !(j == i && y == x) ensures places[j][y] != p {
      if y == x { assert j < i || i < j; }
    }
  }

  lemma DeclareHolds(env: Env, places: Scopes<Name>, m: Mem, count: nat, x: string, v: Value)
    requires Holds(env, places, m) && Placed(places, count) && places != []
    ensures Holds(Declare(env, x, v), Declare(places, x, Slot(x, count)), m.(slots := m.slots[Slot(x, count) := v]))
    ensures Placed(Declare(places, x, Slot(x, count)), count + 1)
  {
  }

  lemma DeclareResolved(places: Scopes<Name>, slots: map<string, Name>, stale: set<string>, x: string, p: Name)
    requires Resolved(places, slots, stale) && places != []
    ensures Resolved(Declare(places, x, p), slots[x := p], stale - {x})
  {
    var after := Declare(places, x, p);
    forall y | y in slots[x := p] && y !in stale - {x} ensures Lookup(after, y) == Some(slots[x := p][y]) {
      if y != x {
        var i, j := Innermost(places, y), Innermost(after, y);
        assert Lookup(places, y) == Some(slots[y]);
        assert y in after[i];
      } else {
        assert x in after[|after| - 1];
      }
    }
  }

  // ---- single instructions ----

  /// Registers other than temporaries from `bound` on are the same.
  ghost predicate SameBelow(before: Regs, after: Regs, bound: nat) {
    forall n: Name :: !(n.Temp? && n.n >= bound) ==> (n in before <==> n in after) && (n in before ==> after[n] == before[n])
  }

  /// `d` is `c` with `v` in register `r.name` and scratch temporaries from `bound` on.
  ghost predicate Gives(c: Config, d: Config, bound: nat, r: Lowered, v: Value) {
    && d.mem == c.mem && d.trace == c.trace && SameBelow(c.regs, d.regs, bound)
    && r.name.Temp? && r.name.n < r.st.temps && r.name in d.regs && d.regs[r.name] == v
  }

  /// Lowering to `r` computes `v`, or faults.
  ghost predicate Computes(w: World, st: LState, r: Lowered, c: Config, d: Config, v: Option<Value>) {
    match v
    case None => Breaks(w, st, r.st, c)
    case Some(x) => Steps(w, st, r.st, c, d) && Gives(c, d, st.temps, r, x)
  }

  /// A value operation into temporary `t`, which may have been taken before.
  lemma ValueRuns(w: World, st: LState, t: nat, op: Op, ty: Ty, args: seq<Name>, text: string, c: Config, vs: seq<Value>)
    requires Open(st) && IsValueOp(op) && Operands(args, c.regs) == Some(vs)
    ensures var i := Instr(op, Some(Temp(t)), ty, args, text, false);
      match w.apply(op, ty, text, vs)
      case None => Breaks(w, st, Emit(st, i), c)
      case Some(v) => Steps(w, st, Emit(st, i), c, c.(regs := c.regs[Temp(t) := v]))
  {
    hide Emit, Breaks, Steps, Operands;
    EmitRuns(w, st, Instr(op, Some(Temp(t)), ty, args, text, false), c);
  }

  lemma TakeRuns(w: World, st: LState, n: nat, c: Config)
    requires Open(st)
    ensures Steps(w, st, st.(temps := st.temps + n), c, c)
  {
    TakeStraight(st, n);
  }

  lemma FreshRuns(w: World, st: LState, op: Op, ty: Ty, args: seq<Name>, text: string, c: Config, vs: seq<Value>)
    requires Open(st) && IsValueOp(op) && Operands(args, c.regs) == Some(vs)
    ensures match w.apply(op, ty, text, vs)
      case None => Breaks(w, st, Fresh(st, op, ty, args, text).st, c)
      case Some(v) => Steps(w, st, Fresh(st, op, ty, args, text).st, c, c.(regs := c.regs[Temp(st.temps) := v]))
  {
    hide Breaks, Steps, Operands, Emit;
    var taken := st.(temps := st.temps + 1);
    TakeRuns(w, st, 1, c);
    ValueRuns(w, taken, st.temps, op, ty, args, text, c, vs);
    match w.apply(op, ty, text, vs)
    case None => StepsThenBreaks(w, st, taken, Fresh(st, op, ty, args, text).st, c, c);
    case Some(v) => StepsThenSteps(w, st, taken, Fresh(st, op, ty, args, text).st, c, c, c.(regs := c.regs[Temp(st.temps) := v]));
  }

  lemma LoadRuns(w: World, st: LState, ty: Ty, p: Name, c: Config)
    requires Open(st) && p.Slot? && p in c.mem.slots
    ensures Steps(w, st, Fresh(st, Load, ty, [p], "").st, c, c.(regs := c.regs[Temp(st.temps) := c.mem.slots[p]]))
  {
    hide Breaks, Steps, Emit;
    var taken := st.(temps := st.temps + 1);
    TakeRuns(w, st, 1, c);
    Operands1(p, c.regs);
    EmitRuns(w, taken, Instr(Load, Some(Temp(st.temps)), ty, [p], "", false), c);
    StepsThenSteps(w, st, taken, Fresh(st, Load, ty, [p], "").st, c, c, c.(regs := c.regs[Temp(st.temps) := c.mem.slots[p]]));
  }

  lemma StoreRuns(w: World, st: LState, ty: Ty, v: Name, p: Name, c: Config)
    requires Open(st) && p.Slot? && !v.Slot? && v in c.regs
    ensures Steps(w, st, StoreTo(st, ty, v, p), c, Stored(c, c.regs[v], p))
  {
    hide Breaks, Steps, Emit;
    Operands2(v, p, c.regs);
    EmitRuns(w, st, Instr(Store, None, ty, [v, p], "", false), c);
  }

  function Stored(c: Config, v: Value, p: Name): Config {
    Config(c.regs, c.mem.(slots := c.mem.slots[p := v]), c.trace + [Event(Store, "", [v, SlotPtr(p)])])
  }

  lemma NoOperands(regs: Regs)
    ensures Operands([], regs) == Some([])
  {
  }

  lemma Operands1(a: Name, regs: Regs)
    requires Operand(a, regs).Some?
    ensures Operands([a], regs) == Some([Operand(a, regs).value])
  {
    assert [a][1..] == [];
    var v := Operand(a, regs).value;
    assert [v] + [] == [v];
  }

  lemma Operands2(a: Name, b: Name, regs: Regs)
    requires Operand(a, regs).Some? && Operand(b, regs).Some?
    ensures Operands([a, b], regs) == Some([Operand(a, regs).value, Operand(b, regs).value])
  {
    assert [a, b][1..] == [b];
    Operands1(b, regs);
    var v, u := Operand(a, regs).value, Operand(b, regs).value;
    assert [v] + [u] == [v, u];
  }

  // ---- expressions ----

  lemma CoerceRuns(w: World, st: LState, n: Name, from: Ty, to: Ty, c: Config)
    returns (d: Config)
    requires Open(st) && n.Temp? && n.n < st.temps && n in c.regs
    ensures Straight(st, Coerce(st, n, from, to).st)
    ensures Computes(w, st, Coerce(st, n, from, to), c, d, Convert(w, c.regs[n], from, to))
  {
    hide Fresh, Straight, Steps, Breaks;
    CoerceStraight(st, n, from, to);
    d := c;
    if Converts(from, to) {
      Operands1(n, c.regs);
      FreshRuns(w, st, Cast, to, [n], Spell(from), c, [c.regs[n]]);
      FreshName(st, Cast, to, [n], Spell(from));
      match Convert(w, c.regs[n], from, to)
      case None =>
      case Some(v) => d := c.(regs := c.regs[Temp(st.temps) := v]);
    } else {
      TakeRuns(w, st, 0, c);
    }
  }

  lemma FreshName(st: LState, op: Op, ty: Ty, args: seq<Name>, text: string)
    ensures Fresh(st, op, ty, args, text).name == Temp(st.temps) && Fresh(st, op, ty, args, text).st.temps == st.temps + 1
  {
  }

  /// A computation followed by another.
  lemma ComputesThen(w: World, st: LState, mid: LState, r: Lowered, c: Config, c1: Config, d: Config, v: Option<Value>)
    requires Steps(w, st, mid, c, c1) && c1.mem == c.mem && c1.trace == c.trace && SameBelow(c.regs, c1.regs, st.temps)
    requires Computes(w, mid, r, c1, d, v) && st.temps <= mid.temps
    ensures Computes(w, st, r, c, d, v)
  {
    hide Steps, Breaks;
    match v
    case None => StepsThenBreaks(w, st, mid, r.st, c, c1);
    case Some(_) => StepsThenSteps(w, st, mid, r.st, c, c1, d);
  }

  lemma CastRuns(w: World, st: LState, n: Name, from: Ty, to: Ty, c: Config)
    returns (d: Config)
    requires Open(st) && n.Temp? && n.n < st.temps && n in c.regs
    ensures Straight(st, CastTo(st, n, from, to).st)
    ensures Computes(w, st, CastTo(st, n, from, to), c, d, EvalCast(w, from, to, c.regs[n]))
  {
    hide Fresh, Straight, Steps, Breaks;
    CastStraight(st, n, from, to);
    d := c;
    if from != to {
      Operands1(n, c.regs);
      FreshRuns(w, st, Cast, to, [n], Spell(from), c, [c.regs[n]]);
      FreshName(st, Cast, to, [n], Spell(from));
      match w.apply(Cast, to, Spell(from), [c.regs[n]])
      case None =>
      case Some(v) => d := c.(regs := c.regs[Temp(st.temps) := v]);
    } else {
      TakeRuns(w, st, 0, c);
    }
  }

  /// The operation itself, once both operands have the common type.
  lemma ApplyRuns(w: World, st: LState, mid: LState, kind: Op, to: Ty, t: nat, n: Name, n': Name, op: string, c: Config, c2: Config, x: Value, y: Value)
    requires var i := Instr(kind, Some(Temp(t)), to, [n, n'], op, false); Straight(mid, Emit(mid, i))
    requires Open(mid) && Steps(w, st, mid, c, c2) && IsValueOp(kind)
    requires Operand(n, c2.regs) == Some(x) && Operand(n', c2.regs) == Some(y)
    ensures var i := Instr(kind, Some(Temp(t)), to, [n, n'], op, false);
      match w.apply(kind, to, op, [x, y])
      case None => Breaks(w, st, Emit(mid, i), c)
      case Some(v) => Steps(w, st, Emit(mid, i), c, c2.(regs := c2.regs[Temp(t) := v]))
  {
    hide Emit, Straight, Steps, Breaks, Open, Operands, Operand;
    var i := Instr(kind, Some(Temp(t)), to, [n, n'], op, false);
    Operands2(n, n', c2.regs);
    ValueRuns(w, mid, t, kind, to, [n, n'], op, c2, [x, y]);
    match w.apply(kind, to, op, [x, y])
    case None => StepsThenBreaks(w, st, mid, Emit(mid, i), c, c2);
    case Some(v) => StepsThenSteps(w, st, mid, Emit(mid, i), c, c2, c2.(regs := c2.regs[Temp(t) := v]));
  }

  /// Writing the result to temporary `t` after scratch work above it.
  lemma GivesResult(c: Config, mid: Config, t: nat, v: Value, st: LState)
    requires mid.mem == c.mem && mid.trace == c.trace && SameBelow(c.regs, mid.regs, t) && t < st.temps
    ensures Gives(c, mid.(regs := mid.regs[Temp(t) := v]), t, Lowered(Temp(t), st), v)
  {
  }

  /// Negation is a subtraction from the zero in temporary `t + 1`.
  lemma NegateRuns(w: World, ty: Ty, t: nat, operand: Lowered, c: Config, v: Value)
    returns (d: Config)
    requires Open(operand.st) && operand.name.Temp? && operand.name in c.regs && c.regs[operand.name] == v
    requires operand.name.n != t + 1 && t + 2 <= operand.st.temps
    ensures var r := Apply1("-", ty, Temp(t), Temp(t + 1), operand);
      match EvalApply1(w, "-", ty, v)
      case None => Breaks(w, operand.st, r, c)
      case Some(x) => Steps(w, operand.st, r, c, d) && Gives(c, d, t, Lowered(Temp(t), r), x)
  {
    hide Emit, Straight, Steps, Breaks, Open, Operands, Gives;
    d := c;
    assert Operands([], c.regs) == Some([]) by { NoOperands(c.regs); }
    assert operand.st.temps == Apply1("-", ty, Temp(t), Temp(t + 1), operand).temps by { Apply1Temps("-", ty, Temp(t), Temp(t + 1), operand); }
    var st := operand.st;
    var zeroed := Instr(ConstInt, Some(Temp(t + 1)), ty, [], "0", false);
    var z := Emit(st, zeroed);
    EmitStraight(st, zeroed);
    StraightOpen(st, z);
    ValueRuns(w, st, t + 1, ConstInt, ty, [], "0", c, []);
    var minus := Instr(Binary, Some(Temp(t)), ty, [Temp(t + 1), operand.name], "-", false);
    EmitStraight(z, minus);
    match w.apply(ConstInt, ty, "0", [])
    case None => BreaksThen(w, st, z, Emit(z, minus), c);
    case Some(zero) =>
      var c1 := c.(regs := c.regs[Temp(t + 1) := zero]);
      d := c1;
      ApplyRuns(w, st, z, Binary, ty, t, Temp(t + 1), operand.name, "-", c, c1, zero, v);
      match w.apply(Binary, ty, "-", [zero, v])
      case None =>
      case Some(x) =>
        d := c1.(regs := c1.regs[Temp(t) := x]);
        GivesResult(c, c1, t, x, Emit(z, minus));
  }

  /// Temporaries `t` and `t + 1` were taken for the result and the zero.
  lemma Apply1Runs(w: World, op: string, ty: Ty, t: nat, operand: Lowered, c: Config, v: Value)
    returns (d: Config)
    requires Open(operand.st) && operand.name.Temp? && operand.name in c.regs && c.regs[operand.name] == v
    requires operand.name.n != t + 1 && t + 2 <= operand.st.temps
    ensures var r := Apply1(op, ty, Temp(t), Temp(t + 1), operand);
      && Straight(operand.st, r)
      && match EvalApply1(w, op, ty, v)
         case None => Breaks(w, operand.st, r, c)
         case Some(x) => Steps(w, operand.st, r, c, d) && Gives(c, d, t, Lowered(Temp(t), r), x)
  {
    hide Emit, Straight, Steps, Breaks;
    Apply1Straight(op, ty, Temp(t), Temp(t + 1), operand);
    if op == "-" {
      d := NegateRuns(w, ty, t, operand, c, v);
    } else {
      d := c;
      Apply1Temps(op, ty, Temp(t), Temp(t + 1), operand);
      Operands1(operand.name, c.regs);
      ValueRuns(w, operand.st, t, Binary, ty, [operand.name], op, c, [v]);
      match w.apply(Binary, ty, op, [v])
      case None =>
      case Some(x) => d := c.(regs := c.regs[Temp(t) := x]);
    }
  }

  lemma Apply1Temps(op: string, ty: Ty, r: Name, zero: Name, operand: Lowered)
    ensures Apply1(op, ty, r, zero, operand).temps == operand.st.temps
  {
  }

  lemma UnaryRuns(w: World, op: string, ty: Ty, from: Ty, v: Lowered, c: Config)
    returns (d: Config)
    requires Open(v.st) && v.name.Temp? && v.name.n < v.st.temps && v.name in c.regs
    ensures Straight(v.st, LowerUnary(op, ty, from, v).st)
    ensures Computes(w, v.st, LowerUnary(op, ty, from, v), c, d, EvalUnary(w, op, ty, from, c.regs[v.name]))
  {
    hide CastTo, Apply1, Straight, Steps, Breaks, EvalCast, EvalApply1;
    UnaryStraight(op, ty, from, v);
    var t := v.st.temps;
    var taken := v.st.(temps := t + 2);
    TakeRuns(w, v.st, 2, c);
    var c1 := CastRuns(w, taken, v.name, from, ty, c);
    var operand := CastTo(taken, v.name, from, ty);
    CastNames(taken, v.name, from, ty);
    StraightOpen(taken, operand.st);
    Apply1Straight(op, ty, Temp(t), Temp(t + 1), operand);
    var r := LowerUnary(op, ty, from, v);
    d := c;
    match EvalCast(w, from, ty, c.regs[v.name])
    case None =>
      StepsThenBreaks(w, v.st, taken, operand.st, c, c);
      BreaksThen(w, v.st, operand.st, r.st, c);
    case Some(x) =>
      StepsThenSteps(w, v.st, taken, operand.st, c, c, c1);
      d := Apply1Runs(w, op, ty, t, operand, c1, x);
      match EvalApply1(w, op, ty, x)
      case None => StepsThenBreaks(w, v.st, operand.st, r.st, c, c1);
      case Some(_) => StepsThenSteps(w, v.st, operand.st, r.st, c, c1, d);
  }

  lemma CastNames(st: LState, n: Name, from: Ty, ty: Ty)
    ensures CastTo(st, n, from, ty).name == (if from != ty then Temp(st.temps) else n)
    ensures CastTo(st, n, from, ty).st.temps == st.temps + if from != ty then 1 else 0
  {
  }

  lemma CoerceNames(st: LState, n: Name, from: Ty, ty: Ty)
    ensures Coerce(st, n, from, ty).name == (if Converts(from, ty) then Temp(st.temps) else n)
    ensures Coerce(st, n, from, ty).st.temps == st.temps + if Converts(from, ty) then 1 else 0
  {
  }

  /// Both conversions of a binary operation.
  lemma CoerceBoth(w: World, st: LState, a: Name, left: Ty, b: Name, right: Ty, to: Ty, c: Config)
    returns (d: Config)
    requires Open(st) && a.Temp? && a.n < st.temps && a in c.regs && b.Temp? && b.n < st.temps && b in c.regs
    ensures var a' := Coerce(st, a, left, to);
      var b' := Coerce(a'.st, b, right, to);
      var x, y := Convert(w, c.regs[a], left, to), Convert(w, c.regs[b], right, to);
      && Straight(st, b'.st) && a'.name.Temp?
      && if x.Some? && y.Some? then
           && Steps(w, st, b'.st, c, d) && Gives(c, d, st.temps, b', y.value)
           && a'.name in d.regs && d.regs[a'.name] == x.value
         else Breaks(w, st, b'.st, c)
  {
    hide Coerce, Straight, Steps, Breaks, Convert, Converts, Open;
    var c1 := CoerceRuns(w, st, a, left, to, c);
    var a' := Coerce(st, a, left, to);
    CoerceNames(st, a, left, to);
    StraightOpen(st, a'.st);
    d := CoerceRuns(w, a'.st, b, right, to, if Convert(w, c.regs[a], left, to).Some? then c1 else c);
    var b' := Coerce(a'.st, b, right, to);
    StraightTransitive(st, a'.st, b'.st);
    match Convert(w, c.regs[a], left, to)
    case None => BreaksThen(w, st, a'.st, b'.st, c);
    case Some(x) =>
      match Convert(w, c.regs[b], right, to)
      case None => StepsThenBreaks(w, st, a'.st, b'.st, c, c1);
      case Some(y) => StepsThenSteps(w, st, a'.st, b'.st, c, c1, d);
  }

  lemma BinRuns(w: World, kind: Op, op: string, to: Ty, left: Ty, right: Ty, a: Name, b: Lowered, c: Config)
    returns (d: Config)
    requires Open(b.st) && a.Temp? && a.n < b.st.temps && a in c.regs && (kind == Binary || kind == Compare)
    requires b.name.Temp? && b.name.n < b.st.temps && b.name in c.regs
    ensures Straight(b.st, LowerBin(kind, op, to, left, right, a, b).st)
    ensures Computes(w, b.st, LowerBin(kind, op, to, left, right, a, b), c, d, EvalBin(w, kind, op, to, left, right, c.regs[a], c.regs[b.name]))
  {
    hide Coerce, Straight, Steps, Breaks, Convert, Converts, Emit, Open, Operands;
    BinStraight(kind, op, to, left, right, a, b);
    var t := b.st.temps;
    var taken := b.st.(temps := t + 1);
    TakeRuns(w, b.st, 1, c);
    StraightOpenTake(b.st, 1);
    var r := LowerBin(kind, op, to, left, right, a, b);
    var c2 := CoerceBoth(w, taken, a, left, b.name, right, to, c);
    var a' := Coerce(taken, a, left, to);
    var b' := Coerce(a'.st, b.name, right, to);
    StraightKeeps(taken, b'.st);
    var i := Instr(kind, Some(Temp(t)), to, [a'.name, b'.name], op, false);
    EmitStraight(b'.st, i);
    d := c;
    var x, y := Convert(w, c.regs[a], left, to), Convert(w, c.regs[b.name], right, to);
    if x.Some? && y.Some? {
      StepsThenSteps(w, b.st, taken, b'.st, c, c, c2);
      ApplyRuns(w, b.st, b'.st, kind, to, t, a'.name, b'.name, op, c, c2, x.value, y.value);
      EmitTemps(b'.st, i);
      if w.apply(kind, to, op, [x.value, y.value]).Some? {
        var v := w.apply(kind, to, op, [x.value, y.value]).value;
        d := c2.(regs := c2.regs[Temp(t) := v]);
        GivesResult(c, c2, t, v, r.st);
        hide Gives;
      }
    } else {
      StepsThenBreaks(w, b.st, taken, b'.st, c, c);
      BreaksThen(w, b.st, b'.st, r.st, c);
    }
  }

  lemma StraightOpenTake(st: LState, n: nat)
    requires Open(st)
    ensures Open(st.(temps := st.temps + n))
  {
  }

  lemma EmitTemps(st: LState, i: Instr)
    ensures Emit(st, i) == st.(blocks := Emit(st, i).blocks)
  {
  }

  lemma StraightKeeps(a: LState, b: LState)
    requires Straight(a, b)
    ensures a.temps <= b.temps && b.slots == a.slots && (a.err ==> b.err) && Open(b) && b.cur == a.cur
  {
  }

  /// Evaluating `e` and running its code agree.
  lemma {:induction false} ExprRuns(w: World, e: Expr, st: LState, places: Scopes<Name>, count: nat, stale: set<string>, env: Env, c: Config)
    returns (d: Config)
    requires Open(st) && Holds(env, places, c.mem) && Placed(places, count) && Resolved(places, st.slots, stale)
    requires Uses(e) !! stale && !LowerExpr(e, st).st.err
    ensures Straight(st, LowerExpr(e, st).st)
    ensures Computes(w, st, LowerExpr(e, st), c, d, Eval(w, e, env))
    decreases e
  {
    hide Straight, Steps, Breaks, Emit, Fresh, LowerUnary, LowerBin, EvalUnary, EvalBin, Holds, Placed, IsComparison;
    ExprStraight(e, st);
    d := c;
    match e
    case IntLit(ty, text) =>
      FreshRuns(w, st, ConstInt, ty, [], text, c, []);
      FreshName(st, ConstInt, ty, [], text);
      match w.apply(ConstInt, ty, text, []) {
        case None =>
        case Some(v) => d := c.(regs := c.regs[Temp(st.temps) := v]);
      }
    case BoolLit(ty, b) =>
      var text := if b then "1" else "0";
      FreshRuns(w, st, ConstBool, ty, [], text, c, []);
      FreshName(st, ConstBool, ty, [], text);
      match w.apply(ConstBool, ty, text, []) {
        case None =>
        case Some(v) => d := c.(regs := c.regs[Temp(st.temps) := v]);
      }
    case Var(x, ty) =>
      FreshErr(CheckName(st, x), Load, ty, [SlotOf(st, x)], "");
      assert x in st.slots && x in Uses(e);
      LookupHolds(env, places, c.mem, count, x);
      LoadRuns(w, st, ty, st.slots[x], c);
      FreshName(st, Load, ty, [st.slots[x]], "");
      d := c.(regs := c.regs[Temp(st.temps) := c.mem.slots[st.slots[x]]]);
    case Unary(op, ty, x) =>
      var v := LowerExpr(x, st);
      ExprStraight(x, st);
      StraightKeeps(st, v.st);
      UnaryStraight(op, ty, x.ty, v);
      StraightKeeps(v.st, LowerExpr(e, st).st);
      var c1 := ExprRuns(w, x, st, places, count, stale, env, c);
      match Eval(w, x, env) {
        case None => BreaksThen(w, st, v.st, LowerExpr(e, st).st, c);
        case Some(value) =>
          d := UnaryRuns(w, op, ty, x.ty, v, c1);
          ComputesThen(w, st, v.st, LowerExpr(e, st), c, c1, d, Eval(w, e, env));
      }
    case Bin(op, ty, l, r) =>
      d := BinExprRuns(w, op, ty, l, r, st, places, count, stale, env, c);
  }

  lemma FreshErr(st: LState, op: Op, ty: Ty, args: seq<Name>, text: string)
    ensures Fresh(st, op, ty, args, text).st.err == st.err
  {
  }

  lemma {:induction false} BinExprRuns(w: World, op: string, ty: Ty, l: Expr, r: Expr, st: LState, places: Scopes<Name>, count: nat, stale: set<string>, env: Env, c: Config)
    returns (d: Config)
    requires Open(st) && Holds(env, places, c.mem) && Placed(places, count) && Resolved(places, st.slots, stale)
    requires Uses(l) !! stale && Uses(r) !! stale && !LowerExpr(Bin(op, ty, l, r), st).st.err
    ensures Computes(w, st, LowerExpr(Bin(op, ty, l, r), st), c, d, Eval(w, Bin(op, ty, l, r), env))
    decreases Bin(op, ty, l, r), 0
  {
    hide Straight, Steps, Breaks, Emit, LowerBin, EvalBin, Holds, Placed, IsComparison, BinTy, Resolved;
    var a := LowerExpr(l, st);
    ExprStraight(l, st);
    StraightKeeps(st, a.st);
    var b := LowerExpr(r, a.st);
    ExprStraight(r, a.st);
    StraightKeeps(a.st, b.st);
    var to := BinTy(op, l.ty, ty);
    BinStraight(BinKind(op), op, to, l.ty, r.ty, a.name, b);
    var out := LowerBin(BinKind(op), op, to, l.ty, r.ty, a.name, b);
    StraightKeeps(b.st, out.st);
    d := c;
    var c1 := ExprRuns(w, l, st, places, count, stale, env, c);
    match Eval(w, l, env)
    case None =>
      BreaksThen(w, st, a.st, b.st, c);
      BreaksThen(w, st, b.st, out.st, c);
    case Some(x) =>
      var c2 := ExprRuns(w, r, a.st, places, count, stale, env, c1);
      match Eval(w, r, env)
      case None =>
        StepsThenBreaks(w, st, a.st, b.st, c, c1);
        BreaksThen(w, st, b.st, out.st, c);
      case Some(y) =>
        d := BinRuns(w, BinKind(op), op, to, l.ty, r.ty, a.name, b, c2);
        StepsThenSteps(w, st, a.st, b.st, c, c1, c2);
        ComputesThen(w, st, b.st, out, c, c2, d, EvalBin(w, BinKind(op), op, to, l.ty, r.ty, x, y));
  }

  lemma AsRuns(w: World, e: Expr, to: Ty, st: LState, places: Scopes<Name>, count: nat, stale: set<string>, env: Env, c: Config)
    returns (d: Config)
    requires Open(st) && Holds(env, places, c.mem) && Placed(places, count) && Resolved(places, st.slots, stale)
    requires Uses(e) !! stale && !LowerAs(e, to, st).st.err
    ensures Straight(st, LowerAs(e, to, st).st)
    ensures Computes(w, st, LowerAs(e, to, st), c, d, EvalAs(w, e, to, env))
  {
    hide Straight, Steps, Breaks, Coerce, Convert, Holds, Placed, Resolved, LowerExpr, Eval, Uses;
    AsStraight(e, to, st);
    ExprStraight(e, st);
    var v := LowerExpr(e, st);
    StraightKeeps(st, v.st);
    CoerceStraight(v.st, v.name, e.ty, to);
    StraightKeeps(v.st, LowerAs(e, to, st).st);
    d := c;
    var c1 := ExprRuns(w, e, st, places, count, stale, env, c);
    match Eval(w, e, env)
    case None => BreaksThen(w, st, v.st, LowerAs(e, to, st).st, c);
    case Some(x) =>
      d := CoerceRuns(w, v.st, v.name, e.ty, to, c1);
      ComputesThen(w, st, v.st, LowerAs(e, to, st), c, c1, d, Convert(w, x, e.ty, to));
  }
}
