/// Statements: from the code of a statement the run gets where the source
/// statement says, in step with its environment. `Matches` is the relation
/// between a source outcome and a run: falling out, breaking, continuing,
/// returning, faulting and running out of fuel each name the place where the
/// run is then. The lemmas here carry it across scopes and sequences and prove
/// it for the statements without control flow.

module LoweringSimulation {
  import opened Mir
  import opened SourceLang
  import opened Lowering
  import opened LoweringShape
  import opened LoweringRuns
  import opened LoweringCorrect

  ghost predicate InStep(env: Env, places: Scopes<Name>, c: Config, d: Config, bound: nat) {
    Holds(env, places, d.mem) && SameBelow(c.regs, d.regs, bound)
  }

  /// The run from `p` matches outcome `o` of a statement lowered from `st` to `after`.
  ghost predicate Matches(w: World, final: seq<Block>, p: Spot, o: Out, st: LState, after: LState, places: Scopes<Name>, fuel: nat, n: nat, d: Config) {
    match o
    case Normal(env) => Open(after) && Reaches(w, final, p, Here(after, d), n) && InStep(env, places, p.c, d, st.temps)
    case Broke(env) =>
      && st.loops != [] && n >= 1 && InStep(env, places, p.c, d, st.temps)
      && Reaches(w, final, p, Spot(st.loops[|st.loops| - 1].1, 0, d), n)
    case Continued(env) =>
      && st.loops != [] && n >= 1 && InStep(env, places, p.c, d, st.temps)
      && Reaches(w, final, p, Spot(st.loops[|st.loops| - 1].0, 0, d), n)
    case Done(v) => RunAt(w, final, p, n).Returned? && RunAt(w, final, p, n).value == v
    case Fault => RunAt(w, final, p, n).Faulted?
    case OutOfFuel => Lasts(w, final, p, fuel)
  }

  ghost predicate SameOuter(a: Scopes<Name>, b: Scopes<Name>) {
    |a| == |b| && Pop(a) == Pop(b)
  }

  ghost predicate Ready(st: LState, places: Scopes<Name>, stale: set<string>, env: Env, c: Config) {
    && Open(st) && Valid(st) && places != []
    && Holds(env, places, c.mem) && Placed(places, st.slotCount) && Resolved(places, st.slots, stale)
  }

  /// A prefix of the run is moved in front.
  lemma MatchesAfter(w: World, final: seq<Block>, p: Spot, q: Spot, m: nat, o: Out, st: LState, mid: LState, after: LState,
                     places: Scopes<Name>, fuel: nat, n: nat, d: Config)
    requires Reaches(w, final, p, q, m) && SameBelow(p.c.regs, q.c.regs, st.temps)
    requires st.temps <= mid.temps && st.loops == mid.loops
    requires Matches(w, final, q, o, mid, after, places, fuel, n, d)
    ensures Matches(w, final, p, o, st, after, places, fuel, n + m, d)
  {
    hide Reaches, RunAt, Lasts, Holds, Here;
    match o
    case Normal(_) => ReachesTransitive(w, final, p, q, Here(after, d), m, n);
    case Broke(_) => ReachesTransitive(w, final, p, q, Spot(mid.loops[|mid.loops| - 1].1, 0, d), m, n);
    case Continued(_) => ReachesTransitive(w, final, p, q, Spot(mid.loops[|mid.loops| - 1].0, 0, d), m, n);
    case Done(_) => ReachesEnd(w, final, p, q, m, n);
    case Fault => ReachesEnd(w, final, p, q, m, n);
    case OutOfFuel =>
      ReachesLasts(w, final, p, q, m, fuel);
      LastsLess(w, final, p, m + fuel, fuel);
  }

  lemma LastsLess(w: World, final: seq<Block>, p: Spot, m: int, k: int)
    requires Lasts(w, final, p, m) && k <= m
    ensures Lasts(w, final, p, k)
  {
  }

  /// Straight-line code in front of a spot.
  lemma StepsReach(w: World, final: seq<Block>, a: LState, b: LState, c: Config, d: Config)
    requires Steps(w, a, b, c, d) && Grows(b.blocks, final)
    ensures Reaches(w, final, Here(a, c), Here(b, d), 0)
  {
    StraightRuns(w, final, a, b, c);
  }

  lemma BreaksFault(w: World, final: seq<Block>, a: LState, b: LState, c: Config, f: nat)
    requires Breaks(w, a, b, c) && Grows(b.blocks, final)
    ensures RunAt(w, final, Here(a, c), f).Faulted?
  {
    StraightRuns(w, final, a, b, c);
  }

  lemma GrowsBack(a: LState, b: LState, final: seq<Block>)
    requires Extends(a, b) && Grows(b.blocks, final)
    ensures Grows(a.blocks, final) && (!b.err ==> !a.err)
  {
    ExtendsGrows(a, b);
    GrowsTransitive(a.blocks, b.blocks, final);
  }

  lemma StraightBack(a: LState, b: LState, final: seq<Block>)
    requires Straight(a, b) && Grows(b.blocks, final)
    ensures Grows(a.blocks, final) && (!b.err ==> !a.err) && Open(b) && Here(b, Config(map[], Mem(map[], 0), [])).block == a.cur
  {
    StraightExtends(a, b);
    GrowsBack(a, b, final);
  }

  // ---- simple statements ----

  lemma BindRuns(w: World, final: seq<Block>, st: LState, x: string, ty: Ty, v: Name, places: Scopes<Name>, stale: set<string>, env: Env, c: Config)
    returns (d: Config)
    requires Open(st) && places != [] && Holds(env, places, c.mem) && Placed(places, st.slotCount) && Resolved(places, st.slots, stale)
    requires !v.Slot? && v in c.regs && Grows(Bind(st, x, ty, v).blocks, final)
    ensures var r := Bind(st, x, ty, v);
      var places' := Declare(places, x, Slot(x, st.slotCount));
      && Open(r) && Reaches(w, final, Here(st, c), Here(r, d), 0) && d.regs == c.regs
      && Holds(Declare(env, x, c.regs[v]), places', d.mem) && Placed(places', r.slotCount) && Resolved(places', r.slots, stale - {x})
  {
    hide Bind, Steps, Grows, Reaches, Holds, Placed, Resolved, Declare;
    var sl := Slot(x, st.slotCount);
    var bound := st.(slotCount := st.slotCount + 1, slots := st.slots[x := sl]);
    BindExtends(st, x, ty, v);
    OpenBound(st, bound);
    d := Stored(c, c.regs[v], sl);
    BindSteps(w, st, x, ty, v, c);
    StepsReach(w, final, bound, Bind(st, x, ty, v), c, d);
    DeclareHolds(env, places, c.mem, st.slotCount, x, c.regs[v]);
    DeclareResolved(places, st.slots, stale, x, sl);
  }

  lemma BindSteps(w: World, st: LState, x: string, ty: Ty, v: Name, c: Config)
    requires Open(st) && !v.Slot? && v in c.regs
    ensures var sl := Slot(x, st.slotCount);
      Steps(w, st.(slotCount := st.slotCount + 1, slots := st.slots[x := sl]), Bind(st, x, ty, v), c, Stored(c, c.regs[v], sl))
  {
    hide Emit, Steps, Operands, Straight;
    var sl := Slot(x, st.slotCount);
    var bound := st.(slotCount := st.slotCount + 1, slots := st.slots[x := sl]);
    var i := Instr(Alloca, Some(sl), ty, [], "", false);
    OpenBound(st, bound);
    EmitStraight(bound, i);
    StraightOpen(bound, Emit(bound, i));
    OperandsNone(c.regs);
    EmitRuns(w, bound, i, c);
    StoreRuns(w, Emit(bound, i), ty, v, sl, c);
    StepsThenSteps(w, bound, Emit(bound, i), Bind(st, x, ty, v), c, c, Stored(c, c.regs[v], sl));
  }

  lemma OperandsNone(regs: Regs)
    ensures Operands([], regs) == Some([])
  {
  }

  lemma OpenBound(a: LState, b: LState)
    requires Open(a) && b.blocks == a.blocks && b.cur == a.cur
    ensures Open(b) && forall c :: Here(b, c) == Here(a, c)
  {
  }

  lemma LetRuns(w: World, final: seq<Block>, x: string, ty: Ty, init: Expr, result: Ty, st: LState, places: Scopes<Name>, stale: set<string>,
                env: Env, c: Config, fuel: nat) returns (d: Config, places': Scopes<Name>)
    requires Ready(st, places, stale, env, c) && Uses(init) !! stale
    requires var r := LowerStmt(Let(x, ty, init), result, st); Grows(r.blocks, final) && !r.err
    ensures SameOuter(places, places')
    ensures var r := LowerStmt(Let(x, ty, init), result, st);
      var o := ExecStmt(w, Let(x, ty, init), result, env, fuel);
      && Matches(w, final, Here(st, c), o, st, r, places', fuel, 0, d)
      && (o.Normal? ==> Placed(places', r.slotCount) && Resolved(places', r.slots, stale - {x}))
  {
    hide Bind, LowerAs, EvalAs, Holds, Placed, Resolved, Steps, Breaks, Straight, Grows, Reaches, RunAt, Lasts;
    var v := LowerAs(init, ty, st);
    var r := Bind(v.st, x, ty, v.name);
    AsStraight(init, ty, st);
    StraightSame(st, v.st);
    BindExtends(v.st, x, ty, v.name);
    GrowsBack(v.st, r, final);
    StraightBack(st, v.st, final);
    d := AsRuns(w, init, ty, st, places, st.slotCount, stale, env, c);
    places' := places;
    HoldsSize(env, places, c.mem);
    match EvalAs(w, init, ty, env)
    case None => BreaksFault(w, final, st, v.st, c, 0);
    case Some(value) =>
      StepsReach(w, final, st, v.st, c, d);
      var d1 := BindRuns(w, final, v.st, x, ty, v.name, places, stale, env, d);
      ReachesTransitive(w, final, Here(st, c), Here(v.st, d), Here(r, d1), 0, 0);
      d := d1;
      places' := Declare(places, x, Slot(x, st.slotCount));
  }

  lemma HoldsSize(env: Env, places: Scopes<Name>, m: Mem)
    requires Holds(env, places, m)
    ensures |env| == |places|
  {
  }

  lemma AssignShape(s: Stmt, result: Ty, st: LState)
    requires s.Assign? && Open(st) && !LowerStmt(s, result, st).err
    ensures s.name in st.slots && LowerStmt(s, result, st) == AfterValue(s, LowerAs(s.value, s.ty, st), st.slots[s.name])
  {
    hide LowerAs, Straight, Fresh, StoreTo;
    var checked := CheckName(st, s.name);
    CheckStraight(st, s.name);
    StraightOpen(st, checked);
    AsStraight(s.value, s.ty, checked);
    var v := LowerAs(s.value, s.ty, checked);
    StraightKeeps(checked, v.st);
    AssignTail(s, v, SlotOf(st, s.name));
    StraightKeeps(v.st, AfterValue(s, v, SlotOf(st, s.name)));
  }

  lemma AssignRuns(w: World, final: seq<Block>, s: Stmt, result: Ty, st: LState, places: Scopes<Name>, stale: set<string>,
                   env: Env, c: Config, fuel: nat) returns (d: Config)
    requires s.Assign? && Ready(st, places, stale, env, c) && Clear(s, stale, st.loops != [])
    requires var r := LowerStmt(s, result, st); Grows(r.blocks, final) && !r.err
    ensures Matches(w, final, Here(st, c), ExecStmt(w, s, result, env, fuel), st, LowerStmt(s, result, st), places, fuel, 0, d)
  {
    hide LowerAs, EvalAs, Holds, Placed, Steps, Breaks, Straight, Grows, Reaches, RunAt, Lasts, Lookup, Update, Uses, AfterValue, LowerStmt;
    var r := LowerStmt(s, result, st);
    AssignExtends(s, result, st);
    StraightSame(st, r);
    StraightBack(st, r, final);
    AssignShape(s, result, st);
    var p := st.slots[s.name];
    LookupHolds(env, places, c.mem, st.slotCount, s.name);
    var v := LowerAs(s.value, s.ty, st);
    AsStraight(s.value, s.ty, st);
    StraightKeeps(st, v.st);
    AssignTail(s, v, p);
    StraightKeeps(v.st, r);
    d := AsRuns(w, s.value, s.ty, st, places, st.slotCount, stale, env, c);
    match EvalAs(w, s.value, s.ty, env)
    case None =>
      BreaksThen(w, st, v.st, r, c);
      BreaksFault(w, final, st, r, c, 0);
    case Some(value) =>
      var c1 := d;
      d := AssignTailRuns(w, s, v, p, c1);
      var was := c1.mem.slots[p];
      match (if s.op.None? then Some(value) else w.apply(Binary, s.ty, s.op.value, [was, value]))
      case None =>
        StepsThenBreaks(w, st, v.st, r, c, c1);
        BreaksFault(w, final, st, r, c, 0);
      case Some(stored) =>
        StepsThenSteps(w, st, v.st, r, c, c1, d);
        StepsReach(w, final, st, r, c, d);
        UpdateHolds(env, places, c.mem, st.slotCount, s.name, stored);
  }

  function AfterValue(s: Stmt, v: Lowered, p: Name): LState
    requires s.Assign?
  {
    if s.op.None? then StoreTo(v.st, s.ty, v.name, p)
    else
      var was := Fresh(v.st, Load, s.ty, [p], "");
      var combined := Fresh(was.st, Binary, s.ty, [was.name, v.name], s.op.value);
      StoreTo(combined.st, s.ty, combined.name, p)
  }

  lemma AssignTail(s: Stmt, v: Lowered, p: Name)
    requires s.Assign? && Open(v.st)
    ensures Straight(v.st, AfterValue(s, v, p))
  {
    hide Straight, Code, Fresh, Emit;
    if s.op.None? {
      EmitStraight(v.st, Instr(Store, None, s.ty, [v.name, p], "", false));
    } else {
      FreshStraight(v.st, Load, s.ty, [p], "");
      var was := Fresh(v.st, Load, s.ty, [p], "");
      StraightOpen(v.st, was.st);
      FreshStraight(was.st, Binary, s.ty, [was.name, v.name], s.op.value);
      var combined := Fresh(was.st, Binary, s.ty, [was.name, v.name], s.op.value);
      StraightTransitive(v.st, was.st, combined.st);
      StraightOpen(was.st, combined.st);
      EmitStraight(combined.st, Instr(Store, None, s.ty, [combined.name, p], "", false));
      StraightTransitive(v.st, combined.st, AfterValue(s, v, p));
    }
  }

  lemma AssignTailRuns(w: World, s: Stmt, v: Lowered, p: Name, c: Config) returns (d: Config)
    requires s.Assign? && Open(v.st) && p.Slot? && p in c.mem.slots
    requires v.name.Temp? && v.name.n < v.st.temps && v.name in c.regs
    ensures match (if s.op.None? then Some(c.regs[v.name]) else w.apply(Binary, s.ty, s.op.value, [c.mem.slots[p], c.regs[v.name]]))
      case None => Breaks(w, v.st, AfterValue(s, v, p), c)
      case Some(x) =>
        && Steps(w, v.st, AfterValue(s, v, p), c, d)
        && d.mem == c.mem.(slots := c.mem.slots[p := x]) && SameBelow(c.regs, d.regs, v.st.temps)
  {
    hide Straight, Code, Fresh, Emit, StoreTo, Steps, Breaks, Operands;
    d := c;
    if s.op.None? {
      StoreRuns(w, v.st, s.ty, v.name, p, c);
      d := Stored(c, c.regs[v.name], p);
    } else {
      FreshStraight(v.st, Load, s.ty, [p], "");
      FreshName(v.st, Load, s.ty, [p], "");
      var was := Fresh(v.st, Load, s.ty, [p], "");
      StraightOpen(v.st, was.st);
      LoadRuns(w, v.st, s.ty, p, c);
      var c1 := c.(regs := c.regs[Temp(v.st.temps) := c.mem.slots[p]]);
      FreshStraight(was.st, Binary, s.ty, [was.name, v.name], s.op.value);
      FreshName(was.st, Binary, s.ty, [was.name, v.name], s.op.value);
      var combined := Fresh(was.st, Binary, s.ty, [was.name, v.name], s.op.value);
      StraightOpen(was.st, combined.st);
      Operands2(was.name, v.name, c1.regs);
      FreshRuns(w, was.st, Binary, s.ty, [was.name, v.name], s.op.value, c1, [c.mem.slots[p], c.regs[v.name]]);
      StoreStraight(combined.st, s.ty, combined.name, p);
      var r := AfterValue(s, v, p);
      match w.apply(Binary, s.ty, s.op.value, [c.mem.slots[p], c.regs[v.name]])
      case None =>
        BreaksThen(w, was.st, combined.st, r, c1);
        StepsThenBreaks(w, v.st, was.st, r, c, c1);
      case Some(x) =>
        var c2 := c1.(regs := c1.regs[Temp(was.st.temps) := x]);
        StoreRuns(w, combined.st, s.ty, combined.name, p, c2);
        d := Stored(c2, x, p);
        StepsThenSteps(w, was.st, combined.st, r, c1, c2, d);
        StepsThenSteps(w, v.st, was.st, r, c, c1, d);
    }
  }

  lemma StoreStraight(st: LState, ty: Ty, v: Name, p: Name)
    requires Open(st)
    ensures Straight(st, StoreTo(st, ty, v, p))
  {
    EmitStraight(st, Instr(Store, None, ty, [v, p], "", false));
  }

  lemma ReturnStmtRuns(w: World, final: seq<Block>, e: Option<Expr>, result: Ty, st: LState, places: Scopes<Name>, stale: set<string>,
                       env: Env, c: Config, fuel: nat) returns (d: Config)
    requires Ready(st, places, stale, env, c) && Clear(Ret(e), stale, st.loops != [])
    requires var r := LowerStmt(Ret(e), result, st); Grows(r.blocks, final) && !r.err
    ensures Matches(w, final, Here(st, c), ExecStmt(w, Ret(e), result, env, fuel), st, LowerStmt(Ret(e), result, st), places, fuel, 0, d)
  {
    hide LowerAs, EvalAs, Holds, Placed, Resolved, Steps, Breaks, Straight, Grows, Reaches, RunAt, Lasts, Emit;
    d := c;
    match e
    case None => ReturnRuns(w, final, st, UnitTy, [], c);
    case Some(x) =>
      var v := LowerAs(x, result, st);
      var i := Instr(Return, None, result, [v.name], "", false);
      AsStraight(x, result, st);
      StraightSame(st, v.st);
      EmitTemps(v.st, i);
      EmitExtends(v.st, i);
      GrowsBack(v.st, Emit(v.st, i), final);
      d := AsRuns(w, x, result, st, places, st.slotCount, stale, env, c);
      match EvalAs(w, x, result, env) {
        case None => BreaksFault(w, final, st, v.st, c, 0);
        case Some(value) =>
          StepsReach(w, final, st, v.st, c, d);
          ReturnRuns(w, final, v.st, result, [v.name], d);
          ReachesEnd(w, final, Here(st, c), Here(v.st, d), 0, 0);
      }
  }

  lemma LeaveRuns(w: World, final: seq<Block>, s: Stmt, result: Ty, st: LState, places: Scopes<Name>, stale: set<string>,
                  env: Env, c: Config, fuel: nat)
    requires (s.Break? || s.Continue?) && Ready(st, places, stale, env, c) && Clear(s, stale, st.loops != [])
    requires Grows(LowerStmt(s, result, st).blocks, final) && DistinctLabels(final)
    ensures Matches(w, final, Here(st, c), ExecStmt(w, s, result, env, fuel), st, LowerStmt(s, result, st), places, fuel, 1, c)
  {
    hide Holds, Placed, Resolved, Grows, Reaches, Emit;
    var t := st.loops[|st.loops| - 1];
    assert t in st.loops;
    CloseRuns(w, final, st, if s.Break? then t.1 else t.0, c);
  }
}
