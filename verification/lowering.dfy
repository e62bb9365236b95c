/// Lowering of the fragment to basic blocks (src/mir_stmt.cpp, src/mir_expr.cpp,
/// src/mir.cpp), as functions on the lowering state, and the shape of what
/// they produce.

module Lowering {
  import opened Mir
  import opened SourceLang

  /// `FnState`: `cur` is the block being filled; `slots` is a flat map from
  /// names to slots; `loops` are the continue and break blocks of open loops.
  datatype LState = LState(
    blocks: seq<Block>,
    cur: nat,
    temps: nat,
    slotCount: nat,
    slots: map<string, Name>,
    loops: seq<(nat, nat)>,
    err: bool)

  ghost predicate Valid(st: LState) {
    && st.cur < |st.blocks|
    && (forall t :: t in st.loops ==> t.0 < |st.blocks| && t.1 < |st.blocks|)
  }

  /// Instructions after a terminator are dropped.
  function Emit(st: LState, i: Instr): LState {
    if st.cur >= |st.blocks| || st.blocks[st.cur].terminated then st
    else
      var b := st.blocks[st.cur];
      st.(blocks := st.blocks[st.cur := Block(b.tag, b.instrs + [i], IsTerminator(i.op))])
  }

  function NewBlock(st: LState, kind: string): LState {
    st.(blocks := st.blocks + [Block(Numbered(kind, |st.blocks|), [], false)])
  }

  function TagAt(st: LState, i: nat): Name {
    LabelName(if i < |st.blocks| then st.blocks[i].tag else Entry)
  }

  function JumpTo(st: LState, i: nat): Instr { Instr(Jump, None, UnitTy, [TagAt(st, i)], "", false) }

  function Branch(st: LState, c: Name, yes: nat, no: nat): Instr {
    Instr(CondJump, None, BoolTy, [c, TagAt(st, yes), TagAt(st, no)], "", false)
  }

  predicate Terminated(st: LState) { st.cur < |st.blocks| && st.blocks[st.cur].terminated }

  // ---- expressions ----

  datatype Lowered = Lowered(name: Name, st: LState)

  /// Emits a value instruction into a fresh temporary.
  function Fresh(st: LState, op: Op, ty: Ty, args: seq<Name>, text: string): Lowered {
    var r := Temp(st.temps);
    Lowered(r, Emit(st.(temps := st.temps + 1), Instr(op, Some(r), ty, args, text, false)))
  }

  function Coerce(st: LState, v: Name, from: Ty, to: Ty): Lowered {
    if Converts(from, to) then Fresh(st, Cast, to, [v], Spell(from)) else Lowered(v, st)
  }

  function SlotOf(st: LState, x: string): Name { if x in st.slots then st.slots[x] else Plain("null") }

  /// A name without storage is an internal error.
  function CheckName(st: LState, x: string): LState { if x in st.slots then st else st.(err := true) }

  /// The result and the zero take their temporaries before the cast does.
  function LowerUnary(op: string, ty: Ty, from: Ty, v: Lowered): Lowered {
    var operand := CastTo(v.st.(temps := v.st.temps + 2), v.name, from, ty);
    Lowered(Temp(v.st.temps), Apply1(op, ty, Temp(v.st.temps), Temp(v.st.temps + 1), operand))
  }

  function CastTo(st: LState, v: Name, from: Ty, ty: Ty): Lowered {
    if from != ty then Fresh(st, Cast, ty, [v], Spell(from)) else Lowered(v, st)
  }

  function Apply1(op: string, ty: Ty, r: Name, zero: Name, operand: Lowered): LState {
    if op == "-" then
      Emit(Emit(operand.st, Instr(ConstInt, Some(zero), ty, [], "0", false)),
           Instr(Binary, Some(r), ty, [zero, operand.name], "-", false))
    else
      Emit(operand.st, Instr(Binary, Some(r), ty, [operand.name], op, false))
  }

  function LowerBin(kind: Op, op: string, to: Ty, left: Ty, right: Ty, a: Name, b: Lowered): Lowered {
    var a' := Coerce(b.st.(temps := b.st.temps + 1), a, left, to);
    var b' := Coerce(a'.st, b.name, right, to);
    Lowered(Temp(b.st.temps), Emit(b'.st, Instr(kind, Some(Temp(b.st.temps)), to, [a'.name, b'.name], op, false)))
  }

  function LowerExpr(e: Expr, st: LState): Lowered {
    match e
    case IntLit(ty, text) => Fresh(st, ConstInt, ty, [], text)
    case BoolLit(ty, b) => Fresh(st, ConstBool, ty, [], if b then "1" else "0")
    case Var(x, ty) => Fresh(CheckName(st, x), Load, ty, [SlotOf(st, x)], "")
    case Unary(op, ty, x) => LowerUnary(op, ty, x.ty, LowerExpr(x, st))
    case Bin(op, ty, l, r) =>
      var a := LowerExpr(l, st);
      LowerBin(BinKind(op), op, BinTy(op, l.ty, ty), l.ty, r.ty, a.name, LowerExpr(r, a.st))
  }

  function LowerAs(e: Expr, to: Ty, st: LState): Lowered {
    var v := LowerExpr(e, st);
    Coerce(v.st, v.name, e.ty, to)
  }

  // ---- statements ----

  /// A fresh slot for `x`, holding `v`.
  function Bind(st: LState, x: string, ty: Ty, v: Name): LState {
    var sl := Slot(x, st.slotCount);
    var bound := st.(slotCount := st.slotCount + 1, slots := st.slots[x := sl]);
    StoreTo(Emit(bound, Instr(Alloca, Some(sl), ty, [], "", false)), ty, v, sl)
  }

  function StoreTo(st: LState, ty: Ty, v: Name, address: Name): LState {
    Emit(st, Instr(Store, None, ty, [v, address], "", false))
  }

  /// Ends the current block with a jump unless it has ended.
  function Close(st: LState, i: nat): LState { Emit(st, JumpTo(st, i)) }

  /// The condition of an `if`, its three blocks and the branch between them.
  function LowerIfHead(c: Expr, st: LState): (r: LState)
    ensures |r.blocks| >= 3
  {
    var cv := LowerExpr(c, st);
    var n := |cv.st.blocks|;
    var made := NewBlock(NewBlock(NewBlock(cv.st, "if.then."), "if.else."), "if.end.");
    Emit(made, Branch(made, cv.name, n, n + 1))
  }

  function LowerStmt(s: Stmt, result: Ty, st: LState): LState
    decreases s, 1
  {
    match s
    case Let(x, ty, init) =>
      var v := LowerAs(init, ty, st);
      Bind(v.st, x, ty, v.name)
    case Assign(x, ty, op, value) =>
      var address := SlotOf(st, x);
      var v := LowerAs(value, ty, CheckName(st, x));
      if op.None? then StoreTo(v.st, ty, v.name, address)
      else
        var was := Fresh(v.st, Load, ty, [address], "");
        var combined := Fresh(was.st, Binary, ty, [was.name, v.name], op.value);
        StoreTo(combined.st, ty, combined.name, address)
    case ExprStmt(e) => LowerExpr(e, st).st
    case Ret(e) =>
      if e.None? then Emit(st, Instr(Return, None, UnitTy, [], "", false))
      else
        var v := LowerAs(e.value, result, st);
        Emit(v.st, Instr(Return, None, result, [v.name], "", false))
    case BlockStmt(body) => LowerSeq(body, result, st)
    case If(c, thn, els) =>
      var split := LowerIfHead(c, st);
      var n := |split.blocks| - 3;
      var yes := Close(LowerSeq(thn, result, split.(cur := n)), n + 2);
      var no := Close(LowerSeq(els, result, yes.(cur := n + 1)), n + 2);
      no.(cur := n + 2)
    case While(_, _) => LowerLoop(s, Plain(""), result, st)
    case For(x, _, b, e, _) =>
      var from := LowerExpr(b, st);
      var to := LowerExpr(e, from.st);
      LowerLoop(s, to.name, result, Bind(to.st, x, b.ty, from.name))
    case Loop(_) => LowerLoop(s, Plain(""), result, st)
    case Break => if st.loops == [] then st else Emit(st, JumpTo(st, st.loops[|st.loops| - 1].1))
    case Continue => if st.loops == [] then st else Emit(st, JumpTo(st, st.loops[|st.loops| - 1].0))
  }

  /// `lower_block`: stops at the first terminator.
  function LowerSeq(ss: seq<Stmt>, result: Ty, st: LState): LState
    decreases ss, 2
  {
    if ss == [] || Terminated(st) then st
    else LowerSeq(ss[1..], result, LowerStmt(ss[0], result, st))
  }

  /// The blocks a loop makes, in order: `for` and `while` have a head that
  /// tests, a `for` steps in a block of its own, a `loop` is its body.
  function LoopBlocks(s: Stmt, st: LState): LState
    requires IsLoop(s)
  {
    match s
    case While(_, _) => NewBlock(NewBlock(NewBlock(st, "while.cond."), "while.body."), "while.end.")
    case For(_, _, _, _, _) => NewBlock(NewBlock(NewBlock(NewBlock(st, "for.cond."), "for.body."), "for.step."), "for.end.")
    case Loop(_) => NewBlock(NewBlock(st, "loop.body."), "loop.end.")
  }

  function HeadIndex(s: Stmt, n: nat): nat { n }
  function BodyIndex(s: Stmt, n: nat): nat { if s.Loop? then n else n + 1 }
  function StepIndex(s: Stmt, n: nat): nat { if s.For? then n + 2 else n }
  function EndIndex(s: Stmt, n: nat): nat { if s.For? then n + 3 else if s.While? then n + 2 else n + 1 }

  /// The test at the head, ending in a branch to body or end.
  function LowerHead(s: Stmt, limit: Name, n: nat, st: LState): LState
    requires IsLoop(s)
  {
    match s
    case While(c, _) =>
      var cv := LowerExpr(c, st);
      Emit(cv.st, Branch(cv.st, cv.name, BodyIndex(s, n), EndIndex(s, n)))
    case For(x, inclusive, b, _, _) =>
      var current := Fresh(st, Load, b.ty, [SlotOf(st, x)], "");
      var test := Fresh(current.st, Compare, b.ty, [current.name, limit], if inclusive then "<=" else "<");
      Emit(test.st, Branch(test.st, test.name, BodyIndex(s, n), EndIndex(s, n)))
    case Loop(_) => st
  }

  /// The step block of a `for`.
  function LowerStep(s: Stmt, slot: Name, n: nat, st: LState): LState
    requires IsLoop(s)
  {
    if !s.For? then st
    else
      var was := Fresh(st.(cur := StepIndex(s, n)), Load, s.begin.ty, [slot], "");
      var one := Fresh(was.st, ConstInt, s.begin.ty, [], "1");
      var next := Fresh(one.st, Binary, s.begin.ty, [was.name, one.name], "+");
      Close(StoreTo(next.st, s.begin.ty, next.name, slot), HeadIndex(s, n))
  }

  /// The blocks of a loop are made, the current one jumps to the head.
  function LoopEntered(s: Stmt, st: LState): LState
    requires IsLoop(s)
  {
    var n := |st.blocks|;
    Close(LoopBlocks(s, st), HeadIndex(s, n)).(cur := HeadIndex(s, n))
  }

  /// Everything before the body of a loop.
  function LoopInside(s: Stmt, limit: Name, st: LState): LState
    requires IsLoop(s)
  {
    var n := |st.blocks|;
    LowerHead(s, limit, n, LoopEntered(s, st))
      .(cur := BodyIndex(s, n), loops := st.loops + [(StepIndex(s, n), EndIndex(s, n))])
  }

  function LowerLoop(s: Stmt, limit: Name, result: Ty, st: LState): LState
    requires IsLoop(s)
    decreases s, 0
  {
    var n := |st.blocks|;
    var slot := if s.For? then SlotOf(st, s.name) else Plain("");
    var body := LowerSeq(s.body, result, LoopInside(s, limit, st));
    LowerStep(s, slot, n, Close(body.(loops := st.loops), StepIndex(s, n))).(cur := EndIndex(s, n))
  }

  // ---- functions ----

  function LowerParams(params: seq<(string, Ty)>, st: LState): LState
    decreases |params|
  {
    if params == [] then st
    else LowerParams(params[1..], Bind(st, params[0].0, params[0].1, Arg(params[0].0)))
  }

  const Start: LState := LState([Block(Entry, [], false)], 0, 0, 0, map[], [], false)

  /// Falling off the end of a function with a result is an error.
  function LowerFunction(f: Function): LState {
    var st := LowerSeq(f.body, f.result, LowerParams(f.params, Start));
    if Terminated(st) then st
    else if f.result == UnitTy then Emit(st, Instr(Return, None, UnitTy, [], "", false))
    else st.(err := true)
  }
}
