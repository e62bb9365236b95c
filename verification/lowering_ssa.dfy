/// Lowered code is in single-assignment form block by block, so the optimizer's
/// assumption about temporaries holds of what the compiler hands it. Every name
/// in the code has been issued by the counters of the function state, so a
/// fresh name is unused everywhere; appending an instruction that defines a
/// fresh name keeps its block in single-assignment form, and the induction
/// follows the lowering construct by construct.

module LoweringSsa {
  import opened Mir
  import opened SourceLang
  import opened Lowering
  import opened LoweringShape
  import opened LoweringSound
  import F = ForwardLoads

  /// Numbered names that were handed out already.
  predicate Issued(n: Name, temps: nat, slotCount: nat) {
    (n.Temp? ==> n.n < temps) && (n.Slot? ==> n.n < slotCount)
  }

  ghost predicate AllIssued(instrs: seq<Instr>, temps: nat, slotCount: nat) {
    && (forall i, a :: i in instrs && a in i.args ==> Issued(a, temps, slotCount))
    && (forall i :: i in instrs && i.result.Some? ==> Issued(i.result.value, temps, slotCount))
  }

  /// `n` is neither assigned nor used.
  ghost predicate Unused(instrs: seq<Instr>, n: Name) {
    && (forall i :: i in instrs ==> n !in i.args)
    && (forall i :: i in instrs ==> i.result != Some(n))
  }

  ghost predicate Ssa(st: LState) {
    && (forall k :: 0 <= k < |st.blocks| ==>
      F.SingleAssignment(st.blocks[k].instrs) && AllIssued(st.blocks[k].instrs, st.temps, st.slotCount))
    && (forall x :: x in st.slots ==> st.slots[x].Slot? && st.slots[x].n < st.slotCount)
  }

  ghost predicate UnusedHere(st: LState, n: Name) {
    st.cur < |st.blocks| ==> Unused(st.blocks[st.cur].instrs, n)
  }

  lemma AppendSingle(instrs: seq<Instr>, i: Instr)
    requires F.SingleAssignment(instrs)
    requires i.result.Some? ==> Unused(instrs, i.result.value) && i.result.value !in i.args
    requires i.op == Load ==> |i.args| <= 1 && (i.result.Some? ==> i.result.value.Temp?)
    ensures F.SingleAssignment(instrs + [i])
  {
    var all := instrs + [i];
    forall k, j | 0 <= k < j < |all| && all[j].result.Some?
      ensures all[j].result != all[k].result && all[j].result.value !in all[k].args
    {
      if j == |instrs| { assert all[k] in instrs; }
    }
  }

  lemma EmitSsa(st: LState, i: Instr)
    requires Ssa(st)
    requires i.result.Some? ==> UnusedHere(st, i.result.value) && i.result.value !in i.args && Issued(i.result.value, st.temps, st.slotCount)
    requires forall a :: a in i.args ==> Issued(a, st.temps, st.slotCount)
    requires i.op == Load ==> |i.args| <= 1 && (i.result.Some? ==> i.result.value.Temp?)
    ensures Ssa(Emit(st, i))
  {
    if Open(st) {
      hide F.SingleAssignment;
      AppendSingle(st.blocks[st.cur].instrs, i);
    }
  }

  lemma EmitUnused(st: LState, i: Instr, n: Name)
    requires UnusedHere(st, n) && n !in i.args && i.result != Some(n)
    ensures UnusedHere(Emit(st, i), n)
  {
  }

  /// A name not handed out yet is not used.
  lemma NewUnused(st: LState, n: Name)
    requires Ssa(st) && !Issued(n, st.temps, st.slotCount)
    ensures UnusedHere(st, n)
  {
  }

  /// Handing out names and moving between blocks changes no code.
  lemma SameSsa(a: LState, b: LState)
    requires Ssa(a) && b.blocks == a.blocks && a.temps <= b.temps && a.slotCount <= b.slotCount
    requires forall x :: x in b.slots ==> b.slots[x].Slot? && b.slots[x].n < b.slotCount
    ensures Ssa(b)
  {
    hide F.SingleAssignment, AllIssued;
    forall k | 0 <= k < |b.blocks| ensures AllIssued(b.blocks[k].instrs, b.temps, b.slotCount) {
      IssuedMore(a.blocks[k].instrs, a.temps, a.slotCount, b.temps, b.slotCount);
    }
  }

  lemma IssuedMore(instrs: seq<Instr>, temps: nat, slotCount: nat, temps': nat, slotCount': nat)
    requires AllIssued(instrs, temps, slotCount) && temps <= temps' && slotCount <= slotCount'
    ensures AllIssued(instrs, temps', slotCount')
  {
    forall i, a | i in instrs && a in i.args ensures Issued(a, temps', slotCount') {
      assert Issued(a, temps, slotCount);
    }
    forall i | i in instrs && i.result.Some? ensures Issued(i.result.value, temps', slotCount') {
      assert Issued(i.result.value, temps, slotCount);
    }
  }

  lemma SlotsIssued(st: LState)
    requires Ssa(st)
    ensures forall x :: x in st.slots ==> st.slots[x].Slot? && st.slots[x].n < st.slotCount
  {
  }

  lemma FreshSsa(st: LState, op: Op, ty: Ty, args: seq<Name>, text: string)
    requires Ssa(st) && (forall a :: a in args ==> Issued(a, st.temps, st.slotCount)) && (op == Load ==> |args| <= 1)
    ensures var f := Fresh(st, op, ty, args, text);
      Ssa(f.st) && f.name == Temp(st.temps) && f.st.temps == st.temps + 1 && f.st.slotCount == st.slotCount && f.st.slots == st.slots
  {
    hide Ssa;
    var r := Temp(st.temps);
    NewUnused(st, r);
    SlotsIssued(st);
    SameSsa(st, st.(temps := st.temps + 1));
    EmitSsa(st.(temps := st.temps + 1), Instr(op, Some(r), ty, args, text, false));
  }

  /// Same, with another name that stays unused.
  lemma FreshUnused(st: LState, op: Op, ty: Ty, args: seq<Name>, text: string, n: Name)
    requires UnusedHere(st, n) && n !in args && n != Temp(st.temps)
    ensures UnusedHere(Fresh(st, op, ty, args, text).st, n)
  {
    EmitUnused(st.(temps := st.temps + 1), Instr(op, Some(Temp(st.temps)), ty, args, text, false), n);
  }

  ghost predicate Grown(a: LState, b: LState) {
    Ssa(b) && a.temps <= b.temps && a.slotCount == b.slotCount && b.slots == a.slots
  }

  ghost predicate Value(r: Lowered) { r.name.Temp? && r.name.n < r.st.temps }

  lemma CoerceSsa(st: LState, v: Name, from: Ty, to: Ty, n: Name)
    requires Ssa(st) && v.Temp? && v.n < st.temps && UnusedHere(st, n) && n != v && Issued(n, st.temps, st.slotCount)
    ensures var c := Coerce(st, v, from, to); Grown(st, c.st) && Value(c) && UnusedHere(c.st, n) && c.name != n
  {
    hide Ssa, UnusedHere;
    if Converts(from, to) {
      FreshSsa(st, Cast, to, [v], Spell(from));
      FreshUnused(st, Cast, to, [v], Spell(from), n);
    }
  }

  lemma CastSsa(st: LState, v: Name, from: Ty, ty: Ty, n: Name, m: Name)
    requires Ssa(st) && v.Temp? && v.n < st.temps && UnusedHere(st, n) && UnusedHere(st, m)
    requires n != v && m != v && Issued(n, st.temps, st.slotCount) && Issued(m, st.temps, st.slotCount)
    ensures var c := CastTo(st, v, from, ty);
      Grown(st, c.st) && Value(c) && UnusedHere(c.st, n) && UnusedHere(c.st, m) && c.name != n && c.name != m
  {
    hide Ssa, UnusedHere, Fresh;
    if from != ty {
      FreshSsa(st, Cast, ty, [v], Spell(from));
      FreshUnused(st, Cast, ty, [v], Spell(from), n);
      FreshUnused(st, Cast, ty, [v], Spell(from), m);
    }
  }

  lemma UnarySsa(op: string, ty: Ty, from: Ty, v: Lowered)
    requires Ssa(v.st) && Value(v)
    ensures Grown(v.st, LowerUnary(op, ty, from, v).st) && Value(LowerUnary(op, ty, from, v))
  {
    hide Ssa, UnusedHere, CastTo, Apply1;
    var t := v.st.temps;
    var r, zero := Temp(t), Temp(t + 1);
    var taken := v.st.(temps := t + 2);
    NewUnused(v.st, r);
    NewUnused(v.st, zero);
    StillUnused(v.st, taken, r);
    StillUnused(v.st, taken, zero);
    SlotsIssued(v.st);
    SameSsa(v.st, taken);
    CastSsa(taken, v.name, from, ty, r, zero);
    Apply1Ssa(op, ty, r, zero, CastTo(taken, v.name, from, ty));
  }

  lemma StillUnused(a: LState, b: LState, n: Name)
    requires UnusedHere(a, n) && b.blocks == a.blocks && b.cur == a.cur
    ensures UnusedHere(b, n)
  {
  }

  lemma Apply1Ssa(op: string, ty: Ty, r: Name, zero: Name, operand: Lowered)
    requires Ssa(operand.st) && Value(operand) && UnusedHere(operand.st, r) && UnusedHere(operand.st, zero)
    requires r.Temp? && zero.Temp? && r != zero && operand.name != r && operand.name != zero && r.n < operand.st.temps && zero.n < operand.st.temps
    ensures Grown(operand.st, Apply1(op, ty, r, zero, operand))
  {
    hide Ssa, UnusedHere;
    if op == "-" {
      var zeroed := Instr(ConstInt, Some(zero), ty, [], "0", false);
      EmitSsa(operand.st, zeroed);
      EmitUnused(operand.st, zeroed, r);
      EmitKeeps(operand.st, zeroed);
      var minus := Instr(Binary, Some(r), ty, [zero, operand.name], "-", false);
      EmitSsa(Emit(operand.st, zeroed), minus);
      EmitKeeps(Emit(operand.st, zeroed), minus);
    } else {
      var i := Instr(Binary, Some(r), ty, [operand.name], op, false);
      EmitSsa(operand.st, i);
      EmitKeeps(operand.st, i);
    }
  }

  lemma EmitKeeps(st: LState, i: Instr)
    ensures Emit(st, i) == st.(blocks := Emit(st, i).blocks)
  {
  }

  lemma BinSsa(kind: Op, op: string, to: Ty, left: Ty, right: Ty, a: Name, b: Lowered)
    requires Ssa(b.st) && Value(b) && a.Temp? && a.n < b.st.temps && kind != Load
    ensures Grown(b.st, LowerBin(kind, op, to, left, right, a, b).st) && Value(LowerBin(kind, op, to, left, right, a, b))
  {
    hide Ssa, UnusedHere, Coerce;
    var t := b.st.temps;
    var out := Temp(t);
    var taken := b.st.(temps := t + 1);
    NewUnused(b.st, out);
    StillUnused(b.st, taken, out);
    SlotsIssued(b.st);
    SameSsa(b.st, taken);
    CoerceSsa(taken, a, left, to, out);
    var a' := Coerce(taken, a, left, to);
    CoerceSsa(a'.st, b.name, right, to, out);
    var b' := Coerce(a'.st, b.name, right, to);
    var i := Instr(kind, Some(out), to, [a'.name, b'.name], op, false);
    EmitSsa(b'.st, i);
    EmitKeeps(b'.st, i);
  }

  lemma {:induction false} ExprSsa(e: Expr, st: LState)
    requires Ssa(st)
    ensures Grown(st, LowerExpr(e, st).st) && Value(LowerExpr(e, st))
    decreases e
  {
    hide Ssa, LowerUnary, LowerBin, IsComparison, BinTy, Fresh;
    match e
    case IntLit(ty, text) => FreshSsa(st, ConstInt, ty, [], text);
    case BoolLit(ty, b) => FreshSsa(st, ConstBool, ty, [], if b then "1" else "0");
    case Var(x, ty) =>
      SlotsIssued(st);
      SameSsa(st, CheckName(st, x));
      FreshSsa(CheckName(st, x), Load, ty, [SlotOf(st, x)], "");
    case Unary(op, ty, x) =>
      ExprSsa(x, st);
      UnarySsa(op, ty, x.ty, LowerExpr(x, st));
    case Bin(op, ty, l, r) =>
      ExprSsa(l, st);
      var a := LowerExpr(l, st);
      ExprSsa(r, a.st);
      BinSsa(BinKind(op), op, BinTy(op, l.ty, ty), l.ty, r.ty, a.name, LowerExpr(r, a.st));
  }

  lemma AsSsa(e: Expr, to: Ty, st: LState)
    requires Ssa(st)
    ensures Grown(st, LowerAs(e, to, st).st) && Value(LowerAs(e, to, st))
  {
    hide Ssa, UnusedHere, LowerExpr, Fresh;
    ExprSsa(e, st);
    var v := LowerExpr(e, st);
    if Converts(e.ty, to) { FreshSsa(v.st, Cast, to, [v.name], Spell(e.ty)); }
  }

  // ---- statements ----

  lemma PlainSsa(st: LState, i: Instr)
    requires Ssa(st) && i.result.None? && i.op != Load && forall a :: a in i.args ==> Issued(a, st.temps, st.slotCount)
    ensures Ssa(Emit(st, i)) && Emit(st, i) == st.(blocks := Emit(st, i).blocks)
  {
    hide Ssa;
    EmitSsa(st, i);
    EmitKeeps(st, i);
  }

  lemma CloseSsa(st: LState, target: nat)
    requires Ssa(st)
    ensures Ssa(Close(st, target)) && Close(st, target) == st.(blocks := Close(st, target).blocks)
  {
    hide Ssa;
    PlainSsa(st, JumpTo(st, target));
  }

  lemma BindSsa(st: LState, x: string, ty: Ty, v: Name)
    requires Ssa(st) && Issued(v, st.temps, st.slotCount) && !v.Slot?
    ensures Ssa(Bind(st, x, ty, v)) && Bind(st, x, ty, v).temps == st.temps
  {
    hide Ssa, UnusedHere;
    var sl := Slot(x, st.slotCount);
    var bound := st.(slotCount := st.slotCount + 1, slots := st.slots[x := sl]);
    NewUnused(st, sl);
    StillUnused(st, bound, sl);
    SlotsIssued(st);
    SameSsa(st, bound);
    var alloca := Instr(Alloca, Some(sl), ty, [], "", false);
    EmitSsa(bound, alloca);
    EmitKeeps(bound, alloca);
    PlainSsa(Emit(bound, alloca), Instr(Store, None, ty, [v, sl], "", false));
  }

  lemma NewBlockSsa(st: LState, kind: string)
    requires Ssa(st)
    ensures Ssa(NewBlock(st, kind)) && NewBlock(st, kind) == st.(blocks := NewBlock(st, kind).blocks)
  {
    hide F.SingleAssignment;
    EmptySingle();
  }

  lemma EmptySingle()
    ensures F.SingleAssignment([])
  {
  }

  lemma IfHeadSsa(c: Expr, st: LState)
    requires Ssa(st)
    ensures Ssa(LowerIfHead(c, st)) && LowerIfHead(c, st).temps >= st.temps
  {
    hide Ssa, LowerExpr, Emit, NewBlock;
    ExprSsa(c, st);
    var cv := LowerExpr(c, st);
    NewBlockSsa(cv.st, "if.then.");
    NewBlockSsa(NewBlock(cv.st, "if.then."), "if.else.");
    NewBlockSsa(NewBlock(NewBlock(cv.st, "if.then."), "if.else."), "if.end.");
    var made := NewBlock(NewBlock(NewBlock(cv.st, "if.then."), "if.else."), "if.end.");
    PlainSsa(made, Branch(made, cv.name, |cv.st.blocks|, |cv.st.blocks| + 1));
  }

  lemma LoopEnteredSsa(s: Stmt, st: LState)
    requires IsLoop(s) && Ssa(st)
    ensures Ssa(LoopEntered(s, st)) && LoopEntered(s, st).temps == st.temps && LoopEntered(s, st).slots == st.slots
  {
    hide Ssa, Emit, NewBlock;
    match s
    case While(_, _) =>
      NewBlockSsa(st, "while.cond.");
      NewBlockSsa(NewBlock(st, "while.cond."), "while.body.");
      NewBlockSsa(NewBlock(NewBlock(st, "while.cond."), "while.body."), "while.end.");
      Enter(LoopBlocks(s, st), |st.blocks|);
    case For(_, _, _, _, _) =>
      NewBlockSsa(st, "for.cond.");
      NewBlockSsa(NewBlock(st, "for.cond."), "for.body.");
      NewBlockSsa(NewBlock(NewBlock(st, "for.cond."), "for.body."), "for.step.");
      NewBlockSsa(NewBlock(NewBlock(NewBlock(st, "for.cond."), "for.body."), "for.step."), "for.end.");
      Enter(LoopBlocks(s, st), |st.blocks|);
    case Loop(_) =>
      NewBlockSsa(st, "loop.body.");
      NewBlockSsa(NewBlock(st, "loop.body."), "loop.end.");
      Enter(LoopBlocks(s, st), |st.blocks|);
  }

  lemma Enter(st: LState, n: nat)
    requires Ssa(st)
    ensures Ssa(Close(st, n).(cur := n)) && Close(st, n).temps == st.temps && Close(st, n).slots == st.slots
  {
    hide Ssa;
    CloseSsa(st, n);
    SlotsIssued(Close(st, n));
    SameSsa(Close(st, n), Close(st, n).(cur := n));
  }

  lemma HeadSsa(s: Stmt, limit: Name, n: nat, st: LState)
    requires IsLoop(s) && Ssa(st) && (s.For? ==> limit.Temp? && limit.n < st.temps)
    ensures Grown(st, LowerHead(s, limit, n, st))
  {
    hide Ssa, LowerExpr, Emit, Fresh;
    match s
    case While(c, _) =>
      ExprSsa(c, st);
      var cv := LowerExpr(c, st);
      PlainSsa(cv.st, Branch(cv.st, cv.name, BodyIndex(s, n), EndIndex(s, n)));
    case For(x, inclusive, b, _, _) =>
      SlotsIssued(st);
      FreshSsa(st, Load, b.ty, [SlotOf(st, x)], "");
      var current := Fresh(st, Load, b.ty, [SlotOf(st, x)], "");
      var op := if inclusive then "<=" else "<";
      FreshSsa(current.st, Compare, b.ty, [current.name, limit], op);
      var test := Fresh(current.st, Compare, b.ty, [current.name, limit], op);
      PlainSsa(test.st, Branch(test.st, test.name, BodyIndex(s, n), EndIndex(s, n)));
    case Loop(_) =>
  }

  lemma StepSsa(s: Stmt, slot: Name, n: nat, st: LState)
    requires IsLoop(s) && Ssa(st) && (s.For? ==> Issued(slot, st.temps, st.slotCount))
    ensures Ssa(LowerStep(s, slot, n, st)) && LowerStep(s, slot, n, st).slots == st.slots
    ensures LowerStep(s, slot, n, st).temps >= st.temps && LowerStep(s, slot, n, st).slotCount == st.slotCount
  {
    if s.For? {
      hide Ssa, Emit, Fresh;
      var at := st.(cur := StepIndex(s, n));
      SlotsIssued(st);
      SameSsa(st, at);
      FreshSsa(at, Load, s.begin.ty, [slot], "");
      var was := Fresh(at, Load, s.begin.ty, [slot], "");
      FreshSsa(was.st, ConstInt, s.begin.ty, [], "1");
      var one := Fresh(was.st, ConstInt, s.begin.ty, [], "1");
      FreshSsa(one.st, Binary, s.begin.ty, [was.name, one.name], "+");
      var next := Fresh(one.st, Binary, s.begin.ty, [was.name, one.name], "+");
      StoreAndClose(next.st, s.begin.ty, next.name, slot, HeadIndex(s, n));
    }
  }

  lemma StoreAndClose(st: LState, ty: Ty, v: Name, slot: Name, target: nat)
    requires Ssa(st) && Issued(v, st.temps, st.slotCount) && Issued(slot, st.temps, st.slotCount)
    ensures var r := Close(StoreTo(st, ty, v, slot), target); Ssa(r) && r == st.(blocks := r.blocks)
  {
    hide Ssa, Emit;
    PlainSsa(st, Instr(Store, None, ty, [v, slot], "", false));
    CloseSsa(StoreTo(st, ty, v, slot), target);
  }

  lemma AssignSsa(s: Stmt, result: Ty, st: LState)
    requires s.Assign? && Ssa(st)
    ensures Ssa(LowerStmt(s, result, st))
  {
    hide Ssa, LowerAs, Fresh, Emit;
    var address := SlotOf(st, s.name);
    SlotsIssued(st);
    SameSsa(st, CheckName(st, s.name));
    AsSsa(s.value, s.ty, CheckName(st, s.name));
    var v := LowerAs(s.value, s.ty, CheckName(st, s.name));
    assert Issued(address, v.st.temps, v.st.slotCount);
    if s.op.None? {
      PlainSsa(v.st, Instr(Store, None, s.ty, [v.name, address], "", false));
    } else {
      FreshSsa(v.st, Load, s.ty, [address], "");
      var was := Fresh(v.st, Load, s.ty, [address], "");
      FreshSsa(was.st, Binary, s.ty, [was.name, v.name], s.op.value);
      var combined := Fresh(was.st, Binary, s.ty, [was.name, v.name], s.op.value);
      PlainSsa(combined.st, Instr(Store, None, s.ty, [combined.name, address], "", false));
    }
  }

  /// Lowering a statement keeps single assignment.
  lemma {:induction false} StmtSsa(s: Stmt, result: Ty, st: LState)
    requires Open(st) && Ssa(st)
    ensures Ssa(LowerStmt(s, result, st))
    decreases s, 1
  {
    hide Ssa, LowerExpr, LowerAs, Bind, Emit;
    match s
    case Let(x, ty, init) =>
      AsSsa(init, ty, st);
      var v := LowerAs(init, ty, st);
      BindSsa(v.st, x, ty, v.name);
    case Assign(_, _, _, _) => AssignSsa(s, result, st);
    case ExprStmt(e) => ExprSsa(e, st);
    case Ret(e) =>
      if e.None? {
        PlainSsa(st, Instr(Return, None, UnitTy, [], "", false));
      } else {
        AsSsa(e.value, result, st);
        var v := LowerAs(e.value, result, st);
        PlainSsa(v.st, Instr(Return, None, result, [v.name], "", false));
      }
    case BlockStmt(body) => SeqSsa(body, result, st);
    case If(_, _, _) => IfSsa(s, result, st);
    case While(_, _) => LoopSsa(s, Plain(""), result, st);
    case For(_, _, _, _, _) =>
      ForBoundSsa(s, st);
      var limit, bound := ForBound(s, st);
      LoopSsa(s, limit, result, bound);
    case Loop(_) => LoopSsa(s, Plain(""), result, st);
    case Break => LeaveSsa(s, result, st);
    case Continue => LeaveSsa(s, result, st);
  }

  lemma LeaveSsa(s: Stmt, result: Ty, st: LState)
    requires (s.Break? || s.Continue?) && Ssa(st)
    ensures Ssa(LowerStmt(s, result, st))
  {
    hide Ssa, Emit;
    if st.loops != [] {
      var t := st.loops[|st.loops| - 1];
      PlainSsa(st, JumpTo(st, if s.Break? then t.1 else t.0));
    }
  }

  lemma ForBoundSsa(s: Stmt, st: LState)
    requires s.For? && Ssa(st)
    ensures var from := LowerExpr(s.begin, st);
      var to := LowerExpr(s.end, from.st);
      && Ssa(Bind(to.st, s.name, s.begin.ty, from.name))
      && to.name.Temp? && to.name.n < Bind(to.st, s.name, s.begin.ty, from.name).temps
  {
    hide Ssa, LowerExpr, Bind;
    ExprSsa(s.begin, st);
    var from := LowerExpr(s.begin, st);
    ExprSsa(s.end, from.st);
    BindSsa(LowerExpr(s.end, from.st).st, s.name, s.begin.ty, from.name);
  }

  lemma {:induction false} SeqSsa(ss: seq<Stmt>, result: Ty, st: LState)
    requires Ssa(st) && st.cur < |st.blocks|
    ensures Ssa(LowerSeq(ss, result, st))
    decreases ss, 2
  {
    hide LowerStmt, Ssa, Extends;
    if ss != [] && !Terminated(st) {
      StmtExtends(ss[0], result, st);
      ExtendsIn(st, LowerStmt(ss[0], result, st));
      StmtSsa(ss[0], result, st);
      SeqSsa(ss[1..], result, LowerStmt(ss[0], result, st));
    }
  }

  lemma ExtendsIn(a: LState, b: LState)
    requires Extends(a, b)
    ensures b.cur < |b.blocks| && |a.blocks| <= |b.blocks| && a.temps <= b.temps && a.slotCount <= b.slotCount
  {
  }

  lemma Moved(a: LState, b: LState)
    requires Ssa(a) && b == a.(cur := b.cur, loops := b.loops)
    ensures Ssa(b)
  {
    hide Ssa;
    SlotsIssued(a);
    SameSsa(a, b);
  }

  lemma {:induction false} IfSsa(s: Stmt, result: Ty, st: LState)
    requires s.If? && Open(st) && Ssa(st)
    ensures Ssa(LowerStmt(s, result, st))
    decreases s, 0
  {
    hide LowerIfHead, Split, Extends, Ssa, Close;
    var split := LowerIfHead(s.cond, st);
    var n := |st.blocks|;
    IfHeadSplit(s.cond, st);
    SplitSlots(st, split, {n, n + 1, n + 2}, 3);
    IfHeadSsa(s.cond, st);
    var at := split.(cur := n);
    Moved(split, at);
    SeqSsa(s.thn, result, at);
    SeqExtends(s.thn, result, at);
    var yes0 := LowerSeq(s.thn, result, at);
    ExtendsIn(at, yes0);
    CloseSsa(yes0, n + 2);
    CloseSize(yes0, n + 2);
    var yes := Close(yes0, n + 2);
    var at2 := yes.(cur := n + 1);
    Moved(yes, at2);
    SeqSsa(s.els, result, at2);
    var no0 := LowerSeq(s.els, result, at2);
    CloseSsa(no0, n + 2);
    Moved(Close(no0, n + 2), LowerStmt(s, result, st));
  }

  lemma CloseSize(st: LState, target: nat)
    ensures |Close(st, target).blocks| == |st.blocks|
  {
  }

  lemma {:induction false} LoopSsa(s: Stmt, limit: Name, result: Ty, st: LState)
    requires IsLoop(s) && Open(st) && Ssa(st) && (s.For? ==> limit.Temp? && limit.n < st.temps)
    ensures Ssa(LowerLoop(s, limit, result, st))
    decreases s, 0
  {
    hide LoopInside, LoopEntered, LowerHead, LowerStep, Split, Extends, Ssa, Close;
    var n := |st.blocks|;
    var slot := if s.For? then SlotOf(st, s.name) else Plain("");
    var inside := LoopInside(s, limit, st);
    LoopInsideSplit(s, limit, st);
    SplitSlots(st, inside, StillEmpty(s, n), LoopCount(s));
    LoopEnteredSsa(s, st);
    HeadSsa(s, limit, n, LoopEntered(s, st));
    InsideFrom(s, limit, st);
    Moved(LowerHead(s, limit, n, LoopEntered(s, st)), inside);
    SeqSsa(s.body, result, inside);
    SeqExtends(s.body, result, inside);
    var body := LowerSeq(s.body, result, inside);
    ExtendsIn(inside, body);
    var reset := body.(loops := st.loops);
    Moved(body, reset);
    CloseSsa(reset, StepIndex(s, n));
    SlotsIssued(st);
    StepSsa(s, slot, n, Close(reset, StepIndex(s, n)));
    Moved(LowerStep(s, slot, n, Close(reset, StepIndex(s, n))), LowerLoop(s, limit, result, st));
  }

  lemma InsideFrom(s: Stmt, limit: Name, st: LState)
    requires IsLoop(s)
    ensures var h := LowerHead(s, limit, |st.blocks|, LoopEntered(s, st));
      LoopInside(s, limit, st) == h.(cur := LoopInside(s, limit, st).cur, loops := LoopInside(s, limit, st).loops)
  {
  }

  lemma {:induction false} ParamsSsa(params: seq<(string, Ty)>, st: LState)
    requires Open(st) && Sound(st) && Ssa(st)
    ensures Ssa(LowerParams(params, st))
    decreases |params|
  {
    hide Bind, Ssa, SoundBlock, Extends;
    if params != [] {
      BindSsa(st, params[0].0, params[0].1, Arg(params[0].0));
      BindExtends(st, params[0].0, params[0].1, Arg(params[0].0));
      BindSound(st, params[0].0, params[0].1, Arg(params[0].0));
      ParamsSsa(params[1..], Bind(st, params[0].0, params[0].1, Arg(params[0].0)));
    }
  }

  lemma StartSsa()
    ensures Ssa(Start)
  {
    EmptySingle();
  }

  lemma FunctionSsa(f: Function)
    ensures !LowerFunction(f).err ==> Ssa(LowerFunction(f))
  {
    hide LowerParams, LowerSeq, Extends, Ssa;
    StartSound();
    StartSsa();
    ParamsExtend(f.params, Start);
    ParamsSsa(f.params, Start);
    var ready := LowerParams(f.params, Start);
    SeqSsa(f.body, f.result, ready);
    PlainSsa(LowerSeq(f.body, f.result, ready), Instr(Return, None, UnitTy, [], "", false));
  }

  lemma SoundTargets(b: Block, blocks: seq<Block>)
    requires SoundBlock(b, blocks)
    ensures forall k :: 0 <= k < |b.instrs| ==> F.Targeted(b.instrs[k])
  {
    hide Known;
    forall k | 0 <= k < |b.instrs| ensures F.Targeted(b.instrs[k]) {
      if IsTerminator(b.instrs[k].op) { assert SoundEnd(b.instrs[k], blocks); }
    }
  }

  /// For every function that lowers without an error: each block assigns a name
  /// once and never after using it, and its terminator names its targets.
  lemma LoweredCodeSuits(f: Function)
    requires !LowerFunction(f).err
    ensures F.Suits(LowerFunction(f).blocks)
  {
    hide LowerFunction, F.SingleAssignment, AllIssued, SoundBlock, F.Targeted;
    FunctionSsa(f);
    GraphIsWellFormed(f);
    var blocks := LowerFunction(f).blocks;
    forall b | b in blocks
      ensures F.SingleAssignment(b.instrs) && forall k :: 0 <= k < |b.instrs| ==> F.Targeted(b.instrs[k])
    {
      var i :| 0 <= i < |blocks| && blocks[i] == b;
      SoundTargets(b, blocks);
    }
  }
}
