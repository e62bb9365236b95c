/// Lowered code is what the optimizer relies on, by conditions on the source:
/// types, literals and operators that the folder reads right, and no `for` whose
/// end is a bare variable. The end of a `for` is the one value that is computed
/// in one block and used in another; every other operand of an instruction comes
/// from its own block, as the induction over the lowering shows construct by
/// construct. Only loads matter, since only results of loads are dropped.

module LoweringLocal {
  import opened Mir
  import opened SourceLang
  import opened Lowering
  import opened LoweringShape
  import opened LoweringSound
  import opened LoweringSsa
  import F = ForwardLoads
  import C = ConstantFold
  import CR = ConstantFoldRuns
  import M = MirStages

  // ---- conditions on the source ----

  /// Types are 64 bits wide or `bool`, integer literals read alike, `bool` has
  /// no arithmetic and no order.
  predicate FitsExpr(e: Expr) {
    match e
    case IntLit(ty, text) => C.Wide(ty) && CR.Literal(text) && CR.ReadsAlike(text)
    case BoolLit(ty, _) => C.Wide(ty)
    case Var(_, _) => true
    case Unary(op, ty, x) => FitsExpr(x) && C.Specified(Binary, ty, op)
    case Bin(op, ty, l, r) =>
      && FitsExpr(l) && FitsExpr(r)
      && if IsComparison(op) then C.Wide(l.ty) && (l.ty == BoolTy ==> op == "==" || op == "!=")
         else C.Specified(Binary, ty, op)
  }

  /// The end of a `for` is no bare variable.
  predicate FitsStmt(s: Stmt)
    decreases s, 1
  {
    match s
    case Let(_, _, init) => FitsExpr(init)
    case Assign(_, ty, op, value) => FitsExpr(value) && (op.Some? ==> C.Specified(Binary, ty, op.value))
    case ExprStmt(e) => FitsExpr(e)
    case Ret(e) => e.Some? ==> FitsExpr(e.value)
    case BlockStmt(body) => FitsSeq(body)
    case If(c, thn, els) => FitsExpr(c) && FitsSeq(thn) && FitsSeq(els)
    case While(c, body) => FitsExpr(c) && FitsSeq(body)
    case For(_, _, b, e, body) =>
      FitsExpr(b) && FitsExpr(e) && !e.Var? && C.Wide(b.ty) && b.ty != BoolTy && FitsSeq(body)
    case Loop(body) => FitsSeq(body)
    case Break => true
    case Continue => true
  }

  predicate FitsSeq(ss: seq<Stmt>)
    decreases ss, 0
  {
    ss != [] ==> FitsStmt(ss[0]) && FitsSeq(ss[1..])
  }

  // ---- where operands come from ----

  ghost predicate Clean(st: LState) {
    && F.LocalLoads(st.blocks)
    && forall k, i :: 0 <= k < |st.blocks| && i in st.blocks[k].instrs ==> M.Tidy(i)
  }

  /// No block but the current one loads `n`.
  ghost predicate From(st: LState, n: Name) {
    forall k :: 0 <= k < |st.blocks| && k != st.cur ==> !F.Loaded(st.blocks[k].instrs, n)
  }

  ghost predicate NoLoad(st: LState, n: Name) {
    forall k :: 0 <= k < |st.blocks| ==> !F.Loaded(st.blocks[k].instrs, n)
  }

  /// Code is added to the current block; names issued before stay where they were.
  ghost predicate Stays(a: LState, b: LState) {
    && b.cur == a.cur && a.temps <= b.temps && a.slotCount <= b.slotCount
    && (forall n :: Issued(n, a.temps, a.slotCount) && From(a, n) ==> From(b, n))
    && (forall n :: Issued(n, a.temps, a.slotCount) && NoLoad(a, n) ==> NoLoad(b, n))
  }

  lemma StaysThen(a: LState, b: LState, c: LState)
    requires Stays(a, b) && Stays(b, c)
    ensures Stays(a, c)
  {
    hide From, NoLoad;
    forall n | Issued(n, a.temps, a.slotCount) ensures Issued(n, b.temps, b.slotCount) { }
  }

  lemma LoadedAppend(instrs: seq<Instr>, i: Instr, n: Name)
    ensures F.Loaded(instrs + [i], n) <==> F.Loaded(instrs, n) || F.LoadOf(i, n)
  {
    assert i in instrs + [i];
    if F.Loaded(instrs, n) {
      var x :| x in instrs && F.LoadOf(x, n);
      assert x in instrs + [i];
    }
  }

  lemma ArgsAppend(instrs: seq<Instr>, i: Instr)
    ensures F.ArgsIn(instrs + [i]) == F.ArgsIn(instrs) + set a | a in i.args
  {
    assert i in instrs + [i] && forall x :: x in instrs ==> x in instrs + [i];
  }

  /// The block that is being filled, after one more instruction.
  lemma EmitLoaded(st: LState, i: Instr, k: nat, n: Name)
    requires k < |st.blocks|
    ensures F.Loaded(Emit(st, i).blocks[k].instrs, n) ==> F.Loaded(st.blocks[k].instrs, n) || (k == st.cur && F.LoadOf(i, n))
    ensures F.Loaded(st.blocks[k].instrs, n) ==> F.Loaded(Emit(st, i).blocks[k].instrs, n)
  {
    hide F.Loaded;
    if k == st.cur { LoadedAppend(st.blocks[k].instrs, i, n); }
  }

  lemma EmitArgs(st: LState, i: Instr, k: nat)
    requires k < |st.blocks|
    ensures F.ArgsIn(Emit(st, i).blocks[k].instrs) <=
      F.ArgsIn(st.blocks[k].instrs) + if k == st.cur then set a | a in i.args else {}
  {
    if k == st.cur { ArgsAppend(st.blocks[k].instrs, i); }
  }

  /// An instruction whose operands no other block loads, and whose result no
  /// other block uses if it is a load.
  lemma EmitClean(st: LState, i: Instr)
    requires Clean(st) && M.Tidy(i) && forall a :: a in i.args ==> From(st, a)
    requires i.op == Load && i.result.Some? ==> forall k :: 0 <= k < |st.blocks| ==> i.result.value !in F.ArgsIn(st.blocks[k].instrs)
    ensures Clean(Emit(st, i))
  {
    hide F.Loaded, F.ArgsIn, M.Tidy;
    var b := Emit(st, i);
    forall k, j, r | 0 <= k < |b.blocks| && 0 <= j < |b.blocks| && k != j && F.Loaded(b.blocks[k].instrs, r)
      ensures r !in F.ArgsIn(b.blocks[j].instrs)
    {
      EmitLoaded(st, i, k, r);
      EmitArgs(st, i, j);
    }
  }

  lemma EmitStays(st: LState, i: Instr)
    requires i.op == Load ==> i.result.None? || !Issued(i.result.value, st.temps, st.slotCount)
    ensures Stays(st, Emit(st, i))
  {
    hide F.Loaded;
    var b := Emit(st, i);
    forall n | Issued(n, st.temps, st.slotCount) ensures (From(st, n) ==> From(b, n)) && (NoLoad(st, n) ==> NoLoad(b, n)) {
      forall k | 0 <= k < |st.blocks| ensures F.Loaded(b.blocks[k].instrs, n) ==> F.Loaded(st.blocks[k].instrs, n) {
        EmitLoaded(st, i, k, n);
      }
    }
  }

  lemma NoLoadFrom(st: LState, n: Name)
    requires NoLoad(st, n)
    ensures From(st, n)
  {
  }

  lemma UnissuedNoLoad(st: LState, n: Name)
    requires Ssa(st) && !Issued(n, st.temps, st.slotCount)
    ensures NoLoad(st, n)
    ensures forall k :: 0 <= k < |st.blocks| ==> n !in F.ArgsIn(st.blocks[k].instrs)
  {
    hide F.SingleAssignment;
  }

  /// Only temporaries are loaded.
  lemma OtherNoLoad(st: LState, n: Name)
    requires Ssa(st) && !n.Temp?
    ensures NoLoad(st, n)
  {
    forall k | 0 <= k < |st.blocks| ensures !F.Loaded(st.blocks[k].instrs, n) {
      var instrs := st.blocks[k].instrs;
      assert F.SingleAssignment(instrs);
      forall i | i in instrs ensures !F.LoadOf(i, n) {
        var x :| 0 <= x < |instrs| && instrs[x] == i;
      }
    }
  }

  /// Moving between blocks and handing out names changes no code.
  lemma SameClean(a: LState, b: LState)
    requires Clean(a) && b.blocks == a.blocks
    ensures Clean(b)
  {
  }

  lemma TakeStays(a: LState, b: LState)
    requires b.blocks == a.blocks && b.cur == a.cur && a.temps <= b.temps && a.slotCount <= b.slotCount
    ensures Stays(a, b)
  {
  }

  // ---- expressions ----

  ghost predicate Computed(a: LState, r: Lowered) {
    Clean(r.st) && Stays(a, r.st) && From(r.st, r.name)
  }

  lemma FreshClean(st: LState, op: Op, ty: Ty, args: seq<Name>, text: string)
    requires Ssa(st) && Clean(st) && M.Tidy(Instr(op, Some(Temp(st.temps)), ty, args, text, false))
    requires forall a :: a in args ==> From(st, a)
    ensures Computed(st, Fresh(st, op, ty, args, text))
    ensures op != Load ==> NoLoad(Fresh(st, op, ty, args, text).st, Temp(st.temps))
  {
    hide Ssa, F.Loaded, F.LocalLoads, M.Tidy, F.ArgsIn;
    var r := Temp(st.temps);
    var taken := st.(temps := st.temps + 1);
    var i := Instr(op, Some(r), ty, args, text, false);
    UnissuedNoLoad(st, r);
    SameClean(st, taken);
    EmitClean(taken, i);
    FreshStays(st, i);
    forall k | 0 <= k < |st.blocks| && (k != st.cur || op != Load) ensures !F.Loaded(Emit(taken, i).blocks[k].instrs, r) {
      EmitLoaded(taken, i, k, r);
    }
  }

  lemma FreshStays(st: LState, i: Instr)
    requires i.result == Some(Temp(st.temps))
    ensures Stays(st, Emit(st.(temps := st.temps + 1), i))
  {
    hide F.Loaded;
    var taken := st.(temps := st.temps + 1);
    var b := Emit(taken, i);
    forall n | Issued(n, st.temps, st.slotCount) ensures (From(st, n) ==> From(b, n)) && (NoLoad(st, n) ==> NoLoad(b, n)) {
      forall k | 0 <= k < |st.blocks| ensures F.Loaded(b.blocks[k].instrs, n) ==> F.Loaded(st.blocks[k].instrs, n) {
        EmitLoaded(taken, i, k, n);
      }
    }
  }

  lemma StaysSelf(st: LState)
    ensures Stays(st, st)
  {
  }

  lemma CastTidy(ty: Ty, r: Name, v: Name, text: string)
    ensures M.Tidy(Instr(Cast, Some(r), ty, [v], text, false)) <== !r.Slot?
  {
  }

  lemma CoerceClean(st: LState, v: Name, from: Ty, to: Ty)
    requires Ssa(st) && Clean(st) && From(st, v)
    ensures Computed(st, Coerce(st, v, from, to))
  {
    hide Ssa, Clean, From, NoLoad, Stays, Fresh;
    if Converts(from, to) {
      CastTidy(to, Temp(st.temps), v, Spell(from));
      FreshClean(st, Cast, to, [v], Spell(from));
    } else {
      StaysSelf(st);
    }
  }

  lemma CastClean(st: LState, v: Name, from: Ty, to: Ty)
    requires Ssa(st) && Clean(st) && From(st, v)
    ensures Computed(st, CastTo(st, v, from, to))
  {
    hide Ssa, Clean, From, NoLoad, Stays, Fresh;
    if from != to {
      CastTidy(to, Temp(st.temps), v, Spell(from));
      FreshClean(st, Cast, to, [v], Spell(from));
    } else {
      StaysSelf(st);
    }
  }

  lemma PlainClean(st: LState, i: Instr)
    requires Clean(st) && M.Tidy(i) && i.op != Load && forall a :: a in i.args ==> From(st, a)
    ensures Clean(Emit(st, i)) && Stays(st, Emit(st, i))
  {
    hide Clean, From, M.Tidy, Stays, Emit;
    EmitClean(st, i);
    EmitStays(st, i);
  }

  lemma SmallLiterals()
    ensures CR.Literal("0") && CR.ReadsAlike("0") && CR.Literal("1") && CR.ReadsAlike("1")
  {
    assert "0"[1..] == [] && "1"[1..] == [];
    assert CR.IL.Magnitude([], 10, 0) == CR.IL.Some(0) && CR.IL.Magnitude([], 10, 1) == CR.IL.Some(1);
    assert CR.IL.Magnitude("0", 10, 0) == CR.IL.Some(0) && CR.IL.Magnitude("1", 10, 0) == CR.IL.Some(1);
    assert '0' in "0" && '1' in "1";
    assert CR.IL.HasDigit("0") && CR.IL.HasDigit("1");
  }

  /// Negation takes a zero; the operator itself is one the target is told of.
  lemma Apply1Clean(op: string, ty: Ty, r: Name, zero: Name, operand: Lowered)
    requires Clean(operand.st) && From(operand.st, operand.name) && NoLoad(operand.st, zero)
    requires !r.Slot? && zero.Temp? && Issued(zero, operand.st.temps, operand.st.slotCount) && C.Specified(Binary, ty, op)
    requires Issued(operand.name, operand.st.temps, operand.st.slotCount)
    ensures Clean(Apply1(op, ty, r, zero, operand)) && Stays(operand.st, Apply1(op, ty, r, zero, operand))
  {
    hide Clean, From, NoLoad, Stays, Emit, CR.ReadsAlike, CR.Literal;
    var st := operand.st;
    if op == "-" {
      var zeroed := Instr(ConstInt, Some(zero), ty, [], "0", false);
      SmallLiterals();
      PlainClean(st, zeroed);
      StaysNoLoad(st, Emit(st, zeroed), zero);
      StaysFrom(st, Emit(st, zeroed), operand.name);
      NoLoadFrom(Emit(st, zeroed), zero);
      PlainClean(Emit(st, zeroed), Instr(Binary, Some(r), ty, [zero, operand.name], "-", false));
      StaysThen(st, Emit(st, zeroed), Apply1(op, ty, r, zero, operand));
    } else {
      PlainClean(st, Instr(Binary, Some(r), ty, [operand.name], op, false));
    }
  }

  lemma StaysFrom(a: LState, b: LState, n: Name)
    requires Stays(a, b) && Issued(n, a.temps, a.slotCount) && From(a, n)
    ensures From(b, n)
  {
  }

  lemma StaysNoLoad(a: LState, b: LState, n: Name)
    requires Stays(a, b) && Issued(n, a.temps, a.slotCount) && NoLoad(a, n)
    ensures NoLoad(b, n)
  {
  }

  lemma UnaryClean(op: string, ty: Ty, from: Ty, v: Lowered)
    requires Ssa(v.st) && Clean(v.st) && From(v.st, v.name) && v.name.Temp? && v.name.n < v.st.temps && C.Specified(Binary, ty, op)
    ensures Computed(v.st, LowerUnary(op, ty, from, v)) && NoLoad(LowerUnary(op, ty, from, v).st, LowerUnary(op, ty, from, v).name)
  {
    hide Ssa, Clean, From, NoLoad, Stays, CastTo, Apply1, C.Specified;
    var t := v.st.temps;
    var taken := v.st.(temps := t + 2);
    SlotsIssued(v.st);
    SameSsa(v.st, taken);
    SameClean(v.st, taken);
    TakeStays(v.st, taken);
    TakenNoLoad(v.st, taken, Temp(t));
    TakenNoLoad(v.st, taken, Temp(t + 1));
    StaysFrom(v.st, taken, v.name);
    CastClean(taken, v.name, from, ty);
    CastName(taken, v.name, from, ty);
    var operand := CastTo(taken, v.name, from, ty);
    StaysGrows(taken, operand.st);
    StaysNoLoad(taken, operand.st, Temp(t));
    StaysNoLoad(taken, operand.st, Temp(t + 1));
    Apply1Clean(op, ty, Temp(t), Temp(t + 1), operand);
    var b := Apply1(op, ty, Temp(t), Temp(t + 1), operand);
    StaysNoLoad(operand.st, b, Temp(t));
    NoLoadFrom(b, Temp(t));
    StaysThen(v.st, taken, operand.st);
    StaysThen(v.st, operand.st, b);
  }

  lemma StaysGrows(a: LState, b: LState)
    requires Stays(a, b)
    ensures a.temps <= b.temps && a.slotCount <= b.slotCount && b.cur == a.cur
  {
  }

  lemma TakenNoLoad(a: LState, b: LState, n: Name)
    requires Ssa(a) && !Issued(n, a.temps, a.slotCount) && b.blocks == a.blocks
    ensures NoLoad(b, n)
  {
    hide Ssa, F.Loaded;
    UnissuedNoLoad(a, n);
  }

  lemma CastName(st: LState, v: Name, from: Ty, ty: Ty)
    requires v.Temp? && v.n < st.temps
    ensures var c := CastTo(st, v, from, ty); c.name.Temp? && c.name.n < c.st.temps
  {
  }

  lemma CoerceName(st: LState, v: Name, from: Ty, ty: Ty)
    requires v.Temp? && v.n < st.temps
    ensures var c := Coerce(st, v, from, ty); c.name.Temp? && c.name.n < c.st.temps
  {
  }

  lemma BinClean(kind: Op, op: string, to: Ty, left: Ty, right: Ty, a: Name, b: Lowered)
    requires Ssa(b.st) && Clean(b.st) && From(b.st, b.name) && From(b.st, a) && b.name.Temp? && b.name.n < b.st.temps && a.Temp? && a.n < b.st.temps
    requires kind != Load && M.Tidy(Instr(kind, Some(Temp(0)), to, [], op, false))
    ensures var r := LowerBin(kind, op, to, left, right, a, b);
      Computed(b.st, r) && NoLoad(r.st, r.name)
  {
    hide Ssa, UnusedHere, Clean, From, NoLoad, Stays, Coerce, Emit, M.Tidy;
    var t := b.st.temps;
    var out := Temp(t);
    var taken := b.st.(temps := t + 1);
    SlotsIssued(b.st);
    SameSsa(b.st, taken);
    SameClean(b.st, taken);
    TakeStays(b.st, taken);
    TakenNoLoad(b.st, taken, out);
    NewUnused(b.st, out);
    StillUnused(b.st, taken, out);
    StaysFrom(b.st, taken, a);
    StaysFrom(b.st, taken, b.name);
    CoerceClean(taken, a, left, to);
    CoerceSsa(taken, a, left, to, out);
    var a' := Coerce(taken, a, left, to);
    StaysFrom(taken, a'.st, b.name);
    StaysGrows(taken, a'.st);
    CoerceName(taken, a, left, to);
    CoerceClean(a'.st, b.name, right, to);
    var b' := Coerce(a'.st, b.name, right, to);
    StaysFrom(a'.st, b'.st, a'.name);
    StaysThen(taken, a'.st, b'.st);
    StaysNoLoad(taken, b'.st, out);
    var i := Instr(kind, Some(out), to, [a'.name, b'.name], op, false);
    TidySame(Instr(kind, Some(Temp(0)), to, [], op, false), i);
    PlainClean(b'.st, i);
    StaysGrows(taken, b'.st);
    StaysNoLoad(b'.st, Emit(b'.st, i), out);
    NoLoadFrom(Emit(b'.st, i), out);
    StaysThen(b.st, taken, b'.st);
    StaysThen(b.st, b'.st, Emit(b'.st, i));
  }

  lemma TidySame(i: Instr, j: Instr)
    requires M.Tidy(i) && j == i.(args := j.args, result := j.result) && j.result.Some? && j.result.value.Temp?
    ensures M.Tidy(j)
  {
  }

  lemma {:induction false} ExprClean(e: Expr, st: LState)
    requires Ssa(st) && Clean(st) && FitsExpr(e)
    ensures Computed(st, LowerExpr(e, st))
    ensures !e.Var? ==> NoLoad(LowerExpr(e, st).st, LowerExpr(e, st).name)
    decreases e
  {
    hide Ssa, Clean, From, NoLoad, Stays, LowerUnary, LowerBin, Fresh, CR.ReadsAlike, CR.Literal, C.Wide, C.Specified;
    ExprSsa(e, st);
    match e
    case IntLit(ty, text) =>
      FreshClean(st, ConstInt, ty, [], text);
      FreshIs(st, ConstInt, ty, [], text);
    case BoolLit(ty, b) =>
      FreshClean(st, ConstBool, ty, [], if b then "1" else "0");
      FreshIs(st, ConstBool, ty, [], if b then "1" else "0");
    case Var(x, ty) =>
      var checked := CheckName(st, x);
      SlotsIssued(st);
      SameSsa(st, checked);
      SameClean(st, checked);
      TakeStays(st, checked);
      OtherNoLoad(checked, SlotOf(st, x));
      NoLoadFrom(checked, SlotOf(st, x));
      FreshClean(checked, Load, ty, [SlotOf(st, x)], "");
      StaysThen(st, checked, LowerExpr(e, st).st);
    case Unary(op, ty, x) =>
      ExprSsa(x, st);
      ExprClean(x, st);
      var v := LowerExpr(x, st);
      UnaryClean(op, ty, x.ty, v);
      StaysThen(st, v.st, LowerExpr(e, st).st);
    case Bin(op, ty, l, r) =>
      ExprSsa(l, st);
      ExprClean(l, st);
      var a := LowerExpr(l, st);
      ExprSsa(r, a.st);
      ExprClean(r, a.st);
      var b := LowerExpr(r, a.st);
      StaysFrom(a.st, b.st, a.name);
      StaysGrows(a.st, b.st);
      BinTidy(op, l.ty, ty);
      BinClean(BinKind(op), op, BinTy(op, l.ty, ty), l.ty, r.ty, a.name, b);
      StaysThen(st, a.st, b.st);
      StaysThen(st, b.st, LowerExpr(e, st).st);
  }

  lemma BinTidy(op: string, left: Ty, ty: Ty)
    requires if IsComparison(op) then C.Wide(left) && (left == BoolTy ==> op == "==" || op == "!=") else C.Specified(Binary, ty, op)
    ensures M.Tidy(Instr(BinKind(op), Some(Temp(0)), BinTy(op, left, ty), [], op, false))
  {
  }

  lemma FreshIs(st: LState, op: Op, ty: Ty, args: seq<Name>, text: string)
    ensures Fresh(st, op, ty, args, text).name == Temp(st.temps)
  {
  }

  lemma AsClean(e: Expr, to: Ty, st: LState)
    requires Ssa(st) && Clean(st) && FitsExpr(e)
    ensures Computed(st, LowerAs(e, to, st))
  {
    hide Ssa, Clean, From, NoLoad, Stays, LowerExpr, Coerce;
    ExprSsa(e, st);
    ExprClean(e, st);
    var v := LowerExpr(e, st);
    CoerceClean(v.st, v.name, e.ty, to);
    StaysThen(st, v.st, LowerAs(e, to, st).st);
  }

  // ---- statements ----

  lemma StoreClean(st: LState, ty: Ty, v: Name, address: Name)
    requires Ssa(st) && Clean(st) && From(st, v) && !address.Temp?
    ensures Clean(StoreTo(st, ty, v, address)) && Stays(st, StoreTo(st, ty, v, address))
  {
    hide Ssa, Clean, From, NoLoad, Stays, Emit;
    OtherNoLoad(st, address);
    NoLoadFrom(st, address);
    PlainClean(st, Instr(Store, None, ty, [v, address], "", false));
  }

  lemma BindClean(st: LState, x: string, ty: Ty, v: Name)
    requires Ssa(st) && Clean(st) && From(st, v) && Issued(v, st.temps, st.slotCount) && !v.Slot?
    ensures Clean(Bind(st, x, ty, v)) && Stays(st, Bind(st, x, ty, v))
  {
    hide Ssa, Clean, From, NoLoad, Stays, Emit, UnusedHere;
    var sl := Slot(x, st.slotCount);
    var bound := st.(slotCount := st.slotCount + 1, slots := st.slots[x := sl]);
    NewUnused(st, sl);
    StillUnused(st, bound, sl);
    SlotsIssued(st);
    SameSsa(st, bound);
    SameClean(st, bound);
    TakeStays(st, bound);
    var alloca := Instr(Alloca, Some(sl), ty, [], "", false);
    EmitSsa(bound, alloca);
    PlainClean(bound, alloca);
    var at := Emit(bound, alloca);
    StaysThen(st, bound, at);
    StaysFrom(st, at, v);
    StoreClean(at, ty, v, sl);
    StaysThen(st, at, Bind(st, x, ty, v));
  }

  lemma CloseClean(st: LState, target: nat)
    requires Ssa(st) && Clean(st)
    ensures Clean(Close(st, target)) && Stays(st, Close(st, target))
  {
    hide Ssa, Clean, From, NoLoad, Stays, Emit;
    JumpClean(st, JumpTo(st, target));
  }

  /// A jump to a block.
  lemma JumpClean(st: LState, i: Instr)
    requires Ssa(st) && Clean(st) && i.op == Jump && i.result.None? && |i.args| == 1 && i.args[0].LabelName?
    ensures Clean(Emit(st, i)) && Stays(st, Emit(st, i))
  {
    hide Ssa, Clean, From, NoLoad, Stays, Emit;
    OtherNoLoad(st, i.args[0]);
    NoLoadFrom(st, i.args[0]);
    PlainClean(st, i);
  }

  lemma BranchClean(st: LState, c: Name, yes: nat, no: nat)
    requires Ssa(st) && Clean(st) && From(st, c)
    ensures Clean(Emit(st, Branch(st, c, yes, no)))
  {
    hide Ssa, Clean, From, NoLoad, Stays, Emit;
    var i := Branch(st, c, yes, no);
    forall a | a in i.args ensures From(st, a) {
      if a != c {
        OtherNoLoad(st, a);
        NoLoadFrom(st, a);
      }
    }
    PlainClean(st, i);
  }

  lemma NewBlockClean(st: LState, kind: string)
    requires Clean(st) && st.cur < |st.blocks|
    ensures Clean(NewBlock(st, kind)) && Stays(st, NewBlock(st, kind)) && NewBlock(st, kind).cur < |NewBlock(st, kind).blocks|
  {
    hide M.Tidy, F.Loaded, F.ArgsIn;
    EmptyBlock();
  }

  lemma EmptyBlock()
    ensures F.ArgsIn([]) == {} && forall n :: !F.Loaded([], n)
  {
  }

  lemma IfHeadClean(c: Expr, st: LState)
    requires Open(st) && Ssa(st) && Clean(st) && FitsExpr(c)
    ensures Clean(LowerIfHead(c, st))
  {
    hide Ssa, Clean, From, NoLoad, Stays, LowerExpr, Emit, NewBlock, FitsExpr;
    ExprSsa(c, st);
    ExprClean(c, st);
    ExprStraight(c, st);
    var cv := LowerExpr(c, st);
    StraightOpen(st, cv.st);
    var one := NewBlock(cv.st, "if.then.");
    var two := NewBlock(one, "if.else.");
    var made := NewBlock(two, "if.end.");
    NewBlockClean(cv.st, "if.then.");
    NewBlockSsa(cv.st, "if.then.");
    NewBlockClean(one, "if.else.");
    NewBlockSsa(one, "if.else.");
    NewBlockClean(two, "if.end.");
    NewBlockSsa(two, "if.end.");
    StaysThen(cv.st, one, two);
    StaysThen(cv.st, two, made);
    StaysFrom(cv.st, made, cv.name);
    BranchClean(made, cv.name, |cv.st.blocks|, |cv.st.blocks| + 1);
  }

  lemma EnterClean(st: LState, n: nat)
    requires Ssa(st) && Clean(st)
    ensures Clean(Close(st, n).(cur := n)) && forall x :: Issued(x, st.temps, st.slotCount) && NoLoad(st, x) ==> NoLoad(Close(st, n).(cur := n), x)
  {
    hide Ssa, Clean, From, Close, F.Loaded;
    CloseClean(st, n);
    SameClean(Close(st, n), Close(st, n).(cur := n));
  }

  lemma LoopEnteredClean(s: Stmt, limit: Name, st: LState)
    requires IsLoop(s) && Ssa(st) && Clean(st) && st.cur < |st.blocks| && (s.For? ==> NoLoad(st, limit) && Issued(limit, st.temps, st.slotCount))
    ensures Clean(LoopEntered(s, st)) && (s.For? ==> NoLoad(LoopEntered(s, st), limit))
  {
    hide Ssa, Clean, From, NoLoad, Stays, Close, NewBlock;
    var n := |st.blocks|;
    match s
    case While(_, _) =>
      var three := ThreeBlocks(st, "while.cond.", "while.body.", "while.end.");
      EnterClean(LoopBlocks(s, st), n);
    case For(_, _, _, _, _) =>
      var three := ThreeBlocks(st, "for.cond.", "for.body.", "for.step.");
      NewBlockClean(three, "for.end.");
      NewBlockSsa(three, "for.end.");
      StaysThen(st, three, NewBlock(three, "for.end."));
      StaysNoLoad(st, LoopBlocks(s, st), limit);
      StaysGrows(st, LoopBlocks(s, st));
      EnterClean(LoopBlocks(s, st), n);
    case Loop(_) =>
      NewBlockClean(st, "loop.body.");
      NewBlockSsa(st, "loop.body.");
      NewBlockClean(NewBlock(st, "loop.body."), "loop.end.");
      NewBlockSsa(NewBlock(st, "loop.body."), "loop.end.");
      EnterClean(LoopBlocks(s, st), n);
  }

  lemma ThreeBlocks(st: LState, a: string, b: string, c: string) returns (three: LState)
    requires Ssa(st) && Clean(st) && st.cur < |st.blocks|
    ensures three == NewBlock(NewBlock(NewBlock(st, a), b), c)
    ensures Ssa(three) && Clean(three) && Stays(st, three) && three.cur < |three.blocks|
  {
    hide Ssa, Clean, From, NoLoad, Stays, NewBlock;
    var one := NewBlock(st, a);
    var two := NewBlock(one, b);
    three := NewBlock(two, c);
    NewBlockClean(st, a);
    NewBlockSsa(st, a);
    NewBlockClean(one, b);
    NewBlockSsa(one, b);
    NewBlockClean(two, c);
    NewBlockSsa(two, c);
    StaysThen(st, one, two);
    StaysThen(st, two, three);
  }

  lemma HeadClean(s: Stmt, limit: Name, n: nat, st: LState)
    requires IsLoop(s) && FitsStmt(s) && Ssa(st) && Clean(st)
    requires s.For? ==> NoLoad(st, limit) && limit.Temp? && limit.n < st.temps
    ensures Clean(LowerHead(s, limit, n, st))
  {
    hide Ssa, Clean, From, NoLoad, Stays, LowerExpr, Emit, Fresh, C.Wide, FitsExpr;
    match s
    case While(c, _) =>
      ExprSsa(c, st);
      ExprClean(c, st);
      var cv := LowerExpr(c, st);
      BranchClean(cv.st, cv.name, BodyIndex(s, n), EndIndex(s, n));
    case For(x, inclusive, b, _, _) =>
      var slot := SlotOf(st, x);
      var op := if inclusive then "<=" else "<";
      SlotsIssued(st);
      OtherNoLoad(st, slot);
      NoLoadFrom(st, slot);
      FreshSsa(st, Load, b.ty, [slot], "");
      FreshClean(st, Load, b.ty, [slot], "");
      var current := Fresh(st, Load, b.ty, [slot], "");
      StaysNoLoad(st, current.st, limit);
      NoLoadFrom(current.st, limit);
      FreshSsa(current.st, Compare, b.ty, [current.name, limit], op);
      FreshClean(current.st, Compare, b.ty, [current.name, limit], op);
      var test := Fresh(current.st, Compare, b.ty, [current.name, limit], op);
      BranchClean(test.st, test.name, BodyIndex(s, n), EndIndex(s, n));
    case Loop(_) =>
  }

  /// The instructions of a step.
  lemma StepTidy(ty: Ty, was: Name, one: Name, next: Name)
    requires C.Wide(ty) && ty != BoolTy && was.Temp? && one.Temp? && next.Temp?
    ensures M.Tidy(Instr(ConstInt, Some(one), ty, [], "1", false)) && M.Tidy(Instr(Binary, Some(next), ty, [was, one], "+", false))
  {
    hide CR.ReadsAlike, CR.Literal;
    SmallLiterals();
  }

  /// The value a step stores.
  lemma NextClean(ty: Ty, slot: Name, at: LState)
    requires C.Wide(ty) && ty != BoolTy && Ssa(at) && Clean(at) && !slot.Temp? && Issued(slot, at.temps, at.slotCount)
    ensures var was := Fresh(at, Load, ty, [slot], "");
      var one := Fresh(was.st, ConstInt, ty, [], "1");
      var next := Fresh(one.st, Binary, ty, [was.name, one.name], "+");
      Ssa(next.st) && Clean(next.st) && From(next.st, next.name) && next.name.Temp? && Issued(next.name, next.st.temps, next.st.slotCount)
      && next.st.slotCount == at.slotCount && at.temps <= next.st.temps
  {
    hide Ssa, Clean, From, NoLoad, Stays, Fresh, C.Wide, M.Tidy;
    OtherNoLoad(at, slot);
    NoLoadFrom(at, slot);
    FreshSsa(at, Load, ty, [slot], "");
    LoadTidy(ty, Temp(at.temps), slot);
    FreshClean(at, Load, ty, [slot], "");
    var was := Fresh(at, Load, ty, [slot], "");
    StepTidy(ty, was.name, Temp(was.st.temps), Temp(was.st.temps + 1));
    FreshSsa(was.st, ConstInt, ty, [], "1");
    FreshClean(was.st, ConstInt, ty, [], "1");
    var one := Fresh(was.st, ConstInt, ty, [], "1");
    StaysFrom(was.st, one.st, was.name);
    FreshSsa(one.st, Binary, ty, [was.name, one.name], "+");
    FreshClean(one.st, Binary, ty, [was.name, one.name], "+");
  }

  lemma LoadTidy(ty: Ty, r: Name, slot: Name)
    requires r.Temp?
    ensures M.Tidy(Instr(Load, Some(r), ty, [slot], "", false))
  {
  }

  lemma StepClean(s: Stmt, slot: Name, n: nat, st: LState)
    requires IsLoop(s) && FitsStmt(s) && Ssa(st) && Clean(st) && (s.For? ==> !slot.Temp? && Issued(slot, st.temps, st.slotCount))
    ensures Clean(LowerStep(s, slot, n, st))
  {
    if s.For? {
      hide Ssa, Clean, From, NoLoad, Stays, Emit, Fresh, FitsExpr, C.Wide;
      var ty := s.begin.ty;
      var at := st.(cur := StepIndex(s, n));
      SlotsIssued(st);
      SameSsa(st, at);
      SameClean(st, at);
      NextClean(ty, slot, at);
      var was := Fresh(at, Load, ty, [slot], "");
      var one := Fresh(was.st, ConstInt, ty, [], "1");
      var next := Fresh(one.st, Binary, ty, [was.name, one.name], "+");
      StoreClean(next.st, ty, next.name, slot);
      PlainSsa(next.st, Instr(Store, None, ty, [next.name, slot], "", false));
      CloseClean(StoreTo(next.st, ty, next.name, slot), HeadIndex(s, n));
    }
  }

  lemma BinaryTidy(ty: Ty, op: string, r: Name, args: seq<Name>)
    requires C.Specified(Binary, ty, op) && !r.Slot?
    ensures M.Tidy(Instr(Binary, Some(r), ty, args, op, false))
  {
  }

  lemma AssignClean(s: Stmt, result: Ty, st: LState)
    requires s.Assign? && Ssa(st) && Clean(st) && FitsStmt(s)
    ensures Clean(LowerStmt(s, result, st))
  {
    hide Ssa, Clean, From, NoLoad, Stays, LowerAs, Fresh, Emit, C.Specified, FitsExpr;
    var address := SlotOf(st, s.name);
    var checked := CheckName(st, s.name);
    SlotsIssued(st);
    SameSsa(st, checked);
    SameClean(st, checked);
    AsSsa(s.value, s.ty, checked);
    AsClean(s.value, s.ty, checked);
    var v := LowerAs(s.value, s.ty, checked);
    if s.op.None? {
      StoreClean(v.st, s.ty, v.name, address);
    } else {
      OtherNoLoad(v.st, address);
      NoLoadFrom(v.st, address);
      FreshSsa(v.st, Load, s.ty, [address], "");
      FreshClean(v.st, Load, s.ty, [address], "");
      var was := Fresh(v.st, Load, s.ty, [address], "");
      StaysFrom(v.st, was.st, v.name);
      FreshSsa(was.st, Binary, s.ty, [was.name, v.name], s.op.value);
      BinaryTidy(s.ty, s.op.value, Temp(was.st.temps), [was.name, v.name]);
      FreshClean(was.st, Binary, s.ty, [was.name, v.name], s.op.value);
      var combined := Fresh(was.st, Binary, s.ty, [was.name, v.name], s.op.value);
      StoreClean(combined.st, s.ty, combined.name, address);
    }
  }

  lemma ReturnClean(e: Option<Expr>, result: Ty, st: LState)
    requires Ssa(st) && Clean(st) && (e.Some? ==> FitsExpr(e.value))
    ensures Clean(LowerStmt(Ret(e), result, st))
  {
    hide Ssa, Clean, From, NoLoad, Stays, LowerAs, Emit, FitsExpr;
    if e.None? {
      PlainClean(st, Instr(Return, None, UnitTy, [], "", false));
    } else {
      AsClean(e.value, result, st);
      var v := LowerAs(e.value, result, st);
      PlainClean(v.st, Instr(Return, None, result, [v.name], "", false));
    }
  }

  lemma LeaveClean(s: Stmt, result: Ty, st: LState)
    requires (s.Break? || s.Continue?) && Ssa(st) && Clean(st)
    ensures Clean(LowerStmt(s, result, st))
  {
    hide Ssa, Clean, Emit, Stays;
    if st.loops != [] {
      var t := st.loops[|st.loops| - 1];
      JumpClean(st, JumpTo(st, if s.Break? then t.1 else t.0));
    }
  }

  /// Lowering a statement keeps every load in its own block.
  lemma {:induction false} StmtClean(s: Stmt, result: Ty, st: LState)
    requires Open(st) && Ssa(st) && Clean(st) && FitsStmt(s)
    ensures Clean(LowerStmt(s, result, st))
    decreases s, 1
  {
    hide Ssa, Clean, From, NoLoad, Stays, LowerExpr, LowerAs, Bind, Emit, FitsExpr;
    match s
    case Let(x, ty, init) =>
      AsSsa(init, ty, st);
      AsClean(init, ty, st);
      var v := LowerAs(init, ty, st);
      BindClean(v.st, x, ty, v.name);
    case Assign(_, _, _, _) => AssignClean(s, result, st);
    case ExprStmt(e) => ExprClean(e, st);
    case Ret(e) => ReturnClean(e, result, st);
    case BlockStmt(body) => SeqClean(body, result, st);
    case If(_, _, _) => IfClean(s, result, st);
    case While(_, _) => LoopClean(s, Plain(""), result, st);
    case For(_, _, _, _, _) =>
      ForBoundSsa(s, st);
      ForBoundClean(s, st);
      var limit, bound := ForBound(s, st);
      LoopClean(s, limit, result, bound);
    case Loop(_) => LoopClean(s, Plain(""), result, st);
    case Break => LeaveClean(s, result, st);
    case Continue => LeaveClean(s, result, st);
  }

  /// The end of a `for` that is no bare variable is no load.
  lemma ForBoundClean(s: Stmt, st: LState)
    requires s.For? && FitsStmt(s) && Ssa(st) && Clean(st)
    ensures var from := LowerExpr(s.begin, st);
      var to := LowerExpr(s.end, from.st);
      var bound := Bind(to.st, s.name, s.begin.ty, from.name);
      Clean(bound) && NoLoad(bound, to.name)
  {
    hide Ssa, Clean, From, NoLoad, Stays, LowerExpr, Bind, FitsExpr;
    ExprSsa(s.begin, st);
    ExprClean(s.begin, st);
    var from := LowerExpr(s.begin, st);
    ExprSsa(s.end, from.st);
    ExprClean(s.end, from.st);
    var to := LowerExpr(s.end, from.st);
    StaysFrom(from.st, to.st, from.name);
    StaysGrows(from.st, to.st);
    BindClean(to.st, s.name, s.begin.ty, from.name);
    StaysNoLoad(to.st, Bind(to.st, s.name, s.begin.ty, from.name), to.name);
  }

  lemma {:induction false} SeqClean(ss: seq<Stmt>, result: Ty, st: LState)
    requires Ssa(st) && Clean(st) && st.cur < |st.blocks| && FitsSeq(ss)
    ensures Clean(LowerSeq(ss, result, st))
    decreases ss, 2
  {
    hide LowerStmt, Ssa, Clean, Extends, FitsStmt;
    if ss != [] && !Terminated(st) {
      StmtExtends(ss[0], result, st);
      ExtendsIn(st, LowerStmt(ss[0], result, st));
      StmtSsa(ss[0], result, st);
      StmtClean(ss[0], result, st);
      SeqClean(ss[1..], result, LowerStmt(ss[0], result, st));
    }
  }

  lemma {:induction false} IfClean(s: Stmt, result: Ty, st: LState)
    requires s.If? && Open(st) && Ssa(st) && Clean(st) && FitsStmt(s)
    ensures Clean(LowerStmt(s, result, st))
    decreases s, 0
  {
    hide LowerIfHead, Split, Extends, Ssa, Clean, Close, Stays, FitsExpr;
    var split := LowerIfHead(s.cond, st);
    var n := |st.blocks|;
    IfHeadSplit(s.cond, st);
    SplitSlots(st, split, {n, n + 1, n + 2}, 3);
    IfHeadSsa(s.cond, st);
    IfHeadClean(s.cond, st);
    var at := split.(cur := n);
    Moved(split, at);
    SameClean(split, at);
    SeqSsa(s.thn, result, at);
    SeqClean(s.thn, result, at);
    SeqExtends(s.thn, result, at);
    var yes0 := LowerSeq(s.thn, result, at);
    ExtendsIn(at, yes0);
    CloseSsa(yes0, n + 2);
    CloseClean(yes0, n + 2);
    CloseSize(yes0, n + 2);
    var yes := Close(yes0, n + 2);
    var at2 := yes.(cur := n + 1);
    Moved(yes, at2);
    SameClean(yes, at2);
    SeqSsa(s.els, result, at2);
    SeqClean(s.els, result, at2);
    var no0 := LowerSeq(s.els, result, at2);
    CloseClean(no0, n + 2);
    SameClean(Close(no0, n + 2), LowerStmt(s, result, st));
  }

  lemma {:induction false} LoopClean(s: Stmt, limit: Name, result: Ty, st: LState)
    requires IsLoop(s) && Open(st) && Ssa(st) && Clean(st) && FitsStmt(s)
    requires s.For? ==> limit.Temp? && limit.n < st.temps && NoLoad(st, limit)
    ensures Clean(LowerLoop(s, limit, result, st))
    decreases s, 0
  {
    hide LoopInside, LoopEntered, LowerHead, LowerStep, Split, Extends, Ssa, Clean, NoLoad, Close, Stays, FitsExpr;
    var n := |st.blocks|;
    var slot := if s.For? then SlotOf(st, s.name) else Plain("");
    var inside := LoopInside(s, limit, st);
    LoopInsideSplit(s, limit, st);
    SplitSlots(st, inside, StillEmpty(s, n), LoopCount(s));
    LoopEnteredSsa(s, st);
    LoopEnteredClean(s, limit, st);
    HeadSsa(s, limit, n, LoopEntered(s, st));
    HeadClean(s, limit, n, LoopEntered(s, st));
    InsideFrom(s, limit, st);
    Moved(LowerHead(s, limit, n, LoopEntered(s, st)), inside);
    SameClean(LowerHead(s, limit, n, LoopEntered(s, st)), inside);
    SeqSsa(s.body, result, inside);
    SeqClean(s.body, result, inside);
    SeqExtends(s.body, result, inside);
    var body := LowerSeq(s.body, result, inside);
    ExtendsIn(inside, body);
    var reset := body.(loops := st.loops);
    Moved(body, reset);
    SameClean(body, reset);
    CloseSsa(reset, StepIndex(s, n));
    CloseClean(reset, StepIndex(s, n));
    SlotsIssued(st);
    var closed := Close(reset, StepIndex(s, n));
    StepClean(s, slot, n, closed);
    SameClean(LowerStep(s, slot, n, closed), LowerLoop(s, limit, result, st));
  }

  // ---- functions ----

  lemma {:induction false} ParamsClean(params: seq<(string, Ty)>, st: LState)
    requires Open(st) && Sound(st) && Ssa(st) && Clean(st)
    ensures Clean(LowerParams(params, st))
    decreases |params|
  {
    hide Bind, Ssa, Clean, SoundBlock, Extends, Stays, NoLoad, From;
    if params != [] {
      var p := params[0];
      OtherNoLoad(st, Arg(p.0));
      NoLoadFrom(st, Arg(p.0));
      BindClean(st, p.0, p.1, Arg(p.0));
      BindSsa(st, p.0, p.1, Arg(p.0));
      BindExtends(st, p.0, p.1, Arg(p.0));
      BindSound(st, p.0, p.1, Arg(p.0));
      ParamsClean(params[1..], Bind(st, p.0, p.1, Arg(p.0)));
    }
  }

  lemma StartClean()
    ensures Clean(Start)
  {
  }

  /// For every function of fitting statements that lowers without an error, the
  /// result of a load is used in its own block only, and the folder reads every
  /// instruction right.
  lemma LoweredCodeIsLocal(f: Function)
    requires !LowerFunction(f).err && FitsSeq(f.body)
    ensures Clean(LowerFunction(f))
  {
    hide LowerParams, LowerSeq, Extends, Ssa, Clean, From, Stays;
    StartSound();
    StartSsa();
    StartClean();
    ParamsExtend(f.params, Start);
    ParamsSsa(f.params, Start);
    ParamsClean(f.params, Start);
    var ready := LowerParams(f.params, Start);
    SeqSsa(f.body, f.result, ready);
    SeqClean(f.body, f.result, ready);
    PlainClean(LowerSeq(f.body, f.result, ready), Instr(Return, None, UnitTy, [], "", false));
  }
}
