/// The lowering as the compiler runs it: a function state whose blocks,
/// counters and slot map are updated in place. Every method is the function of
/// the same step in `Lowering`, so the theorems about those hold of the result.

module MirLowerer {
  import opened Mir
  import opened SourceLang
  import L = Lowering
  import opened LoweringCorrect
  import opened LoweringSound
  import opened LoweringTheorem
  import opened LoweringShape

  class FnState {
    var blocks: seq<Block>
    var cur: nat
    var temps: nat
    var slotCount: nat
    var slots: map<string, Name>
    var loops: seq<(nat, nat)>
    var err: bool

    function State(): L.LState
      reads this
    {
      L.LState(blocks, cur, temps, slotCount, slots, loops, err)
    }

    constructor ()
      ensures State() == L.Start
    {
      blocks, cur, temps, slotCount, slots, loops, err := [Block(Entry, [], false)], 0, 0, 0, map[], [], false;
    }

    /// Dropped after a terminator.
    method Emit(i: Instr)
      modifies this`blocks
      ensures State() == L.Emit(old(State()), i)
    {
      if cur < |blocks| && !blocks[cur].terminated {
        blocks := blocks[cur := Block(blocks[cur].tag, blocks[cur].instrs + [i], IsTerminator(i.op))];
      }
    }

    method NewBlock(kind: string) returns (i: nat)
      modifies this`blocks
      ensures State() == L.NewBlock(old(State()), kind) && i == old(|blocks|)
    {
      i := |blocks|;
      blocks := blocks + [Block(Numbered(kind, i), [], false)];
    }

    method NewTemp() returns (r: Name)
      modifies this`temps
      ensures r == Temp(old(temps)) && State() == old(State()).(temps := old(temps) + 1)
    {
      r := Temp(temps);
      temps := temps + 1;
    }

    /// A value instruction into a fresh temporary.
    method Fresh(op: Op, ty: Ty, args: seq<Name>, text: string) returns (r: Name)
      modifies this`blocks, this`temps
      ensures L.Lowered(r, State()) == L.Fresh(old(State()), op, ty, args, text)
    {
      r := NewTemp();
      Emit(Instr(op, Some(r), ty, args, text, false));
    }

    method Coerce(v: Name, from: Ty, to: Ty) returns (r: Name)
      modifies this`blocks, this`temps
      ensures L.Lowered(r, State()) == L.Coerce(old(State()), v, from, to)
    {
      r := v;
      if Converts(from, to) { r := Fresh(Cast, to, [v], Spell(from)); }
    }

    /// The storage of a name; a name without any is an internal error.
    method LowerName(x: string) returns (address: Name)
      modifies this`err
      ensures address == L.SlotOf(old(State()), x) && State() == L.CheckName(old(State()), x)
    {
      if x in slots {
        address := slots[x];
      } else {
        err := true;
        address := Plain("null");
      }
    }

    method LowerExpr(e: Expr) returns (r: Name)
      modifies this
      ensures L.Lowered(r, State()) == L.LowerExpr(e, old(State()))
      decreases e
    {
      hide L.Fresh, L.LowerUnary, L.LowerBin;
      match e
      case IntLit(ty, text) => r := Fresh(ConstInt, ty, [], text);
      case BoolLit(ty, b) => r := Fresh(ConstBool, ty, [], if b then "1" else "0");
      case Var(x, ty) =>
        var address := LowerName(x);
        r := Fresh(Load, ty, [address], "");
      case Unary(op, ty, x) =>
        var v := LowerExpr(x);
        r := LowerUnary(op, ty, x.ty, v);
      case Bin(op, ty, lhs, rhs) =>
        var a := LowerExpr(lhs);
        var b := LowerExpr(rhs);
        r := LowerBin(BinKind(op), op, BinTy(op, lhs.ty, ty), lhs.ty, rhs.ty, a, b);
    }

    method LowerUnary(op: string, ty: Ty, from: Ty, v: Name) returns (r: Name)
      modifies this
      ensures L.Lowered(r, State()) == L.LowerUnary(op, ty, from, L.Lowered(v, old(State())))
    {
      hide L.CastTo, L.Apply1;
      r := NewTemp();
      var zero := NewTemp();
      var operand := CastTo(v, from, ty);
      Apply1(op, ty, r, zero, operand);
    }

    method CastTo(v: Name, from: Ty, ty: Ty) returns (r: Name)
      modifies this`blocks, this`temps
      ensures L.Lowered(r, State()) == L.CastTo(old(State()), v, from, ty)
    {
      hide L.Fresh;
      r := v;
      if from != ty { r := Fresh(Cast, ty, [v], Spell(from)); }
    }

    method Apply1(op: string, ty: Ty, r: Name, zero: Name, operand: Name)
      modifies this`blocks
      ensures State() == L.Apply1(op, ty, r, zero, L.Lowered(operand, old(State())))
    {
      hide L.Emit;
      if op == "-" {
        Emit(Instr(ConstInt, Some(zero), ty, [], "0", false));
        Emit(Instr(Binary, Some(r), ty, [zero, operand], "-", false));
      } else {
        Emit(Instr(Binary, Some(r), ty, [operand], op, false));
      }
    }

    method LowerBin(kind: Op, op: string, to: Ty, left: Ty, right: Ty, a: Name, b: Name) returns (r: Name)
      modifies this
      ensures L.Lowered(r, State()) == L.LowerBin(kind, op, to, left, right, a, L.Lowered(b, old(State())))
    {
      hide L.Coerce, L.Emit;
      r := NewTemp();
      var a' := Coerce(a, left, to);
      var b' := Coerce(b, right, to);
      Emit(Instr(kind, Some(r), to, [a', b'], op, false));
    }

    method LowerAs(e: Expr, to: Ty) returns (r: Name)
      modifies this
      ensures L.Lowered(r, State()) == L.LowerAs(e, to, old(State()))
    {
      r := LowerExpr(e);
      r := Coerce(r, e.ty, to);
    }

    method StoreTo(ty: Ty, v: Name, address: Name)
      modifies this`blocks
      ensures State() == L.StoreTo(old(State()), ty, v, address)
    {
      Emit(Instr(Store, None, ty, [v, address], "", false));
    }

    /// A fresh slot for `x`, holding `v`.
    method Bind(x: string, ty: Ty, v: Name)
      modifies this
      ensures State() == L.Bind(old(State()), x, ty, v)
    {
      var sl := Slot(x, slotCount);
      slotCount := slotCount + 1;
      slots := slots[x := sl];
      Emit(Instr(Alloca, Some(sl), ty, [], "", false));
      StoreTo(ty, v, sl);
    }

    method Close(target: nat)
      modifies this`blocks
      ensures State() == L.Close(old(State()), target)
    {
      if cur < |blocks| && !blocks[cur].terminated { Emit(L.JumpTo(State(), target)); }
    }

    method LowerStmt(s: Stmt, result: Ty)
      modifies this
      ensures State() == L.LowerStmt(s, result, old(State()))
      decreases s, 1
    {
      hide L.Emit, L.Fresh, L.Bind, L.LowerExpr, L.LowerAs, L.LowerIfHead, L.LowerLoop;
      match s
      case Let(x, ty, init) =>
        var v := LowerAs(init, ty);
        Bind(x, ty, v);
      case Assign(x, ty, op, value) =>
        var address := LowerName(x);
        var v := LowerAs(value, ty);
        if op.Some? {
          var was := Fresh(Load, ty, [address], "");
          v := Fresh(Binary, ty, [was, v], op.value);
        }
        StoreTo(ty, v, address);
      case ExprStmt(e) => var v := LowerExpr(e);
      case Ret(e) =>
        if e.Some? {
          var v := LowerAs(e.value, result);
          Emit(Instr(Return, None, result, [v], "", false));
        } else {
          Emit(Instr(Return, None, UnitTy, [], "", false));
        }
      case BlockStmt(body) => LowerBlock(body, result);
      case If(_, _, _) => LowerIf(s, result);
      case While(_, _) => LowerLoop(s, Plain(""), result);
      case For(x, _, b, e, _) =>
        var from := LowerExpr(b);
        var limit := LowerExpr(e);
        Bind(x, b.ty, from);
        LowerLoop(s, limit, result);
      case Loop(_) => LowerLoop(s, Plain(""), result);
      case Break => if loops != [] { Emit(L.JumpTo(State(), loops[|loops| - 1].1)); }
      case Continue => if loops != [] { Emit(L.JumpTo(State(), loops[|loops| - 1].0)); }
    }

    /// Stops at the first terminator.
    method LowerBlock(body: seq<Stmt>, result: Ty)
      modifies this
      ensures State() == L.LowerSeq(body, result, old(State()))
      decreases body, 2
    {
      hide L.LowerStmt;
      var i := 0;
      while i < |body| && !L.Terminated(State())
        invariant i <= |body|
        invariant L.LowerSeq(body[i..], result, State()) == L.LowerSeq(body, result, old(State()))
      {
        ghost var before := State();
        assert body[i] in body;
        LowerStmt(body[i], result);
        assert body[i..][0] == body[i] && body[i..][1..] == body[i + 1..];
        i := i + 1;
      }
    }

    /// The condition, the three blocks and the branch of an `if`.
    method LowerIfHead(cond: Expr) returns (yes: nat, no: nat, end: nat)
      modifies this
      ensures State() == L.LowerIfHead(cond, old(State()))
      ensures |blocks| >= 3 && yes == |blocks| - 3 && no == yes + 1 && end == yes + 2
    {
      hide L.LowerExpr;
      var c := LowerExpr(cond);
      yes := NewBlock("if.then.");
      no := NewBlock("if.else.");
      end := NewBlock("if.end.");
      Emit(L.Branch(State(), c, yes, no));
    }

    method LowerIf(s: Stmt, result: Ty)
      requires s.If?
      modifies this
      ensures State() == L.LowerStmt(s, result, old(State()))
      decreases s, 0
    {
      hide L.LowerIfHead, L.LowerSeq, L.Close;
      var yes, no, end := LowerIfHead(s.cond);
      cur := yes;
      LowerBlock(s.thn, result);
      Close(end);
      cur := no;
      LowerBlock(s.els, result);
      Close(end);
      cur := end;
    }

    /// The blocks of a loop in the order in which each kind makes them.
    method LoopBlocks(s: Stmt) returns (first: nat)
      requires IsLoop(s)
      modifies this`blocks
      ensures State() == L.LoopBlocks(s, old(State())) && first == old(|blocks|)
    {
      hide L.NewBlock;
      if s.While? {
        first := NewBlock("while.cond.");
        var body := NewBlock("while.body.");
        var end := NewBlock("while.end.");
      } else if s.For? {
        first := NewBlock("for.cond.");
        var body := NewBlock("for.body.");
        var step := NewBlock("for.step.");
        var end := NewBlock("for.end.");
      } else {
        first := NewBlock("loop.body.");
        var end := NewBlock("loop.end.");
      }
    }

    /// The test at the head of a loop.
    method LowerHead(s: Stmt, limit: Name, n: nat)
      requires IsLoop(s)
      modifies this
      ensures State() == L.LowerHead(s, limit, n, old(State()))
    {
      hide L.Emit, L.Fresh, L.LowerExpr;
      match s
      case While(c, _) =>
        var test := LowerExpr(c);
        Emit(L.Branch(State(), test, L.BodyIndex(s, n), L.EndIndex(s, n)));
      case For(x, inclusive, b, _, _) =>
        var current := Fresh(Load, b.ty, [L.SlotOf(State(), x)], "");
        var test := Fresh(Compare, b.ty, [current, limit], if inclusive then "<=" else "<");
        Emit(L.Branch(State(), test, L.BodyIndex(s, n), L.EndIndex(s, n)));
      case Loop(_) =>
    }

    method LowerLoop(s: Stmt, limit: Name, result: Ty)
      requires IsLoop(s)
      modifies this
      ensures State() == L.LowerLoop(s, limit, result, old(State()))
      decreases s, 0
    {
      hide L.LowerSeq, L.Close, L.LowerHead, L.LoopBlocks, L.LowerStep;
      ghost var st := State();
      var slot := if s.For? then L.SlotOf(State(), s.name) else Plain("");
      var outer := loops;
      var n := LoopBlocks(s);
      Close(L.HeadIndex(s, n));
      cur := L.HeadIndex(s, n);
      LowerHead(s, limit, n);
      cur := L.BodyIndex(s, n);
      loops := outer + [(L.StepIndex(s, n), L.EndIndex(s, n))];
      assert State() == L.LoopInside(s, limit, st);
      hide L.LoopInside;
      LowerBlock(s.body, result);
      loops := outer;
      Close(L.StepIndex(s, n));
      if s.For? {
        LowerStep(s, slot, n);
      } else {
        NoStep(s, slot, n, State());
      }
      cur := L.EndIndex(s, n);
    }

    /// The step of a `for`: load, add one, store, and back to the head.
    method LowerStep(s: Stmt, slot: Name, n: nat)
      requires s.For?
      modifies this
      ensures State() == L.LowerStep(s, slot, n, old(State()))
    {
      hide L.Close, L.Fresh;
      cur := L.StepIndex(s, n);
      var was := Fresh(Load, s.begin.ty, [slot], "");
      var one := Fresh(ConstInt, s.begin.ty, [], "1");
      var next := Fresh(Binary, s.begin.ty, [was, one], "+");
      StoreTo(s.begin.ty, next, slot);
      Close(L.HeadIndex(s, n));
    }

    /// A whole function, on a fresh state. Without an error the graph is well
    /// formed and means what the source means.
    method LowerFunction(f: Function)
      requires State() == L.Start
      modifies this
      ensures State() == L.LowerFunction(f)
      ensures !err ==> DistinctLabels(blocks) && forall i :: 0 <= i < |blocks| ==> blocks[i].terminated && SoundBlock(blocks[i], blocks)
      ensures !err && ClearSeq(f.body, {}, false) ==>
        forall w: World, args: map<string, Value>, c: Config, v :: Applied(f, args, c) ==>
          (SourceReturns(w, f, args, v) <==> CodeReturns(w, blocks, c, v))
    {
      var i := 0;
      while i < |f.params|
        invariant i <= |f.params|
        invariant L.LowerParams(f.params[i..], State()) == L.LowerParams(f.params, L.Start)
      {
        assert f.params[i..][0] == f.params[i] && f.params[i..][1..] == f.params[i + 1..];
        Bind(f.params[i].0, f.params[i].1, Arg(f.params[i].0));
        i := i + 1;
      }
      hide L.LowerSeq, L.LowerParams, SoundBlock, ClearSeq, SourceReturns, CodeReturns, Applied;
      LowerBlock(f.body, f.result);
      if !L.Terminated(State()) {
        if f.result == UnitTy {
          Emit(Instr(Return, None, UnitTy, [], "", false));
        } else {
          err := true;
        }
      }
      hide L.LowerFunction;
      if !err { FunctionMeans(f); }
    }
  }

  /// The lowered function, without an error.
  lemma FunctionMeans(f: Function)
    requires !L.LowerFunction(f).err
    ensures var blocks := L.LowerFunction(f).blocks;
      && DistinctLabels(blocks)
      && (forall i :: 0 <= i < |blocks| ==> blocks[i].terminated && SoundBlock(blocks[i], blocks))
      && (ClearSeq(f.body, {}, false) ==>
           forall w: World, args: map<string, Value>, c: Config, v :: Applied(f, args, c) ==>
             (SourceReturns(w, f, args, v) <==> CodeReturns(w, blocks, c, v)))
  {
    hide L.LowerFunction, ClearSeq, SourceReturns, CodeReturns, Applied, SoundBlock;
    var blocks := L.LowerFunction(f).blocks;
    GraphIsWellFormed(f);
    if ClearSeq(f.body, {}, false) {
      forall w: World, args: map<string, Value>, c: Config, v | Applied(f, args, c)
        ensures SourceReturns(w, f, args, v) <==> CodeReturns(w, blocks, c, v)
      {
        LoweringPreservesMeaning(w, f, args, c);
      }
    }
  }
}
