/// The shape of what lowering produces: which blocks a statement may touch,
/// that every block it leaves behind has ended, and in what. `Straight` says
/// that code was appended to the current block alone, `Extends` that ended
/// blocks stayed as they were and new ones came at the end; both hold for any
/// later step, so a block once ended reads the same in the finished function.
/// Nothing here speaks of runs.

module LoweringShape {
  import opened Mir
  import opened SourceLang
  import opened Lowering

  /// A later version of a block: same label, more instructions, frozen once ended.
  ghost predicate Continues(a: Block, b: Block) {
    a.tag == b.tag && a.instrs <= b.instrs && (a.terminated ==> a == b)
  }

  ghost predicate Grows(a: seq<Block>, b: seq<Block>) {
    |a| <= |b| && forall i :: 0 <= i < |a| ==> Continues(a[i], b[i])
  }

  lemma GrowsTransitive(a: seq<Block>, b: seq<Block>, c: seq<Block>)
    requires Grows(a, b) && Grows(b, c)
    ensures Grows(a, c)
  {
    forall i | 0 <= i < |a| ensures Continues(a[i], c[i]) {
      assert Continues(a[i], b[i]) && Continues(b[i], c[i]);
    }
  }

  /// There is a current block and it is still open.
  ghost predicate Open(st: LState) { st.cur < |st.blocks| && !st.blocks[st.cur].terminated }

  /// From `a` to `b` only the current block of `a` and new blocks changed;
  /// every new block but the current one has ended.
  ghost predicate Extends(a: LState, b: LState) {
    && a.cur < |a.blocks| <= |b.blocks| && b.cur < |b.blocks|
    && a.temps <= b.temps && a.slotCount <= b.slotCount && a.loops == b.loops && (a.err ==> b.err)
    && (forall i :: 0 <= i < |a.blocks| && i != a.cur ==> b.blocks[i] == a.blocks[i])
    && Continues(a.blocks[a.cur], b.blocks[a.cur])
    && (b.cur == a.cur || (b.cur >= |a.blocks| && b.blocks[a.cur].terminated))
    && (forall i :: |a.blocks| <= i < |b.blocks| && i != b.cur ==> b.blocks[i].terminated)
    && (forall i :: |a.blocks| <= i < |b.blocks| ==> b.blocks[i].tag.Numbered? && b.blocks[i].tag.index == i)
  }

  lemma ExtendsTransitive(a: LState, b: LState, c: LState)
    requires Extends(a, b) && Extends(b, c)
    ensures Extends(a, c)
  {
    assert Continues(a.blocks[a.cur], c.blocks[a.cur]);
  }

  lemma ExtendsGrows(a: LState, b: LState)
    requires Extends(a, b)
    ensures Grows(a.blocks, b.blocks)
  {
  }

  lemma EmitExtends(st: LState, i: Instr)
    requires st.cur < |st.blocks|
    ensures Extends(st, Emit(st, i))
    ensures Open(st) && !IsTerminator(i.op) ==> Open(Emit(st, i))
    ensures IsTerminator(i.op) ==> Terminated(Emit(st, i))
  {
  }

  // ---- expressions: straight-line code ----

  /// From `a` to `b` the current block got more instructions, none a terminator.
  ghost predicate Straight(a: LState, b: LState) {
    && Open(a) && a.temps <= b.temps && (a.err ==> b.err)
    && b == a.(blocks := b.blocks, temps := b.temps, err := b.err)
    && |b.blocks| == |a.blocks|
    && (forall i :: 0 <= i < |a.blocks| && i != a.cur ==> b.blocks[i] == a.blocks[i])
    && Open(b) && b.blocks[a.cur].tag == a.blocks[a.cur].tag
    && a.blocks[a.cur].instrs <= b.blocks[a.cur].instrs
    && (forall i :: i in Code(a, b) ==> !IsTerminator(i.op))
  }

  /// The instructions between `a` and `b`.
  ghost function Code(a: LState, b: LState): seq<Instr>
    requires a.cur == b.cur < |a.blocks| && |a.blocks| == |b.blocks| && a.blocks[a.cur].instrs <= b.blocks[a.cur].instrs
  {
    b.blocks[a.cur].instrs[|a.blocks[a.cur].instrs|..]
  }

  lemma StraightTransitive(a: LState, b: LState, c: LState)
    requires Straight(a, b) && Straight(b, c)
    ensures Straight(a, c) && Code(a, c) == Code(a, b) + Code(b, c)
  {
    assert Code(a, c) == Code(a, b) + Code(b, c);
  }

  lemma StraightExtends(a: LState, b: LState)
    requires Straight(a, b)
    ensures Extends(a, b)
  {
  }

  lemma EmitStraight(st: LState, i: Instr)
    requires Open(st) && !IsTerminator(i.op)
    ensures Straight(st, Emit(st, i)) && Code(st, Emit(st, i)) == [i]
  {
    assert Code(st, Emit(st, i)) == [i];
  }

  lemma FreshStraight(st: LState, op: Op, ty: Ty, args: seq<Name>, text: string)
    requires Open(st) && !IsTerminator(op)
    ensures Straight(st, Fresh(st, op, ty, args, text).st)
    ensures Code(st, Fresh(st, op, ty, args, text).st) == [Instr(op, Some(Temp(st.temps)), ty, args, text, false)]
  {
    EmitStraight(st.(temps := st.temps + 1), Instr(op, Some(Temp(st.temps)), ty, args, text, false));
  }

  lemma CoerceStraight(st: LState, v: Name, from: Ty, to: Ty)
    requires Open(st)
    ensures Straight(st, Coerce(st, v, from, to).st)
  {
    if Converts(from, to) { FreshStraight(st, Cast, to, [v], Spell(from)); }
  }

  lemma CastStraight(st: LState, v: Name, from: Ty, ty: Ty)
    requires Open(st)
    ensures Straight(st, CastTo(st, v, from, ty).st)
  {
    if from != ty { FreshStraight(st, Cast, ty, [v], Spell(from)); }
  }

  lemma Apply1Straight(op: string, ty: Ty, r: Name, zero: Name, operand: Lowered)
    requires Open(operand.st)
    ensures Straight(operand.st, Apply1(op, ty, r, zero, operand))
  {
    hide Straight, Emit, Code;
    if op == "-" {
      var zeroed := Instr(ConstInt, Some(zero), ty, [], "0", false);
      EmitStraight(operand.st, zeroed);
      var z := Emit(operand.st, zeroed);
      StraightOpen(operand.st, z);
      var minus := Instr(Binary, Some(r), ty, [zero, operand.name], "-", false);
      EmitStraight(z, minus);
      StraightTransitive(operand.st, z, Emit(z, minus));
    } else {
      EmitStraight(operand.st, Instr(Binary, Some(r), ty, [operand.name], op, false));
    }
  }

  lemma UnaryStraight(op: string, ty: Ty, from: Ty, v: Lowered)
    requires Open(v.st)
    ensures Straight(v.st, LowerUnary(op, ty, from, v).st)
  {
    hide Straight, Emit, Fresh, CastTo, Apply1, Code;
    var taken := v.st.(temps := v.st.temps + 2);
    TakeStraight(v.st, 2);
    StraightOpen(v.st, taken);
    CastStraight(taken, v.name, from, ty);
    var operand := CastTo(taken, v.name, from, ty);
    StraightTransitive(v.st, taken, operand.st);
    StraightOpen(v.st, operand.st);
    Apply1Straight(op, ty, Temp(v.st.temps), Temp(v.st.temps + 1), operand);
    StraightTransitive(v.st, operand.st, LowerUnary(op, ty, from, v).st);
  }

  lemma BinStraight(kind: Op, op: string, to: Ty, left: Ty, right: Ty, a: Name, b: Lowered)
    requires Open(b.st) && !IsTerminator(kind)
    ensures Straight(b.st, LowerBin(kind, op, to, left, right, a, b).st)
  {
    hide Straight, Emit, Fresh, Coerce, Code, Open;
    var taken := b.st.(temps := b.st.temps + 1);
    TakeStraight(b.st, 1);
    StraightOpen(b.st, taken);
    CoerceStraight(taken, a, left, to);
    var a' := Coerce(taken, a, left, to);
    StraightTransitive(b.st, taken, a'.st);
    StraightOpen(b.st, a'.st);
    CoerceStraight(a'.st, b.name, right, to);
    var b' := Coerce(a'.st, b.name, right, to);
    StraightTransitive(b.st, a'.st, b'.st);
    StraightOpen(b.st, b'.st);
    var i := Instr(kind, Some(Temp(b.st.temps)), to, [a'.name, b'.name], op, false);
    EmitStraight(b'.st, i);
    StraightTransitive(b.st, b'.st, Emit(b'.st, i));
  }

  lemma {:induction false} ExprStraight(e: Expr, st: LState)
    requires Open(st)
    ensures Straight(st, LowerExpr(e, st).st)
    decreases e
  {
    hide Straight, Emit, Fresh, LowerUnary, LowerBin, Code, BinTy, IsComparison;
    match e
    case IntLit(ty, text) => FreshStraight(st, ConstInt, ty, [], text);
    case BoolLit(ty, b) => FreshStraight(st, ConstBool, ty, [], if b then "1" else "0");
    case Var(x, ty) =>
      CheckStraight(st, x);
      FreshStraight(CheckName(st, x), Load, ty, [SlotOf(st, x)], "");
      StraightTransitive(st, CheckName(st, x), LowerExpr(e, st).st);
    case Unary(op, ty, x) =>
      ExprStraight(x, st);
      var v := LowerExpr(x, st);
      StraightOpen(st, v.st);
      UnaryStraight(op, ty, x.ty, v);
      StraightTransitive(st, v.st, LowerExpr(e, st).st);
    case Bin(op, ty, l, r) =>
      ExprStraight(l, st);
      var a := LowerExpr(l, st);
      StraightOpen(st, a.st);
      ExprStraight(r, a.st);
      var b := LowerExpr(r, a.st);
      StraightTransitive(st, a.st, b.st);
      StraightOpen(st, b.st);
      BinStraight(BinKind(op), op, BinTy(op, l.ty, ty), l.ty, r.ty, a.name, b);
      StraightTransitive(st, b.st, LowerExpr(e, st).st);
  }

  lemma TakeStraight(st: LState, n: nat)
    requires Open(st)
    ensures Straight(st, st.(temps := st.temps + n)) && Code(st, st.(temps := st.temps + n)) == []
  {
  }

  lemma CheckStraight(st: LState, x: string)
    requires Open(st)
    ensures Straight(st, CheckName(st, x)) && Code(st, CheckName(st, x)) == []
  {
  }

  lemma StraightOpen(a: LState, b: LState)
    requires Straight(a, b)
    ensures Open(a) && Open(b)
  {
  }

  lemma AsStraight(e: Expr, to: Ty, st: LState)
    requires Open(st)
    ensures Straight(st, LowerAs(e, to, st).st)
  {
    hide Straight, LowerExpr, Coerce;
    ExprStraight(e, st);
    var v := LowerExpr(e, st);
    StraightOpen(st, v.st);
    CoerceStraight(v.st, v.name, e.ty, to);
    StraightTransitive(st, v.st, LowerAs(e, to, st).st);
  }

  // ---- statements ----

  /// Names bound anywhere in a statement.
  function Bound(s: Stmt): set<string>
    decreases s
  {
    match s
    case Let(x, _, _) => {x}
    case BlockStmt(body) => BoundSeq(body)
    case If(_, thn, els) => BoundSeq(thn) + BoundSeq(els)
    case While(_, body) => BoundSeq(body)
    case For(x, _, _, _, body) => {x} + BoundSeq(body)
    case Loop(body) => BoundSeq(body)
    case _ => {}
  }

  function BoundSeq(ss: seq<Stmt>): set<string>
    decreases ss
  {
    if ss == [] then {} else Bound(ss[0]) + BoundSeq(ss[1..])
  }

  /// Only names in `bound` may have moved to another slot.
  ghost predicate SlotsKept(a: LState, b: LState, bound: set<string>) {
    && (forall x :: x !in bound ==> (x in b.slots <==> x in a.slots))
    && (forall x :: x !in bound && x in a.slots ==> b.slots[x] == a.slots[x])
  }

  /// A block that has just been made.
  ghost predicate Empty(b: Block, i: nat) { b.tag.Numbered? && b.tag.index == i && b.instrs == [] && !b.terminated }

  /// `b` is `a` with its current block ended and `count` new blocks, of which
  /// the ones in `open` are still empty and the others have ended.
  ghost predicate Split(a: LState, b: LState, open: set<nat>, count: nat) {
    && a.cur < |a.blocks| && |b.blocks| == |a.blocks| + count
    && a.temps <= b.temps && a.slotCount == b.slotCount && a.slots == b.slots && (a.err ==> b.err)
    && (forall i :: 0 <= i < |a.blocks| && i != a.cur ==> b.blocks[i] == a.blocks[i])
    && Continues(a.blocks[a.cur], b.blocks[a.cur]) && b.blocks[a.cur].terminated
    && (forall i :: |a.blocks| <= i < |b.blocks| ==> b.blocks[i].tag.Numbered? && b.blocks[i].tag.index == i)
    && (forall i :: |a.blocks| <= i < |b.blocks| && i in open ==> Empty(b.blocks[i], i))
    && (forall i :: |a.blocks| <= i < |b.blocks| && i !in open ==> b.blocks[i].terminated)
  }

  lemma IfHeadSplit(c: Expr, st: LState)
    requires Open(st)
    ensures Split(st, LowerIfHead(c, st), {|st.blocks|, |st.blocks| + 1, |st.blocks| + 2}, 3)
    ensures LowerIfHead(c, st).loops == st.loops
  {
    hide LowerExpr;
    ExprStraight(c, st);
  }

  lemma {:induction false} HeadStraight(s: Stmt, limit: Name, n: nat, st: LState)
    requires IsLoop(s) && Open(st) && st.cur == HeadIndex(s, n)
    ensures s.Loop? ==> LowerHead(s, limit, n, st) == st
    ensures !s.Loop? ==> Terminated(LowerHead(s, limit, n, st))
    ensures Extends(st, LowerHead(s, limit, n, st))
    ensures var h := LowerHead(s, limit, n, st);
      h.cur == st.cur && h.slots == st.slots && h.slotCount == st.slotCount && |h.blocks| == |st.blocks|
  {
    hide LowerExpr, Fresh, Straight;
    match s
    case While(c, _) =>
      ExprStraight(c, st);
      StraightEnds(st, LowerExpr(c, st).st, Branch(LowerExpr(c, st).st, LowerExpr(c, st).name, BodyIndex(s, n), EndIndex(s, n)));
    case For(x, inclusive, b, _, _) =>
      FreshStraight(st, Load, b.ty, [SlotOf(st, x)], "");
      var current := Fresh(st, Load, b.ty, [SlotOf(st, x)], "");
      StraightOpen(st, current.st);
      var op := if inclusive then "<=" else "<";
      FreshStraight(current.st, Compare, b.ty, [current.name, limit], op);
      var test := Fresh(current.st, Compare, b.ty, [current.name, limit], op);
      StraightTransitive(st, current.st, test.st);
      StraightEnds(st, test.st, Branch(test.st, test.name, BodyIndex(s, n), EndIndex(s, n)));
    case Loop(_) =>
  }

  lemma StraightEnds(a: LState, b: LState, i: Instr)
    requires Straight(a, b)
    ensures Extends(a, Emit(b, i))
    ensures IsTerminator(i.op) ==> Terminated(Emit(b, i))
    ensures var h := Emit(b, i);
      h.cur == a.cur && h.slots == a.slots && h.slotCount == a.slotCount && |h.blocks| == |a.blocks|
  {
  }

  /// The blocks of a loop that are still empty when its body is about to be lowered.
  function StillEmpty(s: Stmt, n: nat): set<nat>
    requires IsLoop(s)
  {
    if s.For? then {n + 1, n + 2, n + 3} else if s.While? then {n + 1, n + 2} else {n, n + 1}
  }

  function LoopCount(s: Stmt): nat
    requires IsLoop(s)
  {
    if s.For? then 4 else if s.While? then 3 else 2
  }

  /// New blocks are appended empty, whatever their kind.
  lemma MakeBlock(a: LState, b: LState, kind: string)
    requires a.cur < |a.blocks| <= |b.blocks| && b == a.(blocks := b.blocks)
    requires forall i :: 0 <= i < |a.blocks| ==> b.blocks[i] == a.blocks[i]
    requires forall i :: |a.blocks| <= i < |b.blocks| ==> Empty(b.blocks[i], i)
    ensures var c := NewBlock(b, kind);
      && |c.blocks| == |b.blocks| + 1 && c == a.(blocks := c.blocks)
      && (forall i :: 0 <= i < |a.blocks| ==> c.blocks[i] == a.blocks[i])
      && (forall i :: |a.blocks| <= i < |c.blocks| ==> Empty(c.blocks[i], i))
  {
  }

  lemma LoopBlocksMade(s: Stmt, st: LState)
    requires IsLoop(s) && Open(st)
    ensures var c := LoopBlocks(s, st);
      && |c.blocks| == |st.blocks| + LoopCount(s) && c == st.(blocks := c.blocks)
      && (forall i :: 0 <= i < |st.blocks| ==> c.blocks[i] == st.blocks[i])
      && (forall i :: |st.blocks| <= i < |c.blocks| ==> Empty(c.blocks[i], i))
  {
    hide NewBlock, Empty;
    match s
    case While(_, _) =>
      MakeBlock(st, st, "while.cond.");
      MakeBlock(st, NewBlock(st, "while.cond."), "while.body.");
      MakeBlock(st, NewBlock(NewBlock(st, "while.cond."), "while.body."), "while.end.");
    case For(_, _, _, _, _) =>
      MakeBlock(st, st, "for.cond.");
      MakeBlock(st, NewBlock(st, "for.cond."), "for.body.");
      MakeBlock(st, NewBlock(NewBlock(st, "for.cond."), "for.body."), "for.step.");
      MakeBlock(st, NewBlock(NewBlock(NewBlock(st, "for.cond."), "for.body."), "for.step."), "for.end.");
    case Loop(_) =>
      MakeBlock(st, st, "loop.body.");
      MakeBlock(st, NewBlock(st, "loop.body."), "loop.end.");
  }

  lemma LoopEnteredSplit(s: Stmt, st: LState)
    requires IsLoop(s) && Open(st)
    ensures Split(st, LoopEntered(s, st), StillEmpty(s, |st.blocks|) + {|st.blocks|}, LoopCount(s))
    ensures LoopEntered(s, st).cur == |st.blocks| && LoopEntered(s, st).loops == st.loops
  {
    hide LoopBlocks;
    LoopBlocksMade(s, st);
    var made := LoopBlocks(s, st);
    var all := StillEmpty(s, |st.blocks|) + {|st.blocks|};
    forall i | |st.blocks| <= i < |made.blocks| ensures i in all && Empty(made.blocks[i], i) {
    }
  }

  lemma SplitHead(st: LState, a: LState, b: LState, open: set<nat>, count: nat)
    requires Split(st, a, open + {|st.blocks|}, count) && a.cur == |st.blocks| && count > 0
    requires Extends(a, b) && b.cur == a.cur && Terminated(b) && |b.blocks| == |a.blocks|
    requires b.slots == a.slots && b.slotCount == a.slotCount && |st.blocks| !in open
    ensures Split(st, b, open, count)
  {
  }

  lemma LoopInsideSplit(s: Stmt, limit: Name, st: LState)
    requires IsLoop(s) && Open(st)
    ensures Split(st, LoopInside(s, limit, st), StillEmpty(s, |st.blocks|), LoopCount(s))
    ensures LoopInside(s, limit, st).cur == BodyIndex(s, |st.blocks|)
  {
    hide LowerHead, LoopEntered, Split, Extends;
    var n := |st.blocks|;
    LoopEnteredSplit(s, st);
    var entered := LoopEntered(s, st);
    SplitOpen(st, entered, StillEmpty(s, n) + {n}, LoopCount(s), n);
    HeadStraight(s, limit, n, entered);
    var tested := LowerHead(s, limit, n, entered);
    if s.Loop? {
      assert StillEmpty(s, n) + {n} == StillEmpty(s, n);
    } else {
      SplitHead(st, entered, tested, StillEmpty(s, n), LoopCount(s));
    }
    SplitMoved(st, tested, LoopInside(s, limit, st), StillEmpty(s, n), LoopCount(s));
  }

  lemma SplitMoved(a: LState, b: LState, c: LState, open: set<nat>, count: nat)
    requires Split(a, b, open, count) && c == b.(cur := c.cur, loops := c.loops)
    ensures Split(a, c, open, count)
  {
  }

  lemma StepEnds(s: Stmt, slot: Name, n: nat, st: LState)
    requires s.For? && n + 2 < |st.blocks| && !st.blocks[n + 2].terminated
    ensures var h := LowerStep(s, slot, n, st);
      && Extends(st.(cur := n + 2), h) && Terminated(h)
      && h.cur == n + 2 && |h.blocks| == |st.blocks| && h.slots == st.slots && h.slotCount == st.slotCount
  {
    hide Fresh, Straight, Code, Extends, Emit;
    var at := st.(cur := n + 2);
    FreshStraight(at, Load, s.begin.ty, [slot], "");
    var was := Fresh(at, Load, s.begin.ty, [slot], "");
    StraightOpen(at, was.st);
    FreshStraight(was.st, ConstInt, s.begin.ty, [], "1");
    var one := Fresh(was.st, ConstInt, s.begin.ty, [], "1");
    StraightOpen(was.st, one.st);
    StraightTransitive(at, was.st, one.st);
    FreshStraight(one.st, Binary, s.begin.ty, [was.name, one.name], "+");
    var next := Fresh(one.st, Binary, s.begin.ty, [was.name, one.name], "+");
    StraightOpen(one.st, next.st);
    StraightTransitive(at, one.st, next.st);
    EmitStraight(next.st, Instr(Store, None, s.begin.ty, [next.name, slot], "", false));
    var stored := StoreTo(next.st, s.begin.ty, next.name, slot);
    StraightTransitive(at, next.st, stored);
    StraightEnds(at, stored, JumpTo(stored, HeadIndex(s, n)));
  }

  lemma StraightSame(a: LState, b: LState)
    requires Straight(a, b)
    ensures Extends(a, b) && Open(b) && b.cur == a.cur
    ensures b.slots == a.slots && b.slotCount == a.slotCount && b.loops == a.loops && |b.blocks| == |a.blocks|
  {
  }

  lemma BindExtends(st: LState, x: string, ty: Ty, v: Name)
    requires Open(st)
    ensures var b := Bind(st, x, ty, v);
      Extends(st, b) && Open(b) && b.slots == st.slots[x := Slot(x, st.slotCount)] && b.slotCount == st.slotCount + 1
  {
    var sl := Slot(x, st.slotCount);
    var bound := st.(slotCount := st.slotCount + 1, slots := st.slots[x := sl]);
    var alloca := Instr(Alloca, Some(sl), ty, [], "", false);
    EmitStraight(bound, alloca);
    EmitStraight(Emit(bound, alloca), Instr(Store, None, ty, [v, sl], "", false));
  }

  lemma SplitOpen(a: LState, b: LState, open: set<nat>, count: nat, i: nat)
    requires Split(a, b, open, count) && |a.blocks| <= i < |a.blocks| + count && i in open
    ensures |b.blocks| == |a.blocks| + count && Open(b.(cur := i))
  {
    assert Empty(b.blocks[i], i);
  }

  /// Other empty blocks stay empty while one of them is filled.
  lemma SplitThen(a: LState, b: LState, open: set<nat>, count: nat, i: nat, c: LState, j: nat)
    requires Split(a, b, open, count) && |a.blocks| <= i < |b.blocks| && i in open
    requires Extends(b.(cur := i), c) && |a.blocks| <= j < |b.blocks| && j in open && j != i
    ensures Open(c.(cur := j)) && Empty(c.blocks[j], j)
  {
    assert Empty(b.blocks[j], j);
  }

  lemma CloseExtends(a: LState, b: LState, target: nat)
    requires Extends(a, b)
    ensures Extends(a, Close(b, target)) && Terminated(Close(b, target)) && Close(b, target).slots == b.slots
  {
    EmitExtends(b, JumpTo(b, target));
    ExtendsTransitive(a, b, Close(b, target));
  }

  lemma IfJoins(st: LState, split: LState, yes: LState, no: LState)
    requires var n := |st.blocks|;
      && Split(st, split, {n, n + 1, n + 2}, 3) && split.loops == st.loops
      && Extends(split.(cur := n), yes) && Terminated(yes)
      && Extends(yes.(cur := n + 1), no) && Terminated(no)
    ensures Extends(st, no.(cur := |st.blocks| + 2)) && Empty(no.blocks[|st.blocks| + 2], |st.blocks| + 2)
  {
    var n := |st.blocks|;
    SplitThen(st, split, {n, n + 1, n + 2}, 3, n, yes, n + 2);
    assert no.blocks[n + 2] == yes.blocks[n + 2];
    assert Continues(st.blocks[st.cur], no.blocks[st.cur]);
  }

  /// A loop without a step block.
  lemma LoopJoins(s: Stmt, st: LState, inside: LState, back: LState)
    requires IsLoop(s) && !s.For?
    requires var n := |st.blocks|;
      && Split(st, inside, StillEmpty(s, n), LoopCount(s)) && inside.cur == BodyIndex(s, n)
      && inside.loops == st.loops && Extends(inside, back) && Terminated(back)
    ensures var e := EndIndex(s, |st.blocks|); Extends(st, back.(cur := e)) && Empty(back.blocks[e], e)
  {
    var n := |st.blocks|;
    SplitThen(st, inside, StillEmpty(s, n), LoopCount(s), BodyIndex(s, n), back, EndIndex(s, n));
    assert Continues(st.blocks[st.cur], back.blocks[st.cur]);
  }

  lemma ForJoins(s: Stmt, st: LState, inside: LState, back: LState, stepped: LState)
    requires s.For?
    requires var n := |st.blocks|;
      && Split(st, inside, StillEmpty(s, n), 4) && inside.cur == n + 1
      && inside.loops == st.loops && Extends(inside, back) && Terminated(back)
      && Extends(back.(cur := n + 2), stepped) && Terminated(stepped) && stepped.cur == n + 2
    ensures var e := |st.blocks| + 3; Extends(st, stepped.(cur := e)) && Empty(stepped.blocks[e], e)
  {
    var n := |st.blocks|;
    SplitThen(st, inside, StillEmpty(s, n), 4, n + 1, back, n + 3);
    assert stepped.blocks[n + 3] == back.blocks[n + 3];
    assert Continues(st.blocks[st.cur], stepped.blocks[st.cur]);
  }

  lemma ExtendsSelf(st: LState)
    requires st.cur < |st.blocks|
    ensures Extends(st, st)
  {
  }

  lemma ReturnExtends(e: Option<Expr>, result: Ty, st: LState)
    requires Open(st)
    ensures Extends(st, LowerStmt(Ret(e), result, st)) && LowerStmt(Ret(e), result, st).slots == st.slots
  {
    hide LowerAs, Straight, Extends, Emit;
    if e.None? {
      var i := Instr(Return, None, UnitTy, [], "", false);
      EmitExtends(st, i);
      TakeStraight(st, 0);
      StraightEnds(st, st, i);
    } else {
      AsStraight(e.value, result, st);
      var v := LowerAs(e.value, result, st);
      StraightEnds(st, v.st, Instr(Return, None, result, [v.name], "", false));
    }
  }

  lemma LetExtends(x: string, ty: Ty, init: Expr, result: Ty, st: LState)
    requires Open(st)
    ensures var b := LowerStmt(Let(x, ty, init), result, st);
      Extends(st, b) && Open(b) && b.slots == st.slots[x := Slot(x, st.slotCount)] && b.slotCount == st.slotCount + 1
  {
    hide LowerAs, Straight, Extends, Bind;
    AsStraight(init, ty, st);
    var v := LowerAs(init, ty, st);
    StraightSame(st, v.st);
    BindExtends(v.st, x, ty, v.name);
    ExtendsTransitive(st, v.st, Bind(v.st, x, ty, v.name));
  }

  /// The bounds of a `for` and the slot of its variable.
  lemma ForBound(s: Stmt, st: LState) returns (limit: Name, bound: LState)
    requires s.For? && Open(st)
    ensures limit == LowerExpr(s.end, LowerExpr(s.begin, st).st).name
    ensures bound == Bind(LowerExpr(s.end, LowerExpr(s.begin, st).st).st, s.name, s.begin.ty, LowerExpr(s.begin, st).name)
    ensures Extends(st, bound) && Open(bound) && |bound.blocks| == |st.blocks| && bound.loops == st.loops
    ensures bound.slots == st.slots[s.name := Slot(s.name, st.slotCount)] && bound.slotCount == st.slotCount + 1
  {
    hide LowerExpr, Straight, Extends;
    ExprStraight(s.begin, st);
    var from := LowerExpr(s.begin, st);
    StraightSame(st, from.st);
    ExprStraight(s.end, from.st);
    var to := LowerExpr(s.end, from.st);
    StraightSame(from.st, to.st);
    ExtendsTransitive(st, from.st, to.st);
    BindExtends(to.st, s.name, s.begin.ty, from.name);
    limit, bound := to.name, Bind(to.st, s.name, s.begin.ty, from.name);
    ExtendsTransitive(st, to.st, bound);
  }

  /// What lowering a statement may change.
  lemma {:induction false} StmtExtends(s: Stmt, result: Ty, st: LState)
    requires Open(st)
    ensures Extends(st, LowerStmt(s, result, st)) && SlotsKept(st, LowerStmt(s, result, st), Bound(s))
    decreases s, 1
  {
    hide LowerExpr, LowerAs, Straight, Split, Extends, Bind, Emit;
    match s
    case Let(x, ty, init) => LetExtends(x, ty, init, result, st);
    case Assign(_, _, _, _) =>
      AssignExtends(s, result, st);
      StraightSame(st, LowerStmt(s, result, st));
    case ExprStmt(e) =>
      ExprStraight(e, st);
      StraightSame(st, LowerExpr(e, st).st);
    case Ret(e) => ReturnExtends(e, result, st);
    case BlockStmt(body) => SeqExtends(body, result, st);
    case If(c, thn, els) => IfExtends(s, result, st);
    case While(_, _) => LoopExtends(s, Plain(""), result, st);
    case For(_, _, _, _, _) =>
      var limit, bound := ForBound(s, st);
      LoopExtends(s, limit, result, bound);
      ExtendsTransitive(st, bound, LowerStmt(s, result, st));
    case Loop(_) => LoopExtends(s, Plain(""), result, st);
    case Break => LeaveExtends(s, result, st);
    case Continue => LeaveExtends(s, result, st);
  }

  lemma LeaveExtends(s: Stmt, result: Ty, st: LState)
    requires (s.Break? || s.Continue?) && Open(st)
    ensures Extends(st, LowerStmt(s, result, st)) && LowerStmt(s, result, st).slots == st.slots
  {
    hide Extends, Emit;
    ExtendsSelf(st);
    if st.loops != [] {
      var t := st.loops[|st.loops| - 1];
      var i := JumpTo(st, if s.Break? then t.1 else t.0);
      EmitExtends(st, i);
      EmitSlots(st, i);
    }
  }

  lemma EmitSlots(st: LState, i: Instr)
    ensures Emit(st, i).slots == st.slots
  {
  }

  lemma {:induction false} IfExtends(s: Stmt, result: Ty, st: LState)
    requires s.If? && Open(st)
    ensures Extends(st, LowerStmt(s, result, st)) && SlotsKept(st, LowerStmt(s, result, st), Bound(s))
    ensures var e := |st.blocks| + 2; var r := LowerStmt(s, result, st); r.cur == e < |r.blocks| && Empty(r.blocks[e], e)
    decreases s, 0
  {
    hide LowerIfHead, Split, Extends, Empty, Close;
    IfHeadSplit(s.cond, st);
    var split := LowerIfHead(s.cond, st);
    var n := |st.blocks|;
    var open := {n, n + 1, n + 2};
    SplitOpen(st, split, open, 3, n);
    SeqExtends(s.thn, result, split.(cur := n));
    var yes := Close(LowerSeq(s.thn, result, split.(cur := n)), n + 2);
    CloseExtends(split.(cur := n), LowerSeq(s.thn, result, split.(cur := n)), n + 2);
    SplitThen(st, split, open, 3, n, yes, n + 1);
    SeqExtends(s.els, result, yes.(cur := n + 1));
    var no := Close(LowerSeq(s.els, result, yes.(cur := n + 1)), n + 2);
    CloseExtends(yes.(cur := n + 1), LowerSeq(s.els, result, yes.(cur := n + 1)), n + 2);
    IfJoins(st, split, yes, no);
    SplitSlots(st, split, open, 3);
  }

  lemma SplitSlots(a: LState, b: LState, open: set<nat>, count: nat)
    requires Split(a, b, open, count)
    ensures b.slots == a.slots && b.slotCount == a.slotCount && |b.blocks| == |a.blocks| + count
  {
  }

  lemma AssignExtends(s: Stmt, result: Ty, st: LState)
    requires s.Assign? && Open(st)
    ensures Straight(st, LowerStmt(s, result, st))
  {
    hide Straight, Code, LowerAs, Fresh, Emit;
    var address := SlotOf(st, s.name);
    CheckStraight(st, s.name);
    var checked := CheckName(st, s.name);
    StraightOpen(st, checked);
    AsStraight(s.value, s.ty, checked);
    var v := LowerAs(s.value, s.ty, checked);
    StraightTransitive(st, checked, v.st);
    StraightOpen(checked, v.st);
    if s.op.None? {
      EmitStraight(v.st, Instr(Store, None, s.ty, [v.name, address], "", false));
      StraightTransitive(st, v.st, StoreTo(v.st, s.ty, v.name, address));
    } else {
      FreshStraight(v.st, Load, s.ty, [address], "");
      var was := Fresh(v.st, Load, s.ty, [address], "");
      StraightTransitive(st, v.st, was.st);
      StraightOpen(v.st, was.st);
      FreshStraight(was.st, Binary, s.ty, [was.name, v.name], s.op.value);
      var combined := Fresh(was.st, Binary, s.ty, [was.name, v.name], s.op.value);
      StraightTransitive(st, was.st, combined.st);
      StraightOpen(was.st, combined.st);
      EmitStraight(combined.st, Instr(Store, None, s.ty, [combined.name, address], "", false));
      StraightTransitive(st, combined.st, StoreTo(combined.st, s.ty, combined.name, address));
    }
  }

  lemma {:induction false} SeqExtends(ss: seq<Stmt>, result: Ty, st: LState)
    requires st.cur < |st.blocks|
    ensures Extends(st, LowerSeq(ss, result, st)) && SlotsKept(st, LowerSeq(ss, result, st), BoundSeq(ss))
    decreases ss, 2
  {
    hide LowerStmt, Continues;
    if ss == [] || Terminated(st) {
      assert Continues(st.blocks[st.cur], st.blocks[st.cur]) by { ContinuesSame(st.blocks[st.cur]); }
    } else {
      StmtExtends(ss[0], result, st);
      var mid := LowerStmt(ss[0], result, st);
      SeqExtends(ss[1..], result, mid);
      ExtendsTransitive(st, mid, LowerSeq(ss, result, st));
    }
  }

  lemma ContinuesSame(b: Block)
    ensures Continues(b, b)
  {
  }

  lemma {:induction false} LoopExtends(s: Stmt, limit: Name, result: Ty, st: LState)
    requires IsLoop(s) && Open(st)
    ensures var r := LowerLoop(s, limit, result, st);
      Extends(st, r) && SlotsKept(st, r, BoundSeq(s.body))
    ensures var e := EndIndex(s, |st.blocks|);
      var r := LowerLoop(s, limit, result, st); r.cur == e < |r.blocks| && Empty(r.blocks[e], e)
    decreases s, 0
  {
    hide LowerHead, LoopInside, LowerStep, Empty, Split, Extends, Close, LowerStmt, Open;
    var n := |st.blocks|;
    var slot := if s.For? then SlotOf(st, s.name) else Plain("");
    var inside := LoopInside(s, limit, st);
    LoopInsideSplit(s, limit, st);
    SplitOpen(st, inside, StillEmpty(s, n), LoopCount(s), BodyIndex(s, n));
    SplitSlots(st, inside, StillEmpty(s, n), LoopCount(s));
    SeqExtends(s.body, result, inside);
    var body := LowerSeq(s.body, result, inside);
    var at := inside.(loops := st.loops);
    SplitMoved(st, inside, at, StillEmpty(s, n), LoopCount(s));
    LoopsReset(inside, body, st.loops);
    CloseExtends(at, body.(loops := st.loops), StepIndex(s, n));
    var back := Close(body.(loops := st.loops), StepIndex(s, n));
    if s.For? {
      SplitThen(st, at, StillEmpty(s, n), 4, n + 1, back, n + 2);
      StepEnds(s, slot, n, back);
      ForJoins(s, st, at, back, LowerStep(s, slot, n, back));
    } else {
      NoStep(s, slot, n, back);
      LoopJoins(s, st, at, back);
    }
  }

  lemma LoopsReset(a: LState, b: LState, loops: seq<(nat, nat)>)
    requires Extends(a, b)
    ensures Extends(a.(loops := loops), b.(loops := loops))
  {
  }

  lemma NoStep(s: Stmt, slot: Name, n: nat, st: LState)
    requires IsLoop(s) && !s.For?
    ensures LowerStep(s, slot, n, st) == st
  {
  }
}
