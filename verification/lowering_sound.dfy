/// Lowering always yields a well-formed control-flow graph: a block that has
/// ended does so in one terminator, its last instruction; labels are distinct;
/// every jump names a block that exists.

module LoweringSound {
  import opened Mir
  import opened SourceLang
  import opened Lowering
  import opened LoweringShape

  ghost predicate Known(l: Label, blocks: seq<Block>) {
    exists j :: 0 <= j < |blocks| && blocks[j].tag == l
  }

  ghost predicate SoundEnd(i: Instr, blocks: seq<Block>) {
    match i.op
    case Jump => |i.args| == 1 && i.args[0].LabelName? && Known(i.args[0].target, blocks)
    case CondJump =>
      && |i.args| == 3 && i.args[1].LabelName? && Known(i.args[1].target, blocks)
      && i.args[2].LabelName? && Known(i.args[2].target, blocks)
    case _ => |i.args| <= 1
  }

  ghost predicate SoundBlock(b: Block, blocks: seq<Block>) {
    && (b.terminated ==> b.instrs != [] && IsTerminator(b.instrs[|b.instrs| - 1].op))
    && (forall k :: 0 <= k < |b.instrs| && IsTerminator(b.instrs[k].op) ==>
      b.terminated && k == |b.instrs| - 1 && SoundEnd(b.instrs[k], blocks))
  }

  ghost predicate Sound(st: LState) {
    && Valid(st)
    && forall i :: 0 <= i < |st.blocks| ==> SoundBlock(st.blocks[i], st.blocks)
  }

  /// Blocks keep their labels, so a sound block stays sound as others are added.
  ghost predicate SameTags(a: seq<Block>, b: seq<Block>) {
    |a| <= |b| && forall i :: 0 <= i < |a| ==> b[i].tag == a[i].tag
  }

  lemma KeptSound(b: Block, before: seq<Block>, after: seq<Block>)
    requires SoundBlock(b, before) && SameTags(before, after)
    ensures SoundBlock(b, after)
  {
    forall l: Label | Known(l, before) ensures Known(l, after) {
      var j :| 0 <= j < |before| && before[j].tag == l;
      assert after[j].tag == l;
    }
  }

  lemma EmitSound(st: LState, i: Instr)
    requires Sound(st) && (IsTerminator(i.op) ==> SoundEnd(i, st.blocks))
    ensures Sound(Emit(st, i))
  {
    hide SoundEnd;
    if Open(st) {
      var r := Emit(st, i);
      forall k | 0 <= k < |r.blocks| ensures SoundBlock(r.blocks[k], r.blocks) {
        if k == st.cur {
          var b := Block(st.blocks[k].tag, st.blocks[k].instrs + [i], IsTerminator(i.op));
          assert SoundBlock(st.blocks[k], st.blocks);
          assert SoundBlock(b, st.blocks);
          KeptSound(b, st.blocks, r.blocks);
        } else {
          KeptSound(st.blocks[k], st.blocks, r.blocks);
        }
      }
    }
  }

  lemma StraightSound(a: LState, b: LState)
    requires Sound(a) && Straight(a, b)
    ensures Sound(b)
  {
    hide SoundEnd;
    forall k | 0 <= k < |b.blocks| ensures SoundBlock(b.blocks[k], b.blocks) {
      if k == a.cur {
        assert SoundBlock(a.blocks[k], a.blocks);
        var old' := a.blocks[k].instrs;
        forall j | 0 <= j < |b.blocks[k].instrs| ensures !IsTerminator(b.blocks[k].instrs[j].op) {
          if j < |old'| { assert b.blocks[k].instrs[j] == old'[j]; }
          else { assert b.blocks[k].instrs[j] == Code(a, b)[j - |old'|]; }
        }
      } else {
        KeptSound(a.blocks[k], a.blocks, b.blocks);
      }
    }
  }

  lemma NewBlockSound(st: LState, kind: string)
    requires Sound(st)
    ensures Sound(NewBlock(st, kind)) && NewBlock(st, kind) == st.(blocks := NewBlock(st, kind).blocks)
    ensures |NewBlock(st, kind).blocks| == |st.blocks| + 1
  {
    var r := NewBlock(st, kind);
    forall k | 0 <= k < |st.blocks| ensures SoundBlock(r.blocks[k], r.blocks) {
      KeptSound(st.blocks[k], st.blocks, r.blocks);
    }
  }

  lemma MovedSound(a: LState, b: LState)
    requires Sound(a) && b.blocks == a.blocks && Valid(b)
    ensures Sound(b)
  {
  }

  lemma TagKnown(st: LState, i: nat)
    requires i < |st.blocks|
    ensures TagAt(st, i).LabelName? && Known(TagAt(st, i).target, st.blocks)
  {
    assert st.blocks[i].tag == TagAt(st, i).target;
  }

  lemma CloseSound(st: LState, i: nat)
    requires Sound(st) && i < |st.blocks|
    ensures Sound(Close(st, i)) && |Close(st, i).blocks| == |st.blocks|
    ensures Close(st, i) == st.(blocks := Close(st, i).blocks)
  {
    hide Sound, Known;
    TagKnown(st, i);
    EmitSound(st, JumpTo(st, i));
  }

  lemma BranchSound(st: LState, c: Name, yes: nat, no: nat)
    requires Sound(st) && yes < |st.blocks| && no < |st.blocks|
    ensures Sound(Emit(st, Branch(st, c, yes, no)))
    ensures Emit(st, Branch(st, c, yes, no)) == st.(blocks := Emit(st, Branch(st, c, yes, no)).blocks)
    ensures |Emit(st, Branch(st, c, yes, no)).blocks| == |st.blocks|
  {
    hide Sound, Known;
    TagKnown(st, yes);
    TagKnown(st, no);
    EmitSound(st, Branch(st, c, yes, no));
  }

  lemma BindSound(st: LState, x: string, ty: Ty, v: Name)
    requires Sound(st) && Open(st)
    ensures Sound(Bind(st, x, ty, v))
  {
    hide Emit, SoundBlock;
    var sl := Slot(x, st.slotCount);
    var bound := st.(slotCount := st.slotCount + 1, slots := st.slots[x := sl]);
    MovedSound(st, bound);
    EmitSound(bound, Instr(Alloca, Some(sl), ty, [], "", false));
    EmitSound(Emit(bound, Instr(Alloca, Some(sl), ty, [], "", false)), Instr(Store, None, ty, [v, sl], "", false));
  }

  lemma IfHeadSound(c: Expr, st: LState)
    requires Sound(st) && Open(st)
    ensures Sound(LowerIfHead(c, st))
  {
    hide LowerExpr, Emit, SoundBlock, NewBlock, Straight;
    ExprStraight(c, st);
    var cv := LowerExpr(c, st);
    StraightSound(st, cv.st);
    NewBlockSound(cv.st, "if.then.");
    var one := NewBlock(cv.st, "if.then.");
    NewBlockSound(one, "if.else.");
    var two := NewBlock(one, "if.else.");
    NewBlockSound(two, "if.end.");
    var made := NewBlock(two, "if.end.");
    BranchSound(made, cv.name, |cv.st.blocks|, |cv.st.blocks| + 1);
  }

  lemma LoopBlocksSound(s: Stmt, st: LState)
    requires IsLoop(s) && Sound(st)
    ensures Sound(LoopBlocks(s, st))
  {
    hide NewBlock, Sound;
    match s
    case While(_, _) =>
      NewBlockSound(st, "while.cond.");
      NewBlockSound(NewBlock(st, "while.cond."), "while.body.");
      NewBlockSound(NewBlock(NewBlock(st, "while.cond."), "while.body."), "while.end.");
    case For(_, _, _, _, _) =>
      NewBlockSound(st, "for.cond.");
      NewBlockSound(NewBlock(st, "for.cond."), "for.body.");
      NewBlockSound(NewBlock(NewBlock(st, "for.cond."), "for.body."), "for.step.");
      NewBlockSound(NewBlock(NewBlock(NewBlock(st, "for.cond."), "for.body."), "for.step."), "for.end.");
    case Loop(_) =>
      NewBlockSound(st, "loop.body.");
      NewBlockSound(NewBlock(st, "loop.body."), "loop.end.");
  }

  lemma HeadSound(s: Stmt, limit: Name, n: nat, st: LState)
    requires IsLoop(s) && Open(st) && Sound(st) && st.cur == n && EndIndex(s, n) < |st.blocks|
    ensures Sound(LowerHead(s, limit, n, st))
  {
    hide LowerExpr, Emit, SoundBlock, Fresh, Straight;
    match s
    case While(c, _) =>
      ExprStraight(c, st);
      StraightSound(st, LowerExpr(c, st).st);
      StraightSame(st, LowerExpr(c, st).st);
      BranchSound(LowerExpr(c, st).st, LowerExpr(c, st).name, BodyIndex(s, n), EndIndex(s, n));
    case For(x, inclusive, b, _, _) =>
      FreshStraight(st, Load, b.ty, [SlotOf(st, x)], "");
      var current := Fresh(st, Load, b.ty, [SlotOf(st, x)], "");
      StraightSame(st, current.st);
      var op := if inclusive then "<=" else "<";
      FreshStraight(current.st, Compare, b.ty, [current.name, limit], op);
      var test := Fresh(current.st, Compare, b.ty, [current.name, limit], op);
      StraightSame(current.st, test.st);
      StraightSound(st, current.st);
      StraightSound(current.st, test.st);
      BranchSound(test.st, test.name, BodyIndex(s, n), EndIndex(s, n));
    case Loop(_) =>
  }

  lemma LoopInsideSound(s: Stmt, limit: Name, st: LState)
    requires IsLoop(s) && Open(st) && Sound(st)
    ensures Sound(LoopInside(s, limit, st))
  {
    hide SoundBlock, LowerHead, LoopBlocks, Extends, Empty;
    var n := |st.blocks|;
    LoopBlocksSound(s, st);
    LoopBlocksMade(s, st);
    var made := LoopBlocks(s, st);
    CloseSound(made, HeadIndex(s, n));
    var entered := LoopEntered(s, st);
    MovedSound(Close(made, HeadIndex(s, n)), entered);
    LoopEnteredOpen(s, st);
    HeadSound(s, limit, n, entered);
    HeadStraight(s, limit, n, entered);
    HeadLoops(s, limit, n, entered);
    MovedSound(LowerHead(s, limit, n, entered), LoopInside(s, limit, st));
  }

  lemma LoopEnteredOpen(s: Stmt, st: LState)
    requires IsLoop(s) && Open(st)
    ensures Open(LoopEntered(s, st)) && LoopEntered(s, st).cur == |st.blocks| && LoopEntered(s, st).loops == st.loops
    ensures |LoopEntered(s, st).blocks| == |st.blocks| + LoopCount(s)
  {
    hide LoopEntered, Split;
    LoopEnteredSplit(s, st);
    SplitOpen(st, LoopEntered(s, st), StillEmpty(s, |st.blocks|) + {|st.blocks|}, LoopCount(s), |st.blocks|);
  }

  lemma HeadLoops(s: Stmt, limit: Name, n: nat, st: LState)
    requires IsLoop(s) && Open(st) && st.cur == n
    ensures LowerHead(s, limit, n, st).loops == st.loops
  {
    hide LowerHead;
    HeadStraight(s, limit, n, st);
  }

  lemma StepSound(s: Stmt, slot: Name, n: nat, st: LState)
    requires s.For? && n + 2 < |st.blocks| && !st.blocks[n + 2].terminated && Sound(st)
    ensures Sound(LowerStep(s, slot, n, st))
  {
    hide Fresh, Straight, Code, Emit, SoundBlock;
    var at := st.(cur := n + 2);
    MovedSound(st, at);
    FreshStraight(at, Load, s.begin.ty, [slot], "");
    var was := Fresh(at, Load, s.begin.ty, [slot], "");
    StraightSame(at, was.st);
    FreshStraight(was.st, ConstInt, s.begin.ty, [], "1");
    var one := Fresh(was.st, ConstInt, s.begin.ty, [], "1");
    StraightSame(was.st, one.st);
    FreshStraight(one.st, Binary, s.begin.ty, [was.name, one.name], "+");
    var next := Fresh(one.st, Binary, s.begin.ty, [was.name, one.name], "+");
    StraightSame(one.st, next.st);
    StraightSound(at, was.st);
    StraightSound(was.st, one.st);
    StraightSound(one.st, next.st);
    var store := Instr(Store, None, s.begin.ty, [next.name, slot], "", false);
    EmitSound(next.st, store);
    EmitStraight(next.st, store);
    StraightSame(next.st, Emit(next.st, store));
    CloseSound(Emit(next.st, store), n);
  }

  /// Lowering a statement keeps the graph well-formed.
  lemma {:induction false} StmtSound(s: Stmt, result: Ty, st: LState)
    requires Open(st) && Sound(st)
    ensures Sound(LowerStmt(s, result, st))
    decreases s, 1
  {
    hide LowerExpr, LowerAs, Straight, Bind, Emit, Sound, SoundBlock;
    match s
    case Let(x, ty, init) =>
      AsStraight(init, ty, st);
      var v := LowerAs(init, ty, st);
      StraightSound(st, v.st);
      StraightSame(st, v.st);
      BindSound(v.st, x, ty, v.name);
    case Assign(_, _, _, _) =>
      AssignExtends(s, result, st);
      StraightSound(st, LowerStmt(s, result, st));
    case ExprStmt(e) =>
      ExprStraight(e, st);
      StraightSound(st, LowerExpr(e, st).st);
    case Ret(e) =>
      if e.None? {
        EmitSound(st, Instr(Return, None, UnitTy, [], "", false));
      } else {
        AsStraight(e.value, result, st);
        var v := LowerAs(e.value, result, st);
        StraightSound(st, v.st);
        EmitSound(v.st, Instr(Return, None, result, [v.name], "", false));
      }
    case BlockStmt(body) => SeqSound(body, result, st);
    case If(c, thn, els) => IfSound(s, result, st);
    case While(_, _) => LoopSound(s, Plain(""), result, st);
    case For(x, _, b, e, _) =>
      var limit, bound := ForBound(s, st);
      ForBoundSound(s, st);
      LoopSound(s, limit, result, bound);
    case Loop(_) => LoopSound(s, Plain(""), result, st);
    case Break => LeaveSound(s, result, st);
    case Continue => LeaveSound(s, result, st);
  }

  lemma ForBoundSound(s: Stmt, st: LState)
    requires s.For? && Open(st) && Sound(st)
    ensures Sound(Bind(LowerExpr(s.end, LowerExpr(s.begin, st).st).st, s.name, s.begin.ty, LowerExpr(s.begin, st).name))
  {
    hide LowerExpr, Straight, Bind, Sound;
    ExprStraight(s.begin, st);
    var from := LowerExpr(s.begin, st);
    StraightSame(st, from.st);
    StraightSound(st, from.st);
    ExprStraight(s.end, from.st);
    var to := LowerExpr(s.end, from.st);
    StraightSame(from.st, to.st);
    StraightSound(from.st, to.st);
    BindSound(to.st, s.name, s.begin.ty, from.name);
  }

  lemma LeaveSound(s: Stmt, result: Ty, st: LState)
    requires (s.Break? || s.Continue?) && Sound(st)
    ensures Sound(LowerStmt(s, result, st))
  {
    hide SoundBlock, Emit;
    if st.loops != [] {
      var t := st.loops[|st.loops| - 1];
      assert t in st.loops;
      CloseSound(st, if s.Break? then t.1 else t.0);
    }
  }

  lemma {:induction false} SeqSound(ss: seq<Stmt>, result: Ty, st: LState)
    requires Sound(st)
    ensures Sound(LowerSeq(ss, result, st))
    decreases ss, 2
  {
    hide LowerStmt, SoundBlock, Extends;
    if ss != [] && !Terminated(st) {
      StmtSound(ss[0], result, st);
      SeqSound(ss[1..], result, LowerStmt(ss[0], result, st));
    }
  }

  lemma {:induction false} IfSound(s: Stmt, result: Ty, st: LState)
    requires s.If? && Open(st) && Sound(st)
    ensures Sound(LowerStmt(s, result, st))
    decreases s, 0
  {
    hide LowerIfHead, Split, Extends, SoundBlock, Close;
    var split := LowerIfHead(s.cond, st);
    var n := |st.blocks|;
    IfHeadSplit(s.cond, st);
    SplitSlots(st, split, {n, n + 1, n + 2}, 3);
    IfHeadSound(s.cond, st);
    SeqSound(s.thn, result, split.(cur := n));
    var yes0 := LowerSeq(s.thn, result, split.(cur := n));
    SeqExtends(s.thn, result, split.(cur := n));
    ExtendsLength(split.(cur := n), yes0);
    CloseSound(yes0, n + 2);
    var yes := Close(yes0, n + 2);
    SeqSound(s.els, result, yes.(cur := n + 1));
    var no0 := LowerSeq(s.els, result, yes.(cur := n + 1));
    SeqExtends(s.els, result, yes.(cur := n + 1));
    ExtendsLength(yes.(cur := n + 1), no0);
    CloseSound(no0, n + 2);
  }

  lemma ExtendsLength(a: LState, b: LState)
    requires Extends(a, b)
    ensures |a.blocks| <= |b.blocks| && b.loops == a.loops
  {
  }

  lemma {:induction false} LoopSound(s: Stmt, limit: Name, result: Ty, st: LState)
    requires IsLoop(s) && Open(st) && Sound(st)
    ensures Sound(LowerLoop(s, limit, result, st))
    decreases s, 0
  {
    hide LoopInside, LowerStep, Split, Extends, SoundBlock, Close;
    var n := |st.blocks|;
    var slot := if s.For? then SlotOf(st, s.name) else Plain("");
    var inside := LoopInside(s, limit, st);
    LoopInsideSplit(s, limit, st);
    SplitSlots(st, inside, StillEmpty(s, n), LoopCount(s));
    LoopInsideSound(s, limit, st);
    SeqSound(s.body, result, inside);
    var body := LowerSeq(s.body, result, inside);
    SeqExtends(s.body, result, inside);
    ExtendsLength(inside, body);
    var reset := body.(loops := st.loops);
    MovedSound(body, reset);
    CloseSound(reset, StepIndex(s, n));
    var back := Close(reset, StepIndex(s, n));
    if s.For? {
      StepStillOpen(s, limit, result, st, back);
      StepSound(s, slot, n, back);
      StepEnds(s, slot, n, back);
    } else {
      NoStep(s, slot, n, back);
    }
  }

  lemma StepStillOpen(s: Stmt, limit: Name, result: Ty, st: LState, back: LState)
    requires s.For? && Open(st)
    requires back == Close(LowerSeq(s.body, result, LoopInside(s, limit, st)).(loops := st.loops), |st.blocks| + 2)
    ensures |st.blocks| + 2 < |back.blocks| && Open(back.(cur := |st.blocks| + 2))
  {
    hide LoopInside, Split, Extends, Close, LowerSeq, Empty, LowerStmt;
    var n := |st.blocks|;
    var inside := LoopInside(s, limit, st);
    LoopInsideSplit(s, limit, st);
    SplitSlots(st, inside, StillEmpty(s, n), 4);
    SeqExtends(s.body, result, inside);
    var body := LowerSeq(s.body, result, inside);
    var at := inside.(loops := st.loops);
    SplitMoved(st, inside, at, StillEmpty(s, n), 4);
    LoopsReset(inside, body, st.loops);
    CloseExtends(at, body.(loops := st.loops), n + 2);
    SplitThen(st, at, StillEmpty(s, n), 4, n + 1, back, n + 2);
  }

  // ---- whole functions ----

  lemma {:induction false} ParamsExtend(params: seq<(string, Ty)>, st: LState)
    requires Open(st) && Sound(st)
    ensures var r := LowerParams(params, st); Extends(st, r) && Open(r) && Sound(r) && r.loops == st.loops
    decreases |params|
  {
    hide Bind, Extends, SoundBlock;
    if params == [] {
      ExtendsSelf(st);
    } else {
      var next := Bind(st, params[0].0, params[0].1, Arg(params[0].0));
      BindExtends(st, params[0].0, params[0].1, Arg(params[0].0));
      BindSound(st, params[0].0, params[0].1, Arg(params[0].0));
      ExtendsLength(st, next);
      ParamsExtend(params[1..], next);
      ExtendsLength(next, LowerParams(params[1..], next));
      ExtendsTransitive(st, next, LowerParams(params[1..], next));
    }
  }

  lemma FunctionExtends(f: Function)
    ensures Extends(Start, LowerFunction(f)) && Sound(LowerFunction(f))
  {
    hide LowerParams, LowerSeq, Extends, SoundBlock;
    assert Sound(Start) by { StartSound(); }
    ParamsExtend(f.params, Start);
    var ready := LowerParams(f.params, Start);
    SeqExtends(f.body, f.result, ready);
    SeqSound(f.body, f.result, ready);
    var st := LowerSeq(f.body, f.result, ready);
    ExtendsTransitive(Start, ready, st);
    FunctionEnd(st, f.result);
  }

  lemma StartSound()
    ensures Sound(Start) && Open(Start)
  {
  }

  lemma FunctionEnd(st: LState, result: Ty)
    requires Extends(Start, st) && Sound(st)
    ensures var i := Instr(Return, None, UnitTy, [], "", false);
      Extends(Start, Emit(st, i)) && Sound(Emit(st, i)) && Extends(Start, st.(err := true)) && Sound(st.(err := true))
  {
    var i := Instr(Return, None, UnitTy, [], "", false);
    EmitExtends(st, i);
    ExtendsTransitive(Start, st, Emit(st, i));
    EmitSound(st, i);
  }

  /// For every function that lowers without an error: labels are distinct and
  /// every block ends in exactly one terminator, whose targets exist.
  lemma GraphIsWellFormed(f: Function)
    requires !LowerFunction(f).err
    ensures var blocks := LowerFunction(f).blocks;
      && DistinctLabels(blocks)
      && forall i :: 0 <= i < |blocks| ==> blocks[i].terminated && SoundBlock(blocks[i], blocks)
  {
    hide SoundBlock, LowerSeq, LowerParams;
    FunctionExtends(f);
    var st := LowerFunction(f);
    assert Terminated(st);
    forall i | 0 <= i < |st.blocks| ensures st.blocks[i].terminated {
    }
  }
}
