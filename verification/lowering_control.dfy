/// Structured control flow: branches, loops, `break`, `continue` and early
/// returns become jumps between basic blocks and keep their meaning. The proof
/// is one induction on the fuel of the source execution and the statement: an
/// `if` joins in the block made for its end, a loop goes through its head once
/// a pass, `break` and `continue` land on the innermost loop's end and head or
/// step block, and a `return` ends the run wherever it stands. Scopes opened on
/// the way are closed at the place where the run has landed.

module LoweringControl {
  import opened Mir
  import opened SourceLang
  import opened Lowering
  import opened LoweringShape
  import opened LoweringSound
  import opened LoweringRuns
  import opened LoweringCorrect
  import opened LoweringSimulation

  /// A block that is still empty starts at its end.
  lemma HereEmpty(st: LState, i: nat, c: Config)
    requires i < |st.blocks| && Empty(st.blocks[i], i) && st.cur == i
    ensures Here(st, c) == Spot(i, 0, c) && Open(st)
  {
  }

  lemma SplitEmpty(a: LState, b: LState, open: set<nat>, count: nat, i: nat)
    requires Split(a, b, open, count) && |a.blocks| <= i < |a.blocks| + count && i in open
    ensures |b.blocks| == |a.blocks| + count && Empty(b.blocks[i], i)
  {
  }

  lemma SameBelowTransitive(a: Regs, b: Regs, c: Regs, low: nat, high: nat)
    requires SameBelow(a, b, low) && SameBelow(b, c, high) && low <= high
    ensures SameBelow(a, c, low)
  {
  }

  lemma ResolvedKept(a: LState, b: LState, places: Scopes<Name>, stale: set<string>, bound: set<string>)
    requires Resolved(places, a.slots, stale) && SlotsKept(a, b, bound)
    ensures Resolved(places, b.slots, stale + bound)
  {
  }

  lemma PlacedMore(places: Scopes<Name>, count: nat, more: nat)
    requires Placed(places, count) && count <= more
    ensures Placed(places, more)
  {
  }

  lemma OpenScope(env: Env, places: Scopes<Name>, m: Mem, count: nat, slots: map<string, Name>, stale: set<string>)
    requires Holds(env, places, m) && Placed(places, count) && Resolved(places, slots, stale)
    ensures Holds(env + [map[]], places + [map[]], m) && Placed(places + [map[]], count) && Resolved(places + [map[]], slots, stale)
  {
    forall x | x in slots && x !in stale ensures Lookup(places + [map[]], x) == Some(slots[x]) {
      assert Lookup(places, x) == Some(slots[x]);
      var i, j := Innermost(places, x), Innermost(places + [map[]], x);
      assert x in (places + [map[]])[i];
    }
  }

  lemma CloseScope(env: Env, places: Scopes<Name>, inner: Scopes<Name>, scope: map<string, Name>, m: Mem)
    requires Holds(env, inner, m) && SameOuter(places + [scope], inner)
    ensures Holds(Pop(env), places, m)
  {
    assert Pop(places + [scope]) == places;
  }

  /// Leaving a scope of the source needs no code.
  lemma LeaveMatches(w: World, final: seq<Block>, p: Spot, o: Out, st: LState, after: LState, places: Scopes<Name>, inner: Scopes<Name>,
                     scope: map<string, Name>, fuel: nat, n: nat, d: Config)
    requires Matches(w, final, p, o, st, after, inner, fuel, n, d) && SameOuter(places + [scope], inner)
    ensures Matches(w, final, p, LeaveScope(o), st, after, places, fuel, n, d)
  {
    hide Holds, Reaches, RunAt, Lasts, SameOuter, SameBelow;
    match o
    case Normal(env) => CloseScope(env, places, inner, scope, d.mem);
    case Broke(env) => CloseScope(env, places, inner, scope, d.mem);
    case Continued(env) => CloseScope(env, places, inner, scope, d.mem);
    case _ =>
  }

  lemma ReadyScope(st: LState, places: Scopes<Name>, stale: set<string>, env: Env, c: Config)
    requires Ready(st, places, stale, env, c)
    ensures Ready(st, places + [map[]], stale, env + [map[]], c)
  {
    hide Holds, Placed, Resolved;
    OpenScope(env, places, c.mem, st.slotCount, st.slots, stale);
  }

  /// A statement and its code.
  lemma {:induction false} StmtRuns(w: World, final: seq<Block>, s: Stmt, result: Ty, st: LState, places: Scopes<Name>, stale: set<string>,
                                    env: Env, c: Config, fuel: nat)
    returns (n: nat, d: Config, places': Scopes<Name>)
    requires Ready(st, places, stale, env, c) && Clear(s, stale, st.loops != [])
    requires Grows(LowerStmt(s, result, st).blocks, final) && DistinctLabels(final) && !LowerStmt(s, result, st).err
    ensures SameOuter(places, places')
    ensures Matches(w, final, Here(st, c), ExecStmt(w, s, result, env, fuel), st, LowerStmt(s, result, st), places', fuel, n, d)
    ensures ExecStmt(w, s, result, env, fuel).Normal? ==>
      && Placed(places', LowerStmt(s, result, st).slotCount)
      && Resolved(places', LowerStmt(s, result, st).slots, StaleAfter(s, stale))
    decreases fuel, s, 1, 0
  {
    hide Matches, Holds, Placed, Resolved, Grows, LowerStmt, ExecStmt, Extends;
    n, d, places' := 0, c, places;
    if !s.Let? { KeptAfter(s, result, st, places, stale); }
    match s
    case Let(x, ty, init) => d, places' := LetRuns(w, final, x, ty, init, result, st, places, stale, env, c, fuel);
    case Assign(_, _, _, _) => d := AssignRuns(w, final, s, result, st, places, stale, env, c, fuel);
    case ExprStmt(e) => d := ExprStmtRuns(w, final, e, result, st, places, stale, env, c, fuel);
    case Ret(e) => d := ReturnStmtRuns(w, final, e, result, st, places, stale, env, c, fuel);
    case BlockStmt(_) => n, d := BlockStmtRuns(w, final, s, result, st, places, stale, env, c, fuel);
    case If(_, _, _) => n, d := IfRuns(w, final, s, result, st, places, stale, env, c, fuel);
    case While(_, _) => n, d := WhileRuns(w, final, s, result, st, places, stale, env, c, fuel);
    case For(_, _, _, _, _) => n, d := ForRuns(w, final, s, result, st, places, stale, env, c, fuel);
    case Loop(_) => n, d := WhileRuns(w, final, s, result, st, places, stale, env, c, fuel);
    case Break => n := 1; LeaveRuns(w, final, s, result, st, places, stale, env, c, fuel);
    case Continue => n := 1; LeaveRuns(w, final, s, result, st, places, stale, env, c, fuel);
  }

  lemma {:induction false} BlockStmtRuns(w: World, final: seq<Block>, s: Stmt, result: Ty, st: LState, places: Scopes<Name>, stale: set<string>,
                                         env: Env, c: Config, fuel: nat)
    returns (n: nat, d: Config)
    requires s.BlockStmt? && Ready(st, places, stale, env, c) && Clear(s, stale, st.loops != [])
    requires Grows(LowerStmt(s, result, st).blocks, final) && DistinctLabels(final) && !LowerStmt(s, result, st).err
    ensures Matches(w, final, Here(st, c), ExecStmt(w, s, result, env, fuel), st, LowerStmt(s, result, st), places, fuel, n, d)
    decreases fuel, s, 0, 0
  {
    hide Matches, Ready, Grows, LowerSeq, ExecBlock;
    n, d := BlockRuns(w, final, s.body, result, st, places, stale, env, c, fuel);
  }

  lemma KeptAfter(s: Stmt, result: Ty, st: LState, places: Scopes<Name>, stale: set<string>)
    requires Open(st) && !s.Let? && Resolved(places, st.slots, stale) && Placed(places, st.slotCount)
    ensures var r := LowerStmt(s, result, st); Placed(places, r.slotCount) && Resolved(places, r.slots, StaleAfter(s, stale))
  {
    hide LowerStmt, Resolved, Placed;
    StmtExtends(s, result, st);
    var r := LowerStmt(s, result, st);
    ResolvedKept(st, r, places, stale, Bound(s));
    PlacedMore(places, st.slotCount, r.slotCount);
  }

  lemma ExprStmtRuns(w: World, final: seq<Block>, e: Expr, result: Ty, st: LState, places: Scopes<Name>, stale: set<string>,
                     env: Env, c: Config, fuel: nat) returns (d: Config)
    requires Ready(st, places, stale, env, c) && Uses(e) !! stale
    requires var r := LowerStmt(ExprStmt(e), result, st); Grows(r.blocks, final) && !r.err
    ensures Matches(w, final, Here(st, c), ExecStmt(w, ExprStmt(e), result, env, fuel), st, LowerStmt(ExprStmt(e), result, st), places, fuel, 0, d)
  {
    hide Holds, Placed, Resolved, Grows, LowerExpr, Eval, Steps, Breaks, Reaches, RunAt, Lasts, Straight;
    var r := LowerExpr(e, st);
    ExprStraight(e, st);
    StraightSame(st, r.st);
    d := ExprRuns(w, e, st, places, st.slotCount, stale, env, c);
    match Eval(w, e, env)
    case None => BreaksFault(w, final, st, r.st, c, 0);
    case Some(_) => StepsReach(w, final, st, r.st, c, d);
  }

  lemma {:induction false} BlockRuns(w: World, final: seq<Block>, body: seq<Stmt>, result: Ty, st: LState, places: Scopes<Name>, stale: set<string>,
                                     env: Env, c: Config, fuel: nat)
    returns (n: nat, d: Config)
    requires Ready(st, places, stale, env, c) && ClearSeq(body, stale, st.loops != [])
    requires Grows(LowerSeq(body, result, st).blocks, final) && DistinctLabels(final) && !LowerSeq(body, result, st).err
    ensures Matches(w, final, Here(st, c), ExecBlock(w, body, result, env, fuel), st, LowerSeq(body, result, st), places, fuel, n, d)
    decreases fuel, body, 3, 0
  {
    hide Matches, Grows, LowerSeq, ExecSeq, Holds, Placed, Resolved, LeaveScope;
    ReadyScope(st, places, stale, env, c);
    var inner;
    n, d, inner := SeqRuns(w, final, body, result, st, places + [map[]], stale, env + [map[]], c, fuel);
    LeaveMatches(w, final, Here(st, c), ExecSeq(w, body, result, env + [map[]], fuel), st, LowerSeq(body, result, st), places, inner, map[], fuel, n, d);
  }

  lemma {:induction false} SeqRuns(w: World, final: seq<Block>, ss: seq<Stmt>, result: Ty, st: LState, places: Scopes<Name>, stale: set<string>,
                                   env: Env, c: Config, fuel: nat)
    returns (n: nat, d: Config, places': Scopes<Name>)
    requires Ready(st, places, stale, env, c) && ClearSeq(ss, stale, st.loops != [])
    requires Grows(LowerSeq(ss, result, st).blocks, final) && DistinctLabels(final) && !LowerSeq(ss, result, st).err
    ensures SameOuter(places, places')
    ensures Matches(w, final, Here(st, c), ExecSeq(w, ss, result, env, fuel), st, LowerSeq(ss, result, st), places', fuel, n, d)
    decreases fuel, ss, 2, 0
  {
    hide Holds, Placed, Resolved, Grows, Extends, LowerStmt, ExecStmt, StaleAfter, Clear, Reaches, RunAt, Lasts, SameBelow;
    n, d, places' := 0, c, places;
    if ss == [] {
      ReachesSelf(w, final, Here(st, c));
      SameBelowSelf(c.regs, st.temps);
    } else {
      var mid := LowerStmt(ss[0], result, st);
      var r := LowerSeq(ss, result, st);
      StmtExtends(ss[0], result, st);
      ExtendsMore(st, mid);
      SeqExtends(ss[1..], result, mid);
      GrowsBack(mid, r, final);
      n, d, places' := StmtRuns(w, final, ss[0], result, st, places, stale, env, c, fuel);
      var o := ExecStmt(w, ss[0], result, env, fuel);
      if o.Normal? {
        var m, d1, places1 := n, d, places';
        ValidAfter(st, mid);
        n, d, places' := SeqRuns(w, final, ss[1..], result, mid, places1, StaleAfter(ss[0], stale), o.env, d1, fuel);
        MatchesAfter(w, final, Here(st, c), Here(mid, d1), m, ExecSeq(w, ss[1..], result, o.env, fuel), st, mid, r, places', fuel, n, d);
        n := n + m;
      }
    }
  }

  lemma SameBelowSelf(regs: Regs, bound: nat)
    ensures SameBelow(regs, regs, bound)
  {
  }

  lemma ExtendsMore(a: LState, b: LState)
    requires Extends(a, b)
    ensures a.temps <= b.temps && a.slotCount <= b.slotCount && a.loops == b.loops && |a.blocks| <= |b.blocks| && b.cur < |b.blocks|
  {
  }

  lemma ValidAfter(a: LState, b: LState)
    requires Valid(a) && |a.blocks| <= |b.blocks| && a.loops == b.loops && b.cur < |b.blocks|
    ensures Valid(b)
  {
  }

  // ---- if ----

  /// The condition and the branch.
  lemma IfHeadRuns(w: World, final: seq<Block>, cond: Expr, st: LState, places: Scopes<Name>, stale: set<string>, env: Env, c: Config)
    returns (d: Config)
    requires Ready(st, places, stale, env, c) && Uses(cond) !! stale
    requires Grows(LowerIfHead(cond, st).blocks, final) && DistinctLabels(final) && !LowerIfHead(cond, st).err
    ensures match Eval(w, cond, env)
      case Some(Num(b)) =>
        && Reaches(w, final, Here(st, c), Spot(if b != 0 then |st.blocks| else |st.blocks| + 1, 0, d), 1)
        && d.mem == c.mem && SameBelow(c.regs, d.regs, st.temps)
      case _ => RunAt(w, final, Here(st, c), 0).Faulted?
  {
    hide Holds, Placed, Resolved, LowerExpr, Eval, Steps, Breaks, Reaches, RunAt, Straight, Emit, Extends, Grows;
    var cv := LowerExpr(cond, st);
    var n := |st.blocks|;
    ExprStraight(cond, st);
    StraightSame(st, cv.st);
    var made := NewBlock(NewBlock(NewBlock(cv.st, "if.then."), "if.else."), "if.end.");
    var i := Branch(made, cv.name, n, n + 1);
    EmitTemps(made, i);
    OpenMore(cv.st, made);
    EmitExtends(made, i);
    MoreGrows(cv.st, made);
    GrowsBack(made, Emit(made, i), final);
    GrowsTransitive(cv.st.blocks, made.blocks, final);
    d := ExprRuns(w, cond, st, places, st.slotCount, stale, env, c);
    match Eval(w, cond, env)
    case None => BreaksFault(w, final, st, cv.st, c, 0);
    case Some(v) =>
      StepsReach(w, final, st, cv.st, c, d);
      BranchRuns(w, final, made, cv.name, n, n + 1, d);
      ReachesEnd(w, final, Here(st, c), Here(cv.st, d), 0, 0);
      if v.Num? {
        ReachesTransitive(w, final, Here(st, c), Here(cv.st, d), Spot(if v.i != 0 then n else n + 1, 0, d), 0, 1);
      }
  }

  lemma OpenMore(a: LState, b: LState)
    requires Open(a) && b.cur == a.cur && |a.blocks| <= |b.blocks| && b.blocks[a.cur] == a.blocks[a.cur]
    ensures Open(b) && forall c :: Here(b, c) == Here(a, c)
  {
  }

  lemma MoreGrows(a: LState, b: LState)
    requires |a.blocks| <= |b.blocks| && forall i :: 0 <= i < |a.blocks| ==> b.blocks[i] == a.blocks[i]
    ensures Grows(a.blocks, b.blocks)
  {
  }

  /// An arm of an `if` runs on into the block after it.
  lemma ArmRuns(w: World, final: seq<Block>, p: Spot, o: Out, at: LState, arm: LState, st: LState, r: LState, places: Scopes<Name>,
                fuel: nat, n: nat, d: Config, target: nat) returns (n': nat)
    requires Matches(w, final, p, o, at, arm, places, fuel, n, d)
    requires at.loops == st.loops && st.temps <= at.temps && DistinctLabels(final)
    requires arm.cur < |arm.blocks| && target < |arm.blocks| && Grows(Close(arm, target).blocks, final)
    requires target < |r.blocks| && r.cur == target && Empty(r.blocks[target], target)
    ensures Matches(w, final, p, o, st, r, places, fuel, n', d)
  {
    hide Reaches, RunAt, Lasts, Holds, Grows, Close, SameBelow;
    n' := n;
    if o.Normal? {
      CloseRuns(w, final, arm, target, d);
      HereEmpty(r, target, d);
      ReachesTransitive(w, final, p, Here(arm, d), Here(r, d), n, 1);
      n' := n + 1;
    }
    SameBelowLower(p.c.regs, d.regs, at.temps, st.temps);
  }

  lemma SameBelowLower(a: Regs, b: Regs, high: nat, low: nat)
    requires low <= high
    ensures SameBelow(a, b, high) ==> SameBelow(a, b, low)
  {
  }

  /// Every stage of an `if` is on the way to the final graph.
  ghost predicate IfStages(s: Stmt, st: LState, final: seq<Block>, split: LState, yes0: LState, yes: LState, no0: LState, no: LState)
    requires s.If?
  {
    var n := |st.blocks|;
    && |split.blocks| == n + 3 && n + 3 <= |yes0.blocks| && n + 3 <= |no0.blocks| && n + 3 <= |yes.blocks|
    && Grows(split.blocks, final) && Grows(yes0.blocks, final) && Grows(yes.blocks, final) && Grows(no0.blocks, final) && Grows(no.blocks, final)
    && !split.err && !yes0.err && !no0.err
    && Empty(split.blocks[n], n) && Empty(yes.blocks[n + 1], n + 1)
    && split.slots == st.slots && split.slotCount == st.slotCount && split.loops == st.loops && yes.loops == st.loops
    && st.temps <= split.temps <= yes.temps && split.slotCount <= yes.slotCount
    && SlotsKept(split, yes, BoundSeq(s.thn)) && yes0.cur < |yes0.blocks| && no0.cur < |no0.blocks|
  }

  lemma IfParts(s: Stmt, result: Ty, st: LState, final: seq<Block>)
    requires s.If? && Open(st) && Grows(LowerStmt(s, result, st).blocks, final) && !LowerStmt(s, result, st).err
    ensures var n := |st.blocks|;
      var split := LowerIfHead(s.cond, st);
      var yes0 := LowerSeq(s.thn, result, split.(cur := n));
      var yes := Close(yes0, n + 2);
      var no0 := LowerSeq(s.els, result, yes.(cur := n + 1));
      IfStages(s, st, final, split, yes0, yes, no0, Close(no0, n + 2))
  {
    hide LowerIfHead, Split, Extends, Empty, Close, Grows, LowerSeq, Open, SlotsKept;
    var n := |st.blocks|;
    var open := {n, n + 1, n + 2};
    var split := LowerIfHead(s.cond, st);
    IfHeadSplit(s.cond, st);
    SplitEmpty(st, split, open, 3, n);
    SplitOpen(st, split, open, 3, n);
    SplitSame(st, split, open, 3);
    var at := split.(cur := n);
    var yes0 := LowerSeq(s.thn, result, at);
    SeqExtends(s.thn, result, at);
    CloseExtends(at, yes0, n + 2);
    ExtendsMore(at, yes0);
    var yes := Close(yes0, n + 2);
    CloseMore(yes0, n + 2);
    SplitThen(st, split, open, 3, n, yes, n + 1);
    var at2 := yes.(cur := n + 1);
    var no0 := LowerSeq(s.els, result, at2);
    SeqExtends(s.els, result, at2);
    ExtendsMore(at2, no0);
    GrowsBackClose(no0, n + 2, final);
    GrowsBack(at2, no0, final);
    GrowsBackClose(yes0, n + 2, final);
    GrowsBack(at, yes0, final);
    KeptSlots(at, yes0, split, yes, BoundSeq(s.thn));
  }

  lemma KeptSlots(a: LState, b: LState, c: LState, d: LState, bound: set<string>)
    requires SlotsKept(a, b, bound) && c.slots == a.slots && d.slots == b.slots
    ensures SlotsKept(c, d, bound)
  {
  }

  lemma GrowsBackClose(st: LState, target: nat, final: seq<Block>)
    requires st.cur < |st.blocks| && Grows(Close(st, target).blocks, final)
    ensures Grows(st.blocks, final) && Close(st, target).err == st.err
  {
    hide Grows;
    EmitExtends(st, JumpTo(st, target));
    GrowsBack(st, Close(st, target), final);
    EmitTemps(st, JumpTo(st, target));
  }

  lemma SplitSame(a: LState, b: LState, open: set<nat>, count: nat)
    requires Split(a, b, open, count)
    ensures b.slots == a.slots && b.slotCount == a.slotCount && a.temps <= b.temps && |b.blocks| == |a.blocks| + count && (a.err ==> b.err)
  {
  }

  lemma {:induction false} IfRuns(w: World, final: seq<Block>, s: Stmt, result: Ty, st: LState, places: Scopes<Name>, stale: set<string>,
                                  env: Env, c: Config, fuel: nat)
    returns (n: nat, d: Config)
    requires s.If? && Ready(st, places, stale, env, c) && Clear(s, stale, st.loops != [])
    requires Grows(LowerStmt(s, result, st).blocks, final) && DistinctLabels(final) && !LowerStmt(s, result, st).err
    ensures Matches(w, final, Here(st, c), ExecStmt(w, s, result, env, fuel), st, LowerStmt(s, result, st), places, fuel, n, d)
    decreases fuel, s, 0, 0
  {
    hide Matches, Holds, Placed, Resolved, Grows, LowerIfHead, LowerSeq, Close, Empty, Extends, Eval, RunAt, Reaches, ExecBlock, SameBelow, SlotsKept;
    var k := |st.blocks|;
    var r := LowerStmt(s, result, st);
    IfParts(s, result, st, final);
    IfExtends(s, result, st);
    var split := LowerIfHead(s.cond, st);
    var yes0 := LowerSeq(s.thn, result, split.(cur := k));
    var yes := Close(yes0, k + 2);
    var no0 := LowerSeq(s.els, result, yes.(cur := k + 1));
    var d0 := IfHeadRuns(w, final, s.cond, st, places, stale, env, c);
    n, d := 0, c;
    match Eval(w, s.cond, env)
    case Some(Num(b)) =>
      if b != 0 {
        var at := split.(cur := k);
        HereEmpty(at, k, d0);
        n, d := BlockRuns(w, final, s.thn, result, at, places, stale, env, d0, fuel);
        var o := ExecBlock(w, s.thn, result, env, fuel);
        n := ArmRuns(w, final, Here(at, d0), o, at, yes0, st, r, places, fuel, n, d, k + 2);
        MatchesAfter(w, final, Here(st, c), Here(at, d0), 1, o, st, st, r, places, fuel, n, d);
        n := n + 1;
      } else {
        var at := yes.(cur := k + 1);
        HereEmpty(at, k + 1, d0);
        ResolvedKept(split, yes, places, stale, BoundSeq(s.thn));
        PlacedMore(places, split.slotCount, yes.slotCount);
        n, d := BlockRuns(w, final, s.els, result, at, places, stale + BoundSeq(s.thn), env, d0, fuel);
        var o := ExecBlock(w, s.els, result, env, fuel);
        n := ArmRuns(w, final, Here(at, d0), o, at, no0, st, r, places, fuel, n, d, k + 2);
        MatchesAfter(w, final, Here(st, c), Here(at, d0), 1, o, st, st, r, places, fuel, n, d);
        n := n + 1;
      }
    case _ => FaultMatches(w, final, Here(st, c), st, r, places, fuel, c);
  }

  lemma FaultMatches(w: World, final: seq<Block>, p: Spot, st: LState, r: LState, places: Scopes<Name>, fuel: nat, d: Config)
    requires RunAt(w, final, p, 0).Faulted?
    ensures Matches(w, final, p, Fault, st, r, places, fuel, 0, d)
  {
  }

  // ---- loops ----

  /// What a loop asks of the names it uses.
  ghost predicate LoopClear(s: Stmt, stale: set<string>)
    requires IsLoop(s)
  {
    && ClearSeq(s.body, stale, true)
    && (s.While? ==> Uses(s.cond) !! stale)
    && (s.For? ==> s.name !in stale)
  }

  /// The end value of a `for` stays in its register.
  ghost predicate Limited(s: Stmt, limit: Name, lim: Option<Value>, bound: nat, regs: Regs)
    requires IsLoop(s)
  {
    s.For? ==> limit.Temp? && limit.n < bound && limit in regs && lim == Some(regs[limit])
  }

  /// Every stage of a loop is on the way to the final graph.
  ghost predicate LoopStages(s: Stmt, st: LState, final: seq<Block>, entered: LState, tested: LState, inside: LState, body: LState, back: LState, stepped: LState)
    requires IsLoop(s)
  {
    var n := |st.blocks|;
    && |entered.blocks| == n + LoopCount(s) && |inside.blocks| == n + LoopCount(s) && n + LoopCount(s) <= |body.blocks|
    && |back.blocks| == |body.blocks| && body.cur < |body.blocks|
    && Grows(entered.blocks, final) && Grows(tested.blocks, final) && Grows(inside.blocks, final)
    && Grows(body.blocks, final) && Grows(back.blocks, final) && Grows(stepped.blocks, final)
    && !tested.err && !inside.err && !body.err
    && Empty(entered.blocks[n], n) && Empty(inside.blocks[BodyIndex(s, n)], BodyIndex(s, n))
    && (s.For? ==> Empty(back.blocks[n + 2], n + 2))
    && entered.slots == st.slots && entered.temps == st.temps && entered.cur == n && entered.slotCount == st.slotCount
    && inside.slots == st.slots && inside.slotCount == st.slotCount && st.temps <= inside.temps <= back.temps
    && inside.loops == st.loops + [(StepIndex(s, n), EndIndex(s, n))] && inside.cur == BodyIndex(s, n)
  }

  lemma LoopParts(s: Stmt, limit: Name, result: Ty, st: LState, final: seq<Block>)
    requires IsLoop(s) && Open(st) && Grows(LowerLoop(s, limit, result, st).blocks, final) && !LowerLoop(s, limit, result, st).err
    ensures var n := |st.blocks|;
      var slot := if s.For? then SlotOf(st, s.name) else Plain("");
      var entered := LoopEntered(s, st);
      var inside := LoopInside(s, limit, st);
      var body := LowerSeq(s.body, result, inside);
      var back := Close(body.(loops := st.loops), StepIndex(s, n));
      LoopStages(s, st, final, entered, LowerHead(s, limit, n, entered), inside, body, back, LowerStep(s, slot, n, back))
  {
    hide LowerHead, LoopInside, LowerStep, Empty, Split, Extends, Close, Open, LowerSeq, LoopEntered, Grows, LowerStmt, LoopBlocks;
    var n := |st.blocks|;
    var slot := if s.For? then SlotOf(st, s.name) else Plain("");
    var entered := LoopEntered(s, st);
    EnteredParts(s, st);
    HeadStraight(s, limit, n, entered);
    var tested := LowerHead(s, limit, n, entered);
    var inside := LoopInside(s, limit, st);
    InsideIs(s, limit, st);
    LoopInsideSplit(s, limit, st);
    SplitOpen(st, inside, StillEmpty(s, n), LoopCount(s), BodyIndex(s, n));
    SplitEmpty(st, inside, StillEmpty(s, n), LoopCount(s), BodyIndex(s, n));
    SplitSame(st, inside, StillEmpty(s, n), LoopCount(s));
    SeqExtends(s.body, result, inside);
    var body := LowerSeq(s.body, result, inside);
    ExtendsMore(inside, body);
    var at := inside.(loops := st.loops);
    var reset := body.(loops := st.loops);
    SplitMoved(st, inside, at, StillEmpty(s, n), LoopCount(s));
    LoopsReset(inside, body, st.loops);
    CloseExtends(at, reset, StepIndex(s, n));
    var back := Close(reset, StepIndex(s, n));
    CloseMore(reset, StepIndex(s, n));
    if s.For? {
      SplitThen(st, at, StillEmpty(s, n), 4, n + 1, back, n + 2);
      StepOpen(back, n + 2);
      StepEnds(s, slot, n, back);
      GrowsBack(back.(cur := n + 2), LowerStep(s, slot, n, back), final);
    } else {
      NoStep(s, slot, n, back);
    }
    GrowsBackClose(reset, StepIndex(s, n), final);
    GrowsBack(inside, body, final);
    GrowsBack(entered, tested, final);
  }

  lemma StepOpen(st: LState, i: nat)
    requires i < |st.blocks| && Empty(st.blocks[i], i)
    ensures !st.blocks[i].terminated
  {
  }

  lemma CloseMore(st: LState, target: nat)
    ensures Close(st, target) == st.(blocks := Close(st, target).blocks) && |Close(st, target).blocks| == |st.blocks|
  {
  }

  lemma InsideIs(s: Stmt, limit: Name, st: LState)
    requires IsLoop(s)
    ensures var n := |st.blocks|;
      LoopInside(s, limit, st) == LowerHead(s, limit, n, LoopEntered(s, st))
        .(cur := BodyIndex(s, n), loops := st.loops + [(StepIndex(s, n), EndIndex(s, n))])
  {
  }

  lemma EnteredParts(s: Stmt, st: LState)
    requires IsLoop(s) && Open(st)
    ensures var e := LoopEntered(s, st); var n := |st.blocks|;
      && |e.blocks| == n + LoopCount(s) && e.cur == n && Empty(e.blocks[n], n) && Open(e)
      && e == st.(blocks := e.blocks, cur := n)
  {
    hide LoopBlocks, Split, Empty;
    var n := |st.blocks|;
    LoopEnteredSplit(s, st);
    LoopBlocksMade(s, st);
    CloseMore(LoopBlocks(s, st), n);
    SplitEmpty(st, LoopEntered(s, st), StillEmpty(s, n) + {n}, LoopCount(s), n);
    SplitOpen(st, LoopEntered(s, st), StillEmpty(s, n) + {n}, LoopCount(s), n);
  }

  /// The test at the head of a loop.
  lemma HeadRuns(w: World, final: seq<Block>, s: Stmt, limit: Name, lim: Option<Value>, k: nat, st: LState, places: Scopes<Name>, stale: set<string>,
                 env: Env, c: Config) returns (m: nat, d: Config)
    requires IsLoop(s) && LoopClear(s, stale) && st.cur == k && EndIndex(s, k) < |st.blocks| && Empty(st.blocks[k], k)
    requires places != [] && Holds(env, places, c.mem) && Placed(places, st.slotCount) && Resolved(places, st.slots, stale)
    requires Limited(s, limit, lim, st.temps, c.regs) && (s.For? ==> s.name in st.slots)
    requires var h := LowerHead(s, limit, k, st); Grows(h.blocks, final) && DistinctLabels(final) && !h.err
    ensures match Test(w, s, lim, env)
      case Some(Num(b)) =>
        && Reaches(w, final, Spot(k, 0, c), Spot(if b != 0 then BodyIndex(s, k) else EndIndex(s, k), 0, d), m)
        && d.mem == c.mem && SameBelow(c.regs, d.regs, st.temps)
      case _ => RunAt(w, final, Spot(k, 0, c), 0).Faulted?
  {
    hide Holds, Placed, Resolved, Grows, Reaches, RunAt, LowerHead, Test, Empty, SameBelow;
    HereEmpty(st, k, c);
    if s.While? {
      m := 1;
      d := WhileHeadRuns(w, final, s, limit, lim, k, st, places, stale, env, c);
    } else if s.For? {
      m := 1;
      d := ForHeadRuns(w, final, s, limit, lim, k, st, places, stale, env, c);
    } else {
      m, d := 0, c;
      LoopTest(w, s, lim, env);
      ReachesSelf(w, final, Spot(k, 0, c));
      SameBelowSelf(c.regs, st.temps);
    }
  }

  lemma LoopTest(w: World, s: Stmt, lim: Option<Value>, env: Env)
    requires s.Loop?
    ensures Test(w, s, lim, env) == Some(Num(1))
  {
  }

  lemma WhileHeadRuns(w: World, final: seq<Block>, s: Stmt, limit: Name, lim: Option<Value>, k: nat, st: LState, places: Scopes<Name>, stale: set<string>,
                      env: Env, c: Config)
    returns (d: Config)
    requires s.While? && Uses(s.cond) !! stale && Open(st) && k + 2 < |st.blocks|
    requires Holds(env, places, c.mem) && Placed(places, st.slotCount) && Resolved(places, st.slots, stale)
    requires var h := LowerHead(s, limit, k, st); Grows(h.blocks, final) && DistinctLabels(final) && !h.err
    ensures match Test(w, s, lim, env)
      case Some(Num(b)) =>
        && Reaches(w, final, Here(st, c), Spot(if b != 0 then k + 1 else k + 2, 0, d), 1)
        && d.mem == c.mem && SameBelow(c.regs, d.regs, st.temps)
      case _ => RunAt(w, final, Here(st, c), 0).Faulted?
  {
    hide Holds, Placed, Resolved, LowerExpr, Eval, Steps, Breaks, Reaches, RunAt, Straight, Emit, Extends, Grows;
    var cv := LowerExpr(s.cond, st);
    ExprStraight(s.cond, st);
    StraightSame(st, cv.st);
    var i := Branch(cv.st, cv.name, k + 1, k + 2);
    EmitTemps(cv.st, i);
    EmitExtends(cv.st, i);
    GrowsBack(cv.st, Emit(cv.st, i), final);
    d := ExprRuns(w, s.cond, st, places, st.slotCount, stale, env, c);
    match Eval(w, s.cond, env)
    case None => BreaksFault(w, final, st, cv.st, c, 0);
    case Some(v) =>
      TestedRuns(w, final, st, cv.st, cv.name, k + 1, k + 2, c, d, v);
  }

  /// The branch at the end of a loop's test, taken by the number tested.
  lemma TestedRuns(w: World, final: seq<Block>, st: LState, mid: LState, t: Name, yes: nat, no: nat, c: Config, d: Config, v: Value)
    requires Steps(w, st, mid, c, d) && Open(st) && Open(mid) && t.Temp? && t in d.regs && d.regs[t] == v
    requires yes < |mid.blocks| && no < |mid.blocks| && mid.cur == st.cur
    requires Grows(mid.blocks, final) && Grows(Emit(mid, Branch(mid, t, yes, no)).blocks, final) && DistinctLabels(final)
    ensures v.Num? ==> Reaches(w, final, Here(st, c), Spot(if v.i != 0 then yes else no, 0, d), 1)
    ensures !v.Num? ==> RunAt(w, final, Here(st, c), 0).Faulted?
  {
    hide Steps, Reaches, RunAt, Emit, Grows;
    StepsReach(w, final, st, mid, c, d);
    BranchRuns(w, final, mid, t, yes, no, d);
    ReachesEnd(w, final, Here(st, c), Here(mid, d), 0, 0);
    if v.Num? {
      ReachesTransitive(w, final, Here(st, c), Here(mid, d), Spot(if v.i != 0 then yes else no, 0, d), 0, 1);
    }
  }

  lemma ForHeadRuns(w: World, final: seq<Block>, s: Stmt, limit: Name, lim: Option<Value>, k: nat, st: LState, places: Scopes<Name>, stale: set<string>,
                    env: Env, c: Config)
    returns (d: Config)
    requires s.For? && s.name !in stale && s.name in st.slots && Open(st) && k + 3 < |st.blocks|
    requires Holds(env, places, c.mem) && Placed(places, st.slotCount) && Resolved(places, st.slots, stale)
    requires limit.Temp? && limit.n < st.temps && limit in c.regs && lim == Some(c.regs[limit])
    requires var h := LowerHead(s, limit, k, st); Grows(h.blocks, final) && DistinctLabels(final)
    ensures match Test(w, s, lim, env)
      case Some(Num(b)) =>
        && Reaches(w, final, Here(st, c), Spot(if b != 0 then k + 1 else k + 3, 0, d), 1)
        && d.mem == c.mem && SameBelow(c.regs, d.regs, st.temps)
      case _ => RunAt(w, final, Here(st, c), 0).Faulted?
  {
    hide Holds, Placed, Steps, Breaks, Reaches, RunAt, Straight, Emit, Extends, Grows, Fresh, Lookup, Operands;
    var p := st.slots[s.name];
    LookupHolds(env, places, c.mem, st.slotCount, s.name);
    var op := if s.inclusive then "<=" else "<";
    var test := ForTest(s.begin.ty, p, limit, op, st);
    var v;
    d, v := ForTestRuns(w, s.begin.ty, p, limit, op, st, c);
    var i := Branch(test.st, test.name, k + 1, k + 3);
    EmitExtends(test.st, i);
    GrowsBack(test.st, Emit(test.st, i), final);
    if v.None? {
      BreaksFault(w, final, st, test.st, c, 0);
    } else {
      TestedRuns(w, final, st, test.st, test.name, k + 1, k + 3, c, d, v.value);
    }
  }

  function ForTest(ty: Ty, p: Name, limit: Name, op: string, st: LState): Lowered {
    var current := Fresh(st, Load, ty, [p], "");
    Fresh(current.st, Compare, ty, [current.name, limit], op)
  }

  lemma ForTestRuns(w: World, ty: Ty, p: Name, limit: Name, op: string, st: LState, c: Config) returns (d: Config, v: Option<Value>)
    requires Open(st) && p.Slot? && p in c.mem.slots && limit.Temp? && limit.n < st.temps && limit in c.regs
    ensures v == w.apply(Compare, ty, op, [c.mem.slots[p], c.regs[limit]])
    ensures var test := ForTest(ty, p, limit, op, st);
      && Straight(st, test.st) && Open(test.st) && test.st.cur == st.cur && |test.st.blocks| == |st.blocks| && test.name.Temp?
      && match v
         case None => Breaks(w, st, test.st, c)
         case Some(x) => Steps(w, st, test.st, c, d) && d.mem == c.mem && SameBelow(c.regs, d.regs, st.temps) && test.name in d.regs && d.regs[test.name] == x
  {
    hide Steps, Breaks, Straight, Emit, Fresh, Operands;
    FreshStraight(st, Load, ty, [p], "");
    FreshName(st, Load, ty, [p], "");
    var current := Fresh(st, Load, ty, [p], "");
    StraightSame(st, current.st);
    FreshStraight(current.st, Compare, ty, [current.name, limit], op);
    FreshName(current.st, Compare, ty, [current.name, limit], op);
    var test := Fresh(current.st, Compare, ty, [current.name, limit], op);
    StraightSame(current.st, test.st);
    StraightTransitive(st, current.st, test.st);
    LoadRuns(w, st, ty, p, c);
    var c1 := c.(regs := c.regs[Temp(st.temps) := c.mem.slots[p]]);
    Operands2(current.name, limit, c1.regs);
    FreshRuns(w, current.st, Compare, ty, [current.name, limit], op, c1, [c.mem.slots[p], c.regs[limit]]);
    v := w.apply(Compare, ty, op, [c.mem.slots[p], c.regs[limit]]);
    d := c;
    match v
    case None => StepsThenBreaks(w, st, current.st, test.st, c, c1);
    case Some(x) =>
      d := c1.(regs := c1.regs[Temp(current.st.temps) := x]);
      StepsThenSteps(w, st, current.st, test.st, c, c1, d);
  }

  /// The step of a `for`, back to the head.
  lemma StepRuns(w: World, final: seq<Block>, s: Stmt, p: Name, k: nat, st: LState, places: Scopes<Name>, env: Env, c: Config)
    returns (d: Config)
    requires s.For? && k + 2 < |st.blocks| && Empty(st.blocks[k + 2], k + 2)
    requires Lookup(places, s.name) == Some(p)
    requires exists count :: Placed(places, count)
    requires Holds(env, places, c.mem)
    requires Grows(LowerStep(s, p, k, st).blocks, final) && DistinctLabels(final)
    ensures match Advance(w, s, env)
      case None => RunAt(w, final, Spot(k + 2, 0, c), 0).Faulted?
      case Some(env') => Reaches(w, final, Spot(k + 2, 0, c), Spot(k, 0, d), 1) && InStep(env', places, c, d, st.temps)
  {
    hide Holds, Placed, Steps, Breaks, Reaches, RunAt, Straight, Emit, Extends, Grows, Fresh, Lookup, Operands, Update;
    var count :| Placed(places, count);
    var at := st.(cur := k + 2);
    HereEmpty(at, k + 2, c);
    LookupHolds(env, places, c.mem, count, s.name);
    var ty := s.begin.ty;
    var stored := StepCode(ty, p, at);
    var next: Option<Value>;
    d, next := StepCodeRuns(w, ty, p, at, c);
    StraightSame(at, stored);
    GrowsBackClose(stored, k, final);
    match next
    case None => BreaksFault(w, final, at, stored, c, 0);
    case Some(sum) =>
      StepsReach(w, final, at, stored, c, d);
      CloseRuns(w, final, stored, k, d);
      ReachesTransitive(w, final, Here(at, c), Here(stored, d), Spot(k, 0, d), 0, 1);
      UpdateHolds(env, places, c.mem, count, s.name, sum);
  }

  /// Load, add one, store.
  function StepCode(ty: Ty, p: Name, st: LState): LState {
    var was := Fresh(st, Load, ty, [p], "");
    var one := Fresh(was.st, ConstInt, ty, [], "1");
    var next := Fresh(one.st, Binary, ty, [was.name, one.name], "+");
    StoreTo(next.st, ty, next.name, p)
  }

  lemma StepCodeRuns(w: World, ty: Ty, p: Name, st: LState, c: Config) returns (d: Config, next: Option<Value>)
    requires Open(st) && p.Slot? && p in c.mem.slots
    ensures next == (match w.apply(ConstInt, ty, "1", []) case None => None case Some(one) => w.apply(Binary, ty, "+", [c.mem.slots[p], one]))
    ensures Straight(st, StepCode(ty, p, st))
    ensures match next
      case None => Breaks(w, st, StepCode(ty, p, st), c)
      case Some(sum) =>
        && Steps(w, st, StepCode(ty, p, st), c, d)
        && d.mem == c.mem.(slots := c.mem.slots[p := sum]) && SameBelow(c.regs, d.regs, st.temps)
  {
    hide Steps, Breaks, Straight, Emit, Fresh, Operands, StoreTo;
    FreshStraight(st, Load, ty, [p], "");
    FreshName(st, Load, ty, [p], "");
    var was := Fresh(st, Load, ty, [p], "");
    StraightSame(st, was.st);
    FreshStraight(was.st, ConstInt, ty, [], "1");
    FreshName(was.st, ConstInt, ty, [], "1");
    var one := Fresh(was.st, ConstInt, ty, [], "1");
    StraightSame(was.st, one.st);
    FreshStraight(one.st, Binary, ty, [was.name, one.name], "+");
    FreshName(one.st, Binary, ty, [was.name, one.name], "+");
    var sum := Fresh(one.st, Binary, ty, [was.name, one.name], "+");
    StraightSame(one.st, sum.st);
    StoreStraight(sum.st, ty, sum.name, p);
    var stored := StepCode(ty, p, st);
    StraightTransitive(st, was.st, one.st);
    StraightTransitive(one.st, sum.st, stored);
    StraightTransitive(st, one.st, stored);
    LoadRuns(w, st, ty, p, c);
    var value := c.mem.slots[p];
    var c1 := c.(regs := c.regs[Temp(st.temps) := value]);
    OperandsNone(c1.regs);
    FreshRuns(w, was.st, ConstInt, ty, [], "1", c1, []);
    d, next := c, None;
    match w.apply(ConstInt, ty, "1", [])
    case None =>
      StepsThenBreaks(w, st, was.st, one.st, c, c1);
      BreaksThen(w, st, one.st, stored, c);
    case Some(unit) =>
      var c2 := c1.(regs := c1.regs[Temp(was.st.temps) := unit]);
      StepsThenSteps(w, st, was.st, one.st, c, c1, c2);
      Operands2(was.name, one.name, c2.regs);
      FreshRuns(w, one.st, Binary, ty, [was.name, one.name], "+", c2, [value, unit]);
      next := w.apply(Binary, ty, "+", [value, unit]);
      match next {
        case None =>
          StepsThenBreaks(w, st, one.st, sum.st, c, c2);
          BreaksThen(w, st, sum.st, stored, c);
        case Some(x) =>
          var c3 := c2.(regs := c2.regs[Temp(one.st.temps) := x]);
          StepsThenSteps(w, st, one.st, sum.st, c, c2, c3);
          StoreRuns(w, sum.st, ty, sum.name, p, c3);
          d := Stored(c3, x, p);
          StepsThenSteps(w, st, sum.st, stored, c, c3, d);
      }
  }

  /// The run from the head matches what is left of the loop.
  ghost predicate LoopMatches(w: World, final: seq<Block>, p: Spot, o: Out, exit: nat, places: Scopes<Name>, bound: nat, fuel: nat, n: nat, d: Config) {
    match o
    case Normal(env) => Reaches(w, final, p, Spot(exit, 0, d), n) && InStep(env, places, p.c, d, bound)
    case Broke(_) => false
    case Continued(_) => false
    case Done(v) => RunAt(w, final, p, n).Returned? && RunAt(w, final, p, n).value == v
    case Fault => RunAt(w, final, p, n).Faulted?
    case OutOfFuel => Lasts(w, final, p, fuel - 1)
  }

  lemma LoopMatchesAfter(w: World, final: seq<Block>, p: Spot, q: Spot, m: nat, o: Out, exit: nat, places: Scopes<Name>, bound: nat, fuel: nat, less: nat, n: nat, d: Config)
    requires Reaches(w, final, p, q, m) && SameBelow(p.c.regs, q.c.regs, bound)
    requires LoopMatches(w, final, q, o, exit, places, bound, less, n, d) && fuel <= less + m
    ensures LoopMatches(w, final, p, o, exit, places, bound, fuel, n + m, d)
  {
    hide Reaches, RunAt, Lasts, Holds;
    match o
    case Normal(_) => ReachesTransitive(w, final, p, q, Spot(exit, 0, d), m, n);
    case Done(_) => ReachesEnd(w, final, p, q, m, n);
    case Fault => ReachesEnd(w, final, p, q, m, n);
    case OutOfFuel =>
      ReachesLasts(w, final, p, q, m, less - 1);
      LastsLess(w, final, p, m + (less - 1), fuel - 1);
    case _ =>
  }

  /// One pass after the body: out of the loop, or back at its head.
  lemma PassRuns(w: World, final: seq<Block>, s: Stmt, limit: Name, result: Ty, st: LState, places: Scopes<Name>,
                 o: Out, head: Spot, c1: Config, m: nat, c2: Config, j: nat, fuel: nat) returns (n: nat, d: Config)
    requires IsLoop(s) && Open(st) && Placed(places, st.slotCount) && DistinctLabels(final)
    requires s.For? ==> s.name in st.slots && Lookup(places, s.name) == Some(st.slots[s.name])
    requires var r := LowerLoop(s, limit, result, st); Grows(r.blocks, final) && !r.err
    requires var inside := LoopInside(s, limit, st);
      && inside.cur < |inside.blocks| && Reaches(w, final, head, Here(inside, c1), m)
      && Matches(w, final, Here(inside, c1), o, inside, LowerSeq(s.body, result, inside), places, fuel, j, c2)
    requires SameBelow(head.c.regs, c1.regs, st.temps)
    ensures match o
      case Broke(env) => LoopMatches(w, final, head, Normal(env), EndIndex(s, |st.blocks|), places, st.temps, fuel, n, d)
      case Done(_) => LoopMatches(w, final, head, o, EndIndex(s, |st.blocks|), places, st.temps, fuel, n, d)
      case Fault => LoopMatches(w, final, head, o, EndIndex(s, |st.blocks|), places, st.temps, fuel, n, d)
      case OutOfFuel => Lasts(w, final, head, fuel)
      case _ =>
        match Advance(w, s, o.env)
        case None => RunAt(w, final, head, n).Faulted?
        case Some(env) => n >= 1 && Reaches(w, final, head, Spot(|st.blocks|, 0, d), n) && InStep(env, places, head.c, d, st.temps)
  {
    hide Holds, Placed, Grows, Empty, RunAt, Reaches, Lasts, LowerLoop, LowerHead, LoopInside, LoopEntered, LowerSeq, LowerStep, Close, Advance, SameBelow, Lookup;
    LoopParts(s, limit, result, st, final);
    var k := |st.blocks|;
    var inside := LoopInside(s, limit, st);
    var body := LowerSeq(s.body, result, inside);
    n, d := m + j, c2;
    if o.Broke? {
      ReachesTransitive(w, final, head, Here(inside, c1), Spot(EndIndex(s, k), 0, c2), m, j);
      SameBelowTransitive(head.c.regs, c1.regs, c2.regs, st.temps, inside.temps);
    } else if o.Done? || o.Fault? {
      ReachesEnd(w, final, head, Here(inside, c1), m, j);
    } else if o.OutOfFuel? {
      ReachesLasts(w, final, head, Here(inside, c1), m, fuel);
      LastsLess(w, final, head, m + fuel, fuel);
    } else {
      var step := Spot(StepIndex(s, k), 0, c2);
      SameBelowTransitive(head.c.regs, c1.regs, c2.regs, st.temps, inside.temps);
      if o.Normal? {
        var reset := body.(loops := st.loops);
        OpenBound(body, reset);
        CloseRuns(w, final, reset, StepIndex(s, k), c2);
        ReachesTransitive(w, final, Here(inside, c1), Here(body, c2), step, j, 1);
        n := n + 1;
      }
      ReachesTransitive(w, final, head, Here(inside, c1), step, m, n - m);
      if s.For? {
        var back := Close(body.(loops := st.loops), StepIndex(s, k));
        d := StepRuns(w, final, s, st.slots[s.name], k, back, places, o.env, c2);
        match Advance(w, s, o.env) {
          case None => ReachesEnd(w, final, head, step, n, 0);
          case Some(env) =>
            ReachesTransitive(w, final, head, step, Spot(k, 0, d), n, 1);
            SameBelowTransitive(head.c.regs, c2.regs, d.regs, st.temps, back.temps);
            n := n + 1;
        }
      } else {
        NoAdvance(w, s, o.env);
      }
    }
  }

  lemma NoAdvance(w: World, s: Stmt, env: Env)
    requires IsLoop(s) && !s.For?
    ensures Advance(w, s, env) == Some(env)
  {
  }

  lemma LoopReady(s: Stmt, limit: Name, st: LState, places: Scopes<Name>, stale: set<string>, env: Env, c: Config, c1: Config, inside: LState)
    requires IsLoop(s) && Ready(st, places, stale, env, c) && c1.mem == c.mem
    requires var n := |st.blocks|;
      && Open(inside) && |inside.blocks| == n + LoopCount(s) && inside.slots == st.slots && inside.slotCount == st.slotCount
      && inside.loops == st.loops + [(StepIndex(s, n), EndIndex(s, n))]
    ensures Ready(inside, places, stale, env, c1)
  {
    hide Holds, Placed, Resolved;
  }

  lemma ReadyIs(st: LState, places: Scopes<Name>, stale: set<string>, env: Env, c: Config)
    requires Ready(st, places, stale, env, c)
    ensures Open(st) && Placed(places, st.slotCount) && Resolved(places, st.slots, stale)
  {
  }

  lemma ReadyAgain(st: LState, places: Scopes<Name>, stale: set<string>, env: Env, c: Config, env': Env, c': Config)
    requires Ready(st, places, stale, env, c) && Holds(env', places, c'.mem)
    ensures Ready(st, places, stale, env', c')
  {
  }

  /// From the head into the body, ready to run it, or out of the loop.
  lemma EnterRuns(w: World, final: seq<Block>, s: Stmt, limit: Name, lim: Option<Value>, result: Ty, st: LState, places: Scopes<Name>,
                  stale: set<string>, env: Env, c: Config) returns (m: nat, c1: Config)
    requires IsLoop(s) && LoopClear(s, stale) && Ready(st, places, stale, env, c)
    requires Limited(s, limit, lim, st.temps, c.regs) && (s.For? ==> s.name in st.slots)
    requires var r := LowerLoop(s, limit, result, st); Grows(r.blocks, final) && DistinctLabels(final) && !r.err
    ensures var k := |st.blocks|;
      var inside := LoopInside(s, limit, st);
      var body := LowerSeq(s.body, result, inside);
      && Grows(body.blocks, final) && !body.err && inside.loops != [] && inside.cur < |inside.blocks|
      && match Test(w, s, lim, env)
         case Some(Num(b)) =>
           && Reaches(w, final, Spot(k, 0, c), if b != 0 then Spot(BodyIndex(s, k), 0, c1) else Spot(EndIndex(s, k), 0, c1), m)
           && SameBelow(c.regs, c1.regs, st.temps) && Holds(env, places, c1.mem)
           && Ready(inside, places, stale, env, c1) && Here(inside, c1) == Spot(BodyIndex(s, k), 0, c1)
         case _ => RunAt(w, final, Spot(k, 0, c), 0).Faulted?
  {
    hide Holds, Placed, Resolved, Grows, Empty, RunAt, Reaches, LowerLoop, LowerHead, LoopInside, LoopEntered, LowerSeq, LowerStep, Close, Test, SameBelow;
    var k := |st.blocks|;
    LoopParts(s, limit, result, st, final);
    var inside := LoopInside(s, limit, st);
    m, c1 := HeadRuns(w, final, s, limit, lim, k, LoopEntered(s, st), places, stale, env, c);
    HereEmpty(inside, BodyIndex(s, k), c1);
    if Test(w, s, lim, env).Some? && Test(w, s, lim, env).value.Num? {
      LoopReady(s, limit, st, places, stale, env, c, c1, inside);
    }
  }

  lemma {:induction false} LoopRuns(w: World, final: seq<Block>, s: Stmt, limit: Name, lim: Option<Value>, result: Ty, st: LState, places: Scopes<Name>,
                                    stale: set<string>, env: Env, c: Config, fuel: nat)
    returns (n: nat, d: Config)
    requires IsLoop(s) && LoopClear(s, stale) && Ready(st, places, stale, env, c)
    requires Limited(s, limit, lim, st.temps, c.regs) && (s.For? ==> s.name in st.slots)
    requires var r := LowerLoop(s, limit, result, st); Grows(r.blocks, final) && DistinctLabels(final) && !r.err
    ensures LoopMatches(w, final, Spot(|st.blocks|, 0, c), ExecLoop(w, s, lim, result, env, fuel), EndIndex(s, |st.blocks|), places, st.temps, fuel, n, d)
    decreases fuel, s, 0, 0
  {
    hide Holds, Placed, Grows, Empty, RunAt, Reaches, Lasts, LowerLoop, LowerHead, LoopInside, LoopEntered, LowerSeq, LowerStep, Close, Test, Advance, ExecBlock, SameBelow, Lookup, Matches, Ready, LoopStages, Limited;
    n, d := 0, c;
    ReadyIs(st, places, stale, env, c);
    if fuel == 0 {
      LastsNone(w, final, Spot(|st.blocks|, 0, c));
    } else {
      var k := |st.blocks|;
      var inside := LoopInside(s, limit, st);
      var head := Spot(k, 0, c);
      var m, c1 := EnterRuns(w, final, s, limit, lim, result, st, places, stale, env, c);
      match Test(w, s, lim, env)
      case Some(Num(b)) =>
        if b == 0 {
          n, d := m, c1;
        } else {
          var j, c2 := BlockRuns(w, final, s.body, result, inside, places, stale, env, c1, fuel - 1);
          var o := ExecBlock(w, s.body, result, env, fuel - 1);
          n, d := PassRuns(w, final, s, limit, result, st, places, o, head, c1, m, c2, j, fuel - 1);
          if (o.Normal? || o.Continued?) && Advance(w, s, o.env).Some? {
            var env2, c3, n1 := Advance(w, s, o.env).value, d, n;
            LimitedKept(s, limit, lim, st.temps, c.regs, c3.regs);
            ReadyAgain(st, places, stale, env, c, env2, c3);
            n, d := LoopRuns(w, final, s, limit, lim, result, st, places, stale, env2, c3, fuel - 1);
            LoopMatchesAfter(w, final, head, Spot(k, 0, c3), n1, ExecLoop(w, s, lim, result, env2, fuel - 1), EndIndex(s, k), places, st.temps, fuel, fuel - 1, n, d);
            n := n + n1;
          }
        }
      case _ =>
    }
  }

  lemma LastsNone(w: World, final: seq<Block>, p: Spot)
    ensures Lasts(w, final, p, -1)
  {
  }

  lemma LimitedKept(s: Stmt, limit: Name, lim: Option<Value>, bound: nat, a: Regs, b: Regs)
    requires IsLoop(s) && Limited(s, limit, lim, bound, a) && SameBelow(a, b, bound)
    ensures Limited(s, limit, lim, bound, b)
  {
  }

  /// From the statement to the head, and from the last block of the loop on.
  lemma LoopStmtMatches(w: World, final: seq<Block>, s: Stmt, limit: Name, result: Ty, st: LState, places: Scopes<Name>, o: Out, c: Config, fuel: nat, n: nat, d: Config)
    requires IsLoop(s) && Open(st) && Grows(LowerLoop(s, limit, result, st).blocks, final) && DistinctLabels(final) && !LowerLoop(s, limit, result, st).err
    requires LoopMatches(w, final, Spot(|st.blocks|, 0, c), o, EndIndex(s, |st.blocks|), places, st.temps, fuel, n, d)
    ensures Matches(w, final, Here(st, c), o, st, LowerLoop(s, limit, result, st), places, fuel, n + 1, d)
  {
    hide Holds, Grows, Empty, RunAt, Reaches, Lasts, LowerLoop, LowerHead, LoopInside, LowerSeq, LowerStep, Close, SameBelow, LoopBlocks, Extends;
    var k := |st.blocks|;
    LoopParts(s, limit, result, st, final);
    LoopExtends(s, limit, result, st);
    LoopBlocksMade(s, st);
    var made := LoopBlocks(s, st);
    OpenMore(st, made);
    EnteredIs(s, st);
    CloseRuns(w, final, made, k, c);
    var head := Spot(k, 0, c);
    var r := LowerLoop(s, limit, result, st);
    match o
    case Normal(_) =>
      ReachesTransitive(w, final, Here(st, c), head, Spot(EndIndex(s, k), 0, d), 1, n);
      HereEmpty(r, EndIndex(s, k), d);
    case Done(_) => ReachesEnd(w, final, Here(st, c), head, 1, n);
    case Fault => ReachesEnd(w, final, Here(st, c), head, 1, n);
    case OutOfFuel => ReachesLasts(w, final, Here(st, c), head, 1, fuel - 1);
  }

  lemma EnteredIs(s: Stmt, st: LState)
    requires IsLoop(s)
    ensures LoopEntered(s, st).blocks == Close(LoopBlocks(s, st), |st.blocks|).blocks
  {
  }

  lemma {:induction false} WhileRuns(w: World, final: seq<Block>, s: Stmt, result: Ty, st: LState, places: Scopes<Name>, stale: set<string>,
                                     env: Env, c: Config, fuel: nat)
    returns (n: nat, d: Config)
    requires (s.While? || s.Loop?) && Ready(st, places, stale, env, c) && Clear(s, stale, st.loops != [])
    requires Grows(LowerStmt(s, result, st).blocks, final) && DistinctLabels(final) && !LowerStmt(s, result, st).err
    ensures Matches(w, final, Here(st, c), ExecStmt(w, s, result, env, fuel), st, LowerStmt(s, result, st), places, fuel, n, d)
    decreases fuel, s, 0, 1
  {
    hide Holds, Placed, Resolved, Grows, LowerLoop, ExecLoop, LoopMatches, Matches;
    n, d := LoopRuns(w, final, s, Plain(""), None, result, st, places, stale, env, c, fuel);
    LoopStmtMatches(w, final, s, Plain(""), result, st, places, ExecLoop(w, s, None, result, env, fuel), c, fuel, n, d);
    n := n + 1;
  }

  lemma {:induction false} ForRuns(w: World, final: seq<Block>, s: Stmt, result: Ty, st: LState, places: Scopes<Name>, stale: set<string>,
                                   env: Env, c: Config, fuel: nat)
    returns (n: nat, d: Config)
    requires s.For? && Ready(st, places, stale, env, c) && Clear(s, stale, st.loops != [])
    requires Grows(LowerStmt(s, result, st).blocks, final) && DistinctLabels(final) && !LowerStmt(s, result, st).err
    ensures Matches(w, final, Here(st, c), ExecStmt(w, s, result, env, fuel), st, LowerStmt(s, result, st), places, fuel, n, d)
    decreases fuel, s, 0, 1
  {
    hide Holds, Placed, Resolved, Grows, LowerLoop, ExecLoop, LoopMatches, Matches, Bind, LowerExpr, Eval, RunAt, Reaches, Extends, SameBelow, LeaveScope;
    n := 0;
    var r := LowerStmt(s, result, st);
    var limit, bound := ForBound(s, st);
    LoopExtends(s, limit, result, bound);
    GrowsBack(bound, r, final);
    d := ForBoundsRun(w, final, s, st, bound, places, stale, env, c);
    match (Eval(w, s.begin, env), Eval(w, s.end, env))
    case (Some(from), Some(to)) =>
      var sl := Slot(s.name, st.slotCount);
      var inner := env + [map[s.name := from]];
      var c1 := d;
      ExtendsMore(st, bound);
      n, d := LoopRuns(w, final, s, limit, Some(to), result, bound, places + [map[s.name := sl]], stale - {s.name}, inner, c1, fuel);
      var o := ExecLoop(w, s, Some(to), result, inner, fuel);
      LoopStmtMatches(w, final, s, limit, result, bound, places + [map[s.name := sl]], o, c1, fuel, n, d);
      MatchesAfter(w, final, Here(st, c), Here(bound, c1), 0, o, st, bound, r, places + [map[s.name := sl]], fuel, n + 1, d);
      LeaveMatches(w, final, Here(st, c), o, st, r, places, places + [map[s.name := sl]], map[s.name := sl], fuel, n + 1, d);
      n := n + 1;
    case _ => FaultMatches(w, final, Here(st, c), st, r, places, fuel, d);
  }

  /// The bounds of a `for` are evaluated once, its variable gets its slot.
  lemma ForBoundsRun(w: World, final: seq<Block>, s: Stmt, st: LState, bound: LState, places: Scopes<Name>, stale: set<string>, env: Env, c: Config)
    returns (d: Config)
    requires s.For? && Ready(st, places, stale, env, c) && Uses(s.begin) !! stale && Uses(s.end) !! stale
    requires bound == Bind(LowerExpr(s.end, LowerExpr(s.begin, st).st).st, s.name, s.begin.ty, LowerExpr(s.begin, st).name)
    requires Grows(bound.blocks, final) && !bound.err
    ensures var from, to := Eval(w, s.begin, env), Eval(w, s.end, env);
      if from.Some? && to.Some? then
        && Open(bound) && Reaches(w, final, Here(st, c), Here(bound, d), 0) && SameBelow(c.regs, d.regs, st.temps)
        && Ready(bound, places + [map[s.name := Slot(s.name, st.slotCount)]], stale - {s.name}, env + [map[s.name := from.value]], d)
        && Limited(s, LowerExpr(s.end, LowerExpr(s.begin, st).st).name, to, bound.temps, d.regs)
      else RunAt(w, final, Here(st, c), 0).Faulted?
  {
    hide Holds, Placed, Resolved, LowerExpr, Eval, Steps, Breaks, Reaches, RunAt, Straight, Bind, Extends, Grows, SameBelow;
    var from := LowerExpr(s.begin, st);
    var to := LowerExpr(s.end, from.st);
    ExprStraight(s.begin, st);
    StraightSame(st, from.st);
    ExprStraight(s.end, from.st);
    StraightSame(from.st, to.st);
    BindExtends(to.st, s.name, s.begin.ty, from.name);
    GrowsBack(to.st, bound, final);
    GrowsBack(from.st, to.st, final);
    ExtendsMore(from.st, to.st);
    ExtendsMore(to.st, bound);
    d := ExprRuns(w, s.begin, st, places, st.slotCount, stale, env, c);
    match Eval(w, s.begin, env)
    case None => BreaksFault(w, final, st, from.st, c, 0);
    case Some(first) =>
      var c1 := d;
      StepsReach(w, final, st, from.st, c, c1);
      d := ExprRuns(w, s.end, from.st, places, st.slotCount, stale, env, c1);
      match Eval(w, s.end, env) {
        case None =>
          BreaksFault(w, final, from.st, to.st, c1, 0);
          ReachesEnd(w, final, Here(st, c), Here(from.st, c1), 0, 0);
        case Some(last) =>
          var c2 := d;
          StepsReach(w, final, from.st, to.st, c1, c2);
          ReachesTransitive(w, final, Here(st, c), Here(from.st, c1), Here(to.st, c2), 0, 0);
          SameBelowTransitive(c.regs, c1.regs, c2.regs, st.temps, from.st.temps);
          KeptBelow(c1.regs, c2.regs, from.st.temps, from.name);
          OpenScope(env, places, c.mem, st.slotCount, st.slots, stale);
          d := BindRuns(w, final, to.st, s.name, s.begin.ty, from.name, places + [map[]], stale, env + [map[]], c2);
          ReachesTransitive(w, final, Here(st, c), Here(to.st, c2), Here(bound, d), 0, 0);
          assert Declare(env + [map[]], s.name, first) == env + [map[s.name := first]];
          assert Declare(places + [map[]], s.name, Slot(s.name, st.slotCount)) == places + [map[s.name := Slot(s.name, st.slotCount)]];
      }
  }

  lemma KeptBelow(a: Regs, b: Regs, bound: nat, n: Name)
    requires SameBelow(a, b, bound) && n.Temp? && n.n < bound && n in a
    ensures n in b && b[n] == a[n]
  {
  }
}
