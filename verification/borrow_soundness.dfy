/// The checker is sound: a function it accepts uses no invalidated reference
/// and no moved value on any control-flow path.

module BorrowSoundness {
  import opened Places
  import opened BorrowSyntax
  import opened BorrowState
  import opened BorrowCheck
  import opened Liveness
  import opened Paths
  import opened CallArguments
  import opened ExprSoundness
  import opened StmtSoundness

  // ---- scopes are the same on every path ----

  ghost predicate LeavesAt(states: seq<State>, scopes: Scopes, depth: Option<nat>) {
    forall x :: x in states ==> depth.Some? && depth.value <= |scopes| && x.scopes == scopes[..depth.value]
  }

  ghost predicate DepthFits(depth: Option<nat>, scopes: Scopes) { depth.Some? ==> depth.value <= |scopes| }

  lemma {:induction false} StmtScopes(s: Stmt, st: State, lv: Tables, depth: Option<nat>)
    requires st.scopes != [] && DepthFits(depth, st.scopes)
    ensures var f := CheckStmt(s, st, lv, depth);
            (st.reachable ==> f.st.scopes == Next(s, st.scopes)) && LeavesAt(f.breaks, st.scopes, depth) && LeavesAt(f.conts, st.scopes, depth)
    decreases s, MaxIterations + 2
  {
    if st.reachable {
      LiveScopes(s, Expire(s.id, lv, st), lv, depth);
    }
  }

  lemma {:induction false} LiveScopes(s: Stmt, e: State, lv: Tables, depth: Option<nat>)
    requires e.scopes != [] && DepthFits(depth, e.scopes)
    ensures var f := CheckLive(s, e, lv, depth);
            f.st.scopes == Next(s, e.scopes) && LeavesAt(f.breaks, e.scopes, depth) && LeavesAt(f.conts, e.scopes, depth)
    decreases s, MaxIterations + 1
  {
    hide Inspect, CheckAssign, IterateWhile, IterateFor, IterateLoop, CheckBlock, Truncate, EscapeErrors;
    match s
    case Let(_, _, _, init) => if init.Some? { InspectFrame(init.value, Move, e); }
    case Assign(_, compound, t, value, pos) => AssignScopes(compound, t, value, pos, e);
    case ExprStmt(_, x) => InspectFrame(x, Move, e);
    case Return(_, x, _, _) => if x.Some? { InspectFrame(x.value, Move, e); }
    case Break(_) => if depth.Some? { TruncateScopes(e, depth.value); }
    case Continue(_) => if depth.Some? { TruncateScopes(e, depth.value); }
    case Block(_, body) => BlockScopes(body, e, lv, depth);
    case If(_, cond, thn, els) =>
      InspectFrame(cond, Move, e);
      var c := Inspect(cond, Move, e).st;
      BlockScopes(thn, c, lv, depth);
      BlockScopes(els, c, lv, depth);
    case While(_, _, _, _) => WhileScopes(s, e, e, e, None, lv, MaxIterations);
    case For(_, _, _, b, x, _, _) =>
      InspectFrame(b, Move, e);
      var bc := Inspect(b, Move, e).st;
      InspectFrame(x, Move, bc);
      var xc := Inspect(x, Move, bc).st;
      ForScopes(s, xc, xc, None, lv, MaxIterations);
    case Loop(_, _, _) => LoopScopes(s, e, e, None, lv, MaxIterations);
  }

  lemma StoreScopes(p: Place, pos: Pos, value: Expr, refTarget: bool, v: Checked)
    ensures StoreInto(p, pos, value, refTarget, v).st.scopes == v.st.scopes
  {
    hide Conflict, TypeOfPlace, Unavailable, HasMovedAncestor, Effective, Clashes, IsWithin, ContainsReference;
  }

  lemma AssignScopes(compound: bool, t: Target, value: Expr, pos: Pos, st: State)
    ensures CheckAssign(compound, t, value, pos, st).st.scopes == st.scopes
  {
    hide Inspect, Conflict, TypeOfPlace, Unavailable, HasMovedAncestor, Effective, Clashes, IsWithin, ContainsReference, StoreInto;
    var p := t.pe.place;
    forall refTarget, v: Checked ensures StoreInto(p, t.pe.pos, value, refTarget, v).st.scopes == v.st.scopes {
      StoreScopes(p, t.pe.pos, value, refTarget, v);
    }
    if t.Direct? {
      if compound {
        InspectFrame(value, Move, Reserve(p, CompoundTarget(pos), t.pe.pos, st).st);
      } else {
        InspectFrame(value, Move, KillHoldersUnder(p, st));
      }
    } else {
      InspectFrame(value, Move, (if compound then AccessPlace(p, t.pe.pos, Read, st, {}) else Checked(st, {})).st);
    }
  }

  lemma {:induction false} BlockScopes(body: seq<Stmt>, st: State, lv: Tables, depth: Option<nat>)
    requires DepthFits(depth, st.scopes)
    ensures var f := CheckBlock(body, st, lv, depth);
            f.st.scopes == st.scopes && LeavesAt(f.breaks, st.scopes, depth) && LeavesAt(f.conts, st.scopes, depth)
    decreases body, MaxIterations + 4
  {
    if st.reachable {
      var inner := PushScope(st);
      SeqScopes(body, inner, lv, depth, st.scopes);
      var f := CheckSeq(body, inner, lv, depth);
      TruncateScopes(f.st, |st.scopes|);
    }
  }

  /// Statements of a block change its own scope only; `outer` is what is around it.
  lemma {:induction false} SeqScopes(ss: seq<Stmt>, st: State, lv: Tables, depth: Option<nat>, outer: Scopes)
    requires |st.scopes| == |outer| + 1 && st.scopes[..|outer|] == outer && DepthFits(depth, outer)
    ensures var f := CheckSeq(ss, st, lv, depth);
            |f.st.scopes| == |outer| + 1 && f.st.scopes[..|outer|] == outer &&
            LeavesAt(f.breaks, outer, depth) && LeavesAt(f.conts, outer, depth)
    decreases ss, MaxIterations + 3
  {
    if ss != [] && st.reachable {
      StmtScopes(ss[0], st, lv, depth);
      var f := CheckStmt(ss[0], st, lv, depth);
      assert Next(ss[0], st.scopes)[..|outer|] == outer;
      SeqScopes(ss[1..], f.st, lv, depth, outer);
      if depth.Some? {
        assert st.scopes[..depth.value] == st.scopes[..|outer|][..depth.value];
      }
    }
  }

  lemma ReachableIsEntry(entry: State, f: Flow)
    requires f.st.scopes == entry.scopes && LeavesAt(f.conts, entry.scopes, Some(|entry.scopes|))
    ensures forall x :: x in [f.st] + f.conts ==> x.scopes == entry.scopes
  {
  }

  lemma NextHeaderScopes(entry: State, f: Flow)
    requires f.st.scopes == entry.scopes && LeavesAt(f.conts, entry.scopes, Some(|entry.scopes|))
    ensures var h := NextHeader(entry, f); h.scopes == entry.scopes && (entry.reachable ==> Covered(entry, h))
    ensures var h := NextHeader(entry, f); entry.reachable ==> forall x :: x in [f.st] + f.conts && x.reachable ==> Covered(x, h)
  {
    ReachableIsEntry(entry, f);
    MergeAllCovers(None, [f.st] + f.conts, entry.scopes);
    var back := MergeAll(None, [f.st] + f.conts);
    if back.Some? {
      MergeCovers(entry, back.value);
    }
  }

  ghost predicate FitsExit(breakExit: Option<State>, scopes: Scopes) {
    breakExit.Some? ==> breakExit.value.reachable && breakExit.value.scopes == scopes
  }

  lemma BreaksFit(breakExit: Option<State>, breaks: seq<State>, scopes: Scopes)
    requires FitsExit(breakExit, scopes) && LeavesAt(breaks, scopes, Some(|scopes|))
    ensures FitsExit(MergeAll(breakExit, breaks), scopes)
    ensures breakExit.Some? ==> MergeAll(breakExit, breaks).Some? && Covered(breakExit.value, MergeAll(breakExit, breaks).value)
    ensures forall x :: x in breaks && x.reachable ==> MergeAll(breakExit, breaks).Some? && Covered(x, MergeAll(breakExit, breaks).value)
  {
    MergeAllCovers(breakExit, breaks, scopes);
  }

  lemma {:induction false} WhileScopes(s: Stmt, entry: State, header: State, exit: State, breakExit: Option<State>, lv: Tables, n: nat)
    requires s.While? && n <= MaxIterations && entry.scopes != []
    requires header.scopes == entry.scopes && exit.scopes == entry.scopes && FitsExit(breakExit, entry.scopes)
    ensures var it := IterateWhile(s, entry, header, exit, breakExit, lv, n);
            it.exit.scopes == entry.scopes && FitsExit(it.breakExit, entry.scopes)
    decreases s, n
  {
    if n != 0 {
      InspectFrame(s.cond, Move, header);
      var c := Inspect(s.cond, Move, header);
      BlockScopes(s.body, c.st, lv, Some(|entry.scopes|));
      var f := CheckBlock(s.body, c.st, lv, Some(|entry.scopes|));
      BreaksFit(breakExit, f.breaks, entry.scopes);
      NextHeaderScopes(entry, f);
      var next := NextHeader(entry, f);
      if !Equivalent(next, header) {
        WhileScopes(s, entry, next, c.st, MergeAll(breakExit, f.breaks), lv, n - 1);
      }
    }
  }

  lemma {:induction false} ForBodyScopes(s: Stmt, entry: State, header: State, lv: Tables)
    requires s.For? && header.scopes == entry.scopes
    ensures var f := CheckForBody(s, entry, header, lv);
            f.st.scopes == entry.scopes &&
            LeavesAt(f.breaks, entry.scopes, Some(|entry.scopes|)) && LeavesAt(f.conts, entry.scopes, Some(|entry.scopes|))
    decreases s, 0
  {
    var inner := header.(scopes := header.scopes + [map[s.key := s.ty]]);
    var d := |entry.scopes|;
    BlockScopes(s.body, inner, lv, Some(d));
    TruncateScopes(CheckBlock(s.body, inner, lv, Some(d)).st, d);
    assert inner.scopes[..d] == entry.scopes == entry.scopes[..d];
  }

  lemma {:induction false} ForScopes(s: Stmt, entry: State, header: State, breakExit: Option<State>, lv: Tables, n: nat)
    requires s.For? && n <= MaxIterations && header.scopes == entry.scopes && FitsExit(breakExit, entry.scopes)
    ensures var it := IterateFor(s, entry, header, breakExit, lv, n);
            it.exit.scopes == entry.scopes && FitsExit(it.breakExit, entry.scopes)
    decreases s, n
  {
    if n != 0 {
      ForBodyScopes(s, entry, header, lv);
      var f := CheckForBody(s, entry, header, lv);
      BreaksFit(breakExit, f.breaks, entry.scopes);
      NextHeaderScopes(entry, f);
      var next := NextHeader(entry, f);
      if !Equivalent(next, header) {
        ForScopes(s, entry, next, MergeAll(breakExit, f.breaks), lv, n - 1);
      }
    }
  }

  lemma {:induction false} LoopScopes(s: Stmt, entry: State, header: State, breakExit: Option<State>, lv: Tables, n: nat)
    requires s.Loop? && n <= MaxIterations && header.scopes == entry.scopes && FitsExit(breakExit, entry.scopes)
    ensures FitsExit(IterateLoop(s, entry, header, breakExit, lv, n).breakExit, entry.scopes)
    decreases s, n
  {
    if n != 0 {
      BlockScopes(s.body, header, lv, Some(|entry.scopes|));
      var f := CheckBlock(s.body, header, lv, Some(|entry.scopes|));
      BreaksFit(breakExit, f.breaks, entry.scopes);
      NextHeaderScopes(entry, f);
      var next := NextHeader(entry, f);
      if MergeAll(None, [f.st] + f.conts).Some? && !Equivalent(next, header) {
        LoopScopes(s, entry, next, MergeAll(breakExit, f.breaks), lv, n - 1);
      }
    }
  }

  // ---- settled loops ----

  function HeadChecked(s: Stmt, h: State): Checked {
    if s.While? then Inspect(s.cond, Move, h) else Checked(h, {})
  }

  function PassFlow(s: Stmt, entry: State, h: State, lv: Tables): Flow
    requires IsLoop(s)
  {
    if s.For? then CheckForBody(s, entry, h, lv)
    else CheckBlock(s.body, HeadChecked(s, h).st, lv, Some(|entry.scopes|))
  }

  /// `h` accounts for the loop head: for the entry and for every way back to
  /// it, and a pass from `h` is free of diagnostics.
  ghost predicate Settled(s: Stmt, entry: State, h: State, lv: Tables)
    requires IsLoop(s)
  {
    var f := PassFlow(s, entry, h, lv);
    && HeadChecked(s, h).errs == {} && f.errs == {}
    && entry.reachable && Covered(entry, h)
    && (forall x :: x in [f.st] + f.conts && x.reachable ==> Covered(x, h))
  }

  /// The exits of a loop as its last pass leaves them.
  ghost predicate BreaksReach(s: Stmt, entry: State, h: State, lv: Tables, breakExit: Option<State>)
    requires IsLoop(s)
  {
    forall x :: x in PassFlow(s, entry, h, lv).breaks && x.reachable ==> breakExit.Some? && Covered(x, breakExit.value)
  }

  lemma {:induction false} WhileSettles(s: Stmt, entry: State, header: State, exit: State, breakExit: Option<State>, lv: Tables, n: nat) returns (h: State)
    requires s.While? && n <= MaxIterations && entry.scopes != [] && entry.reachable
    requires header.scopes == entry.scopes && FitsExit(breakExit, entry.scopes)
    requires IterateWhile(s, entry, header, exit, breakExit, lv, n).errs == {}
    ensures h.scopes == entry.scopes && Settled(s, entry, h, lv)
    ensures var it := IterateWhile(s, entry, header, exit, breakExit, lv, n);
            it.exit == HeadChecked(s, h).st && BreaksReach(s, entry, h, lv, it.breakExit)
    decreases n
  {
    hide CheckBlock, NextHeader, MergeAll, Inspect;
    InspectFrame(s.cond, Move, header);
    var c := Inspect(s.cond, Move, header);
    BlockScopes(s.body, c.st, lv, Some(|entry.scopes|));
    var f := CheckBlock(s.body, c.st, lv, Some(|entry.scopes|));
    BreaksFit(breakExit, f.breaks, entry.scopes);
    NextHeaderScopes(entry, f);
    var next := NextHeader(entry, f);
    if Equivalent(next, header) {
      h := header;
      assert f == PassFlow(s, entry, h, lv);
    } else {
      h := WhileSettles(s, entry, next, c.st, MergeAll(breakExit, f.breaks), lv, n - 1);
    }
  }

  lemma {:induction false} ForSettles(s: Stmt, entry: State, header: State, breakExit: Option<State>, lv: Tables, n: nat) returns (h: State)
    requires s.For? && n <= MaxIterations && entry.reachable
    requires header.scopes == entry.scopes && FitsExit(breakExit, entry.scopes)
    requires IterateFor(s, entry, header, breakExit, lv, n).errs == {}
    ensures h.scopes == entry.scopes && Settled(s, entry, h, lv)
    ensures var it := IterateFor(s, entry, header, breakExit, lv, n);
            it.exit == h && BreaksReach(s, entry, h, lv, it.breakExit)
    decreases n
  {
    ForBodyScopes(s, entry, header, lv);
    var f := CheckForBody(s, entry, header, lv);
    BreaksFit(breakExit, f.breaks, entry.scopes);
    NextHeaderScopes(entry, f);
    var next := NextHeader(entry, f);
    if Equivalent(next, header) {
      h := header;
      assert next == header;
      assert f == PassFlow(s, entry, h, lv);
    } else {
      h := ForSettles(s, entry, next, MergeAll(breakExit, f.breaks), lv, n - 1);
    }
  }

  lemma {:induction false} LoopSettles(s: Stmt, entry: State, header: State, breakExit: Option<State>, lv: Tables, n: nat) returns (h: State)
    requires s.Loop? && n <= MaxIterations && entry.reachable && Covered(entry, header)
    requires header.scopes == entry.scopes && FitsExit(breakExit, entry.scopes)
    requires IterateLoop(s, entry, header, breakExit, lv, n).errs == {}
    ensures h.scopes == entry.scopes && Settled(s, entry, h, lv)
    ensures BreaksReach(s, entry, h, lv, IterateLoop(s, entry, header, breakExit, lv, n).breakExit)
    decreases n
  {
    hide CheckBlock, NextHeader, MergeAll;
    BlockScopes(s.body, header, lv, Some(|entry.scopes|));
    var f := CheckBlock(s.body, header, lv, Some(|entry.scopes|));
    BreaksFit(breakExit, f.breaks, entry.scopes);
    NextHeaderScopes(entry, f);
    ReachableIsEntry(entry, f);
    MergeAllCovers(None, [f.st] + f.conts, entry.scopes);
    var next := NextHeader(entry, f);
    if MergeAll(None, [f.st] + f.conts) == None || Equivalent(next, header) {
      h := header;
      assert f == PassFlow(s, entry, h, lv);
    } else {
      h := LoopSettles(s, entry, next, MergeAll(breakExit, f.breaks), lv, n - 1);
    }
  }
}
