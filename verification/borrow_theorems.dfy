/// The soundness theorems of the borrow checker.

module BorrowTheorems {
  import opened Places
  import opened BorrowSyntax
  import opened BorrowState
  import opened BorrowCheck
  import opened Liveness
  import opened Paths
  import opened CallArguments
  import opened ExprSoundness
  import opened StmtSoundness
  import opened BorrowSoundness

  // ---- leaving to an enclosing loop ----

  /// `st`, with the scopes down to `depth` left, is one of `states`.
  ghost predicate Arrives(st: State, depth: nat, states: seq<State>) {
    Truncate(st, depth).errs == {} && Truncate(st, depth).st in states
  }

  /// A path that leaves for the enclosing loop is accounted for by a state
  /// the checker hands to that loop.
  ghost predicate Exits(cx: Context, m: Monitor, scopes: Scopes, live: LiveSet, depth: Option<nat>, states: seq<State>) {
    depth.Some? ==> exists st :: Accounts(cx, m, st, scopes, live) && Arrives(st, depth.value, states)
  }

  lemma ExitsMore(cx: Context, m: Monitor, scopes: Scopes, live: LiveSet, depth: Option<nat>, states: seq<State>, more: seq<State>)
    requires Exits(cx, m, scopes, live, depth, states)
    requires forall x :: x in states ==> x in more
    ensures Exits(cx, m, scopes, live, depth, more)
  {
    if depth.Some? {
      var st :| Accounts(cx, m, st, scopes, live) && Arrives(st, depth.value, states);
      assert Arrives(st, depth.value, more);
    }
  }

  /// Leaving one more scope on the way out.
  lemma ExitsPop(cx: Context, m: Monitor, scopes: Scopes, live: LiveSet, depth: Option<nat>, states: seq<State>)
    requires scopes != [] && Exits(cx, m, scopes, live, depth, states) && DepthFits(depth, scopes[..|scopes| - 1])
    ensures depth.Some? ==> Ok(m, Dead(scopes[|scopes| - 1].Keys))
    ensures Exits(cx, Step(m, Dead(scopes[|scopes| - 1].Keys)), scopes[..|scopes| - 1], live, depth, states)
  {
    if depth.Some? {
      var st :| Accounts(cx, m, st, scopes, live) && Arrives(st, depth.value, states);
      PopStep(cx, m, st, scopes, live);
      assert Arrives(PopScope(st).st, depth.value, states);
    }
  }

  /// At the loop's own depth nothing is left to leave.
  lemma ExitsHere(cx: Context, m: Monitor, scopes: Scopes, live: LiveSet, states: seq<State>)
    requires Exits(cx, m, scopes, live, Some(|scopes|), states)
    ensures exists st :: st in states && Accounts(cx, m, st, scopes, live)
  {
    var st :| Accounts(cx, m, st, scopes, live) && Arrives(st, |scopes|, states);
    assert Truncate(st, |scopes|).st == st;
  }

  /// What a run of a piece of code leaves behind, by how it ends.
  ghost predicate Lands(cx: Context, m: Monitor, r: Result, f: Flow, after: LiveSet, brk: LiveSet, cont: LiveSet, depth: Option<nat>) {
    match r.out
    case Normal => Accounts(cx, m, f.st, r.scopes, after)
    case Broke => Exits(cx, m, r.scopes, brk, depth, f.breaks)
    case Continued => Exits(cx, m, r.scopes, cont, depth, f.conts)
    case _ => true
  }

  /// Outside of loops `break` and `continue` do not occur.
  predicate Leaves(r: Result) { r.out == Broke || r.out == Continued }

  // ---- statements ----

  /// `break` and `continue` occur inside loops only.
  predicate JumpsInLoop(s: Stmt, inLoop: bool)
    decreases s, 1
  {
    match s
    case Break(_) => inLoop
    case Continue(_) => inLoop
    case Block(_, body) => SeqJumpsInLoop(body, inLoop)
    case If(_, _, thn, els) => SeqJumpsInLoop(thn, inLoop) && SeqJumpsInLoop(els, inLoop)
    case While(_, _, body, _) => SeqJumpsInLoop(body, true)
    case For(_, _, _, _, _, body, _) => SeqJumpsInLoop(body, true)
    case Loop(_, body, _) => SeqJumpsInLoop(body, true)
    case _ => true
  }

  predicate SeqJumpsInLoop(ss: seq<Stmt>, inLoop: bool)
    decreases ss, 0
  {
    ss == [] || (JumpsInLoop(ss[0], inLoop) && SeqJumpsInLoop(ss[1..], inLoop))
  }

  lemma {:induction false} StmtSound(cx: Context, s: Stmt, m: Monitor, st: State, after: LiveSet, brk: LiveSet, cont: LiveSet,
                                     depth: Option<nat>, lv: Tables, ch: seq<bool>)
    requires st.scopes != [] && DepthFits(depth, st.scopes) && InFragment(cx, s, st.scopes) && JumpsInLoop(s, depth.Some?)
    requires Annotated(Roots, s, after, brk, cont, lv.roots)
    requires Accounts(cx, m, st, st.scopes, Live(Roots, s, after, brk, cont))
    requires CheckStmt(s, st, lv, depth).errs == {}
    ensures var r := Run(s, st.scopes, ch); var m' := Observe(m, r.events);
            Safe(m, r.events) && r.scopes == (if r.out == Normal then Next(s, st.scopes) else st.scopes) &&
            (Leaves(r) ==> depth.Some?) && Lands(cx, m', r, CheckStmt(s, st, lv, depth), after, brk, cont, depth)
    decreases |ch|, s, 6
  {
    hide Safe, CheckLive, Run, InFragment, JumpsInLoop, Live;
    ExpireStep(cx, s.id, lv, m, st, Live(Roots, s, after, brk, cont));
    LiveSound(cx, s, m, Expire(s.id, lv, st), after, brk, cont, depth, lv, ch);
  }

  lemma {:induction false} LiveSound(cx: Context, s: Stmt, m: Monitor, e: State, after: LiveSet, brk: LiveSet, cont: LiveSet,
                                     depth: Option<nat>, lv: Tables, ch: seq<bool>)
    requires e.scopes != [] && DepthFits(depth, e.scopes) && InFragment(cx, s, e.scopes) && JumpsInLoop(s, depth.Some?)
    requires Annotated(Roots, s, after, brk, cont, lv.roots)
    requires Accounts(cx, m, e, e.scopes, Live(Roots, s, after, brk, cont)) && CheckLive(s, e, lv, depth).errs == {}
    ensures var r := Run(s, e.scopes, ch); var m' := Observe(m, r.events);
            Safe(m, r.events) && r.scopes == (if r.out == Normal then Next(s, e.scopes) else e.scopes) &&
            (Leaves(r) ==> depth.Some?) && Lands(cx, m', r, CheckLive(s, e, lv, depth), after, brk, cont, depth)
    decreases |ch|, s, 5
  {
    hide Accounts, Safe, CheckLive, Run, Observe, InFragment, JumpsInLoop, Annotated, Live;
    if s.Block? {
      BlockStmtSound(cx, s, m, e, after, brk, cont, depth, lv, ch);
    } else if s.If? {
      IfSound(cx, s, m, e, after, brk, cont, depth, lv, ch);
    } else if s.While? {
      LoopJumps(s, depth.Some?);
      WhileSound(cx, s, m, e, after, brk, cont, depth, lv, ch);
    } else if s.For? {
      LoopJumps(s, depth.Some?);
      ForSound(cx, s, m, e, after, brk, cont, depth, lv, ch);
    } else if s.Loop? {
      LoopJumps(s, depth.Some?);
      LoopStmtSound(cx, s, m, e, after, brk, cont, depth, lv, ch);
    } else {
      SimpleSound(cx, s, m, e, after, brk, cont, depth, lv, ch);
    }
  }

  lemma LoopJumps(s: Stmt, inLoop: bool)
    requires IsLoop(s) && JumpsInLoop(s, inLoop)
    ensures JumpsInLoop(s, true)
  {
  }

  lemma {:induction false} BlockStmtSound(cx: Context, s: Stmt, m: Monitor, e: State, after: LiveSet, brk: LiveSet, cont: LiveSet,
                                          depth: Option<nat>, lv: Tables, ch: seq<bool>)
    requires s.Block? && DepthFits(depth, e.scopes) && InFragment(cx, s, e.scopes) && JumpsInLoop(s, depth.Some?)
    requires Annotated(Roots, s, after, brk, cont, lv.roots)
    requires Accounts(cx, m, e, e.scopes, Live(Roots, s, after, brk, cont)) && CheckLive(s, e, lv, depth).errs == {}
    ensures var r := Run(s, e.scopes, ch); var m' := Observe(m, r.events);
            Safe(m, r.events) && r.scopes == e.scopes &&
            (Leaves(r) ==> depth.Some?) && Lands(cx, m', r, CheckLive(s, e, lv, depth), after, brk, cont, depth)
    decreases |ch|, s, 4
  {
    hide Accounts, Safe, CheckBlock, RunBlock, Observe;
    BlockSound(cx, s.body, m, e, after, brk, cont, depth, lv, ch);
  }

  lemma ExprStep(cx: Context, x: Expr, m: Monitor, e: State, live: LiveSet, after: LiveSet)
    requires Accounts(cx, m, e, e.scopes, live) && Inspect(x, Move, e).errs == {}
    requires Tame(cx, x, e.scopes) && Uses(Roots, x) <= live && after <= live
    ensures var ev := Events(x, Move, e.scopes);
            Safe(m, ev) && Accounts(cx, Observe(m, ev), Inspect(x, Move, e).st, e.scopes, after)
  {
    hide Accounts, Safe, Inspect, Events;
    InspectStep(cx, x, Move, m, e, live);
    InspectFrame(x, Move, e);
    AccountsNarrow(cx, Observe(m, Events(x, Move, e.scopes)), Inspect(x, Move, e).st, e.scopes, live, after);
  }

  lemma ReturnStep(cx: Context, x: Expr, bears: bool, pos: Pos, m: Monitor, e: State, live: LiveSet)
    requires Accounts(cx, m, e, e.scopes, live) && Inspect(x, Move, e).errs == {} && EscapeErrors(x, bears, pos, e) == {}
    requires Tame(cx, x, e.scopes) && Uses(Roots, x) <= live && bears == BearsReference(x, e.scopes)
    ensures Safe(m, EscapeEvents(x, e.scopes) + Events(x, Move, e.scopes) + [Exit(e.scopes)])
  {
    hide Accounts, Safe, Inspect, Events, EscapeErrors, EscapeEvents;
    EscapeStep(cx, x, bears, pos, m, e, live);
    var ev := EscapeEvents(x, e.scopes);
    InspectStep(cx, x, Move, Observe(m, ev), e, live);
    ObserveConcat(m, ev, Events(x, Move, e.scopes));
    var both := ev + Events(x, Move, e.scopes);
    ExitStep(cx, Observe(m, both), Inspect(x, Move, e).st, e.scopes, live);
    ObserveConcat(m, both, [Exit(e.scopes)]);
  }

  predicate IsSimple(s: Stmt) { !s.Block? && !s.If? && !IsLoop(s) }

  lemma SimpleSound(cx: Context, s: Stmt, m: Monitor, e: State, after: LiveSet, brk: LiveSet, cont: LiveSet,
                    depth: Option<nat>, lv: Tables, ch: seq<bool>)
    requires IsSimple(s)
    requires e.scopes != [] && DepthFits(depth, e.scopes) && InFragment(cx, s, e.scopes) && JumpsInLoop(s, depth.Some?)
    requires Accounts(cx, m, e, e.scopes, Live(Roots, s, after, brk, cont)) && CheckLive(s, e, lv, depth).errs == {}
    ensures var r := Run(s, e.scopes, ch); var m' := Observe(m, r.events);
            Safe(m, r.events) && r.scopes == (if r.out == Normal then Next(s, e.scopes) else e.scopes) &&
            (Leaves(r) ==> depth.Some?) && Lands(cx, m', r, CheckLive(s, e, lv, depth), after, brk, cont, depth)
  {
    hide Accounts, Safe, Inspect, Events, DefineLocal, LetEvents, CheckAssign, AssignEvents, EscapeErrors, EscapeEvents, Observe, Truncate;
    var live := Live(Roots, s, after, brk, cont);
    match s
    case Let(_, key, ty, init) =>
      LetStep(cx, key, ty, init, m, e, after);
      if init.Some? { InspectFrame(init.value, Move, e); }
    case Assign(_, compound, t, value, pos) =>
      AssignScopes(compound, t, value, pos, e);
      if t.Through? { AssignThroughStep(cx, compound, t, value, pos, m, e, after); }
      else if compound { AssignCompoundStep(cx, t, value, pos, m, e, after); }
      else { AssignPlainStep(cx, t, value, pos, m, e, after); }
    case ExprStmt(_, x) => ExprStep(cx, x, m, e, live, after);
    case Return(_, x, bears, pos) =>
      if x.Some? {
        ReturnStep(cx, x.value, bears, pos, m, e, live);
      } else {
        ExitStep(cx, m, e, e.scopes, live);
        assert Run(s, e.scopes, ch).events == [Exit(e.scopes)];
      }
    case Break(_) =>
      NothingHappens(m);
      assert Arrives(e, depth.value, CheckLive(s, e, lv, depth).breaks);
    case Continue(_) =>
      NothingHappens(m);
      assert Arrives(e, depth.value, CheckLive(s, e, lv, depth).conts);
  }

  lemma {:induction false} WhileSound(cx: Context, s: Stmt, m: Monitor, e: State, after: LiveSet, brk: LiveSet, cont: LiveSet,
                                      depth: Option<nat>, lv: Tables, ch: seq<bool>)
    requires s.While? && e.scopes != [] && InFragment(cx, s, e.scopes) && JumpsInLoop(s, true)
    requires Annotated(Roots, s, after, brk, cont, lv.roots)
    requires Accounts(cx, m, e, e.scopes, Live(Roots, s, after, brk, cont)) && CheckLive(s, e, lv, depth).errs == {}
    ensures var r := Run(s, e.scopes, ch); var m' := Observe(m, r.events);
            Safe(m, r.events) && r.scopes == e.scopes && !Leaves(r) &&
            (r.out == Normal ==> Accounts(cx, m', CheckLive(s, e, lv, depth).st, e.scopes, after))
    decreases |ch|, s, 4
  {
    AccountsReachable(cx, m, e, e.scopes, Live(Roots, s, after, brk, cont));
    hide Accounts, Safe, IterateWhile, RunLoop, Settled, BreaksReach, Merge, LeftLoop;
    var h := WhileSettles(s, e, e, e, None, lv, MaxIterations);
    SettledEntry(cx, s, m, e, h, Header(Roots, s, after), lv);
    LoopSound(cx, s, m, e, h, after, lv, ch);
    WhileScopes(s, e, e, e, None, lv, MaxIterations);
    var it := IterateWhile(s, e, e, e, None, lv, MaxIterations);
    LoopLands(cx, s, Observe(m, RunLoop(s, e.scopes, ch).events), e, h, it.exit, it.breakExit, after, lv);
  }

  lemma {:induction false} LoopStmtSound(cx: Context, s: Stmt, m: Monitor, e: State, after: LiveSet, brk: LiveSet, cont: LiveSet,
                                         depth: Option<nat>, lv: Tables, ch: seq<bool>)
    requires s.Loop? && e.scopes != [] && InFragment(cx, s, e.scopes) && JumpsInLoop(s, true)
    requires Annotated(Roots, s, after, brk, cont, lv.roots)
    requires Accounts(cx, m, e, e.scopes, Live(Roots, s, after, brk, cont)) && CheckLive(s, e, lv, depth).errs == {}
    ensures var r := Run(s, e.scopes, ch); var m' := Observe(m, r.events);
            Safe(m, r.events) && r.scopes == e.scopes && !Leaves(r) &&
            (r.out == Normal ==> Accounts(cx, m', CheckLive(s, e, lv, depth).st, e.scopes, after))
    decreases |ch|, s, 4
  {
    AccountsReachable(cx, m, e, e.scopes, Live(Roots, s, after, brk, cont));
    hide Accounts, Safe, IterateLoop, RunLoop, Settled, BreaksReach, LeftLoop;
    var h := LoopSettles(s, e, e, None, lv, MaxIterations);
    SettledEntry(cx, s, m, e, h, Header(Roots, s, after), lv);
    LoopSound(cx, s, m, e, h, after, lv, ch);
    LoopScopes(s, e, e, None, lv, MaxIterations);
    var it := IterateLoop(s, e, e, None, lv, MaxIterations);
    LoopLands(cx, s, Observe(m, RunLoop(s, e.scopes, ch).events), e, h, h, it.breakExit, after, lv);
  }

  lemma AccountsReachable(cx: Context, m: Monitor, st: State, scopes: Scopes, live: LiveSet)
    requires Accounts(cx, m, st, scopes, live)
    ensures st.reachable && st.scopes == scopes
  {
  }

  /// A settled head accounts for the state the loop is entered in.
  lemma SettledEntry(cx: Context, s: Stmt, m: Monitor, e: State, h: State, live: LiveSet, lv: Tables)
    requires IsLoop(s) && Settled(s, e, h, lv) && Accounts(cx, m, e, e.scopes, live)
    ensures Accounts(cx, m, h, e.scopes, live)
  {
    AccountsCovered(cx, m, e, h, e.scopes, live);
  }

  lemma {:induction false} IfSound(cx: Context, s: Stmt, m: Monitor, e: State, after: LiveSet, brk: LiveSet, cont: LiveSet,
                                   depth: Option<nat>, lv: Tables, ch: seq<bool>)
    requires s.If? && e.scopes != [] && DepthFits(depth, e.scopes) && InFragment(cx, s, e.scopes) && JumpsInLoop(s, depth.Some?)
    requires Annotated(Roots, s, after, brk, cont, lv.roots)
    requires Accounts(cx, m, e, e.scopes, Live(Roots, s, after, brk, cont)) && CheckLive(s, e, lv, depth).errs == {}
    ensures var r := Run(s, e.scopes, ch); var m' := Observe(m, r.events);
            Safe(m, r.events) && r.scopes == e.scopes &&
            (Leaves(r) ==> depth.Some?) && Lands(cx, m', r, CheckLive(s, e, lv, depth), after, brk, cont, depth)
    decreases |ch|, s, 4
  {
    hide Safe, Inspect, Events, CheckBlock, RunBlock, Truncate;
    var live := Live(Roots, s, after, brk, cont);
    var ev := Events(s.cond, Move, e.scopes);
    InspectStep(cx, s.cond, Move, m, e, live);
    InspectFrame(s.cond, Move, e);
    var c := Inspect(s.cond, Move, e).st;
    if ch != [] {
      var branch := if ch[0] then s.thn else s.els;
      AccountsNarrow(cx, Observe(m, ev), c, e.scopes, live, LiveBlock(Roots, branch, after, brk, cont));
      BlockSound(cx, branch, Observe(m, ev), c, after, brk, cont, depth, lv, ch[1..]);
      var r := RunBlock(branch, e.scopes, ch[1..]);
      ObserveConcat(m, ev, r.events);
      BlockScopes(s.thn, c, lv, depth);
      BlockScopes(s.els, c, lv, depth);
      JoinLands(cx, Observe(Observe(m, ev), r.events), r, CheckBlock(s.thn, c, lv, depth), CheckBlock(s.els, c, lv, depth), ch[0],
                e.scopes, after, brk, cont, depth);
    }
  }

  /// Either branch lands where their join lands.
  lemma JoinLands(cx: Context, m: Monitor, r: Result, l: Flow, rt: Flow, left: bool, scopes: Scopes, after: LiveSet, brk: LiveSet, cont: LiveSet, depth: Option<nat>)
    requires l.st.scopes == rt.st.scopes == scopes == r.scopes
    requires Lands(cx, m, r, if left then l else rt, after, brk, cont, depth)
    ensures Lands(cx, m, r, Flow(Merge(l.st, rt.st), {}, l.breaks + rt.breaks, l.conts + rt.conts), after, brk, cont, depth)
  {
    var f := if left then l else rt;
    MergeCovers(l.st, rt.st);
    if r.out == Normal {
      AccountsCovered(cx, m, f.st, Merge(l.st, rt.st), scopes, after);
    } else if r.out == Broke {
      ExitsMore(cx, m, r.scopes, brk, depth, f.breaks, l.breaks + rt.breaks);
    } else if r.out == Continued {
      ExitsMore(cx, m, r.scopes, cont, depth, f.conts, l.conts + rt.conts);
    }
  }

  lemma {:induction false} BlockSound(cx: Context, body: seq<Stmt>, m: Monitor, st: State, after: LiveSet, brk: LiveSet, cont: LiveSet,
                                      depth: Option<nat>, lv: Tables, ch: seq<bool>)
    requires DepthFits(depth, st.scopes) && SeqInFragment(cx, body, st.scopes + [map[]]) && SeqJumpsInLoop(body, depth.Some?)
    requires AnnotatedBlock(Roots, body, after, brk, cont, lv.roots)
    requires Accounts(cx, m, st, st.scopes, LiveBlock(Roots, body, after, brk, cont))
    requires CheckBlock(body, st, lv, depth).errs == {}
    ensures var r := RunBlock(body, st.scopes, ch); var m' := Observe(m, r.events);
            Safe(m, r.events) && r.scopes == st.scopes &&
            (Leaves(r) ==> depth.Some?) && Lands(cx, m', r, CheckBlock(body, st, lv, depth), after, brk, cont, depth)
    decreases |ch|, body, 3
  {
    var inner := PushScope(st);
    PushStep(cx, m, st, st.scopes, LiveBlock(Roots, body, after, brk, cont), map[]);
    var f := CheckSeq(body, inner, lv, depth);
    SeqSound(cx, body, m, inner, st.scopes, after, brk, cont, depth, lv, ch);
    var r := RunSeq(body, inner.scopes, ch);
    CloseSound(cx, m, r, f, st.scopes, after, brk, cont, depth);
  }

  /// One scope above the depth: truncation pops just that.
  lemma PopOnce(cx: Context, m: Monitor, st: State, scopes: Scopes, live: LiveSet)
    requires scopes != [] && Accounts(cx, m, st, scopes, live) && Truncate(st, |scopes| - 1).errs == {}
    ensures var e := Dead(scopes[|scopes| - 1].Keys);
            Ok(m, e) && Accounts(cx, Step(m, e), Truncate(st, |scopes| - 1).st, scopes[..|scopes| - 1], live)
  {
    assert Truncate(st, |scopes| - 1).errs == PopScope(st).errs && Truncate(st, |scopes| - 1).st == PopScope(st).st;
    PopStep(cx, m, st, scopes, live);
  }

  /// Leaving the scope around a run.
  lemma CloseSound(cx: Context, m: Monitor, r: Result, f: Flow, outer: Scopes, after: LiveSet, brk: LiveSet, cont: LiveSet, depth: Option<nat>)
    requires DepthFits(depth, outer) && |r.scopes| == |outer| + 1 && r.scopes[..|outer|] == outer
    requires Safe(m, r.events) && (Leaves(r) ==> depth.Some?)
    requires Lands(cx, Observe(m, r.events), r, f, after, brk, cont, depth) && Truncate(f.st, |outer|).errs == {}
    ensures var closed := CloseScope(r, outer); var m' := Observe(m, closed.events);
            Safe(m, closed.events) &&
            Lands(cx, m', closed, Flow(Truncate(f.st, |outer|).st, f.errs, f.breaks, f.conts), after, brk, cont, depth)
  {
    hide PopScope, Exits, Accounts, Observe, Safe, Truncate;
    var m1 := Observe(m, r.events);
    var e := Dead(r.scopes[|outer|].Keys);
    ObserveConcat(m, r.events, [e]);
    OneEvent(m1, e);
    match r.out
    case Normal => PopOnce(cx, m1, f.st, r.scopes, after);
    case Broke => ExitsPop(cx, m1, r.scopes, brk, depth, f.breaks);
    case Continued => ExitsPop(cx, m1, r.scopes, cont, depth, f.conts);
    case _ =>
  }

  lemma {:induction false} SeqSound(cx: Context, ss: seq<Stmt>, m: Monitor, st: State, outer: Scopes, after: LiveSet, brk: LiveSet, cont: LiveSet,
                                    depth: Option<nat>, lv: Tables, ch: seq<bool>)
    requires |st.scopes| == |outer| + 1 && st.scopes[..|outer|] == outer && DepthFits(depth, outer)
    requires SeqInFragment(cx, ss, st.scopes) && SeqJumpsInLoop(ss, depth.Some?)
    requires AnnotatedBlock(Roots, ss, after, brk, cont, lv.roots)
    requires Accounts(cx, m, st, st.scopes, LiveBlock(Roots, ss, after, brk, cont))
    requires CheckSeq(ss, st, lv, depth).errs == {}
    ensures var r := RunSeq(ss, st.scopes, ch); var m' := Observe(m, r.events);
            Safe(m, r.events) && |r.scopes| == |outer| + 1 && r.scopes[..|outer|] == outer &&
            (Leaves(r) ==> depth.Some?) && Lands(cx, m', r, CheckSeq(ss, st, lv, depth), after, brk, cont, depth)
    decreases |ch|, ss, 2
  {
    if ss != [] {
      var mid := LiveBlock(Roots, ss[1..], after, brk, cont);
      StmtSound(cx, ss[0], m, st, mid, brk, cont, depth, lv, ch);
      var f := CheckStmt(ss[0], st, lv, depth);
      var r := Run(ss[0], st.scopes, ch);
      var m1 := Observe(m, r.events);
      var all := CheckSeq(ss, st, lv, depth);
      assert Next(ss[0], st.scopes)[..|outer|] == outer;
      if r.out == Normal {
        SeqSound(cx, ss[1..], m1, f.st, outer, after, brk, cont, depth, lv, r.rest);
        var r2 := RunSeq(ss[1..], r.scopes, r.rest);
        ObserveConcat(m, r.events, r2.events);
        var rest := CheckSeq(ss[1..], f.st, lv, depth);
        var m2 := Observe(m1, r2.events);
        if r2.out == Broke { ExitsMore(cx, m2, r2.scopes, brk, depth, rest.breaks, all.breaks); }
        if r2.out == Continued { ExitsMore(cx, m2, r2.scopes, cont, depth, rest.conts, all.conts); }
      } else {
        if r.out == Broke { ExitsMore(cx, m1, r.scopes, brk, depth, f.breaks, all.breaks); }
        if r.out == Continued { ExitsMore(cx, m1, r.scopes, cont, depth, f.conts, all.conts); }
      }
    }
  }

  // ---- loops ----

  /// The path has left the loop by its condition or by a `break`.
  ghost predicate LeftLoop(cx: Context, s: Stmt, m: Monitor, entry: State, h: State, after: LiveSet, lv: Tables)
    requires IsLoop(s)
  {
    || (!s.Loop? && Accounts(cx, m, HeadChecked(s, h).st, entry.scopes, after))
    || (exists st :: st in PassFlow(s, entry, h, lv).breaks && Accounts(cx, m, st, entry.scopes, after))
  }

  lemma LoopLands(cx: Context, s: Stmt, m: Monitor, entry: State, h: State, exit: State, breakExit: Option<State>, after: LiveSet, lv: Tables)
    requires IsLoop(s) && BreaksReach(s, entry, h, lv, breakExit) && FitsExit(breakExit, entry.scopes)
    requires !s.Loop? ==> exit == HeadChecked(s, h).st && exit.scopes == entry.scopes
    ensures LeftLoop(cx, s, m, entry, h, after, lv) && !s.Loop? ==>
              Accounts(cx, m, match breakExit case None => exit case Some(b) => Merge(exit, b), entry.scopes, after)
    ensures LeftLoop(cx, s, m, entry, h, after, lv) && s.Loop? ==> breakExit.Some? && Accounts(cx, m, breakExit.value, entry.scopes, after)
  {
    if LeftLoop(cx, s, m, entry, h, after, lv) {
      if !s.Loop? && breakExit.Some? {
        MergeCovers(exit, breakExit.value);
      }
      if !s.Loop? && Accounts(cx, m, exit, entry.scopes, after) {
        if breakExit.Some? { AccountsCovered(cx, m, exit, Merge(exit, breakExit.value), entry.scopes, after); }
      } else {
        var st :| st in PassFlow(s, entry, h, lv).breaks && Accounts(cx, m, st, entry.scopes, after);
        AccountsCovered(cx, m, st, breakExit.value, entry.scopes, after);
        if !s.Loop? && exit.reachable {
          AccountsCovered(cx, m, breakExit.value, Merge(exit, breakExit.value), entry.scopes, after);
        }
      }
    }
  }

  /// What is live at the head of a loop is live where the body starts, and so on.
  lemma HeaderCovers(s: Stmt, after: LiveSet)
    requires IsLoop(s)
    ensures var hd := Header(Roots, s, after); var before := LiveBlock(Roots, s.body, hd, after, hd);
            (!s.Loop? ==> after <= hd) && (s.While? ==> Uses(Roots, s.cond) <= hd) &&
            (if s.For? then Without(before, s.key) <= hd else before <= hd)
  {
    HeaderIsFixedPoint(Roots, s, after);
  }

  lemma {:induction false} LoopSound(cx: Context, s: Stmt, m: Monitor, entry: State, h: State, after: LiveSet, lv: Tables, ch: seq<bool>)
    requires IsLoop(s) && entry.scopes != [] && InFragment(cx, s, entry.scopes) && JumpsInLoop(s, true)
    requires h.scopes == entry.scopes && Settled(s, entry, h, lv)
    requires AnnotatedBlock(Roots, s.body, Header(Roots, s, after), after, Header(Roots, s, after), lv.roots)
    requires Accounts(cx, m, h, entry.scopes, Header(Roots, s, after))
    ensures var r := RunLoop(s, entry.scopes, ch); var m' := Observe(m, r.events);
            Safe(m, r.events) && r.scopes == entry.scopes && !Leaves(r) &&
            (r.out == Normal ==> LeftLoop(cx, s, m', entry, h, after, lv))
    decreases |ch|, s, 2
  {
    hide Accounts, Safe, Settled, RunLoopBody, LoopCondEvents, Exits, InFragment, JumpsInLoop, PassFlow, HeadChecked, Annotated, Covered;
    var scopes := entry.scopes;
    var hd := Header(Roots, s, after);
    HeaderCovers(s, after);
    var c := LoopCondEvents(s, scopes);
    HeadSound(cx, s, m, entry, h, hd, lv);
    var hc := HeadChecked(s, h).st;
    var m1 := Observe(m, c);
    if ch == [] {
    } else if !ch[0] && !s.Loop? {
      AccountsNarrow(cx, m1, hc, scopes, hd, after);
    } else {
      LoopBodySound(cx, s, m1, entry, h, after, lv, ch[1..]);
      var b := RunLoopBody(s, scopes, ch[1..]);
      var f := PassFlow(s, entry, h, lv);
      var m2 := Observe(m1, b.events);
      ObserveConcat(m, c, b.events);
      if b.out == Broke {
        ExitsHere(cx, m2, scopes, after, f.breaks);
      } else if b.out == Normal || b.out == Continued {
        BackToHead(cx, s, m2, entry, h, hd, f, b.out, lv);
        LoopSound(cx, s, m2, entry, h, after, lv, b.rest);
        ObserveConcat(m, c + b.events, RunLoop(s, scopes, b.rest).events);
      }
    }
  }

  /// The condition of a `while`, evaluated at the head.
  lemma HeadSound(cx: Context, s: Stmt, m: Monitor, entry: State, h: State, hd: LiveSet, lv: Tables)
    requires IsLoop(s) && InFragment(cx, s, entry.scopes) && h.scopes == entry.scopes && Settled(s, entry, h, lv)
    requires Accounts(cx, m, h, entry.scopes, hd) && (s.While? ==> Uses(Roots, s.cond) <= hd)
    ensures var c := LoopCondEvents(s, entry.scopes);
            Safe(m, c) && Accounts(cx, Observe(m, c), HeadChecked(s, h).st, entry.scopes, hd)
  {
    if s.While? {
      InspectStep(cx, s.cond, Move, m, h, hd);
      InspectFrame(s.cond, Move, h);
    }
  }

  lemma BackToHead(cx: Context, s: Stmt, m: Monitor, entry: State, h: State, hd: LiveSet, f: Flow, out: Outcome, lv: Tables)
    requires IsLoop(s) && Settled(s, entry, h, lv) && f == PassFlow(s, entry, h, lv)
    requires out == Normal ==> Accounts(cx, m, f.st, entry.scopes, hd)
    requires out == Continued ==> Exits(cx, m, entry.scopes, hd, Some(|entry.scopes|), f.conts)
    requires out == Normal || out == Continued
    ensures Accounts(cx, m, h, entry.scopes, hd)
  {
    var x;
    if out == Normal {
      x := f.st;
    } else {
      ExitsHere(cx, m, entry.scopes, hd, f.conts);
      x :| x in f.conts && Accounts(cx, m, x, entry.scopes, hd);
    }
    assert x in [f.st] + f.conts;
    AccountsCovered(cx, m, x, h, entry.scopes, hd);
  }

  lemma {:induction false} LoopBodySound(cx: Context, s: Stmt, m: Monitor, entry: State, h: State, after: LiveSet, lv: Tables, ch: seq<bool>)
    requires IsLoop(s) && entry.scopes != [] && InFragment(cx, s, entry.scopes) && JumpsInLoop(s, true)
    requires h.scopes == entry.scopes && Settled(s, entry, h, lv)
    requires AnnotatedBlock(Roots, s.body, Header(Roots, s, after), after, Header(Roots, s, after), lv.roots)
    requires Accounts(cx, m, HeadChecked(s, h).st, entry.scopes, Header(Roots, s, after))
    ensures var r := RunLoopBody(s, entry.scopes, ch); var m' := Observe(m, r.events); var hd := Header(Roots, s, after);
            Safe(m, r.events) && r.scopes == entry.scopes &&
            Lands(cx, m', r, PassFlow(s, entry, h, lv), hd, after, hd, Some(|entry.scopes|))
    decreases |ch|, s, 1
  {
    var scopes, d := entry.scopes, Some(|entry.scopes|);
    var hd := Header(Roots, s, after);
    HeaderCovers(s, after);
    var before := LiveBlock(Roots, s.body, hd, after, hd);
    if s.For? {
      AccountsWiden(cx, m, h, scopes, hd, before, s.key);
      ForBodySound(cx, s, m, entry, h, hd, after, lv, ch);
    } else {
      AccountsNarrow(cx, m, HeadChecked(s, h).st, scopes, hd, before);
      if s.While? { InspectFrame(s.cond, Move, h); }
      BlockSound(cx, s.body, m, HeadChecked(s, h).st, hd, after, hd, d, lv, ch);
    }
  }

  /// The body of a `for`, inside the scope of its variable.
  lemma {:induction false} ForBodySound(cx: Context, s: Stmt, m: Monitor, entry: State, h: State, hd: LiveSet, after: LiveSet, lv: Tables, ch: seq<bool>)
    requires s.For? && entry.scopes != [] && InFragment(cx, s, entry.scopes) && JumpsInLoop(s, true)
    requires h.scopes == entry.scopes && CheckForBody(s, entry, h, lv).errs == {}
    requires AnnotatedBlock(Roots, s.body, hd, after, hd, lv.roots)
    requires Accounts(cx, m, h, entry.scopes, LiveBlock(Roots, s.body, hd, after, hd))
    ensures var r := RunLoopBody(s, entry.scopes, ch); var m' := Observe(m, r.events);
            Safe(m, r.events) && r.scopes == entry.scopes &&
            Lands(cx, m', r, CheckForBody(s, entry, h, lv), hd, after, hd, Some(|entry.scopes|))
    decreases |ch|, s, 0
  {
    hide Accounts, Safe, Observe, Lands, Truncate;
    var scopes, d, scope := entry.scopes, Some(|entry.scopes|), map[s.key := s.ty];
    var before := LiveBlock(Roots, s.body, hd, after, hd);
    VariableStep(cx, m, h, scopes, before, s.key);
    var m1 := Step(m, Initialize([s.key]));
    PushStep(cx, m1, h, scopes, before, scope);
    var inner := h.(scopes := scopes + [scope]);
    BlockSound(cx, s.body, m1, inner, hd, after, hd, d, lv, ch);
    var b := RunBlock(s.body, scopes + [scope], ch);
    OneEvent(m, Initialize([s.key]));
    ObserveConcat(m, [Initialize([s.key])], b.events);
    var r := After([Initialize([s.key])], b);
    assert (scopes + [scope])[..|scopes|] == scopes;
    LandsAfter(cx, m, [Initialize([s.key])], b, CheckBlock(s.body, inner, lv, d), hd, after, hd, d);
    CloseSound(cx, m, r, CheckBlock(s.body, inner, lv, d), scopes, hd, after, hd, d);
  }

  /// The variable of a `for` is given its value: it held no reference before.
  lemma VariableStep(cx: Context, m: Monitor, st: State, scopes: Scopes, live: LiveSet, v: Var)
    requires Accounts(cx, m, st, scopes, live) && LookupVar(v, scopes).None?
    ensures Ok(m, Initialize([v])) && Accounts(cx, Step(m, Initialize([v])), st, scopes, live)
  {
    var m' := Step(m, Initialize([v]));
    forall b | b in m'.active + m'.broken ensures b in m.active + m.broken && Recorded(b, st) && RefTyped(b, scopes) {
      assert b in m.active + m.broken;
    }
  }

  /// Where a run lands does not depend on how its events are split.
  lemma LandsAfter(cx: Context, m: Monitor, ev: seq<Event>, r: Result, f: Flow, after: LiveSet, brk: LiveSet, cont: LiveSet, depth: Option<nat>)
    requires Lands(cx, Observe(Observe(m, ev), r.events), r, f, after, brk, cont, depth)
    ensures Lands(cx, Observe(m, After(ev, r).events), After(ev, r), f, after, brk, cont, depth)
  {
    ObserveConcat(m, ev, r.events);
  }

  lemma {:induction false} ForSound(cx: Context, s: Stmt, m: Monitor, e: State, after: LiveSet, brk: LiveSet, cont: LiveSet,
                                    depth: Option<nat>, lv: Tables, ch: seq<bool>)
    requires s.For? && e.scopes != [] && InFragment(cx, s, e.scopes) && JumpsInLoop(s, true)
    requires Annotated(Roots, s, after, brk, cont, lv.roots)
    requires Accounts(cx, m, e, e.scopes, Live(Roots, s, after, brk, cont)) && CheckLive(s, e, lv, depth).errs == {}
    ensures var r := Run(s, e.scopes, ch); var m' := Observe(m, r.events);
            Safe(m, r.events) && r.scopes == e.scopes && !Leaves(r) &&
            (r.out == Normal ==> Accounts(cx, m', CheckLive(s, e, lv, depth).st, e.scopes, after))
    decreases |ch|, s, 4
  {
    var live := Live(Roots, s, after, brk, cont);
    var eb, ee := Events(s.begin, Move, e.scopes), Events(s.end, Move, e.scopes);
    InspectStep(cx, s.begin, Move, m, e, live);
    InspectFrame(s.begin, Move, e);
    var b := Inspect(s.begin, Move, e).st;
    InspectStep(cx, s.end, Move, Observe(m, eb), b, live);
    InspectFrame(s.end, Move, b);
    var x := Inspect(s.end, Move, b).st;
    ObserveConcat(m, eb, ee);
    var m1 := Observe(m, eb + ee);
    var h := ForSettles(s, x, x, None, lv, MaxIterations);
    AccountsWiden(cx, m1, x, e.scopes, live, Header(Roots, s, after), s.key);
    AccountsCovered(cx, m1, x, h, e.scopes, Header(Roots, s, after));
    LoopSound(cx, s, m1, x, h, after, lv, ch);
    var r := RunLoop(s, e.scopes, ch);
    ObserveConcat(m, eb + ee, r.events);
    ForScopes(s, x, x, None, lv, MaxIterations);
    var it := IterateFor(s, x, x, None, lv, MaxIterations);
    LoopLands(cx, s, Observe(m1, r.events), x, h, it.exit, it.breakExit, after, lv);
  }

  // ---- the theorems ----

  /// A function in the modelled fragment, `cx` listing what it takes exclusively.
  ghost predicate Fits(f: Function, cx: Context) {
    SeqInFragment(cx, f.body, [f.params] + [map[]]) && SeqJumpsInLoop(f.body, false)
  }

  ghost predicate Admissible(f: Function) { exists cx :: Fits(f, cx) }

  lemma StartAccounted(cx: Context, f: Function)
    ensures Accounts(cx, Start, EntryState(f), [f.params], {})
  {
  }

  /// No diagnostic means every path of the function is safe.
  lemma CheckerIsSound(f: Function, lv: Tables, ch: seq<bool>)
    requires Admissible(f) && AnnotatedBlock(Roots, f.body, {}, {}, {}, lv.roots)
    requires CheckFunction(f, lv) == {}
    ensures Safe(Start, FunctionEvents(f, ch))
  {
    var cx :| Fits(f, cx);
    StartAccounted(cx, f);
    hide RunBlock, CheckBlock, Accounts, Safe, Observe, Lands, LeaveEvents;
    BlockSound(cx, f.body, Start, EntryState(f), {}, {}, {}, None, lv, ch);
    LeaveSound(cx, RunBlock(f.body, [f.params], ch), CheckBlock(f.body, EntryState(f), lv, None), Start);
  }

  lemma LeaveSound(cx: Context, r: Result, f: Flow, m: Monitor)
    requires Safe(m, r.events) && Lands(cx, Observe(m, r.events), r, f, {}, {}, {}, None)
    ensures Safe(m, LeaveEvents(r))
  {
    if r.out == Normal {
      ExitStep(cx, Observe(m, r.events), f.st, r.scopes, {});
      ObserveConcat(m, r.events, [Exit(r.scopes)]);
    } else {
      assert r.events + [] == r.events;
    }
  }

  lemma {:induction false} SafeAt(m: Monitor, events: seq<Event>, k: nat)
    requires Safe(m, events) && k < |events|
    ensures Ok(Observe(m, events[..k]), events[k])
  {
    assert events == events[..k] + events[k..];
    ObserveConcat(m, events[..k], events[k..]);
  }

  lemma {:induction false} ObserveNext(m: Monitor, events: seq<Event>, k: nat)
    requires k < |events|
    ensures Observe(m, events[..k + 1]) == Step(Observe(m, events[..k]), events[k])
  {
    assert events[..k + 1] == events[..k] + [events[k]];
    ObserveConcat(m, events[..k], [events[k]]);
    OneEvent(Observe(m, events[..k]), events[k]);
  }

  /// A binding stays known, and if broken stays broken, until its holder is rebound.
  lemma {:induction false} BindingPersists(m: Monitor, events: seq<Event>, b: Binding, i: nat, j: nat)
    requires i <= j <= |events|
    requires b in Observe(m, events[..i]).active + Observe(m, events[..i]).broken
    requires forall k :: i <= k < j ==> !Rebinds(events[k], b.holder)
    ensures b in Observe(m, events[..j]).active + Observe(m, events[..j]).broken
    ensures b in Observe(m, events[..i]).broken ==> b in Observe(m, events[..j]).broken
    decreases j
  {
    if i < j {
      hide *;
      BindingPersists(m, events, b, i, j - 1);
      ObserveNext(m, events, j - 1);
      BindingStep(Observe(m, events[..j - 1]), events[j - 1], b);
    }
  }

  lemma BindingStep(m: Monitor, e: Event, b: Binding)
    requires b in m.active + m.broken && !Rebinds(e, b.holder)
    ensures b in Step(m, e).active + Step(m, e).broken
    ensures b in m.broken || Hits(e, b) ==> b in Step(m, e).broken
  {
  }

  lemma BindingKnown(m: Monitor, events: seq<Event>, i: nat, b: Binding)
    requires i < |events| && events[i] == Bind(b.holder, b.place, b.mut, b.pos)
    ensures b in Observe(m, events[..i + 1]).active
  {
    ObserveNext(m, events, i);
  }

  /// Between binding a reference and a later use of it, before it is rebound,
  /// nothing writes, moves or mutably borrows an overlapping place, nor, for a
  /// mutable reference, reads or borrows one.
  lemma NoUseOfInvalidatedReference(f: Function, lv: Tables, ch: seq<bool>, b: Binding, i: nat, j: nat, k: nat)
    requires Admissible(f) && AnnotatedBlock(Roots, f.body, {}, {}, {}, lv.roots)
    requires CheckFunction(f, lv) == {}
    requires i < j < k < |FunctionEvents(f, ch)|
    requires FunctionEvents(f, ch)[i] == Bind(b.holder, b.place, b.mut, b.pos)
    requires forall n :: i < n < k ==> !Rebinds(FunctionEvents(f, ch)[n], b.holder)
    requires UsesHolder(FunctionEvents(f, ch)[k], b.holder)
    ensures !Hits(FunctionEvents(f, ch)[j], b)
  {
    CheckerIsSound(f, lv, ch);
    hide *;
    UsedIsUnhit(FunctionEvents(f, ch), b, i, j, k);
  }

  lemma UsedIsUnhit(tr: seq<Event>, b: Binding, i: nat, j: nat, k: nat)
    requires Safe(Start, tr) && i < j < k < |tr| && tr[i] == Bind(b.holder, b.place, b.mut, b.pos)
    requires (forall n :: i < n < k ==> !Rebinds(tr[n], b.holder)) && UsesHolder(tr[k], b.holder)
    ensures !Hits(tr[j], b)
  {
    hide Step, Rebinds, Hits, Observe;
    BindingKnown(Start, tr, i, b);
    BindingPersists(Start, tr, b, i + 1, j);
    ObserveNext(Start, tr, j);
    BindingStep(Observe(Start, tr[..j]), tr[j], b);
    BindingPersists(Start, tr, b, j + 1, k);
    SafeAt(Start, tr, k);
  }

  /// Between passing a reference to a call and making the call, nothing
  /// accesses its place against it, no other argument included.
  lemma NoAccessToPassedReference(f: Function, lv: Tables, ch: seq<bool>, a: Arg, args: set<Arg>, held: set<Var>, i: nat, j: nat, k: nat)
    requires Admissible(f) && AnnotatedBlock(Roots, f.body, {}, {}, {}, lv.roots)
    requires CheckFunction(f, lv) == {}
    requires i < j < k < |FunctionEvents(f, ch)|
    requires FunctionEvents(f, ch)[i] == Pass(a) && FunctionEvents(f, ch)[k] == Enter(args, held) && a in args
    requires forall n :: i < n < k ==> FunctionEvents(f, ch)[n] != Pass(a)
    ensures !Strikes(FunctionEvents(f, ch)[j], a.place, a.mut)
  {
    CheckerIsSound(f, lv, ch);
    hide *;
    PassedIsUnstruck(FunctionEvents(f, ch), a, args, held, i, j, k);
  }

  lemma PassedIsUnstruck(tr: seq<Event>, a: Arg, args: set<Arg>, held: set<Var>, i: nat, j: nat, k: nat)
    requires Safe(Start, tr) && i < j < k < |tr| && tr[k] == Enter(args, held) && a in args
    requires forall n :: i < n < k ==> tr[n] != Pass(a)
    ensures !Strikes(tr[j], a.place, a.mut)
  {
    hide *;
    SafeAt(Start, tr, k);
    EnterNeeds(Observe(Start, tr[..k]), args, held, a);
    if Strikes(tr[j], a.place, a.mut) {
      ObserveNext(Start, tr, j);
      StruckGoes(Observe(Start, tr[..j]), tr[j], a);
      StaysStruck(Start, tr, a, j + 1, k);
      assert false;
    }
  }

  lemma EnterNeeds(m: Monitor, args: set<Arg>, held: set<Var>, a: Arg)
    requires Ok(m, Enter(args, held)) && a in args
    ensures a in m.passed
  {
  }

  lemma StruckGoes(m: Monitor, e: Event, a: Arg)
    requires Strikes(e, a.place, a.mut)
    ensures a !in Step(m, e).passed
  {
  }

  lemma OnlyPassAdds(m: Monitor, e: Event, a: Arg)
    requires a !in m.passed && e != Pass(a)
    ensures a !in Step(m, e).passed
  {
  }

  lemma {:induction false} StaysStruck(m: Monitor, events: seq<Event>, a: Arg, i: nat, j: nat)
    requires i <= j <= |events| && a !in Observe(m, events[..i]).passed
    requires forall k :: i <= k < j ==> events[k] != Pass(a)
    ensures a !in Observe(m, events[..j]).passed
    decreases j
  {
    hide *;
    if i < j {
      StaysStruck(m, events, a, i, j - 1);
      ObserveNext(m, events, j - 1);
      OnlyPassAdds(Observe(m, events[..j - 1]), events[j - 1], a);
    }
  }

  /// A moved place is not used again before it is reinitialized as a whole,
  /// neither itself nor through a reference.
  lemma NoUseAfterMove(f: Function, lv: Tables, ch: seq<bool>, q: Place, i: nat, k: nat)
    requires Admissible(f) && AnnotatedBlock(Roots, f.body, {}, {}, {}, lv.roots)
    requires CheckFunction(f, lv) == {}
    requires i < k < |FunctionEvents(f, ch)|
    requires FunctionEvents(f, ch)[i] == Touch(q, Move)
    requires forall n :: i < n < k ==> !Restores(FunctionEvents(f, ch)[n], q)
    ensures !UsesMoved(FunctionEvents(f, ch)[k], q)
    ensures forall b :: b in Observe(Start, FunctionEvents(f, ch)[..k]).active ==> !UsesMovedThrough(FunctionEvents(f, ch)[k], b, q)
  {
    var tr := FunctionEvents(f, ch);
    CheckerIsSound(f, lv, ch);
    ObserveNext(Start, tr, i);
    MovePersists(Start, tr, q, i + 1, k);
    SafeAt(Start, tr, k);
  }

  lemma {:induction false} MovePersists(m: Monitor, events: seq<Event>, q: Place, i: nat, j: nat)
    requires i <= j <= |events| && q in Observe(m, events[..i]).moved
    requires forall k :: i <= k < j ==> !Restores(events[k], q)
    ensures q in Observe(m, events[..j]).moved
    decreases j
  {
    if i < j {
      MovePersists(m, events, q, i, j - 1);
      ObserveNext(m, events, j - 1);
    }
  }

  /// No reference outlives the scope of what it refers to, nor leaves the
  /// function while it refers to the function's own storage.
  lemma NoDanglingReference(f: Function, lv: Tables, ch: seq<bool>, b: Binding, i: nat, k: nat)
    requires Admissible(f) && AnnotatedBlock(Roots, f.body, {}, {}, {}, lv.roots)
    requires CheckFunction(f, lv) == {}
    requires i < k < |FunctionEvents(f, ch)|
    requires FunctionEvents(f, ch)[i] == Bind(b.holder, b.place, b.mut, b.pos)
    requires forall n :: i < n < k ==> !Rebinds(FunctionEvents(f, ch)[n], b.holder)
    ensures !Dangles(FunctionEvents(f, ch)[k], b)
  {
    var tr := FunctionEvents(f, ch);
    CheckerIsSound(f, lv, ch);
    BindingKnown(Start, tr, i, b);
    BindingPersists(Start, tr, b, i + 1, k);
    SafeAt(Start, tr, k);
  }
}
