/// The borrow checker as the source has it: an object that fills its liveness
/// tables, walks the statements with a flow state and collects diagnostics.

module BorrowCheckerImpl {
  import opened Places
  import opened BorrowSyntax
  import opened BorrowState
  import opened BorrowCheck
  import opened Liveness
  import opened Paths
  import opened StmtSoundness
  import opened BorrowTheorems

  /// The innermost loop's exits gathered so far.
  datatype LoopFrame = LoopFrame(depth: nat, breaks: seq<State>, conts: seq<State>)

  function Depth(stack: seq<LoopFrame>): Option<nat> {
    if stack == [] then None else Some(stack[|stack| - 1].depth)
  }

  /// The stack after a piece of code handed these exits to the innermost loop.
  function Hand(stack: seq<LoopFrame>, breaks: seq<State>, conts: seq<State>): seq<LoopFrame> {
    if stack == [] then stack
    else
      var top := stack[|stack| - 1];
      stack[|stack| - 1 := LoopFrame(top.depth, top.breaks + breaks, top.conts + conts)]
  }

  lemma HandHand(stack: seq<LoopFrame>, b: seq<State>, c: seq<State>, b': seq<State>, c': seq<State>)
    ensures Hand(Hand(stack, b, c), b', c') == Hand(stack, b + b', c + c')
    ensures Hand(stack, [], []) == stack
  {
    if stack != [] {
      var top := stack[|stack| - 1];
      assert top.breaks + [] == top.breaks && top.conts + [] == top.conts;
      assert top.breaks + b + b' == top.breaks + (b + b') && top.conts + c + c' == top.conts + (c + c');
    }
  }

  class BorrowChecker {
    var errors: set<Diag>
    var roots: LiveTable
    var places: LiveTable
    var loopStack: seq<LoopFrame>

    constructor ()
      ensures errors == {} && roots == map[] && places == map[] && loopStack == []
    {
      errors, roots, places, loopStack := {}, map[], map[], [];
    }

    function Table(mode: Mode): LiveTable
      reads this
    {
      if mode == Roots then roots else places
    }

    function Live(): Tables
      reads this
    {
      Tables(roots, places)
    }

    /// Nothing but the diagnostics may have changed, which grew by `errs`.
    twostate predicate Reported(errs: set<Diag>)
      reads this
    {
      errors == old(errors) + errs && roots == old(roots) && places == old(places) && loopStack == old(loopStack)
    }

    // ---- liveness ----

    method Record(mode: Mode, id: nat, live: LiveSet)
      modifies this
      ensures Table(mode) == old(Table(mode))[id := live]
      ensures Table(if mode == Roots then FullPlaces else Roots) == old(Table(if mode == Roots then FullPlaces else Roots))
      ensures errors == old(errors) && loopStack == old(loopStack)
    {
      if mode == Roots {
        roots := roots[id := live];
      } else {
        places := places[id := live];
      }
    }

    /// Only entries of `mode` at the given addresses may have changed.
    twostate predicate Recorded(mode: Mode, ids: set<nat>)
      reads this
    {
      var other := if mode == Roots then FullPlaces else Roots;
      && Table(other) == old(Table(other)) && errors == old(errors) && loopStack == old(loopStack)
      && (forall i :: i !in ids && i in old(Table(mode)) ==> i in Table(mode) && Table(mode)[i] == old(Table(mode))[i])
    }

    method LivenessBlock(mode: Mode, ss: seq<Stmt>, after: LiveSet, brk: LiveSet, cont: LiveSet) returns (live: LiveSet)
      requires BlockDistinctIds(ss)
      modifies this
      ensures live == LiveBlock(mode, ss, after, brk, cont)
      ensures AnnotatedBlock(mode, ss, after, brk, cont, Table(mode)) && Recorded(mode, BlockIds(ss))
      decreases ss, 2
    {
      live := after;
      var i := |ss|;
      while 0 < i
        invariant 0 <= i <= |ss| && live == LiveBlock(mode, ss[i..], after, brk, cont)
        invariant AnnotatedBlock(mode, ss[i..], after, brk, cont, Table(mode)) && Recorded(mode, BlockIds(ss[i..]))
      {
        i := i - 1;
        DistinctSuffix(ss, i);
        assert ss[i..][1..] == ss[i + 1..];
        ghost var done := Table(mode);
        live := LivenessStmt(mode, ss[i], live, brk, cont);
        AnnotatedBlockFrame(mode, ss[i + 1..], after, brk, cont, done, Table(mode));
      }
      assert ss[0..] == ss;
    }

    method LivenessStmt(mode: Mode, s: Stmt, after: LiveSet, brk: LiveSet, cont: LiveSet) returns (before: LiveSet)
      requires DistinctIds(s)
      modifies this
      ensures before == Liveness.Live(mode, s, after, brk, cont)
      ensures Annotated(mode, s, after, brk, cont, Table(mode)) && Recorded(mode, Ids(s))
      decreases s, 1
    {
      match s {
        case Let(_, key, _, init) => before := Without(after, key) + OptUses(mode, init);
        case Assign(_, compound, t, value, _) =>
          if RedefinesWhole(compound, t) {
            before := Without(after, Root(t.pe.place));
          } else {
            before := after + TargetUses(mode, t);
          }
          before := before + Uses(mode, value);
        case ExprStmt(_, e) => before := after + Uses(mode, e);
        case Return(_, e, _, _) => before := OptUses(mode, e);
        case Break(_) => before := brk;
        case Continue(_) => before := cont;
        case Block(_, body) => before := LivenessBlock(mode, body, after, brk, cont);
        case If(_, c, thn, els) =>
          var left := LivenessBlock(mode, thn, after, brk, cont);
          ghost var done := Table(mode);
          var right := LivenessBlock(mode, els, after, brk, cont);
          AnnotatedBlockFrame(mode, thn, after, brk, cont, done, Table(mode));
          before := left + right + Uses(mode, c);
        case While(_, _, _, _) => before := LivenessLoop(mode, s, after);
        case For(_, key, _, b, e, _, _) =>
          before := LivenessLoop(mode, s, after);
          before := Without(before, key) + Uses(mode, b) + Uses(mode, e);
        case Loop(_, _, _) => before := LivenessLoop(mode, s, after);
      }
      ghost var done := Table(mode);
      Record(mode, s.id, before);
      InnerFrame(mode, s, after, brk, cont, done, Table(mode));
    }

    /// The bounded iteration of a loop. It is over after two passes at most, so
    /// the source's non-convergence diagnostic behind it is never reached.
    method LivenessLoop(mode: Mode, s: Stmt, after: LiveSet) returns (header: LiveSet)
      requires IsLoop(s) && BlockDistinctIds(s.body)
      modifies this
      ensures header == Header(mode, s, after)
      ensures AnnotatedBlock(mode, s.body, header, after, header, Table(mode)) && Recorded(mode, BlockIds(s.body))
      decreases s, 0
    {
      HeaderIsFixedPoint(mode, s, after);
      header := after;
      var converged := false;
      var iteration := 0;
      while iteration < MaxIterations && !converged
        invariant !converged ==> iteration <= 1 && header == (if iteration == 0 then after else Header(mode, s, after))
        invariant converged ==> header == Header(mode, s, after) && AnnotatedBlock(mode, s.body, header, after, header, Table(mode))
        invariant Recorded(mode, BlockIds(s.body))
        decreases MaxIterations - iteration, !converged
      {
        var body := LivenessBlock(mode, s.body, header, after, header);
        var next := if s.While? then after + body + Uses(mode, s.cond)
                    else if s.For? then after + Without(body, s.key)
                    else body;
        if next == header {
          converged := true;
        } else {
          header := next;
          iteration := iteration + 1;
        }
      }
      assert converged;
    }

    method PrepareLiveness(f: Function)
      requires BlockDistinctIds(f.body)
      modifies this
      ensures AnnotatedBlock(Roots, f.body, {}, {}, {}, roots) && AnnotatedBlock(FullPlaces, f.body, {}, {}, {}, places)
      ensures errors == old(errors) && loopStack == old(loopStack)
    {
      roots, places := map[], map[];
      var live := LivenessBlock(Roots, f.body, {}, {}, {});
      live := LivenessBlock(FullPlaces, f.body, {}, {}, {});
    }

    // ---- accesses and loans ----

    method ReportIf(condition: bool, code: Code, pos: Pos)
      modifies this
      ensures Reported(if condition then {Diag(code, pos)} else {})
    {
      if condition {
        errors := errors + {Diag(code, pos)};
      }
    }

    method DoAccess(p: Place, pos: Pos, requested: Access, st: State, via: set<Holder>) returns (out: State)
      modifies this
      ensures out == AccessPlace(p, pos, requested, st, via).st && Reported(AccessPlace(p, pos, requested, st, via).errs)
    {
      var access := requested;
      if access == Move && IsCopyType(TypeOfPlace(p, st.scopes)) {
        access := Read;
      }
      if access == Write {
        if HasMovedAncestor(p, st.moved) {
          ReportIf(true, E0400, pos);
          return st;
        }
      } else if Unavailable(p, st.moved) {
        ReportIf(true, E0400, pos);
        return st;
      }
      var clash := exists l :: l in st.loans && Conflict(p, l.place) && Clashes(access, l) && !Exempt(access, l, via);
      ReportIf(clash, ClashCode(access), pos);
      out := st;
      if access == Move {
        out := out.(moved := out.moved + {p});
      }
    }

    method DoBeginBorrow(p: Place, holder: Holder, mut: bool, pos: Pos, st: State, via: set<Holder>) returns (out: State)
      modifies this
      ensures out == BeginBorrow(p, holder, mut, pos, st, via).st && Reported(BeginBorrow(p, holder, mut, pos, st, via).errs)
    {
      out := DoAccess(p, pos, if mut then BorrowMut else BorrowShared, st, via);
      out := out.(loans := out.loans + {Loan(p, holder, mut, if mut then MutLoan else SharedLoan, pos)});
    }

    method DoReserve(p: Place, holder: Holder, pos: Pos, st: State) returns (out: State)
      modifies this
      ensures out == Reserve(p, holder, pos, st).st && Reported(Reserve(p, holder, pos, st).errs)
    {
      out := DoAccess(p, pos, TwoPhaseReserve, st, {});
      out := out.(loans := out.loans + {Loan(p, holder, true, Reserved, pos)});
    }

    method DoActivate(holder: Holder, pos: Pos, st: State) returns (out: State)
      modifies this
      ensures out == Activate(holder, pos, st).st && Reported(Activate(holder, pos, st).errs)
    {
      var clash := exists l, o :: l in st.loans && o in st.loans && Activates(holder, l) && o != l && Conflict(l.place, o.place);
      ReportIf(clash, E0402, pos);
      out := st.(loans := set l | l in st.loans :: ActivateLoan(holder, pos, l));
    }

    method DoBindBorrow(dest: Place, e: Expr, st: State) returns (out: State)
      requires e.Borrow?
      modifies this
      ensures out == BindBorrow(dest, e, st).st && Reported(BindBorrow(dest, e, st).errs)
    {
      var p := e.pe.place;
      out := st.(loans := set l | l in st.loans && !(l.holder == Temporary && Conflict(l.place, p)));
      out := DoBeginBorrow(p, Stored(dest), e.mut, e.pos, out, {Stored(dest)});
      out := SetOrigins(dest, {Origin(p, e.mut, e.pos)}, out);
    }

    method DoWriteThrough(p: Place, pos: Pos, st: State) returns (out: State)
      modifies this
      ensures out == WriteThrough(p, pos, st).st && Reported(WriteThrough(p, pos, st).errs)
    {
      out := st;
      if Unavailable(p, st.moved) {
        ReportIf(true, E0400, pos);
      } else {
        var clash := exists l :: l in st.loans && Conflict(p, l.place);
        ReportIf(clash, E0403, pos);
      }
    }

    method DoTruncate(st: State, depth: nat) returns (out: State)
      modifies this
      ensures out == Truncate(st, depth).st && Reported(Truncate(st, depth).errs)
    {
      out := st;
      ghost var seen: set<Diag> := {};
      while depth < |out.scopes|
        invariant Truncate(st, depth) == Checked(Truncate(out, depth).st, seen + Truncate(out, depth).errs)
        invariant Reported(seen)
        decreases |out.scopes|
      {
        var top := PopScope(out);
        errors := errors + top.errs;
        seen := seen + top.errs;
        out := top.st;
      }
    }

    // ---- expressions ----

    method DoInspect(e: Expr, access: Access, st: State) returns (out: State)
      modifies this
      ensures out == Inspect(e, access, st).st && Reported(Inspect(e, access, st).errs)
      decreases e, 1
    {
      match e {
        case Literal => out := st;
        case Use(pe) => out := DoAccess(pe.place, pe.pos, access, st, {});
        case Deref(pe) => out := DoAccess(pe.place, pe.pos, Read, st, {});
        case Lend(pe) => out := DoAccess(pe.place, pe.pos, access, st, {});
        case Unary(x) => out := DoInspect(x, access, st);
        case Binary(l, r) =>
          out := DoInspect(l, Move, st);
          out := DoInspect(r, Move, out);
        case Borrow(mut, pe, pos) => out := DoBeginBorrow(pe.place, Temporary, mut, pos, st, {});
        case Call(pos, args) => out := DoCall(pos, args, st);
      }
    }

    method DoCall(pos: Pos, args: seq<Expr>, st: State) returns (out: State)
      modifies this
      ensures out == Inspect(Call(pos, args), Move, st).st && Reported(Inspect(Call(pos, args), Move, st).errs)
      decreases args, 2
    {
      hide Reserve, Activate, KillHolder;
      out := st;
      ghost var seen: set<Diag> := {};
      var i := 0;
      while i < |args|
        invariant i <= |args|
        invariant ReserveArgs(args, 0, pos, st) ==
                  Checked(ReserveArgs(args[i..], i, pos, out).st, seen + ReserveArgs(args[i..], i, pos, out).errs)
        invariant Reported(seen)
      {
        assert args[i..][0] == args[i] && args[i..][1..] == args[i + 1..];
        if IsMutBorrow(args[i]) {
          seen := seen + Reserve(args[i].pe.place, TwoPhase(pos, i), pos, out).errs;
          out := DoReserve(args[i].pe.place, TwoPhase(pos, i), pos, out);
        }
        i := i + 1;
      }
      ghost var e1 := seen;
      assert ReserveArgs(args, 0, pos, st) == Checked(out, e1);
      var reserved := out;
      out := DoArgs(pos, args, out);
      ghost var inspected := out;
      ghost var e2 := InspectArgs(args, 0, pos, reserved).errs;
      seen := {};
      i := 0;
      while i < |args|
        invariant i <= |args| && Reported(e1 + e2)
        invariant ReleaseArgs(args, 0, pos, inspected) == ReleaseArgs(args[i..], i, pos, out)
      {
        assert args[i..][0] == args[i] && args[i..][1..] == args[i + 1..];
        if args[i].Lend? {
          out := KillHolder(Guard(pos, i), out);
        }
        i := i + 1;
      }
      ghost var released := out;
      assert released == ReleaseArgs(args, 0, pos, inspected);
      i := 0;
      while i < |args|
        invariant i <= |args|
        invariant ActivateArgs(args, 0, pos, released) ==
                  Checked(ActivateArgs(args[i..], i, pos, out).st, seen + ActivateArgs(args[i..], i, pos, out).errs)
        invariant Reported(e1 + e2 + seen)
      {
        assert args[i..][0] == args[i] && args[i..][1..] == args[i + 1..];
        if IsMutBorrow(args[i]) {
          seen := seen + Activate(TwoPhase(pos, i), pos, out).errs;
          out := DoActivate(TwoPhase(pos, i), pos, out);
        }
        i := i + 1;
      }
      assert ActivateArgs(args, 0, pos, released) == Checked(out, seen);
      ghost var activated := out;
      i := 0;
      while i < |args|
        invariant i <= |args|
        invariant KillArgs(args, 0, pos, activated) == KillArgs(args[i..], i, pos, out)
        invariant Reported(e1 + e2 + seen)
      {
        assert args[i..][0] == args[i] && args[i..][1..] == args[i + 1..];
        if IsMutBorrow(args[i]) {
          out := KillHolder(TwoPhase(pos, i), out);
        }
        i := i + 1;
      }
    }

    /// The arguments that are not reserved, left to right.
    method DoArgs(pos: Pos, args: seq<Expr>, st: State) returns (out: State)
      modifies this
      ensures out == InspectArgs(args, 0, pos, st).st && Reported(InspectArgs(args, 0, pos, st).errs)
      decreases args, 0
    {
      out := st;
      ghost var seen: set<Diag> := {};
      var i := 0;
      while i < |args|
        invariant i <= |args| && Reported(seen)
        invariant InspectArgs(args, 0, pos, st) ==
                  Checked(InspectArgs(args[i..], i, pos, out).st, seen + InspectArgs(args[i..], i, pos, out).errs)
      {
        assert args[i..][0] == args[i] && args[i..][1..] == args[i + 1..];
        if !IsMutBorrow(args[i]) {
          seen := seen + InspectArg(args[i], i, pos, out).errs;
          out := DoArg(args[i], i, pos, out);
        }
        i := i + 1;
      }
    }

    /// One argument: a lent reference is read and guarded, anything else moves.
    method DoArg(e: Expr, index: nat, pos: Pos, st: State) returns (out: State)
      requires !IsMutBorrow(e)
      modifies this
      ensures out == InspectArg(e, index, pos, st).st && Reported(InspectArg(e, index, pos, st).errs)
      decreases e, 2
    {
      if e.Lend? {
        out := DoAccess(e.pe.place, e.pe.pos, Read, st, {});
        out := DoBeginBorrow(e.pe.place, Guard(pos, index), true, e.pe.pos, out, {});
      } else {
        out := DoInspect(e, Move, st);
      }
    }

    method DoInspectOpt(e: Option<Expr>, st: State) returns (out: State)
      modifies this
      ensures out == InspectOpt(e, st).st && Reported(InspectOpt(e, st).errs)
    {
      out := st;
      if e.Some? {
        out := DoInspect(e.value, Move, st);
      }
    }

    // ---- straight-line statements ----

    method DoStore(p: Place, pos: Pos, value: Expr, refTarget: bool, st: State) returns (out: State)
      modifies this
      ensures out == StoreInto(p, pos, value, refTarget, Checked(st, {})).st
      ensures Reported(StoreInto(p, pos, value, refTarget, Checked(st, {})).errs)
    {
      out := DoAccess(p, pos, Write, st, {});
      out := SetOrigins(p, {}, MarkInitialized(p, out));
      if refTarget && value.Borrow? {
        out := DoBindBorrow(p, value, out);
      }
    }

    method DoAssign(compound: bool, t: Target, value: Expr, pos: Pos, st: State) returns (out: State)
      modifies this
      ensures out == CheckAssign(compound, t, value, pos, st).st && Reported(CheckAssign(compound, t, value, pos, st).errs)
    {
      hide AccessPlace, Inspect, Reserve, Activate, KillHoldersUnder, KillHolder, TypeOfPlace, StoreInto;
      var p := t.pe.place;
      if t.Through? {
        out := DoAssignThrough(compound, t, value, pos, st);
        return;
      }
      var refTarget := ContainsReference(TypeOfPlace(p, st.scopes));
      ghost var errs;
      if compound {
        var rid := CompoundTarget(pos);
        out := DoReserve(p, rid, t.pe.pos, st);
        errs := Reserve(p, rid, t.pe.pos, st).errs + Inspect(value, Move, out).errs;
        out := DoInspect(value, Move, out);
        errs := errs + Activate(rid, pos, out).errs;
        out := DoActivate(rid, pos, out);
        out := KillHoldersUnder(p, KillHolder(rid, out));
      } else {
        errs := Inspect(value, Move, KillHoldersUnder(p, st)).errs;
        out := DoInspect(value, Move, KillHoldersUnder(p, st));
      }
      StoreAfter(p, t.pe.pos, value, refTarget, Checked(out, errs));
      out := DoStore(p, t.pe.pos, value, refTarget, out);
    }

    method DoAssignThrough(compound: bool, t: Target, value: Expr, pos: Pos, st: State) returns (out: State)
      requires t.Through?
      modifies this
      ensures out == CheckAssign(compound, t, value, pos, st).st && Reported(CheckAssign(compound, t, value, pos, st).errs)
    {
      hide AccessPlace, Inspect, WriteThrough;
      out := st;
      if compound {
        out := DoAccess(t.pe.place, t.pe.pos, Read, out, {});
      }
      out := DoInspect(value, Move, out);
      out := DoWriteThrough(t.pe.place, t.pe.pos, out);
    }

    method DoLet(key: Var, ty: Type, init: Option<Expr>, st: State) returns (out: State)
      modifies this
      ensures out == DefineLocalAfter(key, ty, init, st).st && Reported(DefineLocalAfter(key, ty, init, st).errs)
    {
      out := DoInspectOpt(init, st);
      if out.scopes == [] {
        return;
      }
      out := MarkInitialized([key], out.(scopes := Declare(key, ty, out.scopes)));
      out := SetOrigins([key], {}, out);
      if ContainsReference(ty) && init.Some? && init.value.Borrow? {
        out := DoBindBorrow([key], init.value, out);
      }
    }

    method DoReturn(e: Option<Expr>, bears: bool, pos: Pos, st: State) returns (out: State)
      modifies this
      ensures out == InspectOpt(e, st).st.(reachable := false)
      ensures Reported((if e.Some? then EscapeErrors(e.value, bears, pos, st) else {}) + InspectOpt(e, st).errs)
    {
      if e.Some? {
        var escapes := bears && exists o :: o in ReferenceOrigins(e.value, st) && StackOwned(o.place, st.scopes);
        ReportIf(escapes, E0404, pos);
      }
      out := DoInspectOpt(e, st);
      out := out.(reachable := false);
    }

    // ---- control flow ----

    /// The effect of a piece of code on the checker itself.
    twostate predicate Flowed(errs: set<Diag>, breaks: seq<State>, conts: seq<State>)
      reads this
    {
      && errors == old(errors) + errs && roots == old(roots) && places == old(places)
      && loopStack == Hand(old(loopStack), breaks, conts)
    }

    method DoStmt(s: Stmt, st: State) returns (out: State)
      modifies this
      ensures var f := CheckStmt(s, st, old(Live()), Depth(old(loopStack)));
              out == f.st && Flowed(f.errs, f.breaks, f.conts)
      decreases s, 3
    {
      HandHand(loopStack, [], [], [], []);
      if !st.reachable {
        return st;
      }
      out := DoLive(s, Expire(s.id, Live(), st));
    }

    method DoLive(s: Stmt, st: State) returns (out: State)
      modifies this
      ensures var f := CheckLive(s, st, old(Live()), Depth(old(loopStack)));
              out == f.st && Flowed(f.errs, f.breaks, f.conts)
      decreases s, 2
    {
      hide Inspect, CheckAssign, DefineLocal, Truncate, Merge, EscapeErrors, CheckBlock, IterateWhile, IterateFor, IterateLoop;
      HandHand(loopStack, [], [], [], []);
      match s {
        case Let(_, key, ty, init) => out := DoLet(key, ty, init, st);
        case Assign(_, compound, t, value, pos) => out := DoAssign(compound, t, value, pos, st);
        case ExprStmt(_, e) => out := DoInspect(e, Move, st);
        case Return(_, e, bears, pos) => out := DoReturn(e, bears, pos, st);
        case Break(_) => out := DoLeave(st, true);
        case Continue(_) => out := DoLeave(st, false);
        case Block(_, body) => out := DoBlock(body, st);
        case If(_, cond, thn, els) =>
          out := DoInspect(cond, Move, st);
          var left := DoBlock(thn, out);
          var right := DoBlock(els, out);
          ghost var l := CheckBlock(thn, out, old(Live()), Depth(old(loopStack)));
          ghost var r := CheckBlock(els, out, old(Live()), Depth(old(loopStack)));
          HandHand(old(loopStack), l.breaks, l.conts, r.breaks, r.conts);
          out := Merge(left, right);
        case While(_, _, _, _) => out := DoWhile(s, st);
        case For(_, _, _, begin, end, _, _) =>
          out := DoInspect(begin, Move, st);
          out := DoInspect(end, Move, out);
          out := DoFor(s, out);
        case Loop(_, _, _) => out := DoLoop(s, st);
      }
    }

    method DoLeave(st: State, isBreak: bool) returns (out: State)
      modifies this
      ensures out == st.(reachable := false)
      ensures var l := Leave(st, Depth(old(loopStack))); var states := LeavingStates(l, Depth(old(loopStack)));
              Flowed(l.errs, if isBreak then states else [], if isBreak then [] else states)
    {
      if loopStack != [] {
        var top := loopStack[|loopStack| - 1];
        var exit := DoTruncate(st, top.depth);
        if isBreak {
          loopStack := loopStack[|loopStack| - 1 := top.(breaks := top.breaks + [exit])];
          assert top.conts + [] == top.conts;
        } else {
          loopStack := loopStack[|loopStack| - 1 := top.(conts := top.conts + [exit])];
          assert top.breaks + [] == top.breaks;
        }
      }
      out := st.(reachable := false);
    }

    method DoBlock(body: seq<Stmt>, st: State) returns (out: State)
      modifies this
      ensures var f := CheckBlock(body, st, old(Live()), Depth(old(loopStack)));
              out == f.st && Flowed(f.errs, f.breaks, f.conts)
      decreases body, 5
    {
      HandHand(loopStack, [], [], [], []);
      if !st.reachable {
        return st;
      }
      out := DoSeq(body, PushScope(st));
      out := DoTruncate(out, |st.scopes|);
    }

    method DoSeq(ss: seq<Stmt>, st: State) returns (out: State)
      modifies this
      ensures var f := CheckSeq(ss, st, old(Live()), Depth(old(loopStack)));
              out == f.st && Flowed(f.errs, f.breaks, f.conts)
      decreases ss, 4
    {
      HandHand(loopStack, [], [], [], []);
      out := st;
      ghost var lv, depth := old(Live()), Depth(old(loopStack));
      ghost var seen: set<Diag>, breaks: seq<State>, conts: seq<State> := {}, [], [];
      var i := 0;
      assert ss[0..] == ss;
      while i < |ss| && out.reachable
        invariant i <= |ss| && Flowed(seen, breaks, conts)
        invariant var rest := CheckSeq(ss[i..], out, lv, depth);
                  CheckSeq(ss, st, lv, depth) == Flow(rest.st, seen + rest.errs, breaks + rest.breaks, conts + rest.conts)
        decreases |ss| - i
      {
        ghost var f := CheckStmt(ss[i], out, lv, depth);
        assert ss[i..][0] == ss[i] && ss[i..][1..] == ss[i + 1..];
        out := DoStmt(ss[i], out);
        HandHand(old(loopStack), breaks, conts, f.breaks, f.conts);
        FlowAppend(seen, breaks, conts, f, CheckSeq(ss[i + 1..], f.st, lv, depth));
        seen, breaks, conts := seen + f.errs, breaks + f.breaks, conts + f.conts;
        i := i + 1;
      }
      assert breaks + [] == breaks && conts + [] == conts;
    }

    // ---- loops ----

    /// A pass over a loop body with a frame of its own on the stack.
    method DoPass(body: seq<Stmt>, st: State, depth: nat) returns (out: State, frame: LoopFrame)
      modifies this
      ensures var f := CheckBlock(body, st, old(Live()), Some(depth));
              out == f.st && Reported(f.errs) && frame == LoopFrame(depth, f.breaks, f.conts)
      decreases body, 6
    {
      ghost var outer := loopStack;
      loopStack := loopStack + [LoopFrame(depth, [], [])];
      out := DoBlock(body, st);
      frame := loopStack[|loopStack| - 1];
      loopStack := loopStack[..|loopStack| - 1];
      assert loopStack == outer;
    }

    /// `merge_into` for the states in `states`, in order.
    method DoMergeAll(acc: Option<State>, states: seq<State>) returns (merged: Option<State>)
      ensures merged == MergeAll(acc, states)
    {
      merged := acc;
      var i := 0;
      while i < |states|
        invariant i <= |states| && merged == MergeAll(acc, states[..i])
      {
        assert states[..i + 1][..i] == states[..i];
        merged := MergeInto(merged, states[i]);
        i := i + 1;
      }
      assert states[..i] == states;
    }

    method DoNextHeader(entry: State, body: State, conts: seq<State>) returns (next: State, back: bool)
      ensures next == NextHeader(entry, Flow(body, {}, [], conts))
      ensures back <==> MergeAll(None, [body] + conts) != None
    {
      var backedge := DoMergeAll(None, [body] + conts);
      next := entry;
      if backedge.Some? {
        next := Merge(entry, backedge.value);
      }
      back := backedge.Some?;
    }

    method DoWhile(s: Stmt, entry: State) returns (out: State)
      requires s.While?
      modifies this
      ensures var it := IterateWhile(s, entry, entry, entry, None, old(Live()), MaxIterations);
              out == (match it.breakExit case None => it.exit case Some(b) => Merge(it.exit, b)) && Reported(it.errs)
      decreases s, 1
    {
      hide Inspect, CheckBlock, MergeAll, NextHeader, Merge, Equivalent;
      var header, conditionExit, breakExit := entry, entry, None;
      var converged := false;
      var iteration := 0;
      ghost var lv := old(Live());
      ghost var seen: set<Diag> := {};
      ghost var total := IterateWhile(s, entry, entry, entry, None, lv, MaxIterations);
      while iteration < MaxIterations && !converged
        invariant iteration <= MaxIterations && Reported(seen)
        invariant !converged ==>
                    var it := IterateWhile(s, entry, header, conditionExit, breakExit, lv, MaxIterations - iteration);
                    total == Iterated(it.exit, it.breakExit, seen + it.errs)
        invariant converged ==> total == Iterated(conditionExit, breakExit, seen)
        decreases MaxIterations - iteration, !converged
      {
        conditionExit := DoInspect(s.cond, Move, header);
        seen := seen + Inspect(s.cond, Move, header).errs;
        var body, frame := DoPass(s.body, conditionExit, |entry.scopes|);
        ghost var f := CheckBlock(s.body, conditionExit, lv, Some(|entry.scopes|));
        seen := seen + f.errs;
        breakExit := DoMergeAll(breakExit, frame.breaks);
        var next, back := DoNextHeader(entry, body, frame.conts);
        NextHeaderOfFlow(entry, f);
        if Equivalent(next, header) {
          converged := true;
        } else {
          iteration := iteration + 1;
        }
        header := next;
      }
      if !converged {
        errors := errors + NotConverged(s.pos);
      }
      out := conditionExit;
      if breakExit.Some? {
        out := Merge(out, breakExit.value);
      }
    }

    method DoFor(s: Stmt, entry: State) returns (out: State)
      requires s.For?
      modifies this
      ensures var it := IterateFor(s, entry, entry, None, old(Live()), MaxIterations);
              out == (match it.breakExit case None => it.exit case Some(b) => Merge(it.exit, b)) && Reported(it.errs)
      decreases s, 1
    {
      hide CheckBlock, MergeAll, NextHeader, Merge, Equivalent, Truncate;
      var header, breakExit := entry, None;
      var converged := false;
      var iteration := 0;
      ghost var lv := old(Live());
      ghost var seen: set<Diag> := {};
      ghost var total := IterateFor(s, entry, entry, None, lv, MaxIterations);
      while iteration < MaxIterations && !converged
        invariant iteration <= MaxIterations && Reported(seen)
        invariant !converged ==>
                    var it := IterateFor(s, entry, header, breakExit, lv, MaxIterations - iteration);
                    total == Iterated(it.exit, it.breakExit, seen + it.errs)
        invariant converged ==> total == Iterated(header, breakExit, seen)
        decreases MaxIterations - iteration, !converged
      {
        var inner := header.(scopes := header.scopes + [map[s.key := s.ty]]);
        var body, frame := DoPass(s.body, inner, |entry.scopes|);
        body := DoTruncate(body, |entry.scopes|);
        ghost var f := CheckForBody(s, entry, header, lv);
        seen := seen + f.errs;
        breakExit := DoMergeAll(breakExit, frame.breaks);
        var next, back := DoNextHeader(entry, body, frame.conts);
        NextHeaderOfFlow(entry, f);
        if Equivalent(next, header) {
          converged := true;
        } else {
          iteration := iteration + 1;
        }
        header := next;
      }
      if !converged {
        errors := errors + NotConverged(s.pos);
      }
      out := header;
      if breakExit.Some? {
        out := Merge(out, breakExit.value);
      }
    }

    method DoLoop(s: Stmt, entry: State) returns (out: State)
      requires s.Loop?
      modifies this
      ensures var it := IterateLoop(s, entry, entry, None, old(Live()), MaxIterations);
              out == (match it.breakExit case None => entry.(reachable := false) case Some(b) => b) && Reported(it.errs)
      decreases s, 1
    {
      hide CheckBlock, MergeAll, NextHeader, Merge, Equivalent;
      var header, breakExit := entry, None;
      var converged := false;
      var iteration := 0;
      ghost var lv := old(Live());
      ghost var seen: set<Diag> := {};
      ghost var total := IterateLoop(s, entry, entry, None, lv, MaxIterations);
      while iteration < MaxIterations && !converged
        invariant iteration <= MaxIterations && Reported(seen)
        invariant !converged ==>
                    var it := IterateLoop(s, entry, header, breakExit, lv, MaxIterations - iteration);
                    total == Iterated(it.exit, it.breakExit, seen + it.errs)
        invariant converged ==> total.breakExit == breakExit && total.errs == seen
        decreases MaxIterations - iteration, !converged
      {
        var body, frame := DoPass(s.body, header, |entry.scopes|);
        ghost var f := CheckBlock(s.body, header, lv, Some(|entry.scopes|));
        seen := seen + f.errs;
        breakExit := DoMergeAll(breakExit, frame.breaks);
        var next, back := DoNextHeader(entry, body, frame.conts);
        NextHeaderOfFlow(entry, f);
        if !back {
          converged := true;
        } else {
          if Equivalent(next, header) {
            converged := true;
          } else {
            iteration := iteration + 1;
          }
          header := next;
        }
      }
      if !converged {
        errors := errors + NotConverged(s.pos);
      }
      if breakExit.Some? {
        out := breakExit.value;
      } else {
        out := entry.(reachable := false);
      }
    }

    // ---- functions ----

    /// Checking a function: in the fragment, no diagnostic means that no
    /// control-flow path uses an invalidated reference or a moved value.
    method DoCheckFunction(f: Function)
      requires BlockDistinctIds(f.body) && errors == {}
      modifies this
      ensures errors == CheckFunction(f, Live()) && loopStack == []
      ensures AnnotatedBlock(Roots, f.body, {}, {}, {}, roots)
      ensures errors == {} && Admissible(f) ==> forall ch :: Safe(Start, FunctionEvents(f, ch))
    {
      loopStack := [];
      PrepareLiveness(f);
      var exit := DoBlock(f.body, EntryState(f));
      if errors == {} && Admissible(f) {
        forall ch ensures Safe(Start, FunctionEvents(f, ch)) {
          CheckerIsSound(f, Live(), ch);
        }
      }
    }
  }

  lemma {:induction false} DistinctSuffix(ss: seq<Stmt>, i: nat)
    requires BlockDistinctIds(ss) && i < |ss|
    ensures DistinctIds(ss[i]) && BlockIds(ss[i..]) == Ids(ss[i]) + BlockIds(ss[i + 1..]) && Ids(ss[i]) !! BlockIds(ss[i + 1..])
  {
    if i == 0 {
      assert ss[0..] == ss;
    } else {
      DistinctSuffix(ss[1..], i - 1);
      assert ss[1..][i - 1..] == ss[i..] && ss[1..][i..] == ss[i + 1..];
    }
  }

  lemma FlowAppend(errs: set<Diag>, breaks: seq<State>, conts: seq<State>, f: Flow, rest: Flow)
    ensures errs + (f.errs + rest.errs) == errs + f.errs + rest.errs
    ensures breaks + (f.breaks + rest.breaks) == breaks + f.breaks + rest.breaks
    ensures conts + (f.conts + rest.conts) == conts + f.conts + rest.conts
  {
  }

  lemma StoreAfter(p: Place, pos: Pos, value: Expr, refTarget: bool, c: Checked)
    ensures var r := StoreInto(p, pos, value, refTarget, Checked(c.st, {}));
            StoreInto(p, pos, value, refTarget, c) == Checked(r.st, c.errs + r.errs)
  {
    hide AccessPlace, BindBorrow, SetOrigins, MarkInitialized;
  }

  lemma NextHeaderOfFlow(entry: State, f: Flow)
    ensures NextHeader(entry, f) == NextHeader(entry, Flow(f.st, {}, [], f.conts))
  {
  }
}
