/// What the checker computes for expressions and statements
/// (src/borrow.cpp, `inspect_expr` of src/borrow_flow.cpp), as functions.
/// The class in borrow_checker.dfy computes the same step by step.

module BorrowCheck {
  import opened Places
  import opened BorrowSyntax
  import opened BorrowState
  import opened Liveness

  // ---- expressions ----

  /// `begin`-to-end inspection of an expression. A place expression is
  /// accessed as a whole: its index operands are not inspected.
  function Inspect(e: Expr, access: Access, st: State): Checked
    decreases e, 1
  {
    match e
    case Literal => Checked(st, {})
    case Use(pe) => AccessPlace(pe.place, pe.pos, access, st, {})
    case Deref(pe) => AccessPlace(pe.place, pe.pos, Read, st, {})
    case Lend(pe) => AccessPlace(pe.place, pe.pos, access, st, {})
    case Unary(x) => Inspect(x, access, st)
    case Binary(l, r) =>
      var cl := Inspect(l, Move, st);
      var cr := Inspect(r, Move, cl.st);
      Checked(cr.st, cl.errs + cr.errs)
    case Borrow(mut, pe, pos) => BeginBorrow(pe.place, Temporary, mut, pos, st, {})
    case Call(pos, args) =>
      var reserved := ReserveArgs(args, 0, pos, st);
      var inspected := InspectArgs(args, 0, pos, reserved.st);
      var activated := ActivateArgs(args, 0, pos, ReleaseArgs(args, 0, pos, inspected.st));
      Checked(KillArgs(args, 0, pos, activated.st), reserved.errs + inspected.errs + activated.errs)
  }

  predicate IsMutBorrow(e: Expr) { e.Borrow? && e.mut }

  /// First phase: every `borrow mut` argument is reserved.
  function ReserveArgs(args: seq<Expr>, index: nat, pos: Pos, st: State): Checked {
    if args == [] then Checked(st, {})
    else if IsMutBorrow(args[0]) then
      var c := Reserve(args[0].pe.place, TwoPhase(pos, index), pos, st);
      var rest := ReserveArgs(args[1..], index + 1, pos, c.st);
      Checked(rest.st, c.errs + rest.errs)
    else ReserveArgs(args[1..], index + 1, pos, st)
  }

  /// The other arguments are inspected while the reservations stand. A lent
  /// reference is read, and guarded by a loan until all of them are done.
  function InspectArgs(args: seq<Expr>, index: nat, pos: Pos, st: State): Checked
    decreases args, 0
  {
    if args == [] then Checked(st, {})
    else
      var c := InspectArg(args[0], index, pos, st);
      var rest := InspectArgs(args[1..], index + 1, pos, c.st);
      Checked(rest.st, c.errs + rest.errs)
  }

  function InspectArg(e: Expr, index: nat, pos: Pos, st: State): Checked
    decreases e, 2
  {
    if IsMutBorrow(e) then Checked(st, {})
    else if e.Lend? then
      var r := AccessPlace(e.pe.place, e.pe.pos, Read, st, {});
      var b := BeginBorrow(e.pe.place, Guard(pos, index), true, e.pe.pos, r.st, {});
      Checked(b.st, r.errs + b.errs)
    else Inspect(e, Move, st)
  }

  function ReleaseArgs(args: seq<Expr>, index: nat, pos: Pos, st: State): State {
    if args == [] then st
    else ReleaseArgs(args[1..], index + 1, pos, if args[0].Lend? then KillHolder(Guard(pos, index), st) else st)
  }

  /// Second phase: the reservations become exclusive.
  function ActivateArgs(args: seq<Expr>, index: nat, pos: Pos, st: State): Checked {
    if args == [] then Checked(st, {})
    else if IsMutBorrow(args[0]) then
      var c := Activate(TwoPhase(pos, index), pos, st);
      var rest := ActivateArgs(args[1..], index + 1, pos, c.st);
      Checked(rest.st, c.errs + rest.errs)
    else ActivateArgs(args[1..], index + 1, pos, st)
  }

  function KillArgs(args: seq<Expr>, index: nat, pos: Pos, st: State): State {
    if args == [] then st
    else KillArgs(args[1..], index + 1, pos, if IsMutBorrow(args[0]) then KillHolder(TwoPhase(pos, index), st) else st)
  }

  function InspectOpt(e: Option<Expr>, st: State): Checked {
    match e case None => Checked(st, {}) case Some(x) => Inspect(x, Move, st)
  }

  // ---- loan expiry ----

  datatype Tables = Tables(roots: LiveTable, places: LiveTable)

  function Before(table: LiveTable, id: nat): LiveSet { if id in table then table[id] else {} }

  predicate LoanLiveAt(holder: Place, roots: LiveSet, places: LiveSet) {
    [Root(holder)] in roots || holder in places || exists q :: q in places && Conflict(q, holder)
  }

  predicate Survives(l: Loan, roots: LiveSet, places: LiveSet) {
    match l.holder
    case Temporary => false
    case TwoPhase(_, _) => true
    case CompoundTarget(_) => true
    case Guard(_, _) => false
    case Stored(p) => LoanLiveAt(p, roots, places)
  }

  function Expire(id: nat, lv: Tables, st: State): State {
    var roots, places := Before(lv.roots, id), Before(lv.places, id);
    st.(loans := set l | l in st.loans && Survives(l, roots, places))
  }

  // ---- statements ----

  /// The state after a statement, the diagnostics, and the states its
  /// `break`s and `continue`s hand to the innermost enclosing loop.
  datatype Flow = Flow(st: State, errs: set<Diag>, breaks: seq<State>, conts: seq<State>)

  function Straight(c: Checked): Flow { Flow(c.st, c.errs, [], []) }

  /// `let key = init`, after the initializer was inspected.
  function DefineLocal(key: Var, ty: Type, init: Option<Expr>, c: Checked): Checked
    requires c.st.scopes != []
  {
    var declared := MarkInitialized([key], c.st.(scopes := Declare(key, ty, c.st.scopes)));
    var cleared := SetOrigins([key], {}, declared);
    if ContainsReference(ty) && init.Some? && init.value.Borrow? then
      var b := BindBorrow([key], init.value, cleared);
      Checked(b.st, c.errs + b.errs)
    else Checked(cleared, c.errs)
  }

  /// The write that ends an assignment to the place `p`.
  function StoreInto(p: Place, pos: Pos, value: Expr, refTarget: bool, c: Checked): (r: Checked)
    ensures c.errs <= r.errs
  {
    var w := AccessPlace(p, pos, Write, c.st, {});
    var cleared := SetOrigins(p, {}, MarkInitialized(p, w.st));
    if refTarget && value.Borrow? then
      var b := BindBorrow(p, value, cleared);
      Checked(b.st, c.errs + w.errs + b.errs)
    else Checked(cleared, c.errs + w.errs)
  }

  function CheckAssign(compound: bool, t: Target, value: Expr, pos: Pos, st: State): Checked {
    var p := t.pe.place;
    if t.Direct? then
      var refTarget := ContainsReference(TypeOfPlace(p, st.scopes));
      if compound then
        // `x += e` reserves `x`, inspects `e`, activates and releases, then writes.
        var rid := CompoundTarget(pos);
        var r := Reserve(p, rid, t.pe.pos, st);
        var v := Inspect(value, Move, r.st);
        var a := Activate(rid, pos, v.st);
        var released := KillHoldersUnder(p, KillHolder(rid, a.st));
        StoreInto(p, t.pe.pos, value, refTarget, Checked(released, r.errs + v.errs + a.errs))
      else
        StoreInto(p, t.pe.pos, value, refTarget, Inspect(value, Move, KillHoldersUnder(p, st)))
    else
      var r := if compound then AccessPlace(p, t.pe.pos, Read, st, {}) else Checked(st, {});
      var v := Inspect(value, Move, r.st);
      var w := WriteThrough(p, t.pe.pos, v.st);
      Checked(w.st, r.errs + v.errs + w.errs)
  }

  function EscapeErrors(e: Expr, bearsReference: bool, pos: Pos, st: State): set<Diag> {
    if bearsReference && exists o :: o in ReferenceOrigins(e, st) && StackOwned(o.place, st.scopes)
    then {Diag(E0404, pos)} else {}
  }

  /// `depth` is the scope depth outside the innermost loop, if there is one.
  function Leave(st: State, depth: Option<nat>): Checked {
    match depth case None => Checked(st, {}) case Some(d) => Truncate(st, d)
  }

  function LeavingStates(c: Checked, depth: Option<nat>): seq<State> {
    if depth.Some? then [c.st] else []
  }

  const MaxIterations: nat := 4096

  function CheckStmt(s: Stmt, st: State, lv: Tables, depth: Option<nat>): Flow
    decreases s, MaxIterations + 2
  {
    if !st.reachable then Flow(st, {}, [], []) else CheckLive(s, Expire(s.id, lv, st), lv, depth)
  }

  /// The statement itself, once the loans dead before it are gone.
  function CheckLive(s: Stmt, st: State, lv: Tables, depth: Option<nat>): Flow
    decreases s, MaxIterations + 1
  {
    match s
    case Let(_, key, ty, init) =>
      var c := InspectOpt(init, st);
      if c.st.scopes == [] then Straight(c) else Straight(DefineLocal(key, ty, init, c))
    case Assign(_, compound, t, value, pos) => Straight(CheckAssign(compound, t, value, pos, st))
    case ExprStmt(_, e) => Straight(Inspect(e, Move, st))
    case Return(_, e, bears, pos) =>
      var c := InspectOpt(e, st);
      var escapes := if e.Some? then EscapeErrors(e.value, bears, pos, st) else {};
      Flow(c.st.(reachable := false), escapes + c.errs, [], [])
    case Break(_) =>
      var out := Leave(st, depth);
      Flow(st.(reachable := false), out.errs, LeavingStates(out, depth), [])
    case Continue(_) =>
      var out := Leave(st, depth);
      Flow(st.(reachable := false), out.errs, [], LeavingStates(out, depth))
    case Block(_, body) => CheckBlock(body, st, lv, depth)
    case If(_, cond, thn, els) =>
      var c := Inspect(cond, Move, st);
      var l := CheckBlock(thn, c.st, lv, depth);
      var r := CheckBlock(els, c.st, lv, depth);
      Flow(Merge(l.st, r.st), c.errs + l.errs + r.errs, l.breaks + r.breaks, l.conts + r.conts)
    case While(_, _, _, _) =>
      var it := IterateWhile(s, st, st, st, None, lv, MaxIterations);
      Flow(match it.breakExit case None => it.exit case Some(b) => Merge(it.exit, b), it.errs, [], [])
    case For(_, _, _, begin, end, _, _) =>
      var b := Inspect(begin, Move, st);
      var e := Inspect(end, Move, b.st);
      var it := IterateFor(s, e.st, e.st, None, lv, MaxIterations);
      Flow(match it.breakExit case None => it.exit case Some(x) => Merge(it.exit, x), b.errs + e.errs + it.errs, [], [])
    case Loop(_, _, _) =>
      var it := IterateLoop(s, st, st, None, lv, MaxIterations);
      Flow(match it.breakExit case None => st.(reachable := false) case Some(b) => b, it.errs, [], [])
  }

  function CheckBlock(body: seq<Stmt>, st: State, lv: Tables, depth: Option<nat>): Flow
    decreases body, MaxIterations + 4
  {
    if !st.reachable then Flow(st, {}, [], [])
    else
      var f := CheckSeq(body, PushScope(st), lv, depth);
      var out := Truncate(f.st, |st.scopes|);
      Flow(out.st, f.errs + out.errs, f.breaks, f.conts)
  }

  function CheckSeq(ss: seq<Stmt>, st: State, lv: Tables, depth: Option<nat>): Flow
    decreases ss, MaxIterations + 3
  {
    if ss == [] || !st.reachable then Flow(st, {}, [], [])
    else
      var f := CheckStmt(ss[0], st, lv, depth);
      var rest := CheckSeq(ss[1..], f.st, lv, depth);
      Flow(rest.st, f.errs + rest.errs, f.breaks + rest.breaks, f.conts + rest.conts)
  }

  /// Where a loop's iteration ends: the state at its regular exit, the join
  /// of the states at its `break`s, and all diagnostics.
  datatype Iterated = Iterated(exit: State, breakExit: Option<State>, errs: set<Diag>)

  function NotConverged(pos: Pos): set<Diag> { {Diag(E0408, pos)} }

  /// The state at the loop head after a pass over the body.
  function NextHeader(entry: State, f: Flow): State {
    match MergeAll(None, [f.st] + f.conts) case None => entry case Some(b) => Merge(entry, b)
  }

  /// `n` passes remain.
  function IterateWhile(s: Stmt, entry: State, header: State, exit: State, breakExit: Option<State>, lv: Tables, n: nat): Iterated
    requires s.While? && n <= MaxIterations
    decreases s, n
  {
    if n == 0 then Iterated(exit, breakExit, NotConverged(s.pos))
    else
      var c := Inspect(s.cond, Move, header);
      var f := CheckBlock(s.body, c.st, lv, Some(|entry.scopes|));
      var brk := MergeAll(breakExit, f.breaks);
      var next := NextHeader(entry, f);
      if Equivalent(next, header) then Iterated(c.st, brk, c.errs + f.errs)
      else
        var rest := IterateWhile(s, entry, next, c.st, brk, lv, n - 1);
        rest.(errs := c.errs + f.errs + rest.errs)
  }

  /// The body of a `for` with the scope of its variable around it.
  function CheckForBody(s: Stmt, entry: State, header: State, lv: Tables): Flow
    requires s.For?
    decreases s, 0
  {
    var inner := header.(scopes := header.scopes + [map[s.key := s.ty]]);
    var f := CheckBlock(s.body, inner, lv, Some(|entry.scopes|));
    var out := Truncate(f.st, |entry.scopes|);
    Flow(out.st, f.errs + out.errs, f.breaks, f.conts)
  }

  function IterateFor(s: Stmt, entry: State, header: State, breakExit: Option<State>, lv: Tables, n: nat): Iterated
    requires s.For? && n <= MaxIterations
    decreases s, n
  {
    if n == 0 then Iterated(header, breakExit, NotConverged(s.pos))
    else
      var f := CheckForBody(s, entry, header, lv);
      var brk := MergeAll(breakExit, f.breaks);
      var next := NextHeader(entry, f);
      if Equivalent(next, header) then Iterated(next, brk, f.errs)
      else
        var rest := IterateFor(s, entry, next, brk, lv, n - 1);
        rest.(errs := f.errs + rest.errs)
  }

  function IterateLoop(s: Stmt, entry: State, header: State, breakExit: Option<State>, lv: Tables, n: nat): Iterated
    requires s.Loop? && n <= MaxIterations
    decreases s, n
  {
    if n == 0 then Iterated(header, breakExit, NotConverged(s.pos))
    else
      var f := CheckBlock(s.body, header, lv, Some(|entry.scopes|));
      var brk := MergeAll(breakExit, f.breaks);
      if MergeAll(None, [f.st] + f.conts) == None then Iterated(header, brk, f.errs)
      else
        var next := NextHeader(entry, f);
        if Equivalent(next, header) then Iterated(next, brk, f.errs)
        else
          var rest := IterateLoop(s, entry, next, brk, lv, n - 1);
          rest.(errs := f.errs + rest.errs)
  }

  /// A function: its parameters in the outermost scope, then its body.
  datatype Function = Function(params: map<Var, Type>, body: seq<Stmt>)

  function EntryState(f: Function): State { State({}, {}, [f.params], map[], true) }

  function CheckFunction(f: Function, lv: Tables): set<Diag> {
    CheckBlock(f.body, EntryState(f), lv, None).errs
  }
}
