/// Liveness is exact: what is live where a path may start is used first by some
/// path from there, or on its way out still live. So a reference that no path uses
/// again is forgotten, and so is its loan.

module LivenessExact {
  import opened Places
  import opened BorrowSyntax
  import opened BorrowState
  import opened BorrowCheck
  import opened Liveness
  import opened Paths
  import opened LivenessSoundness

  // ---- expressions use what they mention and redefine nothing ----

  ghost predicate Exact(events: seq<Event>, v: Var, uses: LiveSet) {
    Untouched(events, v) && ([v] in uses ==> UsedFirst(events, v))
  }

  lemma ExactConcat(a: seq<Event>, b: seq<Event>, v: Var, m: LiveSet, n: LiveSet)
    requires Exact(a, v, m) && Exact(b, v, n)
    ensures Exact(a + b, v, m + n)
  {
    UsedFirstConcat(a, b, v);
  }

  lemma ExactThen(a: seq<Event>, b: seq<Event>, v: Var, m: LiveSet)
    requires Exact(a, v, m) && Exact(b, v, {})
    ensures Exact(a + b, v, m)
  {
    UsedFirstConcat(a, b, v);
  }

  lemma TouchExact(p: Place, access: Access, v: Var)
    requires access != Write
    ensures Exact([Touch(p, access)], v, PlaceUses(Roots, p))
  {
    var one := [Touch(p, access)];
    assert one[1..] == [];
  }

  /// An event that neither uses nor redefines anything.
  lemma Neutral(e: Event, v: Var)
    requires !Rebinds(e, v)
    ensures Exact([e], v, {})
  {
    assert [e][1..] == [];
  }

  lemma NothingExact(v: Var)
    ensures Exact([], v, {})
  {
  }

  lemma {:induction false} ExprExact(e: Expr, access: Access, scopes: Scopes, v: Var)
    requires access != Write
    ensures Exact(Events(e, access, scopes), v, Uses(Roots, e))
    decreases e, 1
  {
    hide Exact;
    match e
    case Literal => NothingExact(v);
    case Use(pe) => PlaceExact(pe, Effective(pe.place, access, scopes), scopes, v);
    case Lend(pe) => PlaceExact(pe, Effective(pe.place, access, scopes), scopes, v);
    case Deref(pe) =>
      PlaceExact(pe, Read, scopes, v);
      var takes := TakeEvents(pe.place, scopes);
      if takes == [] { NothingExact(v); } else { Neutral(takes[0], v); }
      ExactThen(OperandEvents(pe.operands, scopes) + [Touch(pe.place, Read)], takes, v, Uses(Roots, e));
    case Borrow(mut, pe, _) => PlaceExact(pe, if mut then BorrowMut else BorrowShared, scopes, v);
    case Unary(x) => ExprExact(x, access, scopes, v);
    case Binary(l, r) =>
      ExprExact(l, Move, scopes, v);
      ExprExact(r, Move, scopes, v);
      ExactConcat(Events(l, Move, scopes), Events(r, Move, scopes), v, Uses(Roots, l), Uses(Roots, r));
    case Call(pos, args) => CallExact(pos, args, scopes, v);
  }

  lemma {:induction false} PlaceExact(pe: PlaceExpr, access: Access, scopes: Scopes, v: Var)
    requires access != Write
    ensures Exact(OperandEvents(pe.operands, scopes) + [Touch(pe.place, access)], v, PlaceUses(Roots, pe.place) + AllUses(Roots, pe.operands))
    decreases pe, 3
  {
    hide Exact;
    OperandsExact(pe.operands, scopes, v);
    TouchExact(pe.place, access, v);
    ExactConcat(OperandEvents(pe.operands, scopes), [Touch(pe.place, access)], v, AllUses(Roots, pe.operands), PlaceUses(Roots, pe.place));
    assert AllUses(Roots, pe.operands) + PlaceUses(Roots, pe.place) == PlaceUses(Roots, pe.place) + AllUses(Roots, pe.operands);
  }

  lemma {:induction false} OperandsExact(es: seq<Expr>, scopes: Scopes, v: Var)
    ensures Exact(OperandEvents(es, scopes), v, AllUses(Roots, es))
    decreases es, 0
  {
    hide Exact;
    if es == [] {
      NothingExact(v);
    } else {
      ExprExact(es[0], Move, scopes, v);
      OperandsExact(es[1..], scopes, v);
      ExactConcat(Events(es[0], Move, scopes), OperandEvents(es[1..], scopes), v, Uses(Roots, es[0]), AllUses(Roots, es[1..]));
    }
  }

  /// Of its arguments a call first reserves some, then takes the others, then
  /// activates the first ones.
  lemma {:induction false} CallExact(pos: Pos, args: seq<Expr>, scopes: Scopes, v: Var)
    ensures Exact(Events(Call(pos, args), Move, scopes), v, AllUses(Roots, args))
    decreases args, 2
  {
    hide Exact;
    var ev1, ev2, ev3 := ReserveEvents(args), ArgEvents(args, 0, pos, scopes), ActivateEvents(args, 0, pos);
    var enter := Enter(RefArgs(args, 0, pos), HeldVars(args));
    ReservedExact(args, v);
    ArgsExact(args, 0, pos, scopes, v);
    ActivatedExact(args, 0, pos, v);
    Neutral(enter, v);
    ExactConcat(ev1, ev2, v, ReservedUses(args), ArgUses(args));
    UsesSplit(args);
    ExactThen(ev1 + ev2, ev3, v, AllUses(Roots, args));
    ExactThen(ev1 + ev2 + ev3, [enter], v, AllUses(Roots, args));
  }

  /// The places of the `borrow mut` arguments.
  function ReservedUses(args: seq<Expr>): LiveSet {
    if args == [] then {} else (if IsMutBorrow(args[0]) then PlaceUses(Roots, args[0].pe.place) else {}) + ReservedUses(args[1..])
  }

  function OwnUses(e: Expr): LiveSet { if IsMutBorrow(e) then AllUses(Roots, e.pe.operands) else Uses(Roots, e) }

  /// What is evaluated in the arguments' turn.
  function ArgUses(args: seq<Expr>): LiveSet {
    if args == [] then {} else OwnUses(args[0]) + ArgUses(args[1..])
  }

  lemma {:induction false} UsesSplit(args: seq<Expr>)
    ensures ReservedUses(args) + ArgUses(args) == AllUses(Roots, args)
  {
    if args != [] { UsesSplit(args[1..]); }
  }

  lemma {:induction false} ReservedExact(args: seq<Expr>, v: Var)
    ensures Exact(ReserveEvents(args), v, ReservedUses(args))
  {
    hide Exact;
    NothingExact(v);
    if args != [] {
      ReservedExact(args[1..], v);
      if IsMutBorrow(args[0]) {
        TouchExact(args[0].pe.place, TwoPhaseReserve, v);
        ExactConcat([Touch(args[0].pe.place, TwoPhaseReserve)], ReserveEvents(args[1..]), v, PlaceUses(Roots, args[0].pe.place), ReservedUses(args[1..]));
      } else {
        ExactConcat([], ReserveEvents(args[1..]), v, {}, ReservedUses(args[1..]));
      }
    }
  }

  lemma {:induction false} ActivatedExact(args: seq<Expr>, index: nat, pos: Pos, v: Var)
    ensures Exact(ActivateEvents(args, index, pos), v, {})
  {
    hide Exact;
    NothingExact(v);
    if args != [] {
      ActivatedExact(args[1..], index + 1, pos, v);
      if IsMutBorrow(args[0]) {
        var touch, pass := Touch(args[0].pe.place, BorrowMut), Pass(Arg(pos, index, args[0].pe.place, true));
        Neutral(touch, v);
        Neutral(pass, v);
        ExactThen([touch], [pass], v, {});
        ExactThen([touch] + [pass], ActivateEvents(args[1..], index + 1, pos), v, {});
      } else {
        ExactThen([], ActivateEvents(args[1..], index + 1, pos), v, {});
      }
    }
  }

  lemma {:induction false} ArgsExact(args: seq<Expr>, index: nat, pos: Pos, scopes: Scopes, v: Var)
    ensures Exact(ArgEvents(args, index, pos, scopes), v, ArgUses(args))
    decreases args, 0
  {
    hide Exact;
    if args == [] {
      NothingExact(v);
    } else {
      ArgExact(args[0], index, pos, scopes, v);
      ArgsExact(args[1..], index + 1, pos, scopes, v);
      ExactConcat(ArgEvent(args[0], index, pos, scopes), ArgEvents(args[1..], index + 1, pos, scopes), v, OwnUses(args[0]), ArgUses(args[1..]));
    }
  }

  lemma {:induction false} ArgExact(e: Expr, index: nat, pos: Pos, scopes: Scopes, v: Var)
    ensures Exact(ArgEvent(e, index, pos, scopes), v, OwnUses(e))
    decreases e, 2
  {
    hide Exact;
    if IsMutBorrow(e) {
      OperandsExact(e.pe.operands, scopes, v);
    } else if e.Lend? {
      var pass := Pass(Arg(pos, index, e.pe.place, true));
      PlaceExact(e.pe, BorrowMut, scopes, v);
      Neutral(pass, v);
      ExactThen(OperandEvents(e.pe.operands, scopes) + [Touch(e.pe.place, BorrowMut)], [pass], v, Uses(Roots, e));
    } else {
      ExprExact(e, Move, scopes, v);
      if e.Borrow? {
        var pass := Pass(Arg(pos, index, e.pe.place, false));
        Neutral(pass, v);
        ExactThen(Events(e, Move, scopes), [pass], v, Uses(Roots, e));
      }
    }
  }

  // ---- statements ----

  /// A target that is a bare name has no index operands, and there is no `loop`,
  /// whose head the code takes to reach what follows it even when nothing leaves it.
  predicate Plain(s: Stmt)
    decreases s, 1
  {
    match s
    case Assign(_, _, t, _, _) => |t.pe.place| == 1 ==> t.pe.operands == []
    case Block(_, body) => AllPlain(body)
    case If(_, _, thn, els) => AllPlain(thn) && AllPlain(els)
    case While(_, _, body, _) => AllPlain(body)
    case For(_, _, _, _, _, body, _) => AllPlain(body)
    case Loop(_, _, _) => false
    case _ => true
  }

  predicate AllPlain(ss: seq<Stmt>)
    decreases ss, 0
  {
    ss == [] || (Plain(ss[0]) && AllPlain(ss[1..]))
  }

  lemma LetExact(key: Var, ty: Type, init: Option<Expr>, scopes: Scopes, v: Var, after: LiveSet)
    ensures var ev := LetEvents(key, ty, init, scopes);
      [v] in Without(after, key) + OptUses(Roots, init) ==> UsedFirst(ev, v) || (Untouched(ev, v) && [v] in after)
  {
    var first := OptEvents(init, scopes);
    if init.Some? { ExprExact(init.value, Move, scopes, v); }
    var one := [Initialize([key])];
    assert one[1..] == [] && Root([v]) == v;
    var bind := if init.Some? then BindEvents(key, ContainsReference(ty), init.value) else [];
    assert bind != [] ==> bind[1..] == [];
    UsedFirstConcat(first + one, bind, v);
    UsedFirstConcat(first, one, v);
    hide Events, Uses;
  }

  lemma AssignExact(compound: bool, t: Target, value: Expr, scopes: Scopes, v: Var, after: LiveSet)
    requires |t.pe.place| == 1 ==> t.pe.operands == []
    ensures var ev := AssignEvents(compound, t, value, scopes);
      [v] in AssignLive(Roots, compound, t, value, after) ==> UsedFirst(ev, v) || (Untouched(ev, v) && [v] in after)
  {
    OperandsExact(t.pe.operands, scopes, v);
    ExprExact(value, Move, scopes, v);
    if t.Through? {
      ThroughExact(compound, t, value, scopes, v);
    } else {
      DirectExact(compound, t, value, scopes, v);
    }
  }

  lemma ThroughExact(compound: bool, t: Target, value: Expr, scopes: Scopes, v: Var)
    requires t.Through? && Exact(OperandEvents(t.pe.operands, scopes), v, AllUses(Roots, t.pe.operands)) && Exact(Events(value, Move, scopes), v, Uses(Roots, value))
    ensures Exact(AssignEvents(compound, t, value, scopes), v, TargetUses(Roots, t) + Uses(Roots, value))
  {
    hide OperandEvents, Events;
    var p := t.pe.place;
    var operands, rhs := OperandEvents(t.pe.operands, scopes), Events(value, Move, scopes);
    var read := if compound then [Touch(p, Read)] else [];
    var stores := StoreEvents(p, value, scopes);
    var write := [WriteVia(p)];
    assert stores != [] ==> stores[1..] == [];
    assert read != [] ==> read[1..] == [];
    assert write[1..] == [];
    UsedFirstConcat(operands + read + rhs + write, stores, v);
    UsedFirstConcat(operands + read + rhs, write, v);
    UsedFirstConcat(operands + read, rhs, v);
    UsedFirstConcat(operands, read, v);
  }

  lemma DirectExact(compound: bool, t: Target, value: Expr, scopes: Scopes, v: Var)
    requires t.Direct? && Exact(OperandEvents(t.pe.operands, scopes), v, AllUses(Roots, t.pe.operands)) && Exact(Events(value, Move, scopes), v, Uses(Roots, value))
    requires |t.pe.place| == 1 ==> t.pe.operands == []
    ensures var ev := AssignEvents(compound, t, value, scopes);
      && ([v] in Uses(Roots, value) + AllUses(Roots, t.pe.operands) ==> UsedFirst(ev, v))
      && (!RedefinesWhole(compound, t) && Root(t.pe.place) == v ==> UsedFirst(ev, v))
      && (t.pe.place != [v] ==> Untouched(ev, v))
      && (compound && t.pe.place == [v] ==> UsedFirst(ev, v))
  {
    hide OperandEvents, Events;
    var p := t.pe.place;
    var operands, rhs := OperandEvents(t.pe.operands, scopes), Events(value, Move, scopes);
    var reserve, activate := [Touch(p, TwoPhaseReserve)], [Touch(p, BorrowMut)];
    assert reserve[1..] == [] && activate[1..] == [];
    var bind := BindEvents(Root(p), ContainsReference(TypeOfPlace(p, scopes)), value);
    assert bind != [] ==> bind[1..] == [];
    var mid := if compound then reserve + rhs + activate else rhs;
    var store := [Touch(p, Write), Initialize(p)];
    UsedFirstConcat(reserve + rhs, activate, v);
    UsedFirstConcat(reserve, rhs, v);
    UsedFirstConcat(operands + mid + store, bind, v);
    UsedFirstConcat(operands + mid, store, v);
    UsedFirstConcat(operands, mid, v);
    StoreTouches(p, v);
    assert |p| == 1 && p[0] == v ==> p == [v];
  }

  // ---- paths in sequence ----

  /// Decisions that a path leaves over do not change it.
  lemma {:induction false} RunMore(s: Stmt, scopes: Scopes, ch: seq<bool>, more: seq<bool>)
    requires Run(s, scopes, ch).out != Cut
    ensures var r := Run(s, scopes, ch); Run(s, scopes, ch + more) == r.(rest := r.rest + more)
    decreases |ch|, s, 1
  {
    match s
    case Block(_, body) => BlockMore(body, scopes, ch, more);
    case If(_, cond, thn, els) =>
      assert (ch + more)[1..] == ch[1..] + more;
      BlockMore(if ch[0] then thn else els, scopes, ch[1..], more);
    case While(_, _, _, _) => LoopMore(s, scopes, ch, more);
    case For(_, _, _, _, _, _, _) => LoopMore(s, scopes, ch, more);
    case Loop(_, _, _) => LoopMore(s, scopes, ch, more);
    case _ =>
  }

  lemma {:induction false} BlockMore(body: seq<Stmt>, scopes: Scopes, ch: seq<bool>, more: seq<bool>)
    requires RunBlock(body, scopes, ch).out != Cut
    ensures var r := RunBlock(body, scopes, ch); RunBlock(body, scopes, ch + more) == r.(rest := r.rest + more)
    decreases |ch|, body, 3
  {
    SeqMore(body, scopes + [map[]], ch, more);
  }

  lemma {:induction false} SeqMore(ss: seq<Stmt>, scopes: Scopes, ch: seq<bool>, more: seq<bool>)
    requires RunSeq(ss, scopes, ch).out != Cut
    ensures var r := RunSeq(ss, scopes, ch); RunSeq(ss, scopes, ch + more) == r.(rest := r.rest + more)
    decreases |ch|, ss, 2
  {
    if ss != [] {
      RunMore(ss[0], scopes, ch, more);
      var first := Run(ss[0], scopes, ch);
      if first.out == Normal { SeqMore(ss[1..], first.scopes, first.rest, more); }
    }
  }

  lemma {:induction false} LoopMore(s: Stmt, scopes: Scopes, ch: seq<bool>, more: seq<bool>)
    requires IsLoop(s) && RunLoop(s, scopes, ch).out != Cut
    ensures var r := RunLoop(s, scopes, ch); RunLoop(s, scopes, ch + more) == r.(rest := r.rest + more)
    decreases |ch|, s, 0
  {
    assert (ch + more)[1..] == ch[1..] + more;
    if ch[0] || s.Loop? {
      BodyMore(s, scopes, ch[1..], more);
      var b := RunLoopBody(s, scopes, ch[1..]);
      if b.out == Normal || b.out == Continued { LoopMore(s, scopes, b.rest, more); }
    }
  }

  lemma {:induction false} BodyMore(s: Stmt, scopes: Scopes, ch: seq<bool>, more: seq<bool>)
    requires IsLoop(s) && RunLoopBody(s, scopes, ch).out != Cut
    ensures var r := RunLoopBody(s, scopes, ch); RunLoopBody(s, scopes, ch + more) == r.(rest := r.rest + more)
    decreases |ch|, s, 0
  {
    BlockMore(s.body, if s.For? then scopes + [map[s.key := s.ty]] else scopes, ch, more);
  }

  /// Statements leave the scopes around their own one alone.
  lemma {:induction false} RunScopes(s: Stmt, scopes: Scopes, ch: seq<bool>)
    ensures Run(s, scopes, ch).scopes == if s.Let? && scopes != [] then Declare(s.key, s.ty, scopes) else scopes
    decreases |ch|, s, 1
  {
    match s
    case While(_, _, _, _) => LoopScopesKept(s, scopes, ch);
    case For(_, _, _, _, _, _, _) => LoopScopesKept(s, scopes, ch);
    case Loop(_, _, _) => LoopScopesKept(s, scopes, ch);
    case _ =>
  }

  lemma {:induction false} LoopScopesKept(s: Stmt, scopes: Scopes, ch: seq<bool>)
    requires IsLoop(s)
    ensures RunLoop(s, scopes, ch).scopes == scopes
    decreases |ch|, s, 0
  {
    if ch != [] && (ch[0] || s.Loop?) {
      var b := RunLoopBody(s, scopes, ch[1..]);
      PassScopes(s, scopes, ch[1..]);
      if b.out == Normal || b.out == Continued { LoopScopesKept(s, scopes, b.rest); }
    }
  }

  lemma PassScopes(s: Stmt, scopes: Scopes, ch: seq<bool>)
    requires IsLoop(s)
    ensures RunLoopBody(s, scopes, ch).scopes == scopes
  {
  }

  /// A block that leaves a name alone has not declared it.
  lemma {:induction false} NotDeclared(ss: seq<Stmt>, scopes: Scopes, ch: seq<bool>, v: Var)
    requires scopes != [] && v !in scopes[|scopes| - 1] && Untouched(RunSeq(ss, scopes, ch).events, v)
    ensures var r := RunSeq(ss, scopes, ch).scopes; |r| == |scopes| && v !in r[|r| - 1]
    decreases |ch|, ss
  {
    if ss != [] {
      var first := Run(ss[0], scopes, ch);
      RunScopes(ss[0], scopes, ch);
      if first.out == Normal { UsedFirstConcat(first.events, RunSeq(ss[1..], first.scopes, first.rest).events, v); }
      if ss[0].Let? { LetRebinds(ss[0].key, ss[0].ty, ss[0].init, scopes, v); }
      if first.out == Normal { NotDeclared(ss[1..], first.scopes, first.rest, v); }
    }
  }

  lemma LetRebinds(key: Var, ty: Type, init: Option<Expr>, scopes: Scopes, v: Var)
    requires Untouched(LetEvents(key, ty, init, scopes), v)
    ensures key != v
  {
    var one := [Initialize([key])];
    assert one[1..] == [];
    var bind := if init.Some? then BindEvents(key, ContainsReference(ty), init.value) else [];
    UsedFirstConcat(OptEvents(init, scopes) + one, bind, v);
    UsedFirstConcat(OptEvents(init, scopes), one, v);
    assert Root([v]) == v && [key] == [v] <==> key == v;
  }

  // ---- a path for everything that is live ----

  /// The path needs `v`, and unless it is cut it takes all its decisions.
  ghost predicate Witness(r: Result, v: Var, after: LiveSet, brk: LiveSet, cont: LiveSet) {
    Needs(r, v, after, brk, cont) && (r.out != Cut ==> r.rest == [])
  }

  /// Whatever is live before a statement is needed by some path through it: the
  /// path uses it first, or leaves it alone and ends where it is live.
  lemma {:induction false} LiveIsNeeded(s: Stmt, scopes: Scopes, v: Var, after: LiveSet, brk: LiveSet, cont: LiveSet) returns (ch: seq<bool>)
    requires Plain(s) && [v] in Live(Roots, s, after, brk, cont)
    ensures Witness(Run(s, scopes, ch), v, after, brk, cont)
    decreases s, 2
  {
    ch := [];
    match s
    case Let(_, key, ty, init) => LetExact(key, ty, init, scopes, v, after);
    case Assign(_, compound, t, value, _) => AssignExact(compound, t, value, scopes, v, after);
    case ExprStmt(_, e) => ExprExact(e, Move, scopes, v);
    case Return(_, e, _, _) => ReturnNeeded(e, scopes, v);
    case Break(_) =>
    case Continue(_) =>
    case Block(_, body) => ch := BlockIsNeeded(body, scopes, v, after, brk, cont);
    case If(_, cond, thn, els) => ch := BranchIsNeeded(s, scopes, v, after, brk, cont);
    case While(_, _, _, _) => ch := LoopIsNeeded(s, scopes, v, after);
    case For(_, key, _, b, e, _, _) =>
      ExprExact(b, Move, scopes, v);
      ExprExact(e, Move, scopes, v);
      UsedFirstConcat(Events(b, Move, scopes), Events(e, Move, scopes), v);
      var bounds := Events(b, Move, scopes) + Events(e, Move, scopes);
      if UsedFirst(bounds, v) {
        UsedFirstConcat(bounds, RunLoop(s, scopes, ch).events, v);
      } else {
        ch := LoopIsNeeded(s, scopes, v, after);
        UsedFirstConcat(bounds, RunLoop(s, scopes, ch).events, v);
      }
  }

  lemma ReturnNeeded(e: Option<Expr>, scopes: Scopes, v: Var)
    requires [v] in OptUses(Roots, e)
    ensures UsedFirst((if e.Some? then EscapeEvents(e.value, scopes) else []) + OptEvents(e, scopes) + [Exit(scopes)], v)
  {
    var escapes := EscapeEvents(e.value, scopes);
    EscapesUntouched(e.value, scopes, v);
    ExprExact(e.value, Move, scopes, v);
    UsedFirstConcat(escapes, OptEvents(e, scopes), v);
    UsedFirstConcat(escapes + OptEvents(e, scopes), [Exit(scopes)], v);
  }

  lemma {:induction false} EscapesUntouched(e: Expr, scopes: Scopes, v: Var)
    ensures Untouched(EscapeEvents(e, scopes), v)
  {
    if e.Unary? {
      EscapesUntouched(e.operand, scopes, v);
    } else {
      var ev := EscapeEvents(e, scopes);
      assert ev != [] ==> ev[1..] == [];
    }
  }

  lemma {:induction false} BranchIsNeeded(s: Stmt, scopes: Scopes, v: Var, after: LiveSet, brk: LiveSet, cont: LiveSet) returns (ch: seq<bool>)
    requires s.If? && Plain(s) && [v] in Live(Roots, s, after, brk, cont)
    ensures Witness(Run(s, scopes, ch), v, after, brk, cont)
    decreases s, 1
  {
    ch := [];
    var c := Events(s.cond, Move, scopes);
    ExprExact(s.cond, Move, scopes, v);
    if !UsedFirst(c, v) {
      var left := [v] in LiveBlock(Roots, s.thn, after, brk, cont);
      var branch := if left then s.thn else s.els;
      var rest := BlockIsNeeded(branch, scopes, v, after, brk, cont);
      ch := [left] + rest;
      assert ch[1..] == rest;
      UsedFirstConcat(c, RunBlock(branch, scopes, rest).events, v);
    }
  }

  lemma {:induction false} BlockIsNeeded(body: seq<Stmt>, scopes: Scopes, v: Var, after: LiveSet, brk: LiveSet, cont: LiveSet) returns (ch: seq<bool>)
    requires AllPlain(body) && [v] in LiveBlock(Roots, body, after, brk, cont)
    ensures Witness(RunBlock(body, scopes, ch), v, after, brk, cont)
    decreases body, 4
  {
    ch := SeqIsNeeded(body, scopes + [map[]], v, after, brk, cont);
    CloseIsNeeded(body, scopes, ch, v, after, brk, cont);
  }

  lemma CloseIsNeeded(body: seq<Stmt>, scopes: Scopes, ch: seq<bool>, v: Var, after: LiveSet, brk: LiveSet, cont: LiveSet)
    requires Witness(RunSeq(body, scopes + [map[]], ch), v, after, brk, cont)
    ensures Witness(RunBlock(body, scopes, ch), v, after, brk, cont)
  {
    var r := RunSeq(body, scopes + [map[]], ch);
    if Untouched(r.events, v) { NotDeclared(body, scopes + [map[]], ch, v); }
    if r.scopes != [] {
      var dead := [Dead(r.scopes[|r.scopes| - 1].Keys)];
      assert dead[1..] == [];
      UsedFirstConcat(r.events, dead, v);
    }
  }

  lemma {:induction false} SeqIsNeeded(ss: seq<Stmt>, scopes: Scopes, v: Var, after: LiveSet, brk: LiveSet, cont: LiveSet) returns (ch: seq<bool>)
    requires AllPlain(ss) && [v] in LiveBlock(Roots, ss, after, brk, cont)
    ensures Witness(RunSeq(ss, scopes, ch), v, after, brk, cont)
    decreases ss, 3
  {
    ch := [];
    if ss != [] {
      var mid := LiveBlock(Roots, ss[1..], after, brk, cont);
      ch := LiveIsNeeded(ss[0], scopes, v, mid, brk, cont);
      var first := Run(ss[0], scopes, ch);
      if first.out == Normal {
        if UsedFirst(first.events, v) {
          UsedFirstConcat(first.events, RunSeq(ss[1..], first.scopes, []).events, v);
        } else {
          var rest := SeqIsNeeded(ss[1..], first.scopes, v, after, brk, cont);
          RunMore(ss[0], scopes, ch, rest);
          ch := ch + rest;
          assert [] + rest == rest;
          UsedFirstConcat(first.events, RunSeq(ss[1..], first.scopes, rest).events, v);
        }
      }
    }
  }

  /// At the head of a loop: the test uses it, or the path leaves at once, or one
  /// pass over the body needs it.
  lemma {:induction false} LoopIsNeeded(s: Stmt, scopes: Scopes, v: Var, after: LiveSet) returns (ch: seq<bool>)
    requires IsLoop(s) && Plain(s) && [v] in LoopStep(Roots, s, after, after)
    ensures Witness(RunLoop(s, scopes, ch), v, after, {}, {})
    decreases s, 1
  {
    var c := LoopCondEvents(s, scopes);
    if s.While? { ExprExact(s.cond, Move, scopes, v); } else { NothingExact(v); }
    assert Untouched(c, v);
    if UsedFirst(c, v) {
      ch := [];
    } else if [v] in after {
      ch := [false];
    } else {
      var rest := PassIsNeeded(s, scopes, v, after);
      var b := RunLoopBody(s, scopes, rest);
      ch := [true] + rest;
      assert ch[1..] == rest;
      UsedFirstConcat(c, b.events, v);
      UsedFirstConcat(c + b.events, RunLoop(s, scopes, []).events, v);
    }
  }

  lemma {:induction false} PassIsNeeded(s: Stmt, scopes: Scopes, v: Var, after: LiveSet) returns (ch: seq<bool>)
    requires IsLoop(s) && Plain(s) && [v] !in after && [v] in LiveBlock(Roots, s.body, after, after, after) && (s.For? ==> s.key != v)
    ensures var b := RunLoopBody(s, scopes, ch); UsedFirst(b.events, v) && (b.out != Cut ==> b.rest == [])
    decreases s, 0
  {
    if s.For? {
      var inner := scopes + [map[s.key := s.ty]];
      ch := BlockIsNeeded(s.body, inner, v, after, after, after);
      var b := RunBlock(s.body, inner, ch);
      DefinedFirst(s.key, v);
      var begin := [Initialize([s.key])];
      UsedFirstConcat(begin, b.events, v);
      UsedFirstConcat(begin + b.events, [Dead(inner[|inner| - 1].Keys)], v);
      if b.scopes != [] { UsedFirstConcat(begin + b.events, [Dead(b.scopes[|b.scopes| - 1].Keys)], v); }
    } else {
      ch := BlockIsNeeded(s.body, scopes, v, after, after, after);
    }
  }

  /// Liveness is exact: a name is live before a statement if and only if some path
  /// through it needs the name.
  lemma LiveIsExact(s: Stmt, scopes: Scopes, v: Var, after: LiveSet, brk: LiveSet, cont: LiveSet)
    requires Plain(s) && (LoopVariable(s, v) ==> Confined(s, v) && [v] !in after + brk + cont)
    ensures [v] in Live(Roots, s, after, brk, cont) <==> exists ch :: Needs(Run(s, scopes, ch), v, after, brk, cont)
  {
    hide Run, Needs, Live;
    if [v] in Live(Roots, s, after, brk, cont) {
      var ch := LiveIsNeeded(s, scopes, v, after, brk, cont);
      assert Needs(Run(s, scopes, ch), v, after, brk, cont);
    } else {
      forall ch ensures !Needs(Run(s, scopes, ch), v, after, brk, cont) {
        LiveCovers(s, scopes, ch, v, after, brk, cont);
      }
    }
  }

  /// After a `loop` that nothing leaves, no path needs anything, but the code takes
  /// what is live after it for live before it.
  lemma EndlessLoopKeepsAlive(id: nat, pos: Pos, scopes: Scopes, v: Var, after: LiveSet)
    ensures Live(Roots, Loop(id, [], pos), after, {}, {}) == after
    ensures forall ch :: !Needs(Run(Loop(id, [], pos), scopes, ch), v, after, {}, {})
  {
    var none: seq<Stmt> := [];
    assert LiveBlock(Roots, none, after, after, after) == after;
    forall ch ensures !Needs(Run(Loop(id, [], pos), scopes, ch), v, after, {}, {}) {
      NeverLeft(Loop(id, [], pos), scopes, ch, v);
    }
  }

  lemma {:induction false} NeverLeft(s: Stmt, scopes: Scopes, ch: seq<bool>, v: Var)
    requires s.Loop? && s.body == []
    ensures var r := RunLoop(s, scopes, ch); r.out == Cut && !UsedFirst(r.events, v)
    decreases |ch|
  {
    if ch != [] {
      var b := RunLoopBody(s, scopes, ch[1..]);
      EmptyPass(s, scopes, ch[1..]);
      NeverLeft(s, scopes, b.rest, v);
      UsedFirstConcat(b.events, RunLoop(s, scopes, b.rest).events, v);
    }
  }

  lemma EmptyPass(s: Stmt, scopes: Scopes, ch: seq<bool>)
    requires s.Loop? && s.body == []
    ensures var b := RunLoopBody(s, scopes, ch); b.events == [Dead({})] && b.events[1..] == [] && b.out == Normal && b.rest == ch
  {
    var empty: map<Var, Type> := map[];
    assert empty.Keys == {};
    assert RunSeq(s.body, scopes + [empty], ch) == Result([], Normal, scopes + [empty], ch);
    assert [] + [Dead({})] == [Dead({})];
  }

  // ---- dead loans ----

  /// The root of everything in the first set is in the second.
  ghost predicate Rooted(places: LiveSet, roots: LiveSet) { forall p :: p in places ==> [Root(p)] in roots }

  lemma {:induction false} UsesRooted(e: Expr)
    ensures Rooted(Uses(FullPlaces, e), Uses(Roots, e))
    decreases e, 1
  {
    match e
    case Use(pe) => AllUsesRooted(pe.operands);
    case Deref(pe) => AllUsesRooted(pe.operands);
    case Borrow(_, pe, _) => AllUsesRooted(pe.operands);
    case Lend(pe) => AllUsesRooted(pe.operands);
    case Unary(x) => UsesRooted(x);
    case Binary(l, r) =>
      UsesRooted(l);
      UsesRooted(r);
    case Call(_, args) => AllUsesRooted(args);
    case Literal =>
  }

  lemma {:induction false} AllUsesRooted(es: seq<Expr>)
    ensures Rooted(AllUses(FullPlaces, es), AllUses(Roots, es))
    decreases es, 0
  {
    if es != [] {
      UsesRooted(es[0]);
      AllUsesRooted(es[1..]);
    }
  }

  lemma OptUsesRooted(e: Option<Expr>)
    ensures Rooted(OptUses(FullPlaces, e), OptUses(Roots, e))
  {
    if e.Some? { UsesRooted(e.value); }
  }

  /// A place that is live has a live root.
  lemma {:induction false} LiveRooted(s: Stmt, a: LiveSet, b: LiveSet, c: LiveSet, a': LiveSet, b': LiveSet, c': LiveSet)
    requires Rooted(a, a') && Rooted(b, b') && Rooted(c, c')
    ensures Rooted(Live(FullPlaces, s, a, b, c), Live(Roots, s, a', b', c'))
    decreases s, 1
  {
    match s
    case Let(_, key, _, init) => OptUsesRooted(init);
    case Assign(_, compound, t, value, _) =>
      UsesRooted(value);
      AllUsesRooted(t.pe.operands);
    case ExprStmt(_, e) => UsesRooted(e);
    case Return(_, e, _, _) => OptUsesRooted(e);
    case Break(_) =>
    case Continue(_) =>
    case Block(_, body) => BlockRooted(body, a, b, c, a', b', c');
    case If(_, cond, thn, els) =>
      UsesRooted(cond);
      BlockRooted(thn, a, b, c, a', b', c');
      BlockRooted(els, a, b, c, a', b', c');
    case While(_, cond, body, _) =>
      UsesRooted(cond);
      BlockRooted(body, a, a, a, a', a', a');
    case For(_, _, _, e1, e2, body, _) =>
      UsesRooted(e1);
      UsesRooted(e2);
      BlockRooted(body, a, a, a, a', a', a');
    case Loop(_, body, _) => BlockRooted(body, a, a, a, a', a', a');
  }

  lemma {:induction false} BlockRooted(ss: seq<Stmt>, a: LiveSet, b: LiveSet, c: LiveSet, a': LiveSet, b': LiveSet, c': LiveSet)
    requires Rooted(a, a') && Rooted(b, b') && Rooted(c, c')
    ensures Rooted(LiveBlock(FullPlaces, ss, a, b, c), LiveBlock(Roots, ss, a', b', c'))
    decreases ss, 2
  {
    if ss != [] {
      BlockRooted(ss[1..], a, b, c, a', b', c');
      LiveRooted(ss[0], LiveBlock(FullPlaces, ss[1..], a, b, c), b, c, LiveBlock(Roots, ss[1..], a', b', c'), b', c');
    }
  }

  /// `[*]` is no name.
  ghost predicate Named(places: LiveSet) { forall p :: p in places ==> Root(p) != AnyIndex }

  /// Where every live place has a live root, the place-level pass adds nothing: a
  /// loan is live exactly when the root of its holder is.
  lemma PlacesAddNothing(holder: Place, roots: LiveSet, places: LiveSet)
    requires Rooted(places, roots) && Named(places) && Root(holder) != AnyIndex
    ensures LoanLiveAt(holder, roots, places) <==> [Root(holder)] in roots
  {
    if [Root(holder)] !in roots {
      forall q | q in places ensures !Conflict(q, holder) {
        assert [Root(q)] in roots;
        DisjointMeaning(q, holder);
        assert [Root(q)][0] == q[0] && [Root(holder)][0] == holder[0];
        assert PartAt(q, holder, 0);
      }
    }
  }

  /// A holder whose root no path through a statement needs is not live before it.
  lemma UnneededIsDead(s: Stmt, scopes: Scopes, lv: Tables, holder: Place,
                       after: LiveSet, brk: LiveSet, cont: LiveSet, after': LiveSet, brk': LiveSet, cont': LiveSet)
    requires Plain(s) && Root(holder) != AnyIndex
    requires Annotated(Roots, s, after, brk, cont, lv.roots) && Annotated(FullPlaces, s, after', brk', cont', lv.places)
    requires Rooted(after', after) && Rooted(brk', brk) && Rooted(cont', cont) && Named(lv.places[s.id])
    requires forall ch :: !Needs(Run(s, scopes, ch), Root(holder), after, brk, cont)
    ensures !LoanLiveAt(holder, Before(lv.roots, s.id), Before(lv.places, s.id))
  {
    var v, roots, places := Root(holder), lv.roots[s.id], lv.places[s.id];
    hide Run, Needs, Live, AnnotatedInner, Plain;
    if [v] in roots {
      var ch := LiveIsNeeded(s, scopes, v, after, brk, cont);
    }
    LiveRooted(s, after', brk', cont', after, brk, cont);
    PlacesAddNothing(holder, roots, places);
    hide Rooted, Named, LoanLiveAt, Annotated;
  }

  /// A loan whose holder no path through a statement needs does not count in it:
  /// the statement is checked as if the loan had never been.
  lemma DeadLoansAreForgotten(s: Stmt, st: State, lv: Tables, depth: Option<nat>, l: Loan,
                              after: LiveSet, brk: LiveSet, cont: LiveSet, after': LiveSet, brk': LiveSet, cont': LiveSet)
    requires st.reachable && Plain(s) && l.holder.Stored? && Root(l.holder.place) != AnyIndex
    requires Annotated(Roots, s, after, brk, cont, lv.roots) && Annotated(FullPlaces, s, after', brk', cont', lv.places)
    requires Rooted(after', after) && Rooted(brk', brk) && Rooted(cont', cont) && Named(lv.places[s.id])
    requires forall ch :: !Needs(Run(s, st.scopes, ch), Root(l.holder.place), after, brk, cont)
    ensures CheckStmt(s, st, lv, depth) == CheckStmt(s, st.(loans := st.loans - {l}), lv, depth)
  {
    UnneededIsDead(s, st.scopes, lv, l.holder.place, after, brk, cont, after', brk', cont');
    hide Run, Needs, Annotated, Rooted, Named, LoanLiveAt, CheckLive, Before, Plain;
    Forgotten(s.id, lv, st, l);
  }

  lemma Forgotten(id: nat, lv: Tables, st: State, l: Loan)
    requires !Survives(l, Before(lv.roots, id), Before(lv.places, id))
    ensures Expire(id, lv, st.(loans := st.loans - {l})) == Expire(id, lv, st)
  {
    hide Survives, Before;
    assert Expire(id, lv, st.(loans := st.loans - {l})).loans == Expire(id, lv, st).loans;
  }
}
