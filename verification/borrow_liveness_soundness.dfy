/// Liveness against the path semantics: a binding that some path uses before
/// redefining it is live wherever that path starts.

module LivenessSoundness {
  import opened Places
  import opened BorrowSyntax
  import opened BorrowState
  import opened BorrowCheck
  import opened Liveness
  import opened Paths
  import opened ExprSoundness

  /// Some event uses `v` and none before it redefines `v`.
  predicate UsedFirst(events: seq<Event>, v: Var) {
    events != [] && (UsesHolder(events[0], v) || (!Rebinds(events[0], v) && UsedFirst(events[1..], v)))
  }

  predicate Untouched(events: seq<Event>, v: Var) {
    events == [] || (!Rebinds(events[0], v) && Untouched(events[1..], v))
  }

  /// The index of the use.
  lemma {:induction false} UsedFirstMeaning(events: seq<Event>, v: Var)
    ensures UsedFirst(events, v) <==>
            exists k :: 0 <= k < |events| && UsesHolder(events[k], v) && forall j :: 0 <= j < k ==> !Rebinds(events[j], v)
  {
    if events != [] {
      var rest := events[1..];
      UsedFirstMeaning(rest, v);
      if exists k :: 0 <= k < |events| && UsesHolder(events[k], v) && forall j :: 0 <= j < k ==> !Rebinds(events[j], v) {
        var k :| 0 <= k < |events| && UsesHolder(events[k], v) && forall j :: 0 <= j < k ==> !Rebinds(events[j], v);
        if 0 < k {
          assert UsesHolder(rest[k - 1], v);
          forall j | 0 <= j < k - 1 ensures !Rebinds(rest[j], v) {
            assert rest[j] == events[j + 1];
          }
        }
      }
      if UsedFirst(events, v) && !UsesHolder(events[0], v) {
        var k :| 0 <= k < |rest| && UsesHolder(rest[k], v) && forall j :: 0 <= j < k ==> !Rebinds(rest[j], v);
        assert UsesHolder(events[k + 1], v);
        forall j | 0 <= j < k + 1 ensures !Rebinds(events[j], v) {
          assert 0 < j ==> events[j] == rest[j - 1];
        }
      }
    }
  }

  lemma {:induction false} UsedFirstConcat(a: seq<Event>, b: seq<Event>, v: Var)
    ensures UsedFirst(a + b, v) <==> UsedFirst(a, v) || (Untouched(a, v) && UsedFirst(b, v))
    ensures Untouched(a + b, v) <==> Untouched(a, v) && Untouched(b, v)
  {
    if a == [] {
      assert a + b == b;
    } else {
      assert (a + b)[1..] == a[1..] + b;
      UsedFirstConcat(a[1..], b, v);
    }
  }

  lemma {:induction false} ExprUsed(e: Expr, access: Access, scopes: Scopes, v: Var)
    requires access != Write
    ensures UsedFirst(Events(e, access, scopes), v) ==> [v] in Uses(Roots, e)
    decreases e, 1
  {
    match e
    case Literal =>
    case Use(pe) => PlaceUsed(pe, Effective(pe.place, access, scopes), scopes, v);
    case Lend(pe) => PlaceUsed(pe, Effective(pe.place, access, scopes), scopes, v);
    case Deref(pe) =>
      PlaceUsed(pe, Read, scopes, v);
      var takes := TakeEvents(pe.place, scopes);
      assert takes != [] ==> takes[1..] == [];
      UsedFirstConcat(OperandEvents(pe.operands, scopes) + [Touch(pe.place, Read)], takes, v);
    case Borrow(mut, pe, _) => PlaceUsed(pe, if mut then BorrowMut else BorrowShared, scopes, v);
    case Unary(x) => ExprUsed(x, access, scopes, v);
    case Binary(l, r) =>
      ExprUsed(l, Move, scopes, v);
      ExprUsed(r, Move, scopes, v);
      UsedFirstConcat(Events(l, Move, scopes), Events(r, Move, scopes), v);
    case Call(pos, args) => CallUsed(pos, args, scopes, v);
  }

  lemma {:induction false} CallUsed(pos: Pos, args: seq<Expr>, scopes: Scopes, v: Var)
    ensures UsedFirst(Events(Call(pos, args), Move, scopes), v) ==> [v] in AllUses(Roots, args)
    decreases args, 2
  {
    var ev1, ev2, ev3 := ReserveEvents(args), ArgEvents(args, 0, pos, scopes), ActivateEvents(args, 0, pos);
    var enter := [Enter(RefArgs(args, 0, pos), HeldVars(args))];
    HeldUsed(args);
    ReserveUsed(args, v);
    ArgsUsed(args, 0, pos, scopes, v);
    ActivateUsed(args, 0, pos, v);
    UsedFirstConcat(ev1, ev2, v);
    UsedFirstConcat(ev1 + ev2, ev3, v);
    UsedFirstConcat(ev1 + ev2 + ev3, enter, v);
    assert enter[1..] == [];
  }

  lemma {:induction false} PlaceUsed(pe: PlaceExpr, access: Access, scopes: Scopes, v: Var)
    ensures UsedFirst(OperandEvents(pe.operands, scopes) + [Touch(pe.place, access)], v) ==>
              [v] in PlaceUses(Roots, pe.place) + AllUses(Roots, pe.operands)
    decreases pe, 3
  {
    OperandsUsed(pe.operands, scopes, v);
    UsedFirstConcat(OperandEvents(pe.operands, scopes), [Touch(pe.place, access)], v);
  }

  lemma {:induction false} OperandsUsed(es: seq<Expr>, scopes: Scopes, v: Var)
    ensures UsedFirst(OperandEvents(es, scopes), v) ==> [v] in AllUses(Roots, es)
    decreases es, 0
  {
    if es != [] {
      ExprUsed(es[0], Move, scopes, v);
      OperandsUsed(es[1..], scopes, v);
      UsedFirstConcat(Events(es[0], Move, scopes), OperandEvents(es[1..], scopes), v);
    }
  }

  lemma {:induction false} ArgsUsed(args: seq<Expr>, index: nat, pos: Pos, scopes: Scopes, v: Var)
    ensures UsedFirst(ArgEvents(args, index, pos, scopes), v) ==> [v] in AllUses(Roots, args)
    decreases args, 0
  {
    if args != [] {
      ArgUsed(args[0], index, pos, scopes, v);
      ArgsUsed(args[1..], index + 1, pos, scopes, v);
      UsedFirstConcat(ArgEvent(args[0], index, pos, scopes), ArgEvents(args[1..], index + 1, pos, scopes), v);
    }
  }

  lemma {:induction false} ArgUsed(e: Expr, index: nat, pos: Pos, scopes: Scopes, v: Var)
    ensures UsedFirst(ArgEvent(e, index, pos, scopes), v) ==> [v] in Uses(Roots, e)
    decreases e, 2
  {
    if IsMutBorrow(e) {
      OperandsUsed(e.pe.operands, scopes, v);
    } else if e.Lend? {
      PlaceUsed(e.pe, BorrowMut, scopes, v);
      PassUsed(OperandEvents(e.pe.operands, scopes) + [Touch(e.pe.place, BorrowMut)], Arg(pos, index, e.pe.place, true), v);
    } else {
      ExprUsed(e, Move, scopes, v);
      if e.Borrow? {
        PassUsed(Events(e, Move, scopes), Arg(pos, index, e.pe.place, false), v);
      }
    }
  }

  /// Passing a reference on is no use of its own.
  lemma PassUsed(events: seq<Event>, a: Arg, v: Var)
    ensures UsedFirst(events + [Pass(a)], v) <==> UsedFirst(events, v)
  {
    UsedFirstConcat(events, [Pass(a)], v);
    assert [Pass(a)][1..] == [];
  }

  lemma {:induction false} ReserveUsed(args: seq<Expr>, v: Var)
    ensures UsedFirst(ReserveEvents(args), v) ==> [v] in AllUses(Roots, args)
  {
    if args != [] {
      ReserveUsed(args[1..], v);
      UsedFirstConcat(if IsMutBorrow(args[0]) then [Touch(args[0].pe.place, TwoPhaseReserve)] else [], ReserveEvents(args[1..]), v);
    }
  }

  lemma {:induction false} ActivateUsed(args: seq<Expr>, index: nat, pos: Pos, v: Var)
    ensures UsedFirst(ActivateEvents(args, index, pos), v) ==> [v] in AllUses(Roots, args)
  {
    if args != [] {
      var rest := ActivateEvents(args[1..], index + 1, pos);
      ActivateUsed(args[1..], index + 1, pos, v);
      if IsMutBorrow(args[0]) {
        var touch, a := [Touch(args[0].pe.place, BorrowMut)], Arg(pos, index, args[0].pe.place, true);
        PassUsed(touch, a, v);
        UsedFirstConcat(touch + [Pass(a)], rest, v);
        assert touch[1..] == [];
      } else {
        assert [] + rest == rest;
      }
    }
  }

  /// Is `v` the variable of a `for`?
  predicate LoopVariable(s: Stmt, v: Var)
    decreases s, 1
  {
    match s
    case Block(_, body) => SeqLoopVariable(body, v)
    case If(_, _, thn, els) => SeqLoopVariable(thn, v) || SeqLoopVariable(els, v)
    case While(_, _, body, _) => SeqLoopVariable(body, v)
    case For(_, key, _, _, _, body, _) => key == v || SeqLoopVariable(body, v)
    case Loop(_, body, _) => SeqLoopVariable(body, v)
    case _ => false
  }

  predicate SeqLoopVariable(ss: seq<Stmt>, v: Var)
    decreases ss, 0
  {
    ss != [] && (LoopVariable(ss[0], v) || SeqLoopVariable(ss[1..], v))
  }

  /// `v` occurs only inside the loops whose variable it is, as the source's
  /// unique binding keys have it.
  ghost predicate Confined(s: Stmt, v: Var)
    decreases s, 1
  {
    match s
    case Let(_, key, _, init) => [v] !in OptUses(Roots, init)
    case Assign(_, _, t, value, _) => [v] !in TargetUses(Roots, t) && [v] !in Uses(Roots, value)
    case ExprStmt(_, e) => [v] !in Uses(Roots, e)
    case Return(_, e, _, _) => [v] !in OptUses(Roots, e)
    case Break(_) => true
    case Continue(_) => true
    case Block(_, body) => SeqConfined(body, v)
    case If(_, cond, thn, els) => [v] !in Uses(Roots, cond) && SeqConfined(thn, v) && SeqConfined(els, v)
    case While(_, cond, body, _) => [v] !in Uses(Roots, cond) && SeqConfined(body, v)
    case For(_, key, _, b, e, body, _) =>
      [v] !in Uses(Roots, b) && [v] !in Uses(Roots, e) && (key == v || SeqConfined(body, v))
    case Loop(_, body, _) => SeqConfined(body, v)
  }

  ghost predicate SeqConfined(ss: seq<Stmt>, v: Var)
    decreases ss, 0
  {
    ss == [] || (Confined(ss[0], v) && SeqConfined(ss[1..], v))
  }

  /// The path needs `v` at its start: it uses `v` itself, or it leaves `v`
  /// alone and ends where `v` is needed.
  predicate Needs(r: Result, v: Var, after: LiveSet, brk: LiveSet, cont: LiveSet) {
    UsedFirst(r.events, v) || (Untouched(r.events, v) &&
      ((r.out == Normal && [v] in after) || (r.out == Broke && [v] in brk) || (r.out == Continued && [v] in cont)))
  }

  lemma AfterNeeds(e: seq<Event>, r: Result, v: Var, after: LiveSet, brk: LiveSet, cont: LiveSet)
    ensures Needs(After(e, r), v, after, brk, cont) ==> UsedFirst(e, v) || Needs(r, v, after, brk, cont)
  {
    UsedFirstConcat(e, r.events, v);
  }

  lemma CloseNeeds(r: Result, outer: Scopes, v: Var, after: LiveSet, brk: LiveSet, cont: LiveSet)
    ensures Needs(CloseScope(r, outer), v, after, brk, cont) ==> Needs(r, v, after, brk, cont)
  {
    if r.scopes != [] {
      UsedFirstConcat(r.events, [Dead(r.scopes[|r.scopes| - 1].Keys)], v);
    }
  }

  /// No path needs a variable outside the loops that define it.
  lemma {:induction false} ConfinedUnneeded(s: Stmt, scopes: Scopes, ch: seq<bool>, v: Var, after: LiveSet, brk: LiveSet, cont: LiveSet)
    requires Confined(s, v) && [v] !in after + brk + cont
    ensures !Needs(Run(s, scopes, ch), v, after, brk, cont)
    decreases |ch|, s, 2
  {
    match s
    case Let(_, _, _, _) => SimpleCovers(s, scopes, ch, v, after, brk, cont);
    case Assign(_, compound, t, value, _) => AssignCovers(compound, t, value, scopes, v, after);
    case ExprStmt(_, e) => ExprUsed(e, Move, scopes, v);
    case Return(_, _, _, _) => SimpleCovers(s, scopes, ch, v, after, brk, cont);
    case Break(_) =>
    case Continue(_) =>
    case Block(_, body) => BlockUnneeded(body, scopes, ch, v, after, brk, cont);
    case If(_, cond, thn, els) =>
      ExprUsed(cond, Move, scopes, v);
      if ch != [] {
        var branch := if ch[0] then thn else els;
        BlockUnneeded(branch, scopes, ch[1..], v, after, brk, cont);
        AfterNeeds(Events(cond, Move, scopes), RunBlock(branch, scopes, ch[1..]), v, after, brk, cont);
      }
    case For(_, _, _, b, e, _, _) =>
      ExprUsed(b, Move, scopes, v);
      ExprUsed(e, Move, scopes, v);
      UsedFirstConcat(Events(b, Move, scopes), Events(e, Move, scopes), v);
      AfterNeeds(Events(b, Move, scopes) + Events(e, Move, scopes), RunLoop(s, scopes, ch), v, after, brk, cont);
      LoopUnneeded(s, scopes, ch, v, after, brk, cont);
    case While(_, _, _, _) => LoopUnneeded(s, scopes, ch, v, after, brk, cont);
    case Loop(_, _, _) => LoopUnneeded(s, scopes, ch, v, after, brk, cont);
  }

  lemma {:induction false} BlockUnneeded(body: seq<Stmt>, scopes: Scopes, ch: seq<bool>, v: Var, after: LiveSet, brk: LiveSet, cont: LiveSet)
    requires SeqConfined(body, v) && [v] !in after + brk + cont
    ensures !Needs(RunBlock(body, scopes, ch), v, after, brk, cont)
    decreases |ch|, body, 4
  {
    SeqUnneeded(body, scopes + [map[]], ch, v, after, brk, cont);
    CloseNeeds(RunSeq(body, scopes + [map[]], ch), scopes, v, after, brk, cont);
  }

  lemma {:induction false} SeqUnneeded(ss: seq<Stmt>, scopes: Scopes, ch: seq<bool>, v: Var, after: LiveSet, brk: LiveSet, cont: LiveSet)
    requires SeqConfined(ss, v) && [v] !in after + brk + cont
    ensures !Needs(RunSeq(ss, scopes, ch), v, after, brk, cont)
    decreases |ch|, ss, 3
  {
    if ss != [] {
      var first := Run(ss[0], scopes, ch);
      ConfinedUnneeded(ss[0], scopes, ch, v, after, brk, cont);
      if first.out == Normal {
        SeqUnneeded(ss[1..], first.scopes, first.rest, v, after, brk, cont);
        UsedFirstConcat(first.events, RunSeq(ss[1..], first.scopes, first.rest).events, v);
      }
    }
  }

  lemma {:induction false} LoopUnneeded(s: Stmt, scopes: Scopes, ch: seq<bool>, v: Var, after: LiveSet, brk: LiveSet, cont: LiveSet)
    requires IsLoop(s) && Confined(s, v) && [v] !in after + brk + cont
    ensures !Needs(RunLoop(s, scopes, ch), v, after, brk, cont)
    decreases |ch|, s, 1
  {
    var c := LoopCondEvents(s, scopes);
    if s.While? { ExprUsed(s.cond, Move, scopes, v); }
    if ch != [] && (ch[0] || s.Loop?) {
      var b := RunLoopBody(s, scopes, ch[1..]);
      PassUnneeded(s, scopes, ch[1..], v);
      UsedFirstConcat(c, b.events, v);
      if b.out == Normal || b.out == Continued {
        LoopUnneeded(s, scopes, b.rest, v, after, brk, cont);
        UsedFirstConcat(c + b.events, RunLoop(s, scopes, b.rest).events, v);
      }
    }
  }

  /// One pass: a `for` defines its variable first.
  lemma {:induction false} PassUnneeded(s: Stmt, scopes: Scopes, ch: seq<bool>, v: Var)
    requires IsLoop(s) && Confined(s, v)
    ensures !UsedFirst(RunLoopBody(s, scopes, ch).events, v)
    decreases |ch|, s, 0
  {
    if s.For? {
      var inner := scopes + [map[s.key := s.ty]];
      var b := RunBlock(s.body, inner, ch);
      if s.key != v { BlockUnneeded(s.body, inner, ch, v, {}, {}, {}); }
      UsedFirstConcat([Initialize([s.key])], b.events, v);
      DefinedFirst(s.key, v);
      CloseNeeds(After([Initialize([s.key])], b), scopes, v, {}, {}, {});
    } else {
      BlockUnneeded(s.body, scopes, ch, v, {}, {}, {});
    }
  }

  lemma DefinedFirst(key: Var, v: Var)
    ensures !UsedFirst([Initialize([key])], v) && (Untouched([Initialize([key])], v) <==> key != v)
  {
    var one := [Initialize([key])];
    assert one[1..] == [];
    assert [key][0] == key && [v][0] == v;
  }

  lemma SimpleCovers(s: Stmt, scopes: Scopes, ch: seq<bool>, v: Var, after: LiveSet, brk: LiveSet, cont: LiveSet)
    requires s.Let? || s.Return?
    ensures Needs(Run(s, scopes, ch), v, after, brk, cont) ==> [v] in Live(Roots, s, after, brk, cont)
  {
    match s
    case Let(_, key, ty, init) =>
      if init.Some? { ExprUsed(init.value, Move, scopes, v); }
      var bind := if init.Some? then BindEvents(key, ContainsReference(ty), init.value) else [];
      UsedFirstConcat(OptEvents(init, scopes) + [Initialize([key])], bind, v);
      UsedFirstConcat(OptEvents(init, scopes), [Initialize([key])], v);
    case Return(_, e, _, _) =>
      var escapes := if e.Some? then EscapeEvents(e.value, scopes) else [];
      if e.Some? {
        ExprUsed(e.value, Move, scopes, v);
        EscapesUnused(e.value, scopes, v);
      }
      UsedFirstConcat(escapes, OptEvents(e, scopes), v);
      UsedFirstConcat(escapes + OptEvents(e, scopes), [Exit(scopes)], v);
  }

  lemma {:induction false} EscapesUnused(e: Expr, scopes: Scopes, v: Var)
    ensures !UsedFirst(EscapeEvents(e, scopes), v)
  {
    if e.Unary? {
      EscapesUnused(e.operand, scopes, v);
    } else {
      var ev := EscapeEvents(e, scopes);
      assert ev != [] ==> ev[1..] == [];
    }
  }

  /// Whatever a path needs is live where it starts; of the variable of a
  /// `for`, if it occurs nowhere but in that loop.
  lemma {:induction false} LiveCovers(s: Stmt, scopes: Scopes, ch: seq<bool>, v: Var, after: LiveSet, brk: LiveSet, cont: LiveSet)
    requires LoopVariable(s, v) ==> Confined(s, v) && [v] !in after + brk + cont
    ensures Needs(Run(s, scopes, ch), v, after, brk, cont) ==> [v] in Live(Roots, s, after, brk, cont)
    decreases |ch|, s, 5
  {
    if LoopVariable(s, v) {
      ConfinedUnneeded(s, scopes, ch, v, after, brk, cont);
    } else {
      OrdinaryCovers(s, scopes, ch, v, after, brk, cont);
    }
  }

  lemma {:induction false} OrdinaryCovers(s: Stmt, scopes: Scopes, ch: seq<bool>, v: Var, after: LiveSet, brk: LiveSet, cont: LiveSet)
    requires !LoopVariable(s, v)
    ensures Needs(Run(s, scopes, ch), v, after, brk, cont) ==> [v] in Live(Roots, s, after, brk, cont)
    decreases |ch|, s, 2
  {
    match s
    case Let(_, _, _, _) => SimpleCovers(s, scopes, ch, v, after, brk, cont);
    case Assign(_, compound, t, value, _) => AssignCovers(compound, t, value, scopes, v, after);
    case ExprStmt(_, e) => ExprUsed(e, Move, scopes, v);
    case Return(_, _, _, _) => SimpleCovers(s, scopes, ch, v, after, brk, cont);
    case Break(_) =>
    case Continue(_) =>
    case Block(_, body) => BlockCovers(body, scopes, ch, v, after, brk, cont);
    case If(_, cond, thn, els) =>
      ExprUsed(cond, Move, scopes, v);
      if ch != [] {
        var branch := if ch[0] then thn else els;
        BlockCovers(branch, scopes, ch[1..], v, after, brk, cont);
        AfterNeeds(Events(cond, Move, scopes), RunBlock(branch, scopes, ch[1..]), v, after, brk, cont);
      }
    case For(_, _, _, b, e, _, _) =>
      ExprUsed(b, Move, scopes, v);
      ExprUsed(e, Move, scopes, v);
      UsedFirstConcat(Events(b, Move, scopes), Events(e, Move, scopes), v);
      AfterNeeds(Events(b, Move, scopes) + Events(e, Move, scopes), RunLoop(s, scopes, ch), v, after, brk, cont);
      HeadCovers(s, scopes, ch, v, after, brk, cont);
    case While(_, _, _, _) => HeadCovers(s, scopes, ch, v, after, brk, cont);
    case Loop(_, _, _) => HeadCovers(s, scopes, ch, v, after, brk, cont);
  }

  lemma AssignCovers(compound: bool, t: Target, value: Expr, scopes: Scopes, v: Var, after: LiveSet)
    ensures var ev := AssignEvents(compound, t, value, scopes);
            UsedFirst(ev, v) || (Untouched(ev, v) && [v] in after) ==> [v] in AssignLive(Roots, compound, t, value, after)
  {
    if t.Through? {
      ThroughCovers(compound, t, value, scopes, v, after);
    } else {
      DirectCovers(compound, t, value, scopes, v, after);
    }
  }

  lemma ThroughCovers(compound: bool, t: Target, value: Expr, scopes: Scopes, v: Var, after: LiveSet)
    requires t.Through?
    ensures var ev := AssignEvents(compound, t, value, scopes);
            UsedFirst(ev, v) || (Untouched(ev, v) && [v] in after) ==> [v] in AssignLive(Roots, compound, t, value, after)
  {
    hide OperandEvents, Events;
    var p := t.pe.place;
    var operands, rhs := OperandEvents(t.pe.operands, scopes), Events(value, Move, scopes);
    OperandsUsed(t.pe.operands, scopes, v);
    ExprUsed(value, Move, scopes, v);
    var read := if compound then [Touch(p, Read)] else [];
    var stores := StoreEvents(p, value, scopes);
    assert stores != [] ==> stores[1..] == [];
    UsedFirstConcat(operands + read + rhs + [WriteVia(p)], stores, v);
    UsedFirstConcat(operands + read + rhs, [WriteVia(p)], v);
    UsedFirstConcat(operands + read, rhs, v);
    UsedFirstConcat(operands, read, v);
  }

  lemma DirectCovers(compound: bool, t: Target, value: Expr, scopes: Scopes, v: Var, after: LiveSet)
    requires t.Direct?
    ensures var ev := AssignEvents(compound, t, value, scopes);
            UsedFirst(ev, v) || (Untouched(ev, v) && [v] in after) ==> [v] in AssignLive(Roots, compound, t, value, after)
  {
    hide OperandEvents, Events;
    var p := t.pe.place;
    var operands, rhs := OperandEvents(t.pe.operands, scopes), Events(value, Move, scopes);
    OperandsUsed(t.pe.operands, scopes, v);
    ExprUsed(value, Move, scopes, v);
    var bind := BindEvents(Root(p), ContainsReference(TypeOfPlace(p, scopes)), value);
    var mid := if compound then [Touch(p, TwoPhaseReserve)] + rhs + [Touch(p, BorrowMut)] else rhs;
    var store := [Touch(p, Write), Initialize(p)];
    if compound {
      UsedFirstConcat([Touch(p, TwoPhaseReserve)] + rhs, [Touch(p, BorrowMut)], v);
      UsedFirstConcat([Touch(p, TwoPhaseReserve)], rhs, v);
    }
    UsedFirstConcat(operands + mid + store, bind, v);
    UsedFirstConcat(operands + mid, store, v);
    UsedFirstConcat(operands, mid, v);
    StoreTouches(p, v);
  }

  lemma StoreTouches(p: Place, v: Var)
    ensures var store := [Touch(p, Write), Initialize(p)];
            (UsedFirst(store, v) <==> Root(p) == v && p != [v]) && (Untouched(store, v) <==> p != [v])
  {
    var last := [Initialize(p)];
    assert last[1..] == [];
    assert UsedFirst(last, v) == UsesHolder(last[0], v) || (!Rebinds(last[0], v) && UsedFirst([], v));
    assert Untouched(last, v) == (!Rebinds(last[0], v) && Untouched([], v));
    var store := [Touch(p, Write), Initialize(p)];
    assert store[1..] == last;
    assert UsedFirst(store, v) == (UsesHolder(store[0], v) || (!Rebinds(store[0], v) && UsedFirst(last, v)));
    assert Untouched(store, v) == (!Rebinds(store[0], v) && Untouched(last, v));
  }

  lemma {:induction false} BlockCovers(body: seq<Stmt>, scopes: Scopes, ch: seq<bool>, v: Var, after: LiveSet, brk: LiveSet, cont: LiveSet)
    requires !SeqLoopVariable(body, v)
    ensures Needs(RunBlock(body, scopes, ch), v, after, brk, cont) ==> [v] in LiveBlock(Roots, body, after, brk, cont)
    decreases |ch|, body, 4
  {
    SeqCovers(body, scopes + [map[]], ch, v, after, brk, cont);
    CloseNeeds(RunSeq(body, scopes + [map[]], ch), scopes, v, after, brk, cont);
  }

  lemma {:induction false} SeqCovers(ss: seq<Stmt>, scopes: Scopes, ch: seq<bool>, v: Var, after: LiveSet, brk: LiveSet, cont: LiveSet)
    requires !SeqLoopVariable(ss, v)
    ensures Needs(RunSeq(ss, scopes, ch), v, after, brk, cont) ==> [v] in LiveBlock(Roots, ss, after, brk, cont)
    decreases |ch|, ss, 3
  {
    if ss != [] {
      var mid := LiveBlock(Roots, ss[1..], after, brk, cont);
      var first := Run(ss[0], scopes, ch);
      OrdinaryCovers(ss[0], scopes, ch, v, mid, brk, cont);
      if first.out == Normal {
        SeqCovers(ss[1..], first.scopes, first.rest, v, after, brk, cont);
        UsedFirstConcat(first.events, RunSeq(ss[1..], first.scopes, first.rest).events, v);
      }
    }
  }

  /// The same at the head of a loop, for paths that go round it any number of times.
  lemma LoopCovers(s: Stmt, scopes: Scopes, ch: seq<bool>, v: Var, after: LiveSet, brk: LiveSet, cont: LiveSet)
    requires IsLoop(s) && (LoopVariable(s, v) ==> Confined(s, v) && [v] !in after + brk + cont)
    ensures Needs(RunLoop(s, scopes, ch), v, after, brk, cont) ==> [v] in Header(Roots, s, after)
  {
    if LoopVariable(s, v) {
      LoopUnneeded(s, scopes, ch, v, after, brk, cont);
    } else {
      HeadCovers(s, scopes, ch, v, after, brk, cont);
    }
  }

  lemma {:induction false} HeadCovers(s: Stmt, scopes: Scopes, ch: seq<bool>, v: Var, after: LiveSet, brk: LiveSet, cont: LiveSet)
    requires IsLoop(s) && !LoopVariable(s, v)
    ensures Needs(RunLoop(s, scopes, ch), v, after, brk, cont) ==> [v] in Header(Roots, s, after)
    decreases |ch|, s, 1
  {
    var hd := Header(Roots, s, after);
    HeaderIsFixedPoint(Roots, s, after);
    var c := LoopCondEvents(s, scopes);
    if s.While? { ExprUsed(s.cond, Move, scopes, v); }
    if ch != [] && (ch[0] || s.Loop?) {
      var b := RunLoopBody(s, scopes, ch[1..]);
      LoopBodyCovers(s, scopes, ch[1..], v, after);
      UsedFirstConcat(c, b.events, v);
      if b.out == Normal || b.out == Continued {
        HeadCovers(s, scopes, b.rest, v, after, brk, cont);
        UsedFirstConcat(c + b.events, RunLoop(s, scopes, b.rest).events, v);
      }
    }
  }

  lemma {:induction false} LoopBodyCovers(s: Stmt, scopes: Scopes, ch: seq<bool>, v: Var, after: LiveSet)
    requires IsLoop(s) && !LoopVariable(s, v)
    ensures var hd := Header(Roots, s, after);
            Needs(RunLoopBody(s, scopes, ch), v, hd, after, hd) ==> [v] in hd
    decreases |ch|, s, 0
  {
    var hd := Header(Roots, s, after);
    HeaderIsFixedPoint(Roots, s, after);
    var inner := if s.For? then scopes + [map[s.key := s.ty]] else scopes;
    BlockCovers(s.body, inner, ch, v, hd, after, hd);
    if s.For? {
      var b := RunBlock(s.body, inner, ch);
      AfterNeeds([Initialize([s.key])], b, v, hd, after, hd);
      DefinedFirst(s.key, v);
      CloseNeeds(After([Initialize([s.key])], b), scopes, v, hd, after, hd);
    }
  }
}
