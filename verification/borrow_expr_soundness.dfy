/// Soundness of expression inspection: what an accepted expression does on a
/// path keeps the monitor within the checker's state.

module ExprSoundness {
  import opened Places
  import opened BorrowSyntax
  import opened BorrowState
  import opened BorrowCheck
  import opened Liveness
  import opened Paths
  import opened CallArguments

  // ---- the correspondence ----

  function LoanOf(b: Binding): Loan {
    Loan(b.place, Stored([b.holder]), b.mut, if b.mut then MutLoan else SharedLoan, b.pos)
  }

  ghost predicate Recorded(b: Binding, st: State) {
    [b.holder] in st.origins && Origin(b.place, b.mut, b.pos) in st.origins[[b.holder]]
  }

  ghost predicate RefTyped(b: Binding, scopes: Scopes) {
    ContainsReference(TypeOfPlace([b.holder], scopes))
  }

  /// The monitor has seen no binding, move or mutable reference that `cx` does
  /// not list, and no intact reference is to a moved place.
  ghost predicate Fenced(cx: Context, m: Monitor) {
    && (forall b :: b in m.active + m.broken ==> b.holder in cx.bound)
    && (forall b :: b in m.active && b.mut ==> b.place in cx.exclusive)
    && (forall a :: a in m.passed ==> Listed(cx, a))
    && m.moved <= cx.exclusive
    && m.lodged == {}
    && (forall b, q :: b in m.active && q in m.moved ==> Disjoint(q, b.place))
  }

  /// The checker's state accounts for the monitor, where `live` bounds the
  /// bindings that may still be used: an intact reference that may be used has
  /// its loan, a broken one is never used again, and moves are remembered.
  ghost predicate Accounts(cx: Context, m: Monitor, st: State, scopes: Scopes, live: LiveSet) {
    && st.reachable
    && st.scopes == scopes
    && (forall b :: b in m.active && [b.holder] in live ==> LoanOf(b) in st.loans)
    && (forall b :: b in m.broken ==> [b.holder] !in live)
    && (forall b :: b in m.active + m.broken ==> Recorded(b, st) && RefTyped(b, scopes))
    && m.moved <= st.moved
    && Fenced(cx, m)
  }

  /// No broken reference is held by `v`.
  ghost predicate Intact(m: Monitor, v: Var) { forall b :: b in m.broken ==> b.holder != v }

  /// An access that hits no reference still to be used keeps the accounts.
  lemma AccessStep(cx: Context, m: Monitor, st: State, st': State, live: LiveSet, e: Event)
    requires Accounts(cx, m, st, st.scopes, live) && (e.Touch? || e.WriteVia?)
    requires forall b :: b in m.active && Hits(e, b) ==> [b.holder] !in live
    requires forall b :: b in m.active && [b.holder] in live ==> LoanOf(b) in st'.loans
    requires st'.reachable && st'.scopes == st.scopes && st'.origins == st.origins && Step(m, e).moved <= st'.moved
    requires e.Touch? && e.access == Move ==> MayMove(cx, e.place)
    ensures Accounts(cx, Step(m, e), st', st.scopes, live)
  {
    var m' := Step(m, e);
    AccessFenced(cx, m, e);
    hide Fenced;
    forall b | b in m'.active + m'.broken ensures b in m.active + m.broken && Recorded(b, st') && RefTyped(b, st.scopes) {
      assert b in m.active + m.broken;
      assert Recorded(b, st);
    }
    forall b | b in m'.broken ensures [b.holder] !in live {
      assert b in m.broken || (b in m.active && Hits(e, b));
    }
    forall b | b in m'.active && [b.holder] in live ensures LoanOf(b) in st'.loans {
      assert b in m.active;
    }
  }

  lemma AccessFenced(cx: Context, m: Monitor, e: Event)
    requires Fenced(cx, m) && (e.Touch? || e.WriteVia?)
    requires e.Touch? && e.access == Move ==> MayMove(cx, e.place)
    ensures Fenced(cx, Step(m, e))
  {
    var m' := Step(m, e);
    if e.Touch? && e.access == Move {
      if 1 < |e.place| { assert Referents(m, e.place) == {}; }
      assert m'.moved <= m.moved + {e.place};
    }
    forall b, q | b in m'.active && q in m'.moved ensures Disjoint(q, b.place) {
      assert b in m.active && !Hits(e, b);
    }
  }

  /// No access reaches a moved place through a reference.
  lemma NothingMovedThrough(cx: Context, m: Monitor, e: Event)
    requires Fenced(cx, m) && e.Touch?
    ensures forall b, q :: b in m.active && q in m.moved ==> !UsesMovedThrough(e, b, q)
  {
    forall b, q | b in m.active && q in m.moved ensures !UsesMovedThrough(e, b, q) {
      if b.holder == Root(e.place) {
        DisjointInside(q, b.place, e.place[1..]);
        var p := b.place + e.place[1..];
        if IsStrictChild(q, p) { NestedConflict(q, p); }
      }
    }
  }

  lemma TouchStep(cx: Context, m: Monitor, st: State, live: LiveSet, p: Place, pos: Pos, access: Access)
    requires Accounts(cx, m, st, st.scopes, live)
    requires AccessPlace(p, pos, access, st, {}).errs == {}
    requires Intact(m, Root(p)) || (access == Write && |p| == 1)
    requires Effective(p, access, st.scopes) == Move ==> MayMove(cx, p)
    ensures var e := Touch(p, Effective(p, access, st.scopes));
            Ok(m, e) && Accounts(cx, Step(m, e), AccessPlace(p, pos, access, st, {}).st, st.scopes, live)
  {
    var a := Effective(p, access, st.scopes);
    var e := Touch(p, a);
    forall b | b in m.active && Hits(e, b) ensures [b.holder] !in live {
      var l := LoanOf(b);
      assert Conflict(p, l.place) && Clashes(a, l) && !Exempt(a, l, {});
    }
    forall q | q in m.moved ensures !UsesMoved(e, q) {
      assert q in st.moved;
    }
    NothingMovedThrough(cx, m, e);
    MovedAlone(cx, m, p, a);
    AccessStep(cx, m, st, AccessPlace(p, pos, access, st, {}).st, live, e);
  }

  /// A move that goes through no reference moves its place only.
  lemma MovedAlone(cx: Context, m: Monitor, p: Place, access: Access)
    requires Fenced(cx, m) && (access == Move ==> MayMove(cx, p))
    ensures Step(m, Touch(p, access)).moved <= m.moved + if access == Move then {p} else {}
  {
    if access == Move && 1 < |p| { assert Referents(m, p) == {}; }
  }

  // ---- index operands ----

  /// Reading a place clear of the exclusive ones disturbs nothing.
  lemma QuietRead(cx: Context, m: Monitor, p: Place, live: LiveSet)
    requires Fenced(cx, m) && Avoids(cx, p) && [Root(p)] in live
    requires forall b :: b in m.broken ==> [b.holder] !in live
    ensures Ok(m, Touch(p, Read)) && Step(m, Touch(p, Read)) == m
  {
    var e := Touch(p, Read);
    assert forall b :: b in m.active ==> !Hits(e, b);
    forall q | q in m.moved ensures !UsesMoved(e, q) {
      ConflictSymmetric(p, q);
    }
    NothingMovedThrough(cx, m, e);
    assert forall a :: a in m.passed ==> !Strikes(e, a.place, a.mut);
    var m' := Step(m, e);
    assert m'.active == m.active && m'.broken == m.broken && m'.moved == m.moved && m'.passed == m.passed;
  }

  lemma {:induction false} QuietStep(cx: Context, e: Expr, m: Monitor, scopes: Scopes, live: LiveSet)
    requires Quiet(cx, e, scopes) && Uses(Roots, e) <= live && Fenced(cx, m)
    requires forall b :: b in m.broken ==> [b.holder] !in live
    ensures Safe(m, Events(e, Move, scopes)) && Observe(m, Events(e, Move, scopes)) == m
    decreases e, 1
  {
    match e
    case Literal =>
    case Use(pe) => QuietPlace(cx, pe, m, scopes, live);
    case Deref(pe) =>
      QuietPlace(cx, pe, m, scopes, live);
      CopyTakesNothing(pe, scopes);
    case Unary(x) => QuietStep(cx, x, m, scopes, live);
    case Binary(l, r) =>
      QuietStep(cx, l, m, scopes, live);
      QuietStep(cx, r, m, scopes, live);
      ObserveConcat(m, Events(l, Move, scopes), Events(r, Move, scopes));
    case Call(pos, args) =>
      QuietArguments(cx, args, 0, pos, scopes);
      OperandsStep(cx, args, m, scopes, live);
      var ev := OperandEvents(args, scopes);
      var enter := Enter({}, HeldVars(args));
      assert Events(e, Move, scopes) == ev + [enter];
      ObserveConcat(m, ev, [enter]);
      OneEvent(m, enter);
      HeldUsed(args);
      NothingEntered(m, HeldVars(args));
  }

  /// What is passed by value is used by the call.
  lemma {:induction false} HeldUsed(args: seq<Expr>)
    ensures forall v :: v in HeldVars(args) ==> [v] in AllUses(Roots, args)
  {
    if args != [] {
      HeldByUsed(args[0]);
      HeldUsed(args[1..]);
    }
  }

  lemma {:induction false} HeldByUsed(e: Expr)
    ensures forall v :: v in HeldBy(e) ==> [v] in Uses(Roots, e)
  {
    if e.Unary? {
      HeldByUsed(e.operand);
    }
  }

  lemma NothingEntered(m: Monitor, held: set<Var>)
    requires forall b :: b in m.broken ==> b.holder !in held
    ensures Ok(m, Enter({}, held)) && Step(m, Enter({}, held)) == m
  {
    var m' := Step(m, Enter({}, held));
    assert m'.active == m.active && m'.broken == m.broken && m'.moved == m.moved && m'.passed == m.passed;
  }

  lemma {:induction false} QuietPlace(cx: Context, pe: PlaceExpr, m: Monitor, scopes: Scopes, live: LiveSet)
    requires Avoids(cx, pe.place) && AllQuiet(cx, pe.operands, scopes) && Fenced(cx, m)
    requires PlaceUses(Roots, pe.place) + AllUses(Roots, pe.operands) <= live
    requires forall b :: b in m.broken ==> [b.holder] !in live
    ensures var ev := OperandEvents(pe.operands, scopes) + [Touch(pe.place, Read)]; Safe(m, ev) && Observe(m, ev) == m
    decreases pe, 1
  {
    assert [Root(pe.place)] in PlaceUses(Roots, pe.place);
    OperandsFirst(cx, pe.operands, Touch(pe.place, Read), m, scopes, live);
    QuietRead(cx, m, pe.place, live);
  }

  lemma {:induction false} OperandsStep(cx: Context, es: seq<Expr>, m: Monitor, scopes: Scopes, live: LiveSet)
    requires AllQuiet(cx, es, scopes) && AllUses(Roots, es) <= live && Fenced(cx, m)
    requires forall b :: b in m.broken ==> [b.holder] !in live
    ensures Safe(m, OperandEvents(es, scopes)) && Observe(m, OperandEvents(es, scopes)) == m
    decreases es, 0
  {
    if es != [] {
      QuietStep(cx, es[0], m, scopes, live);
      OperandsStep(cx, es[1..], m, scopes, live);
      ObserveConcat(m, Events(es[0], Move, scopes), OperandEvents(es[1..], scopes));
    }
  }

  lemma OperandsAccounted(cx: Context, es: seq<Expr>, m: Monitor, st: State, scopes: Scopes, live: LiveSet)
    requires Accounts(cx, m, st, scopes, live) && AllQuiet(cx, es, scopes) && AllUses(Roots, es) <= live
    ensures Safe(m, OperandEvents(es, scopes)) && Observe(m, OperandEvents(es, scopes)) == m
  {
    OperandsStep(cx, es, m, scopes, live);
  }

  lemma CopyTakesNothing(pe: PlaceExpr, scopes: Scopes)
    requires CopiesThrough(pe.place, scopes)
    ensures var ev := OperandEvents(pe.operands, scopes) + [Touch(pe.place, Read)]; ev + TakeEvents(pe.place, scopes) == ev
  {
  }

  /// Quiet operands before an event leave everything to the event.
  lemma {:induction false} OperandsFirst(cx: Context, es: seq<Expr>, e: Event, m: Monitor, scopes: Scopes, live: LiveSet)
    requires AllQuiet(cx, es, scopes) && AllUses(Roots, es) <= live && Fenced(cx, m)
    requires forall b :: b in m.broken ==> [b.holder] !in live
    ensures var ev := OperandEvents(es, scopes) + [e];
            (Safe(m, ev) <==> Ok(m, e)) && Observe(m, ev) == Step(m, e)
    decreases es, 1
  {
    OperandsStep(cx, es, m, scopes, live);
    ObserveConcat(m, OperandEvents(es, scopes), [e]);
    OneEvent(m, e);
  }

  lemma NothingHappens(m: Monitor)
    ensures Safe(m, []) && Observe(m, []) == m
  {
  }

  lemma OneEvent(m: Monitor, e: Event)
    ensures Safe(m, [e]) <==> Ok(m, e)
    ensures Observe(m, [e]) == Step(m, e)
  {
    assert [e][1..] == [];
  }

  // ---- the two phases of call arguments ----

  lemma {:induction false} ReserveStep(cx: Context, args: seq<Expr>, index: nat, pos: Pos, m: Monitor, st: State, live: LiveSet)
    requires Accounts(cx, m, st, st.scopes, live) && ReserveArgs(args, index, pos, st).errs == {}
    requires AllUses(Roots, args) <= live
    ensures var c := ReserveArgs(args, index, pos, st).st; var ev := ReserveEvents(args);
            Safe(m, ev) && Accounts(cx, Observe(m, ev), c, st.scopes, live)
  {
    if args == [] {
    } else if IsMutBorrow(args[0]) {
      var p := args[0].pe.place;
      var c := Reserve(p, TwoPhase(pos, index), pos, st);
      assert [Root(p)] in Uses(Roots, args[0]);
      TouchStep(cx, m, st, live, p, pos, TwoPhaseReserve);
      var e := Touch(p, TwoPhaseReserve);
      ReserveStep(cx, args[1..], index + 1, pos, Step(m, e), c.st, live);
      assert ReserveEvents(args) == [e] + ReserveEvents(args[1..]);
    } else {
      ReserveStep(cx, args[1..], index + 1, pos, m, st, live);
      assert ReserveEvents(args) == ReserveEvents(args[1..]);
    }
  }

  lemma ActivateOne(cx: Context, p: Place, holder: Holder, made: Pos, pos: Pos, m: Monitor, st: State, live: LiveSet)
    requires Accounts(cx, m, st, st.scopes, live) && [Root(p)] in live && !holder.Stored?
    requires Loan(p, holder, true, Reserved, made) in st.loans && !Unavailable(p, st.moved)
    requires Activate(holder, pos, st).errs == {}
    ensures var e := Touch(p, BorrowMut);
            Ok(m, e) && Accounts(cx, Step(m, e), Activate(holder, pos, st).st, st.scopes, live)
  {
    var e := Touch(p, BorrowMut);
    var l := Loan(p, holder, true, Reserved, made);
    var after := Activate(holder, pos, st).st;
    forall b | b in m.active && [b.holder] in live
      ensures !Hits(e, b) && LoanOf(b) in after.loans
    {
      var o := LoanOf(b);
      assert o in st.loans && Activates(holder, l) && o != l;
      NoClashAtActivation(holder, pos, st, l, o);
      assert ActivateLoan(holder, pos, o) == o;
    }
    NothingMovedThrough(cx, m, e);
    AccessStep(cx, m, st, after, live, e);
    forall q | q in m.moved ensures !UsesMoved(e, q) {
      assert q in st.moved;
    }
  }

  /// Passing a reference is no access.
  lemma PassStep(cx: Context, m: Monitor, st: State, scopes: Scopes, live: LiveSet, a: Arg)
    requires Accounts(cx, m, st, scopes, live) && Listed(cx, a)
    ensures Ok(m, Pass(a)) && Accounts(cx, Step(m, Pass(a)), st, scopes, live)
  {
    var m' := Step(m, Pass(a));
    assert m'.active == m.active && m'.broken == m.broken && m'.moved == m.moved;
  }

  lemma {:induction false} ActivateStep(cx: Context, args: seq<Expr>, index: nat, pos: Pos, m: Monitor, st: State, live: LiveSet)
    requires Accounts(cx, m, st, st.scopes, live) && ActivateArgs(args, index, pos, st).errs == {}
    requires AllUses(Roots, args) <= live && Reservations(args, index, pos, st) && AllTame(cx, args, st.scopes)
    ensures var c := ActivateArgs(args, index, pos, st).st; var ev := ActivateEvents(args, index, pos);
            Safe(m, ev) && Accounts(cx, Observe(m, ev), c, st.scopes, live)
  {
    if args == [] {
    } else if IsMutBorrow(args[0]) {
      var p := args[0].pe.place;
      var e, a := Touch(p, BorrowMut), Arg(pos, index, p, true);
      var c := Activate(TwoPhase(pos, index), pos, st);
      assert [Root(p)] in Uses(Roots, args[0]);
      ActivateOne(cx, p, TwoPhase(pos, index), pos, pos, m, st, live);
      assert TameArg(cx, args[0], st.scopes) && Tame(cx, args[0], st.scopes);
      PassStep(cx, Step(m, e), c.st, st.scopes, live, a);
      ReservationsAfterActivation(args[1..], index + 1, pos, index, st);
      TwoEvents(m, e, Pass(a));
      ActivateStep(cx, args[1..], index + 1, pos, Step(Step(m, e), Pass(a)), c.st, live);
      ObserveConcat(m, [e] + [Pass(a)], ActivateEvents(args[1..], index + 1, pos));
    } else {
      ActivateStep(cx, args[1..], index + 1, pos, m, st, live);
      assert ActivateEvents(args, index, pos) == ActivateEvents(args[1..], index + 1, pos);
    }
  }

  lemma TwoEvents(m: Monitor, e: Event, e': Event)
    ensures Safe(m, [e] + [e']) <==> Ok(m, e) && Ok(Step(m, e), e')
    ensures Observe(m, [e] + [e']) == Step(Step(m, e), e')
  {
    ObserveConcat(m, [e], [e']);
    OneEvent(m, e);
    OneEvent(Step(m, e), e');
  }

  // ---- expressions ----

  lemma EffectiveMove(p: Place, access: Access, scopes: Scopes)
    ensures Effective(p, access, scopes) == Move ==> access == Move && !IsCopyType(TypeOfPlace(p, scopes))
    ensures access != Move ==> Effective(p, access, scopes) == access
  {
  }

  /// An access to a place expression, its index operands evaluated first.
  lemma {:induction false} PlaceStep(cx: Context, pe: PlaceExpr, pos: Pos, access: Access, m: Monitor, st: State, live: LiveSet)
    requires Accounts(cx, m, st, st.scopes, live) && AccessPlace(pe.place, pos, access, st, {}).errs == {}
    requires AllQuiet(cx, pe.operands, st.scopes) && PlaceUses(Roots, pe.place) + AllUses(Roots, pe.operands) <= live
    requires Effective(pe.place, access, st.scopes) == Move ==> MayMove(cx, pe.place)
    ensures var ev := OperandEvents(pe.operands, st.scopes) + [Touch(pe.place, Effective(pe.place, access, st.scopes))];
            Safe(m, ev) && Accounts(cx, Observe(m, ev), AccessPlace(pe.place, pos, access, st, {}).st, st.scopes, live)
  {
    var e := Touch(pe.place, Effective(pe.place, access, st.scopes));
    assert [Root(pe.place)] in PlaceUses(Roots, pe.place);
    OperandsFirst(cx, pe.operands, e, m, st.scopes, live);
    TouchStep(cx, m, st, live, pe.place, pos, access);
  }

  /// A borrow that nothing holds on to: its loan is a temporary's.
  lemma {:induction false} BorrowStep(cx: Context, mut: bool, pe: PlaceExpr, pos: Pos, m: Monitor, st: State, live: LiveSet)
    requires var e := Borrow(mut, pe, pos);
             Accounts(cx, m, st, st.scopes, live) && Inspect(e, Move, st).errs == {} &&
             Tame(cx, e, st.scopes) && Uses(Roots, e) <= live
    ensures var ev := Events(Borrow(mut, pe, pos), Move, st.scopes);
            Safe(m, ev) && Accounts(cx, Observe(m, ev), Inspect(Borrow(mut, pe, pos), Move, st).st, st.scopes, live)
    decreases pe, 0
  {
    var a := if mut then BorrowMut else BorrowShared;
    PlaceStep(cx, pe, pos, a, m, st, live);
    var ev := Events(Borrow(mut, pe, pos), Move, st.scopes);
    LoansDropped(cx, Observe(m, ev), AccessPlace(pe.place, pos, a, st, {}).st, Inspect(Borrow(mut, pe, pos), Move, st).st, live);
  }

  /// An accepted expression is safe on every path it is on.
  lemma {:induction false} InspectStep(cx: Context, e: Expr, access: Access, m: Monitor, st: State, live: LiveSet)
    requires Accounts(cx, m, st, st.scopes, live) && Inspect(e, access, st).errs == {}
    requires Tame(cx, e, st.scopes) && Uses(Roots, e) <= live
    ensures var ev := Events(e, access, st.scopes);
            Safe(m, ev) && Accounts(cx, Observe(m, ev), Inspect(e, access, st).st, st.scopes, live)
    decreases e, 1
  {
    hide Accounts, Safe, Observe, AccessPlace, Effective, TypeOfPlace, AllQuiet;
    match e
    case Literal => NothingHappens(m);
    case Use(pe) =>
      EffectiveMove(pe.place, access, st.scopes);
      PlaceStep(cx, pe, pe.pos, access, m, st, live);
    case Lend(pe) => PlaceStep(cx, pe, pe.pos, access, m, st, live);
    case Deref(pe) =>
      EffectiveMove(pe.place, Read, st.scopes);
      CopyTakesNothing(pe, st.scopes);
      PlaceStep(cx, pe, pe.pos, Read, m, st, live);
    case Borrow(mut, pe, pos) => BorrowStep(cx, mut, pe, pos, m, st, live);
    case Unary(x) => InspectStep(cx, x, access, m, st, live);
    case Binary(l, r) =>
      InspectStep(cx, l, Move, m, st, live);
      InspectFrame(l, Move, st);
      var el := Events(l, Move, st.scopes);
      InspectStep(cx, r, Move, Observe(m, el), Inspect(l, Move, st).st, live);
      ObserveConcat(m, el, Events(r, Move, st.scopes));
    case Call(pos, args) => CallStep(cx, pos, args, m, st, live);
  }

  /// An accepted call is safe: its references are intact when it is made.
  lemma {:induction false} CallStep(cx: Context, pos: Pos, args: seq<Expr>, m: Monitor, st: State, live: LiveSet)
    requires Accounts(cx, m, st, st.scopes, live) && Inspect(Call(pos, args), Move, st).errs == {}
    requires Tame(cx, Call(pos, args), st.scopes) && AllUses(Roots, args) <= live
    ensures var ev := Events(Call(pos, args), Move, st.scopes);
            Safe(m, ev) && Accounts(cx, Observe(m, ev), Inspect(Call(pos, args), Move, st).st, st.scopes, live)
    decreases args, 2
  {
    var ev1, ev2, ev3 := ReserveEvents(args), ArgEvents(args, 0, pos, st.scopes), ActivateEvents(args, 0, pos);
    var reserved := ReserveArgs(args, 0, pos, st).st;
    ReserveStep(cx, args, 0, pos, m, st, live);
    ReserveFrame(args, 0, pos, st);
    ReservationsMade(args, 0, pos, st);
    var m1 := Observe(m, ev1);
    var inspected := InspectArgs(args, 0, pos, reserved).st;
    ArgsStep(cx, args, 0, pos, m1, reserved, live);
    ArgsFrame(args, 0, pos, reserved);
    ReservationsStand(args, 0, pos, args, 0, reserved);
    var m2 := Observe(m1, ev2);
    var released := ReleaseArgs(args, 0, pos, inspected);
    ReleaseFrame(args, 0, pos, inspected);
    ReservationsFrame(args, 0, pos, inspected, released);
    LoansDropped(cx, m2, inspected, released, live);
    var activated := ActivateArgs(args, 0, pos, released).st;
    ActivateStep(cx, args, 0, pos, m2, released, live);
    ActivateFrame(args, 0, pos, released);
    KillFrame(args, 0, pos, activated);
    var m3 := Observe(m2, ev3);
    LoansDropped(cx, m3, activated, KillArgs(args, 0, pos, activated), live);
    ObserveConcat(m, ev1, ev2);
    ObserveConcat(m, ev1 + ev2, ev3);
    ArgumentsAreIntact(cx, pos, args, m, st);
    var enter := Enter(RefArgs(args, 0, pos), HeldVars(args));
    HeldUsed(args);
    EnterStep(cx, m3, KillArgs(args, 0, pos, activated), st.scopes, live, RefArgs(args, 0, pos), HeldVars(args));
    ObserveConcat(m, ev1 + ev2 + ev3, [enter]);
    OneEvent(m3, enter);
  }

  /// Loans that no place holds do not matter to the accounts.
  lemma LoansDropped(cx: Context, m: Monitor, st: State, st': State, live: LiveSet)
    requires Accounts(cx, m, st, st.scopes, live) && st' == st.(loans := st'.loans)
    requires forall l :: l in st.loans && l.holder.Stored? ==> l in st'.loans
    ensures Accounts(cx, m, st', st.scopes, live)
  {
    forall b | b in m.active && [b.holder] in live ensures LoanOf(b) in st'.loans {
      assert LoanOf(b) in st.loans;
    }
  }

  /// References passed by value are intact too, being in use.
  lemma EnterStep(cx: Context, m: Monitor, st: State, scopes: Scopes, live: LiveSet, args: set<Arg>, held: set<Var>)
    requires Accounts(cx, m, st, scopes, live) && args <= m.passed && (forall v :: v in held ==> [v] in live)
    ensures Ok(m, Enter(args, held)) && Accounts(cx, Step(m, Enter(args, held)), st, scopes, live)
  {
    var m' := Step(m, Enter(args, held));
    assert m'.active == m.active && m'.broken == m.broken && m'.moved == m.moved;
  }

  lemma {:induction false} ArgsStep(cx: Context, args: seq<Expr>, index: nat, pos: Pos, m: Monitor, st: State, live: LiveSet)
    requires Accounts(cx, m, st, st.scopes, live) && InspectArgs(args, index, pos, st).errs == {}
    requires AllTame(cx, args, st.scopes) && AllUses(Roots, args) <= live
    ensures var ev := ArgEvents(args, index, pos, st.scopes);
            Safe(m, ev) && Accounts(cx, Observe(m, ev), InspectArgs(args, index, pos, st).st, st.scopes, live)
    decreases args, 0
  {
    if args != [] {
      ArgStep(cx, args[0], index, pos, m, st, live);
      ArgFrame(args[0], index, pos, st);
      var e0 := ArgEvent(args[0], index, pos, st.scopes);
      ArgsStep(cx, args[1..], index + 1, pos, Observe(m, e0), InspectArg(args[0], index, pos, st).st, live);
      ObserveConcat(m, e0, ArgEvents(args[1..], index + 1, pos, st.scopes));
    }
  }

  lemma {:induction false} ArgStep(cx: Context, e: Expr, index: nat, pos: Pos, m: Monitor, st: State, live: LiveSet)
    requires Accounts(cx, m, st, st.scopes, live) && InspectArg(e, index, pos, st).errs == {}
    requires TameArg(cx, e, st.scopes) && Uses(Roots, e) <= live
    ensures var ev := ArgEvent(e, index, pos, st.scopes);
            Safe(m, ev) && Accounts(cx, Observe(m, ev), InspectArg(e, index, pos, st).st, st.scopes, live)
    decreases e, 2
  {
    if IsMutBorrow(e) {
      OperandsStep(cx, e.pe.operands, m, st.scopes, live);
    } else if e.Lend? {
      PlaceStep(cx, e.pe, e.pe.pos, BorrowMut, m, st, live);
      var ev := OperandEvents(e.pe.operands, st.scopes) + [Touch(e.pe.place, BorrowMut)];
      var c := InspectArg(e, index, pos, st).st;
      LoansDropped(cx, Observe(m, ev), AccessPlace(e.pe.place, e.pe.pos, BorrowMut, st, {}).st, c, live);
      PassedOn(cx, ev, Arg(pos, index, e.pe.place, true), m, c, live);
    } else {
      InspectStep(cx, e, Move, m, st, live);
      InspectFrame(e, Move, st);
      if e.Borrow? {
        PassedOn(cx, Events(e, Move, st.scopes), Arg(pos, index, e.pe.place, false), m, Inspect(e, Move, st).st, live);
      }
    }
  }

  lemma PassedOn(cx: Context, ev: seq<Event>, a: Arg, m: Monitor, c: State, live: LiveSet)
    requires Safe(m, ev) && Accounts(cx, Observe(m, ev), c, c.scopes, live) && Listed(cx, a)
    ensures Safe(m, ev + [Pass(a)]) && Accounts(cx, Observe(m, ev + [Pass(a)]), c, c.scopes, live)
  {
    ObserveConcat(m, ev, [Pass(a)]);
    OneEvent(Observe(m, ev), Pass(a));
    PassStep(cx, Observe(m, ev), c, c.scopes, live, a);
  }
}
