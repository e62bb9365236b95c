/// The arguments of an accepted call stay intact until the call is made.

module CallArguments {
  import opened Places
  import opened BorrowSyntax
  import opened BorrowState
  import opened BorrowCheck
  import opened Paths

  // ---- the modelled fragment of expressions ----

  /// `exclusive` has the places a function moves, lends or mutably borrows,
  /// `bound` the variables it binds a reference to.
  datatype Context = Context(exclusive: set<Place>, bound: set<Var>)

  ghost predicate Avoids(cx: Context, p: Place) {
    forall q :: q in cx.exclusive ==> !Conflict(p, q)
  }

  /// Does reading through `p` copy?
  predicate CopiesThrough(p: Place, scopes: Scopes) { IsCopyType(Pointee(TypeOfPlace(p, scopes))) }

  /// An index operand that only reads: Copy places clear of the exclusive ones.
  ghost predicate Quiet(cx: Context, e: Expr, scopes: Scopes)
    decreases e, 1
  {
    match e
    case Literal => true
    case Use(pe) =>
      IsCopyType(TypeOfPlace(pe.place, scopes)) && Avoids(cx, pe.place) && AllQuiet(cx, pe.operands, scopes)
    case Deref(pe) => CopiesThrough(pe.place, scopes) && Avoids(cx, pe.place) && AllQuiet(cx, pe.operands, scopes)
    case Unary(x) => Quiet(cx, x, scopes)
    case Binary(l, r) => Quiet(cx, l, scopes) && Quiet(cx, r, scopes)
    case Call(_, args) => AllQuiet(cx, args, scopes)
    case _ => false
  }

  ghost predicate AllQuiet(cx: Context, es: seq<Expr>, scopes: Scopes)
    decreases es, 0
  {
    es == [] || (Quiet(cx, es[0], scopes) && AllQuiet(cx, es[1..], scopes))
  }

  /// Nothing is moved out of a reference the function has bound.
  predicate MayMove(cx: Context, p: Place) { p in cx.exclusive && (1 < |p| ==> Root(p) !in cx.bound) }

  /// Index operands are quiet, `cx` lists the places taken exclusively, moves
  /// do not go through references, and a call does not start where one of its
  /// arguments' calls does.
  ghost predicate Tame(cx: Context, e: Expr, scopes: Scopes)
    decreases e, 1
  {
    match e
    case Literal => true
    case Use(pe) => AllQuiet(cx, pe.operands, scopes) && (IsCopyType(TypeOfPlace(pe.place, scopes)) || MayMove(cx, pe.place))
    case Deref(pe) => CopiesThrough(pe.place, scopes) && AllQuiet(cx, pe.operands, scopes)
    case Borrow(mut, pe, _) => AllQuiet(cx, pe.operands, scopes) && (mut ==> pe.place in cx.exclusive)
    case Lend(pe) => AllQuiet(cx, pe.operands, scopes) && MayMove(cx, pe.place)
    case Unary(x) => Tame(cx, x, scopes)
    case Binary(l, r) => Tame(cx, l, scopes) && Tame(cx, r, scopes)
    case Call(pos, args) => pos !in ArgCallPositions(args) && AllTame(cx, args, scopes)
  }

  ghost predicate AllTame(cx: Context, es: seq<Expr>, scopes: Scopes)
    decreases es, 0
  {
    es == [] || (TameArg(cx, es[0], scopes) && AllTame(cx, es[1..], scopes))
  }

  /// An argument that is lent moves nothing.
  ghost predicate TameArg(cx: Context, e: Expr, scopes: Scopes)
    decreases e, 2
  {
    if e.Lend? then AllQuiet(cx, e.pe.operands, scopes) && e.pe.place in cx.exclusive else Tame(cx, e, scopes)
  }

  /// Quiet arguments are passed by value.
  lemma {:induction false} QuietArguments(cx: Context, es: seq<Expr>, index: nat, pos: Pos, scopes: Scopes)
    requires AllQuiet(cx, es, scopes)
    ensures ReserveEvents(es) == [] && ActivateEvents(es, index, pos) == [] && RefArgs(es, index, pos) == {}
    ensures ArgEvents(es, index, pos, scopes) == OperandEvents(es, scopes)
  {
    if es != [] {
      QuietArguments(cx, es[1..], index + 1, pos, scopes);
    }
  }

  // ---- frames of inspection ----

  ghost predicate SameFrame(st: State, c: State) {
    c.scopes == st.scopes && c.reachable == st.reachable && c.origins == st.origins && st.moved <= c.moved
  }

  lemma {:induction false} InspectFrame(e: Expr, access: Access, st: State)
    ensures SameFrame(st, Inspect(e, access, st).st)
    decreases e, 1
  {
    match e
    case Unary(x) => InspectFrame(x, access, st);
    case Binary(l, r) =>
      InspectFrame(l, Move, st);
      InspectFrame(r, Move, Inspect(l, Move, st).st);
    case Call(pos, args) =>
      ReserveFrame(args, 0, pos, st);
      var reserved := ReserveArgs(args, 0, pos, st).st;
      ArgsFrame(args, 0, pos, reserved);
      var inspected := InspectArgs(args, 0, pos, reserved).st;
      ReleaseFrame(args, 0, pos, inspected);
      var released := ReleaseArgs(args, 0, pos, inspected);
      ActivateFrame(args, 0, pos, released);
      KillFrame(args, 0, pos, ActivateArgs(args, 0, pos, released).st);
    case _ =>
  }

  lemma {:induction false} ArgFrame(e: Expr, index: nat, pos: Pos, st: State)
    ensures SameFrame(st, InspectArg(e, index, pos, st).st)
    decreases e, 2
  {
    if !IsMutBorrow(e) && !e.Lend? {
      InspectFrame(e, Move, st);
    }
  }

  lemma {:induction false} ArgsFrame(args: seq<Expr>, index: nat, pos: Pos, st: State)
    ensures SameFrame(st, InspectArgs(args, index, pos, st).st)
    decreases args, 0
  {
    if args != [] {
      ArgFrame(args[0], index, pos, st);
      ArgsFrame(args[1..], index + 1, pos, InspectArg(args[0], index, pos, st).st);
    }
  }

  lemma {:induction false} ReserveFrame(args: seq<Expr>, index: nat, pos: Pos, st: State)
    ensures var c := ReserveArgs(args, index, pos, st).st;
            c == st.(loans := c.loans) && st.loans <= c.loans
  {
    if args != [] {
      if IsMutBorrow(args[0]) {
        ReserveFrame(args[1..], index + 1, pos, Reserve(args[0].pe.place, TwoPhase(pos, index), pos, st).st);
      } else {
        ReserveFrame(args[1..], index + 1, pos, st);
      }
    }
  }

  lemma {:induction false} ReleaseFrame(args: seq<Expr>, index: nat, pos: Pos, st: State)
    ensures var c := ReleaseArgs(args, index, pos, st);
            c == st.(loans := c.loans) &&
            forall l :: l in st.loans && !(l.holder.Guard? && l.holder.pos == pos) ==> l in c.loans
  {
    if args != [] {
      ReleaseFrame(args[1..], index + 1, pos, if args[0].Lend? then KillHolder(Guard(pos, index), st) else st);
    }
  }

  lemma {:induction false} ActivateFrame(args: seq<Expr>, index: nat, pos: Pos, st: State)
    ensures var c := ActivateArgs(args, index, pos, st).st;
            c == st.(loans := c.loans) &&
            forall l :: l in st.loans && !(l.holder.TwoPhase? && l.holder.pos == pos) ==> l in c.loans
  {
    if args != [] {
      if IsMutBorrow(args[0]) {
        var holder := TwoPhase(pos, index);
        var next := Activate(holder, pos, st).st;
        forall l | l in st.loans && !(l.holder.TwoPhase? && l.holder.pos == pos) ensures l in next.loans {
          assert ActivateLoan(holder, pos, l) == l;
        }
        ActivateFrame(args[1..], index + 1, pos, next);
      } else {
        ActivateFrame(args[1..], index + 1, pos, st);
      }
    }
  }

  lemma {:induction false} KillFrame(args: seq<Expr>, index: nat, pos: Pos, st: State)
    ensures var c := KillArgs(args, index, pos, st);
            c == st.(loans := c.loans) &&
            forall l :: l in st.loans && !(l.holder.TwoPhase? && l.holder.pos == pos) ==> l in c.loans
  {
    if args != [] {
      KillFrame(args[1..], index + 1, pos, if IsMutBorrow(args[0]) then KillHolder(TwoPhase(pos, index), st) else st);
    }
  }

  // ---- loans that stand through an inspection ----

  /// A loan that no call inside an expression makes.
  predicate Foreign(l: Loan, positions: set<Pos>) {
    (l.holder.TwoPhase? || l.holder.Guard?) ==> l.holder.pos !in positions
  }

  /// Accepted inspection keeps every loan it did not make, and moves nothing
  /// that overlaps one.
  ghost predicate Keeps(l: Loan, st: State, c: State) {
    l in c.loans && forall q :: q in c.moved && Conflict(q, l.place) ==> q in st.moved
  }

  lemma {:induction false} InspectKeeps(e: Expr, access: Access, st: State, l: Loan)
    requires Inspect(e, access, st).errs == {}
    requires l in st.loans && Foreign(l, CallPositions(e))
    ensures Keeps(l, st, Inspect(e, access, st).st)
    decreases e, 1
  {
    match e
    case Literal =>
    case Use(pe) => AccessKeeps(pe.place, pe.pos, access, st, l);
    case Lend(pe) => AccessKeeps(pe.place, pe.pos, access, st, l);
    case Deref(pe) => AccessKeeps(pe.place, pe.pos, Read, st, l);
    case Borrow(mut, pe, pos) => AccessKeeps(pe.place, pos, if mut then BorrowMut else BorrowShared, st, l);
    case Unary(x) => InspectKeeps(x, access, st, l);
    case Binary(x, r) =>
      InspectKeeps(x, Move, st, l);
      InspectKeeps(r, Move, Inspect(x, Move, st).st, l);
    case Call(pos, args) =>
      ReserveFrame(args, 0, pos, st);
      var reserved := ReserveArgs(args, 0, pos, st).st;
      ArgsKeep(args, 0, pos, reserved, l);
      var inspected := InspectArgs(args, 0, pos, reserved).st;
      ReleaseFrame(args, 0, pos, inspected);
      var released := ReleaseArgs(args, 0, pos, inspected);
      ActivateFrame(args, 0, pos, released);
      KillFrame(args, 0, pos, ActivateArgs(args, 0, pos, released).st);
  }

  lemma {:induction false} ArgKeeps(e: Expr, index: nat, pos: Pos, st: State, l: Loan)
    requires InspectArg(e, index, pos, st).errs == {}
    requires l in st.loans && Foreign(l, CallPositions(e))
    ensures Keeps(l, st, InspectArg(e, index, pos, st).st)
    decreases e, 2
  {
    if !IsMutBorrow(e) && !e.Lend? {
      InspectKeeps(e, Move, st, l);
    }
  }

  lemma {:induction false} ArgsKeep(args: seq<Expr>, index: nat, pos: Pos, st: State, l: Loan)
    requires InspectArgs(args, index, pos, st).errs == {}
    requires l in st.loans && Foreign(l, ArgCallPositions(args))
    ensures Keeps(l, st, InspectArgs(args, index, pos, st).st)
    decreases args, 0
  {
    if args != [] {
      ArgKeeps(args[0], index, pos, st, l);
      ArgsKeep(args[1..], index + 1, pos, InspectArg(args[0], index, pos, st).st, l);
    }
  }

  lemma AccessKeeps(p: Place, pos: Pos, access: Access, st: State, l: Loan)
    requires AccessPlace(p, pos, access, st, {}).errs == {} && l in st.loans
    ensures Keeps(l, st, AccessPlace(p, pos, access, st, {}).st)
  {
    if Effective(p, access, st.scopes) == Move && Conflict(p, l.place) {
      assert Clashes(Move, l) && !Exempt(Move, l, {});
    }
  }

  // ---- reservations ----

  /// Every reservation of a call stands and its place is still whole.
  ghost predicate Reservations(args: seq<Expr>, index: nat, pos: Pos, st: State) {
    args == [] ||
    ((IsMutBorrow(args[0]) ==>
        Loan(args[0].pe.place, TwoPhase(pos, index), true, Reserved, pos) in st.loans &&
        !Unavailable(args[0].pe.place, st.moved)) &&
     Reservations(args[1..], index + 1, pos, st))
  }

  lemma {:induction false} ReservationsMade(args: seq<Expr>, index: nat, pos: Pos, st: State)
    requires ReserveArgs(args, index, pos, st).errs == {}
    ensures Reservations(args, index, pos, ReserveArgs(args, index, pos, st).st)
  {
    if args != [] {
      if IsMutBorrow(args[0]) {
        var c := Reserve(args[0].pe.place, TwoPhase(pos, index), pos, st);
        ReservationsMade(args[1..], index + 1, pos, c.st);
        ReserveFrame(args[1..], index + 1, pos, c.st);
      } else {
        ReservationsMade(args[1..], index + 1, pos, st);
      }
    }
  }

  lemma {:induction false} ReservationsKept(args: seq<Expr>, index: nat, pos: Pos, e: Expr, at: nat, st: State)
    requires Reservations(args, index, pos, st)
    requires InspectArg(e, at, pos, st).errs == {} && pos !in CallPositions(e)
    ensures Reservations(args, index, pos, InspectArg(e, at, pos, st).st)
  {
    if args != [] {
      if IsMutBorrow(args[0]) {
        ArgKeeps(e, at, pos, st, Loan(args[0].pe.place, TwoPhase(pos, index), true, Reserved, pos));
      }
      ReservationsKept(args[1..], index + 1, pos, e, at, st);
    }
  }

  lemma {:induction false} ReservationsStand(args: seq<Expr>, index: nat, pos: Pos, inner: seq<Expr>, at: nat, st: State)
    requires Reservations(args, index, pos, st)
    requires InspectArgs(inner, at, pos, st).errs == {} && pos !in ArgCallPositions(inner)
    ensures Reservations(args, index, pos, InspectArgs(inner, at, pos, st).st)
  {
    if inner != [] {
      ReservationsKept(args, index, pos, inner[0], at, st);
      ReservationsStand(args, index, pos, inner[1..], at + 1, InspectArg(inner[0], at, pos, st).st);
    }
  }

  lemma {:induction false} ReservationsFrame(args: seq<Expr>, index: nat, pos: Pos, st: State, st': State)
    requires Reservations(args, index, pos, st) && st'.moved == st.moved
    requires forall l :: l in st.loans && l.holder.TwoPhase? ==> l in st'.loans
    ensures Reservations(args, index, pos, st')
  {
    if args != [] {
      ReservationsFrame(args[1..], index + 1, pos, st, st');
    }
  }

  lemma {:induction false} ReservationsAfterActivation(args: seq<Expr>, index: nat, pos: Pos, before: nat, st: State)
    requires Reservations(args, index, pos, st) && before < index
    ensures Reservations(args, index, pos, Activate(TwoPhase(pos, before), pos, st).st)
  {
    if args != [] {
      if IsMutBorrow(args[0]) {
        var l := Loan(args[0].pe.place, TwoPhase(pos, index), true, Reserved, pos);
        assert ActivateLoan(TwoPhase(pos, before), pos, l) == l;
      }
      ReservationsAfterActivation(args[1..], index + 1, pos, before, st);
    }
  }

  lemma NoClashAtActivation(holder: Holder, pos: Pos, st: State, l: Loan, o: Loan)
    requires Activate(holder, pos, st).errs == {}
    requires l in st.loans && o in st.loans && Activates(holder, l) && o != l
    ensures !Conflict(l.place, o.place)
  {
  }

  // ---- passed references ----

  /// The loan `l` stands for the passed reference `a`.
  predicate Backs(l: Loan, a: Arg) {
    l.place == a.place && l.mut == a.mut && l.kind != Reserved && (a.mut ==> ActiveExclusive(l))
  }

  /// `e` ends the passing of `a`: it accesses its place against it, or is its call.
  predicate Spoils(e: Event, a: Arg) {
    Strikes(e, a.place, a.mut) || (e.Enter? && a in e.args)
  }

  ghost predicate Spared(events: seq<Event>, a: Arg) { forall e :: e in events ==> !Spoils(e, a) }

  lemma {:induction false} SparedStays(m: Monitor, events: seq<Event>, a: Arg)
    requires a in m.passed && Spared(events, a)
    ensures a in Observe(m, events).passed
    decreases events
  {
    if events != [] {
      assert events[0] in events && forall e :: e in events[1..] ==> e in events;
      SparedStays(Step(m, events[0]), events[1..], a);
    }
  }

  /// What a context says of a passed reference.
  predicate Listed(cx: Context, a: Arg) { a.mut ==> a.place in cx.exclusive }

  lemma {:induction false} QuietSpares(cx: Context, e: Expr, scopes: Scopes, a: Arg)
    requires Quiet(cx, e, scopes) && Listed(cx, a)
    ensures Spared(Events(e, Move, scopes), a)
    decreases e, 1
  {
    match e
    case Literal =>
    case Use(pe) => OperandsSpare(cx, pe.operands, scopes, a);
    case Deref(pe) => OperandsSpare(cx, pe.operands, scopes, a);
    case Unary(x) => QuietSpares(cx, x, scopes, a);
    case Binary(l, r) =>
      QuietSpares(cx, l, scopes, a);
      QuietSpares(cx, r, scopes, a);
    case Call(pos, args) =>
      QuietArguments(cx, args, 0, pos, scopes);
      OperandsSpare(cx, args, scopes, a);
  }

  lemma {:induction false} OperandsSpare(cx: Context, es: seq<Expr>, scopes: Scopes, a: Arg)
    requires AllQuiet(cx, es, scopes) && Listed(cx, a)
    ensures Spared(OperandEvents(es, scopes), a)
    decreases es, 0
  {
    if es != [] {
      QuietSpares(cx, es[0], scopes, a);
      OperandsSpare(cx, es[1..], scopes, a);
    }
  }

  lemma AccessSpares(p: Place, pos: Pos, access: Access, st: State, l: Loan, a: Arg)
    requires AccessPlace(p, pos, access, st, {}).errs == {} && l in st.loans && Backs(l, a)
    ensures !Spoils(Touch(p, Effective(p, access, st.scopes)), a)
  {
    var x := Effective(p, access, st.scopes);
    if Forbidden(x, a.mut) {
      assert Clashes(x, l) && !Exempt(x, l, {});
    }
  }

  /// `l` stands for `a` from outside an expression with calls at `positions`.
  ghost predicate Outer(cx: Context, l: Loan, a: Arg, st: State, positions: set<Pos>) {
    l in st.loans && Backs(l, a) && Foreign(l, positions) && a.call !in positions && Listed(cx, a)
  }

  /// An accepted expression spares every reference an enclosing call holds.
  lemma {:induction false} InspectSpares(cx: Context, e: Expr, access: Access, st: State, l: Loan, a: Arg)
    requires Inspect(e, access, st).errs == {} && Tame(cx, e, st.scopes)
    requires Outer(cx, l, a, st, CallPositions(e))
    ensures Spared(Events(e, access, st.scopes), a)
    decreases e, 1
  {
    match e
    case Literal =>
    case Use(pe) =>
      OperandsSpare(cx, pe.operands, st.scopes, a);
      AccessSpares(pe.place, pe.pos, access, st, l, a);
    case Lend(pe) =>
      OperandsSpare(cx, pe.operands, st.scopes, a);
      AccessSpares(pe.place, pe.pos, access, st, l, a);
    case Deref(pe) =>
      OperandsSpare(cx, pe.operands, st.scopes, a);
      AccessSpares(pe.place, pe.pos, Read, st, l, a);
    case Borrow(mut, pe, pos) =>
      OperandsSpare(cx, pe.operands, st.scopes, a);
      AccessSpares(pe.place, pos, if mut then BorrowMut else BorrowShared, st, l, a);
    case Unary(x) => InspectSpares(cx, x, access, st, l, a);
    case Binary(x, r) =>
      InspectSpares(cx, x, Move, st, l, a);
      InspectFrame(x, Move, st);
      InspectKeeps(x, Move, st, l);
      InspectSpares(cx, r, Move, Inspect(x, Move, st).st, l, a);
    case Call(pos, args) => CallSpares(cx, pos, args, st, l, a);
  }

  lemma {:induction false} CallSpares(cx: Context, pos: Pos, args: seq<Expr>, st: State, l: Loan, a: Arg)
    requires Inspect(Call(pos, args), Move, st).errs == {} && Tame(cx, Call(pos, args), st.scopes)
    requires Outer(cx, l, a, st, CallPositions(Call(pos, args)))
    ensures Spared(Events(Call(pos, args), Move, st.scopes), a)
    decreases args, 2
  {
    ReserveSpares(args, 0, pos, st, l, a);
    ReserveFrame(args, 0, pos, st);
    ReservationsMade(args, 0, pos, st);
    var reserved := ReserveArgs(args, 0, pos, st).st;
    ArgsSpare(cx, args, 0, pos, reserved, l, a);
    ArgsKeep(args, 0, pos, reserved, l);
    ReservationsStand(args, 0, pos, args, 0, reserved);
    var inspected := InspectArgs(args, 0, pos, reserved).st;
    ReleaseFrame(args, 0, pos, inspected);
    var released := ReleaseArgs(args, 0, pos, inspected);
    ReservationsFrame(args, 0, pos, inspected, released);
    ActivateSpares(args, 0, pos, released, l, a);
    ArgsOfCall(args, 0, pos);
  }

  lemma {:induction false} ArgsOfCall(args: seq<Expr>, index: nat, pos: Pos)
    ensures forall a :: a in RefArgs(args, index, pos) ==> a.call == pos
  {
    if args != [] {
      ArgsOfCall(args[1..], index + 1, pos);
    }
  }

  lemma {:induction false} ReserveSpares(args: seq<Expr>, index: nat, pos: Pos, st: State, l: Loan, a: Arg)
    requires ReserveArgs(args, index, pos, st).errs == {} && l in st.loans && Backs(l, a)
    ensures Spared(ReserveEvents(args), a)
  {
    if args != [] {
      if IsMutBorrow(args[0]) {
        AccessSpares(args[0].pe.place, pos, TwoPhaseReserve, st, l, a);
        ReserveSpares(args[1..], index + 1, pos, Reserve(args[0].pe.place, TwoPhase(pos, index), pos, st).st, l, a);
      } else {
        ReserveSpares(args[1..], index + 1, pos, st, l, a);
      }
    }
  }

  lemma {:induction false} ArgSpares(cx: Context, e: Expr, index: nat, pos: Pos, st: State, l: Loan, a: Arg)
    requires InspectArg(e, index, pos, st).errs == {} && TameArg(cx, e, st.scopes)
    requires Outer(cx, l, a, st, CallPositions(e))
    ensures Spared(ArgEvent(e, index, pos, st.scopes), a)
    decreases e, 2
  {
    if IsMutBorrow(e) {
      OperandsSpare(cx, e.pe.operands, st.scopes, a);
    } else if e.Lend? {
      OperandsSpare(cx, e.pe.operands, st.scopes, a);
      AccessSpares(e.pe.place, e.pe.pos, BorrowMut, st, l, a);
    } else {
      InspectSpares(cx, e, Move, st, l, a);
    }
  }

  lemma {:induction false} ArgsSpare(cx: Context, args: seq<Expr>, index: nat, pos: Pos, st: State, l: Loan, a: Arg)
    requires InspectArgs(args, index, pos, st).errs == {} && AllTame(cx, args, st.scopes)
    requires Outer(cx, l, a, st, ArgCallPositions(args))
    ensures Spared(ArgEvents(args, index, pos, st.scopes), a)
    decreases args, 0
  {
    if args != [] {
      ArgSpares(cx, args[0], index, pos, st, l, a);
      ArgFrame(args[0], index, pos, st);
      ArgKeeps(args[0], index, pos, st, l);
      ArgsSpare(cx, args[1..], index + 1, pos, InspectArg(args[0], index, pos, st).st, l, a);
    }
  }

  lemma {:induction false} ActivateSpares(args: seq<Expr>, index: nat, pos: Pos, st: State, l: Loan, a: Arg)
    requires ActivateArgs(args, index, pos, st).errs == {} && Reservations(args, index, pos, st)
    requires l in st.loans && Backs(l, a)
    ensures Spared(ActivateEvents(args, index, pos), a)
  {
    if args != [] {
      if IsMutBorrow(args[0]) {
        var holder, p := TwoPhase(pos, index), args[0].pe.place;
        var c := Activate(holder, pos, st);
        NoClashAtActivation(holder, pos, st, Loan(p, holder, true, Reserved, pos), l);
        assert ActivateLoan(holder, pos, l) == l;
        ReservationsAfterActivation(args[1..], index + 1, pos, index, st);
        ActivateSpares(args[1..], index + 1, pos, c.st, l, a);
        assert !Spoils(Touch(p, BorrowMut), a);
      } else {
        ActivateSpares(args[1..], index + 1, pos, st, l, a);
      }
    }
  }

  // ---- the references of one call ----

  /// The references passed in their turn, or those of the `borrow mut`
  /// arguments, are intact.
  ghost predicate Passed(args: seq<Expr>, index: nat, pos: Pos, m: Monitor, last: bool) {
    args == [] ||
    ((IsRefArg(args[0]) && IsMutBorrow(args[0]) == last ==> ArgOf(args[0], index, pos) in m.passed) &&
     Passed(args[1..], index + 1, pos, m, last))
  }

  predicate IsTurnRef(e: Expr) { IsRefArg(e) && !IsMutBorrow(e) }

  /// No `borrow mut` argument overlaps `p`.
  ghost predicate Apart(args: seq<Expr>, p: Place) {
    args == [] || ((IsMutBorrow(args[0]) ==> !Conflict(args[0].pe.place, p)) && Apart(args[1..], p))
  }

  /// What protects a reference passed in its turn while `all`'s reservations activate.
  ghost predicate Kept(e: Expr, all: seq<Expr>, st: State)
    requires IsTurnRef(e)
  {
    if e.Lend? then Apart(all, e.pe.place) else Loan(e.pe.place, Temporary, false, SharedLoan, e.pos) in st.loans
  }

  ghost predicate AllKept(args: seq<Expr>, all: seq<Expr>, st: State) {
    args == [] || ((IsTurnRef(args[0]) ==> Kept(args[0], all, st)) && AllKept(args[1..], all, st))
  }

  lemma {:induction false} ApartFromReserved(args: seq<Expr>, index: nat, pos: Pos, st: State, p: Place, at: Pos)
    requires Reservations(args, index, pos, st) && AccessPlace(p, at, BorrowMut, st, {}).errs == {}
    ensures Apart(args, p)
  {
    if args != [] {
      if IsMutBorrow(args[0]) {
        var l := Loan(args[0].pe.place, TwoPhase(pos, index), true, Reserved, pos);
        assert Clashes(BorrowMut, l) && !Exempt(BorrowMut, l, {});
        ConflictSymmetric(p, l.place);
      }
      ApartFromReserved(args[1..], index + 1, pos, st, p, at);
    }
  }

  lemma {:induction false} ApartSpares(args: seq<Expr>, index: nat, pos: Pos, a: Arg)
    requires Apart(args, a.place)
    ensures Spared(ActivateEvents(args, index, pos), a)
  {
    if args != [] {
      ApartSpares(args[1..], index + 1, pos, a);
    }
  }

  /// The loan that stands for an argument passed in its turn.
  function ArgLoan(e: Expr, index: nat, pos: Pos): Loan
    requires IsTurnRef(e)
  {
    if e.Lend? then Loan(e.pe.place, Guard(pos, index), true, MutLoan, e.pe.pos)
    else Loan(e.pe.place, Temporary, false, SharedLoan, e.pos)
  }

  lemma ArgPasses(e: Expr, index: nat, pos: Pos, all: seq<Expr>, m: Monitor, st: State)
    requires IsTurnRef(e) && InspectArg(e, index, pos, st).errs == {} && Reservations(all, 0, pos, st)
    ensures var c := InspectArg(e, index, pos, st).st;
            ArgOf(e, index, pos) in Observe(m, ArgEvent(e, index, pos, st.scopes)).passed &&
            ArgLoan(e, index, pos) in c.loans && Kept(e, all, c)
  {
    var a := ArgOf(e, index, pos);
    var ev := ArgEvent(e, index, pos, st.scopes);
    assert ev == ev[..|ev| - 1] + [Pass(a)];
    ObserveConcat(m, ev[..|ev| - 1], [Pass(a)]);
    assert Observe(Observe(m, ev[..|ev| - 1]), [Pass(a)]) == Step(Observe(m, ev[..|ev| - 1]), Pass(a));
    if e.Lend? {
      ApartFromReserved(all, 0, pos, st, e.pe.place, e.pe.pos);
    }
  }

  /// The arguments in their turn: all references among them are intact at the end.
  lemma {:induction false} ArgsPass(cx: Context, args: seq<Expr>, index: nat, pos: Pos, all: seq<Expr>, m: Monitor, st: State)
    requires InspectArgs(args, index, pos, st).errs == {} && AllTame(cx, args, st.scopes)
    requires Reservations(all, 0, pos, st) && pos !in ArgCallPositions(args)
    ensures var c := InspectArgs(args, index, pos, st).st;
            Passed(args, index, pos, Observe(m, ArgEvents(args, index, pos, st.scopes)), false) && AllKept(args, all, c)
    decreases args, 0
  {
    if args != [] {
      var c := InspectArg(args[0], index, pos, st).st;
      var ev, rest := ArgEvent(args[0], index, pos, st.scopes), ArgEvents(args[1..], index + 1, pos, st.scopes);
      ArgFrame(args[0], index, pos, st);
      ReservationsKept(all, 0, pos, args[0], index, st);
      ArgsPass(cx, args[1..], index + 1, pos, all, Observe(m, ev), c);
      ObserveConcat(m, ev, rest);
      if IsTurnRef(args[0]) {
        var a, l := ArgOf(args[0], index, pos), ArgLoan(args[0], index, pos);
        ArgPasses(args[0], index, pos, all, m, st);
        assert Outer(cx, l, a, c, ArgCallPositions(args[1..]));
        ArgsSpare(cx, args[1..], index + 1, pos, c, l, a);
        SparedStays(Observe(m, ev), rest, a);
        ArgsKeep(args[1..], index + 1, pos, c, l);
      }
    }
  }

  /// They stay intact while the `borrow mut` arguments are made.
  lemma {:induction false} TurnRefsStay(args: seq<Expr>, index: nat, pos: Pos, all: seq<Expr>, m: Monitor, st: State, released: State)
    requires Passed(args, index, pos, m, false) && AllKept(args, all, st)
    requires forall l :: l in st.loans && l.holder == Temporary ==> l in released.loans
    requires Reservations(all, 0, pos, released) && ActivateArgs(all, 0, pos, released).errs == {}
    ensures Passed(args, index, pos, Observe(m, ActivateEvents(all, 0, pos)), false)
  {
    if args != [] {
      if IsTurnRef(args[0]) {
        var a := ArgOf(args[0], index, pos);
        if args[0].Lend? {
          ApartSpares(all, 0, pos, a);
        } else {
          ActivateSpares(all, 0, pos, released, ArgLoan(args[0], index, pos), a);
        }
        SparedStays(m, ActivateEvents(all, 0, pos), a);
      }
      TurnRefsStay(args[1..], index + 1, pos, all, m, st, released);
    }
  }

  /// And so are the `borrow mut` arguments themselves.
  lemma {:induction false} ActivatedPass(args: seq<Expr>, index: nat, pos: Pos, m: Monitor, st: State)
    requires ActivateArgs(args, index, pos, st).errs == {} && Reservations(args, index, pos, st)
    ensures Passed(args, index, pos, Observe(m, ActivateEvents(args, index, pos)), true)
  {
    if args != [] {
      var rest := ActivateEvents(args[1..], index + 1, pos);
      if IsMutBorrow(args[0]) {
        var p, holder, a := args[0].pe.place, TwoPhase(pos, index), Arg(pos, index, args[0].pe.place, true);
        var c := Activate(holder, pos, st).st;
        var head := [Touch(p, BorrowMut)] + [Pass(a)];
        var l := Loan(p, holder, true, Reserved, pos);
        assert ActivateLoan(holder, pos, l) in c.loans && Backs(ActivateLoan(holder, pos, l), a);
        ReservationsAfterActivation(args[1..], index + 1, pos, index, st);
        ActivateSpares(args[1..], index + 1, pos, c, ActivateLoan(holder, pos, l), a);
        ObserveConcat(m, head, rest);
        ObserveConcat(m, [Touch(p, BorrowMut)], [Pass(a)]);
        assert Observe(Observe(m, [Touch(p, BorrowMut)]), [Pass(a)]) == Step(Observe(m, [Touch(p, BorrowMut)]), Pass(a));
        assert a in Observe(m, head).passed;
        SparedStays(Observe(m, head), rest, a);
        ActivatedPass(args[1..], index + 1, pos, Observe(m, head), c);
      } else {
        assert [] + rest == rest;
        ActivatedPass(args[1..], index + 1, pos, m, st);
      }
    }
  }

  lemma {:induction false} AllPassed(args: seq<Expr>, index: nat, pos: Pos, m: Monitor)
    requires Passed(args, index, pos, m, false) && Passed(args, index, pos, m, true)
    ensures RefArgs(args, index, pos) <= m.passed
  {
    if args != [] {
      AllPassed(args[1..], index + 1, pos, m);
    }
  }

  lemma LentState(pos: Pos, pe: PlaceExpr, st: State)
    requires forall l :: l in st.loans ==> l.holder != Guard(pos, 0)
    ensures var c := InspectArg(Lend(pe), 0, pos, st).st; KillHolder(Guard(pos, 0), c) == st
  {
    var c := InspectArg(Lend(pe), 0, pos, st).st;
    assert KillHolder(Guard(pos, 0), c).loans == st.loans;
  }

  /// Lending a reference to a call moves nothing and leaves no loan, so a call
  /// that is accepted once is accepted again.
  lemma LendingLeavesNoTrace(pos: Pos, pe: PlaceExpr, st: State)
    requires forall l :: l in st.loans ==> l.holder != Guard(pos, 0)
    ensures var c := Inspect(Call(pos, [Lend(pe)]), Move, st);
            c.st == st && (c.errs == {} <==> AccessPlace(pe.place, pe.pos, Read, st, {}).errs == {} &&
                                             AccessPlace(pe.place, pe.pos, BorrowMut, st, {}).errs == {})
  {
    var args, none: seq<Expr> := [Lend(pe)], [];
    assert args[1..] == none;
    var c := InspectArg(args[0], 0, pos, st);
    hide AccessPlace;
    assert ReserveArgs(args, 0, pos, st) == ReserveArgs(none, 1, pos, st) == Checked(st, {});
    assert InspectArgs(none, 1, pos, c.st) == Checked(c.st, {});
    assert InspectArgs(args, 0, pos, st) == c by { assert c.errs + {} == c.errs; }
    LentState(pos, pe, st);
    assert ReleaseArgs(args, 0, pos, c.st) == ReleaseArgs(none, 1, pos, KillHolder(Guard(pos, 0), c.st)) == st;
    assert ActivateArgs(args, 0, pos, st) == ActivateArgs(none, 1, pos, st) == Checked(st, {});
    assert KillArgs(args, 0, pos, st) == KillArgs(none, 1, pos, st) == st;
  }

  /// When an accepted call is made, every reference among its arguments is intact.
  lemma ArgumentsAreIntact(cx: Context, pos: Pos, args: seq<Expr>, m: Monitor, st: State)
    requires Inspect(Call(pos, args), Move, st).errs == {} && Tame(cx, Call(pos, args), st.scopes)
    ensures RefArgs(args, 0, pos) <=
              Observe(m, ReserveEvents(args) + ArgEvents(args, 0, pos, st.scopes) + ActivateEvents(args, 0, pos)).passed
  {
    var ev1, ev2, ev3 := ReserveEvents(args), ArgEvents(args, 0, pos, st.scopes), ActivateEvents(args, 0, pos);
    var reserved := ReserveArgs(args, 0, pos, st).st;
    ReserveFrame(args, 0, pos, st);
    ReservationsMade(args, 0, pos, st);
    ArgsPass(cx, args, 0, pos, args, Observe(m, ev1), reserved);
    ReservationsStand(args, 0, pos, args, 0, reserved);
    var inspected := InspectArgs(args, 0, pos, reserved).st;
    ReleaseFrame(args, 0, pos, inspected);
    var released := ReleaseArgs(args, 0, pos, inspected);
    ReservationsFrame(args, 0, pos, inspected, released);
    ObserveConcat(m, ev1, ev2);
    ObserveConcat(m, ev1 + ev2, ev3);
    var m2 := Observe(m, ev1 + ev2);
    TurnRefsStay(args, 0, pos, args, m2, inspected, released);
    ActivatedPass(args, 0, pos, m2, released);
    AllPassed(args, 0, pos, Observe(m2, ev3));
  }
}
