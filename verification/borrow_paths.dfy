/// What a function does on its control-flow paths, independently of the
/// checker: the accesses each path performs in order, and a monitor that says
/// which accesses use an invalidated reference or a moved value.

module Paths {
  import opened Places
  import opened BorrowSyntax
  import opened BorrowState
  import opened BorrowCheck

  datatype Event =
    | Touch(place: Place, access: Access)
    | WriteVia(place: Place)                            // a write through the reference in `place`
    | Initialize(place: Place)                          // `place` holds a fresh value
    | Bind(holder: Var, place: Place, mut: bool, pos: Pos)   // `holder` now references `place`
    | Dead(locals: set<Var>)                            // a scope ends
    | EscapeOf(holder: Var, scopes: Scopes)             // the reference in `holder` is returned
    | EscapeTo(place: Place, scopes: Scopes)            // a reference to `place` is returned
    | Pass(arg: Arg)                                    // a reference becomes an argument of a call
    | Enter(args: set<Arg>, held: set<Var>)             // the call is made with these arguments, and what `held` hold
    | Store(through: Place, value: Expr)                // what the reference in `through` refers to takes `value`
    | Exit(scopes: Scopes)                              // the function is left
    | Take(place: Place)                                // what the reference in `place` refers to is moved out

  /// A reference passed as an argument: lent, or made by `borrow` on the spot.
  datatype Arg = Arg(call: Pos, index: nat, place: Place, mut: bool)

  // ---- expressions ----

  function Events(e: Expr, access: Access, scopes: Scopes): seq<Event>
    decreases e, 1
  {
    match e
    case Literal => []
    case Use(pe) => OperandEvents(pe.operands, scopes) + [Touch(pe.place, Effective(pe.place, access, scopes))]
    case Lend(pe) => OperandEvents(pe.operands, scopes) + [Touch(pe.place, Effective(pe.place, access, scopes))]
    case Deref(pe) => OperandEvents(pe.operands, scopes) + [Touch(pe.place, Read)] + TakeEvents(pe.place, scopes)
    case Unary(x) => Events(x, access, scopes)
    case Binary(l, r) => Events(l, Move, scopes) + Events(r, Move, scopes)
    case Borrow(mut, pe, _) =>
      OperandEvents(pe.operands, scopes) + [Touch(pe.place, if mut then BorrowMut else BorrowShared)]
    case Call(pos, args) =>
      ReserveEvents(args) + ArgEvents(args, 0, pos, scopes) + ActivateEvents(args, 0, pos) +
      [Enter(RefArgs(args, 0, pos), HeldVars(args))]
  }

  /// Reading through a reference copies a value, or moves it out if it is not Copy.
  function TakeEvents(p: Place, scopes: Scopes): seq<Event> {
    if IsCopyType(Pointee(TypeOfPlace(p, scopes))) then [] else [Take(p)]
  }

  function Pointee(t: Type): Type { if t.RefTo? then t.pointee else Unknown }

  /// The index operands of a place, left to right.
  function OperandEvents(es: seq<Expr>, scopes: Scopes): seq<Event>
    decreases es, 0
  {
    if es == [] then [] else Events(es[0], Move, scopes) + OperandEvents(es[1..], scopes)
  }

  /// The places of the `borrow mut` arguments are settled first.
  function ReserveEvents(args: seq<Expr>): seq<Event> {
    if args == [] then []
    else (if IsMutBorrow(args[0]) then [Touch(args[0].pe.place, TwoPhaseReserve)] else []) + ReserveEvents(args[1..])
  }

  /// The arguments in their turn.
  function ArgEvents(args: seq<Expr>, index: nat, pos: Pos, scopes: Scopes): seq<Event>
    decreases args, 0
  {
    if args == [] then [] else ArgEvent(args[0], index, pos, scopes) + ArgEvents(args[1..], index + 1, pos, scopes)
  }

  /// Of a `borrow mut` argument only the index operands are evaluated in its turn.
  function ArgEvent(e: Expr, index: nat, pos: Pos, scopes: Scopes): seq<Event>
    decreases e, 2
  {
    match e
    case Borrow(mut, pe, _) =>
      if mut then OperandEvents(pe.operands, scopes)
      else Events(e, Move, scopes) + [Pass(Arg(pos, index, pe.place, false))]
    case Lend(pe) =>
      OperandEvents(pe.operands, scopes) + [Touch(pe.place, BorrowMut)] + [Pass(Arg(pos, index, pe.place, true))]
    case _ => Events(e, Move, scopes)
  }

  /// The `borrow mut` arguments are made last.
  function ActivateEvents(args: seq<Expr>, index: nat, pos: Pos): seq<Event> {
    if args == [] then []
    else (if IsMutBorrow(args[0])
          then [Touch(args[0].pe.place, BorrowMut)] + [Pass(Arg(pos, index, args[0].pe.place, true))] else []) +
         ActivateEvents(args[1..], index + 1, pos)
  }

  predicate IsRefArg(e: Expr) { e.Borrow? || e.Lend? }

  function ArgOf(e: Expr, index: nat, pos: Pos): Arg
    requires IsRefArg(e)
  {
    Arg(pos, index, e.pe.place, e.Lend? || e.mut)
  }

  function RefArgs(args: seq<Expr>, index: nat, pos: Pos): set<Arg> {
    if args == [] then {}
    else (if IsRefArg(args[0]) then {ArgOf(args[0], index, pos)} else {}) + RefArgs(args[1..], index + 1, pos)
  }

  /// The variables whose references are passed by value.
  function HeldVars(args: seq<Expr>): set<Var> {
    if args == [] then {} else HeldBy(args[0]) + HeldVars(args[1..])
  }

  function HeldBy(e: Expr): set<Var> {
    match e
    case Use(pe) => {Root(pe.place)}
    case Unary(x) => HeldBy(x)
    case _ => {}
  }

  function OptEvents(e: Option<Expr>, scopes: Scopes): seq<Event> {
    match e case None => [] case Some(x) => Events(x, Move, scopes)
  }

  /// The binding a definition of `v` from `e` makes, if its type holds references.
  function BindEvents(v: Var, refTyped: bool, e: Expr): seq<Event> {
    if refTyped && e.Borrow? then [Bind(v, e.pe.place, e.mut, e.pos)] else []
  }

  function LetEvents(key: Var, ty: Type, init: Option<Expr>, scopes: Scopes): seq<Event> {
    OptEvents(init, scopes) + [Initialize([key])] +
    (if init.Some? then BindEvents(key, ContainsReference(ty), init.value) else [])
  }

  function AssignEvents(compound: bool, t: Target, value: Expr, scopes: Scopes): seq<Event> {
    var p := t.pe.place;
    var operands := OperandEvents(t.pe.operands, scopes);
    var rhs := Events(value, Move, scopes);
    if t.Through? then
      operands + (if compound then [Touch(p, Read)] else []) + rhs + [WriteVia(p)] + StoreEvents(p, value, scopes)
    else
      operands +
      (if compound then [Touch(p, TwoPhaseReserve)] + rhs + [Touch(p, BorrowMut)] else rhs) +
      [Touch(p, Write), Initialize(p)] +
      BindEvents(Root(p), ContainsReference(TypeOfPlace(p, scopes)), value)
  }

  /// Does assigning `value` through the reference `p` store a reference?
  predicate StoresReference(p: Place, value: Expr, scopes: Scopes) {
    BearsReference(value, scopes) || ContainsReference(Pointee(TypeOfPlace(p, scopes)))
  }

  /// Is the value of `e` a reference, or does it hold one?
  predicate BearsReference(e: Expr, scopes: Scopes) {
    match e
    case Borrow(_, _, _) => true
    case Use(pe) => ContainsReference(TypeOfPlace(pe.place, scopes))
    case Lend(pe) => ContainsReference(TypeOfPlace(pe.place, scopes))
    case Deref(pe) => ContainsReference(Pointee(TypeOfPlace(pe.place, scopes)))
    case Unary(x) => BearsReference(x, scopes)
    case _ => false
  }

  function StoreEvents(p: Place, value: Expr, scopes: Scopes): seq<Event> {
    if StoresReference(p, value, scopes) then [Store(p, value)] else []
  }

  /// What a returned expression refers to: the borrowed place, or what the
  /// variable refers to that the value is read from.
  function EscapeEvents(e: Expr, scopes: Scopes): seq<Event> {
    if !BearsReference(e, scopes) then []
    else match e
      case Borrow(_, pe, _) => [EscapeTo(pe.place, scopes)]
      case Use(pe) => [EscapeOf(Root(pe.place), scopes)]
      case Lend(pe) => [EscapeOf(Root(pe.place), scopes)]
      case Deref(pe) => [EscapeOf(Root(pe.place), scopes)]
      case Unary(x) => EscapeEvents(x, scopes)
      case _ => []
  }

  // ---- statements ----

  datatype Outcome = Normal | Broke | Continued | Returned | Cut

  /// `scopes` are the scopes at the exit point, `rest` the decisions left.
  datatype Result = Result(events: seq<Event>, out: Outcome, scopes: Scopes, rest: seq<bool>)

  /// The path through `s` that takes the given branch decisions: one decision
  /// per evaluated condition, loop head and `loop` iteration. A path whose
  /// decisions run out is cut there, so every finite prefix of every path,
  /// diverging ones included, is reached by some decisions.
  function Run(s: Stmt, scopes: Scopes, ch: seq<bool>): (r: Result)
    ensures |r.rest| <= |ch|
    decreases |ch|, s, 1
  {
    match s
    case Let(_, key, ty, init) =>
      Result(LetEvents(key, ty, init, scopes), Normal, if scopes == [] then scopes else Declare(key, ty, scopes), ch)
    case Assign(_, compound, t, value, _) => Result(AssignEvents(compound, t, value, scopes), Normal, scopes, ch)
    case ExprStmt(_, e) => Result(Events(e, Move, scopes), Normal, scopes, ch)
    case Return(_, e, _, _) =>
      Result((if e.Some? then EscapeEvents(e.value, scopes) else []) + OptEvents(e, scopes) + [Exit(scopes)],
             Returned, scopes, ch)
    case Break(_) => Result([], Broke, scopes, ch)
    case Continue(_) => Result([], Continued, scopes, ch)
    case Block(_, body) => RunBlock(body, scopes, ch)
    case If(_, cond, thn, els) =>
      var c := Events(cond, Move, scopes);
      if ch == [] then Result(c, Cut, scopes, ch)
      else After(c, RunBlock(if ch[0] then thn else els, scopes, ch[1..]))
    case For(_, _, _, begin, end, _, _) =>
      After(Events(begin, Move, scopes) + Events(end, Move, scopes), RunLoop(s, scopes, ch))
    case _ => RunLoop(s, scopes, ch)
  }

  function After(events: seq<Event>, r: Result): Result { r.(events := events + r.events) }

  /// A block in its own scope; leaving it ends what it declared so far.
  function RunBlock(body: seq<Stmt>, scopes: Scopes, ch: seq<bool>): (r: Result)
    ensures |r.rest| <= |ch|
    decreases |ch|, body, 3
  {
    CloseScope(RunSeq(body, scopes + [map[]], ch), scopes)
  }

  /// The scope of a block (or of a `for` variable) around a run ends, unless
  /// the run returned, which ends the whole frame, or was cut.
  function CloseScope(r: Result, outer: Scopes): Result {
    if r.scopes == [] || r.out == Returned || r.out == Cut then r.(scopes := outer)
    else Result(r.events + [Dead(r.scopes[|r.scopes| - 1].Keys)], r.out, outer, r.rest)
  }

  function RunSeq(ss: seq<Stmt>, scopes: Scopes, ch: seq<bool>): (r: Result)
    ensures |r.rest| <= |ch|
    decreases |ch|, ss, 2
  {
    if ss == [] then Result([], Normal, scopes, ch)
    else
      var first := Run(ss[0], scopes, ch);
      if first.out != Normal then first
      else After(first.events, RunSeq(ss[1..], first.scopes, first.rest))
  }

  function LoopCondEvents(s: Stmt, scopes: Scopes): seq<Event> {
    if s.While? then Events(s.cond, Move, scopes) else []
  }

  function RunLoopBody(s: Stmt, scopes: Scopes, ch: seq<bool>): (r: Result)
    requires Liveness.IsLoop(s)
    ensures |r.rest| <= |ch|
    decreases |ch|, s, 0
  {
    if s.For? then CloseScope(After([Initialize([s.key])], RunBlock(s.body, scopes + [map[s.key := s.ty]], ch)), scopes)
    else RunBlock(s.body, scopes, ch)
  }

  /// From the head of a loop on.
  function RunLoop(s: Stmt, scopes: Scopes, ch: seq<bool>): (r: Result)
    requires Liveness.IsLoop(s)
    ensures |r.rest| <= |ch|
    decreases |ch|, s, 0
  {
    var c := LoopCondEvents(s, scopes);
    if ch == [] then Result(c, Cut, scopes, ch)
    else if !ch[0] && !s.Loop? then Result(c, Normal, scopes, ch[1..])
    else
      var b := RunLoopBody(s, scopes, ch[1..]);
      if b.out == Broke then Result(c + b.events, Normal, scopes, b.rest)
      else if b.out == Normal || b.out == Continued then After(c + b.events, RunLoop(s, scopes, b.rest))
      else After(c, b)
  }

  /// A run that reaches the end of the function leaves it there.
  function LeaveEvents(r: Result): seq<Event> { r.events + if r.out == Normal then [Exit(r.scopes)] else [] }

  function FunctionEvents(f: Function, ch: seq<bool>): seq<Event> {
    LeaveEvents(RunBlock(f.body, [f.params], ch))
  }

  // ---- the monitor ----

  datatype Binding = Binding(holder: Var, place: Place, mut: bool, pos: Pos)

  /// `active`: references bound and intact. `broken`: references whose place
  /// was accessed against them. `moved`: places moved and not reinitialized.
  /// `passed`: arguments of calls not made yet, intact so far. `lodged`:
  /// references stored behind the references that are their holders.
  datatype Monitor = Monitor(active: set<Binding>, broken: set<Binding>, moved: set<Place>, passed: set<Arg>, lodged: set<Binding>)

  /// May a place be accessed like this while a reference to it is in use?
  predicate Forbidden(access: Access, mut: bool) {
    match access
    case Read => mut
    case BorrowShared => mut
    case TwoPhaseReserve => mut
    case _ => true
  }

  /// Does `e` access the place `q` against a reference to it?
  predicate Strikes(e: Event, q: Place, mut: bool) {
    match e
    case Touch(p, access) => Conflict(p, q) && Forbidden(access, mut)
    case WriteVia(p) => Conflict(p, q)
    case _ => false
  }

  predicate Hits(e: Event, b: Binding) { Strikes(e, b.place, b.mut) }

  /// Does `e` use the reference held by `v`, or what is reached through it?
  predicate UsesHolder(e: Event, v: Var) {
    match e
    case Touch(p, access) => Root(p) == v && !(access == Write && p == [v])
    case WriteVia(p) => Root(p) == v
    case Enter(_, held) => v in held
    case Take(p) => Root(p) == v
    case _ => false
  }

  /// Does `e` end what `v` held before?
  predicate Rebinds(e: Event, v: Var) {
    match e
    case Initialize(p) => p == [v]
    case Dead(locals) => v in locals
    case _ => false
  }

  /// Does `e` make the moved place `q` whole again, or end it?
  predicate Restores(e: Event, q: Place) {
    match e
    case Initialize(p) => IsWithin(p, q)
    case Dead(locals) => Root(q) in locals
    case _ => false
  }

  /// Is `e` a use that needs the moved place `q`?
  predicate UsesMoved(e: Event, q: Place) {
    match e
    case Touch(p, access) => if access == Write then IsStrictChild(q, p) else Conflict(q, p)
    case WriteVia(p) => Conflict(q, p)
    case _ => false
  }

  /// Does `e` use the moved place `q` through the reference `b`?
  predicate UsesMovedThrough(e: Event, b: Binding, q: Place) {
    match e
    case Touch(p, access) =>
      b.holder == Root(p) && 1 < |p| &&
      (if access == Write then IsStrictChild(q, b.place + p[1..]) else Conflict(q, b.place + p[1..]))
    case Take(p) => b.holder == Root(p) && Conflict(q, b.place + p[1..])
    case _ => false
  }

  /// The places that `p` is, through the references of its root.
  function Referents(m: Monitor, p: Place): set<Place> {
    set b | b in m.active && b.holder == Root(p) :: b.place + p[1..]
  }

  /// Moving `p` moves it where it is: a component of a reference is a
  /// component of what that refers to.
  function MovedWith(m: Monitor, p: Place): set<Place> {
    {p} + if 1 < |p| then Referents(m, p) else {}
  }

  /// A reference to a place reached through the references `v` holds refers
  /// into what they refer to.
  function Derived(m: Monitor, v: Var, p: Place, mut: bool, pos: Pos): set<Binding> {
    set b | b in m.active && b.holder == Root(p) :: Binding(v, b.place + p[1..], mut && b.mut, pos)
  }

  /// The references that the value `e` holds, as held by `v`.
  function References(m: Monitor, v: Var, e: Expr): set<Binding> {
    match e
    case Borrow(mut, pe, pos) => {Binding(v, pe.place, mut, pos)} + Derived(m, v, pe.place, mut, pos)
    case Use(pe) => HeldRefs(m, v, Root(pe.place))
    case Lend(pe) => HeldRefs(m, v, Root(pe.place))
    case Deref(pe) => HeldRefs(m, v, Root(pe.place))
    case Unary(x) => References(m, v, x)
    case _ => {}
  }

  function HeldRefs(m: Monitor, v: Var, from: Var): set<Binding> {
    set b | b in m.active && b.holder == from :: b.(holder := v)
  }

  /// The variables that what `v` refers to belongs to; `beyond` asks for those
  /// that only lead there through a reference of their own.
  function Reached(m: Monitor, v: Var, beyond: bool): set<Var> {
    set b | b in m.active && b.holder == v && (beyond ==> 1 < |b.place|) :: Root(b.place)
  }

  /// What a store through `v` makes `v`, and what it reaches, refer to.
  function StoredRefs(m: Monitor, v: Var, e: Expr, beyond: bool): set<Binding> {
    set h, b | h in {v} + Reached(m, v, beyond) && b in References(m, v, e) :: b.(holder := h)
  }

  function Step(m: Monitor, e: Event): Monitor {
    var hit := set b | b in m.active && Hits(e, b);
    var active := set b | b in m.active && !Hits(e, b) && !Rebinds(e, b.holder);
    var broken := set b | b in m.broken + hit && !Rebinds(e, b.holder);
    var moved := set q | q in m.moved && !Restores(e, q);
    var passed := set a | a in m.passed && !Strikes(e, a.place, a.mut);
    match e
    case Touch(p, Move) => Monitor(active, broken, moved + MovedWith(m, p), passed, m.lodged)
    case Take(p) => Monitor(active, broken, moved + Referents(m, p), passed, m.lodged)
    case Bind(v, p, mut, pos) =>
      Monitor(active + {Binding(v, p, mut, pos)} + Derived(m, v, p, mut, pos), broken, moved, passed, m.lodged)
    case Pass(arg) => Monitor(active, broken, moved, passed + {arg}, m.lodged)
    case Enter(args, _) => Monitor(active, broken, moved, passed - args, m.lodged)
    case Store(p, value) =>
      Monitor(active + StoredRefs(m, Root(p), value, false), broken, moved, passed,
              m.lodged + StoredRefs(m, Root(p), value, true))
    case _ => Monitor(active, broken, moved, passed, m.lodged)
  }

  /// The reference `b` outlives what it refers to.
  predicate Dangles(e: Event, b: Binding) {
    match e
    case Dead(locals) => b.holder !in locals && Root(b.place) in locals
    case EscapeOf(v, scopes) => b.holder == v && StackOwned(b.place, scopes)
    case _ => false
  }

  /// Is `b` stored behind a reference the function was given, and its place
  /// the function's own?
  predicate Leaks(b: Binding, scopes: Scopes) {
    scopes != [] && b.holder in scopes[0] && scopes[0][b.holder].RefTo? && StackOwned(b.place, scopes)
  }

  ghost predicate Ok(m: Monitor, e: Event) {
    && (forall b :: b in m.broken ==> !UsesHolder(e, b.holder))
    && (forall b :: b in m.active + m.broken ==> !Dangles(e, b))
    && (forall q :: q in m.moved ==> !UsesMoved(e, q))
    && (forall b, q :: b in m.active && q in m.moved ==> !UsesMovedThrough(e, b, q))
    && (e.EscapeTo? ==> !StackOwned(e.place, e.scopes))
    && (e.Enter? ==> e.args <= m.passed)
    && (e.Exit? ==> forall b :: b in m.lodged ==> !Leaks(b, e.scopes))
  }

  function Observe(m: Monitor, events: seq<Event>): Monitor
    decreases events
  {
    if events == [] then m else Observe(Step(m, events[0]), events[1..])
  }

  ghost predicate Safe(m: Monitor, events: seq<Event>)
    decreases events
  {
    events == [] || (Ok(m, events[0]) && Safe(Step(m, events[0]), events[1..]))
  }

  const Start: Monitor := Monitor({}, {}, {}, {}, {})

  lemma {:induction false} ObserveConcat(m: Monitor, a: seq<Event>, b: seq<Event>)
    ensures Observe(m, a + b) == Observe(Observe(m, a), b)
    ensures Safe(m, a + b) <==> Safe(m, a) && Safe(Observe(m, a), b)
    decreases a
  {
    if a == [] {
      assert a + b == b;
    } else {
      assert (a + b)[1..] == a[1..] + b;
      ObserveConcat(Step(m, a[0]), a[1..], b);
    }
  }

  lemma {:induction false} LodgedStays(m: Monitor, events: seq<Event>)
    requires forall e :: e in events ==> !e.Store?
    ensures Observe(m, events).lodged == m.lodged
    decreases events
  {
    if events != [] {
      assert events[0] in events && forall e :: e in events[1..] ==> e in events;
      LodgedStays(Step(m, events[0]), events[1..]);
    }
  }

  /// A run that stores nothing through a reference may leave the function.
  lemma ExitIsFree(m: Monitor, events: seq<Event>, scopes: Scopes)
    requires m.lodged == {} && forall e :: e in events ==> !e.Store?
    ensures Safe(m, events + [Exit(scopes)]) <==> Safe(m, events)
  {
    LodgedStays(m, events);
    ObserveConcat(m, events, [Exit(scopes)]);
    var m' := Observe(m, events);
    assert [Exit(scopes)][1..] == [];
    assert Ok(m', Exit(scopes));
    assert Safe(Step(m', Exit(scopes)), []);
  }
}
