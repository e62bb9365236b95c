/// Expressions that are always accepted where their places are there: reads, Copy
/// uses, shared borrows, and calls that lend out what nobody else borrows.

module MildExpressions {
  import opened Places
  import opened BorrowSyntax
  import opened BorrowState
  import opened BorrowCheck
  import opened BorrowOperations

  // ---- sharing what is read, owning what is written ----

  /// `shared` places are read and borrowed, `own` places are read and written, and
  /// `lent` places are left alone, since a variable holds a mutable borrow of each.
  /// All of them belong to `names`.
  datatype Plan = Plan(shared: set<Place>, own: set<Place>, lent: map<Place, Var>, names: set<Var>)

  ghost predicate Separate(plan: Plan) {
    && (forall p, q :: p in plan.shared && q in plan.own + plan.lent.Keys ==> Disjoint(p, q) && Disjoint(q, p))
    && (forall p :: p in plan.shared + plan.own + plan.lent.Keys ==> Root(p) in plan.names)
  }

  /// Reads and shared borrows; what is used by value is Copy.
  predicate Mild(plan: Plan, e: Expr, scopes: Scopes)
    decreases e, 1
  {
    match e
    case Literal => true
    case Use(pe) => pe.place in plan.shared + plan.own && IsCopyType(TypeOfPlace(pe.place, scopes))
    case Deref(pe) => pe.place in plan.shared + plan.own
    case Lend(_) => false
    case Unary(x) => Mild(plan, x, scopes)
    case Binary(l, r) => Mild(plan, l, scopes) && Mild(plan, r, scopes)
    case Borrow(mut, pe, _) => !mut && pe.place in plan.shared && LookupVar(Root(pe.place), scopes).Some?
    case Call(_, args) => AllMild(plan, args, scopes)
  }

  predicate AllMild(plan: Plan, es: seq<Expr>, scopes: Scopes)
    decreases es, 0
  {
    es == [] || (Mild(plan, es[0], scopes) && AllMild(plan, es[1..], scopes))
  }

  /// A call that mutably borrows places that are written, no two of which overlap;
  /// its other arguments are mild, and may read what is borrowed.
  predicate Lends(plan: Plan, e: Expr, scopes: Scopes) {
    && e.Call?
    && (forall a :: a in e.args ==> if IsMutBorrow(a) then a.pe.place in plan.own else Mild(plan, a, scopes))
    && (forall i, j :: 0 <= i < |e.args| && 0 <= j < |e.args| && i != j && IsMutBorrow(e.args[i]) && IsMutBorrow(e.args[j]) ==>
          Disjoint(e.args[i].pe.place, e.args[j].pe.place))
  }

  predicate Fair(plan: Plan, e: Expr, scopes: Scopes) { Mild(plan, e, scopes) || Lends(plan, e, scopes) }

  predicate OptFair(plan: Plan, e: Option<Expr>, scopes: Scopes) { e.Some? ==> Fair(plan, e.value, scopes) }

  // ---- states that allow it ----

  /// Everything in the plan is there, and no loan in force overlaps it.
  ghost predicate Open(plan: Plan, st: State) {
    forall p :: p in plan.shared + plan.own ==>
      !Gone(p, st) && forall l :: l in st.loans && !Disjoint(p, l.place) ==> !InForce(l)
  }

  /// Nobody borrows what is written.
  ghost predicate Unlent(plan: Plan, loans: set<Loan>) {
    forall p, l :: p in plan.own && l in loans ==> Disjoint(p, l.place)
  }

  /// What is lent is there, and only the variable it is lent to holds loans of it.
  ghost predicate Kept(plan: Plan, st: State) {
    forall p :: p in plan.lent ==> !Gone(p, st) && forall l :: l in st.loans && !Disjoint(p, l.place) ==> l.holder == Stored([plan.lent[p]])
  }

  // ---- expressions ----

  /// The loans of the shared borrows in an expression.
  function Temps(e: Expr): set<Loan>
    decreases e, 1
  {
    match e
    case Borrow(mut, pe, pos) => if mut then {} else {Loan(pe.place, Temporary, false, SharedLoan, pos)}
    case Unary(x) => Temps(x)
    case Binary(l, r) => Temps(l) + Temps(r)
    case Call(_, args) => AllTemps(args)
    case _ => {}
  }

  function AllTemps(es: seq<Expr>): set<Loan>
    decreases es, 0
  {
    if es == [] then {} else Temps(es[0]) + AllTemps(es[1..])
  }

  function WithLoans(st: State, loans: set<Loan>): State { st.(loans := st.loans + loans) }

  lemma {:induction false} TempsShared(plan: Plan, e: Expr, scopes: Scopes)
    requires Mild(plan, e, scopes)
    ensures forall l :: l in Temps(e) ==> l.place in plan.shared && l == Loan(l.place, Temporary, false, SharedLoan, l.pos)
    decreases e, 1
  {
    match e
    case Unary(x) => TempsShared(plan, x, scopes);
    case Binary(l, r) =>
      TempsShared(plan, l, scopes);
      TempsShared(plan, r, scopes);
    case Call(_, args) => AllTempsShared(plan, args, scopes);
    case _ =>
  }

  lemma {:induction false} AllTempsShared(plan: Plan, es: seq<Expr>, scopes: Scopes)
    requires AllMild(plan, es, scopes)
    ensures forall l :: l in AllTemps(es) ==> l.place in plan.shared && l == Loan(l.place, Temporary, false, SharedLoan, l.pos)
    decreases es, 0
  {
    if es != [] {
      TempsShared(plan, es[0], scopes);
      AllTempsShared(plan, es[1..], scopes);
    }
  }

  lemma OpenWith(plan: Plan, st: State, loans: set<Loan>)
    requires Open(plan, st) && forall l :: l in loans ==> !InForce(l)
    ensures Open(plan, WithLoans(st, loans))
  {
    hide Disjoint, InForce;
    assert forall p :: Gone(p, WithLoans(st, loans)) ==> Gone(p, st);
  }

  lemma OpenAccess(plan: Plan, p: Place, pos: Pos, st: State)
    requires Open(plan, st) && p in plan.shared + plan.own
    ensures AccessPlace(p, pos, Read, st, {}) == Checked(st, {})
    ensures IsCopyType(TypeOfPlace(p, st.scopes)) ==> AccessPlace(p, pos, Move, st, {}) == Checked(st, {})
    ensures forall holder, via :: BeginBorrow(p, holder, false, pos, st, via) == Checked(WithLoans(st, {Loan(p, holder, false, SharedLoan, pos)}), {})
    ensures forall holder :: Reserve(p, holder, pos, st) == Checked(WithLoans(st, {Loan(p, holder, true, Reserved, pos)}), Reserve(p, holder, pos, st).errs)
  {
    ReadsAccepted(p, pos, st, {});
    if IsCopyType(TypeOfPlace(p, st.scopes)) { CopiesAccepted(p, pos, st, {}); }
    forall holder, via ensures BeginBorrow(p, holder, false, pos, st, via) == Checked(WithLoans(st, {Loan(p, holder, false, SharedLoan, pos)}), {}) {
      SharedBorrowsAccepted(p, holder, pos, st, via);
      hide BeginBorrow, AccessPlace, Gone, Disjoint;
    }
    forall holder ensures Reserve(p, holder, pos, st).st == WithLoans(st, {Loan(p, holder, true, Reserved, pos)}) {
      ReservationsAccepted(p, holder, pos, st);
      hide Reserve, AccessPlace, Gone, Disjoint;
    }
    hide AccessPlace, BeginBorrow, Reserve, Gone, Disjoint, IsCopyType, TypeOfPlace;
  }

  /// Mild expressions are accepted, and leave their shared loans and no other trace.
  lemma {:induction false} MildAccepted(plan: Plan, e: Expr, st: State)
    requires Open(plan, st) && Mild(plan, e, st.scopes)
    ensures Inspect(e, Move, st) == Checked(WithLoans(st, Temps(e)), {})
    decreases e, 1
  {
    hide Open, AccessPlace, BeginBorrow, Reserve, TypeOfPlace, IsCopyType, LookupVar;
    assert WithLoans(st, {}) == st;
    match e
    case Literal =>
    case Use(pe) => OpenAccess(plan, pe.place, pe.pos, st);
    case Deref(pe) => OpenAccess(plan, pe.place, pe.pos, st);
    case Unary(x) => MildAccepted(plan, x, st);
    case Binary(l, r) =>
      MildAccepted(plan, l, st);
      TempsShared(plan, l, st.scopes);
      OpenWith(plan, st, Temps(l));
      MildAccepted(plan, r, WithLoans(st, Temps(l)));
      assert WithLoans(WithLoans(st, Temps(l)), Temps(r)) == WithLoans(st, Temps(e));
    case Borrow(_, pe, pos) => OpenAccess(plan, pe.place, pos, st);
    case Call(pos, args) => CallAccepted(plan, pos, args, st);
  }

  lemma {:induction false} CallAccepted(plan: Plan, pos: Pos, args: seq<Expr>, st: State)
    requires Open(plan, st) && AllMild(plan, args, st.scopes)
    ensures Inspect(Call(pos, args), Move, st) == Checked(WithLoans(st, AllTemps(args)), {})
    decreases args, 1
  {
    hide Open, WithLoans;
    ArgsAccepted(plan, args, 0, pos, st);
    NothingReserved(plan, args, 0, pos, st.scopes, st);
    NothingReserved(plan, args, 0, pos, st.scopes, WithLoans(st, AllTemps(args)));
  }

  /// Mild arguments need no reservation and no guard.
  lemma {:induction false} NothingReserved(plan: Plan, args: seq<Expr>, index: nat, pos: Pos, scopes: Scopes, st: State)
    requires AllMild(plan, args, scopes)
    ensures ReserveArgs(args, index, pos, st) == Checked(st, {}) && ReleaseArgs(args, index, pos, st) == st
    ensures ActivateArgs(args, index, pos, st) == Checked(st, {}) && KillArgs(args, index, pos, st) == st
    decreases args
  {
    if args != [] { NothingReserved(plan, args[1..], index + 1, pos, scopes, st); }
  }

  lemma {:induction false} ArgsAccepted(plan: Plan, args: seq<Expr>, index: nat, pos: Pos, st: State)
    requires Open(plan, st) && AllMild(plan, args, st.scopes)
    ensures InspectArgs(args, index, pos, st) == Checked(WithLoans(st, AllTemps(args)), {})
    decreases args, 0
  {
    hide Open, Inspect;
    if args == [] {
      assert st.loans + {} == st.loans;
    } else {
      var e := args[0];
      MildAccepted(plan, e, st);
      TempsShared(plan, e, st.scopes);
      OpenWith(plan, st, Temps(e));
      ArgsAccepted(plan, args[1..], index + 1, pos, WithLoans(st, Temps(e)));
      assert WithLoans(WithLoans(st, Temps(e)), AllTemps(args[1..])) == WithLoans(st, AllTemps(args));
    }
  }

  // ---- calls that lend ----

  predicate LendsEach(plan: Plan, args: seq<Expr>, scopes: Scopes) {
    forall a :: a in args ==> if IsMutBorrow(a) then a.pe.place in plan.own else Mild(plan, a, scopes)
  }

  /// Loans of the arguments from `from` on, one for each at most.
  ghost predicate Phases(args: seq<Expr>, from: nat, to: nat, pos: Pos, loans: set<Loan>) {
    && (forall l :: l in loans ==>
          && l.holder.TwoPhase? && l.holder.pos == pos && from <= l.holder.index < to && l.holder.index < |args|
          && IsMutBorrow(args[l.holder.index]) && l.place == args[l.holder.index].pe.place)
    && (forall l, o :: l in loans && o in loans && l.holder == o.holder ==> l == o)
  }

  ghost predicate AllReserved(loans: set<Loan>) { forall l :: l in loans ==> l.kind == Reserved }

  /// The reservations are accepted: nobody borrows what is lent.
  lemma {:induction false} PhaseOne(plan: Plan, args: seq<Expr>, i: nat, pos: Pos, st: State, loans: set<Loan>) returns (all: set<Loan>)
    requires LendsEach(plan, args, st.scopes) && Open(plan, st) && Unlent(plan, st.loans)
    requires i <= |args| && Phases(args, 0, i, pos, loans) && AllReserved(loans)
    ensures ReserveArgs(args[i..], i, pos, WithLoans(st, loans)) == Checked(WithLoans(st, all), {})
    ensures Phases(args, 0, |args|, pos, all) && AllReserved(all)
    decreases |args| - i
  {
    hide Open, Unlent, Reserve, Mild;
    all := loans;
    if i < |args| {
      var rest := args[i..];
      assert rest[0] == args[i] && rest[1..] == args[i + 1..] && args[i] in args;
      if IsMutBorrow(args[i]) {
        var loan := Loan(args[i].pe.place, TwoPhase(pos, i), true, Reserved, pos);
        ReservedClear(plan, args[i].pe.place, TwoPhase(pos, i), pos, st, loans);
        assert WithLoans(WithLoans(st, loans), {loan}) == WithLoans(st, loans + {loan});
        all := PhaseOne(plan, args, i + 1, pos, st, loans + {loan});
      } else {
        all := PhaseOne(plan, args, i + 1, pos, st, loans);
      }
    }
  }

  lemma ReservedClear(plan: Plan, p: Place, holder: Holder, pos: Pos, st: State, loans: set<Loan>)
    requires Open(plan, st) && Unlent(plan, st.loans) && p in plan.own && AllReserved(loans)
    ensures Reserve(p, holder, pos, WithLoans(st, loans)) == Checked(WithLoans(WithLoans(st, loans), {Loan(p, holder, true, Reserved, pos)}), {})
  {
    ReservationsAccepted(p, holder, pos, WithLoans(st, loans));
    hide Reserve, Disjoint;
    assert Gone(p, WithLoans(st, loans)) ==> Gone(p, st);
    assert p in plan.shared + plan.own;
  }

  /// The other arguments are accepted while the reservations stand.
  lemma {:induction false} PhaseTwo(plan: Plan, args: seq<Expr>, index: nat, pos: Pos, st: State)
    requires LendsEach(plan, args, st.scopes) && Open(plan, st)
    ensures InspectArgs(args, index, pos, st) == Checked(WithLoans(st, AllTemps(args)), {})
    ensures forall l :: l in AllTemps(args) ==> l.place in plan.shared && l == Loan(l.place, Temporary, false, SharedLoan, l.pos)
    ensures ReleaseArgs(args, index, pos, WithLoans(st, AllTemps(args))) == WithLoans(st, AllTemps(args))
    decreases args
  {
    hide Open, Inspect;
    if args == [] {
      assert st.loans + {} == st.loans;
    } else {
      var e := args[0];
      assert e in args && forall a :: a in args[1..] ==> a in args;
      if !IsMutBorrow(e) {
        MildAccepted(plan, e, st);
        TempsShared(plan, e, st.scopes);
      }
      OpenWith(plan, st, Temps(e));
      PhaseTwo(plan, args[1..], index + 1, pos, WithLoans(st, Temps(e)));
      assert WithLoans(WithLoans(st, Temps(e)), AllTemps(args[1..])) == WithLoans(st, AllTemps(args));
      assert st.loans + {} == st.loans && WithLoans(st, {}) == st;
    }
  }

  ghost predicate Parted(args: seq<Expr>) {
    forall i, j :: 0 <= i < |args| && 0 <= j < |args| && i != j && IsMutBorrow(args[i]) && IsMutBorrow(args[j]) ==>
      Disjoint(args[i].pe.place, args[j].pe.place)
  }

  /// The activations are accepted: no other loan overlaps what is lent.
  lemma {:induction false} PhaseThree(plan: Plan, args: seq<Expr>, i: nat, pos: Pos, st: State, loans: set<Loan>) returns (all: set<Loan>)
    requires LendsEach(plan, args, st.scopes) && Parted(args) && Unlent(plan, st.loans)
    requires forall l :: l in st.loans ==> !l.holder.TwoPhase?
    requires i <= |args| && Phases(args, 0, |args|, pos, loans)
    ensures ActivateArgs(args[i..], i, pos, WithLoans(st, loans)) == Checked(WithLoans(st, all), {})
    ensures Phases(args, 0, |args|, pos, all)
    decreases |args| - i
  {
    hide Unlent, Activate, Mild, Parted, Phases;
    all := loans;
    if i < |args| {
      var rest := args[i..];
      assert rest[0] == args[i] && rest[1..] == args[i + 1..] && args[i] in args;
      if IsMutBorrow(args[i]) {
        var next := ActivatedClear(plan, args, i, pos, st, loans);
        all := PhaseThree(plan, args, i + 1, pos, st, next);
      } else {
        all := PhaseThree(plan, args, i + 1, pos, st, loans);
      }
    }
  }

  lemma ActivatedClear(plan: Plan, args: seq<Expr>, i: nat, pos: Pos, st: State, loans: set<Loan>) returns (next: set<Loan>)
    requires LendsEach(plan, args, st.scopes) && Parted(args) && Unlent(plan, st.loans)
    requires forall l :: l in st.loans ==> !l.holder.TwoPhase?
    requires i < |args| && IsMutBorrow(args[i]) && Phases(args, 0, |args|, pos, loans)
    ensures Activate(TwoPhase(pos, i), pos, WithLoans(st, loans)) == Checked(WithLoans(st, next), {})
    ensures Phases(args, 0, |args|, pos, next)
  {
    hide Disjoint, Mild;
    var h, v := TwoPhase(pos, i), WithLoans(st, loans);
    next := set l | l in loans :: ActivateLoan(h, pos, l);
    assert forall l :: l in st.loans ==> ActivateLoan(h, pos, l) == l;
    assert (set l | l in v.loans :: ActivateLoan(h, pos, l)) == st.loans + next;
    forall l, o | l in v.loans && o in v.loans && Activates(h, l) && o != l ensures Disjoint(l.place, o.place) {
      assert l in loans && args[i] in args && l.place in plan.own;
      if o in loans { assert o.holder != l.holder; }
    }
  }

  /// At its end the call gives back what it was lent.
  lemma {:induction false} PhaseFour(args: seq<Expr>, i: nat, pos: Pos, st: State, loans: set<Loan>)
    requires i <= |args| && Phases(args, i, |args|, pos, loans) && forall l :: l in st.loans ==> !l.holder.TwoPhase?
    ensures KillArgs(args[i..], i, pos, WithLoans(st, loans)) == st
    decreases |args| - i
  {
    if i == |args| {
      assert st.loans + loans == st.loans;
    } else {
      var rest := args[i..];
      assert rest[0] == args[i] && rest[1..] == args[i + 1..];
      var left := set l | l in loans && l.holder != TwoPhase(pos, i);
      assert (set l | l in st.loans + loans && l.holder != TwoPhase(pos, i)) == st.loans + left;
      PhaseFour(args, i + 1, pos, st, left);
      if !IsMutBorrow(args[i]) { assert left == loans; }
    }
  }

  /// A call that mutably borrows what nobody else borrows is accepted, and leaves
  /// none of these borrows behind. Its arguments may read what it borrows.
  lemma LendingAccepted(plan: Plan, e: Expr, st: State)
    requires Separate(plan) && Open(plan, st) && Unlent(plan, st.loans) && Lends(plan, e, st.scopes)
    requires forall l :: l in st.loans ==> !l.holder.TwoPhase?
    ensures Inspect(e, Move, st) == Checked(WithLoans(st, Temps(e)), {})
    ensures forall l :: l in Temps(e) ==> l.place in plan.shared && l == Loan(l.place, Temporary, false, SharedLoan, l.pos)
  {
    hide Open, Mild, Phases;
    var args, pos := e.args, e.pos;
    assert args[0..] == args;
    assert Phases(args, 0, 0, pos, {}) by { PhasesNone(args, pos); }
    assert WithLoans(st, {}) == st by { assert st.loans + {} == st.loans; }
    var reserved := PhaseOne(plan, args, 0, pos, st, {});
    OpenWith(plan, st, reserved);
    PhaseTwo(plan, args, 0, pos, WithLoans(st, reserved));
    var temps := AllTemps(args);
    var base := WithLoans(st, temps);
    assert WithLoans(WithLoans(st, reserved), temps) == WithLoans(base, reserved);
    assert Unlent(plan, base.loans) by { hide Disjoint; }
    assert Parted(args) by { hide Disjoint; }
    var activated := PhaseThree(plan, args, 0, pos, base, reserved);
    PhaseFour(args, 0, pos, base, activated);
    hide *;
  }

  lemma PhasesNone(args: seq<Expr>, pos: Pos)
    ensures Phases(args, 0, 0, pos, {})
  {
  }
}
