/// The checker's flow state and the transfer functions on it
/// (src/borrow_loans.cpp, src/borrow_places.cpp, src/borrow_flow.cpp).
///
/// The vectors of loans and origins are kept duplicate-free by the source
/// (`same_borrow`, `same_origin`), so they are sets here.

module BorrowState {
  import opened Places
  import opened BorrowSyntax

  datatype Access = Read | Move | BorrowShared | BorrowMut | Write | TwoPhaseReserve

  datatype LoanKind = SharedLoan | MutLoan | Reserved | Activated

  /// Who holds a loan: a temporary, the two-phase reservation of one argument
  /// or of a compound assignment's target, the guard of a lent argument, or a
  /// place that stores the reference.
  datatype Holder =
    | Temporary
    | TwoPhase(pos: Pos, index: nat)
    | CompoundTarget(pos: Pos)
    | Guard(pos: Pos, index: nat)
    | Stored(place: Place)

  datatype Loan = Loan(place: Place, holder: Holder, mut: bool, kind: LoanKind, pos: Pos)

  datatype Origin = Origin(place: Place, mut: bool, pos: Pos)

  datatype Code = E0400 | E0401 | E0402 | E0403 | E0404 | E0405 | E0406 | E0408

  datatype Diag = Diag(code: Code, pos: Pos)

  datatype State = State(
    moved: set<Place>,
    loans: set<Loan>,
    scopes: Scopes,
    origins: map<Place, set<Origin>>,
    reachable: bool)

  /// A state together with the diagnostics reported on the way to it.
  datatype Checked = Checked(st: State, errs: set<Diag>)

  // ---- moved places ----

  predicate Unavailable(p: Place, moved: set<Place>) {
    exists q :: q in moved && Conflict(q, p)
  }

  predicate HasMovedAncestor(p: Place, moved: set<Place>) {
    exists q :: q in moved && IsStrictChild(q, p)
  }

  function MarkInitialized(p: Place, st: State): State {
    st.(moved := set q | q in st.moved && !IsWithin(p, q))
  }

  // ---- loans ----

  predicate ActiveMut(l: Loan) { l.kind != Reserved && l.mut }

  predicate ActiveExclusive(l: Loan) { l.kind == MutLoan || l.kind == Activated }

  /// Does an access of this kind clash with an overlapping loan `l`?
  predicate Clashes(access: Access, l: Loan) {
    match access
    case Read => ActiveMut(l)
    case BorrowShared => ActiveMut(l)
    case TwoPhaseReserve => ActiveExclusive(l)
    case _ => true
  }

  /// Only borrows are exempt from the loans their own chain of holders has.
  predicate Exempt(access: Access, l: Loan, via: set<Holder>) {
    (access == BorrowShared || access == BorrowMut) && l.holder in via
  }

  function ClashCode(access: Access): Code {
    match access
    case Read => E0406
    case BorrowShared => E0401
    case TwoPhaseReserve => E0402
    case BorrowMut => E0402
    case _ => E0403
  }

  /// A move of a Copy place is a read.
  function Effective(p: Place, access: Access, scopes: Scopes): Access {
    if access == Move && IsCopyType(TypeOfPlace(p, scopes)) then Read else access
  }

  function AccessPlace(p: Place, pos: Pos, access: Access, st: State, via: set<Holder>): Checked {
    var a := Effective(p, access, st.scopes);
    if a == Write && HasMovedAncestor(p, st.moved) then Checked(st, {Diag(E0400, pos)})
    else if a != Write && Unavailable(p, st.moved) then Checked(st, {Diag(E0400, pos)})
    else
      var errs := if exists l :: l in st.loans && Conflict(p, l.place) && Clashes(a, l) && !Exempt(a, l, via)
                  then {Diag(ClashCode(a), pos)} else {};
      Checked(if a == Move then st.(moved := st.moved + {p}) else st, errs)
  }

  function BeginBorrow(p: Place, holder: Holder, mut: bool, pos: Pos, st: State, via: set<Holder>): Checked {
    var c := AccessPlace(p, pos, if mut then BorrowMut else BorrowShared, st, via);
    var loan := Loan(p, holder, mut, if mut then MutLoan else SharedLoan, pos);
    Checked(c.st.(loans := c.st.loans + {loan}), c.errs)
  }

  function Reserve(p: Place, holder: Holder, pos: Pos, st: State): Checked {
    var c := AccessPlace(p, pos, TwoPhaseReserve, st, {});
    Checked(c.st.(loans := c.st.loans + {Loan(p, holder, true, Reserved, pos)}), c.errs)
  }

  /// Is `l` a reservation made by `holder`?
  predicate Activates(holder: Holder, l: Loan) { l.holder == holder && l.kind == Reserved }

  function ActivateLoan(holder: Holder, pos: Pos, l: Loan): Loan {
    if Activates(holder, l) then l.(kind := Activated, pos := pos) else l
  }

  function Activate(holder: Holder, pos: Pos, st: State): Checked {
    var errs := if exists l, o :: l in st.loans && o in st.loans && Activates(holder, l) && o != l && Conflict(l.place, o.place)
                then {Diag(E0402, pos)} else {};
    Checked(st.(loans := set l | l in st.loans :: ActivateLoan(holder, pos, l)), errs)
  }

  function KillHolder(holder: Holder, st: State): State {
    st.(loans := set l | l in st.loans && l.holder != holder)
  }

  predicate HeldUnder(p: Place, l: Loan) { l.holder.Stored? && IsWithin(p, l.holder.place) }

  function KillHoldersUnder(p: Place, st: State): State {
    st.(loans := set l | l in st.loans && !HeldUnder(p, l))
  }

  /// Writing through the reference `p`: loans on `p` forbid it.
  function WriteThrough(p: Place, pos: Pos, st: State): Checked {
    if Unavailable(p, st.moved) then Checked(st, {Diag(E0400, pos)})
    else if exists l :: l in st.loans && Conflict(p, l.place) then Checked(st, {Diag(E0403, pos)})
    else Checked(st, {})
  }

  // ---- reference origins ----

  function SetOrigins(p: Place, origins: set<Origin>, st: State): State {
    var kept := map q | q in st.origins && !IsWithin(p, q) :: st.origins[q];
    st.(origins := if origins == {} then kept else kept[p := origins])
  }

  function RelatedOrigins(p: Place, origins: map<Place, set<Origin>>): set<Origin> {
    set q, o | q in origins && (IsWithin(p, q) || IsStrictChild(q, p)) && o in origins[q] :: o
  }

  /// `reference_origins` of a place: of the place itself, else of its base.
  function OriginsOfPlace(p: Place, origins: map<Place, set<Origin>>): set<Origin>
    decreases |p|
  {
    var related := RelatedOrigins(p, origins);
    if related != {} || |p| == 1 then related else OriginsOfPlace(p[..|p| - 1], origins)
  }

  function ReferenceOrigins(e: Expr, st: State): set<Origin> {
    match e
    case Borrow(mut, pe, pos) => {Origin(pe.place, mut, pos)}
    case Use(pe) => OriginsOfPlace(pe.place, st.origins)
    case Lend(pe) => OriginsOfPlace(pe.place, st.origins)
    case Deref(pe) => OriginsOfPlace(pe.place, st.origins)
    case Unary(x) => ReferenceOrigins(x, st)
    case _ => {}
  }

  /// Binding `dest` to a fresh borrow: the temporary loans it supersedes go,
  /// and `dest` becomes the holder.
  function BindBorrow(dest: Place, e: Expr, st: State): Checked
    requires e.Borrow?
  {
    var p := e.pe.place;
    var promoted := st.(loans := set l | l in st.loans && !(l.holder == Temporary && Conflict(l.place, p)));
    var c := BeginBorrow(p, Stored(dest), e.mut, e.pos, promoted, {Stored(dest)});
    Checked(SetOrigins(dest, {Origin(p, e.mut, e.pos)}, c.st), c.errs)
  }

  predicate StackOwned(p: Place, scopes: Scopes) {
    match OutermostVar(Root(p), scopes)
    case None => false
    case Some(t) => !(t.RefTo? && 1 < |p|)
  }

  /// Outermost binding first, as `is_stack_owned` searches.
  function OutermostVar(v: Var, scopes: Scopes): Option<Type> {
    if scopes == [] then None
    else if v in scopes[0] then Some(scopes[0][v])
    else OutermostVar(v, scopes[1..])
  }

  // ---- scopes ----

  function PushScope(st: State): State { st.(scopes := st.scopes + [map[]]) }

  function Declare(v: Var, ty: Type, scopes: Scopes): Scopes
    requires scopes != []
  {
    scopes[|scopes| - 1 := scopes[|scopes| - 1][v := ty]]
  }

  /// Leaving the innermost scope.
  function PopScope(st: State): Checked
    requires st.scopes != []
  {
    var locals := st.scopes[|st.scopes| - 1].Keys;
    var errs := set q, o | q in st.origins && o in st.origins[q] && Root(q) !in locals && Root(o.place) in locals
                :: Diag(E0405, o.pos);
    var moved := set p | p in st.moved && Root(p) !in locals;
    var loans := set l | l in st.loans && !(l.holder.Stored? && Root(l.holder.place) in locals);
    var origins := map q | q in st.origins && Root(q) !in locals :: st.origins[q];
    Checked(State(moved, loans, st.scopes[..|st.scopes| - 1], origins, st.reachable), errs)
  }

  function Truncate(st: State, depth: nat): Checked
    decreases |st.scopes|
  {
    if |st.scopes| <= depth then Checked(st, {})
    else
      var top := PopScope(st);
      var rest := Truncate(top.st, depth);
      Checked(rest.st, top.errs + rest.errs)
  }

  // ---- joins ----

  function MergeOrigins(a: map<Place, set<Origin>>, b: map<Place, set<Origin>>): map<Place, set<Origin>> {
    map q | q in a.Keys + b.Keys :: (if q in a then a[q] else {}) + (if q in b then b[q] else {})
  }

  function Merge(left: State, right: State): State {
    if !left.reachable && !right.reachable then left
    else if !left.reachable then right
    else if !right.reachable then left
    else State(left.moved + right.moved, left.loans + right.loans, left.scopes,
               MergeOrigins(left.origins, right.origins), true)
  }

  function MergeInto(acc: Option<State>, st: State): Option<State> {
    if !st.reachable then acc
    else match acc
      case None => Some(st)
      case Some(a) => Some(Merge(a, st))
  }

  function MergeAll(acc: Option<State>, states: seq<State>): Option<State> {
    if states == [] then acc else MergeInto(MergeAll(acc, states[..|states| - 1]), states[|states| - 1])
  }

  /// Sizes equal and one side contained in the other is equality of sets.
  predicate Equivalent(a: State, b: State) {
    && a.reachable == b.reachable
    && a.moved == b.moved
    && |a.scopes| == |b.scopes|
    && a.loans == b.loans
    && a.origins == b.origins
  }
}
