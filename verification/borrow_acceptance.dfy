/// What the checker accepts: code which shares what it reads, and writes or lends to
/// calls what nobody borrows, whatever its length and its control flow.

module BorrowAcceptance {
  import opened Places
  import opened BorrowSyntax
  import opened BorrowState
  import opened Liveness
  import opened BorrowCheck
  import opened StmtSoundness
  import opened BorrowSoundness
  import opened BorrowConvergence
  import opened BorrowOperations
  import opened MildExpressions

  /// The index of the innermost scope that declares `v`, or -1.
  function Level(v: Var, scopes: Scopes): (i: int)
    ensures -1 <= i < |scopes| && (i >= 0 ==> v in scopes[i])
    ensures i >= 0 <==> LookupVar(v, scopes).Some?
  {
    if scopes == [] then -1
    else if v in scopes[|scopes| - 1] then |scopes| - 1
    else Level(v, scopes[..|scopes| - 1])
  }

  /// Lets of fresh names, assignments to places that nobody borrows or through
  /// references that nobody borrows, no reference assigned, and none returned into the
  /// function's own storage; any control flow.
  predicate Peaceful(plan: Plan, s: Stmt, scopes: Scopes)
    decreases s, 1
  {
    match s
    case Let(_, key, _, init) => LookupVar(key, scopes).None? && OptFair(plan, init, scopes)
    case Assign(_, compound, t, value, _) =>
      t.pe.place in plan.own && (if compound then Mild(plan, value, scopes) else Fair(plan, value, scopes)) && !value.Borrow?
    case ExprStmt(_, e) => Fair(plan, e, scopes)
    case Return(_, e, bears, _) => OptFair(plan, e, scopes) && (bears ==> e.Some? && e.value.Borrow? && !OwnStorage(e.value.pe.place, scopes))
    case Break(_) => true
    case Continue(_) => true
    case Block(_, body) => AllPeaceful(plan, body, scopes + [map[]])
    case If(_, c, thn, els) =>
      Fair(plan, c, scopes) && AllPeaceful(plan, thn, scopes + [map[]]) && AllPeaceful(plan, els, scopes + [map[]])
    case While(_, c, body, _) => Fair(plan, c, scopes) && AllPeaceful(plan, body, scopes + [map[]])
    case For(_, key, ty, b, e, body, _) =>
      && LookupVar(key, scopes).None? && Fair(plan, b, scopes) && Fair(plan, e, scopes)
      && AllPeaceful(plan, body, scopes + [map[key := ty]] + [map[]])
    case Loop(_, body, _) => AllPeaceful(plan, body, scopes + [map[]])
  }

  predicate AllPeaceful(plan: Plan, ss: seq<Stmt>, scopes: Scopes)
    decreases ss, 0
  {
    ss == [] || (Peaceful(plan, ss[0], scopes) && AllPeaceful(plan, ss[1..], Next(ss[0], scopes)))
  }

  /// References do not outlive what they refer to.
  ghost predicate Nested(st: State) {
    forall q, o :: q in st.origins && o in st.origins[q] ==> 0 <= Level(Root(o.place), st.scopes) <= Level(Root(q), st.scopes)
  }

  ghost predicate Calm(plan: Plan, st: State) {
    && Open(plan, st) && Unlent(plan, st.loans) && Kept(plan, st) && Nested(st)
    && (forall q :: q in st.moved ==> Root(q) != AnyIndex)
    && forall l :: l in st.loans ==> Root(l.place) in plan.names && l.kind != Reserved && !l.holder.TwoPhase?
  }

  // ---- what keeps a state calm ----

  lemma CalmLess(plan: Plan, a: State, b: State)
    requires Calm(plan, a) && b.loans <= a.loans && b.moved <= a.moved && b.scopes == a.scopes
    requires forall q :: q in b.origins ==> q in a.origins && b.origins[q] <= a.origins[q]
    ensures Calm(plan, b)
  {
    hide Disjoint, InForce, Level;
    assert forall p :: Gone(p, b) ==> Gone(p, a);
  }

  lemma KeptWith(plan: Plan, loans: set<Loan>, st: State)
    requires Separate(plan) && Kept(plan, st) && forall l :: l in loans ==> l.place in plan.shared
    ensures Kept(plan, WithLoans(st, loans))
  {
    hide Disjoint;
    assert forall p :: Gone(p, WithLoans(st, loans)) ==> Gone(p, st);
    hide Gone;
  }

  lemma CalmLending(plan: Plan, loans: set<Loan>, st: State)
    requires Separate(plan) && Calm(plan, st) && forall l :: l in loans ==> l.place in plan.shared && l.kind == SharedLoan && !l.mut && !l.holder.TwoPhase?
    ensures Calm(plan, WithLoans(st, loans))
  {
    hide Disjoint, Level, Gone;
    OpenWith(plan, st, loans);
    KeptWith(plan, loans, st);
    assert Nested(WithLoans(st, loans)) by { hide Open, Unlent, Separate, Kept; }
    hide Open, Kept, Nested;
  }

  lemma CalmWith(plan: Plan, e: Expr, st: State)
    requires Separate(plan) && Calm(plan, st) && Fair(plan, e, st.scopes)
    ensures Inspect(e, Move, st) == Checked(WithLoans(st, Temps(e)), {}) && Calm(plan, WithLoans(st, Temps(e)))
  {
    hide Separate, Open, Unlent, Nested, Mild, Lends, Inspect, WithLoans, Temps;
    if Mild(plan, e, st.scopes) {
      MildAccepted(plan, e, st);
      TempsShared(plan, e, st.scopes);
    } else {
      LendingAccepted(plan, e, st);
    }
    hide Calm;
    CalmLending(plan, Temps(e), st);
  }

  lemma CalmOpt(plan: Plan, e: Option<Expr>, st: State)
    requires Separate(plan) && Calm(plan, st) && OptFair(plan, e, st.scopes)
    ensures var c := InspectOpt(e, st); c.errs == {} && Calm(plan, c.st) && c.st.scopes == st.scopes && c.st.origins == st.origins && c.st.reachable == st.reachable
  {
    hide Inspect, Temps, Fair, Calm;
    if e.Some? { CalmWith(plan, e.value, st); }
  }

  lemma {:induction false} LevelDeclared(v: Var, key: Var, ty: Type, scopes: Scopes)
    requires scopes != []
    ensures Level(v, Declare(key, ty, scopes)) == if v == key then |scopes| - 1 else Level(v, scopes)
  {
    var d := Declare(key, ty, scopes);
    assert d[..|d| - 1] == scopes[..|scopes| - 1];
  }

  lemma LevelPushed(v: Var, scopes: Scopes, m: map<Var, Type>)
    ensures Level(v, scopes + [m]) == if v in m then |scopes| else Level(v, scopes)
  {
    assert (scopes + [m])[..|scopes|] == scopes;
  }

  lemma CalmPushed(plan: Plan, st: State, m: map<Var, Type>)
    requires Calm(plan, st) && forall v :: v in m ==> LookupVar(v, st.scopes).None?
    ensures Calm(plan, st.(scopes := st.scopes + [m]))
  {
    var inner := st.(scopes := st.scopes + [m]);
    hide Disjoint, InForce, LookupVar;
    assert forall p :: Gone(p, inner) ==> Gone(p, st);
    forall q, o | q in inner.origins && o in inner.origins[q] ensures 0 <= Level(Root(o.place), inner.scopes) <= Level(Root(q), inner.scopes) {
      LevelPushed(Root(q), st.scopes, m);
      LevelPushed(Root(o.place), st.scopes, m);
    }
  }

  lemma CalmDeclared(plan: Plan, st: State, key: Var, ty: Type)
    requires Calm(plan, st) && st.scopes != [] && LookupVar(key, st.scopes).None?
    ensures Calm(plan, st.(scopes := Declare(key, ty, st.scopes)))
  {
    var inner := st.(scopes := Declare(key, ty, st.scopes));
    hide Disjoint, InForce, LookupVar;
    assert forall p :: Gone(p, inner) ==> Gone(p, st);
    forall q, o | q in inner.origins && o in inner.origins[q] ensures 0 <= Level(Root(o.place), inner.scopes) <= Level(Root(q), inner.scopes) {
      LevelDeclared(Root(q), key, ty, st.scopes);
      LevelDeclared(Root(o.place), key, ty, st.scopes);
    }
  }

  /// Leaving a scope reports nothing, since references end with it.
  lemma NestedPopped(st: State)
    requires Nested(st) && st.scopes != []
    ensures PopScope(st).errs == {} && Nested(PopScope(st).st)
  {
    var r := PopScope(st).st;
    var n := |st.scopes| - 1;
    forall q, o | q in st.origins && o in st.origins[q]
      ensures Root(o.place) in st.scopes[n] ==> Root(q) in st.scopes[n]
      ensures Root(q) !in st.scopes[n] ==> Level(Root(q), r.scopes) == Level(Root(q), st.scopes) && Level(Root(o.place), r.scopes) == Level(Root(o.place), st.scopes)
    {
    }
    hide Level;
  }

  lemma CalmPopped(plan: Plan, st: State)
    requires Calm(plan, st) && st.scopes != []
    ensures PopScope(st).errs == {} && Calm(plan, PopScope(st).st)
  {
    NestedPopped(st);
    var r := PopScope(st).st;
    hide Disjoint, InForce, Level, Nested;
    assert forall p :: Gone(p, r) ==> Gone(p, st);
  }

  lemma {:induction false} CalmTruncated(plan: Plan, st: State, depth: nat)
    requires Calm(plan, st)
    ensures Truncate(st, depth).errs == {} && Calm(plan, Truncate(st, depth).st)
    decreases |st.scopes|
  {
    if |st.scopes| > depth {
      CalmPopped(plan, st);
      hide Calm;
      CalmTruncated(plan, PopScope(st).st, depth);
    }
  }

  lemma CalmMerged(plan: Plan, a: State, b: State)
    requires Calm(plan, a) && Calm(plan, b) && a.scopes == b.scopes
    ensures Calm(plan, Merge(a, b))
  {
    hide Disjoint, InForce, Level;
    assert forall p :: Gone(p, Merge(a, b)) ==> Gone(p, a) || Gone(p, b);
  }

  // ---- definitions and assignments ----

  lemma CalmReferring(plan: Plan, key: Var, o: Origin, st: State)
    requires Calm(plan, st) && st.scopes != [] && 0 <= Level(Root(o.place), st.scopes) && Level(key, st.scopes) == |st.scopes| - 1
    ensures Calm(plan, SetOrigins([key], {o}, st))
  {
    var r := SetOrigins([key], {o}, st);
    assert Root([key]) == key;
    hide IsWithin, Level, Gone, Open, Unlent;
    forall q, x | q in r.origins && x in r.origins[q] ensures 0 <= Level(Root(x.place), r.scopes) <= Level(Root(q), r.scopes) {
      if q != [key] { assert x in st.origins[q]; }
    }
    SameOpen(plan, st, r);
  }

  lemma SameOpen(plan: Plan, a: State, b: State)
    requires Open(plan, a) && Unlent(plan, a.loans) && b.moved == a.moved && b.loans == a.loans
    ensures Open(plan, b) && Unlent(plan, b.loans)
  {
    hide Disjoint, InForce;
    assert forall p :: Gone(p, b) ==> Gone(p, a);
  }

  lemma CalmBound(plan: Plan, key: Var, e: Expr, st: State)
    requires Separate(plan) && Calm(plan, st) && e.Borrow? && Mild(plan, e, st.scopes) && st.scopes != [] && Level(key, st.scopes) == |st.scopes| - 1
    ensures BindBorrow([key], e, st).errs == {} && Calm(plan, BindBorrow([key], e, st).st)
  {
    var p := e.pe.place;
    var promoted := st.(loans := set l | l in st.loans && !(l.holder == Temporary && Conflict(l.place, p)));
    var loan := Loan(p, Stored([key]), false, SharedLoan, e.pos);
    CalmLess(plan, st, promoted);
    OpenAccess(plan, p, e.pos, promoted);
    assert BeginBorrow(p, Stored([key]), false, e.pos, promoted, {Stored([key])}) == Checked(WithLoans(promoted, {loan}), {});
    CalmLending(plan, {loan}, promoted);
    hide BeginBorrow, Conflict, Level, Calm, SetOrigins;
    CalmReferring(plan, key, Origin(p, false, e.pos), WithLoans(promoted, {loan}));
  }

  lemma CalmLet(plan: Plan, key: Var, ty: Type, init: Option<Expr>, st: State)
    requires Separate(plan) && Calm(plan, st) && LookupVar(key, st.scopes).None? && OptFair(plan, init, st.scopes) && st.scopes != []
    ensures InspectOpt(init, st).st.scopes == st.scopes
    ensures var c := DefineLocal(key, ty, init, InspectOpt(init, st)); c.errs == {} && Calm(plan, c.st)
  {
    CalmOpt(plan, init, st);
    var c := InspectOpt(init, st).st;
    var d := c.(scopes := Declare(key, ty, c.scopes));
    CalmDeclared(plan, c, key, ty);
    LevelDeclared(key, key, ty, c.scopes);
    var cleared := SetOrigins([key], {}, MarkInitialized([key], d));
    CalmLess(plan, d, cleared);
    if ContainsReference(ty) && init.Some? && init.value.Borrow? {
      DeclaredElsewhere(plan, init.value, key, ty, st.scopes);
      CalmBound(plan, key, init.value, cleared);
    }
    hide InspectOpt, Calm, BindBorrow, SetOrigins, MarkInitialized, Level, ContainsReference;
  }

  lemma DeclaredElsewhere(plan: Plan, e: Expr, key: Var, ty: Type, scopes: Scopes)
    requires e.Borrow? && Fair(plan, e, scopes) && scopes != []
    ensures Mild(plan, e, Declare(key, ty, scopes))
  {
    LookupDeclared(Root(e.pe.place), key, ty, scopes);
  }

  lemma OwnWritable(plan: Plan, p: Place, pos: Pos, st: State)
    requires Calm(plan, st) && p in plan.own
    ensures AccessPlace(p, pos, Write, st, {}) == Checked(st, {})
  {
    WritesAccepted(p, pos, st, {});
    assert p in plan.shared + plan.own;
    assert !Gone(p, st);
    hide Disjoint;
    forall q | q in st.moved ensures !IsStrictChild(q, p) {
      if IsStrictChild(q, p) {
        NestedConflict(q, p);
      }
    }
    hide AccessPlace;
  }

  lemma CalmStored(plan: Plan, p: Place, pos: Pos, value: Expr, refTarget: bool, c: Checked)
    requires Calm(plan, c.st) && p in plan.own && !value.Borrow? && c.errs == {}
    ensures var r := StoreInto(p, pos, value, refTarget, c); r.errs == {} && Calm(plan, r.st)
  {
    OwnWritable(plan, p, pos, c.st);
    CalmLess(plan, c.st, SetOrigins(p, {}, MarkInitialized(p, c.st)));
    hide AccessPlace, SetOrigins, MarkInitialized, Calm;
  }

  lemma CalmAssigned(plan: Plan, compound: bool, t: Target, value: Expr, pos: Pos, st: State)
    requires Separate(plan) && Calm(plan, st) && t.pe.place in plan.own && !value.Borrow?
    requires if compound then Mild(plan, value, st.scopes) else Fair(plan, value, st.scopes)
    ensures var r := CheckAssign(compound, t, value, pos, st); r.errs == {} && Calm(plan, r.st)
  {
    var p := t.pe.place;
    var refTarget := ContainsReference(TypeOfPlace(p, st.scopes));
    hide Inspect, StoreInto, Mild, Fair, ContainsReference, TypeOfPlace, Calm, HeldUnder;
    if t.Through? {
      CalmThrough(plan, compound, t, value, pos, st);
    } else if compound {
      var ready := CompoundReady(plan, t, value, pos, st);
      CalmStored(plan, p, t.pe.pos, value, refTarget, Checked(ready, {}));
    } else {
      var killed := KillHoldersUnder(p, st);
      CalmLess(plan, st, killed);
      CalmWith(plan, value, killed);
      CalmStored(plan, p, t.pe.pos, value, refTarget, Inspect(value, Move, killed));
    }
  }

  lemma CalmThrough(plan: Plan, compound: bool, t: Target, value: Expr, pos: Pos, st: State)
    requires Separate(plan) && Calm(plan, st) && t.Through? && t.pe.place in plan.own && !value.Borrow?
    requires if compound then Mild(plan, value, st.scopes) else Fair(plan, value, st.scopes)
    ensures var r := CheckAssign(compound, t, value, pos, st); r.errs == {} && Calm(plan, r.st)
  {
    hide Inspect, Mild, Lends, AccessPlace, WriteThrough;
    var p := t.pe.place;
    OpenAccess(plan, p, t.pe.pos, st);
    CalmWith(plan, value, st);
    hide BeginBorrow, Reserve, IsCopyType, TypeOfPlace;
    OwnReachable(plan, p, t.pe.pos, WithLoans(st, Temps(value)));
    hide Calm, Temps;
  }

  lemma OwnReachable(plan: Plan, p: Place, pos: Pos, st: State)
    requires Calm(plan, st) && p in plan.own
    ensures WriteThrough(p, pos, st) == Checked(st, {})
  {
    ThroughAccepted(p, pos, st);
    assert p in plan.shared + plan.own;
    hide WriteThrough, Disjoint;
  }

  /// With one reservation of an owned place and temporary shared loans, no other
  /// loan is activated and none is in the way.
  lemma ActivationClear(plan: Plan, reserved: Loan, temps: set<Loan>, st: State, pos: Pos)
    requires Separate(plan) && Calm(plan, st) && reserved.place in plan.own && reserved.kind == Reserved
    requires forall l :: l in temps ==> l.place in plan.shared && l.kind == SharedLoan
    ensures var a := Activate(reserved.holder, pos, WithLoans(WithLoans(st, {reserved}), temps));
      a.errs == {} && KillHolder(reserved.holder, a.st).loans <= st.loans + temps
      && a.st == WithLoans(WithLoans(st, {reserved}), temps).(loans := a.st.loans)
  {
    var v := WithLoans(WithLoans(st, {reserved}), temps);
    ActivationsAccepted(reserved.holder, pos, v);
    hide Activate, Disjoint, Open, Nested;
    assert forall l :: l in v.loans && l.kind == Reserved ==> l == reserved;
    assert forall o :: o in v.loans && o != reserved ==> Disjoint(reserved.place, o.place);
  }

  /// Everything of a compound assignment before its write.
  lemma CompoundReady(plan: Plan, t: Target, value: Expr, pos: Pos, st: State) returns (ready: State)
    requires Separate(plan) && Calm(plan, st) && t.Direct? && t.pe.place in plan.own && Mild(plan, value, st.scopes)
    ensures Calm(plan, ready)
    ensures var (p, rid) := (t.pe.place, CompoundTarget(pos));
      var r := Reserve(p, rid, t.pe.pos, st);
      var v := Inspect(value, Move, r.st);
      var a := Activate(rid, pos, v.st);
      r.errs == {} && v.errs == {} && a.errs == {} && ready == KillHoldersUnder(p, KillHolder(rid, a.st))
  {
    var p, rid := t.pe.place, CompoundTarget(pos);
    var reserved := Loan(p, rid, true, Reserved, t.pe.pos);
    ReservationClear(plan, p, rid, t.pe.pos, st);
    var r := WithLoans(st, {reserved});
    OpenWith(plan, st, {reserved});
    hide Activate, Inspect, Temps, Mild, Reserve, Open, Calm, HeldUnder;
    MildAccepted(plan, value, r);
    TempsShared(plan, value, r.scopes);
    CalmWith(plan, value, st);
    ActivationClear(plan, reserved, Temps(value), st, pos);
    var a := Activate(rid, pos, WithLoans(r, Temps(value)));
    ready := KillHoldersUnder(p, KillHolder(rid, a.st));
    CalmLess(plan, WithLoans(st, Temps(value)), ready);
  }

  lemma ReservationClear(plan: Plan, p: Place, rid: Holder, pos: Pos, st: State)
    requires Calm(plan, st) && p in plan.own
    ensures Reserve(p, rid, pos, st) == Checked(WithLoans(st, {Loan(p, rid, true, Reserved, pos)}), {})
  {
    ReservationsAccepted(p, rid, pos, st);
    hide Reserve, Disjoint;
  }

  // ---- statements ----

  ghost predicate AllCalm(plan: Plan, states: seq<State>) { forall x :: x in states ==> Calm(plan, x) }

  ghost predicate OptCalm(plan: Plan, o: Option<State>) { o.Some? ==> Calm(plan, o.value) }

  /// Nothing but the bound on the passes can be reported, and every state that is
  /// handed on is calm.
  ghost predicate Passes(plan: Plan, f: Flow) {
    OnlyLimit(f.errs) && Calm(plan, f.st) && AllCalm(plan, f.breaks) && AllCalm(plan, f.conts)
  }

  lemma {:induction false} StmtPasses(plan: Plan, s: Stmt, st: State, lv: Tables, depth: Option<nat>)
    requires Separate(plan) && Calm(plan, st) && Peaceful(plan, s, st.scopes) && st.scopes != [] && DepthFits(depth, st.scopes)
    ensures Passes(plan, CheckStmt(s, st, lv, depth))
    decreases s, MaxIterations + 2
  {
    hide Separate, Survives, Calm, CheckLive, Peaceful;
    if st.reachable {
      CalmLess(plan, st, Expire(s.id, lv, st));
      LivePasses(plan, s, Expire(s.id, lv, st), lv, depth);
    }
  }

  lemma {:induction false} LivePasses(plan: Plan, s: Stmt, st: State, lv: Tables, depth: Option<nat>)
    requires Separate(plan) && Calm(plan, st) && st.reachable && Peaceful(plan, s, st.scopes) && st.scopes != [] && DepthFits(depth, st.scopes)
    ensures Passes(plan, CheckLive(s, st, lv, depth))
    decreases s, MaxIterations + 1
  {
    hide Separate, Calm, Inspect, CheckAssign, IterateWhile, IterateFor, IterateLoop, CheckBlock, Truncate, EscapeErrors, DefineLocal, Merge, Leave, LeavingStates, Mild, Fair, LookupVar;
    match s
    case Let(_, key, ty, init) =>
      CalmOpt(plan, init, st);
      CalmLet(plan, key, ty, init, st);
    case Assign(_, compound, t, value, pos) => CalmAssigned(plan, compound, t, value, pos, st);
    case ExprStmt(_, e) => CalmWith(plan, e, st);
    case Return(_, e, bears, pos) =>
      CalmOpt(plan, e, st);
      CalmLess(plan, InspectOpt(e, st).st, InspectOpt(e, st).st.(reachable := false));
      if e.Some? { NoEscape(e.value, bears, pos, st); }
    case Break(_) => LeavePasses(plan, st, depth);
    case Continue(_) => LeavePasses(plan, st, depth);
    case Block(_, body) => BlockPasses(plan, body, st, lv, depth);
    case If(_, cond, thn, els) =>
      CalmWith(plan, cond, st);
      var c := Inspect(cond, Move, st).st;
      BlockPasses(plan, thn, c, lv, depth);
      BlockPasses(plan, els, c, lv, depth);
      BlockScopes(thn, c, lv, depth);
      BlockScopes(els, c, lv, depth);
      CalmMerged(plan, CheckBlock(thn, c, lv, depth).st, CheckBlock(els, c, lv, depth).st);
    case While(_, _, _, _) => LoopPasses(plan, s, st, lv);
    case For(_, _, _, b, e, _, _) =>
      CalmWith(plan, b, st);
      var c := Inspect(b, Move, st).st;
      CalmWith(plan, e, c);
      LoopPasses(plan, s, Inspect(e, Move, c).st, lv);
    case Loop(_, _, _) =>
      LoopPasses(plan, s, st, lv);
      CalmLess(plan, st, st.(reachable := false));
  }

  lemma NoEscape(e: Expr, bears: bool, pos: Pos, st: State)
    requires bears ==> e.Borrow? && !OwnStorage(e.pe.place, st.scopes)
    ensures EscapeErrors(e, bears, pos, st) == {}
  {
  }

  lemma LeavePasses(plan: Plan, st: State, depth: Option<nat>)
    requires Calm(plan, st)
    ensures var out := Leave(st, depth);
      out.errs == {} && AllCalm(plan, LeavingStates(out, depth)) && Calm(plan, st.(reachable := false))
  {
    CalmLess(plan, st, st.(reachable := false));
    if depth.Some? { CalmTruncated(plan, st, depth.value); }
    hide Calm, Truncate;
  }

  lemma {:induction false} BlockPasses(plan: Plan, body: seq<Stmt>, st: State, lv: Tables, depth: Option<nat>)
    requires Separate(plan) && Calm(plan, st) && AllPeaceful(plan, body, st.scopes + [map[]]) && DepthFits(depth, st.scopes)
    ensures Passes(plan, CheckBlock(body, st, lv, depth))
    decreases body, MaxIterations + 4
  {
    hide Separate, Calm, CheckSeq, Truncate, AllPeaceful;
    if st.reachable {
      var inner := PushScope(st);
      CalmPushed(plan, st, map[]);
      SeqPasses(plan, body, inner, lv, depth);
      CalmTruncated(plan, CheckSeq(body, inner, lv, depth).st, |st.scopes|);
    }
  }

  lemma {:induction false} SeqPasses(plan: Plan, ss: seq<Stmt>, st: State, lv: Tables, depth: Option<nat>)
    requires Separate(plan) && Calm(plan, st) && AllPeaceful(plan, ss, st.scopes) && st.scopes != [] && DepthFits(depth, st.scopes)
    ensures Passes(plan, CheckSeq(ss, st, lv, depth))
    decreases ss, MaxIterations + 3
  {
    hide Separate, Calm, CheckStmt, Peaceful;
    if ss != [] && st.reachable {
      StmtPasses(plan, ss[0], st, lv, depth);
      StmtScopes(ss[0], st, lv, depth);
      SeqPasses(plan, ss[1..], CheckStmt(ss[0], st, lv, depth).st, lv, depth);
    }
  }

  // ---- loops ----

  ghost predicate LoopPeaceful(plan: Plan, s: Stmt, scopes: Scopes)
    requires IsLoop(s)
  {
    match s
    case While(_, c, body, _) => Fair(plan, c, scopes) && AllPeaceful(plan, body, scopes + [map[]])
    case For(_, key, ty, _, _, body, _) => LookupVar(key, scopes).None? && AllPeaceful(plan, body, scopes + [map[key := ty]] + [map[]])
    case Loop(_, body, _) => AllPeaceful(plan, body, scopes + [map[]])
  }

  lemma {:induction false} PassPasses(plan: Plan, s: Stmt, entry: State, h: State, lv: Tables)
    requires IsLoop(s) && Separate(plan) && Calm(plan, h) && h.scopes == entry.scopes && LoopPeaceful(plan, s, h.scopes)
    ensures Passes(plan, PassFlow(s, entry, h, lv)) && HeadChecked(s, h).errs == {} && Calm(plan, HeadChecked(s, h).st)
    ensures var f := PassFlow(s, entry, h, lv); f.st.scopes == entry.scopes && LeavesAt(f.breaks, entry.scopes, Some(|entry.scopes|)) && LeavesAt(f.conts, entry.scopes, Some(|entry.scopes|))
    ensures HeadChecked(s, h).st.scopes == entry.scopes
    decreases s, 0, 0
  {
    hide Separate, Calm, CheckBlock, Inspect, Truncate, AllPeaceful, Fair, LookupVar;
    var d := Some(|entry.scopes|);
    if s.For? {
      var inner := h.(scopes := h.scopes + [map[s.key := s.ty]]);
      CalmPushed(plan, h, map[s.key := s.ty]);
      BlockPasses(plan, s.body, inner, lv, d);
      CalmTruncated(plan, CheckBlock(s.body, inner, lv, d).st, |entry.scopes|);
      ForBodyScopes(s, entry, h, lv);
    } else {
      if s.While? { CalmWith(plan, s.cond, h); }
      BlockPasses(plan, s.body, HeadChecked(s, h).st, lv, d);
      BlockScopes(s.body, HeadChecked(s, h).st, lv, d);
    }
  }

  lemma {:induction false} CalmMergedAll(plan: Plan, acc: Option<State>, states: seq<State>, scopes: Scopes)
    requires OptCalm(plan, acc) && AllCalm(plan, states)
    requires acc.Some? ==> acc.value.scopes == scopes
    requires forall x :: x in states ==> x.scopes == scopes
    ensures var r := MergeAll(acc, states); OptCalm(plan, r) && (r.Some? ==> r.value.scopes == scopes)
    decreases |states|
  {
    hide Calm;
    if states != [] {
      var n := |states| - 1;
      assert states[n] in states && forall x :: x in states[..n] ==> x in states;
      CalmMergedAll(plan, acc, states[..n], scopes);
      var m := MergeAll(acc, states[..n]);
      if m.Some? { CalmMerged(plan, m.value, states[n]); }
    }
  }

  lemma CalmNext(plan: Plan, entry: State, f: Flow)
    requires Calm(plan, entry) && Passes(plan, f) && f.st.scopes == entry.scopes && LeavesAt(f.conts, entry.scopes, Some(|entry.scopes|))
    ensures Calm(plan, NextHeader(entry, f)) && NextHeader(entry, f).scopes == entry.scopes
  {
    hide Calm, MergeAll, Merge;
    ReachableIsEntry(entry, f);
    CalmMergedAll(plan, None, [f.st] + f.conts, entry.scopes);
    var m := MergeAll(None, [f.st] + f.conts);
    if m.Some? {
      CalmMerged(plan, entry, m.value);
      MergeScopes(entry, m.value);
    }
  }

  lemma MergeScopes(a: State, b: State)
    requires a.scopes == b.scopes
    ensures Merge(a, b).scopes == a.scopes
  {
  }

  lemma CalmBreaks(plan: Plan, brk: Option<State>, f: Flow, scopes: Scopes)
    requires OptCalm(plan, brk) && AllCalm(plan, f.breaks) && LeavesAt(f.breaks, scopes, Some(|scopes|)) && (brk.Some? ==> brk.value.scopes == scopes)
    ensures var r := MergeAll(brk, f.breaks); OptCalm(plan, r) && (r.Some? ==> r.value.scopes == scopes)
  {
    hide MergeAll, Calm;
    CalmMergedAll(plan, brk, f.breaks, scopes);
  }

  /// A loop over calm code.
  lemma {:induction false} LoopPasses(plan: Plan, s: Stmt, entry: State, lv: Tables)
    requires IsLoop(s) && Separate(plan) && Calm(plan, entry) && LoopPeaceful(plan, s, entry.scopes)
    ensures var it := Iterate(s, entry, lv); OnlyLimit(it.errs) && OptCalm(plan, it.breakExit) && (!s.Loop? ==> Calm(plan, Left(it)))
    decreases s, MaxIterations, 2
  {
    hide Separate, Calm, LoopPeaceful, IterateWhile, IterateFor, IterateLoop;
    match s
    case While(_, _, _, _) => WhilePasses(plan, s, entry, entry, entry, None, lv, MaxIterations);
    case For(_, _, _, _, _, _, _) => ForPasses(plan, s, entry, entry, None, lv, MaxIterations);
    case Loop(_, _, _) => LoopBodyPasses(plan, s, entry, entry, None, lv, MaxIterations);
  }

  lemma {:induction false} WhilePasses(plan: Plan, s: Stmt, entry: State, header: State, exit: State, brk: Option<State>, lv: Tables, n: nat)
    requires s.While? && n <= MaxIterations && Separate(plan) && Calm(plan, entry) && Calm(plan, header) && Calm(plan, exit) && OptCalm(plan, brk)
    requires LoopPeaceful(plan, s, entry.scopes) && header.scopes == entry.scopes == exit.scopes && (brk.Some? ==> brk.value.scopes == entry.scopes)
    ensures var it := IterateWhile(s, entry, header, exit, brk, lv, n); OnlyLimit(it.errs) && OptCalm(plan, it.breakExit) && Calm(plan, Left(it))
    decreases s, n, 1
  {
    hide Separate, Calm, LoopPeaceful, CheckBlock, Inspect, MergeAll, NextHeader, Equivalent, Merge;
    if n == 0 {
      CalmLeft(plan, exit, brk, entry.scopes);
    } else {
      PassPasses(plan, s, entry, header, lv);
      var c, f := HeadChecked(s, header), PassFlow(s, entry, header, lv);
      CalmBreaks(plan, brk, f, entry.scopes);
      CalmNext(plan, entry, f);
      CalmLeft(plan, c.st, MergeAll(brk, f.breaks), entry.scopes);
      if !Equivalent(NextHeader(entry, f), header) {
        WhilePasses(plan, s, entry, NextHeader(entry, f), c.st, MergeAll(brk, f.breaks), lv, n - 1);
      }
    }
  }

  lemma CalmLeft(plan: Plan, exit: State, brk: Option<State>, scopes: Scopes)
    requires Calm(plan, exit) && OptCalm(plan, brk) && exit.scopes == scopes && (brk.Some? ==> brk.value.scopes == scopes)
    ensures forall errs :: Calm(plan, Left(Iterated(exit, brk, errs)))
  {
    if brk.Some? { CalmMerged(plan, exit, brk.value); }
    hide Calm, Merge;
  }

  lemma {:induction false} ForPasses(plan: Plan, s: Stmt, entry: State, header: State, brk: Option<State>, lv: Tables, n: nat)
    requires s.For? && n <= MaxIterations && Separate(plan) && Calm(plan, entry) && Calm(plan, header) && OptCalm(plan, brk)
    requires LoopPeaceful(plan, s, entry.scopes) && header.scopes == entry.scopes && (brk.Some? ==> brk.value.scopes == entry.scopes)
    ensures var it := IterateFor(s, entry, header, brk, lv, n); OnlyLimit(it.errs) && OptCalm(plan, it.breakExit) && Calm(plan, Left(it))
    decreases s, n, 1
  {
    hide Separate, Calm, LoopPeaceful, CheckForBody, MergeAll, NextHeader, Equivalent, Merge;
    if n == 0 {
      CalmLeft(plan, header, brk, entry.scopes);
    } else {
      PassPasses(plan, s, entry, header, lv);
      var f := PassFlow(s, entry, header, lv);
      CalmBreaks(plan, brk, f, entry.scopes);
      CalmNext(plan, entry, f);
      CalmLeft(plan, NextHeader(entry, f), MergeAll(brk, f.breaks), entry.scopes);
      if !Equivalent(NextHeader(entry, f), header) {
        ForPasses(plan, s, entry, NextHeader(entry, f), MergeAll(brk, f.breaks), lv, n - 1);
      }
    }
  }

  lemma {:induction false} LoopBodyPasses(plan: Plan, s: Stmt, entry: State, header: State, brk: Option<State>, lv: Tables, n: nat)
    requires s.Loop? && n <= MaxIterations && Separate(plan) && Calm(plan, entry) && Calm(plan, header) && OptCalm(plan, brk)
    requires LoopPeaceful(plan, s, entry.scopes) && header.scopes == entry.scopes && (brk.Some? ==> brk.value.scopes == entry.scopes)
    ensures var it := IterateLoop(s, entry, header, brk, lv, n); OnlyLimit(it.errs) && OptCalm(plan, it.breakExit)
    decreases s, n, 1
  {
    hide Separate, Calm, LoopPeaceful, CheckBlock, MergeAll, NextHeader, Equivalent;
    if n > 0 {
      PassPasses(plan, s, entry, header, lv);
      var f := PassFlow(s, entry, header, lv);
      CalmBreaks(plan, brk, f, entry.scopes);
      CalmNext(plan, entry, f);
      if MergeAll(None, [f.st] + f.conts).Some? && !Equivalent(NextHeader(entry, f), header) {
        LoopBodyPasses(plan, s, entry, NextHeader(entry, f), MergeAll(brk, f.breaks), lv, n - 1);
      }
    }
  }

  // ---- the theorems ----

  /// From any state in which what is shared is there and not lent mutably, and what
  /// is owned is there and not lent at all: reads, Copy uses, any number of shared
  /// borrows, calls that take owned places by `borrow mut`, lets, assignments and
  /// loops are accepted, in code of any length.
  lemma PeacefulCodeIsAccepted(plan: Plan, ss: seq<Stmt>, st: State, lv: Tables, depth: Option<nat>)
    requires Separate(plan) && Calm(plan, st) && AllPeaceful(plan, ss, st.scopes) && st.scopes != [] && DepthFits(depth, st.scopes)
    ensures CheckSeq(ss, st, lv, depth).errs == {} && Calm(plan, CheckSeq(ss, st, lv, depth).st)
  {
    hide CheckSeq, Calm, AllPeaceful, Separate;
    SeqPasses(plan, ss, st, lv, depth);
    SeqEnds(ss, st, lv, depth);
  }

  /// Such functions are accepted, whatever the liveness tables say.
  lemma PeacefulFunctionsAreAccepted(plan: Plan, f: Function, lv: Tables)
    requires Separate(plan) && AllPeaceful(plan, f.body, [f.params] + [map[]])
    ensures CheckFunction(f, lv) == {}
  {
    hide Separate, AllPeaceful, CheckBlock;
    BlockPasses(plan, f.body, EntryState(f), lv, None);
    BlockEnds(f.body, EntryState(f), lv, None);
  }

  /// `let k0 = borrow x; let k1 = borrow x; ...`, then a call with all of `x`'s
  /// uses and borrows among its arguments.
  function Borrows(x: Var, keys: seq<Var>, id: nat): seq<Stmt> {
    if keys == [] then []
    else [Let(id, keys[0], RefTo(false, Scalar), Some(Borrow(false, PlaceExpr([x], [], Pos(id, 0)), Pos(id, 0))))] + Borrows(x, keys[1..], id + 1)
  }

  predicate Distinct(x: Var, keys: seq<Var>) {
    x !in keys && forall i, j :: 0 <= i < j < |keys| ==> keys[i] != keys[j]
  }

  lemma {:induction false} BorrowsPeaceful(x: Var, keys: seq<Var>, id: nat, scopes: Scopes)
    requires Distinct(x, keys) && scopes != [] && LookupVar(x, scopes).Some? && forall k :: k in keys ==> LookupVar(k, scopes).None?
    ensures AllPeaceful(Plan({[x]}, {}, map[], {x}), Borrows(x, keys, id), scopes)
    decreases keys
  {
    if keys != [] {
      var next := Declare(keys[0], RefTo(false, Scalar), scopes);
      LookupDeclared(x, keys[0], RefTo(false, Scalar), scopes);
      forall k | k in keys[1..] ensures LookupVar(k, next).None? {
        LookupDeclared(k, keys[0], RefTo(false, Scalar), scopes);
      }
      BorrowsPeaceful(x, keys[1..], id + 1, next);
      var body := Borrows(x, keys, id);
      assert body[1..] == Borrows(x, keys[1..], id + 1);
    }
  }

  /// One variable may be borrowed as often as one likes, all borrows live at once.
  lemma SharedBorrowsCoexist(x: Var, ty: Type, keys: seq<Var>, lv: Tables)
    requires Distinct(x, keys)
    ensures CheckFunction(Function(map[x := ty], Borrows(x, keys, 0)), lv) == {}
  {
    hide CheckFunction, AllPeaceful;
    var scopes: Scopes := [map[x := ty]] + [map[]];
    LookupPushed(x, map[], [map[x := ty]]);
    forall k | k in keys ensures LookupVar(k, scopes).None? {
      LookupPushed(k, map[], [map[x := ty]]);
    }
    BorrowsPeaceful(x, keys, 0, scopes);
    PeacefulFunctionsAreAccepted(Plan({[x]}, {}, map[], {x}), Function(map[x := ty], Borrows(x, keys, 0)), lv);
  }
}
