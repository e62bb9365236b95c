/// A mutable borrow lasts as long as the variable that holds it is needed, and what
/// it borrows is free again from there on: with this, code that borrows mutably is
/// accepted, one borrow after another and one inside another.

module BorrowLifetimes {
  import opened Places
  import opened BorrowSyntax
  import opened BorrowState
  import opened BorrowCheck
  import opened Liveness
  import opened StmtSoundness
  import opened BorrowSoundness
  import opened BorrowOperations
  import opened MildExpressions
  import opened BorrowAcceptance

  function NextAll(ss: seq<Stmt>, scopes: Scopes): Scopes {
    if ss == [] then scopes else NextAll(ss[1..], Next(ss[0], scopes))
  }

  /// From every state that fits the plan the code is accepted. It leaves such a state
  /// if it is left at its end, and no reference outlives what it refers to in any case.
  ghost predicate Accepts(plan: Plan, ss: seq<Stmt>, scopes: Scopes, lv: Tables, depth: Option<nat>) {
    forall st :: Calm(plan, st) && st.scopes == scopes && st.reachable ==>
      var f := CheckSeq(ss, st, lv, depth);
      f.errs == {} && Nested(f.st) && (f.st.reachable ==> Calm(plan, f.st) && f.st.scopes == NextAll(ss, scopes))
  }

  // ---- sequences ----

  lemma {:induction false} SeqAppend(a: seq<Stmt>, b: seq<Stmt>, st: State, lv: Tables, depth: Option<nat>)
    ensures var f := CheckSeq(a, st, lv, depth);
      var g := CheckSeq(b, f.st, lv, depth);
      CheckSeq(a + b, st, lv, depth) == Flow(g.st, f.errs + g.errs, f.breaks + g.breaks, f.conts + g.conts)
    decreases a
  {
    hide CheckStmt;
    if a == [] || !st.reachable {
      assert a + b == b || !st.reachable;
      var g := CheckSeq(b, st, lv, depth);
      assert {} + g.errs == g.errs && [] + g.breaks == g.breaks && [] + g.conts == g.conts;
    } else {
      assert (a + b)[0] == a[0] && (a + b)[1..] == a[1..] + b;
      var f := CheckStmt(a[0], st, lv, depth);
      SeqAppend(a[1..], b, f.st, lv, depth);
    }
  }

  lemma {:induction false} NextAppend(a: seq<Stmt>, b: seq<Stmt>, scopes: Scopes)
    ensures NextAll(a + b, scopes) == NextAll(b, NextAll(a, scopes))
    decreases a
  {
    if a == [] {
      assert a + b == b;
    } else {
      assert (a + b)[0] == a[0] && (a + b)[1..] == a[1..] + b;
      NextAppend(a[1..], b, Next(a[0], scopes));
    }
  }

  lemma {:induction false} SeqScope(ss: seq<Stmt>, st: State, lv: Tables, depth: Option<nat>)
    requires st.scopes != [] && DepthFits(depth, st.scopes) && st.reachable
    ensures var f := CheckSeq(ss, st, lv, depth); f.st.reachable ==> f.st.scopes == NextAll(ss, st.scopes)
    decreases ss
  {
    hide CheckStmt;
    if ss != [] {
      StmtScopes(ss[0], st, lv, depth);
      var f := CheckStmt(ss[0], st, lv, depth);
      if f.st.reachable { SeqScope(ss[1..], f.st, lv, depth); }
    }
  }

  /// Code without mutable borrows of its own.
  lemma PeacefulAccepts(plan: Plan, ss: seq<Stmt>, scopes: Scopes, lv: Tables, depth: Option<nat>)
    requires Separate(plan) && AllPeaceful(plan, ss, scopes) && scopes != [] && DepthFits(depth, scopes)
    ensures Accepts(plan, ss, scopes, lv, depth)
  {
    hide *;
    forall st | Calm(plan, st) && st.scopes == scopes && st.reachable
      ensures var f := CheckSeq(ss, st, lv, depth); f.errs == {} && Nested(f.st) && (f.st.reachable ==> Calm(plan, f.st) && f.st.scopes == NextAll(ss, scopes))
    {
      PeacefulCodeIsAccepted(plan, ss, st, lv, depth);
      SeqScope(ss, st, lv, depth);
      CalmNested(plan, CheckSeq(ss, st, lv, depth).st);
    }
    AcceptsIf(plan, ss, scopes, lv, depth);
  }

  lemma CalmNested(plan: Plan, st: State)
    requires Calm(plan, st)
    ensures Nested(st)
  {
  }

  lemma AcceptsIf(plan: Plan, ss: seq<Stmt>, scopes: Scopes, lv: Tables, depth: Option<nat>)
    requires forall st :: Calm(plan, st) && st.scopes == scopes && st.reachable ==>
      CheckSeq(ss, st, lv, depth).errs == {} && Nested(CheckSeq(ss, st, lv, depth).st) && (CheckSeq(ss, st, lv, depth).st.reachable ==>
        Calm(plan, CheckSeq(ss, st, lv, depth).st) && CheckSeq(ss, st, lv, depth).st.scopes == NextAll(ss, scopes))
    ensures Accepts(plan, ss, scopes, lv, depth)
  {
    hide Calm, Nested, CheckSeq, NextAll;
  }

  /// One piece of code after another.
  lemma AcceptsBoth(plan: Plan, a: seq<Stmt>, b: seq<Stmt>, scopes: Scopes, lv: Tables, depth: Option<nat>)
    requires Accepts(plan, a, scopes, lv, depth) && Accepts(plan, b, NextAll(a, scopes), lv, depth)
    ensures Accepts(plan, a + b, scopes, lv, depth)
  {
    hide Calm, Nested, CheckSeq, NextAll;
    forall st | Calm(plan, st) && st.scopes == scopes && st.reachable
      ensures var f := CheckSeq(a + b, st, lv, depth); f.errs == {} && Nested(f.st) && (f.st.reachable ==> Calm(plan, f.st) && f.st.scopes == NextAll(a + b, scopes))
    {
      SeqAppend(a, b, st, lv, depth);
      NextAppend(a, b, scopes);
      var f := CheckSeq(a, st, lv, depth);
      if !f.st.reachable { Unreached(b, f.st, lv, depth); }
    }
  }

  lemma Unreached(ss: seq<Stmt>, st: State, lv: Tables, depth: Option<nat>)
    requires !st.reachable
    ensures CheckSeq(ss, st, lv, depth) == Flow(st, {}, [], [])
  {
  }

  // ---- lending ----

  /// The plan while `key` holds a mutable borrow of `x`.
  ghost function Lent(plan: Plan, x: Place, key: Var): Plan {
    Plan(plan.shared, (set p | p in plan.own && Disjoint(p, x)) + {[key]},
         plan.lent + (map p | p in plan.own && !Disjoint(p, x) :: key), plan.names + {key})
  }

  lemma OtherName(p: Place, key: Var)
    requires Root(p) != key && Root(p) != AnyIndex && key != AnyIndex
    ensures Disjoint(p, [key]) && Disjoint([key], p)
  {
    DisjointMeaning(p, [key]);
    DisjointMeaning([key], p);
    assert [key][0] == key;
    assert PartAt(p, [key], 0) && PartAt([key], p, 0);
  }

  lemma SameName(p: Place, key: Var)
    requires Root(p) == key
    ensures IsWithin([key], p)
  {
    assert p[..1] == [key];
  }

  /// May `x` be lent to the new name `key`?
  ghost predicate Lendable(plan: Plan, x: Place, key: Var) {
    && Separate(plan) && x in plan.own && key !in plan.names && key != AnyIndex && AnyIndex !in plan.names
    && forall p :: p in plan.lent ==> Disjoint(p, x)
  }

  lemma LentSeparate(plan: Plan, x: Place, key: Var)
    requires Lendable(plan, x, key)
    ensures Separate(Lent(plan, x, key))
  {
    forall p | p in plan.shared + plan.own + plan.lent.Keys ensures Disjoint(p, [key]) && Disjoint([key], p) { OtherName(p, key); }
    hide Disjoint;
    assert Root([key]) == key;
  }

  /// When `x` is lent out, what is left of the plan holds.
  lemma LentCalm(plan: Plan, x: Place, key: Var, pos: Pos, st: State)
    requires Lendable(plan, x, key) && Calm(plan, st) && forall q :: q in st.moved ==> !IsWithin([key], q)
    ensures Calm(Lent(plan, x, key), WithLoans(st, {Loan(x, Stored([key]), true, MutLoan, pos)}))
  {
    var loan := Loan(x, Stored([key]), true, MutLoan, pos);
    var r := WithLoans(st, {loan});
    forall l | l in r.loans ensures Disjoint([key], l.place) { OtherName(l.place, key); }
    forall q | q in st.moved ensures Disjoint(q, [key]) {
      if Root(q) == key { SameName(q, key); }
      OtherName(q, key);
    }
    hide Disjoint, Level, IsWithin, InForce;
    var plan' := Lent(plan, x, key);
    assert forall p :: Gone(p, r) <==> Gone(p, st);
    hide Nested;
    assert Nested(r) by { NestedSame(st, r); }
    assert Unlent(plan', r.loans);
    LentOpen(plan, x, key, st, r);
    LentKept(plan, x, key, st, r, loan);
    hide Open, Unlent, Kept, Gone;
  }

  lemma NestedSame(a: State, b: State)
    requires Nested(a) && b.origins == a.origins && b.scopes == a.scopes
    ensures Nested(b)
  {
    hide Level;
  }

  lemma LentOpen(plan: Plan, x: Place, key: Var, st: State, r: State)
    requires Open(plan, st) && Unlent(Lent(plan, x, key), r.loans) && (forall p :: Gone(p, r) <==> Gone(p, st)) && !Gone([key], st)
    requires Separate(plan) && x in plan.own && forall l :: l in r.loans ==> l in st.loans || l.place == x
    ensures Open(Lent(plan, x, key), r)
  {
    hide Disjoint, InForce, Gone;
  }

  lemma LentKept(plan: Plan, x: Place, key: Var, st: State, r: State, loan: Loan)
    requires Open(plan, st) && Unlent(plan, st.loans) && Kept(plan, st) && (forall p :: Gone(p, r) <==> Gone(p, st))
    requires r.loans == st.loans + {loan} && loan.place == x && loan.holder == Stored([key]) && forall p :: p in plan.lent ==> Disjoint(p, x)
    ensures Kept(Lent(plan, x, key), r)
  {
    hide Disjoint, InForce, Gone;
  }

  /// Once `key` holds nothing, the first plan holds again.
  lemma CalmAgain(plan: Plan, x: Place, key: Var, st: State)
    requires Separate(plan) && Calm(Lent(plan, x, key), st) && forall l :: l in st.loans ==> l.holder != Stored([key])
    ensures Calm(plan, st)
  {
    forall l | l in st.loans ensures Root(l.place) != key {
      assert [key] in Lent(plan, x, key).own;
      if Root(l.place) == key {
        SameName(l.place, key);
        NestedConflict([key], l.place);
      }
    }
    hide Disjoint, InForce, Gone, Nested;
    var plan' := Lent(plan, x, key);
    forall p | p in plan.own ensures !Gone(p, st) && forall l :: l in st.loans ==> Disjoint(p, l.place) {
      if Disjoint(p, x) {
        assert p in plan'.own;
      } else {
        assert p in plan'.lent && plan'.lent[p] == key;
      }
    }
    assert Open(plan, st);
    assert Kept(plan, st);
    hide Open, Unlent, Kept;
  }

  // ---- binding a mutable borrow ----

  lemma FreshOf(key: Var, st: State)
    ensures forall q :: q in MarkInitialized([key], st).moved ==> !IsWithin([key], q)
  {
  }

  /// Nothing overlaps `x`, so both steps of the binding are accepted, and of the
  /// two loans one is left.
  lemma BoundMut(plan: Plan, key: Var, e: Expr, st: State)
    requires Calm(plan, st) && e.Borrow? && e.mut && e.pe.place in plan.own
    ensures Inspect(e, Move, st) == Checked(WithLoans(st, {Loan(e.pe.place, Temporary, true, MutLoan, e.pos)}), {})
    ensures BindBorrow([key], e, WithLoans(st, {Loan(e.pe.place, Temporary, true, MutLoan, e.pos)}))
      == Checked(SetOrigins([key], {Origin(e.pe.place, true, e.pos)}, WithLoans(st, {Loan(e.pe.place, Stored([key]), true, MutLoan, e.pos)})), {})
  {
    var p := e.pe.place;
    var temp := WithLoans(st, {Loan(p, Temporary, true, MutLoan, e.pos)});
    assert p in plan.shared + plan.own && !Gone(p, st);
    MutBorrowsAccepted(p, Temporary, e.pos, st, {});
    MutBorrowsAccepted(p, Stored([key]), e.pos, st, {Stored([key])});
    NestedConflict(p, p);
    forall l | l in st.loans ensures Disjoint(l.place, p) { ConflictSymmetric(p, l.place); }
    hide Disjoint, BeginBorrow, SetOrigins, Gone, InForce, Level;
    assert (set l | l in temp.loans && !(l.holder == Temporary && Conflict(l.place, p))) == st.loans;
    assert temp.(loans := st.loans) == st;
  }

  /// `let key = borrow mut x`.
  lemma LendingLet(plan: Plan, key: Var, ty: Type, e: Expr, st: State)
    requires e.Borrow? && e.mut && Lendable(plan, e.pe.place, key) && Calm(plan, st) && ContainsReference(ty)
    requires st.scopes != [] && LookupVar(key, st.scopes).None? && LookupVar(Root(e.pe.place), st.scopes).Some?
    ensures var c := DefineLocal(key, ty, Some(e), InspectOpt(Some(e), st)); c.errs == {} && Calm(Lent(plan, e.pe.place, key), c.st)
    ensures InspectOpt(Some(e), st).st.scopes == st.scopes && InspectOpt(Some(e), st).st.reachable == st.reachable
  {
    hide Calm, Nested, Lent, Level, BindBorrow, Inspect, ContainsReference, Lendable, MarkInitialized;
    var x := e.pe.place;
    var c := WithLoans(st, {Loan(x, Temporary, true, MutLoan, e.pos)});
    assert x in plan.own by { LendableOwn(plan, x, key); }
    BoundMut(plan, key, e, st);
    var cleared := ClearedCalm(plan, key, ty, st);
    BoundMut(plan, key, e, cleared);
    ClearedWith(key, ty, st, {Loan(x, Temporary, true, MutLoan, e.pos)});
    LentCalm(plan, x, key, e.pos, cleared);
    LevelDeclared(key, key, ty, st.scopes);
    LevelDeclared(Root(x), key, ty, st.scopes);
    var lent := WithLoans(cleared, {Loan(x, Stored([key]), true, MutLoan, e.pos)});
    assert 0 <= Level(Root(x), lent.scopes) && Level(key, lent.scopes) == |lent.scopes| - 1 by { LevelFound(Root(x), st.scopes); }
    CalmReferring(Lent(plan, x, key), key, Origin(x, true, e.pos), lent);
    hide SetOrigins, WithLoans;
  }

  lemma LevelFound(v: Var, scopes: Scopes)
    requires LookupVar(v, scopes).Some?
    ensures 0 <= Level(v, scopes)
  {
  }

  lemma LendableOwn(plan: Plan, x: Place, key: Var)
    requires Lendable(plan, x, key)
    ensures x in plan.own && Separate(plan)
  {
  }

  /// The state in which `key` is declared and holds nothing yet.
  function Cleared(key: Var, ty: Type, st: State): State
    requires st.scopes != []
  {
    SetOrigins([key], {}, MarkInitialized([key], st.(scopes := Declare(key, ty, st.scopes))))
  }

  lemma ClearedCalm(plan: Plan, key: Var, ty: Type, st: State) returns (cleared: State)
    requires Calm(plan, st) && st.scopes != [] && LookupVar(key, st.scopes).None?
    ensures cleared == Cleared(key, ty, st) && Calm(plan, cleared) && cleared.scopes == Declare(key, ty, st.scopes)
    ensures forall q :: q in cleared.moved ==> !IsWithin([key], q)
  {
    hide Calm;
    var d := st.(scopes := Declare(key, ty, st.scopes));
    CalmDeclared(plan, st, key, ty);
    cleared := Cleared(key, ty, st);
    CalmLess(plan, d, cleared);
    FreshOf(key, d);
  }

  lemma ClearedWith(key: Var, ty: Type, st: State, loans: set<Loan>)
    requires st.scopes != []
    ensures SetOrigins([key], {}, MarkInitialized([key], WithLoans(st, loans).(scopes := Declare(key, ty, st.scopes)))) == WithLoans(Cleared(key, ty, st), loans)
  {
  }

  // ---- the theorem ----

  /// A loan that the variable itself holds is over where it is not live.
  predicate Over(key: Var, id: nat, lv: Tables) { !LoanLiveAt([key], Before(lv.roots, id), Before(lv.places, id)) }

  lemma ExpiredHolder(key: Var, id: nat, lv: Tables, st: State)
    requires Over(key, id, lv)
    ensures forall l :: l in Expire(id, lv, st).loans ==> l.holder != Stored([key])
  {
    hide LoanLiveAt, Before;
  }

  lemma ExpireTwice(ss: seq<Stmt>, st: State, lv: Tables, depth: Option<nat>)
    requires ss != [] && st.reachable
    ensures CheckSeq(ss, Expire(ss[0].id, lv, st), lv, depth) == CheckSeq(ss, st, lv, depth)
  {
    hide CheckLive, Survives;
    var e := Expire(ss[0].id, lv, st);
    assert Expire(ss[0].id, lv, e) == e by { assert Expire(ss[0].id, lv, e).loans == e.loans; }
  }

  /// A variable that holds a mutable borrow may be used as long as it is needed; from
  /// the first statement on before which it is not live, what it borrowed is free.
  lemma MutableBorrowEndsWithItsHolder(plan: Plan, let: Stmt, body: seq<Stmt>, tail: seq<Stmt>, scopes: Scopes, lv: Tables, depth: Option<nat>)
    requires let.Let? && let.init.Some? && let.init.value.Borrow? && let.init.value.mut && ContainsReference(let.ty)
    requires Lendable(plan, let.init.value.pe.place, let.key)
    requires scopes != [] && LookupVar(let.key, scopes).None? && LookupVar(Root(let.init.value.pe.place), scopes).Some?
    requires Accepts(Lent(plan, let.init.value.pe.place, let.key), body, Next(let, scopes), lv, depth)
    requires tail != [] && Over(let.key, tail[0].id, lv) && Accepts(plan, tail, NextAll(body, Next(let, scopes)), lv, depth)
    ensures Accepts(plan, [let] + body + tail, scopes, lv, depth)
  {
    hide Calm, Nested, CheckSeq, NextAll, Lent, Lendable, Over, ContainsReference, LookupVar;
    var first := [let] + body;
    forall st | Calm(plan, st) && st.scopes == scopes && st.reachable
      ensures var f := CheckSeq(first + tail, st, lv, depth); f.errs == {} && Nested(f.st) && (f.st.reachable ==> Calm(plan, f.st) && f.st.scopes == NextAll(first + tail, scopes))
    {
      FirstPart(plan, let, body, st, lv, depth);
      SeqAppend(first, tail, st, lv, depth);
      NextAppend(first, tail, scopes);
      var f := CheckSeq(first, st, lv, depth);
      if f.st.reachable {
        LendableOwn(plan, let.init.value.pe.place, let.key);
        Returned(plan, let.init.value.pe.place, let.key, tail, f.st, lv, depth);
      } else {
        Unreached(tail, f.st, lv, depth);
      }
    }
  }

  lemma FirstPart(plan: Plan, let: Stmt, body: seq<Stmt>, st: State, lv: Tables, depth: Option<nat>)
    requires let.Let? && let.init.Some? && let.init.value.Borrow? && let.init.value.mut && ContainsReference(let.ty)
    requires Lendable(plan, let.init.value.pe.place, let.key) && Calm(plan, st) && st.reachable
    requires st.scopes != [] && LookupVar(let.key, st.scopes).None? && LookupVar(Root(let.init.value.pe.place), st.scopes).Some?
    requires Accepts(Lent(plan, let.init.value.pe.place, let.key), body, Next(let, st.scopes), lv, depth)
    ensures var f := CheckSeq([let] + body, st, lv, depth);
      && f.errs == {} && Nested(f.st) && NextAll([let] + body, st.scopes) == NextAll(body, Next(let, st.scopes))
      && (f.st.reachable ==> Calm(Lent(plan, let.init.value.pe.place, let.key), f.st) && f.st.scopes == NextAll(body, Next(let, st.scopes)))
  {
    hide Calm, Nested, Lent, Lendable, ContainsReference, LookupVar, Inspect, DefineLocal, Survives;
    var one := [let] + body;
    assert one[0] == let && one[1..] == body;
    var e := Expire(let.id, lv, st);
    CalmLess(plan, st, e);
    LendingLet(plan, let.key, let.ty, let.init.value, e);
    LetIs(let, e, lv, depth);
    hide CheckLive;
  }

  lemma LetIs(let: Stmt, st: State, lv: Tables, depth: Option<nat>)
    requires let.Let? && st.scopes != [] && st.reachable && InspectOpt(let.init, st).st.scopes == st.scopes && InspectOpt(let.init, st).st.reachable
    ensures var c := DefineLocal(let.key, let.ty, let.init, InspectOpt(let.init, st));
      CheckLive(let, st, lv, depth) == Straight(c) && c.st.scopes == Next(let, st.scopes) && c.st.reachable
  {
    hide InspectOpt;
  }

  /// The rest begins without the loans of a holder that is over.
  lemma Returned(plan: Plan, x: Place, key: Var, tail: seq<Stmt>, st: State, lv: Tables, depth: Option<nat>)
    requires tail != [] && Over(key, tail[0].id, lv) && Separate(plan) && Calm(Lent(plan, x, key), st) && st.reachable
    requires Accepts(plan, tail, st.scopes, lv, depth)
    ensures var f := CheckSeq(tail, st, lv, depth); f.errs == {} && Nested(f.st) && (f.st.reachable ==> Calm(plan, f.st) && f.st.scopes == NextAll(tail, st.scopes))
  {
    hide Calm, Nested, Lent, Separate, Over, Survives, CheckSeq;
    var e := Expire(tail[0].id, lv, st);
    CalmLess(Lent(plan, x, key), st, e);
    ExpiredHolder(key, tail[0].id, lv, st);
    CalmAgain(plan, x, key, e);
    ExpireTwice(tail, st, lv, depth);
  }

  // ---- functions ----

  lemma {:induction false} NestedTruncated(st: State, depth: nat)
    requires Nested(st)
    ensures Truncate(st, depth).errs == {}
    decreases |st.scopes|
  {
    if |st.scopes| > depth {
      NestedPopped(st);
      hide Nested;
      NestedTruncated(PopScope(st).st, depth);
    }
  }

  /// A function whose body is accepted from its entry.
  lemma AcceptedFunctions(plan: Plan, f: Function, lv: Tables)
    requires Accepts(plan, f.body, [f.params] + [map[]], lv, None)
    ensures CheckFunction(f, lv) == {}
  {
    var st := PushScope(EntryState(f));
    assert Calm(plan, st);
    hide Calm, CheckSeq, Nested;
    NestedTruncated(CheckSeq(f.body, st, lv, None).st, 1);
  }

  const NoPos := Pos(0, 0)

  function Mutably(x: Var, key: Var, id: nat): Stmt {
    Let(id, key, RefTo(true, Scalar), Some(Borrow(true, PlaceExpr([x], [], NoPos), NoPos)))
  }

  function Through1(key: Var, id: nat): Stmt { Assign(id, false, Through(PlaceExpr([key], [], NoPos)), Literal, NoPos) }

  /// For each key: `let key = borrow mut x; deref key = ...`; then a use of `x`.
  function Turns(x: Var, keys: seq<Var>, id: nat): seq<Stmt> {
    if keys == [] then [ExprStmt(id, Use(PlaceExpr([x], [], NoPos)))]
    else [Mutably(x, keys[0], id)] + [Through1(keys[0], id + 1)] + Turns(x, keys[1..], id + 2)
  }

  lemma OneName(mode: Mode, x: Var)
    ensures PlaceUses(mode, [x]) == {[x]}
  {
    assert [x][..1] == [x];
  }

  lemma TurnLive(mode: Mode, x: Var, key: Var, id: nat, after: LiveSet)
    ensures Live(mode, Mutably(x, key, id), after, {}, {}) == Without(after, key) + {[x]}
    ensures Live(mode, Through1(key, id), after, {}, {}) == after + {[key]}
    ensures Live(mode, ExprStmt(id, Use(PlaceExpr([x], [], NoPos))), after, {}, {}) == after + {[x]}
  {
    OneName(mode, x);
    OneName(mode, key);
    var ops: seq<Expr> := [];
    var e := Borrow(true, PlaceExpr([x], ops, NoPos), NoPos);
    assert AllUses(mode, ops) == {};
    assert Uses(mode, e) == {[x]};
    assert Live(mode, Mutably(x, key, id), after, {}, {}) == Without(after, key) + Uses(mode, e);
    hide PlaceUses, Without;
  }

  lemma TurnsSplit(x: Var, keys: seq<Var>, id: nat)
    requires keys != []
    ensures var tail := [Through1(keys[0], id + 1)] + Turns(x, keys[1..], id + 2);
      && Turns(x, keys, id)[0] == Mutably(x, keys[0], id) && Turns(x, keys, id)[1..] == tail
      && tail[0] == Through1(keys[0], id + 1) && tail[1..] == Turns(x, keys[1..], id + 2)
  {
    var first, tail := [Mutably(x, keys[0], id)], [Through1(keys[0], id + 1)] + Turns(x, keys[1..], id + 2);
    assert Turns(x, keys, id) == first + tail;
  }

  /// Only `x` is live before the turns.
  lemma {:induction false} TurnsNeed(mode: Mode, x: Var, keys: seq<Var>, id: nat)
    ensures LiveBlock(mode, Turns(x, keys, id), {}, {}, {}) <= {[x]}
    decreases keys
  {
    if keys == [] {
      var none: seq<Stmt> := [];
      assert Turns(x, keys, id)[1..] == none;
      TurnLive(mode, x, x, id, {});
      hide Live;
    } else {
      var rest := Turns(x, keys[1..], id + 2);
      TurnsNeed(mode, x, keys[1..], id + 2);
      TurnsSplit(x, keys, id);
      var live := LiveBlock(mode, rest, {}, {}, {});
      TurnLive(mode, x, keys[0], id + 1, live);
      TurnLive(mode, x, keys[0], id, live + {[keys[0]]});
      hide Turns, Live;
    }
  }

  lemma {:induction false} TurnsAccepted(x: Var, keys: seq<Var>, id: nat, scopes: Scopes, lv: Tables)
    requires Distinct(x, keys) && x != AnyIndex && AnyIndex !in keys
    requires scopes != [] && LookupVar(x, scopes) == Some(Scalar) && forall k :: k in keys ==> LookupVar(k, scopes).None?
    requires AnnotatedBlock(Roots, Turns(x, keys, id), {}, {}, {}, lv.roots) && AnnotatedBlock(FullPlaces, Turns(x, keys, id), {}, {}, {}, lv.places)
    ensures Accepts(Plan({}, {[x]}, map[], {x}), Turns(x, keys, id), scopes, lv, None)
    decreases keys
  {
    hide Accepts, AnnotatedInner, LiveBlock, Live, LookupVar, Peaceful;
    var plan := Plan({}, {[x]}, map[], {x});
    assert Separate(plan) by { assert Root([x]) == x; }
    if keys == [] {
      UsePeaceful(x, id, plan, scopes);
      PeacefulAccepts(plan, Turns(x, keys, id), scopes, lv, None);
    } else {
      var key := keys[0];
      var let, rest := Mutably(x, key, id), Turns(x, keys[1..], id + 2);
      var after := Declare(key, RefTo(true, Scalar), scopes);
      LookupDeclared(x, key, RefTo(true, Scalar), scopes);
      forall k | k in keys[1..] ensures LookupVar(k, after).None? { LookupDeclared(k, key, RefTo(true, Scalar), scopes); }
      TurnsSplit(x, keys, id);
      TurnsAccepted(x, keys[1..], id + 2, after, lv);
      ThroughAccepts(plan, x, key, id + 1, after, lv);
      KeyIsOver(x, keys, id, lv);
      assert NextAll([Through1(key, id + 1)], after) == after by { assert [Through1(key, id + 1)][1..] == []; }
      assert Lendable(plan, [x], key) by { assert Root([x]) == x; }
      MutableBorrowEndsWithItsHolder(plan, let, [Through1(key, id + 1)], rest, scopes, lv, None);
    }
  }

  lemma UsePeaceful(x: Var, id: nat, plan: Plan, scopes: Scopes)
    requires [x] in plan.own && LookupVar(x, scopes) == Some(Scalar)
    ensures AllPeaceful(plan, [ExprStmt(id, Use(PlaceExpr([x], [], NoPos)))], scopes)
  {
    hide LookupVar;
    assert Root([x]) == x && [x][1..] == [];
    assert TypeOfPlace([x], scopes) == Scalar;
    assert [ExprStmt(id, Use(PlaceExpr([x], [], NoPos)))][1..] == [];
  }

  lemma ThroughAccepts(plan: Plan, x: Var, key: Var, id: nat, scopes: Scopes, lv: Tables)
    requires Lendable(plan, [x], key) && scopes != []
    ensures Accepts(Lent(plan, [x], key), [Through1(key, id)], scopes, lv, None)
  {
    LentSeparate(plan, [x], key);
    assert [key] in Lent(plan, [x], key).own;
    assert [Through1(key, id)][1..] == [];
    PeacefulAccepts(Lent(plan, [x], key), [Through1(key, id)], scopes, lv, None);
  }

  lemma OverBefore(x: Var, key: Var, ss: seq<Stmt>, lv: Tables)
    requires ss != [] && x != key && Disjoint([x], [key])
    requires AnnotatedBlock(Roots, ss, {}, {}, {}, lv.roots) && AnnotatedBlock(FullPlaces, ss, {}, {}, {}, lv.places)
    requires LiveBlock(Roots, ss, {}, {}, {}) <= {[x]} && LiveBlock(FullPlaces, ss, {}, {}, {}) <= {[x]}
    ensures Over(key, ss[0].id, lv)
  {
    assert lv.roots[ss[0].id] == LiveBlock(Roots, ss, {}, {}, {}) && lv.places[ss[0].id] == LiveBlock(FullPlaces, ss, {}, {}, {});
    assert [x][0] != [key][0];
    hide Live, LiveBlock, AnnotatedBlock, Disjoint;
  }

  /// After its turn a key is not live.
  lemma KeyIsOver(x: Var, keys: seq<Var>, id: nat, lv: Tables)
    requires keys != [] && Distinct(x, keys) && x != AnyIndex && AnyIndex !in keys
    requires AnnotatedBlock(Roots, Turns(x, keys, id), {}, {}, {}, lv.roots) && AnnotatedBlock(FullPlaces, Turns(x, keys, id), {}, {}, {}, lv.places)
    ensures var rest := Turns(x, keys[1..], id + 2);
      && rest != [] && Over(keys[0], rest[0].id, lv)
      && AnnotatedBlock(Roots, rest, {}, {}, {}, lv.roots) && AnnotatedBlock(FullPlaces, rest, {}, {}, {}, lv.places)
  {
    TurnsSplit(x, keys, id);
    var rest := Turns(x, keys[1..], id + 2);
    TurnsNeed(Roots, x, keys[1..], id + 2);
    TurnsNeed(FullPlaces, x, keys[1..], id + 2);
    OtherName([x], keys[0]);
    assert rest != [];
    var tail := [Through1(keys[0], id + 1)] + rest;
    assert AnnotatedBlock(Roots, tail, {}, {}, {}, lv.roots) && AnnotatedBlock(FullPlaces, tail, {}, {}, {}, lv.places);
    assert AnnotatedBlock(Roots, rest, {}, {}, {}, lv.roots) && AnnotatedBlock(FullPlaces, rest, {}, {}, {}, lv.places);
    hide Turns, Live, AnnotatedInner, Disjoint;
    OverBefore(x, keys[0], rest, lv);
  }

  /// One variable may be borrowed mutably as often as one likes, one borrow after
  /// another, and used in the end: each borrow is over when its holder is.
  lemma MutableBorrowsInTurn(x: Var, keys: seq<Var>, lv: Tables)
    requires Distinct(x, keys) && x != AnyIndex && AnyIndex !in keys
    requires AnnotatedBlock(Roots, Turns(x, keys, 0), {}, {}, {}, lv.roots) && AnnotatedBlock(FullPlaces, Turns(x, keys, 0), {}, {}, {}, lv.places)
    ensures CheckFunction(Function(map[x := Scalar], Turns(x, keys, 0)), lv) == {}
  {
    hide CheckFunction, Turns, AnnotatedBlock, Accepts;
    var scopes: Scopes := [map[x := Scalar]] + [map[]];
    LookupPushed(x, map[], [map[x := Scalar]]);
    forall k | k in keys ensures LookupVar(k, scopes).None? { LookupPushed(k, map[], [map[x := Scalar]]); }
    TurnsAccepted(x, keys, 0, scopes, lv);
    AcceptedFunctions(Plan({}, {[x]}, map[], {x}), Function(map[x := Scalar], Turns(x, keys, 0)), lv);
  }
}
