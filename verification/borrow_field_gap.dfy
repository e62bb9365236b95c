/// A borrow made through a reference does not keep that reference alive.

module FieldGap {
  import opened Places
  import opened BorrowSyntax
  import opened BorrowState
  import opened BorrowCheck
  import opened Liveness
  import opened Paths
  import opened CallArguments
  import opened StmtSoundness
  import opened BorrowTheorems

  const Here: Pos := Pos(1, 1)

  function Bare(p: Place): PlaceExpr { PlaceExpr(p, [], Here) }

  /// `let r = borrow [mut] x; let a = borrow [mut] r.path` in a function with
  /// the parameters `params`.
  datatype Setup = Setup(x: Place, path: seq<string>, outer: bool, inner: bool, ty: Type, params: map<Var, Type>) {
    predicate Proper() { Outside(x) && path != [] && "r" !in params && "a" !in params }

    function Through(): Place { ["r"] + path }

    /// What `a` refers to in the end.
    function Referent(): Place { x + path }

    function TypeR(): Type { RefTo(outer, ty) }

    function TypeA(): Type { RefTo(inner, Scalar) }

    function LetR(): Stmt { Let(0, "r", TypeR(), Some(Borrow(outer, Bare(x), Here))) }

    function LetA(): Stmt { Let(1, "a", TypeA(), Some(Borrow(inner, Bare(Through()), Here))) }

    function Scopes0(): Scopes { [params, map[]] }

    function Scopes1(): Scopes { [params, map["r" := TypeR()]] }

    function Scopes2(): Scopes { [params, map["r" := TypeR(), "a" := TypeA()]] }
  }

  /// A place of some other variable than the two references.
  predicate Outside(p: Place) { Root(p) !in {"a", "r", AnyIndex} }

  /// A read or move of `q`, or a write to it.
  function Middle(q: Place, write: bool): Stmt {
    if write then Assign(2, false, Direct(Bare(q)), Literal, Here) else ExprStmt(2, Use(Bare(q)))
  }

  function UseA(): Stmt { ExprStmt(3, Deref(Bare(["a"]))) }

  function ReturnA(): Stmt { Return(2, Some(Use(Bare(["a"]))), true, Here) }

  function AccessProbe(c: Setup, q: Place, write: bool): Function {
    Function(c.params, [c.LetR()] + ([c.LetA()] + ([Middle(q, write)] + ([UseA()] + []))))
  }

  function ReturnProbe(c: Setup): Function {
    Function(c.params, [c.LetR()] + ([c.LetA()] + ([ReturnA()] + [])))
  }

  lemma OtherRoot(p: Place, q: Place)
    requires Root(p) != Root(q) && Root(p) != AnyIndex && Root(q) != AnyIndex
    ensures Disjoint(p, q) && Disjoint(q, p)
  {
  }

  // ---- the checker accepts ----

  /// The two references and nothing else have left loans and origins.
  ghost predicate Held(c: Setup, st: State, scopes: Scopes) {
    && st.reachable && st.scopes == scopes
    && (forall p :: p in st.moved ==> Outside(p))
    && (forall l :: l in st.loans ==> (l.place == c.x && l.holder == Stored(["r"])) || Root(l.place) == "r")
    && (forall k :: k in st.origins ==> k == ["r"] || k == ["a"])
    && (forall k, o :: k in st.origins && o in st.origins[k] ==> o.place == if k == ["r"] then c.x else c.Through())
  }

  lemma Tables0(c: Setup)
    ensures Declare("r", c.TypeR(), c.Scopes0()) == c.Scopes1() && Declare("a", c.TypeA(), c.Scopes1()) == c.Scopes2()
  {
    assert map["r" := c.TypeR()]["a" := c.TypeA()] == map["r" := c.TypeR(), "a" := c.TypeA()];
  }

  function Made(v: Var, mut: bool, p: Place): Loan { Loan(p, Stored([v]), mut, if mut then MutLoan else SharedLoan, Here) }

  lemma BorrowInspected(p: Place, mut: bool, st: State)
    requires st.moved == {} && forall l :: l in st.loans ==> Disjoint(p, l.place)
    ensures var temp := Loan(p, Temporary, mut, if mut then MutLoan else SharedLoan, Here);
            Inspect(Borrow(mut, Bare(p), Here), Move, st) == Checked(st.(loans := st.loans + {temp}), {})
  {
  }

  lemma BorrowBound(v: Var, mut: bool, p: Place, st: State, base: set<Loan>)
    requires st.moved == {} && forall l :: l in base ==> Disjoint(p, l.place)
    requires forall l :: l in st.loans ==> l in base || (l.holder == Temporary && l.place == p)
    ensures var b := BindBorrow([v], Borrow(mut, Bare(p), Here), st);
            b.errs == {} && b.st.loans <= base + {Made(v, mut, p)} &&
            b.st == SetOrigins([v], {Origin(p, mut, Here)}, st.(loans := b.st.loans))
  {
    NestedConflict(p, p);
    var promoted := st.(loans := set l | l in st.loans && !(l.holder == Temporary && Conflict(l.place, p)));
    assert promoted.loans <= base;
    var a := if mut then BorrowMut else BorrowShared;
    assert AccessPlace(p, Here, a, promoted, {Stored([v])}) == Checked(promoted, {});
  }

  lemma OneOrigin(v: Var, o: Origin, st: State)
    ensures var q := SetOrigins([v], {o}, st).origins;
            [v] in q && q[[v]] == {o} && forall k :: k in q && k != [v] ==> k in st.origins && q[k] == st.origins[k]
  {
  }

  /// `v` is one of the two references and `p` what it borrows.
  predicate Pairs(c: Setup, v: Var, p: Place) { (v == "r" && p == c.x) || (v == "a" && p == c.Through()) }

  lemma HeldAfter(c: Setup, v: Var, mut: bool, p: Place, st: State, st': State)
    requires Held(c, st, st.scopes) && Pairs(c, v, p)
    requires st'.reachable && st'.moved == {} && st'.loans <= st.loans + {Made(v, mut, p)}
    requires forall k :: k in st'.origins ==>
               (k == [v] && st'.origins[k] == {Origin(p, mut, Here)}) || (k in st.origins && st'.origins[k] == st.origins[k])
    ensures Held(c, st', st'.scopes)
  {
    assert ["r"] != ["a"] by { assert ["r"][0] == "r" && ["a"][0] == "a"; }
  }

  /// A `let` of a fresh borrow that meets no loan.
  lemma LetAccepted(c: Setup, v: Var, ty: Type, mut: bool, p: Place, st: State)
    requires Held(c, st, st.scopes) && st.scopes != [] && st.moved == {} && Pairs(c, v, p) && ContainsReference(ty)
    requires forall l :: l in st.loans ==> Disjoint(p, l.place)
    ensures var d := DefineLocal(v, ty, Some(Borrow(mut, Bare(p), Here)), Inspect(Borrow(mut, Bare(p), Here), Move, st));
            d.errs == {} && Held(c, d.st, Declare(v, ty, st.scopes)) && d.st.moved == {} &&
            d.st.loans <= st.loans + {Made(v, mut, p)}
  {
    BorrowInspected(p, mut, st);
    var i := Inspect(Borrow(mut, Bare(p), Here), Move, st);
    hide Inspect, Declare, Held;
    var declared := i.st.(scopes := Declare(v, ty, st.scopes));
    var cleared := SetOrigins([v], {}, MarkInitialized([v], declared));
    BorrowBound(v, mut, p, cleared, st.loans);
    var b := BindBorrow([v], Borrow(mut, Bare(p), Here), cleared);
    OneOrigin(v, Origin(p, mut, Here), cleared);
    HeldAfter(c, v, mut, p, st, b.st);
    hide BindBorrow, Disjoint, SetOrigins;
  }

  lemma FirstAccepted(c: Setup, lv: Tables)
    requires c.Proper()
    ensures var st := State({}, {}, c.Scopes0(), map[], true); var f := CheckStmt(c.LetR(), st, lv, None);
            f.errs == {} && Held(c, f.st, c.Scopes1()) && f.st.moved == {} && forall l :: l in f.st.loans ==> l.place == c.x
  {
    hide DefineLocal, Inspect;
    var st := State({}, {}, c.Scopes0(), map[], true);
    assert Expire(0, lv, st) == st;
    LetAccepted(c, "r", c.TypeR(), c.outer, c.x, st);
    InspectFrame(c.LetR().init.value, Move, st);
    Tables0(c);
  }

  lemma SecondAccepted(c: Setup, lv: Tables, st: State)
    requires c.Proper() && Held(c, st, c.Scopes1()) && st.moved == {} && forall l :: l in st.loans ==> l.place == c.x
    ensures var f := CheckStmt(c.LetA(), st, lv, None); f.errs == {} && Held(c, f.st, c.Scopes2()) && f.st.moved == {}
  {
    hide DefineLocal, Inspect;
    var e := Expire(1, lv, st);
    OtherRoot(c.Through(), c.x);
    LetAccepted(c, "a", c.TypeA(), c.inner, c.Through(), e);
    InspectFrame(c.LetA().init.value, Move, e);
    Tables0(c);
  }

  /// Before the access only `a` and `q` are live, so the loan of `r` is gone.
  lemma OuterExpires(c: Setup, q: Place, write: bool, lv: Tables)
    requires c.Proper() && Outside(q)
    requires AnnotatedBlock(Roots, AccessProbe(c, q, write).body, {}, {}, {}, lv.roots)
    requires AnnotatedBlock(FullPlaces, AccessProbe(c, q, write).body, {}, {}, {}, lv.places)
    ensures !LoanLiveAt(["r"], Before(lv.roots, 2), Before(lv.places, 2))
  {
    LiveAtAccess(Roots, c, q, write, lv.roots);
    LiveAtAccess(FullPlaces, c, q, write, lv.places);
    forall p | p in Before(lv.places, 2) ensures Disjoint(p, ["r"]) { OtherRoot(p, ["r"]); }
  }

  lemma LiveAtAccess(mode: Mode, c: Setup, q: Place, write: bool, table: LiveTable)
    requires Outside(q) && AnnotatedBlock(mode, AccessProbe(c, q, write).body, {}, {}, {}, table)
    ensures forall p :: p in Before(table, 2) ==> Root(p) == "a" || Root(p) == Root(q)
  {
    hide Live;
    var b3 := [UseA()] + [];
    var b2 := [Middle(q, write)] + b3;
    var b1 := [c.LetA()] + b2;
    var body := [c.LetR()] + b1;
    assert body[1..] == b1 && b1[1..] == b2 && b2[1..] == b3 && body[0] == c.LetR() && b1[0] == c.LetA() && b2[0] == Middle(q, write);
    assert AnnotatedBlock(mode, b1, {}, {}, {}, table);
    assert AnnotatedBlock(mode, b2, {}, {}, {}, table);
    assert Annotated(mode, Middle(q, write), LiveBlock(mode, b3, {}, {}, {}), {}, {}, table);
    LiveOfAccess(mode, q, write);
  }

  lemma LiveOfAccess(mode: Mode, q: Place, write: bool)
    ensures var live := Live(mode, Middle(q, write), LiveBlock(mode, [UseA()] + [], {}, {}, {}), {}, {});
            forall p :: p in live ==> Root(p) == "a" || Root(p) == Root(q)
  {
    var none: seq<Stmt>, nothing: seq<Expr> := [], [];
    var b3 := [UseA()] + none;
    assert b3[1..] == none && LiveBlock(mode, none, {}, {}, {}) == {};
    assert AllUses(mode, nothing) == {};
    var use := Live(mode, UseA(), {}, {}, {});
    assert LiveBlock(mode, b3, {}, {}, {}) == use;
    assert use == Uses(mode, UseA().expr) == PlaceUses(mode, ["a"]);
    UsesRoot(mode, ["a"]);
    UsesRoot(mode, q);
  }

  lemma UsesRoot(mode: Mode, q: Place)
    ensures forall p :: p in PlaceUses(mode, q) ==> Root(p) == Root(q)
  {
  }

  lemma AccessAccepted(c: Setup, q: Place, write: bool, lv: Tables, st: State)
    requires c.Proper() && Outside(q) && Held(c, st, c.Scopes2()) && st.moved == {}
    requires !LoanLiveAt(["r"], Before(lv.roots, 2), Before(lv.places, 2))
    ensures var f := CheckStmt(Middle(q, write), st, lv, None); f.errs == {} && Held(c, f.st, c.Scopes2())
  {
    var e := Expire(2, lv, st);
    hide Survives, LoanLiveAt, TypeOfPlace;
    forall l | l in e.loans ensures Root(l.place) == "r" && Disjoint(q, l.place) {
      SurvivesStored(l, lv);
      OtherRoot(q, l.place);
    }
    assert !IsWithin(q, ["r"]) && !IsWithin(q, ["a"]) by { assert ["r"][0] == "r" && ["a"][0] == "a"; }
    if write {
      WriteAccepted(c, q, e);
    }
  }

  lemma SurvivesStored(l: Loan, lv: Tables)
    ensures l.holder == Stored(["r"]) && Survives(l, Before(lv.roots, 2), Before(lv.places, 2)) ==>
              LoanLiveAt(["r"], Before(lv.roots, 2), Before(lv.places, 2))
  {
  }

  lemma WriteAccepted(c: Setup, q: Place, e: State)
    requires Outside(q) && Held(c, e, c.Scopes2()) && e.moved == {} && forall l :: l in e.loans ==> Disjoint(q, l.place)
    ensures var r := CheckAssign(false, Direct(Bare(q)), Literal, Here, e); r.errs == {} && Held(c, r.st, c.Scopes2())
  {
    hide TypeOfPlace, ContainsReference;
    var k := KillHoldersUnder(q, e);
    var w := AccessPlace(q, Here, Write, k, {});
    assert w == Checked(k, {});
  }

  lemma UseAccepted(c: Setup, lv: Tables, st: State)
    requires c.Proper() && Held(c, st, c.Scopes2())
    ensures var f := CheckStmt(UseA(), st, lv, None); f.errs == {} && Held(c, f.st, c.Scopes2())
  {
    ReadOfA(c, Expire(3, lv, st), Read);
  }

  /// `a` itself is neither moved nor borrowed.
  lemma ReadOfA(c: Setup, st: State, access: Access)
    requires c.Proper() && Held(c, st, c.Scopes2())
    ensures AccessPlace(["a"], Here, access, st, {}).errs == {}
  {
    forall p | p in st.moved ensures Disjoint(p, ["a"]) { OtherRoot(p, ["a"]); }
    forall l | l in st.loans ensures Disjoint(["a"], l.place) { OtherRoot(["a"], l.place); }
  }

  lemma ReturnAccepted(c: Setup, lv: Tables, st: State)
    requires c.Proper() && Held(c, st, c.Scopes2())
    ensures CheckStmt(ReturnA(), st, lv, None).errs == {}
  {
    var e := Expire(2, lv, st);
    ReadOfA(c, e, Move);
    assert OutermostVar("r", c.Scopes2()) == Some(c.TypeR()) || "r" in c.params;
    forall o | o in ReferenceOrigins(Use(Bare(["a"])), e) ensures o.place == c.Through() {
      assert !IsWithin(["a"], ["r"]) && !IsStrictChild(["r"], ["a"]) by { assert ["r"][0] == "r" && ["a"][0] == "a"; }
    }
  }

  lemma CheckSeqCons(s: Stmt, rest: seq<Stmt>, st: State, lv: Tables)
    requires st.reachable
    ensures var f := CheckStmt(s, st, lv, None); var r := CheckSeq(rest, f.st, lv, None); var all := CheckSeq([s] + rest, st, lv, None);
            all.st == r.st && all.errs == f.errs + r.errs
  {
    assert ([s] + rest)[1..] == rest;
  }

  lemma AccessProbeAccepted(c: Setup, q: Place, write: bool, lv: Tables)
    requires c.Proper() && Outside(q)
    requires AnnotatedBlock(Roots, AccessProbe(c, q, write).body, {}, {}, {}, lv.roots)
    requires AnnotatedBlock(FullPlaces, AccessProbe(c, q, write).body, {}, {}, {}, lv.places)
    ensures CheckFunction(AccessProbe(c, q, write), lv) == {}
  {
    OuterExpires(c, q, write, lv);
    hide CheckStmt, LoanLiveAt, AnnotatedBlock;
    var f := AccessProbe(c, q, write);
    var st0 := State({}, {}, c.Scopes0(), map[], true);
    assert PushScope(EntryState(f)) == st0;
    FirstAccepted(c, lv);
    var st1 := CheckStmt(c.LetR(), st0, lv, None).st;
    SecondAccepted(c, lv, st1);
    var st2 := CheckStmt(c.LetA(), st1, lv, None).st;
    AccessAccepted(c, q, write, lv, st2);
    var st3 := CheckStmt(Middle(q, write), st2, lv, None).st;
    UseAccepted(c, lv, st3);
    var st4 := CheckStmt(UseA(), st3, lv, None).st;
    CheckSeqCons(c.LetR(), [c.LetA()] + ([Middle(q, write)] + ([UseA()] + [])), st0, lv);
    CheckSeqCons(c.LetA(), [Middle(q, write)] + ([UseA()] + []), st1, lv);
    CheckSeqCons(Middle(q, write), [UseA()] + [], st2, lv);
    CheckSeqCons(UseA(), [], st3, lv);
    LeaveProbe(c, st4);
  }

  lemma LeaveProbe(c: Setup, st: State)
    requires Held(c, st, c.Scopes2())
    ensures Truncate(st, 1).errs == {}
  {
    assert st.scopes[1].Keys == {"r", "a"};
    assert PopScope(st).errs == {};
  }

  lemma ReturnProbeAccepted(c: Setup, lv: Tables)
    requires c.Proper()
    ensures CheckFunction(ReturnProbe(c), lv) == {}
  {
    hide CheckStmt;
    var f := ReturnProbe(c);
    var st0 := State({}, {}, c.Scopes0(), map[], true);
    assert PushScope(EntryState(f)) == st0;
    FirstAccepted(c, lv);
    var st1 := CheckStmt(c.LetR(), st0, lv, None).st;
    SecondAccepted(c, lv, st1);
    var st2 := CheckStmt(c.LetA(), st1, lv, None).st;
    ReturnAccepted(c, lv, st2);
    var st3 := CheckStmt(ReturnA(), st2, lv, None).st;
    CheckSeqCons(c.LetR(), [c.LetA()] + ([ReturnA()] + []), st0, lv);
    CheckSeqCons(c.LetA(), [ReturnA()] + [], st1, lv);
    CheckSeqCons(ReturnA(), [], st2, lv);
    ReturnLeaves(c, lv, st2);
  }

  lemma ReturnLeaves(c: Setup, lv: Tables, st: State)
    requires Held(c, st, c.Scopes2())
    ensures Truncate(CheckStmt(ReturnA(), st, lv, None).st, 1).errs == {}
  {
    var end := CheckStmt(ReturnA(), st, lv, None).st;
    assert end.scopes == c.Scopes2() && end.origins == st.origins;
    assert end.scopes[1].Keys == {"r", "a"};
    assert PopScope(end).errs == {};
  }

  // ---- the probes' only paths ----

  function Kind(c: Setup, q: Place, write: bool): Access {
    if write then Write else Effective(q, Move, c.Scopes2())
  }

  function Head(c: Setup): seq<Event> {
    [Touch(c.x, if c.outer then BorrowMut else BorrowShared), Initialize(["r"]), Bind("r", c.x, c.outer, Here)] +
    [Touch(c.Through(), if c.inner then BorrowMut else BorrowShared), Initialize(["a"]), Bind("a", c.Through(), c.inner, Here)]
  }

  function AccessEvents(c: Setup, q: Place, write: bool): seq<Event> {
    [Touch(q, Kind(c, q, write))] + if write then [Initialize(q)] else []
  }

  lemma RunSeqCons(s: Stmt, rest: seq<Stmt>, scopes: Scopes, ch: seq<bool>)
    requires Run(s, scopes, ch).out == Normal
    ensures var r := Run(s, scopes, ch); RunSeq([s] + rest, scopes, ch) == After(r.events, RunSeq(rest, r.scopes, r.rest))
  {
    assert ([s] + rest)[1..] == rest;
  }

  lemma LetEventsAre(c: Setup, ch: seq<bool>)
    ensures Run(c.LetR(), c.Scopes0(), ch) ==
              Result([Touch(c.x, if c.outer then BorrowMut else BorrowShared), Initialize(["r"]), Bind("r", c.x, c.outer, Here)],
                     Normal, c.Scopes1(), ch)
    ensures Run(c.LetA(), c.Scopes1(), ch) ==
              Result([Touch(c.Through(), if c.inner then BorrowMut else BorrowShared), Initialize(["a"]),
                      Bind("a", c.Through(), c.inner, Here)], Normal, c.Scopes2(), ch)
  {
    Tables0(c);
    var none: seq<Expr> := [];
    assert OperandEvents(none, c.Scopes0()) == [] && OperandEvents(none, c.Scopes1()) == [];
  }

  lemma LastEventsAre(c: Setup, q: Place, write: bool, ch: seq<bool>)
    ensures Run(Middle(q, write), c.Scopes2(), ch) == Result(AccessEvents(c, q, write), Normal, c.Scopes2(), ch)
    ensures Run(UseA(), c.Scopes2(), ch) == Result([Touch(["a"], Read)], Normal, c.Scopes2(), ch)
    ensures var r := Run(ReturnA(), c.Scopes2(), ch);
            r.events == [EscapeOf("a", c.Scopes2())] + [Touch(["a"], Effective(["a"], Move, c.Scopes2()))] + [Exit(c.Scopes2())] &&
            r.out == Returned
  {
    var none: seq<Expr> := [];
    assert OperandEvents(none, c.Scopes2()) == [];
    assert BindEvents(Root(q), ContainsReference(TypeOfPlace(q, c.Scopes2())), Literal) == [];
    assert Run(ReturnA(), c.Scopes2(), ch).events ==
           EscapeEvents(ReturnA().result.value, c.Scopes2()) + OptEvents(ReturnA().result, c.Scopes2()) + [Exit(c.Scopes2())];
  }

  lemma AccessProbeEvents(c: Setup, q: Place, write: bool, ch: seq<bool>)
    ensures FunctionEvents(AccessProbe(c, q, write), ch) ==
            Head(c) + (AccessEvents(c, q, write) + ([Touch(["a"], Read)] + [Dead({"r", "a"})])) + [Exit([c.params])]
  {
    hide Run;
    var f := AccessProbe(c, q, write);
    assert [f.params] + [map[]] == c.Scopes0();
    LetEventsAre(c, ch);
    LastEventsAre(c, q, write, ch);
    RunSeqCons(c.LetR(), [c.LetA()] + ([Middle(q, write)] + ([UseA()] + [])), c.Scopes0(), ch);
    RunSeqCons(c.LetA(), [Middle(q, write)] + ([UseA()] + []), c.Scopes1(), ch);
    RunSeqCons(Middle(q, write), [UseA()] + [], c.Scopes2(), ch);
    RunSeqCons(UseA(), [], c.Scopes2(), ch);
    var r := RunSeq(f.body, c.Scopes0(), ch);
    assert r.events == Head(c) + (AccessEvents(c, q, write) + ([Touch(["a"], Read)] + []));
    assert r.scopes[1].Keys == {"r", "a"};
  }

  lemma ReturnProbeEvents(c: Setup, ch: seq<bool>)
    ensures FunctionEvents(ReturnProbe(c), ch) ==
            Head(c) + ([EscapeOf("a", c.Scopes2())] + [Touch(["a"], Effective(["a"], Move, c.Scopes2()))]) + [Exit(c.Scopes2())]
  {
    hide Run;
    var f := ReturnProbe(c);
    assert [f.params] + [map[]] == c.Scopes0();
    LetEventsAre(c, ch);
    LastEventsAre(c, c.x, false, ch);
    RunSeqCons(c.LetR(), [c.LetA()] + ([ReturnA()] + []), c.Scopes0(), ch);
    RunSeqCons(c.LetA(), [ReturnA()] + [], c.Scopes1(), ch);
    assert RunSeq([ReturnA()] + [], c.Scopes2(), ch) == Run(ReturnA(), c.Scopes2(), ch);
    assert RunSeq(f.body, c.Scopes0(), ch).events ==
           Head(c) + ([EscapeOf("a", c.Scopes2())] + [Touch(["a"], Effective(["a"], Move, c.Scopes2()))]) + [Exit(c.Scopes2())];
  }

  // ---- what the monitor sees ----

  function BoundR(c: Setup): Binding { Binding("r", c.x, c.outer, Here) }

  function BoundA(c: Setup): Binding { Binding("a", c.Through(), c.inner, Here) }

  function DerivedA(c: Setup): Binding { Binding("a", c.Referent(), c.inner && c.outer, Here) }

  lemma SafeCons(m: Monitor, e: Event, rest: seq<Event>)
    ensures Safe(m, [e] + rest) <==> Ok(m, e) && Safe(Step(m, e), rest)
    ensures Observe(m, [e] + rest) == Observe(Step(m, e), rest)
  {
    assert ([e] + rest)[1..] == rest;
  }

  lemma BindsR(c: Setup)
    requires c.Proper()
    ensures var ev := [Touch(c.x, if c.outer then BorrowMut else BorrowShared), Initialize(["r"]), Bind("r", c.x, c.outer, Here)];
            Safe(Start, ev) && Observe(Start, ev) == Monitor({BoundR(c)}, {}, {}, {}, {})
  {
    var e0, e1, e2 := Touch(c.x, if c.outer then BorrowMut else BorrowShared), Initialize(["r"]), Bind("r", c.x, c.outer, Here);
    var m1 := Monitor({BoundR(c)}, {}, {}, {}, {});
    FirstSteps(c);
    hide Step, Ok;
    assert [e0, e1, e2] == [e0] + ([e1] + ([e2] + []));
    SafeCons(Start, e2, []);
    SafeCons(Start, e1, [e2] + []);
    SafeCons(Start, e0, [e1] + ([e2] + []));
    NothingFollows(m1);
  }

  lemma FirstSteps(c: Setup)
    ensures var e0, e1, e2 := Touch(c.x, if c.outer then BorrowMut else BorrowShared), Initialize(["r"]), Bind("r", c.x, c.outer, Here);
            Ok(Start, e0) && Step(Start, e0) == Start && Ok(Start, e1) && Step(Start, e1) == Start &&
            Ok(Start, e2) && Step(Start, e2) == Monitor({BoundR(c)}, {}, {}, {}, {})
  {
  }

  lemma ThroughSteps(c: Setup)
    requires c.Proper()
    ensures var m := Monitor({BoundR(c)}, {}, {}, {}, {}); var e := Touch(c.Through(), if c.inner then BorrowMut else BorrowShared);
            Ok(m, e) && Step(m, e) == m && Ok(m, Initialize(["a"])) && Step(m, Initialize(["a"])) == m
  {
    OtherRoot(c.Through(), c.x);
    assert ["a"][0] == "a" && ["r"][0] == "r";
  }

  lemma BindsA(c: Setup)
    requires c.Proper()
    ensures var m := Monitor({BoundR(c)}, {}, {}, {}, {}); var e := Bind("a", c.Through(), c.inner, Here);
            Ok(m, e) && Step(m, e) == Monitor({BoundR(c), BoundA(c), DerivedA(c)}, {}, {}, {}, {})
  {
    var m := Monitor({BoundR(c)}, {}, {}, {}, {});
    assert Derived(m, "a", c.Through(), c.inner, Here) == {DerivedA(c)} by {
      assert c.Through()[1..] == c.path;
    }
  }

  /// Both references are bound, `a` to its place and to what that reaches.
  lemma HeadSteps(c: Setup)
    requires c.Proper()
    ensures Safe(Start, Head(c)) && Observe(Start, Head(c)) == Monitor({BoundR(c), BoundA(c), DerivedA(c)}, {}, {}, {}, {})
  {
    hide Ok, Step, Safe, Observe;
    var e3, e4, e5 := Touch(c.Through(), if c.inner then BorrowMut else BorrowShared), Initialize(["a"]), Bind("a", c.Through(), c.inner, Here);
    var m1 := Monitor({BoundR(c)}, {}, {}, {}, {});
    BindsR(c);
    ThroughSteps(c);
    BindsA(c);
    var second := [e3] + ([e4] + ([e5] + []));
    SafeCons(m1, e5, []);
    SafeCons(m1, e4, [e5] + []);
    SafeCons(m1, e3, [e4] + ([e5] + []));
    NothingFollows(Step(m1, e5));
    var first := [Touch(c.x, if c.outer then BorrowMut else BorrowShared), Initialize(["r"]), Bind("r", c.x, c.outer, Here)];
    ObserveConcat(Start, first, second);
    assert Head(c) == first + second;
  }

  lemma NothingFollows(m: Monitor)
    ensures Safe(m, []) && Observe(m, []) == m
  {
  }

  /// After the access: what `a` refers to is broken exactly when it was struck.
  ghost predicate Accessed(c: Setup, m: Monitor, struck: bool) {
    && (forall b :: b in m.active + m.broken ==> b.holder == "a" || b.holder == "r")
    && (if struck then DerivedA(c) in m.broken else forall b :: b in m.broken ==> b.holder == "r")
    && (forall p :: p in m.moved ==> Outside(p))
  }

  lemma AccessSteps(c: Setup, q: Place, write: bool)
    requires c.Proper() && Outside(q)
    ensures var m := Monitor({BoundR(c), BoundA(c), DerivedA(c)}, {}, {}, {}, {}); var ev := AccessEvents(c, q, write);
            Safe(m, ev) && Accessed(c, Observe(m, ev), Strikes(Touch(q, Kind(c, q, write)), c.Referent(), c.inner && c.outer))
  {
    var m, e := Monitor({BoundR(c), BoundA(c), DerivedA(c)}, {}, {}, {}, {}), Touch(q, Kind(c, q, write));
    var struck := Strikes(e, c.Referent(), c.inner && c.outer);
    OtherRoot(q, c.Through());
    assert !Hits(e, BoundA(c));
    assert Hits(e, DerivedA(c)) == struck;
    var m1 := Step(m, e);
    assert Accessed(c, m1, struck);
    if write {
      var i := Initialize(q);
      assert q != ["a"] && q != ["r"] by { assert ["a"][0] == "a" && ["r"][0] == "r"; }
      assert Ok(m1, i) && Accessed(c, Step(m1, i), struck);
      SafeCons(m1, i, []);
      SafeCons(m, e, [i] + []);
      assert AccessEvents(c, q, write) == [e] + ([i] + []);
    } else {
      SafeCons(m, e, []);
      assert AccessEvents(c, q, write) == [e] + [];
    }
  }

  lemma UseSteps(c: Setup, m: Monitor, struck: bool)
    requires Accessed(c, m, struck)
    ensures Safe(m, [Touch(["a"], Read)] + [Dead({"r", "a"})]) <==> !struck
  {
    var e, d := Touch(["a"], Read), Dead({"r", "a"});
    forall p | p in m.moved ensures !UsesMoved(e, p) { OtherRoot(p, ["a"]); }
    assert Ok(m, e) <==> !struck by {
      if struck { assert UsesHolder(e, DerivedA(c).holder); }
    }
    var m1 := Step(m, e);
    assert Ok(m1, d) by {
      forall b | b in m1.active + m1.broken ensures !Dangles(d, b) { assert b in m.active + m.broken; }
    }
    SafeCons(m1, d, []);
    SafeCons(m, e, [d] + []);
    assert [d] + [] == [d];
  }

  /// The checker accepts an access to `q` while a reference made through `r` is
  /// still to be used, whatever `q` is; that is safe exactly when the access is
  /// not against the place the reference refers to in the end. The soundness
  /// theorem leaves such functions out.
  lemma FieldBorrowOutlivesItsReference(c: Setup, q: Place, write: bool, lv: Tables, ch: seq<bool>)
    requires c.Proper() && Outside(q)
    requires AnnotatedBlock(Roots, AccessProbe(c, q, write).body, {}, {}, {}, lv.roots)
    requires AnnotatedBlock(FullPlaces, AccessProbe(c, q, write).body, {}, {}, {}, lv.places)
    ensures CheckFunction(AccessProbe(c, q, write), lv) == {}
    ensures Safe(Start, FunctionEvents(AccessProbe(c, q, write), ch)) <==>
            Disjoint(q, c.Referent()) || !Forbidden(Kind(c, q, write), c.inner && c.outer)
    ensures !Admissible(AccessProbe(c, q, write))
  {
    AccessProbeAccepted(c, q, write, lv);
    hide CheckFunction, AnnotatedBlock, FunctionEvents, Safe, Observe, Admissible, Head, AccessEvents;
    AccessProbeEvents(c, q, write, ch);
    AccessProbeSafety(c, q, write);
    NothingStored(c, q, write);
    ExitIsFree(Start, Head(c) + (AccessEvents(c, q, write) + ([Touch(["a"], Read)] + [Dead({"r", "a"})])), [c.params]);
    NotAdmissible(c, AccessProbe(c, q, write), [Middle(q, write)] + ([UseA()] + []));
  }

  lemma NothingStored(c: Setup, q: Place, write: bool)
    ensures forall e :: e in Head(c) ==> !e.Store?
    ensures forall e :: e in AccessEvents(c, q, write) ==> !e.Store?
  {
  }

  lemma AccessProbeSafety(c: Setup, q: Place, write: bool)
    requires c.Proper() && Outside(q)
    ensures Safe(Start, Head(c) + (AccessEvents(c, q, write) + ([Touch(["a"], Read)] + [Dead({"r", "a"})]))) <==>
            Disjoint(q, c.Referent()) || !Forbidden(Kind(c, q, write), c.inner && c.outer)
  {
    hide Safe, Observe, Head, AccessEvents, Kind;
    HeadSteps(c);
    AccessSteps(c, q, write);
    var m := Monitor({BoundR(c), BoundA(c), DerivedA(c)}, {}, {}, {}, {});
    var ev, last := AccessEvents(c, q, write), [Touch(["a"], Read)] + [Dead({"r", "a"})];
    ObserveConcat(m, ev, last);
    ObserveConcat(Start, Head(c), ev + last);
    UseSteps(c, Observe(m, ev), Strikes(Touch(q, Kind(c, q, write)), c.Referent(), c.inner && c.outer));
  }

  /// Whatever lists `r` as bound rules out a borrow that goes through it.
  lemma LetsExclude(c: Setup, cx: Context)
    ensures InFragment(cx, c.LetR(), c.Scopes0()) ==> "r" in cx.bound
    ensures InFragment(cx, c.LetA(), c.Scopes1()) ==> "r" !in cx.bound
  {
  }

  lemma NotAdmissible(c: Setup, f: Function, rest: seq<Stmt>)
    requires f == Function(c.params, [c.LetR()] + ([c.LetA()] + rest))
    ensures !Admissible(f)
  {
    var b1 := [c.LetA()] + rest;
    assert f.body[1..] == b1 && f.body[0] == c.LetR() && b1[0] == c.LetA();
    assert [f.params] + [map[]] == c.Scopes0();
    Tables0(c);
    forall cx ensures !Fits(f, cx) {
      LetsExclude(c, cx);
      assert Fits(f, cx) ==> InFragment(cx, c.LetR(), c.Scopes0()) && SeqInFragment(cx, b1, c.Scopes1());
      assert SeqInFragment(cx, b1, c.Scopes1()) ==> InFragment(cx, c.LetA(), c.Scopes1());
    }
  }

  /// The checker lets the reference leave the function, too: that is safe
  /// exactly when what it refers to in the end is not the function's own.
  lemma FieldBorrowEscapes(c: Setup, lv: Tables, ch: seq<bool>)
    requires c.Proper()
    ensures CheckFunction(ReturnProbe(c), lv) == {}
    ensures Safe(Start, FunctionEvents(ReturnProbe(c), ch)) <==> !StackOwned(c.Referent(), c.Scopes2())
    ensures !Admissible(ReturnProbe(c))
  {
    ReturnProbeAccepted(c, lv);
    hide CheckFunction, FunctionEvents, Safe, Observe, Admissible, Head;
    ReturnProbeEvents(c, ch);
    NothingStored(c, c.x, false);
    HeadSteps(c);
    var m := Monitor({BoundR(c), BoundA(c), DerivedA(c)}, {}, {}, {}, {});
    var last := [EscapeOf("a", c.Scopes2())] + [Touch(["a"], Effective(["a"], Move, c.Scopes2()))];
    ObserveConcat(Start, Head(c), last);
    ExitIsFree(Start, Head(c) + last, c.Scopes2());
    ReturnSteps(c);
    NotAdmissible(c, ReturnProbe(c), [ReturnA()] + []);
  }

  lemma ReturnSteps(c: Setup)
    requires c.Proper()
    ensures var m := Monitor({BoundR(c), BoundA(c), DerivedA(c)}, {}, {}, {}, {});
            Safe(m, [EscapeOf("a", c.Scopes2())] + [Touch(["a"], Effective(["a"], Move, c.Scopes2()))]) <==>
            !StackOwned(c.Referent(), c.Scopes2())
  {
    var m := Monitor({BoundR(c), BoundA(c), DerivedA(c)}, {}, {}, {}, {});
    var e, t := EscapeOf("a", c.Scopes2()), Touch(["a"], Effective(["a"], Move, c.Scopes2()));
    assert OutermostVar("r", c.Scopes2()) == Some(c.TypeR()) by {
      assert c.Scopes2()[1..] == [map["r" := c.TypeR(), "a" := c.TypeA()]];
    }
    assert !Dangles(e, BoundA(c)) && (Dangles(e, DerivedA(c)) <==> StackOwned(c.Referent(), c.Scopes2()));
    assert Step(m, e) == m;
    assert Ok(m, t);
    SafeCons(m, t, []);
    SafeCons(m, e, [t] + []);
    assert [t] + [] == [t];
  }
}
