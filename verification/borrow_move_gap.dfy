/// A move out through a reference moves the referent, which nothing records.

module MoveGap {
  import opened Places
  import opened BorrowSyntax
  import opened BorrowState
  import opened BorrowCheck
  import opened Liveness
  import opened Paths
  import opened CallArguments
  import opened StmtSoundness
  import opened BorrowTheorems
  import F = FieldGap
  import S = StoreGap

  /// `r.path`, or `deref r`.
  function TakeIt(c: F.Setup, whole: bool): Stmt {
    ExprStmt(1, if whole then Deref(F.Bare(["r"])) else Use(F.Bare(c.Through())))
  }

  /// `let r = borrow [mut] x; r.path; <access q>`, or with `deref r` for `r.path`.
  function Probe(c: F.Setup, whole: bool, q: Place, write: bool): Function {
    Function(c.params, [c.LetR()] + ([TakeIt(c, whole)] + ([F.Middle(q, write)] + [])))
  }

  /// Is the value taken one that moves?
  predicate Moves(c: F.Setup, whole: bool) {
    if whole then !IsCopyType(c.ty) else !IsCopyType(TypeOfPlace(c.Through(), c.Scopes1()))
  }

  /// Where the value taken is.
  function Taken(c: F.Setup, whole: bool): Place { if whole then c.x else c.Referent() }

  lemma TypeOfR(c: F.Setup)
    ensures TypeOfPlace(["r"], c.Scopes1()) == c.TypeR()
  {
    assert ["r"][1..] == [];
  }

  // ---- the checker accepts ----

  /// The reference `r` is all that has left loans and origins.
  ghost predicate Held(c: F.Setup, st: State) {
    && st.reachable && st.scopes == c.Scopes1()
    && (forall p :: p in st.moved ==> Root(p) == "r" || F.Outside(p))
    && (forall l :: l in st.loans ==> l.place == c.x && l.holder == Stored(["r"]))
    && (forall k :: k in st.origins ==> k == ["r"])
  }

  lemma TakeAccepted(c: F.Setup, whole: bool, lv: Tables, st: State)
    requires c.Proper() && Held(c, st) && st.moved == {}
    ensures var f := CheckStmt(TakeIt(c, whole), st, lv, None);
            f.errs == {} && Held(c, f.st) && forall p :: p in f.st.moved ==> Root(p) == "r"
  {
    var e := Expire(1, lv, st);
    var p := if whole then ["r"] else c.Through();
    F.OtherRoot(p, c.x);
    hide TypeOfPlace, IsCopyType;
  }

  /// Before the access only `q` is live, so the loan of `r` is gone.
  lemma LoanExpires(c: F.Setup, whole: bool, q: Place, write: bool, lv: Tables)
    requires F.Outside(q)
    requires AnnotatedBlock(Roots, Probe(c, whole, q, write).body, {}, {}, {}, lv.roots)
    requires AnnotatedBlock(FullPlaces, Probe(c, whole, q, write).body, {}, {}, {}, lv.places)
    ensures !LoanLiveAt(["r"], Before(lv.roots, 2), Before(lv.places, 2))
  {
    LiveAtAccess(Roots, c, whole, q, write, lv.roots);
    LiveAtAccess(FullPlaces, c, whole, q, write, lv.places);
    forall p | p in Before(lv.places, 2) ensures Disjoint(p, ["r"]) { F.OtherRoot(p, ["r"]); }
  }

  lemma LiveAtAccess(mode: Mode, c: F.Setup, whole: bool, q: Place, write: bool, table: LiveTable)
    requires AnnotatedBlock(mode, Probe(c, whole, q, write).body, {}, {}, {}, table)
    ensures forall p :: p in Before(table, 2) ==> Root(p) == Root(q)
  {
    hide Live;
    var none: seq<Stmt> := [];
    var b2 := [F.Middle(q, write)] + none;
    var b1 := [TakeIt(c, whole)] + b2;
    var body := [c.LetR()] + b1;
    assert body[1..] == b1 && b1[1..] == b2 && b2[1..] == none && b1[0] == TakeIt(c, whole) && b2[0] == F.Middle(q, write);
    assert AnnotatedBlock(mode, b1, {}, {}, {}, table);
    assert AnnotatedBlock(mode, b2, {}, {}, {}, table);
    assert LiveBlock(mode, none, {}, {}, {}) == {};
    assert Annotated(mode, F.Middle(q, write), LiveBlock(mode, none, {}, {}, {}), {}, {}, table);
    LiveOfAccess(mode, q, write);
  }

  lemma LiveOfAccess(mode: Mode, q: Place, write: bool)
    ensures forall p :: p in Live(mode, F.Middle(q, write), {}, {}, {}) ==> Root(p) == Root(q)
  {
    var nothing: seq<Expr> := [];
    assert AllUses(mode, nothing) == {};
    F.UsesRoot(mode, q);
  }

  lemma NoLoansLeft(c: F.Setup, lv: Tables, st: State)
    requires Held(c, st) && !LoanLiveAt(["r"], Before(lv.roots, 2), Before(lv.places, 2))
    ensures Expire(2, lv, st) == st.(loans := {})
  {
    hide LoanLiveAt;
  }

  lemma AccessAccepted(c: F.Setup, q: Place, write: bool, lv: Tables, st: State)
    requires c.Proper() && F.Outside(q) && Held(c, st) && forall p :: p in st.moved ==> Root(p) == "r"
    requires !LoanLiveAt(["r"], Before(lv.roots, 2), Before(lv.places, 2))
    ensures var f := CheckStmt(F.Middle(q, write), st, lv, None); f.errs == {} && Held(c, f.st)
  {
    NoLoansLeft(c, lv, st);
    var e := st.(loans := {});
    forall p | p in st.moved ensures Disjoint(p, q) && !IsStrictChild(p, q) {
      F.OtherRoot(p, q);
      if IsStrictChild(p, q) { NestedConflict(p, q); }
    }
    hide Survives, LoanLiveAt, TypeOfPlace;
    if write {
      WriteAccepted(c, q, e);
    }
  }

  lemma WriteAccepted(c: F.Setup, q: Place, e: State)
    requires F.Outside(q) && Held(c, e) && e.loans == {} && forall p :: p in e.moved ==> !IsStrictChild(p, q)
    ensures var r := CheckAssign(false, Direct(F.Bare(q)), Literal, F.Here, e); r.errs == {} && Held(c, r.st)
  {
    hide TypeOfPlace, ContainsReference;
    var k := KillHoldersUnder(q, e);
    assert AccessPlace(q, F.Here, Write, k, {}) == Checked(k, {});
  }

  lemma ProbeAccepted(c: F.Setup, whole: bool, q: Place, write: bool, lv: Tables)
    requires c.Proper() && F.Outside(q)
    requires AnnotatedBlock(Roots, Probe(c, whole, q, write).body, {}, {}, {}, lv.roots)
    requires AnnotatedBlock(FullPlaces, Probe(c, whole, q, write).body, {}, {}, {}, lv.places)
    ensures CheckFunction(Probe(c, whole, q, write), lv) == {}
  {
    LoanExpires(c, whole, q, write, lv);
    hide CheckStmt, LoanLiveAt, AnnotatedBlock;
    var f := Probe(c, whole, q, write);
    var st0 := State({}, {}, c.Scopes0(), map[], true);
    assert PushScope(EntryState(f)) == st0;
    LetRAccepted(c, lv);
    var st1 := CheckStmt(c.LetR(), st0, lv, None).st;
    TakeAccepted(c, whole, lv, st1);
    var st2 := CheckStmt(TakeIt(c, whole), st1, lv, None).st;
    AccessAccepted(c, q, write, lv, st2);
    var st3 := CheckStmt(F.Middle(q, write), st2, lv, None).st;
    F.CheckSeqCons(c.LetR(), [TakeIt(c, whole)] + ([F.Middle(q, write)] + []), st0, lv);
    F.CheckSeqCons(TakeIt(c, whole), [F.Middle(q, write)] + [], st1, lv);
    F.CheckSeqCons(F.Middle(q, write), [], st2, lv);
    ProbeLeft(c, st3);
  }

  lemma LetRAccepted(c: F.Setup, lv: Tables)
    requires c.Proper()
    ensures var st := State({}, {}, c.Scopes0(), map[], true); var f := CheckStmt(c.LetR(), st, lv, None);
            f.errs == {} && Held(c, f.st) && f.st.moved == {}
  {
    hide DefineLocal, Inspect;
    var st := State({}, {}, c.Scopes0(), map[], true);
    assert Expire(0, lv, st) == st;
    S.LetBorrow("r", c.TypeR(), c.outer, c.x, st);
    InspectFrame(c.LetR().init.value, Move, st);
    F.Tables0(c);
  }

  lemma ProbeLeft(c: F.Setup, st: State)
    requires Held(c, st)
    ensures Truncate(st, 1).errs == {}
  {
    assert st.scopes[1].Keys == {"r"};
    assert PopScope(st).errs == {};
  }

  // ---- the probe's only path ----

  function Kind(c: F.Setup, q: Place, write: bool): Access {
    if write then Write else Effective(q, Move, c.Scopes1())
  }

  function AccessEvents(c: F.Setup, q: Place, write: bool): seq<Event> {
    [Touch(q, Kind(c, q, write))] + if write then [Initialize(q)] else []
  }

  function HeadEvents(c: F.Setup): seq<Event> {
    [Touch(c.x, if c.outer then BorrowMut else BorrowShared), Initialize(["r"]), Bind("r", c.x, c.outer, F.Here)]
  }

  function TakenEvents(c: F.Setup, whole: bool): seq<Event> {
    if whole then [Touch(["r"], Read)] + if Moves(c, whole) then [Take(["r"])] else []
    else [Touch(c.Through(), if Moves(c, whole) then Move else Read)] + []
  }

  lemma TakeRuns(c: F.Setup, whole: bool, ch: seq<bool>)
    ensures Run(TakeIt(c, whole), c.Scopes1(), ch) == Result(TakenEvents(c, whole), Normal, c.Scopes1(), ch)
  {
    var none: seq<Expr> := [];
    TypeOfR(c);
    assert OperandEvents(none, c.Scopes1()) == [];
  }

  lemma AccessRuns(c: F.Setup, q: Place, write: bool, ch: seq<bool>)
    ensures Run(F.Middle(q, write), c.Scopes1(), ch) == Result(AccessEvents(c, q, write), Normal, c.Scopes1(), ch)
  {
    var none: seq<Expr> := [];
    assert OperandEvents(none, c.Scopes1()) == [];
    assert BindEvents(Root(q), ContainsReference(TypeOfPlace(q, c.Scopes1())), Literal) == [];
  }

  lemma ProbeEvents(c: F.Setup, whole: bool, q: Place, write: bool, ch: seq<bool>)
    ensures FunctionEvents(Probe(c, whole, q, write), ch) ==
            HeadEvents(c) + (TakenEvents(c, whole) + (AccessEvents(c, q, write) + [Dead({"r"})])) + [Exit([c.params])]
  {
    var f := Probe(c, whole, q, write);
    var h, t, a := HeadEvents(c), TakenEvents(c, whole), AccessEvents(c, q, write);
    BodyRuns(c, whole, q, write, ch);
    assert [f.params] + [map[]] == c.Scopes0() && f.params == c.params && |c.Scopes1()| == 2;
    assert c.Scopes1()[1].Keys == {"r"};
    hide *;
    S.WholeRun(f, c.Scopes1(), h + (t + (a + [])), ch);
    assert h + (t + (a + [])) + [Dead({"r"})] == h + (t + (a + [Dead({"r"})]));
  }

  lemma BodyRuns(c: F.Setup, whole: bool, q: Place, write: bool, ch: seq<bool>)
    ensures RunSeq(Probe(c, whole, q, write).body, c.Scopes0(), ch) ==
            Result(HeadEvents(c) + (TakenEvents(c, whole) + (AccessEvents(c, q, write) + [])), Normal, c.Scopes1(), ch)
  {
    var s0, s1 := c.Scopes0(), c.Scopes1();
    var none: seq<Stmt> := [];
    F.LetEventsAre(c, ch);
    TakeRuns(c, whole, ch);
    AccessRuns(c, q, write, ch);
    assert RunSeq(none, s1, ch) == Result([], Normal, s1, ch);
    assert Probe(c, whole, q, write).body == [c.LetR()] + ([TakeIt(c, whole)] + ([F.Middle(q, write)] + none));
    assert Run(c.LetR(), s0, ch) == Result(HeadEvents(c), Normal, s1, ch);
    var h, t, a := HeadEvents(c), TakenEvents(c, whole), AccessEvents(c, q, write);
    hide *;
    S.SeqRuns(F.Middle(q, write), none, s1, s1, s1, a, [], ch);
    S.SeqRuns(TakeIt(c, whole), [F.Middle(q, write)] + none, s1, s1, s1, t, a + [], ch);
    S.SeqRuns(c.LetR(), [TakeIt(c, whole)] + ([F.Middle(q, write)] + none), s0, s1, s1, h, t + (a + []), ch);
  }

  // ---- what the monitor sees ----

  function AtTake(c: F.Setup): Monitor { Monitor({F.BoundR(c)}, {}, {}, {}, {}) }

  function AfterTake(c: F.Setup, whole: bool): Monitor {
    AtTake(c).(moved := if !Moves(c, whole) then {} else if whole then {c.x} else {c.Through(), c.Referent()})
  }

  lemma ReferentsAre(c: F.Setup)
    ensures Referents(AtTake(c), ["r"]) == {c.x} && Referents(AtTake(c), c.Through()) == {c.Referent()}
  {
    assert F.BoundR(c) in AtTake(c).active;
    assert c.x + ["r"][1..] == c.x;
    assert c.Through()[1..] == c.path;
  }

  lemma TakeSteps(c: F.Setup, whole: bool)
    requires c.Proper()
    ensures Safe(AtTake(c), TakenEvents(c, whole)) && Observe(AtTake(c), TakenEvents(c, whole)) == AfterTake(c, whole)
  {
    var m := AtTake(c);
    ReferentsAre(c);
    if whole {
      WholeSteps(c);
      hide Step, Ok, AtTake, AfterTake, Referents;
      var e, t := Touch(["r"], Read), Take(["r"]);
      if Moves(c, whole) {
        F.SafeCons(m, t, []);
        F.SafeCons(m, e, [t] + []);
        F.NothingFollows(Step(m, t));
        assert TakenEvents(c, whole) == [e] + ([t] + []);
      } else {
        F.SafeCons(m, e, []);
        F.NothingFollows(m);
        NothingTaken(c, whole);
        assert TakenEvents(c, whole) == [e] + [];
      }
    } else {
      PartSteps(c);
      hide Step, Ok, AtTake, AfterTake, Referents;
      var e := Touch(c.Through(), if Moves(c, whole) then Move else Read);
      F.SafeCons(m, e, []);
      F.NothingFollows(AfterTake(c, whole));
    }
  }

  lemma NothingTaken(c: F.Setup, whole: bool)
    requires !Moves(c, whole)
    ensures AfterTake(c, whole) == AtTake(c)
  {
  }

  lemma WholeSteps(c: F.Setup)
    requires c.Proper()
    ensures var m := AtTake(c); var e, t := Touch(["r"], Read), Take(["r"]);
            Ok(m, e) && Step(m, e) == m && Ok(m, t) && (Moves(c, true) ==> Step(m, t) == AfterTake(c, true))
  {
    F.OtherRoot(["r"], c.x);
    ReferentsAre(c);
    var m, e := AtTake(c), Touch(["r"], Read);
    assert !Hits(e, F.BoundR(c));
    var m1 := Step(m, e);
    assert m1.active == m.active && m1.broken == {} && m1.moved == {} && m1.passed == {};
  }

  lemma PartSteps(c: F.Setup)
    requires c.Proper()
    ensures var m := AtTake(c); var e := Touch(c.Through(), if Moves(c, false) then Move else Read);
            Ok(m, e) && Step(m, e) == AfterTake(c, false)
  {
    F.OtherRoot(c.Through(), c.x);
    ReferentsAre(c);
    var m, e := AtTake(c), Touch(c.Through(), if Moves(c, false) then Move else Read);
    assert !Hits(e, F.BoundR(c));
    var m1 := Step(m, e);
    assert m1.active == m.active && m1.broken == {} && m1.passed == {};
  }

  /// The access may be made exactly if it does not need what was taken.
  lemma AccessSteps(c: F.Setup, whole: bool, q: Place, write: bool)
    requires c.Proper() && F.Outside(q)
    ensures Safe(AfterTake(c, whole), AccessEvents(c, q, write) + [Dead({"r"})]) <==>
            !Moves(c, whole) || !UsesMoved(Touch(q, Kind(c, q, write)), Taken(c, whole))
  {
    var m, e, d := AfterTake(c, whole), Touch(q, Kind(c, q, write)), Dead({"r"});
    AccessOk(c, whole, q, Kind(c, q, write));
    var m1 := Step(m, e);
    HoldersStay(m, e);
    if write {
      var i := Initialize(q);
      HoldersStay(m1, i);
      AlwaysOk(m1, i);
      AlwaysOk(Step(m1, i), d);
      hide Step, Ok;
      F.SafeCons(Step(m1, i), d, []);
      F.SafeCons(m1, i, [d] + []);
      F.SafeCons(m, e, [i] + ([d] + []));
      F.NothingFollows(Step(Step(m1, i), d));
      assert AccessEvents(c, q, write) + [d] == [e] + ([i] + ([d] + []));
    } else {
      AlwaysOk(m1, d);
      hide Step, Ok;
      F.SafeCons(m1, d, []);
      F.SafeCons(m, e, [d] + []);
      F.NothingFollows(Step(m1, d));
      assert AccessEvents(c, q, write) + [d] == [e] + ([d] + []);
    }
  }

  /// Only `r` holds references.
  ghost predicate OnlyR(m: Monitor) { forall b :: b in m.active + m.broken ==> b.holder == "r" }

  lemma HoldersStay(m: Monitor, e: Event)
    requires OnlyR(m) && (e.Touch? || e.Initialize?)
    ensures OnlyR(Step(m, e))
  {
  }

  lemma AlwaysOk(m: Monitor, e: Event)
    requires OnlyR(m) && (e.Initialize? || e == Dead({"r"}))
    ensures Ok(m, e)
  {
  }

  lemma AccessOk(c: F.Setup, whole: bool, q: Place, access: Access)
    requires c.Proper() && F.Outside(q)
    ensures Ok(AfterTake(c, whole), Touch(q, access)) <==>
            !Moves(c, whole) || !UsesMoved(Touch(q, access), Taken(c, whole))
    ensures OnlyR(AfterTake(c, whole))
  {
    var m, e := AfterTake(c, whole), Touch(q, access);
    F.OtherRoot(c.Through(), q);
    if IsStrictChild(c.Through(), q) { NestedConflict(c.Through(), q); }
    assert !UsesMoved(e, c.Through());
    if Moves(c, whole) { assert Taken(c, whole) in m.moved; }
  }

  lemma ProbeSafety(c: F.Setup, whole: bool, q: Place, write: bool)
    requires c.Proper() && F.Outside(q)
    ensures Safe(Start, HeadEvents(c) + (TakenEvents(c, whole) + (AccessEvents(c, q, write) + [Dead({"r"})]))) <==>
            !Moves(c, whole) || !UsesMoved(Touch(q, Kind(c, q, write)), Taken(c, whole))
  {
    F.BindsR(c);
    TakeSteps(c, whole);
    AccessSteps(c, whole, q, write);
    var h, t, rest := HeadEvents(c), TakenEvents(c, whole), AccessEvents(c, q, write) + [Dead({"r"})];
    assert Safe(Start, h) && Observe(Start, h) == AtTake(c);
    hide *;
    ObserveConcat(AtTake(c), t, rest);
    ObserveConcat(Start, h, t + rest);
  }

  lemma NothingStored(c: F.Setup, whole: bool, q: Place, write: bool)
    ensures forall e :: e in HeadEvents(c) + (TakenEvents(c, whole) + (AccessEvents(c, q, write) + [Dead({"r"})])) ==> !e.Store?
  {
  }

  // ---- outside the fragment ----

  lemma TakeIsOutside(c: F.Setup, whole: bool, cx: Context)
    requires c.path != [] && Moves(c, whole) && "r" in cx.bound
    ensures !InFragment(cx, TakeIt(c, whole), c.Scopes1())
  {
    TypeOfR(c);
  }

  lemma NotAdmissible(c: F.Setup, whole: bool, q: Place, write: bool)
    requires c.path != [] && Moves(c, whole)
    ensures !Admissible(Probe(c, whole, q, write))
  {
    var f := Probe(c, whole, q, write);
    var b1 := [TakeIt(c, whole)] + ([F.Middle(q, write)] + []);
    assert f.body[1..] == b1 && f.body[0] == c.LetR() && b1[0] == TakeIt(c, whole);
    assert [f.params] + [map[]] == c.Scopes0();
    F.Tables0(c);
    forall cx ensures !Fits(f, cx) {
      F.LetsExclude(c, cx);
      if "r" in cx.bound { TakeIsOutside(c, whole, cx); }
      assert Fits(f, cx) ==> InFragment(cx, c.LetR(), c.Scopes0()) && SeqInFragment(cx, b1, c.Scopes1());
      assert SeqInFragment(cx, b1, c.Scopes1()) ==> InFragment(cx, TakeIt(c, whole), c.Scopes1());
    }
  }

  // ---- the gap ----

  /// The checker accepts every access after a value was taken through `r`. That
  /// is safe exactly when the value is copied, or the access does not need it:
  /// a write not inside it, or any other access that does not overlap it. The
  /// soundness theorem leaves such moves out.
  lemma MoveThroughReferenceIsUnrecorded(c: F.Setup, whole: bool, q: Place, write: bool, lv: Tables, ch: seq<bool>)
    requires c.Proper() && F.Outside(q)
    requires AnnotatedBlock(Roots, Probe(c, whole, q, write).body, {}, {}, {}, lv.roots)
    requires AnnotatedBlock(FullPlaces, Probe(c, whole, q, write).body, {}, {}, {}, lv.places)
    ensures CheckFunction(Probe(c, whole, q, write), lv) == {}
    ensures Safe(Start, FunctionEvents(Probe(c, whole, q, write), ch)) <==>
            !Moves(c, whole) || (if write then !IsStrictChild(Taken(c, whole), q) else Disjoint(Taken(c, whole), q))
    ensures Moves(c, whole) ==> !Admissible(Probe(c, whole, q, write))
  {
    ProbeAccepted(c, whole, q, write, lv);
    ProbeEvents(c, whole, q, write, ch);
    ProbeSafety(c, whole, q, write);
    NothingStored(c, whole, q, write);
    KindIs(c, q, write);
    if Moves(c, whole) { NotAdmissible(c, whole, q, write); }
    var e := Touch(q, Kind(c, q, write));
    assert UsesMoved(e, Taken(c, whole)) <==> if write then IsStrictChild(Taken(c, whole), q) else !Disjoint(Taken(c, whole), q);
    hide *;
    ExitIsFree(Start, HeadEvents(c) + (TakenEvents(c, whole) + (AccessEvents(c, q, write) + [Dead({"r"})])), [c.params]);
  }

  lemma KindIs(c: F.Setup, q: Place, write: bool)
    ensures Kind(c, q, write) == Write <==> write
  {
  }

  /// `let r = borrow x; r.f; x.f` with an `f` that moves: moved twice.
  lemma MovedTwice(lv: Tables, ch: seq<bool>)
    requires var part := Struct(false, []); var whole := Struct(false, [Field("f", part)]);
             var c := F.Setup(["x"], ["f"], false, false, whole, map["x" := whole]);
             AnnotatedBlock(Roots, Probe(c, false, ["x", "f"], false).body, {}, {}, {}, lv.roots) &&
             AnnotatedBlock(FullPlaces, Probe(c, false, ["x", "f"], false).body, {}, {}, {}, lv.places)
    ensures var part := Struct(false, []); var whole := Struct(false, [Field("f", part)]);
            var c := F.Setup(["x"], ["f"], false, false, whole, map["x" := whole]); var f := Probe(c, false, ["x", "f"], false);
            CheckFunction(f, lv) == {} && !Safe(Start, FunctionEvents(f, ch))
  {
    var part := Struct(false, []);
    var whole := Struct(false, [Field("f", part)]);
    var c := F.Setup(["x"], ["f"], false, false, whole, map["x" := whole]);
    FieldMoves(c, part);
    assert c.Referent() == ["x", "f"];
    NestedConflict(["x", "f"], ["x", "f"]);
    hide CheckFunction, FunctionEvents, Safe, Admissible, Probe, Moves, AnnotatedBlock;
    MoveThroughReferenceIsUnrecorded(c, false, ["x", "f"], false, lv, ch);
  }

  lemma FieldMoves(c: F.Setup, part: Type)
    requires c.path == ["f"] && c.ty == Struct(false, [Field("f", part)]) && !IsCopyType(part)
    ensures Moves(c, false)
  {
    var p := c.Through();
    assert p[1..] == ["f"] && p[1..][1..] == [];
    assert Walk(c.TypeR(), ["f"]) == Walk(Project(c.TypeR(), "f"), []);
    assert TypeOfPlace(p, c.Scopes1()) == part;
  }
}
