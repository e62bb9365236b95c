/// What index operands touch is never checked: `inspect_expr` accesses a place
/// expression as a whole and returns.

module IndexGap {
  import opened Places
  import opened BorrowSyntax
  import opened BorrowState
  import opened BorrowCheck
  import opened Liveness
  import opened Paths
  import opened CallArguments
  import opened StmtSoundness
  import opened BorrowTheorems

  const Here: Pos := Pos(1, 1)

  function Bare(p: Place): PlaceExpr { PlaceExpr(p, [], Here) }

  function Let0(q: Place): Stmt { Let(0, "r", RefType, Some(Borrow(true, Bare(q), Here))) }

  function Read1(p: Place): Stmt { ExprStmt(1, Use(PlaceExpr(["a", AnyIndex], [Use(Bare(p))], Here))) }

  function Use2(): Stmt { ExprStmt(2, Deref(Bare(["r"]))) }

  /// Parameters: the slice `a` and any others.
  function Params(o: map<Var, Type>): map<Var, Type> { o["a" := SliceOf(Scalar)] }

  /// `let r = borrow mut q;  a[p];  deref r`
  function Probe(p: Place, q: Place, o: map<Var, Type>): Function {
    Function(Params(o), [Let0(q)] + ([Read1(p)] + ([Use2()] + [])))
  }

  /// A place of some other variable than the probe's own.
  predicate Outside(p: Place) { Root(p) !in {"a", "r", AnyIndex} }

  lemma OtherRoot(p: Place, q: Place)
    requires Root(p) != Root(q) && Root(p) != AnyIndex && Root(q) != AnyIndex
    ensures Disjoint(p, q)
  {
  }

  const RefType: Type := RefTo(true, Scalar)

  function Outer0(o: map<Var, Type>): Scopes { [Params(o), map[]] }

  function Inner(o: map<Var, Type>): Scopes { [Params(o), map["r" := RefType]] }

  /// The state after the `let`: `r` holds the only loan that lasts.
  lemma AfterLet(p: Place, q: Place, o: map<Var, Type>, lv: Tables)
    requires Outside(p) && Outside(q)
    ensures var f := CheckStmt(Let0(q), PushScope(EntryState(Probe(p, q, o))), lv, None);
            f.errs == {} && OnlyR(f.st, q, o)
  {
    var st := PushScope(EntryState(Probe(p, q, o)));
    var s := Let0(q);
    var e := Expire(0, lv, st);
    assert e.loans == {};
    var c := InspectOpt(s.init, e);
    assert c.errs == {} && c.st.moved == {} && c.st.scopes == st.scopes;
    assert Declare("r", RefType, st.scopes) == Inner(o);
    var d := DefineLocal("r", RefType, s.init, c);
    assert CheckStmt(s, st, lv, None).st == d.st;
    var cleared := SetOrigins(["r"], {}, MarkInitialized(["r"], c.st.(scopes := Inner(o))));
    assert cleared.loans == {Loan(q, Temporary, true, MutLoan, Here)};
    NestedConflict(q, q);
    var promoted := cleared.(loans := set l | l in cleared.loans && !(l.holder == Temporary && Conflict(l.place, q)));
    assert promoted.loans == {};
  }

  /// Nothing but a loan on `q` and a reference to it in `r` is left.
  ghost predicate OnlyR(st: State, q: Place, o: map<Var, Type>) {
    st.reachable && st.scopes == Inner(o) && st.moved == {} &&
    (forall l :: l in st.loans ==> l.place == q) &&
    (forall k :: k in st.origins ==> k == ["r"]) &&
    (forall k, o :: k in st.origins && o in st.origins[k] ==> o.place == q)
  }

  lemma IndexedType(o: map<Var, Type>)
    ensures TypeOfPlace(["a", AnyIndex], Inner(o)) == Scalar
  {
    assert Inner(o)[..1] == [Params(o)];
    assert LookupVar("a", Inner(o)) == LookupVar("a", Inner(o)[..1]) == Some(SliceOf(Scalar));
    var path: seq<string> := [AnyIndex];
    assert ["a", AnyIndex][1..] == path && path[1..] == [];
    assert Walk(SliceOf(Scalar), path) == Walk(Project(SliceOf(Scalar), AnyIndex), []);
  }

  /// Reading `at` meets no loan.
  lemma ReadQuietly(s: Stmt, at: Place, st: State, lv: Tables, q: Place, o: map<Var, Type>)
    requires Outside(q) && OnlyR(st, q, o)
    requires s.ExprStmt? && ((s.expr.Deref? && at == ["r"]) || (s.expr.Use? && at == ["a", AnyIndex]))
    requires s.expr.pe.place == at
    ensures var f := CheckStmt(s, st, lv, None); f.errs == {} && OnlyR(f.st, q, o)
  {
    OtherRoot(at, q);
    IndexedType(o);
  }

  lemma CheckSeqCons(s: Stmt, rest: seq<Stmt>, st: State, lv: Tables)
    requires st.reachable
    ensures var f := CheckStmt(s, st, lv, None); var r := CheckSeq(rest, f.st, lv, None); var all := CheckSeq([s] + rest, st, lv, None);
            all.st == r.st && all.errs == f.errs + r.errs
  {
    assert ([s] + rest)[1..] == rest;
  }

  lemma ProbeAccepted(p: Place, q: Place, o: map<Var, Type>, lv: Tables)
    requires Outside(p) && Outside(q)
    ensures CheckFunction(Probe(p, q, o), lv) == {}
  {
    hide CheckStmt;
    var f := Probe(p, q, o);
    var st0 := PushScope(EntryState(f));
    AfterLet(p, q, o, lv);
    var f0 := CheckStmt(Let0(q), st0, lv, None);
    ReadQuietly(Read1(p), ["a", AnyIndex], f0.st, lv, q, o);
    var f1 := CheckStmt(Read1(p), f0.st, lv, None);
    ReadQuietly(Use2(), ["r"], f1.st, lv, q, o);
    var f2 := CheckStmt(Use2(), f1.st, lv, None);
    CheckSeqCons(Let0(q), [Read1(p)] + ([Use2()] + []), st0, lv);
    CheckSeqCons(Read1(p), [Use2()] + [], f0.st, lv);
    CheckSeqCons(Use2(), [], f1.st, lv);
    LeaveProbe(f2.st, q, o);
  }

  lemma LeaveProbe(st: State, q: Place, o: map<Var, Type>)
    requires OnlyR(st, q, o) && Outside(q)
    ensures Truncate(st, 1).errs == {}
  {
    assert st.scopes[1].Keys == {"r"};
    assert PopScope(st).errs == {};
  }

  // ---- the probe's only path ----

  function Trace(p: Place, q: Place, access: Access): seq<Event> {
    [Touch(q, BorrowMut)] + ([Initialize(["r"])] + ([Bind("r", q, true, Here)] +
      ([Touch(p, access)] + ([Touch(["a", AnyIndex], Read)] + ([Touch(["r"], Read)] + ([Dead({"r"})] + []))))))
  }

  lemma RunSeqCons(s: Stmt, rest: seq<Stmt>, scopes: Scopes, ch: seq<bool>)
    requires Run(s, scopes, ch).out == Normal
    ensures var r := Run(s, scopes, ch); RunSeq([s] + rest, scopes, ch) == After(r.events, RunSeq(rest, r.scopes, r.rest))
  {
    assert ([s] + rest)[1..] == rest;
  }

  lemma StatementEvents(p: Place, q: Place, o: map<Var, Type>, ch: seq<bool>)
    requires Outside(p) && Outside(q)
    ensures var sc0 := Outer0(o);
            Run(Let0(q), sc0, ch) == Result([Touch(q, BorrowMut), Initialize(["r"]), Bind("r", q, true, Here)], Normal, Inner(o), ch)
    ensures Run(Read1(p), Inner(o), ch) ==
              Result([Touch(p, Effective(p, Move, Inner(o))), Touch(["a", AnyIndex], Read)], Normal, Inner(o), ch)
    ensures Run(Use2(), Inner(o), ch) == Result([Touch(["r"], Read)], Normal, Inner(o), ch)
  {
    var sc0 := Outer0(o);
    assert Declare("r", RefType, sc0) == Inner(o);
    IndexedType(o);
    var no: seq<Expr> := [];
    assert OperandEvents(no, Inner(o)) == [] && OperandEvents(no, sc0) == [];
    assert Events(Let0(q).init.value, Move, sc0) == [Touch(q, BorrowMut)];
    assert LetEvents("r", RefType, Let0(q).init, sc0) == [Touch(q, BorrowMut), Initialize(["r"]), Bind("r", q, true, Here)];
    var operands := [Use(Bare(p))];
    assert operands[1..] == no;
    assert Events(operands[0], Move, Inner(o)) == [Touch(p, Effective(p, Move, Inner(o)))];
    assert OperandEvents(operands, Inner(o)) == [Touch(p, Effective(p, Move, Inner(o)))];
  }

  lemma ProbeEvents(p: Place, q: Place, o: map<Var, Type>, ch: seq<bool>)
    requires Outside(p) && Outside(q)
    ensures FunctionEvents(Probe(p, q, o), ch) == Trace(p, q, Effective(p, Move, Inner(o))) + [Exit([Params(o)])]
  {
    hide Run;
    var f := Probe(p, q, o);
    var sc0 := Outer0(o);
    assert [f.params] + [map[]] == sc0;
    StatementEvents(p, q, o, ch);
    RunSeqCons(Let0(q), [Read1(p)] + ([Use2()] + []), sc0, ch);
    RunSeqCons(Read1(p), [Use2()] + [], Inner(o), ch);
    RunSeqCons(Use2(), [], Inner(o), ch);
    var r := RunSeq(f.body, sc0, ch);
    assert r.events == [Touch(q, BorrowMut), Initialize(["r"]), Bind("r", q, true, Here)] +
      ([Touch(p, Effective(p, Move, Inner(o))), Touch(["a", AnyIndex], Read)] + ([Touch(["r"], Read)] + []));
    assert r.scopes[1].Keys == {"r"};
  }

  lemma SafeCons(m: Monitor, e: Event, rest: seq<Event>)
    ensures Safe(m, [e] + rest) <==> Ok(m, e) && Safe(Step(m, e), rest)
  {
    assert ([e] + rest)[1..] == rest;
  }

  /// Binding `r` to `q` leaves exactly that binding.
  lemma BindingSteps(q: Place)
    ensures var e0, e1, e2 := Touch(q, BorrowMut), Initialize(["r"]), Bind("r", q, true, Here);
            Ok(Start, e0) && Step(Start, e0) == Start && Ok(Start, e1) && Step(Start, e1) == Start &&
            Ok(Start, e2) && Step(Start, e2) == Monitor({Binding("r", q, true, Here)}, {}, {}, {}, {})
  {
  }

  /// The operand breaks the reference exactly when the places overlap.
  lemma OperandStep(p: Place, q: Place, access: Access)
    requires Outside(p) && (access == Read || access == Move)
    ensures var b := Binding("r", q, true, Here); var m := Monitor({b}, {}, {}, {}, {}); var moved := if access == Move then {p} else {};
            Ok(m, Touch(p, access)) &&
            Step(m, Touch(p, access)) == if Disjoint(p, q) then Monitor({b}, {}, moved, {}, {}) else Monitor({}, {b}, moved, {}, {})
  {
    assert Referents(Monitor({Binding("r", q, true, Here)}, {}, {}, {}, {}), p) == {};
  }

  /// What the monitor may hold after the operand: the probe's binding and moves elsewhere.
  ghost predicate ProbeMonitor(m: Monitor, q: Place) {
    (forall b :: b in m.active ==> b == Binding("r", q, true, Here)) &&
    (forall b :: b in m.broken ==> b == Binding("r", q, true, Here)) &&
    (forall x :: x in m.moved ==> Outside(x)) && m.passed == {} && m.lodged == {}
  }

  lemma ReadStep(m: Monitor, q: Place, at: Place)
    requires Outside(q) && ProbeMonitor(m, q) && (at == ["a", AnyIndex] || at == ["r"])
    ensures Step(m, Touch(at, Read)) == m
    ensures Ok(m, Touch(at, Read)) <==> m.broken == {} || at != ["r"]
  {
    var e := Touch(at, Read);
    OtherRoot(at, q);
    forall x | x in m.moved ensures !UsesMoved(e, x) {
      OtherRoot(x, at);
    }
    assert forall b :: b in m.active ==> !Hits(e, b);
    var m' := Step(m, e);
    assert m'.active == m.active && m'.broken == m.broken && m'.moved == m.moved && m'.passed == m.passed;
    if m.broken != {} {
      var b :| b in m.broken;
      assert UsesHolder(e, b.holder) <==> at == ["r"];
    }
  }

  lemma EndStep(m: Monitor, q: Place)
    requires ProbeMonitor(m, q)
    ensures Ok(m, Dead({"r"}))
  {
  }

  lemma ProbeSafety(p: Place, q: Place, access: Access)
    requires Outside(p) && Outside(q) && (access == Read || access == Move)
    ensures Safe(Start, Trace(p, q, access)) <==> Disjoint(p, q)
  {
    hide Ok, Step, Safe, Disjoint;
    var b := Binding("r", q, true, Here);
    var moved := if access == Move then {p} else {};
    var m := if Disjoint(p, q) then Monitor({b}, {}, moved, {}, {}) else Monitor({}, {b}, moved, {}, {});
    BindingSteps(q);
    OperandStep(p, q, access);
    ReadStep(m, q, ["a", AnyIndex]);
    ReadStep(m, q, ["r"]);
    EndStep(m, q);
    var t6 := [Dead({"r"})] + [];
    var t5 := [Touch(["r"], Read)] + t6;
    var t4 := [Touch(["a", AnyIndex], Read)] + t5;
    var t3 := [Touch(p, access)] + t4;
    var t2 := [Bind("r", q, true, Here)] + t3;
    SafeCons(Start, Touch(q, BorrowMut), [Initialize(["r"])] + t2);
    SafeCons(Start, Initialize(["r"]), t2);
    SafeCons(Start, Bind("r", q, true, Here), t3);
    SafeCons(Monitor({b}, {}, {}, {}, {}), Touch(p, access), t4);
    SafeCons(m, Touch(["a", AnyIndex], Read), t5);
    SafeCons(m, Touch(["r"], Read), t6);
    SafeCons(m, Dead({"r"}), []);
    SafeNothing(Step(m, Dead({"r"})));
  }

  lemma SafeNothing(m: Monitor)
    ensures Safe(m, [])
  {
  }

  /// The checker accepts every probe, and a probe is safe exactly when the
  /// place its index operand reads is disjoint from the borrowed one.
  lemma IndexOperandsAreUnchecked(p: Place, q: Place, o: map<Var, Type>, lv: Tables, ch: seq<bool>)
    requires Outside(p) && Outside(q)
    ensures CheckFunction(Probe(p, q, o), lv) == {}
    ensures Safe(Start, FunctionEvents(Probe(p, q, o), ch)) <==> Disjoint(p, q)
  {
    hide CheckFunction, FunctionEvents, Probe, Safe, Disjoint, TypeOfPlace, Outside;
    ProbeAccepted(p, q, o, lv);
    ProbeEvents(p, q, o, ch);
    ProbeSafety(p, q, Effective(p, Move, Inner(o)));
    ExitIsFree(Start, Trace(p, q, Effective(p, Move, Inner(o))), [Params(o)]);
  }

  /// Of the probes that read a Copy place, the soundness theorem covers all
  /// that are safe and no other.
  lemma SafeProbesAreAdmissible(p: Place, q: Place, o: map<Var, Type>)
    requires Outside(p) && Outside(q) && IsCopyType(TypeOfPlace(p, Inner(o)))
    ensures Admissible(Probe(p, q, o)) <==> Disjoint(p, q)
  {
    var f := Probe(p, q, o);
    assert [f.params] + [map[]] == Outer0(o);
    forall cx ensures Fits(f, cx) <==> q in cx.exclusive && Avoids(cx, p) && "r" in cx.bound && Root(q) !in cx.bound {
      ProbeFits(p, q, o, cx);
    }
    var least := Context({q}, {"r"});
    assert Avoids(least, p) <==> Disjoint(p, q);
    assert Fits(f, least) <==> Disjoint(p, q);
  }

  lemma ProbeFits(p: Place, q: Place, o: map<Var, Type>, cx: Context)
    requires Outside(p) && Outside(q) && IsCopyType(TypeOfPlace(p, Inner(o)))
    ensures Fits(Probe(p, q, o), cx) <==> q in cx.exclusive && Avoids(cx, p) && "r" in cx.bound && Root(q) !in cx.bound
  {
    var f, sc0 := Probe(p, q, o), Outer0(o);
    assert [f.params] + [map[]] == sc0;
    assert Declare("r", RefType, sc0) == Inner(o);
    IndexedType(o);
    var b1, b2, none: seq<Stmt> := [Read1(p)] + ([Use2()] + []), [Use2()] + [], [];
    assert f.body == [Let0(q)] + b1 && f.body[1..] == b1 && b1[1..] == b2 && b2[1..] == none;
    var ops := [Use(Bare(p))];
    var nothing: seq<Expr> := [];
    assert ops[1..] == nothing;
    assert AllQuiet(cx, nothing, Inner(o)) && Quiet(cx, ops[0], Inner(o)) == Avoids(cx, p);
    assert AllQuiet(cx, ops, Inner(o)) <==> Avoids(cx, p);
    assert InFragment(cx, Read1(p), Inner(o)) <==> AllQuiet(cx, ops, Inner(o));
    assert InFragment(cx, Use2(), Inner(o));
    assert SeqInFragment(cx, b2, Inner(o)) by { assert SeqInFragment(cx, none, Inner(o)); }
    assert SeqInFragment(cx, b1, Inner(o)) <==> Avoids(cx, p);
    assert InFragment(cx, Let0(q), sc0) <==> q in cx.exclusive && "r" in cx.bound && Root(q) !in cx.bound;
    assert SeqJumpsInLoop(none, false) && SeqJumpsInLoop(b2, false) && SeqJumpsInLoop(b1, false) && SeqJumpsInLoop(f.body, false);
  }
}
