/// What is stored through a reference is checked by nothing afterwards.

module StoreGap {
  import opened Places
  import opened BorrowSyntax
  import opened BorrowState
  import opened BorrowCheck
  import opened Liveness
  import opened Paths
  import opened CallArguments
  import opened StmtSoundness
  import opened BorrowTheorems
  import F = FieldGap

  const Here: Pos := F.Here

  /// A store of a reference to `x` through `r`, in a block that declares `k`.
  /// `local`: `r` is a local that refers to `s`; otherwise it is a parameter.
  /// `copied`: the reference is stored from a local of the block.
  datatype Setup = Setup(x: Place, mut: bool, copied: bool, local: bool, k: Var, kty: Type, ty: Type, params: map<Var, Type>) {
    predicate Proper() {
      Outside(x) && Outside([k]) && k !in params && "r" !in params && "a" !in params && "s" !in params
    }

    function TypeA(): Type { RefTo(mut, ty) }

    function TypeR(): Type { RefTo(true, TypeA()) }

    function Given(): map<Var, Type> { if local then params["s" := TypeA()] else params["r" := TypeR()] }

    /// Around the block, where `r` is declared.
    function Around(): Scopes { [Given(), if local then map["r" := TypeR()] else map[]] }

    function LetR(): Stmt { Let(0, "r", TypeR(), Some(Borrow(true, F.Bare(["s"]), Here))) }

    function LetK(): Stmt { Let(3, k, kty, None) }

    function LetA(): Stmt { Let(4, "a", TypeA(), Some(Borrow(mut, F.Bare(x), Here))) }

    function Stored(): Expr { if copied then Use(F.Bare(["a"])) else Borrow(mut, F.Bare(x), Here) }

    function StoreIt(): Stmt { Assign(5, false, Through(F.Bare(["r"])), Stored(), Here) }

    function Inner(): seq<Stmt> {
      [LetK()] + (if copied then [LetA()] + ([StoreIt()] + []) else [StoreIt()] + [])
    }

    function InnerBlock(): Stmt { Block(1, Inner()) }

    /// The scopes in the block, before and after its `let`s.
    function Opened(): Scopes { Around() + [map[k := kty]] }

    function Filled(): Scopes { Around() + [if copied then map[k := kty]["a" := TypeA()] else map[k := kty]] }
  }

  /// A place of some other variable than the probe's own.
  predicate Outside(p: Place) { Root(p) !in {"r", "s", "a", AnyIndex} }

  function UseR(): Stmt { ExprStmt(6, Deref(F.Bare(["r"]))) }

  function Tail(c: Setup, q: Place, write: bool): seq<Stmt> {
    [c.InnerBlock()] + ([F.Middle(q, write)] + ([UseR()] + []))
  }

  /// `[let r = borrow mut s;] { let k; deref r = borrow [mut] x }; <access q>; deref r`
  function Probe(c: Setup, q: Place, write: bool): Function {
    Function(c.Given(), (if c.local then [c.LetR()] else []) + Tail(c, q, write))
  }

  // ---- the checker accepts ----

  ghost predicate Held(c: Setup, st: State, scopes: Scopes) {
    && st.reachable && st.scopes == scopes
    && (forall p :: p in st.moved ==> Outside(p) || p == ["a"])
    && (forall l :: l in st.loans ==> Root(l.place) !in {"r", "a", AnyIndex})
    && (forall q :: q in st.origins ==> q == ["r"] || q == ["a"])
    && (forall o :: ["r"] in st.origins && o in st.origins[["r"]] ==> o.place == ["s"])
  }

  /// Outside the block: the loan of `r`, and temporaries.
  ghost predicate Ready(c: Setup, st: State, scopes: Scopes) {
    && Held(c, st, scopes) && st.moved == {}
    && (forall l :: l in st.loans ==> l.holder == Temporary || (l.place == ["s"] && l.holder == Holder.Stored(["r"])))
    && (forall q :: q in st.origins ==> q == ["r"])
  }

  lemma Names()
    ensures ["r"] != ["a"] && ["r"] != ["s"] && ["a"] != ["s"]
  {
    assert ["r"][0] == "r" && ["a"][0] == "a" && ["s"][0] == "s";
  }

  /// A `let` of a fresh borrow that meets no loan.
  lemma LetBorrow(v: Var, ty: Type, mut: bool, p: Place, st: State)
    requires st.moved == {} && st.scopes != [] && ContainsReference(ty) && forall l :: l in st.loans ==> Disjoint(p, l.place)
    ensures var d := DefineLocal(v, ty, Some(Borrow(mut, F.Bare(p), Here)), Inspect(Borrow(mut, F.Bare(p), Here), Move, st));
            && d.errs == {} && d.st.reachable == st.reachable && d.st.moved == {} && d.st.scopes == Declare(v, ty, st.scopes)
            && d.st.loans <= st.loans + {F.Made(v, mut, p)}
            && [v] in d.st.origins && d.st.origins[[v]] == {Origin(p, mut, Here)}
            && (forall q :: q in d.st.origins && q != [v] ==> q in st.origins && d.st.origins[q] == st.origins[q])
  {
    F.BorrowInspected(p, mut, st);
    var i := Inspect(Borrow(mut, F.Bare(p), Here), Move, st);
    hide Inspect, Declare;
    var cleared := SetOrigins([v], {}, MarkInitialized([v], i.st.(scopes := Declare(v, ty, st.scopes))));
    F.BorrowBound(v, mut, p, cleared, st.loans);
    F.OneOrigin(v, Origin(p, mut, Here), cleared);
    hide BindBorrow, Disjoint;
  }

  lemma HeadAccepted(c: Setup, lv: Tables)
    requires c.Proper() && c.local
    ensures var st := State({}, {}, [c.Given(), map[]], map[], true); var f := CheckStmt(c.LetR(), st, lv, None);
            f.errs == {} && Ready(c, f.st, c.Around())
  {
    hide DefineLocal, Inspect;
    var st := State({}, {}, [c.Given(), map[]], map[], true);
    assert Expire(0, lv, st) == st;
    LetBorrow("r", c.TypeR(), true, ["s"], st);
    InspectFrame(c.LetR().init.value, Move, st);
    assert Declare("r", c.TypeR(), [c.Given(), map[]]) == c.Around();
  }

  lemma ExpireHeld(c: Setup, id: nat, lv: Tables, st: State, scopes: Scopes)
    requires Held(c, st, scopes)
    ensures Held(c, Expire(id, lv, st), scopes) && Expire(id, lv, st).moved == st.moved && Expire(id, lv, st).origins == st.origins
    ensures forall l :: l in Expire(id, lv, st).loans ==> l in st.loans && l.holder != Temporary
  {
  }

  lemma LetKAccepted(c: Setup, lv: Tables, st: State)
    requires c.Proper() && Ready(c, st, c.Around() + [map[]])
    ensures var f := CheckStmt(c.LetK(), st, lv, None); f.errs == {} && Ready(c, f.st, c.Opened())
  {
    var e := Expire(3, lv, st);
    ExpireHeld(c, 3, lv, st, st.scopes);
    assert Declare(c.k, c.kty, st.scopes) == c.Opened();
    assert !IsWithin([c.k], ["r"]) by { assert ["r"][0] == "r"; }
  }

  lemma LetAAccepted(c: Setup, lv: Tables, st: State)
    requires c.Proper() && c.copied && Ready(c, st, c.Opened())
    ensures var f := CheckStmt(c.LetA(), st, lv, None); f.errs == {} && Held(c, f.st, c.Filled()) && Quieted(c, f.st)
  {
    hide DefineLocal, Inspect;
    var e := Expire(4, lv, st);
    ExpireHeld(c, 4, lv, st, st.scopes);
    forall l | l in e.loans ensures Disjoint(c.x, l.place) { F.OtherRoot(c.x, l.place); }
    LetBorrow("a", c.TypeA(), c.mut, c.x, e);
    InspectFrame(c.LetA().init.value, Move, e);
    assert Declare("a", c.TypeA(), c.Opened()) == c.Filled();
    Names();
  }

  /// In the block: what will outlast it is `r`, its loan and its origin.
  ghost predicate Quieted(c: Setup, st: State) {
    && (forall p :: p in st.moved ==> p == ["a"] && c.copied)
    && (forall l :: l in st.loans ==>
          l.holder == Temporary || (l.holder == Holder.Stored(["a"]) && c.copied) || (l.place == ["s"] && l.holder == Holder.Stored(["r"])))
    && (forall q :: q in st.origins ==> q == ["r"] || (q == ["a"] && c.copied))
  }

  lemma StoreAccepted(c: Setup, lv: Tables, st: State)
    requires c.Proper() && Held(c, st, c.Filled()) && Quieted(c, st) && st.moved == {}
    ensures var f := CheckStmt(c.StoreIt(), st, lv, None); f.errs == {} && Held(c, f.st, c.Filled()) && Quieted(c, f.st)
  {
    var e := Expire(5, lv, st);
    ExpireHeld(c, 5, lv, st, st.scopes);
    ValueInspected(c, e);
    var v := Inspect(c.Stored(), Move, e);
    ViaAccepted(c, v.st);
    hide Inspect, WriteThrough, Held, Quieted;
  }

  /// Inspecting the stored value, when no loan is a temporary's.
  lemma ValueInspected(c: Setup, e: State)
    requires c.Proper() && Held(c, e, c.Filled()) && Quieted(c, e) && e.moved == {} && forall l :: l in e.loans ==> l.holder != Temporary
    ensures var v := Inspect(c.Stored(), Move, e); v.errs == {} && Held(c, v.st, c.Filled()) && Quieted(c, v.st)
  {
    if c.copied {
      forall l | l in e.loans ensures Disjoint(["a"], l.place) { F.OtherRoot(["a"], l.place); }
      CopyInspected(e);
    } else {
      forall l | l in e.loans ensures Disjoint(c.x, l.place) { F.OtherRoot(c.x, l.place); }
      F.BorrowInspected(c.x, c.mut, e);
    }
    hide Inspect, Disjoint;
  }

  lemma ViaAccepted(c: Setup, st: State)
    requires Held(c, st, c.Filled())
    ensures WriteThrough(["r"], Here, st) == Checked(st, {})
  {
    forall l | l in st.loans ensures Disjoint(["r"], l.place) { F.OtherRoot(["r"], l.place); }
    forall p | p in st.moved ensures Disjoint(p, ["r"]) { F.OtherRoot(p, ["r"]); }
  }

  lemma CopyInspected(e: State)
    requires e.moved == {} && forall l :: l in e.loans ==> Disjoint(["a"], l.place)
    ensures var v := Inspect(Use(F.Bare(["a"])), Move, e);
            v.errs == {} && v.st == e.(moved := v.st.moved) && forall p :: p in v.st.moved ==> p == ["a"]
  {
    hide TypeOfPlace;
  }

  lemma InnerAccepted(c: Setup, lv: Tables, st: State)
    requires c.Proper() && Ready(c, st, c.Around() + [map[]])
    ensures var f := CheckSeq(c.Inner(), st, lv, None); f.errs == {} && Held(c, f.st, c.Filled()) && Quieted(c, f.st)
  {
    LetKAccepted(c, lv, st);
    hide CheckStmt, Held, Ready, Quieted;
    var f0 := CheckStmt(c.LetK(), st, lv, None);
    ReadyIs(c, f0.st, c.Opened());
    ReadyIs(c, st, c.Around() + [map[]]);
    if c.copied {
      LetAAccepted(c, lv, f0.st);
      var f1 := CheckStmt(c.LetA(), f0.st, lv, None);
      HeldIs(c, f1.st, c.Filled());
      StoreAccepted(c, lv, f1.st);
      HeldIs(c, CheckStmt(c.StoreIt(), f1.st, lv, None).st, c.Filled());
      F.CheckSeqCons(c.LetK(), [c.LetA()] + ([c.StoreIt()] + []), st, lv);
      F.CheckSeqCons(c.LetA(), [c.StoreIt()] + [], f0.st, lv);
      F.CheckSeqCons(c.StoreIt(), [], f1.st, lv);
    } else {
      StoreAccepted(c, lv, f0.st);
      HeldIs(c, CheckStmt(c.StoreIt(), f0.st, lv, None).st, c.Filled());
      F.CheckSeqCons(c.LetK(), [c.StoreIt()] + [], st, lv);
      F.CheckSeqCons(c.StoreIt(), [], f0.st, lv);
    }
  }

  lemma ReadyIs(c: Setup, st: State, scopes: Scopes)
    requires Ready(c, st, scopes)
    ensures st.reachable && st.scopes == scopes && st.moved == {} && Held(c, st, scopes) && Quieted(c, st)
  {
  }

  lemma HeldIs(c: Setup, st: State, scopes: Scopes)
    requires Held(c, st, scopes)
    ensures st.reachable && st.scopes == scopes
  {
  }

  lemma BlockAccepted(c: Setup, lv: Tables, st: State)
    requires c.Proper() && Ready(c, st, c.Around())
    ensures var f := CheckStmt(c.InnerBlock(), st, lv, None); f.errs == {} && Ready(c, f.st, c.Around())
  {
    var e := Expire(1, lv, st);
    ExpireHeld(c, 1, lv, st, c.Around());
    InnerAccepted(c, lv, PushScope(e));
    var f := CheckSeq(c.Inner(), PushScope(e), lv, None);
    BlockLeft(c, f.st);
    hide CheckSeq, Truncate, Held;
    assert |e.scopes| == |c.Around()|;
    var b := CheckBlock(c.Inner(), e, lv, None);
    assert b.errs == f.errs + Truncate(f.st, |c.Around()|).errs && b.st == Truncate(f.st, |c.Around()|).st;
    assert CheckStmt(c.InnerBlock(), st, lv, None) == b;
  }

  lemma BlockLeft(c: Setup, st: State)
    requires c.Proper() && Held(c, st, c.Filled()) && Quieted(c, st)
    ensures var out := Truncate(st, |c.Around()|); out.errs == {} && Ready(c, out.st, c.Around())
  {
    var top := st.scopes[2];
    assert top.Keys == if c.copied then {c.k, "a"} else {c.k};
    assert c.Filled()[..2] == c.Around();
    var out := PopScope(st);
    assert out.errs == {};
    assert Truncate(st, 2) == Checked(Truncate(out.st, 2).st, out.errs + Truncate(out.st, 2).errs);
    assert Truncate(out.st, 2) == Checked(out.st, {});
  }

  /// Behind the block.
  ghost predicate Late(c: Setup, st: State) {
    Held(c, st, c.Around()) && forall q :: q in st.origins ==> q == ["r"]
  }

  lemma LateIs(c: Setup, st: State)
    requires Late(c, st)
    ensures st.reachable && st.scopes == c.Around()
  {
  }

  lemma MiddleAccepted(c: Setup, q: Place, write: bool, lv: Tables, st: State)
    requires c.Proper() && Outside(q) && Ready(c, st, c.Around())
    ensures var f := CheckStmt(F.Middle(q, write), st, lv, None); f.errs == {} && Late(c, f.st)
  {
    var e := Expire(2, lv, st);
    ExpireHeld(c, 2, lv, st, c.Around());
    forall l | l in e.loans ensures Disjoint(q, l.place) { F.OtherRoot(q, l.place); }
    if write {
      WriteAccepted(c, q, e);
    } else {
      hide TypeOfPlace;
    }
  }

  lemma WriteAccepted(c: Setup, q: Place, e: State)
    requires Outside(q) && Late(c, e) && e.moved == {} && forall l :: l in e.loans ==> Disjoint(q, l.place)
    ensures var r := CheckAssign(false, Direct(F.Bare(q)), Literal, Here, e); r.errs == {} && Late(c, r.st)
  {
    hide TypeOfPlace, ContainsReference;
    var k := KillHoldersUnder(q, e);
    assert AccessPlace(q, Here, Write, k, {}) == Checked(k, {});
    assert !IsWithin(q, ["r"]) by { assert ["r"][0] == "r"; }
  }

  lemma UseAccepted(c: Setup, lv: Tables, st: State)
    requires c.Proper() && Late(c, st)
    ensures var f := CheckStmt(UseR(), st, lv, None); f.errs == {} && Late(c, f.st)
  {
    var e := Expire(6, lv, st);
    ExpireHeld(c, 6, lv, st, c.Around());
    forall l | l in e.loans ensures Disjoint(["r"], l.place) { F.OtherRoot(["r"], l.place); }
    forall p | p in e.moved ensures Disjoint(p, ["r"]) { F.OtherRoot(p, ["r"]); }
  }

  lemma TailAccepted(c: Setup, q: Place, write: bool, lv: Tables, st: State)
    requires c.Proper() && Outside(q) && Ready(c, st, c.Around())
    ensures var f := CheckSeq(Tail(c, q, write), st, lv, None); f.errs == {} && Late(c, f.st)
  {
    ReadyIs(c, st, c.Around());
    BlockAccepted(c, lv, st);
    hide CheckStmt, Held, Ready, Quieted, Late;
    var f0 := CheckStmt(c.InnerBlock(), st, lv, None);
    ReadyIs(c, f0.st, c.Around());
    MiddleAccepted(c, q, write, lv, f0.st);
    var f1 := CheckStmt(F.Middle(q, write), f0.st, lv, None);
    LateIs(c, f1.st);
    UseAccepted(c, lv, f1.st);
    var f2 := CheckStmt(UseR(), f1.st, lv, None);
    LateIs(c, f2.st);
    F.CheckSeqCons(c.InnerBlock(), [F.Middle(q, write)] + ([UseR()] + []), st, lv);
    F.CheckSeqCons(F.Middle(q, write), [UseR()] + [], f0.st, lv);
    F.CheckSeqCons(UseR(), [], f1.st, lv);
  }

  lemma ProbeLeft(c: Setup, st: State)
    requires c.Proper() && Late(c, st)
    ensures Truncate(st, 1).errs == {}
  {
    assert st.scopes[1].Keys == if c.local then {"r"} else {};
    assert PopScope(st).errs == {};
  }

  lemma ProbeAccepted(c: Setup, q: Place, write: bool, lv: Tables)
    requires c.Proper() && Outside(q)
    ensures CheckFunction(Probe(c, q, write), lv) == {}
  {
    var f := Probe(c, q, write);
    var st0 := State({}, {}, [c.Given(), map[]], map[], true);
    assert PushScope(EntryState(f)) == st0;
    if c.local {
      HeadAccepted(c, lv);
      hide CheckStmt, Held, Ready, Tail;
      var f0 := CheckStmt(c.LetR(), st0, lv, None);
      ReadyIs(c, f0.st, c.Around());
      TailAccepted(c, q, write, lv, f0.st);
      F.CheckSeqCons(c.LetR(), Tail(c, q, write), st0, lv);
    } else {
      assert [] + Tail(c, q, write) == Tail(c, q, write);
      assert Ready(c, st0, c.Around());
      TailAccepted(c, q, write, lv, st0);
    }
    ProbeLeft(c, CheckSeq(f.body, st0, lv, None).st);
  }

  // ---- the probe's only path ----

  function BorrowAccess(mut: bool): Access { if mut then BorrowMut else BorrowShared }

  function HeadEvents(c: Setup): seq<Event> {
    if c.local then [Touch(["s"], BorrowMut), Initialize(["r"]), Bind("r", ["s"], true, Here)] else []
  }

  /// How the stored value comes about.
  function ValueEvents(c: Setup): seq<Event> {
    [Touch(c.x, BorrowAccess(c.mut))] +
    if c.copied
    then [Initialize(["a"])] + ([Bind("a", c.x, c.mut, Here)] + ([Touch(["a"], if c.mut then Move else Read)] + []))
    else []
  }

  function StoredEvents(c: Setup): seq<Event> { [WriteVia(["r"])] + ([Store(["r"], c.Stored())] + []) }

  function BlockEvents(c: Setup): seq<Event> {
    [Initialize([c.k])] + (ValueEvents(c) + (StoredEvents(c) + ([Dead(c.Filled()[2].Keys)] + [])))
  }

  function Kind(c: Setup, q: Place, write: bool): Access {
    if write then Write else Effective(q, Move, c.Around())
  }

  function AccessEvents(c: Setup, q: Place, write: bool): seq<Event> {
    [Touch(q, Kind(c, q, write))] + if write then [Initialize(q)] else []
  }

  /// Reading through `r` moves a mutable reference out.
  function UseEvents(c: Setup): seq<Event> { [Touch(["r"], Read)] + if c.mut then [Take(["r"])] else [] }

  function LastEvents(c: Setup): seq<Event> {
    UseEvents(c) + ([Dead(c.Around()[1].Keys)] + ([Exit([c.Given()])] + []))
  }

  lemma LookupThere(c: Setup)
    requires c.Proper()
    ensures TypeOfPlace(["r"], c.Filled()) == c.TypeR()
    ensures c.copied ==> TypeOfPlace(["a"], c.Filled()) == c.TypeA()
  {
    assert c.Filled()[..2] == c.Around();
    assert c.Around()[..1] == [c.Given()];
    assert LookupVar("r", c.Filled()) == LookupVar("r", c.Around()) == Some(c.TypeR());
  }

  lemma InnerRuns(c: Setup, ch: seq<bool>)
    requires c.Proper()
    ensures RunSeq(c.Inner(), c.Around() + [map[]], ch) ==
            Result([Initialize([c.k])] + (ValueEvents(c) + StoredEvents(c)), Normal, c.Filled(), ch)
  {
    LetsRun(c, ch);
    RestRuns(c, ch);
    hide Run, StoredEvents, ValueEvents;
    var rest := if c.copied then [c.LetA()] + ([c.StoreIt()] + []) else [c.StoreIt()] + [];
    F.RunSeqCons(c.LetK(), rest, c.Around() + [map[]], ch);
    assert c.Inner() == [c.LetK()] + rest;
  }

  lemma SeqRuns(s: Stmt, rest: seq<Stmt>, scopes: Scopes, mid: Scopes, end: Scopes, a: seq<Event>, b: seq<Event>, ch: seq<bool>)
    requires Run(s, scopes, ch) == Result(a, Normal, mid, ch) && RunSeq(rest, mid, ch) == Result(b, Normal, end, ch)
    ensures RunSeq([s] + rest, scopes, ch) == Result(a + b, Normal, end, ch)
  {
    F.RunSeqCons(s, rest, scopes, ch);
  }

  /// Behind the first `let`.
  lemma RestRuns(c: Setup, ch: seq<bool>)
    requires c.Proper()
    ensures RunSeq(if c.copied then [c.LetA()] + ([c.StoreIt()] + []) else [c.StoreIt()] + [], c.Opened(), ch) ==
            Result(ValueEvents(c) + StoredEvents(c), Normal, c.Filled(), ch)
  {
    LetsRun(c, ch);
    LastRuns(c, ch);
    ValueIs(c);
    hide *;
    if c.copied {
      var a := [Touch(["a"], if c.mut then Move else Read)];
      SeqRuns(c.LetA(), [c.StoreIt()] + [], c.Opened(), c.Filled(), c.Filled(), LetAEvents(c), a + StoredEvents(c), ch);
      assert LetAEvents(c) + (a + StoredEvents(c)) == (LetAEvents(c) + a) + StoredEvents(c);
    }
  }

  lemma ValueIs(c: Setup)
    ensures ValueEvents(c) ==
            if c.copied then LetAEvents(c) + [Touch(["a"], if c.mut then Move else Read)] else [Touch(c.x, BorrowAccess(c.mut))]
    ensures !c.copied ==> c.Opened() == c.Filled()
  {
  }

  lemma LastRuns(c: Setup, ch: seq<bool>)
    requires c.Proper()
    ensures RunSeq([c.StoreIt()] + [], c.Filled(), ch) ==
            Result((if c.copied then [Touch(["a"], if c.mut then Move else Read)] else [Touch(c.x, BorrowAccess(c.mut))]) + StoredEvents(c),
                   Normal, c.Filled(), ch)
  {
    StoreRuns(c, ch);
    hide Run, StoredEvents;
    F.RunSeqCons(c.StoreIt(), [], c.Filled(), ch);
  }

  function LetAEvents(c: Setup): seq<Event> {
    [Touch(c.x, BorrowAccess(c.mut)), Initialize(["a"]), Bind("a", c.x, c.mut, Here)]
  }

  lemma LetsRun(c: Setup, ch: seq<bool>)
    ensures Run(c.LetK(), c.Around() + [map[]], ch) == Result([Initialize([c.k])], Normal, c.Opened(), ch)
    ensures c.copied ==> Run(c.LetA(), c.Opened(), ch) == Result(LetAEvents(c), Normal, c.Filled(), ch)
  {
    var none: seq<Expr> := [];
    assert Declare(c.k, c.kty, c.Around() + [map[]]) == c.Opened();
    if c.copied {
      assert Declare("a", c.TypeA(), c.Opened()) == c.Filled();
      assert OperandEvents(none, c.Opened()) == [];
    }
  }

  /// The store itself; a copied reference is moved or read first.
  lemma StoreRuns(c: Setup, ch: seq<bool>)
    requires c.Proper()
    ensures Run(c.StoreIt(), c.Filled(), ch) ==
            Result((if c.copied then [Touch(["a"], if c.mut then Move else Read)] else [Touch(c.x, BorrowAccess(c.mut))]) + StoredEvents(c),
                   Normal, c.Filled(), ch)
  {
    var none: seq<Expr> := [];
    LookupThere(c);
    assert OperandEvents(none, c.Filled()) == [];
    assert StoreEvents(["r"], c.Stored(), c.Filled()) == [Store(["r"], c.Stored())];
  }

  /// A body that ends normally is left by the end of its scope and of the function.
  lemma WholeRun(f: Function, inner: Scopes, events: seq<Event>, ch: seq<bool>)
    requires |inner| == 2 && RunSeq(f.body, [f.params] + [map[]], ch) == Result(events, Normal, inner, ch)
    ensures FunctionEvents(f, ch) == events + [Dead(inner[1].Keys)] + [Exit([f.params])]
  {
    hide RunSeq;
  }

  lemma ProbeEvents(c: Setup, q: Place, write: bool, ch: seq<bool>)
    requires c.Proper()
    ensures FunctionEvents(Probe(c, q, write), ch) ==
            HeadEvents(c) + (BlockEvents(c) + (AccessEvents(c, q, write) + LastEvents(c)))
  {
    var f := Probe(c, q, write);
    var h, b, a, u := HeadEvents(c), BlockEvents(c), AccessEvents(c, q, write), UseEvents(c);
    BodyRuns(c, q, write, ch);
    assert [f.params] + [map[]] == [c.Given(), map[]] && f.params == c.Given() && |c.Around()| == 2;
    LastIs(c);
    hide *;
    WholeRun(f, c.Around(), h + (b + (a + (u + []))), ch);
    var d, x := [Dead(c.Around()[1].Keys)], [Exit([c.Given()])];
    assert h + (b + (a + (u + []))) + d + x == h + (b + (a + (u + d + x)));
  }

  lemma LastIs(c: Setup)
    ensures LastEvents(c) == UseEvents(c) + [Dead(c.Around()[1].Keys)] + [Exit([c.Given()])]
  {
  }

  lemma BodyRuns(c: Setup, q: Place, write: bool, ch: seq<bool>)
    requires c.Proper()
    ensures RunSeq(Probe(c, q, write).body, [c.Given(), map[]], ch) ==
            Result(HeadEvents(c) + (BlockEvents(c) + (AccessEvents(c, q, write) + (UseEvents(c) + []))), Normal, c.Around(), ch)
  {
    TailRuns(c, q, write, ch);
    hide BlockEvents, AccessEvents, Tail, Run;
    if c.local {
      HeadRuns(c, ch);
      hide RunSeq;
      F.RunSeqCons(c.LetR(), Tail(c, q, write), [c.Given(), map[]], ch);
    } else {
      assert [] + Tail(c, q, write) == Tail(c, q, write);
    }
  }

  lemma HeadRuns(c: Setup, ch: seq<bool>)
    requires c.local
    ensures Run(c.LetR(), [c.Given(), map[]], ch) == Result(HeadEvents(c), Normal, c.Around(), ch)
  {
    var none: seq<Expr> := [];
    assert OperandEvents(none, [c.Given(), map[]]) == [];
    assert Declare("r", c.TypeR(), [c.Given(), map[]]) == c.Around();
  }

  lemma TailRuns(c: Setup, q: Place, write: bool, ch: seq<bool>)
    requires c.Proper()
    ensures RunSeq(Tail(c, q, write), c.Around(), ch) ==
            Result(BlockEvents(c) + (AccessEvents(c, q, write) + (UseEvents(c) + [])), Normal, c.Around(), ch)
  {
    var scopes := c.Around();
    InnerRuns(c, ch);
    BlockRuns(c, ch);
    AccessRuns(c, q, write, ch);
    hide Run;
    F.RunSeqCons(c.InnerBlock(), [F.Middle(q, write)] + ([UseR()] + []), scopes, ch);
    F.RunSeqCons(F.Middle(q, write), [UseR()] + [], scopes, ch);
    F.RunSeqCons(UseR(), [], scopes, ch);
  }

  lemma BlockRuns(c: Setup, ch: seq<bool>)
    requires c.Proper()
    ensures Run(c.InnerBlock(), c.Around(), ch) == Result(BlockEvents(c), Normal, c.Around(), ch)
  {
    InnerRuns(c, ch);
    hide RunSeq;
    var r := RunSeq(c.Inner(), c.Around() + [map[]], ch);
    assert Run(c.InnerBlock(), c.Around(), ch) == CloseScope(r, c.Around());
    assert r.events + [Dead(c.Filled()[2].Keys)] == BlockEvents(c);
  }

  lemma AccessRuns(c: Setup, q: Place, write: bool, ch: seq<bool>)
    ensures Run(F.Middle(q, write), c.Around(), ch) == Result(AccessEvents(c, q, write), Normal, c.Around(), ch)
    ensures c.Proper() ==> Run(UseR(), c.Around(), ch) == Result(UseEvents(c), Normal, c.Around(), ch)
  {
    var none: seq<Expr> := [];
    assert OperandEvents(none, c.Around()) == [];
    assert BindEvents(Root(q), ContainsReference(TypeOfPlace(q, c.Around())), Literal) == [];
    if c.Proper() {
      assert c.Around()[..1] == [c.Given()];
      assert LookupVar("r", c.Around()) == Some(c.TypeR());
      assert TypeOfPlace(["r"], c.Around()) == c.TypeR();
    }
  }

  // ---- what the monitor sees ----

  function BoundR(): Binding { Binding("r", ["s"], true, Here) }

  /// The stored reference, as held by `h`.
  function Lent(c: Setup, h: Var): Binding { Binding(h, c.x, c.mut, Here) }

  function AtBlock(c: Setup): Monitor { Monitor(if c.local then {BoundR()} else {}, {}, {}, {}, {}) }

  function AtStore(c: Setup): Monitor {
    if c.copied then AtBlock(c).(active := AtBlock(c).active + {Lent(c, "a")}, moved := if c.mut then {["a"]} else {}) else AtBlock(c)
  }

  function Kept(c: Setup): set<Binding> { {Lent(c, "r")} + if c.local then {Lent(c, "s")} else {} }

  function AfterStore(c: Setup): Monitor { AtStore(c).(active := AtStore(c).active + Kept(c), lodged := {Lent(c, "r")}) }

  function AfterBlock(c: Setup): Monitor { AtBlock(c).(active := AtBlock(c).active + Kept(c), lodged := {Lent(c, "r")}) }

  lemma HeadSteps(c: Setup)
    requires c.Proper()
    ensures Safe(Start, HeadEvents(c)) && Observe(Start, HeadEvents(c)) == AtBlock(c)
  {
    if c.local {
      var e0, e1, e2 := Touch(["s"], BorrowMut), Initialize(["r"]), Bind("r", ["s"], true, Here);
      FirstSteps(c);
      hide Step, Ok, AtBlock;
      F.SafeCons(Start, e2, []);
      F.SafeCons(Start, e1, [e2] + []);
      F.SafeCons(Start, e0, [e1] + ([e2] + []));
      F.NothingFollows(AtBlock(c));
      assert HeadEvents(c) == [e0] + ([e1] + ([e2] + []));
    }
  }

  lemma FirstSteps(c: Setup)
    requires c.local
    ensures var e0, e1, e2 := Touch(["s"], BorrowMut), Initialize(["r"]), Bind("r", ["s"], true, Here);
            Ok(Start, e0) && Step(Start, e0) == Start && Ok(Start, e1) && Step(Start, e1) == Start &&
            Ok(Start, e2) && Step(Start, e2) == AtBlock(c)
  {
  }

  lemma QuietSteps(c: Setup)
    requires c.Proper()
    ensures var m := AtBlock(c);
            && Ok(m, Initialize([c.k])) && Step(m, Initialize([c.k])) == m
            && Ok(m, Touch(c.x, BorrowAccess(c.mut))) && Step(m, Touch(c.x, BorrowAccess(c.mut))) == m
            && Ok(m, Initialize(["a"])) && Step(m, Initialize(["a"])) == m
  {
    F.OtherRoot(c.x, ["s"]);
    assert [c.k][0] == c.k && ["r"][0] == "r" && ["a"][0] == "a";
  }

  lemma CopySteps(c: Setup)
    requires c.Proper() && c.copied
    ensures var m := AtBlock(c); var m' := m.(active := m.active + {Lent(c, "a")}); var e := Touch(["a"], if c.mut then Move else Read);
            && Ok(m, Bind("a", c.x, c.mut, Here)) && Step(m, Bind("a", c.x, c.mut, Here)) == m'
            && Ok(m', e) && Step(m', e) == AtStore(c)
  {
    F.OtherRoot(["a"], c.x);
    F.OtherRoot(["a"], ["s"]);
    assert Derived(AtBlock(c), "a", c.x, c.mut, Here) == {};
  }

  lemma ValueSteps(c: Setup)
    requires c.Proper()
    ensures Safe(AtBlock(c), ValueEvents(c)) && Observe(AtBlock(c), ValueEvents(c)) == AtStore(c)
  {
    QuietSteps(c);
    var m := AtBlock(c);
    var e := Touch(c.x, BorrowAccess(c.mut));
    F.NothingFollows(AtStore(c));
    if c.copied {
      CopySteps(c);
      hide Step, Ok, AtBlock, AtStore;
      var b, t := Bind("a", c.x, c.mut, Here), Touch(["a"], if c.mut then Move else Read);
      F.SafeCons(Step(m, b), t, []);
      F.SafeCons(m, b, [t] + []);
      F.SafeCons(m, Initialize(["a"]), [b] + ([t] + []));
      F.SafeCons(m, e, [Initialize(["a"])] + ([b] + ([t] + [])));
    } else {
      hide Step, Ok;
      F.SafeCons(m, e, []);
    }
  }

  lemma ReferencesAre(c: Setup)
    requires c.Proper()
    ensures References(AtStore(c), "r", c.Stored()) == {Lent(c, "r")}
  {
    var m := AtStore(c);
    if c.copied {
      assert References(m, "r", c.Stored()) == HeldRefs(m, "r", "a");
      assert HeldRefs(m, "r", "a") == {Lent(c, "r")};
    } else {
      assert Derived(m, "r", c.x, c.mut, Here) == {};
    }
  }

  lemma ReachedIs(c: Setup)
    requires c.Proper()
    ensures Reached(AtStore(c), "r", true) == {}
    ensures Reached(AtStore(c), "r", false) == if c.local then {"s"} else {}
  {
  }

  lemma StoredRefsAre(c: Setup)
    requires c.Proper()
    ensures StoredRefs(AtStore(c), "r", c.Stored(), false) == Kept(c)
    ensures StoredRefs(AtStore(c), "r", c.Stored(), true) == {Lent(c, "r")}
  {
    ReferencesAre(c);
    ReachedIs(c);
    var m, e := AtStore(c), c.Stored();
    hide *;
    OneStored(m, "r", e, true, Lent(c, "r"));
    OneStored(m, "r", e, false, Lent(c, "r"));
    KeptIs(c);
  }

  lemma KeptIs(c: Setup)
    ensures Lent(c, "r").holder == "r"
    ensures Kept(c) == if c.local then {Lent(c, "r"), Lent(c, "r").(holder := "s")} else {Lent(c, "r")}
  {
  }

  /// One reference stored: one binding for every variable that reaches it.
  lemma OneStored(m: Monitor, v: Var, e: Expr, beyond: bool, b: Binding)
    requires References(m, v, e) == {b} && b.holder == v
    ensures Reached(m, v, beyond) == {} ==> StoredRefs(m, v, e, beyond) == {b}
    ensures Reached(m, v, beyond) == {"s"} ==> StoredRefs(m, v, e, beyond) == {b, b.(holder := "s")}
  {
    hide References, Reached;
    assert b.(holder := v) == b;
    var refs := StoredRefs(m, v, e, beyond);
    forall x | x in refs ensures x.holder in {v} + Reached(m, v, beyond) && x == b.(holder := x.holder) {}
    forall h | h in {v} + Reached(m, v, beyond) ensures b.(holder := h) in refs {}
    if Reached(m, v, beyond) == {"s"} {
      assert b.(holder := "s") in refs && b.(holder := v) in refs;
    }
  }

  lemma ViaSteps(c: Setup)
    requires c.Proper()
    ensures Ok(AtStore(c), WriteVia(["r"])) && Step(AtStore(c), WriteVia(["r"])) == AtStore(c)
  {
    F.OtherRoot(["r"], c.x);
    F.OtherRoot(["r"], ["s"]);
    F.OtherRoot(["a"], ["r"]);
    var m, m' := AtStore(c), Step(AtStore(c), WriteVia(["r"]));
    assert m'.active == m.active && m'.broken == m.broken && m'.moved == m.moved && m'.passed == m.passed;
  }

  lemma LodgeSteps(c: Setup)
    requires c.Proper()
    ensures var e := Store(["r"], c.Stored()); Ok(AtStore(c), e) && Step(AtStore(c), e) == AfterStore(c)
  {
    StoredRefsAre(c);
    StoreAdds(AtStore(c), ["r"], c.Stored());
    hide StoredRefs, Kept, Step;
  }

  /// A store adds references and disturbs nothing.
  lemma StoreAdds(m: Monitor, p: Place, value: Expr)
    ensures Step(m, Store(p, value)) ==
            m.(active := m.active + StoredRefs(m, Root(p), value, false), lodged := m.lodged + StoredRefs(m, Root(p), value, true))
    ensures Ok(m, Store(p, value))
  {
    hide StoredRefs;
    var m' := Step(m, Store(p, value));
    assert m'.active == m.active + StoredRefs(m, Root(p), value, false);
    assert m'.broken == m.broken && m'.moved == m.moved && m'.passed == m.passed;
  }

  lemma StoreSteps(c: Setup)
    requires c.Proper()
    ensures Safe(AtStore(c), StoredEvents(c)) && Observe(AtStore(c), StoredEvents(c)) == AfterStore(c)
  {
    var m := AtStore(c);
    var e, t := WriteVia(["r"]), Store(["r"], c.Stored());
    ViaSteps(c);
    LodgeSteps(c);
    hide Step, Ok, AtStore, AfterStore;
    F.SafeCons(m, t, []);
    F.SafeCons(m, e, [t] + []);
    F.NothingFollows(AfterStore(c));
  }

  /// The block may end exactly if the stored reference is to nothing in it.
  lemma EndSteps(c: Setup)
    requires c.Proper()
    ensures var d := Dead(c.Filled()[2].Keys);
            (Ok(AfterStore(c), d) <==> Root(c.x) != c.k) && Step(AfterStore(c), d) == AfterBlock(c)
  {
    var d, m := Dead(c.Filled()[2].Keys), AfterStore(c);
    assert c.Filled()[2].Keys == if c.copied then {c.k, "a"} else {c.k};
    assert Dangles(d, Lent(c, "r")) <==> Root(c.x) == c.k;
    assert Lent(c, "r") in m.active;
    EndLeaves(c);
    hide Step;
  }

  lemma EndLeaves(c: Setup)
    requires c.Proper()
    ensures Step(AfterStore(c), Dead(c.Filled()[2].Keys)) == AfterBlock(c)
  {
    var d, m := Dead(c.Filled()[2].Keys), AfterStore(c);
    assert c.Filled()[2].Keys == if c.copied then {c.k, "a"} else {c.k};
    var m' := Step(m, d);
    assert m'.active == AfterBlock(c).active && m'.broken == {} && m'.moved == {} && m'.passed == {};
  }

  lemma BlockSteps(c: Setup)
    requires c.Proper()
    ensures Safe(AtBlock(c), BlockEvents(c)) <==> Root(c.x) != c.k
    ensures Observe(AtBlock(c), BlockEvents(c)) == AfterBlock(c)
  {
    QuietSteps(c);
    ValueSteps(c);
    StoreSteps(c);
    EndSteps(c);
    hide Step, Ok, Safe, Observe, ValueEvents, StoredEvents, AtBlock, AtStore, AfterStore, AfterBlock;
    var d := Dead(c.Filled()[2].Keys);
    F.SafeCons(AfterStore(c), d, []);
    F.NothingFollows(AfterBlock(c));
    ObserveConcat(AtStore(c), StoredEvents(c), [d] + []);
    ObserveConcat(AtBlock(c), ValueEvents(c), StoredEvents(c) + ([d] + []));
    F.SafeCons(AtBlock(c), Initialize([c.k]), ValueEvents(c) + (StoredEvents(c) + ([d] + [])));
  }

  /// After the access: what `r` reaches is broken exactly when it was struck.
  ghost predicate Accessed(c: Setup, m: Monitor, struck: bool) {
    && (forall b :: b in m.active + m.broken ==> Root(b.place) !in {"r", AnyIndex})
    && (if struck then Lent(c, "r") in m.broken else forall b :: b in m.broken ==> b.holder != "r")
    && (forall p :: p in m.moved ==> Outside(p))
    && (forall b, p :: b in m.active && p in m.moved ==> Disjoint(p, b.place))
    && m.lodged == {Lent(c, "r")}
  }

  lemma AccessSteps(c: Setup, q: Place, write: bool)
    requires c.Proper() && Outside(q)
    ensures var ev := AccessEvents(c, q, write);
            Safe(AfterBlock(c), ev) &&
            Accessed(c, Observe(AfterBlock(c), ev), Strikes(Touch(q, Kind(c, q, write)), c.x, c.mut))
  {
    var m, e := AfterBlock(c), Touch(q, Kind(c, q, write));
    var struck := Strikes(e, c.x, c.mut);
    F.OtherRoot(q, ["s"]);
    var m1 := Step(m, e);
    AccessStruck(c, q, write);
    if write {
      var i := Initialize(q);
      assert q != ["s"] && q != ["r"] by { assert ["s"][0] == "s" && ["r"][0] == "r"; }
      assert Ok(m1, i) && Accessed(c, Step(m1, i), struck);
      hide Step, Ok, Accessed;
      F.SafeCons(m1, i, []);
      F.SafeCons(m, e, [i] + []);
      F.NothingFollows(Step(m1, i));
      assert AccessEvents(c, q, write) == [e] + ([i] + []);
    } else {
      hide Step, Ok, Accessed;
      F.SafeCons(m, e, []);
      F.NothingFollows(m1);
      assert AccessEvents(c, q, write) == [e] + [];
    }
  }

  lemma AccessStruck(c: Setup, q: Place, write: bool)
    requires c.Proper() && Outside(q)
    ensures var e := Touch(q, Kind(c, q, write));
            Ok(AfterBlock(c), e) && Accessed(c, Step(AfterBlock(c), e), Strikes(e, c.x, c.mut))
  {
    var m, e := AfterBlock(c), Touch(q, Kind(c, q, write));
    AccessMoves(c, q, e.access);
    AccessClear(c, q, e.access);
    hide Kind, Kept;
    F.OtherRoot(q, ["s"]);
    KeptHolds(c);
    assert Hits(e, Lent(c, "r")) == Strikes(e, c.x, c.mut);
    assert forall b :: b in m.active && b.holder == "r" ==> b == Lent(c, "r") || b == BoundR();
    assert !Hits(e, BoundR());
  }

  lemma KeptHolds(c: Setup)
    ensures Lent(c, "r") in Kept(c)
    ensures forall b :: b in Kept(c) ==> b == Lent(c, "r") || (b == Lent(c, "s") && b.holder == "s")
  {
  }

  /// An access elsewhere moves at most its own place.
  lemma AccessMoves(c: Setup, q: Place, access: Access)
    requires c.Proper() && Outside(q)
    ensures Step(AfterBlock(c), Touch(q, access)).moved == if access == Move then {q} else {}
  {
    assert Referents(AfterBlock(c), q) == {};
  }

  lemma AccessClear(c: Setup, q: Place, access: Access)
    requires c.Proper() && Outside(q)
    ensures var m := Step(AfterBlock(c), Touch(q, access));
            forall b, p :: b in m.active && p in m.moved ==> Disjoint(p, b.place)
  {
    AccessMoves(c, q, access);
    var m := Step(AfterBlock(c), Touch(q, access));
    forall b | b in m.active && access == Move ensures Disjoint(q, b.place) {
      assert !Hits(Touch(q, access), b);
    }
  }

  lemma LastSteps(c: Setup, m: Monitor, struck: bool)
    requires c.Proper() && Accessed(c, m, struck)
    ensures Safe(m, LastEvents(c)) <==> !struck && (c.local || !StackOwned(c.x, [c.Given()]))
  {
    var u, d, x := UseEvents(c), Dead(c.Around()[1].Keys), Exit([c.Given()]);
    UseSteps(c, m, struck);
    var m1 := Observe(m, u);
    DeadSteps(c, m, m1);
    var m2 := Step(m1, d);
    ExitSteps(c, m2);
    hide Step, Ok, StackOwned, UseEvents, Observe;
    F.SafeCons(m2, x, []);
    F.NothingFollows(Step(m2, x));
    F.SafeCons(m1, d, [x] + []);
    ObserveConcat(m, u, [d] + ([x] + []));
  }

  lemma UseSteps(c: Setup, m: Monitor, struck: bool)
    requires c.Proper() && Accessed(c, m, struck)
    ensures var m1 := Observe(m, UseEvents(c));
            (Safe(m, UseEvents(c)) <==> !struck) &&
            m1.active <= m.active && m1.broken <= m.broken + m.active && m1.lodged == m.lodged
  {
    var e, t := Touch(["r"], Read), Take(["r"]);
    forall p | p in m.moved ensures !UsesMoved(e, p) { F.OtherRoot(p, ["r"]); }
    if struck { assert UsesHolder(e, Lent(c, "r").holder); }
    assert Ok(m, e) <==> !struck;
    var m1 := Step(m, e);
    if c.mut {
      TakeSteps(c, m, struck);
      hide Step, Ok;
      F.SafeCons(m1, t, []);
      F.SafeCons(m, e, [t] + []);
      F.NothingFollows(Step(m1, t));
      assert UseEvents(c) == [e] + ([t] + []);
    } else {
      hide Step, Ok;
      F.SafeCons(m, e, []);
      F.NothingFollows(m1);
      assert UseEvents(c) == [e] + [];
    }
  }

  /// Nothing that `r` leads to was moved before.
  lemma TakeSteps(c: Setup, m: Monitor, struck: bool)
    requires c.Proper() && Accessed(c, m, struck)
    ensures var m1 := Step(m, Touch(["r"], Read)); var m2 := Step(m1, Take(["r"]));
            (!struck ==> Ok(m1, Take(["r"]))) &&
            m2.active <= m.active && m2.broken <= m.broken + m.active && m2.lodged == m.lodged
  {
    var e, t := Touch(["r"], Read), Take(["r"]);
    var m1 := Step(m, e);
    forall b | b in m.active ensures !Hits(e, b) {
      if Root(b.place) != AnyIndex { F.OtherRoot(["r"], b.place); }
    }
    assert m1.active == m.active && m1.broken == m.broken && m1.moved == m.moved;
    forall b, q | b in m1.active && q in m1.moved ensures !UsesMovedThrough(t, b, q) {
      assert b.place + ["r"][1..] == b.place;
    }
  }

  lemma DeadSteps(c: Setup, m: Monitor, m1: Monitor)
    requires c.Proper() && (forall b :: b in m.active + m.broken ==> Root(b.place) !in {"r", AnyIndex})
    requires m1.active <= m.active && m1.broken <= m.broken + m.active && m1.lodged == m.lodged
    ensures var d := Dead(c.Around()[1].Keys); Ok(m1, d) && Step(m1, d).lodged == m.lodged
  {
    var d := Dead(c.Around()[1].Keys);
    assert c.Around()[1].Keys == if c.local then {"r"} else {};
    forall b | b in m1.active + m1.broken ensures !Dangles(d, b) { assert b in m.active + m.broken; }
  }

  lemma ExitSteps(c: Setup, m: Monitor)
    requires c.Proper() && m.lodged == {Lent(c, "r")}
    ensures Ok(m, Exit([c.Given()])) <==> c.local || !StackOwned(c.x, [c.Given()])
  {
    assert Leaks(Lent(c, "r"), [c.Given()]) <==> !c.local && StackOwned(c.x, [c.Given()]);
  }

  lemma ProbeSafety(c: Setup, q: Place, write: bool)
    requires c.Proper() && Outside(q)
    ensures Safe(Start, HeadEvents(c) + (BlockEvents(c) + (AccessEvents(c, q, write) + LastEvents(c)))) <==>
            && Root(c.x) != c.k && !Strikes(Touch(q, Kind(c, q, write)), c.x, c.mut)
            && (c.local || !StackOwned(c.x, [c.Given()]))
  {
    hide Safe, Observe, HeadEvents, BlockEvents, AccessEvents, LastEvents, Kind, StackOwned, AtBlock, AfterBlock, Accessed;
    HeadSteps(c);
    BlockSteps(c);
    AccessSteps(c, q, write);
    var ev, last := AccessEvents(c, q, write), LastEvents(c);
    var struck := Strikes(Touch(q, Kind(c, q, write)), c.x, c.mut);
    LastSteps(c, Observe(AfterBlock(c), ev), struck);
    ObserveConcat(AfterBlock(c), ev, last);
    ObserveConcat(AtBlock(c), BlockEvents(c), ev + last);
    ObserveConcat(Start, HeadEvents(c), BlockEvents(c) + (ev + last));
  }

  // ---- outside the fragment ----

  lemma StoreIsOutside(c: Setup, cx: Context)
    requires c.Proper()
    ensures !InFragment(cx, c.StoreIt(), c.Filled())
  {
    LookupThere(c);
  }

  lemma InnerIsOutside(c: Setup, cx: Context)
    requires c.Proper()
    ensures !SeqInFragment(cx, c.Inner(), c.Around() + [map[]])
  {
    StoreIsOutside(c, cx);
    hide InFragment;
    var last: seq<Stmt> := [c.StoreIt()] + [];
    assert Declare(c.k, c.kty, c.Around() + [map[]]) == c.Opened();
    assert !SeqInFragment(cx, last, c.Filled());
    if c.copied {
      assert Declare("a", c.TypeA(), c.Opened()) == c.Filled();
      var rest := [c.LetA()] + last;
      assert rest[0] == c.LetA() && rest[1..] == last;
      assert !SeqInFragment(cx, rest, c.Opened());
      assert c.Inner()[0] == c.LetK() && c.Inner()[1..] == rest;
    } else {
      assert c.Inner()[0] == c.LetK() && c.Inner()[1..] == last;
    }
  }

  lemma NotAdmissible(c: Setup, q: Place, write: bool)
    requires c.Proper()
    ensures !Admissible(Probe(c, q, write))
  {
    var f := Probe(c, q, write);
    assert [f.params] + [map[]] == [c.Given(), map[]];
    forall cx ensures !Fits(f, cx) {
      InnerIsOutside(c, cx);
      hide SeqJumpsInLoop, c.Inner;
      var tail := Tail(c, q, write);
      assert !InFragment(cx, tail[0], c.Around());
      assert !SeqInFragment(cx, tail, c.Around());
      if c.local {
        assert f.body[0] == c.LetR() && f.body[1..] == tail;
        assert Declare("r", c.TypeR(), [c.Given(), map[]]) == c.Around();
      } else {
        assert f.body == tail;
      }
    }
  }

  // ---- the gap ----

  /// The checker accepts every store of a reference through a reference. It is
  /// safe exactly when the referent outlives the block it is made in, and, if
  /// `r` is a parameter, the call, and no access before the next use of `r`
  /// is against it. The soundness theorem leaves such functions out.
  lemma StoredReferenceIsUnchecked(c: Setup, q: Place, write: bool, lv: Tables, ch: seq<bool>)
    requires c.Proper() && Outside(q)
    ensures CheckFunction(Probe(c, q, write), lv) == {}
    ensures Safe(Start, FunctionEvents(Probe(c, q, write), ch)) <==>
            && Root(c.x) != c.k
            && (c.local || !StackOwned(c.x, [c.Given()]))
            && (Disjoint(q, c.x) || !Forbidden(Kind(c, q, write), c.mut))
    ensures !Admissible(Probe(c, q, write))
  {
    ProbeAccepted(c, q, write, lv);
    hide CheckFunction, FunctionEvents, Safe, Admissible, HeadEvents, BlockEvents, AccessEvents, LastEvents, Kind, StackOwned;
    ProbeEvents(c, q, write, ch);
    ProbeSafety(c, q, write);
    NotAdmissible(c, q, write);
  }

  /// `{ let x; deref r = borrow x } z; deref r` is accepted and leaves `r` with
  /// a reference to `x`, which is gone.
  lemma StoredReferenceDangles(lv: Tables, ch: seq<bool>)
    ensures var c := Setup(["x"], false, false, false, "x", Scalar, Scalar, map[]);
            CheckFunction(Probe(c, ["z"], false), lv) == {} && !Safe(Start, FunctionEvents(Probe(c, ["z"], false), ch))
  {
    hide CheckFunction, FunctionEvents, Safe, Admissible, Probe, Kind;
    var c := Setup(["x"], false, false, false, "x", Scalar, Scalar, map[]);
    assert c.Proper() && Outside(["z"]) by { assert [c.k] == ["x"]; }
    StoredReferenceIsUnchecked(c, ["z"], false, lv, ch);
  }
}
