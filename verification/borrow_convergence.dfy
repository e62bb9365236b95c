/// The flow analysis converges: every fact of the state is transferred on its
/// own, so a loop settles on the second pass over its body, at any depth, and
/// the bound on the passes (src/borrow.cpp) is never what rejects a function.

module BorrowConvergence {
  import opened Places
  import opened BorrowSyntax
  import opened BorrowState
  import opened Liveness
  import opened BorrowCheck
  import opened CallArguments
  import opened BorrowSoundness

  // ---- facts ----

  /// What a state says of one place, one loan or one origin.
  datatype Fact =
    | Moved(p: Place)
    | Lent(l: Loan)
    | Refers(q: Place)
    | RefersTo(q: Place, o: Origin)

  predicate Has(st: State, x: Fact) {
    match x
    case Moved(p) => p in st.moved
    case Lent(l) => l in st.loans
    case Refers(q) => q in st.origins
    case RefersTo(q, o) => q in st.origins && o in st.origins[q]
  }

  /// States of one shape, the second of which has the fact if the first has.
  ghost predicate Alike(x: Fact, a: State, b: State) {
    a.scopes == b.scopes && a.reachable == b.reachable && (Has(a, x) ==> Has(b, x))
  }

  ghost predicate AllAlike(x: Fact, a: seq<State>, b: seq<State>) {
    |a| == |b| && forall i :: 0 <= i < |a| ==> Alike(x, a[i], b[i])
  }

  ghost predicate OptAlike(x: Fact, a: Option<State>, b: Option<State>) {
    a.Some? == b.Some? && (a.Some? ==> Alike(x, a.value, b.value))
  }

  ghost predicate FlowAlike(x: Fact, f: Flow, g: Flow) {
    Alike(x, f.st, g.st) && AllAlike(x, f.breaks, g.breaks) && AllAlike(x, f.conts, g.conts)
  }

  /// States with the same facts are the same.
  lemma SameFacts(a: State, b: State)
    requires forall x :: Alike(x, a, b) && Alike(x, b, a)
    ensures a == b
  {
    assert Alike(Moved(["x"]), a, b);
    forall p: Place ensures p in a.moved <==> p in b.moved {
      assert Alike(Moved(p), a, b) && Alike(Moved(p), b, a);
    }
    forall l ensures l in a.loans <==> l in b.loans {
      assert Alike(Lent(l), a, b) && Alike(Lent(l), b, a);
    }
    forall q: Place ensures q in a.origins <==> q in b.origins {
      assert Alike(Refers(q), a, b) && Alike(Refers(q), b, a);
    }
    forall q: Place | q in a.origins ensures a.origins[q] == b.origins[q] {
      forall o ensures o in a.origins[q] <==> o in b.origins[q] {
        assert Alike(RefersTo(q, o), a, b) && Alike(RefersTo(q, o), b, a);
      }
    }
    assert a.origins == b.origins;
    assert a.moved == b.moved && a.loans == b.loans;
  }

  // ---- single operations ----

  lemma AccessAlike(x: Fact, p: Place, pos: Pos, access: Access, a: State, b: State, via: set<Holder>)
    requires Alike(x, a, b) && AccessPlace(p, pos, access, a, via).errs == {} && AccessPlace(p, pos, access, b, via).errs == {}
    ensures Alike(x, AccessPlace(p, pos, access, a, via).st, AccessPlace(p, pos, access, b, via).st)
  {
    hide Effective, Unavailable, HasMovedAncestor, Clashes, Exempt, Conflict;
  }

  lemma BeginAlike(x: Fact, p: Place, holder: Holder, mut: bool, pos: Pos, a: State, b: State, via: set<Holder>)
    requires Alike(x, a, b) && BeginBorrow(p, holder, mut, pos, a, via).errs == {} && BeginBorrow(p, holder, mut, pos, b, via).errs == {}
    ensures Alike(x, BeginBorrow(p, holder, mut, pos, a, via).st, BeginBorrow(p, holder, mut, pos, b, via).st)
  {
    hide AccessPlace;
    AccessAlike(x, p, pos, if mut then BorrowMut else BorrowShared, a, b, via);
  }

  lemma ReserveAlike(x: Fact, p: Place, holder: Holder, pos: Pos, a: State, b: State)
    requires Alike(x, a, b) && Reserve(p, holder, pos, a).errs == {} && Reserve(p, holder, pos, b).errs == {}
    ensures Alike(x, Reserve(p, holder, pos, a).st, Reserve(p, holder, pos, b).st)
  {
    hide AccessPlace;
    AccessAlike(x, p, pos, TwoPhaseReserve, a, b, {});
  }

  predicate HeldBy(x: Fact, holder: Holder) { x.Lent? && x.l.holder == holder }

  lemma ActivateAlike(x: Fact, holder: Holder, pos: Pos, a: State, b: State)
    requires Alike(x, a, b) && !HeldBy(x, holder)
    ensures Alike(x, Activate(holder, pos, a).st, Activate(holder, pos, b).st)
  {
    if x.Lent? {
      assert forall l :: ActivateLoan(holder, pos, l) == x.l <==> l == x.l;
    }
  }

  lemma KillAlike(x: Fact, holder: Holder, a: State, b: State)
    requires HeldBy(x, holder) || Alike(x, a, b)
    requires a.scopes == b.scopes && a.reachable == b.reachable
    ensures Alike(x, KillHolder(holder, a), KillHolder(holder, b))
  {
  }

  // ---- expressions ----

  lemma {:induction false} InspectAlike(x: Fact, e: Expr, access: Access, a: State, b: State)
    requires Alike(x, a, b) && Inspect(e, access, a).errs == {} && Inspect(e, access, b).errs == {}
    ensures Alike(x, Inspect(e, access, a).st, Inspect(e, access, b).st)
    decreases e, 1
  {
    hide AccessPlace, BeginBorrow, Alike;
    match e
    case Literal =>
    case Use(pe) => AccessAlike(x, pe.place, pe.pos, access, a, b, {});
    case Deref(pe) => AccessAlike(x, pe.place, pe.pos, Read, a, b, {});
    case Lend(pe) => AccessAlike(x, pe.place, pe.pos, access, a, b, {});
    case Unary(y) => InspectAlike(x, y, access, a, b);
    case Binary(l, r) =>
      InspectAlike(x, l, Move, a, b);
      InspectAlike(x, r, Move, Inspect(l, Move, a).st, Inspect(l, Move, b).st);
    case Borrow(mut, pe, pos) => BeginAlike(x, pe.place, Temporary, mut, pos, a, b, {});
    case Call(pos, args) => CallAlike(x, pos, args, a, b);
  }

  /// Is the fact a loan of one of the arguments made by `borrow mut`?
  predicate HeldByArgs(x: Fact, args: seq<Expr>, index: nat, pos: Pos) {
    args != [] && ((IsMutBorrow(args[0]) && HeldBy(x, TwoPhase(pos, index))) || HeldByArgs(x, args[1..], index + 1, pos))
  }

  lemma {:induction false} CallAlike(x: Fact, pos: Pos, args: seq<Expr>, a: State, b: State)
    requires Alike(x, a, b) && Inspect(Call(pos, args), Move, a).errs == {} && Inspect(Call(pos, args), Move, b).errs == {}
    ensures Alike(x, Inspect(Call(pos, args), Move, a).st, Inspect(Call(pos, args), Move, b).st)
    decreases args, 2
  {
    if HeldByArgs(x, args, 0, pos) {
      OwnLoansEnd(x, pos, args, a);
      OwnLoansEnd(x, pos, args, b);
    } else {
      OthersAlike(x, pos, args, a, b);
    }
  }

  lemma OwnLoansEnd(x: Fact, pos: Pos, args: seq<Expr>, st: State)
    requires HeldByArgs(x, args, 0, pos)
    ensures var r := Inspect(Call(pos, args), Move, st).st; !Has(r, x) && r.scopes == st.scopes && r.reachable == st.reachable
  {
    InspectFrame(Call(pos, args), Move, st);
    hide HeldByArgs, Has, ReserveArgs, InspectArgs, ReleaseArgs, ActivateArgs, KillArgs;
    KillArgsDrops(x, args, 0, pos, ActivateArgs(args, 0, pos, ReleaseArgs(args, 0, pos, InspectArgs(args, 0, pos, ReserveArgs(args, 0, pos, st).st).st)).st);
  }

  lemma {:induction false} OthersAlike(x: Fact, pos: Pos, args: seq<Expr>, a: State, b: State)
    requires Alike(x, a, b) && Inspect(Call(pos, args), Move, a).errs == {} && Inspect(Call(pos, args), Move, b).errs == {}
    requires !HeldByArgs(x, args, 0, pos)
    ensures Alike(x, Inspect(Call(pos, args), Move, a).st, Inspect(Call(pos, args), Move, b).st)
    decreases args, 1
  {
    hide Alike, HeldByArgs;
    var ra, rb := ReserveArgs(args, 0, pos, a), ReserveArgs(args, 0, pos, b);
    ReserveArgsAlike(x, args, 0, pos, a, b);
    var ia, ib := InspectArgs(args, 0, pos, ra.st), InspectArgs(args, 0, pos, rb.st);
    InspectArgsAlike(x, args, 0, pos, ra.st, rb.st);
    var sa, sb := ReleaseArgs(args, 0, pos, ia.st), ReleaseArgs(args, 0, pos, ib.st);
    ReleaseArgsAlike(x, args, 0, pos, ia.st, ib.st);
    ActivateArgsAlike(x, args, 0, pos, sa, sb);
    KillArgsAlike(x, args, 0, pos, ActivateArgs(args, 0, pos, sa).st, ActivateArgs(args, 0, pos, sb).st);
  }

  lemma {:induction false} ReserveArgsAlike(x: Fact, args: seq<Expr>, index: nat, pos: Pos, a: State, b: State)
    requires Alike(x, a, b) && ReserveArgs(args, index, pos, a).errs == {} && ReserveArgs(args, index, pos, b).errs == {}
    ensures Alike(x, ReserveArgs(args, index, pos, a).st, ReserveArgs(args, index, pos, b).st)
    decreases args
  {
    hide Reserve, Alike;
    if args != [] {
      if IsMutBorrow(args[0]) {
        var p, holder := args[0].pe.place, TwoPhase(pos, index);
        ReserveAlike(x, p, holder, pos, a, b);
        ReserveArgsAlike(x, args[1..], index + 1, pos, Reserve(p, holder, pos, a).st, Reserve(p, holder, pos, b).st);
      } else {
        ReserveArgsAlike(x, args[1..], index + 1, pos, a, b);
      }
    }
  }

  lemma {:induction false} InspectArgsAlike(x: Fact, args: seq<Expr>, index: nat, pos: Pos, a: State, b: State)
    requires Alike(x, a, b) && InspectArgs(args, index, pos, a).errs == {} && InspectArgs(args, index, pos, b).errs == {}
    ensures Alike(x, InspectArgs(args, index, pos, a).st, InspectArgs(args, index, pos, b).st)
    decreases args, 0
  {
    hide InspectArg, Alike;
    if args != [] {
      InspectArgAlike(x, args[0], index, pos, a, b);
      InspectArgsAlike(x, args[1..], index + 1, pos, InspectArg(args[0], index, pos, a).st, InspectArg(args[0], index, pos, b).st);
    }
  }

  lemma {:induction false} InspectArgAlike(x: Fact, e: Expr, index: nat, pos: Pos, a: State, b: State)
    requires Alike(x, a, b) && InspectArg(e, index, pos, a).errs == {} && InspectArg(e, index, pos, b).errs == {}
    ensures Alike(x, InspectArg(e, index, pos, a).st, InspectArg(e, index, pos, b).st)
    decreases e, 2
  {
    hide AccessPlace, BeginBorrow, Inspect, Alike;
    if IsMutBorrow(e) {
    } else if e.Lend? {
      var p, at := e.pe.place, e.pe.pos;
      AccessAlike(x, p, at, Read, a, b, {});
      BeginAlike(x, p, Guard(pos, index), true, at, AccessPlace(p, at, Read, a, {}).st, AccessPlace(p, at, Read, b, {}).st, {});
    } else {
      InspectAlike(x, e, Move, a, b);
    }
  }

  lemma {:induction false} ReleaseArgsAlike(x: Fact, args: seq<Expr>, index: nat, pos: Pos, a: State, b: State)
    requires Alike(x, a, b)
    ensures Alike(x, ReleaseArgs(args, index, pos, a), ReleaseArgs(args, index, pos, b))
    decreases args
  {
    if args != [] {
      var holder := Guard(pos, index);
      KillAlike(x, holder, a, b);
      hide Alike, KillHolder;
      ReleaseArgsAlike(x, args[1..], index + 1, pos, if args[0].Lend? then KillHolder(holder, a) else a, if args[0].Lend? then KillHolder(holder, b) else b);
    }
  }

  lemma {:induction false} ActivateArgsAlike(x: Fact, args: seq<Expr>, index: nat, pos: Pos, a: State, b: State)
    requires Alike(x, a, b) && !HeldByArgs(x, args, index, pos)
    ensures Alike(x, ActivateArgs(args, index, pos, a).st, ActivateArgs(args, index, pos, b).st)
    decreases args
  {
    hide Alike, Activate;
    if args != [] {
      if IsMutBorrow(args[0]) {
        var holder := TwoPhase(pos, index);
        ActivateAlike(x, holder, pos, a, b);
        ActivateArgsAlike(x, args[1..], index + 1, pos, Activate(holder, pos, a).st, Activate(holder, pos, b).st);
      } else {
        ActivateArgsAlike(x, args[1..], index + 1, pos, a, b);
      }
    }
  }

  lemma {:induction false} KillArgsAlike(x: Fact, args: seq<Expr>, index: nat, pos: Pos, a: State, b: State)
    requires Alike(x, a, b)
    ensures Alike(x, KillArgs(args, index, pos, a), KillArgs(args, index, pos, b))
    decreases args
  {
    if args != [] {
      var holder := TwoPhase(pos, index);
      KillAlike(x, holder, a, b);
      hide Alike, KillHolder;
      KillArgsAlike(x, args[1..], index + 1, pos, if IsMutBorrow(args[0]) then KillHolder(holder, a) else a, if IsMutBorrow(args[0]) then KillHolder(holder, b) else b);
    }
  }

  /// The arguments' own loans end with the call.
  lemma {:induction false} KillArgsDrops(x: Fact, args: seq<Expr>, index: nat, pos: Pos, st: State)
    ensures Has(KillArgs(args, index, pos, st), x) ==> Has(st, x) && !HeldByArgs(x, args, index, pos)
    decreases args
  {
    if args != [] {
      KillArgsDrops(x, args[1..], index + 1, pos, if IsMutBorrow(args[0]) then KillHolder(TwoPhase(pos, index), st) else st);
    }
  }

  // ---- statements that are no loops ----

  lemma MarkAlike(x: Fact, p: Place, a: State, b: State)
    requires Alike(x, a, b)
    ensures Alike(x, MarkInitialized(p, a), MarkInitialized(p, b))
  {
    hide IsWithin;
  }

  lemma OriginsAlike(x: Fact, p: Place, origins: set<Origin>, a: State, b: State)
    requires Alike(x, a, b)
    ensures Alike(x, SetOrigins(p, origins, a), SetOrigins(p, origins, b))
  {
    hide IsWithin;
  }

  lemma BindAlike(x: Fact, dest: Place, e: Expr, a: State, b: State)
    requires e.Borrow? && Alike(x, a, b) && BindBorrow(dest, e, a).errs == {} && BindBorrow(dest, e, b).errs == {}
    ensures Alike(x, BindBorrow(dest, e, a).st, BindBorrow(dest, e, b).st)
  {
    var p := e.pe.place;
    var pa := a.(loans := set l | l in a.loans && !(l.holder == Temporary && Conflict(l.place, p)));
    var pb := b.(loans := set l | l in b.loans && !(l.holder == Temporary && Conflict(l.place, p)));
    assert Alike(x, pa, pb);
    hide Alike, BeginBorrow, SetOrigins, Conflict;
    BeginAlike(x, p, Stored(dest), e.mut, e.pos, pa, pb, {Stored(dest)});
    OriginsAlike(x, dest, {Origin(p, e.mut, e.pos)}, BeginBorrow(p, Stored(dest), e.mut, e.pos, pa, {Stored(dest)}).st,
                 BeginBorrow(p, Stored(dest), e.mut, e.pos, pb, {Stored(dest)}).st);
  }

  lemma DefineAlike(x: Fact, key: Var, ty: Type, init: Option<Expr>, c: Checked, d: Checked)
    requires Alike(x, c.st, d.st) && c.st.scopes != []
    requires DefineLocal(key, ty, init, c).errs == {} && DefineLocal(key, ty, init, d).errs == {}
    ensures Alike(x, DefineLocal(key, ty, init, c).st, DefineLocal(key, ty, init, d).st)
  {
    var c1, d1 := c.st.(scopes := Declare(key, ty, c.st.scopes)), d.st.(scopes := Declare(key, ty, d.st.scopes));
    assert Alike(x, c1, d1);
    hide Alike, MarkInitialized, SetOrigins, BindBorrow, ContainsReference;
    MarkAlike(x, [key], c1, d1);
    OriginsAlike(x, [key], {}, MarkInitialized([key], c1), MarkInitialized([key], d1));
    if ContainsReference(ty) && init.Some? && init.value.Borrow? {
      BindAlike(x, [key], init.value, SetOrigins([key], {}, MarkInitialized([key], c1)), SetOrigins([key], {}, MarkInitialized([key], d1)));
    }
  }

  lemma StoreAlike(x: Fact, p: Place, pos: Pos, value: Expr, refTarget: bool, c: Checked, d: Checked)
    requires Alike(x, c.st, d.st) && StoreInto(p, pos, value, refTarget, c).errs == {} && StoreInto(p, pos, value, refTarget, d).errs == {}
    ensures Alike(x, StoreInto(p, pos, value, refTarget, c).st, StoreInto(p, pos, value, refTarget, d).st)
  {
    hide Alike, AccessPlace, MarkInitialized, SetOrigins, BindBorrow;
    var wc, wd := AccessPlace(p, pos, Write, c.st, {}), AccessPlace(p, pos, Write, d.st, {});
    AccessAlike(x, p, pos, Write, c.st, d.st, {});
    MarkAlike(x, p, wc.st, wd.st);
    OriginsAlike(x, p, {}, MarkInitialized(p, wc.st), MarkInitialized(p, wd.st));
    if refTarget && value.Borrow? {
      BindAlike(x, p, value, SetOrigins(p, {}, MarkInitialized(p, wc.st)), SetOrigins(p, {}, MarkInitialized(p, wd.st)));
    }
  }

  lemma KillUnderAlike(x: Fact, p: Place, a: State, b: State)
    requires Alike(x, a, b)
    ensures Alike(x, KillHoldersUnder(p, a), KillHoldersUnder(p, b))
  {
    hide HeldUnder;
  }

  lemma AssignAlike(x: Fact, compound: bool, t: Target, value: Expr, pos: Pos, a: State, b: State)
    requires Alike(x, a, b) && CheckAssign(compound, t, value, pos, a).errs == {} && CheckAssign(compound, t, value, pos, b).errs == {}
    ensures Alike(x, CheckAssign(compound, t, value, pos, a).st, CheckAssign(compound, t, value, pos, b).st)
  {
    if t.Through? {
      ThroughAlike(x, compound, t, value, pos, a, b);
    } else if compound {
      CompoundAlike(x, t, value, pos, a, b);
    } else {
      PlainAlike(x, t, value, pos, a, b);
    }
  }

  lemma ThroughAlike(x: Fact, compound: bool, t: Target, value: Expr, pos: Pos, a: State, b: State)
    requires t.Through? && Alike(x, a, b)
    requires CheckAssign(compound, t, value, pos, a).errs == {} && CheckAssign(compound, t, value, pos, b).errs == {}
    ensures Alike(x, CheckAssign(compound, t, value, pos, a).st, CheckAssign(compound, t, value, pos, b).st)
  {
    hide Alike, AccessPlace, Inspect, Conflict, Unavailable;
    var p := t.pe.place;
    if compound { AccessAlike(x, p, t.pe.pos, Read, a, b, {}); }
    var ra := if compound then AccessPlace(p, t.pe.pos, Read, a, {}) else Checked(a, {});
    var rb := if compound then AccessPlace(p, t.pe.pos, Read, b, {}) else Checked(b, {});
    InspectAlike(x, value, Move, ra.st, rb.st);
  }

  lemma PlainAlike(x: Fact, t: Target, value: Expr, pos: Pos, a: State, b: State)
    requires t.Direct? && Alike(x, a, b)
    requires CheckAssign(false, t, value, pos, a).errs == {} && CheckAssign(false, t, value, pos, b).errs == {}
    ensures Alike(x, CheckAssign(false, t, value, pos, a).st, CheckAssign(false, t, value, pos, b).st)
  {
    hide Inspect, StoreInto, ContainsReference, TypeOfPlace, KillHoldersUnder;
    var p := t.pe.place;
    KillUnderAlike(x, p, a, b);
    var ka, kb := KillHoldersUnder(p, a), KillHoldersUnder(p, b);
    InspectAlike(x, value, Move, ka, kb);
    StoreAlike(x, p, t.pe.pos, value, ContainsReference(TypeOfPlace(p, a.scopes)), Inspect(value, Move, ka), Inspect(value, Move, kb));
  }

  lemma CompoundAlike(x: Fact, t: Target, value: Expr, pos: Pos, a: State, b: State)
    requires t.Direct? && Alike(x, a, b)
    requires CheckAssign(true, t, value, pos, a).errs == {} && CheckAssign(true, t, value, pos, b).errs == {}
    ensures Alike(x, CheckAssign(true, t, value, pos, a).st, CheckAssign(true, t, value, pos, b).st)
  {
    hide Reserve, Activate, Inspect, StoreInto, ContainsReference, TypeOfPlace, KillHoldersUnder, KillHolder;
    var p, rid := t.pe.place, CompoundTarget(pos);
    ReserveAlike(x, p, rid, t.pe.pos, a, b);
    var ra, rb := Reserve(p, rid, t.pe.pos, a), Reserve(p, rid, t.pe.pos, b);
    InspectAlike(x, value, Move, ra.st, rb.st);
    var va, vb := Inspect(value, Move, ra.st), Inspect(value, Move, rb.st);
    if !HeldBy(x, rid) { ActivateAlike(x, rid, pos, va.st, vb.st); }
    var aa, ab := Activate(rid, pos, va.st), Activate(rid, pos, vb.st);
    ActivateShape(rid, pos, va.st);
    ActivateShape(rid, pos, vb.st);
    KillAlike(x, rid, aa.st, ab.st);
    var ka, kb := KillHolder(rid, aa.st), KillHolder(rid, ab.st);
    KillUnderAlike(x, p, ka, kb);
    StoreAlike(x, p, t.pe.pos, value, ContainsReference(TypeOfPlace(p, a.scopes)),
               Checked(KillHoldersUnder(p, ka), ra.errs + va.errs + aa.errs), Checked(KillHoldersUnder(p, kb), rb.errs + vb.errs + ab.errs));
  }

  lemma ActivateShape(holder: Holder, pos: Pos, st: State)
    ensures var r := Activate(holder, pos, st).st; r.scopes == st.scopes && r.reachable == st.reachable
  {
  }

  lemma ExpireAlike(x: Fact, id: nat, lv: Tables, a: State, b: State)
    requires Alike(x, a, b)
    ensures Alike(x, Expire(id, lv, a), Expire(id, lv, b)) && Expire(id, lv, a).reachable == a.reachable
  {
    hide Survives;
  }

  lemma PopAlike(x: Fact, a: State, b: State)
    requires Alike(x, a, b) && a.scopes != []
    ensures Alike(x, PopScope(a).st, PopScope(b).st)
  {
  }

  lemma {:induction false} TruncateAlike(x: Fact, a: State, b: State, depth: nat)
    requires Alike(x, a, b)
    ensures Alike(x, Truncate(a, depth).st, Truncate(b, depth).st)
    decreases |a.scopes|
  {
    if |a.scopes| > depth {
      PopAlike(x, a, b);
      TruncateAlike(x, PopScope(a).st, PopScope(b).st, depth);
    }
  }

  lemma MergeAlike(x: Fact, a: State, b: State, c: State, d: State)
    requires Alike(x, a, b) && Alike(x, c, d)
    ensures Alike(x, Merge(a, c), Merge(b, d))
  {
  }

  lemma {:induction false} MergeAllAlike(x: Fact, acc: Option<State>, acc': Option<State>, a: seq<State>, b: seq<State>)
    requires OptAlike(x, acc, acc') && AllAlike(x, a, b)
    ensures OptAlike(x, MergeAll(acc, a), MergeAll(acc', b))
    decreases |a|
  {
    if a != [] {
      var n := |a| - 1;
      MergeAllAlike(x, acc, acc', a[..n], b[..n]);
      var m, m' := MergeAll(acc, a[..n]), MergeAll(acc', b[..n]);
      if m.Some? { MergeAlike(x, m.value, m'.value, a[n], b[n]); }
      hide MergeAll, Merge;
    }
  }

  // ---- statements ----

  /// Two runs of a statement without a diagnostic transfer every fact alike.
  lemma {:induction false} StmtAlike(x: Fact, s: Stmt, a: State, b: State, lv: Tables, depth: Option<nat>)
    requires Alike(x, a, b) && CheckStmt(s, a, lv, depth).errs == {} && CheckStmt(s, b, lv, depth).errs == {}
    ensures FlowAlike(x, CheckStmt(s, a, lv, depth), CheckStmt(s, b, lv, depth))
    decreases s, MaxIterations + 2
  {
    hide Expire, CheckLive, Alike;
    if a.reachable {
      ExpireAlike(x, s.id, lv, a, b);
      ShapeOf(x, a, b);
      LiveAlike(x, s, Expire(s.id, lv, a), Expire(s.id, lv, b), lv, depth);
    }
    ShapeOf(x, a, b);
  }

  lemma ShapeOf(x: Fact, a: State, b: State)
    requires Alike(x, a, b)
    ensures a.scopes == b.scopes && a.reachable == b.reachable
  {
  }

  lemma LeaveAlike(x: Fact, a: State, b: State, depth: Option<nat>)
    requires Alike(x, a, b)
    ensures Alike(x, a.(reachable := false), b.(reachable := false))
    ensures AllAlike(x, LeavingStates(Leave(a, depth), depth), LeavingStates(Leave(b, depth), depth))
  {
    if depth.Some? { TruncateAlike(x, a, b, depth.value); }
    hide Truncate;
  }

  lemma {:induction false} LiveAlike(x: Fact, s: Stmt, a: State, b: State, lv: Tables, depth: Option<nat>)
    requires Alike(x, a, b) && a.reachable && CheckLive(s, a, lv, depth).errs == {} && CheckLive(s, b, lv, depth).errs == {}
    ensures FlowAlike(x, CheckLive(s, a, lv, depth), CheckLive(s, b, lv, depth))
    decreases s, MaxIterations + 1
  {
    hide Alike, Inspect, CheckAssign, IterateWhile, IterateFor, IterateLoop, CheckBlock, Truncate, EscapeErrors, DefineLocal, Merge, Leave, LeavingStates;
    ShapeOf(x, a, b);
    match s
    case Let(_, key, ty, init) => LetAlike(x, s, a, b, lv, depth);
    case Assign(_, compound, t, value, pos) => AssignAlike(x, compound, t, value, pos, a, b);
    case ExprStmt(_, e) => InspectAlike(x, e, Move, a, b);
    case Return(_, e, _, _) =>
      if e.Some? { InspectAlike(x, e.value, Move, a, b); }
      Unreached(x, InspectOpt(e, a).st, InspectOpt(e, b).st);
    case Break(_) => LeaveAlike(x, a, b, depth);
    case Continue(_) => LeaveAlike(x, a, b, depth);
    case Block(_, body) => BlockAlike(x, body, a, b, lv, depth);
    case If(_, cond, thn, els) =>
      InspectAlike(x, cond, Move, a, b);
      var c, d := Inspect(cond, Move, a).st, Inspect(cond, Move, b).st;
      BlockAlike(x, thn, c, d, lv, depth);
      BlockAlike(x, els, c, d, lv, depth);
      MergeAlike(x, CheckBlock(thn, c, lv, depth).st, CheckBlock(thn, d, lv, depth).st, CheckBlock(els, c, lv, depth).st, CheckBlock(els, d, lv, depth).st);
    case While(_, _, _, _) =>
      LoopAlike(x, s, a, b, lv);
      LeftAlike(x, Iterate(s, a, lv), Iterate(s, b, lv));
    case For(_, _, _, e1, e2, _, _) =>
      InspectAlike(x, e1, Move, a, b);
      var c, d := Inspect(e1, Move, a).st, Inspect(e1, Move, b).st;
      InspectAlike(x, e2, Move, c, d);
      InspectFrame(e1, Move, a);
      InspectFrame(e2, Move, c);
      var c', d' := Inspect(e2, Move, c).st, Inspect(e2, Move, d).st;
      LoopAlike(x, s, c', d', lv);
      LeftAlike(x, Iterate(s, c', lv), Iterate(s, d', lv));
    case Loop(_, _, _) =>
      LoopAlike(x, s, a, b, lv);
      Unreached(x, a, b);
  }

  function Left(it: Iterated): State { match it.breakExit case None => it.exit case Some(b) => Merge(it.exit, b) }

  lemma LeftAlike(x: Fact, i: Iterated, j: Iterated)
    requires Alike(x, i.exit, j.exit) && OptAlike(x, i.breakExit, j.breakExit)
    ensures Alike(x, Left(i), Left(j))
  {
    if i.breakExit.Some? { MergeAlike(x, i.exit, j.exit, i.breakExit.value, j.breakExit.value); }
  }

  lemma Unreached(x: Fact, a: State, b: State)
    requires Alike(x, a, b)
    ensures Alike(x, a.(reachable := false), b.(reachable := false))
  {
  }

  lemma LetAlike(x: Fact, s: Stmt, a: State, b: State, lv: Tables, depth: Option<nat>)
    requires s.Let? && Alike(x, a, b) && CheckLive(s, a, lv, depth).errs == {} && CheckLive(s, b, lv, depth).errs == {}
    ensures FlowAlike(x, CheckLive(s, a, lv, depth), CheckLive(s, b, lv, depth))
  {
    hide Alike, Inspect, DefineLocal;
    var c, d := InspectOpt(s.init, a), InspectOpt(s.init, b);
    if c.st.scopes != [] { DefineErrs(s.key, s.ty, s.init, c); }
    if d.st.scopes != [] { DefineErrs(s.key, s.ty, s.init, d); }
    if s.init.Some? { InspectAlike(x, s.init.value, Move, a, b); }
    ShapeOf(x, c.st, d.st);
    if c.st.scopes != [] {
      DefineAlike(x, s.key, s.ty, s.init, c, d);
    }
  }

  lemma DefineErrs(key: Var, ty: Type, init: Option<Expr>, c: Checked)
    requires c.st.scopes != []
    ensures c.errs <= DefineLocal(key, ty, init, c).errs
  {
  }

  lemma {:induction false} BlockAlike(x: Fact, body: seq<Stmt>, a: State, b: State, lv: Tables, depth: Option<nat>)
    requires Alike(x, a, b) && CheckBlock(body, a, lv, depth).errs == {} && CheckBlock(body, b, lv, depth).errs == {}
    ensures FlowAlike(x, CheckBlock(body, a, lv, depth), CheckBlock(body, b, lv, depth))
    decreases body, MaxIterations + 4
  {
    if a.reachable {
      assert Alike(x, PushScope(a), PushScope(b));
      hide Alike, CheckSeq, Truncate;
      SeqAlike(x, body, PushScope(a), PushScope(b), lv, depth);
      TruncateAlike(x, CheckSeq(body, PushScope(a), lv, depth).st, CheckSeq(body, PushScope(b), lv, depth).st, |a.scopes|);
    }
  }

  lemma {:induction false} SeqAlike(x: Fact, ss: seq<Stmt>, a: State, b: State, lv: Tables, depth: Option<nat>)
    requires Alike(x, a, b) && CheckSeq(ss, a, lv, depth).errs == {} && CheckSeq(ss, b, lv, depth).errs == {}
    ensures FlowAlike(x, CheckSeq(ss, a, lv, depth), CheckSeq(ss, b, lv, depth))
    decreases ss, MaxIterations + 3
  {
    hide Alike, CheckStmt;
    ShapeOf(x, a, b);
    if ss != [] && a.reachable {
      StmtAlike(x, ss[0], a, b, lv, depth);
      SeqAlike(x, ss[1..], CheckStmt(ss[0], a, lv, depth).st, CheckStmt(ss[0], b, lv, depth).st, lv, depth);
    }
  }

  // ---- loops ----

  /// The whole iteration of a loop.
  function Iterate(s: Stmt, entry: State, lv: Tables): Iterated
    requires IsLoop(s)
  {
    match s
    case While(_, _, _, _) => IterateWhile(s, entry, entry, entry, None, lv, MaxIterations)
    case For(_, _, _, _, _, _, _) => IterateFor(s, entry, entry, None, lv, MaxIterations)
    case Loop(_, _, _) => IterateLoop(s, entry, entry, None, lv, MaxIterations)
  }

  /// The state at the head after one pass from the entry.
  function Second(s: Stmt, entry: State, lv: Tables): State
    requires IsLoop(s)
  {
    NextHeader(entry, PassFlow(s, entry, entry, lv))
  }

  /// A pass and the test before it.
  function PassErrs(s: Stmt, entry: State, h: State, lv: Tables): set<Diag>
    requires IsLoop(s)
  {
    HeadChecked(s, h).errs + PassFlow(s, entry, h, lv).errs
  }

  lemma {:induction false} PassAlike(x: Fact, s: Stmt, entry: State, entry': State, a: State, b: State, lv: Tables)
    requires IsLoop(s) && Alike(x, a, b) && entry.scopes == entry'.scopes
    requires PassErrs(s, entry, a, lv) == {} && PassErrs(s, entry', b, lv) == {}
    ensures FlowAlike(x, PassFlow(s, entry, a, lv), PassFlow(s, entry', b, lv)) && Alike(x, HeadChecked(s, a).st, HeadChecked(s, b).st)
    decreases s, 1
  {
    var d := |entry.scopes|;
    if s.For? {
      var ia, ib := a.(scopes := a.scopes + [map[s.key := s.ty]]), b.(scopes := b.scopes + [map[s.key := s.ty]]);
      assert Alike(x, ia, ib);
      hide Alike, CheckBlock, Truncate;
      BlockAlike(x, s.body, ia, ib, lv, Some(d));
      TruncateAlike(x, CheckBlock(s.body, ia, lv, Some(d)).st, CheckBlock(s.body, ib, lv, Some(d)).st, d);
    } else {
      hide Alike, CheckBlock, Inspect;
      if s.While? { InspectAlike(x, s.cond, Move, a, b); }
      BlockAlike(x, s.body, HeadChecked(s, a).st, HeadChecked(s, b).st, lv, Some(d));
    }
  }

  lemma {:induction false} MergeAllHas(x: Fact, acc: Option<State>, states: seq<State>)
    requires acc.Some? ==> acc.value.reachable
    ensures var r := MergeAll(acc, states);
      && (r.Some? ==> r.value.reachable)
      && (acc.Some? ==> r.Some? && r.value.scopes == acc.value.scopes && (Has(acc.value, x) ==> Has(r.value, x)))
      && (forall i :: 0 <= i < |states| && states[i].reachable ==> r.Some? && (Has(states[i], x) ==> Has(r.value, x)))
    decreases |states|
  {
    if states != [] {
      var n := |states| - 1;
      MergeAllHas(x, acc, states[..n]);
      assert forall i :: 0 <= i < n ==> states[..n][i] == states[i];
    }
  }

  /// Merging what is already there changes nothing.
  lemma {:induction false} MergeAllAbsorbs(x: Fact, m: Option<State>, states: seq<State>)
    requires m.Some? ==> m.value.reachable
    requires forall i :: 0 <= i < |states| && states[i].reachable ==> m.Some? && (Has(states[i], x) ==> Has(m.value, x))
    ensures OptAlike(x, MergeAll(m, states), m) && OptAlike(x, m, MergeAll(m, states))
    ensures m.Some? ==> MergeAll(m, states).value.reachable
    decreases |states|
  {
    if states != [] {
      var n := |states| - 1;
      assert forall i :: 0 <= i < n ==> states[..n][i] == states[i];
      MergeAllAbsorbs(x, m, states[..n]);
    }
  }

  lemma MergeAllTwice(x: Fact, states: seq<State>)
    ensures var m := MergeAll(None, states); OptAlike(x, MergeAll(m, states), m) && OptAlike(x, m, MergeAll(m, states))
  {
    MergeAllHas(x, None, states);
    MergeAllAbsorbs(x, MergeAll(None, states), states);
  }

  lemma NextAlike(x: Fact, entry: State, entry': State, f: Flow, g: Flow)
    requires Alike(x, entry, entry') && FlowAlike(x, f, g)
    ensures Alike(x, NextHeader(entry, f), NextHeader(entry', g))
  {
    var a, b := [f.st] + f.conts, [g.st] + g.conts;
    forall i | 0 <= i < |a| ensures Alike(x, a[i], b[i]) {
      if i > 0 { assert a[i] == f.conts[i - 1] && b[i] == g.conts[i - 1]; }
    }
    hide MergeAll, Merge, Alike;
    MergeAllAlike(x, None, None, a, b);
    var m, m' := MergeAll(None, a), MergeAll(None, b);
    if m.Some? { MergeAlike(x, entry, entry', m.value, m'.value); }
  }

  lemma NextKeeps(x: Fact, entry: State, f: Flow)
    requires entry.reachable
    ensures var h := NextHeader(entry, f); h.reachable && h.scopes == entry.scopes && (Has(entry, x) ==> Has(h, x))
    ensures Equivalent(NextHeader(entry, f), entry) ==> NextHeader(entry, f) == entry
  {
    MergeAllHas(x, None, [f.st] + f.conts);
    hide MergeAll;
  }

  /// The second pass brings nothing new: the state at the head is the same.
  lemma {:induction false} SecondPass(s: Stmt, entry: State, lv: Tables)
    requires IsLoop(s) && entry.reachable && PassErrs(s, entry, entry, lv) == {} && PassErrs(s, entry, Second(s, entry, lv), lv) == {}
    ensures var h := Second(s, entry, lv); NextHeader(entry, PassFlow(s, entry, h, lv)) == h
    decreases s, 2
  {
    var h := Second(s, entry, lv);
    var f, g := PassFlow(s, entry, entry, lv), PassFlow(s, entry, h, lv);
    var h' := NextHeader(entry, g);
    forall x ensures Alike(x, h, h') && Alike(x, h', h) {
      NextKeeps(x, entry, f);
      NextKeeps(x, entry, g);
      hide NextHeader, PassFlow, HeadChecked;
      if !Has(entry, x) {
        PassAlike(x, s, entry, entry, entry, h, lv);
        NextAlike(x, entry, entry, f, g);
        if !Has(h, x) {
          PassAlike(x, s, entry, entry, h, entry, lv);
          NextAlike(x, entry, entry, g, f);
        }
      }
    }
    SameFacts(h, h');
  }

  /// The exits of both passes.
  function Exits(s: Stmt, entry: State, lv: Tables): Option<State>
    requires IsLoop(s)
  {
    MergeAll(MergeAll(None, PassFlow(s, entry, entry, lv).breaks), PassFlow(s, entry, Second(s, entry, lv), lv).breaks)
  }

  /// An iteration ends after the first pass, at the entry, or after the second, at
  /// the head that the first pass made.
  ghost predicate Ends(s: Stmt, entry: State, lv: Tables, it: Iterated)
    requires IsLoop(s)
  {
    var h := Second(s, entry, lv);
    && PassErrs(s, entry, entry, lv) == {} && PassErrs(s, entry, h, lv) == {}
    && (!s.Loop? ==> it.exit == HeadChecked(s, h).st)
    && it.breakExit == if h == entry then MergeAll(None, PassFlow(s, entry, entry, lv).breaks) else Exits(s, entry, lv)
  }

  lemma {:induction false} WhileForm(s: Stmt, entry: State, lv: Tables)
    requires s.While? && entry.reachable && Iterate(s, entry, lv).errs == {}
    ensures Ends(s, entry, lv, Iterate(s, entry, lv))
    decreases s, 3
  {
    hide CheckBlock, NextHeader, MergeAll, Inspect;
    var h := Second(s, entry, lv);
    var f := PassFlow(s, entry, entry, lv);
    NextKeeps(Moved(["x"]), entry, f);
    if !Equivalent(h, entry) {
      assert IterateWhile(s, entry, h, HeadChecked(s, entry).st, MergeAll(None, f.breaks), lv, MaxIterations - 1).errs == {};
      SecondPass(s, entry, lv);
    }
  }

  lemma {:induction false} ForForm(s: Stmt, entry: State, lv: Tables)
    requires s.For? && entry.reachable && Iterate(s, entry, lv).errs == {}
    ensures Ends(s, entry, lv, Iterate(s, entry, lv))
    decreases s, 3
  {
    hide CheckForBody, NextHeader, MergeAll;
    var h := Second(s, entry, lv);
    var f := PassFlow(s, entry, entry, lv);
    NextKeeps(Moved(["x"]), entry, f);
    if !Equivalent(h, entry) {
      assert IterateFor(s, entry, h, MergeAll(None, f.breaks), lv, MaxIterations - 1).errs == {};
      SecondPass(s, entry, lv);
    }
  }

  lemma {:induction false} LoopForm(s: Stmt, entry: State, lv: Tables)
    requires s.Loop? && entry.reachable && Iterate(s, entry, lv).errs == {}
    ensures Ends(s, entry, lv, Iterate(s, entry, lv))
    decreases s, 3
  {
    hide CheckBlock, MergeAll, Merge;
    var h := Second(s, entry, lv);
    var f := PassFlow(s, entry, entry, lv);
    NextKeeps(Moved(["x"]), entry, f);
    if !Equivalent(h, entry) {
      assert IterateLoop(s, entry, h, MergeAll(None, f.breaks), lv, MaxIterations - 1).errs == {};
      SecondPass(s, entry, lv);
    }
  }

  /// How an iteration without a diagnostic ends: at the head that the first pass
  /// makes, with the exits of two passes.
  lemma {:induction false} IterationForm(x: Fact, s: Stmt, entry: State, lv: Tables)
    requires IsLoop(s) && entry.reachable && Iterate(s, entry, lv).errs == {}
    ensures var it, h := Iterate(s, entry, lv), Second(s, entry, lv);
      && PassErrs(s, entry, entry, lv) == {} && PassErrs(s, entry, h, lv) == {}
      && (!s.Loop? ==> it.exit == HeadChecked(s, h).st)
      && OptAlike(x, it.breakExit, Exits(s, entry, lv)) && OptAlike(x, Exits(s, entry, lv), it.breakExit)
    decreases s, 4
  {
    hide Iterate, PassFlow, HeadChecked, NextHeader, MergeAll, PassErrs;
    if s.While? {
      WhileForm(s, entry, lv);
    } else if s.For? {
      ForForm(s, entry, lv);
    } else {
      LoopForm(s, entry, lv);
    }
    MergeAllTwice(x, PassFlow(s, entry, entry, lv).breaks);
  }

  lemma OptAlikeTransitive(x: Fact, a: Option<State>, b: Option<State>, c: Option<State>)
    requires OptAlike(x, a, b) && OptAlike(x, b, c)
    ensures OptAlike(x, a, c)
  {
  }

  /// A loop transfers every fact on its own, as what it repeats does.
  lemma {:induction false} LoopAlike(x: Fact, s: Stmt, a: State, b: State, lv: Tables)
    requires IsLoop(s) && Alike(x, a, b) && a.reachable && Iterate(s, a, lv).errs == {} && Iterate(s, b, lv).errs == {}
    ensures var (i, j) := (Iterate(s, a, lv), Iterate(s, b, lv));
      (!s.Loop? ==> Alike(x, i.exit, j.exit)) && OptAlike(x, i.breakExit, j.breakExit)
    decreases s, 5
  {
    hide Iterate, PassFlow, HeadChecked, NextHeader, MergeAll, PassErrs, Has;
    ShapeOf(x, a, b);
    IterationForm(x, s, a, lv);
    IterationForm(x, s, b, lv);
    var ha, hb := Second(s, a, lv), Second(s, b, lv);
    var f, g := PassFlow(s, a, a, lv), PassFlow(s, b, b, lv);
    PassAlike(x, s, a, b, a, b, lv);
    NextAlike(x, a, b, f, g);
    PassAlike(x, s, a, b, ha, hb, lv);
    NoneAlike(x);
    MergeAllAlike(x, None, None, f.breaks, g.breaks);
    MergeAllAlike(x, MergeAll(None, f.breaks), MergeAll(None, g.breaks), PassFlow(s, a, ha, lv).breaks, PassFlow(s, b, hb, lv).breaks);
    OptAlikeTransitive(x, Iterate(s, a, lv).breakExit, Exits(s, a, lv), Exits(s, b, lv));
    OptAlikeTransitive(x, Iterate(s, a, lv).breakExit, Exits(s, b, lv), Iterate(s, b, lv).breakExit);
  }

  lemma NoneAlike(x: Fact)
    ensures OptAlike(x, None, None)
  {
  }

  // ---- the bound on the passes is never what rejects ----

  /// Diagnostics of what the source does, not of the bound on the passes.
  predicate Real(errs: set<Diag>) { forall d :: d in errs ==> d.code != E0408 }

  predicate OnlyLimit(errs: set<Diag>) { forall d :: d in errs ==> d.code == E0408 }

  lemma AccessReal(p: Place, pos: Pos, access: Access, st: State, via: set<Holder>)
    ensures Real(AccessPlace(p, pos, access, st, via).errs)
  {
    hide Unavailable, HasMovedAncestor, Effective, Clashes, Exempt, Conflict;
  }

  lemma BeginReal(p: Place, holder: Holder, mut: bool, pos: Pos, st: State, via: set<Holder>)
    ensures Real(BeginBorrow(p, holder, mut, pos, st, via).errs)
  {
    hide AccessPlace;
    AccessReal(p, pos, if mut then BorrowMut else BorrowShared, st, via);
  }

  lemma {:induction false} InspectReal(e: Expr, access: Access, st: State)
    ensures Real(Inspect(e, access, st).errs)
    decreases e, 1
  {
    hide AccessPlace, BeginBorrow;
    match e
    case Literal =>
    case Use(pe) => AccessReal(pe.place, pe.pos, access, st, {});
    case Deref(pe) => AccessReal(pe.place, pe.pos, Read, st, {});
    case Lend(pe) => AccessReal(pe.place, pe.pos, access, st, {});
    case Unary(y) => InspectReal(y, access, st);
    case Binary(l, r) =>
      InspectReal(l, Move, st);
      InspectReal(r, Move, Inspect(l, Move, st).st);
    case Borrow(mut, pe, pos) => BeginReal(pe.place, Temporary, mut, pos, st, {});
    case Call(pos, args) =>
      ReserveReal(args, 0, pos, st);
      var reserved := ReserveArgs(args, 0, pos, st).st;
      InspectArgsReal(args, 0, pos, reserved);
      ActivateReal(args, 0, pos, ReleaseArgs(args, 0, pos, InspectArgs(args, 0, pos, reserved).st));
  }

  lemma {:induction false} ReserveReal(args: seq<Expr>, index: nat, pos: Pos, st: State)
    ensures Real(ReserveArgs(args, index, pos, st).errs)
    decreases args
  {
    hide AccessPlace;
    if args != [] {
      if IsMutBorrow(args[0]) { AccessReal(args[0].pe.place, pos, TwoPhaseReserve, st, {}); }
      ReserveReal(args[1..], index + 1, pos, if IsMutBorrow(args[0]) then Reserve(args[0].pe.place, TwoPhase(pos, index), pos, st).st else st);
    }
  }

  lemma {:induction false} InspectArgsReal(args: seq<Expr>, index: nat, pos: Pos, st: State)
    ensures Real(InspectArgs(args, index, pos, st).errs)
    decreases args, 0
  {
    hide InspectArg;
    if args != [] {
      InspectArgReal(args[0], index, pos, st);
      InspectArgsReal(args[1..], index + 1, pos, InspectArg(args[0], index, pos, st).st);
    }
  }

  lemma {:induction false} InspectArgReal(e: Expr, index: nat, pos: Pos, st: State)
    ensures Real(InspectArg(e, index, pos, st).errs)
    decreases e, 2
  {
    hide AccessPlace, BeginBorrow, Inspect;
    if IsMutBorrow(e) {
    } else if e.Lend? {
      AccessReal(e.pe.place, e.pe.pos, Read, st, {});
      BeginReal(e.pe.place, Guard(pos, index), true, e.pe.pos, AccessPlace(e.pe.place, e.pe.pos, Read, st, {}).st, {});
    } else {
      InspectReal(e, Move, st);
    }
  }

  lemma {:induction false} ActivateReal(args: seq<Expr>, index: nat, pos: Pos, st: State)
    ensures Real(ActivateArgs(args, index, pos, st).errs)
    decreases args
  {
    if args != [] {
      ActivateReal(args[1..], index + 1, pos, if IsMutBorrow(args[0]) then Activate(TwoPhase(pos, index), pos, st).st else st);
    }
  }

  lemma BindReal(dest: Place, e: Expr, st: State)
    requires e.Borrow?
    ensures Real(BindBorrow(dest, e, st).errs)
  {
    var p := e.pe.place;
    BeginReal(p, Stored(dest), e.mut, e.pos, st.(loans := set l | l in st.loans && !(l.holder == Temporary && Conflict(l.place, p))), {Stored(dest)});
    hide BeginBorrow, SetOrigins, Conflict;
  }

  lemma StoreReal(p: Place, pos: Pos, value: Expr, refTarget: bool, c: Checked)
    requires Real(c.errs)
    ensures Real(StoreInto(p, pos, value, refTarget, c).errs)
  {
    var w := AccessPlace(p, pos, Write, c.st, {});
    AccessReal(p, pos, Write, c.st, {});
    if refTarget && value.Borrow? { BindReal(p, value, SetOrigins(p, {}, MarkInitialized(p, w.st))); }
    hide AccessPlace, BindBorrow, SetOrigins, MarkInitialized;
  }

  lemma AssignReal(compound: bool, t: Target, value: Expr, pos: Pos, st: State)
    ensures Real(CheckAssign(compound, t, value, pos, st).errs)
  {
    hide Inspect, AccessPlace, StoreInto, ContainsReference, TypeOfPlace, Conflict, Unavailable, KillHoldersUnder, KillHolder;
    var p, at := t.pe.place, t.pe.pos;
    var refTarget := ContainsReference(TypeOfPlace(p, st.scopes));
    if t.Through? {
      AccessReal(p, at, Read, st, {});
      InspectReal(value, Move, (if compound then AccessPlace(p, at, Read, st, {}) else Checked(st, {})).st);
    } else if compound {
      var rid := CompoundTarget(pos);
      AccessReal(p, at, TwoPhaseReserve, st, {});
      var r := Reserve(p, rid, at, st);
      InspectReal(value, Move, r.st);
      var v := Inspect(value, Move, r.st);
      var a := Activate(rid, pos, v.st);
      StoreReal(p, at, value, refTarget, Checked(KillHoldersUnder(p, KillHolder(rid, a.st)), r.errs + v.errs + a.errs));
    } else {
      InspectReal(value, Move, KillHoldersUnder(p, st));
      StoreReal(p, at, value, refTarget, Inspect(value, Move, KillHoldersUnder(p, st)));
    }
  }

  lemma {:induction false} TruncateReal(st: State, depth: nat)
    ensures Real(Truncate(st, depth).errs)
    decreases |st.scopes|
  {
    if |st.scopes| > depth { TruncateReal(PopScope(st).st, depth); }
  }

  lemma LetReal(key: Var, ty: Type, init: Option<Expr>, st: State)
    ensures var c := InspectOpt(init, st); Real(c.errs) && (c.st.scopes != [] ==> Real(DefineLocal(key, ty, init, c).errs))
  {
    var c := InspectOpt(init, st);
    if init.Some? { InspectReal(init.value, Move, st); }
    hide Inspect, InspectOpt, BindBorrow, ContainsReference, SetOrigins, MarkInitialized;
    if c.st.scopes != [] && init.Some? && init.value.Borrow? {
      BindReal([key], init.value, SetOrigins([key], {}, MarkInitialized([key], c.st.(scopes := Declare(key, ty, c.st.scopes)))));
    }
  }

  /// Where only the bound on the passes could reject, nothing does.
  lemma {:induction false} StmtEnds(s: Stmt, st: State, lv: Tables, depth: Option<nat>)
    requires OnlyLimit(CheckStmt(s, st, lv, depth).errs)
    ensures CheckStmt(s, st, lv, depth).errs == {}
    decreases s, MaxIterations + 2
  {
    hide CheckLive, Survives;
    if st.reachable { LiveEnds(s, Expire(s.id, lv, st), lv, depth); }
  }

  lemma {:induction false} LiveEnds(s: Stmt, st: State, lv: Tables, depth: Option<nat>)
    requires st.reachable && OnlyLimit(CheckLive(s, st, lv, depth).errs)
    ensures CheckLive(s, st, lv, depth).errs == {}
    decreases s, MaxIterations + 1
  {
    hide Inspect, CheckAssign, IterateWhile, IterateFor, IterateLoop, CheckBlock, Truncate, EscapeErrors, DefineLocal, Merge;
    match s
    case Let(_, key, ty, init) => LetReal(key, ty, init, st);
    case Assign(_, compound, t, value, pos) => AssignReal(compound, t, value, pos, st);
    case ExprStmt(_, e) => InspectReal(e, Move, st);
    case Return(_, e, bears, pos) =>
      if e.Some? {
        InspectReal(e.value, Move, st);
        EscapesReal(e.value, bears, pos, st);
      }
    case Break(_) => if depth.Some? { TruncateReal(st, depth.value); }
    case Continue(_) => if depth.Some? { TruncateReal(st, depth.value); }
    case Block(_, body) => BlockEnds(body, st, lv, depth);
    case If(_, cond, thn, els) =>
      InspectReal(cond, Move, st);
      var c := Inspect(cond, Move, st).st;
      BlockEnds(thn, c, lv, depth);
      BlockEnds(els, c, lv, depth);
    case While(_, _, _, _) => IterationEnds(s, st, lv);
    case For(_, _, _, b, e, _, _) =>
      InspectReal(b, Move, st);
      InspectFrame(b, Move, st);
      var c := Inspect(b, Move, st).st;
      InspectReal(e, Move, c);
      InspectFrame(e, Move, c);
      IterationEnds(s, Inspect(e, Move, c).st, lv);
    case Loop(_, _, _) => IterationEnds(s, st, lv);
  }

  lemma EscapesReal(e: Expr, bears: bool, pos: Pos, st: State)
    ensures Real(EscapeErrors(e, bears, pos, st))
  {
  }

  lemma {:induction false} BlockEnds(body: seq<Stmt>, st: State, lv: Tables, depth: Option<nat>)
    requires OnlyLimit(CheckBlock(body, st, lv, depth).errs)
    ensures CheckBlock(body, st, lv, depth).errs == {}
    decreases body, MaxIterations + 4
  {
    hide CheckSeq, Truncate;
    if st.reachable {
      SeqEnds(body, PushScope(st), lv, depth);
      TruncateReal(CheckSeq(body, PushScope(st), lv, depth).st, |st.scopes|);
    }
  }

  lemma {:induction false} SeqEnds(ss: seq<Stmt>, st: State, lv: Tables, depth: Option<nat>)
    requires OnlyLimit(CheckSeq(ss, st, lv, depth).errs)
    ensures CheckSeq(ss, st, lv, depth).errs == {}
    decreases ss, MaxIterations + 3
  {
    hide CheckStmt;
    if ss != [] && st.reachable {
      StmtEnds(ss[0], st, lv, depth);
      SeqEnds(ss[1..], CheckStmt(ss[0], st, lv, depth).st, lv, depth);
    }
  }

  lemma {:induction false} PassEnds(s: Stmt, entry: State, h: State, lv: Tables)
    requires IsLoop(s) && OnlyLimit(PassErrs(s, entry, h, lv))
    ensures PassErrs(s, entry, h, lv) == {}
    decreases s, 1
  {
    hide CheckBlock, Inspect, Truncate;
    var d := Some(|entry.scopes|);
    if s.For? {
      var inner := h.(scopes := h.scopes + [map[s.key := s.ty]]);
      BlockEnds(s.body, inner, lv, d);
      TruncateReal(CheckBlock(s.body, inner, lv, d).st, |entry.scopes|);
    } else {
      if s.While? { InspectReal(s.cond, Move, h); }
      BlockEnds(s.body, HeadChecked(s, h).st, lv, d);
    }
  }

  /// The first two passes are free of diagnostics, and then the iteration is over.
  lemma {:induction false} IterationEnds(s: Stmt, entry: State, lv: Tables)
    requires IsLoop(s) && entry.reachable && OnlyLimit(Iterate(s, entry, lv).errs)
    ensures Iterate(s, entry, lv).errs == {}
    decreases s, 3
  {
    if s.While? {
      WhileEnds(s, entry, lv);
    } else if s.For? {
      ForEnds(s, entry, lv);
    } else {
      LoopEnds(s, entry, lv);
    }
  }

  lemma {:induction false} WhileEnds(s: Stmt, entry: State, lv: Tables)
    requires s.While? && entry.reachable && OnlyLimit(Iterate(s, entry, lv).errs)
    ensures Iterate(s, entry, lv).errs == {}
    decreases s, 2
  {
    hide CheckBlock, NextHeader, MergeAll, Inspect;
    var h := Second(s, entry, lv);
    var f := PassFlow(s, entry, entry, lv);
    PassEnds(s, entry, entry, lv);
    if !Equivalent(h, entry) {
      assert OnlyLimit(IterateWhile(s, entry, h, HeadChecked(s, entry).st, MergeAll(None, f.breaks), lv, MaxIterations - 1).errs);
      PassEnds(s, entry, h, lv);
      SecondPass(s, entry, lv);
    }
  }

  lemma {:induction false} ForEnds(s: Stmt, entry: State, lv: Tables)
    requires s.For? && entry.reachable && OnlyLimit(Iterate(s, entry, lv).errs)
    ensures Iterate(s, entry, lv).errs == {}
    decreases s, 2
  {
    hide CheckForBody, NextHeader, MergeAll;
    var h := Second(s, entry, lv);
    var f := PassFlow(s, entry, entry, lv);
    PassEnds(s, entry, entry, lv);
    if !Equivalent(h, entry) {
      assert OnlyLimit(IterateFor(s, entry, h, MergeAll(None, f.breaks), lv, MaxIterations - 1).errs);
      PassEnds(s, entry, h, lv);
      SecondPass(s, entry, lv);
    }
  }

  lemma {:induction false} LoopEnds(s: Stmt, entry: State, lv: Tables)
    requires s.Loop? && entry.reachable && OnlyLimit(Iterate(s, entry, lv).errs)
    ensures Iterate(s, entry, lv).errs == {}
    decreases s, 2
  {
    hide CheckBlock, MergeAll, Merge;
    var h := Second(s, entry, lv);
    var f := PassFlow(s, entry, entry, lv);
    PassEnds(s, entry, entry, lv);
    if !Equivalent(h, entry) {
      assert OnlyLimit(IterateLoop(s, entry, h, MergeAll(None, f.breaks), lv, MaxIterations - 1).errs);
      PassEnds(s, entry, h, lv);
      SecondPass(s, entry, lv);
    }
  }

  /// The analysis of every function converges: whatever the liveness tables, a
  /// function is never rejected for the bound on the passes alone.
  lemma LimitNeverRejects(f: Function, lv: Tables)
    requires CheckFunction(f, lv) != {}
    ensures exists d :: d in CheckFunction(f, lv) && d.code != E0408
  {
    if OnlyLimit(CheckFunction(f, lv)) {
      BlockEnds(f.body, EntryState(f), lv, None);
    }
  }
}
