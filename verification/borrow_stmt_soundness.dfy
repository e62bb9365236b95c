/// Soundness of the straight-line statements and of scopes and joins.

module StmtSoundness {
  import opened Places
  import opened BorrowSyntax
  import opened BorrowState
  import opened BorrowCheck
  import opened Liveness
  import opened Paths
  import opened CallArguments
  import opened ExprSoundness

  // ---- the modelled fragment ----

  ghost predicate OptTame(cx: Context, e: Option<Expr>, scopes: Scopes) { e.Some? ==> Tame(cx, e.value, scopes) }

  /// `v` is given a fresh borrow that does not go through another reference
  /// the function has bound.
  predicate InBinding(cx: Context, v: Var, e: Expr) {
    e.Borrow? && v in cx.bound && Root(e.pe.place) !in cx.bound
  }

  /// A target that stores references is a whole binding and is only ever
  /// assigned a fresh borrow; such a type takes no compound assignment. No
  /// other target takes a reference, least of all through another reference.
  ghost predicate InAssign(cx: Context, compound: bool, t: Target, value: Expr, scopes: Scopes) {
    && AllQuiet(cx, t.pe.operands, scopes)
    && Tame(cx, value, scopes)
    && (t.Direct? && ContainsReference(TypeOfPlace(t.pe.place, scopes)) ==>
          !compound && |t.pe.place| == 1 && InBinding(cx, Root(t.pe.place), value))
    && (t.Direct? && BearsReference(value, scopes) ==> ContainsReference(TypeOfPlace(t.pe.place, scopes)))
    && (t.Through? ==> !StoresReference(t.pe.place, value, scopes))
  }

  /// The scopes after a statement that completes.
  function Next(s: Stmt, scopes: Scopes): Scopes {
    if s.Let? && scopes != [] then Declare(s.key, s.ty, scopes) else scopes
  }

  ghost predicate InFragment(cx: Context, s: Stmt, scopes: Scopes)
    decreases s, 1
  {
    match s
    case Let(_, key, ty, init) =>
      OptTame(cx, init, scopes) && (init.Some? && BearsReference(init.value, scopes) ==> ContainsReference(ty)) &&
      (ContainsReference(ty) && init.Some? ==> InBinding(cx, key, init.value))
    case Assign(_, compound, t, value, _) => InAssign(cx, compound, t, value, scopes)
    case ExprStmt(_, e) => Tame(cx, e, scopes)
    case Return(_, e, bears, _) => OptTame(cx, e, scopes) && (e.Some? ==> bears == BearsReference(e.value, scopes))
    case Break(_) => true
    case Continue(_) => true
    case Block(_, body) => SeqInFragment(cx, body, scopes + [map[]])
    case If(_, c, thn, els) =>
      Tame(cx, c, scopes) && SeqInFragment(cx, thn, scopes + [map[]]) && SeqInFragment(cx, els, scopes + [map[]])
    case While(_, c, body, _) => Tame(cx, c, scopes) && SeqInFragment(cx, body, scopes + [map[]])
    case For(_, key, ty, b, e, body, _) =>
      Tame(cx, b, scopes) && Tame(cx, e, scopes) && LookupVar(key, scopes).None? && SeqInFragment(cx, body, scopes + [map[key := ty]] + [map[]])
    case Loop(_, body, _) => SeqInFragment(cx, body, scopes + [map[]])
  }

  ghost predicate SeqInFragment(cx: Context, ss: seq<Stmt>, scopes: Scopes)
    decreases ss, 0
  {
    ss == [] || (InFragment(cx, ss[0], scopes) && SeqInFragment(cx, ss[1..], Next(ss[0], scopes)))
  }

  // ---- order on states ----

  /// `b` accounts for everything `a` accounts for.
  ghost predicate Covered(a: State, b: State) {
    && b.reachable
    && a.scopes == b.scopes
    && a.moved <= b.moved
    && a.loans <= b.loans
    && (forall q :: q in a.origins ==> q in b.origins && a.origins[q] <= b.origins[q])
  }

  lemma AccountsCovered(cx: Context, m: Monitor, a: State, b: State, scopes: Scopes, live: LiveSet)
    requires Accounts(cx, m, a, scopes, live) && Covered(a, b)
    ensures Accounts(cx, m, b, scopes, live)
  {
  }

  /// A smaller live set asks less.
  lemma AccountsNarrow(cx: Context, m: Monitor, st: State, scopes: Scopes, live: LiveSet, fewer: LiveSet)
    requires Accounts(cx, m, st, scopes, live) && fewer <= live
    ensures Accounts(cx, m, st, scopes, fewer)
  {
  }

  /// A binding out of scope holds no reference, so its liveness is immaterial.
  lemma AccountsWiden(cx: Context, m: Monitor, st: State, scopes: Scopes, live: LiveSet, more: LiveSet, v: Var)
    requires Accounts(cx, m, st, scopes, live) && LookupVar(v, scopes).None?
    requires Without(more, v) <= live
    ensures Accounts(cx, m, st, scopes, more)
  {
    forall b | b in m.active + m.broken && [b.holder] in more ensures [b.holder] in live {
      assert RefTyped(b, scopes);
      assert [b.holder] in Without(more, v);
    }
  }

  lemma MergeCovers(a: State, b: State)
    requires a.reachable && b.reachable ==> a.scopes == b.scopes
    ensures a.reachable ==> Covered(a, Merge(a, b))
    ensures b.reachable ==> Covered(b, Merge(a, b))
  {
  }

  lemma {:induction false} MergeAllCovers(acc: Option<State>, states: seq<State>, scopes: Scopes)
    requires acc.Some? ==> acc.value.reachable && acc.value.scopes == scopes
    requires forall x :: x in states && x.reachable ==> x.scopes == scopes
    ensures var r := MergeAll(acc, states);
            (r.Some? ==> r.value.reachable && r.value.scopes == scopes) &&
            (acc.Some? ==> r.Some? && Covered(acc.value, r.value)) &&
            (forall x :: x in states && x.reachable ==> r.Some? && Covered(x, r.value))
  {
    if states != [] {
      var init, last := states[..|states| - 1], states[|states| - 1];
      MergeAllCovers(acc, init, scopes);
      var r := MergeAll(acc, init);
      if r.Some? {
        MergeCovers(r.value, last);
      }
      forall x | x in states ensures x in init || x == last {
        var i :| 0 <= i < |states| && states[i] == x;
        if i < |states| - 1 { assert init[i] == x; }
      }
    }
  }

  // ---- scopes ----

  lemma {:induction false} LookupDeclared(h: Var, v: Var, ty: Type, scopes: Scopes)
    requires scopes != []
    ensures LookupVar(h, Declare(v, ty, scopes)) == if h == v then Some(ty) else LookupVar(h, scopes)
  {
    var d := Declare(v, ty, scopes);
    assert d[..|d| - 1] == scopes[..|scopes| - 1];
  }

  lemma {:induction false} LookupPushed(h: Var, scope: map<Var, Type>, scopes: Scopes)
    requires h !in scope
    ensures LookupVar(h, scopes + [scope]) == LookupVar(h, scopes)
  {
    assert (scopes + [scope])[..|scopes|] == scopes;
  }

  lemma PushStep(cx: Context, m: Monitor, st: State, scopes: Scopes, live: LiveSet, scope: map<Var, Type>)
    requires Accounts(cx, m, st, scopes, live)
    requires forall v :: v in scope ==> LookupVar(v, scopes).None?
    ensures Accounts(cx, m, st.(scopes := scopes + [scope]), scopes + [scope], live)
  {
    forall b | b in m.active + m.broken ensures RefTyped(b, scopes + [scope]) {
      assert RefTyped(b, scopes);
      LookupPushed(b.holder, scope, scopes);
    }
  }

  lemma PopStep(cx: Context, m: Monitor, st: State, scopes: Scopes, live: LiveSet)
    requires scopes != [] && Accounts(cx, m, st, scopes, live) && PopScope(st).errs == {}
    ensures var e := Dead(scopes[|scopes| - 1].Keys);
            Ok(m, e) && Accounts(cx, Step(m, e), PopScope(st).st, scopes[..|scopes| - 1], live)
  {
    var locals := scopes[|scopes| - 1].Keys;
    var e := Dead(locals);
    var errs := set q, o | q in st.origins && o in st.origins[q] && Root(q) !in locals && Root(o.place) in locals
                :: Diag(E0405, o.pos);
    assert errs == PopScope(st).errs;
    forall b | b in m.active + m.broken ensures !Dangles(e, b) {
      var q: Place, o := [b.holder], Origin(b.place, b.mut, b.pos);
      assert Recorded(b, st);
      assert Root(q) !in locals && Root(o.place) in locals ==> Diag(E0405, o.pos) in errs;
    }
    forall b | b in m.active + m.broken && b.holder !in locals
      ensures Recorded(b, PopScope(st).st) && RefTyped(b, scopes[..|scopes| - 1])
    {
      var q: Place := [b.holder];
      assert Recorded(b, st) && Root(q) == b.holder;
    }
  }

  lemma {:induction false} TruncateScopes(st: State, depth: nat)
    requires depth <= |st.scopes|
    ensures Truncate(st, depth).st.scopes == st.scopes[..depth]
    ensures Truncate(st, depth).st.reachable == st.reachable
    decreases |st.scopes|
  {
    if depth < |st.scopes| {
      TruncateScopes(PopScope(st).st, depth);
    }
  }

  // ---- definitions and assignments ----

  lemma InitializeStep(cx: Context, m: Monitor, st: State, scopes: Scopes, p: Place, live: LiveSet, after: LiveSet)
    requires Accounts(cx, m, st, scopes, live)
    requires forall h :: [h] in after && p != [h] ==> [h] in live
    ensures Ok(m, Initialize(p))
    ensures Accounts(cx, Step(m, Initialize(p)), SetOrigins(p, {}, MarkInitialized(p, st)), scopes, after)
    ensures forall b :: b in Step(m, Initialize(p)).active + Step(m, Initialize(p)).broken ==> p != [b.holder]
  {
    var e := Initialize(p);
    forall b | b in m.active + m.broken && p != [b.holder]
      ensures Recorded(b, SetOrigins(p, {}, MarkInitialized(p, st)))
    {
      assert Recorded(b, st);
      assert !IsWithin(p, [b.holder]);
    }
  }

  /// A place that starts at no bound reference is reached through none, so
  /// binding it adds one binding.
  lemma OneBinding(cx: Context, m: Monitor, v: Var, e: Expr)
    requires InBinding(cx, v, e) && Fenced(cx, m)
    ensures Step(m, Bind(v, e.pe.place, e.mut, e.pos)) ==
            m.(active := m.active + {Binding(v, e.pe.place, e.mut, e.pos)})
  {
    forall b | b in m.active ensures b.holder != Root(e.pe.place) {}
    assert Derived(m, v, e.pe.place, e.mut, e.pos) == {};
  }

  lemma BoundFenced(cx: Context, m: Monitor, v: Var, e: Expr)
    requires InBinding(cx, v, e) && Fenced(cx, m) && (e.mut ==> e.pe.place in cx.exclusive)
    requires forall q :: q in m.moved ==> Disjoint(q, e.pe.place)
    ensures Fenced(cx, m.(active := m.active + {Binding(v, e.pe.place, e.mut, e.pos)}))
  {
  }

  /// What binding `v` changes in the checker's state.
  lemma BoundState(v: Var, e: Expr, st: State)
    requires e.Borrow?
    ensures var c := BindBorrow([v], e, st).st; var o := Origin(e.pe.place, e.mut, e.pos);
            c.scopes == st.scopes && c.reachable == st.reachable && c.moved == st.moved &&
            LoanOf(Binding(v, e.pe.place, e.mut, e.pos)) in c.loans &&
            (forall l :: l in st.loans && l.holder.Stored? ==> l in c.loans) &&
            [v] in c.origins && o in c.origins[[v]] &&
            (forall h :: h != v && [h] in st.origins ==> [h] in c.origins && c.origins[[h]] == st.origins[[h]])
  {
    forall h | h != v ensures !IsWithin([v], [h]) {
      assert [h] != [v] by { assert [h][0] == h && [v][0] == v; }
    }
  }

  lemma BindStep(cx: Context, v: Var, e: Expr, m: Monitor, st: State, scopes: Scopes, live: LiveSet)
    requires InBinding(cx, v, e) && (e.mut ==> e.pe.place in cx.exclusive)
    requires Accounts(cx, m, st, scopes, live) && BindBorrow([v], e, st).errs == {}
    requires forall b :: b in m.active + m.broken ==> b.holder != v
    requires ContainsReference(TypeOfPlace([v], scopes))
    ensures var ev := Bind(v, e.pe.place, e.mut, e.pos);
            Ok(m, ev) && Accounts(cx, Step(m, ev), BindBorrow([v], e, st).st, scopes, live)
  {
    var ev := Bind(v, e.pe.place, e.mut, e.pos);
    var nb := Binding(v, e.pe.place, e.mut, e.pos);
    var bound := BindBorrow([v], e, st).st;
    BoundState(v, e, st);
    OneBinding(cx, m, v, e);
    forall q | q in m.moved ensures Disjoint(q, e.pe.place) {
      assert q in st.moved;
    }
    BoundFenced(cx, m, v, e);
    hide Step, Fenced, Derived, BindBorrow, TypeOfPlace;
    forall b | b in m.active && [b.holder] in live ensures LoanOf(b) in bound.loans {
      assert LoanOf(b) in st.loans;
    }
    forall b | b in m.active + m.broken ensures Recorded(b, bound) {
      assert Recorded(b, st);
    }
    assert Recorded(nb, bound);
  }

  /// A definition of the whole binding `v`, its value already inspected.
  lemma DefineStep(cx: Context, key: Var, ty: Type, init: Option<Expr>, m: Monitor, c: Checked, scopes: Scopes, live: LiveSet, after: LiveSet)
    requires scopes != [] && Accounts(cx, m, c.st, scopes, live) && DefineLocal(key, ty, init, c).errs == {}
    requires Without(after, key) <= live
    requires init.Some? && ContainsReference(ty) ==>
               InBinding(cx, key, init.value) && (init.value.mut ==> init.value.pe.place in cx.exclusive)
    ensures var ev := [Initialize([key])] + (if init.Some? then BindEvents(key, ContainsReference(ty), init.value) else []);
            Safe(m, ev) && Accounts(cx, Observe(m, ev), DefineLocal(key, ty, init, c).st, Declare(key, ty, scopes), after)
  {
    var inner := Declare(key, ty, scopes);
    forall h | [h] in after && [h] != [key] ensures [h] in live {
      assert [h] in Without(after, key);
    }
    InitializeStep(cx, m, c.st, scopes, [key], live, after);
    var m1 := Step(m, Initialize([key]));
    var cleared := SetOrigins([key], {}, MarkInitialized([key], c.st.(scopes := inner)));
    forall b | b in m1.active + m1.broken ensures RefTyped(b, inner) {
      assert RefTyped(b, scopes);
      LookupDeclared(b.holder, key, ty, scopes);
    }
    assert Accounts(cx, m1, cleared, inner, after);
    if init.Some? && ContainsReference(ty) && init.value.Borrow? {
      LookupDeclared(key, key, ty, scopes);
      BindStep(cx, key, init.value, m1, cleared, inner, after);
      TwoEvents(m, Initialize([key]), Bind(key, init.value.pe.place, init.value.mut, init.value.pos));
    } else {
      assert [Initialize([key])] + [] == [Initialize([key])];
      OneEvent(m, Initialize([key]));
    }
  }

  lemma LetStep(cx: Context, key: Var, ty: Type, init: Option<Expr>, m: Monitor, st: State, after: LiveSet)
    requires st.scopes != [] && OptTame(cx, init, st.scopes)
    requires init.Some? && ContainsReference(ty) ==> InBinding(cx, key, init.value)
    requires Accounts(cx, m, st, st.scopes, Without(after, key) + OptUses(Roots, init))
    requires DefineLocalAfter(key, ty, init, st).errs == {}
    ensures var ev := LetEvents(key, ty, init, st.scopes);
            Safe(m, ev) && Accounts(cx, Observe(m, ev), DefineLocalAfter(key, ty, init, st).st, Declare(key, ty, st.scopes), after)
  {
    var live := Without(after, key) + OptUses(Roots, init);
    var c := InspectOpt(init, st);
    var ev0 := OptEvents(init, st.scopes);
    if init.Some? {
      InspectStep(cx, init.value, Move, m, st, live);
      InspectFrame(init.value, Move, st);
    }
    var bind := if init.Some? then BindEvents(key, ContainsReference(ty), init.value) else [];
    DefineStep(cx, key, ty, init, Observe(m, ev0), c, st.scopes, live, after);
    ObserveConcat(m, ev0, [Initialize([key])] + bind);
    assert LetEvents(key, ty, init, st.scopes) == ev0 + ([Initialize([key])] + bind);
  }

  /// The initializer is inspected, then the binding defined.
  function DefineLocalAfter(key: Var, ty: Type, init: Option<Expr>, st: State): Checked {
    var c := InspectOpt(init, st);
    if c.st.scopes == [] then c else DefineLocal(key, ty, init, c)
  }

  lemma StoreStep(cx: Context, p: Place, pos: Pos, value: Expr, refTarget: bool, m: Monitor, c: Checked, live: LiveSet, after: LiveSet)
    requires Accounts(cx, m, c.st, c.st.scopes, live) && StoreInto(p, pos, value, refTarget, c).errs == {}
    requires Intact(m, Root(p)) || |p| == 1
    requires forall h :: [h] in after && p != [h] ==> [h] in live
    requires refTarget ==> |p| == 1 && ContainsReference(TypeOfPlace(p, c.st.scopes))
    requires refTarget ==> InBinding(cx, Root(p), value) && (value.mut ==> value.pe.place in cx.exclusive)
    ensures var ev := [Touch(p, Write), Initialize(p)] + BindEvents(Root(p), refTarget, value);
            Safe(m, ev) && Accounts(cx, Observe(m, ev), StoreInto(p, pos, value, refTarget, c).st, c.st.scopes, after)
  {
    var scopes := c.st.scopes;
    var w := AccessPlace(p, pos, Write, c.st, {});
    TouchStep(cx, m, c.st, live, p, pos, Write);
    var m1 := Step(m, Touch(p, Write));
    InitializeStep(cx, m1, w.st, scopes, p, live, after);
    var m2 := Step(m1, Initialize(p));
    TwoEvents(m, Touch(p, Write), Initialize(p));
    var head := [Touch(p, Write)] + [Initialize(p)];
    assert head == [Touch(p, Write), Initialize(p)];
    if refTarget && value.Borrow? {
      assert p == [Root(p)];
      BindStep(cx, Root(p), value, m2, SetOrigins(p, {}, MarkInitialized(p, w.st)), scopes, after);
      var b := Bind(Root(p), value.pe.place, value.mut, value.pos);
      ObserveConcat(m, head, [b]);
    } else {
      assert head + [] == head;
    }
  }

  /// Killing the loans held under an assignment's target is harmless unless
  /// the target itself holds references.
  lemma KillUnderStep(cx: Context, m: Monitor, st: State, scopes: Scopes, live: LiveSet, p: Place)
    requires Accounts(cx, m, st, scopes, live)
    requires !ContainsReference(TypeOfPlace(p, scopes)) || [Root(p)] !in live
    ensures Accounts(cx, m, KillHoldersUnder(p, st), scopes, live)
    ensures KillHoldersUnder(p, st).scopes == st.scopes
  {
    forall b | b in m.active && [b.holder] in live ensures !HeldUnder(p, LoanOf(b)) {
      assert RefTyped(b, scopes);
      assert IsWithin(p, [b.holder]) ==> p == [b.holder];
    }
  }

  lemma KillHolderStep(cx: Context, m: Monitor, st: State, scopes: Scopes, live: LiveSet, holder: Holder)
    requires Accounts(cx, m, st, scopes, live) && !holder.Stored?
    ensures Accounts(cx, m, KillHolder(holder, st), scopes, live)
    ensures KillHolder(holder, st).scopes == st.scopes
  {
    forall b | b in m.active && [b.holder] in live ensures LoanOf(b).holder != holder {}
  }

  lemma AssignThroughStep(cx: Context, compound: bool, t: Target, value: Expr, pos: Pos, m: Monitor, st: State, after: LiveSet)
    requires t.Through? && InAssign(cx, compound, t, value, st.scopes)
    requires Accounts(cx, m, st, st.scopes, AssignLive(Roots, compound, t, value, after))
    requires CheckAssign(compound, t, value, pos, st).errs == {}
    ensures var ev := AssignEvents(compound, t, value, st.scopes);
            Safe(m, ev) && Accounts(cx, Observe(m, ev), CheckAssign(compound, t, value, pos, st).st, st.scopes, after)
  {
    var live := AssignLive(Roots, compound, t, value, after);
    var p := t.pe.place;
    assert [Root(p)] in live;
    TouchedIntact(cx, m, st, live, p);
    ReadStays(p, t.pe.pos, st);
    hide AccessPlace, Inspect, Events, Safe, Observe, Accounts, TypeOfPlace, WriteThrough, BearsReference, AssignEvents;
    var operands := OperandEvents(t.pe.operands, st.scopes);
    OperandsAccounted(cx, t.pe.operands, m, st, st.scopes, live);
    var first := if compound then [Touch(p, Read)] else [];
    if compound {
      TouchStep(cx, m, st, live, p, t.pe.pos, Read);
      OneEvent(m, Touch(p, Read));
    }
    var r := if compound then AccessPlace(p, t.pe.pos, Read, st, {}) else Checked(st, {});
    var m1 := Observe(m, first);
    var rhs := Events(value, Move, st.scopes);
    InspectStep(cx, value, Move, m1, r.st, live);
    InspectFrame(value, Move, r.st);
    var v := Inspect(value, Move, r.st);
    var m2 := Observe(m1, rhs);
    WriteViaStep(cx, m2, v.st, live, p, t.pe.pos);
    OneEvent(m2, WriteVia(p));
    FourParts(m, operands, first, rhs, [WriteVia(p)]);
    ThroughEvents(compound, t, value, st.scopes);
    AccountsNarrow(cx, Step(m2, WriteVia(p)), v.st, st.scopes, live, after);
  }

  lemma FourParts(m: Monitor, a: seq<Event>, b: seq<Event>, c: seq<Event>, d: seq<Event>)
    ensures Observe(m, a + b + c + d) == Observe(Observe(Observe(Observe(m, a), b), c), d)
    ensures Safe(m, a) && Safe(Observe(m, a), b) && Safe(Observe(Observe(m, a), b), c) && Safe(Observe(Observe(Observe(m, a), b), c), d) ==>
              Safe(m, a + b + c + d)
  {
    ObserveConcat(m, a, b);
    ObserveConcat(m, a + b, c);
    ObserveConcat(m, a + b + c, d);
  }

  lemma ThroughEvents(compound: bool, t: Target, value: Expr, scopes: Scopes)
    requires t.Through? && !StoresReference(t.pe.place, value, scopes)
    ensures AssignEvents(compound, t, value, scopes) ==
            OperandEvents(t.pe.operands, scopes) + (if compound then [Touch(t.pe.place, Read)] else []) +
            Events(value, Move, scopes) + [WriteVia(t.pe.place)]
  {
    hide StoresReference, Events, OperandEvents;
    var p := t.pe.place;
    assert StoreEvents(p, value, scopes) == [];
    var head := OperandEvents(t.pe.operands, scopes) + (if compound then [Touch(p, Read)] else []) + Events(value, Move, scopes) + [WriteVia(p)];
    assert AssignEvents(compound, t, value, scopes) == head + [];
  }

  lemma TouchedIntact(cx: Context, m: Monitor, st: State, live: LiveSet, p: Place)
    requires Accounts(cx, m, st, st.scopes, live) && [Root(p)] in live
    ensures Intact(m, Root(p)) && Effective(p, Read, st.scopes) == Read
  {
  }

  lemma ReadStays(p: Place, pos: Pos, st: State)
    ensures AccessPlace(p, pos, Read, st, {}).st == st
  {
  }

  lemma WriteViaStep(cx: Context, m: Monitor, st: State, live: LiveSet, p: Place, pos: Pos)
    requires Accounts(cx, m, st, st.scopes, live) && [Root(p)] in live && WriteThrough(p, pos, st).errs == {}
    ensures Ok(m, WriteVia(p)) && Accounts(cx, Step(m, WriteVia(p)), st, st.scopes, live)
    ensures WriteThrough(p, pos, st).st == st
  {
    forall b | b in m.active && Hits(WriteVia(p), b) ensures [b.holder] !in live {
      assert Conflict(p, LoanOf(b).place);
    }
    forall q | q in m.moved ensures !UsesMoved(WriteVia(p), q) {
      assert q in st.moved;
    }
    AccessStep(cx, m, st, st, live, WriteVia(p));
    assert forall b, q :: b in m.active && q in m.moved ==> !UsesMovedThrough(WriteVia(p), b, q);
  }

  /// The value of a plain assignment, inspected with the target's own loans
  /// released. A fresh borrow is a single access; whether it touches a broken
  /// reference is settled by what was live before the release.
  lemma PlainValueStep(cx: Context, p: Place, value: Expr, refTarget: bool, m: Monitor, st: State, live: LiveSet, kept: LiveSet)
    requires Accounts(cx, m, st, st.scopes, live) && Tame(cx, value, st.scopes) && Uses(Roots, value) <= live
    requires refTarget == ContainsReference(TypeOfPlace(p, st.scopes)) && (refTarget ==> value.Borrow?)
    requires kept == if refTarget then live - {[Root(p)]} else live
    requires Inspect(value, Move, KillHoldersUnder(p, st)).errs == {}
    ensures var rhs := Events(value, Move, st.scopes); var v := Inspect(value, Move, KillHoldersUnder(p, st)).st;
            Safe(m, rhs) && v.scopes == st.scopes && Accounts(cx, Observe(m, rhs), v, st.scopes, kept)
  {
    var scopes := st.scopes;
    var rhs := Events(value, Move, scopes);
    var killed := KillHoldersUnder(p, st);
    AccountsNarrow(cx, m, st, scopes, live, kept);
    KillUnderStep(cx, m, st, scopes, kept, p);
    if refTarget {
      FreshBorrowStep(cx, value, m, st, killed, live, kept);
    } else {
      InspectStep(cx, value, Move, m, killed, kept);
    }
    InspectFrame(value, Move, killed);
  }

  /// The same for a single access: it touches no broken reference since what
  /// it uses was live in `st`.
  lemma FreshBorrowStep(cx: Context, value: Expr, m: Monitor, st: State, killed: State, live: LiveSet, kept: LiveSet)
    requires value.Borrow? && Accounts(cx, m, st, st.scopes, live) && Accounts(cx, m, killed, st.scopes, kept)
    requires Tame(cx, value, st.scopes) && Uses(Roots, value) <= live && Inspect(value, Move, killed).errs == {}
    ensures var rhs := Events(value, Move, st.scopes);
            Safe(m, rhs) && Accounts(cx, Observe(m, rhs), Inspect(value, Move, killed).st, st.scopes, kept)
  {
    var p, a := value.pe.place, if value.mut then BorrowMut else BorrowShared;
    assert [Root(p)] in PlaceUses(Roots, p);
    OperandsFirst(cx, value.pe.operands, Touch(p, a), m, st.scopes, live);
    TouchStep(cx, m, killed, kept, p, value.pos, a);
    LoansDropped(cx, Step(m, Touch(p, a)), AccessPlace(p, value.pos, a, killed, {}).st, Inspect(value, Move, killed).st, kept);
  }

  lemma AssignPlainStep(cx: Context, t: Target, value: Expr, pos: Pos, m: Monitor, st: State, after: LiveSet)
    requires t.Direct? && InAssign(cx, false, t, value, st.scopes)
    requires Accounts(cx, m, st, st.scopes, AssignLive(Roots, false, t, value, after))
    requires CheckAssign(false, t, value, pos, st).errs == {}
    ensures var ev := AssignEvents(false, t, value, st.scopes);
            Safe(m, ev) && Accounts(cx, Observe(m, ev), CheckAssign(false, t, value, pos, st).st, st.scopes, after)
  {
    hide AccessPlace, Inspect, Events, Safe, Observe, StoreInto, TypeOfPlace, KillHoldersUnder;
    var p, scopes := t.pe.place, st.scopes;
    var live := AssignLive(Roots, false, t, value, after);
    var refTarget := ContainsReference(TypeOfPlace(p, scopes));
    var kept := if refTarget then live - {[Root(p)]} else live;
    var rhs := Events(value, Move, scopes);
    PlainValueStep(cx, p, value, refTarget, m, st, live, kept);
    var v := Inspect(value, Move, KillHoldersUnder(p, st));
    var m1 := Observe(m, rhs);
    KeptCovers(cx, t, value, after, scopes);
    StoreStep(cx, p, t.pe.pos, value, refTarget, m1, v, kept, after);
    var tail := [Touch(p, Write), Initialize(p)] + BindEvents(Root(p), refTarget, value);
    var operands := OperandEvents(t.pe.operands, scopes);
    OperandsAccounted(cx, t.pe.operands, m, st, scopes, live);
    ObserveConcat(m, operands, rhs);
    ObserveConcat(m, operands + rhs, tail);
    assert AssignEvents(false, t, value, scopes) == operands + rhs + tail;
  }

  lemma KeptCovers(cx: Context, t: Target, value: Expr, after: LiveSet, scopes: Scopes)
    requires t.Direct? && InAssign(cx, false, t, value, scopes)
    ensures var p := t.pe.place; var live := AssignLive(Roots, false, t, value, after);
            var kept := if ContainsReference(TypeOfPlace(p, scopes)) then live - {[Root(p)]} else live;
            (forall h :: [h] in after && p != [h] ==> [h] in kept) && (1 < |p| ==> [Root(p)] in kept)
  {
    var p := t.pe.place;
    var live := AssignLive(Roots, false, t, value, after);
    forall h | [h] in after && p != [h] ensures [h] in live && (|p| == 1 ==> h != Root(p)) {
      if |p| == 1 {
        assert p == [Root(p)];
        assert [h] in Without(after, Root(p));
      }
    }
  }

  /// `x += e` up to its write: reserve, inspect the value, activate.
  lemma CompoundValueStep(cx: Context, p: Place, at: Pos, value: Expr, pos: Pos, m: Monitor, st: State, live: LiveSet)
    requires Accounts(cx, m, st, st.scopes, live) && Tame(cx, value, st.scopes) && Uses(Roots, value) <= live && [Root(p)] in live
    requires Reserve(p, CompoundTarget(pos), at, st).errs == {}
    requires Inspect(value, Move, Reserve(p, CompoundTarget(pos), at, st).st).errs == {}
    requires Activate(CompoundTarget(pos), pos, Inspect(value, Move, Reserve(p, CompoundTarget(pos), at, st).st).st).errs == {}
    ensures var ev := [Touch(p, TwoPhaseReserve)] + Events(value, Move, st.scopes) + [Touch(p, BorrowMut)];
            var a := Activate(CompoundTarget(pos), pos, Inspect(value, Move, Reserve(p, CompoundTarget(pos), at, st).st).st).st;
            Safe(m, ev) && a.scopes == st.scopes && Accounts(cx, Observe(m, ev), a, st.scopes, live)
  {
    var rid := CompoundTarget(pos);
    var r := Reserve(p, rid, at, st);
    TouchStep(cx, m, st, live, p, at, TwoPhaseReserve);
    var m1 := Step(m, Touch(p, TwoPhaseReserve));
    var rhs := Events(value, Move, st.scopes);
    InspectStep(cx, value, Move, m1, r.st, live);
    InspectFrame(value, Move, r.st);
    InspectKeeps(value, Move, r.st, Loan(p, rid, true, Reserved, at));
    var v := Inspect(value, Move, r.st);
    var m2 := Observe(m1, rhs);
    ActivateOne(cx, p, rid, at, pos, m2, v.st, live);
    OneEvent(m, Touch(p, TwoPhaseReserve));
    OneEvent(m2, Touch(p, BorrowMut));
    ObserveConcat(m, [Touch(p, TwoPhaseReserve)], rhs);
    ObserveConcat(m, [Touch(p, TwoPhaseReserve)] + rhs, [Touch(p, BorrowMut)]);
  }

  lemma AssignCompoundStep(cx: Context, t: Target, value: Expr, pos: Pos, m: Monitor, st: State, after: LiveSet)
    requires t.Direct? && InAssign(cx, true, t, value, st.scopes)
    requires Accounts(cx, m, st, st.scopes, AssignLive(Roots, true, t, value, after))
    requires CheckAssign(true, t, value, pos, st).errs == {}
    ensures var ev := AssignEvents(true, t, value, st.scopes);
            Safe(m, ev) && Accounts(cx, Observe(m, ev), CheckAssign(true, t, value, pos, st).st, st.scopes, after)
  {
    hide Accounts, AccessPlace, Inspect, Activate, Reserve, Events, Safe, Observe, StoreInto, TypeOfPlace, KillHoldersUnder;
    var p, scopes := t.pe.place, st.scopes;
    var live := AssignLive(Roots, true, t, value, after);
    assert [Root(p)] in live;
    CompoundValueStep(cx, p, t.pe.pos, value, pos, m, st, live);
    var rid := CompoundTarget(pos);
    var r := Reserve(p, rid, t.pe.pos, st);
    var v := Inspect(value, Move, r.st);
    var a := Activate(rid, pos, v.st);
    var head := [Touch(p, TwoPhaseReserve)] + Events(value, Move, scopes) + [Touch(p, BorrowMut)];
    var m1 := Observe(m, head);
    KillHolderStep(cx, m1, a.st, scopes, live, rid);
    KillUnderStep(cx, m1, KillHolder(rid, a.st), scopes, live, p);
    var released := Checked(KillHoldersUnder(p, KillHolder(rid, a.st)), r.errs + v.errs + a.errs);
    StoreStep(cx, p, t.pe.pos, value, false, m1, released, live, after);
    var tail := [Touch(p, Write), Initialize(p)] + BindEvents(Root(p), false, value);
    var operands := OperandEvents(t.pe.operands, scopes);
    OperandsAccounted(cx, t.pe.operands, m, st, scopes, live);
    ObserveConcat(m, operands, head);
    ObserveConcat(m, operands + head, tail);
    assert AssignEvents(true, t, value, scopes) == operands + head + tail;
  }

  // ---- expiry and return ----

  lemma ExpireStep(cx: Context, id: nat, lv: Tables, m: Monitor, st: State, live: LiveSet)
    requires Accounts(cx, m, st, st.scopes, live) && Before(lv.roots, id) == live
    ensures Accounts(cx, m, Expire(id, lv, st), st.scopes, live)
  {
    forall b | b in m.active && [b.holder] in live ensures LoanOf(b) in Expire(id, lv, st).loans {
      assert LoanOf(b) in st.loans;
    }
  }

  /// A value read from `p` carries what the variable of `p` refers to.
  lemma OriginsCarried(p: Place, b: Binding, st: State)
    requires b.holder == Root(p) && Recorded(b, st)
    ensures Origin(b.place, b.mut, b.pos) in OriginsOfPlace(p, st.origins)
  {
    var h: Place := [b.holder];
    assert p[..1] == h;
    assert IsWithin(p, h) || IsStrictChild(h, p);
    assert Origin(b.place, b.mut, b.pos) in RelatedOrigins(p, st.origins);
  }

  lemma EscapeOfStep(cx: Context, p: Place, m: Monitor, st: State, live: LiveSet)
    requires Accounts(cx, m, st, st.scopes, live)
    requires forall o :: o in OriginsOfPlace(p, st.origins) ==> !StackOwned(o.place, st.scopes)
    ensures var ev := [EscapeOf(Root(p), st.scopes)]; Safe(m, ev) && Accounts(cx, Observe(m, ev), st, st.scopes, live)
  {
    var e := EscapeOf(Root(p), st.scopes);
    OneEvent(m, e);
    forall b | b in m.active + m.broken && b.holder == Root(p) ensures !StackOwned(b.place, st.scopes) {
      assert Recorded(b, st);
      OriginsCarried(p, b, st);
    }
    var m' := Step(m, e);
    assert m'.active == m.active && m'.broken == m.broken && m'.moved == m.moved && m'.passed == m.passed;
  }

  lemma {:induction false} EscapeStep(cx: Context, e: Expr, bears: bool, pos: Pos, m: Monitor, st: State, live: LiveSet)
    requires Accounts(cx, m, st, st.scopes, live) && EscapeErrors(e, bears, pos, st) == {}
    requires bears == BearsReference(e, st.scopes)
    ensures var ev := EscapeEvents(e, st.scopes);
            Safe(m, ev) && Accounts(cx, Observe(m, ev), st, st.scopes, live)
  {
    if bears {
      match e
      case Borrow(mut, pe, at) =>
        var o := Origin(pe.place, mut, at);
        assert o in ReferenceOrigins(e, st);
        OneEvent(m, EscapeTo(pe.place, st.scopes));
        var m' := Step(m, EscapeTo(pe.place, st.scopes));
        assert m'.active == m.active && m'.broken == m.broken && m'.moved == m.moved && m'.passed == m.passed;
      case Use(pe) => EscapeOfStep(cx, pe.place, m, st, live);
      case Lend(pe) => EscapeOfStep(cx, pe.place, m, st, live);
      case Deref(pe) => EscapeOfStep(cx, pe.place, m, st, live);
      case Unary(x) => EscapeStep(cx, x, bears, pos, m, st, live);
      case _ => NothingHappens(m);
    }
  }

  /// Nothing is stored behind a reference when the function is left.
  lemma ExitStep(cx: Context, m: Monitor, st: State, scopes: Scopes, live: LiveSet)
    requires Accounts(cx, m, st, scopes, live)
    ensures Safe(m, [Exit(scopes)])
  {
    OneEvent(m, Exit(scopes));
  }
}
