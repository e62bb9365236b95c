/// Exactly when each operation of the checker is accepted, what it reports, and the
/// state it leaves, in any state, in terms of the moves and loans that there are.

module BorrowOperations {
  import opened Places
  import opened BorrowSyntax
  import opened BorrowState
  import opened BorrowCheck

  // ---- single accesses ----

  /// Something overlapping `p` was moved.
  ghost predicate Gone(p: Place, st: State) { exists q :: q in st.moved && !Disjoint(q, p) }

  /// A loan in force: mutable, and not only reserved.
  predicate InForce(l: Loan) { l.mut && l.kind != Reserved }

  /// The diagnostics of an access: it is refused for a move, else for a loan.
  ghost predicate Reports(errs: set<Diag>, pos: Pos, gone: bool, code: Code, blocked: bool) {
    errs == if gone then {Diag(E0400, pos)} else if blocked then {Diag(code, pos)} else {}
  }

  /// A read is accepted if and only if the place is there and no loan in force
  /// overlaps it. It changes nothing.
  lemma ReadsAccepted(p: Place, pos: Pos, st: State, via: set<Holder>)
    ensures var c := AccessPlace(p, pos, Read, st, via);
      c.st == st && Reports(c.errs, pos, Gone(p, st), E0406, exists l :: l in st.loans && !Disjoint(p, l.place) && InForce(l))
  {
    hide Disjoint;
  }

  /// A use of a Copy place is a read.
  lemma CopiesAccepted(p: Place, pos: Pos, st: State, via: set<Holder>)
    requires IsCopyType(TypeOfPlace(p, st.scopes))
    ensures AccessPlace(p, pos, Move, st, via) == AccessPlace(p, pos, Read, st, via)
  {
    hide Disjoint, TypeOfPlace, IsCopyType;
  }

  /// Any other use moves: no loan may overlap, and the place is gone.
  lemma MovesAccepted(p: Place, pos: Pos, st: State, via: set<Holder>)
    requires !IsCopyType(TypeOfPlace(p, st.scopes))
    ensures var c := AccessPlace(p, pos, Move, st, via);
      && Reports(c.errs, pos, Gone(p, st), E0403, exists l :: l in st.loans && !Disjoint(p, l.place))
      && c.st == if Gone(p, st) then st else st.(moved := st.moved + {p})
  {
    hide Disjoint, TypeOfPlace, IsCopyType;
  }

  /// A write needs every place around `p`, but not `p` itself, and no loan of it.
  lemma WritesAccepted(p: Place, pos: Pos, st: State, via: set<Holder>)
    ensures var c := AccessPlace(p, pos, Write, st, via);
      && c.st == st
      && Reports(c.errs, pos, exists q :: q in st.moved && IsStrictChild(q, p), E0403, exists l :: l in st.loans && !Disjoint(p, l.place))
  {
    hide Disjoint;
  }

  /// Shared borrows coexist with each other, with reservations, and with loans
  /// held by their own chain of holders; the loan is recorded in any case.
  lemma SharedBorrowsAccepted(p: Place, holder: Holder, pos: Pos, st: State, via: set<Holder>)
    ensures var c := BeginBorrow(p, holder, false, pos, st, via);
      && c.st == st.(loans := st.loans + {Loan(p, holder, false, SharedLoan, pos)})
      && Reports(c.errs, pos, Gone(p, st), E0401, exists l :: l in st.loans && !Disjoint(p, l.place) && InForce(l) && l.holder !in via)
  {
    hide Disjoint;
  }

  /// A mutable borrow excludes every loan but those of its own chain.
  lemma MutBorrowsAccepted(p: Place, holder: Holder, pos: Pos, st: State, via: set<Holder>)
    ensures var c := BeginBorrow(p, holder, true, pos, st, via);
      && c.st == st.(loans := st.loans + {Loan(p, holder, true, MutLoan, pos)})
      && Reports(c.errs, pos, Gone(p, st), E0402, exists l :: l in st.loans && !Disjoint(p, l.place) && l.holder !in via)
  {
    hide Disjoint;
  }

  /// A reservation coexists with shared loans and with other reservations.
  lemma ReservationsAccepted(p: Place, holder: Holder, pos: Pos, st: State)
    ensures var c := Reserve(p, holder, pos, st);
      && c.st == st.(loans := st.loans + {Loan(p, holder, true, Reserved, pos)})
      && Reports(c.errs, pos, Gone(p, st), E0402,
           exists l :: l in st.loans && !Disjoint(p, l.place) && (l.kind == MutLoan || l.kind == Activated))
  {
    hide Disjoint;
  }

  /// Activating is accepted if and only if no other loan overlaps what is
  /// activated; the holder's reservations become exclusive and nothing else changes.
  lemma ActivationsAccepted(holder: Holder, pos: Pos, st: State)
    ensures var c := Activate(holder, pos, st);
      && Reports(c.errs, pos, false, E0402,
           exists l, o :: l in st.loans && o in st.loans && l.holder == holder && l.kind == Reserved && o != l && !Disjoint(l.place, o.place))
      && c.st == st.(loans := c.st.loans)
      && (forall l :: l in st.loans && !(l.holder == holder && l.kind == Reserved) ==> l in c.st.loans)
      && (forall l :: l in st.loans && l.holder == holder && l.kind == Reserved ==> Loan(l.place, holder, l.mut, Activated, pos) in c.st.loans)
      && (forall l :: l in c.st.loans && l !in st.loans ==>
            exists r :: r in st.loans && r.holder == holder && r.kind == Reserved && l == Loan(r.place, holder, r.mut, Activated, pos))
      && (forall l :: l in c.st.loans ==> !(l.holder == holder && l.kind == Reserved))
  {
    hide Disjoint;
  }

  /// Writing through a reference needs the reference and no loan of it.
  lemma ThroughAccepted(p: Place, pos: Pos, st: State)
    ensures var c := WriteThrough(p, pos, st);
      c.st == st && Reports(c.errs, pos, Gone(p, st), E0403, exists l :: l in st.loans && !Disjoint(p, l.place))
  {
    hide Disjoint;
  }

  // ---- bindings and stores ----

  /// Of two places one lies in the other exactly when its path is a prefix.
  lemma WithinIsPrefix(p: Place, q: Place)
    ensures IsWithin(p, q) <==> p <= q
    ensures IsStrictChild(p, q) <==> p < q
  {
  }

  /// Giving a place a fresh value restores it and everything in it, and only that.
  lemma FreshValuesRestore(p: Place, st: State)
    ensures var r := MarkInitialized(p, st); r == st.(moved := r.moved) && forall q :: q in r.moved <==> q in st.moved && !(p <= q)
  {
    forall q: Place ensures IsWithin(p, q) <==> p <= q { WithinIsPrefix(p, q); }
    hide IsWithin;
  }

  /// What a place held before is forgotten with everything in it.
  lemma OldHoldersRelease(p: Place, st: State)
    ensures var r := KillHoldersUnder(p, st);
      r == st.(loans := r.loans) && forall l :: l in r.loans <==> l in st.loans && !(l.holder.Stored? && p <= l.holder.place)
  {
    forall q: Place ensures IsWithin(p, q) <==> p <= q { WithinIsPrefix(p, q); }
    hide IsWithin;
  }

  /// A place gets new origins, which replace those of everything in it.
  lemma OriginsReplaced(p: Place, origins: set<Origin>, st: State)
    ensures var r := SetOrigins(p, origins, st);
      && r == st.(origins := r.origins)
      && (forall q :: q in r.origins <==> (q in st.origins && !(p <= q)) || (q == p && origins != {}))
      && (forall q :: q in r.origins ==> r.origins[q] == if q == p then origins else st.origins[q])
  {
    forall q: Place ensures IsWithin(p, q) <==> p <= q { WithinIsPrefix(p, q); }
    hide IsWithin;
  }

  function Bound(key: Var, ty: Type, mut: bool, pe: PlaceExpr, pos: Pos, st: State): Checked
    requires st.scopes != []
  {
    DefineLocal(key, ty, Some(Borrow(mut, pe, pos)), InspectOpt(Some(Borrow(mut, pe, pos)), st))
  }

  /// `let key = borrow [mut] p` is accepted if and only if a borrow of that kind is.
  lemma BorrowBindingsAccepted(key: Var, ty: Type, mut: bool, pe: PlaceExpr, pos: Pos, st: State)
    requires ContainsReference(ty) && st.scopes != []
    ensures Bound(key, ty, mut, pe, pos, st).errs == {}
      <==> (!Gone(pe.place, st) && forall l :: l in st.loans && !Disjoint(pe.place, l.place) ==> !mut && !InForce(l))
  {
    NestedConflict(pe.place, pe.place);
    var c := InspectOpt(Some(Borrow(mut, pe, pos)), st).st;
    FreshValuesRestore([key], c.(scopes := Declare(key, ty, c.scopes)));
    hide Disjoint, IsWithin, ContainsReference, Declare;
  }

  /// The loan is then held by `key`, the temporary one is gone with others of the
  /// place, and `key` refers to the place and to nothing that it referred to before.
  lemma BorrowBindingsHold(key: Var, ty: Type, mut: bool, pe: PlaceExpr, pos: Pos, st: State)
    requires ContainsReference(ty) && st.scopes != [] && Bound(key, ty, mut, pe, pos, st).errs == {}
    ensures var p := pe.place;
      var b := Bound(key, ty, mut, pe, pos, st).st;
      var loan := Loan(p, Stored([key]), mut, if mut then MutLoan else SharedLoan, pos);
      && (forall l :: l in b.loans <==> l == loan || (l in st.loans && !(l.holder == Temporary && !Disjoint(l.place, p))))
      && [key] in b.origins && b.origins[[key]] == {Origin(p, mut, pos)} && forall q :: q in b.moved ==> !([key] <= q)
  {
    NestedConflict(pe.place, pe.place);
    var c := InspectOpt(Some(Borrow(mut, pe, pos)), st).st;
    FreshValuesRestore([key], c.(scopes := Declare(key, ty, c.scopes)));
    hide Disjoint, IsWithin, ContainsReference, Declare, Unavailable, Clashes, Exempt;
  }

  /// A plain store of a value without accesses: accepted if and only if nothing
  /// around the place is moved and no loan of it is left when those held in it are
  /// released; it restores what is in the place and forgets what that referred to.
  lemma PlainStoresAccepted(t: Target, pos: Pos, st: State)
    requires t.Direct?
    ensures var p := t.pe.place;
      var c := CheckAssign(false, t, Literal, pos, st);
      && (c.errs == {} <==>
            ((forall q :: q in st.moved ==> !(q < p)) && forall l :: l in st.loans && !Disjoint(p, l.place) ==> l.holder.Stored? && p <= l.holder.place))
      && (forall q :: q in c.st.moved <==> q in st.moved && !(p <= q))
      && (forall l :: l in c.st.loans <==> l in st.loans && !(l.holder.Stored? && p <= l.holder.place))
      && (forall q :: q in c.st.origins <==> q in st.origins && !(p <= q))
      && c.st.scopes == st.scopes && c.st.reachable == st.reachable
  {
    var p := t.pe.place;
    var killed := KillHoldersUnder(p, st);
    OldHoldersRelease(p, st);
    WritesAccepted(p, t.pe.pos, killed, {});
    FreshValuesRestore(p, killed);
    OriginsReplaced(p, {}, MarkInitialized(p, killed));
    forall q: Place ensures IsStrictChild(q, p) <==> q < p { WithinIsPrefix(q, p); }
    hide AccessPlace, KillHoldersUnder, MarkInitialized, SetOrigins, Disjoint, IsStrictChild, ContainsReference, TypeOfPlace;
  }

  // ---- joins and ends ----

  /// A join knows what one of the reachable sides knows, and no more.
  lemma JoinsAreExact(a: State, b: State)
    requires a.reachable || b.reachable
    ensures var m := Merge(a, b);
      && m.reachable && (a.reachable ==> m.scopes == a.scopes) && (!a.reachable ==> m == b) && (!b.reachable ==> m == a)
      && (forall p :: p in m.moved <==> (a.reachable && p in a.moved) || (b.reachable && p in b.moved))
      && (forall l :: l in m.loans <==> (a.reachable && l in a.loans) || (b.reachable && l in b.loans))
      && (forall q, o :: q in m.origins && o in m.origins[q] <==>
            (a.reachable && q in a.origins && o in a.origins[q]) || (b.reachable && q in b.origins && o in b.origins[q]))
  {
  }

  /// The end of a scope keeps what belongs to other names, and reports exactly the
  /// references that outlive what they refer to.
  lemma ScopeEndsAreExact(st: State)
    requires st.scopes != []
    ensures var locals := st.scopes[|st.scopes| - 1];
      var c := PopScope(st);
      && (forall p :: p in c.st.moved <==> p in st.moved && p[0] !in locals)
      && (forall l :: l in c.st.loans <==> l in st.loans && !(l.holder.Stored? && l.holder.place[0] in locals))
      && (forall q :: q in c.st.origins <==> q in st.origins && q[0] !in locals)
      && (forall q :: q in c.st.origins ==> c.st.origins[q] == st.origins[q])
      && (c.errs == {} <==> forall q, o :: q in st.origins && o in st.origins[q] && o.place[0] in locals ==> q[0] in locals)
      && c.st.reachable == st.reachable && c.st.scopes == st.scopes[..|st.scopes| - 1]
  {
    var locals := st.scopes[|st.scopes| - 1];
    forall q, o | q in st.origins && o in st.origins[q] && o.place[0] in locals && q[0] !in locals ensures PopScope(st).errs != {} {
      assert Diag(E0405, o.pos) in PopScope(st).errs;
    }
  }

  /// Temporary loans and guards end with their statement, whatever is live.
  lemma TemporariesEnd(s: Stmt, st: State, lv: Tables, depth: Option<nat>, ended: set<Loan>)
    requires st.reachable && forall l :: l in ended ==> l.holder == Temporary || l.holder.Guard?
    ensures CheckStmt(s, st.(loans := st.loans + ended), lv, depth) == CheckStmt(s, st.(loans := st.loans - ended), lv, depth)
  {
    hide CheckLive, LoanLiveAt;
    assert Expire(s.id, lv, st.(loans := st.loans + ended)).loans == Expire(s.id, lv, st.(loans := st.loans - ended)).loans;
    assert Expire(s.id, lv, st.(loans := st.loans + ended)) == Expire(s.id, lv, st.(loans := st.loans - ended));
  }

  // ---- types ----

  /// Components that lead from a type through fields of structs to another.
  ghost predicate LeadsTo(t: Type, path: seq<nat>, to: Type)
    decreases |path|
  {
    if path == [] then t == to else t.Struct? && path[0] < |t.fields| && LeadsTo(t.fields[path[0]].ty, path[1..], to)
  }

  ghost predicate HoldsReference(t: Type) { exists path, mut, pointee :: LeadsTo(t, path, RefTo(mut, pointee)) }

  /// A type contains references if and only if a path of fields leads to one.
  lemma {:induction false} ContainsReferenceMeaning(t: Type)
    ensures ContainsReference(t) <==> HoldsReference(t)
    decreases t
  {
    match t
    case RefTo(mut, pointee) => assert LeadsTo(t, [], RefTo(mut, pointee));
    case Struct(_, fields) =>
      FieldsMeaning(fields);
      if HoldsReference(t) {
        var path, mut, pointee :| LeadsTo(t, path, RefTo(mut, pointee));
        assert LeadsTo(fields[path[0]].ty, path[1..], RefTo(mut, pointee));
      }
      if exists k :: 0 <= k < |fields| && HoldsReference(fields[k].ty) {
        var k :| 0 <= k < |fields| && HoldsReference(fields[k].ty);
        var path, mut, pointee :| LeadsTo(fields[k].ty, path, RefTo(mut, pointee));
        assert ([k] + path)[1..] == path;
        assert LeadsTo(t, [k] + path, RefTo(mut, pointee));
      }
    case _ =>
      forall path, mut, pointee ensures !LeadsTo(t, path, RefTo(mut, pointee)) { }
  }

  lemma {:induction false} FieldsMeaning(fields: seq<Field>)
    ensures FieldsContainReference(fields) <==> exists k :: 0 <= k < |fields| && HoldsReference(fields[k].ty)
    decreases fields
  {
    hide HoldsReference;
    if fields != [] {
      ContainsReferenceMeaning(fields[0].ty);
      FieldsMeaning(fields[1..]);
      assert forall k :: 0 < k < |fields| ==> fields[k] == fields[1..][k - 1];
      assert forall k :: 0 <= k < |fields[1..]| ==> fields[1..][k] == fields[k + 1];
    }
  }

  /// After an accepted use, another use of the same place is accepted exactly when
  /// the place holds a scalar, a shared reference or a struct declared Copy.
  lemma UsedTwice(p: Place, pos: Pos, again: Pos, st: State)
    requires AccessPlace(p, pos, Move, st, {}).errs == {}
    ensures var t := TypeOfPlace(p, st.scopes);
      AccessPlace(p, again, Move, AccessPlace(p, pos, Move, st, {}).st, {}).errs == {} <==> t.Scalar? || (t.RefTo? && !t.mut) || (t.Struct? && t.copyable)
  {
    var after := AccessPlace(p, pos, Move, st, {}).st;
    hide AccessPlace, TypeOfPlace;
    if IsCopyType(TypeOfPlace(p, st.scopes)) {
      CopiesAccepted(p, pos, st, {});
      CopiesAccepted(p, again, st, {});
      ReadsAccepted(p, pos, st, {});
      ReadsAccepted(p, again, st, {});
    } else {
      MovesAccepted(p, pos, st, {});
      MovesAccepted(p, again, after, {});
      assert !Disjoint(p, p) by { NestedConflict(p, p); }
    }
  }

  /// Storage of the function itself: what it declares, but not what a reference in it
  /// leads to.
  predicate OwnStorage(p: Place, scopes: Scopes) {
    var t := OutermostVar(Root(p), scopes);
    t.Some? && (|p| == 1 || !t.value.RefTo?)
  }

  /// Returning a variable is refused if and only if a reference that it or something
  /// in it holds refers to the function's own storage; returning a borrow, if and only
  /// if the place is that.
  lemma ReturnsAccepted(x: PlaceExpr, e: Expr, pos: Pos, st: State)
    requires |x.place| == 1
    ensures EscapeErrors(Use(x), true, pos, st) == {}
      <==> forall q, o :: q in st.origins && Root(q) == Root(x.place) && o in st.origins[q] ==> !OwnStorage(o.place, st.scopes)
    ensures e.Borrow? ==> (EscapeErrors(e, true, pos, st) == {} <==> !OwnStorage(e.pe.place, st.scopes))
  {
    forall q: Place ensures IsWithin(x.place, q) <==> Root(q) == Root(x.place) {
      assert Root(q) == Root(x.place) ==> q[..1] == x.place;
    }
    assert forall q: Place :: !IsStrictChild(q, x.place);
    assert forall o :: o in OriginsOfPlace(x.place, st.origins) <==> exists q :: q in st.origins && IsWithin(x.place, q) && o in st.origins[q];
    if e.Borrow? {
      assert ReferenceOrigins(e, st) == {Origin(e.pe.place, e.mut, e.pos)};
      assert Origin(e.pe.place, e.mut, e.pos) in ReferenceOrigins(e, st);
    }
    hide OutermostVar, IsWithin;
  }

  /// Field `k` is the first of that name.
  predicate FirstNamed(fields: seq<Field>, name: string, k: int) {
    0 <= k < |fields| && fields[k].name == name && forall j :: 0 <= j < k ==> fields[j].name != name
  }

  /// A place has the innermost type of its name, then that of the named field or of
  /// the elements, looking through one reference at each step.
  lemma {:induction false} PlaceTypes(p: Place, component: string, scopes: Scopes)
    ensures var t := TypeOfPlace(p, scopes);
      var base := if t.RefTo? then t.pointee else t;
      var field := TypeOfPlace(p + [component], scopes);
      && (component == AnyIndex && base.SliceOf? ==> field == base.element)
      && (component != AnyIndex && base.Struct? ==> forall k :: FirstNamed(base.fields, component, k) ==> field == base.fields[k].ty)
      && (|p| == 1 ==> t == match LookupVar(p[0], scopes) case None => Unknown case Some(ty) => ty)
  {
    var t := TypeOfPlace(p, scopes);
    var base := if t.RefTo? then t.pointee else t;
    assert (p + [component])[1..] == p[1..] + [component];
    match LookupVar(Root(p), scopes)
    case None => UnknownFields(component);
    case Some(ty) => WalkEnd(ty, p[1..], component);
    if base.Struct? {
      forall k | FirstNamed(base.fields, component, k)
        ensures FieldType(base.fields, component) == base.fields[k].ty
      {
        FirstField(base.fields, component, k);
      }
    }
  }

  lemma UnknownFields(component: string)
    ensures Project(Unknown, component) == Unknown
  {
  }

  lemma {:induction false} WalkEnd(t: Type, path: seq<string>, component: string)
    ensures Walk(t, path + [component]) == Project(Walk(t, path), component)
    decreases |path|
  {
    hide Project;
    if path == [] {
      assert path + [component] == [component] && [component][1..] == [];
    } else {
      assert (path + [component])[1..] == path[1..] + [component];
      WalkEnd(Project(t, path[0]), path[1..], component);
    }
  }

  lemma {:induction false} FirstField(fields: seq<Field>, name: string, k: nat)
    requires FirstNamed(fields, name, k)
    ensures FieldType(fields, name) == fields[k].ty
    decreases k
  {
    if k > 0 { FirstField(fields[1..], name, k - 1); }
  }
}
