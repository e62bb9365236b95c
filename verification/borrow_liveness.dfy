/// Backward liveness (src/borrow_liveness.cpp). The root pass and the place
/// pass share their equations and differ only in what an expression uses.

module Liveness {
  import opened Places
  import opened BorrowSyntax

  /// `Roots` tracks whole bindings as one-component places.
  datatype Mode = Roots | FullPlaces

  type LiveSet = set<Place>

  /// A place and all its parents.
  function Prefixes(p: Place): set<Place> { set k | 1 <= k <= |p| :: p[..k] }

  function PlaceUses(mode: Mode, p: Place): LiveSet {
    match mode
    case Roots => {[Root(p)]}
    case FullPlaces => Prefixes(p)
  }

  function Uses(mode: Mode, e: Expr): LiveSet
    decreases e, 1
  {
    match e
    case Literal => {}
    case Use(pe) => PlaceUses(mode, pe.place) + AllUses(mode, pe.operands)
    case Deref(pe) => PlaceUses(mode, pe.place) + AllUses(mode, pe.operands)
    case Borrow(_, pe, _) => PlaceUses(mode, pe.place) + AllUses(mode, pe.operands)
    case Lend(pe) => PlaceUses(mode, pe.place) + AllUses(mode, pe.operands)
    case Unary(x) => Uses(mode, x)
    case Binary(l, r) => Uses(mode, l) + Uses(mode, r)
    case Call(_, args) => AllUses(mode, args)
  }

  function AllUses(mode: Mode, es: seq<Expr>): LiveSet
    decreases es, 0
  {
    if es == [] then {} else Uses(mode, es[0]) + AllUses(mode, es[1..])
  }

  function OptUses(mode: Mode, e: Option<Expr>): LiveSet {
    match e case None => {} case Some(x) => Uses(mode, x)
  }

  function TargetUses(mode: Mode, t: Target): LiveSet {
    PlaceUses(mode, t.pe.place) + AllUses(mode, t.pe.operands)
  }

  /// Redefining a whole binding ends the life of it and of everything in it.
  function Without(live: LiveSet, v: Var): LiveSet { set p | p in live && Root(p) != v }

  /// Does an assignment redefine its target, a bare name, as a whole?
  predicate RedefinesWhole(compound: bool, t: Target) {
    !compound && t.Direct? && |t.pe.place| == 1 && t.pe.operands == []
  }

  function AssignLive(mode: Mode, compound: bool, t: Target, value: Expr, after: LiveSet): LiveSet {
    (if RedefinesWhole(compound, t) then Without(after, Root(t.pe.place))
     else after + TargetUses(mode, t)) + Uses(mode, value)
  }

  /// What is live before `s`, given what is live after it, at the target of
  /// `break` and at the target of `continue`.
  function Live(mode: Mode, s: Stmt, after: LiveSet, brk: LiveSet, cont: LiveSet): LiveSet
    decreases s, 1
  {
    match s
    case Let(_, key, _, init) => Without(after, key) + OptUses(mode, init)
    case Assign(_, compound, t, value, _) => AssignLive(mode, compound, t, value, after)
    case ExprStmt(_, e) => after + Uses(mode, e)
    case Return(_, e, _, _) => OptUses(mode, e)
    case Break(_) => brk
    case Continue(_) => cont
    case Block(_, body) => LiveBlock(mode, body, after, brk, cont)
    case If(_, c, thn, els) =>
      LiveBlock(mode, thn, after, brk, cont) + LiveBlock(mode, els, after, brk, cont) + Uses(mode, c)
    case While(_, _, _, _) => LoopStep(mode, s, after, after)
    case For(_, key, _, b, e, _, _) =>
      Without(LoopStep(mode, s, after, after), key) + Uses(mode, b) + Uses(mode, e)
    case Loop(_, _, _) => LoopStep(mode, s, after, after)
  }

  function LiveBlock(mode: Mode, ss: seq<Stmt>, after: LiveSet, brk: LiveSet, cont: LiveSet): LiveSet
    decreases ss, 2
  {
    if ss == [] then after
    else Live(mode, ss[0], LiveBlock(mode, ss[1..], after, brk, cont), brk, cont)
  }

  predicate IsLoop(s: Stmt) { s.While? || s.For? || s.Loop? }

  /// One evaluation of a loop from a candidate `header`.
  function LoopStep(mode: Mode, s: Stmt, after: LiveSet, header: LiveSet): LiveSet
    requires IsLoop(s)
    decreases s, 0
  {
    match s
    case While(_, c, body, _) => after + LiveBlock(mode, body, header, after, header) + Uses(mode, c)
    case For(_, key, _, _, _, body, _) => after + Without(LiveBlock(mode, body, header, after, header), key)
    case Loop(_, body, _) => LiveBlock(mode, body, header, after, header)
  }

  /// The header the iteration settles on.
  function Header(mode: Mode, s: Stmt, after: LiveSet): LiveSet
    requires IsLoop(s)
  {
    LoopStep(mode, s, after, after)
  }

  // ---- every place is transferred on its own, monotonically ----

  /// `x` is in the second set whenever it is in the first.
  ghost predicate Carries(x: Place, a: LiveSet, b: LiveSet) { x in a ==> x in b }

  lemma {:induction false} LiveMonotone(mode: Mode, s: Stmt, x: Place,
                     a: LiveSet, b: LiveSet, c: LiveSet, a': LiveSet, b': LiveSet, c': LiveSet)
    requires Carries(x, a, a') && Carries(x, b, b') && Carries(x, c, c')
    ensures Carries(x, Live(mode, s, a, b, c), Live(mode, s, a', b', c'))
    decreases s, 1
  {
    match s
    case Block(_, body) => LiveBlockMonotone(mode, body, x, a, b, c, a', b', c');
    case If(_, _, thn, els) =>
      LiveBlockMonotone(mode, thn, x, a, b, c, a', b', c');
      LiveBlockMonotone(mode, els, x, a, b, c, a', b', c');
    case While(_, _, _, _) => LoopStepMonotone(mode, s, x, a, a, a', a');
    case For(_, _, _, _, _, _, _) => LoopStepMonotone(mode, s, x, a, a, a', a');
    case Loop(_, _, _) => LoopStepMonotone(mode, s, x, a, a, a', a');
    case _ =>
  }

  lemma {:induction false} LiveBlockMonotone(mode: Mode, ss: seq<Stmt>, x: Place,
                     a: LiveSet, b: LiveSet, c: LiveSet, a': LiveSet, b': LiveSet, c': LiveSet)
    requires Carries(x, a, a') && Carries(x, b, b') && Carries(x, c, c')
    ensures Carries(x, LiveBlock(mode, ss, a, b, c), LiveBlock(mode, ss, a', b', c'))
    decreases ss, 2
  {
    if ss != [] {
      LiveBlockMonotone(mode, ss[1..], x, a, b, c, a', b', c');
      LiveMonotone(mode, ss[0], x, LiveBlock(mode, ss[1..], a, b, c), b, c,
                   LiveBlock(mode, ss[1..], a', b', c'), b', c');
    }
  }

  lemma {:induction false} LoopStepMonotone(mode: Mode, s: Stmt, x: Place,
                     after: LiveSet, h: LiveSet, after': LiveSet, h': LiveSet)
    requires IsLoop(s) && Carries(x, after, after') && Carries(x, h, h')
    ensures Carries(x, LoopStep(mode, s, after, h), LoopStep(mode, s, after', h'))
    decreases s, 0
  {
    LiveBlockMonotone(mode, s.body, x, h, after, h, h', after', h');
  }

  /// The second evaluation of a loop reproduces the first, so the bounded
  /// iteration always converges, at any nesting depth.
  lemma HeaderIsFixedPoint(mode: Mode, s: Stmt, after: LiveSet)
    requires IsLoop(s)
    ensures LoopStep(mode, s, after, Header(mode, s, after)) == Header(mode, s, after)
  {
    var h := Header(mode, s, after);
    forall x: Place ensures x in LoopStep(mode, s, after, h) <==> x in h {
      if x in h {
        LoopStepMonotone(mode, s, x, after, after, after, h);
      } else {
        LoopStepMonotone(mode, s, x, after, h, after, after);
      }
    }
  }

  // ---- the tables ----

  type LiveTable = map<nat, LiveSet>

  /// `table` records, for `s` and everything in it, what the equations give.
  ghost predicate Annotated(mode: Mode, s: Stmt, after: LiveSet, brk: LiveSet, cont: LiveSet, table: LiveTable)
    decreases s, 1
  {
    s.id in table && table[s.id] == Live(mode, s, after, brk, cont) && AnnotatedInner(mode, s, after, brk, cont, table)
  }

  /// The records of everything inside `s`.
  ghost predicate AnnotatedInner(mode: Mode, s: Stmt, after: LiveSet, brk: LiveSet, cont: LiveSet, table: LiveTable)
    decreases s, 0
  {
    match s
    case Block(_, body) => AnnotatedBlock(mode, body, after, brk, cont, table)
    case If(_, _, thn, els) =>
      AnnotatedBlock(mode, thn, after, brk, cont, table) && AnnotatedBlock(mode, els, after, brk, cont, table)
    case While(_, _, body, _) =>
      var h := Header(mode, s, after); AnnotatedBlock(mode, body, h, after, h, table)
    case For(_, _, _, _, _, body, _) =>
      var h := Header(mode, s, after); AnnotatedBlock(mode, body, h, after, h, table)
    case Loop(_, body, _) =>
      var h := Header(mode, s, after); AnnotatedBlock(mode, body, h, after, h, table)
    case _ => true
  }

  ghost predicate AnnotatedBlock(mode: Mode, ss: seq<Stmt>, after: LiveSet, brk: LiveSet, cont: LiveSet, table: LiveTable)
    decreases ss, 2
  {
    ss == [] ||
    (Annotated(mode, ss[0], LiveBlock(mode, ss[1..], after, brk, cont), brk, cont, table) &&
     AnnotatedBlock(mode, ss[1..], after, brk, cont, table))
  }

  /// Two tables agree on the addresses in `ids`.
  ghost predicate AgreeOn(ids: set<nat>, t: LiveTable, t': LiveTable) {
    forall i :: i in ids && i in t ==> i in t' && t'[i] == t[i]
  }

  lemma {:induction false} AnnotatedFrame(mode: Mode, s: Stmt, a: LiveSet, b: LiveSet, c: LiveSet, t: LiveTable, t': LiveTable)
    requires Annotated(mode, s, a, b, c, t) && AgreeOn(Ids(s), t, t')
    ensures Annotated(mode, s, a, b, c, t')
    decreases s, 1
  {
    assert InnerIds(s) <= Ids(s);
    InnerFrame(mode, s, a, b, c, t, t');
  }

  lemma {:induction false} InnerFrame(mode: Mode, s: Stmt, a: LiveSet, b: LiveSet, c: LiveSet, t: LiveTable, t': LiveTable)
    requires AnnotatedInner(mode, s, a, b, c, t) && AgreeOn(InnerIds(s), t, t')
    ensures AnnotatedInner(mode, s, a, b, c, t')
    decreases s, 0
  {
    match s
    case Block(_, body) => AnnotatedBlockFrame(mode, body, a, b, c, t, t');
    case If(_, _, thn, els) =>
      AnnotatedBlockFrame(mode, thn, a, b, c, t, t');
      AnnotatedBlockFrame(mode, els, a, b, c, t, t');
    case While(_, _, body, _) =>
      var h := Header(mode, s, a);
      AnnotatedBlockFrame(mode, body, h, a, h, t, t');
    case For(_, _, _, _, _, body, _) =>
      var h := Header(mode, s, a);
      AnnotatedBlockFrame(mode, body, h, a, h, t, t');
    case Loop(_, body, _) =>
      var h := Header(mode, s, a);
      AnnotatedBlockFrame(mode, body, h, a, h, t, t');
    case _ =>
  }

  lemma {:induction false} AnnotatedBlockFrame(mode: Mode, ss: seq<Stmt>, a: LiveSet, b: LiveSet, c: LiveSet, t: LiveTable, t': LiveTable)
    requires AnnotatedBlock(mode, ss, a, b, c, t) && AgreeOn(BlockIds(ss), t, t')
    ensures AnnotatedBlock(mode, ss, a, b, c, t')
    decreases ss, 2
  {
    if ss != [] {
      AnnotatedFrame(mode, ss[0], LiveBlock(mode, ss[1..], a, b, c), b, c, t, t');
      AnnotatedBlockFrame(mode, ss[1..], a, b, c, t, t');
    }
  }
}
