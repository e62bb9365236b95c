/// The passes do what they are for: the edges they follow are those that runs can
/// take, and no load, operation or value is left that they could have removed
/// (src/mir_optimizer.cpp).

module PassesComplete {
  import opened Mir
  import R = ReachableBlocks
  import F = ForwardLoads
  import C = ConstantFold
  import CM = ConstantMeaning
  import D = DeadValues
  import IL = IntegerLiteral
  import FR = ConstantFoldRuns

  // ---- reachable blocks ----

  /// With `c` at the last instruction of block `i`, a run goes on in block `j`.
  predicate Leads(blocks: seq<Block>, i: nat, c: Config, j: nat)
    requires i < |blocks|
  {
    match R.Tail(blocks[i])
    case None => j == i + 1
    case Some(tail) =>
      if !IsTerminator(tail.op) then j == i + 1
      else Terminate(tail, c).Goes? && FindLabel(blocks, Terminate(tail, c).target) == j
  }

  /// The edges that are followed are exactly those that some run takes: a branch
  /// counts both ways, a return not at all.
  lemma EdgesAreExact(blocks: seq<Block>, i: nat, j: nat)
    requires i < |blocks| && (R.Tail(blocks[i]).Some? ==> F.Targeted(R.Tail(blocks[i]).value) && forall a :: a in R.Tail(blocks[i]).value.args ==> !a.Slot?)
    ensures j in R.Successors(blocks, i) <==> j < |blocks| && exists c :: Leads(blocks, i, c, j)
  {
    var none := Config(map[], Mem(map[], 0), []);
    var tail := R.Tail(blocks[i]);
    if tail.None? || !IsTerminator(tail.value.op) || tail.value.op == Jump {
      assert j in R.Successors(blocks, i) && j < |blocks| ==> Leads(blocks, i, none, j);
    } else if tail.value.op == CondJump {
      var a := tail.value.args[0];
      var yes, no := none.(regs := map[a := Num(1)]), none.(regs := map[a := Num(0)]);
      assert Operand(a, yes.regs) == Some(Num(1)) && Operand(a, no.regs) == Some(Num(0));
      assert Leads(blocks, i, yes, FindLabel(blocks, tail.value.args[1].target));
      assert Leads(blocks, i, no, FindLabel(blocks, tail.value.args[2].target));
    }
  }

  // ---- forwarded loads ----

  /// An instruction after which the value of slot `s` need not be the one stored.
  predicate MayChange(i: Instr, s: Name) {
    || i.op in {Call, InlineAsm, AtomicRmw, Fence, CompilerFence}
    || ((i.op == Load || i.op == Store) && i.flag)
    || (i.op == AddressOf && i.args != [] && i.args[0] == s)
    || (i.op == Store && |i.args| >= 2 && !i.args[1].Slot?)
  }

  predicate PlainStore(i: Instr, s: Name) { i.op == Store && !i.flag && |i.args| >= 2 && i.args[1] == s && s.Slot? }

  predicate PlainLoad(i: Instr, s: Name) { i.op == Load && !i.flag && i.args != [] && i.args[0] == s }

  lemma ForwardIs(instrs: seq<Instr>, t: F.Tables)
    requires instrs != []
    ensures var i := F.Rewrite(instrs[0], t);
      F.Forward(instrs, t) == (if F.Drops(i, t) then F.Forward(instrs[1..], F.After(i, t)) else [i] + F.Forward(instrs[1..], F.After(i, t)))
  {
    hide F.Rewrite, F.Drops, F.After;
  }

  lemma ForwardNothing(t: F.Tables)
    ensures F.Forward([], t) == []
  {
  }

  lemma StaysKnown(i: Instr, t: F.Tables, s: Name)
    requires s in t.slots && !MayChange(i, s)
    ensures s in F.After(i, t).slots
  {
    hide F.Resolve;
  }

  /// While the value of a slot is known, no load of it is kept.
  lemma {:induction false} KnownIsForwarded(instrs: seq<Instr>, t: F.Tables, s: Name, k: nat)
    requires s in t.slots && k < |F.Forward(instrs, t)| && PlainLoad(F.Forward(instrs, t)[k], s)
    ensures exists m :: 0 <= m < k && MayChange(F.Forward(instrs, t)[m], s)
    decreases instrs
  {
    if instrs == [] { ForwardNothing(t); }
    ForwardIs(instrs, t);
    hide F.Rewrite, F.After, F.Forward, MayChange;
    var i := F.Rewrite(instrs[0], t);
    var out, rest := F.Forward(instrs, t), F.Forward(instrs[1..], F.After(i, t));
    if F.Drops(i, t) {
      DropKeeps(i, t);
      KnownIsForwarded(instrs[1..], F.After(i, t), s, k);
    } else {
      if MayChange(i, s) {
        assert MayChange(out[0], s);
      } else {
        StaysKnown(i, t, s);
        KnownIsForwarded(instrs[1..], F.After(i, t), s, k - 1);
        var m :| 0 <= m < k - 1 && MayChange(rest[m], s);
        assert MayChange(out[m + 1], s);
      }
    }
  }

  lemma DropKeeps(i: Instr, t: F.Tables)
    requires F.Drops(i, t)
    ensures F.After(i, t).slots == t.slots
  {
  }

  lemma StoreKnown(i: Instr, t: F.Tables, s: Name)
    requires PlainStore(i, s)
    ensures s in F.After(i, t).slots
  {
  }

  /// In forwarded code no plain load follows a plain store to the same slot in the
  /// same block, unless something between them may change what the slot holds.
  lemma {:induction false} NothingLeftToForward(instrs: seq<Instr>, t: F.Tables, s: Name, j: nat, k: nat)
    requires j < k < |F.Forward(instrs, t)| && PlainStore(F.Forward(instrs, t)[j], s) && PlainLoad(F.Forward(instrs, t)[k], s)
    ensures exists m :: j < m < k && MayChange(F.Forward(instrs, t)[m], s)
    decreases instrs
  {
    hide *;
    if instrs == [] { ForwardNothing(t); }
    ForwardIs(instrs, t);
    var i := F.Rewrite(instrs[0], t);
    var rest := F.Forward(instrs[1..], F.After(i, t));
    if F.Drops(i, t) {
      NothingLeftToForward(instrs[1..], F.After(i, t), s, j, k);
    } else if j == 0 {
      StoreKnown(i, t, s);
      KnownIsForwarded(instrs[1..], F.After(i, t), s, k - 1);
      var m :| 0 <= m < k - 1 && MayChange(rest[m], s);
      assert MayChange(([i] + rest)[m + 1], s);
    } else {
      NothingLeftToForward(instrs[1..], F.After(i, t), s, j - 1, k - 1);
      var m :| j - 1 < m < k - 1 && MayChange(rest[m], s);
      assert MayChange(([i] + rest)[m + 1], s);
    }
  }

  // ---- folded constants ----

  lemma {:induction false} NoLeadingZero(n: nat)
    requires n > 0
    ensures IL.Decimal(n)[0] != '0'
    decreases n
  {
    if n >= 10 { NoLeadingZero(n / 10); }
  }

  /// The folder reads back the numerals it writes.
  lemma NumeralParses(v: int)
    requires C.Signed(v)
    ensures C.Parse(IL.Numeral(v)) == Some(v)
  {
    var n: nat := if v < 0 then -v else v;
    var body := IL.Decimal(n);
    IL.DecimalReads(n);
    if n == 0 {
      FR.BoolText();
      assert body == "0";
    } else {
      NoLeadingZero(n);
      assert body[0] in body;
      hide IL.Decimal;
      FR.SameDigits(body, 10, 0);
      FR.SaturateIs(v);
    }
  }

  /// The constants known after the first `k` instructions.
  function KnownAt(instrs: seq<Instr>, known: C.Constants, k: nat): C.Constants
    requires k <= |instrs|
  {
    if k == 0 then known else KnownAt(instrs[1..], C.FoldInstr(instrs[0], known).1, k - 1)
  }

  lemma {:induction false} FoldedAt(instrs: seq<Instr>, known: C.Constants, k: nat)
    requires k < |instrs|
    ensures |C.Fold(instrs, known)| == |instrs| && C.Fold(instrs, known)[k] == C.FoldInstr(instrs[k], KnownAt(instrs, known, k)).0
    ensures KnownAt(instrs, known, k + 1) == C.FoldInstr(instrs[k], KnownAt(instrs, known, k)).1
    decreases instrs
  {
    hide C.FoldInstr;
    var known' := C.FoldInstr(instrs[0], known).1;
    if k > 0 {
      FoldedAt(instrs[1..], known', k - 1);
    } else {
      assert KnownAt(instrs[1..], known', 0) == known';
      if |instrs| > 1 { FoldedAt(instrs[1..], known', 0); }
    }
  }

  /// A constant that the folder reads.
  ghost predicate Constant(i: Instr, r: Name, v: int) {
    (i.op == ConstInt || i.op == ConstBool || i.op == ConstChar) && i.result == Some(r) && C.Parse(i.text) == Some(v)
  }

  /// A constant in the output is known from there on.
  lemma Noted(i: Instr, known: C.Constants, r: Name, v: int)
    requires Constant(C.FoldInstr(i, known).0, r, v)
    ensures r in C.FoldInstr(i, known).1 && C.FoldInstr(i, known).1[r] == v
  {
    hide C.Parse, IL.Numeral, C.FoldBinary, C.FoldCompare, C.Complement, C.UnsignedTy;
    var j := C.FoldInstr(i, known).0;
    if j != i {
      var w := C.FoldInstr(i, known).1[i.result.value];
      if i.op == Compare { FR.BoolText(); } else { NumeralParses(w); }
    }
  }

  lemma {:induction false} StaysNoted(instrs: seq<Instr>, known: C.Constants, j: nat, k: nat, r: Name, v: int)
    requires j < k <= |instrs| == |C.Fold(instrs, known)| && Constant(C.Fold(instrs, known)[j], r, v)
    requires forall a, b :: 0 <= a < b < |instrs| && instrs[b].result.Some? ==> instrs[b].result != instrs[a].result
    ensures r in KnownAt(instrs, known, k) && KnownAt(instrs, known, k)[r] == v
    decreases k
  {
    hide C.FoldInstr, C.Fold, KnownAt, Constant;
    FoldedAt(instrs, known, k - 1);
    FoldedAt(instrs, known, j);
    if k == j + 1 {
      Noted(instrs[j], KnownAt(instrs, known, j), r, v);
    } else {
      StaysNoted(instrs, known, j, k - 1, r, v);
      OwnResult(instrs[j], KnownAt(instrs, known, j), r, v);
      OthersKept(instrs[k - 1], KnownAt(instrs, known, k - 1), r);
    }
  }

  lemma OwnResult(i: Instr, known: C.Constants, r: Name, v: int)
    requires Constant(C.FoldInstr(i, known).0, r, v)
    ensures i.result == Some(r)
  {
    hide C.Parse, IL.Numeral, C.FoldBinary, C.FoldCompare, C.Complement, C.UnsignedTy;
  }

  lemma OthersKept(i: Instr, known: C.Constants, r: Name)
    requires r in known && i.result != Some(r)
    ensures r in C.FoldInstr(i, known).1 && C.FoldInstr(i, known).1[r] == known[r]
  {
    hide C.Parse, IL.Numeral, C.FoldBinary, C.FoldCompare, C.Complement, C.UnsignedTy;
  }

  /// In folded code no operator or comparison is left whose operands are constants
  /// of its block, where it is defined and not wider than the folder's numbers.
  lemma NothingLeftToFold(instrs: seq<Instr>, k: nat, j1: nat, j2: nat, a: Name, b: Name, m: int, n: int)
    requires forall x, y :: 0 <= x < y < |instrs| && instrs[y].result.Some? ==> instrs[y].result != instrs[x].result
    requires j1 < k < |instrs| && j2 < k && |C.Fold(instrs, map[])| == |instrs|
    requires Constant(C.Fold(instrs, map[])[j1], a, m) && Constant(C.Fold(instrs, map[])[j2], b, n)
    ensures var i := C.Fold(instrs, map[])[k];
      i.args == [a, b] && i.result.Some? && !CM.TooWide(i.ty) ==> i.op != Compare && (i.op == Binary ==> !CM.Defined(i.text, n))
  {
    FoldedAt(instrs, map[], k);
    StaysNoted(instrs, map[], j1, k, a, m);
    StaysNoted(instrs, map[], j2, k, b, n);
    hide C.Fold, KnownAt, Constant, CM.Defined;
    ConstantsFold(instrs[k], KnownAt(instrs, map[], k), a, b);
  }

  lemma ConstantsFold(i: Instr, known: C.Constants, a: Name, b: Name)
    requires a in known && b in known
    ensures var j := C.FoldInstr(i, known).0;
      j.args == [a, b] && j.result.Some? && !CM.TooWide(j.ty) ==> j.op != Compare && (j.op == Binary ==> !CM.Defined(j.text, known[b]))
  {
    CM.FoldComputes(i.text, C.UnsignedTy(i.ty), if |i.args| == 2 && i.args[0] in known then known[i.args[0]] else 0, known[b]);
    hide C.Parse, IL.Numeral, C.FoldBinary, C.FoldCompare, C.Complement, C.UnsignedTy, CM.Defined, CM.Computes, CM.Overflows;
  }

  // ---- dead values ----

  /// In code after elimination every instruction that yields a value and cannot be
  /// seen otherwise has its value used.
  lemma NothingUnusedLeft(blocks: seq<Block>, b: Block, i: Instr, r: Name)
    requires b in D.Eliminate(blocks) && i in b.instrs && i.result == Some(r)
    requires i.op in {Alloca, ConstInt, ConstFloat, ConstBool, ConstChar, ConstString, StructInit, FieldAddr, Binary, Compare, Cast, AddressOf}
             || (i.op == Load && !i.flag)
    ensures exists b', i' :: b' in D.Eliminate(blocks) && i' in b'.instrs && r in i'.args
  {
    D.EliminateIsClean(blocks);
    hide D.Eliminate;
    assert !D.Dead(i, D.Used(D.Eliminate(blocks)));
    assert r in D.Used(D.Eliminate(blocks));
  }
}
