/// What the optimizer's passes rely on follows, stage by stage, from conditions
/// on the code that is handed to the first of them: each pass keeps what the next
/// ones ask, and so the conditions can be checked before any pass runs.

module MirStages {
  import opened Mir
  import R = ReachableBlocks
  import F = ForwardLoads
  import D = DeadValues
  import C = ConstantFold
  import CR = ConstantFoldRuns

  ghost function ReachSet(blocks: seq<Block>): set<nat> {
    set i: nat | i < |blocks| && R.Reachable(blocks, i)
  }

  /// The code after the passes of a level.
  ghost function Stages(blocks: seq<Block>, level: int): seq<Block> {
    if level <= 0 then blocks
    else
      var swept := D.Eliminate(C.FoldAll(F.ForwardAll(R.Removed(blocks, ReachSet(blocks)))));
      if level == 1 then swept else D.Eliminate(F.ForwardAll(swept))
  }

  predicate Tidy(i: Instr) {
    CR.Foldable(i) && (i.result.Some? && i.result.value.Slot? ==> i.op == Alloca)
  }

  /// Distinct labels, one terminator a block, single assignment, every load used
  /// in its own block, and instructions that the folder reads right.
  ghost predicate Optimizable(blocks: seq<Block>) {
    && DistinctLabels(blocks)
    && (forall b :: b in blocks ==> R.EndsLast(b))
    && F.Suits(blocks) && F.LocalLoads(blocks)
    && (forall b, i :: b in blocks && i in b.instrs ==> Tidy(i))
  }

  // ---- single assignment survives ----

  lemma SingleCons(i: Instr, rest: seq<Instr>)
    requires F.SingleAssignment(rest) && F.ResultsApart(rest, F.NamesOf(i))
    requires i.result.Some? ==> i.result.value !in i.args
    requires i.op == Load ==> |i.args| <= 1 && (i.result.Some? ==> i.result.value.Temp?)
    ensures F.SingleAssignment([i] + rest)
  {
    var all := [i] + rest;
    forall k, j | 0 <= k < j < |all| && all[j].result.Some?
      ensures all[j].result != all[k].result && all[j].result.value !in all[k].args
    {
      assert all[j] == rest[j - 1];
    }
  }

  lemma ApartCons(i: Instr, rest: seq<Instr>, used: set<Name>)
    requires F.ResultsApart(rest, used) && (i.result.Some? ==> i.result.value !in used)
    ensures F.ResultsApart([i] + rest, used)
  {
  }

  lemma ApartLess(instrs: seq<Instr>, used: set<Name>, fewer: set<Name>)
    requires F.ResultsApart(instrs, used) && fewer <= used
    ensures F.ResultsApart(instrs, fewer)
  {
  }

  /// What the first instruction of a block in single assignment form is like.
  lemma HeadSingle(instrs: seq<Instr>, used: set<Name>)
    requires instrs != [] && F.SingleAssignment(instrs) && F.ResultsApart(instrs, used)
    ensures F.SingleAssignment(instrs[1..]) && F.ResultsApart(instrs[1..], used + F.NamesOf(instrs[0]))
    ensures instrs[0].result.Some? ==> instrs[0].result.value !in used && instrs[0].result.value !in instrs[0].args
    ensures instrs[0].op == Load ==> |instrs[0].args| <= 1 && (instrs[0].result.Some? ==> instrs[0].result.value.Temp?)
  {
    F.NextApart(instrs, used);
    F.FirstLoad(instrs);
  }

  lemma {:induction false} ForwardSingle(instrs: seq<Instr>, t: F.Tables, used: set<Name>)
    requires F.SingleAssignment(instrs) && F.ResultsApart(instrs, used) && F.Within(t, used)
    ensures F.SingleAssignment(F.Forward(instrs, t)) && F.ResultsApart(F.Forward(instrs, t), used)
    decreases instrs
  {
    if instrs == [] {
      assert F.Forward(instrs, t) == [];
    } else {
      hide F.SingleAssignment, F.ResultsApart, F.Within, F.Drops, F.After, F.ResolveAll;
      var i, rest := instrs[0], instrs[1..];
      var r := F.Rewrite(i, t);
      var t' := F.After(r, t);
      HeadSingle(instrs, used);
      F.AfterWithin(i, t, used);
      F.ResolveWithin(t, used, i.args);
      ForwardSingle(rest, t', used + F.NamesOf(i));
      var tail := F.Forward(rest, t');
      ApartLess(tail, used + F.NamesOf(i), used);
      assert [] + tail == tail;
      ApartLess(tail, used + F.NamesOf(i), F.NamesOf(r));
      SingleCons(r, tail);
      ApartCons(r, tail, used);
    }
  }

  lemma {:induction false} FoldSingle(instrs: seq<Instr>, known: C.Constants, used: set<Name>)
    requires F.SingleAssignment(instrs) && F.ResultsApart(instrs, used)
    ensures F.SingleAssignment(C.Fold(instrs, known)) && F.ResultsApart(C.Fold(instrs, known), used)
    decreases instrs
  {
    if instrs != [] {
      hide F.SingleAssignment, F.ResultsApart, C.FoldInstr;
      var i, rest := instrs[0], instrs[1..];
      var (j, known') := C.FoldInstr(i, known);
      HeadSingle(instrs, used);
      FoldSingle(rest, known', used + F.NamesOf(i));
      var tail := C.Fold(rest, known');
      FoldKeeps(i, known);
      ApartLess(tail, used + F.NamesOf(i), used);
      ApartLess(tail, used + F.NamesOf(i), F.NamesOf(j));
      SingleCons(j, tail);
      ApartCons(j, tail, used);
    }
  }

  /// A folded instruction keeps its result and asks for no new name; loads,
  /// and jumps with their targets, are left alone.
  lemma FoldKeeps(i: Instr, known: C.Constants)
    ensures var j := C.FoldInstr(i, known).0;
      j.result == i.result && (forall a :: a in j.args ==> a in i.args) && (j == i || (j.op != Load && !IsTerminator(j.op)))
  {
    hide C.Parse, C.FoldBinary, C.FoldCompare, C.Complement;
  }

  lemma {:induction false} SweepSingle(instrs: seq<Instr>, uses: set<Name>, used: set<Name>)
    requires F.SingleAssignment(instrs) && F.ResultsApart(instrs, used)
    ensures F.SingleAssignment(D.Sweep(instrs, uses)) && F.ResultsApart(D.Sweep(instrs, uses), used)
    decreases instrs
  {
    if instrs != [] {
      hide F.SingleAssignment, F.ResultsApart, D.Dead;
      var i, rest := instrs[0], instrs[1..];
      HeadSingle(instrs, used);
      SweepSingle(rest, uses, used + F.NamesOf(i));
      var tail := D.Sweep(rest, uses);
      ApartLess(tail, used + F.NamesOf(i), used);
      ApartLess(tail, used + F.NamesOf(i), F.NamesOf(i));
      SingleCons(i, tail);
      ApartCons(i, tail, used);
    }
  }

  // ---- names and loads only get fewer ----

  /// `b` names nothing and loads nothing that `a` does not.
  ghost predicate Less(a: seq<Instr>, b: seq<Instr>) {
    F.ArgsIn(b) <= F.ArgsIn(a) && forall r :: F.Loaded(b, r) ==> F.Loaded(a, r)
  }

  ghost predicate LessAll(a: seq<Block>, b: seq<Block>) {
    |b| == |a| && forall k :: 0 <= k < |a| ==> Less(a[k].instrs, b[k].instrs)
  }

  lemma LessLocal(a: seq<Block>, b: seq<Block>)
    requires LessAll(a, b) && F.LocalLoads(a)
    ensures F.LocalLoads(b)
  {
    hide F.ArgsIn, F.Loaded;
    forall k, j, r | 0 <= k < |b| && 0 <= j < |b| && k != j && F.Loaded(b[k].instrs, r)
      ensures r !in F.ArgsIn(b[j].instrs)
    {
      assert Less(a[k].instrs, b[k].instrs) && Less(a[j].instrs, b[j].instrs);
      assert F.Loaded(a[k].instrs, r);
    }
  }

  /// If each instruction of `b` comes from one of `a`, with operands of `a`.
  lemma LessFrom(a: seq<Instr>, b: seq<Instr>)
    requires F.ArgsIn(b) <= F.ArgsIn(a)
    requires forall j :: j in b && j.op == Load ==> exists i :: i in a && i.op == Load && i.flag == j.flag && i.result == j.result
    ensures Less(a, b)
  {
    forall r | F.Loaded(b, r) ensures F.Loaded(a, r) {
      var j :| j in b && F.LoadOf(j, r);
      var i :| i in a && i.op == Load && i.flag == j.flag && i.result == j.result;
      assert F.LoadOf(i, r);
    }
  }

  lemma {:induction false} ForwardFrom(instrs: seq<Instr>, t: F.Tables, j: Instr) returns (i: Instr)
    requires j in F.Forward(instrs, t)
    ensures i in instrs && j == i.(args := j.args)
    decreases instrs
  {
    hide F.Drops, F.After, F.ResolveAll;
    var r := F.Rewrite(instrs[0], t);
    if j == r {
      i := instrs[0];
    } else {
      i := ForwardFrom(instrs[1..], F.After(r, t), j);
    }
  }

  lemma ForwardLess(instrs: seq<Instr>)
    ensures Less(instrs, F.Forward(instrs, F.Nothing))
  {
    hide F.Forward, F.ArgsIn, Less;
    F.ForwardSeen(instrs, F.Nothing, {});
    forall j | j in F.Forward(instrs, F.Nothing) && j.op == Load
      ensures exists i :: i in instrs && i.op == Load && i.flag == j.flag && i.result == j.result
    {
      var i := ForwardFrom(instrs, F.Nothing, j);
    }
    LessFrom(instrs, F.Forward(instrs, F.Nothing));
  }

  lemma {:induction false} FoldLess(instrs: seq<Instr>, known: C.Constants)
    ensures Less(instrs, C.Fold(instrs, known))
    decreases instrs
  {
    if instrs != [] {
      hide C.FoldInstr, F.ArgsIn, F.Loaded;
      var i, rest := instrs[0], instrs[1..];
      var (j, known') := C.FoldInstr(i, known);
      FoldKeeps(i, known);
      FoldLess(rest, known');
      F.ArgsCons(i, rest);
      F.ArgsCons(j, C.Fold(rest, known'));
      assert instrs == [i] + rest;
      forall r | F.Loaded(C.Fold(instrs, known), r) ensures F.Loaded(instrs, r) {
        LoadedCons(j, C.Fold(rest, known'), r);
        LoadedCons(i, rest, r);
      }
    }
  }

  lemma LoadedCons(i: Instr, rest: seq<Instr>, r: Name)
    ensures F.Loaded([i] + rest, r) <==> F.LoadOf(i, r) || F.Loaded(rest, r)
  {
    assert i in [i] + rest;
    if F.Loaded(rest, r) {
      var x :| x in rest && F.LoadOf(x, r);
      assert x in [i] + rest;
    }
  }

  lemma SweepLess(instrs: seq<Instr>, uses: set<Name>)
    ensures Less(instrs, D.Sweep(instrs, uses))
  {
    hide D.Dead;
    LessFrom(instrs, D.Sweep(instrs, uses));
  }

  // ---- jumps keep their targets ----

  /// Only results of loads, which are temporaries, are renamed.
  predicate KeysTemps(t: F.Tables) { forall r :: r in t.aliases ==> r.Temp? }

  lemma TargetedKept(i: Instr, t: F.Tables)
    requires KeysTemps(t) && F.Targeted(i)
    ensures F.Targeted(F.Rewrite(i, t))
  {
  }

  lemma {:induction false} ForwardTargeted(instrs: seq<Instr>, t: F.Tables, j: Instr)
    requires F.SingleAssignment(instrs) && KeysTemps(t) && j in F.Forward(instrs, t)
    requires forall k :: 0 <= k < |instrs| ==> F.Targeted(instrs[k])
    ensures F.Targeted(j)
    decreases instrs
  {
    hide F.Drops, F.Resolve, F.ResolveAll, F.Targeted;
    var i := instrs[0];
    var r := F.Rewrite(i, t);
    HeadSingleTail(instrs);
    if j == r {
      TargetedKept(i, t);
    } else {
      F.KeysGrow(i, t);
      if F.Drops(r, t) { F.DropsLoad(r, t); }
      ForwardTargeted(instrs[1..], F.After(r, t), j);
    }
  }

  lemma HeadSingleTail(instrs: seq<Instr>)
    requires instrs != [] && F.SingleAssignment(instrs)
    ensures F.SingleAssignment(instrs[1..])
    ensures instrs[0].op == Load && instrs[0].result.Some? ==> instrs[0].result.value.Temp?
  {
    F.StartApart(instrs);
    HeadSingle(instrs, {});
  }

  lemma {:induction false} FoldFrom(instrs: seq<Instr>, known: C.Constants, j: Instr) returns (i: Instr)
    requires j in C.Fold(instrs, known)
    ensures i in instrs && (j == i || (j.op != Load && !IsTerminator(j.op)))
    decreases instrs
  {
    hide C.FoldInstr;
    var (f, known') := C.FoldInstr(instrs[0], known);
    if j == f {
      i := instrs[0];
      FoldKeeps(i, known);
    } else {
      i := FoldFrom(instrs[1..], known', j);
    }
  }

  // ---- the passes, on whole functions ----

  lemma ForwardSuits(blocks: seq<Block>)
    requires F.Suits(blocks)
    ensures F.Suits(F.ForwardAll(blocks)) && LessAll(blocks, F.ForwardAll(blocks))
  {
    hide F.SingleAssignment, F.Targeted, F.Forward, Less;
    var after := F.ForwardAll(blocks);
    forall k | 0 <= k < |blocks|
      ensures F.SingleAssignment(after[k].instrs) && Less(blocks[k].instrs, after[k].instrs)
      ensures forall j :: j in after[k].instrs ==> F.Targeted(j)
    {
      var instrs := blocks[k].instrs;
      assert blocks[k] in blocks;
      F.StartApart(instrs);
      ForwardSingle(instrs, F.Nothing, {});
      ForwardLess(instrs);
      forall j | j in after[k].instrs ensures F.Targeted(j) {
        ForwardTargeted(instrs, F.Nothing, j);
      }
    }
  }

  lemma FoldSuits(blocks: seq<Block>)
    requires F.Suits(blocks)
    ensures F.Suits(C.FoldAll(blocks)) && LessAll(blocks, C.FoldAll(blocks))
  {
    hide F.SingleAssignment, C.Fold, Less;
    var after := C.FoldAll(blocks);
    forall k | 0 <= k < |blocks|
      ensures F.SingleAssignment(after[k].instrs) && Less(blocks[k].instrs, after[k].instrs)
      ensures forall j :: j in after[k].instrs ==> F.Targeted(j)
    {
      var instrs := blocks[k].instrs;
      assert blocks[k] in blocks;
      F.StartApart(instrs);
      FoldSingle(instrs, map[], {});
      FoldLess(instrs, map[]);
      forall j | j in after[k].instrs ensures F.Targeted(j) {
        var i := FoldFrom(instrs, map[], j);
      }
    }
  }

  lemma SweepSuits(blocks: seq<Block>, uses: set<Name>)
    requires F.Suits(blocks)
    ensures F.Suits(D.SweepAll(blocks, uses)) && LessAll(blocks, D.SweepAll(blocks, uses))
  {
    hide F.SingleAssignment, F.Targeted, D.Dead, Less;
    var after := D.SweepAll(blocks, uses);
    forall k | 0 <= k < |blocks|
      ensures F.SingleAssignment(after[k].instrs) && Less(blocks[k].instrs, after[k].instrs)
      ensures forall j :: j in after[k].instrs ==> F.Targeted(j)
    {
      var instrs := blocks[k].instrs;
      assert blocks[k] in blocks;
      F.StartApart(instrs);
      SweepSingle(instrs, uses, {});
      SweepLess(instrs, uses);
    }
  }

  lemma LessTransitive(a: seq<Block>, b: seq<Block>, c: seq<Block>)
    requires LessAll(a, b) && LessAll(b, c)
    ensures LessAll(a, c)
  {
    forall k | 0 <= k < |a| ensures Less(a[k].instrs, c[k].instrs) {
      assert Less(a[k].instrs, b[k].instrs) && Less(b[k].instrs, c[k].instrs);
    }
  }

  lemma LessSelf(a: seq<Block>)
    ensures LessAll(a, a)
  {
  }

  lemma {:induction false} EliminateSuits(blocks: seq<Block>)
    requires F.Suits(blocks)
    ensures F.Suits(D.Eliminate(blocks)) && LessAll(blocks, D.Eliminate(blocks))
    decreases D.Size(blocks)
  {
    hide F.Suits, D.SweepAll, D.Used, LessAll;
    var next := D.SweepAll(blocks, D.Used(blocks));
    D.SweepShrinks(blocks, D.Used(blocks));
    if next == blocks {
      LessSelf(blocks);
    } else {
      SweepSuits(blocks, D.Used(blocks));
      EliminateSuits(next);
      LessTransitive(blocks, next, D.Eliminate(next));
    }
  }

  /// The blocks that stay are some of the blocks, each once.
  lemma RemovedOptimizable(blocks: seq<Block>)
    requires Optimizable(blocks)
    ensures Optimizable(R.Removed(blocks, ReachSet(blocks)))
  {
    hide F.SingleAssignment, F.Targeted, F.Loaded, F.ArgsIn, Tidy, R.EndsLast, R.Reachable, R.Removed, DistinctLabels;
    var kept := ReachSet(blocks);
    var after := R.Removed(blocks, kept);
    R.RemovedDistinct(blocks, kept);
    forall k | 0 <= k < |after| ensures after[k] in blocks {
      var i := RemovedFrom(blocks, kept, k);
    }
    forall k, j, r | 0 <= k < |after| && 0 <= j < |after| && k != j && F.Loaded(after[k].instrs, r)
      ensures r !in F.ArgsIn(after[j].instrs)
    {
      var x := RemovedFrom(blocks, kept, k);
      var y := RemovedFrom(blocks, kept, j);
      DistinctApart(after, k, j);
    }
  }

  lemma RemovedFrom(blocks: seq<Block>, kept: set<nat>, k: nat) returns (i: nat)
    requires k < |R.Removed(blocks, kept)|
    ensures i < |blocks| && R.Removed(blocks, kept)[k] == blocks[i]
  {
    R.KeepFrom(blocks, kept, |blocks|, k);
    i :| i < |blocks| && i in kept && R.Rank(kept, i) == k && R.Keep(blocks, kept, |blocks|)[k] == blocks[i];
  }

  lemma DistinctApart(blocks: seq<Block>, k: nat, j: nat)
    requires DistinctLabels(blocks) && k < |blocks| && j < |blocks| && k != j
    ensures blocks[k] != blocks[j]
  {
  }

  /// Forwarded code is what the folder expects.
  lemma ForwardedFolds(blocks: seq<Block>)
    requires F.Suits(blocks) && forall b, i :: b in blocks && i in b.instrs ==> Tidy(i)
    ensures CR.SuitsAll(F.ForwardAll(blocks))
  {
    hide F.SingleAssignment, F.Targeted, F.Forward, CR.Foldable, CR.SuitsFrom, CR.Apart;
    ForwardSuits(blocks);
    var after := F.ForwardAll(blocks);
    forall b | b in after ensures CR.Apart(b.instrs, map[]) && CR.SuitsFrom(b.instrs, map[]) {
      var k :| 0 <= k < |after| && after[k] == b;
      assert blocks[k] in blocks;
      forall j | j in b.instrs ensures Tidy(j) {
        var i := ForwardFrom(blocks[k].instrs, F.Nothing, j);
        TidyArgs(i, j);
      }
      CR.FoldableSuits(b.instrs, map[]);
      SingleApart(b.instrs);
    }
  }

  lemma TidyArgs(i: Instr, j: Instr)
    requires Tidy(i) && j == i.(args := j.args)
    ensures Tidy(j)
  {
  }

  lemma SingleApart(instrs: seq<Instr>)
    requires F.SingleAssignment(instrs) && forall i :: i in instrs ==> Tidy(i)
    ensures CR.Apart(instrs, map[])
  {
    hide CR.Foldable;
    forall k | 0 <= k < |instrs| && instrs[k].result.Some? && CR.IsConstantLike(instrs[k])
      ensures !instrs[k].result.value.Slot?
    {
      assert Tidy(instrs[k]);
    }
  }

  /// Every run that does not fault is the same after the passes of any level.
  lemma StagesPreserveRuns(w: World, blocks: seq<Block>, level: int, c: Config, fuel: nat)
    requires Optimizable(blocks) && F.Quiet(w) && C.Machine(w) && !Run(w, blocks, c, fuel).Faulted?
    ensures Run(w, Stages(blocks, level), c, fuel) == Run(w, blocks, c, fuel)
  {
    hide Run, F.Quiet, C.Machine, F.ForwardAll, C.FoldAll, D.Eliminate, R.Removed, F.Suits, F.LocalLoads, F.DroppedLocal, R.EndsLast, R.Reachable, CR.SuitsAll, LessAll, Tidy;
    if level > 0 {
      var removed := R.Removed(blocks, ReachSet(blocks));
      R.ReachableIsClosed(blocks, ReachSet(blocks));
      R.RemovalPreservesRuns(w, blocks, ReachSet(blocks), c, fuel);
      RemovedOptimizable(blocks);
      F.LocalLoadsSuffice(removed);
      F.ForwardingPreservesRuns(w, removed, c, fuel);
      ForwardedFolds(removed);
      var forwarded := F.ForwardAll(removed);
      CR.FoldingPreservesRuns(w, forwarded, c, fuel);
      var folded := C.FoldAll(forwarded);
      D.EliminationPreservesRuns(w, folded, c, fuel);
      if level >= 2 { SecondRound(w, removed, c, fuel); }
    }
  }

  /// Level 2: forwarding and elimination once more.
  lemma SecondRound(w: World, removed: seq<Block>, c: Config, fuel: nat)
    requires F.Suits(removed) && F.LocalLoads(removed) && F.Quiet(w)
    requires !Run(w, D.Eliminate(C.FoldAll(F.ForwardAll(removed))), c, fuel).Faulted?
    ensures var swept := D.Eliminate(C.FoldAll(F.ForwardAll(removed)));
      Run(w, D.Eliminate(F.ForwardAll(swept)), c, fuel) == Run(w, swept, c, fuel)
  {
    hide Run, F.Quiet, F.ForwardAll, C.FoldAll, D.Eliminate, F.Suits, F.LocalLoads, F.DroppedLocal, LessAll;
    var forwarded := F.ForwardAll(removed);
    var folded := C.FoldAll(forwarded);
    var swept := D.Eliminate(folded);
    ForwardSuits(removed);
    FoldSuits(forwarded);
    EliminateSuits(folded);
    LessTransitive(removed, forwarded, folded);
    LessTransitive(removed, folded, swept);
    LessLocal(removed, swept);
    F.LocalLoadsSuffice(swept);
    F.ForwardingPreservesRuns(w, swept, c, fuel);
    D.EliminationPreservesRuns(w, F.ForwardAll(swept), c, fuel);
  }
}
