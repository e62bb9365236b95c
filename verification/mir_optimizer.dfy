/// The optimizer as it runs: the blocks of a function are rewritten in place by
/// loops over worklists, tables and instruction lists (src/mir_optimizer.cpp).

module MirOptimizer {
  import opened Mir
  import R = ReachableBlocks
  import F = ForwardLoads
  import D = DeadValues
  import C = ConstantFold
  import CR = ConstantFoldRuns
  import opened MirStages

  class MirFunction {
    var blocks: seq<Block>

    constructor (blocks: seq<Block>)
      ensures this.blocks == blocks
    {
      this.blocks := blocks;
    }

    // ---- remove_unreachable ----

    /// The blocks on the edges out of block `index`, in the order they are pushed.
    method Edges(index: nat) returns (edges: seq<nat>)
      requires index < |blocks|
      ensures forall j :: j in edges <==> j in R.Successors(blocks, index)
    {
      edges := [];
      var b := blocks[index];
      if b.instrs == [] {
        if index + 1 < |blocks| { edges := [index + 1]; }
      } else {
        var tail := b.instrs[|b.instrs| - 1];
        if tail.op == Jump && tail.args != [] {
          edges := Lookup(tail.args[0]);
        } else if tail.op == CondJump && |tail.args| >= 3 {
          var yes := Lookup(tail.args[1]);
          var no := Lookup(tail.args[2]);
          edges := yes + no;
        } else if tail.op != Return && index + 1 < |blocks| {
          edges := [index + 1];
        }
      }
    }

    method Lookup(label_: Name) returns (found: seq<nat>)
      ensures forall j :: j in found <==> j in R.Target(blocks, label_)
    {
      found := [];
      if label_.LabelName? {
        var i := FindLabel(blocks, label_.target);
        if i < |blocks| { found := [i]; }
      }
    }

    /// Keeps exactly the blocks on a path from the first one, in their order.
    method RemoveUnreachable()
      requires DistinctLabels(blocks)
      modifies this
      ensures blocks == R.Removed(old(blocks), ReachSet(old(blocks)))
      ensures DistinctLabels(blocks)
      ensures (forall b :: b in old(blocks) ==> R.EndsLast(b)) ==>
        forall w: World, c: Config, fuel: nat :: Run(w, blocks, c, fuel) == Run(w, old(blocks), c, fuel)
    {
      hide Run, R.Successors, R.Reachable, R.EndsLast, DistinctLabels;
      var reachable: set<nat> := {};
      if blocks != [] {
        var work := [0];
        R.ReachableFirst(blocks);
        while work != []
          invariant blocks == old(blocks)
          invariant forall i :: i in work ==> R.Reachable(blocks, i)
          invariant forall i :: i in reachable ==> i < |blocks| && R.Reachable(blocks, i)
          invariant 0 in reachable || 0 in work
          invariant forall i, j :: i in reachable && j in R.Successors(blocks, i) ==> j in reachable || j in work
          decreases |blocks| - |reachable|, |work|
        {
          var index := work[|work| - 1];
          ghost var popped := work;
          work := work[..|work| - 1];
          assert forall j :: j in popped ==> j == index || j in work;
          if index < |blocks| && index !in reachable {
            Bounded(reachable + {index}, |blocks|);
            reachable := reachable + {index};
            var edges := Edges(index);
            forall j | j in edges ensures R.Reachable(blocks, j) { R.ReachableNext(blocks, index, j); }
            work := work + edges;
          }
        }
      }
      AllReached(blocks, reachable);
      assert reachable == ReachSet(blocks);
      var kept: seq<Block> := [];
      var i := 0;
      while i < |blocks|
        invariant i <= |blocks| && blocks == old(blocks)
        invariant kept == R.Keep(blocks, reachable, i)
      {
        if i in reachable { kept := kept + [blocks[i]]; }
        i := i + 1;
      }
      RemovalMeans(blocks, reachable);
      blocks := kept;
    }

    // ---- forward_local_loads ----

    method Resolve(aliases: map<Name, Name>, v: Name) returns (r: Name)
      ensures r == F.Resolve(aliases, v, F.DEPTH)
    {
      r := v;
      var depth := 0;
      while depth < F.DEPTH && r in aliases && aliases[r] != r
        invariant depth <= F.DEPTH
        invariant F.Resolve(aliases, r, F.DEPTH - depth) == F.Resolve(aliases, v, F.DEPTH)
      {
        r := aliases[r];
        depth := depth + 1;
      }
    }

    method ResolveArgs(aliases: map<Name, Name>, args: seq<Name>) returns (r: seq<Name>)
      ensures r == F.ResolveAll(aliases, args)
    {
      r := [];
      var k := 0;
      while k < |args|
        invariant k <= |args| && |r| == k
        invariant forall j :: 0 <= j < k ==> r[j] == F.Resolve(aliases, args[j], F.DEPTH)
      {
        var v := Resolve(aliases, args[k]);
        r := r + [v];
        k := k + 1;
      }
    }

    /// The tables after one rewritten instruction, and whether it is dropped.
    method Transfer(i: Instr, slots: map<Name, Name>, aliases: map<Name, Name>)
      returns (slots': map<Name, Name>, aliases': map<Name, Name>, dropped: bool)
      ensures dropped == F.Drops(i, F.Tables(slots, aliases))
      ensures F.Tables(slots', aliases') == F.After(i, F.Tables(slots, aliases))
    {
      slots', aliases', dropped := slots, aliases, false;
      if i.op == Load && !i.flag && i.args != [] && i.args[0] in slots {
        dropped := true;
        if i.result.Some? {
          var v := Resolve(aliases, slots[i.args[0]]);
          aliases' := aliases[i.result.value := v];
        }
      } else if i.op == Store && !i.flag && |i.args| >= 2 {
        slots' := if i.args[1].Slot? then slots[i.args[1] := i.args[0]] else map[];
      } else if i.op == AddressOf {
        if i.args != [] { slots' := slots - {i.args[0]}; }
      } else if F.Clobbers(i) {
        slots' := map[];
      }
    }

    method ForwardInBlock(instrs: seq<Instr>) returns (output: seq<Instr>)
      ensures output == F.Forward(instrs, F.Nothing)
    {
      hide F.Forward, F.After, F.Drops, F.Resolve;
      var slots: map<Name, Name>, aliases: map<Name, Name> := map[], map[];
      output := [];
      var k := 0;
      assert instrs[0..] == instrs;
      while k < |instrs|
        invariant k <= |instrs|
        invariant output + F.Forward(instrs[k..], F.Tables(slots, aliases)) == F.Forward(instrs, F.Nothing)
      {
        var args := ResolveArgs(aliases, instrs[k].args);
        var instruction := instrs[k].(args := args);
        ForwardAt(instrs, k, F.Tables(slots, aliases), output, instruction);
        var dropped;
        slots, aliases, dropped := Transfer(instruction, slots, aliases);
        if !dropped { output := output + [instruction]; }
        k := k + 1;
      }
      ForwardEnd(instrs, F.Tables(slots, aliases), output);
    }

    method ForwardLocalLoads()
      modifies this
      ensures blocks == F.ForwardAll(old(blocks))
      ensures F.Suits(old(blocks)) && F.DroppedLocal(old(blocks)) ==>
        forall w: World, c: Config, fuel: nat :: F.Quiet(w) ==> Run(w, blocks, c, fuel) == Run(w, old(blocks), c, fuel)
    {
      hide Run, F.Forward, F.Quiet, F.DroppedLocal, F.Dropped, F.SingleAssignment;
      var k := 0;
      while k < |blocks|
        invariant k <= |blocks| == |old(blocks)|
        invariant forall j :: 0 <= j < k ==> blocks[j] == F.ForwardBlock(old(blocks)[j])
        invariant forall j :: k <= j < |blocks| ==> blocks[j] == old(blocks)[j]
      {
        var output := ForwardInBlock(blocks[k].instrs);
        blocks := blocks[k := blocks[k].(instrs := output)];
        k := k + 1;
      }
      assert blocks == F.ForwardAll(old(blocks));
      if F.Suits(old(blocks)) && F.DroppedLocal(old(blocks)) {
        forall w: World, c: Config, fuel: nat | F.Quiet(w) ensures Run(w, blocks, c, fuel) == Run(w, old(blocks), c, fuel) {
          F.ForwardingPreservesRuns(w, old(blocks), c, fuel);
        }
      }
    }

    // ---- constant_fold ----

    method FoldInBlock(instrs: seq<Instr>) returns (output: seq<Instr>)
      ensures output == C.Fold(instrs, map[])
    {
      hide C.FoldInstr, C.Fold;
      output := [];
      var constants: C.Constants := map[];
      var k := 0;
      assert instrs[0..] == instrs;
      while k < |instrs|
        invariant k <= |instrs|
        invariant output + C.Fold(instrs[k..], constants) == C.Fold(instrs, map[])
      {
        FoldAt(instrs, k, constants, output);
        var (i, constants') := C.FoldInstr(instrs[k], constants);
        output, constants := output + [i], constants';
        k := k + 1;
      }
      FoldEnd(instrs, constants, output);
    }

    method ConstantFold()
      modifies this
      ensures blocks == C.FoldAll(old(blocks))
      ensures CR.SuitsAll(old(blocks)) ==>
        forall w: World, c: Config, fuel: nat ::
          C.Machine(w) && !Run(w, old(blocks), c, fuel).Faulted? ==> Run(w, blocks, c, fuel) == Run(w, old(blocks), c, fuel)
    {
      hide Run, C.Fold, CR.SuitsAll, C.Machine;
      var k := 0;
      while k < |blocks|
        invariant k <= |blocks| == |old(blocks)|
        invariant forall j :: 0 <= j < k ==> blocks[j] == old(blocks)[j].(instrs := C.Fold(old(blocks)[j].instrs, map[]))
        invariant forall j :: k <= j < |blocks| ==> blocks[j] == old(blocks)[j]
      {
        var output := FoldInBlock(blocks[k].instrs);
        blocks := blocks[k := blocks[k].(instrs := output)];
        k := k + 1;
      }
      assert blocks == C.FoldAll(old(blocks));
      if CR.SuitsAll(old(blocks)) {
        forall w: World, c: Config, fuel: nat | C.Machine(w) && !Run(w, old(blocks), c, fuel).Faulted?
          ensures Run(w, blocks, c, fuel) == Run(w, old(blocks), c, fuel)
        {
          CR.FoldingPreservesRuns(w, old(blocks), c, fuel);
        }
      }
    }

    // ---- eliminate_dead_values ----

    method CollectUses() returns (uses: set<Name>)
      ensures uses == D.Used(blocks)
    {
      uses := {};
      var k := 0;
      while k < |blocks|
        invariant k <= |blocks|
        invariant uses == D.Used(blocks[..k])
      {
        var j := 0;
        var instrs := blocks[k].instrs;
        ghost var before := uses;
        while j < |instrs|
          invariant j <= |instrs|
          invariant uses == before + D.UsedIn(instrs[..j])
        {
          uses := uses + set a | a in instrs[j].args;
          assert instrs[..j + 1] == instrs[..j] + [instrs[j]];
          j := j + 1;
        }
        assert instrs[..j] == instrs;
        assert blocks[..k + 1] == blocks[..k] + [blocks[k]];
        k := k + 1;
      }
      assert blocks[..k] == blocks;
    }

    method SweepBlock(instrs: seq<Instr>, uses: set<Name>) returns (kept: seq<Instr>)
      ensures kept == D.Sweep(instrs, uses)
    {
      kept := [];
      var j := 0;
      while j < |instrs|
        invariant j <= |instrs|
        invariant kept + D.Sweep(instrs[j..], uses) == D.Sweep(instrs, uses)
      {
        assert instrs[j..][1..] == instrs[j + 1..];
        if !D.Dead(instrs[j], uses) {
          assert kept + ([instrs[j]] + D.Sweep(instrs[j + 1..], uses)) == (kept + [instrs[j]]) + D.Sweep(instrs[j + 1..], uses);
          kept := kept + [instrs[j]];
        }
        j := j + 1;
      }
    }

    /// One round over a copy of the blocks.
    method SweepRound(code: seq<Block>, uses: set<Name>) returns (next: seq<Block>)
      ensures next == D.SweepAll(code, uses)
    {
      hide D.Sweep;
      next := code;
      var k := 0;
      while k < |code|
        invariant k <= |code| == |next|
        invariant forall j :: 0 <= j < k ==> next[j] == code[j].(instrs := D.Sweep(code[j].instrs, uses))
        invariant forall j :: k <= j < |code| ==> next[j] == code[j]
      {
        var kept := SweepBlock(code[k].instrs, uses);
        next := next[k := code[k].(instrs := kept)];
        k := k + 1;
      }
      assert next == D.SweepAll(code, uses);
    }

    /// Repeats until a round changes nothing; every round that does makes the code smaller.
    method EliminateDeadValues()
      modifies this
      ensures blocks == D.Eliminate(old(blocks))
      ensures forall b, i :: b in blocks && i in b.instrs ==> !D.Dead(i, D.Used(blocks))
      ensures forall w: World, c: Config, fuel: nat :: !Run(w, old(blocks), c, fuel).Faulted? ==> Run(w, blocks, c, fuel) == Run(w, old(blocks), c, fuel)
    {
      hide Run, D.Used, D.Dead, D.Sweep, D.SweepAll;
      var changed := true;
      while changed
        invariant D.Eliminate(blocks) == D.Eliminate(old(blocks))
        invariant !changed ==> D.Eliminate(blocks) == blocks
        decreases D.Size(blocks), changed
      {
        var uses := CollectUses();
        var next := SweepRound(blocks, uses);
        D.SweepShrinks(blocks, uses);
        changed := next != blocks;
        blocks := next;
      }
      D.EliminateIsClean(old(blocks));
      forall w: World, c: Config, fuel: nat | !Run(w, old(blocks), c, fuel).Faulted?
        ensures Run(w, blocks, c, fuel) == Run(w, old(blocks), c, fuel)
      {
        D.EliminationPreservesRuns(w, old(blocks), c, fuel);
      }
    }

    // ---- run ----

    /// All passes for a level. Runs that do not fault are unchanged.
    method Optimize(level: int)
      requires DistinctLabels(blocks)
      modifies this
      ensures blocks == Stages(old(blocks), level)
      ensures Optimizable(old(blocks)) ==>
        forall w: World, c: Config, fuel: nat ::
          F.Quiet(w) && C.Machine(w) && !Run(w, old(blocks), c, fuel).Faulted? ==> Run(w, blocks, c, fuel) == Run(w, old(blocks), c, fuel)
    {
      hide *;
      StagesMean(blocks, level);
      StagesAre(blocks, level);
      if level <= 0 { return; }
      RemoveUnreachable();
      ForwardLocalLoads();
      ConstantFold();
      EliminateDeadValues();
      if level >= 2 {
        ForwardLocalLoads();
        EliminateDeadValues();
      }
    }
  }

  lemma StagesAre(blocks: seq<Block>, level: int)
    ensures level <= 0 ==> Stages(blocks, level) == blocks
    ensures level >= 1 ==>
      var swept := D.Eliminate(C.FoldAll(F.ForwardAll(R.Removed(blocks, ReachSet(blocks)))));
      Stages(blocks, level) == if level == 1 then swept else D.Eliminate(F.ForwardAll(swept))
  {
  }

  lemma StagesMean(blocks: seq<Block>, level: int)
    ensures Optimizable(blocks) ==>
      forall w: World, c: Config, fuel: nat ::
        F.Quiet(w) && C.Machine(w) && !Run(w, blocks, c, fuel).Faulted? ==> Run(w, Stages(blocks, level), c, fuel) == Run(w, blocks, c, fuel)
  {
    hide Run, C.Machine, F.Quiet, Optimizable, Stages;
    if Optimizable(blocks) {
      forall w: World, c: Config, fuel: nat | F.Quiet(w) && C.Machine(w) && !Run(w, blocks, c, fuel).Faulted?
        ensures Run(w, Stages(blocks, level), c, fuel) == Run(w, blocks, c, fuel)
      {
        StagesPreserveRuns(w, blocks, level, c, fuel);
      }
    }
  }

  lemma FoldAt(instrs: seq<Instr>, k: nat, known: C.Constants, output: seq<Instr>)
    requires k < |instrs|
    ensures var (i, known') := C.FoldInstr(instrs[k], known);
      output + C.Fold(instrs[k..], known) == (output + [i]) + C.Fold(instrs[k + 1..], known')
  {
    hide C.FoldInstr;
    assert instrs[k..][0] == instrs[k] && instrs[k..][1..] == instrs[k + 1..];
    var (i, known') := C.FoldInstr(instrs[k], known);
    assert output + ([i] + C.Fold(instrs[k + 1..], known')) == (output + [i]) + C.Fold(instrs[k + 1..], known');
  }

  lemma FoldEnd(instrs: seq<Instr>, known: C.Constants, output: seq<Instr>)
    ensures output + C.Fold(instrs[|instrs|..], known) == output
  {
  }

  lemma ForwardAt(instrs: seq<Instr>, k: nat, t: F.Tables, output: seq<Instr>, i: Instr)
    requires k < |instrs| && i == F.Rewrite(instrs[k], t)
    ensures output + F.Forward(instrs[k..], t)
      == (if F.Drops(i, t) then output else output + [i]) + F.Forward(instrs[k + 1..], F.After(i, t))
  {
    assert instrs[k..][0] == instrs[k] && instrs[k..][1..] == instrs[k + 1..];
    var rest := F.Forward(instrs[k + 1..], F.After(i, t));
    assert output + ([i] + rest) == (output + [i]) + rest;
    assert [] + rest == rest;
  }

  lemma ForwardEnd(instrs: seq<Instr>, t: F.Tables, output: seq<Instr>)
    ensures output + F.Forward(instrs[|instrs|..], t) == output
  {
  }

  lemma {:induction false} Bounded(s: set<nat>, n: nat)
    requires forall i :: i in s ==> i < n
    ensures |s| <= n
    decreases n
  {
    if n == 0 {
      assert s == {};
    } else {
      Bounded(s - {n - 1}, n - 1);
    }
  }

  lemma RemovalMeans(blocks: seq<Block>, reachable: set<nat>)
    requires DistinctLabels(blocks) && reachable == ReachSet(blocks)
    ensures DistinctLabels(R.Removed(blocks, reachable))
    ensures (forall b :: b in blocks ==> R.EndsLast(b)) ==>
      forall w: World, c: Config, fuel: nat :: Run(w, R.Removed(blocks, reachable), c, fuel) == Run(w, blocks, c, fuel)
  {
    hide Run, R.Removed;
    R.RemovedDistinct(blocks, reachable);
    R.ReachableIsClosed(blocks, reachable);
    if forall b :: b in blocks ==> R.EndsLast(b) {
      forall w: World, c: Config, fuel: nat ensures Run(w, R.Removed(blocks, reachable), c, fuel) == Run(w, blocks, c, fuel) {
        R.RemovalPreservesRuns(w, blocks, reachable, c, fuel);
      }
    }
  }

  lemma AllReached(blocks: seq<Block>, reachable: set<nat>)
    requires forall i :: i in reachable ==> i < |blocks| && R.Reachable(blocks, i)
    requires blocks != [] ==> 0 in reachable
    requires forall i, j :: i in reachable && j in R.Successors(blocks, i) ==> j in reachable
    ensures forall i: nat :: i in reachable <==> i < |blocks| && R.Reachable(blocks, i)
  {
    hide R.Successors;
    forall i: nat | i < |blocks| && R.Reachable(blocks, i) ensures i in reachable {
      var p :| R.Path(blocks, p) && p[|p| - 1] == i;
      R.ClosedHolds(blocks, reachable, p);
    }
  }
}
