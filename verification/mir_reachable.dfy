/// Unreachable-block removal (`remove_unreachable`, src/mir_optimizer.cpp:18-56).

module ReachableBlocks {
  import opened Mir

  function Tail(b: Block): Option<Instr> { if b.instrs == [] then None else Some(b.instrs[|b.instrs| - 1]) }

  function Target(blocks: seq<Block>, a: Name): set<nat> {
    if !a.LabelName? then {} else
    var i := FindLabel(blocks, a.target);
    if i < |blocks| then {i} else {}
  }

  function Next(blocks: seq<Block>, i: nat): set<nat> { if i + 1 < |blocks| then {i + 1} else {} }

  /// Where block `i` may go, by its last instruction.
  function Successors(blocks: seq<Block>, i: nat): (r: set<nat>)
    requires i < |blocks|
    ensures forall j :: j in r ==> j < |blocks|
  {
    match Tail(blocks[i])
    case None => Next(blocks, i)
    case Some(tail) =>
      if tail.op == Jump && tail.args != [] then Target(blocks, tail.args[0])
      else if tail.op == CondJump && |tail.args| >= 3 then Target(blocks, tail.args[1]) + Target(blocks, tail.args[2])
      else if tail.op == Return then {}
      else Next(blocks, i)
  }

  ghost predicate Path(blocks: seq<Block>, p: seq<nat>) {
    && p != [] && p[0] == 0 && (forall k :: 0 <= k < |p| ==> p[k] < |blocks|)
    && forall k :: 0 <= k < |p| - 1 ==> p[k + 1] in Successors(blocks, p[k])
  }

  ghost predicate Reachable(blocks: seq<Block>, i: nat) {
    exists p :: Path(blocks, p) && p[|p| - 1] == i
  }

  lemma ReachableFirst(blocks: seq<Block>)
    requires blocks != []
    ensures Reachable(blocks, 0)
  {
    assert Path(blocks, [0]);
  }

  lemma ReachableNext(blocks: seq<Block>, i: nat, j: nat)
    requires Reachable(blocks, i) && i < |blocks| && j in Successors(blocks, i)
    ensures Reachable(blocks, j)
  {
    var p :| Path(blocks, p) && p[|p| - 1] == i;
    assert Path(blocks, p + [j]);
  }

  /// A closed set that holds the first block holds all reachable ones.
  lemma {:induction false} ClosedHolds(blocks: seq<Block>, kept: set<nat>, p: seq<nat>)
    requires 0 in kept && forall i, j :: i in kept && i < |blocks| && j in Successors(blocks, i) ==> j in kept
    requires Path(blocks, p)
    ensures p[|p| - 1] in kept
    decreases |p|
  {
    if |p| > 1 {
      var q := p[..|p| - 1];
      assert Path(blocks, q);
      ClosedHolds(blocks, kept, q);
      assert p[|p| - 2 + 1] in Successors(blocks, p[|p| - 2]);
    }
  }

  // ---- removal ----

  /// The blocks of `kept` among the first `n`.
  function Keep(blocks: seq<Block>, kept: set<nat>, n: nat): seq<Block>
    requires n <= |blocks|
  {
    if n == 0 then [] else Keep(blocks, kept, n - 1) + if n - 1 in kept then [blocks[n - 1]] else []
  }

  /// Where block `i` ends up.
  function Rank(kept: set<nat>, i: nat): nat {
    if i == 0 then 0 else Rank(kept, i - 1) + if i - 1 in kept then 1 else 0
  }

  lemma {:induction false} KeepAt(blocks: seq<Block>, kept: set<nat>, n: nat, i: nat)
    requires i < n <= |blocks| && i in kept
    ensures Rank(kept, i) < |Keep(blocks, kept, n)| == Rank(kept, n) && Keep(blocks, kept, n)[Rank(kept, i)] == blocks[i]
    decreases n
  {
    KeepLength(blocks, kept, n - 1);
    KeepLength(blocks, kept, n);
    if i < n - 1 { KeepAt(blocks, kept, n - 1, i); }
  }

  lemma {:induction false} KeepLength(blocks: seq<Block>, kept: set<nat>, n: nat)
    requires n <= |blocks|
    ensures |Keep(blocks, kept, n)| == Rank(kept, n)
    decreases n
  {
    if n > 0 { KeepLength(blocks, kept, n - 1); }
  }

  /// Every block that stays was there before.
  lemma {:induction false} KeepFrom(blocks: seq<Block>, kept: set<nat>, n: nat, k: nat)
    requires n <= |blocks| && k < |Keep(blocks, kept, n)|
    ensures exists i: nat :: i < n && i in kept && Rank(kept, i) == k && Keep(blocks, kept, n)[k] == blocks[i]
    decreases n
  {
    KeepLength(blocks, kept, n - 1);
    if k < |Keep(blocks, kept, n - 1)| {
      KeepFrom(blocks, kept, n - 1, k);
    } else {
      assert n - 1 in kept && Rank(kept, n - 1) == k;
    }
  }

  function Removed(blocks: seq<Block>, kept: set<nat>): seq<Block> { Keep(blocks, kept, |blocks|) }

  lemma RemovedDistinct(blocks: seq<Block>, kept: set<nat>)
    requires DistinctLabels(blocks)
    ensures DistinctLabels(Removed(blocks, kept))
  {
    var after := Removed(blocks, kept);
    forall j, k | 0 <= j < k < |after| ensures after[j].tag != after[k].tag {
      KeepFrom(blocks, kept, |blocks|, j);
      KeepFrom(blocks, kept, |blocks|, k);
    }
  }

  // ---- runs ----

  /// Only the last instruction of a block is a terminator.
  predicate EndsLast(b: Block) { forall k :: 0 <= k < |b.instrs| - 1 ==> !IsTerminator(b.instrs[k].op) }

  /// A block goes where its tail says.
  lemma {:induction false} ExecEnds(w: World, instrs: seq<Instr>, c: Config)
    requires forall k :: 0 <= k < |instrs| - 1 ==> !IsTerminator(instrs[k].op)
    ensures match Exec(w, instrs, c)
      case Falls(_) => instrs == [] || !IsTerminator(instrs[|instrs| - 1].op)
      case Goes(l, _) =>
        && instrs != []
        && var tail := instrs[|instrs| - 1];
           || (tail.op == Jump && tail.args == [LabelName(l)])
           || (tail.op == CondJump && |tail.args| == 3 && (tail.args[1] == LabelName(l) || tail.args[2] == LabelName(l)))
      case _ => true
    decreases instrs
  {
    hide Step;
    if instrs != [] && !IsTerminator(instrs[0].op) {
      match Step(w, instrs[0], c)
      case None =>
      case Some(d) =>
        assert forall k :: 0 <= k < |instrs[1..]| - 1 ==> instrs[1..][k] == instrs[k + 1];
        ExecEnds(w, instrs[1..], d);
        if |instrs| > 1 { assert instrs[1..][|instrs[1..]| - 1] == instrs[|instrs| - 1]; }
    }
  }

  ghost predicate ClosedSet(blocks: seq<Block>, kept: set<nat>) {
    && (blocks != [] ==> 0 in kept)
    && forall i, j :: i in kept && i < |blocks| && j in Successors(blocks, i) ==> j in kept
  }

  /// A label of a block that stays is found where the block went; a label that
  /// no block has is not found before or after.
  lemma FindRemoved(blocks: seq<Block>, kept: set<nat>, l: Label)
    requires DistinctLabels(blocks)
    requires FindLabel(blocks, l) < |blocks| ==> FindLabel(blocks, l) in kept
    ensures FindLabel(blocks, l) < |blocks| ==> FindLabel(Removed(blocks, kept), l) == Rank(kept, FindLabel(blocks, l))
    ensures FindLabel(blocks, l) == |blocks| ==> FindLabel(Removed(blocks, kept), l) == |Removed(blocks, kept)|
  {
    var after := Removed(blocks, kept);
    RemovedDistinct(blocks, kept);
    var i, j := FindLabel(blocks, l), FindLabel(after, l);
    if i < |blocks| {
      KeepAt(blocks, kept, |blocks|, i);
      FindDistinct(after, Rank(kept, i));
    } else {
      forall k | 0 <= k < |after| ensures after[k].tag != l {
        KeepFrom(blocks, kept, |blocks|, k);
      }
    }
  }

  lemma {:induction false} RemovedRun(w: World, blocks: seq<Block>, kept: set<nat>, i: nat, c: Config, fuel: nat)
    requires DistinctLabels(blocks) && ClosedSet(blocks, kept) && forall b :: b in blocks ==> EndsLast(b)
    requires i < |blocks| && i in kept
    ensures RunFrom(w, Removed(blocks, kept), Rank(kept, i), 0, c, fuel) == RunFrom(w, blocks, i, 0, c, fuel)
    decreases fuel
  {
    hide Exec, FindLabel, Keep, DistinctLabels;
    var after := Removed(blocks, kept);
    KeepAt(blocks, kept, |blocks|, i);
    KeepLength(blocks, kept, |blocks|);
    var instrs := blocks[i].instrs;
    assert instrs[0..] == instrs;
    assert EndsLast(blocks[i]);
    ExecEnds(w, instrs, c);
    var e := Exec(w, instrs, c);
    if fuel > 0 && e.Falls? {
      if i + 1 < |blocks| {
        assert i + 1 in Successors(blocks, i);
        RemovedRun(w, blocks, kept, i + 1, e.c, fuel - 1);
      } else {
        assert Rank(kept, i + 1) == |after|;
      }
    } else if fuel > 0 && e.Goes? {
      var j := FindLabel(blocks, e.target);
      if j < |blocks| {
        assert j in Successors(blocks, i);
        FindRemoved(blocks, kept, e.target);
        RemovedRun(w, blocks, kept, j, e.c, fuel - 1);
      } else {
        FindBound(blocks, e.target);
        FindRemoved(blocks, kept, e.target);
      }
    }
  }

  lemma FindBound(blocks: seq<Block>, l: Label)
    ensures FindLabel(blocks, l) <= |blocks|
  {
  }

  /// Removing blocks outside a closed set keeps every run.
  lemma RemovalPreservesRuns(w: World, blocks: seq<Block>, kept: set<nat>, c: Config, fuel: nat)
    requires DistinctLabels(blocks) && ClosedSet(blocks, kept) && forall b :: b in blocks ==> EndsLast(b)
    ensures Run(w, Removed(blocks, kept), c, fuel) == Run(w, blocks, c, fuel)
  {
    if blocks != [] { RemovedRun(w, blocks, kept, 0, c, fuel); }
  }

  lemma ReachableIsClosed(blocks: seq<Block>, kept: set<nat>)
    requires forall i: nat :: i in kept <==> i < |blocks| && Reachable(blocks, i)
    ensures ClosedSet(blocks, kept)
  {
    if blocks != [] { ReachableFirst(blocks); }
    forall i, j | i in kept && i < |blocks| && j in Successors(blocks, i) ensures j in kept {
      ReachableNext(blocks, i, j);
    }
  }
}
