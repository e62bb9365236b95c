/// From source to optimized code, at every level.

module CompilePipeline {
  import opened Mir
  import opened SourceLang
  import L = Lowering
  import opened LoweringCorrect
  import opened LoweringSound
  import opened LoweringSsa
  import opened LoweringTheorem
  import opened LoweringLocal
  import R = ReachableBlocks
  import F = ForwardLoads
  import C = ConstantFold
  import M = MirStages

  ghost function Compiled(f: Function, level: int): seq<Block> { M.Stages(L.LowerFunction(f).blocks, level) }

  lemma SoundEndsLast(b: Block, blocks: seq<Block>)
    requires SoundBlock(b, blocks)
    ensures R.EndsLast(b)
  {
    hide SoundEnd;
  }

  /// Lowered code meets what the passes ask.
  lemma LoweredCodeIsOptimizable(f: Function)
    requires !L.LowerFunction(f).err && FitsSeq(f.body)
    ensures M.Optimizable(L.LowerFunction(f).blocks)
  {
    hide L.LowerFunction, SoundBlock, F.Suits, F.LocalLoads, R.EndsLast, M.Tidy, FitsSeq;
    GraphIsWellFormed(f);
    LoweredCodeSuits(f);
    LoweredCodeIsLocal(f);
    var blocks := L.LowerFunction(f).blocks;
    forall b | b in blocks ensures R.EndsLast(b) && forall i :: i in b.instrs ==> M.Tidy(i) {
      var k :| 0 <= k < |blocks| && blocks[k] == b;
      SoundEndsLast(b, blocks);
    }
  }

  /// The conditions are on the source: 64-bit types or `bool`, literals and
  /// operators the folder reads right, and no `for` that ends at a bare variable.
  /// A function whose source returns a value then compiles, at every level, to code
  /// that returns it; one that runs forever, to code that runs forever; and
  /// compiled code faults only where the source does.
  lemma OptimizedCodeMeansSource(w: World, f: Function, level: int, args: map<string, Value>, c: Config)
    requires Applied(f, args, c) && ClearSeq(f.body, {}, false) && FitsSeq(f.body) && !L.LowerFunction(f).err
    requires F.Quiet(w) && C.Machine(w)
    ensures forall v :: SourceReturns(w, f, args, v) ==> CodeReturns(w, Compiled(f, level), c, v)
    ensures SourceDiverges(w, f, args) ==> CodeDiverges(w, Compiled(f, level), c)
    ensures CodeFaults(w, Compiled(f, level), c) ==> SourceFaults(w, f, args)
  {
    hide L.LowerFunction, Run, M.Optimizable, M.Stages, F.Quiet, C.Machine, ClearSeq, FitsSeq, Applied, SourceReturns, SourceDiverges, SourceFaults;
    var blocks := L.LowerFunction(f).blocks;
    LoweringPreservesMeaning(w, f, args, c);
    LoweredCodeIsOptimizable(f);
    forall v | SourceReturns(w, f, args, v) ensures CodeReturns(w, Compiled(f, level), c, v) {
      var n: nat :| Run(w, blocks, c, n).Returned? && Run(w, blocks, c, n).value == v;
      M.StagesPreserveRuns(w, blocks, level, c, n);
    }
    if SourceDiverges(w, f, args) {
      forall n: nat ensures Run(w, Compiled(f, level), c, n).Running? {
        M.StagesPreserveRuns(w, blocks, level, c, n);
      }
    }
    if CodeFaults(w, Compiled(f, level), c) && !CodeFaults(w, blocks, c) {
      var n: nat :| Run(w, Compiled(f, level), c, n).Faulted?;
      M.StagesPreserveRuns(w, blocks, level, c, n);
    }
  }
}
