/// Dead-value elimination (src/mir_optimizer.cpp:242-280).

module DeadValues {
  import opened Mir

  /// Instructions the pass may drop. Address computations that check a bound stay.
  predicate Pure(i: Instr) {
    i.op in {Alloca, ConstInt, ConstFloat, ConstBool, ConstChar, ConstString, StructInit, FieldAddr, Binary, Compare, Cast, AddressOf}
    || (i.op == Load && !i.flag)
  }

  function UsedIn(instrs: seq<Instr>): set<Name> { set i, a | i in instrs && a in i.args :: a }

  function Used(blocks: seq<Block>): set<Name> { set b, a | b in blocks && a in UsedIn(b.instrs) :: a }

  predicate Dead(i: Instr, used: set<Name>) { i.result.Some? && i.result.value !in used && Pure(i) }

  function Sweep(instrs: seq<Instr>, used: set<Name>): (r: seq<Instr>)
    ensures |r| <= |instrs| && (|r| == |instrs| ==> r == instrs)
    ensures forall i :: i in r <==> i in instrs && !Dead(i, used)
    decreases instrs
  {
    if instrs == [] then []
    else if Dead(instrs[0], used) then Sweep(instrs[1..], used)
    else [instrs[0]] + Sweep(instrs[1..], used)
  }

  function SweepAll(blocks: seq<Block>, used: set<Name>): (r: seq<Block>)
    ensures |r| == |blocks| && forall i :: 0 <= i < |blocks| ==> r[i] == blocks[i].(instrs := Sweep(blocks[i].instrs, used))
    decreases blocks
  {
    if blocks == [] then [] else [blocks[0].(instrs := Sweep(blocks[0].instrs, used))] + SweepAll(blocks[1..], used)
  }

  function Size(blocks: seq<Block>): nat
    decreases blocks
  {
    if blocks == [] then 0 else |blocks[0].instrs| + Size(blocks[1..])
  }

  lemma {:induction false} SweepShrinks(blocks: seq<Block>, used: set<Name>)
    ensures Size(SweepAll(blocks, used)) <= Size(blocks)
    ensures Size(SweepAll(blocks, used)) == Size(blocks) ==> SweepAll(blocks, used) == blocks
    decreases blocks
  {
    if blocks != [] {
      SweepShrinks(blocks[1..], used);
      assert SweepAll(blocks, used)[1..] == SweepAll(blocks[1..], used);
    }
  }

  /// Rounds until nothing changes; each round that changes anything shrinks the code.
  function Eliminate(blocks: seq<Block>): seq<Block>
    decreases Size(blocks)
  {
    var next := SweepAll(blocks, Used(blocks));
    SweepShrinks(blocks, Used(blocks));
    if next == blocks then blocks else Eliminate(next)
  }

  /// Nothing is left to drop.
  lemma {:induction false} EliminateIsClean(blocks: seq<Block>)
    ensures forall b, i :: b in Eliminate(blocks) && i in b.instrs ==> !Dead(i, Used(Eliminate(blocks)))
    decreases Size(blocks)
  {
    hide Dead, Used;
    var next := SweepAll(blocks, Used(blocks));
    SweepShrinks(blocks, Used(blocks));
    if next == blocks {
      forall b, i | b in blocks && i in b.instrs ensures !Dead(i, Used(blocks)) {
        var k :| 0 <= k < |blocks| && blocks[k] == b;
        assert next[k].instrs == Sweep(b.instrs, Used(blocks));
      }
    } else {
      EliminateIsClean(next);
    }
  }

  // ---- runs ----

  /// The runs agree on every name that is used.
  ghost predicate Agree(c: Config, d: Config, used: set<Name>) {
    && c.mem == d.mem && c.trace == d.trace
    && forall n :: n in used ==> (n in c.regs <==> n in d.regs) && (n in c.regs ==> c.regs[n] == d.regs[n])
  }

  ghost predicate SameEnding(e: Ending, f: Ending, used: set<Name>) {
    match (e, f)
    case (Falls(c), Falls(d)) => Agree(c, d, used)
    case (Goes(l, c), Goes(m, d)) => l == m && Agree(c, d, used)
    case (Returns(v, c), Returns(u, d)) => v == u && c.trace == d.trace
    case _ => false
  }

  lemma {:induction false} OperandsSame(args: seq<Name>, c: Config, d: Config, used: set<Name>)
    requires Agree(c, d, used) && forall a :: a in args ==> a in used
    ensures Operands(args, c.regs) == Operands(args, d.regs)
    decreases args
  {
    hide Agree;
    if args != [] {
      assert args[0] in args;
      OperandSame(args[0], c, d, used);
      OperandsSame(args[1..], c, d, used);
    }
  }

  lemma OperandSame(a: Name, c: Config, d: Config, used: set<Name>)
    requires Agree(c, d, used) && a in used
    ensures Operand(a, c.regs) == Operand(a, d.regs)
  {
  }

  lemma KeepStep(w: World, i: Instr, c: Config, d: Config, used: set<Name>)
    requires Agree(c, d, used) && !IsTerminator(i.op) && forall a :: a in i.args ==> a in used
    ensures Step(w, i, c).None? <==> Step(w, i, d).None?
    ensures Step(w, i, c).Some? ==> Agree(Step(w, i, c).value, Step(w, i, d).value, used)
  {
    OperandsSame(i.args, c, d, used);
    hide Operands;
  }

  /// A dropped instruction changes no memory, no trace and no name that is used.
  lemma DropStep(w: World, i: Instr, c: Config, d: Config, used: set<Name>)
    requires Agree(c, d, used) && Dead(i, used) && Step(w, i, c).Some?
    ensures Agree(Step(w, i, c).value, d, used)
  {
  }

  lemma TerminateSame(i: Instr, c: Config, d: Config, used: set<Name>)
    requires Agree(c, d, used) && IsTerminator(i.op) && forall a :: a in i.args ==> a in used
    requires !Terminate(i, c).Faults?
    ensures SameEnding(Terminate(i, c), Terminate(i, d), used)
  {
    if i.args != [] { OperandSame(i.args[0], c, d, used); }
  }

  lemma {:induction false} SweepExec(w: World, instrs: seq<Instr>, c: Config, d: Config, used: set<Name>)
    requires UsedIn(instrs) <= used && Agree(c, d, used) && !Exec(w, instrs, c).Faults?
    ensures SameEnding(Exec(w, instrs, c), Exec(w, Sweep(instrs, used), d), used)
    decreases instrs
  {
    hide Step, Agree, Dead, Terminate;
    if instrs != [] {
      var i := instrs[0];
      var rest := Sweep(instrs[1..], used);
      assert i in instrs;
      assert forall a :: a in i.args ==> a in UsedIn(instrs);
      assert UsedIn(instrs[1..]) <= UsedIn(instrs);
      if Dead(i, used) {
        DeadRuns(i, used);
        DropStep(w, i, c, d, used);
        SweepExec(w, instrs[1..], Step(w, i, c).value, d, used);
      } else {
        assert ([i] + rest)[1..] == rest;
        if IsTerminator(i.op) {
          TerminateSame(i, c, d, used);
        } else {
          KeepStep(w, i, c, d, used);
          SweepExec(w, instrs[1..], Step(w, i, c).value, Step(w, i, d).value, used);
        }
      }
    }
  }

  lemma DeadRuns(i: Instr, used: set<Name>)
    requires Dead(i, used)
    ensures !IsTerminator(i.op)
  {
  }

  lemma FindSwept(blocks: seq<Block>, used: set<Name>, l: Label)
    ensures FindLabel(SweepAll(blocks, used), l) == FindLabel(blocks, l)
  {
    assert forall k :: 0 <= k < |blocks| ==> SweepAll(blocks, used)[k].tag == blocks[k].tag;
  }

  lemma {:induction false} SweepRun(w: World, blocks: seq<Block>, used: set<Name>, i: nat, c: Config, d: Config, fuel: nat)
    requires Used(blocks) <= used && Agree(c, d, used) && !RunFrom(w, blocks, i, 0, c, fuel).Faulted?
    ensures RunFrom(w, SweepAll(blocks, used), i, 0, d, fuel) == RunFrom(w, blocks, i, 0, c, fuel)
    decreases fuel
  {
    hide Agree, Exec, Sweep, SweepAll, Used, UsedIn, FindLabel;
    var after := SweepAll(blocks, used);
    var instrs := blocks[i].instrs;
    UsedBlock(blocks, i);
    assert instrs[0..] == instrs && after[i].instrs[0..] == after[i].instrs;
    SweepExec(w, instrs, c, d, used);
    var e, f := Exec(w, instrs, c), Exec(w, after[i].instrs, d);
    SameTrace(e, f, used);
    hide SameEnding;
    SameKind(e, f, used);
    if fuel > 0 {
      if e.Falls? {
        SweepRun(w, blocks, used, i + 1, e.c, f.c, fuel - 1);
      } else if e.Goes? {
        FindSwept(blocks, used, e.target);
        SweepRun(w, blocks, used, FindLabel(blocks, e.target), e.c, f.c, fuel - 1);
      }
    }
  }

  lemma UsedBlock(blocks: seq<Block>, i: nat)
    requires i < |blocks|
    ensures UsedIn(blocks[i].instrs) <= Used(blocks)
  {
    assert blocks[i] in blocks;
  }

  lemma SameKind(e: Ending, f: Ending, used: set<Name>)
    requires SameEnding(e, f, used)
    ensures e.Falls? ==> f.Falls? && Agree(e.c, f.c, used)
    ensures e.Goes? ==> f.Goes? && f.target == e.target && Agree(e.c, f.c, used)
    ensures e.Returns? ==> f.Returns? && f.value == e.value
    ensures !e.Faults?
  {
  }

  lemma SameTrace(e: Ending, f: Ending, used: set<Name>)
    requires SameEnding(e, f, used)
    ensures e.c.trace == f.c.trace
  {
  }

  /// Dead-value elimination keeps every run that does not fault: the same
  /// effects in the same order and the same result, step for step.
  lemma {:induction false} EliminationPreservesRuns(w: World, blocks: seq<Block>, c: Config, fuel: nat)
    requires !Run(w, blocks, c, fuel).Faulted?
    ensures Run(w, Eliminate(blocks), c, fuel) == Run(w, blocks, c, fuel)
    decreases Size(blocks)
  {
    hide Agree, Used, RunFrom;
    var next := SweepAll(blocks, Used(blocks));
    SweepShrinks(blocks, Used(blocks));
    AgreeSelf(c, Used(blocks));
    SweepRun(w, blocks, Used(blocks), 0, c, c, fuel);
    if next != blocks { EliminationPreservesRuns(w, next, c, fuel); }
  }

  lemma AgreeSelf(c: Config, used: set<Name>)
    ensures Agree(c, c, used)
  {
  }

  /// So a run that faults afterwards faulted before.
  lemma NoNewFaults(w: World, blocks: seq<Block>, c: Config, fuel: nat)
    requires Run(w, Eliminate(blocks), c, fuel).Faulted?
    ensures Run(w, blocks, c, fuel).Faulted?
  {
    if !Run(w, blocks, c, fuel).Faulted? { EliminationPreservesRuns(w, blocks, c, fuel); }
  }
}
