/// Runs of the emitted code, piece by piece: straight-line code, jumps and
/// branches of a final graph that a lowering state is on its way to. A lowering
/// state names a place in the finished function, the end of its current block;
/// `Steps` and `Breaks` say how straight code from one such place to another
/// ends, `Reaches` that a run gets from one place to another through a number
/// of jumps.

module LoweringRuns {
  import opened Mir
  import opened SourceLang
  import opened Lowering
  import opened LoweringShape

  /// A point of a run.
  datatype Spot = Spot(block: nat, at: nat, c: Config)

  function RunAt(w: World, final: seq<Block>, p: Spot, fuel: nat): Outcome {
    RunFrom(w, final, p.block, p.at, p.c, fuel)
  }

  /// The end of the current block of `st`.
  function Here(st: LState, c: Config): Spot
    requires st.cur < |st.blocks|
  {
    Spot(st.cur, |st.blocks[st.cur].instrs|, c)
  }

  /// From `p` the run gets to `q` in `n` block transitions.
  ghost predicate Reaches(w: World, final: seq<Block>, p: Spot, q: Spot, n: nat) {
    && (forall f: nat :: RunAt(w, final, p, f + n) == RunAt(w, final, q, f))
    && (forall f: nat :: f < n ==> RunAt(w, final, p, f).Running?)
  }

  /// From `p` the run is not over within `m` block transitions.
  ghost predicate Lasts(w: World, final: seq<Block>, p: Spot, m: int) {
    forall f: nat :: f < m ==> RunAt(w, final, p, f).Running?
  }

  lemma ReachesTransitive(w: World, final: seq<Block>, p: Spot, q: Spot, r: Spot, n: nat, m: nat)
    requires Reaches(w, final, p, q, n) && Reaches(w, final, q, r, m)
    ensures Reaches(w, final, p, r, n + m)
  {
    hide RunAt;
    forall f: nat ensures RunAt(w, final, p, f + (n + m)) == RunAt(w, final, r, f) {
      assert RunAt(w, final, q, f + m) == RunAt(w, final, r, f);
      assert RunAt(w, final, p, (f + m) + n) == RunAt(w, final, q, f + m);
      assert (f + m) + n == f + (n + m);
    }
    forall f: nat | f < n + m ensures RunAt(w, final, p, f).Running? {
      if f >= n {
        assert RunAt(w, final, p, (f - n) + n) == RunAt(w, final, q, f - n);
      }
    }
  }

  lemma ReachesLasts(w: World, final: seq<Block>, p: Spot, q: Spot, n: nat, m: int)
    requires Reaches(w, final, p, q, n) && Lasts(w, final, q, m)
    ensures Lasts(w, final, p, n + m)
  {
    hide RunAt;
    forall f: nat | f < n + m ensures RunAt(w, final, p, f).Running? {
      if f >= n {
        assert RunAt(w, final, p, (f - n) + n) == RunAt(w, final, q, f - n);
      }
    }
  }

  lemma ReachesEnd(w: World, final: seq<Block>, p: Spot, q: Spot, n: nat, m: nat)
    requires Reaches(w, final, p, q, n)
    ensures RunAt(w, final, p, m + n) == RunAt(w, final, q, m)
  {
  }

  lemma ReachesSelf(w: World, final: seq<Block>, p: Spot)
    ensures Reaches(w, final, p, p, 0)
  {
  }

  // ---- straight-line code ----

  lemma {:induction false} ExecConcat(w: World, a: seq<Instr>, b: seq<Instr>, c: Config)
    requires forall i :: i in a ==> !IsTerminator(i.op)
    ensures Exec(w, a + b, c) == (match Exec(w, a, c) case Falls(c') => Exec(w, b, c') case o => o)
    ensures !Exec(w, a, c).Goes? && !Exec(w, a, c).Returns?
    decreases a
  {
    if a == [] {
      assert a + b == b;
    } else {
      assert a[0] in a;
      assert (a + b)[0] == a[0] && (a + b)[1..] == a[1..] + b;
      match Step(w, a[0], c)
      case None =>
      case Some(c') => ExecConcat(w, a[1..], b, c');
    }
  }

  /// The code between `a` and `b` runs without a fault from `c` to `d`.
  ghost predicate Steps(w: World, a: LState, b: LState, c: Config, d: Config) {
    Straight(a, b) && Exec(w, Code(a, b), c) == Falls(d)
  }

  ghost predicate Breaks(w: World, a: LState, b: LState, c: Config) {
    Straight(a, b) && Exec(w, Code(a, b), c).Faults?
  }

  lemma StepsThenSteps(w: World, a: LState, b: LState, d: LState, c: Config, c1: Config, c2: Config)
    requires Steps(w, a, b, c, c1) && Steps(w, b, d, c1, c2)
    ensures Steps(w, a, d, c, c2)
  {
    hide Exec;
    StraightTransitive(a, b, d);
    ExecConcat(w, Code(a, b), Code(b, d), c);
  }

  lemma StepsThenBreaks(w: World, a: LState, b: LState, d: LState, c: Config, c1: Config)
    requires Steps(w, a, b, c, c1) && Breaks(w, b, d, c1)
    ensures Breaks(w, a, d, c)
  {
    hide Exec;
    StraightTransitive(a, b, d);
    ExecConcat(w, Code(a, b), Code(b, d), c);
  }

  lemma BreaksThen(w: World, a: LState, b: LState, d: LState, c: Config)
    requires Breaks(w, a, b, c) && Straight(b, d)
    ensures Breaks(w, a, d, c)
  {
    hide Exec;
    StraightTransitive(a, b, d);
    ExecConcat(w, Code(a, b), Code(b, d), c);
  }

  /// One emitted instruction.
  lemma EmitRuns(w: World, st: LState, i: Instr, c: Config)
    requires Open(st) && !IsTerminator(i.op)
    ensures Step(w, i, c).None? ==> Breaks(w, st, Emit(st, i), c)
    ensures Step(w, i, c).Some? ==> Steps(w, st, Emit(st, i), c, Step(w, i, c).value)
  {
    hide Straight, Step, Emit, Code;
    EmitStraight(st, i);
    assert [i][1..] == [];
    if Step(w, i, c).Some? {
      assert Exec(w, [], Step(w, i, c).value) == Falls(Step(w, i, c).value);
    }
  }

  lemma PrefixSplit(a: seq<Instr>, b: seq<Instr>, f: seq<Instr>)
    requires a <= b <= f
    ensures f[|a|..] == b[|a|..] + f[|b|..]
  {
  }

  lemma StraightRuns(w: World, final: seq<Block>, a: LState, b: LState, c: Config)
    requires Straight(a, b) && Grows(b.blocks, final)
    ensures forall d :: Steps(w, a, b, c, d) ==> Reaches(w, final, Here(a, c), Here(b, d), 0)
    ensures Breaks(w, a, b, c) ==> forall f: nat :: RunAt(w, final, Here(a, c), f).Faulted?
  {
    hide Exec;
    var i := a.cur;
    assert Continues(b.blocks[i], final[i]);
    var x, y, z := a.blocks[i].instrs, b.blocks[i].instrs, final[i].instrs;
    PrefixSplit(x, y, z);
    ExecConcat(w, Code(a, b), z[|y|..], c);
    if Exec(w, Code(a, b), c).Falls? {
      var d := Exec(w, Code(a, b), c).c;
      forall f: nat ensures RunAt(w, final, Here(a, c), f) == RunAt(w, final, Here(b, d), f) {
      }
    }
  }

  // ---- jumps ----

  lemma CloseRuns(w: World, final: seq<Block>, st: LState, target: nat, c: Config)
    requires Open(st) && target < |st.blocks| && Grows(Close(st, target).blocks, final) && DistinctLabels(final)
    ensures Reaches(w, final, Here(st, c), Spot(target, 0, c), 1)
  {
    var i := st.cur;
    var closed := Close(st, target);
    var jump := JumpTo(st, target);
    var before := st.blocks[i].instrs;
    assert Continues(closed.blocks[i], final[i]) && closed.blocks[i].terminated;
    assert final[i].instrs == before + [jump];
    assert final[i].instrs[|before|..] == [jump];
    assert Exec(w, [jump], c) == Goes(st.blocks[target].tag, c);
    assert Continues(closed.blocks[target], final[target]);
    FindDistinct(final, target);
    hide Exec;
    forall f: nat ensures RunAt(w, final, Here(st, c), f + 1) == RunAt(w, final, Spot(target, 0, c), f) {
    }
    assert RunAt(w, final, Here(st, c), 0).Running?;
  }

  /// Where the branch lands in the final graph.
  lemma BranchLands(final: seq<Block>, st: LState, t: Name, yes: nat, no: nat)
    requires Open(st) && yes < |st.blocks| && no < |st.blocks|
    requires Grows(Emit(st, Branch(st, t, yes, no)).blocks, final) && DistinctLabels(final)
    ensures st.cur < |final| && yes < |final| && no < |final|
    ensures |st.blocks[st.cur].instrs| < |final[st.cur].instrs|
    ensures final[st.cur].instrs[|st.blocks[st.cur].instrs|..] == [Branch(st, t, yes, no)]
    ensures final[yes].tag == st.blocks[yes].tag && final[no].tag == st.blocks[no].tag
    ensures FindLabel(final, final[yes].tag) == yes && FindLabel(final, final[no].tag) == no
  {
    var i := st.cur;
    var branch := Branch(st, t, yes, no);
    var closed := Emit(st, branch);
    assert Continues(closed.blocks[i], final[i]) && closed.blocks[i].terminated;
    assert final[i].instrs == st.blocks[i].instrs + [branch];
    assert Continues(closed.blocks[yes], final[yes]) && Continues(closed.blocks[no], final[no]);
    FindDistinct(final, yes);
    FindDistinct(final, no);
  }

  /// A branch on a register that holds a number; on anything else it faults.
  lemma BranchRuns(w: World, final: seq<Block>, st: LState, t: Name, yes: nat, no: nat, c: Config)
    requires Open(st) && yes < |st.blocks| && no < |st.blocks| && t.Temp?
    requires Grows(Emit(st, Branch(st, t, yes, no)).blocks, final) && DistinctLabels(final)
    ensures t in c.regs && c.regs[t].Num? ==>
      Reaches(w, final, Here(st, c), Spot(if c.regs[t].i != 0 then yes else no, 0, c), 1)
    ensures !(t in c.regs && c.regs[t].Num?) ==> forall f: nat :: RunAt(w, final, Here(st, c), f).Faulted?
  {
    BranchLands(final, st, t, yes, no);
    hide Grows, DistinctLabels, Emit;
    var branch := Branch(st, t, yes, no);
    var e := Exec(w, [branch], c);
    assert e == Terminate(branch, c);
    hide Exec;
    if t in c.regs && c.regs[t].Num? {
      var target := if c.regs[t].i != 0 then yes else no;
      assert e == Goes(final[target].tag, c);
      forall f: nat ensures RunAt(w, final, Here(st, c), f + 1) == RunAt(w, final, Spot(target, 0, c), f) {
      }
      assert RunAt(w, final, Here(st, c), 0).Running?;
    } else {
      assert e == Faults(c);
    }
  }

  lemma ReturnRuns(w: World, final: seq<Block>, st: LState, ty: Ty, args: seq<Name>, c: Config)
    requires Open(st) && |args| <= 1 && (forall n :: n in args ==> n.Temp? && n in c.regs)
    requires Grows(Emit(st, Instr(Return, None, ty, args, "", false)).blocks, final)
    ensures RunAt(w, final, Here(st, c), 0) == Returned(if args == [] then None else Some(c.regs[args[0]]), c.trace)
  {
    var i := st.cur;
    var ret := Instr(Return, None, ty, args, "", false);
    var closed := Emit(st, ret);
    var before := st.blocks[i].instrs;
    assert Continues(closed.blocks[i], final[i]) && closed.blocks[i].terminated;
    assert final[i].instrs[|before|..] == [ret];
    assert Exec(w, [ret], c) == Terminate(ret, c);
  }
}
