/// Load forwarding (`forward_local_loads`, src/mir_optimizer.cpp:58-112): a load
/// from a slot whose value is known in the block is dropped and its result
/// renamed to that value. Runs are unchanged when temporaries are assigned once
/// and a dropped load's result is used in its own block only; the second
/// condition is needed, as a two-block program shows that reads the result of a
/// dropped load in the block after.

module ForwardLoads {
  import opened Mir

  /// What is known inside a block: the name of the value in each slot, and the
  /// name that stands for the result of each dropped load.
  datatype Tables = Tables(slots: map<Name, Name>, aliases: map<Name, Name>)

  const DEPTH: nat := 32

  function Resolve(aliases: map<Name, Name>, v: Name, depth: nat): Name
    decreases depth
  {
    if depth == 0 || v !in aliases || aliases[v] == v then v else Resolve(aliases, aliases[v], depth - 1)
  }

  function ResolveAll(aliases: map<Name, Name>, args: seq<Name>): (r: seq<Name>)
    ensures |r| == |args| && forall k :: 0 <= k < |args| ==> r[k] == Resolve(aliases, args[k], DEPTH)
  {
    if args == [] then [] else [Resolve(aliases, args[0], DEPTH)] + ResolveAll(aliases, args[1..])
  }

  function Rewrite(i: Instr, t: Tables): Instr { i.(args := ResolveAll(t.aliases, i.args)) }

  /// A plain load from a slot whose value is known (`i` is rewritten already).
  predicate Drops(i: Instr, t: Tables) { i.op == Load && !i.flag && i.args != [] && i.args[0] in t.slots }

  predicate Clobbers(i: Instr) {
    i.op == Call || i.op == InlineAsm || i.op == AtomicRmw || i.op == Fence || i.op == CompilerFence
    || (i.op == Load && i.flag) || (i.op == Store && i.flag)
  }

  function After(i: Instr, t: Tables): Tables {
    if Drops(i, t) then
      if i.result.None? then t
      else t.(aliases := t.aliases[i.result.value := Resolve(t.aliases, t.slots[i.args[0]], DEPTH)])
    else if i.op == Store && !i.flag && |i.args| >= 2 then
      t.(slots := if i.args[1].Slot? then t.slots[i.args[1] := i.args[0]] else map[])
    else if i.op == AddressOf then
      if i.args == [] then t else t.(slots := t.slots - {i.args[0]})
    else if Clobbers(i) then t.(slots := map[])
    else t
  }

  function Forward(instrs: seq<Instr>, t: Tables): seq<Instr>
    decreases instrs
  {
    if instrs == [] then []
    else
      var i := Rewrite(instrs[0], t);
      (if Drops(i, t) then [] else [i]) + Forward(instrs[1..], After(i, t))
  }

  const Nothing: Tables := Tables(map[], map[])

  function ForwardBlock(b: Block): Block { b.(instrs := Forward(b.instrs, Nothing)) }

  function ForwardAll(blocks: seq<Block>): (r: seq<Block>)
    ensures |r| == |blocks| && forall i :: 0 <= i < |blocks| ==> r[i] == ForwardBlock(blocks[i])
  {
    if blocks == [] then [] else [ForwardBlock(blocks[0])] + ForwardAll(blocks[1..])
  }

  // ---- what the pass relies on ----

  /// In a block a name is assigned once, and not after it was used. Loads have
  /// one operand and put their result in a temporary.
  ghost predicate SingleAssignment(instrs: seq<Instr>) {
    && (forall k, j :: 0 <= k < j < |instrs| && instrs[j].result.Some? ==>
      instrs[j].result != instrs[k].result && instrs[j].result.value !in instrs[k].args)
    && (forall k :: 0 <= k < |instrs| && instrs[k].result.Some? ==> instrs[k].result.value !in instrs[k].args)
    && (forall k :: 0 <= k < |instrs| && instrs[k].op == Load ==>
      |instrs[k].args| <= 1 && (instrs[k].result.Some? ==> instrs[k].result.value.Temp?))
  }

  /// Jumps name their targets.
  predicate Targeted(i: Instr) {
    && (i.op == Jump ==> |i.args| == 1 && i.args[0].LabelName?)
    && (i.op == CondJump ==> |i.args| == 3 && i.args[1].LabelName? && i.args[2].LabelName?)
  }

  /// Awaits and drops leave local slots alone.
  ghost predicate Quiet(w: World) {
    forall trace: seq<Event>, m: Mem ::
      trace != [] && (trace[|trace| - 1].op == Await || trace[|trace| - 1].op == Drop) ==> w.respond(trace, m).1.slots == m.slots
  }

  /// The results of the loads that are dropped.
  function Dropped(instrs: seq<Instr>, t: Tables): set<Name>
    decreases instrs
  {
    if instrs == [] then {}
    else
      var i := Rewrite(instrs[0], t);
      (if Drops(i, t) && i.result.Some? then {i.result.value} else {}) + Dropped(instrs[1..], After(i, t))
  }

  function DroppedAll(blocks: seq<Block>): (r: set<Name>)
    ensures forall i :: 0 <= i < |blocks| ==> Dropped(blocks[i].instrs, Nothing) <= r
  {
    if blocks == [] then {} else Dropped(blocks[0].instrs, Nothing) + DroppedAll(blocks[1..])
  }

  /// No instruction that is left uses a name of `gone`.
  predicate Closed(instrs: seq<Instr>, gone: set<Name>) {
    forall i, a :: i in instrs && a in i.args ==> a !in gone
  }

  predicate ClosedAll(blocks: seq<Block>, gone: set<Name>) {
    forall b :: b in blocks ==> Closed(b.instrs, gone)
  }

  function ArgsIn(instrs: seq<Instr>): set<Name> { set i, a | i in instrs && a in i.args :: a }

  predicate LoadOf(i: Instr, r: Name) { i.op == Load && !i.flag && i.result == Some(r) }

  ghost predicate Loaded(instrs: seq<Instr>, r: Name) { exists i :: i in instrs && LoadOf(i, r) }

  /// The result of a dropped load is used in its own block only.
  ghost predicate DroppedLocal(blocks: seq<Block>) {
    forall k, j, r | 0 <= k < |blocks| && 0 <= j < |blocks| && k != j && r in Dropped(blocks[k].instrs, Nothing) ::
      r !in ArgsIn(blocks[j].instrs)
  }

  /// The result of any plain load is.
  ghost predicate LocalLoads(blocks: seq<Block>) {
    forall k, j, r | 0 <= k < |blocks| && 0 <= j < |blocks| && k != j && Loaded(blocks[k].instrs, r) ::
      r !in ArgsIn(blocks[j].instrs)
  }

  // ---- one block ----

  /// Names the tables speak of.
  ghost predicate Fresh(n: Name, t: Tables) {
    && n !in t.aliases
    && (forall r :: r in t.aliases ==> t.aliases[r] != n)
    && (forall s :: s in t.slots ==> t.slots[s] != n)
  }

  /// The two runs agree but for `gone`, and the tables tell the truth.
  ghost predicate Agree(c: Config, d: Config, t: Tables, gone: set<Name>) {
    && c.mem == d.mem && c.trace == d.trace
    && (forall n: Name :: n !in gone ==> (n in c.regs <==> n in d.regs) && (n in c.regs ==> c.regs[n] == d.regs[n]))
    && (forall r :: r in t.aliases ==>
      r.Temp? && r in gone && r in c.regs && t.aliases[r] !in t.aliases && Operand(t.aliases[r], d.regs) == Some(c.regs[r]))
    && (forall s :: s in t.slots ==>
      s.Slot? && s in c.mem.slots && t.slots[s] !in t.aliases && Operand(t.slots[s], d.regs) == Some(c.mem.slots[s]))
  }

  /// Aliases are resolved when they are inserted, so one step resolves fully.
  lemma ResolveOnce(c: Config, d: Config, t: Tables, gone: set<Name>, a: Name)
    requires Agree(c, d, t, gone)
    ensures Resolve(t.aliases, a, DEPTH) == (if a in t.aliases then t.aliases[a] else a)
    ensures Resolve(t.aliases, a, DEPTH) !in t.aliases
  {
    if a in t.aliases {
      assert Resolve(t.aliases, t.aliases[a], DEPTH - 1) == t.aliases[a];
    }
  }

  lemma OperandSame(c: Config, d: Config, t: Tables, gone: set<Name>, a: Name)
    requires Agree(c, d, t, gone) && Resolve(t.aliases, a, DEPTH) !in gone
    ensures Operand(Resolve(t.aliases, a, DEPTH), d.regs) == Operand(a, c.regs)
  {
    ResolveOnce(c, d, t, gone, a);
  }

  lemma {:induction false} OperandsSame(c: Config, d: Config, t: Tables, gone: set<Name>, args: seq<Name>)
    requires Agree(c, d, t, gone) && forall a :: a in ResolveAll(t.aliases, args) ==> a !in gone
    ensures Operands(ResolveAll(t.aliases, args), d.regs) == Operands(args, c.regs)
    decreases args
  {
    hide Agree;
    var r := ResolveAll(t.aliases, args);
    if args != [] {
      assert r[0] in r;
      OperandSame(c, d, t, gone, args[0]);
      assert r[1..] == ResolveAll(t.aliases, args[1..]);
      OperandsSame(c, d, t, gone, args[1..]);
    }
  }

  /// A load that is dropped: the run without it already agrees.
  lemma DropStep(w: World, i: Instr, t: Tables, c: Config, d: Config, gone: set<Name>)
    requires Agree(c, d, t, gone) && Drops(Rewrite(i, t), t) && |i.args| <= 1
    requires i.result.Some? ==> i.result.value.Temp? && i.result.value in gone && Fresh(i.result.value, t)
    ensures Step(w, i, c).Some? && Agree(Step(w, i, c).value, d, After(Rewrite(i, t), t), gone)
  {
    var a := i.args[0];
    ResolveOnce(c, d, t, gone, a);
    var s := Resolve(t.aliases, a, DEPTH);
    assert Operand(a, c.regs) == Some(SlotPtr(s));
    assert i.args == [a];
    OneOperand(a, c.regs);
    ResolveOnce(c, d, t, gone, t.slots[s]);
  }

  lemma OneOperand(a: Name, regs: Regs)
    requires Operand(a, regs).Some?
    ensures Operands([a], regs) == Some([Operand(a, regs).value])
  {
    assert [a][1..] == [];
    assert [Operand(a, regs).value] + [] == [Operand(a, regs).value];
  }

  /// The same value into the same register.
  lemma SetAgrees(c: Config, d: Config, t: Tables, gone: set<Name>, result: Option<Name>, v: Value)
    requires Agree(c, d, t, gone) && (result.Some? ==> Fresh(result.value, t))
    ensures Agree(c.(regs := SetResult(result, v, c.regs)), d.(regs := SetResult(result, v, d.regs)), t, gone)
  {
  }

  /// Less is known.
  lemma ForgetAgrees(c: Config, d: Config, t: Tables, gone: set<Name>, known: map<Name, Name>)
    requires Agree(c, d, t, gone) && forall s :: s in known ==> s in t.slots && known[s] == t.slots[s]
    ensures Agree(c, d, t.(slots := known), gone)
  {
  }

  /// The same change of memory, slots untouched or forgotten.
  lemma MemAgrees(c: Config, d: Config, t: Tables, gone: set<Name>, m: Mem, trace: seq<Event>)
    requires Agree(c, d, t, gone) && (t.slots == map[] || m.slots == c.mem.slots)
    ensures Agree(Config(c.regs, m, trace), Config(d.regs, m, trace), t, gone)
  {
  }

  lemma ValueStep(w: World, i: Instr, t: Tables, c: Config, d: Config, gone: set<Name>)
    requires Agree(c, d, t, gone) && !Drops(Rewrite(i, t), t) && (IsValueOp(i.op) || (i.op == Load && !i.flag))
    requires Operands(i.args, c.regs) == Operands(Rewrite(i, t).args, d.regs)
    requires i.result.Some? ==> Fresh(i.result.value, t)
    ensures Step(w, i, c).None? <==> Step(w, Rewrite(i, t), d).None?
    ensures Step(w, i, c).Some? ==> Agree(Step(w, i, c).value, Step(w, Rewrite(i, t), d).value, After(Rewrite(i, t), t), gone)
  {
    hide Operands, Resolve, ResolveAll, Agree, Fresh;
    AgreeMem(c, d, t, gone);
    if Step(w, i, c).Some? {
      var vs := Operands(i.args, c.regs).value;
      var v := if i.op == Load then ReadMem(w, c.mem, vs[0]).value else w.apply(i.op, i.ty, i.text, vs).value;
      SetAgrees(c, d, t, gone, i.result, v);
      ForgetAgrees(Step(w, i, c).value, Step(w, Rewrite(i, t), d).value, t, gone, After(Rewrite(i, t), t).slots);
    }
  }

  lemma AgreeMem(c: Config, d: Config, t: Tables, gone: set<Name>)
    requires Agree(c, d, t, gone)
    ensures c.mem == d.mem && c.trace == d.trace
  {
  }

  lemma WorldStep(w: World, i: Instr, t: Tables, c: Config, d: Config, gone: set<Name>)
    requires Agree(c, d, t, gone) && Quiet(w) && (Clobbers(i) || i.op == Await || i.op == Drop)
    requires Operands(i.args, c.regs) == Operands(Rewrite(i, t).args, d.regs)
    requires i.result.Some? ==> Fresh(i.result.value, t)
    ensures Step(w, i, c).None? <==> Step(w, Rewrite(i, t), d).None?
    ensures Step(w, i, c).Some? ==> Agree(Step(w, i, c).value, Step(w, Rewrite(i, t), d).value, After(Rewrite(i, t), t), gone)
  {
    hide Operands, Resolve, ResolveAll, Agree, Fresh;
    AgreeMem(c, d, t, gone);
    if Operands(i.args, c.regs).Some? {
      var trace := c.trace + [Event(i.op, i.text, Operands(i.args, c.regs).value)];
      assert trace[|trace| - 1].op == i.op;
      var answer := w.respond(trace, c.mem);
      SetAgrees(c, d, t, gone, i.result, answer.0);
      var c1, d1 := c.(regs := SetResult(i.result, answer.0, c.regs)), d.(regs := SetResult(i.result, answer.0, d.regs));
      var known := if Clobbers(i) then map[] else t.slots;
      ForgetAgrees(c1, d1, t, gone, known);
      MemAgrees(c1, d1, t.(slots := known), gone, answer.1, trace);
    }
  }

  /// An instruction that stays faults in neither run or in both.
  lemma KeepStep(w: World, i: Instr, t: Tables, c: Config, d: Config, gone: set<Name>)
    requires Agree(c, d, t, gone) && !IsTerminator(i.op) && !Drops(Rewrite(i, t), t) && Quiet(w)
    requires forall a :: a in Rewrite(i, t).args ==> a !in gone
    requires i.result.Some? ==> Fresh(i.result.value, t)
    ensures Step(w, i, c).None? <==> Step(w, Rewrite(i, t), d).None?
    ensures Step(w, i, c).Some? ==> Agree(Step(w, i, c).value, Step(w, Rewrite(i, t), d).value, After(Rewrite(i, t), t), gone)
  {
    hide Agree, Resolve, ResolveAll, Operands, Fresh, Quiet;
    OperandsSame(c, d, t, gone, i.args);
    if IsValueOp(i.op) || (i.op == Load && !i.flag) {
      ValueStep(w, i, t, c, d, gone);
    } else if i.op == Store && !i.flag {
      if Operands(i.args, c.regs).Some? {
        OperandsLength(i.args, c.regs);
        if |i.args| >= 2 { StoreStep(w, i, t, c, d, gone, Operands(i.args, c.regs).value); }
      }
    } else if Clobbers(i) || i.op == Await || i.op == Drop {
      WorldStep(w, i, t, c, d, gone);
    } else {
      assert i.op == Alloca;
    }
  }

  lemma {:induction false} OperandsLength(args: seq<Name>, regs: Regs)
    requires Operands(args, regs).Some?
    ensures |Operands(args, regs).value| == |args|
    ensures forall k :: 0 <= k < |args| ==> Operand(args[k], regs) == Some(Operands(args, regs).value[k])
    decreases args
  {
    if args != [] { OperandsLength(args[1..], regs); }
  }

  lemma StoreStep(w: World, i: Instr, t: Tables, c: Config, d: Config, gone: set<Name>, vs: seq<Value>)
    requires Agree(c, d, t, gone) && i.op == Store && !i.flag && |i.args| >= 2
    requires Operands(i.args, c.regs) == Some(vs) && Operands(Rewrite(i, t).args, d.regs) == Some(vs)
    requires |vs| == |i.args|
    ensures Agree(Step(w, i, c).value, Step(w, Rewrite(i, t), d).value, After(Rewrite(i, t), t), gone)
  {
    var r := Rewrite(i, t);
    OperandsLength(r.args, d.regs);
    ResolveOnce(c, d, t, gone, i.args[0]);
    assert Operand(r.args[0], d.regs) == Some(vs[0]) && Operand(r.args[1], d.regs) == Some(vs[1]);
    hide Operands, Resolve;
  }

  /// Names used so far: the tables speak of no others.
  ghost predicate Within(t: Tables, used: set<Name>) {
    && (forall r :: r in t.aliases ==> r in used && t.aliases[r] in used)
    && (forall s :: s in t.slots ==> t.slots[s] in used)
  }

  ghost predicate ResultsApart(instrs: seq<Instr>, used: set<Name>) {
    forall k :: 0 <= k < |instrs| && instrs[k].result.Some? ==> instrs[k].result.value !in used
  }

  function NamesOf(i: Instr): set<Name> {
    (set a | a in i.args) + (if i.result.Some? then {i.result.value} else {})
  }

  lemma ResolveWithin(t: Tables, used: set<Name>, args: seq<Name>)
    requires Within(t, used)
    ensures forall a :: a in ResolveAll(t.aliases, args) ==> a in used || a in args
  {
    forall k | 0 <= k < |args| ensures Resolve(t.aliases, args[k], DEPTH) in used || Resolve(t.aliases, args[k], DEPTH) in args {
      ResolveIn(t, used, args[k], DEPTH);
    }
  }

  lemma {:induction false} ResolveIn(t: Tables, used: set<Name>, a: Name, depth: nat)
    requires Within(t, used)
    ensures Resolve(t.aliases, a, depth) == a || Resolve(t.aliases, a, depth) in used
    decreases depth
  {
    if depth > 0 && a in t.aliases && t.aliases[a] != a { ResolveIn(t, used, t.aliases[a], depth - 1); }
  }

  lemma AfterWithin(i: Instr, t: Tables, used: set<Name>)
    requires Within(t, used)
    ensures Within(After(Rewrite(i, t), t), used + NamesOf(i))
  {
    ResolveWithin(t, used, i.args);
    var r := Rewrite(i, t);
    if Drops(r, t) {
      ResolveIn(t, used, t.slots[r.args[0]], DEPTH);
    } else if i.op == Store && !i.flag && |i.args| >= 2 {
      assert r.args[0] in r.args;
    }
  }

  lemma NextApart(instrs: seq<Instr>, used: set<Name>)
    requires instrs != [] && SingleAssignment(instrs) && ResultsApart(instrs, used)
    ensures SingleAssignment(instrs[1..]) && ResultsApart(instrs[1..], used + NamesOf(instrs[0]))
    ensures instrs[0].result.Some? ==> instrs[0].result.value !in used + (set a | a in instrs[0].args)
  {
    forall k | 0 <= k < |instrs[1..]| && instrs[1..][k].result.Some?
      ensures instrs[1..][k].result.value !in used + NamesOf(instrs[0])
    {
      assert instrs[1..][k] == instrs[k + 1];
    }
    forall k, j | 0 <= k < j < |instrs[1..]| && instrs[1..][j].result.Some?
      ensures instrs[1..][j].result != instrs[1..][k].result && instrs[1..][j].result.value !in instrs[1..][k].args
    {
      assert instrs[1..][j] == instrs[j + 1] && instrs[1..][k] == instrs[k + 1];
    }
  }

  /// Two endings that the rest of the run cannot tell apart.
  ghost predicate SameEnding(e: Ending, f: Ending, gone: set<Name>) {
    match (e, f)
    case (Falls(c), Falls(d)) => Agree(c, d, Nothing, gone)
    case (Goes(l, c), Goes(m, d)) => l == m && Agree(c, d, Nothing, gone)
    case (Returns(v, c), Returns(u, d)) => v == u && c.trace == d.trace
    case (Faults(c), Faults(d)) => c.trace == d.trace
    case _ => false
  }

  lemma AgreeNothing(c: Config, d: Config, t: Tables, gone: set<Name>)
    requires Agree(c, d, t, gone)
    ensures Agree(c, d, Nothing, gone)
  {
  }

  lemma TerminateSame(i: Instr, t: Tables, c: Config, d: Config, gone: set<Name>)
    requires IsTerminator(i.op) && Targeted(i) && Agree(c, d, t, gone)
    requires forall a :: a in Rewrite(i, t).args ==> a !in gone
    ensures SameEnding(Terminate(i, c), Terminate(Rewrite(i, t), d), gone)
  {
    hide Resolve;
    AgreeNothing(c, d, t, gone);
    var r := Rewrite(i, t);
    forall k | 0 <= k < |i.args|
      ensures Operand(r.args[k], d.regs) == Operand(i.args[k], c.regs)
      ensures i.args[k].LabelName? ==> r.args[k] == i.args[k]
    {
      assert r.args[k] in r.args;
      OperandSame(c, d, t, gone, i.args[k]);
      ResolveOnce(c, d, t, gone, i.args[k]);
    }
    AgreeMem(c, d, t, gone);
    hide Agree, ResolveAll;
  }

  /// Running the rest of a block with and without its dropped loads.
  lemma {:induction false} ForwardExec(w: World, instrs: seq<Instr>, t: Tables, used: set<Name>, c: Config, d: Config, gone: set<Name>)
    requires Quiet(w) && SingleAssignment(instrs) && ResultsApart(instrs, used) && Within(t, used)
    requires forall k :: 0 <= k < |instrs| ==> Targeted(instrs[k])
    requires Closed(Forward(instrs, t), gone) && Dropped(instrs, t) <= gone && Agree(c, d, t, gone)
    ensures SameEnding(Exec(w, instrs, c), Exec(w, Forward(instrs, t), d), gone)
    decreases instrs
  {
    hide Agree, Quiet, Step, Within, After, SingleAssignment, ResultsApart, Resolve, ResolveAll, Targeted;
    AgreeMem(c, d, t, gone);
    if instrs == [] {
      AgreeNothing(c, d, t, gone);
    } else {
      var i := instrs[0];
      var r := Rewrite(i, t);
      var t' := After(r, t);
      var rest := Forward(instrs[1..], t');
      NextApart(instrs, used);
      AfterWithin(i, t, used);
      ResultFresh(i, t, used);
      FirstLoad(instrs);
      if Drops(r, t) {
        assert Forward(instrs, t) == rest;
        DropStep(w, i, t, c, d, gone);
        ForwardExec(w, instrs[1..], t', used + NamesOf(i), Step(w, i, c).value, d, gone);
      } else {
        assert Forward(instrs, t) == [r] + rest;
        assert ([r] + rest)[1..] == rest;
        assert r in Forward(instrs, t);
        ClosedRest(r, rest, gone);
        if IsTerminator(i.op) {
          TerminateSame(i, t, c, d, gone);
        } else {
          KeepStep(w, i, t, c, d, gone);
          if Step(w, i, c).Some? {
            ForwardExec(w, instrs[1..], t', used + NamesOf(i), Step(w, i, c).value, Step(w, r, d).value, gone);
          }
        }
      }
    }
  }

  lemma ClosedRest(i: Instr, rest: seq<Instr>, gone: set<Name>)
    requires Closed([i] + rest, gone)
    ensures Closed(rest, gone) && forall a :: a in i.args ==> a !in gone
  {
    forall j | j in rest ensures j in [i] + rest { }
    assert i in [i] + rest;
  }

  lemma FirstLoad(instrs: seq<Instr>)
    requires instrs != [] && SingleAssignment(instrs)
    ensures instrs[0].op == Load ==> |instrs[0].args| <= 1 && (instrs[0].result.Some? ==> instrs[0].result.value.Temp?)
  {
  }

  lemma ResultFresh(i: Instr, t: Tables, used: set<Name>)
    requires Within(t, used) && (i.result.Some? ==> i.result.value !in used)
    ensures i.result.Some? ==> Fresh(i.result.value, t)
  {
  }

  // ---- whole functions ----

  ghost predicate Suits(blocks: seq<Block>) {
    forall b :: b in blocks ==> SingleAssignment(b.instrs) && forall k :: 0 <= k < |b.instrs| ==> Targeted(b.instrs[k])
  }

  lemma FindForwarded(blocks: seq<Block>, l: Label)
    ensures FindLabel(ForwardAll(blocks), l) == FindLabel(blocks, l)
  {
    var i, j := FindLabel(ForwardAll(blocks), l), FindLabel(blocks, l);
    assert forall k :: 0 <= k < |blocks| ==> ForwardAll(blocks)[k].tag == blocks[k].tag;
  }

  /// From any block on, both versions do the same, for as long as one looks.
  lemma {:induction false} ForwardRun(w: World, blocks: seq<Block>, gone: set<Name>, i: nat, c: Config, d: Config, fuel: nat)
    requires Quiet(w) && Suits(blocks) && DroppedAll(blocks) <= gone && ClosedAll(ForwardAll(blocks), gone)
    requires Agree(c, d, Nothing, gone)
    ensures RunFrom(w, blocks, i, 0, c, fuel) == RunFrom(w, ForwardAll(blocks), i, 0, d, fuel)
    decreases fuel
  {
    hide Quiet, Agree, Exec, Forward, ForwardAll, SingleAssignment, Targeted, Dropped, DroppedAll, FindLabel, Closed, SameEnding, ForwardBlock;
    AgreeMem(c, d, Nothing, gone);
    var after := ForwardAll(blocks);
    if i < |blocks| {
      var instrs := blocks[i].instrs;
      BlockRun(w, blocks, gone, i, c, d);
      assert instrs[0..] == instrs && after[i].instrs[0..] == after[i].instrs;
      var e, f := Exec(w, instrs, c), Exec(w, after[i].instrs, d);
      AgreeEnds(e, f, gone);
      if fuel > 0 {
        if e.Falls? {
          ForwardRun(w, blocks, gone, i + 1, e.c, f.c, fuel - 1);
        } else if e.Goes? {
          FindForwarded(blocks, e.target);
          ForwardRun(w, blocks, gone, FindLabel(blocks, e.target), e.c, f.c, fuel - 1);
        }
      }
    }
  }

  lemma BlockRun(w: World, blocks: seq<Block>, gone: set<Name>, i: nat, c: Config, d: Config)
    requires Quiet(w) && Suits(blocks) && DroppedAll(blocks) <= gone && ClosedAll(ForwardAll(blocks), gone)
    requires Agree(c, d, Nothing, gone) && i < |blocks|
    ensures SameEnding(Exec(w, blocks[i].instrs, c), Exec(w, ForwardAll(blocks)[i].instrs, d), gone)
  {
    hide Quiet, Agree, Exec, Forward, SingleAssignment, Targeted, Dropped, Closed, SameEnding;
    var instrs := blocks[i].instrs;
    assert blocks[i] in blocks && ForwardAll(blocks)[i] in ForwardAll(blocks);
    StartApart(instrs);
    ForwardExec(w, instrs, Nothing, {}, c, d, gone);
  }

  lemma StartApart(instrs: seq<Instr>)
    ensures ResultsApart(instrs, {}) && Within(Nothing, {})
  {
  }

  lemma AgreeEnds(e: Ending, f: Ending, gone: set<Name>)
    requires SameEnding(e, f, gone)
    ensures e.c.trace == f.c.trace
    ensures e.Falls? ==> f.Falls? && Agree(e.c, f.c, Nothing, gone)
    ensures e.Goes? ==> f.Goes? && f.target == e.target && Agree(e.c, f.c, Nothing, gone)
    ensures e.Returns? ==> f.Returns? && f.value == e.value
    ensures e.Faults? ==> f.Faults?
  {
  }

  // ---- what is left uses no dropped name ----

  /// Aliases and known values stand for themselves.
  ghost predicate Resolved(t: Tables) {
    && (forall r :: r in t.aliases ==> t.aliases[r] !in t.aliases)
    && (forall s :: s in t.slots ==> t.slots[s] !in t.aliases)
  }

  lemma ResolvesOnce(t: Tables, a: Name)
    requires Resolved(t)
    ensures Resolve(t.aliases, a, DEPTH) == (if a in t.aliases then t.aliases[a] else a)
    ensures Resolve(t.aliases, a, DEPTH) !in t.aliases
  {
    if a in t.aliases {
      assert Resolve(t.aliases, t.aliases[a], DEPTH - 1) == t.aliases[a];
    }
  }

  lemma RewriteResolves(i: Instr, t: Tables)
    requires Resolved(t)
    ensures forall a :: a in Rewrite(i, t).args ==> a !in t.aliases
  {
    hide Resolve;
    var r := Rewrite(i, t);
    forall k | 0 <= k < |r.args| ensures r.args[k] !in t.aliases {
      ResolvesOnce(t, i.args[k]);
    }
  }

  lemma AfterResolved(i: Instr, t: Tables, used: set<Name>)
    requires Resolved(t) && Within(t, used) && (i.result.Some? ==> i.result.value !in used)
    ensures Resolved(After(Rewrite(i, t), t))
  {
    hide Resolve;
    RewriteResolves(i, t);
    var r := Rewrite(i, t);
    if Drops(r, t) {
      ResolvesOnce(t, t.slots[r.args[0]]);
    } else if i.op == Store && !i.flag && |i.args| >= 2 {
      assert r.args[0] in r.args;
    }
  }

  lemma {:induction false} DroppedAreLoads(instrs: seq<Instr>, t: Tables)
    ensures forall r :: r in Dropped(instrs, t) ==> Loaded(instrs, r)
    decreases instrs
  {
    hide Drops, After, Resolve;
    if instrs != [] {
      var i := Rewrite(instrs[0], t);
      DroppedAreLoads(instrs[1..], After(i, t));
      if Drops(i, t) { DropsLoad(i, t); }
      forall r | r in Dropped(instrs, t) ensures Loaded(instrs, r) {
        if r in Dropped(instrs[1..], After(i, t)) {
          var x :| x in instrs[1..] && LoadOf(x, r);
          assert x in instrs;
        } else {
          assert LoadOf(instrs[0], r);
        }
      }
    }
  }

  lemma DropsLoad(i: Instr, t: Tables)
    requires Drops(i, t)
    ensures i.op == Load && !i.flag
  {
  }

  lemma ClosedCons(i: Instr, rest: seq<Instr>, gone: set<Name>)
    requires Closed(rest, gone) && forall a :: a in i.args ==> a !in gone
    ensures Closed([i] + rest, gone)
  {
  }

  lemma ArgsCons(i: Instr, rest: seq<Instr>)
    ensures ArgsIn([i] + rest) == (set a | a in i.args) + ArgsIn(rest)
  {
    assert i in [i] + rest && forall x :: x in rest ==> x in [i] + rest;
  }

  /// The operands of the first instruction, rewritten, are of no dropped load.
  lemma HeadCloses(instrs: seq<Instr>, t: Tables, used: set<Name>)
    requires instrs != [] && SingleAssignment(instrs) && ResultsApart(instrs, used) && Within(t, used) && Resolved(t)
    ensures forall a :: a in Rewrite(instrs[0], t).args ==> a !in t.aliases.Keys + Dropped(instrs, t)
  {
    hide Resolve, ResolveAll, SingleAssignment, Within, Resolved, Drops, After;
    var i, rest := instrs[0], instrs[1..];
    var t' := After(Rewrite(i, t), t);
    RewriteResolves(i, t);
    ResolveWithin(t, used, i.args);
    NextApart(instrs, used);
    ResultsOutside(rest, t', used + NamesOf(i));
  }

  /// What forwarding leaves of a block uses none of the loads dropped in it.
  lemma {:induction false} ForwardCloses(instrs: seq<Instr>, t: Tables, used: set<Name>)
    requires SingleAssignment(instrs) && ResultsApart(instrs, used) && Within(t, used) && Resolved(t)
    ensures Closed(Forward(instrs, t), t.aliases.Keys + Dropped(instrs, t))
    decreases instrs
  {
    if instrs != [] {
      hide Resolve, ResolveAll, SingleAssignment, ResultsApart, Within, Resolved, Drops, After, Closed;
      var i, rest := instrs[0], instrs[1..];
      var r := Rewrite(i, t);
      var t' := After(r, t);
      NextApart(instrs, used);
      AfterWithin(i, t, used);
      AfterResolved(i, t, used);
      ForwardCloses(rest, t', used + NamesOf(i));
      HeadCloses(instrs, t, used);
      KeysGrow(i, t);
      var gone := t.aliases.Keys + Dropped(instrs, t);
      assert t'.aliases.Keys + Dropped(rest, t') == gone;
      ClosedCons(r, Forward(rest, t'), gone);
      assert [] + Forward(rest, t') == Forward(rest, t');
    } else {
      assert Forward(instrs, t) == [];
    }
  }

  /// Names that the tables rewrite to.
  ghost predicate Seen(t: Tables, names: set<Name>) {
    && (forall r :: r in t.aliases ==> t.aliases[r] in names)
    && (forall s :: s in t.slots ==> t.slots[s] in names)
  }

  lemma {:induction false} ResolveSeen(t: Tables, names: set<Name>, a: Name, depth: nat)
    requires Seen(t, names)
    ensures Resolve(t.aliases, a, depth) == a || Resolve(t.aliases, a, depth) in names
    decreases depth
  {
    if depth > 0 && a in t.aliases && t.aliases[a] != a { ResolveSeen(t, names, t.aliases[a], depth - 1); }
  }

  lemma RewriteSeen(i: Instr, t: Tables, names: set<Name>)
    requires Seen(t, names)
    ensures forall a :: a in Rewrite(i, t).args ==> a in names || a in i.args
  {
    var r := Rewrite(i, t);
    forall k | 0 <= k < |r.args| ensures r.args[k] in names || r.args[k] in i.args {
      ResolveSeen(t, names, i.args[k], DEPTH);
    }
  }

  lemma AfterSeen(i: Instr, t: Tables, names: set<Name>)
    requires Seen(t, names)
    ensures Seen(After(Rewrite(i, t), t), names + set a | a in i.args)
  {
    hide Resolve;
    RewriteSeen(i, t, names);
    var r := Rewrite(i, t);
    if Drops(r, t) {
      ResolveSeen(t, names, t.slots[r.args[0]], DEPTH);
    } else if i.op == Store && !i.flag && |i.args| >= 2 {
      assert r.args[0] in r.args;
    }
  }

  /// Forwarding brings no name into a block.
  lemma {:induction false} ForwardSeen(instrs: seq<Instr>, t: Tables, names: set<Name>)
    requires Seen(t, names)
    ensures ArgsIn(Forward(instrs, t)) <= names + ArgsIn(instrs)
    decreases instrs
  {
    if instrs != [] {
      hide Seen, Drops, After, ArgsIn, ResolveAll;
      var i, rest := instrs[0], instrs[1..];
      var r := Rewrite(i, t);
      var t' := After(r, t);
      RewriteSeen(i, t, names);
      AfterSeen(i, t, names);
      ForwardSeen(rest, t', names + set a | a in i.args);
      ArgsCons(i, rest);
      ArgsCons(r, Forward(rest, t'));
      assert instrs == [i] + rest;
      assert [] + Forward(rest, t') == Forward(rest, t');
    } else {
      assert Forward(instrs, t) == [];
    }
  }

  /// A result of the rest is a name not used so far.
  lemma ResultsOutside(instrs: seq<Instr>, t: Tables, used: set<Name>)
    requires ResultsApart(instrs, used)
    ensures Dropped(instrs, t) !! used
  {
    hide Dropped;
    DroppedAreLoads(instrs, t);
    forall r | r in Dropped(instrs, t) ensures r !in used {
      var i :| i in instrs && LoadOf(i, r);
      var k :| 0 <= k < |instrs| && instrs[k] == i;
    }
  }

  lemma KeysGrow(i: Instr, t: Tables)
    ensures var r := Rewrite(i, t);
      After(r, t).aliases.Keys == t.aliases.Keys + (if Drops(r, t) && i.result.Some? then {i.result.value} else {})
  {
    hide Resolve;
  }

  /// If the result of a dropped load is used in its own block only, nothing
  /// that is left uses it.
  lemma ForwardingCloses(blocks: seq<Block>)
    requires Suits(blocks) && DroppedLocal(blocks)
    ensures ClosedAll(ForwardAll(blocks), DroppedAll(blocks))
  {
    hide Forward, SingleAssignment, Targeted, Dropped, DroppedAll;
    var after := ForwardAll(blocks);
    forall b, i, a | b in after && i in b.instrs && a in i.args ensures a !in DroppedAll(blocks) {
      var j :| 0 <= j < |after| && after[j] == b;
      var instrs := blocks[j].instrs;
      assert blocks[j] in blocks;
      StartApart(instrs);
      ForwardCloses(instrs, Nothing, {});
      ForwardSeen(instrs, Nothing, {});
      assert a in ArgsIn(b.instrs) && a in ArgsIn(instrs) && a !in Dropped(instrs, Nothing);
      if a in DroppedAll(blocks) {
        var k := DroppedSomewhere(blocks, a);
        assert false;
      }
    }
  }

  lemma {:induction false} DroppedSomewhere(blocks: seq<Block>, a: Name) returns (k: nat)
    requires a in DroppedAll(blocks)
    ensures k < |blocks| && a in Dropped(blocks[k].instrs, Nothing)
    decreases |blocks|
  {
    hide Dropped;
    if a in Dropped(blocks[0].instrs, Nothing) {
      k := 0;
    } else {
      k := DroppedSomewhere(blocks[1..], a);
      k := k + 1;
    }
  }

  /// The same, if that is so of every load.
  lemma LocalLoadsSuffice(blocks: seq<Block>)
    requires LocalLoads(blocks)
    ensures DroppedLocal(blocks)
  {
    hide Dropped, Loaded, ArgsIn;
    forall k | 0 <= k < |blocks| ensures forall r :: r in Dropped(blocks[k].instrs, Nothing) ==> Loaded(blocks[k].instrs, r) {
      DroppedAreLoads(blocks[k].instrs, Nothing);
    }
  }

  /// Runs are the same if nothing that is left uses the result of a dropped load.
  lemma ClosedRuns(w: World, blocks: seq<Block>, c: Config, fuel: nat)
    requires Quiet(w) && Suits(blocks) && ClosedAll(ForwardAll(blocks), DroppedAll(blocks))
    ensures Run(w, ForwardAll(blocks), c, fuel) == Run(w, blocks, c, fuel)
  {
    hide Agree;
    AgreeSelf(c, DroppedAll(blocks));
    ForwardRun(w, blocks, DroppedAll(blocks), 0, c, c, fuel);
  }

  /// Load forwarding preserves every run: on blocks in single assignment form,
  /// if the result of a dropped load is used in its own block only, the function
  /// makes the same stores, calls and atomics and returns the same value,
  /// faults when it did and runs on when it did.
  lemma ForwardingPreservesRuns(w: World, blocks: seq<Block>, c: Config, fuel: nat)
    requires Quiet(w) && Suits(blocks) && DroppedLocal(blocks)
    ensures Run(w, ForwardAll(blocks), c, fuel) == Run(w, blocks, c, fuel)
  {
    hide Suits, DroppedLocal, ForwardAll, DroppedAll, Run, ClosedAll;
    ForwardingCloses(blocks);
    ClosedRuns(w, blocks, c, fuel);
  }

  lemma AgreeSelf(c: Config, gone: set<Name>)
    ensures Agree(c, c, Nothing, gone)
  {
  }

  // ---- a result used in another block ----

  /// `x = v; t = load y; jump next` and `next: return t`.
  function Crossing(x: Name, y: Name, v: Name, t: Name, next: Label, ty: Ty): seq<Block> {
    [Block(Entry, [CrossingStore(x, v, ty), CrossingLoad(y, t, ty), CrossingJump(next)], true),
     Block(next, [CrossingReturn(t, ty)], true)]
  }

  function CrossingStore(x: Name, v: Name, ty: Ty): Instr { Instr(Store, None, ty, [v, x], "", false) }
  function CrossingLoad(y: Name, t: Name, ty: Ty): Instr { Instr(Load, Some(t), ty, [y], "", false) }
  function CrossingJump(next: Label): Instr { Instr(Jump, None, UnitTy, [LabelName(next)], "", false) }
  function CrossingReturn(t: Name, ty: Ty): Instr { Instr(Return, None, ty, [t], "", false) }

  lemma RewriteNothing(i: Instr, t: Tables)
    requires forall a :: a in i.args ==> a !in t.aliases
    ensures Rewrite(i, t) == i
  {
    assert ResolveAll(t.aliases, i.args) == i.args;
  }

  lemma ForwardCons(i: Instr, rest: seq<Instr>, t: Tables)
    requires forall a :: a in i.args ==> a !in t.aliases
    ensures Forward([i] + rest, t) == (if Drops(i, t) then [] else [i]) + Forward(rest, After(i, t))
    ensures Dropped([i] + rest, t) == (if Drops(i, t) && i.result.Some? then {i.result.value} else {}) + Dropped(rest, After(i, t))
  {
    RewriteNothing(i, t);
    assert ([i] + rest)[1..] == rest;
  }

  lemma ForwardEmpty(t: Tables)
    ensures Forward([], t) == [] && Dropped([], t) == {}
  {
  }

  lemma EntryForwarded(x: Name, y: Name, v: Name, t: Name, next: Label, ty: Ty)
    requires x.Slot? && y.Slot? && v.Temp? && t.Temp? && t != v
    ensures var entry := [CrossingStore(x, v, ty), CrossingLoad(y, t, ty), CrossingJump(next)];
      && Forward(entry, Nothing) == [CrossingStore(x, v, ty)] + (if x == y then [] else [CrossingLoad(y, t, ty)]) + [CrossingJump(next)]
      && Dropped(entry, Nothing) == if x == y then {t} else {}
  {
    hide Forward, Dropped;
    var store, load, jump := CrossingStore(x, v, ty), CrossingLoad(y, t, ty), CrossingJump(next);
    var known := Tables(map[x := v], map[]);
    var after := After(load, known);
    assert After(store, Nothing) == known && !Drops(store, Nothing);
    assert Drops(load, known) <==> x == y;
    assert LabelName(next) !in after.aliases;
    ForwardCons(store, [load] + [jump], Nothing);
    ForwardCons(load, [jump] + [], known);
    ForwardCons(jump, [], after);
    ForwardEmpty(After(jump, after));
    assert [store] + ([load] + [jump]) == [store, load, jump] && [jump] + [] == [jump];
  }

  lemma CrossingForwarded(x: Name, y: Name, v: Name, t: Name, next: Label, ty: Ty)
    requires x.Slot? && y.Slot? && v.Temp? && t.Temp? && t != v
    ensures var blocks := Crossing(x, y, v, t, next, ty);
      var entry := [CrossingStore(x, v, ty)] + (if x == y then [] else [CrossingLoad(y, t, ty)]) + [CrossingJump(next)];
      && ForwardAll(blocks) == [Block(Entry, entry, true), blocks[1]]
      && DroppedAll(blocks) == if x == y then {t} else {}
  {
    hide Forward, Dropped;
    var ret := CrossingReturn(t, ty);
    var blocks := Crossing(x, y, v, t, next, ty);
    EntryForwarded(x, y, v, t, next, ty);
    ForwardCons(ret, [], Nothing);
    ForwardEmpty(After(ret, Nothing));
    assert [ret] + [] == [ret];
    assert blocks[1..] == [blocks[1]] && blocks[1..][1..] == [];
    assert ForwardAll(blocks[1..]) == [ForwardBlock(blocks[1])];
    assert DroppedAll(blocks[1..]) == Dropped(blocks[1].instrs, Nothing);
  }

  lemma ExecCons(w: World, i: Instr, rest: seq<Instr>, c: Config)
    ensures Exec(w, [i] + rest, c) ==
      if IsTerminator(i.op) then Terminate(i, c)
      else match Step(w, i, c) case None => Faults(c) case Some(d) => Exec(w, rest, d)
  {
    assert ([i] + rest)[1..] == rest;
  }

  lemma StoreThenLoad(w: World, x: Name, y: Name, v: Name, t: Name, ty: Ty, c: Config)
    requires x.Slot? && y.Slot? && v.Temp? && v in c.regs && y in c.mem.slots
    ensures var c1 := Step(w, CrossingStore(x, v, ty), c);
      && c1.Some? && c1.value.regs == c.regs
      && Step(w, CrossingLoad(y, t, ty), c1.value).Some? && t in Step(w, CrossingLoad(y, t, ty), c1.value).value.regs
  {
    assert [v, x][1..] == [x];
    OneOperand(x, c.regs);
    assert [c.regs[v]] + [SlotPtr(x)] == [c.regs[v], SlotPtr(x)];
    OneOperand(y, c.regs);
  }

  /// The run of the entry block, with or without the load, and what follows.
  lemma CrossingRuns(w: World, stays: bool, x: Name, y: Name, v: Name, t: Name, next: Label, ty: Ty, c: Config, blocks: seq<Block>)
    requires x.Slot? && y.Slot? && v.Temp? && t.Temp? && t != v && next != Entry
    requires v in c.regs && y in c.mem.slots && t !in c.regs
    requires blocks == [Block(Entry, [CrossingStore(x, v, ty)] + (if stays then [CrossingLoad(y, t, ty)] else []) + [CrossingJump(next)], true),
                        Block(next, [CrossingReturn(t, ty)], true)]
    ensures stays ==> Run(w, blocks, c, 1).Returned?
    ensures !stays ==> Run(w, blocks, c, 1).Faulted?
  {
    hide Step, Operands, Exec, FindLabel;
    var store, load, jump, ret := CrossingStore(x, v, ty), CrossingLoad(y, t, ty), CrossingJump(next), CrossingReturn(t, ty);
    StoreThenLoad(w, x, y, v, t, ty, c);
    var c1 := Step(w, store, c).value;
    var c2 := if stays then Step(w, load, c1).value else c1;
    var rest := (if stays then [load] else []) + [jump];
    ExecCons(w, store, rest, c);
    ExecCons(w, load, [jump], c1);
    ExecCons(w, jump, [], c2);
    ExecCons(w, ret, [], c2);
    assert [jump] + [] == [jump] && [ret] + [] == [ret];
    assert blocks[0].instrs == [store] + rest;
    assert rest == if stays then [load] + [jump] else [jump];
    assert blocks[0].instrs[0..] == blocks[0].instrs && blocks[1].instrs[0..] == [ret];
    FindDistinct(blocks, 1);
    assert RunFrom(w, blocks, 0, 0, c, 1) == RunFrom(w, blocks, 1, 0, c2, 0);
  }

  /// The result of a load used in a later block: forwarding keeps the run if
  /// and only if the load stays, that is if it reads another slot.
  lemma CrossBlockUse(w: World, x: Name, y: Name, v: Name, t: Name, next: Label, ty: Ty, c: Config)
    requires x.Slot? && y.Slot? && v.Temp? && t.Temp? && t != v && next != Entry
    requires v in c.regs && y in c.mem.slots && t !in c.regs
    ensures var before := Crossing(x, y, v, t, next, ty);
      var after := ForwardAll(before);
      && Run(w, before, c, 1).Returned?
      && (Run(w, after, c, 1) == Run(w, before, c, 1) <==> x != y)
      && (DroppedLocal(before) <==> x != y)
      && (x == y ==> Run(w, after, c, 1).Faulted?)
  {
    hide ForwardAll, DroppedAll, Run, DroppedLocal;
    var before := Crossing(x, y, v, t, next, ty);
    CrossingForwarded(x, y, v, t, next, ty);
    CrossingLocal(x, y, v, t, next, ty);
    var after := ForwardAll(before);
    assert [CrossingStore(x, v, ty)] + [CrossingLoad(y, t, ty)] + [CrossingJump(next)] == before[0].instrs;
    CrossingRuns(w, true, x, y, v, t, next, ty, c, before);
    CrossingRuns(w, x != y, x, y, v, t, next, ty, c, after);
    assert x != y ==> after == before;
  }

  lemma CrossingLocal(x: Name, y: Name, v: Name, t: Name, next: Label, ty: Ty)
    requires x.Slot? && y.Slot? && v.Temp? && t.Temp? && t != v
    ensures DroppedLocal(Crossing(x, y, v, t, next, ty)) <==> x != y
  {
    hide Forward, Dropped;
    var before := Crossing(x, y, v, t, next, ty);
    var ret := CrossingReturn(t, ty);
    EntryForwarded(x, y, v, t, next, ty);
    assert Dropped(before[1].instrs, Nothing) == {} by {
      ForwardCons(ret, [], Nothing);
      ForwardEmpty(After(ret, Nothing));
      assert [ret] + [] == [ret];
    }
    if x == y {
      assert ret in before[1].instrs && t in ret.args && t in ArgsIn(before[1].instrs);
      assert t in Dropped(before[0].instrs, Nothing);
    }
  }
}
