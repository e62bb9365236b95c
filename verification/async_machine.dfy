/// The frame of an async function, its polls and its executor (src/codegen_async.cpp).

module AsyncMachine {
  import opened Mir

  // ---- children ----

  /// What a child future answers in the end.
  datatype Answer = Yields(value: Value) | Fails(code: int)

  /// A child is pending `delay` times first.
  datatype Child = Child(delay: nat, answer: Answer)

  type Children = Value -> Child

  /// How often each child was polled, and the drops in order.
  datatype Env = Env(polls: map<Value, nat>, dropped: seq<Value>)

  function PollsOf(env: Env, v: Value): nat { if v in env.polls then env.polls[v] else 0 }

  function Polled(env: Env, v: Value): Env { env.(polls := env.polls[v := PollsOf(env, v) + 1]) }

  function Dropped(env: Env, v: Value): Env { env.(dropped := env.dropped + [v]) }

  // ---- the numbering of awaits ----

  function Count(instrs: seq<Instr>): nat
    decreases |instrs|
  {
    if instrs == [] then 0 else Count(instrs[..|instrs| - 1]) + if instrs[|instrs| - 1].op == Await then 1 else 0
  }

  function CountAll(blocks: seq<Block>): nat
    decreases |blocks|
  {
    if blocks == [] then 0 else CountAll(blocks[..|blocks| - 1]) + Count(blocks[|blocks| - 1].instrs)
  }

  /// Awaits are numbered from one, in the order of blocks and instructions.
  function Number(blocks: seq<Block>, i: nat, k: nat): nat
    requires i < |blocks| && k < |blocks[i].instrs|
  {
    CountAll(blocks[..i]) + Count(blocks[i].instrs[..k]) + 1
  }

  /// The `id`-th await of a block.
  function FindIn(instrs: seq<Instr>, id: nat): (k: nat)
    requires 1 <= id <= Count(instrs)
    ensures k < |instrs| && instrs[k].op == Await && Count(instrs[..k]) + 1 == id
    decreases |instrs|
  {
    var n := |instrs| - 1;
    if instrs[n].op == Await && id == Count(instrs) then n
    else
      var k := FindIn(instrs[..n], id);
      assert instrs[..n][..k] == instrs[..k];
      k
  }

  /// Where a poll resumes for state `id`.
  function Locate(blocks: seq<Block>, id: nat): (r: (nat, nat))
    requires 1 <= id <= CountAll(blocks)
    ensures r.0 < |blocks| && r.1 < |blocks[r.0].instrs| && blocks[r.0].instrs[r.1].op == Await
    ensures Number(blocks, r.0, r.1) == id
    decreases |blocks|
  {
    var n := |blocks| - 1;
    var before := CountAll(blocks[..n]);
    if id > before then (n, FindIn(blocks[n].instrs, id - before))
    else
      var r := Locate(blocks[..n], id);
      assert blocks[..n][..r.0] == blocks[..r.0];
      r
  }

  lemma {:induction false} CountMonotone(instrs: seq<Instr>, k: nat)
    requires k <= |instrs|
    ensures Count(instrs[..k]) <= Count(instrs)
    ensures k < |instrs| && instrs[k].op == Await ==> Count(instrs[..k]) < Count(instrs)
    decreases |instrs|
  {
    if k < |instrs| {
      var n := |instrs| - 1;
      if k < n {
        assert instrs[..n][..k] == instrs[..k];
        CountMonotone(instrs[..n], k);
      }
    } else {
      assert instrs[..k] == instrs;
    }
  }

  lemma {:induction false} CountAllMonotone(blocks: seq<Block>, i: nat)
    requires i <= |blocks|
    ensures CountAll(blocks[..i]) <= CountAll(blocks)
    ensures i < |blocks| ==> CountAll(blocks[..i]) + Count(blocks[i].instrs) <= CountAll(blocks)
    decreases |blocks|
  {
    if i < |blocks| {
      var n := |blocks| - 1;
      if i < n {
        assert blocks[..n][..i] == blocks[..i];
        CountAllMonotone(blocks[..n], i);
      }
    } else {
      assert blocks[..i] == blocks;
    }
  }

  /// Numbers grow along a block, and along the blocks.
  lemma NumberOrder(blocks: seq<Block>, i: nat, k: nat, j: nat, l: nat)
    requires i < |blocks| && k < |blocks[i].instrs| && j < |blocks| && l < |blocks[j].instrs|
    requires blocks[i].instrs[k].op == Await && (i < j || (i == j && k < l))
    ensures Number(blocks, i, k) < Number(blocks, j, l)
  {
    if i == j {
      assert blocks[i].instrs[..l][..k] == blocks[i].instrs[..k];
      CountMonotone(blocks[i].instrs[..l], k);
    } else {
      CountMonotone(blocks[i].instrs, k);
      assert blocks[..j][..i] == blocks[..i];
      CountAllMonotone(blocks[..j], i);
    }
  }

  /// The dispatch on the state word goes back to the await that set it.
  lemma LocateNumber(blocks: seq<Block>, i: nat, k: nat)
    requires i < |blocks| && k < |blocks[i].instrs| && blocks[i].instrs[k].op == Await
    ensures 1 <= Number(blocks, i, k) <= CountAll(blocks) && Locate(blocks, Number(blocks, i, k)) == (i, k)
  {
    CountMonotone(blocks[i].instrs, k);
    CountAllMonotone(blocks, i);
    var (j, l) := Locate(blocks, Number(blocks, i, k));
    if i < j || (i == j && k < l) {
      NumberOrder(blocks, i, k, j, l);
    } else if j < i || (i == j && l < k) {
      NumberOrder(blocks, j, l, i, k);
    }
  }

  // ---- one poll ----

  /// All that is left between polls. Every value lives in the frame, here `c`;
  /// `budget` is what may still be spent on block transitions.
  datatype Frame = Frame(word: int, c: Config, env: Env, budget: nat)

  datatype Poll =
    | Ready(value: Option<Value>)
    | Pending
    | Failed(code: int)
    | Trapped
    | Exhausted

  const COMPLETED: int := -1
  const INVALID: int := -22

  /// How far a poll gets inside a block.
  datatype Stop =
    | Ended(e: Ending, env: Env, word: int)
    | Suspended(at: nat, c: Config, env: Env)
    | ChildFailed(code: int, c: Config, env: Env, word: int)

  function Walk(w: World, kids: Children, instrs: seq<Instr>, k: nat, c: Config, env: Env, word: int): Stop
    requires k <= |instrs|
    decreases |instrs| - k
  {
    if k == |instrs| then Ended(Falls(c), env, word)
    else
      var i := instrs[k];
      if IsTerminator(i.op) then Ended(Terminate(i, c), env, word)
      else if i.op != Await then
        match Step(w, i, c)
        case None => Ended(Faults(c), env, word)
        case Some(d) => Walk(w, kids, instrs, k + 1, d, env, word)
      else match Operands(i.args, c.regs)
        case None => Ended(Faults(c), env, word)
        case Some(vs) =>
          if vs == [] then Ended(Faults(c), env, word)
          else
            var child := vs[0];
            if PollsOf(env, child) < kids(child).delay then Suspended(k, c, Polled(env, child))
            else match kids(child).answer
              case Fails(code) => ChildFailed(code, c, Polled(env, child), word)
              case Yields(v) =>
                // The child is dropped, the word is cleared, the value stored.
                var d := Config(SetResult(i.result, v, c.regs), c.mem, c.trace + [Event(Await, i.text, vs)]);
                Walk(w, kids, instrs, k + 1, d, Dropped(Polled(env, child), child), 0)
  }

  function PollFrom(w: World, kids: Children, blocks: seq<Block>, i: nat, k: nat, f: Frame): (Poll, Frame)
    decreases f.budget
  {
    if i >= |blocks| || k > |blocks[i].instrs| then (Trapped, f)
    else match Walk(w, kids, blocks[i].instrs, k, f.c, f.env, f.word)
      case Suspended(at, c, env) =>
        (Pending, Frame(if at < |blocks[i].instrs| then Number(blocks, i, at) else 0, c, env, f.budget))
      case ChildFailed(code, c, env, word) => (Failed(code), Frame(word, c, env, f.budget))
      case Ended(e, env, word) =>
        match e
        case Returns(v, c) => (Ready(v), Frame(COMPLETED, c, env, f.budget))
        case Faults(c) => (Trapped, Frame(word, c, env, f.budget))
        case Falls(c) =>
          if f.budget == 0 then (Exhausted, Frame(word, c, env, 0))
          else PollFrom(w, kids, blocks, i + 1, 0, Frame(word, c, env, f.budget - 1))
        case Goes(l, c) =>
          if f.budget == 0 then (Exhausted, Frame(word, c, env, 0))
          else PollFrom(w, kids, blocks, FindLabel(blocks, l), 0, Frame(word, c, env, f.budget - 1))
  }

  /// The poll function: a dispatch on the state word.
  function PollFrame(w: World, kids: Children, blocks: seq<Block>, f: Frame): (Poll, Frame) {
    if f.word == 0 then PollFrom(w, kids, blocks, 0, 0, f)
    else if f.word == COMPLETED then (Ready(None), f)
    else if 1 <= f.word <= CountAll(blocks) then
      var at := Locate(blocks, f.word);
      PollFrom(w, kids, blocks, at.0, at.1, f)
    else (Failed(INVALID), f)
  }

  /// The drop function: a child that is being waited for goes with the frame.
  function DropFrame(blocks: seq<Block>, f: Frame): Env {
    if 1 <= f.word <= CountAll(blocks) then
      var (i, k) := Locate(blocks, f.word);
      var await_ := blocks[i].instrs[k];
      if await_.args == [] then f.env
      else match Operand(await_.args[0], f.c.regs)
        case None => f.env
        case Some(v) => Dropped(f.env, v)
    else f.env
  }

  /// The executor polls until the answer is not zero, here at most `patience` times.
  function BlockOn(w: World, kids: Children, blocks: seq<Block>, f: Frame, patience: nat): (Poll, Frame)
    decreases patience
  {
    if patience == 0 then (Pending, f)
    else
      var (answer, g) := PollFrame(w, kids, blocks, f);
      if answer == Pending then BlockOn(w, kids, blocks, g, patience - 1) else (answer, g)
  }

  // ---- suspension is invisible ----

  /// In the reference run an await is answered at once with the child's value.
  ghost predicate Answered(w: World, kids: Children) {
    forall trace: seq<Event>, m: Mem ::
      trace != [] && trace[|trace| - 1].op == Await && trace[|trace| - 1].args != [] && kids(trace[|trace| - 1].args[0]).answer.Yields? ==>
        w.respond(trace, m) == (kids(trace[|trace| - 1].args[0]).answer.value, m)
  }

  ghost predicate NoChildFails(kids: Children) { forall v :: kids(v).answer.Yields? }

  /// Every await has an operand.
  ghost predicate Awaiting(blocks: seq<Block>) {
    forall b, i :: b in blocks && i in b.instrs && i.op == Await ==> i.args != []
  }

  lemma {:induction false} OperandsLength(args: seq<Name>, regs: Regs)
    requires Operands(args, regs).Some?
    ensures |Operands(args, regs).value| == |args|
    ensures args != [] ==> Operand(args[0], regs) == Some(Operands(args, regs).value[0])
    decreases args
  {
    if args != [] { OperandsLength(args[1..], regs); }
  }

  /// An await whose child is ready does what the reference step does.
  lemma AwaitStep(w: World, kids: Children, i: Instr, c: Config, vs: seq<Value>)
    requires Answered(w, kids) && i.op == Await && Operands(i.args, c.regs) == Some(vs) && vs != [] && kids(vs[0]).answer.Yields?
    ensures Step(w, i, c) == Some(Config(SetResult(i.result, kids(vs[0]).answer.value, c.regs), c.mem, c.trace + [Event(Await, i.text, vs)]))
  {
    hide Operands;
    var trace := c.trace + [Event(i.op, i.text, vs)];
    assert trace[|trace| - 1] == Event(Await, i.text, vs);
  }

  /// Inside a block: what is walked is what runs; a suspension stops at an await
  /// from which the rest runs on.
  lemma {:induction false} WalkRuns(w: World, kids: Children, instrs: seq<Instr>, k: nat, c: Config, env: Env, word: int)
    requires Answered(w, kids) && NoChildFails(kids) && k <= |instrs|
    requires forall i :: i in instrs && i.op == Await ==> i.args != []
    ensures var s := Walk(w, kids, instrs, k, c, env, word);
      && !s.ChildFailed?
      && (s.Ended? ==> Exec(w, instrs[k..], c) == s.e)
      && (s.Suspended? ==> k <= s.at < |instrs| && instrs[s.at].op == Await && Exec(w, instrs[k..], c) == Exec(w, instrs[s.at..], s.c))
    decreases |instrs| - k
  {
    hide Step, Answered, NoChildFails;
    if k < |instrs| {
      var i := instrs[k];
      assert instrs[k..][0] == i && instrs[k..][1..] == instrs[k + 1..];
      assert i in instrs;
      if IsTerminator(i.op) {
      } else if i.op != Await {
        match Step(w, i, c)
        case None =>
        case Some(d) => WalkRuns(w, kids, instrs, k + 1, d, env, word);
      } else {
        AwaitFaults(w, i, c);
        var vs := Operands(i.args, c.regs);
        if vs.Some? {
          OperandsLength(i.args, c.regs);
          var child := vs.value[0];
          Yielding(kids, child);
          if PollsOf(env, child) >= kids(child).delay {
            AwaitStep(w, kids, i, c, vs.value);
            WalkRuns(w, kids, instrs, k + 1, Step(w, i, c).value, Dropped(Polled(env, child), child), 0);
          }
        }
      }
    }
  }

  lemma Yielding(kids: Children, v: Value)
    requires NoChildFails(kids)
    ensures kids(v).answer.Yields?
  {
  }

  lemma AwaitFaults(w: World, i: Instr, c: Config)
    requires i.op == Await
    ensures Operands(i.args, c.regs).None? ==> Step(w, i, c).None?
  {
  }

  /// What is seen of a run and of a poll that is over.
  ghost predicate SameOutcome(answer: Poll, f: Frame, o: Outcome) {
    match answer
    case Ready(v) => o == Returned(v, f.c.trace)
    case Trapped => o == Faulted(f.c.trace)
    case Exhausted => o == Running(f.c.trace)
    case _ => false
  }

  /// A poll either finishes as the run does, or stops at an await from which the
  /// run goes on as before.
  lemma {:induction false} PollRuns(w: World, kids: Children, blocks: seq<Block>, i: nat, k: nat, f: Frame)
    requires Answered(w, kids) && NoChildFails(kids) && Awaiting(blocks)
    ensures var (answer, g) := PollFrom(w, kids, blocks, i, k, f);
      if answer == Pending then
        1 <= g.word <= CountAll(blocks)
        && var at := Locate(blocks, g.word);
           RunFrom(w, blocks, i, k, f.c, f.budget) == RunFrom(w, blocks, at.0, at.1, g.c, g.budget)
      else SameOutcome(answer, g, RunFrom(w, blocks, i, k, f.c, f.budget))
    decreases f.budget
  {
    hide Answered, NoChildFails, Walk, Exec, Locate, Number, FindLabel, CountAll, Awaiting;
    if i < |blocks| && k <= |blocks[i].instrs| {
      var instrs := blocks[i].instrs;
      BlockAwaits(blocks, i);
      WalkRuns(w, kids, instrs, k, f.c, f.env, f.word);
      var s := Walk(w, kids, instrs, k, f.c, f.env, f.word);
      if s.Suspended? {
        LocateNumber(blocks, i, s.at);
        SameRun(w, blocks, i, k, s.at, f.c, s.c, f.budget);
      } else if f.budget > 0 && s.e.Falls? {
        PollRuns(w, kids, blocks, i + 1, 0, Frame(s.word, s.e.c, s.env, f.budget - 1));
      } else if f.budget > 0 && s.e.Goes? {
        PollRuns(w, kids, blocks, FindLabel(blocks, s.e.target), 0, Frame(s.word, s.e.c, s.env, f.budget - 1));
      }
    }
  }

  lemma BlockAwaits(blocks: seq<Block>, i: nat)
    requires Awaiting(blocks) && i < |blocks|
    ensures forall x :: x in blocks[i].instrs && x.op == Await ==> x.args != []
  {
  }

  lemma SameRun(w: World, blocks: seq<Block>, i: nat, k: nat, l: nat, c: Config, d: Config, fuel: nat)
    requires i < |blocks| && k <= |blocks[i].instrs| && l <= |blocks[i].instrs|
    requires Exec(w, blocks[i].instrs[k..], c) == Exec(w, blocks[i].instrs[l..], d)
    ensures RunFrom(w, blocks, i, k, c, fuel) == RunFrom(w, blocks, i, l, d, fuel)
  {
    hide Exec;
  }

  lemma {:induction false} ResumedRuns(w: World, kids: Children, blocks: seq<Block>, f: Frame, patience: nat)
    requires Answered(w, kids) && NoChildFails(kids) && Awaiting(blocks) && 1 <= f.word <= CountAll(blocks)
    ensures var (answer, g) := BlockOn(w, kids, blocks, f, patience);
      var at := Locate(blocks, f.word);
      answer == Pending || SameOutcome(answer, g, RunFrom(w, blocks, at.0, at.1, f.c, f.budget))
    decreases patience
  {
    hide Answered, NoChildFails, PollFrom, Locate, RunFrom, CountAll;
    if patience > 0 {
      var at := Locate(blocks, f.word);
      PollRuns(w, kids, blocks, at.0, at.1, f);
      var (answer, g) := PollFrame(w, kids, blocks, f);
      if answer == Pending { ResumedRuns(w, kids, blocks, g, patience - 1); }
    }
  }

  function Fresh(c: Config, budget: nat): Frame { Frame(0, c, Env(map[], []), budget) }

  /// Suspension is invisible: if no child fails, polling until the answer is not
  /// zero ends as the body does with every await replaced by its child's value,
  /// however often each child was pending: same result, same effects in the same
  /// order, a fault for a fault.
  lemma SuspensionIsInvisible(w: World, kids: Children, blocks: seq<Block>, c: Config, budget: nat, patience: nat)
    requires Answered(w, kids) && NoChildFails(kids) && Awaiting(blocks)
    requires BlockOn(w, kids, blocks, Fresh(c, budget), patience).0 != Pending
    ensures var (answer, g) := BlockOn(w, kids, blocks, Fresh(c, budget), patience);
      SameOutcome(answer, g, Run(w, blocks, c, budget))
  {
    hide Answered, NoChildFails, PollFrom, Locate, RunFrom, CountAll;
    var f := Fresh(c, budget);
    PollRuns(w, kids, blocks, 0, 0, f);
    var (answer, g) := PollFrame(w, kids, blocks, f);
    if answer == Pending { ResumedRuns(w, kids, blocks, g, patience - 1); }
  }

  lemma {:induction false} ReadyCompletes(w: World, kids: Children, blocks: seq<Block>, i: nat, k: nat, f: Frame)
    requires PollFrom(w, kids, blocks, i, k, f).0.Ready?
    ensures PollFrom(w, kids, blocks, i, k, f).1.word == COMPLETED
    decreases f.budget
  {
    hide Walk, Number, FindLabel;
    var r := Walk(w, kids, blocks[i].instrs, k, f.c, f.env, f.word);
    if r.Ended? && r.e.Falls? {
      ReadyCompletes(w, kids, blocks, i + 1, 0, Frame(r.word, r.e.c, r.env, f.budget - 1));
    } else if r.Ended? && r.e.Goes? {
      ReadyCompletes(w, kids, blocks, FindLabel(blocks, r.e.target), 0, Frame(r.word, r.e.c, r.env, f.budget - 1));
    }
  }

  /// A future that has answered is over: polling it again answers with nothing and
  /// does nothing, and dropping its frame drops no child.
  lemma CompletedIsOver(w: World, kids: Children, blocks: seq<Block>, f: Frame)
    requires PollFrame(w, kids, blocks, f).0.Ready?
    ensures var g := PollFrame(w, kids, blocks, f).1;
      PollFrame(w, kids, blocks, g) == (Ready(None), g) && DropFrame(blocks, g) == g.env
  {
    hide PollFrom, CountAll, Locate;
    if f.word == 0 {
      ReadyCompletes(w, kids, blocks, 0, 0, f);
    } else if 1 <= f.word <= CountAll(blocks) {
      var at := Locate(blocks, f.word);
      ReadyCompletes(w, kids, blocks, at.0, at.1, f);
    }
  }
}
