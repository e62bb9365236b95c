/// The emitted machine as it runs: a frame whose state word and values are
/// updated in place by its poll function, and the executor's loop.

module AsyncFrame {
  import opened Mir
  import opened AsyncMachine
  import opened AsyncDrops

  class FutureFrame {
    const blocks: seq<Block>
    var word: int
    var c: Config
    var env: Env
    var budget: nat

    function State(): Frame
      reads this
    {
      Frame(word, c, env, budget)
    }

    constructor (blocks: seq<Block>, c: Config, budget: nat)
      ensures this.blocks == blocks && State() == Fresh(c, budget)
    {
      this.blocks := blocks;
      word, this.c, env, this.budget := 0, c, Env(map[], []), budget;
    }

    /// One await: polls the child, and stores the state word or the value.
    method PollAwait(w: World, kids: Children, i: nat, k: nat) returns (answer: Option<Poll>)
      requires i < |blocks| && k < |blocks[i].instrs| && blocks[i].instrs[k].op == Await
      modifies this
      ensures answer.Some? ==> (answer.value, State()) == PollFrom(w, kids, blocks, i, k, old(State()))
      ensures answer.None? ==> PollFrom(w, kids, blocks, i, k + 1, State()) == PollFrom(w, kids, blocks, i, k, old(State()))
      ensures budget == old(budget)
    {
      AwaitCases(w, kids, blocks, i, k, State());
      hide Operands, Number, PollFrom, PollsOf;
      var await_ := blocks[i].instrs[k];
      answer := None;
      match Operands(await_.args, c.regs)
      case None => answer := Some(Trapped);
      case Some(vs) =>
        if vs == [] {
          answer := Some(Trapped);
        } else {
          var child := vs[0];
          var polls := PollsOf(env, child);
          env := Polled(env, child);
          if polls < kids(child).delay {
            word := Number(blocks, i, k);
            answer := Some(Pending);
          } else if kids(child).answer.Fails? {
            answer := Some(Failed(kids(child).answer.code));
          } else {
            env := Dropped(env, child);
            word := 0;
            c := Config(SetResult(await_.result, kids(child).answer.value, c.regs), c.mem, c.trace + [Event(Await, await_.text, vs)]);
          }
        }
    }

    /// One instruction, or the way out of a block.
    method Advance(w: World, kids: Children, i: nat, k: nat) returns (answer: Option<Poll>, i': nat, k': nat)
      requires i < |blocks| && k <= |blocks[i].instrs|
      modifies this
      ensures answer.Some? ==> (answer.value, State()) == PollFrom(w, kids, blocks, i, k, old(State()))
      ensures answer.None? ==> PollFrom(w, kids, blocks, i', k', State()) == PollFrom(w, kids, blocks, i, k, old(State()))
      ensures answer.None? ==> budget < old(budget) || (budget == old(budget) && i' == i && k < k' <= |blocks[i].instrs|)
    {
      hide PollFrom, Step;
      var instrs := blocks[i].instrs;
      i', k' := i, k + 1;
      if k < |instrs| && instrs[k].op == Await {
        answer := PollAwait(w, kids, i, k);
      } else if k < |instrs| && !IsTerminator(instrs[k].op) {
        PlainStep(w, kids, blocks, i, k, State());
        match Step(w, instrs[k], c)
        case None => answer := Some(Trapped);
        case Some(d) => c, answer := d, None;
      } else {
        answer, i' := LeaveBlock(w, kids, i, k);
        k' := 0;
      }
    }

    /// The end of a block: the next one, or the end of the poll.
    method LeaveBlock(w: World, kids: Children, i: nat, k: nat) returns (answer: Option<Poll>, i': nat)
      requires i < |blocks| && k <= |blocks[i].instrs| && (k < |blocks[i].instrs| ==> IsTerminator(blocks[i].instrs[k].op))
      modifies this
      ensures answer.Some? ==> (answer.value, State()) == PollFrom(w, kids, blocks, i, k, old(State()))
      ensures answer.None? ==> PollFrom(w, kids, blocks, i', 0, State()) == PollFrom(w, kids, blocks, i, k, old(State())) && budget < old(budget)
    {
      hide FindLabel, Number, Terminate;
      var instrs := blocks[i].instrs;
      var e := if k == |instrs| then Falls(c) else Terminate(instrs[k], c);
      assert Walk(w, kids, instrs, k, c, env, word) == Ended(e, env, word);
      hide Walk;
      i' := i;
      c := e.c;
      if e.Returns? {
        word := COMPLETED;
        answer := Some(Ready(e.value));
      } else if e.Faults? {
        answer := Some(Trapped);
      } else if budget == 0 {
        answer := Some(Exhausted);
      } else {
        budget := budget - 1;
        i', answer := if e.Goes? then FindLabel(blocks, e.target) else i + 1, None;
      }
    }

    /// Runs from the state word to the next suspension or the end.
    method Poll(w: World, kids: Children) returns (answer: Poll)
      modifies this
      ensures (answer, State()) == PollFrame(w, kids, blocks, old(State()))
    {
      hide CountAll, Locate, Number, Walk;
      var i: nat, k: nat := 0, 0;
      if word == COMPLETED {
        return Ready(None);
      } else if word != 0 {
        if !(1 <= word <= CountAll(blocks)) { return Failed(INVALID); }
        var at := Locate(blocks, word);
        i, k := at.0, at.1;
      }
      ghost var target := PollFrom(w, kids, blocks, i, k, State());
      hide PollFrom;
      while i < |blocks| && k <= |blocks[i].instrs|
        invariant PollFrom(w, kids, blocks, i, k, State()) == target
        decreases budget, if i < |blocks| then |blocks[i].instrs| - k else 0
      {
        var stopped;
        stopped, i, k := Advance(w, kids, i, k);
        if stopped.Some? { return stopped.value; }
      }
      OutsideTraps(w, kids, blocks, i, k, State());
      return Trapped;
    }

    /// Drops the child that is waited for, then the frame.
    method Drop()
      modifies this`env
      ensures env == DropFrame(blocks, old(State()))
    {
      if 1 <= word <= CountAll(blocks) {
        var at := Locate(blocks, word);
        var await_ := blocks[at.0].instrs[at.1];
        if await_.args != [] {
          var child := Operand(await_.args[0], c.regs);
          if child.Some? { env := Dropped(env, child.value); }
        }
      }
    }

    /// `uinx_block_on`, giving up after `patience` polls.
    method RunToEnd(w: World, kids: Children, patience: nat) returns (answer: Poll)
      modifies this
      ensures (answer, State()) == BlockOn(w, kids, blocks, old(State()), patience)
    {
      hide PollFrame;
      answer := Pending;
      var n := patience;
      while n > 0
        invariant answer == Pending && BlockOn(w, kids, blocks, State(), n) == BlockOn(w, kids, blocks, old(State()), patience)
      {
        answer := Poll(w, kids);
        n := n - 1;
        if answer != Pending { return; }
      }
    }

    /// From a fresh frame: the answer of the body with every await answered at
    /// once, and every child that was polled dropped.
    method Execute(w: World, kids: Children, patience: nat) returns (answer: Poll)
      requires State() == Fresh(c, budget) && c.trace == [] && patience > 0
      requires Answered(w, kids) && NoChildFails(kids) && Awaiting(blocks)
      modifies this
      ensures answer.Ready? ==> Run(w, blocks, old(c), old(budget)) == Returned(answer.value, c.trace)
      ensures answer == Trapped ==> Run(w, blocks, old(c), old(budget)) == Faulted(c.trace)
      ensures answer.Ready? ==> env.dropped == AwaitsIn(c.trace)
      ensures answer == Pending ==> |env.dropped| == |AwaitsIn(c.trace)| + 1
      ensures answer.Ready? || answer == Pending ==> forall v :: v in env.polls ==> v in env.dropped
    {
      hide PollFrame, BlockOn, Answered, NoChildFails, Awaiting, AwaitsIn, Run, DropFrame, Waiting;
      ghost var start := c;
      answer := RunToEnd(w, kids, patience);
      if answer != Pending { SuspensionIsInvisible(w, kids, blocks, start, old(budget), patience); }
      ChildrenAreDroppedOnce(w, kids, blocks, start, old(budget), patience);
      ghost var polls := env.polls;
      DropKeepsPolls(blocks, State());
      Drop();
    }
  }

  lemma DropKeepsPolls(blocks: seq<Block>, f: Frame)
    ensures DropFrame(blocks, f).polls == f.env.polls
  {
  }

  /// The ways on from an await.
  lemma AwaitCases(w: World, kids: Children, blocks: seq<Block>, i: nat, k: nat, f: Frame)
    requires i < |blocks| && k < |blocks[i].instrs| && blocks[i].instrs[k].op == Await
    ensures var await_ := blocks[i].instrs[k];
      match Operands(await_.args, f.c.regs)
      case None => PollFrom(w, kids, blocks, i, k, f) == (Trapped, f)
      case Some(vs) =>
        if vs == [] then PollFrom(w, kids, blocks, i, k, f) == (Trapped, f)
        else if PollsOf(f.env, vs[0]) < kids(vs[0]).delay then
          PollFrom(w, kids, blocks, i, k, f) == (Pending, Frame(Number(blocks, i, k), f.c, Polled(f.env, vs[0]), f.budget))
        else if kids(vs[0]).answer.Fails? then
          PollFrom(w, kids, blocks, i, k, f) == (Failed(kids(vs[0]).answer.code), f.(env := Polled(f.env, vs[0])))
        else
          var d := Config(SetResult(await_.result, kids(vs[0]).answer.value, f.c.regs), f.c.mem, f.c.trace + [Event(Await, await_.text, vs)]);
          PollFrom(w, kids, blocks, i, k, f) == PollFrom(w, kids, blocks, i, k + 1, Frame(0, d, Dropped(Polled(f.env, vs[0]), vs[0]), f.budget))
  {
    hide Operands, Number, FindLabel, SetResult, PollsOf, Polled, Dropped, Terminate, Step;
  }

  /// An instruction that is neither a terminator nor an await.
  lemma PlainStep(w: World, kids: Children, blocks: seq<Block>, i: nat, k: nat, f: Frame)
    requires i < |blocks| && k < |blocks[i].instrs|
    requires !IsTerminator(blocks[i].instrs[k].op) && blocks[i].instrs[k].op != Await
    ensures match Step(w, blocks[i].instrs[k], f.c)
      case None => PollFrom(w, kids, blocks, i, k, f) == (Trapped, f)
      case Some(d) => PollFrom(w, kids, blocks, i, k + 1, f.(c := d)) == PollFrom(w, kids, blocks, i, k, f)
  {
    hide Step, FindLabel, Number;
  }

  lemma OutsideTraps(w: World, kids: Children, blocks: seq<Block>, i: nat, k: nat, f: Frame)
    requires i >= |blocks| || k > |blocks[i].instrs|
    ensures PollFrom(w, kids, blocks, i, k, f) == (Trapped, f)
  {
  }
}
