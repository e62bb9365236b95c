/// Every await drops its child exactly once; polling ends; and what a failing
/// child does to the frame.

module AsyncDrops {
  import opened Mir
  import opened AsyncMachine

  /// The children of the awaits that are over, in order.
  function AwaitsIn(trace: seq<Event>): seq<Value>
    decreases |trace|
  {
    if trace == [] then []
    else
      var last := trace[|trace| - 1];
      AwaitsIn(trace[..|trace| - 1]) + if last.op == Await && last.args != [] then [last.args[0]] else []
  }

  lemma AwaitsAppend(trace: seq<Event>, e: Event)
    ensures AwaitsIn(trace + [e]) == AwaitsIn(trace) + if e.op == Await && e.args != [] then [e.args[0]] else []
  {
    assert (trace + [e])[..|trace|] == trace;
  }

  /// The child that await `i` polls.
  function ChildOf(i: Instr, regs: Regs): Option<Value> {
    match Operands(i.args, regs)
    case None => None
    case Some(vs) => if vs == [] then None else Some(vs[0])
  }

  /// The child a suspended frame waits for.
  function Waiting(blocks: seq<Block>, f: Frame): Option<Value> {
    if 1 <= f.word <= CountAll(blocks) then
      var at := Locate(blocks, f.word);
      ChildOf(blocks[at.0].instrs[at.1], f.c.regs)
    else None
  }

  /// Drops follow the awaits that are over; the children polled are those
  /// dropped and the one that is `open`.
  ghost predicate Accounted(c: Config, env: Env, open: Option<Value>) {
    env.dropped == AwaitsIn(c.trace) && forall v :: v in env.polls <==> v in env.dropped || open == Some(v)
  }

  lemma StepAccounts(w: World, i: Instr, c: Config, env: Env)
    requires !IsTerminator(i.op) && i.op != Await && Step(w, i, c).Some? && Accounted(c, env, None)
    ensures Accounted(Step(w, i, c).value, env, None)
  {
    hide AwaitsIn, Operands;
    var d := Step(w, i, c).value;
    if d.trace != c.trace {
      assert d.trace == c.trace + [d.trace[|c.trace|]];
      AwaitsAppend(c.trace, d.trace[|c.trace|]);
    }
  }

  /// The child an instruction at `k` was left waiting for.
  ghost predicate OpenAt(instrs: seq<Instr>, k: nat, c: Config, open: Option<Value>) {
    open.Some? ==> k < |instrs| && instrs[k].op == Await && ChildOf(instrs[k], c.regs) == open
  }

  /// Polling the one child that is open leaves it open.
  lemma PollingAccounts(c: Config, env: Env, open: Option<Value>, child: Value)
    requires Accounted(c, env, open) && (open.Some? ==> open == Some(child))
    ensures Accounted(c, Polled(env, child), Some(child))
  {
  }

  /// Completing the await of the open child drops that child.
  lemma CompletionAccounts(c: Config, env: Env, regs: Regs, e: Event)
    requires e.op == Await && e.args != [] && Accounted(c, env, Some(e.args[0]))
    ensures Accounted(Config(regs, c.mem, c.trace + [e]), Dropped(env, e.args[0]), None)
  {
    hide AwaitsIn;
    AwaitsAppend(c.trace, e);
  }

  /// The frame's values after await `i` got its child's value.
  function Completed(kids: Children, i: Instr, c: Config): Config
    requires ChildOf(i, c.regs).Some? && kids(ChildOf(i, c.regs).value).answer.Yields?
  {
    var child := ChildOf(i, c.regs).value;
    Config(SetResult(i.result, kids(child).answer.value, c.regs), c.mem, c.trace + [AwaitEvent(i, c.regs)])
  }

  function AwaitEvent(i: Instr, regs: Regs): Event
    requires ChildOf(i, regs).Some?
  {
    Event(Await, i.text, Operands(i.args, regs).value)
  }

  lemma EventChild(i: Instr, regs: Regs)
    requires ChildOf(i, regs).Some?
    ensures AwaitEvent(i, regs).op == Await && AwaitEvent(i, regs).args != [] && AwaitEvent(i, regs).args[0] == ChildOf(i, regs).value
  {
  }

  /// A walk from an await on.
  lemma WalkAwait(w: World, kids: Children, instrs: seq<Instr>, k: nat, c: Config, env: Env, word: int)
    requires k < |instrs| && instrs[k].op == Await
    ensures var child := ChildOf(instrs[k], c.regs); var s := Walk(w, kids, instrs, k, c, env, word);
      if child.None? then s == Ended(Faults(c), env, word)
      else if PollsOf(env, child.value) < kids(child.value).delay then s == Suspended(k, c, Polled(env, child.value))
      else if kids(child.value).answer.Fails? then s == ChildFailed(kids(child.value).answer.code, c, Polled(env, child.value), word)
      else s == Walk(w, kids, instrs, k + 1, Completed(kids, instrs[k], c), Dropped(Polled(env, child.value), child.value), 0)
  {
    hide Operands, SetResult, PollsOf, Polled, Dropped;
  }

  /// A walk from any other place.
  lemma WalkPlain(w: World, kids: Children, instrs: seq<Instr>, k: nat, c: Config, env: Env, word: int)
    requires k <= |instrs| && (k < |instrs| ==> instrs[k].op != Await)
    ensures var s := Walk(w, kids, instrs, k, c, env, word);
      if k == |instrs| then s == Ended(Falls(c), env, word)
      else if IsTerminator(instrs[k].op) then s == Ended(Terminate(instrs[k], c), env, word)
      else if Step(w, instrs[k], c).None? then s == Ended(Faults(c), env, word)
      else s == Walk(w, kids, instrs, k + 1, Step(w, instrs[k], c).value, env, word)
  {
    hide Operands, Step, Terminate;
  }

  lemma {:induction false} WalkAccounts(w: World, kids: Children, instrs: seq<Instr>, k: nat, c: Config, env: Env, word: int, open: Option<Value>)
    requires k <= |instrs| && Accounted(c, env, open) && OpenAt(instrs, k, c, open)
    ensures var s := Walk(w, kids, instrs, k, c, env, word);
      match s
      case Ended(e, env', _) => e.Faults? || Accounted(e.c, env', None)
      case Suspended(at, d, env') =>
        && at < |instrs| && instrs[at].op == Await && ChildOf(instrs[at], d.regs).Some?
        && Accounted(d, env', ChildOf(instrs[at], d.regs)) && kids(ChildOf(instrs[at], d.regs).value).delay > 0
      case ChildFailed(_, _, _, _) => true
    decreases |instrs| - k
  {
    hide Step, Accounted, Walk, ChildOf, PollsOf, Polled, Dropped;
    if k < |instrs| && instrs[k].op == Await {
      var i := instrs[k];
      WalkAwait(w, kids, instrs, k, c, env, word);
      var child := ChildOf(i, c.regs);
      if child.Some? {
        PollingAccounts(c, env, open, child.value);
        if PollsOf(env, child.value) >= kids(child.value).delay && kids(child.value).answer.Yields? {
          EventChild(i, c.regs);
          var d := Completed(kids, i, c);
          CompletionAccounts(c, Polled(env, child.value), d.regs, AwaitEvent(i, c.regs));
          WalkAccounts(w, kids, instrs, k + 1, d, Dropped(Polled(env, child.value), child.value), 0, None);
        }
      }
    } else {
      WalkPlain(w, kids, instrs, k, c, env, word);
      if k < |instrs| && !IsTerminator(instrs[k].op) && Step(w, instrs[k], c).Some? {
        StepAccounts(w, instrs[k], c, env);
        WalkAccounts(w, kids, instrs, k + 1, Step(w, instrs[k], c).value, env, word, None);
      }
    }
  }

  /// What holds of a frame between polls and when it is done.
  ghost predicate FrameAccounted(kids: Children, blocks: seq<Block>, answer: Poll, g: Frame) {
    match answer
    case Ready(_) => Accounted(g.c, g.env, None)
    case Pending =>
      && 1 <= g.word <= CountAll(blocks) && Waiting(blocks, g).Some?
      && Accounted(g.c, g.env, Waiting(blocks, g)) && kids(Waiting(blocks, g).value).delay > 0
    case _ => true
  }

  lemma {:induction false} PollAccounts(w: World, kids: Children, blocks: seq<Block>, i: nat, k: nat, f: Frame, open: Option<Value>)
    requires Accounted(f.c, f.env, open)
    requires open.Some? ==> i < |blocks| && OpenAt(blocks[i].instrs, k, f.c, open)
    ensures FrameAccounted(kids, blocks, PollFrom(w, kids, blocks, i, k, f).0, PollFrom(w, kids, blocks, i, k, f).1)
    decreases f.budget
  {
    hide Walk, Accounted, ChildOf, Locate, Number, FindLabel, CountAll;
    if i < |blocks| && k <= |blocks[i].instrs| {
      var instrs := blocks[i].instrs;
      WalkAccounts(w, kids, instrs, k, f.c, f.env, f.word, open);
      var s := Walk(w, kids, instrs, k, f.c, f.env, f.word);
      if s.Suspended? {
        LocateNumber(blocks, i, s.at);
      } else if s.Ended? && f.budget > 0 && s.e.Falls? {
        PollAccounts(w, kids, blocks, i + 1, 0, Frame(s.word, s.e.c, s.env, f.budget - 1), None);
      } else if s.Ended? && f.budget > 0 && s.e.Goes? {
        PollAccounts(w, kids, blocks, FindLabel(blocks, s.e.target), 0, Frame(s.word, s.e.c, s.env, f.budget - 1), None);
      }
    }
  }

  lemma ResumeAccounts(w: World, kids: Children, blocks: seq<Block>, f: Frame)
    requires FrameAccounted(kids, blocks, Pending, f)
    ensures FrameAccounted(kids, blocks, PollFrame(w, kids, blocks, f).0, PollFrame(w, kids, blocks, f).1)
  {
    hide PollFrom, Locate, Accounted, ChildOf, CountAll;
    var at := Locate(blocks, f.word);
    PollAccounts(w, kids, blocks, at.0, at.1, f, Waiting(blocks, f));
  }

  lemma {:induction false} BlockOnAccounts(w: World, kids: Children, blocks: seq<Block>, f: Frame, patience: nat)
    requires FrameAccounted(kids, blocks, Pending, f)
    ensures FrameAccounted(kids, blocks, BlockOn(w, kids, blocks, f, patience).0, BlockOn(w, kids, blocks, f, patience).1)
    decreases patience
  {
    hide PollFrame, FrameAccounted;
    if patience > 0 {
      ResumeAccounts(w, kids, blocks, f);
      var (answer, g) := PollFrame(w, kids, blocks, f);
      if answer == Pending { BlockOnAccounts(w, kids, blocks, g, patience - 1); }
    }
  }

  /// At whatever time the frame is dropped: each await that is over dropped its
  /// child once, in order, by the poll that found it ready; the frame drops the
  /// one child it waits for; nothing else is dropped, and no polled child is missed.
  lemma ChildrenAreDroppedOnce(w: World, kids: Children, blocks: seq<Block>, c: Config, budget: nat, patience: nat)
    requires c.trace == [] && patience > 0
    ensures var (answer, g) := BlockOn(w, kids, blocks, Fresh(c, budget), patience);
      var dropped := DropFrame(blocks, g).dropped;
      match answer
      case Ready(_) => dropped == AwaitsIn(g.c.trace) && forall v :: v in g.env.polls <==> v in dropped
      case Pending =>
        && Waiting(blocks, g).Some? && dropped == AwaitsIn(g.c.trace) + [Waiting(blocks, g).value]
        && forall v :: v in g.env.polls <==> v in dropped
      case _ => true
  {
    hide PollFrom, Locate, CountAll, AwaitsIn;
    var f := Fresh(c, budget);
    assert AwaitsIn([]) == [] by { NoAwaits(); }
    PollAccounts(w, kids, blocks, 0, 0, f, None);
    var (answer, g) := PollFrame(w, kids, blocks, f);
    if answer == Pending {
      BlockOnAccounts(w, kids, blocks, g, patience - 1);
    }
    var (last, h) := BlockOn(w, kids, blocks, f, patience);
    if last == Pending {
      var at := Locate(blocks, h.word);
      FirstOperand(blocks[at.0].instrs[at.1], h.c.regs);
    } else if last.Ready? {
      DoneDropsNothing(w, kids, blocks, f, patience);
    }
  }

  /// If the awaited children are distinct, every polled child is dropped exactly
  /// once, and no other child is dropped.
  lemma EveryChildOnce(w: World, kids: Children, blocks: seq<Block>, c: Config, budget: nat, patience: nat)
    requires c.trace == [] && patience > 0
    ensures var (answer, g) := BlockOn(w, kids, blocks, Fresh(c, budget), patience);
      var dropped := multiset(DropFrame(blocks, g).dropped);
      && (answer.Ready? && Distinct(AwaitsIn(g.c.trace)) ==>
           forall v :: dropped[v] == if v in g.env.polls then 1 else 0)
      && (answer == Pending && Waiting(blocks, g).Some? && Distinct(AwaitsIn(g.c.trace) + [Waiting(blocks, g).value]) ==>
           forall v :: dropped[v] == if v in g.env.polls then 1 else 0)
  {
    hide BlockOn, AwaitsIn, Waiting, DropFrame;
    ChildrenAreDroppedOnce(w, kids, blocks, c, budget, patience);
    var (answer, g) := BlockOn(w, kids, blocks, Fresh(c, budget), patience);
    var dropped := DropFrame(blocks, g).dropped;
    if Distinct(dropped) { CountsOnce(dropped); }
  }

  predicate Distinct(s: seq<Value>) { forall i, j :: 0 <= i < j < |s| ==> s[i] != s[j] }

  lemma {:induction false} CountsOnce(s: seq<Value>)
    requires Distinct(s)
    ensures forall v :: multiset(s)[v] == if v in s then 1 else 0
    decreases |s|
  {
    if s != [] {
      var n := |s| - 1;
      CountsOnce(s[..n]);
      assert s == s[..n] + [s[n]];
    }
  }

  lemma NoAwaits()
    ensures AwaitsIn([]) == []
  {
  }

  lemma FirstOperand(i: Instr, regs: Regs)
    requires ChildOf(i, regs).Some?
    ensures i.args != [] && Operand(i.args[0], regs) == ChildOf(i, regs)
  {
    OperandsLength(i.args, regs);
  }

  /// A frame that is done waits for nobody.
  lemma {:induction false} ReadyCompletes(w: World, kids: Children, blocks: seq<Block>, i: nat, k: nat, f: Frame)
    requires PollFrom(w, kids, blocks, i, k, f).0.Ready?
    ensures PollFrom(w, kids, blocks, i, k, f).1.word == COMPLETED
    decreases f.budget
  {
    hide Walk, FindLabel, Number;
    var s := Walk(w, kids, blocks[i].instrs, k, f.c, f.env, f.word);
    if s.e.Falls? {
      ReadyCompletes(w, kids, blocks, i + 1, 0, Frame(s.word, s.e.c, s.env, f.budget - 1));
    } else if s.e.Goes? {
      ReadyCompletes(w, kids, blocks, FindLabel(blocks, s.e.target), 0, Frame(s.word, s.e.c, s.env, f.budget - 1));
    }
  }

  lemma {:induction false} DoneDropsNothing(w: World, kids: Children, blocks: seq<Block>, f: Frame, patience: nat)
    requires BlockOn(w, kids, blocks, f, patience).0.Ready?
    ensures BlockOn(w, kids, blocks, f, patience).1.word == COMPLETED
    ensures DropFrame(blocks, BlockOn(w, kids, blocks, f, patience).1) == BlockOn(w, kids, blocks, f, patience).1.env
    decreases patience
  {
    hide PollFrom, Locate, CountAll;
    var (answer, g) := PollFrame(w, kids, blocks, f);
    if answer == Pending {
      DoneDropsNothing(w, kids, blocks, g, patience - 1);
    } else if f.word == 0 {
      ReadyCompletes(w, kids, blocks, 0, 0, f);
    } else if f.word != COMPLETED {
      var at := Locate(blocks, f.word);
      ReadyCompletes(w, kids, blocks, at.0, at.1, f);
    }
  }

  // ---- polling ends ----

  /// A suspension is further on in the block, or the same await with one more poll.
  lemma {:induction false} WalkAdvances(w: World, kids: Children, instrs: seq<Instr>, k: nat, c: Config, env: Env, word: int)
    requires k <= |instrs|
    ensures var s := Walk(w, kids, instrs, k, c, env, word);
      s.Suspended? ==>
        && k <= s.at < |instrs| && instrs[s.at].op == Await && ChildOf(instrs[s.at], s.c.regs).Some?
        && (s.at == k ==>
          var child := ChildOf(instrs[k], c.regs).value;
          ChildOf(instrs[k], c.regs).Some? && s.c == c && PollsOf(env, child) < kids(child).delay && s.env == Polled(env, child))
    decreases |instrs| - k
  {
    hide Step, Walk, ChildOf, Polled, Dropped;
    if k < |instrs| && instrs[k].op == Await {
      WalkAwait(w, kids, instrs, k, c, env, word);
      var child := ChildOf(instrs[k], c.regs);
      if child.Some? && PollsOf(env, child.value) >= kids(child.value).delay && kids(child.value).answer.Yields? {
        WalkAdvances(w, kids, instrs, k + 1, Completed(kids, instrs[k], c), Dropped(Polled(env, child.value), child.value), 0);
      }
    } else {
      WalkPlain(w, kids, instrs, k, c, env, word);
      if k < |instrs| && !IsTerminator(instrs[k].op) && Step(w, instrs[k], c).Some? {
        WalkAdvances(w, kids, instrs, k + 1, Step(w, instrs[k], c).value, env, word);
      }
    }
  }

  /// Polls still to come before the child at an await is ready.
  function Left(kids: Children, env: Env, child: Option<Value>): nat {
    match child
    case None => 0
    case Some(v) => if kids(v).delay > PollsOf(env, v) then kids(v).delay - PollsOf(env, v) else 0
  }

  lemma {:induction false} PollAdvances(w: World, kids: Children, blocks: seq<Block>, i: nat, k: nat, f: Frame)
    requires PollFrom(w, kids, blocks, i, k, f).0 == Pending
    ensures var g := PollFrom(w, kids, blocks, i, k, f).1;
      && 1 <= g.word <= CountAll(blocks) && g.budget <= f.budget
      && (g.budget == f.budget ==>
        var at := Locate(blocks, g.word);
        && i < |blocks| && at.0 == i && at.1 >= k
        && (at.1 == k ==> Left(kids, g.env, ChildOf(blocks[i].instrs[k], g.c.regs)) < Left(kids, f.env, ChildOf(blocks[i].instrs[k], f.c.regs))))
    decreases f.budget
  {
    hide Walk, ChildOf, Locate, Number, FindLabel, CountAll;
    var instrs := blocks[i].instrs;
    WalkAdvances(w, kids, instrs, k, f.c, f.env, f.word);
    var s := Walk(w, kids, instrs, k, f.c, f.env, f.word);
    if s.Suspended? {
      LocateNumber(blocks, i, s.at);
    } else if s.e.Falls? {
      PollAdvances(w, kids, blocks, i + 1, 0, Frame(s.word, s.e.c, s.env, f.budget - 1));
    } else {
      PollAdvances(w, kids, blocks, FindLabel(blocks, s.e.target), 0, Frame(s.word, s.e.c, s.env, f.budget - 1));
    }
  }

  lemma {:induction false} ResumedEnds(w: World, kids: Children, blocks: seq<Block>, f: Frame) returns (patience: nat)
    requires 1 <= f.word <= CountAll(blocks)
    ensures BlockOn(w, kids, blocks, f, patience).0 != Pending
    decreases f.budget, |blocks[Locate(blocks, f.word).0].instrs| - Locate(blocks, f.word).1,
      Left(kids, f.env, Waiting(blocks, f))
  {
    hide PollFrom, ChildOf, Locate, CountAll;
    var (answer, g) := PollFrame(w, kids, blocks, f);
    if answer == Pending {
      var at := Locate(blocks, f.word);
      PollAdvances(w, kids, blocks, at.0, at.1, f);
      patience := ResumedEnds(w, kids, blocks, g);
      patience := patience + 1;
    } else {
      patience := 1;
    }
  }

  /// Every child is pending only so often, so for every budget of block
  /// transitions there is a number of polls after which the executor has an answer.
  lemma PollingEnds(w: World, kids: Children, blocks: seq<Block>, c: Config, budget: nat) returns (patience: nat)
    ensures BlockOn(w, kids, blocks, Fresh(c, budget), patience).0 != Pending
  {
    hide PollFrom, Locate, CountAll;
    var f := Fresh(c, budget);
    var (answer, g) := PollFrame(w, kids, blocks, f);
    if answer == Pending {
      PollAdvances(w, kids, blocks, 0, 0, f);
      patience := ResumedEnds(w, kids, blocks, g);
      patience := patience + 1;
    } else {
      patience := 1;
    }
  }

  // ---- a child that fails ----

  /// The child that is waited for answers the next poll with an error.
  predicate Ripe(kids: Children, env: Env, open: Option<Value>) {
    open.Some? && PollsOf(env, open.value) >= kids(open.value).delay && kids(open.value).answer.Fails?
  }

  /// Of the children polled so far the failing one alone may not have been dropped.
  ghost predicate FailedBy(kids: Children, code: int, c: Config, env: Env, v: Value) {
    kids(v).answer == Fails(code) && Accounted(c, env, Some(v))
  }

  /// The state word survives a failure if and only if the await that the poll
  /// resumed at is the one that fails; otherwise it is 0.
  ghost predicate FailsFrom(kids: Children, env: Env, open: Option<Value>, word: int, c: Config, c': Config, env': Env, word': int, v: Value) {
    if Ripe(kids, env, open) then v == open.value && word' == word && c' == c
    else word' == 0 && (v in env'.dropped || kids(v).delay == 0)
  }

  lemma {:induction false} WalkFails(w: World, kids: Children, instrs: seq<Instr>, k: nat, c: Config, env: Env, word: int, open: Option<Value>) returns (v: Value)
    requires k <= |instrs| && Accounted(c, env, open) && OpenAt(instrs, k, c, open) && (open.None? ==> word == 0)
    requires Walk(w, kids, instrs, k, c, env, word).ChildFailed?
    ensures var s := Walk(w, kids, instrs, k, c, env, word);
      FailedBy(kids, s.code, s.c, s.env, v) && FailsFrom(kids, env, open, word, c, s.c, s.env, s.word, v)
    decreases |instrs| - k
  {
    hide Step, Accounted, Walk, ChildOf, Polled, Dropped;
    if k < |instrs| && instrs[k].op == Await {
      var i := instrs[k];
      WalkAwait(w, kids, instrs, k, c, env, word);
      v := ChildOf(i, c.regs).value;
      PollingAccounts(c, env, open, v);
      if kids(v).answer.Fails? {
        NotPolled(c, env, open, v);
      } else {
        EventChild(i, c.regs);
        var d := Completed(kids, i, c);
        CompletionAccounts(c, Polled(env, v), d.regs, AwaitEvent(i, c.regs));
        v := WalkFails(w, kids, instrs, k + 1, d, Dropped(Polled(env, v), v), 0, None);
      }
    } else {
      WalkPlain(w, kids, instrs, k, c, env, word);
      StepAccounts(w, instrs[k], c, env);
      v := WalkFails(w, kids, instrs, k + 1, Step(w, instrs[k], c).value, env, word, None);
    }
  }

  /// With nobody waited for, a child that was polled before was dropped.
  lemma NotPolled(c: Config, env: Env, open: Option<Value>, v: Value)
    requires Accounted(c, env, open)
    ensures open.None? ==> v in Polled(env, v).dropped || PollsOf(env, v) == 0
  {
  }

  lemma {:induction false} PollFails(w: World, kids: Children, blocks: seq<Block>, i: nat, k: nat, f: Frame, open: Option<Value>) returns (v: Value)
    requires Accounted(f.c, f.env, open) && (open.None? ==> f.word == 0)
    requires open.Some? ==> i < |blocks| && OpenAt(blocks[i].instrs, k, f.c, open)
    requires PollFrom(w, kids, blocks, i, k, f).0.Failed?
    ensures var (answer, g) := PollFrom(w, kids, blocks, i, k, f);
      FailedBy(kids, answer.code, g.c, g.env, v) && FailsFrom(kids, f.env, open, f.word, f.c, g.c, g.env, g.word, v)
    decreases f.budget
  {
    hide Walk, Accounted, ChildOf, Locate, Number, FindLabel, CountAll;
    var instrs := blocks[i].instrs;
    var s := Walk(w, kids, instrs, k, f.c, f.env, f.word);
    if s.ChildFailed? {
      v := WalkFails(w, kids, instrs, k, f.c, f.env, f.word, open);
    } else {
      WalkAccounts(w, kids, instrs, k, f.c, f.env, f.word, open);
      WalkClears(w, kids, instrs, k, f.c, f.env, f.word, open);
      var next := Frame(s.word, s.e.c, s.env, f.budget - 1);
      v := PollFails(w, kids, blocks, if s.e.Falls? then i + 1 else FindLabel(blocks, s.e.target), 0, next, None);
    }
  }

  /// A walk that goes on past the await it started at has cleared the word.
  lemma {:induction false} WalkClears(w: World, kids: Children, instrs: seq<Instr>, k: nat, c: Config, env: Env, word: int, open: Option<Value>)
    requires k <= |instrs| && OpenAt(instrs, k, c, open) && (open.None? ==> word == 0)
    requires Walk(w, kids, instrs, k, c, env, word).Ended?
    ensures var s := Walk(w, kids, instrs, k, c, env, word);
      s.e.Faults? || (s.word == 0 && !Ripe(kids, env, open))
    decreases |instrs| - k
  {
    hide Step, Walk, ChildOf, Polled, Dropped;
    if k < |instrs| && instrs[k].op == Await {
      WalkAwait(w, kids, instrs, k, c, env, word);
      if ChildOf(instrs[k], c.regs).Some? {
        var child := ChildOf(instrs[k], c.regs).value;
        WalkClears(w, kids, instrs, k + 1, Completed(kids, instrs[k], c), Dropped(Polled(env, child), child), 0, None);
      }
    } else {
      WalkPlain(w, kids, instrs, k, c, env, word);
      if k < |instrs| && !IsTerminator(instrs[k].op) && Step(w, instrs[k], c).Some? {
        WalkClears(w, kids, instrs, k + 1, Step(w, instrs[k], c).value, env, word, None);
      }
    }
  }

  /// A poll that fails, from a fresh frame or one that waits.
  lemma ResumeFails(w: World, kids: Children, blocks: seq<Block>, f: Frame) returns (v: Value)
    requires if f.word == 0 then Accounted(f.c, f.env, None) else FrameAccounted(kids, blocks, Pending, f)
    requires PollFrame(w, kids, blocks, f).0.Failed?
    ensures var (answer, g) := PollFrame(w, kids, blocks, f);
      FailedBy(kids, answer.code, g.c, g.env, v) && FailsFrom(kids, f.env, Waiting(blocks, f), f.word, f.c, g.c, g.env, g.word, v)
  {
    hide PollFrom, Locate, Accounted, ChildOf, CountAll;
    if f.word == 0 {
      v := PollFails(w, kids, blocks, 0, 0, f, None);
    } else {
      var at := Locate(blocks, f.word);
      v := PollFails(w, kids, blocks, at.0, at.1, f, Waiting(blocks, f));
    }
  }

  /// The last poll of a run that fails.
  lemma {:induction false} BlockOnFails(w: World, kids: Children, blocks: seq<Block>, f: Frame, patience: nat) returns (entry: Frame)
    requires if f.word == 0 then Accounted(f.c, f.env, None) else FrameAccounted(kids, blocks, Pending, f)
    requires BlockOn(w, kids, blocks, f, patience).0.Failed?
    ensures PollFrame(w, kids, blocks, entry) == BlockOn(w, kids, blocks, f, patience)
    ensures entry == f || FrameAccounted(kids, blocks, Pending, entry)
    decreases patience
  {
    hide PollFrom, Locate, Accounted, ChildOf, CountAll;
    var (answer, g) := PollFrame(w, kids, blocks, f);
    if answer == Pending {
      if f.word == 0 { PollAccounts(w, kids, blocks, 0, 0, f, None); } else { ResumeAccounts(w, kids, blocks, f); }
      entry := BlockOnFails(w, kids, blocks, g, patience - 1);
    } else {
      entry := f;
    }
  }

  /// When a child fails, in any body, after any number of polls: each await that
  /// is over dropped its child, and the failing child `v` is the one polled child
  /// that may be left. Dropping the frame drops `v` if and only if the failing
  /// await is the one that the last poll resumed at; otherwise the state word is
  /// 0, and the frame drops nothing, neither `v` nor a child a second time. If
  /// `v` was not awaited before, that is so if and only if it was pending first.
  lemma FailingChildMayLeak(w: World, kids: Children, blocks: seq<Block>, c: Config, budget: nat, patience: nat) returns (entry: Frame, v: Value)
    requires c.trace == [] && BlockOn(w, kids, blocks, Fresh(c, budget), patience).0.Failed?
    ensures var (answer, g) := BlockOn(w, kids, blocks, Fresh(c, budget), patience);
      var resumed := Ripe(kids, entry.env, Waiting(blocks, entry));
      && PollFrame(w, kids, blocks, entry) == (answer, g)
      && kids(v).answer == Fails(answer.code)
      && g.env.dropped == AwaitsIn(g.c.trace) && (forall u :: u in g.env.polls <==> u in g.env.dropped || u == v)
      && g.word == (if resumed then entry.word else 0)
      && DropFrame(blocks, g).dropped == g.env.dropped + (if resumed then [v] else [])
      && (v !in g.env.dropped ==> (resumed <==> kids(v).delay > 0))
  {
    hide PollFrom, Locate, CountAll, ChildOf, AwaitsIn;
    assert AwaitsIn([]) == [] by { NoAwaits(); }
    entry := BlockOnFails(w, kids, blocks, Fresh(c, budget), patience);
    v := ResumeFails(w, kids, blocks, entry);
    if Ripe(kids, entry.env, Waiting(blocks, entry)) {
      var at := Locate(blocks, entry.word);
      FirstOperand(blocks[at.0].instrs[at.1], entry.c.regs);
    }
  }

  // ---- a body of one await ----

  /// `return (await child)`
  function Solo(child: Name, result: Name, ty: Ty): seq<Block> {
    [Block(Entry, [Instr(Await, Some(result), ty, [child], "", false), Instr(Return, None, ty, [result], "", false)], true)]
  }

  lemma SoloCount(child: Name, result: Name, ty: Ty)
    ensures CountAll(Solo(child, result, ty)) == 1 && Number(Solo(child, result, ty), 0, 0) == 1 && Locate(Solo(child, result, ty), 1) == (0, 0)
  {
    var blocks := Solo(child, result, ty);
    var instrs := blocks[0].instrs;
    assert instrs[..1] == [instrs[0]] && instrs[..0] == [] && [instrs[0]][..0] == [];
    assert Count([instrs[0]]) == 1;
    assert Count(instrs) == 1;
    assert blocks[..0] == [];
    LocateNumber(blocks, 0, 0);
  }

  lemma SoloPoll(w: World, kids: Children, child: Name, result: Name, ty: Ty, f: Frame, v: Value)
    requires !child.Slot? && child in f.c.regs && f.c.regs[child] == v && kids(v).answer.Fails? && (f.word == 0 || f.word == 1)
    ensures var blocks := Solo(child, result, ty);
      PollFrame(w, kids, blocks, f) ==
        if PollsOf(f.env, v) < kids(v).delay then (Pending, Frame(1, f.c, Polled(f.env, v), f.budget))
        else (Failed(kids(v).answer.code), Frame(f.word, f.c, Polled(f.env, v), f.budget))
  {
    var blocks := Solo(child, result, ty);
    SoloCount(child, result, ty);
    hide Locate, Number, CountAll;
    assert [child][1..] == [];
    assert Operands([], f.c.regs) == Some([]);
    assert [v] + [] == [v];
    assert Operands([child], f.c.regs) == Some([v]);
  }

  lemma {:induction false} SoloBlocks(w: World, kids: Children, child: Name, result: Name, ty: Ty, f: Frame, v: Value)
    requires !child.Slot? && child in f.c.regs && f.c.regs[child] == v && kids(v).answer.Fails? && f.word == 1
    ensures var left := Left(kids, f.env, Some(v));
      var (answer, g) := BlockOn(w, kids, Solo(child, result, ty), f, left + 1);
      answer == Failed(kids(v).answer.code) && g.word == 1 && g.c == f.c && g.env.dropped == f.env.dropped
    decreases Left(kids, f.env, Some(v))
  {
    hide PollFrame, Solo;
    SoloPoll(w, kids, child, result, ty, f, v);
    if PollsOf(f.env, v) < kids(v).delay {
      SoloBlocks(w, kids, child, result, ty, Frame(1, f.c, Polled(f.env, v), f.budget), v);
    }
  }

  /// A child that fails on its first poll is never dropped: the state word is
  /// still 0. One that was pending before is dropped with the frame.
  lemma SoloChildMayLeak(w: World, kids: Children, child: Name, result: Name, ty: Ty, c: Config, budget: nat, v: Value)
    requires !child.Slot? && child in c.regs && c.regs[child] == v && kids(v).answer.Fails?
    ensures var blocks := Solo(child, result, ty);
      var (answer, g) := BlockOn(w, kids, blocks, Fresh(c, budget), kids(v).delay + 1);
      && answer == Failed(kids(v).answer.code)
      && DropFrame(blocks, g).dropped == (if kids(v).delay > 0 then [v] else [])
  {
    hide PollFrame, Locate, CountAll;
    var blocks := Solo(child, result, ty);
    var f := Fresh(c, budget);
    SoloPoll(w, kids, child, result, ty, f, v);
    SoloCount(child, result, ty);
    if kids(v).delay > 0 {
      SoloBlocks(w, kids, child, result, ty, Frame(1, c, Polled(f.env, v), budget), v);
    }
  }
}
