/// `TicketSpinLock` (stdlib/core/sync.ux:36-65) as atomic steps of any number of threads.

module TicketLock {
  // Counters are unbounded, and every atomic call is one step.

  /// Where a thread stands. `Spinning`, `Holding` and `Unlocking` own a ticket.
  datatype Pc =
    | Idle
    | Spinning(ticket: nat)
    | TryLoaded(cur: nat)
    | TrySwapping(expected: nat)
    | Holding(ticket: nat)
    | Unlocking(ticket: nat, cur: nat)

  /// `entries` records the tickets in the order in which they entered.
  datatype State = State(next: nat, serving: nat, threads: seq<Pc>, entries: seq<nat>)

  /// What an idle thread may begin; elsewhere the next step is determined.
  datatype Call = Lock | TryLock

  datatype Action = Action(thread: nat, call: Call)

  function Set(s: State, t: nat, pc: Pc): State
    requires t < |s.threads|
  {
    s.(threads := s.threads[t := pc])
  }

  /// One atomic step of one thread.
  function Step(s: State, a: Action): (r: State)
    ensures |r.threads| == |s.threads|
  {
    if a.thread >= |s.threads| then s
    else
      var t := a.thread;
      match s.threads[t]
      case Idle =>
        (match a.call
         case Lock => Set(s.(next := s.next + 1), t, Spinning(s.next))
         case TryLock => Set(s, t, TryLoaded(s.serving)))
      case Spinning(ticket) =>
        if s.serving == ticket then Set(s.(entries := s.entries + [ticket]), t, Holding(ticket)) else s
      case TryLoaded(cur) =>
        if cur != s.next then Set(s, t, Idle) else Set(s, t, TrySwapping(s.next))
      case TrySwapping(expected) =>
        if s.next == expected then
          Set(s.(next := expected + 1, entries := s.entries + [expected]), t, Holding(expected))
        else Set(s, t, Idle)
      case Holding(ticket) => Set(s, t, Unlocking(ticket, s.serving))
      case Unlocking(_, cur) => Set(s.(serving := cur + 1), t, Idle)
  }

  function Run(s: State, actions: seq<Action>): (r: State)
    ensures |r.threads| == |s.threads|
    decreases |actions|
  {
    if actions == [] then s else Run(Step(s, actions[0]), actions[1..])
  }

  function Start(n: nat): State { State(0, 0, seq(n, _ => Idle), []) }

  predicate Owns(pc: Pc) { pc.Spinning? || pc.Holding? || pc.Unlocking? }

  predicate Inside(pc: Pc) { pc.Holding? || pc.Unlocking? }

  ghost predicate Held(s: State) { exists t :: 0 <= t < |s.threads| && Inside(s.threads[t]) }

  ghost predicate HasOwner(s: State, k: nat) {
    exists t :: 0 <= t < |s.threads| && Owns(s.threads[t]) && s.threads[t].ticket == k
  }

  /// Tickets out are exactly those from `serving` to `next`, one owner each.
  ghost predicate TicketsOut(s: State) {
    && (forall t :: 0 <= t < |s.threads| && Owns(s.threads[t]) ==> s.serving <= s.threads[t].ticket < s.next)
    && (forall t, u :: 0 <= t < u < |s.threads| && Owns(s.threads[t]) && Owns(s.threads[u]) ==> s.threads[t].ticket != s.threads[u].ticket)
    && (forall k :: s.serving <= k < s.next ==> HasOwner(s, k))
  }

  ghost predicate Inv(s: State) {
    && s.serving <= s.next && TicketsOut(s)
    && (forall t :: 0 <= t < |s.threads| && Inside(s.threads[t]) ==> s.threads[t].ticket == s.serving)
    && (forall t :: 0 <= t < |s.threads| && s.threads[t].Unlocking? ==> s.threads[t].cur == s.serving)
    && (forall t :: 0 <= t < |s.threads| && s.threads[t].TryLoaded? ==> s.threads[t].cur <= s.serving)
    && (forall t :: 0 <= t < |s.threads| && s.threads[t].TrySwapping? ==> s.threads[t].expected <= s.serving)
    && |s.entries| == s.serving + (if Held(s) then 1 else 0)
    && (forall k :: 0 <= k < |s.entries| ==> s.entries[k] == k)
  }

  /// Only one thread is inside: its ticket is the one being served.
  lemma OneInside(s: State, t: nat, u: nat)
    requires Inv(s) && t < |s.threads| && u < |s.threads| && Inside(s.threads[t]) && Inside(s.threads[u])
    ensures t == u
  {
  }

  lemma OwnerKept(s: State, s': State, t: nat, pc: Pc)
    requires TicketsOut(s) && t < |s.threads| && s'.threads == s.threads[t := pc] && s'.serving == s.serving && s'.next == s.next
    requires Owns(s.threads[t]) <==> Owns(pc)
    requires Owns(pc) ==> pc.ticket == s.threads[t].ticket
    ensures TicketsOut(s')
  {
    forall k | s.serving <= k < s.next ensures HasOwner(s', k) {
      assert k < s.next ==> HasOwner(s, k);
      var u :| 0 <= u < |s.threads| && Owns(s.threads[u]) && s.threads[u].ticket == k;
      assert Owns(s'.threads[u]) && s'.threads[u].ticket == k;
    }
  }

  /// A thread takes ticket `next`.
  lemma TicketTaken(s: State, s': State, t: nat, pc: Pc)
    requires TicketsOut(s) && s.serving <= s.next && t < |s.threads| && !Owns(s.threads[t]) && Owns(pc) && pc.ticket == s.next
    requires s'.threads == s.threads[t := pc] && s'.serving == s.serving && s'.next == s.next + 1
    ensures TicketsOut(s')
  {
    forall k | s'.serving <= k < s'.next ensures HasOwner(s', k) {
      assert k < s.next ==> HasOwner(s, k);
      if k == s.next {
        assert Owns(s'.threads[t]) && s'.threads[t].ticket == k;
      } else {
        var u :| 0 <= u < |s.threads| && Owns(s.threads[u]) && s.threads[u].ticket == k;
        assert Owns(s'.threads[u]) && s'.threads[u].ticket == k;
      }
    }
  }

  /// The owner of `serving` leaves.
  lemma TicketReturned(s: State, s': State, t: nat)
    requires TicketsOut(s) && t < |s.threads| && Owns(s.threads[t]) && s.threads[t].ticket == s.serving
    requires s'.threads == s.threads[t := Idle] && s'.serving == s.serving + 1 && s'.next == s.next
    ensures TicketsOut(s')
  {
    forall u | 0 <= u < |s'.threads| && Owns(s'.threads[u]) ensures s'.serving <= s'.threads[u].ticket {
      assert u < t || t < u;
    }
    forall k | s'.serving <= k < s'.next ensures HasOwner(s', k) {
      assert k < s.next ==> HasOwner(s, k);
      var u :| 0 <= u < |s.threads| && Owns(s.threads[u]) && s.threads[u].ticket == k;
      assert u != t && Owns(s'.threads[u]) && s'.threads[u].ticket == k;
    }
  }

  lemma HeldSame(s: State, s': State, t: nat, pc: Pc)
    requires t < |s.threads| && s'.threads == s.threads[t := pc] && (Inside(s.threads[t]) <==> Inside(pc))
    ensures Held(s) <==> Held(s')
  {
    if Held(s) {
      var u :| 0 <= u < |s.threads| && Inside(s.threads[u]);
      assert Inside(s'.threads[u]);
    }
    if Held(s') {
      var u :| 0 <= u < |s'.threads| && Inside(s'.threads[u]);
      assert Inside(s.threads[u]);
    }
  }

  /// Nobody is inside when the ticket being served has not entered.
  lemma NotHeld(s: State, t: nat)
    requires Inv(s) && t < |s.threads|
    requires (s.threads[t].Spinning? && s.threads[t].ticket == s.serving) || s.serving == s.next
    ensures !Held(s)
  {
    forall u | 0 <= u < |s.threads| ensures !Inside(s.threads[u]) {
      if u != t { assert u < t || t < u; }
    }
  }

  lemma StepKeepsInv(s: State, a: Action)
    requires Inv(s)
    ensures Inv(Step(s, a))
  {
    if a.thread < |s.threads| {
      var t := a.thread;
      var s' := Step(s, a);
      match s.threads[t]
      case Idle =>
        if a.call == Lock {
          TicketTaken(s, s', t, Spinning(s.next));
        } else {
          OwnerKept(s, s', t, TryLoaded(s.serving));
        }
        HeldSame(s, s', t, s'.threads[t]);
      case Spinning(ticket) =>
        if s.serving == ticket {
          NotHeld(s, t);
          OwnerKept(s, s', t, Holding(ticket));
          assert Inside(s'.threads[t]);
        }
      case TryLoaded(cur) =>
        OwnerKept(s, s', t, s'.threads[t]);
        HeldSame(s, s', t, s'.threads[t]);
      case TrySwapping(expected) =>
        if s.next == expected {
          // What was loaded earlier still says that no ticket is out.
          NotHeld(s, t);
          TicketTaken(s, s', t, Holding(expected));
          assert Inside(s'.threads[t]);
        } else {
          OwnerKept(s, s', t, Idle);
          HeldSame(s, s', t, Idle);
        }
      case Holding(ticket) =>
        OwnerKept(s, s', t, s'.threads[t]);
        HeldSame(s, s', t, s'.threads[t]);
      case Unlocking(ticket, cur) => UnlockKeepsInv(s, a);
    }
  }

  lemma UnlockKeepsInv(s: State, a: Action)
    requires Inv(s) && a.thread < |s.threads| && s.threads[a.thread].Unlocking?
    ensures Inv(Step(s, a))
  {
    var t := a.thread;
    var s' := Step(s, a);
    TicketReturned(s, s', t);
    assert Inside(s.threads[t]);
    forall u | 0 <= u < |s'.threads| ensures !Inside(s'.threads[u]) {
      if u != t && Inside(s.threads[u]) { OneInside(s, t, u); }
    }
  }

  lemma {:induction false} RunKeepsInv(s: State, actions: seq<Action>)
    requires Inv(s)
    ensures Inv(Run(s, actions))
    decreases |actions|
  {
    if actions != [] {
      StepKeepsInv(s, actions[0]);
      RunKeepsInv(Step(s, actions[0]), actions[1..]);
    }
  }

  lemma StartInv(n: nat)
    ensures Inv(Start(n))
  {
  }

  /// For any number of threads and any interleaving of `lock`, `try_lock` and
  /// `unlock`: at most one thread is inside.
  lemma MutualExclusion(n: nat, actions: seq<Action>, t: nat, u: nat)
    requires t < n && u < n
    requires Inside(Run(Start(n), actions).threads[t]) && Inside(Run(Start(n), actions).threads[u])
    ensures t == u
  {
    StartInv(n);
    RunKeepsInv(Start(n), actions);
    OneInside(Run(Start(n), actions), t, u);
  }

  /// Entries happen in the order of tickets, none skipped and none repeated.
  lemma FirstComeFirstServed(n: nat, actions: seq<Action>)
    ensures var s := Run(Start(n), actions);
      && (forall k :: 0 <= k < |s.entries| ==> s.entries[k] == k)
      && s.serving <= |s.entries| <= s.serving + 1 && |s.entries| <= s.next
  {
    StartInv(n);
    RunKeepsInv(Start(n), actions);
    var s := Run(Start(n), actions);
    if Held(s) {
      var t :| 0 <= t < |s.threads| && Inside(s.threads[t]);
      assert Owns(s.threads[t]);
    }
  }

  /// Outstanding tickets are exactly `[serving, next)`, each with one owner.
  lemma OutstandingTickets(n: nat, actions: seq<Action>, k: nat)
    ensures var s := Run(Start(n), actions);
      s.serving <= k < s.next <==> HasOwner(s, k)
  {
    StartInv(n);
    RunKeepsInv(Start(n), actions);
  }

  /// No turn is lost: while a ticket is out, the thread that owns the one being
  /// served is inside, or enters with its next step.
  lemma NoLostTurn(n: nat, actions: seq<Action>)
    requires Run(Start(n), actions).serving < Run(Start(n), actions).next
    ensures var s := Run(Start(n), actions);
      exists t :: 0 <= t < |s.threads| && Owns(s.threads[t]) && s.threads[t].ticket == s.serving
        && forall call :: Inside(s.threads[t]) || Inside(Step(s, Action(t, call)).threads[t])
  {
    StartInv(n);
    RunKeepsInv(Start(n), actions);
    var s := Run(Start(n), actions);
    assert HasOwner(s, s.serving);
    var t :| 0 <= t < |s.threads| && Owns(s.threads[t]) && s.threads[t].ticket == s.serving;
    forall call ensures Inside(s.threads[t]) || Inside(Step(s, Action(t, call)).threads[t]) {
    }
  }

  // ---- what one call does, whatever the others do meanwhile ----

  predicate OfOthers(t: nat, actions: seq<Action>) { forall a :: a in actions ==> a.thread != t }

  lemma {:induction false} RunSplit(s: State, first: seq<Action>, second: seq<Action>)
    ensures Run(s, first + second) == Run(Run(s, first), second)
    decreases |first|
  {
    if first == [] {
      assert first + second == second;
    } else {
      assert (first + second)[1..] == first[1..] + second;
      RunSplit(Step(s, first[0]), first[1..], second);
    }
  }

  lemma RunOne(s: State, a: Action)
    ensures Run(s, [a]) == Step(s, a)
  {
    assert [a][1..] == [];
  }

  /// The others neither see nor change where `t` stands.
  lemma {:induction false} OthersAreBlind(s: State, t: nat, pc: Pc, others: seq<Action>)
    requires t < |s.threads| && OfOthers(t, others)
    ensures Run(Set(s, t, pc), others) == Set(Run(s, others), t, pc) && Run(s, others).threads[t] == s.threads[t]
    decreases |others|
  {
    if others != [] {
      var a := others[0];
      assert Step(Set(s, t, pc), a) == Set(Step(s, a), t, pc) by {
        if a.thread < |s.threads| {
          var s' := Step(s, a);
          assert s'.threads[t := pc] == s.threads[t := pc][a.thread := s'.threads[a.thread]];
        }
      }
      OthersAreBlind(Step(s, a), t, pc, others[1..]);
    }
  }

  /// `t` steps once, then the others run.
  lemma StepThenOthers(s: State, t: nat, call: Call, others: seq<Action>, pc: Pc)
    requires t < |s.threads| && OfOthers(t, others) && Step(s, Action(t, call)) == Set(s, t, pc)
    ensures Run(s, [Action(t, call)] + others) == Set(Run(s, others), t, pc)
  {
    RunSplit(s, [Action(t, call)], others);
    RunOne(s, Action(t, call));
    OthersAreBlind(s, t, pc, others);
  }

  /// A `try_lock` of `t` from `s` to its end: its first load, what the others do
  /// up to the second, and if that does not end it, what they do up to the exchange.
  ghost function Tried(s: State, t: nat, first: seq<Action>, second: seq<Action>): State
    requires t < |s.threads|
  {
    var looked := Run(s, [Action(t, TryLock)] + first + [Action(t, TryLock)]);
    if looked.threads[t] == Idle then looked else Run(looked, second + [Action(t, TryLock)])
  }

  lemma TryLockLooks(s: State, t: nat, first: seq<Action>)
    requires t < |s.threads| && s.threads[t] == Idle && OfOthers(t, first)
    ensures var seen := Run(s, first);
      Run(s, [Action(t, TryLock)] + first + [Action(t, TryLock)]) == Set(seen, t, if s.serving == seen.next then TrySwapping(seen.next) else Idle)
  {
    var seen := Run(s, first);
    var pc := TryLoaded(s.serving);
    StepThenOthers(s, t, TryLock, first, pc);
    RunSplit(s, [Action(t, TryLock)] + first, [Action(t, TryLock)]);
    RunOne(Set(seen, t, pc), Action(t, TryLock));
    hide Run;
    var after := Step(Set(seen, t, pc), Action(t, TryLock));
    assert after.threads == seen.threads[t := after.threads[t]];
  }

  lemma TryLockSwaps(s: State, t: nat, second: seq<Action>, expected: nat)
    requires t < |s.threads| && OfOthers(t, second)
    ensures var swap := Run(s, second);
      Run(Set(s, t, TrySwapping(expected)), second + [Action(t, TryLock)])
      == if swap.next == expected then Set(swap.(next := expected + 1, entries := swap.entries + [expected]), t, Holding(expected)) else Set(swap, t, Idle)
  {
    var swap := Run(s, second);
    var pc := TrySwapping(expected);
    OthersAreBlind(s, t, pc, second);
    RunSplit(Set(s, t, pc), second, [Action(t, TryLock)]);
    RunOne(Set(swap, t, pc), Action(t, TryLock));
    hide Run;
    var after := Step(Set(swap, t, pc), Action(t, TryLock));
    assert after.threads == swap.threads[t := after.threads[t]];
  }

  /// `try_lock` from any reachable state: with `seen` at its second load and `last`
  /// at its exchange, it enters if and only if the ticket it saw being served is
  /// the next one to give out both times, and then with that ticket. Otherwise it
  /// leaves no trace: all is as if only the others had run. When `next` does not
  /// change during the call, it enters if and only if the lock was free.
  lemma TryLockTakesFreeLock(n: nat, actions: seq<Action>, t: nat, first: seq<Action>, second: seq<Action>)
    requires t < n && Run(Start(n), actions).threads[t] == Idle && OfOthers(t, first) && OfOthers(t, second)
    ensures var s := Run(Start(n), actions);
      var seen := Run(s, first);
      var last := Run(seen, second);
      var end := Tried(s, t, first, second);
      && (Inside(end.threads[t]) <==> s.serving == seen.next && s.serving == last.next)
      && (Inside(end.threads[t]) ==>
            end == State(s.serving + 1, s.serving, last.threads[t := Holding(s.serving)], last.entries + [s.serving]))
      && (!Inside(end.threads[t]) ==> end == if s.serving == seen.next then last else seen)
      && (seen.next == s.next && last.next == s.next ==> (Inside(end.threads[t]) <==> s.serving == s.next))
  {
    var s := Run(Start(n), actions);
    var seen := Run(s, first);
    var last := Run(seen, second);
    StartInv(n);
    RunKeepsInv(Start(n), actions);
    hide Inv, Step, Run, OfOthers;
    StaysOrdered(s, first, second);
    OthersAreBlind(s, t, Idle, first);
    OthersAreBlind(seen, t, Idle, second);
    TryLockLooks(s, t, first);
    TryLockSwaps(seen, t, second, seen.next);
    assert seen.threads[t := Idle] == seen.threads && last.threads[t := Idle] == last.threads;
  }

  lemma StaysOrdered(s: State, first: seq<Action>, second: seq<Action>)
    requires Inv(s)
    ensures var last := Run(Run(s, first), second); s.serving <= last.serving <= last.next && Run(s, first).next <= last.next
  {
    hide *;
    ServingGrows(s, first);
    ServingGrows(Run(s, first), second);
  }

  /// Tickets are served in order and never taken back.
  lemma {:induction false} ServingGrows(s: State, actions: seq<Action>)
    requires Inv(s)
    ensures var r := Run(s, actions); Inv(r) && s.serving <= r.serving && s.next <= r.next && r.serving <= r.next
    decreases |actions|
  {
    if actions != [] {
      StepKeepsInv(s, actions[0]);
      ServingGrows(Step(s, actions[0]), actions[1..]);
    }
  }

  /// `lock` from any reachable state takes the next ticket in one step. After
  /// anything the others do, its next step enters if and only if that ticket is
  /// being served, and otherwise changes nothing.
  lemma LockWaitsItsTurn(n: nat, actions: seq<Action>, t: nat, others: seq<Action>, call: Call)
    requires t < n && Run(Start(n), actions).threads[t] == Idle && OfOthers(t, others)
    ensures var s := Run(Start(n), actions);
      var took := Run(s, [Action(t, Lock)]);
      var waited := Run(took, others);
      var tried := Run(waited, [Action(t, call)]);
      && took.next == s.next + 1 && took.serving == s.serving && took.entries == s.entries
      && (forall u :: 0 <= u < n && u != t ==> took.threads[u] == s.threads[u])
      && (Inside(tried.threads[t]) <==> waited.serving == s.next)
      && tried == if waited.serving == s.next
                 then waited.(entries := waited.entries + [s.next], threads := waited.threads[t := Holding(s.next)]) else waited
  {
    var s := Run(Start(n), actions);
    var took := Step(s, Action(t, Lock));
    RunOne(s, Action(t, Lock));
    OthersAreBlind(took, t, Idle, others);
    RunOne(Run(took, others), Action(t, call));
  }

  /// Whoever is inside leaves in two steps of its own and serves the next ticket.
  lemma UnlockServesNext(n: nat, actions: seq<Action>, t: nat, others: seq<Action>)
    requires t < n && Run(Start(n), actions).threads[t].Holding? && OfOthers(t, others)
    ensures var s := Run(Start(n), actions);
      var alone := Run(s, others);
      Run(s, [Action(t, Lock)] + others + [Action(t, Lock)]) == alone.(serving := s.serving + 1, threads := alone.threads[t := Idle])
  {
    var s := Run(Start(n), actions);
    var pc := Unlocking(s.threads[t].ticket, s.serving);
    StepThenOthers(s, t, Lock, others, pc);
    RunSplit(s, [Action(t, Lock)] + others, [Action(t, Lock)]);
    RunOne(Set(Run(s, others), t, pc), Action(t, Lock));
    hide Run;
    assert Run(s, others).threads[t := pc][t := Idle] == Run(s, others).threads[t := Idle];
  }

  // ---- everyone gets in ----

  ghost predicate CanReach(s: State, k: nat) { exists more :: |Run(s, more).entries| > k }

  /// Steps left to the thread until its ticket is returned.
  function StepsLeft(pc: Pc): nat { if pc.Spinning? then 3 else if pc.Holding? then 2 else 1 }

  /// The owner of the ticket being served enters, if it is not inside, and leaves.
  lemma {:induction false} ServeOne(s: State, t: nat) returns (more: seq<Action>)
    requires Inv(s) && t < |s.threads| && Owns(s.threads[t]) && s.threads[t].ticket == s.serving
    ensures Run(s, more).serving == s.serving + 1 && Run(s, more).next == s.next && Inv(Run(s, more))
    decreases StepsLeft(s.threads[t])
  {
    var a := Action(t, Lock);
    var s' := Step(s, a);
    StepKeepsInv(s, a);
    hide Inv, Run;
    RunOne(s, a);
    if s.threads[t].Unlocking? {
      more := [a];
      UnlockServes(s, t);
    } else {
      var rest := ServeOne(s', t);
      more := [a] + rest;
      RunSplit(s, [a], rest);
    }
  }

  lemma UnlockServes(s: State, t: nat)
    requires Inv(s) && t < |s.threads| && s.threads[t].Unlocking?
    ensures Step(s, Action(t, Lock)) == s.(serving := s.serving + 1, threads := s.threads[t := Idle])
  {
  }

  lemma {:induction false} TicketIsReached(s: State, k: nat)
    requires Inv(s) && k < s.next
    ensures CanReach(s, k)
    decreases k + 1 - s.serving
  {
    if |s.entries| > k {
      assert Run(s, []) == s;
    } else {
      assert HasOwner(s, s.serving);
      var t :| 0 <= t < |s.threads| && Owns(s.threads[t]) && s.threads[t].ticket == s.serving;
      var more := ServeOne(s, t);
      var s' := Run(s, more);
      if k < s'.serving {
        assert |s'.entries| > k;
      } else {
        TicketIsReached(s', k);
        var rest :| |Run(s', rest).entries| > k;
        RunSplit(s, more, rest);
      }
    }
  }

  /// No ticket is stuck: from every reachable state, every ticket that is out can
  /// still enter, in its order.
  lemma EveryTicketEnters(n: nat, actions: seq<Action>, k: nat)
    requires k < Run(Start(n), actions).next
    ensures CanReach(Run(Start(n), actions), k)
  {
    StartInv(n);
    RunKeepsInv(Start(n), actions);
    TicketIsReached(Run(Start(n), actions), k);
  }
}
