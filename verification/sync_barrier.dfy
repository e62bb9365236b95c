/// `Barrier.wait` (stdlib/core/sync.ux:157-176) as atomic steps of `total` participants.

module Barrier {
  // Participants wait again and again. Counters are unbounded.

  /// Where a thread stands in its current `wait`.
  datatype Pc =
    | Outside
    | Arriving(gen: nat)
    | Waiting(gen: nat)
    | Resetting
    | Releasing

  /// `results` are what a thread's finished waits returned.
  datatype Thread = Thread(pc: Pc, results: seq<bool>)

  datatype State = State(arrived: nat, generation: nat, threads: seq<Thread>)

  function Set(s: State, t: nat, th: Thread): (r: State)
    requires t < |s.threads|
    ensures |r.threads| == |s.threads|
  {
    s.(threads := s.threads[t := th])
  }

  /// One atomic step of thread `t`; the number of participants is `total`.
  function Step(s: State, t: nat): (r: State)
    ensures |r.threads| == |s.threads|
  {
    if t >= |s.threads| then s
    else
      var th := s.threads[t];
      match th.pc
      case Outside => Set(s, t, th.(pc := Arriving(s.generation)))
      case Arriving(gen) =>
        var n := s.arrived + 1;
        Set(s.(arrived := n), t, th.(pc := if n >= |s.threads| then Resetting else Waiting(gen)))
      case Resetting => Set(s.(arrived := 0), t, th.(pc := Releasing))
      case Releasing => Set(s.(generation := s.generation + 1), t, Thread(Outside, th.results + [true]))
      case Waiting(gen) =>
        if s.generation != gen then Set(s, t, Thread(Outside, th.results + [false])) else s
  }

  function Run(s: State, schedule: seq<nat>): (r: State)
    ensures |r.threads| == |s.threads|
    decreases |schedule|
  {
    if schedule == [] then s else Run(Step(s, schedule[0]), schedule[1..])
  }

  function Start(total: nat): State { State(0, 0, seq(total, _ => Thread(Outside, []))) }

  /// Waits that a thread has returned from, and waits that it has entered.
  function Returned(th: Thread): nat { |th.results| }
  function Entered(th: Thread): nat { |th.results| + if th.pc == Outside then 0 else 1 }

  predicate Last(pc: Pc) { pc.Resetting? || pc.Releasing? }

  /// The threads that have arrived in the current generation.
  ghost function Arrivals(s: State): set<nat> {
    set t | 0 <= t < |s.threads| && s.threads[t].pc == Waiting(s.generation)
  }

  ghost predicate Inv(s: State) {
    && (forall t :: 0 <= t < |s.threads| ==>
      match s.threads[t].pc
      case Outside => Returned(s.threads[t]) == s.generation
      case Arriving(gen) => gen == s.generation == Returned(s.threads[t])
      case Waiting(gen) => gen == Returned(s.threads[t]) && s.generation - 1 <= gen <= s.generation
      case _ => Returned(s.threads[t]) == s.generation)
    // Before the last arrival the counter counts the arrivals.
    && ((forall t :: 0 <= t < |s.threads| ==> !Last(s.threads[t].pc)) ==>
      s.arrived == |Arrivals(s)| && (s.threads != [] ==> s.arrived < |s.threads|))
    // Then one thread is the last, and all others have arrived.
    && (forall t, u :: 0 <= t < |s.threads| && 0 <= u < |s.threads| && t != u && Last(s.threads[t].pc) ==>
      s.threads[u].pc == Waiting(s.generation))
    && (forall t :: 0 <= t < |s.threads| && s.threads[t].pc.Releasing? ==> s.arrived == 0)
  }

  /// One thread answers true per generation, and it is the same one for all.
  ghost predicate OneLeader(s: State) {
    forall k :: 0 <= k < s.generation ==> HasLeader(s, k)
  }

  /// Some thread's wait number `k` returned true; every other one that is over returned false.
  ghost predicate HasLeader(s: State, k: nat) {
    exists t :: 0 <= t < |s.threads| && k < |s.threads[t].results| && s.threads[t].results[k]
      && forall u :: 0 <= u < |s.threads| && u != t && k < |s.threads[u].results| ==> !s.threads[u].results[k]
  }

  lemma {:induction false} Indices(n: nat, s: set<nat>)
    requires forall t :: t in s ==> t < n
    ensures |s| <= n && (|s| == n ==> forall t :: 0 <= t < n ==> t in s)
    decreases n
  {
    if n == 0 {
      assert s == {};
    } else if n - 1 in s {
      Indices(n - 1, s - {n - 1});
      if |s| == n {
        forall t | 0 <= t < n - 1 ensures t in s { assert t in s - {n - 1}; }
      }
    } else {
      Indices(n - 1, s);
    }
  }

  /// When the counter reaches the number of threads, all others have arrived.
  lemma LastArrives(s: State, t: nat)
    requires Inv(s) && t < |s.threads| && s.threads[t].pc.Arriving? && forall u :: 0 <= u < |s.threads| ==> !Last(s.threads[u].pc)
    requires s.arrived + 1 >= |s.threads|
    ensures forall u :: 0 <= u < |s.threads| && u != t ==> s.threads[u].pc == Waiting(s.generation)
  {
    var all := Arrivals(s) + {t};
    assert t !in Arrivals(s);
    assert |all| == |Arrivals(s)| + 1;
    assert s.arrived == |Arrivals(s)|;
    Indices(|s.threads|, all);
    assert |all| == |s.threads|;
    forall u: nat | u < |s.threads| && u != t ensures s.threads[u].pc == Waiting(s.generation) {
      assert u in all;
      assert u in Arrivals(s);
    }
  }

  lemma ArrivingKeepsInv(s: State, t: nat)
    requires Inv(s) && t < |s.threads| && s.threads[t].pc.Arriving?
    ensures Inv(Step(s, t))
  {
    forall u | 0 <= u < |s.threads| ensures !Last(s.threads[u].pc) { }
    if s.arrived + 1 >= |s.threads| {
      LastArrives(s, t);
      assert Last(Step(s, t).threads[t].pc);
    } else {
      ArrivalsGrow(s, t);
    }
  }

  lemma ArrivalsGrow(s: State, t: nat)
    requires Inv(s) && t < |s.threads| && s.threads[t].pc.Arriving? && s.arrived + 1 < |s.threads|
    ensures Arrivals(Step(s, t)) == Arrivals(s) + {t} && t !in Arrivals(s)
  {
  }

  lemma ReleasingKeepsInv(s: State, t: nat)
    requires Inv(s) && t < |s.threads| && s.threads[t].pc.Releasing?
    ensures Inv(Step(s, t))
  {
    var s' := Step(s, t);
    assert Arrivals(s') == {};
  }

  lemma NotLast(s: State, t: nat)
    requires Inv(s) && t < |s.threads| && s.threads[t].pc != Waiting(s.generation) && !Last(s.threads[t].pc)
    ensures forall u :: 0 <= u < |s.threads| ==> !Last(s.threads[u].pc)
  {
  }

  lemma StepKeepsInv(s: State, t: nat)
    requires Inv(s)
    ensures Inv(Step(s, t))
  {
    if t < |s.threads| {
      var s' := Step(s, t);
      var pc := s.threads[t].pc;
      if pc.Arriving? {
        ArrivingKeepsInv(s, t);
      } else if pc.Releasing? {
        ReleasingKeepsInv(s, t);
      } else if pc.Resetting? {
        assert Last(s'.threads[t].pc);
      } else if pc.Outside? || pc.gen != s.generation {
        NotLast(s, t);
        assert Arrivals(s') == Arrivals(s);
      }
    }
  }

  lemma LeaderKept(s: State, s': State, k: nat)
    requires HasLeader(s, k) && |s'.threads| == |s.threads|
    requires forall u :: 0 <= u < |s.threads| ==> s.threads[u].results <= s'.threads[u].results
    requires forall u :: 0 <= u < |s.threads| && |s.threads[u].results| <= k < |s'.threads[u].results| ==> !s'.threads[u].results[k]
    ensures HasLeader(s', k)
  {
    var t :| 0 <= t < |s.threads| && k < |s.threads[t].results| && s.threads[t].results[k]
      && forall u :: 0 <= u < |s.threads| && u != t && k < |s.threads[u].results| ==> !s.threads[u].results[k];
    assert s'.threads[t].results[k];
    forall u | 0 <= u < |s'.threads| && u != t && k < |s'.threads[u].results| ensures !s'.threads[u].results[k] { }
  }

  lemma StepKeepsLeaders(s: State, t: nat)
    requires Inv(s) && OneLeader(s)
    ensures OneLeader(Step(s, t))
  {
    if t < |s.threads| {
      var s' := Step(s, t);
      forall k | 0 <= k < s'.generation ensures HasLeader(s', k) {
        if k < s.generation {
          assert HasLeader(s, k);
          LeaderKept(s, s', k);
        } else {
          assert s.threads[t].pc.Releasing? && s'.threads[t].results[k];
          forall u | 0 <= u < |s'.threads| && u != t ensures |s'.threads[u].results| <= k { }
        }
      }
    }
  }

  lemma {:induction false} RunKeepsInv(s: State, schedule: seq<nat>)
    requires Inv(s) && OneLeader(s)
    ensures Inv(Run(s, schedule)) && OneLeader(Run(s, schedule))
    decreases |schedule|
  {
    if schedule != [] {
      StepKeepsInv(s, schedule[0]);
      StepKeepsLeaders(s, schedule[0]);
      RunKeepsInv(Step(s, schedule[0]), schedule[1..]);
    }
  }

  lemma StartInv(total: nat)
    ensures Inv(Start(total)) && OneLeader(Start(total))
  {
    assert Arrivals(Start(total)) == {};
  }

  /// For every number of participants, every interleaving and every number of
  /// rounds: no thread returns from its `k`-th wait before all have entered theirs.
  lemma NobodyPassesEarly(total: nat, schedule: seq<nat>, t: nat, u: nat)
    requires t < total && u < total
    ensures Returned(Run(Start(total), schedule).threads[t]) <= Entered(Run(Start(total), schedule).threads[u])
  {
    StartInv(total);
    RunKeepsInv(Start(total), schedule);
  }

  /// Exactly one `wait` per generation returns true: of all `k`-th waits that are
  /// over, those of one thread and no other.
  lemma ExactlyOneTrue(total: nat, schedule: seq<nat>, t: nat, u: nat, k: nat)
    requires t < total && u < total && t != u
    requires var s := Run(Start(total), schedule); k < Returned(s.threads[t]) && k < Returned(s.threads[u])
    ensures var s := Run(Start(total), schedule);
      && HasLeader(s, k)
      && !(s.threads[t].results[k] && s.threads[u].results[k])
  {
    StartInv(total);
    RunKeepsInv(Start(total), schedule);
    var s := Run(Start(total), schedule);
    assert Returned(s.threads[t]) <= s.generation;
  }

  ghost predicate CanMove(s: State) { exists t: nat :: t < |s.threads| && Step(s, t) != s }

  /// Never are all threads stuck in the barrier: some thread is outside or its
  /// next step takes it on.
  lemma NoDeadlock(total: nat, schedule: seq<nat>)
    requires total > 0
    ensures CanMove(Run(Start(total), schedule))
  {
    StartInv(total);
    RunKeepsInv(Start(total), schedule);
    var s := Run(Start(total), schedule);
    var t: nat;
    if stuck :| 0 <= stuck < total && Last(s.threads[stuck].pc) {
      t := stuck;
    } else {
      Indices(total, Arrivals(s));
      if forall t :: 0 <= t < total ==> t in Arrivals(s) {
        AllIn(total, Arrivals(s));
        assert false;
      }
      t :| 0 <= t < total && t !in Arrivals(s);
    }
    Moves(s, t);
  }

  lemma Moves(s: State, t: nat)
    requires Inv(s) && t < |s.threads| && s.threads[t].pc != Waiting(s.generation)
    ensures Step(s, t) != s
  {
    assert Step(s, t).threads[t] != s.threads[t];
  }

  lemma {:induction false} AllIn(n: nat, s: set<nat>)
    requires forall t :: 0 <= t < n ==> t in s
    ensures |s| >= n
    decreases n
  {
    if n > 0 {
      AllIn(n - 1, s - {n - 1});
    }
  }
}
