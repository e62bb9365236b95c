/// `SeqLock` (stdlib/core/sync.ux:108-134) as interleaved atomic steps of writers
/// and any number of readers over any number of data words.

module SeqLock {
  datatype Reader =
    | Resting
    | Beginning
    | Reading(stamp: nat, seen: map<nat, int>)
    | Accepted(stamp: nat, seen: map<nat, int>)

  /// `versions` are the contents after each completed write, the initial one first.
  datatype State = State(seqno: nat, words: seq<int>, writers: nat, versions: seq<seq<int>>, readers: seq<Reader>)

  datatype Action =
    | WriteBegin
    | WriteWord(index: nat, value: int)
    | WriteEnd
    | ReadBegin(reader: nat)
    | ReadWord(reader: nat, index: nat)
    | ReadRetry(reader: nat)

  function SetReader(s: State, r: nat, to: Reader): (s': State)
    requires r < |s.readers|
    ensures |s'.readers| == |s.readers|
  {
    s.(readers := s.readers[r := to])
  }

  /// One atomic step. With `exclusive`, a writer begins only when none is active.
  function Step(s: State, a: Action, exclusive: bool): State {
    match a
    case WriteBegin =>
      if exclusive && s.writers > 0 then s else s.(seqno := s.seqno + 1, writers := s.writers + 1)
    case WriteWord(i, v) =>
      if s.writers == 0 || i >= |s.words| then s else s.(words := s.words[i := v])
    case WriteEnd =>
      if s.writers == 0 then s
      else s.(seqno := s.seqno + 1, writers := s.writers - 1, versions := if s.writers == 1 then s.versions + [s.words] else s.versions)
    case ReadBegin(r) =>
      if r >= |s.readers| || s.readers[r].Reading? then s
      else SetReader(s, r, if s.seqno % 2 == 0 then Reading(s.seqno, map[]) else Beginning)
    case ReadWord(r, i) =>
      if r >= |s.readers| || !s.readers[r].Reading? || i >= |s.words| then s
      else SetReader(s, r, Reading(s.readers[r].stamp, s.readers[r].seen[i := s.words[i]]))
    case ReadRetry(r) =>
      if r >= |s.readers| || !s.readers[r].Reading? then s
      else SetReader(s, r, if s.seqno != s.readers[r].stamp then Resting else Accepted(s.readers[r].stamp, s.readers[r].seen))
  }

  function Run(s: State, actions: seq<Action>, exclusive: bool): State
    decreases |actions|
  {
    if actions == [] then s else Run(Step(s, actions[0], exclusive), actions[1..], exclusive)
  }

  function Start(words: seq<int>, readers: nat): State { State(0, words, 0, [words], seq(readers, _ => Resting)) }

  /// What was seen is in version `k`.
  ghost predicate From(seen: map<nat, int>, versions: seq<seq<int>>, k: nat) {
    k < |versions| && forall i :: i in seen ==> i < |versions[k]| && seen[i] == versions[k][i]
  }

  ghost predicate Inv(s: State) {
    && s.writers <= 1 && |s.versions| >= 1
    && s.seqno == 2 * (|s.versions| - 1) + s.writers
    && (s.writers == 0 ==> s.words == s.versions[|s.versions| - 1])
    && (forall k :: 0 <= k < |s.versions| ==> |s.versions[k]| == |s.words|)
    && (forall r :: 0 <= r < |s.readers| && s.readers[r].Reading? ==>
      && s.readers[r].stamp % 2 == 0 && s.readers[r].stamp <= s.seqno
      && (s.readers[r].stamp == s.seqno ==> From(s.readers[r].seen, s.versions, s.readers[r].stamp / 2)))
    && (forall r :: 0 <= r < |s.readers| && s.readers[r].Accepted? ==> From(s.readers[r].seen, s.versions, s.readers[r].stamp / 2))
  }

  lemma StepKeepsInv(s: State, a: Action)
    requires Inv(s)
    ensures Inv(Step(s, a, true)) && s.versions <= Step(s, a, true).versions
  {
    if a.ReadWord? && a.reader < |s.readers| && s.readers[a.reader].Reading? && a.index < |s.words| {
      var rd := s.readers[a.reader];
      if rd.stamp == s.seqno {
        // An even number: no writer is active and the words are a version.
        assert s.writers == 0 && rd.stamp / 2 == |s.versions| - 1;
      }
    }
  }

  lemma {:induction false} RunKeepsInv(s: State, actions: seq<Action>)
    requires Inv(s)
    ensures Inv(Run(s, actions, true))
    decreases |actions|
  {
    if actions != [] {
      StepKeepsInv(s, actions[0]);
      RunKeepsInv(Step(s, actions[0], true), actions[1..]);
    }
  }

  /// With at most one writer at a time, any number of readers and words and any
  /// interleaving: a reader whose `read_retry` answered false saw every word as
  /// one completed write left it.
  lemma SnapshotsAreNotTorn(words: seq<int>, readers: nat, actions: seq<Action>, r: nat)
    requires r < |Run(Start(words, readers), actions, true).readers|
    requires Run(Start(words, readers), actions, true).readers[r].Accepted?
    ensures var s := Run(Start(words, readers), actions, true);
      From(s.readers[r].seen, s.versions, s.readers[r].stamp / 2)
  {
    RunKeepsInv(Start(words, readers), actions);
  }

  /// The stamp is never ahead of the lock, and an accepted one was even.
  lemma StampsAreEven(words: seq<int>, readers: nat, actions: seq<Action>, r: nat)
    requires r < |Run(Start(words, readers), actions, true).readers|
    requires Run(Start(words, readers), actions, true).readers[r].Reading?
    ensures var s := Run(Start(words, readers), actions, true);
      s.readers[r].stamp % 2 == 0 && s.readers[r].stamp <= s.seqno
  {
    RunKeepsInv(Start(words, readers), actions);
  }

  /// Two writers at once: the number is even again while both write.
  function Overlap(v: int): seq<Action> {
    [WriteBegin, WriteBegin, WriteWord(0, v), ReadBegin(0), ReadWord(0, 0), WriteWord(1, v), ReadWord(0, 1), WriteWord(0, 0), ReadRetry(0), WriteEnd, WriteEnd]
  }

  /// Writers must exclude each other: without that, a reader accepts two words
  /// that no version holds together.
  lemma OverlappingWritersTear(v: int)
    requires v != 0
    ensures var s := Run(Start([0, 0], 1), Overlap(v), false);
      && |s.readers| == 1 && s.readers[0] == Accepted(2, map[0 := v, 1 := v])
      && forall k :: 0 <= k < |s.versions| ==> !From(s.readers[0].seen, s.versions, k)
  {
    hide *;
    var zero := [0, 0];
    var none: map<nat, int> := map[];
    var r8 := [ReadRetry(0), WriteEnd] + [WriteEnd];
    var r6 := [ReadWord(0, 1), WriteWord(0, 0)] + r8;
    var r4 := [ReadWord(0, 0), WriteWord(1, v)] + r6;
    var r2 := [WriteWord(0, v), ReadBegin(0)] + r4;
    OverlapIs(v);
    StartIs(zero);
    var s0 := State(0, zero, 0, [zero], [Resting]);
    var s2 := State(2, zero, 2, [zero], [Resting]);
    RunTwo(s0, WriteBegin, WriteBegin, r2);
    BeginTwice(s0);
    var s4 := State(2, [v, 0], 2, [zero], [Reading(2, none)]);
    RunTwo(s2, WriteWord(0, v), ReadBegin(0), r4);
    WriteThenBegin(s2, v);
    var s6 := State(2, [v, v], 2, [zero], [Reading(2, map[0 := v])]);
    RunTwo(s4, ReadWord(0, 0), WriteWord(1, v), r6);
    ReadThenWrite(s4, 0, 1, v);
    assert [v, 0][1 := v] == [v, v];
    var s8 := State(2, [0, v], 2, [zero], [Reading(2, map[0 := v, 1 := v])]);
    RunTwo(s6, ReadWord(0, 1), WriteWord(0, 0), r8);
    ReadThenWrite(s6, 1, 0, 0);
    assert [v, v][0 := 0] == [0, v] && map[0 := v][1 := v] == map[0 := v, 1 := v];
    RunTwo(s8, ReadRetry(0), WriteEnd, [WriteEnd]);
    RetryThenEnds(s8, 2, map[0 := v, 1 := v]);
    NeitherVersion(v);
  }

  lemma OverlapIs(v: int)
    ensures Overlap(v) == [WriteBegin, WriteBegin] + ([WriteWord(0, v), ReadBegin(0)] + ([ReadWord(0, 0), WriteWord(1, v)]
              + ([ReadWord(0, 1), WriteWord(0, 0)] + ([ReadRetry(0), WriteEnd] + [WriteEnd]))))
  {
  }

  lemma StartIs(words: seq<int>)
    ensures Start(words, 1) == State(0, words, 0, [words], [Resting])
  {
  }

  lemma BeginTwice(s: State)
    ensures Step(Step(s, WriteBegin, false), WriteBegin, false) == s.(seqno := s.seqno + 2, writers := s.writers + 2)
  {
  }

  lemma WriteThenBegin(s: State, v: int)
    requires s.writers > 0 && s.words == [0, 0] && s.seqno % 2 == 0 && s.readers == [Resting]
    ensures Step(Step(s, WriteWord(0, v), false), ReadBegin(0), false) == s.(words := [v, 0], readers := [Reading(s.seqno, map[])])
  {
  }

  lemma ReadThenWrite(s: State, i: nat, j: nat, v: int)
    requires s.writers > 0 && i < |s.words| && j < |s.words| && |s.readers| == 1 && s.readers[0].Reading?
    ensures Step(Step(s, ReadWord(0, i), false), WriteWord(j, v), false)
      == s.(words := s.words[j := v], readers := [Reading(s.readers[0].stamp, s.readers[0].seen[i := s.words[i]])])
  {
  }

  lemma RetryThenEnds(s: State, stamp: nat, seen: map<nat, int>)
    requires s.writers == 2 && s.seqno == stamp && s.readers == [Reading(stamp, seen)]
    ensures Run(Step(Step(s, ReadRetry(0), false), WriteEnd, false), [WriteEnd], false)
      == State(stamp + 2, s.words, 0, s.versions + [s.words], [Accepted(stamp, seen)])
  {
    var t := Step(Step(s, ReadRetry(0), false), WriteEnd, false);
    assert t == State(stamp + 1, s.words, 1, s.versions, [Accepted(stamp, seen)]);
    assert [WriteEnd][1..] == [];
  }

  lemma NeitherVersion(v: int)
    requires v != 0
    ensures forall k :: 0 <= k < 2 ==> !From(map[0 := v, 1 := v], [[0, 0]] + [[0, v]], k)
  {
    var seen := map[0 := v, 1 := v];
    assert 0 in seen && seen[0] == v;
  }

  lemma RunTwo(s: State, a: Action, b: Action, rest: seq<Action>)
    ensures Run(s, [a, b] + rest, false) == Run(Step(Step(s, a, false), b, false), rest, false)
  {
    assert ([a, b] + rest)[1..] == [b] + rest;
    assert ([b] + rest)[1..] == rest;
  }

  // ---- what one reader and one writer do ----

  lemma {:induction false} RunSplit(s: State, first: seq<Action>, second: seq<Action>, exclusive: bool)
    ensures Run(s, first + second, exclusive) == Run(Run(s, first, exclusive), second, exclusive)
    decreases |first|
  {
    if first == [] {
      assert first + second == second;
    } else {
      assert (first + second)[1..] == first[1..] + second;
      RunSplit(Step(s, first[0], exclusive), first[1..], second, exclusive);
    }
  }

  lemma RunOne(s: State, a: Action, exclusive: bool)
    ensures Run(s, [a], exclusive) == Step(s, a, exclusive)
  {
    assert [a][1..] == [];
  }

  /// Neither begins nor ends a read of `r`.
  predicate InsideRead(r: nat, actions: seq<Action>) { ReadBegin(r) !in actions && ReadRetry(r) !in actions }

  predicate NoWriter(actions: seq<Action>) { WriteBegin !in actions && WriteEnd !in actions }

  /// Between its begin and its end a reader keeps its stamp and gathers the words
  /// that it reads; one that waits keeps waiting.
  lemma {:induction false} ReadGoesOn(s: State, r: nat, actions: seq<Action>)
    requires r < |s.readers| && InsideRead(r, actions)
    ensures var m := Run(s, actions, true);
      && |m.readers| == |s.readers| && |m.words| == |s.words| && s.seqno <= m.seqno
      && (NoWriter(actions) ==> m.seqno == s.seqno)
      && (!s.readers[r].Reading? ==> m.readers[r] == s.readers[r])
      && (s.readers[r].Reading? ==> m.readers[r].Reading? && m.readers[r].stamp == s.readers[r].stamp)
      && (s.readers[r].Reading? ==>
            forall i: nat :: i in m.readers[r].seen <==> i in s.readers[r].seen || (i < |s.words| && ReadWord(r, i) in actions))
    decreases |actions|
  {
    if actions != [] {
      var a := actions[0];
      ReadGoesOn(Step(s, a, true), r, actions[1..]);
      assert actions == [a] + actions[1..];
    }
  }

  /// From every reachable state: a read that begins on an even number is accepted
  /// if and only if the number is the same at its end, so every read that no
  /// writer disturbs is; on an odd number it does not begin. It has then seen the
  /// words it asked for and no others.
  lemma ReadsAreAcceptedUnlessDisturbed(words: seq<int>, readers: nat, actions: seq<Action>, r: nat, middle: seq<Action>)
    requires r < |Run(Start(words, readers), actions, true).readers| && InsideRead(r, middle)
    requires !Run(Start(words, readers), actions, true).readers[r].Reading?
    ensures var s := Run(Start(words, readers), actions, true);
      var m := Run(s, [ReadBegin(r)] + middle, true);
      var e := Run(m, [ReadRetry(r)], true);
      && |e.readers| == |s.readers| && (NoWriter(middle) ==> m.seqno == s.seqno)
      && (s.seqno % 2 == 1 ==> e.readers[r] == Beginning)
      && (s.seqno % 2 == 0 ==> (e.readers[r].Accepted? <==> m.seqno == s.seqno) && (!e.readers[r].Accepted? ==> e.readers[r] == Resting))
      && (e.readers[r].Accepted? ==> e.readers[r].stamp == s.seqno)
      && (e.readers[r].Accepted? ==> forall i: nat :: i in e.readers[r].seen <==> i < |s.words| && ReadWord(r, i) in middle)
  {
    var s := Run(Start(words, readers), actions, true);
    var b := Step(s, ReadBegin(r), true);
    var m := Run(b, middle, true);
    RunSplit(s, [ReadBegin(r)], middle, true);
    RunOne(s, ReadBegin(r), true);
    ReadGoesOn(b, r, middle);
    RunOne(m, ReadRetry(r), true);
  }

  /// What the writes leave in word `i`.
  function Latest(writes: seq<Action>, i: nat, before: int): int
    decreases |writes|
  {
    if writes == [] then before
    else Latest(writes[1..], i, if writes[0].WriteWord? && writes[0].index == i then writes[0].value else before)
  }

  predicate Writes(actions: seq<Action>) { forall a :: a in actions ==> a.WriteWord? }

  lemma {:induction false} WritesLand(s: State, writes: seq<Action>)
    requires s.writers > 0 && Writes(writes)
    ensures var m := Run(s, writes, true);
      && m == s.(words := m.words) && |m.words| == |s.words|
      && forall i :: 0 <= i < |s.words| ==> m.words[i] == Latest(writes, i, s.words[i])
    decreases |writes|
  {
    if writes != [] {
      assert writes[0] in writes;
      WritesLand(Step(s, writes[0], true), writes[1..]);
    }
  }

  /// A writer alone publishes one version: each word as last written, two numbers
  /// later, and readers are left alone.
  lemma WriterPublishes(words: seq<int>, readers: nat, actions: seq<Action>, writes: seq<Action>)
    requires Run(Start(words, readers), actions, true).writers == 0 && Writes(writes)
    ensures var s := Run(Start(words, readers), actions, true);
      var e := Run(s, [WriteBegin] + writes + [WriteEnd], true);
      && e.seqno == s.seqno + 2 && e.writers == 0 && e.readers == s.readers && e.versions == s.versions + [e.words]
      && |e.words| == |s.words| && forall i :: 0 <= i < |s.words| ==> e.words[i] == Latest(writes, i, s.words[i])
  {
    var s := Run(Start(words, readers), actions, true);
    var b := Step(s, WriteBegin, true);
    RunSplit(s, [WriteBegin] + writes, [WriteEnd], true);
    RunSplit(s, [WriteBegin], writes, true);
    RunOne(s, WriteBegin, true);
    WritesLand(b, writes);
    RunOne(Run(b, writes, true), WriteEnd, true);
  }
}
