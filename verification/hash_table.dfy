/// The runtime's hash table (runtime/collections.c:131-263): open addressing with
/// linear probing, tombstones and doubling. It is a map.

module HashTable {
  datatype Option<+T> = None | Some(value: T)

  type Key = seq<bv8>

  /// A slot: never used, in use, or used before (states 0, 1 and 2).
  datatype Entry = Free | Live(hash: bv64, key: Key, value: int) | Tomb

  const OFFSET_BASIS: bv64 := 1469598103934665603
  const PRIME: bv64 := 1099511628211

  function MixByte(h: bv64, byte: bv8): bv64 { (h ^ (byte as bv64)) * PRIME }

  function Mix(key: Key): bv64
    decreases |key|
  {
    if key == [] then OFFSET_BASIS else MixByte(Mix(key[..|key| - 1]), key[|key| - 1])
  }

  function NonZero(h: bv64): bv64 { if h == 0 then 1 else h }

  function Hash(key: Key): bv64 { NonZero(Mix(key)) }

  /// The hash of three short keys, as the bytes of the empty string, `a` and `ab`.
  lemma HashVectors()
    ensures Hash([]) == 1469598103934665603 && Hash([0x61]) == 4953267810257967366 && Hash([0x61, 0x62]) == 11217423238573040876
  {
    var a: Key, ab: Key := [0x61], [0x61, 0x62];
    assert a[..0] == [] && ab[..1] == a;
    assert MixByte(1469598103934665603, 0x61) == 4953267810257967366;
    assert MixByte(4953267810257967366, 0x62) == 11217423238573040876;
  }

  function Natural(h: bv64): nat { h as nat }

  function Remainder(n: nat, cap: nat): (r: nat)
    requires cap > 0
    ensures r < cap
  {
    n % cap
  }

  /// The slot where probing for a hash starts. Capacities are powers of two, so
  /// masking with `cap - 1` takes the remainder.
  function Home(hash: bv64, cap: nat): (r: nat)
    requires cap > 0
    ensures r < cap
  {
    hide Natural, Remainder;
    Remainder(Natural(hash), cap)
  }

  lemma Division(n: nat, cap: nat)
    requires cap > 0
    ensures n == cap * (n / cap) + Remainder(n, cap)
  {
  }

  /// Below twice the capacity the remainder subtracts it at most once.
  lemma RemainderIs(n: nat, cap: nat)
    requires 0 < cap && n < 2 * cap
    ensures Remainder(n, cap) == if n < cap then n else n - cap
  {
    hide Remainder;
    Division(n, cap);
    OneOrNone(cap, n / cap, Remainder(n, cap));
  }

  lemma OneOrNone(cap: nat, q: nat, r: nat)
    requires r < cap && cap * q + r < 2 * cap
    ensures cap * q == if cap * q + r < cap then 0 else cap
  {
    if q >= 2 { assert cap * q == cap * 2 + cap * (q - 2); }
  }

  function Next(i: nat, cap: nat): (r: nat)
    requires i < cap
    ensures r == (if i + 1 == cap then 0 else i + 1) && r < cap
  {
    hide Remainder;
    RemainderIs(i + 1, cap);
    Remainder(i + 1, cap)
  }

  /// The slot `d` steps after `home`, and how many steps slot `i` is after it.
  function Probe(home: nat, d: nat, cap: nat): (r: nat)
    requires home < cap && d <= cap
    ensures r < cap
  {
    if home + d < cap then home + d else home + d - cap
  }

  function Distance(home: nat, i: nat, cap: nat): (d: nat)
    requires home < cap && i < cap
    ensures d < cap && Probe(home, d, cap) == i
  {
    if i >= home then i - home else i + cap - home
  }

  predicate Holds(e: Entry, key: Key) { e.Live? && e.key == key }

  ghost predicate Stored(es: seq<Entry>, key: Key) {
    exists i :: 0 <= i < |es| && Holds(es[i], key)
  }

  /// No free slot between where probing for a key starts and where the key is.
  ghost predicate Chained(es: seq<Entry>, i: nat)
    requires i < |es| && es[i].Live?
  {
    var home := Home(es[i].hash, |es|);
    forall d :: 0 <= d < Distance(home, i, |es|) ==> !es[Probe(home, d, |es|)].Free?
  }

  /// The slots represent the map `m`.
  ghost predicate Table(es: seq<Entry>, m: map<Key, int>) {
    && |es| > 0
    && (forall i :: 0 <= i < |es| && es[i].Live? ==>
      es[i].hash == Hash(es[i].key) && es[i].key in m && m[es[i].key] == es[i].value && Chained(es, i))
    && (forall key :: key in m ==> Stored(es, key))
    && (forall i, j :: 0 <= i < j < |es| && es[i].Live? && es[j].Live? ==> es[i].key != es[j].key)
  }

  function CountLive(es: seq<Entry>): nat
    decreases |es|
  {
    if es == [] then 0 else CountLive(es[..|es| - 1]) + if es[|es| - 1].Live? then 1 else 0
  }

  function CountTombs(es: seq<Entry>): nat
    decreases |es|
  {
    if es == [] then 0 else CountTombs(es[..|es| - 1]) + if es[|es| - 1].Tomb? then 1 else 0
  }

  lemma {:induction false} CountSet(es: seq<Entry>, i: nat, e: Entry)
    requires i < |es|
    ensures CountLive(es[i := e]) == CountLive(es) - (if es[i].Live? then 1 else 0) + (if e.Live? then 1 else 0)
    ensures CountTombs(es[i := e]) == CountTombs(es) - (if es[i].Tomb? then 1 else 0) + (if e.Tomb? then 1 else 0)
    decreases |es|
  {
    var n := |es| - 1;
    if i < n {
      assert es[i := e][..n] == es[..n][i := e];
      CountSet(es[..n], i, e);
    } else {
      assert es[i := e][..n] == es[..n];
    }
  }

  /// While live and deleted slots are fewer than slots, one is free.
  lemma {:induction false} SomeFree(es: seq<Entry>) returns (f: nat)
    requires CountLive(es) + CountTombs(es) < |es|
    ensures f < |es| && es[f].Free?
    decreases |es|
  {
    f := |es| - 1;
    if !es[f].Free? {
      f := SomeFree(es[..f]);
    }
  }

  /// What probing has passed: `d` slots from `home`, none free, none with the key.
  ghost predicate Passed(es: seq<Entry>, key: Key, home: nat, d: nat)
    requires home < |es| && d <= |es|
  {
    forall j :: 0 <= j < d ==> !es[Probe(home, j, |es|)].Free? && !Holds(es[Probe(home, j, |es|)], key)
  }

  /// Probing ends before it has gone round.
  lemma ProbeEnds(es: seq<Entry>, key: Key, home: nat, d: nat)
    requires home < |es| && d <= |es| && Passed(es, key, home, d)
    requires CountLive(es) + CountTombs(es) < |es|
    ensures d < |es|
  {
    var f := SomeFree(es);
    var j := Distance(home, f, |es|);
    assert es[Probe(home, j, |es|)] == es[f];
  }

  lemma AllChained(es: seq<Entry>, m: map<Key, int>, key: Key)
    requires Table(es, m)
    ensures var home := Home(Hash(key), |es|);
      forall i, j :: 0 <= i < |es| && Holds(es[i], key) && 0 <= j < Distance(home, i, |es|) ==> !es[Probe(home, j, |es|)].Free?
  {
    hide Hash, Home;
    forall i | 0 <= i < |es| && Holds(es[i], key) ensures es[i].hash == Hash(key) && Chained(es, i) {
    }
  }

  /// A free slot ends the search: the key is not in the map.
  lemma AbsentAtFree(es: seq<Entry>, m: map<Key, int>, key: Key, d: nat)
    requires Table(es, m) && d < |es|
    requires var home := Home(Hash(key), |es|); Passed(es, key, home, d) && es[Probe(home, d, |es|)].Free?
    ensures key !in m
  {
    hide Hash, Home;
    var home := Home(Hash(key), |es|);
    AllChained(es, m, key);
    forall i | 0 <= i < |es| ensures !Holds(es[i], key) {
      assert es[Probe(home, Distance(home, i, |es|), |es|)] == es[i];
    }
    assert !Stored(es, key);
  }

  lemma PassedMore(es: seq<Entry>, key: Key, home: nat, d: nat)
    requires home < |es| && d < |es| && Passed(es, key, home, d)
    requires !es[Probe(home, d, |es|)].Free? && !Holds(es[Probe(home, d, |es|)], key)
    ensures Passed(es, key, home, d + 1)
  {
  }

  lemma NextProbe(home: nat, d: nat, cap: nat)
    requires home < cap && d + 1 < cap
    ensures Next(Probe(home, d, cap), cap) == Probe(home, d + 1, cap)
  {
    hide Next;
  }

  // ---- updates ----

  lemma ReplaceValue(es: seq<Entry>, m: map<Key, int>, i: nat, v: int)
    requires Table(es, m) && i < |es| && es[i].Live?
    ensures Table(es[i := es[i].(value := v)], m[es[i].key := v])
  {
    hide Hash, Home;
    var after := es[i := es[i].(value := v)];
    forall j | 0 <= j < |after| && after[j].Live? ensures Chained(after, j) {
      assert Chained(es, j);
    }
    forall key | key in m[es[i].key := v] ensures Stored(after, key) {
      assert key in m && Stored(es, key);
      var j :| 0 <= j < |es| && Holds(es[j], key);
      assert Holds(after[j], key);
    }
  }

  /// A key that is absent goes into a slot that is not live and is reached from
  /// its home without passing a free one.
  lemma InsertKey(es: seq<Entry>, m: map<Key, int>, key: Key, v: int, d: nat)
    requires Table(es, m) && key !in m && d < |es|
    requires var home := Home(Hash(key), |es|);
      && !es[Probe(home, d, |es|)].Live?
      && forall j :: 0 <= j < d ==> !es[Probe(home, j, |es|)].Free?
    ensures Table(es[Probe(Home(Hash(key), |es|), d, |es|) := Live(Hash(key), key, v)], m[key := v])
  {
    hide Hash, Home;
    var home := Home(Hash(key), |es|);
    var i := Probe(home, d, |es|);
    var after := es[i := Live(Hash(key), key, v)];
    forall j | 0 <= j < |after| && after[j].Live? ensures Chained(after, j) {
      if j != i {
        assert Chained(es, j);
      } else {
        ProbeInjective(home, d, Distance(home, i, |es|), |es|);
      }
    }
    forall k | k in m[key := v] ensures Stored(after, k) {
      if k == key {
        assert Holds(after[i], key);
      } else {
        assert Stored(es, k);
        var j :| 0 <= j < |es| && Holds(es[j], k);
        assert Holds(after[j], k);
      }
    }
  }

  lemma ProbeInjective(home: nat, d: nat, e: nat, cap: nat)
    requires home < cap && d < cap && e < cap && Probe(home, d, cap) == Probe(home, e, cap)
    ensures d == e
  {
  }

  /// A deleted slot stays on the way to the keys after it.
  lemma DeleteKey(es: seq<Entry>, m: map<Key, int>, i: nat)
    requires Table(es, m) && i < |es| && es[i].Live?
    ensures Table(es[i := Tomb], m - {es[i].key})
  {
    hide Hash, Home;
    var after := es[i := Tomb];
    forall j | 0 <= j < |after| && after[j].Live? ensures Chained(after, j) && after[j].key != es[i].key {
      assert Chained(es, j);
      assert i < j || j < i;
    }
    forall k | k in m - {es[i].key} ensures Stored(after, k) {
      assert Stored(es, k);
      var j :| 0 <= j < |es| && Holds(es[j], k);
      assert Holds(after[j], k);
    }
  }

  predicate PowerOfTwo(n: nat)
    decreases n
  {
    n == 1 || (n > 1 && n % 2 == 0 && PowerOfTwo(n / 2))
  }

  datatype Operation = PutOp(key: Key, value: int) | GetOp(key: Key) | RemoveOp(key: Key) | LenOp

  /// The same operations on a map.
  function MapStep(op: Operation, m: map<Key, int>): (map<Key, int>, Option<int>) {
    match op
    case PutOp(key, v) => (m[key := v], None)
    case GetOp(key) => (m, if key in m then Some(m[key]) else None)
    case RemoveOp(key) => (m - {key}, if key in m then Some(m[key]) else None)
    case LenOp => (m, Some(|m|))
  }

  function MapAfter(ops: seq<Operation>, m: map<Key, int>): map<Key, int>
    decreases ops
  {
    if ops == [] then m else MapAfter(ops[1..], MapStep(ops[0], m).0)
  }

  function MapAnswers(ops: seq<Operation>, m: map<Key, int>): seq<Option<int>>
    decreases ops
  {
    if ops == [] then [] else [MapStep(ops[0], m).1] + MapAnswers(ops[1..], MapStep(ops[0], m).0)
  }

  class HashMap {
    var entries: array<Entry>
    var len: nat
    var tombs: nat
    /// The map that the table stands for.
    ghost var contents: map<Key, int>

    ghost predicate Valid()
      reads this, entries
    {
      && Table(entries[..], contents)
      && len == |contents| == CountLive(entries[..]) && tombs == CountTombs(entries[..])
      && (len + tombs) * 10 < entries.Length * 7
      && entries.Length >= 16 && PowerOfTwo(entries.Length)
    }

    constructor ()
      ensures Valid() && contents == map[] && fresh(entries)
    {
      entries := new Entry[16](_ => Free);
      len, tombs, contents := 0, 0, map[];
      new;
      NoneLive(entries[..]);
      assert PowerOfTwo(2) && PowerOfTwo(4) && PowerOfTwo(8);
    }

    static method HashBytes(key: Key) returns (h: bv64)
      ensures h == Hash(key)
    {
      hide MixByte, NonZero;
      h := OFFSET_BASIS;
      var i := 0;
      while i < |key|
        invariant i <= |key| && h == Mix(key[..i])
      {
        assert key[..i + 1][..i] == key[..i];
        h := MixByte(h, key[i]);
        i := i + 1;
      }
      assert key[..i] == key;
      h := NonZero(h);
    }

    /// Walks from the home of `key` to its slot, or to the first free one.
    method Find(key: Key) returns (idx: nat, found: bool, ghost d: nat)
      requires Valid()
      ensures d < entries.Length && idx == Probe(Home(Hash(key), entries.Length), d, entries.Length)
      ensures Passed(entries[..], key, Home(Hash(key), entries.Length), d)
      ensures found ==> Holds(entries[idx], key)
      ensures !found ==> entries[idx].Free?
      ensures found <==> key in contents
    {
      hide Hash, Home, Next, Probe, Table, Passed, PowerOfTwo, CountLive, CountTombs;
      ghost var es := entries[..];
      HasSlots(es, contents);
      var h := HashBytes(key);
      idx := Home(h, entries.Length);
      ghost var home := idx;
      found := false;
      d := 0;
      PassedNone(es, key, home);
      while true
        invariant d < entries.Length && idx == Probe(home, d, entries.Length)
        invariant Passed(es, key, home, d)
        decreases entries.Length - d
      {
        var e := entries[idx];
        assert e == es[idx];
        if e.Free? {
          AbsentAtFree(es, contents, key, d);
          return;
        }
        if e.Live? {
          TableEntry(es, contents, idx);
          if e.hash == h && e.key == key {
            found := true;
            return;
          }
        }
        PassedMore(es, key, home, d);
        ProbeEnds(es, key, home, d + 1);
        NextProbe(home, d, entries.Length);
        idx := Next(idx, entries.Length);
        d := d + 1;
      }
    }

    method Get(key: Key) returns (r: Option<int>)
      requires Valid()
      ensures r == if key in contents then Some(contents[key]) else None
    {
      var idx, found, d := Find(key);
      if found {
        assert entries[..][idx].Live?;
        r := Some(entries[idx].value);
      } else {
        r := None;
      }
    }

    /// A slot for `e` in a table without deleted slots: the first that is not live.
    static method Place(ne: array<Entry>, ghost m: map<Key, int>, e: Entry)
      requires Table(ne[..], m) && e.Live? && e.hash == Hash(e.key) && e.key !in m
      requires CountLive(ne[..]) < ne.Length && CountTombs(ne[..]) == 0
      modifies ne
      ensures Table(ne[..], m[e.key := e.value])
      ensures CountLive(ne[..]) == old(CountLive(ne[..])) + 1 && CountTombs(ne[..]) == 0
    {
      hide Hash, Home, Next, Probe, Table, Passed, CountLive, CountTombs;
      ghost var es := ne[..];
      HasSlots(es, m);
      var idx := Home(e.hash, ne.Length);
      ghost var home, d := idx, 0;
      PassedNone(es, e.key, home);
      ProbeEnds(es, e.key, home, 0);
      while ne[idx].Live?
        invariant ne[..] == es && d < ne.Length && idx == Probe(home, d, ne.Length)
        invariant Passed(es, e.key, home, d)
        decreases ne.Length - d
      {
        assert ne[idx] == es[idx];
        TableEntry(es, m, idx);
        PassedMore(es, e.key, home, d);
        ProbeEnds(es, e.key, home, d + 1);
        NextProbe(home, d, ne.Length);
        idx := Next(idx, ne.Length);
        d := d + 1;
      }
      assert ne[idx] == es[idx];
      PassedFull(es, e.key, home, d);
      InsertKey(es, m, e.key, e.value, d);
      CountSet(es, idx, e);
      NoTombs(es, idx);
      ne[idx] := e;
      assert ne[..] == es[idx := e];
    }

    /// Moves every live entry to a table of `cap` slots; deleted slots are gone.
    method Resize(cap: nat)
      requires Valid() && cap == entries.Length * 2
      modifies this
      ensures Valid() && fresh(entries) && contents == old(contents) && tombs == 0 && entries.Length == cap
    {
      hide Hash, Table, PowerOfTwo, CountLive, CountTombs, Stored;
      var ne := new Entry[cap](_ => Free);
      NoneLive(ne[..]);
      EmptyTable(ne[..]);
      ghost var moved: map<Key, int> := map[];
      ghost var es := entries[..];
      var i, count := 0, 0;
      NoneStored(es);
      CountsFit(es);
      while i < entries.Length
        invariant i <= entries.Length && entries == old(entries) && es == entries[..] && fresh(ne) && ne.Length == cap
        invariant contents == old(contents)
        invariant Table(ne[..], moved) && CountTombs(ne[..]) == 0
        invariant count == |moved| == CountLive(ne[..]) && count <= i
        invariant forall key :: key in moved <==> Stored(es[..i], key)
        invariant forall key :: key in moved ==> key in contents && moved[key] == contents[key]
      {
        MoveOne(es, contents, i);
        var e := entries[i];
        assert e == es[i];
        if e.Live? {
          assert e.key !in moved;
          Place(ne, moved, e);
          moved := moved[e.key := e.value];
          count := count + 1;
        }
        i := i + 1;
      }
      assert es[..i] == es;
      AllStored(es, contents);
      assert moved == contents by {
        assert moved.Keys == contents.Keys;
      }
      entries, len, tombs := ne, count, 0;
      DoubledPower(cap);
    }

    /// Binds `key` to `v`; a deleted slot on the way is used again.
    method Put(key: Key, v: int)
      requires Valid()
      modifies this, entries
      ensures Valid() && (entries == old(entries) || fresh(entries))
      ensures contents == old(contents)[key := v]
    {
      if (len + tombs + 1) * 10 >= entries.Length * 7 {
        Resize(entries.Length * 2);
      }
      PutProbing(key, v);
    }

    method PutProbing(key: Key, v: int)
      requires Valid() && (len + tombs + 1) * 10 < entries.Length * 7
      modifies this, entries
      ensures Valid() && entries == old(entries)
      ensures contents == old(contents)[key := v]
    {
      hide Hash, Home, Next, Probe, Table, Passed, PowerOfTwo, CountLive, CountTombs;
      ghost var es := entries[..];
      HasSlots(es, contents);
      var h := HashBytes(key);
      var idx := Home(h, entries.Length);
      ghost var home, d := idx, 0;
      var tomb: Option<nat> := None;
      ghost var td := 0;
      PassedNone(es, key, home);
      while !entries[idx].Free?
        invariant entries == old(entries) && es == entries[..] && contents == old(contents)
        invariant len == old(len) && tombs == old(tombs)
        invariant d < entries.Length && idx == Probe(home, d, entries.Length)
        invariant Passed(es, key, home, d)
        invariant tomb.Some? ==> td < d && tomb.value == Probe(home, td, entries.Length) && tomb.value < entries.Length && entries[tomb.value].Tomb?
        decreases entries.Length - d
      {
        var e := entries[idx];
        assert e == es[idx];
        if e.Live? { TableEntry(es, contents, idx); }
        if e.Tomb? && tomb.None? {
          tomb := Some(idx);
          td := d;
        } else if e.Live? && e.hash == h && e.key == key {
          ReplaceValue(es, contents, idx, v);
          CountSet(es, idx, e.(value := v));
          entries[idx] := e.(value := v);
          assert entries[..] == es[idx := e.(value := v)];
          contents := contents[key := v];
          return;
        }
        PassedMore(es, key, home, d);
        ProbeEnds(es, key, home, d + 1);
        NextProbe(home, d, entries.Length);
        idx := Next(idx, entries.Length);
        d := d + 1;
      }
      assert entries[idx] == es[idx];
      AbsentAtFree(es, contents, key, d);
      PassedFull(es, key, home, d);
      ghost var at := if tomb.Some? then td else d;
      var slot := if tomb.Some? then tomb.value else idx;
      assert entries[slot] == es[slot];
      InsertKey(es, contents, key, v, at);
      CountSet(es, slot, Live(h, key, v));
      entries[slot] := Live(h, key, v);
      assert entries[..] == es[slot := Live(h, key, v)];
      len := len + 1;
      if tomb.Some? { tombs := tombs - 1; }
      contents := contents[key := v];
    }

    method Remove(key: Key) returns (r: Option<int>)
      requires Valid()
      modifies this, entries
      ensures Valid() && entries == old(entries)
      ensures r == if key in old(contents) then Some(old(contents)[key]) else None
      ensures contents == old(contents) - {key}
    {
      hide Hash, PowerOfTwo, Table, CountLive, CountTombs;
      var idx, found, d := Find(key);
      if !found {
        r := None;
        assert contents - {key} == contents;
        return;
      }
      ghost var before := entries[..];
      TableEntry(before, contents, idx);
      r := Some(entries[idx].value);
      DeleteKey(before, contents, idx);
      CountSet(before, idx, Tomb);
      entries[idx] := Tomb;
      assert entries[..] == before[idx := Tomb];
      len, tombs := len - 1, tombs + 1;
      contents := contents - {key};
    }

    method Len() returns (n: nat)
      requires Valid()
      ensures n == |contents|
    {
      n := len;
    }

    method Apply(op: Operation) returns (answer: Option<int>)
      requires Valid()
      modifies this, entries
      ensures Valid() && (entries == old(entries) || fresh(entries))
      ensures (contents, answer) == MapStep(op, old(contents))
    {
      hide Table, CountLive, CountTombs, PowerOfTwo;
      answer := None;
      match op {
        case PutOp(key, v) => Put(key, v);
        case GetOp(key) => answer := Get(key);
        case RemoveOp(key) => answer := Remove(key);
        case LenOp =>
          var n := Len();
          answer := Some(n);
      }
    }

    /// Any sequence of operations answers as on a map.
    method Replay(ops: seq<Operation>) returns (answers: seq<Option<int>>)
      requires Valid()
      modifies this, entries
      ensures Valid() && contents == MapAfter(ops, old(contents)) && answers == MapAnswers(ops, old(contents))
    {
      hide Table, CountLive, CountTombs, PowerOfTwo, MapStep, MapAfter, MapAnswers, Valid;
      answers := [];
      var i := 0;
      assert ops[0..] == ops;
      while i < |ops|
        invariant i <= |ops| && Valid() && (entries == old(entries) || fresh(entries))
        invariant MapAfter(ops, old(contents)) == MapAfter(ops[i..], contents)
        invariant MapAnswers(ops, old(contents)) == answers + MapAnswers(ops[i..], contents)
      {
        ReplayStep(ops, i, contents, answers);
        var answer := Apply(ops[i]);
        answers := answers + [answer];
        i := i + 1;
      }
      ReplayEnd(ops, contents, answers);
    }
  }

  lemma ReplayStep(ops: seq<Operation>, i: nat, m: map<Key, int>, answers: seq<Option<int>>)
    requires i < |ops|
    ensures MapAfter(ops[i..], m) == MapAfter(ops[i + 1..], MapStep(ops[i], m).0)
    ensures answers + MapAnswers(ops[i..], m) == (answers + [MapStep(ops[i], m).1]) + MapAnswers(ops[i + 1..], MapStep(ops[i], m).0)
  {
    assert ops[i..][1..] == ops[i + 1..];
    var rest := MapAnswers(ops[i + 1..], MapStep(ops[i], m).0);
    assert answers + ([MapStep(ops[i], m).1] + rest) == (answers + [MapStep(ops[i], m).1]) + rest;
  }

  lemma ReplayEnd(ops: seq<Operation>, m: map<Key, int>, answers: seq<Option<int>>)
    ensures MapAfter(ops[|ops|..], m) == m && answers + MapAnswers(ops[|ops|..], m) == answers
  {
  }

  lemma TableEntry(es: seq<Entry>, m: map<Key, int>, i: nat)
    requires Table(es, m) && i < |es| && es[i].Live?
    ensures es[i].key in m && m[es[i].key] == es[i].value && es[i].hash == Hash(es[i].key)
  {
  }

  lemma HasSlots(es: seq<Entry>, m: map<Key, int>)
    requires Table(es, m)
    ensures |es| > 0
  {
  }

  lemma PassedNone(es: seq<Entry>, key: Key, home: nat)
    requires home < |es|
    ensures Passed(es, key, home, 0) && Probe(home, 0, |es|) == home
  {
  }

  /// The slots that were passed are not free.
  lemma PassedFull(es: seq<Entry>, key: Key, home: nat, d: nat)
    requires home < |es| && d <= |es| && Passed(es, key, home, d)
    ensures forall j :: 0 <= j < d ==> !es[Probe(home, j, |es|)].Free?
  {
  }

  lemma {:induction false} NoTombs(es: seq<Entry>, i: nat)
    requires i < |es| && CountTombs(es) == 0
    ensures !es[i].Tomb?
    decreases |es|
  {
    if i < |es| - 1 { NoTombs(es[..|es| - 1], i); }
  }

  lemma EmptyTable(es: seq<Entry>)
    requires |es| > 0 && forall i :: 0 <= i < |es| ==> es[i].Free?
    ensures Table(es, map[])
  {
  }

  lemma NoneStored(es: seq<Entry>)
    ensures forall key :: !Stored(es[..0], key)
  {
  }

  /// Live and deleted slots are slots.
  lemma {:induction false} CountsFit(es: seq<Entry>)
    ensures CountLive(es) + CountTombs(es) <= |es|
    decreases |es|
  {
    if es != [] { CountsFit(es[..|es| - 1]); }
  }

  /// One more slot of the old table: its key was not there before.
  lemma MoveOne(es: seq<Entry>, m: map<Key, int>, i: nat)
    requires Table(es, m) && i < |es|
    ensures forall key :: Stored(es[..i + 1], key) <==> Stored(es[..i], key) || Holds(es[i], key)
    ensures es[i].Live? ==> !Stored(es[..i], es[i].key) && es[i].hash == Hash(es[i].key) && es[i].key in m && m[es[i].key] == es[i].value
  {
    hide Hash, Home;
    forall key ensures Stored(es[..i + 1], key) <==> Stored(es[..i], key) || Holds(es[i], key) {
      if Stored(es[..i], key) {
        var j :| 0 <= j < i && Holds(es[..i][j], key);
        assert Holds(es[..i + 1][j], key);
      }
      if Stored(es[..i + 1], key) {
        var j :| 0 <= j < i + 1 && Holds(es[..i + 1][j], key);
        if j < i { assert Holds(es[..i][j], key); }
      }
      if Holds(es[i], key) { assert Holds(es[..i + 1][i], key); }
    }
    if es[i].Live? {
      forall j | 0 <= j < i ensures !Holds(es[..i][j], es[i].key) { assert es[..i][j] == es[j]; }
    }
  }

  lemma AllStored(es: seq<Entry>, m: map<Key, int>)
    requires Table(es, m)
    ensures forall key :: Stored(es, key) <==> key in m
  {
    hide Hash, Home;
  }

  lemma DoubledPower(n: nat)
    requires n % 2 == 0 && n > 1 && PowerOfTwo(n / 2)
    ensures PowerOfTwo(n)
  {
  }

  lemma {:induction false} NoneLive(es: seq<Entry>)
    requires forall i :: 0 <= i < |es| ==> es[i].Free?
    ensures CountLive(es) == 0 && CountTombs(es) == 0
    decreases |es|
  {
    if es != [] { NoneLive(es[..|es| - 1]); }
  }
}
