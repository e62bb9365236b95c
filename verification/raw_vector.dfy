/// The runtime's growable array (runtime/collections.c:12-76). `size_t` is 64 bits
/// wide and its overflow checks are the source's.

module RawVector {
  const SIZE_MAX: nat := 0xFFFF_FFFF_FFFF_FFFF

  datatype Status = Ok | Overflow

  datatype Option<+T> = None | Some(value: T)

  class Vector<T(0)> {
    var data: array<T>
    var len: nat
    const elemSize: nat
    /// Elements moved by all reallocations so far, and the most ever asked for.
    ghost var moved: nat
    ghost var most: nat

    ghost predicate Valid()
      reads this
    {
      && len <= data.Length <= SIZE_MAX && 1 <= elemSize && data.Length * elemSize <= SIZE_MAX
      && len <= most
      && (data.Length <= SIZE_MAX / 2 + 1 ==> moved <= data.Length)
      && (data.Length == 0 || data.Length == 8 || data.Length < 2 * most)
    }

    ghost function Contents(): seq<T>
      requires Valid()
      reads this, data
    {
      data[..len]
    }

    constructor (elemSize: nat)
      requires 1 <= elemSize <= SIZE_MAX
      ensures Valid() && Contents() == [] && moved == 0 && most == 0 && fresh(data) && this.elemSize == elemSize
    {
      this.elemSize := elemSize;
      data := new T[0];
      len, moved, most := 0, 0, 0;
    }

    /// The capacity for `need` elements: doubled from 8 until it is enough, or the
    /// need itself when doubling would overflow.
    static method Grow(cap: nat, need: nat) returns (r: nat)
      requires cap < need <= SIZE_MAX
      ensures need <= r <= SIZE_MAX
      ensures r == 8 || r < 2 * need
      ensures r <= SIZE_MAX / 2 + 1 ==> 2 * cap <= r
    {
      r := if cap != 0 then cap else 8;
      while r < need
        invariant 0 < r <= SIZE_MAX
        invariant r == cap || r == 8 || r < 2 * need
        invariant r == cap || 2 * cap <= r
        decreases need - r
      {
        if r > SIZE_MAX / 2 {
          r := need;
          break;
        }
        r := r * 2;
      }
    }

    static method Copy(from: array<T>, cap: nat) returns (grown: array<T>)
      requires from.Length <= cap
      ensures fresh(grown) && grown.Length == cap && grown[..from.Length] == from[..]
    {
      grown := new T[cap];
      var i := 0;
      while i < from.Length
        invariant i <= from.Length && forall j :: 0 <= j < i ==> grown[j] == from[j]
      {
        grown[i] := from[i];
        i := i + 1;
      }
    }

    /// Room for `add` more; nothing is lost and nothing else changes.
    method Reserve(add: nat) returns (status: Status)
      requires Valid() && add <= SIZE_MAX
      modifies this
      ensures Valid() && Contents() == old(Contents()) && len == old(len)
      ensures status == Ok || status == Overflow
      ensures status == Ok ==> len + add <= data.Length && most == Larger(old(most), len + add)
      ensures status == Overflow ==> data == old(data) && most == old(most) && moved == old(moved)
      ensures status == Overflow ==> len + add > data.Length && Excessive(len + add, elemSize)
      ensures data == old(data) || (fresh(data) && old(data.Length) < data.Length)
      ensures moved == old(moved) + (if data == old(data) then 0 else old(data.Length))
      ensures old(len) + add <= old(data.Length) ==> data == old(data)
    {
      if add > SIZE_MAX - len {
        TooBig(len + add, elemSize);
        return Overflow;
      }
      var need := len + add;
      if need <= data.Length {
        most := if most < need then need else most;
        return Ok;
      }
      var cap := Grow(data.Length, need);
      if cap * elemSize > SIZE_MAX {
        GrownTooBig(cap, need, elemSize);
        return Overflow;
      }
      var grown := Copy(data, cap);
      moved := moved + data.Length;
      most := if most < need then need else most;
      data := grown;
      status := Ok;
    }

    method Push(elem: T) returns (status: Status)
      requires Valid()
      modifies this, data
      ensures Valid() && (status == Ok || status == Overflow)
      ensures status == Ok ==> Contents() == old(Contents()) + [elem]
      ensures status == Overflow ==> Contents() == old(Contents())
      ensures status == Ok ==> most == Larger(old(most), |old(Contents())| + 1)
      ensures status == Overflow ==> most == old(most) && Excessive(|old(Contents())| + 1, elemSize)
      ensures data == old(data) || fresh(data)
      ensures moved == old(moved) + (if data == old(data) then 0 else old(data.Length))
    {
      status := Reserve(1);
      if status == Ok {
        data[len] := elem;
        len := len + 1;
      }
    }

    method Pop() returns (elem: Option<T>)
      requires Valid()
      modifies this
      ensures Valid() && data == old(data) && moved == old(moved) && most == old(most)
      ensures elem.None? <==> old(Contents()) == []
      ensures elem.Some? ==> old(Contents()) == Contents() + [elem.value]
      ensures elem.None? ==> Contents() == []
    {
      if len == 0 { return None; }
      len := len - 1;
      return Some(data[len]);
    }

    method Clear()
      requires Valid()
      modifies this
      ensures Valid() && Contents() == [] && data == old(data) && moved == old(moved) && most == old(most)
    {
      len := 0;
    }

    method Apply(op: Operation<T>) returns (answer: Answer<T>)
      requires Valid() && (op.ReserveOp? ==> op.add <= SIZE_MAX)
      modifies this, data
      ensures Valid() && (data == old(data) || fresh(data))
      ensures Answers(op, answer, old(Contents()), elemSize) && Contents() == ListAfter(op, answer, old(Contents()))
      ensures most == Larger(old(most), Asked(op, answer, |old(Contents())|))
      ensures moved == old(moved) + (if data == old(data) then 0 else old(data.Length))
    {
      match op {
        case ReserveOp(add) =>
          var status := Reserve(add);
          answer := if status == Ok then Done else Refused;
        case PushOp(elem) =>
          var status := Push(elem);
          answer := if status == Ok then Done else Refused;
        case PopOp =>
          var elem := Pop();
          answer := Popped(elem);
        case ClearOp =>
          Clear();
          answer := Done;
      }
    }

    /// Any sequence of operations answers as on a list, refusing only what is
    /// too big; the capacity stays below twice the most ever asked for, and no
    /// more elements than fit have been moved by all reallocations together.
    method Replay(ops: seq<Operation<T>>) returns (answers: seq<Answer<T>>)
      requires Valid() && forall op :: op in ops && op.ReserveOp? ==> op.add <= SIZE_MAX
      modifies this, data
      ensures Valid() && |answers| == |ops|
      ensures ListAnswers(ops, answers, old(Contents()), elemSize) && Contents() == ListRun(ops, answers, old(Contents()))
      ensures most == MostAsked(ops, answers, old(Contents()), old(most))
      ensures data.Length == 0 || data.Length == 8 || data.Length < 2 * most
      ensures data.Length <= SIZE_MAX / 2 + 1 ==> moved <= data.Length
    {
      answers := [];
      var i := 0;
      assert ops[..0] == [];
      while i < |ops|
        invariant i == |answers| <= |ops| && Valid() && (data == old(data) || fresh(data))
        invariant ListAnswers(ops[..i], answers, old(Contents()), elemSize)
        invariant Contents() == ListRun(ops[..i], answers, old(Contents()))
        invariant most == MostAsked(ops[..i], answers, old(Contents()), old(most))
      {
        var answer := Apply(ops[i]);
        assert ops[..i + 1][..i] == ops[..i] && (answers + [answer])[..i] == answers;
        answers := answers + [answer];
        i := i + 1;
      }
      assert ops[..i] == ops;
    }
  }

  function Larger(a: nat, b: nat): nat { if a < b then b else a }

  /// Memory for `need` elements might not be counted by a `size_t`.
  predicate Excessive(need: nat, elemSize: nat) { 2 * need * elemSize > SIZE_MAX || 8 * elemSize > SIZE_MAX }

  datatype Operation<T> = ReserveOp(add: nat) | PushOp(elem: T) | PopOp | ClearOp

  datatype Answer<T> = Done | Refused | Popped(elem: Option<T>)

  // ---- the same operations on a list ----

  predicate Answers<T(==)>(op: Operation<T>, answer: Answer<T>, s: seq<T>, elemSize: nat) {
    match op
    case ReserveOp(add) => answer.Done? || (answer.Refused? && Excessive(|s| + add, elemSize))
    case PushOp(_) => answer.Done? || (answer.Refused? && Excessive(|s| + 1, elemSize))
    case PopOp => answer == Popped(if s == [] then None else Some(s[|s| - 1]))
    case ClearOp => answer.Done?
  }

  function ListAfter<T>(op: Operation<T>, answer: Answer<T>, s: seq<T>): seq<T> {
    match op
    case ReserveOp(_) => s
    case PushOp(elem) => if answer.Done? then s + [elem] else s
    case PopOp => if |s| == 0 then s else s[..|s| - 1]
    case ClearOp => []
  }

  /// How many elements an operation asks room for.
  function Asked<T>(op: Operation<T>, answer: Answer<T>, len: nat): nat {
    if !answer.Done? then 0
    else match op
      case ReserveOp(add) => len + add
      case PushOp(_) => len + 1
      case _ => 0
  }

  function ListRun<T>(ops: seq<Operation<T>>, answers: seq<Answer<T>>, s: seq<T>): seq<T>
    requires |answers| == |ops|
  {
    if |ops| == 0 then s
    else
      var n := |ops| - 1;
      ListAfter(ops[n], answers[n], ListRun(ops[..n], answers[..n], s))
  }

  predicate ListAnswers<T(==)>(ops: seq<Operation<T>>, answers: seq<Answer<T>>, s: seq<T>, elemSize: nat)
    requires |answers| == |ops|
  {
    |ops| == 0 ||
    (var n := |ops| - 1;
     ListAnswers(ops[..n], answers[..n], s, elemSize) && Answers(ops[n], answers[n], ListRun(ops[..n], answers[..n], s), elemSize))
  }

  function MostAsked<T>(ops: seq<Operation<T>>, answers: seq<Answer<T>>, s: seq<T>, most: nat): nat
    requires |answers| == |ops|
  {
    if |ops| == 0 then most
    else
      var n := |ops| - 1;
      Larger(MostAsked(ops[..n], answers[..n], s, most), Asked(ops[n], answers[n], |ListRun(ops[..n], answers[..n], s)|))
  }

  lemma TooBig(n: nat, size: nat)
    requires n > SIZE_MAX && size >= 1
    ensures 2 * n * size > SIZE_MAX
  {
    assert n * size >= n;
  }

  lemma GrownTooBig(cap: nat, need: nat, size: nat)
    requires cap * size > SIZE_MAX && size >= 1 && (cap == 8 || cap < 2 * need)
    ensures 2 * need * size > SIZE_MAX || cap == 8
  {
  }
}
