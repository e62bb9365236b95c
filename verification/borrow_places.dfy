/// Places of the borrow checker (src/borrow_places.cpp): a binding and a field path.

module Places {
  /// A resolved binding, spelled `name#id` in the source.
  type Var = string

  /// The component path of a place; component 0 is the root binding.
  type Place = p: seq<string> | 0 < |p| witness ["x"]

  /// Every index is the one component `[*]`.
  const AnyIndex: string := "[*]"

  function Root(p: Place): Var { p[0] }

  predicate IsStrictChild(parent: Place, child: Place) {
    |parent| < |child| && child[..|parent|] == parent
  }

  /// `q` is `p` or lies inside it.
  predicate IsWithin(p: Place, q: Place) {
    q == p || IsStrictChild(p, q)
  }

  /// The scan of `places_disjoint` from component `i` on: the first
  /// component where the paths differ decides.
  predicate DisjointFrom(a: seq<string>, b: seq<string>, i: nat)
    requires i <= |a| && i <= |b|
    decreases |a| - i
  {
    if i == |a| || i == |b| then false
    else if a[i] != b[i] then a[i] != AnyIndex && b[i] != AnyIndex
    else DisjointFrom(a, b, i + 1)
  }

  predicate Disjoint(a: Place, b: Place) { DisjointFrom(a, b, 0) }

  predicate Conflict(a: Place, b: Place) { !Disjoint(a, b) }

  /// The loop of `places_disjoint`.
  method PlacesDisjoint(a: Place, b: Place) returns (disjoint: bool)
    ensures disjoint == Disjoint(a, b)
  {
    if a == b {
      DisjointMeaning(a, b);
      return false;
    }
    var common := if |a| < |b| then |a| else |b|;
    var i := 0;
    while i < common
      invariant i <= common
      invariant Disjoint(a, b) == DisjointFrom(a, b, i)
    {
      if a[i] != b[i] {
        if a[i] == AnyIndex || b[i] == AnyIndex {
          return false;
        }
        return true;
      }
      i := i + 1;
    }
    return false;
  }

  /// Two places part at component `i` when they agree before it and differ at it.
  ghost predicate PartAt(a: Place, b: Place, i: nat) {
    i < |a| && i < |b| && a[i] != b[i] && AgreeBefore(a, b, i)
  }

  ghost predicate AgreeBefore(a: Place, b: Place, i: nat)
    requires i <= |a| && i <= |b|
  {
    forall k :: 0 <= k < i ==> a[k] == b[k]
  }

  /// Places are disjoint exactly when they part at two distinct named fields.
  lemma DisjointMeaning(a: Place, b: Place)
    ensures Disjoint(a, b) <==>
            exists i: nat :: PartAt(a, b, i) && a[i] != AnyIndex && b[i] != AnyIndex
  {
    DisjointFromMeaning(a, b, 0);
  }

  lemma {:induction false} DisjointFromMeaning(a: Place, b: Place, i: nat)
    requires i <= |a| && i <= |b| && AgreeBefore(a, b, i)
    ensures DisjointFrom(a, b, i) <==>
            exists j: nat :: PartAt(a, b, j) && a[j] != AnyIndex && b[j] != AnyIndex
    decreases |a| - i
  {
    if i == |a| || i == |b| {
    } else if a[i] != b[i] {
      assert PartAt(a, b, i);
    } else {
      DisjointFromMeaning(a, b, i + 1);
    }
  }

  lemma ConflictSymmetric(a: Place, b: Place)
    ensures Conflict(a, b) == Conflict(b, a)
  {
    DisjointMeaning(a, b);
    DisjointMeaning(b, a);
    forall i: nat | PartAt(a, b, i) ensures PartAt(b, a, i) {}
    forall i: nat | PartAt(b, a, i) ensures PartAt(a, b, i) {}
  }

  /// A place conflicts with everything inside it and everything around it.
  lemma NestedConflict(a: Place, b: Place)
    requires IsWithin(a, b) || IsWithin(b, a)
    ensures Conflict(a, b)
  {
    DisjointMeaning(a, b);
    if IsWithin(a, b) {
      forall k | 0 <= k < |a| ensures a[k] == b[k] {
        assert a[k] == b[..|a|][k];
      }
    } else {
      forall k | 0 <= k < |b| ensures a[k] == b[k] {
        assert b[k] == a[..|b|][k];
      }
    }
  }

  /// What is disjoint from a place is disjoint from everything inside it.
  lemma DisjointInside(a: Place, b: Place, inner: seq<string>)
    requires Disjoint(a, b)
    ensures Disjoint(a, b + inner)
  {
    DisjointMeaning(a, b);
    DisjointMeaning(a, b + inner);
    var i: nat :| PartAt(a, b, i) && a[i] != AnyIndex && b[i] != AnyIndex;
    assert PartAt(a, b + inner, i);
  }
}
