/// The dotted spelling of places (src/borrow_internal.hpp) and its string tests.

module PlaceText {
  import opened Places

  const Dot: char := '.'

  predicate DotFree(s: string) { Dot !in s }

  /// Components without dots: names, `name#id` keys and `[*]`.
  predicate Spellable(p: seq<string>) { forall c :: c in p ==> DotFree(c) }

  function Text(p: Place): string
    decreases |p|
  {
    if |p| == 1 then p[0] else p[0] + [Dot] + Text(p[1..])
  }

  predicate NoDot(s: string, from: nat, to: nat)
    requires to <= |s|
  {
    forall k :: from <= k < to ==> s[k] != Dot
  }

  /// `find('.', start)`: the first dot from `start` on, or the end.
  function FindDot(s: string, start: nat): (i: nat)
    requires start <= |s|
    ensures start <= i <= |s| && NoDot(s, start, i) && (i < |s| ==> s[i] == Dot)
    decreases |s| - start
  {
    if start == |s| || s[start] == Dot then start else FindDot(s, start + 1)
  }

  function RootOf(s: string): string { s[..FindDot(s, 0)] }

  /// `is_strict_child` on spelled places.
  predicate IsStrictChildText(parent: string, child: string) {
    |parent| < |child| && child[..|parent|] == parent && child[|parent|] == Dot
  }

  function Split(s: string): (parts: seq<string>)
    ensures 0 < |parts|
    decreases |s|
  {
    var i := FindDot(s, 0);
    if i == |s| then [s] else [s[..i]] + Split(s[i + 1..])
  }

  /// The scanning loop of `split_place`.
  method SplitPlace(place: string) returns (parts: seq<string>)
    ensures parts == Split(place)
  {
    hide Split, FindDot;
    parts := [];
    var start := 0;
    assert place[0..] == place;
    while true
      invariant start <= |place| && Split(place) == parts + Split(place[start..])
      decreases |place| - start
    {
      var dot := FindDot(place, start);
      SplitFrom(place, start, parts);
      if dot == |place| {
        parts := parts + [place[start..]];
        return;
      }
      parts := parts + [place[start..dot]];
      start := dot + 1;
    }
  }

  /// The components from `start` on, after those before.
  lemma SplitFrom(s: string, start: nat, parts: seq<string>)
    requires start <= |s|
    ensures var dot := FindDot(s, start);
      parts + Split(s[start..]) == if dot == |s| then parts + [s[start..]] else parts + [s[start..dot]] + Split(s[dot + 1..])
  {
    hide FindDot;
    var dot := FindDot(s, start);
    FindInSuffix(s, start);
    if dot < |s| {
      assert s[start..][dot - start + 1..] == s[dot + 1..];
      assert parts + ([s[start..dot]] + Split(s[dot + 1..])) == parts + [s[start..dot]] + Split(s[dot + 1..]);
    }
  }

  lemma FindUnique(s: string, start: nat, i: nat)
    requires start <= i <= |s| && NoDot(s, start, i) && (i < |s| ==> s[i] == Dot)
    ensures FindDot(s, start) == i
  {
    var j := FindDot(s, start);
    hide FindDot;
  }

  lemma FindInSuffix(s: string, start: nat)
    requires start <= |s|
    ensures FindDot(s[start..], 0) == FindDot(s, start) - start
    ensures s[start..][..FindDot(s, start) - start] == s[start..FindDot(s, start)]
  {
    hide FindDot;
    var i := FindDot(s, start);
    var t := s[start..];
    forall k | 0 <= k < i - start ensures t[k] != Dot {
      assert t[k] == s[start + k];
    }
    FindUnique(t, 0, i - start);
  }

  lemma FirstComponent(p: Place)
    requires Spellable(p)
    ensures FindDot(Text(p), 0) == |p[0]| && Text(p)[..|p[0]|] == p[0]
    ensures |p| == 1 <==> |Text(p)| == |p[0]|
    ensures 1 < |p| ==> Text(p)[|p[0]|] == Dot && Text(p)[|p[0]| + 1..] == Text(p[1..])
  {
    hide FindDot;
    assert p[0] in p;
    forall k | 0 <= k < |p[0]| ensures Text(p)[k] != Dot {
      assert Text(p)[k] == p[0][k];
    }
    FindUnique(Text(p), 0, |p[0]|);
  }

  /// Splitting a spelled place gives its components back.
  lemma {:induction false} SplitText(p: Place)
    requires Spellable(p)
    ensures Split(Text(p)) == p && RootOf(Text(p)) == Root(p)
    decreases |p|
  {
    FirstComponent(p);
    if 1 < |p| {
      forall c | c in p[1..] ensures DotFree(c) { assert c in p; }
      SplitText(p[1..]);
      assert p == [p[0]] + p[1..];
    }
  }

  lemma TextInjective(p: Place, q: Place)
    requires Spellable(p) && Spellable(q) && Text(p) == Text(q)
    ensures p == q
  {
    SplitText(p);
    SplitText(q);
  }

  lemma {:induction false} TextAppend(p: Place, q: Place)
    ensures Text(p + q) == Text(p) + [Dot] + Text(q)
    decreases |p|
  {
    if |p| == 1 {
      assert (p + q)[1..] == q;
    } else {
      assert (p + q)[1..] == p[1..] + q;
      TextAppend(p[1..], q);
    }
  }

  /// The prefix-and-dot test on strings is the strict prefix test on paths.
  lemma {:induction false} StrictChildText(p: Place, q: Place)
    requires Spellable(p) && Spellable(q)
    ensures IsStrictChildText(Text(p), Text(q)) <==> IsStrictChild(p, q)
    decreases |p|
  {
    if IsStrictChild(p, q) {
      var rest := q[|p|..];
      assert q == p + rest;
      TextAppend(p, rest);
    }
    if IsStrictChildText(Text(p), Text(q)) {
      FirstComponent(p);
      FirstComponent(q);
      var tp, tq := Text(p), Text(q);
      // Both texts start with the same component.
      assert tq[..|tp|] == tp;
      if |p| == 1 {
        FindUnique(tq, 0, |tp|);
        assert q[..1] == p;
      } else {
        assert tq[|p[0]|] == tp[|p[0]|] == Dot && tq[..|p[0]|] == tp[..|p[0]|] == p[0];
        assert tq[0..|p[0]|] == p[0] && p[0] in p;
        FindUnique(tq, 0, |p[0]|);
        assert 1 < |q|;
        var p', q' := p[1..], q[1..];
        forall c | c in p' ensures DotFree(c) { assert c in p; }
        forall c | c in q' ensures DotFree(c) { assert c in q; }
        assert Text(q')[..|Text(p')|] == Text(p') by {
          assert Text(q') == tq[|p[0]| + 1..] && Text(p') == tp[|p[0]| + 1..];
          assert tq[..|tp|][|p[0]| + 1..] == tq[|p[0]| + 1..][..|Text(p')|];
        }
        StrictChildText(p', q');
        assert q'[..|p'|] == p';
        assert q[..|p|] == [q[0]] + q'[..|p'|];
        assert p == [p[0]] + p';
      }
    }
  }
}
