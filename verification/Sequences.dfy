/** Facts about concatenation that the solver does not find by itself. */
module Sequences {

  lemma Associates<T>(a: seq<T>, b: seq<T>, c: seq<T>)
    ensures (a + b) + c == a + (b + c)
  {
  }

  lemma Regroup<T>(a: seq<T>, b: seq<T>, c: seq<T>, d: seq<T>)
    ensures a + b + c + d == a + b + (c + d) == a + (b + c + d)
  {
  }

  lemma Front<T>(a: seq<T>, b: seq<T>)
    ensures (a + b)[..|a|] == a
  {
  }

  /** Two equal concatenations with front parts of one length have equal parts. */
  lemma SplitAtLength<T>(a: seq<T>, b: seq<T>, x: seq<T>, y: seq<T>)
    requires |a| == |b| && a + x == b + y
    ensures a == b && x == y
  {
    assert a == (a + x)[..|a|] && b == (b + y)[..|b|];
    assert x == (a + x)[|a|..] && y == (b + y)[|b|..];
  }

  ghost predicate NoDup<T(!new)>(s: seq<T>) {
    forall i, j :: 0 <= i < j < |s| ==> s[i] != s[j]
  }

  lemma {:induction false} NoDupIffAsLarge<T(!new)>(s: seq<T>)
    ensures |(set x <- s)| <= |s|
    ensures NoDup(s) <==> |(set x <- s)| == |s|
  {
    if s != [] {
      var most, last := s[..|s| - 1], s[|s| - 1];
      NoDupIffAsLarge(most);
      assert s == most + [last];
      assert (set x <- s) == (set x <- most) + {last};
      if last in most {
        assert (set x <- s) == (set x <- most);
      }
    }
  }

  /** A set that lies within one of the same size is that set. */
  lemma SameSize<T>(a: set<T>, b: set<T>)
    requires a <= b && |a| == |b|
    ensures a == b
  {
    assert |b - a| == |b| - |a|;
    assert b == a + (b - a);
  }
}
