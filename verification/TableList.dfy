/** Lists of table names and the pattern filters applied to them. */
module TableList {
  import opened Wrappers
  import opened Sequences

  type Table = string

  lemma NoDupAppend<T(!new)>(s: seq<T>, t: seq<T>)
    requires NoDup(s) && NoDup(t) && forall x <- t :: x !in s
    ensures NoDup(s + t)
  {
    forall i, j | 0 <= i < j < |s + t|
      ensures (s + t)[i] != (s + t)[j]
    {
      if j >= |s| > i {
        assert t[j - |s|] in t;
      }
    }
  }

  /** The list without later repeats. */
  function Uniq<T(==, !new)>(s: seq<T>): (r: seq<T>)
    ensures NoDup(r)
    ensures forall x :: x in r <==> x in s
    ensures |s| > 0 ==> |r| > 0 && r[0] == s[0]
  {
    if s == [] then []
    else
      var r := Uniq(s[..|s| - 1]);
      assert s == s[..|s| - 1] + [s[|s| - 1]];
      if s[|s| - 1] in r then r
      else
        NoDupAppend(r, [s[|s| - 1]]);
        r + [s[|s| - 1]]
  }

  /** The tables of a not listed in b, in a's order. */
  function Difference<T(==, !new)>(a: seq<T>, b: seq<T>): (r: seq<T>)
    ensures forall x :: x in r <==> x in a && x !in b
    ensures NoDup(a) ==> NoDup(r)
  {
    if a == [] then []
    else
      var r := Difference(a[1..], b);
      assert a == [a[0]] + a[1..];
      assert NoDup(a) ==> a[0] !in a[1..] && NoDup(a[1..]);
      if a[0] in b then r
      else
        assert NoDup(a) ==> NoDup([a[0]] + r) by {
          if NoDup(a) {
            NoDupAppend([a[0]], r);
          }
        }
        [a[0]] + r
  }

  lemma {:induction false} DifferenceSnoc<T(!new)>(a: seq<T>, x: T, b: seq<T>)
    ensures Difference(a + [x], b) == Difference(a, b) + if x in b then [] else [x]
  {
    if a != [] {
      assert (a + [x])[1..] == a[1..] + [x];
      DifferenceSnoc(a[1..], x, b);
    }
  }

  /** Whether some pattern selects the table. */
  predicate Selected<T>(matches: (string, T) -> bool, patterns: seq<string>, t: T) {
    exists p <- patterns :: matches(p, t)
  }

  /** The listed tables some pattern selects; the patterns that select none are an error. */
  method ExtractTableList<T(==, !new)>(fullList: seq<T>, patterns: seq<string>, matches: (string, T) -> bool)
    returns (r: Result<seq<T>, seq<string>>)
    ensures r.Success? <==> forall p <- patterns :: exists t <- fullList :: matches(p, t)
    ensures r.Success? ==>
              && NoDup(r.value)
              && forall t :: t in r.value <==> t in fullList && Selected(matches, patterns, t)
    ensures r.Failure? ==>
              forall p :: p in r.error <==> p in patterns && forall t <- fullList :: !matches(p, t)
  {
    var found: seq<T>, unknown: seq<string> := [], [];
    for i := 0 to |patterns|
      invariant forall t :: t in found <==> t in fullList && Selected(matches, patterns[..i], t)
      invariant forall p :: p in unknown <==> p in patterns[..i] && forall t <- fullList :: !matches(p, t)
    {
      var matched: seq<T> := [];
      for j := 0 to |fullList|
        invariant forall t :: t in matched <==> t in fullList[..j] && matches(patterns[i], t)
      {
        if matches(patterns[i], fullList[j]) {
          matched := matched + [fullList[j]];
        }
      }
      assert fullList[..|fullList|] == fullList;
      if matched == [] {
        assert forall t <- fullList :: !matches(patterns[i], t) by {
          forall t <- fullList
            ensures !matches(patterns[i], t)
          {
            assert t !in matched;
          }
        }
        unknown := unknown + [patterns[i]];
      } else {
        assert matched[0] in matched;
      }
      found := found + matched;
      assert patterns[..i + 1] == patterns[..i] + [patterns[i]];
    }
    assert patterns[..|patterns|] == patterns;
    if unknown != [] {
      assert unknown[0] in patterns;
      return Failure(unknown);
    }
    return Success(Uniq(found));
  }
}
