/**
 * Order-preserving selection from a sequence: the shape of JavaScript's
 * `Array.prototype.filter`, `find` and in-place `splice(i, 1)`.
 */
module Subsequences {
  import opened Optional

  /** `small` is `big` with some elements left out and the rest in their original order. */
  predicate IsSubsequence<T(==)>(small: seq<T>, big: seq<T>)
    decreases |big|
  {
    if small == [] then true
    else if big == [] then false
    else (small[0] == big[0] && IsSubsequence(small[1..], big[1..])) || IsSubsequence(small, big[1..])
  }

  lemma {:induction false} IsSubsequenceLength<T>(small: seq<T>, big: seq<T>)
    requires IsSubsequence(small, big)
    ensures |small| <= |big|
    decreases |big|
  {
    if small != [] {
      if small[0] == big[0] && IsSubsequence(small[1..], big[1..]) {
        IsSubsequenceLength(small[1..], big[1..]);
      } else {
        IsSubsequenceLength(small, big[1..]);
      }
    }
  }

  lemma {:induction false} IsSubsequenceReflexive<T>(s: seq<T>)
    ensures IsSubsequence(s, s)
    decreases |s|
  {
    if s != [] {
      IsSubsequenceReflexive(s[1..]);
    }
  }

  /** Leaving out more elements of a subsequence still gives a subsequence. */
  lemma {:induction false} IsSubsequenceTransitive<T>(a: seq<T>, b: seq<T>, c: seq<T>)
    requires IsSubsequence(a, b) && IsSubsequence(b, c)
    ensures IsSubsequence(a, c)
    decreases |c|
  {
    if a != [] {
      assert b != [] && c != [];
      if b[0] == c[0] && IsSubsequence(b[1..], c[1..]) {
        if a[0] == b[0] && IsSubsequence(a[1..], b[1..]) {
          IsSubsequenceTransitive(a[1..], b[1..], c[1..]);
        } else {
          IsSubsequenceTransitive(a, b[1..], c[1..]);
        }
      } else {
        IsSubsequenceTransitive(a, b, c[1..]);
      }
    }
  }

  /** Appending one element to the larger side, and optionally to the smaller, keeps the relation. */
  lemma {:induction false} IsSubsequenceAppend<T>(small: seq<T>, big: seq<T>, x: T, keep: bool)
    requires IsSubsequence(small, big)
    ensures IsSubsequence(small + (if keep then [x] else []), big + [x])
    decreases |big|
  {
    var small' := small + (if keep then [x] else []);
    if small == [] {
      if keep {
        assert small' == [x];
        assert (big + [x])[|big|..] == [x];
        AppendedTail(big, [x]);
      }
    } else {
      assert small'[1..] == small[1..] + (if keep then [x] else []);
      assert (big + [x])[1..] == big[1..] + [x];
      if small[0] == big[0] && IsSubsequence(small[1..], big[1..]) {
        IsSubsequenceAppend(small[1..], big[1..], x, keep);
      } else {
        IsSubsequenceAppend(small, big[1..], x, keep);
      }
    }
  }

  /** A suffix is a subsequence of anything it ends. */
  lemma {:induction false} AppendedTail<T>(prefix: seq<T>, tail: seq<T>)
    ensures IsSubsequence(tail, prefix + tail)
    decreases |prefix|
  {
    if prefix == [] {
      assert prefix + tail == tail;
      IsSubsequenceReflexive(tail);
    } else {
      assert (prefix + tail)[1..] == prefix[1..] + tail;
      AppendedTail(prefix[1..], tail);
    }
  }

  /** Dropping the element at position `i` (JavaScript `splice(i, 1)`) leaves a subsequence. */
  lemma {:induction false} RemoveAtIsSubsequence<T>(s: seq<T>, i: nat)
    requires i < |s|
    ensures IsSubsequence(s[..i] + s[i + 1..], s)
    decreases |s|
  {
    var r := s[..i] + s[i + 1..];
    if i == 0 {
      assert r == s[1..];
      IsSubsequenceReflexive(s[1..]);
    } else {
      assert r[0] == s[0];
      assert r[1..] == s[1..][..i - 1] + s[1..][i..];
      RemoveAtIsSubsequence(s[1..], i - 1);
    }
  }

  /** JavaScript `find`/`findIndex`: the position of the first element satisfying `p`, if any. */
  function FirstIndex<T>(s: seq<T>, p: T -> bool): (r: Option<nat>)
    ensures r.Some? ==> r.value < |s| && p(s[r.value]) && forall j :: 0 <= j < r.value ==> !p(s[j])
    ensures r.None? ==> forall j :: 0 <= j < |s| ==> !p(s[j])
    decreases |s|
  {
    if s == [] then None
    else if p(s[0]) then Some(0)
    else match FirstIndex(s[1..], p)
      case None => None
      case Some(i) => Some(i + 1)
  }

  /**
   * JavaScript `filter`: the elements satisfying `keep`, in their original
   * order, each as often as it occurs in `s` (so an element is in the result
   * iff it is in `s` and satisfies `keep`).
   */
  function Filter<T(==,!new)>(s: seq<T>, keep: T -> bool): (r: seq<T>)
    ensures forall x :: multiset(r)[x] == (if keep(x) then multiset(s)[x] else 0)
    ensures IsSubsequence(r, s)
    decreases |s|
  {
    if s == [] then []
    else
      var k := |s| - 1;
      var r := Filter(s[..k], keep) + (if keep(s[k]) then [s[k]] else []);
      assert s == s[..k] + [s[k]];
      FilterCountStep(s[..k], s[k], keep, Filter(s[..k], keep));
      IsSubsequenceAppend(Filter(s[..k], keep), s[..k], s[k], keep(s[k]));
      r
  }

  /** An element is in `Filter`'s result iff it is in the input and satisfies `keep`. */
  lemma FilterMembers<T(!new)>(s: seq<T>, keep: T -> bool)
    ensures forall x :: x in Filter(s, keep) <==> x in s && keep(x)
  {
    var r := Filter(s, keep);
    forall x
      ensures x in r <==> x in s && keep(x)
    {
      assert x in r <==> x in multiset(r);
      assert x in s <==> x in multiset(s);
    }
  }

  /** One more element keeps `Filter`'s occurrence counts: it is counted exactly when it is kept. */
  lemma FilterCountStep<T(!new)>(s: seq<T>, x: T, keep: T -> bool, kept: seq<T>)
    requires forall y :: multiset(kept)[y] == (if keep(y) then multiset(s)[y] else 0)
    ensures forall y :: multiset(kept + (if keep(x) then [x] else []))[y] == (if keep(y) then multiset(s + [x])[y] else 0)
  {
    assert multiset(s + [x]) == multiset(s) + multiset{x};
    assert multiset(kept + (if keep(x) then [x] else [])) == multiset(kept) + (if keep(x) then multiset{x} else multiset{});
  }
}
