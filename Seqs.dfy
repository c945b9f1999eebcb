/**
 * The JavaScript array built-ins the catalogue relies on (`filter`, `reverse`),
 * as functions on sequences, together with the facts about them that the rest
 * of the model uses.
 */
module Seqs {

  /** `s.filter(keep)`: the elements of `s` satisfying `keep`, in their original order. */
  function Filter<T(!new)>(s: seq<T>, keep: T -> bool): (r: seq<T>)
    ensures |r| <= |s|
    decreases |s|
  {
    if s == [] then []
    else Filter(s[..|s| - 1], keep) + (if keep(s[|s| - 1]) then [s[|s| - 1]] else [])
  }

  /** Filtering keeps every occurrence of a kept value and no occurrence of any other value. */
  lemma {:induction false} FilterCount<T(!new)>(s: seq<T>, keep: T -> bool, x: T)
    ensures multiset(Filter(s, keep))[x] == if keep(x) then multiset(s)[x] else 0
    ensures x in Filter(s, keep) <==> x in s && keep(x)
    decreases |s|
  {
    if s != [] {
      FilterCount(s[..|s| - 1], keep, x);
      assert s == s[..|s| - 1] + [s[|s| - 1]];
    }
  }

  /** `a` is a sub-sequence of `b`: `a` is `b` with some elements dropped and the rest kept in order. */
  predicate Subsequence<T(==)>(a: seq<T>, b: seq<T>)
    decreases |b|
  {
    if a == [] then true
    else if b == [] then false
    else Subsequence(a, b[..|b| - 1]) || (a[|a| - 1] == b[|b| - 1] && Subsequence(a[..|a| - 1], b[..|b| - 1]))
  }

  lemma {:induction false} FilterAppend<T(!new)>(a: seq<T>, b: seq<T>, keep: T -> bool)
    ensures Filter(a + b, keep) == Filter(a, keep) + Filter(b, keep)
    decreases |b|
  {
    if b == [] {
      assert a + b == a;
    } else {
      var b' := b[..|b| - 1];
      assert (a + b)[..|a + b| - 1] == a + b';
      FilterAppend(a, b', keep);
    }
  }

  lemma {:induction false} FilterIsSubsequence<T(!new)>(s: seq<T>, keep: T -> bool)
    ensures Subsequence(Filter(s, keep), s)
    decreases |s|
  {
    if s != [] {
      var s' := s[..|s| - 1];
      FilterIsSubsequence(s', keep);
      if keep(s[|s| - 1]) {
        var r := Filter(s, keep);
        assert r[..|r| - 1] == Filter(s', keep);
      } else {
        SubsequenceOfPrefix(Filter(s', keep), s');
        assert s == s' + [s[|s| - 1]];
        assert Filter(s, keep) == Filter(s', keep);
      }
    }
  }

  /** Dropping the last element of the longer sequence keeps a sub-sequence of it when that element is not needed. */
  lemma {:induction false} SubsequenceOfPrefix<T>(a: seq<T>, b': seq<T>)
    requires Subsequence(a, b')
    ensures forall x :: Subsequence(a, b' + [x])
  {
    forall x ensures Subsequence(a, b' + [x]) {
      if a != [] {
        assert (b' + [x])[..|b' + [x]| - 1] == b';
      }
    }
  }

  /** When every element is kept, filtering changes nothing. */
  lemma {:induction false} FilterKeepsAll<T(!new)>(s: seq<T>, keep: T -> bool)
    requires forall i :: 0 <= i < |s| ==> keep(s[i])
    ensures Filter(s, keep) == s
    decreases |s|
  {
    if s != [] {
      var s', last := s[..|s| - 1], s[|s| - 1];
      assert forall i :: 0 <= i < |s'| ==> s'[i] == s[i];
      FilterKeepsAll(s', keep);
      assert keep(last);
      assert s == s' + [last];
    }
  }

  /** Filtering out one element that fails the test, among elements that all pass it, removes just that element. */
  lemma FilterDropsOne<T(!new)>(before: seq<T>, x: T, after: seq<T>, keep: T -> bool)
    requires forall i :: 0 <= i < |before| ==> keep(before[i])
    requires forall i :: 0 <= i < |after| ==> keep(after[i])
    requires !keep(x)
    ensures Filter(before + [x] + after, keep) == before + after
  {
    FilterKeepsAll(before, keep);
    FilterKeepsAll(after, keep);
    FilterSingleton(x, keep);
    FilterAppend(before, [x], keep);
    assert Filter(before + [x], keep) == before;
    FilterAppend(before + [x], after, keep);
  }

  /**
   * If `b` filters like `a` followed by `x`, then `b + [y]` filters like
   * `a + [y]` followed by `x`, provided `x` and `y` are not both kept.
   */
  lemma FilterAppendUnrelated<T(!new)>(a: seq<T>, b: seq<T>, x: T, y: T, keep: T -> bool)
    requires Filter(b, keep) == Filter(a, keep) + Filter([x], keep)
    requires !(keep(x) && keep(y))
    ensures Filter(b + [y], keep) == Filter(a + [y], keep) + Filter([x], keep)
  {
    FilterAppend(b, [y], keep);
    FilterAppend(a, [y], keep);
    FilterSingleton(x, keep);
    FilterSingleton(y, keep);
  }

  lemma FilterSingleton<T(!new)>(x: T, keep: T -> bool)
    ensures Filter([x], keep) == if keep(x) then [x] else []
  {
    assert [x][..0] == [];
  }

  /** `s.reverse()`, as a value. */
  function Reverse<T>(s: seq<T>): (r: seq<T>)
    ensures |r| == |s|
  {
    if s == [] then [] else Reverse(s[1..]) + [s[0]]
  }

  lemma {:induction false} ReverseAt<T>(s: seq<T>, k: nat)
    requires k < |s|
    ensures Reverse(s)[k] == s[|s| - 1 - k]
    decreases |s|
  {
    if k < |s| - 1 {
      ReverseAt(s[1..], k);
    }
  }

  lemma {:induction false} ReverseMultiset<T>(s: seq<T>)
    ensures multiset(Reverse(s)) == multiset(s)
    decreases |s|
  {
    if s != [] {
      ReverseMultiset(s[1..]);
      assert s == [s[0]] + s[1..];
    }
  }

  lemma ReverseReverse<T>(s: seq<T>)
    ensures Reverse(Reverse(s)) == s
  {
    var r := Reverse(s);
    forall k | 0 <= k < |s| ensures Reverse(r)[k] == s[k] {
      ReverseAt(r, k);
      ReverseAt(s, |s| - 1 - k);
    }
  }
}
