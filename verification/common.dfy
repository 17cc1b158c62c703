/** Shared vocabulary of the reporting code: optional values and results, and the
    sequence operations that pandas provides to it (duplicate-free lists, first
    occurrences, `Series.unique()`, order-preserving selection, sums). */
module Common {

  /** A value that may be missing (pandas' NaN / Python's None). */
  datatype Option<+T> = None | Some(value: T)

  /** The outcome of an operation that can raise. */
  datatype Result<+T, +E> = Success(value: T) | Failure(error: E)

  /** No element occurs twice. */
  predicate Distinct<T(==)>(s: seq<T>) {
    forall i, j :: 0 <= i < j < |s| ==> s[i] != s[j]
  }

  /** A non-empty sequence has a member. */
  lemma HeadIsMember<T>(s: seq<T>)
    ensures |s| > 0 ==> s[0] in s
  {
  }

  /** The position of the first occurrence of x in s (`list.index`). */
  function FirstIndex<T(==)>(s: seq<T>, x: T): (k: nat)
    requires x in s
    ensures k < |s| && s[k] == x
  {
    if s[0] == x then 0 else 1 + FirstIndex(s[1..], x)
  }

  /** No occurrence of x precedes the one `FirstIndex` finds. */
  lemma {:induction false} FirstIndexIsFirst<T>(s: seq<T>, x: T)
    requires x in s
    ensures x !in s[..FirstIndex(s, x)]
  {
    if s[0] != x {
      FirstIndexIsFirst(s[1..], x);
      assert s[..FirstIndex(s, x)] == [s[0]] + s[1..][..FirstIndex(s[1..], x)];
    }
  }

  /** In a duplicate-free list the first occurrence is the only one. */
  lemma FirstIndexDistinct<T>(s: seq<T>, k: nat)
    requires Distinct(s) && k < |s|
    ensures FirstIndex(s, s[k]) == k
  {
  }

  /** Appending never moves the first occurrence of an element already present. */
  lemma {:induction false} FirstIndexAppend<T>(a: seq<T>, b: seq<T>, x: T)
    requires x in a
    ensures FirstIndex(a + b, x) == FirstIndex(a, x)
  {
    if a[0] != x {
      assert (a + b)[1..] == a[1..] + b;
      FirstIndexAppend(a[1..], b, x);
    }
  }

  /** `Series.unique()`: every element once, in order of first appearance. */
  function Unique<T(==,!new)>(s: seq<T>): (u: seq<T>)
    ensures Distinct(u)
    ensures forall x :: x in u <==> x in s
  {
    if |s| == 0 then []
    else
      var u := Unique(s[..|s| - 1]);
      var last := s[|s| - 1];
      assert forall x :: x in s <==> x in s[..|s| - 1] || x == last by {
        assert s == s[..|s| - 1] + [last];
      }
      if last in u then u else u + [last]
  }

  /** `Unique` lists the elements in the order in which they first appear in s. */
  lemma {:induction false} UniqueFirstSeenOrder<T(!new)>(s: seq<T>, i: nat, j: nat)
    requires i < j < |Unique(s)|
    ensures Unique(s)[i] in s && Unique(s)[j] in s
    ensures FirstIndex(s, Unique(s)[i]) < FirstIndex(s, Unique(s)[j])
  {
    var n := |s| - 1;
    var p, last := s[..n], s[n];
    var u := Unique(p);
    assert s == p + [last];
    if j < |u| {
      UniqueFirstSeenOrder(p, i, j);
      FirstIndexAppend(p, [last], u[i]);
      FirstIndexAppend(p, [last], u[j]);
    } else {
      // the newly appended element is the last one and first appears at n
      assert last !in u && Unique(s) == u + [last];
      assert last !in p;
      assert FirstIndex(s, last) == n by {
        assert s[..n] == p;
      }
      FirstIndexAppend(p, [last], u[i]);
    }
  }

  /** `UniqueFirstSeenOrder` for two elements named by their positions in `Unique(s)`. */
  lemma UniqueFirstSeenAt<T(!new)>(s: seq<T>, i: nat, j: nat, x: T, y: T)
    requires i < j < |Unique(s)| && x == Unique(s)[i] && y == Unique(s)[j]
    ensures x in s && y in s
    ensures FirstIndex(s, x) < FirstIndex(s, y)
  {
    UniqueFirstSeenOrder(s, i, j);
  }

  /** Removing the element at k removes one occurrence of it. */
  lemma MultisetRemove<T>(b: seq<T>, k: nat)
    requires k < |b|
    ensures multiset(b[..k] + b[k + 1..]) == multiset(b) - multiset{b[k]}
  {
    assert b == b[..k] + [b[k]] + b[k + 1..];
  }

  /** a is obtained from b by deleting elements, keeping the order of the rest. */
  ghost predicate IsSubsequence<T>(a: seq<T>, b: seq<T>)
    decreases |b|
  {
    if |b| == 0 then |a| == 0
    else (|a| > 0 && a[0] == b[0] && IsSubsequence(a[1..], b[1..])) || IsSubsequence(a, b[1..])
  }

  /** The sum of a count taken from every element (`df[col].sum()` over rows). */
  function SumBy<T>(s: seq<T>, f: T -> nat): nat {
    if |s| == 0 then 0 else f(s[0]) + SumBy(s[1..], f)
  }

  lemma {:induction false} SumByAppend<T>(a: seq<T>, b: seq<T>, f: T -> nat)
    ensures SumBy(a + b, f) == SumBy(a, f) + SumBy(b, f)
  {
    if |a| > 0 {
      assert (a + b)[1..] == a[1..] + b;
      SumByAppend(a[1..], b, f);
    } else {
      assert a + b == b;
    }
  }

  /** Removing the element at k takes its count out of the sum. */
  lemma SumByRemove<T>(b: seq<T>, k: nat, f: T -> nat)
    requires k < |b|
    ensures SumBy(b, f) == f(b[k]) + SumBy(b[..k] + b[k + 1..], f)
  {
    var left, tail, right := b[..k], b[k..], b[k + 1..];
    assert b == left + tail;
    assert tail[1..] == right;
    SumByAppend(left, tail, f);
    SumByAppend(left, right, f);
  }

  /** The sum does not depend on the order of the elements. */
  lemma {:induction false} SumByPermutation<T>(a: seq<T>, b: seq<T>, f: T -> nat)
    requires multiset(a) == multiset(b)
    ensures SumBy(a, f) == SumBy(b, f)
    decreases |a|
  {
    if |a| > 0 {
      var x := a[0];
      assert x in multiset(b) by {
        assert x in a;
      }
      var k := FirstIndex(b, x);
      var rest := b[..k] + b[k + 1..];
      assert multiset(a[1..]) == multiset(rest) by {
        assert a == [x] + a[1..];
        MultisetRemove(b, k);
      }
      SumByPermutation(a[1..], rest, f);
      SumByRemove(b, k, f);
    } else {
      assert |b| == |multiset(b)|;
    }
  }

  function Count(n: nat): nat {
    n
  }

  /** The sum of a column of counts (`Series.sum()`); the empty sum is 0. */
  function Sum(s: seq<nat>): nat {
    SumBy(s, Count)
  }

  /** Every entry is at most the sum, since counts are non-negative. */
  lemma {:induction false} EntryAtMostSum(s: seq<nat>, k: nat)
    requires k < |s|
    ensures s[k] <= Sum(s)
  {
    if k > 0 {
      EntryAtMostSum(s[1..], k - 1);
    }
  }

  /** Adding v to one entry adds v to the sum. */
  lemma {:induction false} SumBump(s: seq<nat>, k: nat, v: nat)
    requires k < |s|
    ensures Sum(s[k := s[k] + v]) == Sum(s) + v
  {
    if k > 0 {
      assert s[k := s[k] + v][1..] == s[1..][k - 1 := s[k] + v];
      SumBump(s[1..], k - 1, v);
    }
  }

  /** The sum of a sequence of zeros is zero. */
  lemma {:induction false} SumZeros(n: nat)
    ensures Sum(seq(n, _ => 0)) == 0
  {
    if n > 0 {
      assert seq(n, _ => 0)[1..] == seq(n - 1, _ => 0);
      SumZeros(n - 1);
    }
  }
}
