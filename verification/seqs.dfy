/**
 * Array `filter` and counting, the operations most list views of the
 * dashboard are built from.
 */
module Seqs {

  /**
   * `xs.filter(keep)`: the elements `keep` accepts, in their original order,
   * each as often as it occurs; as many as `keep` counts.
   */
  function Filter<T>(xs: seq<T>, keep: T -> bool): (r: seq<T>)
    ensures |r| == Count(xs, keep)
    ensures Subsequence(r, xs)
    ensures forall i :: 0 <= i < |r| ==> r[i] in xs && keep(r[i])
    ensures forall i :: 0 <= i < |xs| && keep(xs[i]) ==> xs[i] in r
  {
    if |xs| == 0 then []
    else if keep(xs[0]) then [xs[0]] + Filter(xs[1..], keep)
    else Filter(xs[1..], keep)
  }

  /**
   * `a` is `b` with some elements left out: the elements of `a` occur in
   * `b` in the same order and with at least the same multiplicity.
   */
  predicate Subsequence<T(==)>(a: seq<T>, b: seq<T>)
    decreases |b|
  {
    if |a| == 0 then true
    else if |b| == 0 then false
    else if a[0] == b[0] then Subsequence(a[1..], b[1..])
    else Subsequence(a, b[1..])
  }

  /** A subsequence holds no element more often than the sequence it is taken from. */
  lemma {:induction false} SubsequenceMultiset<T>(a: seq<T>, b: seq<T>)
    requires Subsequence(a, b)
    ensures multiset(a) <= multiset(b)
  {
    if |a| > 0 {
      assert b == [b[0]] + b[1..];
      if a[0] == b[0] {
        SubsequenceMultiset(a[1..], b[1..]);
        assert a == [a[0]] + a[1..];
      } else {
        SubsequenceMultiset(a, b[1..]);
      }
    }
  }

  /** The filter never duplicates an element. */
  lemma FilterMultiset<T>(xs: seq<T>, keep: T -> bool)
    ensures multiset(Filter(xs, keep)) <= multiset(xs)
  {
    SubsequenceMultiset(Filter(xs, keep), xs);
  }

  /** An element survives the filter exactly when it is in the list and accepted. */
  lemma FilterMember<T>(xs: seq<T>, keep: T -> bool, x: T)
    ensures x in Filter(xs, keep) <==> x in xs && keep(x)
  {
    if x in xs && keep(x) {
      var i :| 0 <= i < |xs| && xs[i] == x;
    }
  }

  /** Filtering distributes over concatenation: the kept elements keep their relative order. */
  lemma {:induction false} FilterConcat<T>(a: seq<T>, b: seq<T>, keep: T -> bool)
    ensures Filter(a + b, keep) == Filter(a, keep) + Filter(b, keep)
  {
    if |a| > 0 {
      assert (a + b)[1..] == a[1..] + b;
      FilterConcat(a[1..], b, keep);
    } else {
      assert a + b == b;
    }
  }

  /** A filter that accepts every element returns the list itself. */
  lemma {:induction false} FilterAll<T>(xs: seq<T>, keep: T -> bool)
    requires forall i :: 0 <= i < |xs| ==> keep(xs[i])
    ensures Filter(xs, keep) == xs
  {
    if |xs| > 0 {
      FilterAll(xs[1..], keep);
      assert [xs[0]] + xs[1..] == xs;
    }
  }

  /** Filtering twice with the same test is filtering once. */
  lemma {:induction false} FilterIdempotent<T>(xs: seq<T>, keep: T -> bool)
    ensures Filter(Filter(xs, keep), keep) == Filter(xs, keep)
  {
    var r := Filter(xs, keep);
    FilterAll(r, keep);
  }

  /** The number of elements `keep` accepts. */
  function Count<T>(xs: seq<T>, keep: T -> bool): (n: nat)
    ensures n <= |xs|
    ensures n == 0 <==> forall i :: 0 <= i < |xs| ==> !keep(xs[i])
    ensures n == |xs| <==> forall i :: 0 <= i < |xs| ==> keep(xs[i])
  {
    if |xs| == 0 then 0
    else
      var n := Count(xs[1..], keep);
      assert forall i :: 1 <= i < |xs| ==> xs[i] == xs[1..][i - 1];
      (if keep(xs[0]) then 1 else 0) + n
  }

  /** Counting a test and its negation splits the list. */
  lemma {:induction false} CountComplement<T>(xs: seq<T>, keep: T -> bool)
    ensures Count(xs, keep) + Count(xs, x => !keep(x)) == |xs|
  {
    if |xs| > 0 {
      CountComplement(xs[1..], keep);
    }
  }

  /** Counting a test that implies another never counts more. */
  lemma {:induction false} CountMonotone<T>(xs: seq<T>, p: T -> bool, q: T -> bool)
    requires forall x :: p(x) ==> q(x)
    ensures Count(xs, p) <= Count(xs, q)
  {
    if |xs| > 0 {
      CountMonotone(xs[1..], p, q);
    }
  }

  /** Counting distributes over concatenation. */
  lemma {:induction false} CountConcat<T>(a: seq<T>, b: seq<T>, keep: T -> bool)
    ensures Count(a + b, keep) == Count(a, keep) + Count(b, keep)
  {
    if |a| > 0 {
      assert (a + b)[1..] == a[1..] + b;
      CountConcat(a[1..], b, keep);
    } else {
      assert a + b == b;
    }
  }

  /** The count of a list grown by one element at the end. */
  lemma CountSnoc<T>(xs: seq<T>, x: T, keep: T -> bool)
    ensures Count(xs + [x], keep) == Count(xs, keep) + (if keep(x) then 1 else 0)
  {
    CountConcat(xs, [x], keep);
  }

  /** Three tests no two of which hold together count, summed, at most the whole list. */
  lemma {:induction false} CountDisjointBound<T>(xs: seq<T>, p: T -> bool, q: T -> bool, r: T -> bool)
    requires forall i :: 0 <= i < |xs| ==> !(p(xs[i]) && q(xs[i])) && !(p(xs[i]) && r(xs[i])) && !(q(xs[i]) && r(xs[i]))
    ensures Count(xs, p) + Count(xs, q) + Count(xs, r) <= |xs|
  {
    if |xs| > 0 {
      CountDisjointBound(xs[1..], p, q, r);
    }
  }
}
