/** Generic facts about sequences: filtering and the subsequence order. */
module Seqs {

  /** `a` can be obtained from `b` by deleting elements (order is kept). */
  predicate Subseq<T(==)>(a: seq<T>, b: seq<T>)
    decreases |b|
  {
    |a| == 0 || (|b| > 0 && if a[0] == b[0] then Subseq(a[1..], b[1..]) else Subseq(a, b[1..]))
  }

  /** The elements of `xs` that satisfy `p`, in their original order. */
  function Filter<T>(xs: seq<T>, p: T -> bool): (ys: seq<T>)
    ensures |ys| <= |xs|
    ensures forall y :: y in ys ==> y in xs && p(y)
    ensures forall x :: x in xs && p(x) ==> x in ys
  {
    if |xs| == 0 then []
    else if p(xs[0]) then [xs[0]] + Filter(xs[1..], p)
    else Filter(xs[1..], p)
  }

  lemma {:induction false} SubseqRefl<T>(a: seq<T>)
    ensures Subseq(a, a)
    decreases |a|
  {
    if |a| > 0 {
      SubseqRefl(a[1..]);
    }
  }

  lemma {:induction false} SubseqCons<T>(a: seq<T>, x: T, b: seq<T>)
    requires Subseq(a, b)
    ensures Subseq([x] + a, [x] + b) && Subseq(a, [x] + b)
    decreases |b|
  {
    assert ([x] + a)[1..] == a;
    assert ([x] + b)[1..] == b;
    if |a| > 0 && a[0] == x {
      // matching `x` greedily still leaves `a[1..]` inside `b`
      SubseqDropHead(a, b);
    }
  }

  lemma {:induction false} SubseqDropHead<T>(a: seq<T>, b: seq<T>)
    requires |a| > 0 && Subseq(a, b)
    ensures Subseq(a[1..], b)
    decreases |b|, 0
  {
    if a[0] == b[0] {
      SubseqWeaken(a[1..], b[1..], b[0]);
      assert b == [b[0]] + b[1..];
    } else {
      SubseqDropHead(a, b[1..]);
      SubseqWeaken(a[1..], b[1..], b[0]);
      assert b == [b[0]] + b[1..];
    }
  }

  lemma {:induction false} SubseqWeaken<T>(a: seq<T>, b: seq<T>, x: T)
    requires Subseq(a, b)
    ensures Subseq(a, [x] + b)
    decreases |b|, 1
  {
    assert ([x] + b)[1..] == b;
    if |a| > 0 && a[0] == x {
      SubseqDropHead(a, b);
    }
  }

  /** Filtering a concatenation filters each part: together with the one-
      element case this fixes `Filter` completely, multiplicities included. */
  lemma {:induction false} FilterAppend<T>(xs: seq<T>, ys: seq<T>, p: T -> bool)
    ensures Filter(xs + ys, p) == Filter(xs, p) + Filter(ys, p)
    decreases |xs|
  {
    if |xs| == 0 {
      assert xs + ys == ys;
    } else {
      assert (xs + ys)[0] == xs[0] && (xs + ys)[1..] == xs[1..] + ys;
      FilterAppend(xs[1..], ys, p);
    }
  }

  /** Filtering keeps the survivors in their original order. */
  lemma {:induction false} FilterIsSubseq<T>(xs: seq<T>, p: T -> bool)
    ensures Subseq(Filter(xs, p), xs)
    decreases |xs|
  {
    if |xs| > 0 {
      FilterIsSubseq(xs[1..], p);
      assert xs == [xs[0]] + xs[1..];
      SubseqCons(Filter(xs[1..], p), xs[0], xs[1..]);
    }
  }
}
