/** Order facts about sequences shared by the filters of the pipeline. */
module Seqs {

  /** `a` is obtained from `b` by deleting elements, keeping the order of the rest. */
  predicate IsSubsequence<T(==)>(a: seq<T>, b: seq<T>)
    decreases |b|
  {
    if a == [] then true
    else if b == [] then false
    else if a[0] == b[0] then IsSubsequence(a[1..], b[1..])
    else IsSubsequence(a, b[1..])
  }

  /** Appending one element to both sides, or only to the longer side, keeps the relation. */
  lemma {:induction false} SubsequenceSnoc<T>(a: seq<T>, b: seq<T>, x: T, keep: bool)
    requires IsSubsequence(a, b)
    ensures IsSubsequence(if keep then a + [x] else a, b + [x])
    decreases |b|
  {
    if b == [] {
      assert a == [];
      if keep {
        assert [x][1..] == [] && ([] + [x]) == [x];
      } else {
        assert IsSubsequence(a, [x][1..]);
      }
    } else if a == [] {
      if keep {
        assert a + [x] == [x];
        SubsequenceOfSingle(x, b + [x]);
      }
    } else if a[0] == b[0] {
      SubsequenceSnoc(a[1..], b[1..], x, keep);
      var a' := if keep then a + [x] else a;
      assert a'[0] == (b + [x])[0];
      assert a'[1..] == (if keep then a[1..] + [x] else a[1..]);
      assert (b + [x])[1..] == b[1..] + [x];
    } else {
      SubsequenceSnoc(a, b[1..], x, keep);
      var a' := if keep then a + [x] else a;
      assert a'[0] != (b + [x])[0];
      assert (b + [x])[1..] == b[1..] + [x];
    }
  }

  /** Putting one element in front of the longer side, or of both sides, keeps the relation. */
  lemma {:induction false} SubsequenceCons<T>(a: seq<T>, b: seq<T>, x: T, keep: bool)
    requires IsSubsequence(a, b)
    ensures IsSubsequence(if keep then [x] + a else a, [x] + b)
    decreases |b|, 1
  {
    if keep {
      assert ([x] + a)[1..] == a && ([x] + b)[1..] == b;
    } else if a != [] {
      assert ([x] + b)[1..] == b;
      if a[0] == x {
        SubsequenceTail(a, b);
      }
    }
  }

  /** Dropping the first element of the shorter side keeps the relation. */
  lemma {:induction false} SubsequenceTail<T>(a: seq<T>, b: seq<T>)
    requires a != [] && IsSubsequence(a, b)
    ensures IsSubsequence(a[1..], b)
    decreases |b|, 0
  {
    if a[0] == b[0] {
      SubsequenceCons(a[1..], b[1..], b[0], false);
    } else {
      SubsequenceTail(a, b[1..]);
      SubsequenceCons(a[1..], b[1..], b[0], false);
    }
    assert b == [b[0]] + b[1..];
  }

  /** A one-element sequence is a subsequence of any sequence that ends with that element. */
  lemma {:induction false} SubsequenceOfSingle<T>(x: T, b: seq<T>)
    requires b != [] && b[|b| - 1] == x
    ensures IsSubsequence([x], b)
    decreases |b|
  {
    if b[0] != x {
      SubsequenceOfSingle(x, b[1..]);
    }
  }

  /** A subsequence is never longer. */
  lemma {:induction false} SubsequenceLength<T>(a: seq<T>, b: seq<T>)
    requires IsSubsequence(a, b)
    ensures |a| <= |b|
    decreases |b|
  {
    if a != [] {
      if a[0] == b[0] {
        SubsequenceLength(a[1..], b[1..]);
      } else {
        SubsequenceLength(a, b[1..]);
      }
    }
  }

  /** Python's `xs[:k]` for an integer `k` of either sign. */
  function PySliceTo<T>(xs: seq<T>, k: int): (r: seq<T>)
    ensures r <= xs
    ensures 0 <= k ==> |r| == if k <= |xs| then k else |xs|
    ensures k < 0 ==> |xs| - |r| == if -k <= |xs| then -k else |xs|
  {
    if k >= 0 then xs[..if k <= |xs| then k else |xs|]
    else xs[..if |xs| + k < 0 then 0 else |xs| + k]
  }
}
