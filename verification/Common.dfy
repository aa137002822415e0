/** Small helpers shared by the models: optional values, results, and sums over id lists. */
module Common {

  datatype Option<+T> = None | Some(value: T)
  {
    function GetOr(default: T): T {
      if Some? then value else default
    }
  }

  datatype Result<+T, +E> = Success(value: T) | Failure(error: E)

  function Max(a: int, b: int): int {
    if a < b then b else a
  }

  predicate Distinct<T(==)>(s: seq<T>) {
    forall i, j :: 0 <= i < j < |s| ==> s[i] != s[j]
  }

  /** The sum of `f` over the listed ids. */
  function Sum<Id>(ids: seq<Id>, f: Id -> int): int {
    if ids == [] then 0 else Sum(ids[..|ids| - 1], f) + f(ids[|ids| - 1])
  }

  lemma {:induction false} SumCongruent<Id>(ids: seq<Id>, f: Id -> int, g: Id -> int)
    requires forall i :: 0 <= i < |ids| ==> f(ids[i]) == g(ids[i])
    ensures Sum(ids, f) == Sum(ids, g)
  {
    if ids != [] {
      SumCongruent(ids[..|ids| - 1], f, g);
    }
  }

  /** Two summands that agree everywhere but at one listed id differ by the change at that id. */
  lemma {:induction false} SumChange<Id>(ids: seq<Id>, f: Id -> int, g: Id -> int, at: Id)
    requires Distinct(ids) && at in ids
    requires forall x :: x in ids && x != at ==> f(x) == g(x)
    ensures Sum(ids, g) - Sum(ids, f) == g(at) - f(at)
  {
    var n := |ids| - 1;
    if ids[n] == at {
      SumCongruent(ids[..n], f, g);
    } else {
      assert at in ids[..n];
      SumChange(ids[..n], f, g, at);
    }
  }

  lemma {:induction false} SumNonNegative<Id>(ids: seq<Id>, f: Id -> int, at: Id)
    requires forall x :: x in ids ==> f(x) >= 0
    requires at in ids
    ensures Sum(ids, f) >= f(at) >= 0
  {
    var n := |ids| - 1;
    SumAtLeastZero(ids[..n], f);
    if ids[n] != at {
      assert at in ids[..n];
      SumNonNegative(ids[..n], f, at);
    }
  }

  lemma {:induction false} SumAtLeastZero<Id>(ids: seq<Id>, f: Id -> int)
    requires forall x :: x in ids ==> f(x) >= 0
    ensures Sum(ids, f) >= 0
  {
    if ids != [] {
      SumAtLeastZero(ids[..|ids| - 1], f);
    }
  }

  lemma {:induction false} SumZero<Id>(ids: seq<Id>, f: Id -> int)
    requires forall x :: x in ids ==> f(x) == 0
    ensures Sum(ids, f) == 0
  {
    if ids != [] {
      SumZero(ids[..|ids| - 1], f);
    }
  }

  lemma SubsetSize<T>(a: set<T>, b: set<T>)
    requires a <= b
    ensures |a| <= |b|
  {
    assert b == a + (b - a);
  }

  /** A list as long as the set it covers has no repeats. */
  lemma {:induction false} CoveringIsDistinct<T>(s: seq<T>, target: set<T>)
    requires (set x | x in s) == target && |s| == |target|
    ensures Distinct(s)
  {
    if s != [] {
      var n := |s| - 1;
      var front := set x | x in s[..n];
      assert (set x | x in s) == front + {s[n]};
      CardinalityOfSeq(s[..n]);
      assert s[n] !in front;
      CoveringIsDistinct(s[..n], front);
    }
  }

  lemma {:induction false} CardinalityOfSeq<T>(s: seq<T>)
    ensures |set x | x in s| <= |s|
  {
    if s != [] {
      var n := |s| - 1;
      CardinalityOfSeq(s[..n]);
      assert (set x | x in s) == (set x | x in s[..n]) + {s[n]};
    }
  }

  lemma {:induction false} DistinctCardinality<T>(s: seq<T>)
    requires Distinct(s)
    ensures |set x | x in s| == |s|
  {
    if s != [] {
      var n := |s| - 1;
      DistinctCardinality(s[..n]);
      assert (set x | x in s) == (set x | x in s[..n]) + {s[n]};
    }
  }
}
