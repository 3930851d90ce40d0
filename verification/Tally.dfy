/** Sums of a weight over the callers of a concurrent protocol. */
module Tally {
  function Total<T>(s: seq<T>, weight: T -> nat): nat {
    if s == [] then 0 else Total(s[..|s| - 1], weight) + weight(s[|s| - 1])
  }

  lemma {:induction false} TotalUpdate<T>(s: seq<T>, i: nat, x: T, weight: T -> nat)
    requires i < |s|
    ensures Total(s[i := x], weight) == Total(s, weight) - weight(s[i]) + weight(x)
    ensures Total(s, weight) >= weight(s[i])
  {
    var init := s[..|s| - 1];
    if i < |s| - 1 {
      assert s[i := x][..|s| - 1] == init[i := x];
      TotalUpdate(init, i, x, weight);
    } else {
      assert s[i := x][..|s| - 1] == init;
    }
  }

  lemma {:induction false} TotalOfTwo<T>(s: seq<T>, i: nat, j: nat, weight: T -> nat)
    requires i < j < |s|
    ensures Total(s, weight) >= weight(s[i]) + weight(s[j])
  {
    if j < |s| - 1 {
      TotalOfTwo(s[..|s| - 1], i, j, weight);
    } else {
      TotalUpdate(s[..j], i, s[i], weight);
    }
  }

  lemma {:induction false} TotalPositive<T>(s: seq<T>, weight: T -> nat) returns (i: nat)
    requires Total(s, weight) > 0
    ensures i < |s| && weight(s[i]) > 0
  {
    if weight(s[|s| - 1]) > 0 {
      i := |s| - 1;
    } else {
      i := TotalPositive(s[..|s| - 1], weight);
    }
  }

  lemma {:induction false} TotalZero<T>(s: seq<T>, weight: T -> nat)
    requires forall i :: 0 <= i < |s| ==> weight(s[i]) == 0
    ensures Total(s, weight) == 0
  {
    if s != [] {
      TotalZero(s[..|s| - 1], weight);
    }
  }

  /** Weights that split a third one pointwise split its total. */
  lemma {:induction false} TotalSplits<T>(s: seq<T>, whole: T -> nat, part: T -> nat, rest: T -> nat)
    requires forall x :: whole(x) == part(x) + rest(x)
    ensures Total(s, whole) == Total(s, part) + Total(s, rest)
  {
    if s != [] {
      TotalSplits(s[..|s| - 1], whole, part, rest);
    }
  }
}
