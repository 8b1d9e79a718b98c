/** Rearrangements of a list, given by where each element comes from. */
module Permutations {

  predicate IsPermutation(at: seq<nat>, n: nat) {
    && |at| == n
    && (forall i :: 0 <= i < n ==> at[i] < n)
    && (forall i, j :: 0 <= i < j < n ==> at[i] != at[j])
  }

  function Rearranged<T>(s: seq<T>, at: seq<nat>): (r: seq<T>)
    requires forall i :: 0 <= i < |at| ==> at[i] < |s|
    ensures |r| == |at| && forall i :: 0 <= i < |at| ==> r[i] == s[at[i]]
  {
    seq(|at|, i requires 0 <= i < |at| => s[at[i]])
  }

  /** As many different positions as there are elements reach every element. */
  lemma HitsEverything(at: seq<nat>, n: nat, k: nat) returns (i: nat)
    requires IsPermutation(at, n) && k < n
    ensures i < n && at[i] == k
  {
    if forall i :: 0 <= i < n ==> at[i] != k {
      TooMany(at, n, k);
    }
    i :| 0 <= i < n && at[i] == k;
  }

  /** n different numbers below n cannot all avoid one number below n. */
  lemma {:induction false} TooMany(at: seq<nat>, n: nat, k: nat)
    requires IsPermutation(at, n) && k < n
    requires forall i :: 0 <= i < n ==> at[i] != k
    ensures false
    decreases n
  {
    var last := at[n - 1];
    var less := seq(n - 1, i requires 0 <= i < n - 1 => if at[i] == n - 1 then last else at[i]);
    TooMany(less, n - 1, if k == n - 1 then last else k);
  }
}
