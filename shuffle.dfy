/**
 * Swift's `shuffled()` is random. The model takes the outcome as an argument:
 * an arbitrary permutation of the indices 0..n-1, chosen by the caller.
 */
module Shuffle {

  /** `perm` lists every index below `n` exactly once. */
  predicate IsPermutation(perm: seq<nat>, n: nat) {
    && |perm| == n
    && (forall i :: 0 <= i < n ==> perm[i] < n)
    && (forall i, j :: 0 <= i < j < n ==> perm[i] != perm[j])
  }

  /**
   * The list `s` in the order `perm` picks: position i holds `s[perm[i]]`.
   * It holds the same elements as `s`, each as often.
   */
  function Permute<T>(s: seq<T>, perm: seq<nat>): (r: seq<T>)
    requires IsPermutation(perm, |s|)
    ensures multiset(r) == multiset(s)
  {
    var r := seq(|s|, i requires 0 <= i < |s| => s[perm[i]]);
    PickedMultiset(s, perm, r);
    r
  }

  /**
   * A list that picks the elements of `s` along a permutation has the same
   * multiset as `s`. The last pick comes from some position j of `s`; the
   * other picks pick the rest of `s`, with the indices above j shifted down.
   */
  lemma {:induction false} PickedMultiset<T>(s: seq<T>, perm: seq<nat>, r: seq<T>)
    requires IsPermutation(perm, |s|)
    requires |r| == |s| && forall i :: 0 <= i < |r| ==> r[i] == s[perm[i]]
    ensures multiset(r) == multiset(s)
    decreases |s|
  {
    if |s| > 0 {
      var n := |s|;
      var j := perm[n - 1];
      var rest := s[..j] + s[j + 1..];
      var restPerm := seq(n - 1, i requires 0 <= i < n - 1 => if perm[i] < j then perm[i] else perm[i] - 1);
      forall i | 0 <= i < n - 1
        ensures restPerm[i] < n - 1 && rest[restPerm[i]] == r[i]
      {
        assert perm[i] != perm[n - 1];
      }
      forall i, k | 0 <= i < k < n - 1
        ensures restPerm[i] != restPerm[k]
      {
        assert perm[i] != perm[n - 1] && perm[k] != perm[n - 1] && perm[i] != perm[k];
      }
      PickedMultiset(rest, restPerm, r[..n - 1]);
      assert r == r[..n - 1] + [s[j]];
      assert s == s[..j] + [s[j]] + s[j + 1..];
    }
  }

  /** The identity order 0, 1, ..., n-1. */
  function Identity(n: nat): (r: seq<nat>)
    ensures IsPermutation(r, n)
  {
    seq(n, i => i)
  }

  /** Reordering a permutation by another permutation gives a permutation. */
  lemma PermuteKeepsPermutation(order: seq<nat>, perm: seq<nat>)
    requires IsPermutation(order, |order|)
    requires IsPermutation(perm, |order|)
    ensures IsPermutation(Permute(order, perm), |order|)
  {
  }
}
