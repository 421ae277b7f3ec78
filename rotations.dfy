/** The rotation both tests use to give each variant its turn as the candidate.

    With `n` variants, the comparator call for variant `i` reads the variants
    at `i, (i + 1) % n, ..., (i + n - 1) % n`: the first is the candidate, the
    others are its rivals. */
module Rotations {

  /** The indices read when variant `i` is the candidate, candidate first. */
  function Rotation(n: nat, i: nat): (r: seq<nat>)
    requires i < n
    ensures |r| == n && r[0] == i
    ensures forall k :: 0 <= k < n ==> r[k] == (i + k) % n
  {
    WrapOnce(i, n);
    seq(n, k requires 0 <= k < n => (i + k) % n)
  }

  /** The rotation is a permutation of `0 .. n`: every index it yields is a
      valid variant index, no variant is read twice (so no variant is its own
      rival), and every variant takes part. */
  lemma RotationIsPermutation(n: nat, i: nat)
    requires i < n
    ensures forall k :: 0 <= k < n ==> Rotation(n, i)[k] < n
    ensures forall k, l :: 0 <= k < l < n ==> Rotation(n, i)[k] != Rotation(n, i)[l]
    ensures forall v :: 0 <= v < n ==> v in Rotation(n, i)
  {
    var r := Rotation(n, i);
    forall k | 0 <= k < n
      ensures r[k] == if i + k < n then i + k else i + k - n
    {
      WrapOnce(i + k, n);
    }
    forall v | 0 <= v < n
      ensures v in r
    {
      var k := if i <= v then v - i else v + n - i;
      assert r[k] == v;
    }
  }

  /** For `0 <= x < 2 * n`, reducing modulo `n` subtracts `n` at most once. */
  lemma WrapOnce(x: nat, n: nat)
    requires 0 < n && x < 2 * n
    ensures x % n == if x < n then x else x - n
  {
    if x >= n {
      assert x == 1 * n + (x - n);
    }
  }
}
