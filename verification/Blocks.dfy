/** Hashing a message block by block, whatever a block does to the state. */
module Blocks {
  import opened Bytes

  /** The state after the first `k` blocks of 64 bytes. */
  function Fold<S>(f: (S, seq<byte>) -> S, init: S, m: seq<byte>, k: nat): S
    requires 64 * k <= |m|
  {
    if k == 0 then init else f(Fold(f, init, m, k - 1), m[64 * (k - 1)..64 * k])
  }

  /** It depends on those blocks only. */
  lemma {:induction false} SameBlocks<S>(f: (S, seq<byte>) -> S, init: S, m: seq<byte>, n: seq<byte>, k: nat)
    requires 64 * k <= |m| && 64 * k <= |n| && forall i | 0 <= i < 64 * k :: m[i] == n[i]
    ensures Fold(f, init, m, k) == Fold(f, init, n, k)
  {
    if k > 0 {
      assert m[64 * (k - 1)..64 * k] == n[64 * (k - 1)..64 * k];
      SameBlocks(f, init, m, n, k - 1);
    }
  }
}
