/**
 * Powers of two: the integer predicate that `is_power_of_two`
 * (downloader.py:68-69) computes with a floating-point logarithm.
 */
module Powers {

  /** 2^k. */
  function Pow2(k: nat): (p: nat)
    ensures p >= 1
  {
    if k == 0 then 1 else 2 * Pow2(k - 1)
  }

  /** n is an exact power of two. */
  ghost predicate PowerOfTwo(n: int) {
    exists k: nat :: n == Pow2(k)
  }

  lemma {:induction false} Pow2StrictlyIncreasing(i: nat, j: nat)
    requires i < j
    ensures Pow2(i) < Pow2(j)
  {
    if i + 1 < j {
      Pow2StrictlyIncreasing(i, j - 1);
    }
  }

  /** The floor of log2 n: the one exponent k with 2^k <= n < 2^(k+1). */
  function Log2(n: nat): (k: nat)
    requires n >= 1
    ensures Pow2(k) <= n < Pow2(k + 1)
  {
    if n == 1 then 0 else 1 + Log2(n / 2)
  }

  /** The bracketing exponent is unique, so it is Log2. */
  lemma Log2Unique(n: nat, k: nat)
    requires n >= 1
    requires Pow2(k) <= n < Pow2(k + 1)
    ensures Log2(n) == k
  {
    var r := Log2(n);
    if r < k {
      Pow2StrictlyIncreasing(r, k);
      if r + 1 < k { Pow2StrictlyIncreasing(r + 1, k); }
    } else if k < r {
      Pow2StrictlyIncreasing(k, r);
      if k + 1 < r { Pow2StrictlyIncreasing(k + 1, r); }
    }
  }

  /** `is_power_of_two(n)`: log2 n is a whole number exactly when 2 raised
      to its floor gives n back. */
  function IsPowerOfTwo(n: nat): (b: bool)
    requires n >= 1
    ensures b <==> PowerOfTwo(n)
  {
    var k := Log2(n);
    if Pow2(k) == n then
      true
    else
      assert !PowerOfTwo(n) by {
        forall j: nat ensures n != Pow2(j) {
          if n == Pow2(j) { Log2Unique(n, j); }
        }
      }
      false
  }

  /** Going from n - 1 to n, the floor of the logarithm grows by one exactly
      when n is a power of two. */
  lemma Log2Predecessor(n: nat)
    requires n >= 2
    ensures IsPowerOfTwo(n) ==> Log2(n - 1) + 1 == Log2(n)
    ensures !IsPowerOfTwo(n) ==> Log2(n - 1) == Log2(n)
  {
    var k := Log2(n);
    if Pow2(k) == n {
      assert k >= 1;
      assert Pow2(k) == 2 * Pow2(k - 1);
      Log2Unique(n - 1, k - 1);
    } else {
      Log2Unique(n - 1, k);
    }
  }
}
