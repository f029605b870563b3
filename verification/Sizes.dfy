/** size_t arithmetic, which wraps around. */
module Sizes {

  const SIZE_MAX := 0xFFFF_FFFF_FFFF_FFFF

  type size = n: int | 0 <= n <= SIZE_MAX

  function SizeSub(a: size, b: size): size {
    if b <= a then a - b else a - b + SIZE_MAX + 1
  }

  function SizeAdd(a: size, b: size): size {
    if a + b <= SIZE_MAX then a + b else a + b - SIZE_MAX - 1
  }

  /** What is left of a number in a size_t. */
  function Wrap(n: nat): size {
    n % (SIZE_MAX + 1)
  }

  lemma WrapSmall(n: nat)
    requires n <= SIZE_MAX
    ensures Wrap(n) == n
  {
  }

  lemma WrapStep(n: nat, b: size)
    ensures Wrap(n + b) == SizeAdd(Wrap(n), b)
  {
    var m, q := SIZE_MAX + 1, n / (SIZE_MAX + 1);
    assert n == m * q + Wrap(n);
    WrapShift(q, Wrap(n) + b);
  }

  lemma WrapShift(q: nat, r: nat)
    ensures Wrap((SIZE_MAX + 1) * q + r) == Wrap(r)
  {
  }

  /** Subtracting one at a time is subtracting the sum. */
  lemma SubTwice(a: size, n: nat, b: size)
    ensures SizeSub(SizeSub(a, Wrap(n)), b) == SizeSub(a, Wrap(n + b))
  {
    WrapStep(n, b);
  }

  function Min(a: int, b: int): int {
    if a < b then a else b
  }
}
