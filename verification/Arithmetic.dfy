/** Minimum and maximum, and facts about multiplication and remainders by a symbolic size. */
module Arithmetic {
  function Min(a: int, b: int): int {
    if a < b then a else b
  }

  function Max(a: int, b: int): int {
    if a < b then b else a
  }

  lemma MulMonotone(c: int, x: int, y: int)
    requires c > 0 && x <= y
    ensures c * x <= c * y
  {
    assert c * (y - x) >= 0;
    assert c * (y - x) == c * y - c * x;
  }

  lemma MulCancel(c: int, x: int, y: int)
    requires c > 0 && c * x < c * y
    ensures x < y
  {
    if x >= y {
      MulMonotone(c, y, x);
      assert false;
    }
  }

  lemma SmallMultiple(size: int, d: int)
    requires size > 0 && -size < size * d < size
    ensures d == 0
  {
    MulCancel(size, -1, d);
    MulCancel(size, d, 1);
  }

  lemma ModUnique(n: nat, size: nat, q: nat, r: nat)
    requires size > 0 && r < size && n == size * q + r
    ensures n % size == r && n / size == q
  {
    var q', r' := n / size, n % size;
    assert n == size * q' + r';
    assert size * (q' - q) == size * q' - size * q;
    SmallMultiple(size, q' - q);
  }

  lemma ModShift(k: nat, size: nat)
    requires size > 0
    ensures (k + size) % size == k % size
  {
    var q := k / size;
    assert k + size == size * (q + 1) + k % size;
    ModUnique(k + size, size, q + 1, k % size);
  }

  lemma ModSuccessor(n: nat, size: nat)
    requires size > 0
    ensures (n % size + 1) % size == (n + 1) % size
  {
    var q, r := n / size, n % size;
    assert n == size * q + r;
    if r + 1 < size {
      ModUnique(n + 1, size, q, r + 1);
      ModUnique(r + 1, size, 0, r + 1);
    } else {
      assert size * (q + 1) == size * q + size;
      ModUnique(n + 1, size, q + 1, 0);
      assert size * 1 == size;
      ModUnique(r + 1, size, 1, 0);
    }
  }

  /** Positions less than a full turn apart fall into different slots. */
  lemma ModDistinct(k: nat, n: nat, size: nat)
    requires size > 0 && k < n < k + size
    ensures k % size != n % size
  {
    if k % size == n % size {
      var a, b := k / size, n / size;
      assert k == size * a + k % size && n == size * b + n % size;
      assert size * (b - a) == size * b - size * a;
      SmallMultiple(size, b - a);
      assert false;
    }
  }
}
