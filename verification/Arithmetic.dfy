/** Division facts the solver does not find on its own. */
module Arithmetic {

  lemma MulAtLeast(size: int, d: int)
    requires 0 <= size
    ensures d >= 1 ==> size * d >= size
    ensures d <= -1 ==> size * d <= -size
  {
    if d >= 1 {
      assert size * d == size + size * (d - 1);
      assert size * (d - 1) >= 0;
    } else if d <= -1 {
      assert size * d == -size + size * (d + 1);
      assert size * (-(d + 1)) >= 0;
      assert size * (d + 1) == -(size * (-(d + 1)));
    }
  }

  /** The quotient and the remainder are determined by the equation they solve. */
  lemma DivModUnique(n: int, size: nat, q: int, r: int)
    requires 1 <= size && 0 <= r < size && n == size * q + r
    ensures n / size == q && n % size == r
  {
    var q', r' := n / size, n % size;
    assert n == size * q' + r';
    assert size * (q - q') == size * q - size * q';
    MulAtLeast(size, q - q');
  }

  /** m is made of whole blocks. */
  predicate Whole(m: int, size: nat)
    requires 1 <= size
  {
    m % size == 0
  }

  lemma ModStep(n: nat, size: nat)
    requires 1 <= size <= n
    ensures (n - size) % size == n % size
    ensures (n - size) / size == n / size - 1
  {
    assert n == size * (n / size) + n % size;
    assert n - size == size * (n / size - 1) + n % size;
    DivModUnique(n - size, size, n / size - 1, n % size);
  }

  lemma MultipleAtLeast(n: nat, size: nat)
    requires 1 <= size && 1 <= n && n % size == 0
    ensures size <= n
  {
    if n < size {
      DivModUnique(n, size, 0, n);
    }
  }

  lemma MultipleModZero(q: int, size: nat)
    requires 1 <= size
    ensures (q * size) % size == 0 && (q * size) / size == q
  {
    DivModUnique(q * size, size, q, 0);
  }

  lemma MulMonotone(a: int, b: int, c: int)
    requires a >= b && c >= 0
    ensures a * c >= b * c
  {
    assert (a - b) * c >= 0;
    assert (a - b) * c == a * c - b * c;
  }

  lemma MulStep(i: int, k: int)
    ensures (i + 1) * k == i * k + k
  {
  }

  function Min(a: int, b: int): int {
    if a <= b then a else b
  }

  function Max(a: int, b: int): int {
    if a >= b then a else b
  }
}
