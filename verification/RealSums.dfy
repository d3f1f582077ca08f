/** Sums of reals and of powers. */
module RealSums {
  import opened Sequences

  function SumOf(s: seq<real>): real {
    if s == [] then 0.0 else s[0] + SumOf(s[1..])
  }

  lemma {:induction false} SumOfAppend(a: seq<real>, b: seq<real>)
    ensures SumOf(a + b) == SumOf(a) + SumOf(b)
  {
    if a == [] {
      assert a + b == b;
    } else {
      assert (a + b)[1..] == a[1..] + b;
      SumOfAppend(a[1..], b);
    }
  }

  lemma SumOfOne(x: real)
    ensures SumOf([x]) == x
  {
    assert [x][1..] == [];
  }

  lemma {:induction false} SumOfRemoveAt(s: seq<real>, i: nat)
    requires i < |s|
    ensures SumOf(s) == SumOf(RemoveAt(s, i)) + s[i]
  {
    if i == 0 {
      assert RemoveAt(s, 0) == s[1..];
    } else {
      SumOfRemoveAt(s[1..], i - 1);
      assert RemoveAt(s, i)[1..] == RemoveAt(s[1..], i - 1);
    }
  }

  lemma {:induction false} SumOfPermutation(a: seq<real>, b: seq<real>)
    requires multiset(a) == multiset(b)
    ensures SumOf(a) == SumOf(b)
    decreases |a|
  {
    if a == [] {
      assert |b| == |multiset(b)| == 0;
    } else {
      assert a[0] in multiset(b);
      var i :| 0 <= i < |b| && b[i] == a[0];
      RemoveAtMultiset(a, 0);
      RemoveAtMultiset(b, i);
      assert RemoveAt(a, 0) == a[1..];
      SumOfPermutation(a[1..], RemoveAt(b, i));
      SumOfRemoveAt(b, i);
    }
  }

  function Affine(x: real, m: real, c: real): real {
    (x - m) * c
  }

  function Reciprocal(x: real): real
    requires x != 0.0
  {
    1.0 / x
  }

  lemma AffineUndone(x: real, m: real, d: real)
    requires d != 0.0
    ensures Affine(x, m, Reciprocal(d)) * d == x - m
  {
    assert Reciprocal(d) * d == 1.0;
    assert ((x - m) * Reciprocal(d)) * d == (x - m) * (Reciprocal(d) * d);
  }

  /** (x - m) * c for each x. */
  function Scaled(s: seq<real>, m: real, c: real): (r: seq<real>)
    ensures |r| == |s|
    ensures forall i :: 0 <= i < |s| ==> r[i] == Affine(s[i], m, c)
  {
    seq(|s|, i requires 0 <= i < |s| => Affine(s[i], m, c))
  }

  lemma {:induction false} SumOfScaled(s: seq<real>, m: real, c: real)
    ensures SumOf(Scaled(s, m, c)) == (SumOf(s) - |s| as real * m) * c
  {
    if s == [] {
    } else {
      SumOfScaled(s[1..], m, c);
      ScaledTail(s, m, c);
      ScaledStep(s[0], SumOf(s[1..]), |s[1..]| as real, m, c);
    }
  }

  lemma ScaledTail(s: seq<real>, m: real, c: real)
    requires s != []
    ensures Scaled(s, m, c) == [Affine(s[0], m, c)] + Scaled(s[1..], m, c)
    ensures Scaled(s, m, c)[1..] == Scaled(s[1..], m, c)
  {
    hide Affine;
  }

  lemma ScaledStep(x: real, rest: real, n: real, m: real, c: real)
    ensures (x - m) * c + (rest - n * m) * c == (x + rest - (n + 1.0) * m) * c
  {
  }

  function Pow(x: real, n: nat): real {
    if n == 0 then 1.0 else x * Pow(x, n - 1)
  }

  /** The sum of x^l * f[a + l] over l below n. */
  function PowSum(f: seq<real>, x: real, a: nat, n: nat): real
    requires a + n <= |f|
  {
    if n == 0 then 0.0 else PowSum(f, x, a, n - 1) + Pow(x, n - 1) * f[a + n - 1]
  }

  /** Horner's rule. */
  lemma {:induction false} PowSumFront(f: seq<real>, x: real, a: nat, n: nat)
    requires 1 <= n && a + n <= |f|
    ensures PowSum(f, x, a, n) == f[a] + x * PowSum(f, x, a + 1, n - 1)
  {
    if n > 1 {
      PowSumFront(f, x, a, n - 1);
      var p, q, g := PowSum(f, x, a + 1, n - 2), Pow(x, n - 2), f[a + n - 1];
      assert x * (p + q * g) == x * p + (x * q) * g;
    }
  }

  lemma {:induction false} PowOne(n: nat)
    ensures Pow(1.0, n) == 1.0
  {
    if n == 0 {
    } else {
      PowOne(n - 1);
    }
  }

  lemma {:induction false} PowSumOne(f: seq<real>, a: nat, n: nat)
    requires a + n <= |f|
    ensures PowSum(f, 1.0, a, n) == SumOf(f[a..a + n])
  {
    if n == 0 {
    } else {
      PowSumOne(f, a, n - 1);
      PowOne(n - 1);
      assert f[a..a + n] == f[a..a + n - 1] + [f[a + n - 1]];
      SumOfAppend(f[a..a + n - 1], [f[a + n - 1]]);
      SumOfOne(f[a + n - 1]);
    }
  }

  // ---------- square roots ----------

  /** A square root: non-negative, and its square is the argument. */
  ghost predicate IsRoot(sqrt: real -> real) {
    forall x {:trigger sqrt(x)} :: x >= 0.0 ==> sqrt(x) >= 0.0 && sqrt(x) * sqrt(x) == x
  }
}
