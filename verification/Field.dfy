/**
 * Arithmetic modulo a prime, on integers and congruences: what the scalar field of the evaluation argument
 * has to provide, inverses included.
 */
module Field {
  predicate IsPrime(p: nat) {
    forall d :: 1 < d < p ==> p % d != 0
  }

  type Prime = p: nat | p > 1 && IsPrime(p) witness 2

  /** `a` and `b` are the same field element. */
  predicate Cong(p: Prime, a: int, b: int) {
    (a - b) % p == 0
  }

  function Pow(x: int, n: nat): int {
    if n == 0 then 1 else x * Pow(x, n - 1)
  }

  // ---- Congruence ----

  lemma MulAtLeast(p: nat, k: nat)
    requires k >= 1
    ensures p * k >= p
  {
    assert p * k == p + p * (k - 1);
  }

  lemma MultipleIsZero(p: nat, k: int)
    requires p > 0
    ensures (p * k) % p == 0
  {
    var q, r := (p * k) / p, (p * k) % p;
    assert r == p * (k - q);
    if k > q { MulAtLeast(p, k - q); }
    if k < q { MulAtLeast(p, q - k); }
  }

  lemma ZeroMul(p: nat, x: int, y: int)
    requires p > 0 && x % p == 0
    ensures (x * y) % p == 0
  {
    var k := x / p;
    assert x == p * k;
    assert (p * k) * y == p * (k * y);
    MultipleIsZero(p, k * y);
  }

  lemma ZeroAdd(p: nat, x: int, y: int)
    requires p > 0 && x % p == 0 && y % p == 0
    ensures (x + y) % p == 0 && (x - y) % p == 0
  {
    var k, l := x / p, y / p;
    assert x == p * k && y == p * l;
    assert x + y == p * (k + l) && x - y == p * (k - l);
    MultipleIsZero(p, k + l);
    MultipleIsZero(p, k - l);
  }

  lemma Refl(p: Prime, a: int)
    ensures Cong(p, a, a)
  {
  }

  lemma Sym(p: Prime, a: int, b: int)
    requires Cong(p, a, b)
    ensures Cong(p, b, a)
  {
    ZeroAdd(p, 0, a - b);
  }

  lemma Trans(p: Prime, a: int, b: int, c: int)
    requires Cong(p, a, b) && Cong(p, b, c)
    ensures Cong(p, a, c)
  {
    ZeroAdd(p, a - b, b - c);
  }

  lemma CongAdd(p: Prime, a: int, b: int, c: int, d: int)
    requires Cong(p, a, b) && Cong(p, c, d)
    ensures Cong(p, a + c, b + d) && Cong(p, a - c, b - d)
  {
    ZeroAdd(p, a - b, c - d);
    assert (a - b) + (c - d) == (a + c) - (b + d);
    assert (a - b) - (c - d) == (a - c) - (b - d);
  }

  lemma CongMul(p: Prime, a: int, b: int, c: int, d: int)
    requires Cong(p, a, b) && Cong(p, c, d)
    ensures Cong(p, a * c, b * d)
  {
    ZeroMul(p, a - b, c);
    ZeroMul(p, c - d, b);
    ZeroAdd(p, (a - b) * c, (c - d) * b);
    assert (a - b) * c + (c - d) * b == a * c - b * d;
  }

  lemma {:induction false} CongPow(p: Prime, a: int, b: int, n: nat)
    requires Cong(p, a, b)
    ensures Cong(p, Pow(a, n), Pow(b, n))
  {
    if n == 0 { Refl(p, 1); } else {
      CongPow(p, a, b, n - 1);
      CongMul(p, a, b, Pow(a, n - 1), Pow(b, n - 1));
    }
  }

  /** Reduction does not change the element. */
  lemma ModCong(p: Prime, a: int)
    ensures Cong(p, a % p, a)
  {
    var k := a / p;
    assert a % p - a == p * (-k);
    MultipleIsZero(p, -k);
  }

  /** Reduced representatives are unique. */
  lemma ReducedUnique(p: Prime, a: nat, b: nat)
    requires a < p && b < p && Cong(p, a, b)
    ensures a == b
  {
    Sym(p, a, b);
  }

  // ---- Powers ----

  lemma {:induction false} PowAdd(x: int, m: nat, n: nat)
    ensures Pow(x, m + n) == Pow(x, m) * Pow(x, n)
  {
    if m > 0 {
      PowAdd(x, m - 1, n);
      assert x * (Pow(x, m - 1) * Pow(x, n)) == (x * Pow(x, m - 1)) * Pow(x, n);
    }
  }

  lemma {:induction false} PowOne(n: nat)
    ensures Pow(1, n) == 1
  {
    if n > 0 { PowOne(n - 1); }
  }

  lemma {:induction false} PowPow(x: int, m: nat, n: nat)
    ensures Pow(Pow(x, m), n) == Pow(x, m * n)
  {
    if n == 0 {
      assert m * n == 0;
    } else {
      PowPow(x, m, n - 1);
      PowAdd(x, m, m * (n - 1));
      assert m + m * (n - 1) == m * n;
    }
  }

  /** Powers taken in either order. */
  lemma PowSwap(x: int, m: nat, n: nat)
    ensures Pow(Pow(x, m), n) == Pow(Pow(x, n), m)
  {
    PowPow(x, m, n);
    PowPow(x, n, m);
    assert m * n == n * m;
  }

  // ---- Inverses ----

  lemma InverseArith(p: Prime, a: int, q: int, m: int, r: int)
    requires p == a * q + m
    ensures Cong(p, a * (-q * r), m * r)
  {
    calc {
      a * (-q * r) - m * r;
      -(a * q) * r - m * r;
      -(a * q + m) * r;
      p * -r;
    }
    MultipleIsZero(p, -r);
  }

  lemma InverseStep(p: Prime, a: nat, r: nat)
    requires 0 < a < p && Cong(p, (p % a) * r, 1)
    ensures Cong(p, a * ((-(p / a) * r) % p), 1)
  {
    var q, m := p / a, p % a;
    var x := -q * r;
    ModCong(p, x);
    Refl(p, a);
    CongMul(p, a, a, x % p, x);
    InverseArith(p, a, q, m, r);
    Trans(p, a * (x % p), a * x, m * r);
    Trans(p, a * (x % p), m * r, 1);
  }

  /** The inverse of a nonzero element, by the Euclidean recurrence. */
  function Inverse(p: Prime, a: nat): (b: nat)
    requires 0 < a < p
    ensures b < p && Cong(p, a * b, 1)
    decreases a
  {
    if a == 1 then
      Refl(p, 1);
      1
    else
      assert IsPrime(p) && p % a != 0;
      var b := (-(p / a) * Inverse(p, p % a)) % p;
      InverseStep(p, a, Inverse(p, p % a));
      b
  }

  /** No zero divisors. */
  lemma Cancel(p: Prime, a: int, b: int)
    requires Cong(p, a * b, 0) && !Cong(p, a, 0)
    ensures Cong(p, b, 0)
  {
    var a', inv := a % p, Inverse(p, a % p);
    ModCong(p, a);
    Refl(p, b);
    Refl(p, inv);
    CongMul(p, a', a, b, b);
    Trans(p, a' * b, a * b, 0);
    CongMul(p, inv, inv, a' * b, 0);
    CongMul(p, a' * inv, 1, b, b);
    assert (a' * inv) * b == inv * (a' * b);
    Sym(p, (a' * inv) * b, 1 * b);
    Trans(p, b, (a' * inv) * b, 0);
  }
}
