/**
 * Blob evaluation. The closed form over the bit-reversed domain, with one inversion for all denominators, is
 * the value at `z` of the one polynomial of degree below `N` that takes the blob's elements on the domain.
 */
module Barycentric {
  import opened Bits
  import opened Field
  import opened Roots

  /** `c[0] + c[1] x + ...`. */
  function PolyAt(c: seq<int>, x: int): int {
    if c == [] then 0
    else PolyAt(c[..|c| - 1], x) + c[|c| - 1] * Pow(x, |c| - 1)
  }

  /** The coefficients of a polynomial of degree below `2^k` that takes value `e[i]` at domain point `i`. */
  ghost predicate Interpolates(p: Prime, w: nat, k: nat, c: seq<int>, e: seq<nat>) {
    |c| == |e| == Pow2(k) && forall i :: 0 <= i < |e| ==> Cong(p, PolyAt(c, Domain(p, w, k)[i]), e[i])
  }

  // ---- The polynomial behind the closed form ----

  /** `sum of d^a (z^n - d^n) / (z - d)` over the domain. */
  function GeoSum(d: seq<int>, z: int, a: nat, n: nat): int {
    if d == [] then 0 else Pow(d[0], a) * Geo(z, d[0], n) + GeoSum(d[1..], z, a, n)
  }

  lemma GeoAlgebra(x: int, g: int, t: int, b: int, geoSum: int, powSum: int)
    ensures b * (x * g + t) + (geoSum + t * powSum) == (x * b) * g + geoSum + t * (b + powSum)
  {
    assert b * (x * g + t) == (x * b) * g + t * b;
    assert t * (b + powSum) == t * b + t * powSum;
  }

  lemma {:induction false} GeoSumStep(d: seq<int>, z: int, a: nat, n: nat)
    requires n > 0
    ensures GeoSum(d, z, a, n) == GeoSum(d, z, a + 1, n - 1) + Pow(z, n - 1) * PowSum(d, a)
  {
    if d != [] {
      GeoSumStep(d[1..], z, a, n);
      var x, g, t, b := d[0], Geo(z, d[0], n - 1), Pow(z, n - 1), Pow(d[0], a);
      GeoAlgebra(x, g, t, b, GeoSum(d[1..], z, a + 1, n - 1), PowSum(d[1..], a));
    }
  }

  lemma AddTerm(p: Prime, rest: int, rest': int, t: int, sum: int, sum': int)
    requires Cong(p, rest, rest') && Cong(p, sum, sum')
    ensures Cong(p, rest + t * sum, rest' + sum' * t)
  {
    hide Cong;
    Refl(p, t);
    CongMul(p, t, t, sum, sum');
    CongAdd(p, rest, rest', t * sum, t * sum');
  }

  lemma {:induction false} NoTerms(d: seq<int>, z: int, a: nat)
    ensures GeoSum(d, z, a, 0) == 0
  {
    if d != [] { NoTerms(d[1..], z, a); }
  }

  /** Orthogonality picks one power of `z`. */
  lemma {:induction false} GeoSumValue(p: Prime, w: nat, k: nat, z: int, a: nat, n: nat)
    requires PrimitiveRoot(p, w, k) && 1 <= a && Pow2(k) < a + n <= 2 * Pow2(k)
    ensures Cong(p, GeoSum(Domain(p, w, k), z, a, n), if a <= Pow2(k) then Pow2(k) * Pow(z, a + n - 1 - Pow2(k)) else 0)
    decreases n
  {
    hide Cong, PowSum, Domain, PrimitiveRoot, GeoSum, Pow, Pow2;
    var d, size := Domain(p, w, k), Pow2(k);
    if n == 0 {
      NoTerms(d, z, a);
      Refl(p, 0);
    } else {
      GeoSumStep(d, z, a, n);
      GeoSumValue(p, w, k, z, a + 1, n - 1);
      DomainSum(p, w, k, a);
      var t, rest, sum := Pow(z, n - 1), GeoSum(d, z, a + 1, n - 1), PowSum(d, a);
      if a == size {
        AddTerm(p, rest, 0, t, sum, size);
      } else {
        AddTerm(p, rest, if a < size then size * Pow(z, a + n - 1 - size) else 0, t, sum, 0);
      }
    }
  }

  /** `sum of c(d) d (z^n - d^n) / (z - d)` over the domain. */
  function PolySum(d: seq<int>, c: seq<int>, z: int, n: nat): int {
    if d == [] then 0 else PolyAt(c, d[0]) * d[0] * Geo(z, d[0], n) + PolySum(d[1..], c, z, n)
  }

  lemma PolyAlgebra(x: int, g: int, v: int, t: int, lead: int, polySum: int, geoSum: int)
    ensures (v + lead * t) * x * g + (polySum + lead * geoSum)
         == v * x * g + polySum + lead * ((x * t) * g + geoSum)
  {
    assert (v + lead * t) * x * g == v * x * g + lead * ((x * t) * g);
    assert lead * ((x * t) * g + geoSum) == lead * ((x * t) * g) + lead * geoSum;
  }

  lemma {:induction false} PolySumStep(d: seq<int>, c: seq<int>, z: int, n: nat)
    requires c != []
    ensures PolySum(d, c, z, n) == PolySum(d, c[..|c| - 1], z, n) + c[|c| - 1] * GeoSum(d, z, |c|, n)
  {
    var m := |c| - 1;
    if d != [] {
      PolySumStep(d[1..], c, z, n);
      var x, g, v, t, lead := d[0], Geo(z, d[0], n), PolyAt(c[..m], d[0]), Pow(d[0], m), c[m];
      PolyAlgebra(x, g, v, t, lead, PolySum(d[1..], c[..m], z, n), GeoSum(d[1..], z, m + 1, n));
    }
  }

  lemma {:induction false} EmptyPoly(d: seq<int>, z: int, n: nat)
    ensures PolySum(d, [], z, n) == 0
  {
    if d != [] { EmptyPoly(d[1..], z, n); }
  }

  /** Summing over the domain evaluates the polynomial. */
  lemma {:induction false} PolySumValue(p: Prime, w: nat, k: nat, z: int, c: seq<int>)
    requires PrimitiveRoot(p, w, k) && |c| <= Pow2(k)
    ensures Cong(p, PolySum(Domain(p, w, k), c, z, Pow2(k)), Pow2(k) * PolyAt(c, z))
    decreases |c|
  {
    hide Cong, Domain, PrimitiveRoot, GeoSum, PolySum, Pow;
    var d, n := Domain(p, w, k), Pow2(k);
    if c == [] {
      EmptyPoly(d, z, n);
      Refl(p, 0);
    } else {
      var m := |c| - 1;
      PolySumStep(d, c, z, n);
      PolySumValue(p, w, k, z, c[..m]);
      GeoSumValue(p, w, k, z, |c|, n);
      Refl(p, c[m]);
      CongMul(p, c[m], c[m], GeoSum(d, z, |c|, n), n * Pow(z, m));
      CongAdd(p, PolySum(d, c[..m], z, n), n * PolyAt(c[..m], z), c[m] * GeoSum(d, z, |c|, n), c[m] * (n * Pow(z, m)));
      assert n * (PolyAt(c[..m], z) + c[m] * Pow(z, m)) == n * PolyAt(c[..m], z) + c[m] * (n * Pow(z, m));
    }
  }

  // ---- The closed form ----

  /** `sum of e[i] d[i] inv[i]`. */
  function Weighted(d: seq<nat>, e: seq<nat>, inv: seq<nat>): int
    requires |d| == |e| == |inv|
  {
    if d == [] then 0 else e[0] * d[0] * inv[0] + Weighted(d[1..], e[1..], inv[1..])
  }

  /** `inv[i]` inverts the denominator `z - d[i]`. */
  ghost predicate Inverts(p: Prime, z: int, d: seq<nat>, inv: seq<nat>) {
    |d| == |inv| && forall i :: 0 <= i < |d| ==> Cong(p, (z - d[i]) * inv[i], 1)
  }

  /** Multiplying both sides by a third factor. */
  lemma TimesBoth(p: Prime, a: int, b: int, f: int)
    requires Cong(p, a, b)
    ensures Cong(p, a * f, b * f) && Cong(p, f * a, f * b)
  {
    hide Cong;
    Refl(p, f);
    CongMul(p, a, b, f, f);
    CongMul(p, f, f, a, b);
  }

  lemma Regroup(a: int, b: int, c: int)
    ensures (a * b) * c == (a * c) * b
  {
  }

  /** Dividing `z^n - 1` by `z - x` is a geometric sum, because `x` is a root of unity. */
  lemma QuotientValue(p: Prime, z: int, n: nat, x: int, inv: int)
    requires Cong(p, Pow(x, n), 1) && Cong(p, (z - x) * inv, 1)
    ensures Cong(p, (Pow(z, n) - 1) * inv, Geo(z, x, n))
  {
    hide Cong, Pow, Geo;
    var g, zn, xn := Geo(z, x, n), Pow(z, n), Pow(x, n);
    GeoTelescopes(z, x, n);
    Refl(p, zn);
    Sym(p, xn, 1);
    CongAdd(p, zn, zn, 1, xn);
    TimesBoth(p, zn - 1, zn - xn, inv);
    TimesBoth(p, (z - x) * inv, 1, g);
    Regroup(z - x, inv, g);
    Trans(p, (zn - 1) * inv, (zn - xn) * inv, g);
  }

  /** One term of the closed form. */
  lemma TermValue(p: Prime, f: int, x: int, value: int, e: int, inv: int, g: int)
    requires Cong(p, f * inv, g) && Cong(p, value, e)
    ensures Cong(p, f * (e * x * inv), value * x * g)
  {
    hide Cong;
    Sym(p, value, e);
    TimesBoth(p, e, value, x);
    CongMul(p, e * x, value * x, f * inv, g);
    assert f * (e * x * inv) == (e * x) * (f * inv);
  }

  lemma {:induction false} WeightedValue(p: Prime, z: int, n: nat, d: seq<nat>, c: seq<int>, e: seq<nat>, inv: seq<nat>)
    requires |d| == |e| && Inverts(p, z, d, inv)
    requires forall i :: 0 <= i < |d| ==> Cong(p, Pow(d[i], n), 1)
    requires forall i :: 0 <= i < |d| ==> Cong(p, PolyAt(c, d[i]), e[i])
    ensures Cong(p, (Pow(z, n) - 1) * Weighted(d, e, inv), PolySum(d, c, z, n))
    decreases |d|
  {
    hide Cong, Pow, Geo, PolyAt;
    Refl(p, 0);
    if d != [] {
      var f := Pow(z, n) - 1;
      WeightedValue(p, z, n, d[1..], c, e[1..], inv[1..]);
      QuotientValue(p, z, n, d[0], inv[0]);
      TermValue(p, f, d[0], PolyAt(c, d[0]), e[0], inv[0], Geo(z, d[0], n));
      CongAdd(p, f * (e[0] * d[0] * inv[0]), PolyAt(c, d[0]) * d[0] * Geo(z, d[0], n),
              f * Weighted(d[1..], e[1..], inv[1..]), PolySum(d[1..], c, z, n));
      assert f * Weighted(d, e, inv) == f * (e[0] * d[0] * inv[0]) + f * Weighted(d[1..], e[1..], inv[1..]);
    } else {
      assert (Pow(z, n) - 1) * 0 == 0;
    }
  }

  lemma DivideByWidth(p: Prime, f: int, sum: int, s: int, n: int, v: int, invWidth: int, y: int)
    requires Cong(p, f * sum, s) && Cong(p, s, n * v) && Cong(p, n * invWidth, 1) && Cong(p, y, sum * f * invWidth)
    ensures Cong(p, y, v)
  {
    hide Cong;
    Trans(p, f * sum, s, n * v);
    Refl(p, invWidth);
    CongMul(p, f * sum, n * v, invWidth, invWidth);
    Refl(p, v);
    CongMul(p, n * invWidth, 1, v, v);
    assert (n * v) * invWidth == (n * invWidth) * v && sum * f * invWidth == (f * sum) * invWidth;
    Trans(p, y, (f * sum) * invWidth, (n * v) * invWidth);
    Trans(p, y, (n * invWidth) * v, v);
  }

  /** The closed form is evaluation, for whatever polynomial takes the elements on the domain. */
  lemma ClosedForm(p: Prime, w: nat, k: nat, z: int, c: seq<int>, e: seq<nat>, inv: seq<nat>, invWidth: int, y: int)
    requires PrimitiveRoot(p, w, k) && Interpolates(p, w, k, c, e) && Inverts(p, z, Domain(p, w, k), inv)
    requires Cong(p, Pow2(k) * invWidth, 1)
    requires Cong(p, y, Weighted(Domain(p, w, k), e, inv) * (Pow(z, Pow2(k)) - 1) * invWidth)
    ensures Cong(p, y, PolyAt(c, z))
  {
    hide Cong, Pow, Domain, PolyAt, PolySum, Weighted, PrimitiveRoot, Pow2;
    assert |inv| == Pow2(k);
    hide Inverts;
    var d, n := Domain(p, w, k), Pow2(k);
    assert forall i :: 0 <= i < |d| ==> Cong(p, Pow(d[i], n), 1) by { DomainIsAllRoots(p, w, k); }
    WeightedValue(p, z, n, d, c, e, inv);
    PolySumValue(p, w, k, z, c);
    DivideByWidth(p, Pow(z, n) - 1, Weighted(d, e, inv), PolySum(d, c, z, n), n, PolyAt(c, z), invWidth, y);
  }

  // ---- The polynomial exists ----

  function Scaled(s: int, a: seq<int>): (r: seq<int>)
    ensures |r| == |a|
  {
    seq(|a|, i requires 0 <= i < |a| => s * a[i])
  }

  function Added(a: seq<int>, b: seq<int>): (r: seq<int>)
    requires |a| == |b|
    ensures |r| == |a|
  {
    seq(|a|, i requires 0 <= i < |a| => a[i] + b[i])
  }

  lemma {:induction false} ScaledAt(s: int, a: seq<int>, x: int)
    ensures PolyAt(Scaled(s, a), x) == s * PolyAt(a, x)
    decreases |a|
  {
    if a != [] {
      var m := |a| - 1;
      ScaledAt(s, a[..m], x);
      assert Scaled(s, a)[..m] == Scaled(s, a[..m]);
      assert s * a[m] * Pow(x, m) == s * (a[m] * Pow(x, m));
    }
  }

  lemma {:induction false} AddedAt(a: seq<int>, b: seq<int>, x: int)
    requires |a| == |b|
    ensures PolyAt(Added(a, b), x) == PolyAt(a, x) + PolyAt(b, x)
    decreases |a|
  {
    if a != [] {
      var m := |a| - 1;
      AddedAt(a[..m], b[..m], x);
      assert Added(a, b)[..m] == Added(a[..m], b[..m]);
      assert (a[m] + b[m]) * Pow(x, m) == a[m] * Pow(x, m) + b[m] * Pow(x, m);
    }
  }

  /** The geometric sum as a polynomial in its first argument. */
  function GeoPoly(y: int, n: nat): (c: seq<int>)
    ensures |c| == n
  {
    if n == 0 then [] else Scaled(y, GeoPoly(y, n - 1)) + [1]
  }

  lemma {:induction false} GeoPolyAt(x: int, y: int, n: nat)
    ensures PolyAt(GeoPoly(y, n), x) == Geo(x, y, n)
  {
    if n > 0 {
      GeoPolyAt(x, y, n - 1);
      ScaledAt(y, GeoPoly(y, n - 1), x);
      assert GeoPoly(y, n)[..n - 1] == Scaled(y, GeoPoly(y, n - 1));
    }
  }

  /** Lagrange's polynomial over a set of roots of unity. */
  function Lagrange(d: seq<nat>, e: seq<nat>, invWidth: int, n: nat): (c: seq<int>)
    requires |d| == |e|
    ensures |c| == n
  {
    if d == [] then seq(n, _ => 0)
    else Added(Scaled(e[0] * invWidth * d[0], GeoPoly(d[0], n)), Lagrange(d[1..], e[1..], invWidth, n))
  }

  lemma {:induction false} ZeroPoly(n: nat, x: int)
    ensures PolyAt(seq(n, _ => 0), x) == 0
  {
    var c: seq<int> := seq(n, _ => 0);
    if n > 0 {
      ZeroPoly(n - 1, x);
      assert c[..n - 1] == seq(n - 1, _ => 0);
    }
  }

  lemma LagrangeStep(d: seq<nat>, e: seq<nat>, invWidth: int, n: nat, x: int)
    requires |d| == |e| && d != []
    ensures PolyAt(Lagrange(d, e, invWidth, n), x) ==
      e[0] * invWidth * d[0] * Geo(x, d[0], n) + PolyAt(Lagrange(d[1..], e[1..], invWidth, n), x)
  {
    var s := e[0] * invWidth * d[0];
    AddedAt(Scaled(s, GeoPoly(d[0], n)), Lagrange(d[1..], e[1..], invWidth, n), x);
    ScaledAt(s, GeoPoly(d[0], n), x);
    GeoPolyAt(x, d[0], n);
  }

  lemma {:induction false} SameRoot(x: int, n: nat)
    ensures x * Geo(x, x, n) == n * Pow(x, n)
  {
    if n > 0 {
      SameRoot(x, n - 1);
      var g, t := Geo(x, x, n - 1), Pow(x, n - 1);
      assert x * (x * g + t) == x * ((n - 1) * t) + x * t;
      assert n * (x * t) == x * ((n - 1) * t) + x * t;
    }
  }

  /** Two different roots: the term vanishes. The same root: it is the element. */
  lemma LagrangeTerm(p: Prime, x: nat, y: nat, n: nat, e: int, invWidth: int)
    requires x < p && y < p && Cong(p, Pow(x, n), 1) && Cong(p, Pow(y, n), 1) && Cong(p, n * invWidth, 1)
    ensures Cong(p, e * invWidth * y * Geo(x, y, n), if x == y then e else 0)
  {
    hide Cong, Geo;
    var g := Geo(x, y, n);
    if x == y {
      SameRoot(x, n);
      Refl(p, e);
      CongMul(p, n * invWidth, 1, Pow(x, n), 1);
      CongMul(p, e, e, (n * invWidth) * Pow(x, n), 1);
      assert e * invWidth * y * g == e * ((n * invWidth) * Pow(x, n)) by {
        assert y * g == n * Pow(x, n);
        assert e * invWidth * (y * g) == e * ((n * invWidth) * Pow(x, n));
      }
    } else {
      GeoTelescopes(x, y, n);
      CongAdd(p, Pow(x, n), 1, Pow(y, n), 1);
      if Cong(p, x - y, 0) {
        Refl(p, y);
        CongAdd(p, x - y, 0, y, y);
        ReducedUnique(p, x, y);
      }
      Cancel(p, x - y, g);
      Refl(p, e * invWidth * y);
      CongMul(p, e * invWidth * y, e * invWidth * y, g, 0);
    }
  }

  /** Adding the first term to the rest: of distinct points at most one selects its element. */
  lemma AddSelected(p: Prime, d: seq<nat>, e: seq<nat>, x: nat, term: int, rest: int)
    requires |d| == |e| > 0
    requires forall i, j :: 0 <= i < j < |d| ==> d[i] != d[j]
    requires Cong(p, term, if x == d[0] then e[0] else 0)
    requires x !in d[1..] ==> Cong(p, rest, 0)
    requires forall i :: 0 <= i < |d| - 1 && d[1..][i] == x ==> Cong(p, rest, e[1..][i])
    ensures x !in d ==> Cong(p, term + rest, 0)
    ensures forall i :: 0 <= i < |d| && d[i] == x ==> Cong(p, term + rest, e[i])
  {
    hide Cong;
    if x == d[0] {
      assert x !in d[1..];
      CongAdd(p, term, e[0], rest, 0);
    } else {
      assert x in d ==> x in d[1..];
      if x !in d { CongAdd(p, term, 0, rest, 0); }
      forall i | 0 <= i < |d| && d[i] == x ensures Cong(p, term + rest, e[i]) {
        assert d[1..][i - 1] == x;
        CongAdd(p, term, 0, rest, e[i]);
      }
    }
  }

  lemma {:induction false} LagrangeAt(p: Prime, d: seq<nat>, e: seq<nat>, invWidth: int, n: nat, x: nat)
    requires |d| == |e| && x < p && Cong(p, Pow(x, n), 1) && Cong(p, n * invWidth, 1)
    requires forall i :: 0 <= i < |d| ==> d[i] < p && Cong(p, Pow(d[i], n), 1)
    requires forall i, j :: 0 <= i < j < |d| ==> d[i] != d[j]
    ensures x !in d ==> Cong(p, PolyAt(Lagrange(d, e, invWidth, n), x), 0)
    ensures forall i :: 0 <= i < |d| && d[i] == x ==> Cong(p, PolyAt(Lagrange(d, e, invWidth, n), x), e[i])
    decreases |d|
  {
    assert d == [] ==> Lagrange(d, e, invWidth, n) == seq(n, _ => 0);
    hide Cong, PolyAt, Lagrange, Pow, Geo;
    if d == [] {
      ZeroPoly(n, x);
      Refl(p, 0);
    } else {
      var rest := PolyAt(Lagrange(d[1..], e[1..], invWidth, n), x);
      LagrangeAt(p, d[1..], e[1..], invWidth, n, x);
      LagrangeTerm(p, x, d[0], n, e[0], invWidth);
      LagrangeStep(d, e, invWidth, n, x);
      AddSelected(p, d, e, x, e[0] * invWidth * d[0] * Geo(x, d[0], n), rest);
    }
  }

  /** Every blob is the values of some polynomial of degree below `N`, so evaluation is never vacuous. */
  lemma InterpolantExists(p: Prime, w: nat, k: nat, e: seq<nat>) returns (c: seq<int>)
    requires PrimitiveRoot(p, w, k) && Pow2(k) < p && |e| == Pow2(k)
    ensures Interpolates(p, w, k, c, e)
  {
    hide Cong, PolyAt, Lagrange, Domain, Pow;
    var d, n := Domain(p, w, k), Pow2(k);
    var invWidth := Inverse(p, n);
    DomainIsAllRoots(p, w, k);
    c := Lagrange(d, e, invWidth, n);
    forall i | 0 <= i < n ensures Cong(p, PolyAt(c, d[i]), e[i]) { LagrangeAt(p, d, e, invWidth, n, d[i]); }
  }
}
