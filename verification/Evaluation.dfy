/**
 * The two evaluators of a blob at a point, as they run: the domain from one root and an index trick, all
 * denominators inverted by one inversion, the weighted sum, the closing factor.
 */
module Evaluation {
  import opened Data
  import opened Bits
  import opened Field
  import opened Fermat
  import opened Roots
  import opened Barycentric

  /** `y` is the value at `z` of whatever polynomial of degree below `N` takes the elements on the domain. */
  ghost predicate Evaluates(p: Prime, w: nat, k: nat, e: seq<nat>, z: int, y: int) {
    forall c :: Interpolates(p, w, k, c, e) ==> Cong(p, y, PolyAt(c, z))
  }

  /** The value is one field element: implementations that both evaluate agree. */
  lemma EvaluationIsUnique(p: Prime, w: nat, k: nat, e: seq<nat>, z: int, y: nat, y': nat)
    requires PrimitiveRoot(p, w, k) && Pow2(k) < p && |e| == Pow2(k)
    requires Evaluates(p, w, k, e, z, y) && Evaluates(p, w, k, e, z, y')
    ensures Cong(p, y, y') && (y < p && y' < p ==> y == y')
  {
    hide Cong, Interpolates, PolyAt, PrimitiveRoot;
    var c := InterpolantExists(p, w, k, e);
    Sym(p, y', PolyAt(c, z));
    Trans(p, y, PolyAt(c, z), y');
    if y < p && y' < p { ReducedUnique(p, y, y'); }
  }

  // ---- The root ----

  /**
   * The root computed from a base `g` as `g^((p-1)/N)` always satisfies `w^N = 1`; it is primitive exactly
   * when `g` is not a square.
   */
  lemma RootFromBase(p: Prime, g: nat, k: nat, q: nat)
    requires k > 0 && q * Pow2(k) == p - 1 && !Cong(p, g, 0)
    ensures PrimitiveRoot(p, Pow(g, q) % p, k) <==> !Cong(p, Pow(g, q * Pow2(k - 1)), 1)
    ensures q * Pow2(k - 1) == (p - 1) / 2
  {
    hide Cong, Pow;
    var w := Pow(g, q) % p;
    ModCong(p, Pow(g, q));
    CongPow(p, w, Pow(g, q), Pow2(k));
    CongPow(p, w, Pow(g, q), Pow2(k - 1));
    PowPow(g, q, Pow2(k));
    PowPow(g, q, Pow2(k - 1));
    LittleTheorem(p, g);
    Trans(p, Pow(w, Pow2(k)), Pow(g, p - 1), 1);
    var half, full := Pow(w, Pow2(k - 1)), Pow(g, q * Pow2(k - 1));
    if Cong(p, full, 1) { Trans(p, half, full, 1); }
    if Cong(p, half, 1) { Sym(p, half, full); Trans(p, full, half, 1); }
    assert q * (2 * Pow2(k - 1)) == 2 * (q * Pow2(k - 1));
  }

  // ---- The domain ----

  lemma NextPower(p: Prime, w: nat, n: nat)
    ensures ((Pow(w, n) % p) * w) % p == Pow(w, n + 1) % p
  {
    hide Cong;
    var a, b := Pow(w, n) % p, Pow(w, n + 1);
    ModCong(p, Pow(w, n));
    Refl(p, w);
    CongMul(p, a, Pow(w, n), w, w);
    assert Pow(w, n) * w == b;
    ModCong(p, a * w);
    ModCong(p, b);
    Sym(p, b % p, b);
    Trans(p, (a * w) % p, a * w, b);
    Trans(p, (a * w) % p, b, b % p);
    ReducedUnique(p, (a * w) % p, b % p);
  }

  /** Powers by running product, then reordered by reversing the index in a wider word and shifting. */
  method BitReversedDomain(p: Prime, w: nat, k: nat, extra: nat) returns (domain: seq<nat>)
    ensures domain == Domain(p, w, k)
  {
    hide Unshuffle, Pow2, ReverseBits;
    var powers: seq<nat> := [];
    var acc: nat := 1;
    assert acc == Pow(w, 0) % p;
    while |powers| < Pow2(k)
      invariant |powers| <= Pow2(k) && powers == Powers(p, w, |powers|) && acc == Pow(w, |powers|) % p
    {
      NextPower(p, w, |powers|);
      powers := powers + [acc];
      acc := acc * w % p;
    }
    domain := [];
    while |domain| < Pow2(k)
      invariant |domain| <= Pow2(k) && domain == Domain(p, w, k)[..|domain|]
    {
      var i := |domain|;
      UnshuffleAt(powers, k, i);
      ReverseAndShift(k, extra, i);
      domain := domain + [powers[Shr(ReverseBits(k + extra, i), extra)]];
    }
  }

  // ---- Batch inversion ----

  lemma {:induction false} ProductNonzero(p: Prime, s: seq<nat>)
    requires forall x :: x in s ==> !Cong(p, x, 0)
    ensures !Cong(p, Product(s), 0)
  {
    hide Cong;
    if s == [] {
      if Cong(p, 1, 0) { ReducedUnique(p, 1, 0); }
    } else {
      var m := |s| - 1;
      ProductNonzero(p, s[..m]);
      if Cong(p, Product(s), 0) { Cancel(p, Product(s[..m]), s[m]); }
    }
  }

  /** Running products: entry `i` is the product of the first `i` denominators. */
  method PrefixProducts(p: Prime, denoms: seq<nat>) returns (prefix: seq<nat>)
    ensures |prefix| == |denoms| + 1
    ensures forall i :: 0 <= i < |prefix| ==> Cong(p, prefix[i], Product(denoms[..i]))
  {
    hide Cong;
    prefix := [1];
    Refl(p, 1);
    for n := 0 to |denoms|
      invariant |prefix| == n + 1
      invariant forall i :: 0 <= i <= n ==> Cong(p, prefix[i], Product(denoms[..i]))
    {
      var last := prefix[n] * denoms[n] % p;
      ModCong(p, prefix[n] * denoms[n]);
      Refl(p, denoms[n]);
      CongMul(p, prefix[n], Product(denoms[..n]), denoms[n], denoms[n]);
      assert denoms[..n + 1][..n] == denoms[..n];
      Trans(p, last, prefix[n] * denoms[n], Product(denoms[..n + 1]));
      prefix := prefix + [last];
    }
  }

  lemma UnwindStep(p: Prime, before: int, prefix: int, d: nat, total: int, inv: nat, next: nat)
    requires Cong(p, prefix, before) && total == before * d && Cong(p, inv * total, 1)
    requires next == inv * d % p
    ensures Cong(p, d * (prefix * inv % p), 1) && Cong(p, next * before, 1)
  {
    hide Cong;
    ModCong(p, inv * d);
    Refl(p, before);
    CongMul(p, next, inv * d, before, before);
    assert (inv * d) * before == inv * total;
    Trans(p, next * before, inv * total, 1);
    ModCong(p, prefix * inv);
    Refl(p, inv);
    CongMul(p, prefix, before, inv, inv);
    Trans(p, prefix * inv % p, prefix * inv, before * inv);
    Refl(p, d);
    CongMul(p, d, d, prefix * inv % p, before * inv);
    assert d * (before * inv) == inv * total;
    Trans(p, d * (prefix * inv % p), inv * total, 1);
  }

  /** From the inverse of the whole product back to the inverse of every denominator. */
  method Unwind(p: Prime, denoms: seq<nat>, prefix: seq<nat>, total: nat) returns (invs: seq<nat>)
    requires |prefix| == |denoms| + 1
    requires forall i :: 0 <= i < |prefix| ==> Cong(p, prefix[i], Product(denoms[..i]))
    requires Cong(p, total * Product(denoms), 1)
    ensures |invs| == |denoms| && forall i :: 0 <= i < |denoms| ==> Cong(p, denoms[i] * invs[i], 1)
  {
    hide Cong;
    var i: nat, inv: nat := |denoms|, total;
    assert denoms[..i] == denoms;
    invs := seq(|denoms|, _ => 0);
    while i > 0
      invariant 0 <= i <= |denoms| == |invs| && Cong(p, inv * Product(denoms[..i]), 1)
      invariant forall j :: i <= j < |denoms| ==> Cong(p, denoms[j] * invs[j], 1)
    {
      i := i - 1;
      assert denoms[..i + 1][..i] == denoms[..i];
      UnwindStep(p, Product(denoms[..i]), prefix[i], denoms[i], Product(denoms[..i + 1]), inv, inv * denoms[i] % p);
      invs := invs[i := prefix[i] * inv % p];
      inv := inv * denoms[i] % p;
    }
  }

  // ---- The evaluators ----

  /** The denominators `z - w` and the width, none of them zero off the domain. */
  function Denominators(p: Prime, domain: seq<nat>, z: nat, width: nat): (denoms: seq<nat>)
    ensures |denoms| == |domain| + 1 && denoms[|domain|] == width
    ensures forall i :: 0 <= i < |domain| ==> denoms[i] == (p + z - domain[i]) % p
  {
    seq(|domain|, i requires 0 <= i < |domain| => (p + z - domain[i]) % p) + [width]
  }

  lemma PlusModulus(p: Prime, x: int)
    ensures Cong(p, p + x, x)
  {
    MultipleIsZero(p, 1);
  }

  lemma OffDomain(p: Prime, z: nat, x: nat)
    requires z < p && x < p
    ensures Cong(p, (p + z - x) % p, z - x) && (x != z ==> !Cong(p, (p + z - x) % p, 0))
  {
    hide Cong;
    var d := (p + z - x) % p;
    ModCong(p, p + z - x);
    PlusModulus(p, z - x);
    Trans(p, d, p + z - x, z - x);
    if Cong(p, d, 0) {
      Sym(p, d, z - x);
      Trans(p, z - x, d, 0);
      Refl(p, x);
      CongAdd(p, z - x, 0, x, x);
      ReducedUnique(p, z, x);
    }
  }

  lemma DenominatorsNonzero(p: Prime, domain: seq<nat>, z: nat, width: nat)
    requires z < p && 0 < width < p && z !in domain && forall x :: x in domain ==> x < p
    ensures forall i :: 0 <= i < |domain| ==> Cong(p, Denominators(p, domain, z, width)[i], z - domain[i])
    ensures forall x :: x in Denominators(p, domain, z, width) ==> !Cong(p, x, 0)
  {
    hide Cong;
    var denoms := Denominators(p, domain, z, width);
    forall i | 0 <= i < |domain| ensures Cong(p, denoms[i], z - domain[i]) && !Cong(p, denoms[i], 0) {
      assert domain[i] in domain;
      OffDomain(p, z, domain[i]);
    }
    if Cong(p, width, 0) { ReducedUnique(p, width, 0); }
  }

  lemma SumStep(p: Prime, sum: nat, ed: nat, inv: nat, rest: int, whole: int)
    requires Cong(p, sum + (ed * inv + rest), whole)
    ensures Cong(p, (sum + ed % p * inv) % p + rest, whole)
  {
    hide Cong;
    ModCong(p, ed);
    Refl(p, inv);
    CongMul(p, ed % p, ed, inv, inv);
    Refl(p, sum);
    CongAdd(p, sum, sum, (ed % p) * inv, ed * inv);
    ModCong(p, sum + ed % p * inv);
    Trans(p, (sum + ed % p * inv) % p, sum + ed % p * inv, sum + ed * inv);
    Refl(p, rest);
    CongAdd(p, (sum + ed % p * inv) % p, sum + ed * inv, rest, rest);
    Trans(p, (sum + ed % p * inv) % p + rest, sum + (ed * inv + rest), whole);
  }

  /** The sum over the domain, reduced as it goes. */
  method WeightedSum(p: Prime, domain: seq<nat>, elements: seq<nat>, invs: seq<nat>) returns (sum: nat)
    requires |domain| == |elements| == |invs|
    ensures sum < p && Cong(p, sum, Weighted(domain, elements, invs))
  {
    hide Cong;
    sum := 0;
    var n := |domain|;
    assert domain[0..] == domain && elements[0..] == elements && invs[0..] == invs;
    Refl(p, Weighted(domain, elements, invs));
    for i := 0 to n
      invariant sum < p
      invariant Cong(p, sum + Weighted(domain[i..], elements[i..], invs[i..]), Weighted(domain, elements, invs))
    {
      assert domain[i..][1..] == domain[i + 1..] && elements[i..][1..] == elements[i + 1..];
      assert invs[i..][1..] == invs[i + 1..];
      ghost var rest := Weighted(domain[i + 1..], elements[i + 1..], invs[i + 1..]);
      var product := elements[i] * domain[i] % p * invs[i];
      SumStep(p, sum, elements[i] * domain[i], invs[i], rest, Weighted(domain, elements, invs));
      sum := (sum + product) % p;
    }
  }

  lemma CloseFactor(p: Prime, zn: int, zPow: nat, invWidth: nat, factor: nat)
    requires zPow == zn % p && factor == (p + zPow - 1) % p * invWidth % p
    ensures Cong(p, factor, (zn - 1) * invWidth)
  {
    hide Cong;
    ModCong(p, zn);
    Refl(p, 1);
    CongAdd(p, zPow, zn, 1, 1);
    OffDomain(p, zPow, 1);
    var f := (p + zPow - 1) % p;
    Trans(p, f, zPow - 1, zn - 1);
    Refl(p, invWidth);
    CongMul(p, f, zn - 1, invWidth, invWidth);
    ModCong(p, f * invWidth);
    Trans(p, factor, f * invWidth, (zn - 1) * invWidth);
  }

  /** The closing factor `(z^N - 1) / N`. */
  method CloseForm(p: Prime, sum: nat, z: nat, n: nat, invWidth: nat) returns (y: nat)
    ensures y < p && Cong(p, y, sum * (Pow(z, n) - 1) * invWidth)
  {
    hide Cong, Pow;
    var zPow := Pow(z, n) % p;
    var factor := (p + zPow - 1) % p * invWidth % p;
    y := sum * factor % p;
    CloseFactor(p, Pow(z, n), zPow, invWidth, factor);
    ModCong(p, sum * factor);
    Refl(p, sum);
    CongMul(p, sum, sum, factor, (Pow(z, n) - 1) * invWidth);
    assert sum * ((Pow(z, n) - 1) * invWidth) == sum * (Pow(z, n) - 1) * invWidth;
    Trans(p, y, sum * factor, sum * (Pow(z, n) - 1) * invWidth);
  }

  lemma SwapDenominator(p: Prime, denom: int, d: int, inv: int)
    requires Cong(p, denom * inv, 1) && Cong(p, denom, d)
    ensures Cong(p, d * inv, 1)
  {
    hide Cong;
    Sym(p, denom, d);
    Refl(p, inv);
    CongMul(p, d, denom, inv, inv);
    Trans(p, d * inv, denom * inv, 1);
  }

  /** What the batch of inverses and the closed form give together. */
  lemma Assemble(p: Prime, w: nat, k: nat, e: seq<nat>, z: nat, denoms: seq<nat>, invs: seq<nat>, sum: nat, y: nat)
    requires PrimitiveRoot(p, w, k) && z < p && Pow2(k) < p && |e| == Pow2(k) && |invs| == |denoms|
    requires denoms == Denominators(p, Domain(p, w, k), z, Pow2(k))
    requires forall i :: 0 <= i < |denoms| ==> Cong(p, denoms[i] * invs[i], 1)
    requires z !in Domain(p, w, k)
    requires Cong(p, sum, Weighted(Domain(p, w, k), e, invs[..Pow2(k)]))
    requires Cong(p, y, sum * (Pow(z, Pow2(k)) - 1) * invs[Pow2(k)])
    ensures Evaluates(p, w, k, e, z, y)
  {
    hide Cong, Pow, Domain, Weighted, PolyAt, PrimitiveRoot, Pow2, Denominators, Interpolates;
    var d, n := Domain(p, w, k), Pow2(k);
    forall x | x in d ensures x < p { DomainIsAllRoots(p, w, k); }
    DenominatorsNonzero(p, d, z, n);
    assert Inverts(p, z, d, invs[..n]) by {
      forall i | 0 <= i < n ensures Cong(p, (z - d[i]) * invs[..n][i], 1) {
        SwapDenominator(p, denoms[i], z - d[i], invs[i]);
      }
    }
    var f := Pow(z, n) - 1;
    Refl(p, f * invs[n]);
    CongMul(p, sum, Weighted(d, e, invs[..n]), f * invs[n], f * invs[n]);
    assert sum * (f * invs[n]) == sum * f * invs[n];
    assert Weighted(d, e, invs[..n]) * (f * invs[n]) == Weighted(d, e, invs[..n]) * f * invs[n];
    Trans(p, y, sum * f * invs[n], Weighted(d, e, invs[..n]) * f * invs[n]);
    forall c | Interpolates(p, w, k, c, e) ensures Cong(p, y, PolyAt(c, z)) {
      ClosedForm(p, w, k, z, c, e, invs[..n], invs[n], y);
    }
  }

  /** On the domain the stored element is the value. */
  lemma StoredValue(p: Prime, w: nat, k: nat, e: seq<nat>, i: nat)
    requires |e| == Pow2(k) && i < |e|
    ensures Evaluates(p, w, k, e, Domain(p, w, k)[i], e[i])
  {
    hide Cong, PolyAt, Domain;
    var z := Domain(p, w, k)[i];
    forall c | Interpolates(p, w, k, c, e) ensures Cong(p, e[i], PolyAt(c, z)) { Sym(p, PolyAt(c, z), e[i]); }
  }

  lemma WholeNonzero(p: Prime, prefix: nat, product: int)
    requires Cong(p, prefix, product) && !Cong(p, product, 0)
    ensures prefix % p != 0 && !Cong(p, prefix, 0)
  {
    hide Cong;
    Sym(p, prefix, product);
    if Cong(p, prefix, 0) { Trans(p, product, prefix, 0); }
    ModCong(p, prefix);
    if prefix % p == 0 { Sym(p, 0, prefix); }
  }

  lemma WholeInverse(p: Prime, prefix: nat, product: int, total: nat)
    requires Cong(p, prefix, product) && Cong(p, (prefix % p) * total, 1)
    ensures Cong(p, total * product, 1)
  {
    hide Cong;
    ModCong(p, prefix);
    Trans(p, prefix % p, prefix, product);
    SwapDenominator(p, prefix % p, product, total);
    assert product * total == total * product;
  }

  /**
   * The production evaluator. It panics on anything but canonical field elements and otherwise returns the
   * value of the blob's polynomial at `z`, on the domain and off it.
   */
  method BarycentricEval(p: Prime, w: nat, k: nat, extra: nat, elements: seq<nat>, z: nat) returns (r: Option<nat>)
    requires PrimitiveRoot(p, w, k) && Pow2(k) < p
    ensures r.Some? <==> |elements| == Pow2(k) && z < p && forall e :: e in elements ==> e < p
    ensures r.Some? ==> r.value < p && Evaluates(p, w, k, elements, z, r.value)
  {
    hide Cong, Pow, Domain, Weighted, Evaluates, PrimitiveRoot, Pow2, Denominators, Product;
    if |elements| != Pow2(k) || z >= p || exists e :: e in elements && e >= p { return None; }
    var domain := BitReversedDomain(p, w, k, extra);
    for i := 0 to |domain|
      invariant z !in domain[..i]
    {
      if domain[i] == z {
        StoredValue(p, w, k, elements, i);
        assert elements[i] in elements;
        return Some(elements[i]);
      }
    }
    assert domain[..|domain|] == domain;
    var denoms := Denominators(p, domain, z, Pow2(k));
    forall x | x in domain ensures x < p { DomainIsAllRoots(p, w, k); }
    DenominatorsNonzero(p, domain, z, Pow2(k));
    ProductNonzero(p, denoms);
    var prefix := PrefixProducts(p, denoms);
    assert denoms[..|denoms|] == denoms;
    var whole := prefix[|denoms|] % p;
    WholeNonzero(p, prefix[|denoms|], Product(denoms));
    var total := Inverse(p, whole);
    WholeInverse(p, prefix[|denoms|], Product(denoms), total);
    var invs := Unwind(p, denoms, prefix, total);
    var sum := WeightedSum(p, domain, elements, invs[..Pow2(k)]);
    var y := CloseForm(p, sum, z, Pow2(k), invs[Pow2(k)]);
    Assemble(p, w, k, elements, z, denoms, invs, sum, y);
    r := Some(y);
  }

  lemma FermatWhole(p: Prime, whole: int, product: int, total: int)
    requires Cong(p, whole, product) && Cong(p, total * whole, 1)
    ensures Cong(p, total * product, 1)
  {
    hide Cong;
    assert total * whole == whole * total && total * product == product * total;
    SwapDenominator(p, whole, product, total);
  }

  /**
   * The big-integer evaluator: any integers, reduced where they are used, and one inversion by
   * exponentiation. It evaluates the same polynomial; on the domain it
   * answers with the integer stored at that point, off it with a reduced one.
   */
  method BarycentricEvalBigint(p: Prime, w: nat, k: nat, extra: nat, elements: seq<nat>, point: nat)
    returns (r: Option<nat>)
    requires PrimitiveRoot(p, w, k) && Pow2(k) < p
    ensures r.Some? <==> |elements| == Pow2(k)
    ensures r.Some? ==> Evaluates(p, w, k, elements, point % p, r.value)
    ensures forall i :: 0 <= i < Pow2(k) && r.Some? && Domain(p, w, k)[i] == point % p ==> r.value == elements[i]
    ensures r.Some? && point % p !in Domain(p, w, k) ==> r.value < p
  {
    hide Cong, Pow, Domain, Weighted, Evaluates, PrimitiveRoot, Pow2, Denominators, Product;
    if |elements| != Pow2(k) { return None; }
    var z := point % p;
    var domain := BitReversedDomain(p, w, k, extra);
    for i := 0 to |domain|
      invariant z !in domain[..i]
    {
      if domain[i] == z {
        StoredValue(p, w, k, elements, i);
        DomainIsAllRoots(p, w, k);
        return Some(elements[i]);
      }
    }
    assert domain[..|domain|] == domain;
    var denoms := Denominators(p, domain, z, Pow2(k));
    forall x | x in domain ensures x < p { DomainIsAllRoots(p, w, k); }
    DenominatorsNonzero(p, domain, z, Pow2(k));
    ProductNonzero(p, denoms);
    var prefix := PrefixProducts(p, denoms);
    assert denoms[..|denoms|] == denoms;
    var whole := prefix[|denoms|];
    WholeNonzero(p, whole, Product(denoms));
    var total := Pow(whole, p - 2) % p;
    FermatInverse(p, whole);
    FermatWhole(p, whole, Product(denoms), total);
    var invs := Unwind(p, denoms, prefix, total);
    var sum := WeightedSum(p, domain, elements, invs[..Pow2(k)]);
    var y := CloseForm(p, sum, z, Pow2(k), invs[Pow2(k)]);
    Assemble(p, w, k, elements, z, denoms, invs, sum, y);
    r := Some(y);
  }
}
