/** Fermat's little theorem, which is what makes `x^(p-2)` an inverse. */
module Fermat {
  import opened Field

  function Product(s: seq<int>): int {
    if s == [] then 1 else Product(s[..|s| - 1]) * s[|s| - 1]
  }

  ghost predicate Distinct(s: seq<int>) {
    forall i, j :: 0 <= i < j < |s| ==> s[i] != s[j]
  }

  // ---- Products do not depend on order ----

  lemma MulSwap(u: int, x: int, y: int)
    ensures (u * x) * y == (u * y) * x
  {
  }

  lemma {:induction false} ProductRemove(s: seq<int>, i: nat)
    requires i < |s|
    ensures Product(s) == Product(s[..i] + s[i + 1..]) * s[i]
    decreases |s|
  {
    var m := |s| - 1;
    var rest := s[..i] + s[i + 1..];
    if i == m {
      assert rest == s[..m];
    } else {
      var inner := s[..m][..i] + s[..m][i + 1..];
      ProductRemove(s[..m], i);
      assert rest == inner + [s[m]];
      assert rest[..m - 1] == inner;
      MulSwap(Product(inner), s[i], s[m]);
    }
  }

  lemma MultisetRemove(s: seq<int>, i: nat)
    requires i < |s|
    ensures multiset(s[..i] + s[i + 1..]) == multiset(s) - multiset{s[i]}
  {
    assert s == s[..i] + [s[i]] + s[i + 1..];
  }

  lemma {:induction false} ProductPermutation(s: seq<int>, t: seq<int>)
    requires multiset(s) == multiset(t)
    ensures Product(s) == Product(t)
    decreases |s|
  {
    assert |s| == |multiset(s)| == |t|;
    if s != [] {
      var m := |s| - 1;
      assert s[m] in multiset(t);
      var i :| 0 <= i < |t| && t[i] == s[m];
      MultisetRemove(t, i);
      MultisetRemove(s, m);
      assert s[..m] + s[m + 1..] == s[..m];
      ProductPermutation(s[..m], t[..i] + t[i + 1..]);
      ProductRemove(t, i);
    }
  }

  // ---- Distinct residues are all residues ----

  lemma {:induction false} DistinctCounts(s: seq<int>)
    requires Distinct(s)
    ensures |(set x | x in s)| == |s|
    ensures forall x :: multiset(s)[x] == if x in s then 1 else 0
  {
    if s != [] {
      var m := |s| - 1;
      DistinctCounts(s[..m]);
      assert s == s[..m] + [s[m]];
      assert (set x | x in s) == (set x | x in s[..m]) + {s[m]};
    }
  }

  /** `1, ..., n`. */
  function Residues(n: nat): (s: seq<int>)
    ensures |s| == n && forall i :: 0 <= i < n ==> s[i] == i + 1
  {
    seq(n, i => i + 1)
  }

  lemma SameSize(a: set<int>, b: set<int>)
    requires a <= b && |a| == |b|
    ensures a == b
  {
    assert b == a + (b - a);
    assert |b - a| == 0;
  }

  lemma DistinctIsAll(s: seq<int>)
    requires Distinct(s) && forall x :: x in s ==> 1 <= x <= |s|
    ensures multiset(s) == multiset(Residues(|s|))
  {
    var r := Residues(|s|);
    DistinctCounts(s);
    DistinctCounts(r);
    var a, b := set x | x in s, set x | x in r;
    forall x | x in s ensures x in r { assert r[x - 1] == x; }
    assert a <= b;
    SameSize(a, b);
    forall x ensures multiset(s)[x] == multiset(r)[x] {
      assert x in s <==> x in a;
      assert x in r <==> x in b;
    }
  }

  // ---- The theorem ----

  function Multiple(p: Prime, a: int, i: int): nat {
    (a * i) % p
  }

  function Multiples(p: Prime, a: int, n: nat): (s: seq<int>)
    ensures |s| == n && forall i :: 0 <= i < n ==> s[i] == Multiple(p, a, i + 1)
  {
    seq(n, i => Multiple(p, a, i + 1))
  }

  lemma MultiplesStep(p: Prime, a: int, n: int, s: int, last: int, t: int, q: int)
    requires Cong(p, s, t * q) && Cong(p, last, a * n)
    ensures Cong(p, s * last, (a * t) * (q * n))
  {
    hide Cong;
    CongMul(p, s, t * q, last, a * n);
    assert (t * q) * (a * n) == (a * t) * (q * n);
  }

  lemma {:induction false} MultiplesProduct(p: Prime, a: int, n: nat)
    ensures Cong(p, Product(Multiples(p, a, n)), Pow(a, n) * Product(Residues(n)))
  {
    hide Cong, Multiples, Residues;
    if n == 0 {
      Refl(p, 1);
    } else {
      var s, r := Multiples(p, a, n), Residues(n);
      assert s[..n - 1] == Multiples(p, a, n - 1) && r[..n - 1] == Residues(n - 1);
      assert s[n - 1] == (a * n) % p;
      MultiplesProduct(p, a, n - 1);
      ModCong(p, a * n);
      MultiplesStep(p, a, n, Product(s[..n - 1]), s[n - 1], Pow(a, n - 1), Product(r[..n - 1]));
    }
  }

  lemma {:induction false} ResiduesProduct(p: Prime, n: nat)
    requires n < p
    ensures !Cong(p, Product(Residues(n)), 0)
  {
    hide Cong;
    if n == 0 {
      if Cong(p, 1, 0) { ReducedUnique(p, 1, 0); }
    } else {
      var r := Residues(n);
      assert r[..n - 1] == Residues(n - 1);
      ResiduesProduct(p, n - 1);
      if Cong(p, Product(r), 0) {
        Cancel(p, Product(r[..n - 1]), n);
        ReducedUnique(p, n, 0);
      }
    }
  }

  lemma Difference(p: Prime, x: int, y: int)
    requires Cong(p, x, y)
    ensures Cong(p, x - y, 0)
  {
  }

  lemma MultipleDiffers(p: Prime, a: int, i: nat, j: nat)
    requires !Cong(p, a, 0) && i < j < p
    ensures Multiple(p, a, i) != Multiple(p, a, j)
  {
    hide Cong;
    if (a * i) % p == (a * j) % p {
      ModCong(p, a * i);
      ModCong(p, a * j);
      Sym(p, (a * j) % p, a * j);
      Trans(p, a * j, (a * j) % p, a * i);
      Difference(p, a * j, a * i);
      assert a * j - a * i == a * (j - i);
      Cancel(p, a, j - i);
      ReducedUnique(p, j - i, 0);
    }
  }

  lemma MultipleInRange(p: Prime, a: int, i: nat)
    requires !Cong(p, a, 0) && 0 < i < p
    ensures 1 <= Multiple(p, a, i) <= p - 1
  {
    MultipleDiffers(p, a, 0, i);
    assert a * 0 == 0;
  }

  /** Multiplying by a nonzero element permutes the nonzero residues. */
  lemma MultiplesAreResidues(p: Prime, a: int)
    requires !Cong(p, a, 0)
    ensures multiset(Multiples(p, a, p - 1)) == multiset(Residues(p - 1))
  {
    hide Cong, Multiple;
    var n := p - 1;
    var s := Multiples(p, a, n);
    forall i, j | 0 <= i < j < n ensures s[i] != s[j] { MultipleDiffers(p, a, i + 1, j + 1); }
    forall i | 0 <= i < n ensures 1 <= s[i] <= n {
      MultipleInRange(p, a, i + 1);
    }
    DistinctIsAll(s);
  }

  lemma CancelTo(p: Prime, all: int, f: int)
    requires Cong(p, all, f * all) && !Cong(p, all, 0)
    ensures Cong(p, f, 1)
  {
    hide Cong;
    Sym(p, all, f * all);
    Difference(p, f * all, all);
    assert f * all - all == all * (f - 1);
    Cancel(p, all, f - 1);
    Refl(p, 1);
    CongAdd(p, f - 1, 0, 1, 1);
  }

  /** `a^(p-1) = 1` for every nonzero element. */
  lemma LittleTheorem(p: Prime, a: int)
    requires !Cong(p, a, 0)
    ensures Cong(p, Pow(a, p - 1), 1)
  {
    hide Cong, Product, Pow;
    var s, r := Multiples(p, a, p - 1), Residues(p - 1);
    MultiplesAreResidues(p, a);
    ProductPermutation(s, r);
    MultiplesProduct(p, a, p - 1);
    ResiduesProduct(p, p - 1);
    CancelTo(p, Product(r), Pow(a, p - 1));
  }

  /** The inverse by exponentiation is the inverse. */
  lemma FermatInverse(p: Prime, a: int)
    requires !Cong(p, a, 0)
    ensures Cong(p, (Pow(a, p - 2) % p) * a, 1)
  {
    hide Cong;
    LittleTheorem(p, a);
    ModCong(p, Pow(a, p - 2));
    Refl(p, a);
    CongMul(p, Pow(a, p - 2) % p, Pow(a, p - 2), a, a);
    Trans(p, (Pow(a, p - 2) % p) * a, Pow(a, p - 1), 1);
  }
}
