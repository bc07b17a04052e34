/**
 * The evaluation domain: the `2^k` powers of a primitive root of unity, listed in bit-reversed order, and the
 * one fact about them that interpolation needs, the values of their power sums.
 */
module Roots {
  import opened Bits
  import opened Field

  /** `w` has order exactly `2^k`. */
  predicate PrimitiveRoot(p: Prime, w: nat, k: nat) {
    w < p && Cong(p, Pow(w, Pow2(k)), 1) && (k > 0 ==> !Cong(p, Pow(w, Pow2(k - 1)), 1))
  }

  /** An element of order two is its own odd powers. */
  lemma OddPower(p: Prime, s: int, b: nat)
    requires Cong(p, Pow(s, 2), 1)
    ensures Cong(p, Pow(s, 2 * b + 1), s)
  {
    hide Cong;
    PowPow(s, 2, b);
    CongPow(p, Pow(s, 2), 1, b);
    PowOne(b);
    Refl(p, s);
    CongMul(p, s, s, Pow(s, 2 * b), 1);
  }

  lemma {:induction false} NoEarlierOne(p: Prime, w: int, k: nat, a: nat)
    requires Cong(p, Pow(w, Pow2(k)), 1) && (k > 0 ==> !Cong(p, Pow(w, Pow2(k - 1)), 1))
    requires 0 < a < Pow2(k)
    ensures !Cong(p, Pow(w, a), 1)
    decreases k
  {
    hide Cong;
    var b := a / 2;
    if a % 2 == 0 {
      var v := Pow(w, 2);
      PowPow(w, 2, b);
      PowPow(w, 2, Pow2(k - 1));
      if k > 1 { PowPow(w, 2, Pow2(k - 2)); }
      NoEarlierOne(p, v, k - 1, b);
    } else if Cong(p, Pow(w, a), 1) {
      var s := Pow(w, Pow2(k - 1));
      OddPower(p, s, b) by {
        PowPow(w, Pow2(k - 1), 2);
        assert Pow2(k - 1) * 2 == Pow2(k);
      }
      PowSwap(w, Pow2(k - 1), a);
      CongPow(p, Pow(w, a), 1, Pow2(k - 1));
      PowOne(Pow2(k - 1));
      Sym(p, Pow(s, a), s);
      Trans(p, s, Pow(s, a), 1);
    }
  }

  // ---- Geometric sums ----

  /** `x^(n-1) + x^(n-2) y + ... + y^(n-1)`. */
  function Geo(x: int, y: int, n: nat): int {
    if n == 0 then 0 else y * Geo(x, y, n - 1) + Pow(x, n - 1)
  }

  lemma Telescope(x: int, y: int, g: int, a: int, b: int)
    requires (x - y) * g == a - b
    ensures (x - y) * (y * g + a) == x * a - y * b
  {
    assert (x - y) * (y * g + a) == y * ((x - y) * g) + (x - y) * a;
    assert y * (a - b) + (x - y) * a == x * a - y * b;
  }

  lemma {:induction false} GeoTelescopes(x: int, y: int, n: nat)
    ensures (x - y) * Geo(x, y, n) == Pow(x, n) - Pow(y, n)
  {
    if n > 0 {
      GeoTelescopes(x, y, n - 1);
      var g, a, b := Geo(x, y, n - 1), Pow(x, n - 1), Pow(y, n - 1);
      Telescope(x, y, g, a, b);
    }
  }

  lemma {:induction false} GeoOnes(p: Prime, u: int, n: nat)
    requires Cong(p, u, 1)
    ensures Cong(p, Geo(u, 1, n), n)
  {
    hide Cong;
    Refl(p, 0);
    if n > 0 {
      GeoOnes(p, u, n - 1);
      CongPow(p, u, 1, n - 1);
      PowOne(n - 1);
      CongAdd(p, Geo(u, 1, n - 1), n - 1, Pow(u, n - 1), 1);
    }
  }

  // ---- Power sums ----

  function PowSum(d: seq<int>, a: nat): int {
    if d == [] then 0 else Pow(d[0], a) + PowSum(d[1..], a)
  }

  lemma {:induction false} PowSumConcat(d: seq<int>, e: seq<int>, a: nat)
    ensures PowSum(d + e, a) == PowSum(d, a) + PowSum(e, a)
  {
    if d == [] {
      assert d + e == e;
    } else {
      assert (d + e)[1..] == d[1..] + e;
      PowSumConcat(d[1..], e, a);
    }
  }

  /** `1, w, ..., w^(n-1)`, reduced. */
  function Powers(p: Prime, w: nat, n: nat): (powers: seq<nat>)
    ensures |powers| == n && forall i :: 0 <= i < n ==> powers[i] == Pow(w, i) % p
  {
    if n == 0 then [] else Powers(p, w, n - 1) + [Pow(w, n - 1) % p]
  }

  lemma {:induction false} PowersSum(p: Prime, w: nat, n: nat, a: nat)
    ensures Cong(p, PowSum(Powers(p, w, n), a), Geo(Pow(w, a), 1, n))
  {
    hide Cong;
    Refl(p, 0);
    if n > 0 {
      PowersSum(p, w, n - 1, a);
      var u, last := Pow(w, a), Pow(w, n - 1) % p;
      PowSumConcat(Powers(p, w, n - 1), [last], a);
      assert PowSum([last], a) == Pow(last, a);
      ModCong(p, Pow(w, n - 1));
      CongPow(p, last, Pow(w, n - 1), a);
      PowSwap(w, n - 1, a);
      CongAdd(p, PowSum(Powers(p, w, n - 1), a), Geo(u, 1, n - 1), Pow(last, a), Pow(u, n - 1));
    }
  }

  lemma DropFactor(p: Prime, x: int, y: int)
    requires Cong(p, x, 1) && Cong(p, x * y, 1)
    ensures Cong(p, y, 1)
  {
    hide Cong;
    Refl(p, y);
    CongMul(p, x, 1, y, y);
    Sym(p, x * y, y);
    Trans(p, y, x * y, 1);
  }

  /** Orthogonality: over all `N` roots the `a`-th powers sum to `N` or cancel. */
  lemma {:induction false} PowersCancel(p: Prime, w: nat, k: nat, a: nat)
    requires PrimitiveRoot(p, w, k) && 0 < a < 2 * Pow2(k)
    ensures Cong(p, PowSum(Powers(p, w, Pow2(k)), a), if a == Pow2(k) then Pow2(k) else 0)
  {
    hide Cong;
    var n, u := Pow2(k), Pow(w, a);
    PowersSum(p, w, n, a);
    if a == n {
      GeoOnes(p, u, n);
      Trans(p, PowSum(Powers(p, w, n), a), Geo(u, 1, n), n);
    } else {
      assert !Cong(p, u, 1) by {
        if a < n { NoEarlierOne(p, w, k, a); } else {
          NoEarlierOne(p, w, k, a - n);
          PowAdd(w, n, a - n);
          if Cong(p, u, 1) { DropFactor(p, Pow(w, n), Pow(w, a - n)); }
        }
      }
      GeoTelescopes(u, 1, n);
      PowSwap(w, a, n);
      CongPow(p, Pow(w, n), 1, a);
      PowOne(a);
      PowOne(n);
      Refl(p, 1);
      CongAdd(p, Pow(u, n), 1, 1, 1);
      if Cong(p, u - 1, 0) { CongAdd(p, u - 1, 0, 1, 1); }
      Cancel(p, u - 1, Geo(u, 1, n));
      Trans(p, PowSum(Powers(p, w, n), a), Geo(u, 1, n), 0);
    }
  }

  // ---- Bit reversal ----

  /** `reverse_bits` of a `width`-bit word. */
  function ReverseBits(width: nat, i: nat): nat {
    if width == 0 then 0
    else ReverseBits(width - 1, i / 2) + if i % 2 == 1 then Pow2(width - 1) else 0
  }

  function Evens(s: seq<nat>): (e: seq<nat>)
    requires |s| % 2 == 0
    ensures |e| == |s| / 2 && forall i :: 0 <= i < |e| ==> e[i] == s[2 * i]
  {
    seq(|s| / 2, i requires 0 <= i < |s| / 2 => s[2 * i])
  }

  function Odds(s: seq<nat>): (o: seq<nat>)
    requires |s| % 2 == 0
    ensures |o| == |s| / 2 && forall i :: 0 <= i < |o| ==> o[i] == s[2 * i + 1]
  {
    seq(|s| / 2, i requires 0 <= i < |s| / 2 => s[2 * i + 1])
  }

  /** The bit-reversal permutation of `2^k` elements, as a recursive perfect unshuffle. */
  function Unshuffle(s: seq<nat>, k: nat): (t: seq<nat>)
    requires |s| == Pow2(k)
    ensures |t| == |s|
    decreases k
  {
    if k == 0 then s else Unshuffle(Evens(s), k - 1) + Unshuffle(Odds(s), k - 1)
  }

  lemma {:induction false} ReverseBelow(k: nat, i: nat)
    ensures ReverseBits(k, i) < Pow2(k)
  {
    if k > 0 { ReverseBelow(k - 1, i / 2); }
  }

  lemma {:induction false} ReverseInjective(k: nat, i: nat, j: nat)
    requires i < Pow2(k) && j < Pow2(k) && i != j
    ensures ReverseBits(k, i) != ReverseBits(k, j)
  {
    if k > 0 {
      ReverseBelow(k - 1, i / 2);
      ReverseBelow(k - 1, j / 2);
      if i / 2 != j / 2 { ReverseInjective(k - 1, i / 2, j / 2); }
    }
  }

  /** Reversing in a wider word: the extra bits end up below. */
  lemma {:induction false} ReverseWider(k: nat, i: nat)
    requires i < Pow2(k)
    ensures ReverseBits(k + 1, i) == 2 * ReverseBits(k, i)
    ensures ReverseBits(k + 1, i + Pow2(k)) == 2 * ReverseBits(k, i) + 1
  {
    if k > 0 {
      ReverseWider(k - 1, i / 2);
      assert (i + Pow2(k)) / 2 == i / 2 + Pow2(k - 1) && (i + Pow2(k)) % 2 == i % 2;
    }
  }

  /** One level of the unshuffle: which half position `i` falls in, and its reversed index there. */
  lemma UnshuffleSplit(s: seq<nat>, k: nat, i: nat)
    requires k > 0 && |s| == Pow2(k) && i < |s|
    ensures |Evens(s)| == |Odds(s)| == Pow2(k - 1) && Pow2(k) == 2 * Pow2(k - 1)
    ensures i < Pow2(k - 1) ==>
      Unshuffle(s, k)[i] == Unshuffle(Evens(s), k - 1)[i] && ReverseBits(k, i) == 2 * ReverseBits(k - 1, i)
    ensures i >= Pow2(k - 1) ==>
      Unshuffle(s, k)[i] == Unshuffle(Odds(s), k - 1)[i - Pow2(k - 1)] &&
      ReverseBits(k, i) == 2 * ReverseBits(k - 1, i - Pow2(k - 1)) + 1
  {
    hide Evens, Odds, ReverseBits;
    if i < Pow2(k - 1) { ReverseWider(k - 1, i); } else { ReverseWider(k - 1, i - Pow2(k - 1)); }
  }

  /** Position `i` of the unshuffle holds the element whose index is `i` with its bits reversed. */
  lemma {:induction false} UnshuffleAt(s: seq<nat>, k: nat, i: nat)
    requires |s| == Pow2(k) && i < |s|
    ensures ReverseBits(k, i) < |s| && Unshuffle(s, k)[i] == s[ReverseBits(k, i)]
    decreases k
  {
    if k > 0 {
      hide Pow2, ReverseBits, Evens, Odds, Unshuffle;
      UnshuffleSplit(s, k, i);
      var half := Pow2(k - 1);
      if i < half { UnshuffleAt(Evens(s), k - 1, i); } else { UnshuffleAt(Odds(s), k - 1, i - half); }
    }
  }

  /** The domain's index arithmetic: reversing 16 bits and dropping four reverses 12. */
  lemma {:induction false} ReverseAndShift(k: nat, extra: nat, i: nat)
    requires i < Pow2(k)
    ensures Shr(ReverseBits(k + extra, i), extra) == ReverseBits(k, i)
    decreases extra
  {
    if extra > 0 {
      Pow2Mono(k, k + extra - 1);
      ReverseWider(k + extra - 1, i);
      ReverseAndShift(k, extra - 1, i);
    }
  }

  lemma {:induction false} Interleaved(s: seq<nat>)
    requires |s| % 2 == 0
    ensures multiset(s) == multiset(Evens(s)) + multiset(Odds(s))
    decreases |s|
  {
    if s != [] {
      Interleaved(s[2..]);
      assert s == [s[0], s[1]] + s[2..];
      assert Evens(s) == [s[0]] + Evens(s[2..]) && Odds(s) == [s[1]] + Odds(s[2..]);
    }
  }

  /** Nothing is lost or repeated. */
  lemma {:induction false} UnshuffleIsPermutation(s: seq<nat>, k: nat)
    requires |s| == Pow2(k)
    ensures multiset(Unshuffle(s, k)) == multiset(s)
    decreases k
  {
    if k > 0 {
      UnshuffleIsPermutation(Evens(s), k - 1);
      UnshuffleIsPermutation(Odds(s), k - 1);
      Interleaved(s);
    }
  }

  lemma {:induction false} InterleavedSum(s: seq<nat>, a: nat)
    requires |s| % 2 == 0
    ensures PowSum(s, a) == PowSum(Evens(s), a) + PowSum(Odds(s), a)
    decreases |s|
  {
    if s != [] {
      InterleavedSum(s[2..], a);
      assert s[1..][1..] == s[2..];
      assert Evens(s)[1..] == Evens(s[2..]) && Odds(s)[1..] == Odds(s[2..]);
    }
  }

  lemma {:induction false} UnshuffleSum(s: seq<nat>, k: nat, a: nat)
    requires |s| == Pow2(k)
    ensures PowSum(Unshuffle(s, k), a) == PowSum(s, a)
    decreases k
  {
    if k > 0 {
      UnshuffleSum(Evens(s), k - 1, a);
      UnshuffleSum(Odds(s), k - 1, a);
      InterleavedSum(s, a);
      PowSumConcat(Unshuffle(Evens(s), k - 1), Unshuffle(Odds(s), k - 1), a);
    }
  }

  // ---- The domain ----

  /** The `2^k` roots of unity in bit-reversed order. */
  function Domain(p: Prime, w: nat, k: nat): (d: seq<nat>)
    ensures |d| == Pow2(k)
  {
    Unshuffle(Powers(p, w, Pow2(k)), k)
  }

  lemma DomainSum(p: Prime, w: nat, k: nat, a: nat)
    requires PrimitiveRoot(p, w, k) && 0 < a < 2 * Pow2(k)
    ensures Cong(p, PowSum(Domain(p, w, k), a), if a == Pow2(k) then Pow2(k) else 0)
  {
    hide Cong, PowSum, Unshuffle, PrimitiveRoot;
    UnshuffleSum(Powers(p, w, Pow2(k)), k, a);
    PowersCancel(p, w, k, a);
  }

  lemma RootAt(p: Prime, w: nat, k: nat, i: nat)
    requires PrimitiveRoot(p, w, k)
    ensures Cong(p, Pow(Pow(w, i) % p, Pow2(k)), 1)
  {
    hide Cong;
    var n, x := Pow2(k), Pow(w, i) % p;
    ModCong(p, Pow(w, i));
    CongPow(p, x, Pow(w, i), n);
    PowSwap(w, i, n);
    CongPow(p, Pow(w, n), 1, i);
    PowOne(i);
    Trans(p, Pow(x, n), Pow(Pow(w, i), n), 1);
  }

  lemma PowersDiffer(p: Prime, w: nat, k: nat, i: nat, j: nat)
    requires PrimitiveRoot(p, w, k) && i < j < Pow2(k)
    ensures Pow(w, i) % p != Pow(w, j) % p
  {
    hide Cong;
    if Pow(w, i) % p == Pow(w, j) % p {
      var n := Pow2(k);
      // Multiply both by w^(n - i): 1 is then w^(n + j - i), hence w^(j - i).
      var back := Pow(w, n - i);
      ModCong(p, Pow(w, i));
      ModCong(p, Pow(w, j));
      Sym(p, Pow(w, j) % p, Pow(w, j));
      Trans(p, Pow(w, j), Pow(w, i) % p, Pow(w, i));
      Refl(p, back);
      CongMul(p, Pow(w, j), Pow(w, i), back, back);
      PowAdd(w, i, n - i);
      PowAdd(w, j, n - i);
      PowAdd(w, n, j - i);
      assert j + (n - i) == n + (j - i);
      Trans(p, Pow(w, n) * Pow(w, j - i), Pow(w, n), 1);
      DropFactor(p, Pow(w, n), Pow(w, j - i));
      NoEarlierOne(p, w, k, j - i);
    }
  }

  /** Every root of unity once, each a reduced root, at the bit-reversed position. */
  lemma DomainIsAllRoots(p: Prime, w: nat, k: nat)
    requires PrimitiveRoot(p, w, k)
    ensures multiset(Domain(p, w, k)) == multiset(Powers(p, w, Pow2(k)))
    ensures forall i :: 0 <= i < Pow2(k) ==>
      Domain(p, w, k)[i] < p && Cong(p, Pow(Domain(p, w, k)[i], Pow2(k)), 1)
    ensures forall i, j :: 0 <= i < j < Pow2(k) ==> Domain(p, w, k)[i] != Domain(p, w, k)[j]
  {
    hide Cong;
    var n := Pow2(k);
    UnshuffleIsPermutation(Powers(p, w, n), k);
    forall i | 0 <= i < n ensures Domain(p, w, k)[i] < p && Cong(p, Pow(Domain(p, w, k)[i], n), 1) {
      UnshuffleAt(Powers(p, w, n), k, i);
      RootAt(p, w, k, ReverseBits(k, i));
    }
    forall i, j | 0 <= i < j < n ensures Domain(p, w, k)[i] != Domain(p, w, k)[j] {
      UnshuffleAt(Powers(p, w, n), k, i);
      UnshuffleAt(Powers(p, w, n), k, j);
      ReverseInjective(k, i, j);
      var a, b := ReverseBits(k, i), ReverseBits(k, j);
      if a < b { PowersDiffer(p, w, k, a, b); } else { PowersDiffer(p, w, k, b, a); }
    }
  }
}
