/** Sums over sequentially numbered records and over ledgers keyed by address. */
module Sums {

  /** `f(0) + ... + f(n - 1)`. */
  function Total(f: nat -> nat, n: nat): nat {
    if n == 0 then 0 else Total(f, n - 1) + f(n - 1)
  }

  lemma {:induction false} TotalSame(f: nat -> nat, g: nat -> nat, n: nat)
    requires forall j: nat :: j < n ==> f(j) == g(j)
    ensures Total(f, n) == Total(g, n)
  {
    if n > 0 { TotalSame(f, g, n - 1); }
  }

  /** Changing one record changes the total by exactly that record's change. */
  lemma {:induction false} TotalChange(f: nat -> nat, g: nat -> nat, n: nat, i: nat)
    requires i < n && forall j: nat :: j < n && j != i ==> f(j) == g(j)
    ensures Total(g, n) + f(i) == Total(f, n) + g(i)
  {
    if i == n - 1 { TotalSame(f, g, n - 1); } else { TotalChange(f, g, n - 1, i); }
  }

  /** No record exceeds the total. */
  lemma {:induction false} TotalAtLeast(f: nat -> nat, n: nat, i: nat)
    requires i < n
    ensures f(i) <= Total(f, n)
  {
    if i < n - 1 { TotalAtLeast(f, n - 1, i); }
  }

  /** The sum of all entries of a ledger. */
  ghost function SumValues(m: map<nat, nat>): nat
    decreases |m|
  {
    if m == map[] then 0
    else
      var k :| k in m;
      assert (m - {k}).Keys == m.Keys - {k};
      m[k] + SumValues(m - {k})
  }

  /** Any entry can be taken out first. */
  lemma {:induction false} SumRemove(m: map<nat, nat>, k: nat)
    requires k in m
    ensures SumValues(m) == m[k] + SumValues(m - {k})
    decreases |m|
  {
    assert m != map[];
    var first :| first in m && SumValues(m) == m[first] + SumValues(m - {first});
    if first != k {
      assert (m - {first}).Keys == m.Keys - {first} && (m - {k}).Keys == m.Keys - {k};
      SumRemove(m - {first}, k);
      SumRemove(m - {k}, first);
      assert m - {first} - {k} == m - {k} - {first};
    }
  }

  function Entry(m: map<nat, nat>, k: nat): nat {
    if k in m then m[k] else 0
  }

  /** Writing one entry changes the sum by exactly that entry's change. */
  lemma SumUpdate(m: map<nat, nat>, k: nat, v: nat)
    ensures SumValues(m[k := v]) + Entry(m, k) == SumValues(m) + v
  {
    SumRemove(m[k := v], k);
    assert m[k := v] - {k} == m - {k};
    if k in m { SumRemove(m, k); } else { assert m - {k} == m; }
  }
}
