/** Totals over finite maps, ascending listings of finite sets, and the little arithmetic
    they need. */
module Sums {
  ghost function Total<K>(m: map<K, int>): int
    decreases |m|
  {
    if m == map[] then 0
    else
      var k :| k in m;
      m[k] + Total(m - {k})
  }

  /** Any key may be taken out first. */
  lemma {:induction false} TotalTake<K>(m: map<K, int>, k: K)
    requires k in m
    ensures Total(m) == m[k] + Total(m - {k})
    decreases |m|
  {
    var first :| first in m && Total(m) == m[first] + Total(m - {first});
    if first != k {
      TotalTake(m - {first}, k);
      TotalTake(m - {k}, first);
      assert m - {first} - {k} == m - {k} - {first};
    }
  }

  lemma TotalUpdate<K>(m: map<K, int>, k: K, v: int)
    ensures Total(m[k := v]) == Total(m) - (if k in m then m[k] else 0) + v
  {
    TotalTake(m[k := v], k);
    if k in m {
      TotalTake(m, k);
      assert m[k := v] - {k} == m - {k};
    } else {
      assert m[k := v] - {k} == m;
    }
  }

  lemma {:induction false} TotalBounds<K>(m: map<K, int>, n: nat, each: nat)
    requires |m| <= n && forall k :: k in m ==> 0 <= m[k] <= each
    ensures 0 <= Total(m) <= n * each
    decreases |m|
  {
    if m == map[] {
    } else {
      var k :| k in m && Total(m) == m[k] + Total(m - {k});
      var rest := m - {k};
      assert |rest| == |m| - 1;
      TotalBounds(rest, n - 1, each);
      OneMore(n, each);
    }
  }

  lemma OneMore(n: int, each: int)
    ensures (n - 1) * each + each == n * each
  {
  }

  lemma Distribute(a: int, b: int, size: int)
    ensures (a - b) * size == a * size - b * size
  {
  }

  lemma AtLeastOnce(k: nat, size: nat)
    requires k > 0
    ensures k * size >= size
  {
  }

  /** The quotient is the number of whole pieces. */
  lemma Quotient(x: nat, size: nat, n: nat)
    requires size > 0 && n * size <= x < n * size + size
    ensures x / size == n && x % size == x - n * size
  {
    var q, r := x / size, x % size;
    assert x == q * size + r;
    Distribute(n, q, size);
    Distribute(q, n, size);
    if n > q {
      AtLeastOnce(n - q, size);
    } else if q > n {
      AtLeastOnce(q - n, size);
    }
  }

  predicate Ascending(s: seq<nat>) {
    forall i, j :: 0 <= i < j < |s| ==> s[i] < s[j]
  }

  method Sorted(s: set<nat>) returns (r: seq<nat>)
    ensures Ascending(r) && |r| == |s|
    ensures forall x :: x in r <==> x in s
  {
    r := [];
    var rest := s;
    while rest != {}
      invariant rest <= s && Ascending(r) && |r| + |rest| == |s|
      invariant forall x :: x in r <==> x in s && x !in rest
      invariant forall x, y :: x in r && y in rest ==> x < y
      decreases rest
    {
      var least := Least(rest);
      assert forall i :: 0 <= i < |r| ==> r[i] in r;
      rest := rest - {least};
      r := r + [least];
    }
  }

  method Least(s: set<nat>) returns (least: nat)
    requires s != {}
    ensures least in s && forall x :: x in s ==> least <= x
  {
    least :| least in s;
    var rest := s - {least};
    while rest != {}
      invariant least in s && rest <= s
      invariant forall x :: x in s ==> x in rest || least <= x
      decreases rest
    {
      var x :| x in rest;
      if x < least {
        least := x;
      }
      rest := rest - {x};
    }
  }
}
