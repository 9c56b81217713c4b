/** Maximum, division facts with a variable divisor, and how many spaced points fit in a span. */
module Arithmetic {

  function Max(a: int, b: int): int {
    if a >= b then a else b
  }

  lemma ProductGap(d: int, a: int, b: int)
    requires d > 0 && a > b
    ensures d * a >= d * b + d
  {
    var k := a - b - 1;
    assert d * a == d * b + d + d * k;
    assert d * k >= 0;
  }

  lemma QuotientIsUnique(d: int, x: int, q: int)
    requires d > 0 && d * q <= x < d * q + d
    ensures x / d == q && x % d == x - d * q
  {
    var p := x / d;
    assert d * p <= x < d * p + d;
    if p > q {
      ProductGap(d, p, q);
    } else if q > p {
      ProductGap(d, q, p);
    }
  }

  /** Remainders add up. */
  lemma ModSum(a: nat, b: nat, d: int)
    requires d > 0
    ensures (a % d + b % d) % d == (a + b) % d
  {
    var r := a % d + b % d;
    var q, k := a / d + b / d, r / d;
    assert a + b == d * q + r;
    assert d * (q + k) == d * q + d * k;
    QuotientIsUnique(d, a + b, q + k);
  }

  /** Counting one further either moves the remainder up or closes a group of d. */
  lemma NextQuotient(n: nat, d: int)
    requires d > 0
    ensures 0 <= n % d < d && n == d * (n / d) + n % d
    ensures n % d + 1 < d ==> (n + 1) / d == n / d && (n + 1) % d == n % d + 1
    ensures n % d + 1 == d ==> (n + 1) / d == n / d + 1 && (n + 1) % d == 0
  {
    var q := n / d;
    if n % d + 1 < d {
      QuotientIsUnique(d, n + 1, q);
    } else {
      assert d * (q + 1) == d * q + d;
      QuotientIsUnique(d, n + 1, q + 1);
    }
  }

  /** Most points, one interval or more apart, that a closed span can hold: one at its start, then one per interval. */
  function Capacity(interval: int, length: int): int
    requires interval > 0
    decreases if length < 0 then 0 else length + 1
  {
    if length < 0 then 0 else 1 + Capacity(interval, length - interval)
  }

  lemma {:induction false} CapacityIsMonotone(interval: int, a: int, b: int)
    requires interval > 0 && a <= b
    ensures 0 <= Capacity(interval, a) <= Capacity(interval, b)
    decreases if b < 0 then 0 else b + 1
  {
    if b >= 0 {
      CapacityIsMonotone(interval, if a < 0 then b - interval else a - interval, b - interval);
    }
  }

  lemma {:induction false} CapacityBounds(interval: int, length: int)
    requires interval > 0 && length >= 0
    ensures var q := Capacity(interval, length) - 1; interval * q <= length < interval * q + interval
    decreases length
  {
    if length >= interval {
      CapacityBounds(interval, length - interval);
      var q := Capacity(interval, length - interval) - 1;
      assert interval * (q + 1) == interval * q + interval;
    } else {
      assert Capacity(interval, length - interval) == 0;
    }
  }

  /** In closed form the capacity is floor(length / interval) + 1. */
  lemma CapacityIsQuotient(interval: int, length: int)
    requires interval > 0 && length >= 0
    ensures Capacity(interval, length) == length / interval + 1
  {
    CapacityBounds(interval, length);
    QuotientIsUnique(interval, length, Capacity(interval, length) - 1);
  }
}
