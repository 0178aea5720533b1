/** Small value types and real arithmetic shared by the components. */
module Common {

  datatype Option<+T> = None | Some(value: T)

  datatype Result<+T, +E> = Ok(value: T) | Err(error: E)

  function Abs(x: real): real {
    if x < 0.0 then -x else x
  }

  function Min(x: real, y: real): real {
    if x < y then x else y
  }

  function Max(x: real, y: real): real {
    if x > y then x else y
  }

  /** `math.Round`: nearest integer, halves away from zero. */
  function RoundAway(x: real): int {
    if x >= 0.0 then (x + 0.5).Floor else -((0.5 - x).Floor)
  }

  /** `math.Round(x*k)`: the grid point a value rounds to, in steps of `1 / k`. */
  function GridIndex(x: real, k: nat): int {
    RoundAway(x * k as real)
  }

  /** `math.Round(x*k) / k`. */
  function RoundTo(x: real, k: nat): (r: real)
    requires k > 0
  {
    GridIndex(x, k) as real / k as real
  }

  /** Rounding moves a value by at most half a step. */
  lemma RoundToIsNear(x: real, k: nat)
    requires k > 0
    ensures -0.5 / k as real <= RoundTo(x, k) - x <= 0.5 / k as real
  {
    GridIndexIsNear(x, k);
    hide GridIndex;
    QuotientBounds(GridIndex(x, k) as real, x * k as real, k as real);
    MulDivCancel(x, k as real);
  }

  lemma GridIndexIsNear(x: real, k: nat)
    ensures -0.5 <= GridIndex(x, k) as real - x * k as real <= 0.5
  {
  }

  lemma QuotientBounds(n: real, y: real, k: real)
    requires k > 0.0 && -0.5 <= n - y <= 0.5
    ensures -0.5 / k <= n / k - y / k <= 0.5 / k
  {
    DivMonotone(-0.5, n - y, k);
    DivMonotone(n - y, 0.5, k);
  }

  lemma MulDivCancel(x: real, k: real)
    requires k != 0.0
    ensures x * k / k == x
  {
  }

  lemma DivMulCancel(x: real, k: real)
    requires k != 0.0
    ensures x / k * k == x
  {
  }

  lemma DivMonotone(a: real, b: real, k: real)
    requires k > 0.0 && a <= b
    ensures a / k <= b / k
  {
  }

  /** A quotient of a value by a bound on it. */
  lemma UnitQuotient(x: real, y: real)
    requires y > 0.0 && 0.0 <= x <= y
    ensures 0.0 <= x / y <= 1.0 && (x / y == 1.0 <==> x == y)
  {
    DivMonotone(0.0, x, y);
    DivMonotone(x, y, y);
    DivMulCancel(x, y);
  }

  /** A larger divisor gives a smaller quotient. */
  lemma DivAntitone(k: real, a: real, b: real)
    requires k >= 0.0 && 0.0 < a <= b
    ensures k / b <= k / a
  {
    var x := k / a;
    assert x * a == k;
    MulMonotone(a, b, x);
    DivMonotone(k, x * b, b);
    assert x * b / b == x;
  }

  lemma MulMonotone(a: real, b: real, k: real)
    requires k >= 0.0 && a <= b
    ensures a * k <= b * k
  {
  }
}

/** Sums over finite maps, as the source's loops over a Go map compute them. */
module MapSums {

  ghost function MapSum<K(!new)>(m: map<K, real>): real
    decreases |m|
  {
    if m == map[] then 0.0
    else
      var k :| k in m;
      m[k] + MapSum(m - {k})
  }

  /** The sum does not depend on the order in which keys are visited. */
  lemma {:induction false} MapSumRemove<K(!new)>(m: map<K, real>, k: K)
    requires k in m
    ensures MapSum(m) == m[k] + MapSum(m - {k})
    decreases |m|
  {
    var j :| j in m && MapSum(m) == m[j] + MapSum(m - {j});
    if j != k {
      MapSumRemove(m - {j}, k);
      MapSumRemove(m - {k}, j);
      assert m - {j} - {k} == m - {k} - {j};
    }
  }

  lemma MapSumInsert<K(!new)>(m: map<K, real>, k: K, v: real)
    ensures MapSum(m[k := v]) == MapSum(m) + v - (if k in m then m[k] else 0.0)
  {
    MapSumRemove(m[k := v], k);
    assert m[k := v] - {k} == m - {k};
    if k in m {
      MapSumRemove(m, k);
    } else {
      assert m - {k} == m;
    }
  }
}
