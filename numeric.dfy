// Numeric helpers on Python floats (modelled as `real`): sums, minimum and
// maximum, `math.ceil`, `int()` truncation, clamping, and the stated axioms of
// the transcendental functions the pipeline calls.
module Numeric {

  /** `sum(s)` */
  function Sum(s: seq<real>): real
  {
    if s == [] then 0.0 else Sum(s[..|s| - 1]) + s[|s| - 1]
  }

  /** `sum(s)` over integers. */
  function SumInt(s: seq<int>): int
  {
    if s == [] then 0 else SumInt(s[..|s| - 1]) + s[|s| - 1]
  }

  /** A sum of non-negative reals is non-negative. */
  lemma {:induction false} SumNonNegative(s: seq<real>)
    requires forall i :: 0 <= i < |s| ==> s[i] >= 0.0
    ensures Sum(s) >= 0.0
  {
    if s != [] {
      SumNonNegative(s[..|s| - 1]);
    }
  }

  /** `min(s)` */
  function Min(s: seq<real>): (m: real)
    requires s != []
    ensures (exists i :: 0 <= i < |s| && s[i] == m) && forall i :: 0 <= i < |s| ==> m <= s[i]
  {
    if |s| == 1 then s[0]
    else
      var m := Min(s[..|s| - 1]);
      assert forall i :: 0 <= i < |s| - 1 ==> s[..|s| - 1][i] == s[i];
      if s[|s| - 1] < m then s[|s| - 1] else m
  }

  /** `max(s)` */
  function Max(s: seq<real>): (m: real)
    requires s != []
    ensures (exists i :: 0 <= i < |s| && s[i] == m) && forall i :: 0 <= i < |s| ==> s[i] <= m
  {
    if |s| == 1 then s[0]
    else
      var m := Max(s[..|s| - 1]);
      assert forall i :: 0 <= i < |s| - 1 ==> s[..|s| - 1][i] == s[i];
      if s[|s| - 1] > m then s[|s| - 1] else m
  }

  /** `n·lo <= t <= n·hi` with `n > 0` puts `t/n` in `[lo, hi]`. */
  lemma QuotientWithin(t: real, n: real, lo: real, hi: real)
    requires n > 0.0 && n * lo <= t <= n * hi
    ensures lo <= t / n <= hi
  {
    var m := t / n;
    assert n * (m - lo) == t - n * lo;
    assert n * (hi - m) == n * hi - t;
  }

  /** A fraction in [0, 1] of a non-negative amount lies between 0 and it. */
  lemma ScaleWithin(x: real, a: real)
    requires 0.0 <= x <= 1.0 && 0.0 <= a
    ensures 0.0 <= x * a <= a
  {
    assert a - x * a == (1.0 - x) * a;
  }

  function MaxReal(a: real, b: real): real { if a >= b then a else b }
  function MinReal(a: real, b: real): real { if a <= b then a else b }
  function MaxInt(a: int, b: int): int { if a >= b then a else b }
  function MinInt(a: int, b: int): int { if a <= b then a else b }

  /** `max(lo, min(hi, x))` */
  function Clamp(x: real, lo: real, hi: real): (r: real)
    requires lo <= hi
    ensures lo <= r <= hi
    ensures lo <= x <= hi ==> r == x
    ensures x < lo ==> r == lo
    ensures x > hi ==> r == hi
  {
    MaxReal(lo, MinReal(hi, x))
  }

  /** Clamping keeps the order of its inputs. */
  lemma ClampMono(x: real, y: real, lo: real, hi: real)
    requires lo <= hi && x <= y
    ensures Clamp(x, lo, hi) <= Clamp(y, lo, hi)
  {
  }

  /** `math.ceil(x)` */
  function Ceil(x: real): (r: int)
    ensures x <= r as real < x + 1.0
  {
    -((-x).Floor)
  }

  /** `int(x)` for a float: truncation toward zero. */
  function Trunc(x: real): (r: int)
    ensures x >= 0.0 ==> r as real <= x < r as real + 1.0
    ensures x < 0.0 ==> r as real - 1.0 < x <= r as real
  {
    if x >= 0.0 then x.Floor else -((-x).Floor)
  }

  /** `math.log(2)` as the double the source computes with. */
  const LN2: real := 0.6931471805599453

  /** The properties of `math.exp` the model relies on. */
  ghost predicate IsExp(exp: real -> real)
  {
    exp(0.0) == 1.0
    && (forall x :: exp(x) > 0.0)
    && (forall x, y :: x <= y ==> exp(x) <= exp(y))
  }

  /** `math.sqrt` on non-negative arguments. */
  ghost predicate IsSqrt(sqrt: real -> real)
  {
    forall x :: x >= 0.0 ==> sqrt(x) >= 0.0 && sqrt(x) * sqrt(x) == x
  }

  /** `exp(-ln 2 * age / half_life)`: the exponential decay with a half-life. */
  function Decay(exp: real -> real, age: real, halfLife: real): real
    requires halfLife > 0.0
  {
    exp(-LN2 * age / halfLife)
  }

  /** For a non-negative age the decay lies in (0, 1]. */
  lemma DecayBounds(exp: real -> real, age: real, halfLife: real)
    requires IsExp(exp) && halfLife > 0.0 && age >= 0.0
    ensures 0.0 < Decay(exp, age, halfLife) <= 1.0
  {
    assert -LN2 * age / halfLife <= 0.0;
  }
}
