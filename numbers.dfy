/** The JavaScript number operations the core relies on, over exact reals.
    Floating-point rounding is not modelled: a JavaScript `number` is a `real`. */
module Numbers {
  import opened Wrappers

  function Max(a: real, b: real): (r: real)
    ensures r >= a && r >= b && (r == a || r == b)
  {
    if a >= b then a else b
  }

  function Min(a: real, b: real): (r: real)
    ensures r <= a && r <= b && (r == a || r == b)
  {
    if a <= b then a else b
  }

  function MinInt(a: int, b: int): (r: int)
    ensures r <= a && r <= b && (r == a || r == b)
  {
    if a <= b then a else b
  }

  function MaxInt(a: int, b: int): (r: int)
    ensures r >= a && r >= b && (r == a || r == b)
  {
    if a >= b then a else b
  }

  lemma MulLeInt(a: nat, b: nat, c: nat)
    requires a <= b
    ensures a * c <= b * c
  {
  }

  /** `Math.floor` */
  function Floor(x: real): (r: int)
    ensures r as real <= x < r as real + 1.0
  {
    x.Floor
  }

  /** `Math.ceil` */
  function Ceil(x: real): (r: int)
    ensures r as real - 1.0 < x <= r as real
  {
    -((-x).Floor)
  }

  /** `Math.trunc`: rounds toward zero. */
  function Trunc(x: real): (r: int)
    ensures x >= 0.0 ==> r == Floor(x)
    ensures x < 0.0 ==> r == Ceil(x)
  {
    if x >= 0.0 then Floor(x) else Ceil(x)
  }

  /** JavaScript's `%` on numbers: the remainder takes the sign of the dividend. */
  function JsRem(x: real, m: real): (r: real)
    requires m != 0.0
    ensures x >= 0.0 && m > 0.0 ==> 0.0 <= r < m
  {
    var q := Trunc(x / m) as real;
    ScaleBounds(x, m, q);
    x - m * q
  }

  lemma ScaleBounds(x: real, m: real, q: real)
    requires m != 0.0
    requires x >= 0.0 && m > 0.0 ==> q <= x / m < q + 1.0
    ensures x >= 0.0 && m > 0.0 ==> m * q <= x < m * q + m
  {
    if x >= 0.0 && m > 0.0 {
      var y := x / m;
      assert y * m == x;
      MulMonotone(q, y, m);
      MulStrictMonotone(y, q + 1.0, m);
      assert (q + 1.0) * m == q * m + m;
    }
  }

  lemma MulMonotone(a: real, b: real, c: real)
    requires c > 0.0 && a <= b
    ensures a * c <= b * c
  {
  }

  lemma MulStrictMonotone(a: real, b: real, c: real)
    requires c > 0.0 && a < b
    ensures a * c < b * c
  {
  }

  /** `a[i]` on a JavaScript array: `undefined` outside the array. */
  function At(a: seq<real>, i: int): (r: Option<real>)
    ensures r.Some? <==> 0 <= i < |a|
    ensures r.Some? ==> r.value == a[i]
  {
    if 0 <= i < |a| then Some(a[i]) else None
  }

  /** `x || d` on a number that may be `undefined`: `d` when `x` is missing or zero
      (the `NaN` case does not arise over reals). */
  function OrElse(x: Option<real>, d: real): (r: real)
    ensures r == d || (x.Some? && r == x.value && r != 0.0)
    ensures x.Some? && x.value != 0.0 ==> r == x.value
  {
    if x.Some? && x.value != 0.0 then x.value else d
  }

  lemma CeilMonotone(x: real, y: real)
    requires x <= y
    ensures Ceil(x) <= Ceil(y)
  {
  }

  /** The real quotient of two integers floors to their integer quotient. */
  lemma FloorOfQuotient(a: int, b: int)
    requires b > 0
    ensures Floor(a as real / b as real) == a / b
  {
    var q, r := a / b, a % b;
    assert a == q * b + r;
    assert (a as real) / (b as real) == q as real + (r as real) / (b as real);
    assert 0.0 <= (r as real) / (b as real) < 1.0;
  }

  /** On non-negative integers JavaScript's `%` is the ordinary remainder. */
  lemma JsRemOfNats(a: nat, b: int)
    requires b > 0
    ensures JsRem(a as real, b as real) == (a % b) as real
  {
    FloorOfQuotient(a, b);
    assert Trunc(a as real / b as real) == a / b;
    assert a == (a / b) * b + a % b;
  }
}
