/** Plane vectors over exact reals and the integer helpers the simulation uses:
    truncating casts, `fmodf`, and clamping. Floating-point rounding is idealised away. */
module Geometry {

  /** An `ofVec2f` / the x-y part of an `ofPoint`. */
  datatype Vec2 = Vec2(x: real, y: real)

  const Zero: Vec2 := Vec2(0.0, 0.0)

  function Add(a: Vec2, b: Vec2): Vec2 { Vec2(a.x + b.x, a.y + b.y) }

  function Sub(a: Vec2, b: Vec2): Vec2 { Vec2(a.x - b.x, a.y - b.y) }

  function Scale(a: Vec2, k: real): Vec2 { Vec2(a.x * k, a.y * k) }

  function LengthSq(v: Vec2): (r: real)
    ensures r >= 0.0
  {
    SquareNonNegative(v.x);
    SquareNonNegative(v.y);
    v.x * v.x + v.y * v.y
  }

  /** `ofVec2f::lengthSquared` of the difference of two points. */
  function DistSq(a: Vec2, b: Vec2): real { LengthSq(Sub(a, b)) }

  /** `d` is the Euclidean length of `v`; the model has no square root, so a length is
      supplied from outside and tied to the squared length by this predicate. */
  predicate IsLength(d: real, v: Vec2) { d >= 0.0 && d * d == LengthSq(v) }

  lemma SquareNonNegative(r: real)
    ensures r * r >= 0.0
  {
    if r < 0.0 { assert r * r == (-r) * (-r); }
  }

  /** Multiplying by a positive factor keeps and reflects the order. */
  lemma MulMonotone(x: real, y: real, s: real)
    requires s > 0.0
    ensures x <= y <==> x * s <= y * s
    ensures x < y <==> x * s < y * s
  {
    assert y * s - x * s == (y - x) * s;
  }

  /** For a non-negative length `d` of `v`, comparing `d` with a bound is comparing
      the squared length with the squared bound. */
  lemma LengthBelow(d: real, v: Vec2, bound: real)
    requires IsLength(d, v) && bound > 0.0
    ensures d < bound <==> LengthSq(v) < bound * bound
  {
    SquareBelow(d, bound);
  }

  lemma SquareBelow(d: real, bound: real)
    requires d >= 0.0 && bound > 0.0
    ensures d < bound <==> d * d < bound * bound
  {
    if d < bound {
      if d == 0.0 {
        calc {
          d * d;
          0.0 * 0.0;
        <  { MulMonotone(0.0, bound, bound); }
          bound * bound;
        }
      } else {
        calc {
          d * d;
        <  { MulMonotone(d, bound, d); }
          bound * d;
        <  { MulMonotone(d, bound, bound); }
          bound * bound;
        }
      }
    } else {
      calc {
        bound * bound;
      <= { MulMonotone(bound, d, bound); }
        d * bound;
      <= { MulMonotone(bound, d, d); }
        d * d;
      }
    }
  }

  /** C++ conversion of a real to `int`: truncation toward zero. */
  function Trunc(r: real): (n: int)
    ensures r >= 0.0 ==> 0 <= n && n as real <= r < n as real + 1.0
    ensures r < 0.0 ==> n <= 0 && n as real - 1.0 < r <= n as real
  {
    if r >= 0.0 then r.Floor else -((-r).Floor)
  }

  /** C `fmodf(a, b)` for `b > 0`: `a - trunc(a / b) * b`, which keeps the sign of `a`. */
  function FMod(a: real, b: real): (r: real)
    requires b > 0.0
    ensures a >= 0.0 ==> 0.0 <= r < b
    ensures a < 0.0 ==> -b < r <= 0.0
    ensures 0.0 <= a < b ==> r == a
  {
    FModBounds(a, b);
    a - Trunc(a / b) as real * b
  }

  lemma FModBounds(a: real, b: real)
    requires b > 0.0
    ensures var r := a - Trunc(a / b) as real * b;
      (a >= 0.0 ==> 0.0 <= r < b) && (a < 0.0 ==> -b < r <= 0.0) && (0.0 <= a < b ==> r == a)
  {
    var q := a / b;
    QuotientSign(a, b);
    assert q * b == a;
    if a >= 0.0 {
      RemainderBelow(a, b, q, Trunc(q) as real);
    } else {
      RemainderAbove(a, b, q, Trunc(q) as real);
    }
    if 0.0 <= a < b {
      TruncOfFraction(q);
    }
  }

  lemma QuotientSign(a: real, b: real)
    requires b > 0.0
    ensures a >= 0.0 <==> a / b >= 0.0
    ensures a < b <==> a / b < 1.0
  {
    var q := a / b;
    assert q * b == a;
    MulMonotone(0.0, q, b);
    assert 0.0 * b == 0.0;
    assert 0.0 <= q <==> 0.0 <= a;
    MulMonotone(q, 1.0, b);
    assert 1.0 * b == b;
    assert q < 1.0 <==> a < b;
  }

  lemma RemainderBelow(a: real, b: real, q: real, t: real)
    requires b > 0.0 && q * b == a && t <= q < t + 1.0
    ensures 0.0 <= a - t * b < b
  {
    var u := t + 1.0;
    MulMonotone(t, q, b);
    MulMonotone(q, u, b);
    assert a < u * b;
    assert u * b == t * b + b;
  }

  lemma RemainderAbove(a: real, b: real, q: real, t: real)
    requires b > 0.0 && q * b == a && t - 1.0 < q <= t
    ensures -b < a - t * b <= 0.0
  {
    var u := t - 1.0;
    MulMonotone(u, q, b);
    MulMonotone(q, t, b);
    assert u * b < a;
    assert u * b == t * b - b;
  }

  lemma TruncOfFraction(q: real)
    requires 0.0 <= q < 1.0
    ensures Trunc(q) == 0
  {
    var n := Trunc(q);
    assert n as real <= q;
  }

  /** Bounds an index into `[lo, hi]`, the two `if`s the source writes around every
      computed grid index. */
  function Clamp(v: int, lo: int, hi: int): (r: int)
    requires lo <= hi
    ensures lo <= r <= hi
    ensures lo <= v <= hi ==> r == v
    ensures v < lo ==> r == lo
    ensures v > hi ==> r == hi
  {
    if v < lo then lo else if v > hi then hi else v
  }

  /** A coordinate and its velocity component after the screen-limit test the updates
      write as `if (c > hi) {c = hi; v *= -1} else if (c < lo) {c = lo; v *= -1}`, taken
      only when `active`. */
  datatype Bounced = Bounced(c: real, v: real)

  function Bounce(c: real, v: real, lo: real, hi: real, active: bool): (r: Bounced)
    ensures active && lo <= hi ==> lo <= r.c <= hi
    ensures !active || lo <= c <= hi ==> r == Bounced(c, v)
    ensures r.v == v || r.v == -v
  {
    if active && c > hi then Bounced(hi, -v)
    else if active && c < lo then Bounced(lo, -v)
    else Bounced(c, v)
  }
}
