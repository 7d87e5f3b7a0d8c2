/** The few `Math` operations of JavaScript that the scripts use, on exact reals. */
module JsMath {

  /** `Math.floor` on a real. */
  function Floor(x: real): (r: int)
    ensures r as real <= x < r as real + 1.0
  {
    x.Floor
  }

  /** `Math.ceil` on a real. */
  function Ceil(x: real): (r: int)
    ensures r as real - 1.0 < x <= r as real
  {
    -((-x).Floor)
  }

  /** `Math.round`: halves round towards +infinity (`Math.round(-2.5) == -2`). */
  function Round(x: real): (r: int)
    ensures x - 0.5 < r as real <= x + 0.5
  {
    (x + 0.5).Floor
  }

  function Max(a: int, b: int): (r: int)
    ensures r >= a && r >= b && (r == a || r == b)
  {
    if a >= b then a else b
  }

  function MinReal(a: real, b: real): (r: real)
    ensures r <= a && r <= b && (r == a || r == b)
  {
    if a <= b then a else b
  }

  function MaxReal(a: real, b: real): (r: real)
    ensures r >= a && r >= b && (r == a || r == b)
  {
    if a >= b then a else b
  }

  /** The smoothstep ease `t * t * (3 - 2 * t)` used for the takeover blend and the autopilot ramp. */
  function Smoothstep(t: real): real
  {
    t * t * (3.0 - 2.0 * t)
  }

  /** On [0, 1] the ease starts at 0, ends at 1 and never leaves [0, 1]. */
  lemma SmoothstepRange(t: real)
    requires 0.0 <= t <= 1.0
    ensures 0.0 <= Smoothstep(t) <= 1.0
    ensures t == 0.0 ==> Smoothstep(t) == 0.0
    ensures t == 1.0 ==> Smoothstep(t) == 1.0
  {
    assert 1.0 - Smoothstep(t) == ((1.0 - t) * (1.0 - t)) * (1.0 + 2.0 * t);
    MulNonNegative(1.0 - t, 1.0 - t);
    MulNonNegative((1.0 - t) * (1.0 - t), 1.0 + 2.0 * t);
    MulNonNegative(t, t);
    MulNonNegative(t * t, 3.0 - 2.0 * t);
  }

  lemma MulNonNegative(a: real, b: real)
    requires a >= 0.0 && b >= 0.0
    ensures a * b >= 0.0
  {
  }

  /** The ease is monotone on [0, 1]. */
  lemma SmoothstepMonotone(s: real, t: real)
    requires 0.0 <= s <= t <= 1.0
    ensures Smoothstep(s) <= Smoothstep(t)
  {
    // S(t) - S(s) = (t - s) * (3(t + s) - 2(t^2 + ts + s^2))
    assert Smoothstep(t) - Smoothstep(s)
        == (t - s) * (3.0 * (t + s) - 2.0 * (t * t + t * s + s * s));
    MulNonNegative(t, 1.0 - t);
    MulNonNegative(s, 1.0 - t);
    MulNonNegative(s, 1.0 - s);
    assert t * t <= t && t * s <= s && s * s <= s;
    MulNonNegative(t - s, 3.0 * (t + s) - 2.0 * (t * t + t * s + s * s));
    assert 3.0 * (t + s) - 2.0 * (t * t + t * s + s * s) >= 0.0;
  }
}
