/** The distance clamp applied to the small ball while it is dragged in
    long-press mode: the ball follows the pointer offset (dx, dy) from its rest
    position, but never strays farther than MAX_DISTANCE from it.

    Coordinates are reals; `hypot(dx, dy)` is replaced by a value `dist` that
    the caller guarantees to be the exact Euclidean length (IsHypot). */
module ClampMath {

  function Min(a: real, b: real): real {
    if a <= b then a else b
  }

  /** `dist` is what hypot(dx, dy) computes, without rounding. */
  predicate IsHypot(dist: real, dx: real, dy: real) {
    dist >= 0.0 && dist * dist == dx * dx + dy * dy
  }

  /** The scale factor of the listener: 1 inside the reach, MAX_DISTANCE / dist
      beyond it. Scaling a vector of length `dist` by it gives a vector of
      length min(dist, MAX_DISTANCE). */
  function Ratio(dist: real, maxDistance: real): (r: real)
    requires maxDistance > 0.0
    ensures 0.0 < r <= 1.0
    ensures dist >= 0.0 ==> r * dist == Min(dist, maxDistance)
  {
    if dist > maxDistance then maxDistance / dist else 1.0
  }

  /** The ratio as the design notes write it, `min(1, MAX_DISTANCE / distance)`;
      it divides by the distance unconditionally, so it is only defined for a
      positive distance. */
  function RatioByMin(dist: real, maxDistance: real): real
    requires dist > 0.0
  {
    Min(1.0, maxDistance / dist)
  }

  /** The pointer offset (dx, dy) scaled by the ratio. */
  function Offset(dx: real, dy: real, dist: real, maxDistance: real): (real, real)
    requires maxDistance > 0.0
  {
    var ratio := Ratio(dist, maxDistance);
    (dx * ratio, dy * ratio)
  }

  /** Where the ball is put: its rest position plus the scaled pointer offset. */
  function Clamp(centerX: real, centerY: real, dx: real, dy: real, dist: real, maxDistance: real): (real, real)
    requires maxDistance > 0.0
  {
    var offset := Offset(dx, dy, dist, maxDistance);
    (centerX + offset.0, centerY + offset.1)
  }

  /** The listener's guarded ratio agrees with the design formula wherever the
      latter is defined, and a zero distance takes ratio 1 without dividing. */
  lemma RatioAgreesWithDesignFormula(dist: real, maxDistance: real)
    requires maxDistance > 0.0 && dist >= 0.0
    ensures dist > 0.0 ==> Ratio(dist, maxDistance) == RatioByMin(dist, maxDistance)
    ensures dist == 0.0 ==> Ratio(dist, maxDistance) == 1.0
  {
  }

  /** The ball ends exactly min(dist, MAX_DISTANCE) away from its rest
      position, so never farther than MAX_DISTANCE; within reach it sits
      exactly at the pointer offset. */
  lemma ClampWithinMaxDistance(centerX: real, centerY: real, dx: real, dy: real, dist: real, maxDistance: real)
    requires maxDistance > 0.0 && IsHypot(dist, dx, dy)
    ensures var p := Clamp(centerX, centerY, dx, dy, dist, maxDistance);
            var ox, oy := p.0 - centerX, p.1 - centerY;
            ox * ox + oy * oy == Min(dist, maxDistance) * Min(dist, maxDistance) &&
            ox * ox + oy * oy <= maxDistance * maxDistance &&
            (dist <= maxDistance ==> p == (centerX + dx, centerY + dy))
  {
  }

  /** Clamping only shortens the offset and keeps its direction: it stays
      parallel to (dx, dy), and on each axis it has the pointer offset's sign,
      is zero exactly when that is, and is no longer than it. */
  lemma ClampKeepsDirection(dx: real, dy: real, dist: real, maxDistance: real)
    requires maxDistance > 0.0
    ensures var o := Offset(dx, dy, dist, maxDistance);
            o.0 * dy == o.1 * dx &&
            (dx > 0.0 ==> 0.0 < o.0 <= dx) && (dx < 0.0 ==> dx <= o.0 < 0.0) && (dx == 0.0 ==> o.0 == 0.0) &&
            (dy > 0.0 ==> 0.0 < o.1 <= dy) && (dy < 0.0 ==> dy <= o.1 < 0.0) && (dy == 0.0 ==> o.1 == 0.0)
  {
    var r := Ratio(dist, maxDistance);
    ScaledAxis(dx, r);
    ScaledAxis(dy, r);
    assert (dx * r) * dy == (dy * r) * dx;
  }

  /** One axis of the offset, scaled by a factor in (0, 1]. */
  lemma ScaledAxis(d: real, r: real)
    requires 0.0 < r <= 1.0
    ensures d > 0.0 ==> 0.0 < d * r <= d
    ensures d < 0.0 ==> d <= d * r < 0.0
    ensures d == 0.0 ==> d * r == 0.0
  {
  }
}
