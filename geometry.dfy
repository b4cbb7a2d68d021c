/** The angle step of the knee-angle computation (`calcular_angulo`): the raw
    difference of two polar angles, in degrees, is folded into the interior
    angle at the joint. The polar angles themselves (`arctan2`) are not part of
    this model; each lies in (-180, 180], so their difference lies in (-360, 360). */
module Geometry {

  function Abs(x: real): (r: real)
    ensures r >= 0.0
    ensures r == x || r == -x
  {
    if x < 0.0 then -x else x
  }

  /** Interior angle for a raw difference: the magnitude, reflected to
      `360 - magnitude` when it exceeds a half turn. */
  function NormalizeAngle(raw: real): (r: real)
    ensures -360.0 <= raw <= 360.0 ==> 0.0 <= r <= 180.0
    ensures r == Abs(raw) || r == 360.0 - Abs(raw)
    ensures r == Abs(raw) <==> Abs(raw) <= 180.0
  {
    var angle := Abs(raw);
    if angle > 180.0 then 360.0 - angle else angle
  }

  /** Swapping the two outer points negates the raw difference, so the angle
      at the vertex does not depend on the order of the outer points. */
  lemma NormalizeAngleSymmetric(raw: real)
    ensures NormalizeAngle(-raw) == NormalizeAngle(raw)
  {
  }

  /** Angles already in [0, 180] are left as they are. */
  lemma NormalizeAngleFixesInterior(x: real)
    requires 0.0 <= x <= 180.0
    ensures NormalizeAngle(x) == x
  {
  }

  /** Normalising twice is normalising once. */
  lemma NormalizeAngleIdempotent(raw: real)
    requires -360.0 <= raw <= 360.0
    ensures NormalizeAngle(NormalizeAngle(raw)) == NormalizeAngle(raw)
  {
    NormalizeAngleFixesInterior(NormalizeAngle(raw));
  }

  /** A rotation and its explement (the rest of the full turn) give the same
      interior angle. */
  lemma NormalizeAngleExplement(raw: real)
    requires 0.0 <= raw <= 360.0
    ensures NormalizeAngle(360.0 - raw) == NormalizeAngle(raw)
  {
  }
}
