/**
  The rotation `setCameraDisplayOrientation` computes from the display's
  rotation and the camera's mounting orientation, in Java `int` arithmetic.
 */
module DisplayOrientation {
  import opened JavaInt
  import CameraSelection

  /** `Surface.ROTATION_0` .. `Surface.ROTATION_270` */
  const Rotation0: int := 0
  const Rotation90: int := 1
  const Rotation180: int := 2
  const Rotation270: int := 3

  /** The display rotation in degrees; a code that is none of the four
      `Surface.ROTATION_*` constants leaves the initial 0. */
  function Degrees(displayRotation: Int32): (d: Int32)
    ensures d == 0 || d == 90 || d == 180 || d == 270
    ensures Rotation0 <= displayRotation <= Rotation270 ==> d == 90 * displayRotation
    ensures !(Rotation0 <= displayRotation <= Rotation270) ==> d == 0
  {
    if displayRotation == Rotation0 then 0
    else if displayRotation == Rotation90 then 90
    else if displayRotation == Rotation180 then 180
    else if displayRotation == Rotation270 then 270
    else 0
  }

  /** A front camera's image is mirrored: the rotation undoes orientation
      plus display rotation. */
  function FrontRotation(orientation: Int32, degrees: Int32): (r: Int32)
    ensures 0 <= orientation < 360 && 0 <= degrees < 360 ==>
              0 <= r < 360 && (r + (orientation + degrees) % 360) % 360 == 0
  {
    var turned := Rem(Add(orientation, degrees), 360);
    Rem(Sub(360, turned), 360)
  }

  /** A back camera's rotation is orientation minus display rotation. */
  function BackRotation(orientation: Int32, degrees: Int32): (r: Int32)
    ensures 0 <= orientation < 360 && 0 <= degrees < 360 ==>
              0 <= r < 360 && (r + degrees) % 360 == orientation
  {
    Rem(Add(Sub(orientation, degrees), 360), 360)
  }

  /** The rotation to apply to the camera image. For a mounting orientation
      in [0, 360) (which is what the platform reports), the result is an
      angle in [0, 360). */
  function FrameRotation(facing: Int32, orientation: Int32, displayRotation: Int32): (r: Int32)
    ensures 0 <= orientation < 360 ==> 0 <= r < 360
    ensures 0 <= orientation < 360 && facing == CameraSelection.FacingFront ==>
              (r + (orientation + Degrees(displayRotation)) % 360) % 360 == 0
    ensures 0 <= orientation < 360 && facing != CameraSelection.FacingFront ==>
              (r + Degrees(displayRotation)) % 360 == orientation
  {
    var degrees := Degrees(displayRotation);
    if facing == CameraSelection.FacingFront then FrontRotation(orientation, degrees)
    else BackRotation(orientation, degrees)
  }

  /** Java's truncating `%` agrees with the Euclidean one on the values the
      back-facing branch produces. */
  lemma BackRotationFormula(orientation: Int32, displayRotation: Int32)
    requires 0 <= orientation < 360
    ensures FrameRotation(CameraSelection.FacingBack, orientation, displayRotation)
            == (orientation - Degrees(displayRotation) + 360) % 360
  {
  }

  /** The front-facing branch as Euclidean arithmetic: the mirror of
      orientation plus display rotation. */
  lemma FrontRotationFormula(orientation: Int32, displayRotation: Int32)
    requires 0 <= orientation < 360
    ensures FrameRotation(CameraSelection.FacingFront, orientation, displayRotation)
            == (360 - (orientation + Degrees(displayRotation)) % 360) % 360
  {
  }

  /** For a negative mounting orientation the truncating `%` can make the
      back-facing rotation negative. */
  lemma NegativeOrientationGivesNegativeRotation()
    ensures FrameRotation(CameraSelection.FacingBack, -450, Rotation0) == -90
  {
  }
}
