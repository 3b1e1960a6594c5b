/**
  Choosing a camera by the direction it faces (`setCamera`): the device's
  cameras are numbered from 0, and each reports the direction it faces.
 */
module CameraSelection {

  /** `Camera.CameraInfo.CAMERA_FACING_BACK` */
  const FacingBack: int := 0
  /** `Camera.CameraInfo.CAMERA_FACING_FRONT` */
  const FacingFront: int := 1

  datatype Option<T> = None | Some(value: T)

  /** True when no camera below index `n` faces `facing`. */
  ghost predicate NoneFacingBelow(facings: seq<int>, facing: int, n: int)
    requires n <= |facings|
  {
    forall j :: 0 <= j < n ==> facings[j] != facing
  }

  /** The smallest index whose camera faces `facing`, if there is one. */
  function FirstFacing(facings: seq<int>, facing: int): (r: Option<nat>)
    ensures r.Some? ==> r.value < |facings| && facings[r.value] == facing
    ensures r.Some? ==> NoneFacingBelow(facings, facing, r.value)
    ensures r.None? ==> NoneFacingBelow(facings, facing, |facings|)
  {
    if |facings| == 0 then None
    else if facings[0] == facing then Some(0)
    else match FirstFacing(facings[1..], facing)
      case None => None
      case Some(i) => Some(i + 1)
  }

  /** The camera id after `setCamera(facing)`: the first matching index, or
      the id it had before when no camera faces that way. */
  function SelectedCamera(facings: seq<int>, facing: int, cameraId: int): (id: int)
    ensures (exists i :: 0 <= i < |facings| && facings[i] == facing) ==>
              0 <= id < |facings| && facings[id] == facing && NoneFacingBelow(facings, facing, id)
    ensures (forall i :: 0 <= i < |facings| ==> facings[i] != facing) ==> id == cameraId
  {
    match FirstFacing(facings, facing)
    case None => cameraId
    case Some(i) => i
  }

  /** `setCamera`: scans the cameras in index order and stops at the first one
      facing `facing`; `facings[i]` is what `getCameraInfo(i)` reports. */
  method SetCamera(facings: seq<int>, facing: int, cameraId: int) returns (id: int)
    ensures id == SelectedCamera(facings, facing, cameraId)
    ensures (exists i :: 0 <= i < |facings| && facings[i] == facing) ==>
              0 <= id < |facings| && facings[id] == facing && NoneFacingBelow(facings, facing, id)
    ensures (forall i :: 0 <= i < |facings| ==> facings[i] != facing) ==> id == cameraId
  {
    id := cameraId;
    var i := 0;
    while i < |facings|
      invariant 0 <= i <= |facings|
      invariant NoneFacingBelow(facings, facing, i)
      invariant id == cameraId
    {
      if facings[i] == facing {
        id := i;
        FirstFacingIsFirst(facings, facing, i);
        return;
      }
      i := i + 1;
    }
    NoneFacingMeansNone(facings, facing);
  }

  /** An index that matches with no match below it is what `FirstFacing` finds. */
  lemma FirstFacingIsFirst(facings: seq<int>, facing: int, i: nat)
    requires i < |facings| && facings[i] == facing
    requires NoneFacingBelow(facings, facing, i)
    ensures FirstFacing(facings, facing) == Some(i)
  {
  }

  /** With no match anywhere, `FirstFacing` finds nothing. */
  lemma NoneFacingMeansNone(facings: seq<int>, facing: int)
    requires NoneFacingBelow(facings, facing, |facings|)
    ensures FirstFacing(facings, facing) == None
  {
  }
}
