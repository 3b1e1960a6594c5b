# CameraDelegate lifecycle model

A Dafny model of libstreaming's `CameraDelegate`. This class owns the Android
camera for a preview session. It opens, configures, previews, relocks and
releases the camera, and it applies the flash setting. It answers the
surface-holder callbacks and the camera's error callback, and it fans preview
frames out to registered `FrameListener`s. Two pure computations from the
same class are modelled as well:
- `setCamera`: find the first camera facing a given way;
- `setCameraDisplayOrientation`: compute the rotation from display rotation
  and mounting orientation.

The delegate's fields become an immutable record `Delegate`, in three parts:
- `CameraState`: whether `mCamera` is held, whether a frame callback is
  registered, and `mPreviewStarted`, `mUpdated`, `mUnlocked`, `mQuality`;
- `Requests`: `mCameraOpenedManually`, `startRequested`, `mFlashEnabled`;
- `Environment`: the surface view, `mSurfaceReady`, the listener list and
  `mCameraId`.

The Android camera is an oracle. A `Device` value fixes how each platform call
of one operation answers: does `Camera.open` succeed, does each
`setParameters` / `setPreviewDisplay` / `startPreview` throw, does the
camera report a flash mode, and which size the quality negotiation picks.
Each operation is a function that returns a `Step`:
- the state it leaves behind;
- the platform calls and listener notifications it made, in order (`Event`);
- whether it returned normally or threw (`Completion`).

Java has no rollback, so a thrown step carries the state reached at the throw.

Files:
- `camera_delegate.dfy` (module `CameraDelegate`): the state and every
  lifecycle operation, each with its contract;
- `listeners.dfy` (`Listeners`): the `ArrayList` of listeners;
- `camera_selection.dfy` (`CameraSelection`): `setCamera`;
- `java_int.dfy` (`JavaInt`): Java 32-bit `int` addition and subtraction,
  which wrap, and `%`, which truncates;
- `display_orientation.dfy` (`DisplayOrientation`):
  `setCameraDisplayOrientation`'s arithmetic;
- `lifecycle.dfy` (`Lifecycle`): arbitrary sequences of the lifecycle calls
  and callbacks (every public and protected operation except a direct
  `openCamera`, which can leak a held camera). It proves that
  the flags stay `Consistent`, and that cameras are accounted for: opens minus
  releases always equals the number of cameras held;
- `scenarios.dfy` (`Scenarios`): short call sequences whose outcome the code
  fixes.

Some of what the code does is easy to misread; the model follows the code
(`CameraDelegate.java`, lines as cited):
- `surfaceCreated` (484-488) never looks at `startRequested`, which
  `startPreview` (154-156) and `createCamera` (238-240) set. It restarts the preview
  only when a camera is already held, so a start that was deferred for want
  of a surface is not resumed when the surface arrives.
- `setFlashState` (392-423) does not relock the camera after writing the flash mode.
  Its `finally` calls `unlockCamera`, so the camera ends unlocked on both the
  success and the failure path. When there is no flash mode, it throws after
  `lockCamera` and before the `try`, so the camera ends locked.
- The SERVER_DIED error callback (253-258) only clears `mCameraOpenedManually` and
  stops. No listener hears `onCameraStarted(false, …)`. A failed
  `Camera.open` does not notify listeners either; the exception goes to the
  caller.
- `stop` (166-185) leaves the frame-callback unregistration commented out. The model
  drops the callback only because the camera it was registered on is
  released.
- `stopPreview` (142-145) on an idle delegate still clears `mCameraOpenedManually`.
- `updateCamera` asks the view for its aspect ratio (331) before its `try`,
  so with no view it throws a `NullPointerException` after every listener
  heard the size, and the camera stays held and unconfigured.
- `destroyCamera` (296-310) does not reset `mUpdated`. A later `createCamera` resets it
  when it opens a fresh camera.

## Model

| member | source | states |
|---|---|---|
| JavaInt.Wrap | libstreaming/src/main/java/net/majorkernelpanic/streaming/CameraDelegate.java:525-536 | a Java `int` result equals the exact value when in range and is congruent to it modulo 2^32 otherwise |
| JavaInt.Add | libstreaming/src/main/java/net/majorkernelpanic/streaming/CameraDelegate.java:525 | Java `+` on `int` is exact when the sum fits and wraps modulo 2^32 otherwise |
| JavaInt.Sub | libstreaming/src/main/java/net/majorkernelpanic/streaming/CameraDelegate.java:532-536 | Java `-` on `int` is exact when the difference fits and wraps modulo 2^32 otherwise |
| JavaInt.Rem | libstreaming/src/main/java/net/majorkernelpanic/streaming/CameraDelegate.java:525-536 | Java `%` by a positive divisor: what truncating division leaves over, in [0, b) for a non-negative dividend and in (-b, 0] for a negative one |
| CameraSelection.FirstFacing | libstreaming/src/main/java/net/majorkernelpanic/streaming/CameraDelegate.java:190-196 | the index found faces the requested way and no lower index does; when none is found no camera faces that way |
| CameraSelection.SelectedCamera | libstreaming/src/main/java/net/majorkernelpanic/streaming/CameraDelegate.java:187-197 | when some camera faces the requested way the id becomes the smallest such index; otherwise the id is kept |
| CameraSelection.SetCamera | libstreaming/src/main/java/net/majorkernelpanic/streaming/CameraDelegate.java:187-197 | the loop ends on the smallest matching index if any camera matches and leaves the camera id unchanged otherwise, which agrees with `FirstFacing` |
| DisplayOrientation.Degrees | libstreaming/src/main/java/net/majorkernelpanic/streaming/CameraDelegate.java:504-518 | ROTATION_0/90/180/270 map to 0/90/180/270 and every other code to 0 |
| DisplayOrientation.FrontRotation | libstreaming/src/main/java/net/majorkernelpanic/streaming/CameraDelegate.java:522-532 | for orientation and display degrees in [0, 360), the front rotation is in [0, 360) and cancels orientation plus display degrees modulo 360 |
| DisplayOrientation.BackRotation | libstreaming/src/main/java/net/majorkernelpanic/streaming/CameraDelegate.java:533-536 | for orientation and display degrees in [0, 360), the back rotation is in [0, 360), and adding the display degrees back gives the orientation modulo 360 |
| DisplayOrientation.FrameRotation | libstreaming/src/main/java/net/majorkernelpanic/streaming/CameraDelegate.java:520-536 | for a mounting orientation in [0, 360) the rotation is in [0, 360); a front camera's rotation cancels orientation plus display rotation modulo 360, and a back camera's rotation plus the display rotation gives the orientation back |
| DisplayOrientation.BackRotationFormula | libstreaming/src/main/java/net/majorkernelpanic/streaming/CameraDelegate.java:536 | the back-facing branch equals the Euclidean `(orientation - degrees + 360) mod 360` |
| DisplayOrientation.FrontRotationFormula | libstreaming/src/main/java/net/majorkernelpanic/streaming/CameraDelegate.java:525-532 | the front-facing branch equals the Euclidean `(360 - (orientation + degrees) mod 360) mod 360` |
| DisplayOrientation.NegativeOrientationGivesNegativeRotation | libstreaming/src/main/java/net/majorkernelpanic/streaming/CameraDelegate.java:536 | outside [0, 360) the truncating `%` can give a negative rotation: orientation -450 on the back camera at display rotation 0 gives -90 |
| Listeners.Add | libstreaming/src/main/java/net/majorkernelpanic/streaming/CameraDelegate.java:76-77 | the listener is appended: the old list is a prefix, the new one is last, and the multiset grows by exactly that listener |
| Listeners.Remove | libstreaming/src/main/java/net/majorkernelpanic/streaming/CameraDelegate.java:89-91 | a listener not in the list leaves it unchanged; a listener in it shortens it by one |
| Listeners.RemoveTakesOne | libstreaming/src/main/java/net/majorkernelpanic/streaming/CameraDelegate.java:89-91 | removal takes out exactly one occurrence of the listener, if there is one, and nothing else |
| Listeners.RemoveDeletesFirst | libstreaming/src/main/java/net/majorkernelpanic/streaming/CameraDelegate.java:89-91 | the occurrence removed is the first one, and the others keep their order |
| Listeners.RemoveUndoesAdd | libstreaming/src/main/java/net/majorkernelpanic/streaming/CameraDelegate.java:76-91 | adding and then removing a listener that was not registered restores the list |
| Listeners.RemoveAfterAddDropsOlder | libstreaming/src/main/java/net/majorkernelpanic/streaming/CameraDelegate.java:76-91 | adding and then removing an already registered listener drops the older registration, so the members are kept but not their order |
| CameraDelegate.Initial | libstreaming/src/main/java/net/majorkernelpanic/streaming/CameraDelegate.java:42-66 | a new delegate holds no camera, is not previewing, configured or unlocked, wants a camera (`mCameraOpenedManually` is true), has no pending start, flash off, no view, surface not ready, no listeners and camera id 0, and is consistent |
| CameraDelegate.NotifyStarted | libstreaming/src/main/java/net/majorkernelpanic/streaming/CameraDelegate.java:216-218 | every listener hears `onCameraStarted(true, null)` once, in registration order |
| CameraDelegate.NotifySize | libstreaming/src/main/java/net/majorkernelpanic/streaming/CameraDelegate.java:324-326 | every listener hears the negotiated size once, in registration order |
| CameraDelegate.NotifyFrame | libstreaming/src/main/java/net/majorkernelpanic/streaming/CameraDelegate.java:345-352 | every listener receives the frame once, in registration order, with the current size |
| CameraDelegate.Lock | libstreaming/src/main/java/net/majorkernelpanic/streaming/CameraDelegate.java:368-378 | afterwards the camera is locked and nothing else has changed; an already locked camera is left alone with no platform call; a failing `reconnect` is swallowed |
| CameraDelegate.Unlock | libstreaming/src/main/java/net/majorkernelpanic/streaming/CameraDelegate.java:380-390 | afterwards the camera is unlocked and nothing else has changed; an already unlocked camera is left alone with no platform call; a failing `unlock` is swallowed |
| CameraDelegate.DestroyCamera | libstreaming/src/main/java/net/majorkernelpanic/streaming/CameraDelegate.java:296-310 | with no camera nothing happens; otherwise the camera is released exactly once and is gone, locked, not previewing and without a callback, while `mUpdated`, the quality, the requests and the environment are untouched |
| CameraDelegate.Stop | libstreaming/src/main/java/net/majorkernelpanic/streaming/CameraDelegate.java:166-185 | afterwards no camera is held; with none held it is a no-op, and otherwise it is `destroyCamera` |
| CameraDelegate.StopPreview | libstreaming/src/main/java/net/majorkernelpanic/streaming/CameraDelegate.java:142-145 | afterwards no camera is held or wanted; only `mCameraOpenedManually` changes among the requests, and the environment and `mUpdated` are untouched |
| CameraDelegate.OnError | libstreaming/src/main/java/net/majorkernelpanic/streaming/CameraDelegate.java:248-263 | SERVER_DIED acts exactly as `stopPreview`; every other error code changes nothing |
| CameraDelegate.OpenCamera | libstreaming/src/main/java/net/majorkernelpanic/streaming/CameraDelegate.java:205-231 | on success one camera is opened, it has no frame callback yet, and then every listener hears `onCameraStarted(true, null)`; on failure nothing changes and CameraInUse is thrown |
| CameraDelegate.Abort | libstreaming/src/main/java/net/majorkernelpanic/streaming/CameraDelegate.java:288-291 | a `catch` block's teardown of a held camera: afterwards no camera is held, previewing or called back and it is locked, `mUpdated`, the requests and the environment are kept, what already happened stays a prefix of the events, and the failure propagates |
| CameraDelegate.AbortCounts | libstreaming/src/main/java/net/majorkernelpanic/streaming/CameraDelegate.java:288-291 | that teardown opens nothing and releases the camera exactly once |
| CameraDelegate.Configure | libstreaming/src/main/java/net/majorkernelpanic/streaming/CameraDelegate.java:246-293 | `mUpdated` and `mUnlocked` are reset on every path, success or failure; the flash setting is written when the camera has a flash mode and accepts the parameters; rejected settings throw SettingsRejected and a rejected display throws InvalidSurface, and either leaves no camera held; the requests and environment are kept |
| CameraDelegate.CreateCamera | libstreaming/src/main/java/net/majorkernelpanic/streaming/CameraDelegate.java:235-294 | a null view throws InvalidSurface; an unusable surface only records a pending start; a held camera is not reopened; otherwise one camera is opened and configured, and any failure after opening leaves no camera held |
| CameraDelegate.UpdateCamera | libstreaming/src/main/java/net/majorkernelpanic/streaming/CameraDelegate.java:312-366 | a configured camera is left alone; otherwise every listener hears the negotiated size first; with no view the aspect-ratio request throws NullSurfaceView with the camera still held, unconfigured and not previewing; with a view, success leaves it previewing and configured and only then registers the callback, RuntimeExceptions release the camera and propagate, and an IOException releases it and is swallowed |
| CameraDelegate.StartPreview | libstreaming/src/main/java/net/majorkernelpanic/streaming/CameraDelegate.java:147-161 | the camera is always wanted afterwards; while previewing it is a no-op; a null view throws; an unusable surface defers with no platform call; on a cooperative platform it ends previewing |
| CameraDelegate.SetFlashState | libstreaming/src/main/java/net/majorkernelpanic/streaming/CameraDelegate.java:392-423 | with no camera only the setting is recorded; without a flash mode it throws with the camera relocked and the setting kept; otherwise the camera ends unlocked, an accepted write records the new setting, and a rejected one turns the setting off and throws |
| CameraDelegate.AddListener | libstreaming/src/main/java/net/majorkernelpanic/streaming/CameraDelegate.java:76-87 | the listener is appended and the rest of the environment (view, readiness, camera id) is kept; when a camera is held the frame callback is (re)registered on it, and no other camera flag or request changes |
| CameraDelegate.RemoveListener | libstreaming/src/main/java/net/majorkernelpanic/streaming/CameraDelegate.java:89-91 | only the listener list changes, with no platform call; removing an unregistered listener changes nothing |
| CameraDelegate.PreviewFrame | libstreaming/src/main/java/net/majorkernelpanic/streaming/CameraDelegate.java:345-352 | frames reach the listeners only while previewing with the callback registered, and then every listener gets each frame in order |
| CameraDelegate.SetSurfaceView | libstreaming/src/main/java/net/majorkernelpanic/streaming/CameraDelegate.java:469-498 | only the view changes: readiness is left to the holder callbacks, and the listeners, camera id, camera flags and requests are kept, with no platform call |
| CameraDelegate.SurfaceCreated | libstreaming/src/main/java/net/majorkernelpanic/streaming/CameraDelegate.java:484-488 | the surface becomes ready; `startPreview` runs only if a camera is held, and a pending start is ignored |
| CameraDelegate.SurfaceDestroyed | libstreaming/src/main/java/net/majorkernelpanic/streaming/CameraDelegate.java:477-481 | the surface becomes not ready, and then the delegate stops as `stopPreview` does |
| CameraDelegate.SetCamera | libstreaming/src/main/java/net/majorkernelpanic/streaming/CameraDelegate.java:187-197 | `setCamera` on the delegate changes only the camera id: to the smallest index facing the requested way when there is one, and not at all otherwise |
| CameraDelegate.Opposite | libstreaming/src/main/java/net/majorkernelpanic/streaming/CameraDelegate.java:131 | BACK flips to FRONT and every other code, FRONT included, flips to BACK; the result never equals its input |
| CameraDelegate.SwitchedId | libstreaming/src/main/java/net/majorkernelpanic/streaming/CameraDelegate.java:131-132 | as written: the id is read as a facing code and flipped; the result is the first camera facing the flipped code when one exists, and the flipped code itself otherwise |
| CameraDelegate.OppositeCamera | libstreaming/src/main/java/net/majorkernelpanic/streaming/CameraDelegate.java:127-136 | as switching evidently means: the first camera facing away from the current camera, which is a different camera, or the current id when no camera faces away |
| CameraDelegate.SwitchedIdAgreesWhenIdsAreFacings | libstreaming/src/main/java/net/majorkernelpanic/streaming/CameraDelegate.java:131-132 | when camera ids coincide with facing codes (back 0, front 1) the written and the intended switch pick the same camera |
| CameraDelegate.SwitchedIdReselectsFrontCamera | libstreaming/src/main/java/net/majorkernelpanic/streaming/CameraDelegate.java:131-132 | with the front camera at id 0 and the back camera at id 1, switching from id 0 as written reselects camera 0, where the intended switch picks camera 1 |
| CameraDelegate.SwitchCamera | libstreaming/src/main/java/net/majorkernelpanic/streaming/CameraDelegate.java:127-136 | a one-camera device throws; otherwise the delegate moves to the camera id the source computes (`SwitchedId`, which can be the current camera again, see Findings), turns the flash setting off, and is left stopped unless a requested preview was running, in which case the camera is wanted again |
| Lifecycle.DestroyKeepsConsistent | libstreaming/src/main/java/net/majorkernelpanic/streaming/CameraDelegate.java:296-310 | `destroyCamera` keeps the flags consistent |
| Lifecycle.CreateKeepsConsistent | libstreaming/src/main/java/net/majorkernelpanic/streaming/CameraDelegate.java:235-294 | `createCamera` keeps the flags consistent, whatever the platform answers |
| Lifecycle.UpdateKeepsConsistent | libstreaming/src/main/java/net/majorkernelpanic/streaming/CameraDelegate.java:312-366 | `updateCamera` keeps the flags consistent, whatever the platform answers |
| Lifecycle.StartKeepsConsistent | libstreaming/src/main/java/net/majorkernelpanic/streaming/CameraDelegate.java:147-161 | `startPreview` keeps the flags consistent, whatever the platform answers |
| Lifecycle.SwitchKeepsConsistent | libstreaming/src/main/java/net/majorkernelpanic/streaming/CameraDelegate.java:127-136 | `switchCamera` keeps the flags consistent, whatever the platform answers |
| Lifecycle.ApplyKeepsConsistent | libstreaming/src/main/java/net/majorkernelpanic/streaming/CameraDelegate.java:76-498 | every call in `Call` (all lifecycle operations and callbacks except a direct `openCamera`) keeps consistency: a running preview has a camera, is configured and has its callback; a configured held camera is previewing; a callback needs a camera |
| Lifecycle.RunKeepsConsistent | libstreaming/src/main/java/net/majorkernelpanic/streaming/CameraDelegate.java:76-498 | any sequence of calls in `Call`, with any platform answers and with exceptions caught, keeps consistency |
| Lifecycle.CountsAdd | libstreaming/src/main/java/net/majorkernelpanic/streaming/CameraDelegate.java:215-301 | opens and releases over consecutive stretches of activity add up |
| Lifecycle.BalancedThen | libstreaming/src/main/java/net/majorkernelpanic/streaming/CameraDelegate.java:158-159 | two steps in a row that each account for their cameras account for them together |
| Lifecycle.LockBalanced | libstreaming/src/main/java/net/majorkernelpanic/streaming/CameraDelegate.java:368-390 | locking and unlocking neither open nor release a camera |
| Lifecycle.DestroyBalanced | libstreaming/src/main/java/net/majorkernelpanic/streaming/CameraDelegate.java:296-310 | `destroyCamera` releases exactly the camera it drops |
| Lifecycle.StopPreviewBalanced | libstreaming/src/main/java/net/majorkernelpanic/streaming/CameraDelegate.java:142-185 | `stop` and `stopPreview` release exactly the camera they drop |
| Lifecycle.ErrorBalanced | libstreaming/src/main/java/net/majorkernelpanic/streaming/CameraDelegate.java:248-263 | the error callback releases exactly the camera it drops |
| Lifecycle.PassiveBalanced | libstreaming/src/main/java/net/majorkernelpanic/streaming/CameraDelegate.java:76-498 | adding or removing a listener, setting a view or a camera id and delivering a frame neither open nor release a camera |
| Lifecycle.ConfigureCounts | libstreaming/src/main/java/net/majorkernelpanic/streaming/CameraDelegate.java:265-291 | configuration opens nothing and releases the camera exactly when it fails |
| Lifecycle.CreateBalanced | libstreaming/src/main/java/net/majorkernelpanic/streaming/CameraDelegate.java:235-294 | `createCamera` opens at most one camera and releases it on failure, so the camera count changes by what it opened and kept |
| Lifecycle.UpdateBalanced | libstreaming/src/main/java/net/majorkernelpanic/streaming/CameraDelegate.java:312-366 | `updateCamera` opens nothing and releases exactly the camera it drops on failure |
| Lifecycle.StartBalanced | libstreaming/src/main/java/net/majorkernelpanic/streaming/CameraDelegate.java:147-161 | `startPreview` accounts for every camera it opens |
| Lifecycle.FlashBalanced | libstreaming/src/main/java/net/majorkernelpanic/streaming/CameraDelegate.java:392-423 | `setFlashState` neither opens nor releases a camera |
| Lifecycle.SwitchBalanced | libstreaming/src/main/java/net/majorkernelpanic/streaming/CameraDelegate.java:127-136 | `switchCamera` releases the old camera and accounts for the one it opens |
| Lifecycle.ActiveBalanced | libstreaming/src/main/java/net/majorkernelpanic/streaming/CameraDelegate.java:127-366 | each call that can open a camera (`startPreview`, `createCamera`, `updateCamera`, `surfaceCreated`, `switchCamera`) accounts for its cameras |
| Lifecycle.RoutineBalanced | libstreaming/src/main/java/net/majorkernelpanic/streaming/CameraDelegate.java:142-498 | each other call accounts for its cameras |
| Lifecycle.ApplyBalanced | libstreaming/src/main/java/net/majorkernelpanic/streaming/CameraDelegate.java:76-498 | in any state, every call in `Call` has opens minus releases equal to the change in cameras held |
| Lifecycle.RunBalanced | libstreaming/src/main/java/net/majorkernelpanic/streaming/CameraDelegate.java:76-498 | over any sequence of calls in `Call`, opens minus releases equals the change in cameras held |
| Lifecycle.FromInitial | libstreaming/src/main/java/net/majorkernelpanic/streaming/CameraDelegate.java:46-66 | from a new delegate, whatever calls in `Call` are made: the flags stay consistent, no release happens without an open, at most one camera is open at a time, and one is open exactly when the delegate holds it |
| Lifecycle.StopPreviewReleasesAll | libstreaming/src/main/java/net/majorkernelpanic/streaming/CameraDelegate.java:142-145 | any sequence of calls in `Call` ending with `stopPreview` has released every camera it opened, so no camera leaks |
| Lifecycle.RunLast | libstreaming/src/main/java/net/majorkernelpanic/streaming/CameraDelegate.java:142-145 | a final call continues from the state the earlier calls left |
| Lifecycle.OpenCameraWhileHeldLeaks | libstreaming/src/main/java/net/majorkernelpanic/streaming/CameraDelegate.java:205-231 | a direct `openCamera` on a held camera opens a second one without releasing the first, so the step is not balanced, and on a previewing camera the flags are no longer consistent |
| Scenarios.LockIdempotent | libstreaming/src/main/java/net/majorkernelpanic/streaming/CameraDelegate.java:368-390 | a second lock (or unlock) in a row is a no-op with no platform call |
| Scenarios.LockUnlockInverse | libstreaming/src/main/java/net/majorkernelpanic/streaming/CameraDelegate.java:368-390 | lock after unlock is the same as lock alone and vice versa; starting from the target mode the pair restores the state |
| Scenarios.DeferredStartThenSurfaceDestroyed | libstreaming/src/main/java/net/majorkernelpanic/streaming/CameraDelegate.java:152-157 | a start deferred for want of a surface opens nothing, and a following `surfaceDestroyed` stops cleanly without opening |
| Scenarios.DeferredStartNotResumed | libstreaming/src/main/java/net/majorkernelpanic/streaming/CameraDelegate.java:484-488 | with no camera held, `surfaceCreated` after a deferred start opens nothing although the start is pending and the surface is usable |
| Scenarios.SurfaceCreatedRestartsHeldCamera | libstreaming/src/main/java/net/majorkernelpanic/streaming/CameraDelegate.java:484-488 | with a camera held, `surfaceCreated` restarts the preview on a cooperative platform without opening another camera |
| Scenarios.CreateTrace | libstreaming/src/main/java/net/majorkernelpanic/streaming/CameraDelegate.java:244-293 | `createCamera` with no camera held on a cooperative platform opens one camera, tells every listener, writes the flash setting when there is a flash mode, and leaves the camera held but unconfigured |
| Scenarios.UpdateTrace | libstreaming/src/main/java/net/majorkernelpanic/streaming/CameraDelegate.java:315-352 | `updateCamera` on an unconfigured camera with a view and a cooperative platform announces the size to every listener, then registers the callback, and leaves the camera previewing at the negotiated size |
| Scenarios.StartComposes | libstreaming/src/main/java/net/majorkernelpanic/streaming/CameraDelegate.java:153-160 | past its guards, `startPreview` is `createCamera` followed by `updateCamera` |
| Scenarios.ColdStartTrace | libstreaming/src/main/java/net/majorkernelpanic/streaming/CameraDelegate.java:147-366 | a cold start on a cooperative platform happens in this order: open; every `onCameraStarted`; the flash write; every `onFrameSizeSelected`; then the callback registration |
| Scenarios.StopPreviewTwice | libstreaming/src/main/java/net/majorkernelpanic/streaming/CameraDelegate.java:142-185 | a second `stopPreview` does nothing; the two together release a held camera once |
| Scenarios.ServerDiedThenRestart | libstreaming/src/main/java/net/majorkernelpanic/streaming/CameraDelegate.java:248-263 | after SERVER_DIED the camera is released and unwanted, with `mUpdated` still set; a later start on a cooperative platform opens one new camera and previews |
| Scenarios.OtherErrorsIgnored | libstreaming/src/main/java/net/majorkernelpanic/streaming/CameraDelegate.java:259-261 | error codes other than SERVER_DIED change nothing |
| Scenarios.UpdateWithoutViewKeepsCamera | libstreaming/src/main/java/net/majorkernelpanic/streaming/CameraDelegate.java:322-331 | after `setSurfaceView(null)`, `updateCamera` on an unconfigured held camera throws once every listener heard the size, and leaves the camera held, not previewing and consistent |
| Scenarios.FlashUnsupportedRepeats | libstreaming/src/main/java/net/majorkernelpanic/streaming/CameraDelegate.java:397-405 | without a flash mode every attempt throws FlashUnsupported, keeps the setting and leaves the camera held and locked |
| Scenarios.FlashAppliedOnOpen | libstreaming/src/main/java/net/majorkernelpanic/streaming/CameraDelegate.java:269-274 | a setting recorded with no camera held is written to the camera the next start opens |
| Scenarios.FlashThenStopReconnects | libstreaming/src/main/java/net/majorkernelpanic/streaming/CameraDelegate.java:414-418 | a flash change leaves the camera unlocked, so the next teardown reconnects it before releasing it |
| Scenarios.AddedListenerGetsFrames | libstreaming/src/main/java/net/majorkernelpanic/streaming/CameraDelegate.java:76-87 | a listener added while previewing receives the next frame, after the earlier listeners |
| Scenarios.RemovedListenerGetsNoFrames | libstreaming/src/main/java/net/majorkernelpanic/streaming/CameraDelegate.java:89-91 | a listener registered once and then removed receives no further frames, while every other registration remains |
| Scenarios.SwitchWhilePreviewing | libstreaming/src/main/java/net/majorkernelpanic/streaming/CameraDelegate.java:127-136 | switching while previewing on a cooperative platform releases one camera, opens one, and previews with the flash setting off on the camera id the source computes (`SwitchedId`) |

## Left out

- The camera thread, its `Looper`, the `Semaphore` handoff in `openCamera` and
  `synchronized`: each operation is one atomic step. `openCamera` leaves a
  thread looping after a failed open; the model does not track threads.
- `measureFramerate`, which is never called because its call is commented
  out. It depends on wall-clock time and writes `SharedPreferences`.
- Quality negotiation (`VideoQuality.determineClosestSupportedResolution`,
  `determineMaximumSupportedFramerate`): `VideoQuality` is not part of this
  model. The negotiated size is the `Device.negotiated` oracle value.
- The `EncoderDebugger` / `NV21Convertor` buffer setup after `startPreview`.
  It is assumed not to throw.
- `getParameters`, the `stopPreview` of a running preview (319) and the
  negotiation at 322-335 in `updateCamera`: assumed not to throw. Only the
  missing view at 331 is modelled as a throw there.
- The `double` aspect ratio passed to `requestAspectRatio`, the GL surface, and the
  `MODE_MEDIACODEC_API_2` branches: `mMode` is never assigned in this class,
  so those branches never run.
- `setDisplayOrientation(mOrientation)` calls: their failure is folded into
  the `setParameters` answer at the same site. `getOrientation` and
  `setOrientation` are plain field accessors.
- `camera.stopPreview()` inside `destroyCamera`: assumed not to throw.
  `reconnect`, `unlock` and `release` failures are caught in the source, so
  they have no oracle bit.
- Listeners that throw from `onCameraStarted` or `onFrameSizeSelected`: they
  are assumed not to throw. A throw in `openCamera`'s loop would report
  CameraInUse while a camera is held.
- Surface-holder callback bookkeeping in `setSurfaceView`. The old callback is
  removed from the new view's holder, so an earlier view's holder can still
  deliver callbacks. The model treats `surfaceCreated` and `surfaceDestroyed`
  as events without telling views apart, and it omits `surfaceChanged`, which
  only logs.
- `getNumberOfCameras` and `getCameraInfo`: `switchCamera` and `setCamera`
  take the list of camera facings as a parameter. `setCameraDisplayOrientation`
  takes the selected camera's facing and orientation as parameters, and the
  model leaves out its final `setDisplayOrientation` call.
- `FlashUnsupported` and `FlashRejected` are one `RuntimeException` in the
  source. The model tells them apart so that contracts can name the path.
- Logging, the constructor's `Context` plumbing and the unused fields
  (`mRequestedQuality`, `mVideoEncoder`, encoder names and formats,
  `mMaxFps`).
- Lifecycle.RunKeepsConsistent: covers only the calls in `Call`. A direct
  call to the public `openCamera` (205-231) is not one of them. On a held
  camera it overwrites `mCamera` without releasing it, and on a previewing
  camera the flags become inconsistent (`Lifecycle.OpenCameraWhileHeldLeaks`).
  Inside the class only `createCamera` calls it, and only with no camera held.
- Lifecycle.ApplyKeepsConsistent: same restriction to the calls in `Call`.
- Lifecycle.RunBalanced: same restriction; a direct `openCamera` on a held
  camera leaks the old camera.
- Lifecycle.ApplyBalanced: same restriction to the calls in `Call`.
- Lifecycle.FromInitial: same restriction to the calls in `Call`.
- Lifecycle.StopPreviewReleasesAll: same restriction; with a direct
  `openCamera` the leaked camera is never released.

## Findings

| source | as written | input that shows it | evidently intended | confidence | as-written member | corrected member |
|---|---|---|---|---|---|---|
| libstreaming/src/main/java/net/majorkernelpanic/streaming/CameraDelegate.java:131-132 | `switchCamera` compares the camera id, an index, with `CAMERA_FACING_BACK`, replaces it by the other facing code, and passes that code to `setCamera` as a facing | front camera at id 0, back camera at id 1, current id 0: id 0 reads as BACK, becomes FRONT, and `setCamera(FRONT)` selects id 0 again | move to the first camera facing away from the current camera | medium, not executed; the usual layout (back 0, front 1) hides it | CameraDelegate.SwitchedId (shown by CameraDelegate.SwitchedIdReselectsFrontCamera) | CameraDelegate.OppositeCamera (agrees with the source on the usual layout by CameraDelegate.SwitchedIdAgreesWhenIdsAreFacings) |

The lifecycle model keeps the switch as written: `CameraDelegate.SwitchCamera` moves to `SwitchedId`, and `OppositeCamera` states only what the switch evidently intends.
