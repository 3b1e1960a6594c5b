/**
  The camera delegate's lifecycle: the flags it keeps about the camera
  (held or not, previewing, configured, unlocked), what its owner asked for
  (camera wanted, start pending, flash on), what it was handed (view,
  surface readiness, listeners, camera id), and the operations that change
  them.

  The Android camera is an oracle: a `Device` value says how each platform
  call an operation makes will answer. An operation returns the state it
  leaves behind, the platform calls and listener notifications it made, and
  whether it returned normally or threw; when it throws, the state is the one
  reached at the throw, since nothing is rolled back.
 */
module CameraDelegate {
  import opened Listeners
  import CameraSelection

  /** `Camera.CAMERA_ERROR_SERVER_DIED` */
  const ErrorServerDied: int := 100

  /** A preview resolution (`mQuality.resX`, `mQuality.resY`). */
  datatype Size = Size(width: int, height: int)

  /** What `mSurfaceView` refers to: no view, or a view whose holder may be missing. */
  datatype Surface = NoView | View(hasHolder: bool)

  /** The delegate's knowledge of the camera itself. */
  datatype CameraState = CameraState(
    held: bool,             // mCamera != null
    callbackSet: bool,      // a frame callback is registered on mCamera
    previewStarted: bool,   // mPreviewStarted
    updated: bool,          // mUpdated
    unlocked: bool,         // mUnlocked
    quality: Size)          // mQuality

  /** What the delegate's owner has asked for. */
  datatype Requests = Requests(
    openedManually: bool,   // mCameraOpenedManually
    startRequested: bool,   // startRequested
    flashEnabled: bool)     // mFlashEnabled

  /** What the delegate was handed and observes. */
  datatype Environment = Environment(
    surface: Surface,       // mSurfaceView
    surfaceReady: bool,     // mSurfaceReady
    listeners: seq<ListenerId>,
    cameraId: int)          // mCameraId

  datatype Delegate = Delegate(cam: CameraState, req: Requests, env: Environment)

  /** How the platform answers the calls one operation makes. */
  datatype Device = Device(
    opens: bool,                  // Camera.open returns a camera
    hasFlashMode: bool,           // getParameters().getFlashMode() != null
    acceptsSettings: bool,        // setParameters in createCamera does not throw
    acceptsDisplay: bool,         // setPreviewDisplay in createCamera does not throw
    negotiated: Size,             // the resolution the quality negotiation picks
    acceptsPreviewSettings: bool, // setParameters in updateCamera does not throw
    acceptsPreviewDisplay: bool,  // setPreviewDisplay in updateCamera does not throw
    startsPreview: bool,          // startPreview in updateCamera does not throw
    acceptsFlash: bool)           // setParameters in setFlashState does not throw

  /** Platform calls and listener notifications, in the order they happen. */
  datatype Event =
    | Opened                                        // Camera.open succeeded
    | CameraStarted(listener: ListenerId)           // onCameraStarted(true, null)
    | FlashWritten(torch: bool)                     // flash mode TORCH / OFF accepted
    | FrameSizeSelected(listener: ListenerId, size: Size)
    | CallbackRegistered                            // setPreviewCallbackWithBuffer
    | Reconnected                                   // camera.reconnect()
    | UnlockRequested                               // camera.unlock()
    | Released                                      // camera.release()
    | Frame(listener: ListenerId, size: Size)       // onPreviewFrame

  datatype Failure =
    | CameraInUse        // CameraInUseException from openCamera
    | InvalidSurface     // InvalidSurfaceException
    | SettingsRejected   // RuntimeException from setParameters
    | PreviewFailed      // RuntimeException from startPreview
    | FlashUnsupported   // "Can't turn the flash on !": no flash mode
    | FlashRejected      // "Can't turn the flash on !": setParameters threw
    | NullSurfaceView    // NullPointerException: startPreview or updateCamera without a view
    | NoCamera           // NullPointerException: updateCamera without a camera
    | SingleCamera       // IllegalStateException from switchCamera

  datatype Completion = Normal | Thrown(failure: Failure)

  datatype Step = Step(after: Delegate, events: seq<Event>, completion: Completion)

  /** The state a new delegate starts in. */
  function Initial(defaultQuality: Size): (s: Delegate)
    ensures Consistent(s) && !s.cam.held && !s.cam.previewStarted
    ensures s.req.openedManually && !s.req.startRequested && !s.req.flashEnabled
    ensures !s.env.surfaceReady && s.env.listeners == []
    ensures !s.cam.updated && !s.cam.unlocked && s.env.surface == NoView && s.env.cameraId == 0
  {
    Delegate(CameraState(false, false, false, false, false, defaultQuality),
             Requests(true, false, false),
             Environment(NoView, false, [], 0))
  }

  /** What every reachable state satisfies: a running preview has a camera,
      is configured and has its frame callback; a configured camera is
      previewing; a frame callback only exists on a held camera. */
  predicate Consistent(s: Delegate)
  {
    && (s.cam.previewStarted ==> s.cam.held && s.cam.updated && s.cam.callbackSet)
    && (s.cam.held && s.cam.updated ==> s.cam.previewStarted)
    && (s.cam.callbackSet ==> s.cam.held)
  }

  /** 1 while a camera is held. */
  function Held(s: Delegate): int
  {
    if s.cam.held then 1 else 0
  }

  function Opens(events: seq<Event>): nat
  {
    multiset(events)[Opened]
  }

  function Releases(events: seq<Event>): nat
  {
    multiset(events)[Released]
  }

  /** Every camera opened during the step is released during it or still
      held after it, and every release is of a camera held before or opened
      during the step. */
  predicate Balanced(s: Delegate, r: Step)
  {
    Opens(r.events) - Releases(r.events) == Held(r.after) - Held(s)
  }

  /** One notification per listener, in registration order. */
  function NotifyStarted(ls: seq<ListenerId>): (es: seq<Event>)
    ensures |es| == |ls|
    ensures forall i :: 0 <= i < |ls| ==> es[i] == CameraStarted(ls[i])
    ensures Opened !in es && Released !in es
  {
    seq(|ls|, i requires 0 <= i < |ls| => CameraStarted(ls[i]))
  }

  function NotifySize(ls: seq<ListenerId>, size: Size): (es: seq<Event>)
    ensures |es| == |ls|
    ensures forall i :: 0 <= i < |ls| ==> es[i] == FrameSizeSelected(ls[i], size)
    ensures Opened !in es && Released !in es && CallbackRegistered !in es
  {
    seq(|ls|, i requires 0 <= i < |ls| => FrameSizeSelected(ls[i], size))
  }

  function NotifyFrame(ls: seq<ListenerId>, size: Size): (es: seq<Event>)
    ensures |es| == |ls|
    ensures forall i :: 0 <= i < |ls| ==> es[i] == Frame(ls[i], size)
    ensures Opened !in es && Released !in es
  {
    seq(|ls|, i requires 0 <= i < |ls| => Frame(ls[i], size))
  }

  /** `lockCamera`: hands the camera back from unlocked mode. A failing
      `reconnect` is caught, so the flag is cleared either way. */
  function Lock(s: Delegate): (r: Step)
    ensures r.completion == Normal && !r.after.cam.unlocked
    ensures r.after == s.(cam := s.cam.(unlocked := false))
    ensures !s.cam.unlocked ==> r == Step(s, [], Normal)
    ensures s.cam.unlocked ==> r.events == [Reconnected]
  {
    if s.cam.unlocked then Step(s.(cam := s.cam.(unlocked := false)), [Reconnected], Normal)
    else Step(s, [], Normal)
  }

  /** `unlockCamera`: puts the camera in unlocked mode. A failing `unlock`
      (or a missing camera) is caught, so the flag is set either way. */
  function Unlock(s: Delegate): (r: Step)
    ensures r.completion == Normal && r.after.cam.unlocked
    ensures r.after == s.(cam := s.cam.(unlocked := true))
    ensures s.cam.unlocked ==> r == Step(s, [], Normal)
    ensures !s.cam.unlocked ==> r.events == [UnlockRequested]
  {
    if !s.cam.unlocked then Step(s.(cam := s.cam.(unlocked := true)), [UnlockRequested], Normal)
    else Step(s, [], Normal)
  }

  /** `destroyCamera`: relocks, stops and releases the camera. A failing
      `release` is caught. `mUpdated` is left as it was. */
  function DestroyCamera(s: Delegate): (r: Step)
    ensures r.completion == Normal
    ensures !s.cam.held ==> r == Step(s, [], Normal)
    ensures s.cam.held ==>
              && !r.after.cam.held && !r.after.cam.callbackSet
              && !r.after.cam.unlocked && !r.after.cam.previewStarted
    ensures s.cam.held ==> Releases(r.events) == 1 && Opens(r.events) == 0
    ensures r.after.cam.updated == s.cam.updated && r.after.cam.quality == s.cam.quality
    ensures r.after.req == s.req && r.after.env == s.env
  {
    if !s.cam.held then Step(s, [], Normal)
    else
      var locked := Lock(s);
      var released := locked.after.cam.(held := false, callbackSet := false,
                                        unlocked := false, previewStarted := false);
      Step(locked.after.(cam := released), locked.events + [Released], Normal)
  }

  /** `stop`: destroys the camera if there is one. */
  function Stop(s: Delegate): (r: Step)
    ensures r.completion == Normal && !r.after.cam.held
    ensures !s.cam.held ==> r == Step(s, [], Normal)
    ensures s.cam.held ==> r == DestroyCamera(s)
  {
    if s.cam.held then DestroyCamera(s) else Step(s, [], Normal)
  }

  /** `stopPreview`: the camera is no longer wanted, then `stop`. */
  function StopPreview(s: Delegate): (r: Step)
    ensures r.completion == Normal
    ensures !r.after.cam.held && !r.after.req.openedManually
    ensures !s.cam.held ==> r == Step(s.(req := s.req.(openedManually := false)), [], Normal)
    ensures r.after.env == s.env && r.after.cam.updated == s.cam.updated
    ensures r.after.req == s.req.(openedManually := false)
  {
    Stop(s.(req := s.req.(openedManually := false)))
  }

  /** The camera's error callback: only the media server dying is acted on,
      and then exactly as `stopPreview` would. Listeners are not told. */
  function OnError(s: Delegate, code: int): (r: Step)
    ensures code == ErrorServerDied ==> r == StopPreview(s)
    ensures code != ErrorServerDied ==> r == Step(s, [], Normal)
    ensures code == ErrorServerDied ==> !r.after.cam.held && !r.after.req.openedManually
  {
    if code == ErrorServerDied then StopPreview(s) else Step(s, [], Normal)
  }

  /** `openCamera`, as one step: on success the new camera has no frame
      callback and every listener hears `onCameraStarted(true, null)`; on
      failure the delegate is unchanged and `CameraInUseException` is thrown. */
  function OpenCamera(s: Delegate, dev: Device): (r: Step)
    ensures dev.opens ==> r.completion == Normal
    ensures dev.opens ==> r.after == s.(cam := s.cam.(held := true, callbackSet := false))
    ensures dev.opens ==> |r.events| == |s.env.listeners| + 1 && r.events[0] == Opened
    ensures dev.opens ==>
              forall i :: 0 <= i < |s.env.listeners| ==> r.events[i + 1] == CameraStarted(s.env.listeners[i])
    ensures dev.opens ==> Opens(r.events) == 1 && Releases(r.events) == 0
    ensures !dev.opens ==> r == Step(s, [], Thrown(CameraInUse))
  {
    if dev.opens then
      Step(s.(cam := s.cam.(held := true, callbackSet := false)),
           [Opened] + NotifyStarted(s.env.listeners), Normal)
    else
      Step(s, [], Thrown(CameraInUse))
  }

  /** True when `mSurfaceView.getHolder() != null && mSurfaceReady`. */
  predicate SurfaceUsable(s: Delegate)
  {
    s.env.surface.View? && s.env.surface.hasHolder && s.env.surfaceReady
  }

  /** Tears the camera down and reports `f`: the `catch (RuntimeException)`
      blocks of `createCamera` and `updateCamera`. */
  function Abort(s: Delegate, before: seq<Event>, f: Failure): (r: Step)
    requires s.cam.held
    ensures r.completion == Thrown(f)
    ensures !r.after.cam.held && !r.after.cam.previewStarted && !r.after.cam.callbackSet
    ensures !r.after.cam.unlocked && r.after.cam.updated == s.cam.updated
    ensures r.after.req == s.req && r.after.env == s.env
    ensures |r.events| >= |before| && r.events[..|before|] == before
  {
    var d := DestroyCamera(s);
    Step(d.after, before + d.events, Thrown(f))
  }

  /** The teardown in `Abort` opens nothing and releases the camera once. */
  lemma AbortCounts(s: Delegate, before: seq<Event>, f: Failure)
    requires s.cam.held
    ensures var r := Abort(s, before, f);
            Opens(r.events) == Opens(before) && Releases(r.events) == Releases(before) + 1
  {
    var d := DestroyCamera(s);
    assert multiset(before + d.events) == multiset(before) + multiset(d.events);
  }

  /** The configuration half of `createCamera`, on a camera just opened:
      the configuration flags are reset, the flash setting and recording hint
      written and the preview display attached; a failure on the way releases
      the camera and propagates. */
  function Configure(s: Delegate, acquired: seq<Event>, dev: Device): (r: Step)
    requires s.cam.held
    ensures dev.acceptsSettings && dev.acceptsDisplay ==>
              r.completion == Normal && r.after == s.(cam := s.cam.(updated := false, unlocked := false))
    ensures !dev.acceptsSettings ==> r.completion == Thrown(SettingsRejected)
    ensures dev.acceptsSettings && !dev.acceptsDisplay ==> r.completion == Thrown(InvalidSurface)
    ensures r.completion.Thrown? ==>
              !r.after.cam.held && !r.after.cam.previewStarted && !r.after.cam.callbackSet
    ensures !r.after.cam.updated && !r.after.cam.unlocked
    ensures dev.acceptsSettings && dev.hasFlashMode ==> FlashWritten(s.req.flashEnabled) in r.events
    ensures r.after.req == s.req && r.after.env == s.env
    ensures |r.events| >= |acquired| && r.events[..|acquired|] == acquired
  {
    var reset := s.(cam := s.cam.(updated := false, unlocked := false));
    if !dev.acceptsSettings then Abort(reset, acquired, SettingsRejected)
    else
      var written := acquired + (if dev.hasFlashMode then [FlashWritten(s.req.flashEnabled)] else []);
      assert written[..|acquired|] == acquired;
      if !dev.acceptsDisplay then
        var r := Abort(reset, written, InvalidSurface);
        assert r.events[..|written|] == written;
        assert r.events[..|acquired|] == written[..|acquired|];
        assert dev.hasFlashMode ==> r.events[|acquired|] == written[|acquired|];
        r
      else Step(reset, written, Normal)
  }

  /** `createCamera`: a missing view is an error; an unusable surface only
      records that a start is pending; a held camera is kept as it is;
      otherwise a camera is opened and configured. */
  function CreateCamera(s: Delegate, dev: Device): (r: Step)
    ensures s.env.surface.NoView? ==> r == Step(s, [], Thrown(InvalidSurface))
    ensures s.env.surface.View? && !SurfaceUsable(s) ==>
              r == Step(s.(req := s.req.(startRequested := true)), [], Normal)
    ensures SurfaceUsable(s) && s.cam.held ==> r == Step(s, [], Normal)
    ensures SurfaceUsable(s) && !s.cam.held && !dev.opens ==> r == Step(s, [], Thrown(CameraInUse))
    ensures SurfaceUsable(s) && !s.cam.held && dev.opens ==> |r.events| > 0 && r.events[0] == Opened
    ensures SurfaceUsable(s) && !s.cam.held && dev.opens && dev.acceptsSettings && dev.acceptsDisplay ==>
              && r.completion == Normal && r.after.cam.held && !r.after.cam.callbackSet
              && !r.after.cam.updated && !r.after.cam.unlocked
    ensures SurfaceUsable(s) && !s.cam.held && dev.opens && !dev.acceptsSettings ==>
              r.completion == Thrown(SettingsRejected)
    ensures SurfaceUsable(s) && !s.cam.held && dev.opens && dev.acceptsSettings && !dev.acceptsDisplay ==>
              r.completion == Thrown(InvalidSurface)
    ensures r.completion.Thrown? && s.env.surface.View? ==> !r.after.cam.held
    ensures SurfaceUsable(s) && !s.cam.held && dev.opens && dev.acceptsSettings && dev.hasFlashMode ==>
              FlashWritten(s.req.flashEnabled) in r.events
    ensures r.after.env == s.env && r.after.req.flashEnabled == s.req.flashEnabled
    ensures r.after.req.openedManually == s.req.openedManually
  {
    if s.env.surface.NoView? then Step(s, [], Thrown(InvalidSurface))
    else if !SurfaceUsable(s) then Step(s.(req := s.req.(startRequested := true)), [], Normal)
    else if s.cam.held then Step(s, [], Normal)
    else
      var acquired := OpenCamera(s, dev);
      if acquired.completion.Thrown? then acquired
      else Configure(acquired.after, acquired.events, dev)
  }

  /** `updateCamera`: nothing to do once configured. Otherwise any running
      preview is stopped, the negotiated size is announced to every listener,
      the view is asked for the aspect ratio (outside the `try`, so a missing
      view throws with the camera still held), and the settings, display and
      preview are applied; the frame callback is registered only after all of
      that. A `RuntimeException` inside the `try` releases the camera and
      propagates; an `IOException` from the display releases the camera and
      is swallowed. */
  function UpdateCamera(s: Delegate, dev: Device): (r: Step)
    ensures s.cam.updated ==> r == Step(s, [], Normal)
    ensures !s.cam.updated && !s.cam.held ==>
              r == Step(s.(cam := s.cam.(previewStarted := false)), [], Thrown(NoCamera))
    ensures !s.cam.updated && s.cam.held ==>
              && |r.events| >= |s.env.listeners|
              && r.events[..|s.env.listeners|] == NotifySize(s.env.listeners, dev.negotiated)
              && r.after.cam.quality == dev.negotiated
    ensures !s.cam.updated && s.cam.held && s.env.surface.NoView? ==>
              && r.completion == Thrown(NullSurfaceView) && r.events == NotifySize(s.env.listeners, dev.negotiated)
              && r.after.cam.held && !r.after.cam.previewStarted && !r.after.cam.updated
              && r.after.cam.callbackSet == s.cam.callbackSet && r.after.cam.unlocked == s.cam.unlocked
    ensures !s.cam.updated && s.cam.held && s.env.surface.View? && dev.acceptsPreviewSettings
            && dev.acceptsPreviewDisplay && dev.startsPreview ==>
              && r.completion == Normal && r.after.cam.held
              && r.after.cam.previewStarted && r.after.cam.updated && r.after.cam.callbackSet
              && |r.events| > |s.env.listeners| && r.events[|s.env.listeners|] == CallbackRegistered
    ensures !s.cam.updated && s.cam.held && s.env.surface.View? && !dev.acceptsPreviewSettings ==>
              r.completion == Thrown(SettingsRejected) && !r.after.cam.held
    ensures !s.cam.updated && s.cam.held && s.env.surface.View? && dev.acceptsPreviewSettings
            && !dev.acceptsPreviewDisplay ==>
              r.completion == Normal && !r.after.cam.held
    ensures !s.cam.updated && s.cam.held && s.env.surface.View? && dev.acceptsPreviewSettings
            && dev.acceptsPreviewDisplay && !dev.startsPreview ==>
              r.completion == Thrown(PreviewFailed) && !r.after.cam.held
    ensures r.after.req == s.req && r.after.env == s.env
  {
    if s.cam.updated then Step(s, [], Normal)
    else
      var stopped := s.(cam := s.cam.(previewStarted := false));
      if !stopped.cam.held then Step(stopped, [], Thrown(NoCamera))
      else
        var sized := stopped.(cam := stopped.cam.(quality := dev.negotiated));
        var announced := NotifySize(s.env.listeners, dev.negotiated);
        if sized.env.surface.NoView? then Step(sized, announced, Thrown(NullSurfaceView))
        else if !dev.acceptsPreviewSettings then Abort(sized, announced, SettingsRejected)
        else if !dev.acceptsPreviewDisplay then
          var d := DestroyCamera(sized);
          Step(d.after, announced + d.events, Normal)
        else if !dev.startsPreview then Abort(sized, announced, PreviewFailed)
        else
          Step(sized.(cam := sized.cam.(previewStarted := true, updated := true, callbackSet := true)),
               announced + [CallbackRegistered], Normal)
  }

  /** `startPreview`: always marks the camera as wanted; does nothing more
      while previewing; defers (records a pending start, opens nothing) while
      the surface is unusable; otherwise `createCamera` then `updateCamera`. */
  function StartPreview(s: Delegate, dev: Device): (r: Step)
    ensures r.after.req.openedManually
    ensures s.cam.previewStarted ==> r == Step(s.(req := s.req.(openedManually := true)), [], Normal)
    ensures !s.cam.previewStarted && s.env.surface.NoView? ==>
              r == Step(s.(req := s.req.(openedManually := true)), [], Thrown(NullSurfaceView))
    ensures !s.cam.previewStarted && s.env.surface.View? && !SurfaceUsable(s) ==>
              r == Step(s.(req := s.req.(openedManually := true, startRequested := true)), [], Normal)
    ensures Consistent(s) && !s.cam.previewStarted && SurfaceUsable(s)
            && (!s.cam.held ==> dev.opens && dev.acceptsSettings && dev.acceptsDisplay)
            && dev.acceptsPreviewSettings && dev.acceptsPreviewDisplay && dev.startsPreview ==>
              r.completion == Normal && r.after.cam.held && r.after.cam.previewStarted
    ensures r.completion.Thrown? && s.env.surface.View? ==> !r.after.cam.held
    ensures r.after.env == s.env && r.after.req.flashEnabled == s.req.flashEnabled
  {
    var wanted := s.(req := s.req.(openedManually := true));
    if wanted.cam.previewStarted then Step(wanted, [], Normal)
    else if wanted.env.surface.NoView? then Step(wanted, [], Thrown(NullSurfaceView))
    else if !SurfaceUsable(wanted) then Step(wanted.(req := wanted.req.(startRequested := true)), [], Normal)
    else
      var created := CreateCamera(wanted, dev);
      if created.completion.Thrown? then created
      else
        var configured := UpdateCamera(created.after, dev);
        Step(configured.after, created.events + configured.events, configured.completion)
  }

  /** `setFlashState`. Without a camera only the setting is recorded. With
      one, the camera is relocked; a camera without a flash mode throws while
      still locked and keeps the old setting; otherwise the flash mode is
      written (a rejected write turns the setting off and throws) and the
      camera is left UNLOCKED on both paths. */
  function SetFlashState(s: Delegate, on: bool, dev: Device): (r: Step)
    ensures !s.cam.held ==> r == Step(s.(req := s.req.(flashEnabled := on)), [], Normal)
    ensures s.cam.held && !dev.hasFlashMode ==>
              r.completion == Thrown(FlashUnsupported) && r.after == s.(cam := s.cam.(unlocked := false))
    ensures s.cam.held && dev.hasFlashMode ==> r.after.cam == s.cam.(unlocked := true)
    ensures s.cam.held && dev.hasFlashMode && dev.acceptsFlash ==>
              r.completion == Normal && r.after.req.flashEnabled == on && FlashWritten(on) in r.events
    ensures s.cam.held && dev.hasFlashMode && !dev.acceptsFlash ==>
              r.completion == Thrown(FlashRejected) && !r.after.req.flashEnabled
    ensures r.after.cam.held == s.cam.held && r.after.cam.previewStarted == s.cam.previewStarted
    ensures r.after.env == s.env
    ensures r.after.req.openedManually == s.req.openedManually
    ensures r.after.req.startRequested == s.req.startRequested
  {
    if !s.cam.held then Step(s.(req := s.req.(flashEnabled := on)), [], Normal)
    else
      var locked := Lock(s);
      if !dev.hasFlashMode then Step(locked.after, locked.events, Thrown(FlashUnsupported))
      else
        var written := locked.after.(req := locked.after.req.(flashEnabled := dev.acceptsFlash && on));
        var unlocked := Unlock(written);
        Step(unlocked.after,
             locked.events + (if dev.acceptsFlash then [FlashWritten(on)] else []) + unlocked.events,
             if dev.acceptsFlash then Normal else Thrown(FlashRejected))
  }

  /** `addListener`: appends the listener and, when a camera is held,
      (re)registers the frame callback on it. */
  function AddListener(s: Delegate, l: ListenerId): (r: Step)
    ensures r.completion == Normal && r.after.env.listeners == Add(s.env.listeners, l)
    ensures s.cam.held ==> r.after.cam.callbackSet && r.events == [CallbackRegistered]
    ensures !s.cam.held ==>
              r == Step(s.(env := s.env.(listeners := Add(s.env.listeners, l))), [], Normal)
    ensures r.after.cam.(callbackSet := s.cam.callbackSet) == s.cam && r.after.req == s.req
    ensures r.after.env == s.env.(listeners := Add(s.env.listeners, l))
  {
    Step(s.(cam := s.cam.(callbackSet := s.cam.callbackSet || s.cam.held),
            env := s.env.(listeners := Add(s.env.listeners, l))),
         if s.cam.held then [CallbackRegistered] else [], Normal)
  }

  /** `removeListener`: drops the listener's first registration; nothing
      else changes, and removing a stranger changes nothing at all. */
  function RemoveListener(s: Delegate, l: ListenerId): (r: Step)
    ensures r.completion == Normal && r.events == []
    ensures r.after == s.(env := s.env.(listeners := Remove(s.env.listeners, l)))
    ensures l !in s.env.listeners ==> r.after == s
  {
    Step(s.(env := s.env.(listeners := Remove(s.env.listeners, l))), [], Normal)
  }

  /** A frame arriving from the camera: while previewing with the callback
      registered, every listener receives it in registration order with the
      current size; otherwise no frame is delivered. */
  function PreviewFrame(s: Delegate): (r: Step)
    ensures r.after == s && r.completion == Normal
    ensures !(s.cam.previewStarted && s.cam.callbackSet) ==> r.events == []
    ensures s.cam.previewStarted && s.cam.callbackSet ==>
              |r.events| == |s.env.listeners| &&
              forall i :: 0 <= i < |s.env.listeners| ==> r.events[i] == Frame(s.env.listeners[i], s.cam.quality)
  {
    Step(s, if s.cam.previewStarted && s.cam.callbackSet then NotifyFrame(s.env.listeners, s.cam.quality) else [],
         Normal)
  }

  /** `setSurfaceView`: only the view changes; readiness is left to the
      holder callbacks. */
  function SetSurfaceView(s: Delegate, v: Surface): (r: Step)
    ensures r.completion == Normal && r.events == []
    ensures r.after.env.surface == v && r.after.env.surfaceReady == s.env.surfaceReady
    ensures r.after.cam == s.cam && r.after.req == s.req
    ensures r.after.env.listeners == s.env.listeners && r.after.env.cameraId == s.env.cameraId
  {
    Step(s.(env := s.env.(surface := v)), [], Normal)
  }

  /** The holder's `surfaceCreated`: the surface is ready, and the preview is
      restarted only if a camera is already held; a pending start is not
      looked at. */
  function SurfaceCreated(s: Delegate, dev: Device): (r: Step)
    ensures r.after.env.surfaceReady
    ensures !s.cam.held ==> r == Step(s.(env := s.env.(surfaceReady := true)), [], Normal)
    ensures s.cam.held ==> r == StartPreview(s.(env := s.env.(surfaceReady := true)), dev)
  {
    var ready := s.(env := s.env.(surfaceReady := true));
    if ready.cam.held then StartPreview(ready, dev) else Step(ready, [], Normal)
  }

  /** The holder's `surfaceDestroyed`: the surface is gone, then `stopPreview`. */
  function SurfaceDestroyed(s: Delegate): (r: Step)
    ensures r == StopPreview(s.(env := s.env.(surfaceReady := false)))
    ensures !r.after.env.surfaceReady && !r.after.cam.held && r.completion == Normal
  {
    StopPreview(s.(env := s.env.(surfaceReady := false)))
  }

  /** `setCamera` on the delegate: only the camera id changes, to the first
      camera facing `facing`, and stays when no camera faces that way. */
  function SetCamera(s: Delegate, facings: seq<int>, facing: int): (r: Step)
    ensures r.completion == Normal && r.events == []
    ensures r.after.cam == s.cam && r.after.req == s.req
    ensures r.after.env.(cameraId := s.env.cameraId) == s.env
    ensures (exists i :: 0 <= i < |facings| && facings[i] == facing) ==>
              var id := r.after.env.cameraId;
              0 <= id < |facings| && facings[id] == facing
              && CameraSelection.NoneFacingBelow(facings, facing, id)
    ensures (forall i :: 0 <= i < |facings| ==> facings[i] != facing) ==> r.after == s
  {
    Step(s.(env := s.env.(cameraId := CameraSelection.SelectedCamera(facings, facing, s.env.cameraId))),
         [], Normal)
  }

  /** The other facing code: front for back, and back for anything else. */
  function Opposite(facing: int): (r: int)
    ensures r != facing
    ensures facing == CameraSelection.FacingBack ==> r == CameraSelection.FacingFront
    ensures facing != CameraSelection.FacingBack ==> r == CameraSelection.FacingBack
  {
    if facing == CameraSelection.FacingBack then CameraSelection.FacingFront else CameraSelection.FacingBack
  }

  /** The camera id `switchCamera` moves to, as written: the camera id (an
      index) is compared with the BACK facing code and replaced by the other
      facing code, which is then handed to `setCamera` as a facing. When no
      camera faces that way the id is left at the facing code. */
  function SwitchedId(cameraId: int, facings: seq<int>): (r: int)
    ensures (exists i :: 0 <= i < |facings| && facings[i] == Opposite(cameraId)) ==>
              0 <= r < |facings| && facings[r] == Opposite(cameraId)
              && CameraSelection.NoneFacingBelow(facings, Opposite(cameraId), r)
    ensures (forall i :: 0 <= i < |facings| ==> facings[i] != Opposite(cameraId)) ==> r == Opposite(cameraId)
  {
    var flipped := Opposite(cameraId);
    CameraSelection.SelectedCamera(facings, flipped, flipped)
  }

  /** The direction the camera with this id faces; an id that names no
      camera is read as a facing code, as the source reads every id. */
  function CurrentFacing(cameraId: int, facings: seq<int>): int
  {
    if 0 <= cameraId < |facings| then facings[cameraId] else cameraId
  }

  /** The camera id switching evidently means: the first camera facing away
      from the current one, or the current id when no camera faces away. */
  function OppositeCamera(cameraId: int, facings: seq<int>): (r: int)
    ensures var target := Opposite(CurrentFacing(cameraId, facings));
            (exists i :: 0 <= i < |facings| && facings[i] == target) ==>
              && 0 <= r < |facings| && facings[r] == target && r != cameraId
              && CameraSelection.NoneFacingBelow(facings, target, r)
    ensures var target := Opposite(CurrentFacing(cameraId, facings));
            (forall i :: 0 <= i < |facings| ==> facings[i] != target) ==> r == cameraId
  {
    var target := Opposite(CurrentFacing(cameraId, facings));
    CameraSelection.SelectedCamera(facings, target, cameraId)
  }

  /** On a device whose camera ids coincide with their facing codes (back
      camera 0, front camera 1, the common layout) the written and the
      intended switch agree. */
  lemma SwitchedIdAgreesWhenIdsAreFacings(cameraId: int, facings: seq<int>)
    requires 0 <= cameraId < |facings| && facings[cameraId] == cameraId
    requires exists i :: 0 <= i < |facings| && facings[i] == Opposite(cameraId)
    ensures SwitchedId(cameraId, facings) == OppositeCamera(cameraId, facings)
  {
    var target := Opposite(cameraId);
    assert CurrentFacing(cameraId, facings) == cameraId;
    var a := SwitchedId(cameraId, facings);
    var b := OppositeCamera(cameraId, facings);
    if a < b {
      assert facings[a] == target;
    } else if b < a {
      assert facings[b] == target;
    }
  }

  /** With the front camera at id 0 and the back camera at id 1, switching
      from camera 0 as written selects camera 0 again; the intended switch
      selects camera 1. */
  lemma SwitchedIdReselectsFrontCamera()
    ensures SwitchedId(0, [CameraSelection.FacingFront, CameraSelection.FacingBack]) == 0
    ensures OppositeCamera(0, [CameraSelection.FacingFront, CameraSelection.FacingBack]) == 1
  {
    var facings := [CameraSelection.FacingFront, CameraSelection.FacingBack];
    assert facings[0] == Opposite(0);
    assert facings[1] == Opposite(CurrentFacing(0, facings));
  }

  /** `switchCamera`: refuses on a one-camera device; otherwise moves to the
      camera id `SwitchedId` computes (which can be the current camera again,
      see `SwitchedIdReselectsFrontCamera`), stops, turns the flash setting
      off and restarts if a requested preview was running. `facings` lists
      what each camera faces. */
  function SwitchCamera(s: Delegate, facings: seq<int>, dev: Device): (r: Step)
    ensures |facings| == 1 ==> r == Step(s, [], Thrown(SingleCamera))
    ensures |facings| != 1 ==> !r.after.req.flashEnabled
    ensures |facings| != 1 ==> r.after.env.cameraId == SwitchedId(s.env.cameraId, facings)
    ensures |facings| != 1 && !(s.cam.held && s.req.openedManually) ==>
              r.completion == Normal && !r.after.cam.held && !r.after.req.openedManually
    ensures |facings| != 1 && s.cam.held && s.req.openedManually ==> r.after.req.openedManually
  {
    if |facings| == 1 then Step(s, [], Thrown(SingleCamera))
    else
      var previewing := s.cam.held && s.req.openedManually;
      var stopped := StopPreview(s.(env := s.env.(cameraId := SwitchedId(s.env.cameraId, facings))));
      var dark := stopped.after.(req := stopped.after.req.(flashEnabled := false));
      if previewing then
        var started := StartPreview(dark, dev);
        Step(started.after, stopped.events + started.events, started.completion)
      else
        Step(dark, stopped.events, Normal)
  }
}
