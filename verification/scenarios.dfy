/**
  Short call sequences on the delegate whose outcome is fixed by the code:
  what a deferred start does and does not lead to, recovery after the media
  server dies, the flash setting across calls and reopenings, what listeners
  hear and in which order, and how locking composes.
 */
module Scenarios {
  import opened CameraDelegate
  import opened Listeners

  /** A platform that accepts every call. */
  predicate Cooperative(dev: Device)
  {
    && dev.opens && dev.acceptsSettings && dev.acceptsDisplay
    && dev.acceptsPreviewSettings && dev.acceptsPreviewDisplay && dev.startsPreview
    && dev.acceptsFlash
  }

  // ---- locking -------------------------------------------------------------

  /** Locking twice does nothing the second time. */
  lemma LockIdempotent(s: Delegate)
    ensures Lock(Lock(s).after) == Step(Lock(s).after, [], Normal)
    ensures Unlock(Unlock(s).after) == Step(Unlock(s).after, [], Normal)
  {
  }

  /** Lock and unlock undo each other: the flag is the only thing they touch. */
  lemma LockUnlockInverse(s: Delegate)
    ensures Lock(Unlock(s).after).after == Lock(s).after
    ensures Unlock(Lock(s).after).after == Unlock(s).after
    ensures !s.cam.unlocked ==> Lock(Unlock(s).after).after == s
    ensures s.cam.unlocked ==> Unlock(Lock(s).after).after == s
  {
  }

  // ---- starting and stopping -----------------------------------------------

  /** A start that is deferred for want of a surface opens nothing, and when
      the surface then goes away the delegate stops cleanly. */
  lemma DeferredStartThenSurfaceDestroyed(s: Delegate, dev: Device)
    requires !s.cam.previewStarted && s.env.surface.View? && !SurfaceUsable(s)
    ensures var a := StartPreview(s, dev);
            var b := SurfaceDestroyed(a.after);
            && a.completion == Normal && a.events == [] && a.after.req.startRequested
            && b.completion == Normal && Opened !in b.events
            && !b.after.cam.held && !b.after.req.openedManually
  {
  }

  /** A deferred start is NOT resumed when the surface becomes ready: with no
      camera held, `surfaceCreated` opens nothing even though a start is
      pending and the surface is now usable. */
  lemma DeferredStartNotResumed(s: Delegate, first: Device, second: Device)
    requires Consistent(s) && !s.cam.held
    requires s.env.surface == View(true) && !s.env.surfaceReady
    ensures var a := StartPreview(s, first);
            var b := SurfaceCreated(a.after, second);
            && a.after.req.startRequested && a.events == []
            && b.after.req.startRequested && SurfaceUsable(b.after)
            && b.events == [] && !b.after.cam.held && !b.after.cam.previewStarted
  {
  }

  /** When a camera is held, the surface becoming ready restarts the preview. */
  lemma SurfaceCreatedRestartsHeldCamera(s: Delegate, dev: Device)
    requires Consistent(s) && s.cam.held && !s.cam.previewStarted
    requires s.env.surface == View(true) && Cooperative(dev)
    ensures var r := SurfaceCreated(s, dev);
            r.completion == Normal && r.after.cam.previewStarted && Opens(r.events) == 0
  {
  }

  /** `createCamera` on a cooperative platform with no camera held: one
      camera opened, listeners told, the flash setting written if there is a
      flash mode, and the camera left held but unconfigured. */
  lemma CreateTrace(s: Delegate, dev: Device)
    requires !s.cam.held && SurfaceUsable(s) && dev.opens && dev.acceptsSettings && dev.acceptsDisplay
    ensures var r := CreateCamera(s, dev);
            && r.completion == Normal && r.after.cam.held && !r.after.cam.updated
            && r.after.env == s.env
            && r.events == [Opened] + NotifyStarted(s.env.listeners)
                           + (if dev.hasFlashMode then [FlashWritten(s.req.flashEnabled)] else [])
  {
    var acquired := OpenCamera(s, dev);
    assert acquired.events == [Opened] + NotifyStarted(s.env.listeners);
  }

  /** `updateCamera` on a cooperative platform with an unconfigured camera
      and a view: the size is announced, then the callback registered, and the
      camera is previewing at the negotiated size. */
  lemma UpdateTrace(s: Delegate, dev: Device)
    requires s.cam.held && !s.cam.updated && s.env.surface.View?
    requires dev.acceptsPreviewSettings && dev.acceptsPreviewDisplay && dev.startsPreview
    ensures var r := UpdateCamera(s, dev);
            && r.completion == Normal && r.after.cam.held && r.after.cam.previewStarted
            && r.after.cam.quality == dev.negotiated
            && r.events == NotifySize(s.env.listeners, dev.negotiated) + [CallbackRegistered]
  {
  }

  /** `startPreview` past its guards is `createCamera` followed, if that
      returned normally, by `updateCamera`. */
  lemma StartComposes(s: Delegate, dev: Device, created: Step, configured: Step)
    requires !s.cam.previewStarted && SurfaceUsable(s)
    requires created == CreateCamera(s.(req := s.req.(openedManually := true)), dev)
    requires created.completion == Normal && configured == UpdateCamera(created.after, dev)
    ensures var r := StartPreview(s, dev);
            && r.after == configured.after && r.completion == configured.completion
            && r.events == created.events + configured.events
  {
  }

  /** The full trace of a cold start on a cooperative platform: the camera is
      opened, every listener hears that it started, the flash setting is
      written if the camera has a flash mode, every listener hears the
      negotiated size, and only then is the frame callback registered. */
  lemma ColdStartTrace(s: Delegate, dev: Device)
    requires Consistent(s) && !s.cam.held && SurfaceUsable(s) && Cooperative(dev)
    ensures var r := StartPreview(s, dev);
            && r.completion == Normal
            && r.after.cam.held && r.after.cam.previewStarted && r.after.cam.quality == dev.negotiated
            && r.events == [Opened] + NotifyStarted(s.env.listeners)
                           + (if dev.hasFlashMode then [FlashWritten(s.req.flashEnabled)] else [])
                           + NotifySize(s.env.listeners, dev.negotiated) + [CallbackRegistered]
  {
    var wanted := s.(req := s.req.(openedManually := true));
    CreateTrace(wanted, dev);
    var created := CreateCamera(wanted, dev);
    assert created.after.env == s.env && s.env.surface.View?;
    UpdateTrace(created.after, dev);
    var configured := UpdateCamera(created.after, dev);
    StartComposes(s, dev, created, configured);
    var r := StartPreview(s, dev);
    var opening := [Opened] + NotifyStarted(s.env.listeners)
                   + (if dev.hasFlashMode then [FlashWritten(s.req.flashEnabled)] else []);
    var sizing := NotifySize(s.env.listeners, dev.negotiated);
    assert created.events == opening;
    assert configured.events == sizing + [CallbackRegistered];
    assert r.events == opening + (sizing + [CallbackRegistered]);
    Regroup(opening, sizing, [CallbackRegistered]);
  }

  /** Concatenation regroups. */
  lemma Regroup(a: seq<Event>, b: seq<Event>, c: seq<Event>)
    ensures a + (b + c) == a + b + c
  {
  }

  /** Stopping twice releases the camera once; the second stop does nothing. */
  lemma StopPreviewTwice(s: Delegate)
    ensures var a := StopPreview(s);
            var b := StopPreview(a.after);
            && b == Step(a.after, [], Normal)
            && Releases(a.events) + Releases(b.events) == Held(s)
  {
  }

  /** After the media server dies the camera is gone and no longer wanted;
      a later `startPreview` on a cooperative platform opens a new camera and
      previews again, although `mUpdated` survived the teardown. */
  lemma ServerDiedThenRestart(s: Delegate, dev: Device)
    requires Consistent(s) && s.cam.previewStarted && SurfaceUsable(s) && Cooperative(dev)
    ensures var died := OnError(s, ErrorServerDied);
            var again := StartPreview(died.after, dev);
            && died.completion == Normal && Releases(died.events) == 1 && Opens(died.events) == 0
            && !died.after.cam.held && died.after.cam.updated && !died.after.req.openedManually
            && again.completion == Normal && again.after.cam.previewStarted
            && Opens(again.events) == 1 && Releases(again.events) == 0
  {
    var died := OnError(s, ErrorServerDied);
    ColdStartTrace(died.after, dev);
  }

  /** Any other camera error is ignored. */
  lemma OtherErrorsIgnored(s: Delegate, code: int)
    requires code != ErrorServerDied
    ensures OnError(s, code).after == s && OnError(s, code).events == []
  {
  }

  /** `updateCamera` after the view was taken away: every listener has
      already heard the size when the missing view throws, and the camera
      stays held, unconfigured and not previewing. */
  lemma UpdateWithoutViewKeepsCamera(s: Delegate, dev: Device)
    requires Consistent(s) && s.cam.held && !s.cam.updated
    ensures var a := SetSurfaceView(s, NoView);
            var b := UpdateCamera(a.after, dev);
            && b.completion == Thrown(NullSurfaceView)
            && b.events == NotifySize(s.env.listeners, dev.negotiated)
            && b.after.cam.held && !b.after.cam.previewStarted && Consistent(b.after)
  {
  }

  // ---- the flash -----------------------------------------------------------

  /** On a camera without a flash mode every attempt fails the same way,
      keeps the recorded setting and leaves the preview alone. */
  lemma FlashUnsupportedRepeats(s: Delegate, on: bool, again: bool, dev: Device)
    requires s.cam.held && !dev.hasFlashMode
    ensures var a := SetFlashState(s, on, dev);
            var b := SetFlashState(a.after, again, dev);
            && a.completion == Thrown(FlashUnsupported) && b.completion == Thrown(FlashUnsupported)
            && b.after.req.flashEnabled == s.req.flashEnabled
            && b.after.cam == s.cam.(unlocked := false)
  {
  }

  /** A setting recorded while no camera is held is written to the camera the
      next start opens. */
  lemma FlashAppliedOnOpen(s: Delegate, on: bool, dev: Device)
    requires Consistent(s) && !s.cam.held && SurfaceUsable(s) && Cooperative(dev) && dev.hasFlashMode
    ensures var a := SetFlashState(s, on, dev);
            var b := StartPreview(a.after, dev);
            && a.events == []
            && FlashWritten(on) in b.events && b.after.cam.previewStarted && b.after.req.flashEnabled == on
  {
    var a := SetFlashState(s, on, dev);
    ColdStartTrace(a.after, dev);
  }

  /** A successful flash change on a held camera leaves it unlocked, so a
      later teardown has to reconnect it first. */
  lemma FlashThenStopReconnects(s: Delegate, on: bool, dev: Device)
    requires s.cam.held && dev.hasFlashMode
    ensures var a := SetFlashState(s, on, dev);
            var b := StopPreview(a.after);
            a.after.cam.unlocked && b.events == [Reconnected, Released]
  {
  }

  // ---- listeners -----------------------------------------------------------

  /** A listener added while previewing receives the next frame, after the
      listeners that were there before. */
  lemma AddedListenerGetsFrames(s: Delegate, l: ListenerId)
    requires Consistent(s) && s.cam.previewStarted
    ensures var a := AddListener(s, l);
            PreviewFrame(a.after).events == NotifyFrame(s.env.listeners, s.cam.quality) + [Frame(l, s.cam.quality)]
  {
    var a := AddListener(s, l);
    assert a.after.env.listeners == s.env.listeners + [l];
  }

  /** A listener registered once and then removed receives no further frames,
      while every other registration still does. */
  lemma RemovedListenerGetsNoFrames(s: Delegate, l: ListenerId)
    requires multiset(s.env.listeners)[l] <= 1
    ensures var f := PreviewFrame(RemoveListener(s, l).after);
            && (forall i :: 0 <= i < |f.events| ==> f.events[i].listener != l)
            && multiset(RemoveListener(s, l).after.env.listeners) == multiset(s.env.listeners) - multiset{l}
  {
    var ls := Remove(s.env.listeners, l);
    RemoveTakesOne(s.env.listeners, l);
    assert l !in multiset(ls);
    var f := PreviewFrame(RemoveListener(s, l).after);
    forall i | 0 <= i < |f.events|
      ensures f.events[i].listener != l
    {
      assert f.events[i] == Frame(ls[i], s.cam.quality);
      assert ls[i] in multiset(ls);
    }
  }

  // ---- switching -----------------------------------------------------------

  /** Switching while previewing on a cooperative platform ends previewing the
      switched-to camera with the flash setting off. */
  lemma SwitchWhilePreviewing(s: Delegate, facings: seq<int>, dev: Device)
    requires Consistent(s) && s.cam.previewStarted && s.req.openedManually
    requires |facings| != 1 && SurfaceUsable(s) && Cooperative(dev)
    ensures var r := SwitchCamera(s, facings, dev);
            && r.completion == Normal && r.after.cam.previewStarted && !r.after.req.flashEnabled
            && r.after.env.cameraId == SwitchedId(s.env.cameraId, facings)
            && Releases(r.events) == 1 && Opens(r.events) == 1
  {
    var moved := s.(env := s.env.(cameraId := SwitchedId(s.env.cameraId, facings)));
    var stopped := StopPreview(moved);
    var dark := stopped.after.(req := stopped.after.req.(flashEnabled := false));
    ColdStartTrace(dark, dev);
    var started := StartPreview(dark, dev);
    assert multiset(stopped.events + started.events) == multiset(stopped.events) + multiset(started.events);
  }
}
