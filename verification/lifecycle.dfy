/**
  Sequences of calls on one delegate. A caller can invoke the public and
  protected lifecycle operations listed in `Call`, or the platform can deliver
  a callback, in any order; an exception ends the call but not the delegate,
  which keeps the state reached at the throw. Two things hold however these
  calls are ordered and however the platform answers: the flags stay
  `Consistent`, and cameras are accounted for (every open is matched by a
  release or by the camera still being held).

  `openCamera` is public too, but it is not a `Call`: `createCamera` calls it
  only when no camera is held, while a direct call on a held camera replaces
  `mCamera` without releasing the old one, and then neither property holds
  (`OpenCameraWhileHeldLeaks`).
 */
module Lifecycle {
  import CD = CameraDelegate
  import Listeners

  /** One call on the delegate, with the platform's answers for it. */
  datatype Call =
    | StartPreview(dev: CD.Device)
    | StopPreview
    | Stop
    | CreateCamera(dev: CD.Device)
    | UpdateCamera(dev: CD.Device)
    | DestroyCamera
    | Lock
    | Unlock
    | SetFlashState(on: bool, dev: CD.Device)
    | AddListener(l: Listeners.ListenerId)
    | RemoveListener(l: Listeners.ListenerId)
    | SetSurfaceView(v: CD.Surface)
    | SurfaceCreated(dev: CD.Device)
    | SurfaceDestroyed
    | Error(code: int)
    | PreviewFrame
    | SwitchCamera(facings: seq<int>, dev: CD.Device)
    | SetCamera(facings: seq<int>, facing: int)

  function Apply(s: CD.Delegate, c: Call): CD.Step
  {
    match c
    case StartPreview(dev) => CD.StartPreview(s, dev)
    case StopPreview => CD.StopPreview(s)
    case Stop => CD.Stop(s)
    case CreateCamera(dev) => CD.CreateCamera(s, dev)
    case UpdateCamera(dev) => CD.UpdateCamera(s, dev)
    case DestroyCamera => CD.DestroyCamera(s)
    case Lock => CD.Lock(s)
    case Unlock => CD.Unlock(s)
    case SetFlashState(on, dev) => CD.SetFlashState(s, on, dev)
    case AddListener(l) => CD.AddListener(s, l)
    case RemoveListener(l) => CD.RemoveListener(s, l)
    case SetSurfaceView(v) => CD.SetSurfaceView(s, v)
    case SurfaceCreated(dev) => CD.SurfaceCreated(s, dev)
    case SurfaceDestroyed => CD.SurfaceDestroyed(s)
    case Error(code) => CD.OnError(s, code)
    case PreviewFrame => CD.PreviewFrame(s)
    case SwitchCamera(facings, dev) => CD.SwitchCamera(s, facings, dev)
    case SetCamera(facings, facing) => CD.SetCamera(s, facings, facing)
  }

  /** What a sequence of calls leaves behind: the final state, everything
      that happened, and the exceptions the calls threw, in order. */
  datatype History = History(final: CD.Delegate, events: seq<CD.Event>, failures: seq<CD.Failure>)

  function Run(s: CD.Delegate, calls: seq<Call>): History
    decreases |calls|
  {
    if |calls| == 0 then History(s, [], [])
    else
      var r := Apply(s, calls[0]);
      var h := Run(r.after, calls[1..]);
      History(h.final, r.events + h.events,
              (if r.completion.Thrown? then [r.completion.failure] else []) + h.failures)
  }

  /** Opens and releases over a concatenation add up. */
  lemma CountsAdd(a: seq<CD.Event>, b: seq<CD.Event>)
    ensures CD.Opens(a + b) == CD.Opens(a) + CD.Opens(b)
    ensures CD.Releases(a + b) == CD.Releases(a) + CD.Releases(b)
  {
    assert multiset(a + b) == multiset(a) + multiset(b);
  }

  /** Two steps in a row, each balanced, are balanced together. */
  lemma BalancedThen(s: CD.Delegate, r1: CD.Step, r2: CD.Step, es: seq<CD.Event>, c: CD.Completion)
    requires CD.Balanced(s, r1) && CD.Balanced(r1.after, r2)
    requires es == r1.events + r2.events
    ensures CD.Balanced(s, CD.Step(r2.after, es, c))
  {
    CountsAdd(r1.events, r2.events);
  }

  // ---- the flags stay consistent -------------------------------------------

  lemma DestroyKeepsConsistent(s: CD.Delegate)
    requires CD.Consistent(s)
    ensures CD.Consistent(CD.DestroyCamera(s).after)
  {
  }

  lemma CreateKeepsConsistent(s: CD.Delegate, dev: CD.Device)
    requires CD.Consistent(s)
    ensures CD.Consistent(CD.CreateCamera(s, dev).after)
  {
    if CD.SurfaceUsable(s) && !s.cam.held && dev.opens {
      var acquired := CD.OpenCamera(s, dev);
      var reset := acquired.after.(cam := acquired.after.cam.(updated := false, unlocked := false));
      DestroyKeepsConsistent(reset);
    }
  }

  lemma UpdateKeepsConsistent(s: CD.Delegate, dev: CD.Device)
    requires CD.Consistent(s)
    ensures CD.Consistent(CD.UpdateCamera(s, dev).after)
  {
  }

  lemma StartKeepsConsistent(s: CD.Delegate, dev: CD.Device)
    requires CD.Consistent(s)
    ensures CD.Consistent(CD.StartPreview(s, dev).after)
  {
    var wanted := s.(req := s.req.(openedManually := true));
    if !wanted.cam.previewStarted && CD.SurfaceUsable(wanted) {
      CreateKeepsConsistent(wanted, dev);
      var created := CD.CreateCamera(wanted, dev);
      if created.completion.Normal? {
        UpdateKeepsConsistent(created.after, dev);
      }
    }
  }

  lemma SwitchKeepsConsistent(s: CD.Delegate, facings: seq<int>, dev: CD.Device)
    requires CD.Consistent(s)
    ensures CD.Consistent(CD.SwitchCamera(s, facings, dev).after)
  {
    if |facings| != 1 {
      var stopped := CD.StopPreview(s.(env := s.env.(cameraId := CD.SwitchedId(s.env.cameraId, facings))));
      var dark := stopped.after.(req := stopped.after.req.(flashEnabled := false));
      StartKeepsConsistent(dark, dev);
    }
  }

  /** Every operation, whatever the platform answers, keeps the flags
      consistent. */
  lemma ApplyKeepsConsistent(s: CD.Delegate, c: Call)
    requires CD.Consistent(s)
    ensures CD.Consistent(Apply(s, c).after)
  {
    match c
    case StartPreview(dev) => StartKeepsConsistent(s, dev);
    case CreateCamera(dev) => CreateKeepsConsistent(s, dev);
    case UpdateCamera(dev) => UpdateKeepsConsistent(s, dev);
    case SurfaceCreated(dev) =>
      StartKeepsConsistent(s.(env := s.env.(surfaceReady := true)), dev);
    case SwitchCamera(facings, dev) => SwitchKeepsConsistent(s, facings, dev);
    case _ =>
  }

  /** Consistency holds after any sequence of calls from a consistent state. */
  lemma {:induction false} RunKeepsConsistent(s: CD.Delegate, calls: seq<Call>)
    requires CD.Consistent(s)
    ensures CD.Consistent(Run(s, calls).final)
    decreases |calls|
  {
    if |calls| > 0 {
      ApplyKeepsConsistent(s, calls[0]);
      RunKeepsConsistent(Apply(s, calls[0]).after, calls[1..]);
    }
  }

  // ---- cameras are accounted for -------------------------------------------

  lemma LockBalanced(s: CD.Delegate)
    ensures CD.Balanced(s, CD.Lock(s)) && CD.Balanced(s, CD.Unlock(s))
  {
  }

  lemma DestroyBalanced(s: CD.Delegate)
    ensures CD.Balanced(s, CD.DestroyCamera(s))
  {
  }

  lemma StopPreviewBalanced(s: CD.Delegate)
    ensures CD.Balanced(s, CD.Stop(s))
    ensures CD.Balanced(s, CD.StopPreview(s))
  {
  }

  lemma ErrorBalanced(s: CD.Delegate, code: int)
    ensures CD.Balanced(s, CD.OnError(s, code))
  {
    if code == CD.ErrorServerDied {
      StopPreviewBalanced(s);
    }
  }

  /** Listener bookkeeping, a new view, a new camera id and frame delivery
      touch no camera. */
  lemma PassiveBalanced(s: CD.Delegate, l: Listeners.ListenerId, v: CD.Surface, facings: seq<int>, facing: int)
    ensures CD.Balanced(s, CD.SetCamera(s, facings, facing))
    ensures CD.Balanced(s, CD.AddListener(s, l))
    ensures CD.Balanced(s, CD.RemoveListener(s, l))
    ensures CD.Balanced(s, CD.SetSurfaceView(s, v))
    ensures CD.Balanced(s, CD.PreviewFrame(s))
  {
    assert CD.SetCamera(s, facings, facing).after.cam == s.cam;
    assert CD.AddListener(s, l).after.cam.held == s.cam.held;
    assert CD.RemoveListener(s, l).events == [] && CD.SetSurfaceView(s, v).events == [];
    var f := CD.PreviewFrame(s).events;
    assert CD.Opened !in f && CD.Released !in f;
    assert multiset(f)[CD.Opened] == 0 && multiset(f)[CD.Released] == 0;
  }

  /** Configuring a held camera opens nothing and releases it exactly when
      configuration fails. */
  lemma ConfigureCounts(s: CD.Delegate, acquired: seq<CD.Event>, dev: CD.Device)
    requires s.cam.held
    ensures var r := CD.Configure(s, acquired, dev);
            && CD.Opens(r.events) == CD.Opens(acquired)
            && CD.Releases(r.events) == CD.Releases(acquired) + (if r.completion.Thrown? then 1 else 0)
  {
    var reset := s.(cam := s.cam.(updated := false, unlocked := false));
    var flash: seq<CD.Event> := if dev.hasFlashMode then [CD.FlashWritten(s.req.flashEnabled)] else [];
    var destroyed := CD.DestroyCamera(reset).events;
    if !dev.acceptsSettings {
      CountsAdd(acquired, destroyed);
    } else {
      CountsAdd(acquired, flash);
      if !dev.acceptsDisplay {
        CountsAdd(acquired + flash, destroyed);
      }
    }
  }

  lemma CreateBalanced(s: CD.Delegate, dev: CD.Device)
    ensures CD.Balanced(s, CD.CreateCamera(s, dev))
  {
    var r := CD.CreateCamera(s, dev);
    if CD.SurfaceUsable(s) && !s.cam.held && dev.opens {
      var acquired := CD.OpenCamera(s, dev);
      assert r == CD.Configure(acquired.after, acquired.events, dev);
      ConfigureCounts(acquired.after, acquired.events, dev);
      assert r.completion.Thrown? <==> !r.after.cam.held;
    } else {
      assert r.events == [] && r.after.cam.held == s.cam.held;
    }
  }

  lemma UpdateBalanced(s: CD.Delegate, dev: CD.Device)
    ensures CD.Balanced(s, CD.UpdateCamera(s, dev))
  {
    if !s.cam.updated && s.cam.held {
      var sized := s.(cam := s.cam.(previewStarted := false, quality := dev.negotiated));
      var announced := CD.NotifySize(s.env.listeners, dev.negotiated);
      CountsAdd(announced, CD.DestroyCamera(sized).events);
      CountsAdd(announced, [CD.CallbackRegistered]);
    }
  }

  lemma StartBalanced(s: CD.Delegate, dev: CD.Device)
    ensures CD.Balanced(s, CD.StartPreview(s, dev))
  {
    var wanted := s.(req := s.req.(openedManually := true));
    if !wanted.cam.previewStarted && CD.SurfaceUsable(wanted) {
      CreateBalanced(wanted, dev);
      var created := CD.CreateCamera(wanted, dev);
      if created.completion.Normal? {
        UpdateBalanced(created.after, dev);
        var configured := CD.UpdateCamera(created.after, dev);
        BalancedThen(s, created, configured, created.events + configured.events, configured.completion);
      }
    }
  }

  lemma FlashBalanced(s: CD.Delegate, on: bool, dev: CD.Device)
    ensures CD.Balanced(s, CD.SetFlashState(s, on, dev))
  {
    var r := CD.SetFlashState(s, on, dev);
    assert forall i :: 0 <= i < |r.events| ==> r.events[i] != CD.Opened && r.events[i] != CD.Released;
    assert CD.Opened !in r.events && CD.Released !in r.events;
  }

  lemma SwitchBalanced(s: CD.Delegate, facings: seq<int>, dev: CD.Device)
    ensures CD.Balanced(s, CD.SwitchCamera(s, facings, dev))
  {
    if |facings| != 1 {
      var moved := s.(env := s.env.(cameraId := CD.SwitchedId(s.env.cameraId, facings)));
      var stopped := CD.StopPreview(moved);
      StopPreviewBalanced(moved);
      var dark := stopped.after.(req := stopped.after.req.(flashEnabled := false));
      if s.cam.held && s.req.openedManually {
        StartBalanced(dark, dev);
        var started := CD.StartPreview(dark, dev);
        BalancedThen(s, CD.Step(dark, stopped.events, CD.Normal), started,
                     stopped.events + started.events, started.completion);
      }
    }
  }

  /** Every operation, whatever the platform answers and whatever state it
      starts from, opens exactly as many cameras as it releases, plus one if
      it leaves a camera held that was not held before, minus one if it drops
      a camera that was. */
  lemma ApplyBalanced(s: CD.Delegate, c: Call)
    ensures CD.Balanced(s, Apply(s, c))
  {
    if c.StartPreview? || c.CreateCamera? || c.UpdateCamera? || c.SurfaceCreated? || c.SwitchCamera? {
      ActiveBalanced(s, c);
    } else {
      RoutineBalanced(s, c);
    }
  }

  /** The calls that can open a camera. */
  lemma ActiveBalanced(s: CD.Delegate, c: Call)
    requires c.StartPreview? || c.CreateCamera? || c.UpdateCamera? || c.SurfaceCreated? || c.SwitchCamera?
    ensures CD.Balanced(s, Apply(s, c))
  {
    match c
    case StartPreview(dev) => StartBalanced(s, dev);
    case CreateCamera(dev) => CreateBalanced(s, dev);
    case UpdateCamera(dev) => UpdateBalanced(s, dev);
    case SurfaceCreated(dev) => StartBalanced(s.(env := s.env.(surfaceReady := true)), dev);
    case SwitchCamera(facings, dev) => SwitchBalanced(s, facings, dev);
  }

  /** The calls that never open a camera. */
  lemma RoutineBalanced(s: CD.Delegate, c: Call)
    requires !(c.StartPreview? || c.CreateCamera? || c.UpdateCamera? || c.SurfaceCreated? || c.SwitchCamera?)
    ensures CD.Balanced(s, Apply(s, c))
  {
    match c
    case StopPreview => StopPreviewBalanced(s);
    case Stop => StopPreviewBalanced(s);
    case DestroyCamera => DestroyBalanced(s);
    case Lock => LockBalanced(s);
    case Unlock => LockBalanced(s);
    case SetFlashState(on, dev) => FlashBalanced(s, on, dev);
    case AddListener(l) => PassiveBalanced(s, l, CD.NoView, [], 0);
    case RemoveListener(l) => PassiveBalanced(s, l, CD.NoView, [], 0);
    case SetSurfaceView(v) => PassiveBalanced(s, 0, v, [], 0);
    case SetCamera(facings, facing) => PassiveBalanced(s, 0, CD.NoView, facings, facing);
    case SurfaceDestroyed => StopPreviewBalanced(s.(env := s.env.(surfaceReady := false)));
    case Error(code) => ErrorBalanced(s, code);
    case PreviewFrame => PassiveBalanced(s, 0, CD.NoView, [], 0);
  }

  /** Calling `openCamera` directly while a camera is held opens a second
      camera and drops the first without releasing it: the step is not
      balanced, and a running preview is left without its frame callback. */
  lemma OpenCameraWhileHeldLeaks(s: CD.Delegate, dev: CD.Device)
    requires s.cam.held && dev.opens
    ensures var r := CD.OpenCamera(s, dev);
            && CD.Opens(r.events) == 1 && CD.Releases(r.events) == 0
            && CD.Held(r.after) == CD.Held(s) && !CD.Balanced(s, r)
    ensures s.cam.previewStarted ==> !CD.Consistent(CD.OpenCamera(s, dev).after)
  {
  }

  /** Over any sequence of calls, opens minus releases is the change in the
      number of cameras held. */
  lemma {:induction false} RunBalanced(s: CD.Delegate, calls: seq<Call>)
    ensures CD.Opens(Run(s, calls).events) - CD.Releases(Run(s, calls).events)
            == CD.Held(Run(s, calls).final) - CD.Held(s)
    decreases |calls|
  {
    if |calls| > 0 {
      var r := Apply(s, calls[0]);
      ApplyBalanced(s, calls[0]);
      RunBalanced(r.after, calls[1..]);
      CountsAdd(r.events, Run(r.after, calls[1..]).events);
    }
  }

  /** From a new delegate, whatever is called: every release is of a camera
      that was opened, at most one camera is open at a time, and the camera
      still open is exactly the one the delegate holds. */
  lemma FromInitial(q: CD.Size, calls: seq<Call>)
    ensures var h := Run(CD.Initial(q), calls);
            && CD.Consistent(h.final)
            && CD.Releases(h.events) <= CD.Opens(h.events) <= CD.Releases(h.events) + 1
            && (CD.Opens(h.events) == CD.Releases(h.events) + 1 <==> h.final.cam.held)
  {
    RunKeepsConsistent(CD.Initial(q), calls);
    RunBalanced(CD.Initial(q), calls);
  }

  /** Ending with `stopPreview` releases every camera that was opened. */
  lemma StopPreviewReleasesAll(q: CD.Size, calls: seq<Call>)
    ensures var h := Run(CD.Initial(q), calls + [StopPreview]);
            CD.Opens(h.events) == CD.Releases(h.events) && !h.final.cam.held
  {
    RunBalanced(CD.Initial(q), calls + [StopPreview]);
    RunLast(CD.Initial(q), calls, StopPreview);
  }

  /** Running one more call continues from where the others left off. */
  lemma {:induction false} RunLast(s: CD.Delegate, calls: seq<Call>, c: Call)
    ensures Run(s, calls + [c]).final == Apply(Run(s, calls).final, c).after
    decreases |calls|
  {
    if |calls| > 0 {
      assert (calls + [c])[1..] == calls[1..] + [c];
      RunLast(Apply(s, calls[0]).after, calls[1..], c);
    }
  }
}
