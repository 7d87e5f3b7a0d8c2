/**
 * `initLiquidEther`: the objects of the effect wired together with the configuration's values,
 * and the per-frame `loop` and the resize and visibility handlers that drive them.
 */
module LiquidEther {
  import opened JsMath
  import opened Options
  import opened Geometry
  import opened FluidGrid
  import opened Pointer
  import opened Passes
  import opened Scheduler

  /** The configuration values the control layer reads. */
  const AutoDemo := true
  const AutoSpeed := 0.5
  const AutoIntensity := 2.2
  const TakeoverDuration := 0.25
  const AutoResumeDelay := 3000.0
  const AutoRampDuration := 0.6

  class Effect {
    const common: Common
    const mouse: Mouse
    const manager: Manager
    const driver: AutoDriver
    const sim: Simulation
    const frames: FrameLoop

    /**
     * The wiring `initLiquidEther` sets up: the tracker's callback stops this autopilot, which
     * drives this tracker and shares this `manager`.
     */
    ghost predicate Valid()
      reads this, mouse, driver, sim
    {
      && mouse.onInteract == driver && driver.mouse == mouse && driver.manager == manager
      && mouse.takeoverDuration > 0.0 && driver.Valid() && sim.Valid()
    }

    /**
     * `initLiquidEther` past its container check, up to the first `loop()` call: the size is
     * taken from the container, the tracker and the autopilot are created and wired, and the
     * simulation allocates its targets at the grid size. `r1`, `r2` are the autopilot's first
     * `Math.random()` draws and `now` is `performance.now()`.
     */
    constructor (container: Rect, now: real, r1: real, r2: real, hidden: bool)
      requires now >= 0.0 && 0.0 <= r1 < 1.0 && 0.0 <= r2 < 1.0
      ensures Valid() && mouse.Wired()
      ensures fresh(common) && fresh(mouse) && fresh(manager) && fresh(driver) && fresh(sim) && fresh(frames)
      ensures common.width == AtLeastOne(container.width) && common.height == AtLeastOne(container.height)
      ensures sim.fboSize == CalcSize(DefaultOptions.resolution, common.width, common.height)
      ensures sim.options == DefaultOptions
      ensures manager.lastUserInteraction == now && driver.lastTime == now
      ensures driver.enabled == AutoDemo && driver.speed == AutoSpeed && driver.resumeDelay == AutoResumeDelay
      ensures !driver.active && !mouse.isAutoActive && !mouse.takeoverActive
      ensures frames.State() == Init(hidden)
    {
      var c := new Common();
      c.Resize(Some(container));
      var m := new Mouse(AutoIntensity, TakeoverDuration);
      var mgr := new Manager(now);
      var d := new AutoDriver(m, mgr, AutoDemo, AutoSpeed, AutoResumeDelay, AutoRampDuration, now, r1, r2);
      m.onInteract := d;
      var s := new Simulation(DefaultOptions, c.width, c.height);
      var f := new FrameLoop(hidden);
      common, mouse, manager, driver, sim, frames := c, m, mgr, d, s, f;
    }

    /**
     * One `loop()` frame: the autopilot, then the tracker, then the simulation step. With the
     * configured iteration counts the step always renders, in the fixed order of its stages.
     */
    method Frame(now: real, length: (real, real) -> real, r1: real, r2: real) returns (trace: Option<seq<Pass>>)
      requires Valid() && IsEuclidean(length)
      requires now >= driver.lastTime
      requires 0.0 <= r1 < 1.0 && 0.0 <= r2 < 1.0
      requires sim.options == DefaultOptions
      modifies driver, mouse`isAutoActive, mouse`coords, mouse`mouseMoved, mouse`coordsOld, mouse`diff,
               mouse`takeoverActive, sim`boundarySpace
      ensures Valid() && mouse.Wired()
      ensures trace.Some? && StepShape(trace.value, DefaultOptions.iterationsViscous, DefaultOptions.iterationsPoisson)
      ensures mouse.coordsOld == mouse.coords
      // The autopilot: idle when disabled, stopped when held, otherwise active and stepping.
      ensures !driver.enabled ==> driver.State() == old(driver.State()) && mouse.isAutoActive == old(mouse.isAutoActive)
      ensures driver.enabled && old(driver.Held(now)) ==>
        driver.State() == old(driver.State()).(active := false) &&
        mouse.isAutoActive == (old(mouse.isAutoActive) && !old(driver.active))
      ensures driver.enabled && !old(driver.Held(now)) ==> driver.active && mouse.isAutoActive && driver.lastTime == now
      // Without a takeover the pointer stays where it was, or follows the autopilot when it steps.
      ensures !old(mouse.takeoverActive) ==> !mouse.takeoverActive
      ensures !old(mouse.takeoverActive) && !(driver.enabled && !old(driver.Held(now))) ==>
        mouse.coords == old(mouse.coords)
      ensures !old(mouse.takeoverActive) && driver.enabled && !old(driver.Held(now)) ==>
        var start := old(driver.Start());
        var dist := length(old(driver.target).x - start.x, old(driver.target).y - start.y);
        && (dist < 0.01 ==> mouse.coords == old(mouse.coords) && driver.target == PickTarget(r1, r2, driver.margin))
        && (dist >= 0.01 ==> mouse.coords == driver.current && driver.target == old(driver.target))
      // A running takeover overrides the pointer position along its eased curve.
      ensures old(mouse.takeoverActive) ==>
        var t := old(mouse.TakeoverProgress(now));
        && (t >= 1.0 ==> mouse.coords == old(mouse.takeoverTo) && mouse.diff == Origin && !mouse.takeoverActive)
        && (t < 1.0 ==>
              mouse.takeoverActive && mouse.coords == old(mouse.takeoverFrom).Lerp(old(mouse.takeoverTo), Smoothstep(t)))
      // The displacement since the last frame, amplified while the autopilot drives.
      ensures mouse.coords == Origin ==> mouse.diff == Origin
      ensures !(old(mouse.takeoverActive) && old(mouse.TakeoverProgress(now)) >= 1.0) && mouse.coords != Origin ==>
        mouse.diff == mouse.coords.Sub(old(mouse.coordsOld)).Scale(
          if mouse.isAutoActive && !mouse.takeoverActive then mouse.autoIntensity else 1.0)
      // The configuration does not bounce, so the boundary is one cell wide.
      ensures sim.boundarySpace == sim.fboSize.cellScale
    {
      driver.Update(now, length, r1, r2);
      mouse.Update(now);
      trace := sim.Update();
    }

    /**
     * A `mousemove` on the window, handled as evidently intended: whether the autopilot was
     * driving is read before the callback stops it, so moving onto the surface while it drives
     * starts the eased takeover towards the pointer.
     */
    method OnMouseMove(container: Option<Rect>, cx: real, cy: real, now: real)
      requires Valid() && mouse.Wired()
      modifies mouse, driver, manager
      ensures Valid() && mouse.Wired()
      ensures var s := old(mouse.State());
        var inside := IsPointInside(container, cx, cy);
        var takeover := s.isAutoActive && !s.hasUserControl && !s.takeoverActive;
        && (!inside ==> mouse.State() == s.(isHoverInside := false))
        && (inside && takeover ==>
              mouse.State() == s.(isHoverInside := true, takeoverFrom := s.coords,
                                  takeoverTo := Normalize(container.value, cx, cy), takeoverStartTime := now,
                                  takeoverActive := true, hasUserControl := true, isAutoActive := false))
        && (inside && !takeover ==>
              mouse.State() == s.(isHoverInside := true, isAutoActive := false,
                                  coords := Normalize(container.value, cx, cy), mouseMoved := true,
                                  timerArmed := true, hasUserControl := true))
      ensures IsPointInside(container, cx, cy) ==>
        manager.lastUserInteraction == now && driver.State() == old(driver.State()).(active := false)
      ensures !IsPointInside(container, cx, cy) ==>
        manager.lastUserInteraction == old(manager.lastUserInteraction) && driver.State() == old(driver.State())
    {
      mouse.OnMouseMoveWithTakeover(container, cx, cy, now);
    }

    /** `onResize`: the size is re-read from the container and every target takes the new grid size. */
    method OnResize(container: Rect)
      requires Valid()
      modifies common, sim`fboSize, sim`fbos
      ensures Valid()
      ensures common.width == AtLeastOne(container.width) && common.height == AtLeastOne(container.height)
      ensures sim.fboSize == CalcSize(sim.options.resolution, common.width, common.height)
    {
      common.Resize(Some(container));
      sim.Resize(common.width, common.height);
    }

    /**
     * The `visibilitychange` listener; when it restarts the loop, the frame `loop()` renders at
     * once is `trace`.
     */
    method OnVisibilityChange(nowHidden: bool, now: real, length: (real, real) -> real, r1: real, r2: real)
      returns (trace: Option<Option<seq<Pass>>>)
      requires Valid() && IsEuclidean(length)
      requires now >= driver.lastTime
      requires 0.0 <= r1 < 1.0 && 0.0 <= r2 < 1.0
      requires sim.options == DefaultOptions
      modifies frames, driver, mouse`isAutoActive, mouse`coords, mouse`mouseMoved, mouse`coordsOld,
               mouse`diff, mouse`takeoverActive, sim`boundarySpace
      ensures Valid()
      ensures frames.State() == Step(old(frames.State()), VisibilityChange(nowHidden))
      ensures trace.Some? <==> Starts(old(frames.State()), VisibilityChange(nowHidden))
      ensures trace.Some? ==>
        trace.value.Some? && StepShape(trace.value.value, DefaultOptions.iterationsViscous, DefaultOptions.iterationsPoisson)
      ensures trace.None? ==> unchanged(driver) && unchanged(mouse) && unchanged(sim)
    {
      var start := frames.OnVisibilityChange(nowHidden);
      trace := None;
      if start {
        var t := Frame(now, length, r1, r2);
        trace := Some(t);
      }
    }

    /** The intersection observer's callback, with the frame it renders when it restarts the loop. */
    method OnIntersection(isIntersecting: bool, now: real, length: (real, real) -> real, r1: real, r2: real)
      returns (trace: Option<Option<seq<Pass>>>)
      requires Valid() && IsEuclidean(length)
      requires now >= driver.lastTime
      requires 0.0 <= r1 < 1.0 && 0.0 <= r2 < 1.0
      requires sim.options == DefaultOptions
      modifies frames, driver, mouse`isAutoActive, mouse`coords, mouse`mouseMoved, mouse`coordsOld,
               mouse`diff, mouse`takeoverActive, sim`boundarySpace
      ensures Valid()
      ensures frames.State() == Step(old(frames.State()), Intersection(isIntersecting))
      ensures trace.Some? <==> Starts(old(frames.State()), Intersection(isIntersecting))
      ensures trace.Some? ==>
        trace.value.Some? && StepShape(trace.value.value, DefaultOptions.iterationsViscous, DefaultOptions.iterationsPoisson)
      ensures trace.None? ==> unchanged(driver) && unchanged(mouse) && unchanged(sim)
    {
      var start := frames.OnIntersection(isIntersecting);
      trace := None;
      if start {
        var t := Frame(now, length, r1, r2);
        trace := Some(t);
      }
    }
  }

  /**
   * `initLiquidEther`: without a `#liquid-ether-bg` container nothing is created. Otherwise the
   * effect is built and the closing `loop()` call renders a first frame at once, at time
   * `frameNow` with the draws `frameR1`, `frameR2`; the loop is then running even when the
   * document starts hidden. The first frame falls within the resume delay of the interaction
   * time the manager starts with, so the autopilot is not yet active after it.
   */
  method InitLiquidEther(container: Option<Rect>, now: real, r1: real, r2: real, hidden: bool,
                         frameNow: real, length: (real, real) -> real, frameR1: real, frameR2: real)
    returns (effect: Effect?, trace: Option<seq<Pass>>)
    requires now >= 0.0 && 0.0 <= r1 < 1.0 && 0.0 <= r2 < 1.0
    requires now <= frameNow < now + AutoResumeDelay && IsEuclidean(length)
    requires 0.0 <= frameR1 < 1.0 && 0.0 <= frameR2 < 1.0
    ensures effect == null <==> container.None?
    ensures effect == null ==> trace.None?
    ensures effect != null ==> fresh(effect) && effect.Valid() && effect.frames.State() == Init(hidden)
    ensures effect != null ==>
      trace.Some? && StepShape(trace.value, DefaultOptions.iterationsViscous, DefaultOptions.iterationsPoisson)
    ensures effect != null ==> !effect.driver.active && effect.mouse.coordsOld == effect.mouse.coords
  {
    if container.None? {
      return null, None;
    }
    effect := new Effect(container.value, now, r1, r2, hidden);
    assert effect.driver.Held(frameNow);
    ghost var state := effect.frames.State();
    trace := effect.Frame(frameNow, length, frameR1, frameR2);
    assert effect.frames.State() == state;
  }
}
