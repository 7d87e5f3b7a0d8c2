/**
 * The input-control layer of the fluid effect: the pointer tracker `Mouse`, the idle-time
 * autopilot `AutoDriver` and the `manager` record of the last user interaction.
 *
 * The three refer to each other: the autopilot reads and writes the tracker, and the tracker's
 * `onInteract` callback (installed by `initLiquidEther`) stamps the manager and stops the
 * autopilot. The callback is modelled as a reference to the autopilot it stops.
 */
module Pointer {
  import opened JsMath
  import opened Options
  import opened Geometry

  /** `isPointInside`: a zero-area (or missing) surface never contains a point; edges count as inside. */
  predicate IsPointInside(container: Option<Rect>, cx: real, cy: real)
  {
    && container.Some?
    && container.value.width != 0.0 && container.value.height != 0.0
    && container.value.left <= cx <= container.value.Right()
    && container.value.top <= cy <= container.value.Bottom()
  }

  /** Screen point to simulation space: x from -1 (left) to 1 (right), y flipped so 1 is the top. */
  function Normalize(r: Rect, x: real, y: real): Vec2
    requires r.width != 0.0 && r.height != 0.0
  {
    Vec2(((x - r.left) / r.width) * 2.0 - 1.0, -(((y - r.top) / r.height) * 2.0 - 1.0))
  }

  /** The screen point that a point of simulation space stands for. */
  function Denormalize(r: Rect, p: Vec2): Vec2
  {
    Vec2(r.left + (p.x + 1.0) / 2.0 * r.width, r.top + (1.0 - p.y) / 2.0 * r.height)
  }

  /** A point inside the surface normalises into [-1, 1] x [-1, 1]. */
  lemma InsideNormalizesIntoRange(container: Option<Rect>, cx: real, cy: real)
    requires IsPointInside(container, cx, cy)
    ensures container.value.width > 0.0 && container.value.height > 0.0
    ensures var p := Normalize(container.value, cx, cy);
      -1.0 <= p.x <= 1.0 && -1.0 <= p.y <= 1.0
  {
    var r := container.value;
    var u := (cx - r.left) / r.width;
    var v := (cy - r.top) / r.height;
    assert 0.0 <= u <= 1.0 by {
      assert u * r.width == cx - r.left;
    }
    assert 0.0 <= v <= 1.0 by {
      assert v * r.height == cy - r.top;
    }
  }

  /** Normalising inverts `Denormalize`, and a point of [-1, 1]^2 lands inside the surface. */
  lemma NormalizeDenormalize(r: Rect, p: Vec2)
    requires r.width > 0.0 && r.height > 0.0
    ensures Normalize(r, Denormalize(r, p).x, Denormalize(r, p).y) == p
    ensures -1.0 <= p.x <= 1.0 && -1.0 <= p.y <= 1.0 ==>
      IsPointInside(Some(r), Denormalize(r, p).x, Denormalize(r, p).y)
  {
    var q := Denormalize(r, p);
    var u, v := (p.x + 1.0) / 2.0, (1.0 - p.y) / 2.0;
    assert q.x - r.left == u * r.width;
    assert q.y - r.top == v * r.height;
    assert (u * r.width) / r.width == u;
    assert (v * r.height) / r.height == v;
    if -1.0 <= p.x <= 1.0 && -1.0 <= p.y <= 1.0 {
      MulNonNegative(u, r.width);
      MulNonNegative(1.0 - u, r.width);
      MulNonNegative(v, r.height);
      MulNonNegative(1.0 - v, r.height);
    }
  }

  /** The fields of `Mouse` other than its configuration and its callback, as one value. */
  datatype MouseState = MouseState(
    mouseMoved: bool, timerArmed: bool,
    coords: Vec2, coordsOld: Vec2, diff: Vec2,
    isHoverInside: bool, hasUserControl: bool, isAutoActive: bool,
    takeoverActive: bool, takeoverStartTime: real, takeoverFrom: Vec2, takeoverTo: Vec2)

  /** The pointer tracker. `timerArmed` stands for the pending 100 ms timer that clears `mouseMoved`. */
  class Mouse {
    var mouseMoved: bool
    var timerArmed: bool
    var coords: Vec2
    var coordsOld: Vec2
    var diff: Vec2
    var isHoverInside: bool
    var hasUserControl: bool
    var isAutoActive: bool
    const autoIntensity: real
    var takeoverActive: bool
    var takeoverStartTime: real
    /** In seconds. */
    const takeoverDuration: real
    var takeoverFrom: Vec2
    var takeoverTo: Vec2
    /** `onInteract`: the autopilot the callback stops, or `null` before it is installed. */
    var onInteract: AutoDriver?

    ghost function State(): MouseState
      reads this
    {
      MouseState(mouseMoved, timerArmed, coords, coordsOld, diff, isHoverInside, hasUserControl,
        isAutoActive, takeoverActive, takeoverStartTime, takeoverFrom, takeoverTo)
    }

    /** The callback's autopilot drives this tracker. */
    ghost predicate Wired()
      reads this, if onInteract != null then {onInteract} else {}
    {
      onInteract != null ==> onInteract.mouse == this
    }

    /** What the callback may write besides this tracker. */
    ghost function HookFrame(): set<object>
      reads this, if onInteract != null then {onInteract} else {}
    {
      if onInteract == null then {} else {onInteract, onInteract.manager}
    }

    constructor (autoIntensity: real, takeoverDuration: real)
      requires takeoverDuration > 0.0
      ensures this.autoIntensity == autoIntensity && this.takeoverDuration == takeoverDuration
      ensures State() == MouseState(false, false, Origin, Origin, Origin, false, false, false, false, 0.0, Origin, Origin)
      ensures onInteract == null
    {
      this.autoIntensity := autoIntensity;
      this.takeoverDuration := takeoverDuration;
      mouseMoved, timerArmed := false, false;
      coords, coordsOld, diff := Origin, Origin, Origin;
      isHoverInside, hasUserControl, isAutoActive := false, false, false;
      takeoverActive, takeoverStartTime := false, 0.0;
      takeoverFrom, takeoverTo := Origin, Origin;
      onInteract := null;
    }

    /**
     * `setCoords`: without a container nothing happens; otherwise the pending timer is cleared,
     * and unless the surface has zero area the normalised point becomes `coords`, `mouseMoved`
     * is set and the timer is armed again.
     */
    method SetCoords(container: Option<Rect>, x: real, y: real)
      modifies this
      ensures var s := old(State());
        State() == (
          if container.None? then s
          else if container.value.width == 0.0 || container.value.height == 0.0 then s.(timerArmed := false)
          else s.(coords := Normalize(container.value, x, y), mouseMoved := true, timerArmed := true))
      ensures onInteract == old(onInteract)
    {
      if container.None? {
        return;
      }
      timerArmed := false;
      var r := container.value;
      if r.width == 0.0 || r.height == 0.0 {
        return;
      }
      coords := Normalize(r, x, y);
      mouseMoved := true;
      timerArmed := true;
    }

    /** The 100 ms timer of `setCoords` fires. */
    method TimerFires()
      requires timerArmed
      modifies this`mouseMoved, this`timerArmed
      ensures !mouseMoved && !timerArmed
    {
      mouseMoved, timerArmed := false, false;
    }

    /** `setNormalized`: the autopilot places the pointer directly. */
    method SetNormalized(nx: real, ny: real)
      modifies this`coords, this`mouseMoved
      ensures coords == Vec2(nx, ny) && mouseMoved
    {
      coords := Vec2(nx, ny);
      mouseMoved := true;
    }

    /** The `onInteract` callback, if installed: stamps the manager and stops the autopilot. */
    method Interact(now: real)
      requires Wired()
      modifies this`isAutoActive, HookFrame()
      ensures onInteract != null ==>
        onInteract.manager.lastUserInteraction == now && !onInteract.active && !isAutoActive
      ensures onInteract != null ==> onInteract.State() == old(onInteract.State()).(active := false)
      ensures onInteract == null ==> isAutoActive == old(isAutoActive)
    {
      if onInteract != null {
        onInteract.manager.lastUserInteraction := now;
        onInteract.ForceStop();
      }
    }

    /**
     * `_onMouseMove` as written: the hover flag follows the pointer; outside the surface nothing
     * else changes. Inside, the callback runs FIRST, and only then is the takeover condition
     * `isAutoActive && !hasUserControl && !takeoverActive` read; a takeover records the current
     * coordinates as its start and the pointer as its end, and hands control to the user at once.
     * Otherwise the pointer position is taken directly.
     */
    method OnMouseMove(container: Option<Rect>, cx: real, cy: real, now: real)
      requires Wired()
      modifies this, HookFrame()
      ensures var s := old(State());
        var inside := IsPointInside(container, cx, cy);
        var auto := s.isAutoActive && old(onInteract) == null;
        && (!inside ==> State() == s.(isHoverInside := false))
        && (inside && auto && !s.hasUserControl && !s.takeoverActive ==>
              State() == s.(isHoverInside := true, takeoverFrom := s.coords,
                            takeoverTo := Normalize(container.value, cx, cy), takeoverStartTime := now,
                            takeoverActive := true, hasUserControl := true, isAutoActive := false))
        && (inside && !(auto && !s.hasUserControl && !s.takeoverActive) ==>
              State() == s.(isHoverInside := true, isAutoActive := auto,
                            coords := Normalize(container.value, cx, cy), mouseMoved := true,
                            timerArmed := true, hasUserControl := true))
      ensures onInteract == old(onInteract) && Wired()
      ensures onInteract != null && IsPointInside(container, cx, cy) ==>
        onInteract.manager.lastUserInteraction == now && onInteract.State() == old(onInteract.State()).(active := false)
      ensures onInteract != null && !IsPointInside(container, cx, cy) ==>
        onInteract.manager.lastUserInteraction == old(onInteract.manager.lastUserInteraction) &&
        onInteract.State() == old(onInteract.State())
      // With the callback installed, as `initLiquidEther` always does, no takeover ever starts.
      ensures old(onInteract) != null ==> takeoverActive == old(takeoverActive)
    {
      isHoverInside := IsPointInside(container, cx, cy);
      if !isHoverInside {
        return;
      }
      Interact(now);
      if isAutoActive && !hasUserControl && !takeoverActive {
        StartTakeover(container.value, cx, cy, now);
        return;
      }
      SetCoords(container, cx, cy);
      hasUserControl := true;
    }

    /**
     * The handler as evidently intended: whether the autopilot was driving is read BEFORE the
     * callback stops it, so a move onto the surface while the autopilot drives starts the eased
     * takeover.
     */
    method OnMouseMoveWithTakeover(container: Option<Rect>, cx: real, cy: real, now: real)
      requires Wired()
      modifies this, HookFrame()
      ensures var s := old(State());
        var inside := IsPointInside(container, cx, cy);
        var takeover := s.isAutoActive && !s.hasUserControl && !s.takeoverActive;
        && (!inside ==> State() == s.(isHoverInside := false))
        && (inside && takeover ==>
              State() == s.(isHoverInside := true, takeoverFrom := s.coords,
                            takeoverTo := Normalize(container.value, cx, cy), takeoverStartTime := now,
                            takeoverActive := true, hasUserControl := true, isAutoActive := false))
        && (inside && !takeover ==>
              State() == s.(isHoverInside := true, isAutoActive := s.isAutoActive && old(onInteract) == null,
                            coords := Normalize(container.value, cx, cy), mouseMoved := true,
                            timerArmed := true, hasUserControl := true))
      ensures onInteract == old(onInteract) && Wired()
      ensures onInteract != null && IsPointInside(container, cx, cy) ==>
        onInteract.manager.lastUserInteraction == now && onInteract.State() == old(onInteract.State()).(active := false)
      ensures onInteract != null && !IsPointInside(container, cx, cy) ==>
        onInteract.manager.lastUserInteraction == old(onInteract.manager.lastUserInteraction) &&
        onInteract.State() == old(onInteract.State())
    {
      isHoverInside := IsPointInside(container, cx, cy);
      if !isHoverInside {
        return;
      }
      var takeover := isAutoActive && !hasUserControl && !takeoverActive;
      Interact(now);
      if takeover {
        StartTakeover(container.value, cx, cy, now);
        return;
      }
      SetCoords(container, cx, cy);
      hasUserControl := true;
    }

    /** The takeover branch of `_onMouseMove`. */
    method StartTakeover(r: Rect, cx: real, cy: real, now: real)
      requires r.width != 0.0 && r.height != 0.0
      modifies this
      ensures State() == old(State()).(takeoverFrom := old(coords), takeoverTo := Normalize(r, cx, cy),
        takeoverStartTime := now, takeoverActive := true, hasUserControl := true, isAutoActive := false)
      ensures onInteract == old(onInteract)
    {
      takeoverFrom := coords;
      takeoverTo := Normalize(r, cx, cy);
      takeoverStartTime := now;
      takeoverActive := true;
      hasUserControl := true;
      isAutoActive := false;
    }

    /**
     * `_onTouchStart` and `_onTouchMove`: only a single touch counts; it updates the hover flag
     * and, inside the surface, runs the callback and takes the position. Touch start also hands
     * control to the user.
     */
    method OnTouch(container: Option<Rect>, touches: seq<Vec2>, now: real, start: bool)
      requires Wired()
      modifies this, HookFrame()
      ensures var s := old(State());
        && (|touches| != 1 ==> State() == s)
        && (|touches| == 1 && !IsPointInside(container, touches[0].x, touches[0].y) ==>
              State() == s.(isHoverInside := false))
        && (|touches| == 1 && IsPointInside(container, touches[0].x, touches[0].y) ==>
              State() == s.(isHoverInside := true, isAutoActive := s.isAutoActive && old(onInteract) == null,
                            coords := Normalize(container.value, touches[0].x, touches[0].y),
                            mouseMoved := true, timerArmed := true,
                            hasUserControl := s.hasUserControl || start))
      ensures onInteract == old(onInteract) && Wired()
      ensures onInteract != null && |touches| == 1 && IsPointInside(container, touches[0].x, touches[0].y) ==>
        onInteract.manager.lastUserInteraction == now && onInteract.State() == old(onInteract.State()).(active := false)
      ensures onInteract != null && !(|touches| == 1 && IsPointInside(container, touches[0].x, touches[0].y)) ==>
        onInteract.manager.lastUserInteraction == old(onInteract.manager.lastUserInteraction) &&
        onInteract.State() == old(onInteract.State())
    {
      if |touches| != 1 {
        return;
      }
      var t := touches[0];
      isHoverInside := IsPointInside(container, t.x, t.y);
      if !isHoverInside {
        return;
      }
      Interact(now);
      SetCoords(container, t.x, t.y);
      if start {
        hasUserControl := true;
      }
    }

    /** `touchend` and the document's `mouseleave`: the pointer no longer hovers the surface. */
    method OnLeave()
      modifies this`isHoverInside
      ensures !isHoverInside
    {
      isHoverInside := false;
    }

    /** Progress of the takeover at time `now` (milliseconds), 1 meaning complete. */
    function TakeoverProgress(now: real): real
      reads this`takeoverStartTime
      requires takeoverDuration > 0.0
    {
      (now - takeoverStartTime) / (takeoverDuration * 1000.0)
    }

    /**
     * `update`, once per frame. A running takeover first moves `coords` along the eased curve
     * from `takeoverFrom` to `takeoverTo`, and at progress 1 ends exactly at `takeoverTo` with no
     * displacement. Then `diff` is the move since the last frame, forced to zero while `coords` is
     * the origin, and amplified by `autoIntensity` while the autopilot drives without a takeover.
     */
    method Update(now: real)
      requires takeoverDuration > 0.0
      modifies this`coords, this`coordsOld, this`diff, this`takeoverActive
      ensures coordsOld == coords
      ensures var t := old(TakeoverProgress(now));
        && (!old(takeoverActive) ==> coords == old(coords) && !takeoverActive)
        && (old(takeoverActive) && t >= 1.0 ==> coords == old(takeoverTo) && diff == Origin && !takeoverActive)
        && (old(takeoverActive) && t < 1.0 ==>
              takeoverActive && coords == old(takeoverFrom).Lerp(old(takeoverTo), Smoothstep(t)))
        && (old(takeoverActive) && t == 0.0 ==> coords == old(takeoverFrom))
        && (old(takeoverActive) && 0.0 <= t < 1.0 ==>
              exists k :: 0.0 <= k <= 1.0 && coords == old(takeoverFrom).Lerp(old(takeoverTo), k))
      ensures coords == Origin ==> diff == Origin
      ensures !(old(takeoverActive) && old(TakeoverProgress(now)) >= 1.0) && coords != Origin ==>
        diff == coords.Sub(old(coordsOld)).Scale(if isAutoActive && !takeoverActive then autoIntensity else 1.0)
    {
      if takeoverActive {
        var t := TakeoverProgress(now);
        if t >= 1.0 {
          takeoverActive := false;
          coords := takeoverTo;
          coordsOld := coords;
          diff := Origin;
        } else {
          var k := Smoothstep(t);
          coords := takeoverFrom.Lerp(takeoverTo, k);
          if 0.0 <= t {
            SmoothstepRange(t);
          }
        }
      }
      diff := coords.Sub(coordsOld);
      coordsOld := coords;
      if coordsOld.x == 0.0 && coordsOld.y == 0.0 {
        diff := Origin;
      }
      if isAutoActive && !takeoverActive {
        diff := diff.Scale(autoIntensity);
      }
    }
  }

  /** The `manager` record shared by the callback and the autopilot. */
  class Manager {
    var lastUserInteraction: real

    constructor (now: real)
      ensures lastUserInteraction == now
    {
      lastUserInteraction := now;
    }
  }

  /** The fields of `AutoDriver` that change, as one value. */
  datatype DriverState = DriverState(active: bool, current: Vec2, target: Vec2, lastTime: real, activationTime: real)

  /** A target drawn from two `Math.random()` values lies in the inset square [-(1 - margin), 1 - margin]^2. */
  predicate InMarginBox(p: Vec2, margin: real)
  {
    -(1.0 - margin) <= p.x <= 1.0 - margin && -(1.0 - margin) <= p.y <= 1.0 - margin
  }

  /** `pickNewTarget` with `Math.random()` drawn as `r1` and `r2`. */
  function PickTarget(r1: real, r2: real, margin: real): (p: Vec2)
    requires 0.0 <= r1 < 1.0 && 0.0 <= r2 < 1.0 && margin <= 1.0
    ensures InMarginBox(p, margin)
  {
    BoundedProduct(r1 * 2.0 - 1.0, 1.0 - margin);
    BoundedProduct(r2 * 2.0 - 1.0, 1.0 - margin);
    Vec2((r1 * 2.0 - 1.0) * (1.0 - margin), (r2 * 2.0 - 1.0) * (1.0 - margin))
  }

  lemma BoundedProduct(a: real, m: real)
    requires -1.0 <= a <= 1.0 && m >= 0.0
    ensures -m <= a * m <= m
  {
    MulNonNegative(1.0 - a, m);
    MulNonNegative(1.0 + a, m);
  }

  /** The autopilot's eased start: smoothstep of the fraction of the ramp elapsed, 1 without a ramp. */
  function Ramp(now: real, activationTime: real, rampDurationMs: real): (k: real)
    ensures now >= activationTime ==> 0.0 <= k <= 1.0
    ensures rampDurationMs <= 0.0 || now >= activationTime + rampDurationMs ==> k == 1.0
    ensures rampDurationMs > 0.0 && now == activationTime ==> k == 0.0
  {
    if rampDurationMs > 0.0 then
      var t := MinReal(1.0, (now - activationTime) / rampDurationMs);
      if now >= activationTime then SmoothstepRange(t); Smoothstep(t)
      else Smoothstep(t)
    else 1.0
  }

  /** The frame time step: seconds since the last update, replaced by 0.016 above 0.2 s. */
  function FrameStep(now: real, lastTime: real): (dt: real)
    ensures now >= lastTime ==> 0.0 <= dt <= 0.2
    ensures (now - lastTime) / 1000.0 <= 0.2 ==> dt == (now - lastTime) / 1000.0
  {
    var dt := (now - lastTime) / 1000.0;
    if dt > 0.2 then 0.016 else dt
  }

  /** `Math.min(speed * dt * ramp, dist)`: the step length, which never exceeds the distance left. */
  function Stride(speed: real, dt: real, ramp: real, dist: real): (m: real)
    ensures speed >= 0.0 && dt >= 0.0 && ramp >= 0.0 && dist >= 0.0 ==> 0.0 <= m <= dist
    ensures m == dist || m == speed * dt * ramp
  {
    if speed >= 0.0 && dt >= 0.0 && ramp >= 0.0 then
      MulNonNegative(speed, dt);
      MulNonNegative(speed * dt, ramp);
      MinReal(speed * dt * ramp, dist)
    else
      MinReal(speed * dt * ramp, dist)
  }

  /** The autopilot. Times are in milliseconds, as `performance.now()` gives them. */
  class AutoDriver {
    const mouse: Mouse
    const manager: Manager
    const enabled: bool
    const speed: real
    const resumeDelay: real
    const rampDurationMs: real
    const margin: real
    var active: bool
    var current: Vec2
    var target: Vec2
    var lastTime: real
    var activationTime: real

    ghost function State(): DriverState
      reads this
    {
      DriverState(active, current, target, lastTime, activationTime)
    }

    ghost predicate Valid()
      reads this
    {
      speed >= 0.0 && margin == 0.2 && activationTime <= lastTime && InMarginBox(target, margin)
    }

    /**
     * The constructor: a zero `resumeDelay` option falls back to 3000 ms (`opts.resumeDelay ||
     * 3000`), the ramp is converted to milliseconds, and a first target is drawn.
     */
    constructor (mouse: Mouse, manager: Manager, enabled: bool, speed: real, resumeDelay: real,
                 rampDuration: real, now: real, r1: real, r2: real)
      requires speed >= 0.0 && now >= 0.0
      requires 0.0 <= r1 < 1.0 && 0.0 <= r2 < 1.0
      ensures Valid()
      ensures this.mouse == mouse && this.manager == manager && this.enabled == enabled && this.speed == speed
      ensures this.resumeDelay == (if resumeDelay == 0.0 then 3000.0 else resumeDelay)
      ensures rampDurationMs == rampDuration * 1000.0
      ensures State() == DriverState(false, Origin, PickTarget(r1, r2, 0.2), now, 0.0)
    {
      this.mouse := mouse;
      this.manager := manager;
      this.enabled := enabled;
      this.speed := speed;
      this.resumeDelay := if resumeDelay == 0.0 then 3000.0 else resumeDelay;
      this.rampDurationMs := rampDuration * 1000.0;
      margin := 0.2;
      active := false;
      current := Origin;
      lastTime := now;
      activationTime := 0.0;
      target := PickTarget(r1, r2, 0.2);
    }

    /** `forceStop`: the autopilot and the tracker's auto flag switch off at once, without easing. */
    method ForceStop()
      modifies this`active, mouse`isAutoActive
      ensures !active && !mouse.isAutoActive
    {
      active := false;
      mouse.isAutoActive := false;
    }

    /** The point the autopilot moves from this frame: its own position, or the pointer's on activation. */
    ghost function Start(): Vec2
      reads this, mouse
    {
      if active then current else mouse.coords
    }

    /** Whether `update` stays idle: a recent interaction, or the pointer over the surface. */
    ghost predicate Held(now: real)
      reads this, manager, mouse
    {
      now - manager.lastUserInteraction < resumeDelay || mouse.isHoverInside
    }

    /**
     * `update`, once per frame. `length` computes `Vector2.length()` and `r1`, `r2` are the
     * `Math.random()` draws a new target would use.
     *
     * Disabled, it does nothing. Held (an interaction less than `resumeDelay` ago, or the pointer
     * over the surface), it only deactivates. Otherwise it is active, capturing the pointer
     * position and the time on activation. Within 0.01 of the target it draws a new target and
     * stays put; otherwise it steps `min(speed * dt * ramp, dist)` straight towards the target,
     * so it never passes it and the distance never grows, and places the pointer there.
     */
    method Update(now: real, length: (real, real) -> real, r1: real, r2: real)
      requires Valid() && IsEuclidean(length)
      requires now >= lastTime
      requires 0.0 <= r1 < 1.0 && 0.0 <= r2 < 1.0
      modifies this, mouse`isAutoActive, mouse`coords, mouse`mouseMoved
      ensures Valid()
      ensures !enabled ==> State() == old(State()) && unchanged(mouse)
      ensures enabled && old(Held(now)) ==>
        && State() == old(State()).(active := false)
        && mouse.coords == old(mouse.coords) && mouse.mouseMoved == old(mouse.mouseMoved)
        && mouse.isAutoActive == (old(mouse.isAutoActive) && !old(active))
      ensures enabled && !old(Held(now)) ==>
        && active && mouse.isAutoActive && lastTime == now
        && activationTime == (if old(active) then old(activationTime) else now)
      ensures enabled && !old(Held(now)) ==>
        var start := old(Start());
        var dist := length(old(target).x - start.x, old(target).y - start.y);
        && (dist < 0.01 ==>
              current == start && target == PickTarget(r1, r2, margin) &&
              mouse.coords == old(mouse.coords) && mouse.mouseMoved == old(mouse.mouseMoved))
        && (dist >= 0.01 ==>
              var move := Stride(speed, FrameStep(now, if old(active) then old(lastTime) else now),
                                 Ramp(now, activationTime, rampDurationMs), dist);
              && target == old(target) && mouse.coords == current && mouse.mouseMoved
              && 0.0 <= move <= dist
              && target.Sub(current) == old(target).Sub(start).Scale(1.0 - move / dist)
              && length(target.x - current.x, target.y - current.y) == dist - move)
    {
      if !enabled {
        return;
      }
      if now - manager.lastUserInteraction < resumeDelay || mouse.isHoverInside {
        if active {
          ForceStop();
        }
        return;
      }
      if !active {
        active := true;
        current := mouse.coords;
        lastTime := now;
        activationTime := now;
      }
      mouse.isAutoActive := true;
      Move(now, length, r1, r2);
    }

    /** The motion half of `update`, once the autopilot is active. */
    method Move(now: real, length: (real, real) -> real, r1: real, r2: real)
      requires Valid() && IsEuclidean(length) && active
      requires now >= lastTime
      requires 0.0 <= r1 < 1.0 && 0.0 <= r2 < 1.0
      modifies this`lastTime, this`target, this`current, mouse`coords, mouse`mouseMoved
      ensures Valid() && lastTime == now
      ensures var dist := length(old(target).x - old(current).x, old(target).y - old(current).y);
        && (dist < 0.01 ==>
              current == old(current) && target == PickTarget(r1, r2, margin) &&
              mouse.coords == old(mouse.coords) && mouse.mouseMoved == old(mouse.mouseMoved))
        && (dist >= 0.01 ==>
              var move := Stride(speed, FrameStep(now, old(lastTime)), Ramp(now, activationTime, rampDurationMs), dist);
              && target == old(target) && mouse.coords == current && mouse.mouseMoved
              && 0.0 <= move <= dist
              && target.Sub(current) == old(target).Sub(old(current)).Scale(1.0 - move / dist)
              && length(target.x - current.x, target.y - current.y) == dist - move)
    {
      var dtSec := FrameStep(now, lastTime);
      lastTime := now;
      var dir := target.Sub(current);
      assert dir == Vec2(target.x - current.x, target.y - current.y);
      var dist := length(dir.x, dir.y);
      if dist < 0.01 {
        target := PickTarget(r1, r2, margin);
        return;
      }
      var ramp := Ramp(now, activationTime, rampDurationMs);
      var move := Stride(speed, dtSec, ramp, dist);
      var from := current;
      current := Vec2(current.x + (dir.x / dist) * move, current.y + (dir.y / dist) * move);
      StepTowards(target, from, current, dist, move, length);
      assert 0.0 <= move <= dist;
      mouse.SetNormalized(current.x, current.y);
    }
  }

  /**
   * A step of `move` (at most the distance) along the unit direction from `from` to `target`
   * leaves the target in the same direction, at the distance less `move`.
   */
  lemma StepTowards(target: Vec2, from: Vec2, to: Vec2, dist: real, move: real, length: (real, real) -> real)
    requires IsEuclidean(length)
    requires dist == length(target.x - from.x, target.y - from.y) && dist > 0.0
    requires 0.0 <= move <= dist
    requires to == Vec2(from.x + ((target.x - from.x) / dist) * move, from.y + ((target.y - from.y) / dist) * move)
    ensures target.Sub(to) == target.Sub(from).Scale(1.0 - move / dist)
    ensures length(target.x - to.x, target.y - to.y) == dist - move
  {
    var k := 1.0 - move / dist;
    var dx, dy := target.x - from.x, target.y - from.y;
    AlongAxis(target.x, from.x, to.x, dist, move);
    AlongAxis(target.y, from.y, to.y, dist, move);
    var l := length(target.x - to.x, target.y - to.y);
    assert dist * dist == dx * dx + dy * dy;
    assert l >= 0.0 && l * l == (k * dx) * (k * dx) + (k * dy) * (k * dy);
    ShortenedNorm(k, dx, dy, dist, move, l);
  }

  /** A vector of norm `dist` scaled by 1 - move/dist has norm dist - move. */
  lemma ShortenedNorm(k: real, dx: real, dy: real, dist: real, move: real, l: real)
    requires dist > 0.0 && 0.0 <= move <= dist && k == 1.0 - move / dist
    requires dist * dist == dx * dx + dy * dy
    requires l >= 0.0 && l * l == (k * dx) * (k * dx) + (k * dy) * (k * dy)
    ensures l == dist - move
  {
    ShrinkBy(dist, move);
    ScaledNorm(k, dx, dy, dist, dist - move);
    SquareRootUnique(l, dist - move);
  }

  /** One coordinate of the step: what is left is the fraction 1 - move/dist of the old offset. */
  lemma AlongAxis(t: real, f: real, to: real, dist: real, move: real)
    requires dist > 0.0 && to == f + ((t - f) / dist) * move
    ensures t - to == (1.0 - move / dist) * (t - f)
  {
    assert ((t - f) / dist) * move == (t - f) * (move / dist);
  }

  lemma ShrinkBy(dist: real, move: real)
    requires dist > 0.0
    ensures (1.0 - move / dist) * dist == dist - move
  {
    assert (move / dist) * dist == move;
  }

  /** Scaling both coordinates by `k` scales the norm by `k`. */
  lemma ScaledNorm(k: real, dx: real, dy: real, d: real, e: real)
    requires d * d == dx * dx + dy * dy && k * d == e
    ensures (k * dx) * (k * dx) + (k * dy) * (k * dy) == e * e
  {
    calc {
      (k * dx) * (k * dx) + (k * dy) * (k * dy);
      (k * k) * (dx * dx + dy * dy);
      (k * k) * (d * d);
      (k * d) * (k * d);
    }
  }

  lemma SquareRootUnique(a: real, b: real)
    requires a >= 0.0 && b >= 0.0 && a * a == b * b
    ensures a == b
  {
    assert (a - b) * (a + b) == 0.0;
    if a + b != 0.0 {
      ZeroFactor(a - b, a + b);
    }
  }

  lemma ZeroFactor(x: real, y: real)
    requires x * y == 0.0 && y != 0.0
    ensures x == 0.0
  {
    assert x == (x * y) / y;
  }
}
