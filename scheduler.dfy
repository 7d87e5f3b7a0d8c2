/**
 * When the animation loop runs. The loop is suspended while the document is hidden or the
 * container is scrolled out of view, and resumed when both conditions clear. `running` stands
 * for a pending `requestAnimationFrame` id (`rafId` non-null); `isVisible` is the flag the
 * intersection observer keeps; `hidden` is `document.hidden`.
 */
module Scheduler {

  datatype LoopState = LoopState(running: bool, isVisible: bool, hidden: bool)

  /** The two browser notifications the loop listens to. */
  datatype Event = VisibilityChange(nowHidden: bool) | Intersection(isIntersecting: bool)

  /**
   * The state once `initLiquidEther` has called `loop()` for the first time: running and taken
   * to be visible, whatever the document's visibility.
   */
  function Init(hidden: bool): (s: LoopState)
    ensures s.running && s.isVisible && s.hidden == hidden
    ensures Coherent(s)
  {
    LoopState(true, true, hidden)
  }

  /** The loop only ever runs while the container is taken to be visible. */
  predicate Coherent(s: LoopState)
  {
    s.running ==> s.isVisible
  }

  /**
   * One notification. A `visibilitychange` to hidden cancels the frame; back to visible it
   * restarts the loop only if the container is in view. An intersection update records the new
   * visibility and runs the loop exactly when the container is in view and the document shown.
   */
  function Step(s: LoopState, e: Event): (t: LoopState)
    ensures e.VisibilityChange? ==> t.hidden == e.nowHidden && t.isVisible == s.isVisible
    ensures e.Intersection? ==> t.isVisible == e.isIntersecting && t.hidden == s.hidden
    ensures e.VisibilityChange? && e.nowHidden ==> !t.running
    ensures e.VisibilityChange? && !e.nowHidden && !s.isVisible ==> t.running == s.running
    ensures Coherent(s) ==> (t.running <==> t.isVisible && !t.hidden)
    ensures Coherent(s) ==> Coherent(t)
  {
    match e
    case VisibilityChange(h) =>
      if h then LoopState(false, s.isVisible, h)
      else if s.isVisible then LoopState(true, s.isVisible, h)
      else LoopState(s.running, s.isVisible, h)
    case Intersection(v) =>
      LoopState(v && !s.hidden, v, s.hidden)
  }

  /** Whether the notification calls `loop()` at once: the loop was stopped and now runs. */
  function Starts(s: LoopState, e: Event): (b: bool)
    ensures b ==> !s.running && Step(s, e).running
    ensures Coherent(s) && !s.running ==> (b <==> Step(s, e).isVisible && !Step(s, e).hidden)
  {
    !s.running && Step(s, e).running
  }

  /** The state after a sequence of notifications, oldest first. */
  function Run(s: LoopState, events: seq<Event>): LoopState
    decreases |events|
  {
    if |events| == 0 then s else Run(Step(s, events[0]), events[1..])
  }

  /**
   * From any coherent state (the initial one included), the loop never runs out of view, and
   * after at least one notification it runs exactly when the container is in view and the
   * document is shown.
   */
  lemma {:induction false} RunsIffShown(s: LoopState, events: seq<Event>)
    requires Coherent(s)
    ensures Coherent(Run(s, events))
    ensures |events| > 0 ==>
      (Run(s, events).running <==> Run(s, events).isVisible && !Run(s, events).hidden)
    decreases |events|
  {
    if |events| > 0 {
      var t := Step(s, events[0]);
      RunsIffShown(t, events[1..]);
    }
  }

  /** The handlers of `initLiquidEther` that start and stop the loop. */
  class FrameLoop {
    var running: bool
    var isVisible: bool
    var hidden: bool

    ghost function State(): LoopState
      reads this
    {
      LoopState(running, isVisible, hidden)
    }

    constructor (hidden: bool)
      ensures State() == Init(hidden)
    {
      running, isVisible, this.hidden := true, true, hidden;
    }

    /**
     * The `visibilitychange` listener. `start` reports that it calls `loop()`, which renders a
     * frame at once and requests the next.
     */
    method OnVisibilityChange(nowHidden: bool) returns (start: bool)
      modifies this
      ensures State() == Step(old(State()), VisibilityChange(nowHidden))
      ensures start == Starts(old(State()), VisibilityChange(nowHidden))
    {
      hidden := nowHidden;
      start := false;
      if nowHidden {
        if running {
          running := false;
        }
      } else if isVisible {
        if !running {
          running := true;
          start := true;
        }
      }
    }

    /** The intersection observer's callback, with the first entry's `isIntersecting`. */
    method OnIntersection(isIntersecting: bool) returns (start: bool)
      modifies this`isVisible, this`running
      ensures State() == Step(old(State()), Intersection(isIntersecting))
      ensures start == Starts(old(State()), Intersection(isIntersecting))
    {
      isVisible := isIntersecting;
      start := false;
      if isVisible && !hidden {
        if !running {
          running := true;
          start := true;
        }
      } else {
        if running {
          running := false;
        }
      }
    }
  }
}
