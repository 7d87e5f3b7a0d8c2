/**
 * The render-target bookkeeping of one simulation step (`Simulation.update`): which buffer each
 * shader pass reads and which it writes, including the ping-pong loops of the viscous and
 * Poisson passes (`Viscous.update`, `Poisson.update`). The shaders themselves are not modelled;
 * a pass is recorded by the buffers it samples and the one it renders into.
 */
module Passes {
  import opened Options
  import opened FluidGrid

  /** The seven render targets of `Simulation.fbos`. */
  datatype Fbo = Vel0 | Vel1 | VelViscous0 | VelViscous1 | Div | Pressure0 | Pressure1

  datatype Stage = Advection | ExternalForce | Viscous | Divergence | Poisson | Pressure

  /** One rendering: the stage, the targets it samples, the target it renders into. */
  datatype Pass = Pass(stage: Stage, inputs: set<Fbo>, output: Fbo)

  /** A pass never samples the target it renders into. */
  predicate Disjoint(p: Pass)
  {
    p.output !in p.inputs
  }

  /**
   * The loop of `Viscous.update` and `Poisson.update`: iteration `i` samples `output0` when `i`
   * is even and `output1` when it is odd (besides the `fixed` inputs), and renders into the other;
   * the result is the target of the last iteration. With no iteration the source returns
   * `undefined`, here `None`.
   */
  method PingPong(stage: Stage, fixed: set<Fbo>, output0: Fbo, output1: Fbo, iterations: nat)
    returns (passes: seq<Pass>, last: Option<Fbo>)
    requires output0 != output1
    ensures LoopPasses(passes, stage, fixed, output0, output1, iterations)
    ensures forall i :: 0 <= i < iterations ==>
      (if i % 2 == 0 then output0 else output1) in passes[i].inputs && passes[i].output in {output0, output1}
    ensures last.None? <==> iterations == 0
    ensures iterations > 0 ==> last == Some(passes[iterations - 1].output)
    ensures iterations % 2 == 1 ==> last == Some(output1)
    ensures iterations > 0 && iterations % 2 == 0 ==> last == Some(output0)
  {
    passes := [];
    last := None;
    var i := 0;
    while i < iterations
      invariant 0 <= i <= iterations
      invariant LoopPasses(passes, stage, fixed, output0, output1, i)
      invariant i == 0 ==> last == None
      invariant i > 0 ==> last == Some(passes[i - 1].output)
    {
      var fboIn := if i % 2 == 0 then output0 else output1;
      var fboOut := if i % 2 == 0 then output1 else output0;
      passes := passes + [Pass(stage, fixed + {fboIn}, fboOut)];
      last := Some(fboOut);
      i := i + 1;
    }
    assert iterations > 0 ==> ((iterations - 1) % 2 == 0 <==> iterations % 2 == 1);
  }

  /** The loop renders into its two targets alternately and each iteration reads the previous one's output. */
  lemma PingPongChains(passes: seq<Pass>, stage: Stage, fixed: set<Fbo>, output0: Fbo, output1: Fbo)
    requires output0 != output1
    requires forall i :: 0 <= i < |passes| ==>
      passes[i] == Pass(stage, fixed + {if i % 2 == 0 then output0 else output1},
                        if i % 2 == 0 then output1 else output0)
    ensures forall i :: 0 < i < |passes| ==> passes[i - 1].output in passes[i].inputs
    ensures forall i :: 0 < i < |passes| ==> passes[i].output != passes[i - 1].output
    ensures output0 !in fixed && output1 !in fixed ==> forall i :: 0 <= i < |passes| ==> Disjoint(passes[i])
  {
    forall i | 0 < i < |passes|
      ensures passes[i - 1].output in passes[i].inputs && passes[i].output != passes[i - 1].output
    {
      assert (i - 1) % 2 == 0 <==> i % 2 != 0;
    }
  }

  /** The options `Simulation.update` reads. */
  datatype SimOptions = SimOptions(
    isViscous: bool, iterationsViscous: nat, iterationsPoisson: nat, isBounce: bool,
    resolution: real, cursorSize: real, mouseForce: real, dt: real, viscous: real, bfecc: bool)

  /** The defaults of the effect's configuration. */
  const DefaultOptions := SimOptions(true, 32, 32, false, 0.5, 100.0, 20.0, 0.014, 30.0, true)

  /** The fixed order of the stages of one step, `Viscous` repeated per iteration. */
  predicate StageOrder(trace: seq<Pass>, viscous: nat, poisson: nat)
  {
    && |trace| == 4 + viscous + poisson
    && trace[0].stage == Advection && trace[1].stage == ExternalForce
    && (forall i :: 2 <= i < 2 + viscous ==> trace[i].stage == Viscous)
    && trace[2 + viscous].stage == Divergence
    && (forall i :: 3 + viscous <= i < 3 + viscous + poisson ==> trace[i].stage == Poisson)
    && trace[3 + viscous + poisson].stage == Pressure
  }

  /** Every render target of `Simulation.fbos`. */
  const AllFbos: set<Fbo> := {Vel0, Vel1, VelViscous0, VelViscous1, Div, Pressure0, Pressure1}

  lemma EveryFboListed(f: Fbo)
    ensures f in AllFbos
  {
    match f
    case Vel0 => case Vel1 => case VelViscous0 => case VelViscous1 =>
    case Div => case Pressure0 => case Pressure1 =>
  }

  /** Every render target at one size. */
  function AllSized(w: int, h: int): (m: map<Fbo, (int, int)>)
    ensures m.Keys == AllFbos
    ensures forall f :: f in m ==> m[f] == (w, h)
  {
    map[Vel0 := (w, h), Vel1 := (w, h), VelViscous0 := (w, h), VelViscous1 := (w, h),
        Div := (w, h), Pressure0 := (w, h), Pressure1 := (w, h)]
  }

  /** The simulation: its grid size and the sizes of its render targets. */
  class Simulation {
    var options: SimOptions
    var fboSize: GridSize
    var boundarySpace: Geometry.Vec2
    /** The size each render target was allocated or last resized with. */
    var fbos: map<Fbo, (int, int)>

    ghost predicate Valid()
      reads this
    {
      fbos.Keys == AllFbos && forall f :: f in fbos ==> fbos[f] == (fboSize.w, fboSize.h)
    }

    /** `init`: `calcSize` then `createAllFBO`, every target at the grid size. */
    constructor (options: SimOptions, width: int, height: int)
      ensures Valid() && this.options == options
      ensures fboSize == CalcSize(options.resolution, width, height)
    {
      this.options := options;
      var g := CalcSize(options.resolution, width, height);
      fboSize := g;
      boundarySpace := Geometry.Origin;
      fbos := AllSized(g.w, g.h);
    }

    /** `resize`: the grid size is recomputed and every render target takes it, never just some. */
    method Resize(width: int, height: int)
      modifies this`fboSize, this`fbos
      ensures Valid()
      ensures fboSize == CalcSize(options.resolution, width, height)
    {
      var g := CalcSize(options.resolution, width, height);
      fboSize := g;
      fbos := AllSized(g.w, g.h);
    }

    /**
     * `update`: advection from `vel_0` into `vel_1`, the additive force into `vel_1`, the viscous
     * ping-pong between `vel_viscous0`/`vel_viscous1` when enabled, divergence of the resulting
     * velocity into `div`, the Poisson ping-pong between `pressure_0`/`pressure_1`, and the
     * projection back into `vel_0`. `None` stands for the exception the source raises when a
     * ping-pong loop runs zero times and hands `undefined` to the next pass.
     */
    method Update() returns (trace: Option<seq<Pass>>)
      modifies this`boundarySpace
      ensures boundarySpace == (if options.isBounce then Geometry.Origin else fboSize.cellScale)
      ensures trace.Some? <==>
        options.iterationsPoisson > 0 && (options.isViscous ==> options.iterationsViscous > 0)
      ensures trace.Some? ==>
        StepShape(trace.value, if options.isViscous then options.iterationsViscous else 0, options.iterationsPoisson)
    {
      boundarySpace := if options.isBounce then Geometry.Origin else fboSize.cellScale;
      var viscousPasses, vel, poissonPasses, pressure := RunLoops(options);
      if pressure.None? {
        return None;
      }
      var t := StepTrace(viscousPasses, vel, poissonPasses, pressure.value);
      StepTraceShape(viscousPasses, vel, poissonPasses, pressure.value);
      trace := Some(t);
    }
  }

  /**
   * The two loops of `Simulation.update`: the viscous loop from `vel_1` when enabled, and the
   * Poisson loop from `div`. `None` stands for the `undefined` a loop of zero iterations returns,
   * on which the source then fails.
   */
  method RunLoops(options: SimOptions) returns (viscousPasses: seq<Pass>, vel: Fbo, poissonPasses: seq<Pass>, pressure: Option<Fbo>)
    ensures pressure.Some? <==>
      options.iterationsPoisson > 0 && (options.isViscous ==> options.iterationsViscous > 0)
    ensures pressure.Some? ==>
      && |viscousPasses| == (if options.isViscous then options.iterationsViscous else 0)
      && LoopPasses(viscousPasses, Viscous, {Vel1}, VelViscous0, VelViscous1, |viscousPasses|)
      && vel == (if |viscousPasses| > 0 then viscousPasses[|viscousPasses| - 1].output else Vel1)
      && |poissonPasses| == options.iterationsPoisson > 0
      && LoopPasses(poissonPasses, Poisson, {Div}, Pressure0, Pressure1, |poissonPasses|)
      && pressure.value == poissonPasses[|poissonPasses| - 1].output
  {
    viscousPasses, vel, poissonPasses := [], Vel1, [];
    if options.isViscous {
      var last;
      viscousPasses, last := PingPong(Viscous, {Vel1}, VelViscous0, VelViscous1, options.iterationsViscous);
      if last.None? {
        return viscousPasses, vel, poissonPasses, None;
      }
      vel := last.value;
    }
    poissonPasses, pressure := PingPong(Poisson, {Div}, Pressure0, Pressure1, options.iterationsPoisson);
  }

  /** The passes of one step, in the order `Simulation.update` renders them. */
  function StepTrace(viscousPasses: seq<Pass>, vel: Fbo, poissonPasses: seq<Pass>, pressure: Fbo): seq<Pass>
  {
    [Pass(Advection, {Vel0}, Vel1), Pass(ExternalForce, {}, Vel1)] + viscousPasses
      + [Pass(Divergence, {vel}, Div)] + poissonPasses + [Pass(Pressure, {vel, pressure}, Vel0)]
  }

  /**
   * The shape of one step with `v` viscous and `p` Poisson iterations: the stages in their fixed
   * order, no pass sampling its own target, advection from `vel_0` into `vel_1`, the force into
   * `vel_1`, the viscous loop ping-ponging between `vel_viscous0`/`vel_viscous1` from the `vel_1`
   * the force wrote, divergence of the velocity that loop produced (`vel_1` without one), the
   * Poisson loop ping-ponging between `pressure_0`/`pressure_1` from `div`, and the projection of
   * that velocity and the last pressure back into `vel_0`.
   */
  ghost predicate StepShape(t: seq<Pass>, v: nat, p: nat)
  {
    && StageOrder(t, v, p)
    && LoopPasses(t[2..2 + v], Viscous, {Vel1}, VelViscous0, VelViscous1, v)
    && LoopPasses(t[3 + v..3 + v + p], Poisson, {Div}, Pressure0, Pressure1, p)
    && (forall i :: 0 <= i < |t| ==> Disjoint(t[i]))
    && t[0] == Pass(Advection, {Vel0}, Vel1)
    && t[1] == Pass(ExternalForce, {}, Vel1)
    && var vel := if v > 0 then t[1 + v].output else Vel1;
       && t[2 + v] == Pass(Divergence, {vel}, Div)
       && t[|t| - 1] == Pass(Pressure, {vel, t[|t| - 2].output}, Vel0)
  }

  /** What a viscous or Poisson loop of `n` iterations renders. */
  ghost predicate LoopPasses(passes: seq<Pass>, stage: Stage, fixed: set<Fbo>, output0: Fbo, output1: Fbo, n: nat)
  {
    |passes| == n &&
    forall i :: 0 <= i < n ==>
      passes[i] == Pass(stage, fixed + {if i % 2 == 0 then output0 else output1}, if i % 2 == 0 then output1 else output0)
  }

  /**
   * A step with `v` viscous and `p >= 1` Poisson iterations runs the stages in their fixed order,
   * no pass samples the target it renders into, and the last pass renders into `vel_0`, which
   * the next step's advection samples.
   */
  lemma StepTraceShape(viscousPasses: seq<Pass>, vel: Fbo, poissonPasses: seq<Pass>, pressure: Fbo)
    requires LoopPasses(viscousPasses, Viscous, {Vel1}, VelViscous0, VelViscous1, |viscousPasses|)
    requires LoopPasses(poissonPasses, Poisson, {Div}, Pressure0, Pressure1, |poissonPasses|)
    requires |poissonPasses| > 0 && pressure == poissonPasses[|poissonPasses| - 1].output
    requires vel == (if |viscousPasses| > 0 then viscousPasses[|viscousPasses| - 1].output else Vel1)
    ensures StepShape(StepTrace(viscousPasses, vel, poissonPasses, pressure), |viscousPasses|, |poissonPasses|)
  {
    StepTraceSlices(viscousPasses, vel, poissonPasses, pressure);
    StepTraceOrder(viscousPasses, vel, poissonPasses, pressure);
  }

  /** The stages of a step come in their fixed order and no pass samples its own target. */
  lemma StepTraceOrder(viscousPasses: seq<Pass>, vel: Fbo, poissonPasses: seq<Pass>, pressure: Fbo)
    requires LoopPasses(viscousPasses, Viscous, {Vel1}, VelViscous0, VelViscous1, |viscousPasses|)
    requires LoopPasses(poissonPasses, Poisson, {Div}, Pressure0, Pressure1, |poissonPasses|)
    requires |poissonPasses| > 0 && pressure == poissonPasses[|poissonPasses| - 1].output
    requires vel == (if |viscousPasses| > 0 then viscousPasses[|viscousPasses| - 1].output else Vel1)
    ensures var t := StepTrace(viscousPasses, vel, poissonPasses, pressure);
      StageOrder(t, |viscousPasses|, |poissonPasses|) && forall i :: 0 <= i < |t| ==> Disjoint(t[i])
  {
    var t := StepTrace(viscousPasses, vel, poissonPasses, pressure);
    var v, p := |viscousPasses|, |poissonPasses|;
    PingPongChains(viscousPasses, Viscous, {Vel1}, VelViscous0, VelViscous1);
    PingPongChains(poissonPasses, Poisson, {Div}, Pressure0, Pressure1);
    assert vel in {Vel1, VelViscous0, VelViscous1} by {
      if v > 0 {
        assert viscousPasses[v - 1].output in {VelViscous0, VelViscous1};
      }
    }
    assert pressure in {Pressure0, Pressure1} by {
      assert poissonPasses[p - 1].output in {Pressure0, Pressure1};
    }
    forall i | 0 <= i < |t|
      ensures Disjoint(t[i])
    {
      if 2 <= i < 2 + v {
        assert t[i] == viscousPasses[i - 2];
      } else if 3 + v <= i < 3 + v + p {
        assert t[i] == poissonPasses[i - 3 - v];
      }
    }
    forall i | 2 <= i < 2 + v
      ensures t[i].stage == Viscous
    {
      assert t[i] == viscousPasses[i - 2];
    }
    forall i | 3 + v <= i < 3 + v + p
      ensures t[i].stage == Poisson
    {
      assert t[i] == poissonPasses[i - 3 - v];
    }
  }

  /** The loop passes sit unchanged inside the trace of a step. */
  lemma StepTraceSlices(viscousPasses: seq<Pass>, vel: Fbo, poissonPasses: seq<Pass>, pressure: Fbo)
    ensures var t, v, p := StepTrace(viscousPasses, vel, poissonPasses, pressure), |viscousPasses|, |poissonPasses|;
      |t| == 4 + v + p && t[2..2 + v] == viscousPasses && t[3 + v..3 + v + p] == poissonPasses
  {
    var t, v, p := StepTrace(viscousPasses, vel, poissonPasses, pressure), |viscousPasses|, |poissonPasses|;
    assert t[2..2 + v] == viscousPasses;
    assert t[3 + v..3 + v + p] == poissonPasses;
  }
}
