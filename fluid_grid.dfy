/**
 * Sizes of the fluid effect: the canvas size kept by `Common`, the simulation grid derived from
 * it (`Simulation.calcSize`) and the clamped cursor centre of the external force pass.
 */
module FluidGrid {
  import opened JsMath
  import opened Options
  import opened Geometry

  /** The shared `Common` object: the canvas size in CSS pixels and its aspect ratio. */
  class Common {
    var width: int
    var height: int
    var aspect: real

    constructor ()
      ensures width == 0 && height == 0 && aspect == 1.0
    {
      width, height, aspect := 0, 0, 1.0;
    }

    /**
     * `Common.resize`: without a container nothing changes; otherwise each side is the floor of
     * the container's size but at least 1, so the aspect ratio is always defined.
     */
    method Resize(container: Option<Rect>)
      modifies this
      ensures container.None? ==> width == old(width) && height == old(height) && aspect == old(aspect)
      ensures container.Some? ==>
        width == AtLeastOne(container.value.width) && height == AtLeastOne(container.value.height)
      ensures container.Some? ==> width >= 1 && height >= 1 && aspect * height as real == width as real
    {
      if container.None? {
        return;
      }
      var rect := container.value;
      width := AtLeastOne(rect.width);
      height := AtLeastOne(rect.height);
      aspect := width as real / height as real;
    }
  }

  /** `Math.max(1, Math.floor(x))`: the whole pixels of `x`, never below 1. */
  function AtLeastOne(x: real): (n: int)
    ensures n >= 1
    ensures x >= 1.0 ==> n as real <= x < n as real + 1.0
    ensures x < 1.0 ==> n == 1
  {
    Max(1, Floor(x))
  }

  /** A grid side: `Math.max(1, Math.round(resolution * side))`. */
  function GridSide(resolution: real, side: int): (n: int)
    ensures n >= 1
    ensures resolution * side as real >= 0.5 ==>
      resolution * side as real - 0.5 < n as real <= resolution * side as real + 0.5
    ensures resolution * side as real < 0.5 ==> n == 1
  {
    Max(1, Round(resolution * side as real))
  }

  /** The grid of `calcSize` with the size of one cell in normalised texture units. */
  datatype GridSize = GridSize(w: int, h: int, cellScale: Vec2)

  function CalcSize(resolution: real, width: int, height: int): (g: GridSize)
    ensures g.w >= 1 && g.h >= 1
    ensures g.w == GridSide(resolution, width) && g.h == GridSide(resolution, height)
    ensures g.cellScale.x * g.w as real == 1.0 && g.cellScale.y * g.h as real == 1.0
  {
    var w := GridSide(resolution, width);
    var h := GridSide(resolution, height);
    GridSize(w, h, Vec2(1.0 / w as real, 1.0 / h as real))
  }

  /** An 800 x 600 canvas at resolution 0.5 gives a 400 x 300 grid. */
  lemma CalcSizeExample()
    ensures CalcSize(0.5, 800, 600).w == 400 && CalcSize(0.5, 800, 600).h == 300
  {
  }

  /**
   * One coordinate of the force centre in `ExternalForce.update`:
   * `min(max(c, -1 + cs + 2 * cell), 1 - cs - 2 * cell)` with `cs = cursorSize * cell`.
   */
  function ClampCenter(c: real, cursorSize: real, cell: real): (r: real)
    ensures var lo, hi := CenterLow(cursorSize, cell), CenterHigh(cursorSize, cell);
      && (lo <= hi ==> lo <= r <= hi)
      && (lo <= c <= hi ==> r == c)
      && (c < lo <= hi ==> r == lo)
      && (lo <= hi < c ==> r == hi)
      && (hi < lo ==> r == hi)
  {
    var cs := cursorSize * cell;
    MinReal(MaxReal(c, -1.0 + cs + cell * 2.0), 1.0 - cs - cell * 2.0)
  }

  function CenterLow(cursorSize: real, cell: real): real { -1.0 + cursorSize * cell + cell * 2.0 }
  function CenterHigh(cursorSize: real, cell: real): real { 1.0 - cursorSize * cell - cell * 2.0 }

  /**
   * When the grid side has at least `cursorSize + 2` cells the clamp window is not inverted, so
   * the force centre stays inside the canvas, [-1, 1].
   */
  lemma ClampCenterInside(c: real, cursorSize: real, n: int)
    requires n >= 1 && cursorSize >= 0.0 && cursorSize + 2.0 <= n as real
    ensures var cell := 1.0 / n as real;
      CenterLow(cursorSize, cell) <= CenterHigh(cursorSize, cell) &&
      -1.0 <= ClampCenter(c, cursorSize, cell) <= 1.0
  {
    var cell := 1.0 / n as real;
    assert cell * n as real == 1.0;
    assert (cursorSize + 2.0) * cell <= 1.0 by {
      assert (cursorSize + 2.0) * cell <= n as real * cell;
    }
    assert cursorSize * cell >= 0.0;
  }

  /** The uniforms `ExternalForce.update` sets: the force and the clamped centre. */
  datatype ForceUniforms = ForceUniforms(force: Vec2, center: Vec2)

  function ExternalForce(diff: Vec2, coords: Vec2, cursorSize: real, mouseForce: real, cellScale: Vec2): (u: ForceUniforms)
    ensures u.force == diff.Scale(mouseForce / 2.0)
    ensures u.center.x == ClampCenter(coords.x, cursorSize, cellScale.x)
    ensures u.center.y == ClampCenter(coords.y, cursorSize, cellScale.y)
    ensures diff == Origin ==> u.force == Origin
  {
    ForceUniforms(
      Vec2((diff.x / 2.0) * mouseForce, (diff.y / 2.0) * mouseForce),
      Vec2(ClampCenter(coords.x, cursorSize, cellScale.x), ClampCenter(coords.y, cursorSize, cellScale.y)))
  }
}
