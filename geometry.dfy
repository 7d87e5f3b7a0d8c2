/** Points and rectangles of the page and of the simulation's normalised space. */
module Geometry {

  /** A `THREE.Vector2`, as a value: the scripts copy vectors, they never share them. */
  datatype Vec2 = Vec2(x: real, y: real)
  {
    function Add(v: Vec2): Vec2 { Vec2(x + v.x, y + v.y) }
    function Sub(v: Vec2): Vec2 { Vec2(x - v.x, y - v.y) }
    function Scale(k: real): Vec2 { Vec2(k * x, k * y) }
    /** `a.lerp(b, k)`: moves the fraction `k` of the way from this vector to `v`. */
    function Lerp(v: Vec2, k: real): Vec2 { Vec2(x + (v.x - x) * k, y + (v.y - y) * k) }
    function NormSq(): real { x * x + y * y }
  }

  const Origin := Vec2(0.0, 0.0)

  /** What `getBoundingClientRect()` reports: the left and top edges and the (non-negative) size. */
  datatype Rect = Rect(left: real, top: real, width: real, height: real)
  {
    function Right(): real { left + width }
    function Bottom(): real { top + height }
  }

  /** `Vector2.length()` is THREE.js code; callers hand the model a function that computes it. */
  ghost predicate IsEuclidean(length: (real, real) -> real)
  {
    forall x: real, y: real :: length(x, y) >= 0.0 && length(x, y) * length(x, y) == x * x + y * y
  }
}
