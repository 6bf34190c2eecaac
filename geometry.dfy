/** Two-dimensional vectors over exact reals, and the rounding used to turn a
    box into a range of grid cells. */
module Geometry {

  /** An immutable point or displacement. Every operation builds a new value,
      so no operand is ever changed. */
  datatype Vector = Vector(x: real, y: real)

  /** Component-wise sum (Vector.plus). */
  function Plus(a: Vector, b: Vector): (r: Vector)
    ensures r.x == a.x + b.x && r.y == a.y + b.y
  {
    Vector(a.x + b.x, a.y + b.y)
  }

  /** Scaling by a number (Vector.times). */
  function Times(a: Vector, n: real): (r: Vector)
    ensures r.x == a.x * n && r.y == a.y * n
  {
    Vector(a.x * n, a.y * n)
  }

  /** Reversing a velocity twice gives the velocity back. */
  lemma ReverseTwice(v: Vector)
    ensures Times(Times(v, -1.0), -1.0) == v
  {
  }

  /** Math.floor on an exact real: the largest integer not above `r`. */
  function Floor(r: real): (f: int)
    ensures f as real <= r < f as real + 1.0
  {
    r.Floor
  }

  /** Math.ceil on an exact real: the smallest integer not below `r`. */
  function Ceil(r: real): (c: int)
    ensures r <= c as real < r + 1.0
  {
    -((-r).Floor)
  }
}
