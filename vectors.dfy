/** Two-dimensional real vectors (the `sf::Vector2f` values the program passes around),
    the scalar helpers `std::abs`, `std::min`, `std::max`, and the laws assumed of the
    vector length that SFML computes with a square root. */
module Vectors {

  datatype Vec = Vec(x: real, y: real)

  const Zero := Vec(0.0, 0.0)

  function Add(a: Vec, b: Vec): Vec { Vec(a.x + b.x, a.y + b.y) }

  function Sub(a: Vec, b: Vec): Vec { Vec(a.x - b.x, a.y - b.y) }

  function Scale(a: Vec, k: real): Vec { Vec(a.x * k, a.y * k) }

  function Div(a: Vec, k: real): Vec
    requires k != 0.0
  {
    Vec(a.x / k, a.y / k)
  }

  function Abs(r: real): real { if r < 0.0 then -r else r }

  function Min(a: real, b: real): real { if a <= b then a else b }

  function Max(a: real, b: real): real { if a >= b then a else b }

  /** The vector length as a foreign computation: every law the model relies on is listed
      here, nothing else about `len` is known. */
  type Length = (real, real) -> real

  ghost predicate LengthLaws(len: Length)
  {
    (forall x: real, y: real :: len(x, y) >= 0.0) &&
    (forall x: real, y: real :: len(x, y) == 0.0 <==> x == 0.0 && y == 0.0) &&
    (forall x: real :: len(x, 0.0) == Abs(x))
  }

  function Norm(len: Length, v: Vec): real { len(v.x, v.y) }

  /** Walking `a` and then `b` along `d` from `o` is walking `a + b`. */
  lemma AddScaleAssoc(o: Vec, d: Vec, a: real, b: real)
    ensures Add(Add(o, Scale(d, a)), Scale(d, b)) == Add(o, Scale(d, a + b))
  {
  }

  /** Scaling a vector by `d / l` and then by `l` gives it back scaled by `d`. */
  lemma ScaleDivScale(v: Vec, l: real, d: real)
    requires l != 0.0
    ensures Scale(Div(v, l), d) == Scale(v, d / l)
    ensures Scale(Div(v, l), l) == v
  {
  }
}
