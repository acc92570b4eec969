/** The scene's shapes as the program holds them: SFML circle and rectangle shapes with a
    position, a local origin and a fill colour, and the two screen-size constants. */
module Scene {
  import opened Vectors

  type Positive = n: nat | n > 0 witness 1

  /** `WIDTH` and `HEIGHT` come from defines.hpp, which is not part of this model: the model
      only knows that they are positive. */
  const WIDTH: Positive
  const HEIGHT: Positive

  newtype Byte = b: int | 0 <= b < 256

  datatype Color = Color(r: Byte, g: Byte, b: Byte)

  const Black := Color(0, 0, 0)

  /** An `sf::CircleShape` or an `sf::RectangleShape`. The drawn location of a shape
      (without rotation or scale) is `position - origin`. */
  datatype Shape =
    | Circle(position: Vec, origin: Vec, radius: real, fill: Color)
    | Rect(position: Vec, origin: Vec, size: Vec, fill: Color)

  predicate AllCircles(s: seq<Shape>) { forall i :: 0 <= i < |s| ==> s[i].Circle? }

  predicate AllRects(s: seq<Shape>) { forall i :: 0 <= i < |s| ==> s[i].Rect? }

  /** Where the shape is drawn: SFML's transform translated by `-origin`. */
  function Drawn(s: Shape): Vec { Sub(s.position, s.origin) }

  /** A rectangle's geometric centre in local coordinates: half its size. */
  function GeometricCenter(s: Shape): Vec
    requires s.Rect?
  {
    Vec(s.size.x / 2.0, s.size.y / 2.0)
  }

  /** Axis-aligned bounds in screen coordinates: the local box `[0, extent)` moved to the
      drawn location. */
  datatype Box = Box(left: real, top: real, width: real, height: real)

  function GlobalBounds(s: Shape): Box
  {
    var d := Drawn(s);
    match s
    case Circle(_, _, radius, _) => Box(d.x, d.y, 2.0 * radius, 2.0 * radius)
    case Rect(_, _, size, _) => Box(d.x, d.y, size.x, size.y)
  }

  /** `sf::Rect::contains`: the left and top edges belong to the box, the right and
      bottom edges do not. */
  predicate Contains(b: Box, p: Vec)
  {
    b.left <= p.x < b.left + b.width && b.top <= p.y < b.top + b.height
  }

  /** `std::clamp(v, lo, hi)` on ints. */
  function Clamp(v: int, lo: int, hi: int): (r: int)
    requires lo <= hi
    ensures lo <= r <= hi
    ensures lo <= v <= hi ==> r == v
    ensures v < lo ==> r == lo
    ensures v > hi ==> r == hi
  {
    if v < lo then lo else if v > hi then hi else v
  }

  /** A point whose pixel exists: `[0, WIDTH) x [0, HEIGHT)`. */
  predicate OnScreen(p: Vec)
  {
    0.0 <= p.x < WIDTH as real && 0.0 <= p.y < HEIGHT as real
  }

  /** A point of the closed window `[0, WIDTH] x [0, HEIGHT]`, where the mouse is clamped. */
  predicate InWindow(p: Vec)
  {
    0.0 <= p.x <= WIDTH as real && 0.0 <= p.y <= HEIGHT as real
  }

  /** The mouse position clamped into the window, `[0, WIDTH] x [0, HEIGHT]` inclusive. */
  function ClampToWindow(mx: int, my: int): (r: Vec)
    ensures 0.0 <= r.x <= WIDTH as real && 0.0 <= r.y <= HEIGHT as real
    ensures 0 <= mx <= WIDTH ==> r.x == mx as real
    ensures 0 <= my <= HEIGHT ==> r.y == my as real
  {
    Vec(Clamp(mx, 0, WIDTH) as real, Clamp(my, 0, HEIGHT) as real)
  }
}
