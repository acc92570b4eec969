/** The records the host copies into device buffers for the compute kernels: a colour
    channel as a float in `[0, 1]`, and one record per circle or rectangle
    (src/OCL_SDF.hpp:24-34). Byte layout and padding of the OpenCL vector types are not
    modelled. */
module Records {
  import opened Vectors
  import opened Scene

  /** A `cl_float3` colour. */
  datatype Rgb = Rgb(x: real, y: real, z: real)

  datatype CircleRecord = CircleRecord(center: Vec, radius: real, color: Rgb)

  datatype RectRecord = RectRecord(center: Vec, sizeFromCenter: Vec, color: Rgb)

  const NoCircle := CircleRecord(Zero, 0.0, Rgb(0.0, 0.0, 0.0))

  const NoRect := RectRecord(Zero, Zero, Rgb(0.0, 0.0, 0.0))

  /** A colour byte as a float channel, `b / 255`. */
  function Channel(b: Byte): (r: real)
    ensures 0.0 <= r <= 1.0
    ensures r == 0.0 <==> b == 0
    ensures r == 1.0 <==> b == 255
    ensures r * 255.0 == b as real
  {
    b as real / 255.0
  }

  function Normalized(c: Color): Rgb
  {
    Rgb(Channel(c.r), Channel(c.g), Channel(c.b))
  }

  /** The record of a circle: its position as centre, its radius and its normalised colour
      (src/OCL_SDF.cpp:169-178). */
  function ProjectCircle(s: Shape): CircleRecord
    requires s.Circle?
  {
    CircleRecord(s.position, s.radius, Normalized(s.fill))
  }

  /** The record of a rectangle: the centre `position + geometric centre` and the
      half-extents `geometric centre` (src/OCL_SDF.cpp:195-206). */
  function ProjectRect(s: Shape): RectRecord
    requires s.Rect?
  {
    var half := GeometricCenter(s);
    RectRecord(Add(s.position, half), half, Normalized(s.fill))
  }

  /** The records of a sequence of circles, element by element. */
  function ProjectCircles(circles: seq<Shape>): (r: seq<CircleRecord>)
    requires AllCircles(circles)
    ensures |r| == |circles|
  {
    seq(|circles|, i requires 0 <= i < |circles| => ProjectCircle(circles[i]))
  }

  function ProjectRects(rects: seq<Shape>): (r: seq<RectRecord>)
    requires AllRects(rects)
    ensures |r| == |rects|
  {
    seq(|rects|, i requires 0 <= i < |rects| => ProjectRect(rects[i]))
  }

  /** The three colour channels lie in `[0, 1]` and scale back to the colour's bytes, so
      distinct colours give distinct records. */
  lemma NormalizedInverse(c: Color, d: Color)
    ensures 0.0 <= Normalized(c).x <= 1.0 && 0.0 <= Normalized(c).y <= 1.0 && 0.0 <= Normalized(c).z <= 1.0
    ensures Normalized(c) == Normalized(d) <==> c == d
    ensures Normalized(c) == Rgb(0.0, 0.0, 0.0) <==> c == Black
  {
    if Normalized(c) == Normalized(d) {
      assert Channel(c.r) * 255.0 == Channel(d.r) * 255.0;
      assert Channel(c.g) * 255.0 == Channel(d.g) * 255.0;
      assert Channel(c.b) * 255.0 == Channel(d.b) * 255.0;
    }
  }

  /** The box the rectangle record describes, `center -/+ sizeFromCenter`, is the
      rectangle's local box `[position, position + size]` placed at its position; it is the
      drawn box exactly when the rectangle's origin is zero. */
  lemma RectRecordBox(s: Shape)
    requires s.Rect?
    ensures var r := ProjectRect(s);
      Sub(r.center, r.sizeFromCenter) == s.position &&
      Add(r.center, r.sizeFromCenter) == Add(s.position, s.size)
    ensures Sub(ProjectRect(s).center, ProjectRect(s).sizeFromCenter) == Drawn(s) <==> s.origin == Zero
  {
  }

  /** The circle record's centre is the circle's position, while the drawn circle's centre
      is `position - origin + (radius, radius)`: the two agree exactly when the origin is
      `(radius, radius)`. */
  lemma CircleRecordCenter(s: Shape)
    requires s.Circle?
    ensures ProjectCircle(s).center == Add(Drawn(s), Vec(s.radius, s.radius)) <==>
      s.origin == Vec(s.radius, s.radius)
  {
  }
}
