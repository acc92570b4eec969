/** The two signed-distance functions of the CPU ray (src/Ray.hpp, `signedDstToRectangle`
    and `signedDstToCircle`). Negative inside a shape, zero on its boundary, positive outside. */
module Distance {
  import opened Vectors

  /** Distance from `p` to the circle of radius `r` around `center`. */
  function SignedDstToCircle(len: Length, p: Vec, center: Vec, r: real): real
  {
    Norm(len, Sub(center, p)) - r
  }

  /** The offset of `p` from the box's faces: `(|v.x|, |v.y|) - size` with `v = p - center`. */
  function BoxOffset(p: Vec, center: Vec, size: Vec): Vec
  {
    var v := Sub(p, center);
    Sub(Vec(Abs(v.x), Abs(v.y)), size)
  }

  /** The length of the positive part of the offset: how far outside the box `p` lies. */
  function OutsideDst(len: Length, offset: Vec): real
  {
    len(Max(offset.x, 0.0), Max(offset.y, 0.0))
  }

  /** The larger of the non-positive parts of the offset: minus the depth inside the box. */
  function InsideDst(offset: Vec): real
  {
    Max(Min(offset.x, 0.0), Min(offset.y, 0.0))
  }

  /** Distance from `p` to the box with centre `center` and half-extents `size`. */
  function SignedDstToRectangle(len: Length, p: Vec, center: Vec, size: Vec): real
  {
    var offset := BoxOffset(p, center, size);
    OutsideDst(len, offset) + InsideDst(offset)
  }

  /** The circle distance is the distance to the centre less the radius, so it is negative
      exactly when `p` is closer to the centre than `r`, and zero exactly on the circle. */
  lemma CircleSign(len: Length, p: Vec, center: Vec, r: real)
    requires LengthLaws(len)
    ensures SignedDstToCircle(len, p, center, r) + r >= 0.0
    ensures SignedDstToCircle(len, p, center, r) < 0.0 <==> Norm(len, Sub(center, p)) < r
    ensures SignedDstToCircle(len, p, center, r) == 0.0 <==> Norm(len, Sub(center, p)) == r
    ensures p == center ==> SignedDstToCircle(len, p, center, r) == -r
  {
    assert Sub(center, center) == Vec(0.0, 0.0);
  }

  /** At the centre of a box with non-negative half-extents the distance is minus the
      smaller half-extent. */
  lemma RectangleAtCenter(len: Length, center: Vec, hw: real, hh: real)
    requires LengthLaws(len)
    requires hw >= 0.0 && hh >= 0.0
    ensures SignedDstToRectangle(len, center, center, Vec(hw, hh)) == -Min(hw, hh)
  {
    var offset := BoxOffset(center, center, Vec(hw, hh));
    assert offset == Vec(-hw, -hh);
    assert OutsideDst(len, offset) == len(0.0, 0.0) == 0.0;
  }

  /** A point `t > 0` to the right of the box's right face is exactly `t` away. */
  lemma RectangleRightOfFace(len: Length, center: Vec, hw: real, hh: real, t: real)
    requires LengthLaws(len)
    requires hw >= 0.0 && hh >= 0.0 && t > 0.0
    ensures SignedDstToRectangle(len, Add(center, Vec(hw + t, 0.0)), center, Vec(hw, hh)) == t
  {
    var p := Add(center, Vec(hw + t, 0.0));
    var offset := BoxOffset(p, center, Vec(hw, hh));
    assert Sub(p, center) == Vec(hw + t, 0.0);
    assert offset == Vec(t, -hh);
    assert OutsideDst(len, offset) == len(t, 0.0) == t;
    assert InsideDst(offset) == 0.0;
  }

  /** The box distance is positive exactly when `p` lies beyond one of the faces; whenever
      the outside term contributes, the inside term is zero; otherwise the distance is the
      inside term and is not positive. */
  lemma RectangleSign(len: Length, p: Vec, center: Vec, size: Vec)
    requires LengthLaws(len)
    ensures var v := Sub(p, center);
      SignedDstToRectangle(len, p, center, size) > 0.0 <==> Abs(v.x) > size.x || Abs(v.y) > size.y
    ensures var offset := BoxOffset(p, center, size);
      OutsideDst(len, offset) != 0.0 ==> InsideDst(offset) == 0.0
    ensures var offset := BoxOffset(p, center, size);
      OutsideDst(len, offset) == 0.0 ==> SignedDstToRectangle(len, p, center, size) == InsideDst(offset) <= 0.0
  {
    var offset := BoxOffset(p, center, size);
    var ox, oy := Max(offset.x, 0.0), Max(offset.y, 0.0);
    if offset.x > 0.0 || offset.y > 0.0 {
      assert ox != 0.0 || oy != 0.0;
      assert len(ox, oy) > 0.0;
    } else {
      assert ox == 0.0 && oy == 0.0;
      assert len(ox, oy) == 0.0;
    }
  }
}
