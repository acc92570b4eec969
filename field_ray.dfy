/** The field-sampling sphere tracer of src/Ray.cpp: instead of evaluating the distance
    functions it reads the distance from the red channel of the RGBA8 pixel buffer the
    compute kernel produced, one byte per pixel scaled to `[0, WIDTH]`. */
module FieldRay {
  import opened Vectors
  import opened Scene
  import opened Trajectory

  /** Samples below this distance end the march (src/Ray.cpp:45). */
  const THRESHOLD: real := 10.0

  /** The ray is aimed: it starts on screen and reaches a target in the window. */
  predicate Aimed(o: Vec, dir: Vec, length: real)
  {
    length > 0.0 && OnScreen(o) && InWindow(Add(o, Scale(dir, length)))
  }

  /** Index of the red byte of the pixel under `p`: the coordinates are truncated towards
      zero as `static_cast<size_t>` does for non-negative values (src/Ray.cpp:40-42). */
  function PixelIndex(p: Vec): int
  {
    (p.y.Floor * WIDTH + p.x.Floor) * 4
  }

  /** A red byte as a distance: `byte / 255 * WIDTH` (src/Ray.cpp:43). */
  function SampleDistance(b: Byte): (r: real)
    ensures 0.0 <= r <= WIDTH as real
    ensures r == 0.0 <==> b == 0
    ensures b == 255 ==> r == WIDTH as real
  {
    var fraction := b as real / 255.0;
    var w := WIDTH as real;
    assert 0.0 <= fraction <= 1.0 && w >= 1.0;
    assert fraction * w <= w by {
      assert (1.0 - fraction) * w >= 0.0;
    }
    assert fraction > 0.0 ==> fraction * w >= fraction;
    fraction * w
  }

  /** Every on-screen point reads the red byte of a pixel inside the `WIDTH * HEIGHT * 4`
      byte buffer, and the whole RGBA quadruple lies inside it. */
  lemma PixelIndexInBounds(p: Vec)
    requires OnScreen(p)
    ensures 0 <= PixelIndex(p) && PixelIndex(p) + 3 < WIDTH * HEIGHT * 4
    ensures PixelIndex(p) % 4 == 0
  {
    var px, py := p.x.Floor, p.y.Floor;
    assert 0 <= px < WIDTH && 0 <= py < HEIGHT;
    RowMajorInBounds(px, py, WIDTH, HEIGHT);
  }

  /** Row-major offset arithmetic: cell `(x, y)` of a `w x h` grid of 4-byte cells starts at
      a multiple of 4 and its four bytes lie inside the `w * h * 4` buffer. */
  lemma RowMajorInBounds(x: int, y: int, w: int, h: int)
    requires 0 <= x < w && 0 <= y < h
    ensures 0 <= (y * w + x) * 4 && (y * w + x) * 4 + 3 < w * h * 4
    ensures (y * w + x) * 4 % 4 == 0
  {
    var cell := y * w + x;
    assert 0 <= y * w;
    assert y * w <= (h - 1) * w by {
      assert (h - 1 - y) * w >= 0;
    }
    assert cell < h * w;
    assert cell + 1 <= w * h;
    assert (cell + 1) * 4 <= w * h * 4;
  }

  /** One coordinate of a point strictly before the end of a segment whose start lies in
      `[0, bound)` and whose end lies in `[0, bound]` lies in `[0, bound)`. */
  lemma CoordinateBetween(a: real, d: real, l: real, t: real, bound: real)
    requires 0.0 <= a < bound && 0.0 <= a + d * l <= bound
    requires 0.0 <= t < l
    ensures 0.0 <= a + d * t < bound
  {
    if d > 0.0 {
      assert d * t < d * l by { assert d * (l - t) > 0.0; }
    } else if d < 0.0 {
      assert d * t > d * l by { assert d * (l - t) < 0.0; }
      assert d * t <= 0.0 by { assert (-d) * t >= 0.0; }
    }
  }

  /** Every point the march samples lies strictly before the clamped target on the segment
      from the on-screen origin, so it is on screen (src/Ray.cpp:39-42). */
  lemma SampledPointOnScreen(o: Vec, dir: Vec, length: real, t: real)
    requires Aimed(o, dir, length)
    requires 0.0 <= t < length
    ensures OnScreen(Add(o, Scale(dir, t)))
  {
    CoordinateBetween(o.x, dir.x, length, t, WIDTH as real);
    CoordinateBetween(o.y, dir.y, length, t, HEIGHT as real);
  }

  /** The distance the march reads at length `t` along an aimed ray. */
  function SampleAt(pixels: seq<Byte>, o: Vec, dir: Vec, length: real, t: real): (r: real)
    requires |pixels| == WIDTH * HEIGHT * 4
    requires Aimed(o, dir, length) && 0.0 <= t < length
    ensures 0.0 <= r <= WIDTH as real
  {
    var p := Add(o, Scale(dir, t));
    SampledPointOnScreen(o, dir, length, t);
    PixelIndexInBounds(p);
    SampleDistance(pixels[PixelIndex(p)])
  }

  predicate AllOnScreen(s: seq<Step>)
  {
    forall k :: 0 <= k < |s| ==> OnScreen(s[k].center)
  }

  /** The marching loop of src/Ray.cpp:39-56 from loop count `i` and travelled length
      `traveled`, at the point `o + dir * traveled`. */
  function FieldTrace(pixels: seq<Byte>, o: Vec, dir: Vec, length: real, maxMarches: nat,
                      traveled: real, i: nat): March
    requires |pixels| == WIDTH * HEIGHT * 4
    requires Aimed(o, dir, length) && 0.0 <= traveled
    decreases maxMarches - i
  {
    if traveled < length && i < maxMarches then
      var d := SampleAt(pixels, o, dir, length, traveled);
      if d < THRESHOLD then
        March([], traveled)
      else
        var rest := FieldTrace(pixels, o, dir, length, maxMarches, traveled + d, i + 1);
        March([Step(Add(o, Scale(dir, traveled)), d)] + rest.steps, rest.traveled)
    else
      March([], traveled)
  }

  /** Every recorded radius is a sample of at least `THRESHOLD` and at most `WIDTH`, the loop
      runs at most `maxMarches` times, and since every step before the last one started
      short of the target, the number of steps is at most `ceil(length / 10)`. */
  lemma {:induction false} FieldTraceBounds(pixels: seq<Byte>, o: Vec, dir: Vec, length: real,
      maxMarches: nat, traveled: real, i: nat)
    requires |pixels| == WIDTH * HEIGHT * 4
    requires Aimed(o, dir, length) && 0.0 <= traveled
    ensures var m := FieldTrace(pixels, o, dir, length, maxMarches, traveled, i);
      forall k :: 0 <= k < |m.steps| ==> THRESHOLD <= m.steps[k].radius <= WIDTH as real
    ensures var m := FieldTrace(pixels, o, dir, length, maxMarches, traveled, i);
      i + |m.steps| <= maxMarches || m.steps == []
    ensures var m := FieldTrace(pixels, o, dir, length, maxMarches, traveled, i);
      m.steps == [] || traveled + THRESHOLD * (|m.steps| - 1) as real < length
    ensures var m := FieldTrace(pixels, o, dir, length, maxMarches, traveled, i);
      m.traveled == traveled + SumRadii(m.steps) && m.traveled >= traveled
    decreases maxMarches - i
  {
    if traveled < length && i < maxMarches {
      var d := SampleAt(pixels, o, dir, length, traveled);
      if d >= THRESHOLD {
        FieldTraceBounds(pixels, o, dir, length, maxMarches, traveled + d, i + 1);
        var rest := FieldTrace(pixels, o, dir, length, maxMarches, traveled + d, i + 1);
        var m := FieldTrace(pixels, o, dir, length, maxMarches, traveled, i);
        assert m.steps == [Step(Add(o, Scale(dir, traveled)), d)] + rest.steps;
        assert m.steps[1..] == rest.steps;
        forall k | 0 <= k < |m.steps| ensures THRESHOLD <= m.steps[k].radius <= WIDTH as real {
          if k > 0 { assert m.steps[k] == rest.steps[k - 1]; }
        }
      }
    }
  }

  /** The march ends because the target length is reached, because `maxMarches` iterations
      ran, or because the sample at the point it stopped at is below `THRESHOLD`; in that last
      case the short sample is not recorded (src/Ray.cpp:39,45-46). */
  lemma {:induction false} FieldTraceExit(pixels: seq<Byte>, o: Vec, dir: Vec, length: real,
      maxMarches: nat, traveled: real, i: nat)
    requires |pixels| == WIDTH * HEIGHT * 4
    requires Aimed(o, dir, length) && 0.0 <= traveled
    ensures FieldTrace(pixels, o, dir, length, maxMarches, traveled, i).traveled >= traveled
    ensures var m := FieldTrace(pixels, o, dir, length, maxMarches, traveled, i);
      m.traveled >= length || i + |m.steps| >= maxMarches ||
      SampleAt(pixels, o, dir, length, m.traveled) < THRESHOLD
    decreases maxMarches - i
  {
    FieldTraceBounds(pixels, o, dir, length, maxMarches, traveled, i);
    if traveled < length && i < maxMarches {
      var d := SampleAt(pixels, o, dir, length, traveled);
      if d >= THRESHOLD {
        FieldTraceExit(pixels, o, dir, length, maxMarches, traveled + d, i + 1);
      }
    }
  }

  /** Step `k` is drawn at `origin + direction * (sum of the radii before it)` and the
      recorded trajectory stays on screen (src/Ray.cpp:50,54-55). */
  lemma {:induction false} FieldTraceGeometry(pixels: seq<Byte>, o: Vec, dir: Vec, length: real,
      maxMarches: nat, traveled: real, i: nat)
    requires |pixels| == WIDTH * HEIGHT * 4
    requires Aimed(o, dir, length) && 0.0 <= traveled
    ensures OnRay(FieldTrace(pixels, o, dir, length, maxMarches, traveled, i).steps, o, dir, traveled)
    ensures AllOnScreen(FieldTrace(pixels, o, dir, length, maxMarches, traveled, i).steps)
    decreases maxMarches - i
  {
    if traveled < length && i < maxMarches {
      var d := SampleAt(pixels, o, dir, length, traveled);
      if d >= THRESHOLD {
        var p := Add(o, Scale(dir, traveled));
        FieldTraceGeometry(pixels, o, dir, length, maxMarches, traveled + d, i + 1);
        var rest := FieldTrace(pixels, o, dir, length, maxMarches, traveled + d, i + 1).steps;
        var s := FieldTrace(pixels, o, dir, length, maxMarches, traveled, i).steps;
        assert s == [Step(p, d)] + rest;
        OnRayCons(o, dir, traveled, p, d, rest);
        SampledPointOnScreen(o, dir, length, traveled);
        assert AllOnScreen(rest);
        forall k | 0 <= k < |s| ensures OnScreen(s[k].center) {
          if k > 0 { assert s[k] == rest[k - 1]; }
        }
      }
    }
  }

  /** The field-sampling ray of src/Ray.cpp. */
  class Ray {
    const origin: Vec
    const maxMarches: nat
    var direction: Vec
    var length: real
    /** The two vertices of the drawn line. */
    var lineStart: Vec
    var lineEnd: Vec
    /** The marching circles recorded so far (`rayCircles`). */
    var rayCircles: seq<Step>

    /** `length` is left indeterminate, as the member `float length` is: only `Update`
        gives it a value. */
    constructor (origin: Vec, maxMarches: nat)
      ensures this.origin == origin && this.maxMarches == maxMarches
      ensures direction == Zero
      ensures lineStart == Zero && lineEnd == Zero && rayCircles == []
    {
      this.origin := origin;
      this.maxMarches := maxMarches;
      direction := Zero;
      lineStart, lineEnd := Zero, Zero;
      rayCircles := [];
    }

    /** Aim the ray at the mouse clamped into the window (src/Ray.cpp:20-33): the line ends at
        the clamped point, the length is its distance from the origin, the direction the
        offset to it divided by that length, and the recorded circles are discarded. */
    method Update(len: Length, mx: int, my: int)
      requires LengthLaws(len)
      requires ClampToWindow(mx, my) != origin
      modifies this
      ensures var target := ClampToWindow(mx, my);
        length == Norm(len, Sub(target, origin)) && length > 0.0 &&
        direction == Div(Sub(target, origin), length) &&
        lineStart == origin && lineEnd == target
      ensures rayCircles == []
      ensures OnScreen(origin) ==> Aimed(origin, direction, length)
    {
      var mousePosClamped := ClampToWindow(mx, my);
      var v := Sub(mousePosClamped, origin);
      assert v != Zero;
      length := Norm(len, v);
      direction := Div(v, length);
      lineStart := origin;
      ScaleDivScale(v, length, length);
      lineEnd := Add(origin, Scale(direction, length));
      rayCircles := [];
    }

    /** One marching pass over the sampled field (src/Ray.cpp:35-59). Every pixel read is
        inside the buffer; the recorded circles are appended to those already there and the
        line is cut back to the travelled length. */
    method March(sdfPixels: array<Byte>)
      requires sdfPixels.Length == WIDTH * HEIGHT * 4
      requires Aimed(origin, direction, length)
      modifies this`rayCircles, this`lineEnd
      ensures var m := FieldTrace(sdfPixels[..], origin, direction, length, maxMarches, 0.0, 0);
        rayCircles == old(rayCircles) + m.steps && lineEnd == Add(origin, Scale(direction, m.traveled))
    {
      ghost var pixels := sdfPixels[..];
      ghost var whole := FieldTrace(pixels, origin, direction, length, maxMarches, 0.0, 0);
      var currentOrigin := origin;
      var currentLength := 0.0;
      var i: nat := 0;
      while currentLength < length && i < maxMarches
        invariant 0.0 <= currentLength && i <= maxMarches
        invariant currentOrigin == Add(origin, Scale(direction, currentLength))
        invariant var rest := FieldTrace(pixels, origin, direction, length, maxMarches, currentLength, i);
          rayCircles + rest.steps == old(rayCircles) + whole.steps && rest.traveled == whole.traveled
        decreases maxMarches - i
      {
        SampledPointOnScreen(origin, direction, length, currentLength);
        PixelIndexInBounds(currentOrigin);
        var px := currentOrigin.x.Floor;
        var py := currentOrigin.y.Floor;
        var pixIdx := (py * WIDTH + px) * 4;
        var dstToScene := SampleDistance(sdfPixels[pixIdx]);
        if dstToScene < THRESHOLD {
          break;
        }
        rayCircles := rayCircles + [Step(currentOrigin, dstToScene)];
        AddScaleAssoc(origin, direction, currentLength, dstToScene);
        currentOrigin := Add(currentOrigin, Scale(direction, dstToScene));
        currentLength := currentLength + dstToScene;
        i := i + 1;
      }
      lineEnd := Add(origin, Scale(direction, currentLength));
    }
  }
}
