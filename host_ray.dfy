/** The CPU sphere tracer of src/Ray.hpp: a ray from a fixed origin towards the mouse that
    walks forward by the current distance to the scene, evaluating the signed-distance
    functions against every rectangle and circle at each step. */
module HostRay {
  import opened Vectors
  import opened Scene
  import opened Distance
  import opened Trajectory

  /** Distance to a rectangle shape as the marcher computes it: the box is centred at
      `position + geometricCenter` with half-extents `geometricCenter`. */
  function RectDst(len: Length, p: Vec, r: Shape): real
    requires r.Rect?
  {
    var sizeFromCenter := GeometricCenter(r);
    SignedDstToRectangle(len, p, Add(r.position, sizeFromCenter), sizeFromCenter)
  }

  /** Distance to a circle shape as the marcher computes it: centred at its position. */
  function CircleDst(len: Length, p: Vec, c: Shape): real
    requires c.Circle?
  {
    SignedDstToCircle(len, p, c.position, c.radius)
  }

  /** `d` min-ed with the distance to every rectangle, in order. */
  function RectsMin(len: Length, d: real, p: Vec, rects: seq<Shape>): real
    requires AllRects(rects)
    decreases |rects|
  {
    if rects == [] then d else RectsMin(len, Min(d, RectDst(len, p, rects[0])), p, rects[1..])
  }

  /** `d` min-ed with the distance to every circle, in order. */
  function CirclesMin(len: Length, d: real, p: Vec, circles: seq<Shape>): real
    requires AllCircles(circles)
    decreases |circles|
  {
    if circles == [] then d else CirclesMin(len, Min(d, CircleDst(len, p, circles[0])), p, circles[1..])
  }

  /** One evaluation of the scene at `p`, starting from the previous `dstToScene`
      (src/Ray.hpp:35-44): rectangles first, then circles, into one running minimum. */
  function SceneMin(len: Length, d: real, p: Vec, rects: seq<Shape>, circles: seq<Shape>): real
    requires AllRects(rects) && AllCircles(circles)
  {
    CirclesMin(len, RectsMin(len, d, p, rects), p, circles)
  }

  lemma {:induction false} RectsMinIsMinimum(len: Length, d: real, p: Vec, rects: seq<Shape>)
    requires AllRects(rects)
    ensures RectsMin(len, d, p, rects) <= d
    ensures forall i :: 0 <= i < |rects| ==> RectsMin(len, d, p, rects) <= RectDst(len, p, rects[i])
    ensures RectsMin(len, d, p, rects) == d ||
            exists i :: 0 <= i < |rects| && RectsMin(len, d, p, rects) == RectDst(len, p, rects[i])
    decreases |rects|
  {
    if rects != [] {
      var d' := Min(d, RectDst(len, p, rects[0]));
      RectsMinIsMinimum(len, d', p, rects[1..]);
      var r := RectsMin(len, d, p, rects);
      forall i | 0 <= i < |rects| ensures r <= RectDst(len, p, rects[i]) {
        if i > 0 { assert rects[i] == rects[1..][i - 1]; }
      }
      if r != d && r != RectDst(len, p, rects[0]) {
        var k :| 0 <= k < |rects[1..]| && r == RectDst(len, p, rects[1..][k]);
        assert rects[1..][k] == rects[k + 1];
      }
    }
  }

  lemma {:induction false} CirclesMinIsMinimum(len: Length, d: real, p: Vec, circles: seq<Shape>)
    requires AllCircles(circles)
    ensures CirclesMin(len, d, p, circles) <= d
    ensures forall i :: 0 <= i < |circles| ==> CirclesMin(len, d, p, circles) <= CircleDst(len, p, circles[i])
    ensures CirclesMin(len, d, p, circles) == d ||
            exists i :: 0 <= i < |circles| && CirclesMin(len, d, p, circles) == CircleDst(len, p, circles[i])
    decreases |circles|
  {
    if circles != [] {
      var d' := Min(d, CircleDst(len, p, circles[0]));
      CirclesMinIsMinimum(len, d', p, circles[1..]);
      var r := CirclesMin(len, d, p, circles);
      forall i | 0 <= i < |circles| ensures r <= CircleDst(len, p, circles[i]) {
        if i > 0 { assert circles[i] == circles[1..][i - 1]; }
      }
      if r != d && r != CircleDst(len, p, circles[0]) {
        var k :| 0 <= k < |circles[1..]| && r == CircleDst(len, p, circles[1..][k]);
        assert circles[1..][k] == circles[k + 1];
      }
    }
  }

  /** The scene distance never exceeds the previous value and is at most the distance to
      every shape; since the previous value is kept, it is not the scene distance alone. */
  lemma SceneMinIsMinimum(len: Length, d: real, p: Vec, rects: seq<Shape>, circles: seq<Shape>)
    requires AllRects(rects) && AllCircles(circles)
    ensures SceneMin(len, d, p, rects, circles) <= d
    ensures forall i :: 0 <= i < |rects| ==> SceneMin(len, d, p, rects, circles) <= RectDst(len, p, rects[i])
    ensures forall i :: 0 <= i < |circles| ==> SceneMin(len, d, p, rects, circles) <= CircleDst(len, p, circles[i])
  {
    RectsMinIsMinimum(len, d, p, rects);
    CirclesMinIsMinimum(len, RectsMin(len, d, p, rects), p, circles);
  }

  /** The termination measure of the marching loop: zero once the loop guard fails, and
      otherwise falling by at least one per step, because a step that lets the loop go on
      is longer than 1. */
  function Remaining(length: real, traveled: real, dst: real): nat
  {
    if dst > 1.0 && traveled < length then (length - traveled).Floor + 2 else 0
  }

  /** The marching loop of src/Ray.hpp:34-54 from position `p`, travelled length `traveled`
      and running distance `dst`. The running distance is never reset between steps. */
  function Trace(len: Length, dir: Vec, length: real, rects: seq<Shape>, circles: seq<Shape>,
                 p: Vec, traveled: real, dst: real): March
    requires AllRects(rects) && AllCircles(circles)
    decreases Remaining(length, traveled, dst)
  {
    if dst > 1.0 && traveled < length then
      var d := SceneMin(len, dst, p, rects, circles);
      var rest := Trace(len, dir, length, rects, circles, Add(p, Scale(dir, d)), traveled + d, d);
      March([Step(p, d)] + rest.steps, rest.traveled)
    else
      March([], traveled)
  }

  /** No recorded radius exceeds `bound`. */
  predicate RadiiAtMost(s: seq<Step>, bound: real)
  {
    forall k :: 0 <= k < |s| ==> s[k].radius <= bound
  }

  /** Recorded radii never grow from one step to a later one. */
  predicate NonIncreasing(s: seq<Step>)
  {
    forall i, j :: 0 <= i < j < |s| ==> s[j].radius <= s[i].radius
  }

  /** Every step except possibly the last is longer than 1. */
  predicate LongSteps(s: seq<Step>)
  {
    forall k :: 0 <= k < |s| - 1 ==> s[k].radius > 1.0
  }

  /** Recorded radii never grow and never exceed the distance the pass started from: the
      running distance is only ever min-ed, never reset (src/Ray.hpp:32,38,43). */
  lemma {:induction false} TraceRadiiNonIncreasing(len: Length, dir: Vec, length: real,
      rects: seq<Shape>, circles: seq<Shape>, p: Vec, traveled: real, dst: real)
    requires AllRects(rects) && AllCircles(circles)
    ensures RadiiAtMost(Trace(len, dir, length, rects, circles, p, traveled, dst).steps, dst)
    ensures NonIncreasing(Trace(len, dir, length, rects, circles, p, traveled, dst).steps)
    decreases Remaining(length, traveled, dst)
  {
    if dst > 1.0 && traveled < length {
      var d := SceneMin(len, dst, p, rects, circles);
      SceneMinIsMinimum(len, dst, p, rects, circles);
      var p' := Add(p, Scale(dir, d));
      TraceRadiiNonIncreasing(len, dir, length, rects, circles, p', traveled + d, d);
      var rest := Trace(len, dir, length, rects, circles, p', traveled + d, d).steps;
      var s := Trace(len, dir, length, rects, circles, p, traveled, dst).steps;
      assert s == [Step(p, d)] + rest;
      assert RadiiAtMost(rest, d) && NonIncreasing(rest);
      forall k | 0 <= k < |s| ensures s[k].radius <= d {
        if k > 0 { assert s[k] == rest[k - 1]; }
      }
      forall i, j | 0 <= i < j < |s| ensures s[j].radius <= s[i].radius {
        assert s[j] == rest[j - 1];
        if i > 0 { assert s[i] == rest[i - 1]; }
      }
    }
  }

  /** Every step but the last is longer than 1, the travelled length is the sum of the
      radii, and a pass ends because the last radius is at most 1 or the target length is
      reached; a pass records nothing only when the loop guard fails at once. */
  lemma {:induction false} TraceProgress(len: Length, dir: Vec, length: real,
      rects: seq<Shape>, circles: seq<Shape>, p: Vec, traveled: real, dst: real)
    requires AllRects(rects) && AllCircles(circles)
    ensures var m := Trace(len, dir, length, rects, circles, p, traveled, dst);
      m.traveled == traveled + SumRadii(m.steps)
    ensures LongSteps(Trace(len, dir, length, rects, circles, p, traveled, dst).steps)
    ensures var m := Trace(len, dir, length, rects, circles, p, traveled, dst);
      m.steps == [] <==> !(dst > 1.0 && traveled < length)
    ensures var m := Trace(len, dir, length, rects, circles, p, traveled, dst);
      m.steps != [] ==> m.steps[|m.steps| - 1].radius <= 1.0 || m.traveled >= length
    decreases Remaining(length, traveled, dst)
  {
    if dst > 1.0 && traveled < length {
      var d := SceneMin(len, dst, p, rects, circles);
      var p' := Add(p, Scale(dir, d));
      TraceProgress(len, dir, length, rects, circles, p', traveled + d, d);
      var rest := Trace(len, dir, length, rects, circles, p', traveled + d, d);
      var s := Trace(len, dir, length, rects, circles, p, traveled, dst).steps;
      assert s == [Step(p, d)] + rest.steps;
      assert s[1..] == rest.steps;
      assert LongSteps(rest.steps);
      forall k | 0 <= k < |s| - 1 ensures s[k].radius > 1.0 {
        if k == 0 {
          assert rest.steps != [];
        } else {
          assert s[k] == rest.steps[k - 1];
        }
      }
      if rest.steps == [] {
        assert s == [Step(p, d)];
      } else {
        assert s[|s| - 1] == rest.steps[|rest.steps| - 1];
      }
    }
  }

  /** Step `k` is drawn at `origin + direction * (start + sum of the radii before it)`
      (src/Ray.hpp:48,52-53). */
  lemma {:induction false} TraceGeometry(len: Length, dir: Vec, length: real,
      rects: seq<Shape>, circles: seq<Shape>, o: Vec, p: Vec, traveled: real, dst: real)
    requires AllRects(rects) && AllCircles(circles)
    requires p == Add(o, Scale(dir, traveled))
    ensures OnRay(Trace(len, dir, length, rects, circles, p, traveled, dst).steps, o, dir, traveled)
    decreases Remaining(length, traveled, dst)
  {
    if dst > 1.0 && traveled < length {
      var d := SceneMin(len, dst, p, rects, circles);
      var p' := Add(p, Scale(dir, d));
      AddScaleAssoc(o, dir, traveled, d);
      TraceGeometry(len, dir, length, rects, circles, o, p', traveled + d, d);
      var rest := Trace(len, dir, length, rects, circles, p', traveled + d, d).steps;
      var s := Trace(len, dir, length, rects, circles, p, traveled, dst).steps;
      assert s == [Step(p, d)] + rest;
      OnRayCons(o, dir, traveled, p, d, rest);
    }
  }

  /** With no shapes and a target farther than 1, the pass records one circle at the origin
      whose radius is the whole length, and ends at the target. */
  lemma EmptySceneOneStep(len: Length, dir: Vec, length: real, o: Vec)
    requires length > 1.0
    ensures Trace(len, dir, length, [], [], o, 0.0, length) == March([Step(o, length)], length)
  {
    var o' := Add(o, Scale(dir, length));
    assert Trace(len, dir, length, [], [], o', length, length) == March([], length);
  }

  /** Marching along the x axis at a circle of radius 20 whose position lies 100 units ahead:
      the first step is 80 long, the second finds the surface at distance 0 and the pass
      stops having travelled exactly 80. */
  lemma CircleAheadStopsAtSurface(len: Length, o: Vec, length: real, fill: Color)
    requires LengthLaws(len)
    requires length > 80.0
    ensures var c := Circle(Add(o, Vec(100.0, 0.0)), Zero, 20.0, fill);
      Trace(len, Vec(1.0, 0.0), length, [], [c], o, 0.0, length) ==
      March([Step(o, 80.0), Step(Add(o, Vec(80.0, 0.0)), 0.0)], 80.0)
  {
    var dir := Vec(1.0, 0.0);
    var c := Circle(Add(o, Vec(100.0, 0.0)), Zero, 20.0, fill);
    assert Sub(c.position, o) == Vec(100.0, 0.0);
    assert len(100.0, 0.0) == 100.0;
    assert CircleDst(len, o, c) == 80.0;
    assert [c][1..] == [];
    assert RectsMin(len, length, o, []) == length;
    assert CirclesMin(len, length, o, [c]) == CirclesMin(len, 80.0, o, []);
    assert SceneMin(len, length, o, [], [c]) == 80.0;
    var o1 := Add(o, Scale(dir, 80.0));
    assert o1 == Add(o, Vec(80.0, 0.0));
    assert Sub(c.position, o1) == Vec(20.0, 0.0);
    assert len(20.0, 0.0) == 20.0;
    assert CircleDst(len, o1, c) == 0.0;
    assert CirclesMin(len, 80.0, o1, [c]) == CirclesMin(len, 0.0, o1, []);
    assert SceneMin(len, 80.0, o1, [], [c]) == 0.0;
    var o2 := Add(o1, Scale(dir, 0.0));
    assert Trace(len, dir, length, [], [c], o2, 80.0, 0.0) == March([], 80.0);
  }

  /** The two inner loops of one marching step (src/Ray.hpp:37-43): the running distance
      `d` is lowered to each rectangle's and then each circle's signed distance from `p`. */
  method MinOverScene(len: Length, d: real, p: Vec, rects: seq<Shape>, circles: seq<Shape>) returns (dst: real)
    requires AllRects(rects) && AllCircles(circles)
    ensures dst == SceneMin(len, d, p, rects, circles)
  {
    dst := d;
    var j := 0;
    while j < |rects|
      invariant 0 <= j <= |rects|
      invariant RectsMin(len, dst, p, rects[j..]) == RectsMin(len, d, p, rects)
    {
      assert rects[j..][1..] == rects[j + 1..];
      dst := Min(dst, RectDst(len, p, rects[j]));
      j := j + 1;
    }
    ghost var afterRects := dst;
    j := 0;
    while j < |circles|
      invariant 0 <= j <= |circles|
      invariant CirclesMin(len, dst, p, circles[j..]) == CirclesMin(len, afterRects, p, circles)
    {
      assert circles[j..][1..] == circles[j + 1..];
      dst := Min(dst, CircleDst(len, p, circles[j]));
      j := j + 1;
    }
  }

  /** The CPU ray of src/Ray.hpp. */
  class Ray {
    const origin: Vec
    var direction: Vec
    var length: real
    /** The two vertices of the drawn line. */
    var lineStart: Vec
    var lineEnd: Vec
    /** The marching circles recorded so far (`rayCircles`). */
    var rayCircles: seq<Step>

    /** `length` is left indeterminate, as the member `float length` is: only `Update`
        gives it a value. */
    constructor (origin: Vec)
      ensures this.origin == origin && direction == Zero
      ensures lineStart == Zero && lineEnd == Zero && rayCircles == []
    {
      this.origin := origin;
      direction := Zero;
      lineStart, lineEnd := Zero, Zero;
      rayCircles := [];
    }

    /** Aim the ray at the mouse (src/Ray.hpp:19-27): the length is the distance from the
        origin, the direction the offset to the mouse divided by that length, the line ends
        at the mouse and the recorded circles are discarded. */
    method Update(len: Length, mx: int, my: int)
      requires LengthLaws(len)
      requires Vec(mx as real, my as real) != origin
      modifies this
      ensures length == Norm(len, Sub(Vec(mx as real, my as real), origin)) && length > 0.0
      ensures direction == Div(Sub(Vec(mx as real, my as real), origin), length)
      ensures lineStart == origin && lineEnd == Vec(mx as real, my as real)
      ensures rayCircles == []
    {
      var mouse := Vec(mx as real, my as real);
      var v := Sub(mouse, origin);
      assert v != Zero;
      length := Norm(len, v);
      direction := Div(v, length);
      lineStart := origin;
      lineEnd := Add(origin, Scale(direction, length));
      ScaleDivScale(v, length, length);
      rayCircles := [];
    }

    /** One marching pass (src/Ray.hpp:29-57). The recorded circles are appended to those
        already there; the line is cut back to the travelled length. */
    method March(len: Length, rects: seq<Shape>, circles: seq<Shape>)
      requires AllRects(rects) && AllCircles(circles)
      modifies this`rayCircles, this`lineEnd
      ensures var m := Trace(len, direction, length, rects, circles, origin, 0.0, length);
        rayCircles == old(rayCircles) + m.steps && lineEnd == Add(origin, Scale(direction, m.traveled))
    {
      ghost var whole := Trace(len, direction, length, rects, circles, origin, 0.0, length);
      var currentOrigin := origin;
      var currentLength := 0.0;
      var dstToScene := length;
      while dstToScene > 1.0 && currentLength < length
        invariant var rest := Trace(len, direction, length, rects, circles, currentOrigin, currentLength, dstToScene);
          rayCircles + rest.steps == old(rayCircles) + whole.steps && rest.traveled == whole.traveled
        decreases Remaining(length, currentLength, dstToScene)
      {
        dstToScene := MinOverScene(len, dstToScene, currentOrigin, rects, circles);
        rayCircles := rayCircles + [Step(currentOrigin, dstToScene)];
        currentOrigin := Add(currentOrigin, Scale(direction, dstToScene));
        currentLength := currentLength + dstToScene;
      }
      lineEnd := Add(origin, Scale(direction, currentLength));
    }
  }
}
