/** The ray-marching compute wrapper `OCL_RayMarching` (src/OCL_RayMarching.cpp): the same
    driver set-up as the distance-field wrapper with the `renderSDF` kernel, but each shape
    kind is split over three host arrays and three device buffers (circles: centres, radii,
    colours; rectangles: centres, half-extents, colours), and `run` passes a softness factor
    `k` as kernel argument 9. */
module RayMarchingKernel {
  import opened Vectors
  import opened Scene
  import opened Records
  import opened Wrappers
  import opened ClRuntime
  import opened DeviceSelect
  import opened Ownership
  import opened GpuState

  /** Buffers per shape kind. */
  const Parts := 3

  /** The three parts of the circle records, element by element. */
  function CircleCenters(circles: seq<Shape>): (r: seq<Vec>)
    requires AllCircles(circles)
    ensures |r| == |circles| && forall i :: 0 <= i < |r| ==> r[i] == ProjectCircles(circles)[i].center
  {
    seq(|circles|, i requires 0 <= i < |circles| => ProjectCircle(circles[i]).center)
  }

  function CircleRadii(circles: seq<Shape>): (r: seq<real>)
    requires AllCircles(circles)
    ensures |r| == |circles| && forall i :: 0 <= i < |r| ==> r[i] == ProjectCircles(circles)[i].radius
  {
    seq(|circles|, i requires 0 <= i < |circles| => ProjectCircle(circles[i]).radius)
  }

  function CircleColors(circles: seq<Shape>): (r: seq<Rgb>)
    requires AllCircles(circles)
    ensures |r| == |circles| && forall i :: 0 <= i < |r| ==> r[i] == ProjectCircles(circles)[i].color
  {
    seq(|circles|, i requires 0 <= i < |circles| => ProjectCircle(circles[i]).color)
  }

  /** The three parts of the rectangle records. */
  function RectCenters(rects: seq<Shape>): (r: seq<Vec>)
    requires AllRects(rects)
    ensures |r| == |rects| && forall i :: 0 <= i < |r| ==> r[i] == ProjectRects(rects)[i].center
  {
    seq(|rects|, i requires 0 <= i < |rects| => ProjectRect(rects[i]).center)
  }

  function RectSizes(rects: seq<Shape>): (r: seq<Vec>)
    requires AllRects(rects)
    ensures |r| == |rects| && forall i :: 0 <= i < |r| ==> r[i] == ProjectRects(rects)[i].sizeFromCenter
  {
    seq(|rects|, i requires 0 <= i < |rects| => ProjectRect(rects[i]).sizeFromCenter)
  }

  function RectColors(rects: seq<Shape>): (r: seq<Rgb>)
    requires AllRects(rects)
    ensures |r| == |rects| && forall i :: 0 <= i < |r| ==> r[i] == ProjectRects(rects)[i].color
  {
    seq(|rects|, i requires 0 <= i < |rects| => ProjectRect(rects[i]).color)
  }

  /** What a blocking write of `cl_float2`, `cl_float` and `cl_float3` arrays leaves in a
      device buffer. */
  function Float2Cells(vs: seq<Vec>): (r: seq<Cell>)
    ensures |r| == |vs|
  {
    seq(|vs|, i requires 0 <= i < |vs| => Float2Cell(vs[i]))
  }

  function FloatCells(fs: seq<real>): (r: seq<Cell>)
    ensures |r| == |fs|
  {
    seq(|fs|, i requires 0 <= i < |fs| => FloatCell(fs[i]))
  }

  function Float3Cells(cs: seq<Rgb>): (r: seq<Cell>)
    ensures |r| == |cs|
  {
    seq(|cs|, i requires 0 <= i < |cs| => Float3Cell(cs[i]))
  }

  /** Splitting the records into parts loses nothing: the three parts give back the
      records of the distance-field wrapper. */
  lemma {:induction false} CirclePartsJoin(circles: seq<Shape>)
    requires AllCircles(circles)
    ensures forall i :: 0 <= i < |circles| ==>
      CircleRecord(CircleCenters(circles)[i], CircleRadii(circles)[i], CircleColors(circles)[i]) == ProjectCircles(circles)[i]
  {
    forall i | 0 <= i < |circles|
      ensures CircleRecord(CircleCenters(circles)[i], CircleRadii(circles)[i], CircleColors(circles)[i]) == ProjectCircles(circles)[i]
    {
      var c := ProjectCircles(circles)[i];
      assert c == CircleRecord(c.center, c.radius, c.color);
    }
  }

  lemma {:induction false} RectPartsJoin(rects: seq<Shape>)
    requires AllRects(rects)
    ensures forall i :: 0 <= i < |rects| ==>
      RectRecord(RectCenters(rects)[i], RectSizes(rects)[i], RectColors(rects)[i]) == ProjectRects(rects)[i]
  {
    forall i | 0 <= i < |rects|
      ensures RectRecord(RectCenters(rects)[i], RectSizes(rects)[i], RectColors(rects)[i]) == ProjectRects(rects)[i]
    {
      var r := ProjectRects(rects)[i];
      assert r == RectRecord(r.center, r.sizeFromCenter, r.color);
    }
  }

  /** The copy loop of `updateCirclesBuffer`. */
  method FillCircles(centers: array<Vec>, radii: array<real>, colors: array<Rgb>, circles: seq<Shape>)
    requires AllCircles(circles) && centers.Length == radii.Length == colors.Length == |circles|
    modifies centers, radii, colors
    ensures centers[..] == CircleCenters(circles) && radii[..] == CircleRadii(circles) && colors[..] == CircleColors(circles)
  {
    var i := 0;
    while i < |circles|
      invariant 0 <= i <= |circles|
      invariant centers[..i] == CircleCenters(circles)[..i]
      invariant radii[..i] == CircleRadii(circles)[..i]
      invariant colors[..i] == CircleColors(circles)[..i]
    {
      var record := ProjectCircle(circles[i]);
      centers[i] := record.center;
      radii[i] := record.radius;
      colors[i] := record.color;
      i := i + 1;
    }
  }

  /** The copy loop of `updateRectsBuffer`; the centre and half-extent arrays are two
      different arrays. */
  method FillRects(centers: array<Vec>, sizes: array<Vec>, colors: array<Rgb>, rects: seq<Shape>)
    requires AllRects(rects) && centers.Length == sizes.Length == colors.Length == |rects| && centers != sizes
    modifies centers, sizes, colors
    ensures centers[..] == RectCenters(rects) && sizes[..] == RectSizes(rects) && colors[..] == RectColors(rects)
  {
    var i := 0;
    while i < |rects|
      invariant 0 <= i <= |rects|
      invariant centers[..i] == RectCenters(rects)[..i]
      invariant sizes[..i] == RectSizes(rects)[..i]
      invariant colors[..i] == RectColors(rects)[..i]
    {
      var record := ProjectRect(rects[i]);
      centers[i] := record.center;
      sizes[i] := record.sizeFromCenter;
      colors[i] := record.color;
      i := i + 1;
    }
  }

  /** The three blocking writes of `updateCirclesBuffer`, one per circle buffer in order;
      every object but the circle buffers is unchanged. */
  method WriteCircleParts(g: Gpu, imageBytes: nat, a: seq<Cell>, b: seq<Cell>, c: seq<Cell>) returns (e: Gpu)
    requires Holds(g, imageBytes, Parts) && g.numCircles > 0 && |a| == |b| == |c| == g.numCircles
    ensures Holds(e, imageBytes, Parts) && e == g.(cl := e.cl)
    ensures CellsOf(e, g.circles[0]) == a && CellsOf(e, g.circles[1]) == b && CellsOf(e, g.circles[2]) == c
    ensures e.cl.log == g.cl.log + [BufferWritten(g.circles[0]), BufferWritten(g.circles[1]), BufferWritten(g.circles[2])]
    ensures Agree(g.cl, e.cl, NonNull(g.circles))
  {
    hide Holds;
    HeldShape(g, imageBytes, Parts);
    assert g.circles[0] in NonNull(g.circles) && g.circles[1] in NonNull(g.circles) && g.circles[2] in NonNull(g.circles);
    e := WriteCircles(g, imageBytes, Parts, 0, a);
    e := WriteCircles(e, imageBytes, Parts, 1, b);
    e := WriteCircles(e, imageBytes, Parts, 2, c);
  }

  /** The three blocking writes of `updateRectsBuffer`; every object but the rectangle
      buffers is unchanged. */
  method WriteRectParts(g: Gpu, imageBytes: nat, a: seq<Cell>, b: seq<Cell>, c: seq<Cell>) returns (e: Gpu)
    requires Holds(g, imageBytes, Parts) && g.numRects > 0 && |a| == |b| == |c| == g.numRects
    ensures Holds(e, imageBytes, Parts) && e == g.(cl := e.cl)
    ensures CellsOf(e, g.rects[0]) == a && CellsOf(e, g.rects[1]) == b && CellsOf(e, g.rects[2]) == c
    ensures e.cl.log == g.cl.log + [BufferWritten(g.rects[0]), BufferWritten(g.rects[1]), BufferWritten(g.rects[2])]
    ensures Agree(g.cl, e.cl, NonNull(g.rects))
  {
    hide Holds;
    HeldShape(g, imageBytes, Parts);
    assert g.rects[0] in NonNull(g.rects) && g.rects[1] in NonNull(g.rects) && g.rects[2] in NonNull(g.rects);
    e := WriteRects(g, imageBytes, Parts, 0, a);
    e := WriteRects(e, imageBytes, Parts, 1, b);
    e := WriteRects(e, imageBytes, Parts, 2, c);
  }

  /** The three blocking writes to one kind's buffers, in order. */
  function WriteEvents(hs: seq<Handle>): seq<Event>
    requires |hs| == Parts
  {
    [BufferWritten(hs[0]), BufferWritten(hs[1]), BufferWritten(hs[2])]
  }

  /** A write to one kind's buffers after a step that kept everything outside that kind's
      old buffers keeps everything outside them too, each new buffer being the old one or
      newer than the first state. */
  lemma PartsAgree(g0: Gpu, imageBytes: nat, g1: Gpu, g2: Gpu, old3: seq<Handle>, new3: seq<Handle>)
    requires Holds(g0, imageBytes, Parts) && |old3| == |new3| == Parts
    requires Agree(g0.cl, g1.cl, NonNull(old3)) && Agree(g1.cl, g2.cl, NonNull(new3))
    requires forall j :: 0 <= j < Parts ==> new3[j] == old3[j] || new3[j] >= g0.cl.next
    ensures Agree(g0.cl, g2.cl, NonNull(old3))
  {
    forall h | h in NonNull(new3)
      ensures h in NonNull(old3) || h >= g0.cl.next
    {
      var j :| 0 <= j < Parts && new3[j] == h && h != NULL;
      if new3[j] == old3[j] {
        assert old3[j] in NonNull(old3);
      }
    }
  }

  /** The four bindings `run(k)` makes per shape kind: the three buffers `hs` at `first`
      and the next two indices, then the count. */
  method BindShapes(g: Gpu, imageBytes: nat, first: nat, hs: seq<Handle>, count: nat) returns (e: Gpu)
    requires Holds(g, imageBytes, Parts) && first > 0 && |hs| == Parts
    ensures Holds(e, imageBytes, Parts) && e == g.(cl := e.cl) && e.cl.limits == g.cl.limits
    ensures g.core.kernel in e.cl.objects && e.cl.objects == g.cl.objects[g.core.kernel := e.cl.objects[g.core.kernel]]
    ensures KernelArgs(e) == KernelArgs(g)[first := MemArg(hs[0])][first + 1 := MemArg(hs[1])]
                                          [first + 2 := MemArg(hs[2])][first + 3 := IntArg(count)]
    ensures e.cl.log == g.cl.log + [ArgSet(first, MemArg(hs[0])), ArgSet(first + 1, MemArg(hs[1])),
                                    ArgSet(first + 2, MemArg(hs[2])), ArgSet(first + 3, IntArg(count))]
  {
    hide Holds;
    HeldShape(g, imageBytes, Parts);
    e := Bind(g, imageBytes, Parts, first, MemArg(hs[0]));
    e := Bind(e, imageBytes, Parts, first + 1, MemArg(hs[1]));
    e := Bind(e, imageBytes, Parts, first + 2, MemArg(hs[2]));
    e := Bind(e, imageBytes, Parts, first + 3, IntArg(count));
  }

  /** The nine argument bindings of `run(k)`, in order. */
  function ArgEvents(g: Gpu, k: real): seq<Event>
    requires |g.circles| == Parts && |g.rects| == Parts
  {
    [ArgSet(1, MemArg(g.circles[0])), ArgSet(2, MemArg(g.circles[1])), ArgSet(3, MemArg(g.circles[2])),
     ArgSet(4, IntArg(g.numCircles)),
     ArgSet(5, MemArg(g.rects[0])), ArgSet(6, MemArg(g.rects[1])), ArgSet(7, MemArg(g.rects[2])),
     ArgSet(8, IntArg(g.numRects)), ArgSet(9, FloatArg(k))]
  }

  /** The driver calls `run(k)` makes when the launch succeeds, in order. */
  function RunEvents(g: Gpu, k: real, width: nat, height: nat): seq<Event>
    requires |g.circles| == Parts && |g.rects| == Parts
  {
    ArgEvents(g, k) + [Dispatched(width, height), ImageRead(g.core.image), Finished]
  }

  /** The kernel arguments after `run(k)`: 1 to 3 the circle buffers, 4 the circle count, 5
      to 7 the rectangle buffers, 8 the rectangle count, 9 the factor `k`. */
  function RunArgs(g: Gpu, k: real): map<nat, Arg>
    requires |g.circles| == Parts && |g.rects| == Parts
  {
    KernelArgs(g)[1 := MemArg(g.circles[0])][2 := MemArg(g.circles[1])][3 := MemArg(g.circles[2])]
                 [4 := IntArg(g.numCircles)]
                 [5 := MemArg(g.rects[0])][6 := MemArg(g.rects[1])][7 := MemArg(g.rects[2])]
                 [8 := IntArg(g.numRects)][9 := FloatArg(k)]
  }

  /** The nine argument bindings of `run(k)`; only the kernel changes. */
  method BindRun(g: Gpu, imageBytes: nat, k: real) returns (e: Gpu)
    requires Holds(g, imageBytes, Parts)
    ensures Holds(e, imageBytes, Parts) && e == g.(cl := e.cl) && e.cl.limits == g.cl.limits
    ensures g.core.kernel in e.cl.objects && KernelArgs(e) == RunArgs(g, k)
    ensures e.cl.log == g.cl.log + ArgEvents(g, k)
    ensures e.cl.objects == g.cl.objects[g.core.kernel := e.cl.objects[g.core.kernel]]
  {
    hide Holds;
    HeldShape(g, imageBytes, Parts);
    e := BindShapes(g, imageBytes, 1, g.circles, g.numCircles);
    e := BindShapes(e, imageBytes, 5, g.rects, g.numRects);
    e := Bind(e, imageBytes, Parts, 9, FloatArg(k));
  }

  /** The driver side of `run(k)`: nine argument bindings, the launch in 16 x 16
      work-groups, the read-back of the image and `clFinish`. Only the kernel's bindings
      and the image change; the shape buffers keep their contents. */
  method Render(g: Gpu, imageBytes: nat, k: real, width: nat, height: nat, rendered: seq<Byte>)
    returns (e: Gpu, r: Outcome, image: seq<Byte>)
    requires Holds(g, imageBytes, Parts) && |rendered| == imageBytes
    ensures r.Fatal? <==> Refused(g.cl.limits, width, height)
    ensures r.Fatal? ==> r.error == InvalidWorkGroupSize
    ensures r.Ok? ==> Holds(e, imageBytes, Parts) && e == g.(cl := e.cl) && image == rendered
    ensures r.Ok? ==> KernelArgs(e) == RunArgs(g, k)
    ensures r.Ok? ==> e.cl.log == g.cl.log + RunEvents(g, k, width, height)
    ensures r.Ok? ==> e.cl.objects == g.cl.objects[g.core.kernel := e.cl.objects[g.core.kernel]]
                                                  [g.core.image := e.cl.objects[g.core.image]]
    ensures r.Ok? ==> forall j :: 0 <= j < Parts ==>
                        CellsOf(e, g.circles[j]) == CellsOf(g, g.circles[j]) && CellsOf(e, g.rects[j]) == CellsOf(g, g.rects[j])
  {
    hide Holds;
    HeldShape(g, imageBytes, Parts);
    BuffersApart(g, imageBytes, Parts);
    e := BindRun(g, imageBytes, k);
    e, r := Launch(e, imageBytes, Parts, width, height, rendered);
    if r.Fatal? {
      return e, r, [];
    }
    e, image := ReadBack(e, imageBytes, Parts);
    e := Await(e, imageBytes, Parts);
  }

  /** `createRectsBuffer` as written (src/OCL_RayMarching.cpp:286-288): `clearGpuRects()`
      twice and `clearHostRects()` never. The driver side is the two rounds of releases;
      the host side keeps every old rectangle array allocated. */
  function ReleaseRectsAsWritten(cl: ClState, rects: seq<Handle>): Option<ClState>
    requires Wf(cl)
  {
    ReleaseEach(cl, rects + rects)
  }

  ghost function HostAfterRectsAsWritten(live: set<object>, fresh3: set<object>): set<object>
  {
    live + fresh3
  }

  /** As written, resizing while a rectangle buffer exists releases that buffer a second
      time. The second round passes handles that are already freed, which OpenCL leaves
      undefined; the model has the driver refuse it (`None`). `clearGpuRects` ignores what
      `clReleaseMemObject` returns, so `None` here stands for that refusal, not for a
      fatal outcome of the call. */
  lemma DoubleReleaseAsWritten(cl: ClState, rects: seq<Handle>, i: nat)
    requires Wf(cl) && ReleasableOnce(cl, rects) && i < |rects| && rects[i] != NULL
    ensures ReleaseEach(cl, rects).Some?
    ensures ReleaseRectsAsWritten(cl, rects).None?
  {
    ReleaseEachOnce(cl, rects);
    var twice := rects + rects;
    assert twice[i] == twice[|rects| + i] == rects[i];
    ReleaseEachTwice(cl, twice, i, |rects| + i);
  }

  /** As written, the old rectangle arrays stay allocated after the resize although no
      member points to them any more: a leak of three arrays per resize. */
  lemma LeakAsWritten(live: set<object>, old3: seq<object?>, fresh3: set<object>, i: nat)
    requires i < |old3| && old3[i] != null && old3[i] in live && old3[i] !in fresh3
    ensures old3[i] in HostAfterRectsAsWritten(live, fresh3)
    ensures FreeEach(live, old3).Some? ==> old3[i] !in FreeEach(live, old3).value + fresh3
  {
    FreedGone(live, old3, i);
  }

  /** Whatever `FreeEach` frees is gone from the result. */
  lemma {:induction false} FreedGone(live: set<object>, arrays: seq<object?>, i: nat)
    requires i < |arrays| && arrays[i] != null
    ensures FreeEach(live, arrays).Some? ==> arrays[i] !in FreeEach(live, arrays).value
    decreases |arrays|
  {
    if i > 0 && arrays[0] != null && arrays[0] in live {
      FreedGone(live - {arrays[0]}, arrays[1..], i - 1);
    } else if i > 0 && arrays[0] == null {
      FreedGone(live, arrays[1..], i - 1);
    }
  }

  /** One shape kind's host storage: three arrays, all null while the count is 0 and
      otherwise all present with `count` elements; `live` is the set of those present. */
  ghost predicate Storage<A, B, C>(count: nat, a: array?<A>, b: array?<B>, c: array?<C>, live: set<object>)
  {
    (count == 0 ==> a == null && b == null && c == null) &&
    (count > 0 ==> a != null && b != null && c != null && a.Length == b.Length == c.Length == count) &&
    live == Held(a) + Held(b) + Held(c)
  }

  /** What a kind's storage gives its users: the three arrays present, of `count`
      elements each, exactly when the count is not 0. */
  lemma StorageShape<A, B, C>(count: nat, a: array?<A>, b: array?<B>, c: array?<C>, live: set<object>)
    requires Storage(count, a, b, c, live)
    ensures a != null <==> count > 0
    ensures count > 0 ==> b != null && c != null && a.Length == b.Length == c.Length == count
  {
  }

  /** The three circle arrays `new`-ed by `createCirclesBuffer`. */
  method NewCircleArrays(count: nat) returns (centers: array<Vec>, radii: array<real>, colors: array<Rgb>)
    ensures fresh(centers) && fresh(radii) && fresh(colors)
    ensures centers.Length == radii.Length == colors.Length == count
    ensures count > 0 ==> Storage(count, centers, radii, colors, Held(centers) + Held(radii) + Held(colors))
  {
    centers := new Vec[count](_ => Zero);
    radii := new real[count](_ => 0.0);
    colors := new Rgb[count](_ => Rgb(0.0, 0.0, 0.0));
  }

  /** The three rectangle arrays `new`-ed by `createRectsBuffer`. */
  method NewRectArrays(count: nat) returns (centers: array<Vec>, sizes: array<Vec>, colors: array<Rgb>)
    ensures fresh(centers) && fresh(sizes) && fresh(colors) && centers != sizes
    ensures centers.Length == sizes.Length == colors.Length == count
    ensures count > 0 ==> Storage(count, centers, sizes, colors, Held(centers) + Held(sizes) + Held(colors))
  {
    centers := new Vec[count](_ => Zero);
    sizes := new Vec[count](_ => Zero);
    colors := new Rgb[count](_ => Rgb(0.0, 0.0, 0.0));
  }

  /** The wrapper. `gpu` holds the OpenCL members (the six fixed objects; the circle
      buffers `gpuCirclesCenters`, `gpuCirclesRadii`, `gpuCirclesColors` as
      `gpu.circles[0..3]`, the rectangle buffers likewise as `gpu.rects`), the counts and
      the driver they refer to. */
  class OclRayMarching {
    const width: nat
    const height: nat
    const pixels: array<Byte>
    var circleCenters: array?<Vec>
    var circleRadii: array?<real>
    var circleColors: array?<Rgb>
    var rectCenters: array?<Vec>
    var rectSizes: array?<Vec>
    var rectColors: array?<Rgb>
    var gpu: Gpu
    /** The host arrays allocated with `new[]` and not yet deleted: the pixels while
        `pixelsLive`, and the circle and rectangle arrays in `circlesLive` and `rectsLive`. */
    ghost var pixelsLive: bool
    ghost var circlesLive: set<object>
    ghost var rectsLive: set<object>
    ghost var selected: (nat, nat)

    /** Per shape kind, the three host arrays are all null while the count is 0 and
        otherwise all present with `count` elements (arrays of the same element type
        being different arrays); the driver holds the six fixed objects and three buffers per
        kind with a non-zero count; the live host arrays are the pixels and those arrays. */
    ghost predicate Valid()
      reads this
    {
      width > 0 && height > 0 && pixels.Length == width * height * 4 &&
      Holds(gpu, width * height * 4, Parts) && pixelsLive &&
      Storage(gpu.numCircles, circleCenters, circleRadii, circleColors, circlesLive) &&
      Storage(gpu.numRects, rectCenters, rectSizes, rectColors, rectsLive) &&
      (rectCenters != null ==> rectCenters != rectSizes) &&
      (circleCenters != null ==> circleCenters != rectCenters && circleCenters != rectSizes) &&
      (circleColors != null ==> circleColors != rectColors)
    }

    /** What a valid wrapper gives the methods that work with `Valid` hidden: the
        ownership of the driver objects, and per kind the host arrays present together
        and apart from the other kind's. */
    lemma Unpack()
      requires Valid()
      ensures Holds(gpu, width * height * 4, Parts)
      ensures circleCenters != null ==> circleRadii != null && circleColors != null
      ensures rectCenters != null ==> rectSizes != null && rectColors != null
      ensures circleCenters != null ==> circleCenters != rectCenters && circleCenters != rectSizes
      ensures circleColors != null ==> circleColors != rectColors
    {
    }

    /** The contents of the three circle host arrays, empty while they are absent. */
    ghost function CircleHost(): (seq<Vec>, seq<real>, seq<Rgb>)
      reads this`circleCenters, this`circleRadii, this`circleColors, circleCenters, circleRadii, circleColors
    {
      (if circleCenters == null then [] else circleCenters[..],
       if circleRadii == null then [] else circleRadii[..],
       if circleColors == null then [] else circleColors[..])
    }

    /** The contents of the three rectangle host arrays, empty while they are absent. */
    ghost function RectHost(): (seq<Vec>, seq<Vec>, seq<Rgb>)
      reads this`rectCenters, this`rectSizes, this`rectColors, rectCenters, rectSizes, rectColors
    {
      (if rectCenters == null then [] else rectCenters[..],
       if rectSizes == null then [] else rectSizes[..],
       if rectColors == null then [] else rectColors[..])
    }

    /** Every live host array. */
    ghost function HostLive(): set<object>
      reads this
    {
      (if pixelsLive then {pixels} else {}) + circlesLive + rectsLive
    }

    constructor Init(width: nat, height: nat, limits: Limits)
      ensures this.width == width && this.height == height
      ensures fresh(pixels) && pixels.Length == width * height * 4
      ensures circleCenters == null && circleRadii == null && circleColors == null
      ensures rectCenters == null && rectSizes == null && rectColors == null
      ensures gpu == Unbound(limits, Parts)
      ensures pixelsLive && circlesLive == {} && rectsLive == {}
    {
      this.width := width;
      this.height := height;
      pixels := new Byte[width * height * 4](_ => 0);
      circleCenters, circleRadii, circleColors := null, null, null;
      rectCenters, rectSizes, rectColors := null, null, null;
      gpu := Unbound(limits, Parts);
      pixelsLive, circlesLive, rectsLive := true, {}, {};
      selected := (0, 0);
    }

    /** The constructor: as the distance-field wrapper's, with the `renderSDF` kernel. */
    static method Create(width: nat, height: nat, platforms: seq<seq<bool>>, buildSucceeds: bool,
                         limits: Limits) returns (r: Result<OclRayMarching>)
      ensures r.Failure? <==> SelectDevice(platforms).None? || width == 0 || height == 0 || !buildSucceeds
      ensures r.Failure? && SelectDevice(platforms).None? ==> r.error == NoGpuDevice
      ensures r.Failure? && SelectDevice(platforms).Some? && (width == 0 || height == 0) ==> r.error == InvalidImageDescriptor
      ensures r.Failure? && SelectDevice(platforms).Some? && width > 0 && height > 0 ==> r.error == BuildFailure
      ensures r.Success? ==> fresh(r.value) && fresh(r.value.pixels) && r.value.Valid()
      ensures r.Success? ==> r.value.width == width && r.value.height == height
      ensures r.Success? ==> r.value.selected == SelectDevice(platforms).value
      ensures r.Success? ==> r.value.gpu.numCircles == 0 && r.value.gpu.numRects == 0
      ensures r.Success? ==> r.value.gpu.cl.limits == limits
      ensures r.Success? ==>
                r.value.gpu.cl.log == [Created(1), Created(2), Created(3), Created(4), Created(5), Created(6), ArgSet(0, MemArg(4))]
    {
      hide Holds;
      var o := new OclRayMarching.Init(width, height, limits);
      var found := FindDevice(platforms);
      if found.None? {
        return Failure(NoGpuDevice);
      }
      o.selected := found.value;
      var started, outcome := Open(limits, width, height, buildSucceeds, Parts);
      if outcome.Fatal? {
        return Failure(outcome.error);
      }
      o.gpu := started;
      return Success(o);
    }

    /** `clearHostCircles`: deletes each circle array that is set. */
    method ClearHostCircles()
      modifies this`circlesLive
      ensures circlesLive == old(circlesLive) - Held(circleCenters) - Held(circleRadii) - Held(circleColors)
    {
      circlesLive := circlesLive - Held(circleCenters) - Held(circleRadii) - Held(circleColors);
    }

    /** `clearHostRects`. */
    method ClearHostRects()
      modifies this`rectsLive
      ensures rectsLive == old(rectsLive) - Held(rectCenters) - Held(rectSizes) - Held(rectColors)
    {
      rectsLive := rectsLive - Held(rectCenters) - Held(rectSizes) - Held(rectColors);
    }

    /** `createCirclesBuffer`: the old circle arrays and buffers are freed once each, then
        three host arrays and three buffers of `count` elements are allocated; a zero count
        is fatal at the first buffer. */
    method CreateCirclesBuffer(count: nat) returns (r: Outcome)
      requires Valid()
      modifies this`circleCenters, this`circleRadii, this`circleColors, this`gpu, this`circlesLive
      ensures r.Fatal? <==> count == 0
      ensures r.Fatal? ==> r.error == InvalidBufferSize
      ensures r.Ok? ==> Valid() && gpu.numCircles == count
      ensures r.Ok? ==> fresh(circleCenters) && fresh(circleRadii) && fresh(circleColors)
      ensures r.Ok? ==> gpu.circles == [old(gpu.cl.next), old(gpu.cl.next) + 1, old(gpu.cl.next) + 2]
      ensures r.Ok? ==> gpu.rects == old(gpu.rects) && gpu.numRects == old(gpu.numRects) && gpu.core == old(gpu.core)
      ensures r.Ok? ==> gpu.cl.log == old(gpu.cl.log) + Releases(old(gpu.circles)) + Creations(gpu.circles)
      ensures Agree(old(gpu.cl), gpu.cl, NonNull(old(gpu.circles)))
      ensures r.Ok? ==> forall j :: 0 <= j < Parts ==> CellsOf(gpu, gpu.rects[j]) == old(CellsOf(gpu, gpu.rects[j]))
    {
      hide Holds, Storage;
      var e, centers, radii, colors;
      e, r := ResizeCircles(gpu, width * height * 4, Parts, count);
      centers, radii, colors := NewCircleArrays(count);
      gpu, circleCenters, circleRadii, circleColors := e, centers, radii, colors;
      circlesLive := Held(centers) + Held(radii) + Held(colors);
    }

    /** `createRectsBuffer` with the host arrays deleted and the buffers released once,
        as `createCirclesBuffer` does; `ReleaseRectsAsWritten` is the code as written. */
    method CreateRectsBuffer(count: nat) returns (r: Outcome)
      requires Valid()
      modifies this`rectCenters, this`rectSizes, this`rectColors, this`gpu, this`rectsLive
      ensures r.Fatal? <==> count == 0
      ensures r.Fatal? ==> r.error == InvalidBufferSize
      ensures r.Ok? ==> Valid() && gpu.numRects == count
      ensures r.Ok? ==> fresh(rectCenters) && fresh(rectSizes) && fresh(rectColors)
      ensures r.Ok? ==> gpu.rects == [old(gpu.cl.next), old(gpu.cl.next) + 1, old(gpu.cl.next) + 2]
      ensures r.Ok? ==> gpu.circles == old(gpu.circles) && gpu.numCircles == old(gpu.numCircles) && gpu.core == old(gpu.core)
      ensures r.Ok? ==> gpu.cl.log == old(gpu.cl.log) + Releases(old(gpu.rects)) + Creations(gpu.rects)
      ensures Agree(old(gpu.cl), gpu.cl, NonNull(old(gpu.rects)))
      ensures r.Ok? ==> forall j :: 0 <= j < Parts ==> CellsOf(gpu, gpu.circles[j]) == old(CellsOf(gpu, gpu.circles[j]))
    {
      hide Holds, Storage;
      var e, centers, sizes, colors;
      e, r := ResizeRects(gpu, width * height * 4, Parts, count);
      centers, sizes, colors := NewRectArrays(count);
      gpu, rectCenters, rectSizes, rectColors := e, centers, sizes, colors;
      rectsLive := Held(centers) + Held(sizes) + Held(colors);
    }

    /** The copy and the three writes that end `updateCirclesBuffer`, once storage of the
        right size exists. */
    method LoadCircles(circles: seq<Shape>)
      requires Valid() && AllCircles(circles) && gpu.numCircles == |circles| > 0
      modifies this`gpu, circleCenters, circleRadii, circleColors
      ensures Valid() && Holds(gpu, width * height * 4, Parts) && gpu == old(gpu).(cl := gpu.cl)
      ensures circleCenters[..] == CircleCenters(circles) && circleRadii[..] == CircleRadii(circles) &&
              circleColors[..] == CircleColors(circles)
      ensures CellsOf(gpu, gpu.circles[0]) == Float2Cells(CircleCenters(circles)) &&
              CellsOf(gpu, gpu.circles[1]) == FloatCells(CircleRadii(circles)) &&
              CellsOf(gpu, gpu.circles[2]) == Float3Cells(CircleColors(circles))
      ensures gpu.cl.log == old(gpu.cl.log) + WriteEvents(gpu.circles)
      ensures Agree(old(gpu.cl), gpu.cl, NonNull(gpu.circles))
      ensures RectHost() == old(RectHost())
    {
      hide Holds, Storage, CellsOf, Float2Cells, FloatCells, Float3Cells, CircleCenters, CircleRadii, CircleColors;
      StorageShape(gpu.numCircles, circleCenters, circleRadii, circleColors, circlesLive);
      FillCircles(circleCenters, circleRadii, circleColors, circles);
      gpu := WriteCircleParts(gpu, width * height * 4, Float2Cells(circleCenters[..]),
                              FloatCells(circleRadii[..]), Float3Cells(circleColors[..]));
    }

    /** The copy and the three writes that end `updateRectsBuffer`. */
    method LoadRects(rects: seq<Shape>)
      requires Valid() && AllRects(rects) && gpu.numRects == |rects| > 0
      modifies this`gpu, rectCenters, rectSizes, rectColors
      ensures Valid() && Holds(gpu, width * height * 4, Parts) && gpu == old(gpu).(cl := gpu.cl)
      ensures rectCenters[..] == RectCenters(rects) && rectSizes[..] == RectSizes(rects) &&
              rectColors[..] == RectColors(rects)
      ensures CellsOf(gpu, gpu.rects[0]) == Float2Cells(RectCenters(rects)) &&
              CellsOf(gpu, gpu.rects[1]) == Float2Cells(RectSizes(rects)) &&
              CellsOf(gpu, gpu.rects[2]) == Float3Cells(RectColors(rects))
      ensures gpu.cl.log == old(gpu.cl.log) + WriteEvents(gpu.rects)
      ensures Agree(old(gpu.cl), gpu.cl, NonNull(gpu.rects))
      ensures CircleHost() == old(CircleHost())
    {
      hide Holds, Storage, CellsOf, Float2Cells, Float3Cells, RectCenters, RectSizes, RectColors;
      StorageShape(gpu.numRects, rectCenters, rectSizes, rectColors, rectsLive);
      FillRects(rectCenters, rectSizes, rectColors, rects);
      gpu := WriteRectParts(gpu, width * height * 4, Float2Cells(rectCenters[..]),
                            Float2Cells(rectSizes[..]), Float3Cells(rectColors[..]));
    }

    /** The head of `updateCirclesBuffer`: the circle storage is recreated when the number
        of circles changed or no buffer exists yet, and otherwise left as it is. */
    method PrepareCircles(count: nat) returns (r: Outcome)
      requires Valid()
      modifies this`circleCenters, this`circleRadii, this`circleColors, this`gpu, this`circlesLive
      ensures r.Fatal? <==> count == 0
      ensures r.Fatal? ==> r.error == InvalidBufferSize
      ensures r.Ok? ==> Valid() && gpu.numCircles == count
      ensures r.Ok? ==> gpu.rects == old(gpu.rects) && gpu.core == old(gpu.core)
      ensures Agree(old(gpu.cl), gpu.cl, NonNull(old(gpu.circles)))
      ensures r.Ok? ==> forall j :: 0 <= j < Parts ==> gpu.circles[j] == old(gpu.circles[j]) || gpu.circles[j] >= old(gpu.cl.next)
      ensures r.Ok? ==> forall j :: 0 <= j < Parts ==> CellsOf(gpu, gpu.rects[j]) == old(CellsOf(gpu, gpu.rects[j]))
      ensures r.Ok? && count == old(gpu.numCircles) ==>
                gpu == old(gpu) && circleCenters == old(circleCenters) && circleRadii == old(circleRadii) && circleColors == old(circleColors)
      ensures r.Ok? && count != old(gpu.numCircles) ==>
                fresh(circleCenters) && fresh(circleRadii) && fresh(circleColors) &&
                gpu.circles == [old(gpu.cl.next), old(gpu.cl.next) + 1, old(gpu.cl.next) + 2] &&
                gpu.cl.log == old(gpu.cl.log) + Releases(old(gpu.circles)) + Creations(gpu.circles)
    {
      hide Holds, Storage, CellsOf;
      HeldShape(gpu, width * height * 4, Parts);
      if count != gpu.numCircles || gpu.circles[0] == NULL {
        r := CreateCirclesBuffer(count);
      } else {
        r := Ok;
      }
    }

    /** `updateCirclesBuffer`: the circle storage is recreated when the number of circles
        changed or no buffer exists yet (so an empty scene is fatal); every circle's
        centre, radius and colour are copied into the three host arrays, which are written
        to the three buffers in turn. */
    method UpdateCirclesBuffer(circles: seq<Shape>) returns (r: Outcome)
      requires Valid() && AllCircles(circles)
      modifies this`circleCenters, this`circleRadii, this`circleColors, this`gpu, this`circlesLive
      modifies circleCenters, circleRadii, circleColors
      ensures r.Fatal? <==> |circles| == 0
      ensures r.Fatal? ==> r.error == InvalidBufferSize
      ensures r.Ok? ==> Valid() && gpu.numCircles == |circles|
      ensures r.Ok? ==>
                circleCenters[..] == CircleCenters(circles) && circleRadii[..] == CircleRadii(circles) &&
                circleColors[..] == CircleColors(circles)
      ensures r.Ok? ==>
                CellsOf(gpu, gpu.circles[0]) == Float2Cells(CircleCenters(circles)) &&
                CellsOf(gpu, gpu.circles[1]) == FloatCells(CircleRadii(circles)) &&
                CellsOf(gpu, gpu.circles[2]) == Float3Cells(CircleColors(circles))
      ensures r.Ok? ==> gpu.rects == old(gpu.rects) && gpu.core == old(gpu.core)
      ensures r.Ok? ==> Agree(old(gpu.cl), gpu.cl, NonNull(old(gpu.circles)))
      ensures r.Ok? ==> forall j :: 0 <= j < Parts ==> CellsOf(gpu, gpu.rects[j]) == old(CellsOf(gpu, gpu.rects[j]))
      ensures r.Ok? ==> RectHost() == old(RectHost())
      ensures r.Ok? && |circles| == old(gpu.numCircles) ==>
                gpu.circles == old(gpu.circles) &&
                circleCenters == old(circleCenters) && circleRadii == old(circleRadii) && circleColors == old(circleColors) &&
                gpu.cl.log == old(gpu.cl.log) + WriteEvents(gpu.circles)
      ensures r.Ok? && |circles| != old(gpu.numCircles) ==>
                fresh(circleCenters) && fresh(circleRadii) && fresh(circleColors) &&
                gpu.circles == [old(gpu.cl.next), old(gpu.cl.next) + 1, old(gpu.cl.next) + 2] &&
                gpu.cl.log == old(gpu.cl.log) + Releases(old(gpu.circles)) + Creations(gpu.circles) + WriteEvents(gpu.circles)
    {
      hide Valid, Holds, Storage, CellsOf, Agree, NonNull, WriteEvents, Releases, Creations, CircleHost, RectHost;
      hide Float2Cells, FloatCells, Float3Cells, CircleCenters, CircleRadii, CircleColors;
      var g0 := gpu;
      Unpack();
      r := PrepareCircles(|circles|);
      if r.Fatal? {
        return;
      }
      var g1 := gpu;
      LoadCircles(circles);
      PartsAgree(g0, width * height * 4, g1, gpu, g0.circles, g1.circles);
      KindKept(g0, width * height * 4, Parts, gpu);
    }

    /** The head of `updateRectsBuffer`: the rectangle storage is recreated when the number
        of rectangles changed or no buffer exists yet, and otherwise left as it is. */
    method PrepareRects(count: nat) returns (r: Outcome)
      requires Valid()
      modifies this`rectCenters, this`rectSizes, this`rectColors, this`gpu, this`rectsLive
      ensures r.Fatal? <==> count == 0
      ensures r.Fatal? ==> r.error == InvalidBufferSize
      ensures r.Ok? ==> Valid() && gpu.numRects == count
      ensures r.Ok? ==> gpu.circles == old(gpu.circles) && gpu.core == old(gpu.core)
      ensures Agree(old(gpu.cl), gpu.cl, NonNull(old(gpu.rects)))
      ensures r.Ok? ==> forall j :: 0 <= j < Parts ==> gpu.rects[j] == old(gpu.rects[j]) || gpu.rects[j] >= old(gpu.cl.next)
      ensures r.Ok? ==> forall j :: 0 <= j < Parts ==> CellsOf(gpu, gpu.circles[j]) == old(CellsOf(gpu, gpu.circles[j]))
      ensures r.Ok? && count == old(gpu.numRects) ==>
                gpu == old(gpu) && rectCenters == old(rectCenters) && rectSizes == old(rectSizes) && rectColors == old(rectColors)
      ensures r.Ok? && count != old(gpu.numRects) ==>
                fresh(rectCenters) && fresh(rectSizes) && fresh(rectColors) &&
                gpu.rects == [old(gpu.cl.next), old(gpu.cl.next) + 1, old(gpu.cl.next) + 2] &&
                gpu.cl.log == old(gpu.cl.log) + Releases(old(gpu.rects)) + Creations(gpu.rects)
    {
      hide Holds, Storage, CellsOf;
      HeldShape(gpu, width * height * 4, Parts);
      if count != gpu.numRects || gpu.rects[0] == NULL {
        r := CreateRectsBuffer(count);
      } else {
        r := Ok;
      }
    }

    /** `updateRectsBuffer`. */
    method UpdateRectsBuffer(rects: seq<Shape>) returns (r: Outcome)
      requires Valid() && AllRects(rects)
      modifies this`rectCenters, this`rectSizes, this`rectColors, this`gpu, this`rectsLive
      modifies rectCenters, rectSizes, rectColors
      ensures r.Fatal? <==> |rects| == 0
      ensures r.Fatal? ==> r.error == InvalidBufferSize
      ensures r.Ok? ==> Valid() && gpu.numRects == |rects|
      ensures r.Ok? ==>
                rectCenters[..] == RectCenters(rects) && rectSizes[..] == RectSizes(rects) &&
                rectColors[..] == RectColors(rects)
      ensures r.Ok? ==>
                CellsOf(gpu, gpu.rects[0]) == Float2Cells(RectCenters(rects)) &&
                CellsOf(gpu, gpu.rects[1]) == Float2Cells(RectSizes(rects)) &&
                CellsOf(gpu, gpu.rects[2]) == Float3Cells(RectColors(rects))
      ensures r.Ok? ==> gpu.circles == old(gpu.circles) && gpu.core == old(gpu.core)
      ensures r.Ok? ==> Agree(old(gpu.cl), gpu.cl, NonNull(old(gpu.rects)))
      ensures r.Ok? ==> forall j :: 0 <= j < Parts ==> CellsOf(gpu, gpu.circles[j]) == old(CellsOf(gpu, gpu.circles[j]))
      ensures r.Ok? ==> CircleHost() == old(CircleHost())
      ensures r.Ok? && |rects| == old(gpu.numRects) ==>
                gpu.rects == old(gpu.rects) &&
                rectCenters == old(rectCenters) && rectSizes == old(rectSizes) && rectColors == old(rectColors) &&
                gpu.cl.log == old(gpu.cl.log) + WriteEvents(gpu.rects)
      ensures r.Ok? && |rects| != old(gpu.numRects) ==>
                fresh(rectCenters) && fresh(rectSizes) && fresh(rectColors) &&
                gpu.rects == [old(gpu.cl.next), old(gpu.cl.next) + 1, old(gpu.cl.next) + 2] &&
                gpu.cl.log == old(gpu.cl.log) + Releases(old(gpu.rects)) + Creations(gpu.rects) + WriteEvents(gpu.rects)
    {
      hide Valid, Holds, Storage, CellsOf, Agree, NonNull, WriteEvents, Releases, Creations, CircleHost, RectHost;
      hide Float2Cells, Float3Cells, RectCenters, RectSizes, RectColors;
      var g0 := gpu;
      Unpack();
      r := PrepareRects(|rects|);
      if r.Fatal? {
        return;
      }
      var g1 := gpu;
      LoadRects(rects);
      PartsAgree(g0, width * height * 4, g1, gpu, g0.rects, g1.rects);
      KindKept(g0, width * height * 4, Parts, gpu);
    }

    /** `run(k)`: the launch of `Render`, with the image read back into `pixels`.
        `rendered` stands for what the kernel computes. */
    method Run(k: real, rendered: seq<Byte>) returns (r: Outcome)
      requires Valid() && |rendered| == width * height * 4
      modifies this`gpu, pixels
      ensures r.Fatal? <==> Refused(old(gpu.cl.limits), width, height)
      ensures r.Fatal? ==> r.error == InvalidWorkGroupSize
      ensures r.Ok? ==> Valid() && pixels[..] == rendered && gpu == old(gpu).(cl := gpu.cl)
      ensures r.Ok? ==> KernelArgs(gpu) == RunArgs(old(gpu), k)
      ensures r.Ok? ==> gpu.cl.log == old(gpu.cl.log) + RunEvents(old(gpu), k, width, height)
      ensures r.Ok? ==> Agree(old(gpu.cl), gpu.cl, {gpu.core.kernel, gpu.core.image})
      ensures r.Ok? ==> forall j :: 0 <= j < Parts ==>
                          CellsOf(gpu, gpu.circles[j]) == old(CellsOf(gpu, gpu.circles[j])) &&
                          CellsOf(gpu, gpu.rects[j]) == old(CellsOf(gpu, gpu.rects[j]))
    {
      hide Holds;
      var image;
      gpu, r, image := Render(gpu, width * height * 4, k, width, height, rendered);
      if r.Fatal? {
        return;
      }
      forall i | 0 <= i < pixels.Length {
        pixels[i] := image[i];
      }
    }

    /** The destructor: the pixels and the six host arrays are deleted, and the image, the
        three circle and three rectangle buffers, the kernel, the program, the queue, the
        context and the device are released in that order, so nothing stays live. */
    method Dispose()
      requires Valid()
      modifies this`gpu, this`pixelsLive, this`circlesLive, this`rectsLive
      ensures HostLive() == {} && LiveSet(gpu.cl) == {}
      ensures gpu == old(gpu).(cl := gpu.cl)
      ensures gpu.cl.log == old(gpu.cl.log) + Releases(Teardown(gpu.core, gpu.circles, gpu.rects))
    {
      hide Holds;
      pixelsLive := false;
      ClearHostCircles();
      ClearHostRects();
      gpu := Close(gpu, width * height * 4, Parts);
    }
  }

  /** The as-written `createRectsBuffer` on a wrapper that already holds rectangle buffers
      (every `updateRectsBuffer` after the first with a different count): its two rounds
      of `clearGpuRects()` fail at the second release. */
  lemma AsWrittenOnWrapper(o: OclRayMarching)
    requires o.Valid() && o.gpu.numRects > 0
    ensures ReleaseRectsAsWritten(o.gpu.cl, o.gpu.rects).None?
  {
    HeldShape(o.gpu, o.width * o.height * 4, Parts);
    DoubleReleaseAsWritten(o.gpu.cl, o.gpu.rects, 0);
  }

  /** The host side of the same call: the old rectangle arrays stay allocated next to the
      fresh ones, so the wrapper's storage invariant fails for the new arrays. */
  lemma LeakOnWrapper(o: OclRayMarching, count: nat, a: array<Vec>, b: array<Vec>, c: array<Rgb>)
    requires o.Valid() && o.gpu.numRects > 0
    requires o.rectCenters !in Held(a) + Held(b) + Held(c)
    ensures o.rectCenters in HostAfterRectsAsWritten(o.rectsLive, Held(a) + Held(b) + Held(c))
    ensures !Storage(count, a, b, c, HostAfterRectsAsWritten(o.rectsLive, Held(a) + Held(b) + Held(c)))
  {
    StorageShape(o.gpu.numRects, o.rectCenters, o.rectSizes, o.rectColors, o.rectsLive);
  }
}
