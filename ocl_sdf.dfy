/** The distance-field compute wrapper `OCL_SDF` (src/OCL_SDF.cpp): it selects a GPU,
    creates a context, a queue, the RGBA8 output image, the program and the `calcSDF`
    kernel, keeps one host array and one device buffer of records per shape kind, and runs
    the kernel over the whole image, reading the result back into `pixels`. */
module SdfKernel {
  import opened Scene
  import opened Records
  import opened Wrappers
  import opened ClRuntime
  import opened DeviceSelect
  import opened Ownership
  import opened GpuState

  /** The buffer contents a blocking write of the records leaves on the device. */
  function CircleCells(rs: seq<CircleRecord>): (r: seq<Cell>)
    ensures |r| == |rs|
  {
    seq(|rs|, i requires 0 <= i < |rs| => CircleCell(rs[i]))
  }

  function RectCells(rs: seq<RectRecord>): (r: seq<Cell>)
    ensures |r| == |rs|
  {
    seq(|rs|, i requires 0 <= i < |rs| => RectCell(rs[i]))
  }

  /** The copy loop of `updateCirclesBuffer`: element `i` of the host array becomes the
      record of circle `i`. */
  method FillCircles(a: array<CircleRecord>, circles: seq<Shape>)
    requires AllCircles(circles) && a.Length == |circles|
    modifies a
    ensures a[..] == ProjectCircles(circles)
  {
    var i := 0;
    while i < a.Length
      invariant 0 <= i <= a.Length
      invariant a[..i] == ProjectCircles(circles)[..i]
    {
      a[i] := ProjectCircle(circles[i]);
      i := i + 1;
    }
  }

  /** The copy loop of `updateRectsBuffer`. */
  method FillRects(a: array<RectRecord>, rects: seq<Shape>)
    requires AllRects(rects) && a.Length == |rects|
    modifies a
    ensures a[..] == ProjectRects(rects)
  {
    var i := 0;
    while i < a.Length
      invariant 0 <= i <= a.Length
      invariant a[..i] == ProjectRects(rects)[..i]
    {
      a[i] := ProjectRect(rects[i]);
      i := i + 1;
    }
  }

  /** The driver calls `run` makes when the kernel launch succeeds, in order. */
  function RunEvents(g: Gpu, width: nat, height: nat): seq<Event>
    requires |g.circles| > 0 && |g.rects| > 0
  {
    [ArgSet(1, MemArg(g.circles[0])), ArgSet(2, IntArg(g.numCircles)),
     ArgSet(3, MemArg(g.rects[0])), ArgSet(4, IntArg(g.numRects)),
     Dispatched(width, height), ImageRead(g.core.image), Finished]
  }

  /** The driver side of `run`: kernel arguments 1 to 4 become the circle buffer, the
      circle count, the rectangle buffer and the rectangle count; the kernel runs over
      `width x height` in 16 x 16 work-groups; the image is read back and the queue
      drained. Only the kernel's bindings and the image change; the shape buffers keep
      their contents. */
  method Render(g: Gpu, imageBytes: nat, width: nat, height: nat, rendered: seq<Byte>) returns (e: Gpu, r: Outcome, image: seq<Byte>)
    requires Holds(g, imageBytes, 1) && |rendered| == imageBytes
    ensures r.Fatal? <==> Refused(g.cl.limits, width, height)
    ensures r.Fatal? ==> r.error == InvalidWorkGroupSize
    ensures r.Ok? ==> Holds(e, imageBytes, 1) && e == g.(cl := e.cl) && image == rendered
    ensures r.Ok? ==> KernelArgs(e) == KernelArgs(g)[1 := MemArg(g.circles[0])][2 := IntArg(g.numCircles)]
                                                    [3 := MemArg(g.rects[0])][4 := IntArg(g.numRects)]
    ensures r.Ok? ==> e.cl.log == g.cl.log + RunEvents(g, width, height)
    ensures r.Ok? ==> e.cl.objects == g.cl.objects[g.core.kernel := e.cl.objects[g.core.kernel]]
                                                  [g.core.image := e.cl.objects[g.core.image]]
    ensures r.Ok? ==> CellsOf(e, g.circles[0]) == CellsOf(g, g.circles[0]) && CellsOf(e, g.rects[0]) == CellsOf(g, g.rects[0])
  {
    hide Holds;
    HeldShape(g, imageBytes, 1);
    BuffersApart(g, imageBytes, 1);
    e := Bind(g, imageBytes, 1, 1, MemArg(g.circles[0]));
    e := Bind(e, imageBytes, 1, 2, IntArg(g.numCircles));
    e := Bind(e, imageBytes, 1, 3, MemArg(g.rects[0]));
    e := Bind(e, imageBytes, 1, 4, IntArg(g.numRects));
    e, r := Launch(e, imageBytes, 1, width, height, rendered);
    if r.Fatal? {
      return e, r, [];
    }
    e, image := ReadBack(e, imageBytes, 1);
    e := Await(e, imageBytes, 1);
  }

  /** The wrapper. `gpu` holds the OpenCL members (`device`, `context`, `commandQueue`,
      `gpuImage`, `program`, `kernel` as `gpu.core`; `gpuCircles` as `gpu.circles[0]`,
      `gpuRectangles` as `gpu.rects[0]`), the counts `numCircles` and `numRects`, and the
      driver they refer to. */
  class OclSdf {
    const width: nat
    const height: nat
    const pixels: array<Byte>
    var hostCircles: array?<CircleRecord>
    var hostRectangles: array?<RectRecord>
    var gpu: Gpu
    /** The host arrays allocated with `new[]` and not yet deleted. */
    ghost var hostLive: set<object>
    /** The (platform, device) pair the constructor selected. */
    ghost var selected: (nat, nat)

    /** After construction: the driver holds exactly the six fixed objects and, per shape
        kind, one live buffer of `num*` records or none while the count is 0; each host
        array is present exactly when its count is non-zero, with as many elements; the
        live host arrays are exactly the pixels and those arrays. */
    ghost predicate Valid()
      reads this
    {
      width > 0 && height > 0 && pixels.Length == width * height * 4 &&
      Holds(gpu, width * height * 4, 1) &&
      (hostCircles == null <==> gpu.numCircles == 0) &&
      (hostCircles != null ==> hostCircles.Length == gpu.numCircles) &&
      (hostRectangles == null <==> gpu.numRects == 0) &&
      (hostRectangles != null ==> hostRectangles.Length == gpu.numRects) &&
      hostLive == {pixels} + Held(hostCircles) + Held(hostRectangles)
    }

    /** The member initialisers (src/OCL_SDF.hpp) and the pixel allocation of the
        initialiser list: null handles, zero counts. */
    constructor Init(width: nat, height: nat, limits: Limits)
      ensures this.width == width && this.height == height
      ensures fresh(pixels) && pixels.Length == width * height * 4
      ensures hostCircles == null && hostRectangles == null
      ensures gpu == Unbound(limits, 1) && hostLive == {pixels}
    {
      this.width := width;
      this.height := height;
      pixels := new Byte[width * height * 4](_ => 0);
      hostCircles, hostRectangles := null, null;
      gpu := Unbound(limits, 1);
      hostLive := {pixels};
      selected := (0, 0);
    }

    /** The constructor. `platforms` lists, per platform, which GPU devices answer the vendor
        query; `buildSucceeds` says whether the kernel source was read and built. It fails
        when no device qualifies, when the image would be empty, or when the build fails;
        otherwise the driver holds the six objects the constructor creates and nothing
        else. */
    static method Create(width: nat, height: nat, platforms: seq<seq<bool>>, buildSucceeds: bool,
                         limits: Limits) returns (r: Result<OclSdf>)
      ensures r.Failure? <==> SelectDevice(platforms).None? || width == 0 || height == 0 || !buildSucceeds
      ensures r.Failure? && SelectDevice(platforms).None? ==> r.error == NoGpuDevice
      ensures r.Failure? && SelectDevice(platforms).Some? && (width == 0 || height == 0) ==> r.error == InvalidImageDescriptor
      ensures r.Failure? && SelectDevice(platforms).Some? && width > 0 && height > 0 ==> r.error == BuildFailure
      ensures r.Success? ==> fresh(r.value) && fresh(r.value.pixels) && r.value.Valid()
      ensures r.Success? ==> r.value.width == width && r.value.height == height
      ensures r.Success? ==> r.value.selected == SelectDevice(platforms).value
      ensures r.Success? ==> r.value.gpu.numCircles == 0 && r.value.gpu.numRects == 0
      ensures r.Success? ==> r.value.gpu.cl.limits == limits
      ensures r.Success? ==>
                r.value.gpu.cl.log == [Created(1), Created(2), Created(3), Created(4), Created(5), Created(6), ArgSet(0, MemArg(4))]
    {
      hide Holds;
      var o := new OclSdf.Init(width, height, limits);
      var found := FindDevice(platforms);
      if found.None? {
        return Failure(NoGpuDevice);
      }
      o.selected := found.value;
      var started, outcome := Open(limits, width, height, buildSucceeds, 1);
      if outcome.Fatal? {
        return Failure(outcome.error);
      }
      o.gpu := started;
      return Success(o);
    }

    /** `clearHostCicles`: deletes the circle array if it is set. */
    method ClearHostCircles()
      requires hostCircles != null ==> hostCircles in hostLive
      modifies this`hostLive
      ensures hostLive == old(hostLive) - Held(hostCircles)
    {
      if hostCircles != null {
        hostLive := hostLive - {hostCircles};
      }
    }

    /** `clearHostRectangles`. */
    method ClearHostRectangles()
      requires hostRectangles != null ==> hostRectangles in hostLive
      modifies this`hostLive
      ensures hostLive == old(hostLive) - Held(hostRectangles)
    {
      if hostRectangles != null {
        hostLive := hostLive - {hostRectangles};
      }
    }

    /** `createCirclesBuffer`: the old host array and device buffer are freed once each, then
        a host array and a buffer of `count` records are allocated. A zero count asks for a
        zero-byte buffer, which is fatal. */
    method CreateCirclesBuffer(count: nat) returns (r: Outcome)
      requires Valid()
      modifies this`hostCircles, this`gpu, this`hostLive
      ensures r.Fatal? <==> count == 0
      ensures r.Fatal? ==> r.error == InvalidBufferSize
      ensures r.Ok? ==> Valid() && gpu.numCircles == count && fresh(hostCircles)
      ensures r.Ok? ==> gpu.circles == [old(gpu.cl.next)] && gpu.rects == old(gpu.rects) && gpu.core == old(gpu.core)
      ensures r.Ok? ==> gpu.cl.log == old(gpu.cl.log) + Releases(old(gpu.circles)) + [Created(gpu.circles[0])]
      ensures r.Ok? ==> hostLive == old(hostLive) - Held(old(hostCircles)) + {hostCircles}
      ensures Agree(old(gpu.cl), gpu.cl, NonNull(old(gpu.circles)))
      ensures r.Ok? ==> CellsOf(gpu, gpu.rects[0]) == old(CellsOf(gpu, gpu.rects[0]))
    {
      hide Holds;
      ClearHostCircles();
      var resized;
      gpu, resized := ResizeCircles(gpu, width * height * 4, 1, count);
      hostCircles := new CircleRecord[count](_ => NoCircle);
      hostLive := hostLive + {hostCircles};
      r := resized;
    }

    /** `createRectsBuffer`. */
    method CreateRectsBuffer(count: nat) returns (r: Outcome)
      requires Valid()
      modifies this`hostRectangles, this`gpu, this`hostLive
      ensures r.Fatal? <==> count == 0
      ensures r.Fatal? ==> r.error == InvalidBufferSize
      ensures r.Ok? ==> Valid() && gpu.numRects == count && fresh(hostRectangles)
      ensures r.Ok? ==> gpu.rects == [old(gpu.cl.next)] && gpu.circles == old(gpu.circles) && gpu.core == old(gpu.core)
      ensures r.Ok? ==> gpu.cl.log == old(gpu.cl.log) + Releases(old(gpu.rects)) + [Created(gpu.rects[0])]
      ensures r.Ok? ==> hostLive == old(hostLive) - Held(old(hostRectangles)) + {hostRectangles}
      ensures Agree(old(gpu.cl), gpu.cl, NonNull(old(gpu.rects)))
      ensures r.Ok? ==> CellsOf(gpu, gpu.circles[0]) == old(CellsOf(gpu, gpu.circles[0]))
    {
      hide Holds;
      ClearHostRectangles();
      var resized;
      gpu, resized := ResizeRects(gpu, width * height * 4, 1, count);
      hostRectangles := new RectRecord[count](_ => NoRect);
      hostLive := hostLive + {hostRectangles};
      r := resized;
    }

    /** `updateCirclesBuffer`: the circle storage is recreated when the number of circles
        changed or no buffer exists yet (so an empty scene is fatal); then every circle's
        record is copied into the host array and the whole array is written to the
        device buffer. */
    method UpdateCirclesBuffer(circles: seq<Shape>) returns (r: Outcome)
      requires Valid() && AllCircles(circles)
      modifies this`hostCircles, this`gpu, this`hostLive, hostCircles
      ensures r.Fatal? <==> |circles| == 0
      ensures r.Fatal? ==> r.error == InvalidBufferSize
      ensures r.Ok? ==> Valid() && gpu.numCircles == |circles| && hostCircles[..] == ProjectCircles(circles)
      ensures r.Ok? ==> gpu.cl.objects[gpu.circles[0]].cells == CircleCells(ProjectCircles(circles))
      ensures r.Ok? ==> gpu.rects == old(gpu.rects) && gpu.core == old(gpu.core) && hostRectangles == old(hostRectangles)
      ensures r.Ok? && |circles| == old(gpu.numCircles) ==>
                gpu.circles == old(gpu.circles) && hostCircles == old(hostCircles) &&
                gpu.cl.log == old(gpu.cl.log) + [BufferWritten(gpu.circles[0])]
      ensures r.Ok? && |circles| != old(gpu.numCircles) ==>
                gpu.circles == [old(gpu.cl.next)] && fresh(hostCircles) &&
                gpu.cl.log == old(gpu.cl.log) + Releases(old(gpu.circles)) + [Created(gpu.circles[0]), BufferWritten(gpu.circles[0])]
      ensures r.Ok? ==> Agree(old(gpu.cl), gpu.cl, NonNull(old(gpu.circles)))
      ensures r.Ok? ==> CellsOf(gpu, gpu.rects[0]) == old(CellsOf(gpu, gpu.rects[0]))
    {
      hide Holds, CellsOf, Agree, CircleCells, ProjectCircles;
      HeldShape(gpu, width * height * 4, 1);
      var g0 := gpu;
      if |circles| != gpu.numCircles || gpu.circles[0] == NULL {
        r := CreateCirclesBuffer(|circles|);
        if r.Fatal? {
          return;
        }
      } else {
        r := Ok;
        assert gpu.circles[0] in NonNull(gpu.circles);
      }
      FillCircles(hostCircles, circles);
      var g1 := gpu;
      gpu := WriteCircles(gpu, width * height * 4, 1, 0, CircleCells(hostCircles[..]));
      WrittenAgree(g0, width * height * 4, 1, g1, gpu, NonNull(g0.circles), g1.circles[0]);
      KindKept(g0, width * height * 4, 1, gpu);
    }

    /** `updateRectsBuffer`, as `UpdateCirclesBuffer`. */
    method UpdateRectsBuffer(rects: seq<Shape>) returns (r: Outcome)
      requires Valid() && AllRects(rects)
      modifies this`hostRectangles, this`gpu, this`hostLive, hostRectangles
      ensures r.Fatal? <==> |rects| == 0
      ensures r.Fatal? ==> r.error == InvalidBufferSize
      ensures r.Ok? ==> Valid() && gpu.numRects == |rects| && hostRectangles[..] == ProjectRects(rects)
      ensures r.Ok? ==> gpu.cl.objects[gpu.rects[0]].cells == RectCells(ProjectRects(rects))
      ensures r.Ok? ==> gpu.circles == old(gpu.circles) && gpu.core == old(gpu.core) && hostCircles == old(hostCircles)
      ensures r.Ok? && |rects| == old(gpu.numRects) ==>
                gpu.rects == old(gpu.rects) && hostRectangles == old(hostRectangles) &&
                gpu.cl.log == old(gpu.cl.log) + [BufferWritten(gpu.rects[0])]
      ensures r.Ok? && |rects| != old(gpu.numRects) ==>
                gpu.rects == [old(gpu.cl.next)] && fresh(hostRectangles) &&
                gpu.cl.log == old(gpu.cl.log) + Releases(old(gpu.rects)) + [Created(gpu.rects[0]), BufferWritten(gpu.rects[0])]
      ensures r.Ok? ==> Agree(old(gpu.cl), gpu.cl, NonNull(old(gpu.rects)))
      ensures r.Ok? ==> CellsOf(gpu, gpu.circles[0]) == old(CellsOf(gpu, gpu.circles[0]))
    {
      hide Holds, CellsOf, Agree, RectCells, ProjectRects;
      HeldShape(gpu, width * height * 4, 1);
      var g0 := gpu;
      if |rects| != gpu.numRects || gpu.rects[0] == NULL {
        r := CreateRectsBuffer(|rects|);
        if r.Fatal? {
          return;
        }
      } else {
        r := Ok;
        assert gpu.rects[0] in NonNull(gpu.rects);
      }
      FillRects(hostRectangles, rects);
      var g1 := gpu;
      gpu := WriteRects(gpu, width * height * 4, 1, 0, RectCells(hostRectangles[..]));
      WrittenAgree(g0, width * height * 4, 1, g1, gpu, NonNull(g0.rects), g1.rects[0]);
      KindKept(g0, width * height * 4, 1, gpu);
    }

    /** `run`: the kernel launch of `Render`, with the image read back into `pixels`.
        `rendered` stands for what the kernel computes. */
    method Run(rendered: seq<Byte>) returns (r: Outcome)
      requires Valid() && |rendered| == width * height * 4
      modifies this`gpu, pixels
      ensures r.Fatal? <==> Refused(old(gpu.cl.limits), width, height)
      ensures r.Fatal? ==> r.error == InvalidWorkGroupSize
      ensures r.Ok? ==> Valid() && pixels[..] == rendered && gpu == old(gpu).(cl := gpu.cl)
      ensures r.Ok? ==> KernelArgs(gpu) == KernelArgs(old(gpu))[1 := MemArg(gpu.circles[0])][2 := IntArg(gpu.numCircles)]
                                                               [3 := MemArg(gpu.rects[0])][4 := IntArg(gpu.numRects)]
      ensures r.Ok? ==> gpu.cl.log == old(gpu.cl.log) + RunEvents(old(gpu), width, height)
      ensures r.Ok? ==> Agree(old(gpu.cl), gpu.cl, {gpu.core.kernel, gpu.core.image})
      ensures r.Ok? ==> CellsOf(gpu, gpu.circles[0]) == old(CellsOf(gpu, gpu.circles[0])) &&
                        CellsOf(gpu, gpu.rects[0]) == old(CellsOf(gpu, gpu.rects[0]))
    {
      hide Holds;
      var image;
      gpu, r, image := Render(gpu, width * height * 4, width, height, rendered);
      if r.Fatal? {
        return;
      }
      forall i | 0 <= i < pixels.Length {
        pixels[i] := image[i];
      }
    }

    /** The destructor: the pixels and both host arrays are deleted, and the image, the
        circle and rectangle buffers, the kernel, the program, the queue, the context and
        the device are released in that order, so nothing stays live. */
    method Dispose()
      requires Valid()
      modifies this`gpu, this`hostLive
      ensures hostLive == {} && LiveSet(gpu.cl) == {}
      ensures gpu == old(gpu).(cl := gpu.cl)
      ensures gpu.cl.log == old(gpu.cl.log) + Releases(Teardown(gpu.core, gpu.circles, gpu.rects))
    {
      hide Holds;
      hostLive := hostLive - {pixels};
      ClearHostCircles();
      ClearHostRectangles();
      gpu := Close(gpu, width * height * 4, 1);
    }
  }
}
