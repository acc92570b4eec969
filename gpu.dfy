/** The OpenCL members of a compute wrapper as one value: the driver they refer to, the six
    fixed objects, and per shape kind the buffer handles and their element count
    (`numCircles`, `numRects`). Each driver call a wrapper makes is an operation here that
    keeps the ownership invariant of `Ownership`. */
module GpuState {
  import opened Scene
  import opened ClRuntime
  import opened Ownership

  datatype Gpu = Gpu(cl: ClState, core: Core, circles: seq<Handle>, numCircles: nat, rects: seq<Handle>, numRects: nat)

  /** `per` buffers for each shape kind, owned as `Owned` describes. */
  ghost predicate Holds(g: Gpu, imageBytes: nat, per: nat)
  {
    |g.circles| == per && |g.rects| == per &&
    Owned(g.cl, g.core, imageBytes, g.circles, g.numCircles, g.rects, g.numRects)
  }

  function NoHandles(n: nat): (r: seq<Handle>)
    ensures |r| == n && forall i :: 0 <= i < n ==> r[i] == NULL
  {
    seq(n, _ => NULL)
  }

  /** The members before the constructor body runs: null handles and zero counts. */
  function Unbound(limits: Limits, per: nat): (g: Gpu)
    ensures LiveSet(g.cl) == {} && g.cl.log == [] && g.numCircles == 0 && g.numRects == 0
    ensures g.circles == NoHandles(per) && g.rects == NoHandles(per)
  {
    Gpu(Initial(limits), Core(NULL, NULL, NULL, NULL, NULL, NULL), NoHandles(per), 0, NoHandles(per), 0)
  }

  /** The constructor's driver calls once a device is found (`Construct`): fatal when the
      image would be empty or the build fails; otherwise the six objects are owned under
      handles 1 to 6 and no buffer exists yet. */
  method Open(limits: Limits, width: nat, height: nat, buildSucceeds: bool, per: nat)
    returns (g: Gpu, r: Outcome)
    ensures r.Fatal? <==> width == 0 || height == 0 || !buildSucceeds
    ensures r.Fatal? ==> r.error == if width == 0 || height == 0 then InvalidImageDescriptor else BuildFailure
    ensures r.Ok? ==> Holds(g, width * height * 4, per) && g.core == Core(1, 2, 3, 4, 5, 6)
    ensures r.Ok? ==> g.circles == NoHandles(per) && g.rects == NoHandles(per) && g.numCircles == 0 && g.numRects == 0
    ensures r.Ok? ==> g.cl.limits == limits
    ensures r.Ok? ==> g.cl.log == [Created(1), Created(2), Created(3), Created(4), Created(5), Created(6), ArgSet(0, MemArg(4))]
  {
    var cl, core := Boot(limits, width, height, buildSucceeds, NoHandles(per), NoHandles(per));
    if core.Failure? {
      return Unbound(limits, per).(cl := cl), Fatal(core.error);
    }
    return Gpu(cl, core.value, NoHandles(per), 0, NoHandles(per), 0), Ok;
  }

  /** The argument bindings of the kernel, empty for a handle the driver does not know. */
  function KernelArgs(g: Gpu): map<nat, Arg>
  {
    if g.core.kernel in g.cl.objects then g.cl.objects[g.core.kernel].args else map[]
  }

  /** The contents of a driver object, empty for a handle the driver does not know. */
  function CellsOf(g: Gpu, h: Handle): seq<Cell>
  {
    if h in g.cl.objects then g.cl.objects[h].cells else []
  }

  /** A step that keeps every object outside one kind's buffers keeps the other kind's
      buffers, set or not, with their contents. */
  lemma KindKept(g: Gpu, imageBytes: nat, per: nat, e: Gpu)
    requires Holds(g, imageBytes, per) && Holds(e, imageBytes, per)
    ensures Agree(g.cl, e.cl, NonNull(g.circles)) ==>
              forall j :: 0 <= j < per ==> CellsOf(e, g.rects[j]) == CellsOf(g, g.rects[j])
    ensures Agree(g.cl, e.cl, NonNull(g.rects)) ==>
              forall j :: 0 <= j < per ==> CellsOf(e, g.circles[j]) == CellsOf(g, g.circles[j])
  {
    forall j | 0 <= j < per && g.rects[j] != NULL ensures g.rects[j] in NonNull(g.rects) {
    }
    forall j | 0 <= j < per && g.circles[j] != NULL ensures g.circles[j] in NonNull(g.circles) {
    }
  }

  /** A write to `h` after a step that kept everything outside `except` keeps everything
      outside `except` too, when `h` is in `except` or newer than the first state. */
  lemma WrittenAgree(g0: Gpu, imageBytes: nat, per: nat, g1: Gpu, g2: Gpu, except: set<Handle>, h: Handle)
    requires Holds(g0, imageBytes, per) && Agree(g0.cl, g1.cl, except) && h in g2.cl.objects
    requires g2.cl.objects == g1.cl.objects[h := g2.cl.objects[h]]
    requires h in except || h >= g0.cl.next
    ensures Agree(g0.cl, g2.cl, except)
  {
  }

  /** No shape buffer, set or not, is the kernel or the image. */
  lemma BuffersApart(g: Gpu, imageBytes: nat, per: nat)
    requires Holds(g, imageBytes, per)
    ensures forall j :: 0 <= j < per ==> g.circles[j] != g.core.kernel && g.circles[j] != g.core.image
    ensures forall j :: 0 <= j < per ==> g.rects[j] != g.core.kernel && g.rects[j] != g.core.image
  {
    CoreNotInGroup(g.cl, g.core, imageBytes, g.circles, g.numCircles);
    CoreNotInGroup(g.cl, g.core, imageBytes, g.rects, g.numRects);
    forall j | 0 <= j < per && g.circles[j] != NULL ensures g.circles[j] in NonNull(g.circles) {
    }
    forall j | 0 <= j < per && g.rects[j] != NULL ensures g.rects[j] in NonNull(g.rects) {
    }
  }

  /** The handles the wrapper keeps per shape kind: `per` each, the first one null exactly
      while that kind's count is 0. */
  lemma HeldShape(g: Gpu, imageBytes: nat, per: nat)
    requires Holds(g, imageBytes, per) && per > 0
    ensures |g.circles| == per && |g.rects| == per
    ensures g.circles[0] == NULL <==> g.numCircles == 0
    ensures g.rects[0] == NULL <==> g.numRects == 0
    ensures g.core.kernel in g.cl.objects && g.core.image != g.core.kernel
    ensures g.numCircles > 0 ==> forall i, j :: 0 <= i < j < per ==> g.circles[i] != g.circles[j]
    ensures g.numRects > 0 ==> forall i, j :: 0 <= i < j < per ==> g.rects[i] != g.rects[j]
    ensures g.numCircles > 0 ==> forall j :: 0 <= j < per ==> g.circles[j] != NULL
    ensures g.numRects > 0 ==> forall j :: 0 <= j < per ==> g.rects[j] != NULL
  {
  }

  /** The driver side of `createCirclesBuffer`: each circle buffer is released once if set,
      then `per` buffers of `count` elements are created, the first creation failing
      fatally when `count` is 0 (its handle is then null). On success the new buffers
      are owned; in every case each other object, the rectangle buffers included, keeps
      its state and contents. */
  method ResizeCircles(g: Gpu, imageBytes: nat, per: nat, count: nat) returns (e: Gpu, r: Outcome)
    requires Holds(g, imageBytes, per) && per > 0
    ensures r.Fatal? <==> count == 0
    ensures e.core == g.core && e.rects == g.rects && e.numRects == g.numRects
    ensures e.numCircles == count && |e.circles| == per && e.cl.limits == g.cl.limits
    ensures r.Fatal? ==> r.error == InvalidBufferSize && e.circles[0] == NULL
    ensures r.Ok? ==> Holds(e, imageBytes, per)
    ensures r.Ok? ==> forall i :: 0 <= i < per ==> e.circles[i] == g.cl.next + i
    ensures r.Ok? ==> e.cl.log == g.cl.log + Releases(g.circles) + Creations(e.circles)
    ensures Agree(g.cl, e.cl, NonNull(g.circles))
    ensures r.Ok? ==> forall j :: 0 <= j < per ==> CellsOf(e, e.rects[j]) == CellsOf(g, g.rects[j])
  {
    var cl, hs := Regroup(g.cl, g.core, imageBytes, g.circles, g.numCircles, g.rects, g.numRects, count, per);
    if hs.Failure? {
      return g.(cl := cl, circles := g.circles[0 := NULL], numCircles := count), Fatal(hs.error);
    }
    e, r := g.(cl := cl, circles := hs.value, numCircles := count), Ok;
    KindKept(g, imageBytes, per, e);
  }

  /** The driver side of a rectangle resize, as `ResizeCircles`. */
  method ResizeRects(g: Gpu, imageBytes: nat, per: nat, count: nat) returns (e: Gpu, r: Outcome)
    requires Holds(g, imageBytes, per) && per > 0
    ensures r.Fatal? <==> count == 0
    ensures e.core == g.core && e.circles == g.circles && e.numCircles == g.numCircles
    ensures e.numRects == count && |e.rects| == per && e.cl.limits == g.cl.limits
    ensures r.Fatal? ==> r.error == InvalidBufferSize && e.rects[0] == NULL
    ensures r.Ok? ==> Holds(e, imageBytes, per)
    ensures r.Ok? ==> forall i :: 0 <= i < per ==> e.rects[i] == g.cl.next + i
    ensures r.Ok? ==> e.cl.log == g.cl.log + Releases(g.rects) + Creations(e.rects)
    ensures Agree(g.cl, e.cl, NonNull(g.rects))
    ensures r.Ok? ==> forall j :: 0 <= j < per ==> CellsOf(e, e.circles[j]) == CellsOf(g, g.circles[j])
  {
    OwnedSwap(g.cl, g.core, imageBytes, g.circles, g.numCircles, g.rects, g.numRects);
    var cl, hs := Regroup(g.cl, g.core, imageBytes, g.rects, g.numRects, g.circles, g.numCircles, count, per);
    if hs.Failure? {
      return g.(cl := cl, rects := g.rects[0 := NULL], numRects := count), Fatal(hs.error);
    }
    OwnedSwap(cl, g.core, imageBytes, hs.value, count, g.circles, g.numCircles);
    e, r := g.(cl := cl, rects := hs.value, numRects := count), Ok;
    KindKept(g, imageBytes, per, e);
  }

  /** A blocking `clEnqueueWriteBuffer` of all `numCircles` elements into circle buffer
      `k`: that buffer holds `cells` afterwards, every other object is unchanged. */
  method WriteCircles(g: Gpu, imageBytes: nat, per: nat, k: nat, cells: seq<Cell>) returns (e: Gpu)
    requires Holds(g, imageBytes, per) && k < per && g.numCircles > 0 && |cells| == g.numCircles
    ensures Holds(e, imageBytes, per) && e == g.(cl := e.cl)
    ensures g.circles[k] in e.cl.objects && e.cl.objects[g.circles[k]].cells == cells
    ensures e.cl.objects == g.cl.objects[g.circles[k] := e.cl.objects[g.circles[k]]]
    ensures e.cl.log == g.cl.log + [BufferWritten(g.circles[k])] && e.cl.limits == g.cl.limits
  {
    WriteMember(g.cl, g.core, imageBytes, g.circles, g.numCircles, g.rects, g.numRects, k, cells);
    e := g.(cl := WriteBuffer(g.cl, g.circles[k], cells));
  }

  /** The same for rectangle buffer `k`. */
  method WriteRects(g: Gpu, imageBytes: nat, per: nat, k: nat, cells: seq<Cell>) returns (e: Gpu)
    requires Holds(g, imageBytes, per) && k < per && g.numRects > 0 && |cells| == g.numRects
    ensures Holds(e, imageBytes, per) && e == g.(cl := e.cl)
    ensures g.rects[k] in e.cl.objects && e.cl.objects[g.rects[k]].cells == cells
    ensures e.cl.objects == g.cl.objects[g.rects[k] := e.cl.objects[g.rects[k]]]
    ensures e.cl.log == g.cl.log + [BufferWritten(g.rects[k])] && e.cl.limits == g.cl.limits
  {
    OwnedSwap(g.cl, g.core, imageBytes, g.circles, g.numCircles, g.rects, g.numRects);
    WriteMember(g.cl, g.core, imageBytes, g.rects, g.numRects, g.circles, g.numCircles, k, cells);
    var cl := WriteBuffer(g.cl, g.rects[k], cells);
    OwnedSwap(cl, g.core, imageBytes, g.rects, g.numRects, g.circles, g.numCircles);
    e := g.(cl := cl);
  }

  /** `clSetKernelArg(kernel, index, arg)` for an argument other than the image: the
      kernel's binding at `index` becomes `arg`, every other object is unchanged. */
  method Bind(g: Gpu, imageBytes: nat, per: nat, index: nat, arg: Arg) returns (e: Gpu)
    requires Holds(g, imageBytes, per) && index != 0
    ensures Holds(e, imageBytes, per) && e == g.(cl := e.cl)
    ensures g.core.kernel in e.cl.objects && e.cl.objects[g.core.kernel].args == g.cl.objects[g.core.kernel].args[index := arg]
    ensures e.cl.objects == g.cl.objects[g.core.kernel := e.cl.objects[g.core.kernel]]
    ensures e.cl.log == g.cl.log + [ArgSet(index, arg)] && e.cl.limits == g.cl.limits
  {
    ArgKeeps(g.cl, g.core, imageBytes, g.circles, g.numCircles, g.rects, g.numRects, index, arg);
    e := g.(cl := SetArg(g.cl, g.core.kernel, index, arg));
  }

  /** `clEnqueueNDRangeKernel` over `width x height` in 16 x 16 work-groups: fatal when the
      device's limits refuse the 16 x 16 group (`Refused`); otherwise
      the image holds what the kernel rendered and every other object is unchanged. */
  method Launch(g: Gpu, imageBytes: nat, per: nat, width: nat, height: nat, rendered: seq<Byte>) returns (e: Gpu, r: Outcome)
    requires Holds(g, imageBytes, per) && |rendered| == imageBytes
    ensures r.Fatal? <==> Refused(g.cl.limits, width, height)
    ensures r.Fatal? ==> r.error == InvalidWorkGroupSize
    ensures r.Ok? ==> Holds(e, imageBytes, per) && e == g.(cl := e.cl)
    ensures r.Ok? ==> e.cl.objects[g.core.image].texels == rendered
    ensures r.Ok? ==> g.core.image in e.cl.objects && e.cl.objects == g.cl.objects[g.core.image := e.cl.objects[g.core.image]]
    ensures r.Ok? ==> e.cl.log == g.cl.log + [Dispatched(width, height)] && e.cl.limits == g.cl.limits
  {
    var dispatched := Dispatch(g.cl, g.core.image, width, height, rendered);
    if dispatched.1.Fatal? {
      return g, dispatched.1;
    }
    DispatchKeeps(g.cl, g.core, imageBytes, g.circles, g.numCircles, g.rects, g.numRects, width, height, rendered);
    return g.(cl := dispatched.0), Ok;
  }

  /** A blocking `clEnqueueReadImage` of the whole image: it delivers the image's bytes. */
  method ReadBack(g: Gpu, imageBytes: nat, per: nat) returns (e: Gpu, bytes: seq<Byte>)
    requires Holds(g, imageBytes, per)
    ensures Holds(e, imageBytes, per) && e == g.(cl := e.cl)
    ensures bytes == g.cl.objects[g.core.image].texels && |bytes| == imageBytes
    ensures e.cl.objects == g.cl.objects
    ensures e.cl.log == g.cl.log + [ImageRead(g.core.image)] && e.cl.limits == g.cl.limits
  {
    var cl := ReadImage(g.cl, g.core.image);
    LogKeeps(g.cl, cl, g.core, imageBytes, g.circles, g.numCircles, g.rects, g.numRects);
    return g.(cl := cl), g.cl.objects[g.core.image].texels;
  }

  /** `clFinish`. */
  method Await(g: Gpu, imageBytes: nat, per: nat) returns (e: Gpu)
    requires Holds(g, imageBytes, per)
    ensures Holds(e, imageBytes, per) && e == g.(cl := e.cl)
    ensures e.cl.objects == g.cl.objects
    ensures e.cl.log == g.cl.log + [Finished] && e.cl.limits == g.cl.limits
  {
    var cl := Finish(g.cl);
    LogKeeps(g.cl, cl, g.core, imageBytes, g.circles, g.numCircles, g.rects, g.numRects);
    return g.(cl := cl);
  }

  /** The destructor's driver calls: every live object is released exactly once, in the
      order `Teardown` gives, and none is left live. */
  method Close(g: Gpu, imageBytes: nat, per: nat) returns (e: Gpu)
    requires Holds(g, imageBytes, per)
    ensures e == g.(cl := e.cl) && LiveSet(e.cl) == {}
    ensures e.cl.log == g.cl.log + Releases(Teardown(g.core, g.circles, g.rects))
  {
    TeardownAll(g.cl, g.core, imageBytes, g.circles, g.numCircles, g.rects, g.numRects);
    return g.(cl := ReleaseEach(g.cl, Teardown(g.core, g.circles, g.rects)).value);
  }
}
