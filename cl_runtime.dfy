/** The OpenCL driver as the two compute wrappers see it: a table from handles to the
    objects they created (device, context, queue, image, buffers, program, kernel), each
    live or released, with the contents of buffers and images, and the sequence of driver
    calls made. Handle 0 is the null handle. Only the error conditions the wrappers can
    reach with their own arguments are modelled; each is fatal, as the source asserts on
    every result. */
module ClRuntime {
  import opened Vectors
  import opened Scene
  import opened Records
  import opened Wrappers

  type Handle = nat

  const NULL: Handle := 0

  datatype Kind = DeviceObj | ContextObj | QueueObj | ImageObj | BufferObj | ProgramObj | KernelObj

  datatype Status = Live | Released

  /** One element of a device buffer. */
  datatype Cell =
    | Unset
    | CircleCell(circle: CircleRecord)
    | RectCell(rect: RectRecord)
    | Float2Cell(v: Vec)
    | FloatCell(f: real)
    | Float3Cell(rgb: Rgb)

  /** A driver object: buffers hold cells, images hold RGBA8 bytes, kernels hold their
      argument bindings. */
  datatype Obj = Obj(kind: Kind, status: Status, cells: seq<Cell>, texels: seq<Byte>, args: map<nat, Arg>)

  datatype Arg = MemArg(mem: Handle) | IntArg(n: int) | FloatArg(f: real)

  datatype Event =
    | Created(h: Handle)
    | ReleasedObj(h: Handle)
    | BufferWritten(h: Handle)
    | ArgSet(index: nat, arg: Arg)
    | Dispatched(width: nat, height: nat)
    | ImageRead(h: Handle)
    | Finished

  /** The failures the wrappers assert against. */
  datatype ClError =
    | NoGpuDevice             // the device search left `device` null
    | InvalidImageDescriptor  // clCreateImage with a zero width or height in its image_desc
    | BuildFailure            // the kernel source could not be read or built
    | InvalidBufferSize       // clCreateBuffer of zero bytes
    | InvalidWorkGroupSize    // a 16 x 16 group the device refuses (see `Refused`)

  datatype Outcome = Ok | Fatal(error: ClError)

  datatype Result<T> = Success(value: T) | Failure(error: ClError)

  /** What the device allows a launch: `maxWorkGroupSize` is the device's
      `CL_DEVICE_MAX_WORK_GROUP_SIZE`, which the wrappers query but never compare with their
      16 x 16 group. Work-groups are always uniform here: the kernel is built with no options,
      hence as OpenCL C 1.x, so the global size must be a multiple of the group size even on
      an OpenCL 2.0 platform. */
  datatype Limits = Limits(maxWorkGroupSize: nat)

  /** The launches `clEnqueueNDRangeKernel` refuses with `CL_INVALID_WORK_GROUP_SIZE`
      (OpenCL 1.2, section 5.8): a 16 x 16 group larger than the device allows, or a side
      the group does not divide. */
  predicate Refused(limits: Limits, width: nat, height: nat)
  {
    limits.maxWorkGroupSize < 16 * 16 || width % 16 != 0 || height % 16 != 0
  }

  datatype ClState = ClState(objects: map<Handle, Obj>, next: Handle, log: seq<Event>, limits: Limits)

  /** Every handle in the table was handed out before `next`, and none of them is null. */
  ghost predicate Wf(cl: ClState)
  {
    cl.next > NULL && forall h :: h in cl.objects ==> NULL < h < cl.next
  }

  predicate IsLive(cl: ClState, h: Handle)
  {
    h in cl.objects && cl.objects[h].status == Live
  }

  predicate LiveOf(cl: ClState, h: Handle, k: Kind)
  {
    IsLive(cl, h) && cl.objects[h].kind == k
  }

  /** The objects created and not yet released. */
  function LiveSet(cl: ClState): set<Handle>
  {
    set h | h in cl.objects && cl.objects[h].status == Live
  }

  /** The non-null handles of a sequence. */
  function NonNull(hs: seq<Handle>): set<Handle>
  {
    set i | 0 <= i < |hs| && hs[i] != NULL :: hs[i]
  }

  /** The handle as a set: empty when it is null. */
  function Opt(h: Handle): set<Handle>
  {
    if h == NULL then {} else {h}
  }

  /** The release calls `if (h) clRelease...(h)` makes for each handle in turn. */
  function Releases(hs: seq<Handle>): seq<Event>
  {
    if hs == [] then []
    else (if hs[0] == NULL then [] else [ReleasedObj(hs[0])]) + Releases(hs[1..])
  }

  /** The driver before any call. */
  function Initial(limits: Limits): (r: ClState)
    ensures Wf(r) && LiveSet(r) == {} && r.log == []
  {
    ClState(map[], 1, [], limits)
  }

  /** A new object under the next unused handle; every other object is unchanged. */
  function NewObject(cl: ClState, kind: Kind, cells: seq<Cell>, texels: seq<Byte>): (r: ClState)
    requires Wf(cl)
    ensures Wf(r) && r.next == cl.next + 1 && cl.next !in cl.objects
    ensures cl.next in r.objects && r.objects[cl.next] == Obj(kind, Live, cells, texels, map[])
    ensures forall h :: h in cl.objects ==> h in r.objects && r.objects[h] == cl.objects[h]
    ensures LiveSet(r) == LiveSet(cl) + {cl.next}
    ensures r.log == cl.log + [Created(cl.next)] && r.limits == cl.limits
  {
    var r := cl.(objects := cl.objects[cl.next := Obj(kind, Live, cells, texels, map[])], next := cl.next + 1,
                 log := cl.log + [Created(cl.next)]);
    assert LiveSet(r) == LiveSet(cl) + {cl.next} by {
      forall h ensures h in LiveSet(r) <==> h in LiveSet(cl) + {cl.next} {
        if h != cl.next {
          assert h in r.objects <==> h in cl.objects;
        }
      }
    }
    r
  }

  /** `clRelease...`: only a live object may be released; it becomes released and every
      other object is unchanged. */
  function Release(cl: ClState, h: Handle): (r: ClState)
    requires Wf(cl) && IsLive(cl, h)
    ensures Wf(r) && r.next == cl.next && r.objects.Keys == cl.objects.Keys
    ensures r.objects[h] == cl.objects[h].(status := Released)
    ensures forall g :: g in cl.objects && g != h ==> r.objects[g] == cl.objects[g]
    ensures LiveSet(r) == LiveSet(cl) - {h}
    ensures r.log == cl.log + [ReleasedObj(h)] && r.limits == cl.limits
  {
    var r := cl.(objects := cl.objects[h := cl.objects[h].(status := Released)], log := cl.log + [ReleasedObj(h)]);
    assert LiveSet(r) == LiveSet(cl) - {h} by {
      forall g ensures g in LiveSet(r) <==> g in LiveSet(cl) - {h} {
        if g != h && g in cl.objects {
          assert r.objects[g] == cl.objects[g];
        }
      }
    }
    r
  }

  /** `if (h) clReleaseMemObject(h)`: a null handle is skipped; releasing a handle that is
      no longer live is an error (`CL_INVALID_MEM_OBJECT`, or undefined behaviour once the
      driver has reused it), shown as `None`. */
  function ReleaseIfSet(cl: ClState, h: Handle): (r: Option<ClState>)
    requires Wf(cl)
    ensures r.Some? <==> h == NULL || IsLive(cl, h)
    ensures h == NULL ==> r == Some(cl)
  {
    if h == NULL then Some(cl)
    else if IsLive(cl, h) then Some(Release(cl, h))
    else None
  }

  /** The handles of `hs` that are set are live and pairwise different. */
  ghost predicate ReleasableOnce(cl: ClState, hs: seq<Handle>)
  {
    (forall i :: 0 <= i < |hs| && hs[i] != NULL ==> IsLive(cl, hs[i])) &&
    (forall i, j :: 0 <= i < j < |hs| && hs[i] != NULL ==> hs[i] != hs[j])
  }

  /** `if (h) clReleaseMemObject(h)` for each handle of `hs` in turn. */
  function ReleaseEach(cl: ClState, hs: seq<Handle>): Option<ClState>
    requires Wf(cl)
    decreases |hs|
  {
    if hs == [] then Some(cl)
    else match ReleaseIfSet(cl, hs[0])
      case None => None
      case Some(c) => ReleaseEach(c, hs[1..])
  }

  /** `r` is `cl` after one release call for each set handle of `hs`, in order, and
      exactly those handles are no longer live. */
  ghost predicate ReleasedOnce(cl: ClState, hs: seq<Handle>, r: ClState)
  {
    Wf(r) && LiveSet(r) == LiveSet(cl) - NonNull(hs) && r.log == cl.log + Releases(hs) &&
    r.next == cl.next && r.objects.Keys == cl.objects.Keys && r.limits == cl.limits
  }

  lemma NonNullCons(hs: seq<Handle>)
    requires hs != []
    ensures NonNull(hs) == (if hs[0] == NULL then {} else {hs[0]}) + NonNull(hs[1..])
  {
    var h, rest := hs[0], hs[1..];
    forall x ensures x in NonNull(hs) <==> x in (if h == NULL then {} else {h}) + NonNull(rest) {
      if x in NonNull(hs) {
        var i :| 0 <= i < |hs| && hs[i] != NULL && hs[i] == x;
        if i > 0 { assert rest[i - 1] == x; }
      }
      if x in NonNull(rest) {
        var i :| 0 <= i < |rest| && rest[i] != NULL && rest[i] == x;
        assert hs[i + 1] == x;
      }
    }
  }

  /** Releasing handles that are live and pairwise different succeeds, releases exactly
      them, and makes one release call per set handle, in order. */
  lemma {:induction false} ReleaseEachOnce(cl: ClState, hs: seq<Handle>)
    requires Wf(cl) && ReleasableOnce(cl, hs)
    ensures ReleaseEach(cl, hs).Some? && ReleasedOnce(cl, hs, ReleaseEach(cl, hs).value)
    decreases |hs|
  {
    if hs == [] {
      assert NonNull(hs) == {};
    } else {
      ReleasableTail(cl, hs);
      var c := ReleaseIfSet(cl, hs[0]).value;
      ReleaseEachOnce(c, hs[1..]);
      ReleasedOnceCons(cl, hs, ReleaseEach(c, hs[1..]).value);
    }
  }

  /** After the first handle of a releasable sequence is released, the rest is still
      releasable: its set handles are other handles, which stay live. */
  lemma ReleasableTail(cl: ClState, hs: seq<Handle>)
    requires Wf(cl) && ReleasableOnce(cl, hs) && hs != []
    ensures ReleaseIfSet(cl, hs[0]).Some? && ReleasableOnce(ReleaseIfSet(cl, hs[0]).value, hs[1..])
  {
    var h, rest := hs[0], hs[1..];
    var c := ReleaseIfSet(cl, h).value;
    forall i | 0 <= i < |rest| && rest[i] != NULL ensures IsLive(c, rest[i]) {
      assert hs[i + 1] == rest[i];
      assert IsLive(cl, rest[i]);
    }
    forall i, j | 0 <= i < j < |rest| && rest[i] != NULL ensures rest[i] != rest[j] {
      assert hs[i + 1] == rest[i] && hs[j + 1] == rest[j];
    }
  }

  /** One release for the first handle followed by the releases of the rest is the
      releases of the whole sequence. */
  lemma ReleasedOnceCons(cl: ClState, hs: seq<Handle>, r: ClState)
    requires Wf(cl) && hs != [] && ReleaseIfSet(cl, hs[0]).Some?
    requires ReleasedOnce(ReleaseIfSet(cl, hs[0]).value, hs[1..], r)
    ensures ReleasedOnce(cl, hs, r)
  {
    NonNullCons(hs);
    var c := ReleaseIfSet(cl, hs[0]).value;
    assert Releases(hs) == (if hs[0] == NULL then [] else [ReleasedObj(hs[0])]) + Releases(hs[1..]);
    assert r.log == c.log + Releases(hs[1..]);
  }

  /** A handle set twice in the sequence makes the releases fail at its second release. */
  lemma {:induction false} ReleaseEachTwice(cl: ClState, hs: seq<Handle>, i: nat, j: nat)
    requires Wf(cl) && i < j < |hs| && hs[i] != NULL && hs[i] == hs[j]
    ensures ReleaseEach(cl, hs).None?
    decreases |hs|
  {
    var rest := hs[1..];
    if ReleaseIfSet(cl, hs[0]).Some? {
      var c := ReleaseIfSet(cl, hs[0]).value;
      if i == 0 {
        assert rest[j - 1] == hs[0] && hs[0] in c.objects && !IsLive(c, hs[0]);
        ReleaseNotLive(c, rest, j - 1);
      } else {
        ReleaseEachTwice(c, rest, i - 1, j - 1);
      }
    }
  }

  /** A sequence that mentions a handle which is set but not live cannot be released. */
  lemma {:induction false} ReleaseNotLive(cl: ClState, hs: seq<Handle>, k: nat)
    requires Wf(cl) && k < |hs| && hs[k] != NULL && hs[k] in cl.objects && !IsLive(cl, hs[k])
    ensures ReleaseEach(cl, hs).None?
    decreases |hs|
  {
    if k > 0 && ReleaseIfSet(cl, hs[0]).Some? {
      var c := ReleaseIfSet(cl, hs[0]).value;
      assert hs[k] in c.objects && !IsLive(c, hs[k]);
      ReleaseNotLive(c, hs[1..], k - 1);
    }
  }

  /** `clCreateBuffer` of `count` elements: a zero-byte request fails with
      `CL_INVALID_BUFFER_SIZE` (OpenCL 1.2, section 5.2.1) and creates nothing; otherwise a
      live buffer of `count` unset cells appears under a fresh handle. */
  function CreateBuffer(cl: ClState, count: nat): (r: (ClState, Result<Handle>))
    requires Wf(cl)
    ensures r.1.Failure? <==> count == 0
    ensures r.1.Failure? ==> r.0 == cl && r.1.error == InvalidBufferSize
    ensures r.1.Success? ==> r.1.value == cl.next && r.0 == NewObject(cl, BufferObj, seq(count, _ => Unset), [])
  {
    if count == 0 then (cl, Failure(InvalidBufferSize))
    else (NewObject(cl, BufferObj, seq(count, _ => Unset), []), Success(cl.next))
  }

  /** The creation calls for the handles of `hs`, in order. */
  function Creations(hs: seq<Handle>): seq<Event>
  {
    if hs == [] then [] else [Created(hs[0])] + Creations(hs[1..])
  }

  /** `r` is `cl` after the buffers `hs` of `count` elements were created one by one: they
      are live under consecutive fresh handles and every older object is unchanged. */
  ghost predicate Made(cl: ClState, count: nat, r: ClState, hs: seq<Handle>)
  {
    Wf(r) && r.limits == cl.limits && r.next == cl.next + |hs| &&
    (forall i :: 0 <= i < |hs| ==> hs[i] == cl.next + i) &&
    (forall i :: 0 <= i < |hs| ==>
      hs[i] in r.objects && r.objects[hs[i]] == Obj(BufferObj, Live, seq(count, _ => Unset), [], map[])) &&
    (forall h :: h in cl.objects ==> h in r.objects && r.objects[h] == cl.objects[h]) &&
    LiveSet(r) == LiveSet(cl) + NonNull(hs) &&
    r.log == cl.log + Creations(hs)
  }

  lemma MadeCons(cl: ClState, count: nat, r: ClState, hs: seq<Handle>)
    requires Wf(cl) && count > 0 && Made(CreateBuffer(cl, count).0, count, r, hs)
    ensures Made(cl, count, r, [cl.next] + hs)
  {
    var first := CreateBuffer(cl, count).0;
    var all := [cl.next] + hs;
    assert all[1..] == hs;
    NonNullCons(all);
    assert Creations(all) == [Created(cl.next)] + Creations(hs);
    assert r.objects[cl.next] == first.objects[cl.next];
  }

  /** `n` consecutive `clCreateBuffer` calls of `count` elements each, asserting after each:
      with a zero count the first call fails; otherwise `n` live buffers appear under
      consecutive fresh handles and every older object is unchanged. */
  function CreateBuffers(cl: ClState, count: nat, n: nat): (r: (ClState, Result<seq<Handle>>))
    requires Wf(cl)
    ensures Wf(r.0) && r.0.limits == cl.limits
    ensures r.1.Failure? <==> count == 0 && n > 0
    ensures r.1.Failure? ==> r.0 == cl && r.1.error == InvalidBufferSize
    ensures r.1.Success? ==> |r.1.value| == n && Made(cl, count, r.0, r.1.value)
    decreases n
  {
    if n == 0 then
      assert NonNull([]) == {};
      (cl, Success([]))
    else
      var first := CreateBuffer(cl, count);
      if first.1.Failure? then (first.0, Failure(first.1.error))
      else
        var rest := CreateBuffers(first.0, count, n - 1);
        MadeCons(cl, count, rest.0, rest.1.value);
        (rest.0, Success([first.1.value] + rest.1.value))
  }

  /** `clCreateImage` of a `width x height` RGBA8 image: a zero dimension fails with
      `CL_INVALID_IMAGE_DESCRIPTOR`, since an `image_desc` needs a width and height of at
      least 1 (OpenCL 1.2, section 5.3.1). */
  function CreateImage(cl: ClState, width: nat, height: nat): (r: (ClState, Result<Handle>))
    requires Wf(cl)
    ensures r.1.Failure? <==> width == 0 || height == 0
    ensures r.1.Failure? ==> r.0 == cl && r.1.error == InvalidImageDescriptor
    ensures r.1.Success? ==> r.1.value == cl.next && r.0 == NewObject(cl, ImageObj, [], seq(width * height * 4, _ => 0))
  {
    if width == 0 || height == 0 then (cl, Failure(InvalidImageDescriptor))
    else (NewObject(cl, ImageObj, [], seq(width * height * 4, _ => 0)), Success(cl.next))
  }

  /** A blocking `clEnqueueWriteBuffer` of the whole buffer: afterwards the buffer holds
      exactly `cells`. */
  function WriteBuffer(cl: ClState, h: Handle, cells: seq<Cell>): (r: ClState)
    requires Wf(cl) && LiveOf(cl, h, BufferObj) && |cells| == |cl.objects[h].cells|
    ensures Wf(r) && r.next == cl.next && r.objects.Keys == cl.objects.Keys && LiveSet(r) == LiveSet(cl)
    ensures r.objects[h] == cl.objects[h].(cells := cells)
    ensures forall g :: g in cl.objects && g != h ==> r.objects[g] == cl.objects[g]
    ensures r.log == cl.log + [BufferWritten(h)] && r.limits == cl.limits
  {
    var r := cl.(objects := cl.objects[h := cl.objects[h].(cells := cells)], log := cl.log + [BufferWritten(h)]);
    assert LiveSet(r) == LiveSet(cl) by {
      forall g ensures g in LiveSet(r) <==> g in LiveSet(cl) {
        if g != h && g in cl.objects {
          assert r.objects[g] == cl.objects[g];
        }
      }
    }
    r
  }

  /** `clSetKernelArg`: the kernel binds `arg` at `index`; other bindings and objects are
      unchanged. */
  function SetArg(cl: ClState, kernel: Handle, index: nat, arg: Arg): (r: ClState)
    requires Wf(cl) && LiveOf(cl, kernel, KernelObj)
    ensures Wf(r) && r.next == cl.next && r.objects.Keys == cl.objects.Keys && LiveSet(r) == LiveSet(cl)
    ensures r.objects[kernel] == cl.objects[kernel].(args := cl.objects[kernel].args[index := arg])
    ensures forall g :: g in cl.objects && g != kernel ==> r.objects[g] == cl.objects[g]
    ensures r.log == cl.log + [ArgSet(index, arg)] && r.limits == cl.limits
  {
    var k := cl.objects[kernel];
    var r := cl.(objects := cl.objects[kernel := k.(args := k.args[index := arg])], log := cl.log + [ArgSet(index, arg)]);
    assert LiveSet(r) == LiveSet(cl) by {
      forall g ensures g in LiveSet(r) <==> g in LiveSet(cl) {
        if g != kernel && g in cl.objects {
          assert r.objects[g] == cl.objects[g];
        }
      }
    }
    r
  }

  /** `clEnqueueNDRangeKernel` over a `width x height` grid in 16 x 16 groups. The kernel's
      output is not modelled: `rendered` stands for the image it produces. A launch the
      device's limits refuse (`Refused`) changes nothing. */
  function Dispatch(cl: ClState, image: Handle, width: nat, height: nat, rendered: seq<Byte>): (r: (ClState, Outcome))
    requires Wf(cl) && LiveOf(cl, image, ImageObj) && |rendered| == |cl.objects[image].texels|
    ensures r.1.Fatal? <==> cl.limits.maxWorkGroupSize < 256 || width % 16 != 0 || height % 16 != 0
    ensures r.1.Fatal? ==> r.0 == cl && r.1.error == InvalidWorkGroupSize
    ensures r.1.Ok? ==> r.0 == cl.(objects := cl.objects[image := cl.objects[image].(texels := rendered)],
                                   log := cl.log + [Dispatched(width, height)])
    ensures r.1.Ok? ==> Wf(r.0) && LiveSet(r.0) == LiveSet(cl)
  {
    if Refused(cl.limits, width, height) then
      (cl, Fatal(InvalidWorkGroupSize))
    else
      var r := cl.(objects := cl.objects[image := cl.objects[image].(texels := rendered)],
                   log := cl.log + [Dispatched(width, height)]);
      assert LiveSet(r) == LiveSet(cl) by {
        forall g ensures g in LiveSet(r) <==> g in LiveSet(cl) {
          if g != image && g in cl.objects {
            assert r.objects[g] == cl.objects[g];
          }
        }
      }
      (r, Ok)
  }

  /** A blocking `clEnqueueReadImage` of the whole image: recorded; the bytes it delivers
      are the image's texels. */
  function ReadImage(cl: ClState, image: Handle): ClState
    requires LiveOf(cl, image, ImageObj)
  {
    cl.(log := cl.log + [ImageRead(image)])
  }

  /** `clFinish`: recorded. */
  function Finish(cl: ClState): ClState
  {
    cl.(log := cl.log + [Finished])
  }

  /** The set holding the host array `a`, empty for a null pointer. */
  function Held(a: object?): set<object>
  {
    if a == null then {} else {a}
  }

  /** `if (p) delete[] p` for each host array in turn: a null pointer is skipped, deleting
      an array that is no longer allocated (a double free) is shown as `None`. */
  ghost function FreeEach(heap: set<object>, arrays: seq<object?>): (r: Option<set<object>>)
    ensures (forall i :: 0 <= i < |arrays| ==> arrays[i] == null || arrays[i] in heap) &&
            (forall i, j :: 0 <= i < j < |arrays| && arrays[i] != null ==> arrays[i] != arrays[j])
      ==> r.Some? && r.value == heap - set i | 0 <= i < |arrays| :: arrays[i]
    ensures r.Some? ==> r.value <= heap
    decreases |arrays|
  {
    if arrays == [] then Some(heap)
    else if arrays[0] == null then FreeEach(heap, arrays[1..])
    else if arrays[0] in heap then FreeEach(heap - {arrays[0]}, arrays[1..])
    else None
  }
}
