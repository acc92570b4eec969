/** What a compute wrapper owns in the driver once constructed: six fixed objects (device,
    context, queue, output image, program, kernel, with the image bound as kernel argument
    0) and, per shape kind, a group of buffers that are either all unset or all live with
    one element per shape. Every live driver object is one of these, so nothing leaks. */
module Ownership {
  import opened Scene
  import opened ClRuntime

  datatype Core = Core(device: Handle, context: Handle, queue: Handle, image: Handle, program: Handle, kernel: Handle)

  function CoreSet(c: Core): set<Handle>
  {
    {c.device, c.context, c.queue, c.image, c.program, c.kernel}
  }

  /** The fixed objects are live with their kinds; the image holds `imageBytes` bytes and is
      bound as argument 0 of the kernel. */
  ghost predicate Fixed(cl: ClState, c: Core, imageBytes: nat)
  {
    Wf(cl) &&
    LiveOf(cl, c.device, DeviceObj) && LiveOf(cl, c.context, ContextObj) &&
    LiveOf(cl, c.queue, QueueObj) && LiveOf(cl, c.image, ImageObj) &&
    LiveOf(cl, c.program, ProgramObj) && LiveOf(cl, c.kernel, KernelObj) &&
    |cl.objects[c.image].texels| == imageBytes &&
    0 in cl.objects[c.kernel].args && cl.objects[c.kernel].args[0] == MemArg(c.image)
  }

  /** A shape kind's buffers: all unset while the count is 0, otherwise all set, live,
      pairwise different and `count` elements long. */
  ghost predicate Group(cl: ClState, hs: seq<Handle>, count: nat)
  {
    if count == 0 then
      forall i :: 0 <= i < |hs| ==> hs[i] == NULL
    else
      ReleasableOnce(cl, hs) &&
      forall i :: 0 <= i < |hs| ==> hs[i] != NULL && LiveOf(cl, hs[i], BufferObj) && |cl.objects[hs[i]].cells| == count
  }

  /** The live objects are exactly the fixed ones and the two groups' buffers. */
  ghost predicate Owned(cl: ClState, c: Core, imageBytes: nat, g1: seq<Handle>, n1: nat, g2: seq<Handle>, n2: nat)
  {
    Fixed(cl, c, imageBytes) && Group(cl, g1, n1) && Group(cl, g2, n2) &&
    NonNull(g1) !! NonNull(g2) &&
    LiveSet(cl) == CoreSet(c) + NonNull(g1) + NonNull(g2)
  }

  /** `r` keeps every object of `cl` outside `except` as it was. */
  ghost predicate Agree(cl: ClState, r: ClState, except: set<Handle>)
  {
    forall h :: h in cl.objects && h !in except ==> h in r.objects && r.objects[h] == cl.objects[h]
  }

  /** Agreement composes: what neither step touches is kept by both. */
  lemma AgreeChain(a: ClState, b: ClState, c: ClState, x: set<Handle>, y: set<Handle>)
    requires Agree(a, b, x) && Agree(b, c, y)
    ensures Agree(a, c, x + y)
  {
  }

  lemma FixedAgree(cl: ClState, r: ClState, except: set<Handle>, c: Core, imageBytes: nat)
    requires Fixed(cl, c, imageBytes) && Wf(r) && Agree(cl, r, except) && CoreSet(c) !! except
    ensures Fixed(r, c, imageBytes)
  {
  }

  lemma GroupAgree(cl: ClState, r: ClState, except: set<Handle>, hs: seq<Handle>, count: nat)
    requires Group(cl, hs, count) && Agree(cl, r, except) && NonNull(hs) !! except
    ensures Group(r, hs, count)
  {
    if count > 0 {
      forall i | 0 <= i < |hs| ensures hs[i] in NonNull(hs) {
      }
    }
  }

  /** Releases change only the released objects. */
  lemma {:induction false} ReleaseEachAgree(cl: ClState, hs: seq<Handle>)
    requires Wf(cl) && ReleaseEach(cl, hs).Some?
    ensures Agree(cl, ReleaseEach(cl, hs).value, NonNull(hs))
    decreases |hs|
  {
    if hs != [] {
      var c := ReleaseIfSet(cl, hs[0]).value;
      ReleaseEachAgree(c, hs[1..]);
      NonNullCons(hs);
    }
  }

  lemma CoreNotInGroup(cl: ClState, c: Core, imageBytes: nat, g: seq<Handle>, n: nat)
    requires Fixed(cl, c, imageBytes) && Group(cl, g, n)
    ensures CoreSet(c) !! NonNull(g)
  {
    forall h | h in NonNull(g) ensures h !in CoreSet(c) {
      var i :| 0 <= i < |g| && g[i] != NULL && g[i] == h;
    }
  }

  /** Releasing the first group of an owned state succeeds, releases each of its buffers
      once and leaves live only the fixed objects and the other group. */
  lemma DropGroup(cl: ClState, c: Core, imageBytes: nat, g1: seq<Handle>, n1: nat, g2: seq<Handle>, n2: nat)
    requires Owned(cl, c, imageBytes, g1, n1, g2, n2)
    ensures ReleaseEach(cl, g1).Some?
    ensures ReleasedOnce(cl, g1, ReleaseEach(cl, g1).value)
    ensures LiveSet(ReleaseEach(cl, g1).value) == CoreSet(c) + NonNull(g2)
  {
    ReleaseEachOnce(cl, g1);
    CoreNotInGroup(cl, c, imageBytes, g1, n1);
  }

  /** ... and keeps the fixed objects and the other group as they were. */
  lemma DropGroupKeeps(cl: ClState, c: Core, imageBytes: nat, g1: seq<Handle>, n1: nat, g2: seq<Handle>, n2: nat)
    requires Owned(cl, c, imageBytes, g1, n1, g2, n2) && ReleaseEach(cl, g1).Some?
    ensures Fixed(ReleaseEach(cl, g1).value, c, imageBytes) && Group(ReleaseEach(cl, g1).value, g2, n2)
  {
    var r := ReleaseEach(cl, g1).value;
    ReleaseEachOnce(cl, g1);
    ReleaseEachAgree(cl, g1);
    CoreNotInGroup(cl, c, imageBytes, g1, n1);
    FixedAgree(cl, r, NonNull(g1), c, imageBytes);
    GroupAgree(cl, r, NonNull(g1), g2, n2);
  }

  /** The buffers `n` creation calls make form a group of `count` elements, none of them an
      older object. */
  lemma NewGroup(cl: ClState, count: nat, n: nat)
    requires Wf(cl) && count > 0
    ensures CreateBuffers(cl, count, n).1.Success?
    ensures Group(CreateBuffers(cl, count, n).0, CreateBuffers(cl, count, n).1.value, count)
    ensures forall h :: h in NonNull(CreateBuffers(cl, count, n).1.value) ==> h !in cl.objects
  {
    var hs := CreateBuffers(cl, count, n).1.value;
    forall i, j | 0 <= i < j < |hs| && hs[i] != NULL ensures hs[i] != hs[j] {
      assert hs[i] == cl.next + i && hs[j] == cl.next + j;
    }
    forall h | h in NonNull(hs) ensures h !in cl.objects {
      var i :| 0 <= i < |hs| && hs[i] != NULL && hs[i] == h;
      assert h == cl.next + i;
    }
  }

  lemma GroupInTable(cl: ClState, g: seq<Handle>, n: nat)
    requires Group(cl, g, n)
    ensures forall h :: h in NonNull(g) ==> h in cl.objects
  {
    forall h | h in NonNull(g) ensures h in cl.objects {
      var k :| 0 <= k < |g| && g[k] != NULL && g[k] == h;
    }
  }

  /** Creating a new group of `n` buffers of `count > 0` elements after the old group was
      dropped succeeds and restores ownership, with the new buffers as the group. */
  lemma AddGroup(cl: ClState, c: Core, imageBytes: nat, g2: seq<Handle>, n2: nat, count: nat, n: nat)
    requires Fixed(cl, c, imageBytes) && Group(cl, g2, n2) && LiveSet(cl) == CoreSet(c) + NonNull(g2)
    requires count > 0
    ensures CreateBuffers(cl, count, n).1.Success?
    ensures Owned(CreateBuffers(cl, count, n).0, c, imageBytes, CreateBuffers(cl, count, n).1.value, count, g2, n2)
  {
    var r := CreateBuffers(cl, count, n);
    FixedAgree(cl, r.0, {}, c, imageBytes);
    GroupAgree(cl, r.0, {}, g2, n2);
    NewGroup(cl, count, n);
    GroupInTable(cl, g2, n2);
    NewLive(cl, r.0, CoreSet(c), NonNull(g2), NonNull(r.1.value));
  }

  /** Fresh handles added to the live set stay apart from the older ones. */
  lemma NewLive(cl: ClState, r: ClState, core: set<Handle>, old2: set<Handle>, fresh2: set<Handle>)
    requires LiveSet(cl) == core + old2 && LiveSet(r) == LiveSet(cl) + fresh2
    requires forall h :: h in fresh2 ==> h !in cl.objects
    requires forall h :: h in old2 ==> h in cl.objects
    ensures fresh2 !! old2 && LiveSet(r) == core + fresh2 + old2
  {
  }

  lemma OwnedSwap(cl: ClState, c: Core, imageBytes: nat, g1: seq<Handle>, n1: nat, g2: seq<Handle>, n2: nat)
    requires Owned(cl, c, imageBytes, g1, n1, g2, n2)
    ensures Owned(cl, c, imageBytes, g2, n2, g1, n1)
  {
  }

  /** Writing `count` cells into one buffer of the first group keeps ownership. */
  lemma WriteMember(cl: ClState, c: Core, imageBytes: nat, g1: seq<Handle>, n1: nat, g2: seq<Handle>, n2: nat,
                    k: nat, cells: seq<Cell>)
    requires Owned(cl, c, imageBytes, g1, n1, g2, n2) && k < |g1| && n1 > 0 && |cells| == n1
    ensures LiveOf(cl, g1[k], BufferObj) && |cells| == |cl.objects[g1[k]].cells|
    ensures Owned(WriteBuffer(cl, g1[k], cells), c, imageBytes, g1, n1, g2, n2)
  {
    var h := g1[k];
    var r := WriteBuffer(cl, h, cells);
    assert h in NonNull(g1);
    CoreNotInGroup(cl, c, imageBytes, g1, n1);
    FixedAgree(cl, r, {h}, c, imageBytes);
    GroupAgree(cl, r, {h}, g2, n2);
  }

  /** Binding a kernel argument other than the image keeps ownership. */
  lemma ArgKeeps(cl: ClState, c: Core, imageBytes: nat, g1: seq<Handle>, n1: nat, g2: seq<Handle>, n2: nat,
                 index: nat, arg: Arg)
    requires Owned(cl, c, imageBytes, g1, n1, g2, n2) && index != 0
    ensures Owned(SetArg(cl, c.kernel, index, arg), c, imageBytes, g1, n1, g2, n2)
  {
    var r := SetArg(cl, c.kernel, index, arg);
    CoreNotInGroup(cl, c, imageBytes, g1, n1);
    CoreNotInGroup(cl, c, imageBytes, g2, n2);
    GroupAgree(cl, r, {c.kernel}, g1, n1);
    GroupAgree(cl, r, {c.kernel}, g2, n2);
  }

  /** A dispatch that succeeds keeps ownership: it only fills the image. */
  lemma DispatchKeeps(cl: ClState, c: Core, imageBytes: nat, g1: seq<Handle>, n1: nat, g2: seq<Handle>, n2: nat,
                      width: nat, height: nat, rendered: seq<Byte>)
    requires Owned(cl, c, imageBytes, g1, n1, g2, n2) && |rendered| == imageBytes
    requires Dispatch(cl, c.image, width, height, rendered).1.Ok?
    ensures Owned(Dispatch(cl, c.image, width, height, rendered).0, c, imageBytes, g1, n1, g2, n2)
  {
    var r := Dispatch(cl, c.image, width, height, rendered).0;
    CoreNotInGroup(cl, c, imageBytes, g1, n1);
    CoreNotInGroup(cl, c, imageBytes, g2, n2);
    GroupAgree(cl, r, {c.image}, g1, n1);
    GroupAgree(cl, r, {c.image}, g2, n2);
  }

  /** Calls that only add to the log (reading the image back, `clFinish`) keep ownership. */
  lemma LogKeeps(cl: ClState, r: ClState, c: Core, imageBytes: nat, g1: seq<Handle>, n1: nat, g2: seq<Handle>, n2: nat)
    requires Owned(cl, c, imageBytes, g1, n1, g2, n2) && r.objects == cl.objects && r.next == cl.next
    ensures Owned(r, c, imageBytes, g1, n1, g2, n2)
  {
    assert LiveSet(r) == LiveSet(cl);
  }

  /** The driver after a constructor has taken the selected device and created a context
      and a command queue for it. The device's creation stands for the `clGetDeviceIDs`
      query that yields it. */
  function Connected(limits: Limits): ClState
  {
    var c1 := NewObject(Initial(limits), DeviceObj, [], []);
    var c2 := NewObject(c1, ContextObj, [], []);
    NewObject(c2, QueueObj, [], [])
  }

  /** The driver calls of a constructor after `Connected`: the output image of
      `width x height`, the program and, when the build succeeds, the kernel are created in
      that order, then the image is bound as kernel argument 0. A failing image creation or
      build ends the sequence (the assert that follows aborts the program); otherwise the
      result names the six objects. */
  function Construct(limits: Limits, width: nat, height: nat, buildSucceeds: bool): (ClState, Result<Core>)
  {
    var c3 := Connected(limits);
    var image := CreateImage(c3, width, height);
    if image.1.Failure? then (image.0, Failure(image.1.error))
    else
      var c5 := NewObject(image.0, ProgramObj, [], []);
      if !buildSucceeds then (c5, Failure(BuildFailure))
      else
        var c6 := NewObject(c5, KernelObj, [], []);
        (SetArg(c6, c5.next, 0, MemArg(image.1.value)), Success(Core(1, 2, 3, image.1.value, image.0.next, c5.next)))
  }

  lemma ConnectedFacts(limits: Limits)
    ensures Wf(Connected(limits)) && Connected(limits).next == 4
    ensures LiveOf(Connected(limits), 1, DeviceObj) && LiveOf(Connected(limits), 2, ContextObj)
    ensures LiveOf(Connected(limits), 3, QueueObj)
    ensures LiveSet(Connected(limits)) == {1, 2, 3}
    ensures Connected(limits).log == [Created(1), Created(2), Created(3)]
    ensures Connected(limits).limits == limits
  {
    var c1 := NewObject(Initial(limits), DeviceObj, [], []);
    var c2 := NewObject(c1, ContextObj, [], []);
    assert c2.log == [Created(1), Created(2)];
  }

  /** The constructor fails exactly when the image would be empty or the build fails, and
      then with the matching error. */
  lemma ConstructOutcome(limits: Limits, width: nat, height: nat, buildSucceeds: bool)
    ensures Construct(limits, width, height, buildSucceeds).1.Failure? <==>
      width == 0 || height == 0 || !buildSucceeds
    ensures Construct(limits, width, height, buildSucceeds).1.Failure? ==>
      Construct(limits, width, height, buildSucceeds).1.error ==
        if width == 0 || height == 0 then InvalidImageDescriptor else BuildFailure
    ensures Construct(limits, width, height, buildSucceeds).1.Success? ==>
      Construct(limits, width, height, buildSucceeds).1.value == Core(1, 2, 3, 4, 5, 6)
  {
    ConnectedFacts(limits);
  }

  lemma ImageBytes(width: nat, height: nat)
    requires width > 0 && height > 0
    ensures width * height * 4 > 0
  {
  }

  /** After a successful construction the six objects are live under handles 1 to 6, with
      the image bound, and nothing else is live. */
  lemma ConstructCore(limits: Limits, width: nat, height: nat)
    requires width > 0 && height > 0
    ensures Fixed(Construct(limits, width, height, true).0, Core(1, 2, 3, 4, 5, 6), width * height * 4)
    ensures LiveSet(Construct(limits, width, height, true).0) == CoreSet(Core(1, 2, 3, 4, 5, 6))
  {
    hide Connected, NewObject, CreateImage, SetArg;
    ConnectedFacts(limits);
    var c3 := Connected(limits);
    var c4 := CreateImage(c3, width, height).0;
    var c5 := NewObject(c4, ProgramObj, [], []);
    var c6 := NewObject(c5, KernelObj, [], []);
    var c7 := SetArg(c6, 6, 0, MemArg(4));
    assert c4.next == 5 && c5.next == 6 && Construct(limits, width, height, true).0 == c7;
    ImageBytes(width, height);
    assert |c4.objects[4].texels| == width * height * 4;
    assert c6.objects[4] == c5.objects[4] == c4.objects[4];
    assert LiveOf(c6, 1, DeviceObj) && LiveOf(c6, 2, ContextObj) && LiveOf(c6, 3, QueueObj);
    assert LiveOf(c6, 5, ProgramObj) && LiveOf(c6, 6, KernelObj);
    assert LiveSet(c6) == {1, 2, 3, 4, 5, 6};
  }

  /** The constructor's driver calls, in order. */
  lemma ConstructLog(limits: Limits, width: nat, height: nat)
    requires width > 0 && height > 0
    ensures Construct(limits, width, height, true).0.log ==
      [Created(1), Created(2), Created(3), Created(4), Created(5), Created(6), ArgSet(0, MemArg(4))]
    ensures Construct(limits, width, height, true).0.limits == limits
  {
    hide Connected;
    var c3 := Connected(limits);
    ConnectedFacts(limits);
    var c4 := CreateImage(c3, width, height).0;
    var c5 := NewObject(c4, ProgramObj, [], []);
    var c6 := NewObject(c5, KernelObj, [], []);
    assert c6.log == [Created(1), Created(2), Created(3), Created(4), Created(5), Created(6)];
  }

  /** A constructed wrapper owns exactly the six objects and no buffer. */
  lemma ConstructOwned(limits: Limits, width: nat, height: nat, buildSucceeds: bool,
                       g1: seq<Handle>, g2: seq<Handle>)
    requires Construct(limits, width, height, buildSucceeds).1.Success?
    requires forall i :: 0 <= i < |g1| ==> g1[i] == NULL
    requires forall i :: 0 <= i < |g2| ==> g2[i] == NULL
    ensures Owned(Construct(limits, width, height, buildSucceeds).0,
                  Construct(limits, width, height, buildSucceeds).1.value, width * height * 4, g1, 0, g2, 0)
  {
    hide Construct;
    ConstructOutcome(limits, width, height, buildSucceeds);
    ConstructCore(limits, width, height);
    assert NonNull(g1) == {};
    assert NonNull(g2) == {};
  }

  /** The driver side of a constructor once a device is found: the calls of `Construct`.
      On success the six objects are owned under handles 1 to 6 and no buffer exists. */
  method Boot(limits: Limits, width: nat, height: nat, buildSucceeds: bool, g1: seq<Handle>, g2: seq<Handle>)
    returns (cl: ClState, r: Result<Core>)
    requires forall i :: 0 <= i < |g1| ==> g1[i] == NULL
    requires forall i :: 0 <= i < |g2| ==> g2[i] == NULL
    ensures r.Failure? <==> width == 0 || height == 0 || !buildSucceeds
    ensures r.Failure? ==> r.error == if width == 0 || height == 0 then InvalidImageDescriptor else BuildFailure
    ensures r.Success? ==> r.value == Core(1, 2, 3, 4, 5, 6) && Owned(cl, r.value, width * height * 4, g1, 0, g2, 0)
    ensures r.Success? ==> cl.limits == limits
    ensures r.Success? ==> cl.log == [Created(1), Created(2), Created(3), Created(4), Created(5), Created(6), ArgSet(0, MemArg(4))]
  {
    var built := Construct(limits, width, height, buildSucceeds);
    ConstructOutcome(limits, width, height, buildSucceeds);
    cl, r := built.0, built.1;
    if r.Success? {
      ConstructOwned(limits, width, height, buildSucceeds, g1, g2);
      ConstructLog(limits, width, height);
    }
  }

  /** The driver side of a resize: the first group's buffers are released once each, then
      `n` buffers of `count` elements are created; a zero count is fatal at the first
      creation. On success the new buffers are owned as the first group. Every older object
      outside the first group, the fixed objects and the other group's buffers included,
      keeps its state and contents. */
  method Regroup(cl: ClState, c: Core, imageBytes: nat, g1: seq<Handle>, n1: nat, g2: seq<Handle>, n2: nat,
                 count: nat, n: nat) returns (r: ClState, hs: Result<seq<Handle>>)
    requires Owned(cl, c, imageBytes, g1, n1, g2, n2) && n > 0
    ensures hs.Failure? <==> count == 0
    ensures hs.Failure? ==> hs.error == InvalidBufferSize
    ensures hs.Success? ==> |hs.value| == n && (forall i :: 0 <= i < n ==> hs.value[i] == cl.next + i)
    ensures hs.Success? ==> Owned(r, c, imageBytes, hs.value, count, g2, n2)
    ensures hs.Success? ==> r.log == cl.log + Releases(g1) + Creations(hs.value)
    ensures r.limits == cl.limits
    ensures Agree(cl, r, NonNull(g1))
  {
    hide Owned, Fixed, Group;
    DropGroup(cl, c, imageBytes, g1, n1, g2, n2);
    DropGroupKeeps(cl, c, imageBytes, g1, n1, g2, n2);
    var dropped := ReleaseEach(cl, g1).value;
    ReleaseEachAgree(cl, g1);
    var created := CreateBuffers(dropped, count, n);
    r, hs := created.0, created.1;
    assert Agree(dropped, r, {});
    AgreeChain(cl, dropped, r, NonNull(g1), {});
    assert NonNull(g1) + {} == NonNull(g1);
    if count > 0 {
      AddGroup(dropped, c, imageBytes, g2, n2, count, n);
    }
  }

  /** The order both destructors release driver objects in: the image, the first group, the
      second group, then the kernel, the program, the queue, the context and the device. */
  function Teardown(c: Core, g1: seq<Handle>, g2: seq<Handle>): (r: seq<Handle>)
    ensures |r| == |g1| + |g2| + 6
  {
    [c.image] + g1 + g2 + [c.kernel, c.program, c.queue, c.context, c.device]
  }

  lemma NonNullAppend(a: seq<Handle>, b: seq<Handle>)
    ensures NonNull(a + b) == NonNull(a) + NonNull(b)
  {
    forall h | h in NonNull(a + b) ensures h in NonNull(a) + NonNull(b) {
      var i :| 0 <= i < |a + b| && (a + b)[i] != NULL && (a + b)[i] == h;
      if i >= |a| {
        assert b[i - |a|] == h;
      }
    }
    forall h | h in NonNull(a) ensures h in NonNull(a + b) {
      var i :| 0 <= i < |a| && a[i] != NULL && a[i] == h;
      assert (a + b)[i] == h;
    }
    forall h | h in NonNull(b) ensures h in NonNull(a + b) {
      var i :| 0 <= i < |b| && b[i] != NULL && b[i] == h;
      assert (a + b)[|a| + i] == h;
    }
  }

  lemma ReleasableAppend(cl: ClState, a: seq<Handle>, b: seq<Handle>)
    requires ReleasableOnce(cl, a) && ReleasableOnce(cl, b) && NonNull(a) !! NonNull(b)
    ensures ReleasableOnce(cl, a + b)
  {
    var ab := a + b;
    forall i | 0 <= i < |ab| && ab[i] != NULL ensures IsLive(cl, ab[i]) {
      if i >= |a| {
        assert ab[i] == b[i - |a|];
      }
    }
    forall i, j | 0 <= i < j < |ab| && ab[i] != NULL ensures ab[i] != ab[j] {
      if j < |a| {
        assert ab[i] == a[i] && ab[j] == a[j];
      } else if i >= |a| {
        assert ab[i] == b[i - |a|] && ab[j] == b[j - |a|];
      } else if b[j - |a|] != NULL {
        assert ab[i] == a[i] && a[i] in NonNull(a);
        assert ab[j] == b[j - |a|] && b[j - |a|] in NonNull(b);
      }
    }
  }

  /** The fixed objects can each be released once: they are live and, having different
      kinds, pairwise different. */
  lemma CoreReleasable(cl: ClState, c: Core, imageBytes: nat)
    requires Fixed(cl, c, imageBytes)
    ensures ReleasableOnce(cl, [c.image]) && ReleasableOnce(cl, [c.kernel, c.program, c.queue, c.context, c.device])
    ensures NonNull([c.image]) == {c.image}
    ensures NonNull([c.kernel, c.program, c.queue, c.context, c.device]) == {c.kernel, c.program, c.queue, c.context, c.device}
  {
    var rest := [c.kernel, c.program, c.queue, c.context, c.device];
    assert forall i :: 0 <= i < |rest| ==> rest[i] != NULL;
    forall h | h in {c.kernel, c.program, c.queue, c.context, c.device} ensures h in NonNull(rest) {
      if h == c.kernel { assert rest[0] == h; }
      else if h == c.program { assert rest[1] == h; }
      else if h == c.queue { assert rest[2] == h; }
      else if h == c.context { assert rest[3] == h; }
      else { assert rest[4] == h; }
    }
    assert [c.image][0] == c.image;
  }

  /** Every live object appears in the teardown order, and each of them once. */
  lemma TeardownReleasable(cl: ClState, c: Core, imageBytes: nat, g1: seq<Handle>, n1: nat, g2: seq<Handle>, n2: nat)
    requires Owned(cl, c, imageBytes, g1, n1, g2, n2)
    ensures ReleasableOnce(cl, Teardown(c, g1, g2)) && NonNull(Teardown(c, g1, g2)) == LiveSet(cl)
  {
    var head, tail := [c.image], [c.kernel, c.program, c.queue, c.context, c.device];
    CoreReleasable(cl, c, imageBytes);
    CoreNotInGroup(cl, c, imageBytes, g1, n1);
    CoreNotInGroup(cl, c, imageBytes, g2, n2);
    NonNullAppend(head, g1);
    NonNullAppend(head + g1, g2);
    NonNullAppend(head + g1 + g2, tail);
    ReleasableAppend(cl, head, g1);
    ReleasableAppend(cl, head + g1, g2);
    ReleasableAppend(cl, head + g1 + g2, tail);
  }

  /** Tearing down an owned state releases every live object exactly once and leaves none
      live. */
  lemma TeardownAll(cl: ClState, c: Core, imageBytes: nat, g1: seq<Handle>, n1: nat, g2: seq<Handle>, n2: nat)
    requires Owned(cl, c, imageBytes, g1, n1, g2, n2)
    ensures ReleaseEach(cl, Teardown(c, g1, g2)).Some?
    ensures LiveSet(ReleaseEach(cl, Teardown(c, g1, g2)).value) == {}
    ensures ReleaseEach(cl, Teardown(c, g1, g2)).value.log == cl.log + Releases(Teardown(c, g1, g2))
  {
    TeardownReleasable(cl, c, imageBytes, g1, n1, g2, n2);
    ReleaseEachOnce(cl, Teardown(c, g1, g2));
  }
}
