# ray-marching-2d, modelled in Dafny

ray-marching-2d is a small SFML/OpenCL program. It draws circles and rectangles that the
user can drag with the mouse, and it renders their distance field on the GPU. It also
sends one ray from a fixed point towards the mouse and "marches" it by sphere tracing:
each step is as long as the distance from the current point to the nearest shape. This
project models the program's core and proves properties of that model.

- **Signed-distance functions and the CPU marcher** (`src/Ray.hpp`).
  - Modules: `Distance`, `HostRay`, `Trajectory`.
  - The circle and box distance formulas are modelled over `real`. The vector length is a
    parameter `len` whose only known laws are `Vectors.LengthLaws`: it is never negative,
    it is zero exactly for the zero vector, and `len(x, 0) = |x|`.
  - The `Ray` class keeps its fields, and `update`/`march` are methods with the source's
    loops. Each method is proved equal to the recursive definition `HostRay.Trace`, whose
    properties are lemmas.
- **The field-sampling marcher** (`src/Ray.cpp`, module `FieldRay`).
  - This ray reads its distance from the red byte of the RGBA8 image the GPU produced.
  - The main proved property is that every pixel read lies inside the
    `WIDTH * HEIGHT * 4` byte buffer.
- **The two compute wrappers** (`src/OCL_SDF.cpp`, `src/OCL_RayMarching.cpp`).
  - Modules: `ClRuntime`, `Ownership`, `GpuState`, `SdfKernel`, `RayMarchingKernel`,
    `DeviceSelect`, `Records`.
  - The OpenCL driver is a table from handles to objects. Each object is live or
    released, with its contents, its kernel-argument bindings and a log of the calls
    made.
  - Every `assert` on a driver result becomes a fatal outcome.
  - Each wrapper is a class. It holds its host arrays as Dafny arrays, its driver state
    as a `GpuState.Gpu` value, and the set of host arrays not yet deleted as a ghost
    field.
  - The central invariant is `Ownership.Owned`: the live driver objects are exactly the
    six fixed ones plus one group of buffers per shape kind. Every operation keeps it,
    so nothing leaks and nothing is released twice.
- **The scene container** (`src/ShapeContainer.hpp`, module `Container`).
  - The random scene generator draws from `rand()`, modelled as a stream of non-negative
    numbers.
  - The mouse-drag state machine `update` is modelled with `holdingShape` as an index
    into `circles` or `rects`.

`WIDTH` and `HEIGHT` come from `defines.hpp`, which is not part of this model. They are
positive constants of unspecified value (`Scene.WIDTH`, `Scene.HEIGHT`).

## Model

| member | source | states |
|---|---|---|
| Scene.Clamp | src/ShapeContainer.hpp:60-63 | `std::clamp` on ints: the result lies in `[lo, hi]`; it is `v` when `v` is in range, `lo` below it and `hi` above it |
| Scene.ClampToWindow | src/Ray.cpp:21-24 | the clamped mouse lies in `[0, WIDTH] x [0, HEIGHT]`, edges included, and a coordinate already in range is kept |
| Distance.SignedDstToCircle | src/Ray.hpp:88-90 | definition of `signedDstToCircle`: the length of `center - p` less `r`; characterised by `Distance.CircleSign` |
| Distance.SignedDstToRectangle | src/Ray.hpp:77-86 | definition of `signedDstToRectangle`: outside term plus inside term of the offset `(|v.x|, |v.y|) - size`; characterised by `Distance.RectangleAtCenter`, `Distance.RectangleRightOfFace` and `Distance.RectangleSign` |
| Distance.CircleSign | src/Ray.hpp:88-90 | the circle distance plus `r` is never negative; it is negative exactly when `p` is closer to the centre than `r`, zero exactly on the circle, and `-r` at the centre |
| Distance.RectangleAtCenter | src/Ray.hpp:77-86 | at the centre of a box with half-extents `hw, hh >= 0` the distance is `-min(hw, hh)` |
| Distance.RectangleRightOfFace | src/Ray.hpp:77-86 | the point `center + (hw + t, 0)` with `t > 0` is exactly `t` away from the box |
| Distance.RectangleSign | src/Ray.hpp:78-85 | the box distance is positive iff `|v.x| > size.x` or `|v.y| > size.y`; when the outside term is non-zero the inside term is 0; otherwise the distance is the inside term and is at most 0 |
| HostRay.SceneMin | src/Ray.hpp:35-44 | definition of one evaluation of the scene: the previous `dstToScene` min-ed with every rectangle, then every circle; characterised by `HostRay.SceneMinIsMinimum` and computed by the loops of `HostRay.MinOverScene` |
| HostRay.RectsMinIsMinimum | src/Ray.hpp:35-39 | the rectangle loop's running minimum is at most its start value and at most every rectangle's distance, and it equals one of them |
| HostRay.CirclesMinIsMinimum | src/Ray.hpp:41-44 | the same for the circle loop |
| HostRay.SceneMinIsMinimum | src/Ray.hpp:35-44 | one evaluation of the scene is at most the previous `dstToScene` and at most the distance to every rectangle and circle |
| HostRay.MinOverScene | src/Ray.hpp:35-44 | the two inner loops compute exactly the running minimum over rectangles, then circles, starting from the previous distance |
| HostRay.Trace | src/Ray.hpp:34-54 | definition of the marching loop, with `dstToScene` carried from step to step; characterised by `HostRay.TraceRadiiNonIncreasing`, `HostRay.TraceProgress` and `HostRay.TraceGeometry`, and computed by `HostRay.Ray.March` |
| HostRay.TraceRadiiNonIncreasing | src/Ray.hpp:32-43 | since `dstToScene` starts at `length` and is never reset, the recorded radii never grow and none exceeds the distance the pass starts from |
| HostRay.TraceProgress | src/Ray.hpp:34-54 | every step but the last is longer than 1, which bounds the loop with no step cap; the travelled length is the sum of the radii; a pass records nothing iff the guard fails at once; the last radius is at most 1 or the target is reached |
| HostRay.TraceGeometry | src/Ray.hpp:46-53 | step `k` is drawn at `origin + direction * (sum of earlier radii)` |
| HostRay.EmptySceneOneStep | src/Ray.hpp:30-54 | with no shapes and `length > 1`, exactly one step of radius `length` is recorded, at the origin |
| HostRay.CircleAheadStopsAtSurface | src/Ray.hpp:30-54 | a concrete pass towards a circle 100 units ahead with radius 20: a step of 80, then a step of 0 at the surface, ending after 80 units |
| HostRay.Ray.constructor | src/Ray.hpp:9-17 | the ray starts at `origin` with no recorded circles |
| HostRay.Ray.Update | src/Ray.hpp:19-27 | `length` is the distance to the mouse and is positive; `direction` is the offset to the mouse divided by `length`; the line runs from the origin to the mouse; the recorded circles are discarded |
| HostRay.Ray.March | src/Ray.hpp:29-57 | the loop appends exactly the steps of `Trace` to `rayCircles`, and the line end becomes `origin + direction * (travelled length)` |
| FieldRay.SampleDistance | src/Ray.cpp:43 | `byte / 255 * WIDTH` lies in `[0, WIDTH]`; it is 0 iff the byte is 0, and `WIDTH` for 255 |
| FieldRay.PixelIndex | src/Ray.cpp:40-42 | definition of the red-byte index `(py * WIDTH + px) * 4` with truncated coordinates; characterised by `FieldRay.PixelIndexInBounds` |
| FieldRay.PixelIndexInBounds | src/Ray.cpp:40-42 | for an on-screen point, `(py * WIDTH + px) * 4` is a multiple of 4, and all four bytes of that pixel lie inside the `WIDTH * HEIGHT * 4` buffer |
| FieldRay.SampledPointOnScreen | src/Ray.cpp:39-42 | a point strictly before the clamped target, on the segment from an on-screen origin, is on screen |
| FieldRay.SampleAt | src/Ray.cpp:40-43 | a sample taken along an aimed ray reads inside the buffer and lies in `[0, WIDTH]` |
| FieldRay.FieldTrace | src/Ray.cpp:39-56 | definition of the counted sampling loop; characterised by `FieldRay.FieldTraceBounds`, `FieldRay.FieldTraceExit` and `FieldRay.FieldTraceGeometry`, and computed by `FieldRay.Ray.March` |
| FieldRay.FieldTraceBounds | src/Ray.cpp:39-55 | every recorded radius lies in `[10, WIDTH]`; at most `maxMarches` steps are taken; `10 * (steps - 1) < length`, so there are at most `ceil(length / 10)` steps; the travelled length is the sum of the radii |
| FieldRay.FieldTraceExit | src/Ray.cpp:39-46 | the march ends because the target length was reached, or `maxMarches` steps ran, or the sample at the stopping point is below 10 (that sample is not recorded) |
| FieldRay.FieldTraceGeometry | src/Ray.cpp:48-55 | step `k` is drawn at `origin + direction * (sum of earlier radii)`, and every recorded step is on screen |
| FieldRay.Ray.constructor | src/Ray.cpp:9-18 | the ray keeps `origin` and `maxMarches` and has no recorded circles |
| FieldRay.Ray.Update | src/Ray.cpp:20-33 | the line ends at the clamped mouse; `length` is its distance from the origin and is positive; `direction` is the offset to it divided by `length`; the recorded circles are discarded; from an on-screen origin the ray is then aimed inside the window |
| FieldRay.Ray.March | src/Ray.cpp:35-59 | every pixel read is in bounds; the loop appends exactly the steps of `FieldTrace` to `rayCircles`; the line end becomes `origin + direction * (travelled length)` |
| Records.Channel | src/OCL_SDF.cpp:174-176 | a colour byte as `b / 255` lies in `[0, 1]`; it is 0 iff `b` is 0 and 1 iff `b` is 255, and scaling by 255 gives the byte back |
| Records.NormalizedInverse | src/OCL_SDF.cpp:174-176 | the normalised colour has channels in `[0, 1]`; two colours normalise alike iff they are equal; black is the only colour that normalises to zero |
| Records.ProjectCircle | src/OCL_SDF.cpp:169-178 | definition of one circle record: position as centre, radius, colour divided by 255; characterised by `Records.CircleRecordCenter` and `Records.NormalizedInverse` |
| Records.ProjectRect | src/OCL_SDF.cpp:195-206 | definition of one rectangle record: centre `position + geometric centre`, half-extents the geometric centre, colour divided by 255; characterised by `Records.RectRecordBox` |
| Records.ProjectCircles | src/OCL_SDF.cpp:165-179 | definition of the circle records, one per circle and in order; the fill loops `SdfKernel.FillCircles` and `RayMarchingKernel.FillCircles` are proved equal to it |
| Records.ProjectRects | src/OCL_SDF.cpp:190-207 | definition of the rectangle records, one per rectangle and in order; the fill loops `SdfKernel.FillRects` and `RayMarchingKernel.FillRects` are proved equal to it |
| Records.RectRecordBox | src/OCL_SDF.cpp:195-206 | the rectangle record `center -/+ sizeFromCenter` spans `[position, position + size]`; its corner is the drawn corner iff the origin is `(0, 0)` |
| Records.CircleRecordCenter | src/OCL_SDF.cpp:169-178 | the circle record's centre is the shape's position, which is the drawn circle's centre iff the origin is `(radius, radius)` |
| DeviceSelect.FirstIn | src/OCL_SDF.cpp:65-73 | the scan of one platform keeps its first qualifying device; there is none iff no device of the platform qualifies |
| DeviceSelect.SelectDevice | src/OCL_SDF.cpp:59-77 | definition of the device the search keeps: the first qualifying device of the last platform that has one; characterised by `DeviceSelect.SelectDeviceChoice` and computed by `DeviceSelect.FindDevice` |
| DeviceSelect.SelectDeviceChoice | src/OCL_SDF.cpp:59-77 | the selected device qualifies and is the first in its platform, and no later platform has a qualifying device; nothing is selected iff no device qualifies |
| DeviceSelect.FindDevice | src/OCL_RayMarching.cpp:58-76 | the nested search loop computes `SelectDevice`: the last platform with a qualifying device wins |
| ClRuntime.Initial | src/OCL_SDF.hpp:42-51 | before any driver call, no object is live and the log is empty |
| ClRuntime.NewObject | src/OCL_SDF.cpp:94-100 | a creation puts a live object under a fresh handle, keeps every older object and adds exactly that handle to the live set |
| ClRuntime.Release | src/OCL_SDF.cpp:267-268 | only a live object can be released; it becomes released, every other object is unchanged, and exactly that handle leaves the live set |
| ClRuntime.ReleaseIfSet | src/OCL_SDF.cpp:267-268 | `if (h) clReleaseMemObject(h)` skips a null handle and succeeds iff the handle is null or live |
| ClRuntime.ReleaseEachOnce | src/OCL_RayMarching.cpp:318-328 | releasing handles that are live and pairwise different succeeds; it releases exactly those handles and logs one release per set handle, in order |
| ClRuntime.ReleaseEachTwice | src/OCL_RayMarching.cpp:324-328 | a sequence that names a set handle twice cannot be released: the second release fails |
| ClRuntime.ReleaseNotLive | src/OCL_RayMarching.cpp:324-328 | a sequence that names a handle already released cannot be released |
| ClRuntime.CreateBuffer | src/OCL_SDF.cpp:247-249 | `clCreateBuffer` fails iff zero bytes are requested, with `CL_INVALID_BUFFER_SIZE` and no change; otherwise a live buffer of `count` unset cells appears under the next handle |
| ClRuntime.CreateBuffers | src/OCL_RayMarching.cpp:274-283 | the creation calls fail iff the count is 0 and at least one buffer is asked for (the first call fails); otherwise `n` live buffers appear under consecutive fresh handles, older objects are unchanged, and one creation per buffer is logged |
| ClRuntime.CreateImage | src/OCL_SDF.cpp:102-117 | `clCreateImage` fails iff a dimension is 0, with `CL_INVALID_IMAGE_DESCRIPTOR`; otherwise a live image of `width * height * 4` bytes appears |
| ClRuntime.WriteBuffer | src/OCL_SDF.cpp:181-183 | a blocking write leaves the buffer holding exactly the host data; every other object and the live set are unchanged |
| ClRuntime.SetArg | src/OCL_SDF.cpp:224-228 | `clSetKernelArg` changes only the binding at that index of that kernel |
| ClRuntime.Refused | src/OCL_SDF.cpp:217-230 | definition of the launches the driver refuses with `CL_INVALID_WORK_GROUP_SIZE`: a 16 x 16 group above the device's maximum, or a side 16 does not divide; used by `ClRuntime.Dispatch` |
| ClRuntime.Dispatch | src/OCL_SDF.cpp:230 | the launch in 16 x 16 groups fails with `CL_INVALID_WORK_GROUP_SIZE` iff the device's maximum work-group size is below 256 or a side is not a multiple of 16 (the kernel is built as OpenCL C 1.x, so groups are uniform); a refused launch changes nothing, otherwise only the image changes |
| ClRuntime.ReadImage | src/OCL_SDF.cpp:231 | definition of the blocking `clEnqueueReadImage`: only the call log changes; `GpuState.ReadBack` states what it delivers |
| ClRuntime.Finish | src/OCL_SDF.cpp:233 | definition of `clFinish`: only the call log changes; `Ownership.LogKeeps` and `GpuState.Await` state that ownership is kept |
| ClRuntime.FreeEach | src/OCL_RayMarching.cpp:306-316 | `if (p) delete[] p` on arrays that are allocated and pairwise different frees exactly them; it never frees anything else |
| Ownership.DropGroup | src/OCL_SDF.cpp:240-242 | releasing one kind's buffers from an owned state succeeds, releases each once, and leaves live only the fixed objects and the other kind's buffers |
| Ownership.DropGroupKeeps | src/OCL_SDF.cpp:240-242 | ... and leaves the fixed objects and the other kind's buffers as they were |
| Ownership.NewGroup | src/OCL_SDF.cpp:244-249 | the buffers created for a non-zero count are live, pairwise different, of `count` elements each, and none of them is an older object |
| Ownership.AddGroup | src/OCL_SDF.cpp:244-249 | creating the new buffers after the old ones were dropped restores ownership, with the new buffers as that kind's group |
| Ownership.WriteMember | src/OCL_SDF.cpp:181-183 | writing a group buffer keeps ownership |
| Ownership.ArgKeeps | src/OCL_SDF.cpp:224-228 | binding an argument other than the image keeps ownership |
| Ownership.DispatchKeeps | src/OCL_SDF.cpp:230 | a successful launch keeps ownership |
| Ownership.LogKeeps | src/OCL_SDF.cpp:231-233 | reading the image back and `clFinish` keep ownership |
| Ownership.Connected | src/OCL_SDF.cpp:94-100 | definition of the driver after the device is taken and the context and command queue are created, in that order; characterised by `Ownership.ConstructOutcome` and `Ownership.ConstructLog` |
| Ownership.Construct | src/OCL_SDF.cpp:94-142 | definition of the constructor's driver calls, with its failure points; characterised by `Ownership.ConstructOutcome`, `Ownership.ConstructCore`, `Ownership.ConstructLog` and `Ownership.ConstructOwned` |
| Ownership.ConstructOutcome | src/OCL_SDF.cpp:102-138 | construction fails iff the image would be empty (`CL_INVALID_IMAGE_DESCRIPTOR`) or the build fails; on success the objects are handles 1 to 6 |
| Ownership.ConstructCore | src/OCL_SDF.cpp:94-142 | after construction the device, context, queue, image, program and kernel are live with their kinds, the image is bound as kernel argument 0, and nothing else is live |
| Ownership.ConstructLog | src/OCL_SDF.cpp:94-142 | the constructor's driver calls, in order: six creations, then the binding of argument 0 to the image |
| Ownership.ConstructOwned | src/OCL_SDF.cpp:94-142 | a constructed wrapper owns exactly the six objects and no buffer |
| Ownership.Boot | src/OCL_SDF.cpp:94-142 | the constructor's driver side: the failure cases and errors as above; on success the wrapper owns the six objects, with the call log above |
| Ownership.Regroup | src/OCL_SDF.cpp:240-250 | a resize releases the old buffers once each and then creates the new ones; it fails iff the count is 0; on success the new buffers are owned and the log is the releases followed by the creations; in every case each other object, the fixed objects and the other group included, keeps its state and contents |
| Ownership.Teardown | src/OCL_SDF.cpp:145-158 | definition of the destructor's release order: image, the shape buffers, kernel, program, queue, context, device; characterised by `Ownership.TeardownReleasable` and `Ownership.TeardownAll` |
| Ownership.TeardownReleasable | src/OCL_SDF.cpp:150-158 | the teardown order names every live object, and each of them once |
| Ownership.TeardownAll | src/OCL_SDF.cpp:150-158 | tearing down an owned state releases every live object exactly once, in teardown order, and leaves none live |
| GpuState.Unbound | src/OCL_SDF.hpp:36-51 | the members before the constructor body runs: null handles, zero counts, nothing live |
| GpuState.Open | src/OCL_SDF.cpp:94-142 | the constructor's driver calls: fatal iff the image would be empty or the build fails; otherwise the six objects are owned and there are no buffers |
| GpuState.ResizeCircles | src/OCL_SDF.cpp:240-250 | the circle buffers are released once each and recreated; the call is fatal iff the count is 0; each object other than the old circle buffers keeps its state and contents; on success ownership holds, the rectangle handles are unchanged and their buffers keep their contents, and the new handles are fresh |
| GpuState.ResizeRects | src/OCL_SDF.cpp:252-262 | the same for the rectangle buffers |
| GpuState.WriteCircles | src/OCL_SDF.cpp:181-183 | the blocking write leaves that circle buffer holding the cells; nothing else changes and ownership holds |
| GpuState.WriteRects | src/OCL_SDF.cpp:209-211 | the same for a rectangle buffer |
| GpuState.Bind | src/OCL_SDF.cpp:224-228 | only the kernel's binding at that index changes; ownership holds |
| GpuState.Launch | src/OCL_SDF.cpp:230 | fatal iff the device refuses the 16 x 16 group: its maximum work-group size is below 256, or a side is not a multiple of 16; otherwise only the image changes, to what the kernel rendered |
| GpuState.ReadBack | src/OCL_SDF.cpp:231 | the blocking read delivers the image's `width * height * 4` bytes and changes no object |
| GpuState.Await | src/OCL_SDF.cpp:233 | `clFinish` changes no object |
| GpuState.Close | src/OCL_SDF.cpp:150-158 | the destructor's driver calls release every live object exactly once, in teardown order, and leave none live |
| SdfKernel.FillCircles | src/OCL_SDF.cpp:165-179 | after the copy loop, element `i` of the host array is the record (position, radius, colour / 255) of circle `i` |
| SdfKernel.FillRects | src/OCL_SDF.cpp:190-207 | after the copy loop, element `i` is the record (position + geometric centre, geometric centre, colour / 255) of rectangle `i` |
| SdfKernel.Render | src/OCL_SDF.cpp:214-234 | arguments 1 to 4 become the circle buffer, the circle count, the rectangle buffer and the rectangle count; the call log is those bindings, the launch, the read-back and `clFinish`; only the kernel and the image change, so both shape buffers keep their contents; the image read back is what the kernel rendered |
| SdfKernel.OclSdf.Init | src/OCL_SDF.cpp:29-30 | the pixel buffer holds `width * height * 4` bytes; handles are null and counts are 0 |
| SdfKernel.OclSdf.Create | src/OCL_SDF.cpp:29-143 | the constructor fails iff no GPU qualifies, the image would be empty or the build fails (with the matching error); otherwise the selected device is `SelectDevice`'s, the driver holds exactly the six objects, and the invariant holds |
| SdfKernel.OclSdf.ClearHostCircles | src/OCL_SDF.cpp:264 | the circle array, if set, is deleted |
| SdfKernel.OclSdf.ClearHostRectangles | src/OCL_SDF.cpp:265 | the rectangle array, if set, is deleted |
| SdfKernel.OclSdf.CreateCirclesBuffer | src/OCL_SDF.cpp:240-250 | the old host array and buffer are freed once each and replaced by fresh ones of `count` elements; the call is fatal iff `count == 0`; the invariant holds; every other driver object keeps its state, and the rectangle buffer keeps its handle and contents |
| SdfKernel.OclSdf.CreateRectsBuffer | src/OCL_SDF.cpp:252-262 | the same for rectangles |
| SdfKernel.OclSdf.UpdateCirclesBuffer | src/OCL_SDF.cpp:161-184 | the circle storage is recreated iff the count changed or no buffer exists (so an empty scene is fatal), otherwise the same handle and host array are kept; afterwards the count is `|circles|`, the host array holds the records, and the device buffer holds the same records; the call log is the write (after the release and creation on a resize); every object other than the circle buffer, the rectangle buffer included, keeps its contents |
| SdfKernel.OclSdf.UpdateRectsBuffer | src/OCL_SDF.cpp:186-212 | the same for rectangles |
| SdfKernel.OclSdf.Run | src/OCL_SDF.cpp:214-234 | `run` binds arguments 1 to 4 in order, launches over `width x height` in 16 x 16 groups (fatal when the device's limits refuse that group, as for `ClRuntime.Dispatch`), and reads back exactly `width * height * 4` bytes into `pixels`; only the kernel and the image change, and both shape buffers keep their contents |
| SdfKernel.OclSdf.Dispose | src/OCL_SDF.cpp:145-159 | the pixels and host arrays are deleted; the image, the buffers, the kernel, the program, the queue, the context and the device are released once each, in that order; nothing stays live |
| RayMarchingKernel.CirclePartsJoin | src/OCL_RayMarching.cpp:166-182 | the three circle arrays (centres, radii, colours) together give back the distance-field wrapper's circle records |
| RayMarchingKernel.RectPartsJoin | src/OCL_RayMarching.cpp:200-221 | the three rectangle arrays together give back the rectangle records |
| RayMarchingKernel.FillCircles | src/OCL_RayMarching.cpp:166-182 | after the copy loop, centres, radii and colours at `i` all come from circle `i` |
| RayMarchingKernel.FillRects | src/OCL_RayMarching.cpp:200-221 | after the copy loop, centres, half-extents and colours at `i` all come from rectangle `i` |
| RayMarchingKernel.WriteCircleParts | src/OCL_RayMarching.cpp:184-192 | the three blocking writes, in order, leave each circle buffer holding its host array; the log is the three writes and every other object is unchanged |
| RayMarchingKernel.WriteRectParts | src/OCL_RayMarching.cpp:223-231 | the same for the rectangle buffers |
| RayMarchingKernel.BindShapes | src/OCL_RayMarching.cpp:244-252 | per shape kind: three buffer bindings at consecutive indices, then the count |
| RayMarchingKernel.BindRun | src/OCL_RayMarching.cpp:244-254 | `run(k)` binds arguments 1 to 9 in fixed order: circle buffers 1 to 3, `numCircles` at 4, rectangle buffers 5 to 7, `numRects` at 8, `k` at 9; only the kernel changes |
| RayMarchingKernel.Render | src/OCL_RayMarching.cpp:234-260 | the nine bindings, then the launch (fatal exactly as for the other wrapper), the read-back and `clFinish`; only the kernel and the image change, so all six shape buffers keep their contents; the image read back is what the kernel rendered |
| RayMarchingKernel.ReleaseRectsAsWritten | src/OCL_RayMarching.cpp:286-288 | definition of the driver side of `createRectsBuffer` as written: the rectangle buffers released in two rounds of `clearGpuRects()`; shown to fail by `RayMarchingKernel.DoubleReleaseAsWritten` and `RayMarchingKernel.AsWrittenOnWrapper` |
| RayMarchingKernel.HostAfterRectsAsWritten | src/OCL_RayMarching.cpp:286-293 | definition of the host side of `createRectsBuffer` as written: the three new arrays join the live set and no old one leaves it; shown to leak by `RayMarchingKernel.LeakAsWritten` and `RayMarchingKernel.LeakOnWrapper` |
| RayMarchingKernel.DoubleReleaseAsWritten | src/OCL_RayMarching.cpp:286-288 | the code as written: releasing the rectangle buffers once would succeed, but the two `clearGpuRects()` calls release a set buffer a second time; that already-freed handle is undefined in OpenCL, and the model has the driver refuse it |
| RayMarchingKernel.LeakAsWritten | src/OCL_RayMarching.cpp:286-293 | the code as written: an old rectangle array stays allocated after the resize, while the freeing the code omits would have removed it |
| RayMarchingKernel.AsWrittenOnWrapper | src/OCL_RayMarching.cpp:286-288 | the code as written, on a wrapper that satisfies its invariant and holds rectangle buffers (any resize after the first): the two rounds of `clearGpuRects()` fail at the second release |
| RayMarchingKernel.LeakOnWrapper | src/OCL_RayMarching.cpp:286-293 | the code as written, on such a wrapper: the old rectangle array is still allocated next to the three fresh ones, so the storage invariant fails for the new arrays |
| RayMarchingKernel.NewCircleArrays | src/OCL_RayMarching.cpp:271-273 | three fresh host arrays of `count` elements each |
| RayMarchingKernel.NewRectArrays | src/OCL_RayMarching.cpp:291-293 | three fresh host arrays of `count` elements each, the two vector arrays being different arrays |
| RayMarchingKernel.OclRayMarching.Init | src/OCL_RayMarching.cpp:28-29 | the pixel buffer holds `width * height * 4` bytes; all six host arrays are null, handles are null and counts are 0 |
| RayMarchingKernel.OclRayMarching.Create | src/OCL_RayMarching.cpp:28-142 | the constructor fails iff no GPU qualifies, the image would be empty or the build fails; otherwise the driver holds exactly the six objects and the invariant holds |
| RayMarchingKernel.OclRayMarching.ClearHostCircles | src/OCL_RayMarching.cpp:306-310 | each circle array that is set is deleted |
| RayMarchingKernel.OclRayMarching.ClearHostRects | src/OCL_RayMarching.cpp:312-316 | each rectangle array that is set is deleted |
| RayMarchingKernel.OclRayMarching.CreateCirclesBuffer | src/OCL_RayMarching.cpp:266-284 | the old circle arrays and buffers are freed once each; three fresh arrays and three fresh buffers of `count` elements replace them, so all six have equal lengths; the call is fatal iff `count == 0`; every other driver object keeps its state, and the rectangle buffers keep their handles and contents |
| RayMarchingKernel.OclRayMarching.CreateRectsBuffer | src/OCL_RayMarching.cpp:286-304 | the corrected resize of the rectangle storage: old arrays deleted and old buffers released once each, as for circles, with the circle buffers kept (see Findings) |
| RayMarchingKernel.OclRayMarching.PrepareCircles | src/OCL_RayMarching.cpp:162-164 | the head of `updateCirclesBuffer`: storage is recreated iff the count changed or no buffer exists; otherwise the wrapper is unchanged; the rectangle buffers keep their handles and contents |
| RayMarchingKernel.OclRayMarching.PrepareRects | src/OCL_RayMarching.cpp:196-198 | the same for rectangles |
| RayMarchingKernel.OclRayMarching.LoadCircles | src/OCL_RayMarching.cpp:166-192 | the copy loop and the three writes: the host arrays and the buffers hold the centres, radii and colours; the log is the three writes; every other object and the rectangle arrays are unchanged |
| RayMarchingKernel.OclRayMarching.LoadRects | src/OCL_RayMarching.cpp:200-231 | the same for rectangles |
| RayMarchingKernel.OclRayMarching.UpdateCirclesBuffer | src/OCL_RayMarching.cpp:161-193 | the circle storage is recreated iff the count changed or no buffer exists (so an empty scene is fatal): with the count unchanged the same three handles and arrays are kept and the log is the three writes; on a resize all three arrays are fresh, the handles are the next three, and the log is the releases, the creations and the writes; afterwards `numCircles == |circles|`, the three host arrays and buffers hold the centres, radii and colours, and every rectangle buffer and array keeps its contents |
| RayMarchingKernel.OclRayMarching.UpdateRectsBuffer | src/OCL_RayMarching.cpp:195-232 | the same for rectangles |
| RayMarchingKernel.OclRayMarching.Run | src/OCL_RayMarching.cpp:234-260 | after `run(k)` the kernel arguments are `RunArgs`; the call log is the nine bindings, the launch, the read-back and `clFinish`; `pixels` holds exactly the rendered image; only the kernel and the image change, and all six shape buffers keep their contents |
| RayMarchingKernel.OclRayMarching.Dispose | src/OCL_RayMarching.cpp:144-159 | all host arrays are deleted; the image, all buffers, the kernel, the program, the queue, the context and the device are released once each, in that order; nothing stays live |
| Container.RandBetween | src/ShapeContainer.hpp:111-113 | `rand() % (max - min + 1) + min` lies in `[min, max]` and is `min + x` for a small enough draw `x` |
| Container.RandPos | src/ShapeContainer.hpp:115-117 | a whole-pixel point of `[0, WIDTH) x [0, HEIGHT)` |
| Container.RandPosCovers | src/ShapeContainer.hpp:115-117 | every whole-pixel point of the window can be drawn |
| Container.RandColor | src/ShapeContainer.hpp:119-121 | each channel is its draw modulo 256, in red, green, blue order |
| Container.RandColorCovers | src/ShapeContainer.hpp:119-121 | every colour can be drawn |
| Container.CircleAt | src/ShapeContainer.hpp:17-24 | a generated circle has radius in `[10, 80]`, an in-window position and origin `(0, 0)` |
| Container.RectAt | src/ShapeContainer.hpp:29-35 | a generated rectangle has sides in `[50, 100]`, an in-window position and origin `(0, 0)` |
| Container.WallAt | src/ShapeContainer.hpp:40-55 | a wall is black and placed in the window; it is upright (`[10, 30] x [500, 700]`) unless the last draw exceeds 50, when it is turned sideways |
| Container.Circles | src/ShapeContainer.hpp:16-25 | the circle loop makes exactly `n` circles |
| Container.Rects | src/ShapeContainer.hpp:28-36 | the rectangle loop makes exactly `n` rectangles |
| Container.Walls | src/ShapeContainer.hpp:38-56 | the wall loop makes exactly `n` walls |
| Container.GeneratedAt | src/ShapeContainer.hpp:14-56 | element `i` of each run is made from the draws of its turn |
| Container.GeneratedBounds | src/ShapeContainer.hpp:14-57 | every generated circle, rectangle and wall satisfies its size, colour and placement bounds |
| Container.GeneratedKinds | src/ShapeContainer.hpp:14-57 | `circles` holds circles only and `rects` holds rectangles only |
| Container.PushCircles | src/ShapeContainer.hpp:16-25 | the loop appends exactly the generated circles and consumes six draws per circle; a negative count runs no iteration |
| Container.PushRects | src/ShapeContainer.hpp:28-36 | the same for rectangles, with seven draws each |
| Container.PushWalls | src/ShapeContainer.hpp:38-56 | the same for walls, with five draws each |
| Container.FirstUnder | src/ShapeContainer.hpp:66-75 | the search stops at the first shape whose bounds contain the mouse; there is none iff no shape contains it |
| Container.Grabbed | src/ShapeContainer.hpp:68-72 | a grab puts the position at the mouse and the origin at the offset from the old position, so the shape is drawn at its old position; kind and size are kept |
| Container.Released | src/ShapeContainer.hpp:91-97 | a release resets the origin to `(0, 0)` and keeps where the shape is drawn, and its bounds |
| Container.MovedTo | src/ShapeContainer.hpp:88-89 | a held shape follows the mouse: only its position changes |
| Container.CircleGrab | src/ShapeContainer.hpp:66-75 | definition of the circle search of a grab: the first circle under the mouse is grabbed and held; characterised by `Container.GrabSelects` |
| Container.GrabStep | src/ShapeContainer.hpp:65-86 | definition of a grab: the circle search, then the rectangle search that runs regardless; characterised by `Container.GrabSelects` and `Container.CircleKeepsGrabOrigin`, and computed by `Container.ShapeContainer.GrabAt` |
| Container.MoveStep | src/ShapeContainer.hpp:88-89 | definition of a move: the held shape takes the mouse as position; characterised by `Container.MoveOnlyHeld` |
| Container.ReleaseStep | src/ShapeContainer.hpp:90-98 | definition of a release: the held shape is released and nothing is held; characterised by `Container.ReleaseKeepsScene` |
| Container.Step | src/ShapeContainer.hpp:59-101 | `update` keeps both vectors' lengths and kinds, keeps the held index valid, and holds nothing after a release |
| Container.GrabSelects | src/ShapeContainer.hpp:65-86 | a grab holds the first rectangle under the mouse if there is one, else the first circle, else nothing and changes nothing; a shape with origin `(0, 0)` keeps its drawn location; no shape other than the first one under the mouse changes |
| Container.CircleKeepsGrabOrigin | src/ShapeContainer.hpp:65-98 | when a circle and a rectangle are both under the mouse, the rectangle is held and the circle keeps its grab origin through the later release |
| Container.RegrabShifts | src/ShapeContainer.hpp:68-72 | grabbing a shape whose origin is not `(0, 0)` moves where it is drawn, by that origin |
| Container.MoveOnlyHeld | src/ShapeContainer.hpp:88-89 | while holding, only the held shape changes, to the mouse position with its origin kept |
| Container.ReleaseKeepsScene | src/ShapeContainer.hpp:90-99 | a release keeps every shape's drawn location, resets the held one's origin and holds nothing |
| Container.ShapeContainer.Init | src/ShapeContainer.hpp:7-12 | empty vectors, shapes shown, nothing held |
| Container.ShapeContainer.Generate | src/ShapeContainer.hpp:14-57 | `circles` becomes the generated circles; `rects` becomes the generated rectangles followed by the walls; the next free draw is returned |
| Container.ShapeContainer.GrabAt | src/ShapeContainer.hpp:65-86 | the two search loops of a press with nothing held compute exactly the grab step |
| Container.ShapeContainer.Update | src/ShapeContainer.hpp:59-101 | `update` is exactly one step of the drag machine at the clamped mouse |

## Left out

- Rendering and I/O are not modelled: `draw` (both rays and the container), `getPixels`,
  `showShapes`, printing of platform and device information, the work-item queries and
  `readFile`. The kernel source file and the program build are one `buildSucceeds` flag.
- The kernels `calcSDF` and `renderSDF` are not modelled. The bytes they produce are the
  parameter `rendered`, and nothing is claimed about them.
- The window, event loop, shader pass and FPS title of `src/main.cpp` are not part of this
  model. That file only supplies the ray origin `(20, 20)`, used to justify `FieldRay.Aimed`.
- Floating point is not modelled: reals replace `float`, and the vector length is a
  parameter with three laws instead of `sqrt`.
- Ownership.Connected: the device is modelled as a driver object that the constructor
  creates and the destructor releases, like the others. In the program the device comes from
  the `clGetDeviceIDs` query (src/OCL_SDF.cpp:62), and `clReleaseDevice` on a root device
  leaves its reference count unchanged (src/OCL_SDF.cpp:158). So the device's creation and
  release events in `Ownership.ConstructLog`, `Ownership.TeardownAll` and the wrappers'
  `Dispose` stand for that query and for a release with no effect.
- The device's launch limit is a parameter of the driver (`ClRuntime.Limits`), read once
  at construction: `CL_DEVICE_MAX_WORK_GROUP_SIZE`, which the source prints and never
  compares with 256. Work-groups are always uniform: `clBuildProgram` gets no options
  (src/OCL_SDF.cpp:127, src/OCL_RayMarching.cpp:126), so the kernel is compiled as
  OpenCL C 1.x even on an OpenCL 2.0 platform, and section 5.8 of OpenCL 1.2 then demands
  that 16 divide both sides of the grid.
- ClRuntime.CreateBuffer: the driver never runs out of memory. `CL_MEM_OBJECT_ALLOCATION_FAILURE`,
  `CL_OUT_OF_RESOURCES`, `CL_OUT_OF_HOST_MEMORY` and sizes above
  `CL_DEVICE_MAX_MEM_ALLOC_SIZE` are not modelled. So "fatal iff the count is 0" in
  `CreateBuffers`, `Ownership.Regroup`, `GpuState.ResizeCircles`, `GpuState.ResizeRects`
  and both wrappers' `Create*Buffer` and `Update*Buffer` holds only for a device with
  memory to spare. `ClRuntime.CreateImage` makes the same assumption for images.
- ClRuntime.Dispatch: only `CL_INVALID_WORK_GROUP_SIZE` is modelled. The per-dimension limit
  `CL_DEVICE_MAX_WORK_ITEM_SIZES` (`CL_INVALID_WORK_ITEM_SIZE`) and the driver's
  resource errors are not: the model assumes 16 items per dimension are always allowed
  and that a launch the limits accept succeeds.
- Assertions are always active. A build with `NDEBUG`, where a failed driver call goes on
  silently, is not modelled.
- C++ leaves the evaluation order of a call's arguments unspecified. The model draws
  `rand()` values for `randPos`, `randColor` and a rectangle's size from left to right.
  `RAND_MAX` and signed overflow of `max - min + 1` are not modelled.
- The device search's arrays are capped at 64 platforms and 64 devices. This cap is not
  modelled: the platform list is the parameter `platforms`, which says per device whether
  it is a GPU whose vendor query succeeds.
- `src/OCL_RayMarching.hpp` declares fewer members than `src/OCL_RayMarching.cpp` uses (no
  colour arrays, `run()` without `k`). The model follows the `.cpp`. `src/Ray.hpp` and
  `src/Ray.cpp` declare two different `Ray` classes, so each is modelled on its own
  (`HostRay`, `FieldRay`). `src/main.cpp` calls `generate` with two arguments, while
  `src/ShapeContainer.hpp` defines three; the model follows the header.
- The constructors of both rays leave `length` indeterminate, as the source's uninitialised
  `float length` is. A `march` before the first `update` reads that value; the model says
  nothing about the resulting trajectory beyond what holds for every length.
- `HostRay.Ray.Update` and `FieldRay.Ray.Update` require the (clamped) mouse to differ from
  the origin. At that point the source divides by a zero length and gets NaN, which reals
  cannot express.
- `FieldRay.Ray.March` requires the ray to be aimed: an on-screen origin and a target in
  the window. `Update` from the origin `(20, 20)` of `src/main.cpp` establishes this.
  Otherwise `static_cast<size_t>` of a negative coordinate reads outside the buffer.
- `Container.ShapeContainer.Generate` requires that no shape is held. Regenerating while
  one is held leaves `holdingShape` dangling into the cleared vectors, which the index
  model cannot represent.
- `RayMarchingKernel.OclRayMarching.CreateCirclesBuffer` and `CreateRectsBuffer` do not
  model the host `delete[]` calls one by one. The set of live circle (or rectangle)
  arrays is replaced as a whole, and `FreeEach` states the one-by-one frees separately.
- In the source, the old host array of `createCirclesBuffer` is deleted before the buffer
  is recreated. The model allocates the host array after the driver calls; no observable
  state depends on this order.
- Counts are `nat`. The narrowing of `circles.size()` to `int` is not modelled.

## Findings

| source | as written | input that shows it | evidently intended | confidence | as-written member | corrected member |
|---|---|---|---|---|---|---|
| src/OCL_RayMarching.cpp:286-288 | `createRectsBuffer` calls `clearGpuRects()` twice and `clearHostRects()` never; the clear helpers do not null the handles | a second `updateRectsBuffer` with a different number of rectangles: the three old rectangle buffers are released twice, and the three old host arrays are never deleted | `clearHostRects(); clearGpuRects();`, as `createCirclesBuffer` does | high (not executed) | RayMarchingKernel.DoubleReleaseAsWritten, RayMarchingKernel.LeakAsWritten, RayMarchingKernel.AsWrittenOnWrapper, RayMarchingKernel.LeakOnWrapper | RayMarchingKernel.OclRayMarching.CreateRectsBuffer |
