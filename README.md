# mirv: a Vulkan 1.0 layer over Direct3D 12, modelled in Dafny

mirv exposes part of the Vulkan 1.0 API and implements it on top of Direct3D 12. An
application calls the exported entrypoints:

- `vkCreateInstance`;
- the layer and extension enumerations;
- `vkEnumeratePhysicalDevices`;
- the physical-device property and queue-family queries;
- `vkCreateDevice`;
- `vkGetDeviceQueue`.

Behind them:

- A `MirvInstance` lazily probes its platform backends. A `MirvInstanceBackend_D12` turns each
  usable DXGI adapter (one whose two probes both succeed) into a `MirvPhysicalDevice_D12` with Vulkan-style properties and three fixed
  queue families.
- A `MirvDevice_D12` creates native command queues family by family.
- Every object is intrusively reference counted (`RefCounted`) and owned through the smart
  pointer `rp<T>`.
- Every enumeration uses the two-phase "query the count, then fill the buffer" copy.

The model, file by file:

- `vk_types.dfy` (module `VkTypes`): the Vulkan types, constants and `VkResult` codes the layer
  uses.
- `array_copy.dfy` (module `ArrayCopy`): the two-phase copy, as a method over a Dafny `array`.
- `ref_counting.dfy` (module `RefCounting`): a class `Heap` that holds every object's count and
  every `rp` cell, with the ownership invariant `Balanced`. Each object's count equals the
  number of cells holding it.
- `d3d12.dfy` (module `D3D12`): the Direct3D 12 backend.
  - Adapters become physical devices (driver version, device type, device name, queue
    families).
  - `MirvDevice_D12::CreateQueues` and `MirvPhysicalDevice_D12::CreateDevice` are methods on
    classes `Device` and `PhysicalDevice`. Each is proved against a specification function
    (`CreateQueuesOutcome`, `AddAllQueues`).
- `instances.dfy` (module `Instances`): `MirvInstance::EnsureBackends` and
  `EnsurePhysicalDevices` as methods of class `Instance`.
- `entrypoints.dfy` (module `Entrypoints`): the exported entrypoints over a handle table.
  - The table is a class `Handles` holding a map from handle to object.
  - An out-pointer is modelled by its value before and after the call.
  - An out-array is an `array?` whose `null` is the null pointer.

Native DXGI and D3D12 calls are parameters:

- An `Adapter` carries the outcomes of `CheckInterfaceSupport` and `GetDesc1`.
- `D3D12CreateDevice` is an `Option<NativeDevice>`.
- `CreateCommandQueue` is a `QueueFactory`: the outcome of the call that makes queue `i` of
  family `f` with type `t`.
- The three backend constructors are the `Backend?` values they return.

Two behaviours of the code are worth stating up front:

- `CreateDevice` accepts an empty list of queue requests and creates a device with no queues
  (mirv_d12.cpp:247-255).
- `vkEnumeratePhysicalDevices` reads the instance's device list without calling
  `EnsurePhysicalDevices` first (mirv_entrypoints.cpp:91-100).

## Model

| member | source | states |
|---|---|---|
| VkTypes.Code | mirv.h:18 | the numeric code is 0 exactly for success and negative exactly for the error results (`VK_ERROR_NOT_IMPLEMENTED` is -2000*1000*1000) |
| ArrayCopy.CopyOut | mirv.h:20-39 | null buffer: success and the source size, truncated to 32 bits, nothing written; `*out_count` below the size: `VK_INCOMPLETE`, count unchanged; otherwise success and the size; in both buffer cases exactly the first count elements equal the source, in order, and every later slot is untouched |
| RefCounting.HoldersUpdate | mirv.h:83-96 | overwriting one `rp` cell changes the holders of each object by exactly what leaves and what enters that cell |
| RefCounting.HoldersAppend | mirv.h:99-130 | a new `rp` cell adds one holder to its referent and none to any other object |
| RefCounting.HoldersPositive | mirv.h:45-72 | an object held by some `rp` has at least one holder |
| RefCounting.HoldersMatchIsBalanced | mirv.h:45-72 | when every count equals the number of holders, every pointer held by an `rp` is alive with a positive count |
| RefCounting.SwapCounts | mirv.h:83-96 | `rp::Swap` moves each object's count by exactly what enters and leaves the cell: one AddRef of the new referent and one Release of the old |
| RefCounting.SwapKeepsBalance | mirv.h:83-96 | `rp::Swap` preserves the ownership invariant (counts equal holders; no `rp` holds a destroyed object) |
| RefCounting.SwapSamePointer | mirv.h:83-96 | because the new pointer is retained before the old one is released, storing into an `rp` the pointer it already holds leaves the whole heap as it was |
| RefCounting.ReleaseFirstDestroysSoleReferent | mirv.h:88-95 | had Swap released before retaining, self-assignment on the only holder would destroy the object |
| RefCounting.HoldersExchange | mirv.h:168-172 | exchanging the pointers of two cells changes no object's holder count |
| RefCounting.Heap.NewObject | mirv.h:50-52 | a new `RefCounted` object starts alive with count 0 |
| RefCounting.Heap.AddRef | mirv.h:57-61 | the count goes up by exactly one and nothing else changes |
| RefCounting.Heap.Release | mirv.h:63-71 | the count goes down by one; the object is destroyed (removed from the heap) exactly when the count was 1, and stays alive otherwise |
| RefCounting.Heap.Swap | mirv.h:83-96 | the new heap is `Swapped` of the old one (retain new, store, release old), and the ownership invariant holds |
| RefCounting.Heap.NewNull | mirv.h:99-105 | `rp()` and `rp(nullptr)` add a null cell and change no count |
| RefCounting.Heap.NewFrom | mirv.h:118-130 | `rp(U*)` adds a cell holding the pointer and retains it once |
| RefCounting.Heap.NewCopy | mirv.h:107-111 | copy construction adds a cell with the source's referent and exactly one more reference to it |
| RefCounting.Heap.NewMove | mirv.h:112-116 | move construction adds a cell with the source's referent, nulls the source and changes no count |
| RefCounting.Heap.Destroy | mirv.h:141-144 | `~rp` releases the referent exactly once and leaves the cell null |
| RefCounting.Heap.AssignRaw | mirv.h:148-153 | assignment from a raw pointer is a Swap |
| RefCounting.Heap.Assign | mirv.h:163-167 | copy assignment is a Swap with the source's pointer; when both cells hold the same pointer (including self-assignment) nothing changes |
| RefCounting.Heap.MoveAssign | mirv.h:168-172 | move assignment exchanges the two cells' pointers and changes no count |
| RefCounting.Heap.AsOutVar | mirv.h:179-185 | `asOutVar` releases the referent, leaves the cell null and hands out that same cell without taking a reference |
| D3D12.BaseProperties | mirv.h:307-314 | the base properties are all zero except `apiVersion`, which is Vulkan 1.0; the name is 256 NULs |
| D3D12.DriverVersion | mirv_d12.cpp:82-86 | the high part (as unsigned) when it is nonzero, otherwise the low part |
| D3D12.DeviceType | mirv_d12.cpp:90-96 | CPU exactly when the software flag is set, whatever the memory; otherwise discrete exactly when there is dedicated memory and integrated exactly when there is none |
| D3D12.UntilNul | mirv_d12.cpp:98-99 | the result is the prefix before the first NUL: a prefix of the input with no NUL, followed by a NUL or the end |
| D3D12.UntilNulIs | mirv_d12.cpp:98-101 | any NUL-free prefix that is followed by a NUL or the end is what UntilNul keeps |
| D3D12.StrNCpy | mirv_d12.cpp:101 | `strncpy` gives exactly n bytes: the source's characters up to its NUL, then NULs |
| D3D12.DeviceName | mirv_d12.cpp:98-101 | the name has 256 bytes with a NUL at index 255, and as a C string it is the narrowed description cut to at most 255 characters |
| D3D12.D12QueueFamilies | mirv_d12.cpp:216-228 | exactly three families (graphics, compute, transfer, in that order), each with `UINT32_MAX` queues, no timestamps and a 1x1x1 granularity |
| D3D12.TransferFamilyExists | test_vulkan.cpp:51-54 | some D3D12 family supports transfers, as the end-to-end test needs |
| D3D12.CommandListTypeFor | mirv_d12.cpp:292-303 | graphics gives DIRECT, compute gives COMPUTE, transfer gives COPY (each an if-and-only-if); any other value has no type (the abort) |
| D3D12.D12FamiliesMapped | mirv_d12.cpp:216-228 | every D3D12 family's flags name a command-list type, so queue creation never aborts |
| D3D12.CreatedQueues | mirv_d12.cpp:305-316 | the loop's queues: at most `queueCount`, the i-th made by the i-th native call, of the family's type, and fewer only when the next call failed |
| D3D12.CreatedQueuesStop | mirv_d12.cpp:309-311 | after the first failing native call no further queue is added |
| D3D12.CreateQueuesOutcome | mirv_d12.cpp:276-317 | an out-of-range or already-present family fails and changes nothing; otherwise the family is added with the queues made, with no rollback; success exactly when every native call succeeded |
| D3D12.AddAllQueues | mirv_d12.cpp:247-253 | success or initialization failure; existing families are kept; on success every request's family is in range, not present before, distinct from the others, and holds exactly `queueCount` queues |
| D3D12.RequestedFamilies | mirv_d12.cpp:247-249 | the set of family indices a request list names: every request's index is in it, and each member is some request's index |
| D3D12.AddAllQueuesKeys | mirv_d12.cpp:247-253 | after a successful run the family map holds exactly the families present before and the requested ones, no other |
| D3D12.AddAllQueuesSucceeds | mirv_d12.cpp:247-255 | requests for distinct families, each in range, not yet present and with every native call succeeding, make the whole run succeed (the converse of the success clauses of AddAllQueues) |
| D3D12.AddAllQueuesContents | mirv_d12.cpp:247-253 | after a successful run, each requested family holds exactly the queues its request made, in creation order |
| D3D12.TransferQueueRequest | test_vulkan.cpp:56-70 | the test's single-queue transfer request on a D3D12 device succeeds when its native call does, leaving exactly that queue, of the copy type, in family 2 |
| D3D12.PhysicalDevice.constructor | mirv_d12.cpp:77-101 | the base defaults, then the driver version, vendor and device ids, device type and name of the adapter |
| D3D12.PhysicalDevice.CreateDevice | mirv_d12.cpp:233-256 | a native device failure gives `VK_ERROR_INITIALIZATION_FAILED`; otherwise the first failing request's result; a device is handed out exactly on success, with the queues AddAllQueues describes |
| D3D12.Device.constructor | mirv.cpp:52-54 | the device keeps its physical device as back-reference and starts with no queues |
| D3D12.Device.CreateQueues | mirv_d12.cpp:276-317 | result and new queue map are exactly `CreateQueuesOutcome` of the old map |
| D3D12.Device.AppendQueues | mirv_d12.cpp:305-316 | the family's vector becomes exactly the queues made before the first failure; the result says whether all `queueCount` were made |
| D3D12.UsableAdapters | mirv_d12.cpp:60-70 | an adapter survives exactly when both probes succeed; when every adapter is usable the list is kept as it is |
| D3D12.UsableAdaptersConcat | mirv_d12.cpp:60-70 | the filter distributes over concatenation: adapters are visited in enumeration order and each usable one is kept once, where it stands |
| D3D12.BackendDevicesAreUsableAdapters | mirv_d12.cpp:59-72 | the backend's physical devices are its usable adapters, one each, in adapter order |
| D3D12.InfosAppend | mirv_d12.cpp:69 | appending a device appends its description |
| D3D12.Backend.EnumeratePhysicalDevices | mirv_d12.cpp:37-73 | new physical devices whose descriptions are exactly the backend's devices for its adapters |
| Instances.NonNull | mirv.cpp:24-28 | the kept backends are probes that returned one; every non-null probe is kept; with no null probe all are kept |
| Instances.StubBackendsAddNothing | mirv.cpp:8-16 | with the Metal and Vulkan stubs returning null, the backends are just the D3D12 one, if any |
| Instances.NonNullOfThree | mirv.cpp:30-32 | the three probes are kept in D3D12, Metal, Vulkan order, each only when non-null |
| Instances.InfosConcat | mirv.cpp:42-47 | the descriptions of a concatenation are the concatenation of the descriptions |
| Instances.Instance.EnsureBackends | mirv.cpp:18-33 | a no-op when a backend is held; otherwise the non-null probes in order (so if all are null the list stays empty and the next call probes again) |
| Instances.Instance.TrackEach | mirv.cpp:44-46 | each of the backend's devices is tracked, in order |
| Instances.Instance.EnsurePhysicalDevices | mirv.cpp:35-48 | a no-op when a device is tracked; otherwise the backends are ensured and the tracked devices are every backend's devices, backend by backend, in order |
| Entrypoints.Handles.Add | mirv_entrypoints.cpp:73 | a non-null handle that names the object; a handle already in the table is never rebound to another object |
| Entrypoints.AddExtends | mirv_entrypoints.cpp:73 | adding a handle keeps every existing handle's object |
| Entrypoints.CreateInstanceCheck | mirv_entrypoints.cpp:39-70 | the ordered chain: an allocator gives NOT_IMPLEMENTED (if and only if); a bad create-info sType, pNext or flags gives VALIDATION_FAILED; after those, an application info with a bad sType or a pNext gives VALIDATION_FAILED and a bad version gives INCOMPATIBLE_DRIVER (if and only if); after all of those, requested layers give LAYER_NOT_PRESENT and then requested extensions give EXTENSION_NOT_PRESENT, and each of these two codes implies its count is nonzero; success exactly when every check passes |
| Entrypoints.CreateInstance | mirv_entrypoints.cpp:34-75 | the result is the check chain; on failure neither `*out` nor the table changes; on success `*out` names a new, empty instance and the table differs from before only at that one handle |
| Entrypoints.EnumerateInstanceLayerProperties | mirv_entrypoints.cpp:14-20 | always success with zero layers; the buffer is untouched |
| Entrypoints.EnumerateInstanceExtensionProperties | mirv_entrypoints.cpp:22-32 | a layer name gives LAYER_NOT_PRESENT; otherwise success with zero extensions; the buffer is untouched |
| Entrypoints.EnumeratePhysicalDevices | mirv_entrypoints.cpp:87-101 | unknown instance: VALIDATION_FAILED and nothing written; otherwise the two-phase copy of handles that name the instance's physical devices in order, and every handle the call adds names one of those physical devices |
| Entrypoints.GetPhysicalDeviceProperties | mirv_entrypoints.cpp:123-132 | unknown handle: `*out_properties` unchanged; otherwise the device's properties |
| Entrypoints.GetPhysicalDeviceQueueFamilyProperties | mirv_entrypoints.cpp:134-145 | unknown handle: nothing written; otherwise the two-phase copy of the three D3D12 families |
| Entrypoints.CreateDevice | mirv_entrypoints.cpp:153-174 | unknown physical device or wrong sType: VALIDATION_FAILED; otherwise the physical device's CreateDevice result; `*out_device` and the table change only on success, to a new device holding the queues requested, and the table differs from before only at that one handle |
| Entrypoints.DeviceQueue | mirv_entrypoints.cpp:188-199 | a queue exactly when the device is known, the family is present and the index is below its queue count, and then the family's `queueIndex`-th queue |
| Entrypoints.GetDeviceQueue | mirv_entrypoints.cpp:184-202 | when DeviceQueue has no queue, `*out_queue` and the table are untouched; otherwise the table gains or rebinds exactly one handle, `*out_queue`, which names that queue |
| Entrypoints.DeviceQueueOfCreatedDevice | mirv_entrypoints.cpp:184-202 | on a device created from a successful request list, vkGetDeviceQueue hands out, for request `j` and every `i` below its count, the `i`-th native queue made for that family, of the type its flags map to |

## Left out

- Native DXGI and D3D12 calls (`CreateDXGIFactory2`, `EnumAdapters1`, `CheckInterfaceSupport`, `GetDesc1`, `D3D12CreateDevice`, `CreateCommandQueue`, `QueryInterface` and `QI`): foreign code, modelled only by their outcomes as parameters.
- The device-limits block of the D3D12 physical-device constructor (mirv_d12.cpp:107-212): platform constants with no logic; `PhysicalDeviceProperties` omits limits and sparse properties.
- The internals of the `Handles` table: `Handles::Add`, `Get` and `Remove` are not defined in mirv.h, mirv.cpp, mirv_d12.cpp or mirv_entrypoints.cpp. The table is a map from handle to object. `Add` is assumed to give the guarantees stated for `Entrypoints.Handles.Add`.
- `Handles::Get` is modelled by `InstanceAt`, `PhysicalDeviceAt` and `DeviceAt` as a lookup checked by kind. A handle that names an object of another kind finds nothing, just like an unknown handle. This is how the entrypoints use `Get`: each one dereferences the result as the kind it expects and treats a null result as an unknown handle.
- The cascade of `delete this` (mirv.h:70): destroying an object also destroys its own `rp` members (for a device, the queues in `mQueuesByFamily`), and so releases their referents. `RefCounting.Heap.Release` removes only the object's own count; cells owned by a destroyed object stay in the heap with their references.
- Instances.Instance.constructor: `MirvInstance()` is declared (mirv.h:274) but not defined in mirv.h, mirv.cpp, mirv_d12.cpp or mirv_entrypoints.cpp, and neither is `AddPhysDevs` (mirv.h:287). The model's new instance is empty. Since no entrypoint calls `EnsurePhysicalDevices`, a created instance enumerates no physical device here, and `EnsureBackends` and `EnsurePhysicalDevices` are not reached from the entrypoints. A constructor that fills the device list, as the end-to-end test needs (test_vulkan.cpp:33-35), is not modelled.
- `vkDestroyInstance` and `vkDestroyDevice`: they only forward to `Handles::Remove`, which is not part of this model.
- `vkCreateCommandPool`: unfinished in the source; it falls off the end without a result on its success path.
- Handles as reinterpreted object addresses (`MirvObject::Handle`, `For`, `MapHandle`): a handle here is an opaque number looked up in the table.
- Concurrency: the atomic count, the object and global mutexes and the global instance set; everything is sequential.
- RefCounting.Heap.AddRef: does not model `size_t` overflow, because counts are unbounded; the source's assertion against it has no counterpart.
- RefCounting.Heap.Release: releasing an object whose count is already 0 is the underflow the source asserts against; it is a precondition here.
- The `rp` comparison operators, `get`, `operator bool`, `->` and `AsRP`: they read the pointer and change nothing.
- The cross-type `rp<U>` assignment's assertion that the source is not the target: `RefCounting.Heap.Assign` covers the same-type operator, which allows self-assignment.
- What a creation call writes through the slot `asOutVar` hands out: the model stops at handing out the slot.
- The back-references from physical devices to their instance and from queues to their device and family, and the `mDevices` set.
- Queue priorities: floating point, and never read.
- `SnapshotStruct`: not part of this model. It is modelled as the check of the structure's `sType`; pNext is a flag.
- Wide-to-narrow conversion of the adapter description: each UTF-16 unit keeps its low byte.
- D3D12.CreateQueuesOutcome: requires every family's flags to map to a command-list type (`FamiliesMapped`); an unknown value aborts the process in the source, and every D3D12 device meets the requirement (`D3D12.D12FamiliesMapped`).
- The unsuccessful native queue creation's assertion that the error is out-of-memory: every failure gives `VK_ERROR_INITIALIZATION_FAILED`, as the code returns.
- mirv_d12.cpp:289 names an undeclared `itr`; the model uses the vector just inserted for the family.
- The device list is called `mPhysDevs` in mirv.h and `mPhysicalDevices` in mirv.cpp; both are `Instance.physicalDevices` here.
- The DEBUG-only check that the WARP adapter is enumerated exactly once.
- D3D12.Queue records the family index and command-list type for which its native queue was created; `MirvQueue_D12` keeps only the native queue.
- Instances.Instance.EnsureBackends: the Metal and Vulkan probes are parameters of the D3D12 backend type. In the source they are stubs that always return null (mirv.cpp:11-16), so no Metal or Vulkan backend object exists to model; a non-null probe in those positions stands for a backend the source does not have.
