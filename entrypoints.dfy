/** The exported Vulkan entrypoints (mirv_entrypoints.cpp): argument validation, the handle
    table, and the writes through the caller's out-pointers. An out-pointer `*out` is modelled
    as its value before the call (`outBefore`) and after it (`outAfter`); an out-array is an
    `array?` whose null is the null pointer. */
module Entrypoints {
  import opened VkTypes
  import opened ArrayCopy
  import opened D3D12
  import opened Instances

  /** A dispatchable or non-dispatchable handle; 0 is VK_NULL_HANDLE. */
  type Handle = nat

  const VK_NULL_HANDLE: Handle := 0

  /** What a handle can stand for. */
  datatype Object =
    | InstanceObject(instance: Instance)
    | PhysicalDeviceObject(physDev: PhysicalDevice)
    | DeviceObject(device: Device)
    | QueueObject(queue: Queue)

  // ---------------------------------------------------------------- handle lookups

  /** Handles::Get for an instance handle: the instance, or nothing for an unknown handle or one
      that names another kind of object. */
  function InstanceAt(entries: map<Handle, Object>, h: Handle): Option<Instance> {
    if h in entries && entries[h].InstanceObject? then Some(entries[h].instance) else None
  }

  function PhysicalDeviceAt(entries: map<Handle, Object>, h: Handle): Option<PhysicalDevice> {
    if h in entries && entries[h].PhysicalDeviceObject? then Some(entries[h].physDev) else None
  }

  function DeviceAt(entries: map<Handle, Object>, h: Handle): Option<Device> {
    if h in entries && entries[h].DeviceObject? then Some(entries[h].device) else None
  }

  /** Every handle of `before` still names the same object in `after`. */
  predicate Extends(before: map<Handle, Object>, after: map<Handle, Object>) {
    forall h :: h in before ==> h in after && after[h] == before[h]
  }

  /** The global handle table, as a partial map from handle to object. */
  class Handles {
    var entries: map<Handle, Object>
    var next: Handle

    ghost predicate Valid()
      reads this
    {
      0 < next && forall h :: h in entries ==> VK_NULL_HANDLE < h < next
    }

    constructor ()
      ensures Valid() && entries == map[]
    {
      entries, next := map[], 1;
    }

    /** Handles::Add: a non-null handle for `o`. Any handle already in the table keeps its
        object, so a handle that was in use is handed out again only for the same object. */
    method Add(o: Object) returns (h: Handle)
      requires Valid()
      modifies this
      ensures Valid()
      ensures h != VK_NULL_HANDLE && entries == old(entries)[h := o]
      ensures h in old(entries) ==> old(entries)[h] == o
    {
      h := next;
      entries := entries[h := o];
      next := next + 1;
    }
  }

  lemma AddExtends(before: map<Handle, Object>, h: Handle, o: Object)
    requires h in before ==> before[h] == o
    ensures Extends(before, before[h := o])
  {
  }

  // ---------------------------------------------------------------- instance

  /** The application info check of vkCreateInstance: the structure must carry its own sType
      and no pNext; apiVersion 0 means "any", otherwise only 1.0 is supported. */
  function AppInfoResult(app: ApplicationInfo): VkResult {
    if app.sType != VK_STRUCTURE_TYPE_APPLICATION_INFO || app.hasNext then ErrorValidationFailed
    else if app.apiVersion != 0 && app.apiVersion != VK_API_VERSION_1_0 then ErrorIncompatibleDriver
    else Success
  }

  /** The result of vkCreateInstance's validation chain, checks in source order. */
  function CreateInstanceCheck(hasAllocator: bool, info: InstanceCreateInfo): (r: VkResult)
    ensures hasAllocator ==> r == ErrorNotImplemented
    ensures r == ErrorNotImplemented <==> hasAllocator
    ensures !hasAllocator && (info.sType != VK_STRUCTURE_TYPE_INSTANCE_CREATE_INFO || info.hasNext || info.flags != 0)
      ==> r == ErrorValidationFailed
    ensures r == ErrorIncompatibleDriver <==>
      && !hasAllocator
      && info.sType == VK_STRUCTURE_TYPE_INSTANCE_CREATE_INFO && !info.hasNext && info.flags == 0
      && info.applicationInfo.Some?
      && info.applicationInfo.value.sType == VK_STRUCTURE_TYPE_APPLICATION_INFO
      && !info.applicationInfo.value.hasNext
      && info.applicationInfo.value.apiVersion !in {0, VK_API_VERSION_1_0}
    ensures !hasAllocator && info.sType == VK_STRUCTURE_TYPE_INSTANCE_CREATE_INFO && !info.hasNext && info.flags == 0
      && info.applicationInfo.Some?
      && (info.applicationInfo.value.sType != VK_STRUCTURE_TYPE_APPLICATION_INFO || info.applicationInfo.value.hasNext)
      ==> r == ErrorValidationFailed
    ensures !hasAllocator && info.sType == VK_STRUCTURE_TYPE_INSTANCE_CREATE_INFO && !info.hasNext && info.flags == 0
      && (info.applicationInfo.Some? ==>
            && info.applicationInfo.value.sType == VK_STRUCTURE_TYPE_APPLICATION_INFO
            && !info.applicationInfo.value.hasNext
            && info.applicationInfo.value.apiVersion in {0, VK_API_VERSION_1_0})
      && info.enabledLayerCount != 0
      ==> r == ErrorLayerNotPresent
    ensures !hasAllocator && info.sType == VK_STRUCTURE_TYPE_INSTANCE_CREATE_INFO && !info.hasNext && info.flags == 0
      && (info.applicationInfo.Some? ==>
            && info.applicationInfo.value.sType == VK_STRUCTURE_TYPE_APPLICATION_INFO
            && !info.applicationInfo.value.hasNext
            && info.applicationInfo.value.apiVersion in {0, VK_API_VERSION_1_0})
      && info.enabledLayerCount == 0 && info.enabledExtensionCount != 0
      ==> r == ErrorExtensionNotPresent
    ensures r == ErrorLayerNotPresent ==> info.enabledLayerCount != 0
    ensures r == ErrorExtensionNotPresent ==> info.enabledLayerCount == 0 && info.enabledExtensionCount != 0
    ensures r == Success <==>
      && !hasAllocator
      && info.sType == VK_STRUCTURE_TYPE_INSTANCE_CREATE_INFO && !info.hasNext && info.flags == 0
      && (info.applicationInfo.Some? ==>
            && info.applicationInfo.value.sType == VK_STRUCTURE_TYPE_APPLICATION_INFO
            && !info.applicationInfo.value.hasNext
            && info.applicationInfo.value.apiVersion in {0, VK_API_VERSION_1_0})
      && info.enabledLayerCount == 0 && info.enabledExtensionCount == 0
    ensures r in {Success, ErrorNotImplemented, ErrorValidationFailed, ErrorIncompatibleDriver,
                  ErrorLayerNotPresent, ErrorExtensionNotPresent}
  {
    if hasAllocator then ErrorNotImplemented
    else if info.sType != VK_STRUCTURE_TYPE_INSTANCE_CREATE_INFO then ErrorValidationFailed
    else if info.hasNext || info.flags != 0 then ErrorValidationFailed
    else if info.applicationInfo.Some? && AppInfoResult(info.applicationInfo.value) != Success then
      AppInfoResult(info.applicationInfo.value)
    else if info.enabledLayerCount != 0 then ErrorLayerNotPresent
    else if info.enabledExtensionCount != 0 then ErrorExtensionNotPresent
    else Success
  }

  /** vkCreateInstance: on success a new, empty instance gets a handle that is written to
      *out; on any failure neither *out nor the handle table changes. */
  method CreateInstance(handles: Handles, hasAllocator: bool, info: InstanceCreateInfo, outBefore: Handle)
    returns (res: VkResult, outAfter: Handle)
    requires handles.Valid()
    modifies handles
    ensures handles.Valid()
    ensures res == CreateInstanceCheck(hasAllocator, info)
    ensures res != Success ==> outAfter == outBefore && handles.entries == old(handles.entries)
    ensures res == Success ==>
      && Extends(old(handles.entries), handles.entries)
      && InstanceAt(handles.entries, outAfter).Some?
      && handles.entries == old(handles.entries)[outAfter := handles.entries[outAfter]]
      && var inst := InstanceAt(handles.entries, outAfter).value;
         fresh(inst) && inst.backends == [] && inst.physicalDevices == []
  {
    res := CreateInstanceCheck(hasAllocator, info);
    if res != Success {
      return res, outBefore;
    }
    var inst := new Instance();
    AddExtends(handles.entries, handles.next, InstanceObject(inst));
    outAfter := handles.Add(InstanceObject(inst));
  }

  /** vkEnumerateInstanceLayerProperties: the layer exposes no layers. */
  method EnumerateInstanceLayerProperties(count: uint32, out: array?<LayerProperties>)
    returns (res: VkResult, outCount: uint32)
    requires out != null ==> count <= out.Length
    modifies out
    ensures res == Success && outCount == 0
    ensures out != null ==> out[..] == old(out[..])
  {
    res, outCount := CopyOut([], count, out);
    if out != null {
      assert out[..] == old(out[..]);
    }
  }

  /** vkEnumerateInstanceExtensionProperties: naming a layer fails, since there are none;
      otherwise no extensions. */
  method EnumerateInstanceExtensionProperties(hasLayerName: bool, count: uint32, out: array?<ExtensionProperties>)
    returns (res: VkResult, outCount: uint32)
    requires out != null ==> count <= out.Length
    modifies out
    ensures hasLayerName ==> res == ErrorLayerNotPresent && outCount == count
    ensures !hasLayerName ==> res == Success && outCount == 0
    ensures out != null ==> out[..] == old(out[..])
  {
    if hasLayerName {
      return ErrorLayerNotPresent, count;
    }
    res, outCount := CopyOut([], count, out);
    if out != null {
      assert out[..] == old(out[..]);
    }
  }

  // ---------------------------------------------------------------- physical devices

  /** vkEnumeratePhysicalDevices: an unknown instance fails validation and nothing is written;
      otherwise each of the instance's physical devices gets a handle, in order, and the handles
      go through the two-phase copy. */
  method EnumeratePhysicalDevices(handles: Handles, instance: Handle, count: uint32, out: array?<Handle>)
    returns (res: VkResult, outCount: uint32)
    requires handles.Valid()
    requires out != null ==> count <= out.Length
    modifies handles, out
    ensures handles.Valid()
    ensures Extends(old(handles.entries), handles.entries)
    ensures InstanceAt(old(handles.entries), instance).None? ==>
      && res == ErrorValidationFailed && outCount == count
      && handles.entries == old(handles.entries)
      && (out != null ==> out[..] == old(out[..]))
    ensures InstanceAt(old(handles.entries), instance).Some? ==>
      var pds := InstanceAt(old(handles.entries), instance).value.physicalDevices;
      && (out == null ==> res == Success && outCount == |pds| % 0x1_0000_0000)
      && (out != null && count < |pds| ==> res == Incomplete && outCount == count)
      && (out != null && |pds| <= count ==> res == Success && outCount == |pds|)
      && (out != null ==> forall k :: 0 <= k < outCount ==>
            PhysicalDeviceAt(handles.entries, out[k]) == Some(pds[k]))
      && (out != null ==> forall k :: outCount <= k < out.Length ==> out[k] == old(out[k]))
      && (forall h :: h in handles.entries && h !in old(handles.entries) ==>
            exists k :: 0 <= k < |pds| && handles.entries[h] == PhysicalDeviceObject(pds[k]))
  {
    var inst := InstanceAt(handles.entries, instance);
    if inst.None? {
      return ErrorValidationFailed, count;
    }
    var pds := inst.value.physicalDevices;
    var hs: seq<Handle> := [];
    var i := 0;
    while i < |pds|
      invariant 0 <= i <= |pds| && |hs| == i
      invariant handles.Valid()
      invariant Extends(old(handles.entries), handles.entries)
      invariant forall k :: 0 <= k < i ==> PhysicalDeviceAt(handles.entries, hs[k]) == Some(pds[k])
      invariant forall h :: h in handles.entries && h !in old(handles.entries) ==>
        exists k :: 0 <= k < i && handles.entries[h] == PhysicalDeviceObject(pds[k])
      invariant out != null ==> unchanged(out)
    {
      ghost var before := handles.entries;
      AddExtends(handles.entries, handles.next, PhysicalDeviceObject(pds[i]));
      var h := handles.Add(PhysicalDeviceObject(pds[i]));
      assert Extends(before, handles.entries);
      hs := hs + [h];
      i := i + 1;
    }
    res, outCount := CopyOut(hs, count, out);
  }

  /** vkGetPhysicalDeviceProperties: the physical device's properties, or *out_properties left
      as it was for an unknown handle. */
  method GetPhysicalDeviceProperties(handles: Handles, physicalDevice: Handle, before: PhysicalDeviceProperties)
    returns (after: PhysicalDeviceProperties)
    ensures PhysicalDeviceAt(handles.entries, physicalDevice).None? ==> after == before
    ensures PhysicalDeviceAt(handles.entries, physicalDevice).Some? ==>
      after == PhysicalDeviceAt(handles.entries, physicalDevice).value.properties
  {
    var pd := PhysicalDeviceAt(handles.entries, physicalDevice);
    if pd.None? {
      return before;
    }
    return pd.value.properties;
  }

  /** vkGetPhysicalDeviceQueueFamilyProperties: the two-phase copy of the three queue families,
      or nothing written for an unknown handle. */
  method GetPhysicalDeviceQueueFamilyProperties(handles: Handles, physicalDevice: Handle, count: uint32,
                                                out: array?<QueueFamilyProperties>)
    returns (outCount: uint32)
    requires out != null ==> count <= out.Length
    modifies out
    ensures PhysicalDeviceAt(handles.entries, physicalDevice).None? ==>
      outCount == count && (out != null ==> out[..] == old(out[..]))
    ensures PhysicalDeviceAt(handles.entries, physicalDevice).Some? ==>
      && (out == null ==> outCount == 3)
      && (out != null ==> outCount == if count < 3 then count else 3)
      && (out != null ==> forall k :: 0 <= k < outCount ==> out[k] == D12QueueFamilies()[k])
      && (out != null ==> forall k :: outCount <= k < out.Length ==> out[k] == old(out[k]))
  {
    var pd := PhysicalDeviceAt(handles.entries, physicalDevice);
    if pd.None? {
      return count;
    }
    var _, n := CopyOut(pd.value.queueFamilies, count, out);
    return n;
  }

  // ---------------------------------------------------------------- devices and queues

  /** vkCreateDevice: an unknown physical device or a create info of the wrong sType fails
      validation; otherwise the physical device's CreateDevice decides, and only a device
      created with all of its queues gets a handle written to *out_device. */
  method CreateDevice(handles: Handles, physicalDevice: Handle, info: DeviceCreateInfo,
                      nativeDevice: Option<NativeDevice>, create: QueueFactory, outBefore: Handle)
    returns (res: VkResult, outAfter: Handle)
    requires handles.Valid()
    modifies handles
    ensures handles.Valid()
    ensures res != Success ==> outAfter == outBefore && handles.entries == old(handles.entries)
    ensures PhysicalDeviceAt(old(handles.entries), physicalDevice).None? ==> res == ErrorValidationFailed
    ensures PhysicalDeviceAt(old(handles.entries), physicalDevice).Some? ==>
      var pd := PhysicalDeviceAt(old(handles.entries), physicalDevice).value;
      && (info.sType != VK_STRUCTURE_TYPE_DEVICE_CREATE_INFO ==> res == ErrorValidationFailed)
      && (info.sType == VK_STRUCTURE_TYPE_DEVICE_CREATE_INFO && nativeDevice.None? ==> res == ErrorInitializationFailed)
      && (info.sType == VK_STRUCTURE_TYPE_DEVICE_CREATE_INFO && nativeDevice.Some? ==>
            res == AddAllQueues(pd.queueFamilies, map[], info.queueCreateInfos, create).0)
      && (res == Success ==>
            && Extends(old(handles.entries), handles.entries)
            && DeviceAt(handles.entries, outAfter).Some?
            && handles.entries == old(handles.entries)[outAfter := handles.entries[outAfter]]
            && var dev := DeviceAt(handles.entries, outAfter).value;
               && fresh(dev) && dev.physDev == pd
               && dev.queuesByFamily == AddAllQueues(pd.queueFamilies, map[], info.queueCreateInfos, create).1)
  {
    var pd := PhysicalDeviceAt(handles.entries, physicalDevice);
    if pd.None? {
      return ErrorValidationFailed, outBefore;
    }
    if info.sType != VK_STRUCTURE_TYPE_DEVICE_CREATE_INFO {
      return ErrorValidationFailed, outBefore;
    }
    var device;
    res, device := pd.value.CreateDevice(info, nativeDevice, create);
    if res != Success {
      return res, outBefore;
    }
    AddExtends(handles.entries, handles.next, DeviceObject(device));
    outAfter := handles.Add(DeviceObject(device));
  }

  /** The queue vkGetDeviceQueue hands out: the device's `queueIndex`-th queue of the family,
      if the device is known, the family has queues and the index is in range. */
  function DeviceQueue(entries: map<Handle, Object>, device: Handle, family: uint32, queueIndex: uint32): (q: Option<Queue>)
    reads if DeviceAt(entries, device).Some? then {DeviceAt(entries, device).value} else {}
    ensures q.Some? <==>
      && DeviceAt(entries, device).Some?
      && family in DeviceAt(entries, device).value.queuesByFamily
      && queueIndex < |DeviceAt(entries, device).value.queuesByFamily[family]|
    ensures q.Some? ==> q.value == DeviceAt(entries, device).value.queuesByFamily[family][queueIndex]
  {
    var dev := DeviceAt(entries, device);
    if dev.None? then None
    else if family !in dev.value.queuesByFamily then None
    else
      var queues := dev.value.queuesByFamily[family];
      if queueIndex >= |queues| then None else Some(queues[queueIndex])
  }

  /** vkGetDeviceQueue: a handle for the requested queue is written to *out_queue; on an
      unknown device, an absent family or an index past the family's queues, *out_queue and the
      handle table are left untouched. */
  method GetDeviceQueue(handles: Handles, device: Handle, family: uint32, queueIndex: uint32, outBefore: Handle)
    returns (outAfter: Handle)
    requires handles.Valid()
    modifies handles
    ensures handles.Valid()
    ensures Extends(old(handles.entries), handles.entries)
    ensures DeviceQueue(old(handles.entries), device, family, queueIndex).None? ==>
      outAfter == outBefore && handles.entries == old(handles.entries)
    ensures DeviceQueue(old(handles.entries), device, family, queueIndex).Some? ==>
      handles.entries == old(handles.entries)[outAfter := QueueObject(DeviceQueue(old(handles.entries), device, family, queueIndex).value)]
  {
    var dev := DeviceAt(handles.entries, device);
    if dev.None? {
      return outBefore;
    }
    if family !in dev.value.queuesByFamily {
      return outBefore;
    }
    var queues := dev.value.queuesByFamily[family];
    if queueIndex >= |queues| {
      return outBefore;
    }
    var queue := queues[queueIndex];
    AddExtends(handles.entries, handles.next, QueueObject(queue));
    outAfter := handles.Add(QueueObject(queue));
  }

  /** A device created from `infos` hands out, through vkGetDeviceQueue, queue `i` of each
      requested family for every `i` below that request's count: the `i`-th native queue made
      for the family, of the type the family's flags map to. */
  lemma {:induction false} DeviceQueueOfCreatedDevice(
    entries: map<Handle, Object>, device: Handle, infos: seq<DeviceQueueCreateInfo>,
    create: QueueFactory, j: nat, i: uint32)
    requires DeviceAt(entries, device).Some?
    requires var dev := DeviceAt(entries, device).value;
      && FamiliesMapped(dev.physDev.queueFamilies)
      && AddAllQueues(dev.physDev.queueFamilies, map[], infos, create).0 == Success
      && dev.queuesByFamily == AddAllQueues(dev.physDev.queueFamilies, map[], infos, create).1
    requires j < |infos| && i < infos[j].queueCount
    ensures var families := DeviceAt(entries, device).value.physDev.queueFamilies;
      var f := infos[j].queueFamilyIndex;
      && f < |families|
      && var t := CommandListTypeFor(families[f].queueFlags).value;
         && create(f, t, i).Some?
         && DeviceQueue(entries, device, f, i) == Some(Queue(f, t, create(f, t, i).value))
  {
    var dev := DeviceAt(entries, device).value;
    AddAllQueuesContents(dev.physDev.queueFamilies, map[], infos, create, j);
  }
}
