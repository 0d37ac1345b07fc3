/** The Direct3D 12 backend (mirv_d12.cpp) with the physical-device and device objects it
    implements (MirvPhysicalDevice, MirvDevice of mirv.h and mirv.cpp).

    Native DXGI/D3D12 calls are inputs: an adapter carries the outcomes of its two probes,
    D3D12CreateDevice's outcome is an Option, and CreateCommandQueue's outcomes are a function
    of the call (a QueueFactory). */
module D3D12 {
  import opened VkTypes

  /** Identity of a native IDXGIAdapter1. */
  type AdapterId = nat
  /** Identity of a native ID3D12Device. */
  type NativeDevice = nat
  /** Identity of a native ID3D12CommandQueue. */
  type NativeQueue = nat

  /** A UTF-16 code unit of DXGI_ADAPTER_DESC1::Description. */
  type WChar = x: int | 0 <= x < 0x1_0000

  /** LARGE_INTEGER as filled in by CheckInterfaceSupport: the user-mode driver version. */
  datatype LargeInteger = LargeInteger(lowPart: uint32, highPart: int32)

  const DXGI_ADAPTER_FLAG_SOFTWARE: bv32 := 0x2

  /** DXGI_ADAPTER_DESC1: the fields the backend reads. */
  datatype AdapterDesc = AdapterDesc(
    description: seq<WChar>,
    vendorId: uint32,
    deviceId: uint32,
    dedicatedVideoMemory: nat,
    flags: bv32)

  /** One adapter from EnumAdapters1: CheckInterfaceSupport's driver version (None when it
      fails) and GetDesc1's description (None when it fails). */
  datatype Adapter = Adapter(id: AdapterId, umdVersion: Option<LargeInteger>, desc: Option<AdapterDesc>)

  /** D3D12_COMMAND_LIST_TYPE of a native queue. */
  datatype CommandListType = Direct | Compute | Copy

  /** A MirvQueue_D12: the family it was created for, its native type and its native queue. */
  datatype Queue = Queue(familyIndex: uint32, listType: CommandListType, native: NativeQueue)

  /** Outcome of the native CreateCommandQueue call that makes queue number `i` of family `f`
      with type `t`: a native queue, or None when it fails. */
  type QueueFactory = (uint32, CommandListType, nat) -> Option<NativeQueue>

  /** What one physical device looks like from outside: its adapter, properties and families. */
  datatype PhysicalDeviceInfo = PhysicalDeviceInfo(
    adapter: AdapterId,
    properties: PhysicalDeviceProperties,
    queueFamilies: seq<QueueFamilyProperties>)

  // ---------------------------------------------------------------- properties

  /** The MirvPhysicalDevice base constructor's properties: all zero but apiVersion 1.0. */
  function BaseProperties(): (p: PhysicalDeviceProperties)
    ensures p.apiVersion == VK_API_VERSION_1_0
    ensures p.driverVersion == 0 && p.vendorID == 0 && p.deviceID == 0 && p.deviceType == Other
    ensures |p.deviceName| == VK_MAX_PHYSICAL_DEVICE_NAME_SIZE
    ensures forall i :: 0 <= i < |p.deviceName| ==> p.deviceName[i] == 0
  {
    PhysicalDeviceProperties(VK_API_VERSION_1_0, 0, 0, 0, Other, seq(VK_MAX_PHYSICAL_DEVICE_NAME_SIZE, _ => 0))
  }

  /** driverVersion: the high part of the driver version when it is nonzero (reinterpreted as
      unsigned), otherwise the low part. */
  function DriverVersion(umd: LargeInteger): (v: uint32)
    ensures umd.highPart > 0 ==> v == umd.highPart
    ensures umd.highPart < 0 ==> v == umd.highPart + 0x1_0000_0000
    ensures umd.highPart == 0 ==> v == umd.lowPart
  {
    if umd.highPart != 0 then (umd.highPart % 0x1_0000_0000) as uint32 else umd.lowPart
  }

  /** deviceType: a software adapter is a CPU whatever its memory; otherwise dedicated video
      memory makes a discrete GPU and its absence an integrated one. */
  function DeviceType(desc: AdapterDesc): (t: PhysicalDeviceType)
    ensures t == Cpu <==> desc.flags & DXGI_ADAPTER_FLAG_SOFTWARE != 0
    ensures t == DiscreteGpu <==> desc.flags & DXGI_ADAPTER_FLAG_SOFTWARE == 0 && desc.dedicatedVideoMemory != 0
    ensures t == IntegratedGpu <==> desc.flags & DXGI_ADAPTER_FLAG_SOFTWARE == 0 && desc.dedicatedVideoMemory == 0
  {
    if desc.flags & DXGI_ADAPTER_FLAG_SOFTWARE != 0 then Cpu
    else if desc.dedicatedVideoMemory != 0 then DiscreteGpu
    else IntegratedGpu
  }

  /** The characters of a NUL-terminated buffer before its first NUL (all of them if none). */
  function UntilNul<T(==)>(s: seq<T>, nul: T): (r: seq<T>)
    ensures |r| <= |s| && r == s[..|r|]
    ensures nul !in r
    ensures |r| < |s| ==> s[|r|] == nul
  {
    if s == [] || s[0] == nul then [] else [s[0]] + UntilNul(s[1..], nul)
  }

  /** A prefix free of NULs and followed by a NUL (or the end) is what UntilNul keeps. */
  lemma {:induction false} UntilNulIs<T>(s: seq<T>, nul: T, k: nat)
    requires k <= |s| && nul !in s[..k] && (k < |s| ==> s[k] == nul)
    ensures UntilNul(s, nul) == s[..k]
  {
    if k > 0 {
      assert s[0] in s[..k];
      assert s[1..][..k - 1] == s[1..k];
      UntilNulIs(s[1..], nul, k - 1);
    }
  }

  /** std::string(wdesc.cbegin(), wdesc.cend()): each wide character narrowed to its low byte. */
  function Narrow(w: seq<WChar>): seq<byte> {
    seq(|w|, i requires 0 <= i < |w| => (w[i] % 0x100) as byte)
  }

  /** strncpy(dst, src, n) with src a C string: copies src up to its terminating NUL, at most n
      characters, and fills the rest of the n with NULs. */
  function StrNCpy(src: seq<byte>, n: nat): (dst: seq<byte>)
    decreases n
    ensures |dst| == n
    ensures forall i :: 0 <= i < n ==> dst[i] == if i < |UntilNul(src, 0)| then src[i] else 0
  {
    if n == 0 then []
    else if src == [] || src[0] == 0 then [0] + StrNCpy([], n - 1)
    else [src[0]] + StrNCpy(src[1..], n - 1)
  }

  /** The description as the backend reads it: the wide string up to its NUL, narrowed. */
  function NarrowDescription(desc: AdapterDesc): seq<byte> {
    Narrow(UntilNul(desc.description, 0))
  }

  /** deviceName: NUL at index VK_MAX_PHYSICAL_DEVICE_NAME_SIZE-1 and, as a C string, the
      narrowed description cut to at most VK_MAX_PHYSICAL_DEVICE_NAME_SIZE-1 characters. */
  function DeviceName(desc: AdapterDesc): (name: seq<byte>)
    ensures |name| == VK_MAX_PHYSICAL_DEVICE_NAME_SIZE
    ensures name[VK_MAX_PHYSICAL_DEVICE_NAME_SIZE - 1] == 0
    ensures var text := UntilNul(NarrowDescription(desc), 0);
      UntilNul(name, 0) == if |text| < VK_MAX_PHYSICAL_DEVICE_NAME_SIZE then text
                           else text[..VK_MAX_PHYSICAL_DEVICE_NAME_SIZE - 1]
  {
    var n := VK_MAX_PHYSICAL_DEVICE_NAME_SIZE - 1;
    var ndesc := NarrowDescription(desc);
    var name := StrNCpy(ndesc, n) + [BaseProperties().deviceName[n]];
    var text := UntilNul(ndesc, 0);
    var k := if |text| < n then |text| else n;
    assert name[..k] == text[..k];
    UntilNulIs(name, 0, k);
    name
  }

  /** The properties the D3D12 physical-device constructor fills in over the base defaults. */
  function D12Properties(umd: LargeInteger, desc: AdapterDesc): PhysicalDeviceProperties {
    BaseProperties().(
      driverVersion := DriverVersion(umd),
      vendorID := desc.vendorId,
      deviceID := desc.deviceId,
      deviceType := DeviceType(desc),
      deviceName := DeviceName(desc))
  }

  // ---------------------------------------------------------------- queue families

  /** The queue families of every D3D12 physical device: graphics, compute and transfer, each
      with UINT32_MAX queues, no timestamps and a 1x1x1 transfer granularity. */
  function D12QueueFamilies(): (fams: seq<QueueFamilyProperties>)
    ensures |fams| == 3
    ensures fams[0].queueFlags == VK_QUEUE_GRAPHICS_BIT
    ensures fams[1].queueFlags == VK_QUEUE_COMPUTE_BIT
    ensures fams[2].queueFlags == VK_QUEUE_TRANSFER_BIT
    ensures forall f :: f in fams ==>
      f.queueCount == UINT32_MAX && f.timestampValidBits == 0 && f.minImageTransferGranularity == Extent3D(1, 1, 1)
  {
    var family := QueueFamilyProperties(0, UINT32_MAX, 0, Extent3D(1, 1, 1));
    [family.(queueFlags := VK_QUEUE_GRAPHICS_BIT),
     family.(queueFlags := VK_QUEUE_COMPUTE_BIT),
     family.(queueFlags := VK_QUEUE_TRANSFER_BIT)]
  }

  /** Some D3D12 queue family supports transfers (the end-to-end test looks for one). */
  lemma TransferFamilyExists()
    ensures exists i :: 0 <= i < |D12QueueFamilies()| && D12QueueFamilies()[i].queueFlags & VK_QUEUE_TRANSFER_BIT != 0
  {
    assert D12QueueFamilies()[2].queueFlags & VK_QUEUE_TRANSFER_BIT != 0;
  }

  /** The native queue type for a family's flags; None is the flag value the source aborts on. */
  function CommandListTypeFor(flags: bv32): (t: Option<CommandListType>)
    ensures t == Some(Direct) <==> flags == VK_QUEUE_GRAPHICS_BIT
    ensures t == Some(Compute) <==> flags == VK_QUEUE_COMPUTE_BIT
    ensures t == Some(Copy) <==> flags == VK_QUEUE_TRANSFER_BIT
  {
    if flags == VK_QUEUE_GRAPHICS_BIT then Some(Direct)
    else if flags == VK_QUEUE_COMPUTE_BIT then Some(Compute)
    else if flags == VK_QUEUE_TRANSFER_BIT then Some(Copy)
    else None
  }

  /** Every family's flags name a native queue type, so queue creation never aborts. */
  ghost predicate FamiliesMapped(families: seq<QueueFamilyProperties>) {
    forall i :: 0 <= i < |families| ==> CommandListTypeFor(families[i].queueFlags).Some?
  }

  lemma D12FamiliesMapped()
    ensures FamiliesMapped(D12QueueFamilies())
  {
  }

  // ---------------------------------------------------------------- queue creation

  /** The queues CreateQueues' loop appends for family `f`: those made before the first
      native failure among the first `count` calls. */
  function CreatedQueues(f: uint32, t: CommandListType, count: nat, create: QueueFactory): (qs: seq<Queue>)
    ensures |qs| <= count
    ensures forall i :: 0 <= i < |qs| ==> create(f, t, i).Some? && qs[i] == Queue(f, t, create(f, t, i).value)
    ensures |qs| < count ==> create(f, t, |qs|).None?
  {
    if count == 0 then []
    else
      var qs := CreatedQueues(f, t, count - 1, create);
      if |qs| < count - 1 then qs
      else match create(f, t, count - 1)
        case None => qs
        case Some(q) => qs + [Queue(f, t, q)]
  }

  /** Once a call fails, later calls are never made: the queues stay those made before it. */
  lemma CreatedQueuesStop(f: uint32, t: CommandListType, i: nat, count: nat, create: QueueFactory)
    requires i < count && |CreatedQueues(f, t, i, create)| == i && create(f, t, i).None?
    ensures CreatedQueues(f, t, count, create) == CreatedQueues(f, t, i, create)
  {
  }

  /** MirvDevice_D12::CreateQueues for one queue request, on the family map `queues`: a family
      index out of range or already present fails and changes nothing; otherwise the family is
      added with the queues made before the first native failure, and the result is success
      exactly when all of them were made. */
  function CreateQueuesOutcome(
    families: seq<QueueFamilyProperties>, queues: map<uint32, seq<Queue>>,
    info: DeviceQueueCreateInfo, create: QueueFactory): (r: (VkResult, map<uint32, seq<Queue>>))
    requires FamiliesMapped(families)
    ensures r.0 == Success || r.0 == ErrorInitializationFailed
    ensures info.queueFamilyIndex >= |families| || info.queueFamilyIndex in queues ==>
      r == (ErrorInitializationFailed, queues)
    ensures info.queueFamilyIndex < |families| && info.queueFamilyIndex !in queues ==>
      var f := info.queueFamilyIndex;
      var t := CommandListTypeFor(families[f].queueFlags).value;
      && r.1 == queues[f := CreatedQueues(f, t, info.queueCount, create)]
      && (r.0 == Success <==> forall i :: 0 <= i < info.queueCount ==> create(f, t, i).Some?)
  {
    var f := info.queueFamilyIndex;
    if f >= |families| || f in queues then (ErrorInitializationFailed, queues)
    else
      var t := CommandListTypeFor(families[f].queueFlags).value;
      var made := CreatedQueues(f, t, info.queueCount, create);
      (if |made| == info.queueCount then Success else ErrorInitializationFailed, queues[f := made])
  }

  /** A queue request that CreateQueues grants on the family map `queues`: its family is in
      range and not yet present, and every native call it makes succeeds. */
  ghost predicate RequestGranted(
    families: seq<QueueFamilyProperties>, queues: map<uint32, seq<Queue>>,
    info: DeviceQueueCreateInfo, create: QueueFactory)
    requires FamiliesMapped(families)
  {
    var f := info.queueFamilyIndex;
    && f < |families| && f !in queues
    && forall i :: 0 <= i < info.queueCount ==> create(f, CommandListTypeFor(families[f].queueFlags).value, i).Some?
  }

  /** The device's loop over its queue requests: each request in order, stopping at the first
      that fails; families already added stay (there is no rollback). */
  function AddAllQueues(
    families: seq<QueueFamilyProperties>, queues: map<uint32, seq<Queue>>,
    infos: seq<DeviceQueueCreateInfo>, create: QueueFactory): (r: (VkResult, map<uint32, seq<Queue>>))
    requires FamiliesMapped(families)
    ensures r.0 == Success || r.0 == ErrorInitializationFailed
    ensures forall k :: k in queues ==> k in r.1 && r.1[k] == queues[k]
    ensures r.0 == Success ==> forall j :: 0 <= j < |infos| ==>
      var f := infos[j].queueFamilyIndex;
      f < |families| && f !in queues && f in r.1 && |r.1[f]| == infos[j].queueCount
    ensures r.0 == Success ==> forall j, k :: 0 <= j < k < |infos| ==>
      infos[j].queueFamilyIndex != infos[k].queueFamilyIndex
    decreases |infos|
  {
    if infos == [] then (Success, queues)
    else
      var (res, next) := CreateQueuesOutcome(families, queues, infos[0], create);
      if res != Success then (res, next)
      else AddAllQueues(families, next, infos[1..], create)
  }

  /** The family indices a list of queue requests names. */
  function RequestedFamilies(infos: seq<DeviceQueueCreateInfo>): (fs: set<uint32>)
    ensures forall j :: 0 <= j < |infos| ==> infos[j].queueFamilyIndex in fs
    ensures forall x :: x in fs ==> exists j :: 0 <= j < |infos| && infos[j].queueFamilyIndex == x
  {
    if infos == [] then {}
    else
      var rest := RequestedFamilies(infos[1..]);
      assert forall j :: 1 <= j < |infos| ==> infos[j] == infos[1..][j - 1];
      {infos[0].queueFamilyIndex} + rest
  }

  /** A successful run adds exactly the requested families and no other. */
  lemma {:induction false} AddAllQueuesKeys(
    families: seq<QueueFamilyProperties>, queues: map<uint32, seq<Queue>>,
    infos: seq<DeviceQueueCreateInfo>, create: QueueFactory)
    requires FamiliesMapped(families)
    requires AddAllQueues(families, queues, infos, create).0 == Success
    ensures AddAllQueues(families, queues, infos, create).1.Keys == queues.Keys + RequestedFamilies(infos)
    decreases |infos|
  {
    if infos != [] {
      var (res, next) := CreateQueuesOutcome(families, queues, infos[0], create);
      AddAllQueuesKeys(families, next, infos[1..], create);
      assert next.Keys == queues.Keys + {infos[0].queueFamilyIndex};
    }
  }

  /** Requests for distinct families, each of which CreateQueues grants, all succeed: device
      creation fails only through a bad or repeated family or a native failure. */
  lemma {:induction false} AddAllQueuesSucceeds(
    families: seq<QueueFamilyProperties>, queues: map<uint32, seq<Queue>>,
    infos: seq<DeviceQueueCreateInfo>, create: QueueFactory)
    requires FamiliesMapped(families)
    requires forall j :: 0 <= j < |infos| ==> RequestGranted(families, queues, infos[j], create)
    requires forall j, k :: 0 <= j < k < |infos| ==> infos[j].queueFamilyIndex != infos[k].queueFamilyIndex
    ensures AddAllQueues(families, queues, infos, create).0 == Success
    decreases |infos|
  {
    if infos != [] {
      var f := infos[0].queueFamilyIndex;
      var t := CommandListTypeFor(families[f].queueFlags).value;
      var next := queues[f := CreatedQueues(f, t, infos[0].queueCount, create)];
      assert CreateQueuesOutcome(families, queues, infos[0], create) == (Success, next);
      forall j | 0 <= j < |infos[1..]|
        ensures RequestGranted(families, next, infos[1..][j], create)
      {
        assert infos[1..][j] == infos[j + 1];
      }
      AddAllQueuesSucceeds(families, next, infos[1..], create);
    }
  }

  /** After a successful run of requests, each requested family holds exactly the queues its
      request made, in creation order, of the type its flags map to. */
  lemma {:induction false} AddAllQueuesContents(
    families: seq<QueueFamilyProperties>, queues: map<uint32, seq<Queue>>,
    infos: seq<DeviceQueueCreateInfo>, create: QueueFactory, j: nat)
    requires FamiliesMapped(families)
    requires AddAllQueues(families, queues, infos, create).0 == Success && j < |infos|
    ensures var f := infos[j].queueFamilyIndex;
      && f < |families|
      && AddAllQueues(families, queues, infos, create).1[f]
         == CreatedQueues(f, CommandListTypeFor(families[f].queueFlags).value, infos[j].queueCount, create)
    decreases |infos|
  {
    var (res, next) := CreateQueuesOutcome(families, queues, infos[0], create);
    if j > 0 {
      AddAllQueuesContents(families, next, infos[1..], create, j - 1);
    }
  }

  /** The end-to-end test's request: one queue of the transfer family of a D3D12 device. When
      the native call succeeds the device holds exactly that queue, of the copy type. */
  lemma TransferQueueRequest(create: QueueFactory)
    requires create(2, Copy, 0).Some?
    ensures AddAllQueues(D12QueueFamilies(), map[], [DeviceQueueCreateInfo(2, 1)], create)
      == (Success, map[2 := [Queue(2, Copy, create(2, Copy, 0).value)]])
  {
    var infos := [DeviceQueueCreateInfo(2, 1)];
    var made := CreatedQueues(2, Copy, 1, create);
    assert made == [Queue(2, Copy, create(2, Copy, 0).value)];
    assert CreateQueuesOutcome(D12QueueFamilies(), map[], infos[0], create) == (Success, map[2 := made]);
    assert infos[1..] == [];
  }

  // ---------------------------------------------------------------- objects

  /** A MirvPhysicalDevice_D12. Immutable once built. */
  class PhysicalDevice {
    const adapter: AdapterId
    const properties: PhysicalDeviceProperties
    const queueFamilies: seq<QueueFamilyProperties> := D12QueueFamilies()

    /** MirvPhysicalDevice_D12(adapter, umdVersion, desc): the base defaults, then the driver
        version, identifiers, device type and name from the adapter. */
    constructor (adapter: AdapterId, umdVersion: LargeInteger, desc: AdapterDesc)
      ensures this.adapter == adapter
      ensures properties == D12Properties(umdVersion, desc)
    {
      var props := BaseProperties();
      props := props.(driverVersion := DriverVersion(umdVersion));
      props := props.(vendorID := desc.vendorId, deviceID := desc.deviceId);
      props := props.(deviceType := DeviceType(desc));
      props := props.(deviceName := DeviceName(desc));
      this.adapter := adapter;
      properties := props;
    }

    function Info(): PhysicalDeviceInfo {
      PhysicalDeviceInfo(adapter, properties, queueFamilies)
    }

    /** MirvPhysicalDevice_D12::CreateDevice: a native device failure gives
        ErrorInitializationFailed; otherwise the first failing queue request's result. The device
        is handed out only when every request succeeded. */
    method CreateDevice(createInfo: DeviceCreateInfo, nativeDevice: Option<NativeDevice>, create: QueueFactory)
      returns (res: VkResult, device: Device?)
      ensures nativeDevice.None? ==> res == ErrorInitializationFailed
      ensures nativeDevice.Some? ==> res == AddAllQueues(queueFamilies, map[], createInfo.queueCreateInfos, create).0
      ensures device != null <==> res == Success
      ensures device != null ==> fresh(device) && device.physDev == this && device.native == nativeDevice.value
      ensures device != null ==>
        device.queuesByFamily == AddAllQueues(queueFamilies, map[], createInfo.queueCreateInfos, create).1
    {
      D12FamiliesMapped();
      if nativeDevice.None? {
        return ErrorInitializationFailed, null;
      }
      var dev := new Device(this, nativeDevice.value);
      var infos := createInfo.queueCreateInfos;
      var i := 0;
      while i < |infos|
        invariant 0 <= i <= |infos|
        invariant dev.physDev == this && dev.native == nativeDevice.value
        invariant AddAllQueues(queueFamilies, dev.queuesByFamily, infos[i..], create)
               == AddAllQueues(queueFamilies, map[], infos, create)
      {
        var r := dev.CreateQueues(infos[i], create);
        if r != Success {
          return r, null;
        }
        assert infos[i..][1..] == infos[i + 1..];
        i := i + 1;
      }
      return Success, dev;
    }
  }

  /** A MirvDevice_D12: its physical device, its native device and its queues by family. */
  class Device {
    const physDev: PhysicalDevice
    const native: NativeDevice
    var queuesByFamily: map<uint32, seq<Queue>>

    /** MirvDevice(physDev) and MirvDevice_D12: keeps the physical device as back-reference and
        starts with no queues. */
    constructor (physDev: PhysicalDevice, native: NativeDevice)
      ensures this.physDev == physDev && this.native == native && queuesByFamily == map[]
    {
      this.physDev := physDev;
      this.native := native;
      queuesByFamily := map[];
    }

    /** MirvDevice_D12::CreateQueues: range and duplicate checks, then `queueCount` native
        queues of the family's type, stopping at the first failure. */
    method CreateQueues(info: DeviceQueueCreateInfo, create: QueueFactory) returns (res: VkResult)
      modifies this
      ensures (res, queuesByFamily) == CreateQueuesOutcome(physDev.queueFamilies, old(queuesByFamily), info, create)
    {
      D12FamiliesMapped();
      var f := info.queueFamilyIndex;
      if f >= |physDev.queueFamilies| {
        return ErrorInitializationFailed;
      }
      var familyInfo := physDev.queueFamilies[f];
      if f in queuesByFamily {
        return ErrorInitializationFailed;
      }
      var t := CommandListTypeFor(familyInfo.queueFlags).value;
      ghost var before := queuesByFamily;
      queuesByFamily := queuesByFamily[f := []];
      var made := AppendQueues(f, t, info.queueCount, create);
      assert queuesByFamily == before[f := CreatedQueues(f, t, info.queueCount, create)];
      return if made then Success else ErrorInitializationFailed;
    }

    /** The counted loop of CreateQueues: appends native queues to family `f`'s (empty) vector
        until `count` are made or a native call fails; `made` tells which. */
    method AppendQueues(f: uint32, t: CommandListType, count: uint32, create: QueueFactory) returns (made: bool)
      requires f in queuesByFamily && queuesByFamily[f] == []
      modifies this`queuesByFamily
      ensures queuesByFamily == old(queuesByFamily)[f := CreatedQueues(f, t, count, create)]
      ensures made <==> |CreatedQueues(f, t, count, create)| == count
    {
      var i := 0;
      while i < count
        invariant 0 <= i <= count
        invariant |CreatedQueues(f, t, i, create)| == i
        invariant queuesByFamily == old(queuesByFamily)[f := CreatedQueues(f, t, i, create)]
      {
        var queue := create(f, t, i);
        if queue.None? {
          CreatedQueuesStop(f, t, i, count, create);
          return false;
        }
        queuesByFamily := queuesByFamily[f := queuesByFamily[f] + [Queue(f, t, queue.value)]];
        i := i + 1;
      }
      return true;
    }
  }

  // ---------------------------------------------------------------- backend

  /** An adapter the backend wraps: both probes succeeded. */
  predicate Usable(a: Adapter) {
    a.umdVersion.Some? && a.desc.Some?
  }

  /** The adapters that survive EnumeratePhysicalDevices' filter, in enumeration order. */
  function UsableAdapters(adapters: seq<Adapter>): (r: seq<Adapter>)
    ensures |r| <= |adapters|
    ensures forall a :: a in r <==> a in adapters && Usable(a)
    ensures (forall i :: 0 <= i < |adapters| ==> Usable(adapters[i])) ==> r == adapters
  {
    if adapters == [] then []
    else
      var last := adapters[|adapters| - 1];
      UsableAdapters(adapters[..|adapters| - 1]) + if Usable(last) then [last] else []
  }

  /** The filter distributes over concatenation, so, with the one-adapter case, each usable
      adapter is kept exactly once and in its enumeration position. */
  lemma {:induction false} UsableAdaptersConcat(a: seq<Adapter>, b: seq<Adapter>)
    ensures UsableAdapters(a + b) == UsableAdapters(a) + UsableAdapters(b)
  {
    if b == [] {
      assert a + b == a;
    } else {
      var init, last := b[..|b| - 1], b[|b| - 1];
      var tail := if Usable(last) then [last] else [];
      assert (a + b)[..|a + b| - 1] == a + init;
      assert (a + b)[|a + b| - 1] == last;
      assert UsableAdapters(a + b) == UsableAdapters(a + init) + tail;
      UsableAdaptersConcat(a, init);
      assert UsableAdapters(b) == UsableAdapters(init) + tail;
    }
  }

  /** The physical device built from a usable adapter. */
  function AdapterInfo(a: Adapter): PhysicalDeviceInfo
    requires Usable(a)
  {
    PhysicalDeviceInfo(a.id, D12Properties(a.umdVersion.value, a.desc.value), D12QueueFamilies())
  }

  /** What a backend over `adapters` enumerates: one physical device per usable adapter. */
  function BackendDevices(adapters: seq<Adapter>): seq<PhysicalDeviceInfo> {
    if adapters == [] then []
    else
      var last := adapters[|adapters| - 1];
      BackendDevices(adapters[..|adapters| - 1]) + if Usable(last) then [AdapterInfo(last)] else []
  }

  /** The backend's physical devices are exactly its usable adapters, each wrapped, in order. */
  lemma {:induction false} BackendDevicesAreUsableAdapters(adapters: seq<Adapter>)
    ensures |BackendDevices(adapters)| == |UsableAdapters(adapters)|
    ensures forall i :: 0 <= i < |BackendDevices(adapters)| ==>
      BackendDevices(adapters)[i] == AdapterInfo(UsableAdapters(adapters)[i])
  {
    if adapters != [] {
      var init, last := adapters[..|adapters| - 1], adapters[|adapters| - 1];
      BackendDevicesAreUsableAdapters(init);
      assert BackendDevices(adapters) == BackendDevices(init) + if Usable(last) then [AdapterInfo(last)] else [];
      assert UsableAdapters(adapters) == UsableAdapters(init) + if Usable(last) then [last] else [];
      forall i | 0 <= i < |BackendDevices(init)|
        ensures BackendDevices(adapters)[i] == AdapterInfo(UsableAdapters(adapters)[i])
      {
        assert BackendDevices(adapters)[i] == BackendDevices(init)[i];
        assert UsableAdapters(adapters)[i] == UsableAdapters(init)[i];
      }
    }
  }

  function Infos(pds: seq<PhysicalDevice>): seq<PhysicalDeviceInfo> {
    if pds == [] then [] else Infos(pds[..|pds| - 1]) + [pds[|pds| - 1].Info()]
  }

  lemma InfosAppend(pds: seq<PhysicalDevice>, pd: PhysicalDevice)
    ensures Infos(pds + [pd]) == Infos(pds) + [pd.Info()]
  {
    assert (pds + [pd])[..|pds|] == pds;
  }

  /** A MirvInstanceBackend_D12; `adapters` is what its factory's EnumAdapters1 yields. */
  class Backend {
    const adapters: seq<Adapter>

    constructor (adapters: seq<Adapter>)
      ensures this.adapters == adapters
    {
      this.adapters := adapters;
    }

    /** EnumeratePhysicalDevices: a new physical device for each adapter whose probes succeed,
        in adapter order; the others are skipped silently. */
    method EnumeratePhysicalDevices() returns (pds: seq<PhysicalDevice>)
      ensures Infos(pds) == BackendDevices(adapters)
      ensures forall p :: p in pds ==> fresh(p)
    {
      pds := [];
      var i := 0;
      while i < |adapters|
        invariant 0 <= i <= |adapters|
        invariant Infos(pds) == BackendDevices(adapters[..i])
        invariant forall p :: p in pds ==> fresh(p)
      {
        var a := adapters[i];
        assert adapters[..i + 1][..i] == adapters[..i];
        if a.umdVersion.Some? && a.desc.Some? {
          var pd := new PhysicalDevice(a.id, a.umdVersion.value, a.desc.value);
          InfosAppend(pds, pd);
          pds := pds + [pd];
        }
        i := i + 1;
      }
      assert adapters[..i] == adapters;
    }
  }
}
