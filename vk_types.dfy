/** Types, constants and result codes of the Vulkan 1.0 API surface that the layer exposes. */
module VkTypes {

  /** C's uint32_t. */
  type uint32 = x: int | 0 <= x < 0x1_0000_0000

  /** C's int32_t (the signed LONG of a LARGE_INTEGER's high part). */
  type int32 = x: int | -0x8000_0000 <= x < 0x8000_0000

  /** One byte of a C character array. */
  type byte = x: int | 0 <= x < 0x100

  const UINT32_MAX: uint32 := 0xFFFF_FFFF

  datatype Option<+T> = None | Some(value: T)

  /** The VkResult values this layer returns. */
  datatype VkResult =
    | Success
    | Incomplete
    | ErrorInitializationFailed
    | ErrorLayerNotPresent
    | ErrorExtensionNotPresent
    | ErrorIncompatibleDriver
    | ErrorValidationFailed
    | ErrorNotImplemented

  /** The numeric value of each result on the Vulkan ABI; ErrorNotImplemented is the layer's own
      VK_ERROR_NOT_IMPLEMENTED, -2000*1000*1000. */
  function Code(r: VkResult): (c: int)
    ensures c == 0 <==> r == Success
    ensures c < 0 <==> r != Success && r != Incomplete
  {
    match r
    case Success => 0
    case Incomplete => 5
    case ErrorInitializationFailed => -3
    case ErrorLayerNotPresent => -6
    case ErrorExtensionNotPresent => -7
    case ErrorIncompatibleDriver => -9
    case ErrorValidationFailed => -1000011001
    case ErrorNotImplemented => -2000 * 1000 * 1000
  }

  /** VK_MAKE_VERSION(1, 0, 0). */
  const VK_API_VERSION_1_0: uint32 := 0x40_0000

  const VK_MAX_PHYSICAL_DEVICE_NAME_SIZE: nat := 256

  const VK_STRUCTURE_TYPE_APPLICATION_INFO: uint32 := 0
  const VK_STRUCTURE_TYPE_INSTANCE_CREATE_INFO: uint32 := 1
  const VK_STRUCTURE_TYPE_DEVICE_QUEUE_CREATE_INFO: uint32 := 2
  const VK_STRUCTURE_TYPE_DEVICE_CREATE_INFO: uint32 := 3

  const VK_QUEUE_GRAPHICS_BIT: bv32 := 0x1
  const VK_QUEUE_COMPUTE_BIT: bv32 := 0x2
  const VK_QUEUE_TRANSFER_BIT: bv32 := 0x4

  /** VkPhysicalDeviceType; a zero-filled properties block reads as Other. */
  datatype PhysicalDeviceType = Other | IntegratedGpu | DiscreteGpu | VirtualGpu | Cpu

  datatype Extent3D = Extent3D(width: uint32, height: uint32, depth: uint32)

  datatype QueueFamilyProperties = QueueFamilyProperties(
    queueFlags: bv32,
    queueCount: uint32,
    timestampValidBits: uint32,
    minImageTransferGranularity: Extent3D)

  /** VkPhysicalDeviceProperties without the limits and sparse-properties blocks. */
  datatype PhysicalDeviceProperties = PhysicalDeviceProperties(
    apiVersion: uint32,
    driverVersion: uint32,
    vendorID: uint32,
    deviceID: uint32,
    deviceType: PhysicalDeviceType,
    deviceName: seq<byte>)

  /** VkApplicationInfo: the fields the layer reads (pNext only as null or not). */
  datatype ApplicationInfo = ApplicationInfo(sType: uint32, hasNext: bool, apiVersion: uint32)

  /** VkInstanceCreateInfo: the fields the layer reads; a null pApplicationInfo is None. */
  datatype InstanceCreateInfo = InstanceCreateInfo(
    sType: uint32,
    hasNext: bool,
    flags: uint32,
    applicationInfo: Option<ApplicationInfo>,
    enabledLayerCount: uint32,
    enabledExtensionCount: uint32)

  /** VkDeviceQueueCreateInfo; the priorities are never read. */
  datatype DeviceQueueCreateInfo = DeviceQueueCreateInfo(queueFamilyIndex: uint32, queueCount: uint32)

  /** VkDeviceCreateInfo: pQueueCreateInfos[0 .. queueCreateInfoCount) as a sequence. */
  datatype DeviceCreateInfo = DeviceCreateInfo(sType: uint32, queueCreateInfos: seq<DeviceQueueCreateInfo>)

  datatype LayerProperties = LayerProperties(layerName: seq<byte>, specVersion: uint32)

  datatype ExtensionProperties = ExtensionProperties(extensionName: seq<byte>, specVersion: uint32)
}
