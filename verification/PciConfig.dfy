/**
 * Decoding of a PCI function's 512-byte configuration snapshot.
 *
 * Offsets follow the type 0/1 configuration header of the PCI Local Bus
 * Specification 3.0, section 6.1; the port type comes from the PCI Express
 * Capabilities register (section 7.5.3.2 of the PCI Express Base
 * Specification 4.0) and the link fields from the Link Status register.
 */
module PciConfig {
  import opened Common

  /** A snapshot is exactly 0x200 bytes; anything else is never recorded. */
  type ConfigSpace = s: seq<u8> | |s| == 0x200 witness seq(0x200, _ => 0)

  const PCI_BRIDGE_CLASS: u32 := 0x060400
  const NETWORK_ETHERNET_CLASS: u32 := 0x020000
  const NETWORK_OTHER_CLASS: u32 := 0x028000

  const PCIE_CAP_ID: u8 := 0x10
  /** At most 48 capabilities fit between offsets 0x40 and 0x100. */
  const MAX_CAPABILITIES: nat := 48

  /** Device/Port Type values of the PCI Express Capabilities register. */
  const PCIE_ROOT_PORT: u16 := 4
  const PCIE_UPSTREAM_SWITCH_PORT: u16 := 5
  const PCIE_DOWNSTREAM_SWITCH_PORT: u16 := 6

  /** Little-endian 16-bit register at `off`. */
  function WordAt(cfg: ConfigSpace, off: nat): (w: u16)
    requires off + 1 < 0x200
    ensures w & 0xFF == cfg[off] as u16 && w >> 8 == cfg[off + 1] as u16
  {
    (cfg[off + 1] as u16 << 8) | cfg[off] as u16
  }

  function VendorId(cfg: ConfigSpace): u16 { WordAt(cfg, 0x00) }
  function DeviceId(cfg: ConfigSpace): u16 { WordAt(cfg, 0x02) }
  function Command(cfg: ConfigSpace): u16 { WordAt(cfg, 0x04) }
  function HeaderType(cfg: ConfigSpace): u8 { cfg[0x0E] }
  function CapabilitiesPtr(cfg: ConfigSpace): u8 { cfg[0x34] }
  function SecondaryBus(cfg: ConfigSpace): u8 { cfg[0x19] }
  function SubordinateBus(cfg: ConfigSpace): u8 { cfg[0x1A] }

  /** Base class, sub-class and programming interface, bytes 0x0B..0x09. */
  function ClassCode(cfg: ConfigSpace): u32
  {
    (cfg[0x0B] as u32 << 16) | (cfg[0x0A] as u32 << 8) | cfg[0x09] as u32
  }

  /** Bit 2 of the command register: the function may master the bus (DMA). */
  predicate BusMaster(command: u16)
  {
    command & 0x4 != 0
  }

  /** Bit 7 of the header type: the device has more than one function. */
  predicate MultiFunction(cfg: ConfigSpace)
  {
    HeaderType(cfg) & 0x80 != 0
  }

  /** Bits 6..0 of the header type: 0 general device, 1 PCI-to-PCI bridge. */
  function HeaderLayout(cfg: ConfigSpace): u8
  {
    HeaderType(cfg) & 0x7F
  }

  /** The first capability in the list starting at `ptr` whose id is `id`. */
  function WalkCapabilities(cfg: ConfigSpace, ptr: nat, id: u8, fuel: nat): (r: Option<nat>)
    requires ptr < 0x100
    ensures r.Some? ==> 0 < r.value < 0x100 && cfg[r.value] == id
    decreases fuel
  {
    if ptr == 0 || fuel == 0 then None
    else if cfg[ptr] == id then Some(ptr)
    else WalkCapabilities(cfg, cfg[ptr + 1] as nat, id, fuel - 1)
  }

  /** Offset of the capability with the given id, starting at the capabilities pointer. */
  function FindCapability(cfg: ConfigSpace, id: u8): Option<nat>
  {
    WalkCapabilities(cfg, CapabilitiesPtr(cfg) as nat, id, MAX_CAPABILITIES)
  }

  /** Offset of the PCI Express capability structure, if any. */
  function PcieCap(cfg: ConfigSpace): (r: Option<nat>)
    ensures r.Some? ==> r.value < 0x100 && cfg[r.value] == PCIE_CAP_ID
  {
    FindCapability(cfg, PCIE_CAP_ID)
  }

  /** Device/Port Type (bits 7..4 of the PCI Express Capabilities register); 0 without the capability. */
  function PortType(cfg: ConfigSpace): (t: u16)
    ensures t <= 0xF
    ensures PcieCap(cfg).None? ==> t == 0
  {
    match PcieCap(cfg)
    case None => 0
    case Some(cap) => (WordAt(cfg, cap + 0x02) >> 4) & 0xF
  }

  /** Current Link Speed (bits 3..0 of the Link Status register); 0 without the capability. */
  function LinkSpeed(cfg: ConfigSpace): (s: u16)
    ensures s <= 0xF
  {
    match PcieCap(cfg)
    case None => 0
    case Some(cap) => WordAt(cfg, cap + 0x12) & 0xF
  }

  /** Negotiated Link Width (bits 9..4 of the Link Status register); 0 without the capability. */
  function LinkWidth(cfg: ConfigSpace): (w: u16)
    ensures w <= 0x3F
  {
    match PcieCap(cfg)
    case None => 0
    case Some(cap) => (WordAt(cfg, cap + 0x12) >> 4) & 0x3F
  }

  /** Config bytes 0x04..0x0B all read 0xFF: no function answers at this address. */
  predicate Absent(cfg: ConfigSpace)
  {
    && cfg[0x04] == 0xFF && cfg[0x05] == 0xFF && cfg[0x06] == 0xFF && cfg[0x07] == 0xFF
    && cfg[0x08] == 0xFF && cfg[0x09] == 0xFF && cfg[0x0A] == 0xFF && cfg[0x0B] == 0xFF
  }

  /** Number of 0xFF bytes in `s`. */
  function CountFF(s: seq<u8>): (n: nat)
    ensures n <= |s|
    ensures n == |s| <==> forall i | 0 <= i < |s| :: s[i] == 0xFF
  {
    if s == [] then 0
    else
      var rest := CountFF(s[..|s| - 1]);
      assert forall i | 0 <= i < |s| - 1 :: s[..|s| - 1][i] == s[i];
      rest + (if s[|s| - 1] == 0xFF then 1 else 0)
  }

  /**
   * One discovered function: where it sits, where its config space is mapped,
   * its snapshot, and (for a function-0 endpoint) the other functions of the
   * device gathered under it.
   */
  datatype DeviceInfo = DeviceInfo(
    bus: u8, slot: u8, func: u8,
    cfg: ConfigSpace,
    physicalAddress: u64,
    children: seq<DeviceInfo>)

  /** A device to classify, its parent bridge, and the verdict so far (blk 0 none, 1 warn, 2 block). */
  datatype PcieDeviceInfo = PcieDeviceInfo(blk: u8, info: u8, d: DeviceInfo, p: DeviceInfo)

  /** The value-initialised record that stands for "no parent" at the root. */
  const ZERO_DEVICE: DeviceInfo := DeviceInfo(0, 0, 0, Zeros(0x200), 0, [])

  /** A PCI-to-PCI bridge class with a type 1 (non-zero) header layout. */
  predicate IsBridgeDevice(d: DeviceInfo)
  {
    ClassCode(d.cfg) == PCI_BRIDGE_CLASS && HeaderLayout(d.cfg) != 0
  }

  /** An entry still unclassified, as discovery creates it. */
  function NewEntry(d: DeviceInfo, p: DeviceInfo): PcieDeviceInfo
  {
    PcieDeviceInfo(0, 0, d, p)
  }
}
