/**
 * Classification of discovered PCIe functions and remediation of the
 * suspicious ones.
 *
 * Each entry carries a verdict: blk 0 (not classified), 1 (warn) or 2
 * (block), and an info code naming the rule that fired. The configuration
 * rules and the driver/feature rules are ordered; the first rule that
 * matches decides, and an entry that already carries a verdict is never
 * examined again. With remediation requested, the bus-master bit of each
 * flagged entry's parent bridge is cleared by a write to the bridge's
 * memory-mapped configuration space and restored afterwards.
 */
module PciValidation {
  import opened Common
  import opened PciConfig

  /** The message printed for an info code; "OK" for codes that name no rule. */
  function BlkInfo(info: u8): (s: string)
    ensures s == "OK" <==> !(1 <= info <= 19)
  {
    match info
    case 1 => "pcileech"
    case 2 => "bus master off"
    case 3 => "xilinx"
    case 4 => "invalid bridge"
    case 5 => "hidden device"
    case 6 => "invalid pm cap"
    case 7 => "invalid msi cap"
    case 8 => "invalid pcie cap"
    case 9 => "invalid multi func device"
    case 10 => "invalid header type 0"
    case 11 => "invalid header type 1"
    case 12 => "invalid header type"
    case 13 => "invalid config"
    case 14 => "invalid device type"
    case 15 => "port/device mismatch"
    case 16 => "driverless card"
    case 17 => "invalid network adapter"
    case 18 => "no network connections"
    case 19 => "driverless card with bus master"
    case _ => "OK"
  }

  /** A rule's outcome: the blk level and the info code it records. */
  datatype Verdict = Verdict(blk: u8, info: u8)

  /** The entry with the verdict recorded, or unchanged when no rule fired. */
  function Classify(e: PcieDeviceInfo, v: Option<Verdict>): (r: PcieDeviceInfo)
    ensures r.d == e.d && r.p == e.p
    ensures v.None? ==> r == e
    ensures v.Some? ==> r.blk == v.value.blk && r.info == v.value.info
  {
    match v
    case None => e
    case Some(verdict) => e.(blk := verdict.blk, info := verdict.info)
  }

  /** Some function gathered under the device has its bus-master bit set. */
  predicate AnyBusMaster(children: seq<DeviceInfo>)
  {
    exists c | c in children :: BusMaster(Command(c.cfg))
  }

  /** Some function gathered under the device reads vendor and device id 0xFFFF. */
  predicate AnyHidden(children: seq<DeviceInfo>)
  {
    exists c | c in children :: DeviceId(c.cfg) == 0xFFFF && VendorId(c.cfg) == 0xFFFF
  }

  /** The last rule: the header layout must agree with the PCI Express port type. */
  function HeaderVerdict(cfg: ConfigSpace): Option<Verdict>
  {
    var portType := PortType(cfg);
    if HeaderLayout(cfg) == 1 then
      if portType != PCIE_DOWNSTREAM_SWITCH_PORT && portType != PCIE_UPSTREAM_SWITCH_PORT
         && portType != PCIE_ROOT_PORT
      then Some(Verdict(2, 11))
      else None
    else if HeaderLayout(cfg) == 0 then
      if portType >= PCIE_ROOT_PORT then Some(Verdict(2, 10)) else None
    else Some(Verdict(2, 12))
  }

  /**
   * The configuration rules of validate_device_config in their order, for
   * device `d` below port `p`; None when the device passes them all or is
   * let through because another function of it masters the bus.
   */
  function ConfigVerdict(d: DeviceInfo, p: DeviceInfo): (v: Option<Verdict>)
    ensures v.Some? ==> v.value in {
      Verdict(2, 15), Verdict(2, 14), Verdict(1, 2), Verdict(2, 13), Verdict(2, 5),
      Verdict(2, 8), Verdict(2, 9), Verdict(2, 11), Verdict(2, 12)}
  {
    var pcie := PcieCap(d.cfg);
    if pcie.Some? && LinkSpeed(d.cfg) > LinkSpeed(p.cfg) then Some(Verdict(2, 15))
    else if pcie.Some? && LinkWidth(d.cfg) > LinkWidth(p.cfg) then Some(Verdict(2, 15))
    else if pcie.Some? && PortType(d.cfg) >= PCIE_ROOT_PORT then Some(Verdict(2, 14))
    else if !BusMaster(Command(d.cfg)) then
      (if MultiFunction(d.cfg) && AnyBusMaster(d.children) then None else Some(Verdict(1, 2)))
    else if CapabilitiesPtr(d.cfg) == 0 then Some(Verdict(2, 13))
    else if DeviceId(d.cfg) == 0xFFFF && VendorId(d.cfg) == 0xFFFF then Some(Verdict(2, 5))
    else if DeviceId(d.cfg) == 0x0000 && VendorId(d.cfg) == 0x0000 then Some(Verdict(2, 5))
    else if pcie.None? then Some(Verdict(2, 8))
    else if AnyHidden(d.children) then Some(Verdict(2, 9))
    else if MultiFunction(d.cfg) && |d.children| == 0 then Some(Verdict(2, 9))
    else HeaderVerdict(d.cfg)
  }

  /** The PCI Express checks that come first: link no faster or wider than the port's, and not a port itself. */
  predicate PcieChecksPass(d: DeviceInfo, p: DeviceInfo)
  {
    PcieCap(d.cfg).Some? ==>
      LinkSpeed(d.cfg) <= LinkSpeed(p.cfg) && LinkWidth(d.cfg) <= LinkWidth(p.cfg)
      && PortType(d.cfg) < PCIE_ROOT_PORT
  }

  /** Every rule before the header-type check lets the device through. */
  predicate ReachesHeaderCheck(d: DeviceInfo, p: DeviceInfo)
  {
    && PcieChecksPass(d, p)
    && BusMaster(Command(d.cfg))
    && CapabilitiesPtr(d.cfg) != 0
    && !(DeviceId(d.cfg) == 0xFFFF && VendorId(d.cfg) == 0xFFFF)
    && !(DeviceId(d.cfg) == 0x0000 && VendorId(d.cfg) == 0x0000)
    && PcieCap(d.cfg).Some?
    && !AnyHidden(d.children)
    && !(MultiFunction(d.cfg) && |d.children| == 0)
  }

  /** A device with a PCI Express link faster or wider than its port's is blocked as a port/device mismatch, and only then. */
  lemma LinkMismatchRule(d: DeviceInfo, p: DeviceInfo)
    ensures ConfigVerdict(d, p) == Some(Verdict(2, 15)) <==>
      PcieCap(d.cfg).Some? && (LinkSpeed(d.cfg) > LinkSpeed(p.cfg) || LinkWidth(d.cfg) > LinkWidth(p.cfg))
  {
  }

  /**
   * Past the PCI Express checks, a device whose bus-master bit is clear is a
   * warning, unless it is multi-function and another of its functions masters
   * the bus, in which case no rule fires at all.
   */
  lemma BusMasterOffRule(d: DeviceInfo, p: DeviceInfo)
    requires PcieChecksPass(d, p) && !BusMaster(Command(d.cfg))
    ensures ConfigVerdict(d, p) == (if MultiFunction(d.cfg) && AnyBusMaster(d.children) then None else Some(Verdict(1, 2)))
  {
  }

  /** Bus master off is reported exactly for devices that pass the PCI Express checks and have no bus-mastering sibling to excuse them. */
  lemma BusMasterOffExactly(d: DeviceInfo, p: DeviceInfo)
    ensures ConfigVerdict(d, p) == Some(Verdict(1, 2)) <==>
      PcieChecksPass(d, p) && !BusMaster(Command(d.cfg)) && !(MultiFunction(d.cfg) && AnyBusMaster(d.children))
  {
  }

  /** A device that reaches the last rule is judged by its header layout alone. */
  lemma HeaderTypeRule(d: DeviceInfo, p: DeviceInfo)
    requires ReachesHeaderCheck(d, p)
    ensures ConfigVerdict(d, p) == HeaderVerdict(d.cfg)
    ensures HeaderLayout(d.cfg) == 1 ==> ConfigVerdict(d, p) == Some(Verdict(2, 11))
    ensures HeaderLayout(d.cfg) == 0 ==> ConfigVerdict(d, p) == None
    ensures HeaderLayout(d.cfg) > 1 ==> ConfigVerdict(d, p) == Some(Verdict(2, 12))
  {
  }

  /**
   * "invalid header type 0" is never reported: a device with a root-port or
   * higher port type is already blocked as an invalid device type.
   */
  lemma NoHeaderType0Verdict(d: DeviceInfo, p: DeviceInfo)
    ensures ConfigVerdict(d, p) != Some(Verdict(2, 10))
    ensures HeaderVerdict(d.cfg) == Some(Verdict(2, 10)) ==> ConfigVerdict(d, p) != HeaderVerdict(d.cfg)
  {
  }

  /** A device reading all-ones or all-zero identifiers is blocked as hidden once it is past the earlier rules. */
  lemma HiddenDeviceRule(d: DeviceInfo, p: DeviceInfo)
    requires PcieChecksPass(d, p) && BusMaster(Command(d.cfg)) && CapabilitiesPtr(d.cfg) != 0
    requires (DeviceId(d.cfg) == 0xFFFF && VendorId(d.cfg) == 0xFFFF) || (DeviceId(d.cfg) == 0 && VendorId(d.cfg) == 0)
    ensures ConfigVerdict(d, p) == Some(Verdict(2, 5))
  {
  }

  /** The scan of validate_device_config for a gathered function with bus mastering enabled. */
  method FindBusMaster(children: seq<DeviceInfo>) returns (found: bool)
    ensures found <==> AnyBusMaster(children)
  {
    for i := 0 to |children|
      invariant forall j | 0 <= j < i :: !BusMaster(Command(children[j].cfg))
    {
      if BusMaster(Command(children[i].cfg)) {
        return true;
      }
    }
    return false;
  }

  /** The scan of validate_device_config for a gathered function reading all-ones identifiers. */
  method FindHidden(children: seq<DeviceInfo>) returns (found: bool)
    ensures found <==> AnyHidden(children)
  {
    for i := 0 to |children|
      invariant forall j | 0 <= j < i :: !(DeviceId(children[j].cfg) == 0xFFFF && VendorId(children[j].cfg) == 0xFFFF)
    {
      var child := children[i];
      if DeviceId(child.cfg) == 0xFFFF && VendorId(child.cfg) == 0xFFFF {
        return true;
      }
    }
    return false;
  }

  /** The loops of validate_device_config over the gathered functions, verdict written into the entry. */
  method ValidateDeviceConfig(device: PcieDeviceInfo) returns (updated: PcieDeviceInfo)
    ensures updated == Classify(device, ConfigVerdict(device.d, device.p))
  {
    updated := device;
    var dev := device.d;
    var port := device.p;
    var pcie := PcieCap(dev.cfg);
    if pcie.Some? {
      // compare the link with the port's
      if LinkSpeed(dev.cfg) > LinkSpeed(port.cfg) {
        updated := updated.(blk := 2, info := 15);
        return;
      }
      if LinkWidth(dev.cfg) > LinkWidth(port.cfg) {
        updated := updated.(blk := 2, info := 15);
        return;
      }
      // an endpoint is never a port
      if PortType(dev.cfg) >= PCIE_ROOT_PORT {
        updated := updated.(blk := 2, info := 14);
        return;
      }
    }
    if !BusMaster(Command(dev.cfg)) {
      if MultiFunction(dev.cfg) {
        var allow := FindBusMaster(dev.children);
        if allow {
          return;
        }
      }
      updated := updated.(blk := 1, info := 2);
      return;
    }
    if CapabilitiesPtr(dev.cfg) == 0 {
      updated := updated.(blk := 2, info := 13);
      return;
    }
    if DeviceId(dev.cfg) == 0xFFFF && VendorId(dev.cfg) == 0xFFFF {
      updated := updated.(blk := 2, info := 5);
      return;
    }
    if DeviceId(dev.cfg) == 0x0000 && VendorId(dev.cfg) == 0x0000 {
      updated := updated.(blk := 2, info := 5);
      return;
    }
    if pcie.None? {
      updated := updated.(blk := 2, info := 8);
      return;
    }
    var hidden := FindHidden(dev.children);
    if hidden {
      updated := updated.(blk := 2, info := 9);
      return;
    }
    if MultiFunction(dev.cfg) && |dev.children| == 0 {
      updated := updated.(blk := 2, info := 9);
      return;
    }
    var header := HeaderVerdict(dev.cfg);
    if header.Some? {
      updated := updated.(blk := header.value.blk, info := header.value.info);
    }
  }

  /** A Plug and Play adapter: the device instance id and the location of the function it drives. */
  datatype PnpAdapter = PnpAdapter(pnpId: string, bus: u8, slot: u8, func: u8)

  /** The adapter drives the function at `d`'s bus, slot and function numbers. */
  predicate Backs(a: PnpAdapter, d: DeviceInfo)
  {
    a.bus == d.bus && a.slot == d.slot && a.func == d.func
  }

  /** The first adapter of `pnp` that drives `d`. */
  function FirstAdapter(pnp: seq<PnpAdapter>, d: DeviceInfo): (r: Option<PnpAdapter>)
    ensures r.None? <==> forall k | 0 <= k < |pnp| :: !Backs(pnp[k], d)
    ensures r.Some? ==> exists k | 0 <= k < |pnp| ::
      pnp[k] == r.value && Backs(pnp[k], d) && forall j | 0 <= j < k :: !Backs(pnp[j], d)
  {
    if pnp == [] then None
    else if Backs(pnp[0], d) then Some(pnp[0])
    else
      var r := FirstAdapter(pnp[1..], d);
      assert forall k | 1 <= k < |pnp| :: pnp[k] == pnp[1..][k - 1];
      r
  }

  /**
   * The outcome of the network-adapter lookup for a Plug and Play id: None
   * when no network adapter carries that id, otherwise whether it is enabled.
   */
  function NetworkVerdict(status: Option<bool>): Option<Verdict>
  {
    match status
    case None => Some(Verdict(2, 17))
    case Some(enabled) => if enabled then None else Some(Verdict(1, 18))
  }

  /** The driver rules of validate_device_features for `d`, with `net` answering the network-adapter lookup. */
  function FeatureVerdict(d: DeviceInfo, pnp: seq<PnpAdapter>, net: string -> Option<bool>): Option<Verdict>
  {
    match FirstAdapter(pnp, d)
    case None =>
      if BusMaster(Command(d.cfg)) then Some(Verdict(2, 19)) else Some(Verdict(1, 16))
    case Some(adapter) =>
      if ClassCode(d.cfg) == NETWORK_ETHERNET_CLASS || ClassCode(d.cfg) == NETWORK_OTHER_CLASS
      then NetworkVerdict(net(adapter.pnpId))
      else None
  }

  /**
   * A function no driver backs is a driverless card, blocked when it masters
   * the bus and a warning otherwise; a backed function is judged only when it
   * is a network controller, by the state of its network adapter: missing
   * (blocked), disabled (a warning) or enabled (no verdict). A backed
   * function that is not a network controller gets no verdict.
   */
  lemma FeatureRules(d: DeviceInfo, pnp: seq<PnpAdapter>, net: string -> Option<bool>)
    ensures FeatureVerdict(d, pnp, net) == Some(Verdict(2, 19)) <==>
      (forall k | 0 <= k < |pnp| :: !Backs(pnp[k], d)) && BusMaster(Command(d.cfg))
    ensures FeatureVerdict(d, pnp, net) == Some(Verdict(1, 16)) <==>
      (forall k | 0 <= k < |pnp| :: !Backs(pnp[k], d)) && !BusMaster(Command(d.cfg))
    ensures FeatureVerdict(d, pnp, net) == Some(Verdict(2, 17)) <==>
      && FirstAdapter(pnp, d).Some?
      && (ClassCode(d.cfg) == NETWORK_ETHERNET_CLASS || ClassCode(d.cfg) == NETWORK_OTHER_CLASS)
      && net(FirstAdapter(pnp, d).value.pnpId) == None
    ensures FeatureVerdict(d, pnp, net) == Some(Verdict(1, 18)) <==>
      && FirstAdapter(pnp, d).Some?
      && (ClassCode(d.cfg) == NETWORK_ETHERNET_CLASS || ClassCode(d.cfg) == NETWORK_OTHER_CLASS)
      && net(FirstAdapter(pnp, d).value.pnpId) == Some(false)
    ensures FeatureVerdict(d, pnp, net).None? <==>
      && FirstAdapter(pnp, d).Some?
      && (!(ClassCode(d.cfg) == NETWORK_ETHERNET_CLASS || ClassCode(d.cfg) == NETWORK_OTHER_CLASS)
          || net(FirstAdapter(pnp, d).value.pnpId) == Some(true))
  {
  }

  /** The adapter loop of validate_device_features, verdict written into the entry. */
  method ValidateDeviceFeatures(device: PcieDeviceInfo, pnp: seq<PnpAdapter>, net: string -> Option<bool>)
    returns (updated: PcieDeviceInfo)
    ensures updated == Classify(device, FeatureVerdict(device.d, pnp, net))
  {
    updated := device;
    var found := false;
    var adapter := PnpAdapter([], 0, 0, 0);
    for i := 0 to |pnp|
      invariant !found ==> forall j | 0 <= j < i :: !Backs(pnp[j], device.d)
      invariant found ==> FirstAdapter(pnp, device.d) == Some(adapter)
    {
      if Backs(pnp[i], device.d) {
        found := true;
        adapter := pnp[i];
        FirstAdapterAt(pnp, device.d, i);
        break;
      }
    }
    if !found {
      // bus master was enabled without a driver
      if BusMaster(Command(device.d.cfg)) {
        updated := updated.(blk := 2, info := 19);
      } else {
        updated := updated.(blk := 1, info := 16);
      }
      return;
    }
    if ClassCode(device.d.cfg) == NETWORK_ETHERNET_CLASS || ClassCode(device.d.cfg) == NETWORK_OTHER_CLASS {
      var status := net(adapter.pnpId);
      if status.None? {
        updated := updated.(blk := 2, info := 17);
      } else if !status.value {
        updated := updated.(blk := 1, info := 18);
      }
    }
  }

  /** The first backing adapter is the one at the first backing index. */
  lemma {:induction false} FirstAdapterAt(pnp: seq<PnpAdapter>, d: DeviceInfo, i: nat)
    requires i < |pnp| && Backs(pnp[i], d)
    requires forall j | 0 <= j < i :: !Backs(pnp[j], d)
    ensures FirstAdapter(pnp, d) == Some(pnp[i])
  {
    if i > 0 {
      FirstAdapterAt(pnp[1..], d, i - 1);
    }
  }

  /** The two delays of the shadow-configuration probe of one entry, in milliseconds. */
  datatype ProbeTiming = ProbeTiming(a0Ticks: nat, a8Ticks: nat)

  const PROBE_LIMIT_MS: nat := 100

  /** The write at 0xA0 was fast but the one at 0xA8 was slow: the shadow-configuration signature. */
  predicate ShadowHit(t: ProbeTiming)
  {
    t.a0Ticks <= PROBE_LIMIT_MS && t.a8Ticks > PROBE_LIMIT_MS
  }

  /** The first index from `i` on whose probe shows the signature. */
  function FirstShadow(probe: seq<ProbeTiming>, i: nat): (r: Option<nat>)
    requires i <= |probe|
    ensures r.Some? ==>
      && i <= r.value < |probe| && ShadowHit(probe[r.value])
      && forall j | i <= j < r.value :: !ShadowHit(probe[j])
    ensures r.None? ==> forall j | i <= j < |probe| :: !ShadowHit(probe[j])
    decreases |probe| - i
  {
    if i == |probe| then None
    else if ShadowHit(probe[i]) then Some(i)
    else FirstShadow(probe, i + 1)
  }

  /** The probe pass: the first entry showing the signature is blocked as pcileech, and the pass stops there. */
  function ProbePass(es: seq<PcieDeviceInfo>, probe: seq<ProbeTiming>): (r: seq<PcieDeviceInfo>)
    requires |probe| == |es|
    ensures |r| == |es|
  {
    match FirstShadow(probe, 0)
    case None => es
    case Some(k) => es[k := es[k].(blk := 2, info := 1)]
  }

  /**
   * The probe pass blocks an entry exactly when its own probe shows the
   * signature and no earlier entry's does; every other entry is left as it was.
   */
  lemma ProbeBlocksFirstHitOnly(es: seq<PcieDeviceInfo>, probe: seq<ProbeTiming>, i: nat)
    requires |probe| == |es| && i < |es|
    ensures ProbePass(es, probe)[i] ==
      if ShadowHit(probe[i]) && forall j | 0 <= j < i :: !ShadowHit(probe[j])
      then es[i].(blk := 2, info := 1)
      else es[i]
  {
  }

  /** One entry of the configuration pass: an entry with a verdict is skipped. */
  function ConfigStep(e: PcieDeviceInfo): PcieDeviceInfo
  {
    if e.blk != 0 then e else Classify(e, ConfigVerdict(e.d, e.p))
  }

  /** One entry of the feature pass: an entry with a verdict is skipped. */
  function FeatureStep(e: PcieDeviceInfo, pnp: seq<PnpAdapter>, net: string -> Option<bool>): PcieDeviceInfo
  {
    if e.blk != 0 then e else Classify(e, FeatureVerdict(e.d, pnp, net))
  }

  /** The configuration pass over a list of entries. */
  function ConfigPass(es: seq<PcieDeviceInfo>): (r: seq<PcieDeviceInfo>)
    ensures |r| == |es|
    ensures forall i | 0 <= i < |es| :: r[i] == ConfigStep(es[i])
  {
    if es == [] then [] else ConfigPass(es[..|es| - 1]) + [ConfigStep(es[|es| - 1])]
  }

  /** The feature pass over a list of entries. */
  function FeaturePass(es: seq<PcieDeviceInfo>, pnp: seq<PnpAdapter>, net: string -> Option<bool>): (r: seq<PcieDeviceInfo>)
    ensures |r| == |es|
    ensures forall i | 0 <= i < |es| :: r[i] == FeatureStep(es[i], pnp, net)
  {
    if es == [] then [] else FeaturePass(es[..|es| - 1], pnp, net) + [FeatureStep(es[|es| - 1], pnp, net)]
  }

  /** The classification test_devices leaves in the list: probe, then configuration, then features. */
  function Classified(es: seq<PcieDeviceInfo>, probe: seq<ProbeTiming>, pnp: seq<PnpAdapter>, net: string -> Option<bool>)
    : seq<PcieDeviceInfo>
    requires |probe| == |es|
  {
    FeaturePass(ConfigPass(ProbePass(es, probe)), pnp, net)
  }

  /**
   * The first classification wins: an entry blocked by the probe keeps that
   * verdict, an entry classified by the configuration rules keeps that one,
   * and the functions themselves are never changed.
   */
  lemma FirstClassificationWins(es: seq<PcieDeviceInfo>, probe: seq<ProbeTiming>, pnp: seq<PnpAdapter>, net: string -> Option<bool>, i: nat)
    requires |probe| == |es| && i < |es|
    ensures |Classified(es, probe, pnp, net)| == |es|
    ensures Classified(es, probe, pnp, net)[i].d == es[i].d
    ensures Classified(es, probe, pnp, net)[i].p == es[i].p
    ensures ProbePass(es, probe)[i].blk != 0 ==> Classified(es, probe, pnp, net)[i] == ProbePass(es, probe)[i]
    ensures ConfigPass(ProbePass(es, probe))[i].blk != 0 ==>
      Classified(es, probe, pnp, net)[i] == ConfigPass(ProbePass(es, probe))[i]
  {
    var probed := ProbePass(es, probe);
    assert probed[i].d == es[i].d && probed[i].p == es[i].p;
  }

  /** Unclassified with info 0, or at level 1 or 2 with an info code that names a rule. */
  predicate Consistent(e: PcieDeviceInfo)
  {
    && e.blk in {0, 1, 2}
    && (e.blk == 0 <==> e.info == 0)
    && (e.blk != 0 ==> 1 <= e.info <= 19)
  }

  /** Both passes keep an entry consistent. */
  lemma StepsKeepConsistent(e: PcieDeviceInfo, pnp: seq<PnpAdapter>, net: string -> Option<bool>)
    requires Consistent(e)
    ensures Consistent(ConfigStep(e))
    ensures Consistent(FeatureStep(e, pnp, net))
  {
  }

  /**
   * Starting from unclassified entries, test_devices leaves every entry either
   * unclassified with info 0 ("OK"), or at level 1 or 2 with an info code
   * whose message names a rule.
   */
  lemma ClassifiedCodesNamed(es: seq<PcieDeviceInfo>, probe: seq<ProbeTiming>, pnp: seq<PnpAdapter>, net: string -> Option<bool>, i: nat)
    requires |probe| == |es| && i < |es|
    requires forall k | 0 <= k < |es| :: es[k].blk == 0 && es[k].info == 0
    ensures Classified(es, probe, pnp, net)[i].blk in {0, 1, 2}
    ensures Classified(es, probe, pnp, net)[i].blk == 0 <==> BlkInfo(Classified(es, probe, pnp, net)[i].info) == "OK"
  {
    var probed := ProbePass(es, probe);
    assert Consistent(probed[i]);
    var configured := ConfigPass(probed);
    StepsKeepConsistent(probed[i], pnp, net);
    StepsKeepConsistent(configured[i], pnp, net);
    assert Consistent(Classified(es, probe, pnp, net)[i]);
  }

  /** A 16-bit write into a function's memory-mapped configuration space, at a physical address. */
  datatype ConfigWrite = ConfigWrite(address: u64, value: u16)

  /** Physical address of a function's command register (offset 0x04 of its mapped configuration space). */
  function CommandRegister(d: DeviceInfo): u64
  {
    d.physicalAddress + 0x04
  }

  /** The command register with the bus-master bit cleared and every other bit kept. */
  function WithoutBusMaster(command: u16): (r: u16)
    ensures !BusMaster(r)
    ensures r | 0x4 == command | 0x4
  {
    command & 0xFFFB
  }

  /** The parent bridges of the entries at `level` whose bus-master bit is set, in list order. */
  function BlockedParents(es: seq<PcieDeviceInfo>, level: u8): (r: seq<DeviceInfo>)
    ensures forall k | 0 <= k < |r| ::
      && BusMaster(Command(r[k].cfg))
      && exists i | 0 <= i < |es| :: es[i].blk == level && es[i].p == r[k]
  {
    if es == [] then []
    else
      var init := es[..|es| - 1];
      var last := es[|es| - 1];
      var r0 := BlockedParents(init, level);
      assert forall i | 0 <= i < |init| :: init[i] == es[i];
      r0 + (if last.blk == level && BusMaster(Command(last.p.cfg)) then [last.p] else [])
  }

  /** Conversely, every entry at `level` whose parent masters the bus has that parent blocked. */
  lemma {:induction false} BlockedParentsComplete(es: seq<PcieDeviceInfo>, level: u8, i: nat)
    requires i < |es| && es[i].blk == level && BusMaster(Command(es[i].p.cfg))
    ensures es[i].p in BlockedParents(es, level)
  {
    var init := es[..|es| - 1];
    if i < |es| - 1 {
      assert init[i] == es[i];
      BlockedParentsComplete(init, level, i);
    }
  }

  /** The bridges test_devices blocks: none without `disable`, else the warned entries' parents, then the blocked entries'. */
  function Remediated(es: seq<PcieDeviceInfo>, disable: bool): (r: seq<DeviceInfo>)
    ensures !disable ==> r == []
    ensures forall k | 0 <= k < |r| ::
      && BusMaster(Command(r[k].cfg))
      && exists i | 0 <= i < |es| :: es[i].blk in {1, 2} && es[i].p == r[k]
  {
    if disable then BlockedParents(es, 1) + BlockedParents(es, 2) else []
  }

  /** The writes that clear each bridge's bus-master bit. */
  function BlockWrites(bs: seq<DeviceInfo>): (ws: seq<ConfigWrite>)
    ensures |ws| == |bs|
    ensures forall k | 0 <= k < |bs| ::
      ws[k].address == CommandRegister(bs[k]) && ws[k].value == WithoutBusMaster(Command(bs[k].cfg))
  {
    if bs == [] then []
    else
      var init := bs[..|bs| - 1];
      assert forall k | 0 <= k < |init| :: init[k] == bs[k];
      BlockWrites(init) + [ConfigWrite(CommandRegister(bs[|bs| - 1]), WithoutBusMaster(Command(bs[|bs| - 1].cfg)))]
  }

  /** The writes that put back each bridge's command register as its snapshot recorded it. */
  function RestoreWrites(bs: seq<DeviceInfo>): (ws: seq<ConfigWrite>)
    ensures |ws| == |bs|
    ensures forall k | 0 <= k < |bs| ::
      ws[k].address == CommandRegister(bs[k]) && ws[k].value == Command(bs[k].cfg)
  {
    if bs == [] then []
    else
      var init := bs[..|bs| - 1];
      assert forall k | 0 <= k < |init| :: init[k] == bs[k];
      RestoreWrites(init) + [ConfigWrite(CommandRegister(bs[|bs| - 1]), Command(bs[|bs| - 1].cfg))]
  }

  /** The probe loop of test_devices: at most one entry, the first with the signature, is blocked. */
  method ProbeShadowConfig(devices: array<PcieDeviceInfo>, probe: seq<ProbeTiming>)
    requires |probe| == devices.Length
    modifies devices
    ensures devices[..] == ProbePass(old(devices[..]), probe)
  {
    for i := 0 to devices.Length
      invariant devices[..] == old(devices[..])
      invariant FirstShadow(probe, 0) == FirstShadow(probe, i)
    {
      if probe[i].a0Ticks > PROBE_LIMIT_MS {
        continue;
      }
      if probe[i].a8Ticks > PROBE_LIMIT_MS {
        devices[i] := devices[i].(blk := 2, info := 1);
        return;
      }
    }
  }

  /** The configuration loop of test_devices. */
  method ConfigurationPass(devices: array<PcieDeviceInfo>)
    modifies devices
    ensures devices[..] == ConfigPass(old(devices[..]))
  {
    for i := 0 to devices.Length
      invariant forall j | 0 <= j < i :: devices[j] == ConfigStep(old(devices[j]))
      invariant forall j | i <= j < devices.Length :: devices[j] == old(devices[j])
    {
      if devices[i].blk != 0 {
        continue;
      }
      devices[i] := ValidateDeviceConfig(devices[i]);
    }
    assert devices[..] == ConfigPass(old(devices[..]));
  }

  /** The feature loop of test_devices. */
  method FeaturesPass(devices: array<PcieDeviceInfo>, pnp: seq<PnpAdapter>, net: string -> Option<bool>)
    modifies devices
    ensures devices[..] == FeaturePass(old(devices[..]), pnp, net)
  {
    for i := 0 to devices.Length
      invariant forall j | 0 <= j < i :: devices[j] == FeatureStep(old(devices[j]), pnp, net)
      invariant forall j | i <= j < devices.Length :: devices[j] == old(devices[j])
    {
      if devices[i].blk != 0 {
        continue;
      }
      devices[i] := ValidateDeviceFeatures(devices[i], pnp, net);
    }
    assert devices[..] == FeaturePass(old(devices[..]), pnp, net);
  }

  lemma BlockedParentsStep(es: seq<PcieDeviceInfo>, level: u8, i: nat)
    requires i < |es|
    ensures BlockedParents(es[..i + 1], level) == BlockedParents(es[..i], level) +
      (if es[i].blk == level && BusMaster(Command(es[i].p.cfg)) then [es[i].p] else [])
  {
    assert es[..i + 1][..i] == es[..i];
  }

  lemma BlockWritesStep(bs: seq<DeviceInfo>, b: DeviceInfo)
    ensures BlockWrites(bs + [b]) == BlockWrites(bs) + [ConfigWrite(CommandRegister(b), WithoutBusMaster(Command(b.cfg)))]
  {
    assert (bs + [b])[..|bs|] == bs;
  }

  /** One remediation loop: for each entry at `level`, clears the parent's bus-master bit if it is set. */
  method BlockLevel(devices: array<PcieDeviceInfo>, level: u8, blocked: seq<DeviceInfo>, writes: seq<ConfigWrite>)
    returns (blocked': seq<DeviceInfo>, writes': seq<ConfigWrite>)
    requires writes == BlockWrites(blocked)
    ensures blocked' == blocked + BlockedParents(devices[..], level)
    ensures writes' == BlockWrites(blocked')
  {
    blocked' := blocked;
    writes' := writes;
    ghost var es := devices[..];
    for i := 0 to devices.Length
      invariant blocked' == blocked + BlockedParents(es[..i], level)
      invariant writes' == BlockWrites(blocked')
    {
      BlockedParentsStep(es, level, i);
      Associative(blocked, BlockedParents(es[..i], level),
        if es[i].blk == level && BusMaster(Command(es[i].p.cfg)) then [es[i].p] else []);
      var entry := devices[i];
      if entry.blk == level {
        // is bus master enabled on the bridge?
        var command := Command(entry.p.cfg);
        if BusMaster(command) {
          command := WithoutBusMaster(command);
          BlockWritesStep(blocked', entry.p);
          writes' := writes' + [ConfigWrite(CommandRegister(entry.p), command)];
          blocked' := blocked' + [entry.p];
        }
      }
    }
    assert es[..devices.Length] == es;
  }

  /**
   * test_devices: classifies every entry in place, then, when `disable` is
   * set, blocks the parent bridges of the warned and blocked entries and,
   * once the user has been asked, restores them. Returns the bridges blocked
   * and the configuration-space writes issued, in order.
   */
  method TestDevices(devices: array<PcieDeviceInfo>, probe: seq<ProbeTiming>, pnp: seq<PnpAdapter>,
                     net: string -> Option<bool>, disable: bool)
    returns (blocked: seq<DeviceInfo>, writes: seq<ConfigWrite>)
    requires |probe| == devices.Length
    modifies devices
    ensures devices[..] == Classified(old(devices[..]), probe, pnp, net)
    ensures blocked == Remediated(devices[..], disable)
    ensures writes == BlockWrites(blocked) + RestoreWrites(blocked)
  {
    ProbeShadowConfig(devices, probe);
    ConfigurationPass(devices);
    FeaturesPass(devices, pnp, net);
    blocked, writes := Remediate(devices, disable);
  }

  /** The remediation part of test_devices: block the warned, then the blocked entries' bridges, then restore them all. */
  method Remediate(devices: array<PcieDeviceInfo>, disable: bool) returns (blocked: seq<DeviceInfo>, writes: seq<ConfigWrite>)
    ensures blocked == Remediated(devices[..], disable)
    ensures writes == BlockWrites(blocked) + RestoreWrites(blocked)
  {
    blocked := [];
    writes := [];
    if disable {
      blocked, writes := BlockLevel(devices, 1, blocked, writes);
      assert blocked == BlockedParents(devices[..], 1);
      blocked, writes := BlockLevel(devices, 2, blocked, writes);
    }
    assert blocked == Remediated(devices[..], disable);
    if |blocked| > 0 {
      // the user is asked to press a key before the bridges are unblocked
      var restores := RestoreBridges(blocked);
      writes := writes + restores;
    }
  }

  /** The unblocking loop of test_devices: each bridge gets back the command value of its snapshot. */
  method RestoreBridges(blocked: seq<DeviceInfo>) returns (writes: seq<ConfigWrite>)
    ensures writes == RestoreWrites(blocked)
  {
    writes := [];
    for k := 0 to |blocked|
      invariant writes == RestoreWrites(blocked[..k])
    {
      assert blocked[..k + 1][..k] == blocked[..k];
      writes := writes + [ConfigWrite(CommandRegister(blocked[k]), Command(blocked[k].cfg))];
    }
    assert blocked[..|blocked|] == blocked;
  }
}
