/**
 * PCIe topology discovery.
 *
 * Buses are scanned slot by slot and function by function; absent functions
 * are skipped, bridges are followed to their secondary bus, and the devices
 * found are flattened into endpoint records whose non-zero functions are
 * gathered under the function-0 record that precedes them.
 */
module PciTopology {
  import opened Common
  import opened PciConfig

  /**
   * What the scan reads from the platform: the physical base of the
   * configuration space of each (bus, slot), 0 when there is none, and the
   * 512-byte snapshot found at a physical address.
   */
  datatype PciPlatform = PciPlatform(slotAddress: (u8, u8) -> u64, read: u64 -> ConfigSpace)

  /**
   * OrphanFunction: a non-zero function had to be attached to the previous
   * endpoint while there was none. RoundLimit: the bridge-following loop ran
   * out of its round budget.
   */
  datatype DiscoveryError = OrphanFunction | RoundLimit

  /** Function `func` of a slot is mapped 4 KiB * func above the slot's base. */
  function FunctionAddress(base: u64, func: u8): u64
    requires func < 8
  {
    base + ((func as u64) << 12)
  }

  /** Entries with the given parent, one per device, unclassified. */
  function Entries(ds: seq<DeviceInfo>, parent: DeviceInfo): (r: seq<PcieDeviceInfo>)
    ensures |r| == |ds|
    ensures forall i | 0 <= i < |ds| :: r[i] == NewEntry(ds[i], parent)
  {
    if ds == [] then [] else Entries(ds[..|ds| - 1], parent) + [NewEntry(ds[|ds| - 1], parent)]
  }

  /** Whether a present function is kept: every one on a bus scan, only bridges on the root scan. */
  predicate Kept(cfg: ConfigSpace, bridgesOnly: bool)
  {
    !Absent(cfg) && (!bridgesOnly || ClassCode(cfg) == PCI_BRIDGE_CLASS)
  }

  /** Functions `func`..7 of one slot, in order; an absent function 0 ends the slot. */
  function ScanFunctions(pf: PciPlatform, bus: u8, slot: u8, base: u64, func: u8, bridgesOnly: bool)
    : seq<DeviceInfo>
    requires func <= 8
    decreases 8 - func
  {
    if func == 8 then []
    else
      var entry := FunctionAddress(base, func);
      var cfg := pf.read(entry);
      if func == 0 && Absent(cfg) then []
      else if Kept(cfg, bridgesOnly) then
        [DeviceInfo(bus, slot, func, cfg, entry, [])] + ScanFunctions(pf, bus, slot, base, func + 1, bridgesOnly)
      else ScanFunctions(pf, bus, slot, base, func + 1, bridgesOnly)
  }

  /** Unfolds the function loop by one function, for the slot-scan method. */
  lemma ScanFunctionsStep(pf: PciPlatform, bus: u8, slot: u8, base: u64, func: u8, bridgesOnly: bool)
    requires func < 8
    ensures var cfg := pf.read(FunctionAddress(base, func));
      ScanFunctions(pf, bus, slot, base, func, bridgesOnly)
      == if func == 0 && Absent(cfg) then []
         else if Kept(cfg, bridgesOnly)
         then [DeviceInfo(bus, slot, func, cfg, FunctionAddress(base, func), [])]
              + ScanFunctions(pf, bus, slot, base, func + 1, bridgesOnly)
         else ScanFunctions(pf, bus, slot, base, func + 1, bridgesOnly)
  {
  }

  /** Slots `slot`..31 of a bus, in order; a slot without a base address ends the scan. */
  function ScanSlots(pf: PciPlatform, bus: u8, slot: u8, bridgesOnly: bool): seq<DeviceInfo>
    requires slot <= 32
    decreases 32 - slot
  {
    if slot == 32 then []
    else
      var base := pf.slotAddress(bus, slot);
      if base == 0 then []
      else ScanFunctions(pf, bus, slot, base, 0, bridgesOnly) + ScanSlots(pf, bus, slot + 1, bridgesOnly)
  }

  /** `a` comes before `b` in scan order: by slot, then by function. */
  predicate Before(a: DeviceInfo, b: DeviceInfo)
  {
    a.slot < b.slot || (a.slot == b.slot && a.func < b.func)
  }

  /** Strictly increasing function numbers. */
  predicate FunctionOrdered(s: seq<DeviceInfo>)
  {
    forall i, j | 0 <= i < j < |s| :: s[i].func < s[j].func
  }

  /** Strictly increasing (slot, function) pairs, so no function twice. */
  predicate ScanOrdered(s: seq<DeviceInfo>)
  {
    forall i, j | 0 <= i < j < |s| :: Before(s[i], s[j])
  }

  /** Every function reported for a slot is kept, sits at its own address, and the slot's function 0 is present. */
  lemma {:induction false} ScanFunctionsFacts(pf: PciPlatform, bus: u8, slot: u8, base: u64, func: u8, bridgesOnly: bool)
    requires func <= 8
    ensures forall d | d in ScanFunctions(pf, bus, slot, base, func, bridgesOnly) ::
      && d.bus == bus && d.slot == slot && func <= d.func < 8
      && d.physicalAddress == FunctionAddress(base, d.func)
      && d.cfg == pf.read(d.physicalAddress)
      && Kept(d.cfg, bridgesOnly) && d.children == []
    ensures func == 0 && ScanFunctions(pf, bus, slot, base, func, bridgesOnly) != [] ==>
      !Absent(pf.read(FunctionAddress(base, 0)))
    decreases 8 - func
  {
    if func < 8 && !(func == 0 && Absent(pf.read(FunctionAddress(base, 0)))) {
      ScanFunctionsFacts(pf, bus, slot, base, func + 1, bridgesOnly);
    }
  }

  /** A kept function is at the head of the rest of its slot, unless it is an absent function 0. */
  lemma ScanFunctionsHead(pf: PciPlatform, bus: u8, slot: u8, base: u64, func: u8, bridgesOnly: bool)
    requires func < 8
    requires Kept(pf.read(FunctionAddress(base, func)), bridgesOnly)
    ensures DeviceInfo(bus, slot, func, pf.read(FunctionAddress(base, func)), FunctionAddress(base, func), [])
      in ScanFunctions(pf, bus, slot, base, func, bridgesOnly)
  {
    ScanFunctionsStep(pf, bus, slot, base, func, bridgesOnly);
  }

  /** Unless function 0 is absent, the functions after `func` stay recorded. */
  lemma ScanFunctionsTail(pf: PciPlatform, bus: u8, slot: u8, base: u64, func: u8, bridgesOnly: bool, d: DeviceInfo)
    requires func < 8
    requires !(func == 0 && Absent(pf.read(FunctionAddress(base, func))))
    requires d in ScanFunctions(pf, bus, slot, base, func + 1, bridgesOnly)
    ensures d in ScanFunctions(pf, bus, slot, base, func, bridgesOnly)
  {
    ScanFunctionsStep(pf, bus, slot, base, func, bridgesOnly);
  }

  /**
   * Conversely, when function 0 of a slot is present, every function of the
   * slot that passes the filter is recorded, at its address and with its
   * snapshot.
   */
  lemma {:induction false} ScanFunctionsComplete(pf: PciPlatform, bus: u8, slot: u8, base: u64, func: u8, f: u8, bridgesOnly: bool)
    requires func <= f < 8
    requires !Absent(pf.read(FunctionAddress(base, 0)))
    requires Kept(pf.read(FunctionAddress(base, f)), bridgesOnly)
    ensures DeviceInfo(bus, slot, f, pf.read(FunctionAddress(base, f)), FunctionAddress(base, f), [])
      in ScanFunctions(pf, bus, slot, base, func, bridgesOnly)
    decreases 8 - func
  {
    if func == f {
      ScanFunctionsHead(pf, bus, slot, base, f, bridgesOnly);
    } else {
      ScanFunctionsComplete(pf, bus, slot, base, func + 1, f, bridgesOnly);
      ScanFunctionsTail(pf, bus, slot, base, func, bridgesOnly,
        DeviceInfo(bus, slot, f, pf.read(FunctionAddress(base, f)), FunctionAddress(base, f), []));
    }
  }

  /** A slot's functions are reported in increasing function order, so none twice. */
  lemma {:induction false} ScanFunctionsOrdered(pf: PciPlatform, bus: u8, slot: u8, base: u64, func: u8, bridgesOnly: bool)
    requires func <= 8
    ensures FunctionOrdered(ScanFunctions(pf, bus, slot, base, func, bridgesOnly))
    decreases 8 - func
  {
    var r := ScanFunctions(pf, bus, slot, base, func, bridgesOnly);
    if func < 8 && r != [] {
      var rest := ScanFunctions(pf, bus, slot, base, func + 1, bridgesOnly);
      ScanFunctionsOrdered(pf, bus, slot, base, func + 1, bridgesOnly);
      if Kept(pf.read(FunctionAddress(base, func)), bridgesOnly) {
        ScanFunctionsFacts(pf, bus, slot, base, func + 1, bridgesOnly);
        assert r[1..] == rest;
        forall i, j | 0 <= i < j < |r|
          ensures r[i].func < r[j].func
        {
          assert r[j] == rest[j - 1];
          if i == 0 {
            assert rest[j - 1] in rest;
          } else {
            assert r[i] == rest[i - 1];
          }
        }
      }
    }
  }

  /**
   * Every device a bus scan reports is a kept function of that bus, at the
   * address of its slot and function, in a slot whose function 0 is present.
   */
  lemma {:induction false} ScanSlotsFacts(pf: PciPlatform, bus: u8, slot: u8, bridgesOnly: bool)
    requires slot <= 32
    ensures forall d | d in ScanSlots(pf, bus, slot, bridgesOnly) ::
      && d.bus == bus && slot <= d.slot < 32 && d.func < 8
      && pf.slotAddress(bus, d.slot) != 0
      && d.physicalAddress == FunctionAddress(pf.slotAddress(bus, d.slot), d.func)
      && d.cfg == pf.read(d.physicalAddress)
      && Kept(d.cfg, bridgesOnly) && d.children == []
      && !Absent(pf.read(FunctionAddress(pf.slotAddress(bus, d.slot), 0)))
    decreases 32 - slot
  {
    if slot < 32 && pf.slotAddress(bus, slot) != 0 {
      ScanFunctionsFacts(pf, bus, slot, pf.slotAddress(bus, slot), 0, bridgesOnly);
      ScanSlotsFacts(pf, bus, slot + 1, bridgesOnly);
    }
  }

  /** A bus scan lists functions in strictly increasing (slot, function) order: none is reported twice. */
  lemma {:induction false} ScanSlotsOrdered(pf: PciPlatform, bus: u8, slot: u8, bridgesOnly: bool)
    requires slot <= 32
    ensures ScanOrdered(ScanSlots(pf, bus, slot, bridgesOnly))
    decreases 32 - slot
  {
    if slot < 32 && pf.slotAddress(bus, slot) != 0 {
      var base := pf.slotAddress(bus, slot);
      var f := ScanFunctions(pf, bus, slot, base, 0, bridgesOnly);
      var rest := ScanSlots(pf, bus, slot + 1, bridgesOnly);
      var r := ScanSlots(pf, bus, slot, bridgesOnly);
      assert r == f + rest;
      assert forall d | d in f :: d.slot == slot by {
        ScanFunctionsFacts(pf, bus, slot, base, 0, bridgesOnly);
      }
      assert forall d | d in rest :: slot < d.slot by {
        ScanSlotsFacts(pf, bus, slot + 1, bridgesOnly);
      }
      ScanFunctionsOrdered(pf, bus, slot, base, 0, bridgesOnly);
      ScanSlotsOrdered(pf, bus, slot + 1, bridgesOnly);
      OrderedConcat(f, rest, slot);
    }
  }

  /** One slot's functions in function order, followed by later slots in scan order, are in scan order. */
  lemma OrderedConcat(f: seq<DeviceInfo>, rest: seq<DeviceInfo>, slot: u8)
    requires forall d | d in f :: d.slot == slot
    requires forall d | d in rest :: slot < d.slot
    requires FunctionOrdered(f)
    requires ScanOrdered(rest)
    ensures ScanOrdered(f + rest)
  {
    var r := f + rest;
    forall i, j | 0 <= i < j < |r|
      ensures Before(r[i], r[j])
    {
      if j < |f| {
        assert r[i] == f[i] && r[j] == f[j];
        assert f[i] in f;
      } else if i < |f| {
        assert r[i] == f[i] && f[i] in f;
        assert r[j] == rest[j - |f|] && rest[j - |f|] in rest;
      } else {
        assert r[i] == rest[i - |f|] && r[j] == rest[j - |f|];
      }
    }
  }

  /** The bus scan stops at the first slot without a base address. */
  lemma {:induction false} ScanStopsAtMissingSlot(pf: PciPlatform, bus: u8, slot: u8, bridgesOnly: bool, stop: u8)
    requires slot <= stop < 32
    requires pf.slotAddress(bus, stop) == 0
    ensures forall d | d in ScanSlots(pf, bus, slot, bridgesOnly) :: d.slot < stop
    decreases 32 - slot
  {
    if slot < stop && pf.slotAddress(bus, slot) != 0 {
      ScanFunctionsFacts(pf, bus, slot, pf.slotAddress(bus, slot), 0, bridgesOnly);
      ScanStopsAtMissingSlot(pf, bus, slot + 1, bridgesOnly, stop);
    }
  }

  /** Counts the bytes 0x04..0x0B of a snapshot that read 0xFF. */
  method CountInvalidBytes(cfg: ConfigSpace) returns (invalid: nat)
    ensures invalid <= 8
    ensures invalid == 8 <==> Absent(cfg)
  {
    invalid := 0;
    for i := 0 to 8
      invariant invalid == CountFF(cfg[0x04..0x04 + i])
    {
      assert cfg[0x04..0x04 + i + 1][..i] == cfg[0x04..0x04 + i];
      if cfg[0x04 + i] == 0xFF {
        invalid := invalid + 1;
      }
    }
    assert forall i | 0x04 <= i < 0x0C :: cfg[i] == cfg[0x04..0x0C][i - 0x04];
  }

  /** The function loop of one slot, shared by the bus scan and the root-bridge scan. */
  method ScanSlotFunctions(pf: PciPlatform, bus: u8, slot: u8, base: u64, bridgesOnly: bool)
    returns (found: seq<DeviceInfo>)
    ensures found == ScanFunctions(pf, bus, slot, base, 0, bridgesOnly)
  {
    found := [];
    var func: u8 := 0;
    while func < 8
      invariant func <= 8
      invariant found + ScanFunctions(pf, bus, slot, base, func, bridgesOnly)
             == ScanFunctions(pf, bus, slot, base, 0, bridgesOnly)
      invariant func == 0 ==> found == []
      decreases 8 - func
    {
      var entry := FunctionAddress(base, func);
      var cfg := pf.read(entry);
      ScanFunctionsStep(pf, bus, slot, base, func, bridgesOnly);
      var invalid := CountInvalidBytes(cfg);
      if invalid == 8 && func == 0 {
        return;
      }
      // an absent function other than 0, or a non-bridge on the root scan, is skipped
      if invalid != 8 && (!bridgesOnly || ClassCode(cfg) == PCI_BRIDGE_CLASS) {
        found := found + [DeviceInfo(bus, slot, func, cfg, entry, [])];
      }
      func := func + 1;
    }
  }

  /** All present functions of a bus (get_devices_by_bus). */
  method GetDevicesByBus(pf: PciPlatform, bus: u8) returns (devices: seq<DeviceInfo>)
    ensures devices == ScanSlots(pf, bus, 0, false)
  {
    devices := [];
    var slot: u8 := 0;
    while slot < 32
      invariant slot <= 32
      invariant devices + ScanSlots(pf, bus, slot, false) == ScanSlots(pf, bus, 0, false)
      decreases 32 - slot
    {
      var base := pf.slotAddress(bus, slot);
      if base == 0 {
        return;
      }
      var found := ScanSlotFunctions(pf, bus, slot, base, false);
      assert devices + ScanSlots(pf, bus, slot, false)
          == (devices + found) + ScanSlots(pf, bus, slot + 1, false);
      devices := devices + found;
      slot := slot + 1;
    }
  }

  /** The bridge functions of bus 0, each with the zero record as parent (get_root_bridge_devices). */
  method GetRootBridgeDevices(pf: PciPlatform) returns (devices: seq<PcieDeviceInfo>)
    ensures devices == Entries(ScanSlots(pf, 0, 0, true), ZERO_DEVICE)
  {
    devices := [];
    ghost var scanned: seq<DeviceInfo> := [];
    var slot: u8 := 0;
    while slot < 32
      invariant slot <= 32
      invariant scanned + ScanSlots(pf, 0, slot, true) == ScanSlots(pf, 0, 0, true)
      invariant devices == Entries(scanned, ZERO_DEVICE)
      decreases 32 - slot
    {
      var base := pf.slotAddress(0, slot);
      if base == 0 {
        assert scanned == ScanSlots(pf, 0, 0, true);
        return;
      }
      var found := ScanSlotFunctions(pf, 0, slot, base, true);
      assert scanned + ScanSlots(pf, 0, slot, true)
          == (scanned + found) + ScanSlots(pf, 0, slot + 1, true);
      EntriesAppend(scanned, found, ZERO_DEVICE);
      devices := devices + Entries(found, ZERO_DEVICE);
      scanned := scanned + found;
      slot := slot + 1;
    }
  }

  lemma EntriesAppend(a: seq<DeviceInfo>, b: seq<DeviceInfo>, parent: DeviceInfo)
    ensures Entries(a + b, parent) == Entries(a, parent) + Entries(b, parent)
  {
  }

  /** The devices of `ds` whose bus does not exceed `maxBus`, as children of `parent`. */
  function BelowBridge(ds: seq<DeviceInfo>, maxBus: u8, parent: DeviceInfo): seq<PcieDeviceInfo>
  {
    if ds == [] then []
    else
      BelowBridge(ds[..|ds| - 1], maxBus, parent)
      + (if ds[|ds| - 1].bus > maxBus then [] else [NewEntry(ds[|ds| - 1], parent)])
  }

  /** What one entry contributes to the next level: the devices on its secondary bus, if it is a bridge. */
  function InnerOf(pf: PciPlatform, e: PcieDeviceInfo): seq<PcieDeviceInfo>
  {
    if !IsBridgeDevice(e.d) then []
    else BelowBridge(ScanSlots(pf, SecondaryBus(e.d.cfg), 0, false), SubordinateBus(e.d.cfg), e.d)
  }

  /** The next level of the tree below the bridges among `devices`. */
  function InnerDevices(pf: PciPlatform, devices: seq<PcieDeviceInfo>): seq<PcieDeviceInfo>
  {
    if devices == [] then []
    else InnerDevices(pf, devices[..|devices| - 1]) + InnerOf(pf, devices[|devices| - 1])
  }

  lemma {:induction false} BelowBridgeFacts(ds: seq<DeviceInfo>, maxBus: u8, parent: DeviceInfo)
    ensures forall e | e in BelowBridge(ds, maxBus, parent) ::
      e.blk == 0 && e.info == 0 && e.p == parent && e.d in ds && e.d.bus <= maxBus
  {
    if ds != [] {
      BelowBridgeFacts(ds[..|ds| - 1], maxBus, parent);
    }
  }

  /**
   * Every device one level down is an unclassified, present function found
   * on the secondary bus of a bridge among `devices`, whose bus number does
   * not exceed that bridge's subordinate bus number.
   */
  lemma {:induction false} InnerDevicesBounded(pf: PciPlatform, devices: seq<PcieDeviceInfo>)
    ensures forall e | e in InnerDevices(pf, devices) ::
      && e.blk == 0 && e.info == 0
      && IsBridgeDevice(e.p)
      && (exists k | 0 <= k < |devices| :: devices[k].d == e.p)
      && e.d.bus == SecondaryBus(e.p.cfg)
      && e.d.bus <= SubordinateBus(e.p.cfg)
      && !Absent(e.d.cfg) && e.d.children == []
  {
    if devices != [] {
      var init := devices[..|devices| - 1];
      var last := devices[|devices| - 1];
      InnerDevicesBounded(pf, init);
      if IsBridgeDevice(last.d) {
        var scanned := ScanSlots(pf, SecondaryBus(last.d.cfg), 0, false);
        ScanSlotsFacts(pf, SecondaryBus(last.d.cfg), 0, false);
        BelowBridgeFacts(scanned, SubordinateBus(last.d.cfg), last.d);
      }
      forall e | e in InnerDevices(pf, devices)
        ensures exists k | 0 <= k < |devices| :: devices[k].d == e.p
      {
        if e in InnerDevices(pf, init) {
          var k :| 0 <= k < |init| && init[k].d == e.p;
          assert devices[k] == init[k];
        } else {
          assert devices[|devices| - 1].d == e.p;
        }
      }
    }
  }

  /** The devices below every bridge among `devices` (get_inner_devices). */
  method GetInnerDevices(pf: PciPlatform, devices: seq<PcieDeviceInfo>) returns (devs: seq<PcieDeviceInfo>)
    ensures devs == InnerDevices(pf, devices)
  {
    devs := [];
    for i := 0 to |devices|
      invariant devs == InnerDevices(pf, devices[..i])
    {
      var entry := devices[i];
      assert devices[..i + 1][..i] == devices[..i];
      if !IsBridgeDevice(entry.d) {
        continue;
      }
      var bridgeDevices := GetDevicesByBus(pf, SecondaryBus(entry.d.cfg));
      devs := AppendBelowBridge(devs, bridgeDevices, SubordinateBus(entry.d.cfg), entry.d);
    }
    assert devices[..|devices|] == devices;
  }

  /** The inner loop of get_inner_devices: appends the devices of one secondary bus that lie below the bridge. */
  method AppendBelowBridge(devs: seq<PcieDeviceInfo>, bridgeDevices: seq<DeviceInfo>, maxBus: u8, parent: DeviceInfo)
    returns (grown: seq<PcieDeviceInfo>)
    ensures grown == devs + BelowBridge(bridgeDevices, maxBus, parent)
  {
    grown := devs;
    for j := 0 to |bridgeDevices|
      invariant grown == devs + BelowBridge(bridgeDevices[..j], maxBus, parent)
    {
      assert bridgeDevices[..j + 1][..j] == bridgeDevices[..j];
      var bridge := bridgeDevices[j];
      if bridge.bus > maxBus {
        continue;
      }
      grown := grown + [NewEntry(bridge, parent)];
    }
    assert bridgeDevices[..|bridgeDevices|] == bridgeDevices;
  }

  /**
   * Places one discovered entry: a function-0 entry becomes a new endpoint,
   * any other function joins the children of the most recent endpoint.
   */
  function Attach(endpoints: seq<PcieDeviceInfo>, dev: PcieDeviceInfo): Option<seq<PcieDeviceInfo>>
  {
    if dev.d.func != 0 then
      if endpoints == [] then None
      else
        var last := endpoints[|endpoints| - 1];
        Some(endpoints[..|endpoints| - 1] + [last.(d := last.d.(children := last.d.children + [dev.d]))])
    else Some(endpoints + [dev])
  }

  /** The outcome of one pass over a level: the endpoint list so far and the bridges set aside. */
  datatype Level = Level(placed: seq<PcieDeviceInfo>, bridges: seq<PcieDeviceInfo>)

  /** One pass over a level: non-bridges are placed, bridges are set aside. */
  function Round(endpoints: seq<PcieDeviceInfo>, bridges: seq<PcieDeviceInfo>, devs: seq<PcieDeviceInfo>)
    : Option<Level>
    decreases |devs|
  {
    if devs == [] then Some(Level(endpoints, bridges))
    else if IsBridgeDevice(devs[0].d) then Round(endpoints, bridges + [devs[0]], devs[1..])
    else
      match Attach(endpoints, devs[0])
      case None => None
      case Some(placed) => Round(placed, bridges, devs[1..])
  }

  /** Places every entry of `devs`, bridges included. */
  function AttachAll(endpoints: seq<PcieDeviceInfo>, devs: seq<PcieDeviceInfo>): Option<seq<PcieDeviceInfo>>
    decreases |devs|
  {
    if devs == [] then Some(endpoints)
    else
      match Attach(endpoints, devs[0])
      case None => None
      case Some(placed) => AttachAll(placed, devs[1..])
  }

  /** How the flattening finds the level below a level: the devices below its bridges. */
  function NextLevel(pf: PciPlatform): seq<PcieDeviceInfo> -> seq<PcieDeviceInfo>
  {
    devices => InnerDevices(pf, devices)
  }

  /**
   * The flattening loop from the level `roots` on, with `next` finding the
   * level below a level: when a level has no devices below it, its bridges
   * are placed too and the list is complete; otherwise the next level is
   * processed, at most `fuel` more times.
   */
  function EndpointRounds(next: seq<PcieDeviceInfo> -> seq<PcieDeviceInfo>, roots: seq<PcieDeviceInfo>,
                          endpoints: seq<PcieDeviceInfo>, fuel: nat)
    : Result<seq<PcieDeviceInfo>, DiscoveryError>
    decreases fuel
  {
    match Round(endpoints, [], roots)
    case None => Failure(OrphanFunction)
    case Some(Level(placed, bridges)) =>
      var inner := next(roots);
      if inner == [] then
        match AttachAll(placed, bridges)
        case None => Failure(OrphanFunction)
        case Some(all) => Success(all)
      else if fuel == 0 then Failure(RoundLimit)
      else EndpointRounds(next, inner, placed, fuel - 1)
  }

  /** The endpoint list built from the bridges of bus 0. */
  function EndpointDevices(pf: PciPlatform, maxRounds: nat): Result<seq<PcieDeviceInfo>, DiscoveryError>
  {
    EndpointRounds(NextLevel(pf), Entries(ScanSlots(pf, 0, 0, true), ZERO_DEVICE), [], maxRounds)
  }

  /** An unclassified endpoint of function 0 whose gathered children are all non-zero functions. */
  predicate WellPlaced(e: PcieDeviceInfo)
  {
    && e.blk == 0 && e.info == 0 && e.d.func == 0
    && forall c | c in e.d.children :: c.func != 0
  }

  /** A freshly discovered entry: unclassified, no children yet. */
  predicate Unplaced(e: PcieDeviceInfo)
  {
    e.blk == 0 && e.info == 0 && e.d.children == []
  }

  /** Every level `next` finds is made of fresh entries. */
  ghost predicate FreshLevels(next: seq<PcieDeviceInfo> -> seq<PcieDeviceInfo>)
  {
    forall devices, e | e in next(devices) :: Unplaced(e)
  }

  /** The levels below bridges are made of fresh entries. */
  lemma NextLevelFresh(pf: PciPlatform)
    ensures FreshLevels(NextLevel(pf))
  {
    forall devices, e | e in NextLevel(pf)(devices)
      ensures Unplaced(e)
    {
      InnerDevicesBounded(pf, devices);
    }
  }

  lemma AttachPlaces(endpoints: seq<PcieDeviceInfo>, dev: PcieDeviceInfo)
    requires forall e | e in endpoints :: WellPlaced(e)
    requires Unplaced(dev)
    ensures Attach(endpoints, dev).Some? ==> forall e | e in Attach(endpoints, dev).value :: WellPlaced(e)
  {
    if dev.d.func != 0 && endpoints != [] {
      var last := endpoints[|endpoints| - 1];
      assert last in endpoints;
      var grown := last.(d := last.d.(children := last.d.children + [dev.d]));
      assert forall c | c in grown.d.children :: c in last.d.children || c == dev.d;
      assert forall e | e in endpoints[..|endpoints| - 1] :: e in endpoints;
    }
  }

  lemma {:induction false} RoundPlaces(endpoints: seq<PcieDeviceInfo>, bridges: seq<PcieDeviceInfo>, devs: seq<PcieDeviceInfo>)
    requires forall e | e in endpoints :: WellPlaced(e)
    requires forall e | e in bridges :: Unplaced(e)
    requires forall e | e in devs :: Unplaced(e)
    ensures match Round(endpoints, bridges, devs)
      case None => true
      case Some(Level(placed, rest)) =>
        (forall e | e in placed :: WellPlaced(e)) && (forall e | e in rest :: Unplaced(e))
    decreases |devs|
  {
    if devs != [] {
      assert devs[0] in devs;
      assert forall e | e in devs[1..] :: e in devs;
      if IsBridgeDevice(devs[0].d) {
        RoundPlaces(endpoints, bridges + [devs[0]], devs[1..]);
      } else {
        AttachPlaces(endpoints, devs[0]);
        if Attach(endpoints, devs[0]).Some? {
          RoundPlaces(Attach(endpoints, devs[0]).value, bridges, devs[1..]);
        }
      }
    }
  }

  lemma {:induction false} AttachAllPlaces(endpoints: seq<PcieDeviceInfo>, devs: seq<PcieDeviceInfo>)
    requires forall e | e in endpoints :: WellPlaced(e)
    requires forall e | e in devs :: Unplaced(e)
    ensures AttachAll(endpoints, devs).Some? ==> forall e | e in AttachAll(endpoints, devs).value :: WellPlaced(e)
    decreases |devs|
  {
    if devs != [] {
      assert devs[0] in devs;
      assert forall e | e in devs[1..] :: e in devs;
      AttachPlaces(endpoints, devs[0]);
      if Attach(endpoints, devs[0]).Some? {
        AttachAllPlaces(Attach(endpoints, devs[0]).value, devs[1..]);
      }
    }
  }

  lemma {:induction false} EndpointRoundsPlaces(next: seq<PcieDeviceInfo> -> seq<PcieDeviceInfo>, roots: seq<PcieDeviceInfo>,
                                               endpoints: seq<PcieDeviceInfo>, fuel: nat)
    requires FreshLevels(next)
    requires forall e | e in endpoints :: WellPlaced(e)
    requires forall e | e in roots :: Unplaced(e)
    ensures EndpointRounds(next, roots, endpoints, fuel).Success? ==>
      forall e | e in EndpointRounds(next, roots, endpoints, fuel).value :: WellPlaced(e)
    decreases fuel
  {
    RoundPlaces(endpoints, [], roots);
    match Round(endpoints, [], roots)
    case None =>
    case Some(Level(placed, bridges)) =>
      var inner := next(roots);
      if inner == [] {
        AttachAllPlaces(placed, bridges);
      } else if fuel > 0 {
        EndpointRoundsPlaces(next, inner, placed, fuel - 1);
      }
  }

  /**
   * A completed endpoint list holds only unclassified function-0 records,
   * and every function gathered under one of them is a non-zero function.
   */
  lemma EndpointDevicesWellPlaced(pf: PciPlatform, maxRounds: nat)
    ensures EndpointDevices(pf, maxRounds).Success? ==>
      forall e | e in EndpointDevices(pf, maxRounds).value :: WellPlaced(e)
  {
    var roots := ScanSlots(pf, 0, 0, true);
    ScanSlotsFacts(pf, 0, 0, true);
    assert forall e | e in Entries(roots, ZERO_DEVICE) :: Unplaced(e);
    NextLevelFresh(pf);
    EndpointRoundsPlaces(NextLevel(pf), Entries(roots, ZERO_DEVICE), [], maxRounds);
  }

  // ---------------------------------------------------------------------
  // What the flattening keeps
  // ---------------------------------------------------------------------

  /** An endpoint's own record without its children, then the functions gathered under it. */
  function Members(e: PcieDeviceInfo): seq<DeviceInfo>
  {
    [e.d.(children := [])] + e.d.children
  }

  /** Every function an endpoint list holds, endpoint by endpoint, in list order. */
  function Flat(endpoints: seq<PcieDeviceInfo>): seq<DeviceInfo>
    decreases |endpoints|
  {
    if endpoints == [] then []
    else Flat(endpoints[..|endpoints| - 1]) + Members(endpoints[|endpoints| - 1])
  }

  /** The functions of the non-bridge entries, in order. */
  function NonBridgeDevices(devs: seq<PcieDeviceInfo>): seq<DeviceInfo>
    decreases |devs|
  {
    if devs == [] then []
    else (if IsBridgeDevice(devs[0].d) then [] else [devs[0].d]) + NonBridgeDevices(devs[1..])
  }

  /** The bridge entries, in order. */
  function BridgeEntries(devs: seq<PcieDeviceInfo>): seq<PcieDeviceInfo>
    decreases |devs|
  {
    if devs == [] then []
    else (if IsBridgeDevice(devs[0].d) then [devs[0]] else []) + BridgeEntries(devs[1..])
  }

  /** The functions of all entries, in order. */
  function DevicesOf(devs: seq<PcieDeviceInfo>): seq<DeviceInfo>
    decreases |devs|
  {
    if devs == [] then [] else [devs[0].d] + DevicesOf(devs[1..])
  }

  /**
   * What discovery hands to the flattening from the level `roots` on: the
   * non-bridge functions of every level, level by level, and then the
   * bridges of the last level; the bridges of earlier levels are not kept.
   */
  function Discovered(next: seq<PcieDeviceInfo> -> seq<PcieDeviceInfo>, roots: seq<PcieDeviceInfo>, fuel: nat): seq<DeviceInfo>
    decreases fuel
  {
    var inner := next(roots);
    NonBridgeDevices(roots)
      + if inner == [] then DevicesOf(BridgeEntries(roots))
        else if fuel == 0 then []
        else Discovered(next, inner, fuel - 1)
  }

  /** Placing one fresh entry adds exactly its function at the end of the flattened list. */
  lemma AttachKeeps(endpoints: seq<PcieDeviceInfo>, dev: PcieDeviceInfo)
    requires dev.d.children == []
    ensures Attach(endpoints, dev).None? <==> dev.d.func != 0 && endpoints == []
    ensures Attach(endpoints, dev).Some? ==> Flat(Attach(endpoints, dev).value) == Flat(endpoints) + [dev.d]
  {
    if dev.d.func != 0 && endpoints != [] {
      var init := endpoints[..|endpoints| - 1];
      var last := endpoints[|endpoints| - 1];
      var grown := last.(d := last.d.(children := last.d.children + [dev.d]));
      var placed := init + [grown];
      assert placed[..|placed| - 1] == init;
      assert Members(grown) == Members(last) + [dev.d];
      Associative(Flat(init), Members(last), [dev.d]);
    } else if dev.d.func == 0 {
      var placed := endpoints + [dev];
      assert placed[..|placed| - 1] == endpoints;
      assert dev.d.(children := []) == dev.d;
    }
  }

  /** One pass over a level places exactly its non-bridge functions, in order, and sets exactly its bridges aside. */
  lemma {:induction false} RoundKeeps(endpoints: seq<PcieDeviceInfo>, bridges: seq<PcieDeviceInfo>, devs: seq<PcieDeviceInfo>)
    requires forall e | e in devs :: e.d.children == []
    ensures match Round(endpoints, bridges, devs)
      case None => true
      case Some(Level(placed, rest)) =>
        Flat(placed) == Flat(endpoints) + NonBridgeDevices(devs) && rest == bridges + BridgeEntries(devs)
    decreases |devs|
  {
    if devs != [] {
      assert devs[0] in devs;
      assert forall e | e in devs[1..] :: e in devs;
      if IsBridgeDevice(devs[0].d) {
        assert NonBridgeDevices(devs) == NonBridgeDevices(devs[1..]);
        RoundKeeps(endpoints, bridges + [devs[0]], devs[1..]);
        Associative(bridges, [devs[0]], BridgeEntries(devs[1..]));
      } else {
        assert BridgeEntries(devs) == BridgeEntries(devs[1..]);
        AttachKeeps(endpoints, devs[0]);
        match Attach(endpoints, devs[0])
        case None =>
        case Some(placed) =>
          RoundKeeps(placed, bridges, devs[1..]);
          Associative(Flat(endpoints), [devs[0].d], NonBridgeDevices(devs[1..]));
      }
    }
  }

  /** Placing a sequence of fresh entries adds exactly their functions, in order. */
  lemma {:induction false} AttachAllKeeps(endpoints: seq<PcieDeviceInfo>, devs: seq<PcieDeviceInfo>)
    requires forall e | e in devs :: e.d.children == []
    ensures AttachAll(endpoints, devs).Some? ==> Flat(AttachAll(endpoints, devs).value) == Flat(endpoints) + DevicesOf(devs)
    decreases |devs|
  {
    if devs != [] {
      assert devs[0] in devs;
      assert forall e | e in devs[1..] :: e in devs;
      AttachKeeps(endpoints, devs[0]);
      if Attach(endpoints, devs[0]).Some? {
        AttachAllKeeps(Attach(endpoints, devs[0]).value, devs[1..]);
        Associative(Flat(endpoints), [devs[0].d], DevicesOf(devs[1..]));
      }
    }
  }

  lemma BridgeEntriesIn(devs: seq<PcieDeviceInfo>)
    ensures forall e | e in BridgeEntries(devs) :: e in devs
    decreases |devs|
  {
    if devs != [] {
      BridgeEntriesIn(devs[1..]);
      assert forall e | e in devs[1..] :: e in devs;
    }
  }

  /** The last level: its bridges are placed after its non-bridge functions. */
  lemma LastLevelKeeps(roots: seq<PcieDeviceInfo>, endpoints: seq<PcieDeviceInfo>,
                       placed: seq<PcieDeviceInfo>, bridges: seq<PcieDeviceInfo>)
    requires forall e | e in roots :: e.d.children == []
    requires Flat(placed) == Flat(endpoints) + NonBridgeDevices(roots) && bridges == BridgeEntries(roots)
    ensures AttachAll(placed, bridges).Some? ==>
      Flat(AttachAll(placed, bridges).value) == Flat(endpoints) + (NonBridgeDevices(roots) + DevicesOf(BridgeEntries(roots)))
  {
    assert forall e | e in bridges :: e.d.children == [] by {
      BridgeEntriesIn(roots);
    }
    AttachAllKeeps(placed, bridges);
    Associative(Flat(endpoints), NonBridgeDevices(roots), DevicesOf(bridges));
  }

  /** A successful flattening from any level adds exactly the discovered functions, in order. */
  lemma {:induction false} EndpointRoundsKeeps(next: seq<PcieDeviceInfo> -> seq<PcieDeviceInfo>, roots: seq<PcieDeviceInfo>,
                                               endpoints: seq<PcieDeviceInfo>, fuel: nat)
    requires FreshLevels(next)
    requires forall e | e in roots :: e.d.children == []
    ensures EndpointRounds(next, roots, endpoints, fuel).Success? ==>
      Flat(EndpointRounds(next, roots, endpoints, fuel).value) == Flat(endpoints) + Discovered(next, roots, fuel)
    decreases fuel
  {
    RoundKeeps(endpoints, [], roots);
    assert [] + BridgeEntries(roots) == BridgeEntries(roots);
    match Round(endpoints, [], roots)
    case None =>
    case Some(Level(placed, bridges)) =>
      var inner := next(roots);
      if inner == [] {
        LastLevelKeeps(roots, endpoints, placed, bridges);
      } else if fuel > 0 {
        assert forall e | e in inner :: Unplaced(e);
        EndpointRoundsKeeps(next, inner, placed, fuel - 1);
        Associative(Flat(endpoints), NonBridgeDevices(roots), Discovered(next, inner, fuel - 1));
      }
  }

  /**
   * A completed endpoint list holds every discovered function exactly once
   * and in discovery order: the non-bridge functions of each level, each
   * function 0 as an endpoint and every other function under the endpoint
   * before it, followed by the bridges of the last level placed the same
   * way. Bridges of earlier levels are dropped.
   */
  lemma EndpointDevicesComplete(pf: PciPlatform, maxRounds: nat)
    ensures EndpointDevices(pf, maxRounds).Success? ==>
      Flat(EndpointDevices(pf, maxRounds).value) == Discovered(NextLevel(pf), Entries(ScanSlots(pf, 0, 0, true), ZERO_DEVICE), maxRounds)
  {
    var roots := Entries(ScanSlots(pf, 0, 0, true), ZERO_DEVICE);
    if EndpointDevices(pf, maxRounds).Success? {
      assert forall e | e in roots :: e.d.children == [] by {
        ScanSlotsFacts(pf, 0, 0, true);
      }
      NextLevelFresh(pf);
      EndpointRoundsKeeps(NextLevel(pf), roots, [], maxRounds);
      assert Flat([]) + Discovered(NextLevel(pf), roots, maxRounds) == Discovered(NextLevel(pf), roots, maxRounds);
    }
  }

  // ---------------------------------------------------------------------
  // The endpoint entries the flattening keeps
  // ---------------------------------------------------------------------

  /** An entry without the functions gathered under it. */
  function Bare(e: PcieDeviceInfo): PcieDeviceInfo
  {
    e.(d := e.d.(children := []))
  }

  /** Every endpoint of a list without its gathered functions, in list order. */
  function Heads(endpoints: seq<PcieDeviceInfo>): seq<PcieDeviceInfo>
    decreases |endpoints|
  {
    if endpoints == [] then []
    else Heads(endpoints[..|endpoints| - 1]) + [Bare(endpoints[|endpoints| - 1])]
  }

  /** The function-0 entries of `devs`, in order. */
  function Function0Entries(devs: seq<PcieDeviceInfo>): seq<PcieDeviceInfo>
    decreases |devs|
  {
    if devs == [] then []
    else (if devs[0].d.func == 0 then [devs[0]] else []) + Function0Entries(devs[1..])
  }

  /** The function-0 entries that are not bridges, in order. */
  function NonBridgeFunction0Entries(devs: seq<PcieDeviceInfo>): seq<PcieDeviceInfo>
    decreases |devs|
  {
    if devs == [] then []
    else
      var head := if !IsBridgeDevice(devs[0].d) && devs[0].d.func == 0 then [devs[0]] else [];
      head + NonBridgeFunction0Entries(devs[1..])
  }

  /**
   * The entries discovery hands to the flattening that become endpoints:
   * the non-bridge function-0 entries of every level, then the function-0
   * bridges of the last level.
   */
  function DiscoveredEndpoints(next: seq<PcieDeviceInfo> -> seq<PcieDeviceInfo>, roots: seq<PcieDeviceInfo>, fuel: nat)
    : seq<PcieDeviceInfo>
    decreases fuel
  {
    var inner := next(roots);
    NonBridgeFunction0Entries(roots)
      + if inner == [] then Function0Entries(BridgeEntries(roots))
        else if fuel == 0 then []
        else DiscoveredEndpoints(next, inner, fuel - 1)
  }

  /** Placing a fresh entry adds it as the last endpoint when it is a function 0, and changes no endpoint entry otherwise. */
  lemma AttachHeads(endpoints: seq<PcieDeviceInfo>, dev: PcieDeviceInfo)
    requires dev.d.children == []
    ensures Attach(endpoints, dev).Some? ==>
      Heads(Attach(endpoints, dev).value) == Heads(endpoints) + (if dev.d.func == 0 then [dev] else [])
  {
    if dev.d.func != 0 && endpoints != [] {
      var init := endpoints[..|endpoints| - 1];
      var last := endpoints[|endpoints| - 1];
      var placed := init + [last.(d := last.d.(children := last.d.children + [dev.d]))];
      assert placed[..|placed| - 1] == init;
      assert endpoints == init + [last];
    } else if dev.d.func == 0 {
      var placed := endpoints + [dev];
      assert placed[..|placed| - 1] == endpoints;
      assert Bare(dev) == dev;
    }
  }

  /** One pass over a level adds exactly its non-bridge function-0 entries as endpoints, in order. */
  lemma {:induction false} RoundHeads(endpoints: seq<PcieDeviceInfo>, bridges: seq<PcieDeviceInfo>, devs: seq<PcieDeviceInfo>)
    requires forall e | e in devs :: e.d.children == []
    ensures match Round(endpoints, bridges, devs)
      case None => true
      case Some(Level(placed, _)) => Heads(placed) == Heads(endpoints) + NonBridgeFunction0Entries(devs)
    decreases |devs|
  {
    if devs != [] {
      assert devs[0] in devs;
      assert forall e | e in devs[1..] :: e in devs;
      if IsBridgeDevice(devs[0].d) {
        assert NonBridgeFunction0Entries(devs) == NonBridgeFunction0Entries(devs[1..]);
        RoundHeads(endpoints, bridges + [devs[0]], devs[1..]);
      } else {
        AttachHeads(endpoints, devs[0]);
        match Attach(endpoints, devs[0])
        case None =>
        case Some(placed) =>
          RoundHeads(placed, bridges, devs[1..]);
          Associative(Heads(endpoints), if devs[0].d.func == 0 then [devs[0]] else [], NonBridgeFunction0Entries(devs[1..]));
      }
    }
  }

  /** Placing fresh entries adds exactly their function-0 entries as endpoints, in order. */
  lemma {:induction false} AttachAllHeads(endpoints: seq<PcieDeviceInfo>, devs: seq<PcieDeviceInfo>)
    requires forall e | e in devs :: e.d.children == []
    ensures AttachAll(endpoints, devs).Some? ==>
      Heads(AttachAll(endpoints, devs).value) == Heads(endpoints) + Function0Entries(devs)
    decreases |devs|
  {
    if devs != [] {
      assert devs[0] in devs;
      assert forall e | e in devs[1..] :: e in devs;
      AttachHeads(endpoints, devs[0]);
      if Attach(endpoints, devs[0]).Some? {
        AttachAllHeads(Attach(endpoints, devs[0]).value, devs[1..]);
        Associative(Heads(endpoints), if devs[0].d.func == 0 then [devs[0]] else [], Function0Entries(devs[1..]));
      }
    }
  }

  /** The last level: its function-0 bridges become endpoints after its non-bridge ones. */
  lemma LastLevelHeads(roots: seq<PcieDeviceInfo>, endpoints: seq<PcieDeviceInfo>,
                       placed: seq<PcieDeviceInfo>, bridges: seq<PcieDeviceInfo>)
    requires forall e | e in roots :: e.d.children == []
    requires Heads(placed) == Heads(endpoints) + NonBridgeFunction0Entries(roots) && bridges == BridgeEntries(roots)
    ensures AttachAll(placed, bridges).Some? ==>
      Heads(AttachAll(placed, bridges).value)
        == Heads(endpoints) + (NonBridgeFunction0Entries(roots) + Function0Entries(BridgeEntries(roots)))
  {
    assert forall e | e in bridges :: e.d.children == [] by {
      BridgeEntriesIn(roots);
    }
    AttachAllHeads(placed, bridges);
    Associative(Heads(endpoints), NonBridgeFunction0Entries(roots), Function0Entries(bridges));
  }

  /** A successful flattening from any level adds exactly the discovered endpoint entries, in order. */
  lemma {:induction false} EndpointRoundsHeads(next: seq<PcieDeviceInfo> -> seq<PcieDeviceInfo>, roots: seq<PcieDeviceInfo>,
                                               endpoints: seq<PcieDeviceInfo>, fuel: nat)
    requires FreshLevels(next)
    requires forall e | e in roots :: e.d.children == []
    ensures EndpointRounds(next, roots, endpoints, fuel).Success? ==>
      Heads(EndpointRounds(next, roots, endpoints, fuel).value) == Heads(endpoints) + DiscoveredEndpoints(next, roots, fuel)
    decreases fuel
  {
    RoundHeads(endpoints, [], roots);
    match Round(endpoints, [], roots)
    case None =>
    case Some(Level(placed, bridges)) =>
      assert bridges == BridgeEntries(roots) by {
        RoundKeeps(endpoints, [], roots);
        assert [] + BridgeEntries(roots) == BridgeEntries(roots);
      }
      var inner := next(roots);
      if inner == [] {
        LastLevelHeads(roots, endpoints, placed, bridges);
      } else if fuel > 0 {
        assert forall e | e in inner :: Unplaced(e);
        EndpointRoundsHeads(next, inner, placed, fuel - 1);
        Associative(Heads(endpoints), NonBridgeFunction0Entries(roots), DiscoveredEndpoints(next, inner, fuel - 1));
      }
  }

  /**
   * The endpoints of a completed list are, in order and once each, the
   * discovered function-0 entries, each with its parent, its classification
   * and its record as discovery built them; only the gathered functions
   * are added to them.
   */
  lemma EndpointDevicesEntries(pf: PciPlatform, maxRounds: nat)
    ensures EndpointDevices(pf, maxRounds).Success? ==>
      Heads(EndpointDevices(pf, maxRounds).value)
        == DiscoveredEndpoints(NextLevel(pf), Entries(ScanSlots(pf, 0, 0, true), ZERO_DEVICE), maxRounds)
  {
    var roots := Entries(ScanSlots(pf, 0, 0, true), ZERO_DEVICE);
    if EndpointDevices(pf, maxRounds).Success? {
      assert forall e | e in roots :: e.d.children == [] by {
        ScanSlotsFacts(pf, 0, 0, true);
      }
      NextLevelFresh(pf);
      EndpointRoundsHeads(NextLevel(pf), roots, [], maxRounds);
      assert Heads([]) + DiscoveredEndpoints(NextLevel(pf), roots, maxRounds)
          == DiscoveredEndpoints(NextLevel(pf), roots, maxRounds);
    }
  }

  /**
   * One pass of get_endpoint_device_list over a level: non-bridges are
   * placed on `endpoints`, bridges are collected as the level's fake bridges.
   */
  method PlaceLevel(endpoints: seq<PcieDeviceInfo>, rootDevices: seq<PcieDeviceInfo>) returns (r: Option<Level>)
    ensures r == Round(endpoints, [], rootDevices)
  {
    var placed := endpoints;
    var fakeBridges: seq<PcieDeviceInfo> := [];
    for i := 0 to |rootDevices|
      invariant Round(endpoints, [], rootDevices) == Round(placed, fakeBridges, rootDevices[i..])
    {
      var dev := rootDevices[i];
      assert rootDevices[i..][1..] == rootDevices[i + 1..];
      if !IsBridgeDevice(dev.d) {
        if dev.d.func != 0 {
          if placed == [] {
            return None;
          }
          var last := placed[|placed| - 1];
          placed := placed[..|placed| - 1] + [last.(d := last.d.(children := last.d.children + [dev.d]))];
        } else {
          placed := placed + [dev];
        }
      } else {
        fakeBridges := fakeBridges + [dev];
      }
    }
    return Some(Level(placed, fakeBridges));
  }

  /** The closing pass of get_endpoint_device_list: the last level's bridges are placed like endpoints. */
  method PlaceBridges(endpoints: seq<PcieDeviceInfo>, fakeBridges: seq<PcieDeviceInfo>)
    returns (r: Option<seq<PcieDeviceInfo>>)
    ensures r == AttachAll(endpoints, fakeBridges)
  {
    var placed := endpoints;
    for j := 0 to |fakeBridges|
      invariant AttachAll(endpoints, fakeBridges) == AttachAll(placed, fakeBridges[j..])
    {
      var dev := fakeBridges[j];
      assert fakeBridges[j..][1..] == fakeBridges[j + 1..];
      if dev.d.func != 0 {
        if placed == [] {
          return None;
        }
        var last := placed[|placed| - 1];
        placed := placed[..|placed| - 1] + [last.(d := last.d.(children := last.d.children + [dev.d]))];
      } else {
        placed := placed + [dev];
      }
    }
    return Some(placed);
  }

  /**
   * The flattened endpoint list (get_endpoint_device_list). The source loops
   * until a level has no devices below it; here at most `maxRounds` levels
   * beyond the first are followed.
   */
  method GetEndpointDeviceList(pf: PciPlatform, maxRounds: nat)
    returns (r: Result<seq<PcieDeviceInfo>, DiscoveryError>)
    ensures r == EndpointDevices(pf, maxRounds)
  {
    var rootDevices := GetRootBridgeDevices(pf);
    r := FlattenLevels(pf, rootDevices, maxRounds);
  }

  /**
   * One iteration of the while(1) loop of get_endpoint_device_list: either
   * the list is finished (`done`, with the result) or the walk goes on one
   * level deeper, from `next` with `placed` as the endpoints so far.
   */
  method FlattenRound(pf: PciPlatform, levelDevices: seq<PcieDeviceInfo>, endpoints: seq<PcieDeviceInfo>, fuel: nat)
    returns (done: bool, r: Result<seq<PcieDeviceInfo>, DiscoveryError>, next: seq<PcieDeviceInfo>, placed: seq<PcieDeviceInfo>)
    ensures done ==> r == EndpointRounds(NextLevel(pf), levelDevices, endpoints, fuel)
    ensures !done ==> fuel > 0 && EndpointRounds(NextLevel(pf), next, placed, fuel - 1) == EndpointRounds(NextLevel(pf), levelDevices, endpoints, fuel)
  {
    next, placed := [], [];
    var level := PlaceLevel(endpoints, levelDevices);
    var inner := GetInnerDevices(pf, levelDevices);
    match level {
      case None =>
        return true, Failure(OrphanFunction), next, placed;
      case Some(lv) =>
        if inner == [] {
          // add the bridges of the last level as well
          var all := PlaceBridges(lv.placed, lv.bridges);
          match all {
            case None => return true, Failure(OrphanFunction), next, placed;
            case Some(devices) => return true, Success(devices), next, placed;
          }
        }
        if fuel == 0 {
          return true, Failure(RoundLimit), next, placed;
        }
        return false, Failure(RoundLimit), inner, lv.placed;
    }
  }

  /** The while(1) loop of get_endpoint_device_list, level by level from `rootDevices`. */
  method FlattenLevels(pf: PciPlatform, rootDevices: seq<PcieDeviceInfo>, maxRounds: nat)
    returns (r: Result<seq<PcieDeviceInfo>, DiscoveryError>)
    ensures r == EndpointRounds(NextLevel(pf), rootDevices, [], maxRounds)
  {
    var levelDevices := rootDevices;
    var endpoints: seq<PcieDeviceInfo> := [];
    var fuel := maxRounds;
    ghost var goal := EndpointRounds(NextLevel(pf), rootDevices, [], maxRounds);
    while true
      invariant EndpointRounds(NextLevel(pf), levelDevices, endpoints, fuel) == goal
      decreases fuel
    {
      var done, result, next, placed := FlattenRound(pf, levelDevices, endpoints, fuel);
      if done {
        return result;
      }
      levelDevices, endpoints, fuel := next, placed, fuel - 1;
    }
  }
}
