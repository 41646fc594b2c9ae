# drvscan core, modelled in Dafny

drvscan is a Windows scanner for DMA cards and tampered firmware. This project models its decision logic:

- **PCIe discovery.** The model follows how the scanner finds PCI functions bus by bus. A function counts as absent when eight config bytes read 0xFF. The scanner then descends through bridges, bounded by their secondary and subordinate bus numbers, and flattens the result into a list of endpoints with their extra functions gathered under them (`PciConfig`, `PciTopology`).
- **Classification and remediation.** Each endpoint goes through ordered, first-match-wins rules:
  - the rules over its 512-byte configuration snapshot (`validate_device_config`);
  - the rules over its driver and network-adapter status (`validate_device_features`).

  `test_devices` runs the shadow-configuration probe and both passes. Then, if remediation is asked for, it clears the bus-master bit of each flagged device's parent bridge with a memory-mapped configuration write at the bridge's physical address + 4, and later restores it (`PciValidation`).
- **Firmware checks.** The checks run over the UEFI memory map:
  - page-table allocations that no memory descriptor covers (`unlink_detection`);
  - runtime-services ranges lying outside the DXE range (`invalid_range_detection`);
  - runtime services whose code is patched, or that point outside every DXE module (`scan_runtime`).

  These are in `EfiIntegrity`.
- **Module diff.** This compares a module's reference image with its runtime image, section by section. Every maximal run of differing bytes at least `diff` long is reported (`scan_section`, `compare_sections`, in `ModuleDiff`).
- **Driver side.** The driver pieces are:
  - the walk of the kernel's upper-half page tables, which collects runs of contiguous, present, executable, unmapped 4 KiB pages into caller arrays of fixed capacity (`get_efi_memory_pages`, in `PageWalk`);
  - the PCI configuration-mechanism-#1 read (`read_pci_u16`);
  - the page-list buffer returned by IOCTL_REQUEST_PAGES (`DriverIo`).

Hardware and OS services are inputs to the model:

| Service | Modelled as |
|---|---|
| config reads | 512-byte snapshots given by a platform function |
| page tables | a map from table address to 512 entries |
| reverse-mapping query | a set of mapped frames |
| probe timings | per-device delays |
| WMI lookup | a function from PnP id to `Option<bool>` |
| port 0xCFC | a function of the address written to port 0xCF8 |
| memory allocation | a success flag |

The loops of the source stay loops:
- `validate_device_config`, `test_devices` and its remediation loops, `scan_section`, `unlink_detection` and `invalid_range_detection`;
- the `while (1)` of `get_endpoint_device_list`;
- the four nested loops of `get_efi_memory_pages`;
- the buffer fill of IOCTL_REQUEST_PAGES.

Each is a method proved equal to a recursive specification function. The properties are proved about those functions. In-place updates of the device list use an `array`, and the page-run output goes into two `array<qword>` buffers.

## Model

| member | source | states |
|---|---|---|
| PciConfig.WordAt | Client/main.cpp:345 | A config register is read little-endian: its low byte is at the offset and its high byte at the next one. |
| PciConfig.WalkCapabilities | Client/main.cpp:314 | A capability found by the walk lies below offset 0x100 and its ID byte is the one searched for. |
| PciConfig.PcieCap | Client/main.cpp:314 | The PCI Express capability found lies in the standard header area and carries capability ID 0x10. |
| PciConfig.PortType | Client/main.cpp:283-291 | The port type is a 4-bit value, and it is 0 when the function has no PCI Express capability. |
| PciConfig.LinkSpeed | Client/main.cpp:320 | The current link speed is a 4-bit field. |
| PciConfig.LinkWidth | Client/main.cpp:326 | The negotiated link width is a 6-bit field. |
| PciConfig.CountFF | Client/main.cpp:873-880 | The count never exceeds the length, and it equals the length exactly when every byte is 0xFF. |
| PciTopology.CountInvalidBytes | Client/main.cpp:873-880 | The loop counts at most 8 bytes, and it counts 8 exactly when the function is absent (bytes 0x04..0x0B all 0xFF). |
| PciTopology.ScanFunctionsComplete | Client/main.cpp:869-905 | When function 0 of a slot is present, every function of the slot that passes the filter is recorded, with its address base+(func<<12) and its snapshot. |
| PciTopology.ScanFunctionsFacts | Client/main.cpp:869-905 | Every recorded function belongs to that bus and slot, has func < 8, the address base+(func<<12) and the snapshot read there. It passes the filter and has no children. A non-empty slot has function 0 present. |
| PciTopology.ScanFunctionsOrdered | Client/main.cpp:869-905 | Functions of a slot are recorded in increasing function order. |
| PciTopology.ScanSlotsFacts | Client/main.cpp:861-906 | Every recorded function is on the scanned bus, in a slot < 32 with a non-zero mapping, at its computed address and snapshot, and its function 0 is present. |
| PciTopology.ScanSlotsOrdered | Client/main.cpp:861-906 | Functions of a bus are recorded in increasing (slot, function) order. |
| PciTopology.ScanStopsAtMissingSlot | Client/main.cpp:863-867 | A slot without a mapping ends the scan of the whole bus: no later slot is recorded. |
| PciTopology.ScanSlotFunctions | Client/main.cpp:869-905 | The function loop of one slot returns exactly the specified scan of that slot. |
| PciTopology.GetDevicesByBus | Client/main.cpp:858-909 | The result is exactly the specified scan of every present function on the bus. |
| PciTopology.GetRootBridgeDevices | Client/main.cpp:794-856 | The result is exactly the unclassified entries of the bus-0 functions with class code 0x060400, with a zeroed parent. |
| PciTopology.BelowBridgeFacts | Client/main.cpp:952-959 | Every entry added below a bridge is unclassified, has that bridge as parent, is one of the bus's functions, and sits on a bus no higher than the subordinate bus. |
| PciTopology.InnerDevicesBounded | Client/main.cpp:934-962 | Every inner entry's parent is the device of one of the given entries and is a bridge. The entry lies on that bridge's secondary bus, no higher than its subordinate bus. It is present, unclassified and childless. |
| PciTopology.GetInnerDevices | Client/main.cpp:934-962 | The loop over the level's bridges returns exactly the specified list of devices below them. |
| PciTopology.AppendBelowBridge | Client/main.cpp:952-959 | Appends exactly the bridge's bus functions whose bus is at most `max_bus`, in order. |
| PciTopology.AttachPlaces | Client/main.cpp:979-986 | Placing one non-bridge keeps every endpoint well placed: function 0, unclassified, with only non-zero functions as children. |
| PciTopology.RoundPlaces | Client/main.cpp:975-992 | After one level, the endpoints are well placed and the collected bridges are still unclassified. |
| PciTopology.AttachAllPlaces | Client/main.cpp:999-1009 | Placing the last level's bridges keeps every endpoint well placed. |
| PciTopology.NextLevelFresh | Client/main.cpp:934-962 | Every level found below the bridges of a level is made of unclassified entries without children. |
| PciTopology.EndpointRoundsPlaces | Client/main.cpp:972-1012 | From any level, and for any way of finding the level below that yields unclassified, childless entries, a successful flattening yields only well-placed endpoints. |
| PciTopology.EndpointDevicesWellPlaced | Client/main.cpp:964-1014 | The endpoint list, when it is built, holds only function-0 unclassified entries whose gathered children are all non-zero functions. |
| PciTopology.AttachKeeps | Client/main.cpp:978-986 | Placing an entry fails exactly when it is a non-zero function and no endpoint exists yet. Otherwise it adds exactly that function at the end of the flattened list. |
| PciTopology.RoundKeeps | Client/main.cpp:975-993 | One pass over a level places exactly its non-bridge functions, in order, and sets exactly its bridges aside, in order. |
| PciTopology.AttachAllKeeps | Client/main.cpp:1000-1010 | Placing the last level's bridges adds exactly their functions, in order. |
| PciTopology.EndpointRoundsKeeps | Client/main.cpp:972-1012 | From any level, and for any way of finding the level below that yields unclassified, childless entries, a successful flattening adds exactly the discovered functions to the endpoints it started with: each level's non-bridge functions, then the last level's bridges. |
| PciTopology.EndpointDevicesComplete | Client/main.cpp:964-1014 | The completed list holds every function discovery handed it exactly once and in discovery order: the non-bridge functions of every level, then the last level's bridges. Bridges of earlier levels are dropped. |
| PciTopology.AttachHeads | Client/main.cpp:978-986 | Placing an entry adds it, with its parent and classification, as the last endpoint when it is a function 0. Otherwise no endpoint's own entry changes. |
| PciTopology.RoundHeads | Client/main.cpp:975-993 | One pass over a level adds exactly that level's non-bridge function-0 entries as endpoints, in order, each with its parent. |
| PciTopology.AttachAllHeads | Client/main.cpp:1000-1010 | Placing the last level's bridges adds exactly the function-0 bridges as endpoints, in order, each with its parent. |
| PciTopology.EndpointRoundsHeads | Client/main.cpp:972-1012 | From any level, a successful flattening adds exactly the discovered function-0 entries as endpoints, in order, each with its parent. |
| PciTopology.EndpointDevicesEntries | Client/main.cpp:964-1014 | Stripped of their gathered functions, the endpoints of the completed list are exactly the discovered function-0 entries, in discovery order. Each keeps the parent discovery gave it, which is the parent remediation later writes to. GetRootBridgeDevices and InnerDevicesBounded state what that parent is. |
| PciTopology.PlaceLevel | Client/main.cpp:975-992 | The pass over a level places non-bridges and collects bridges exactly as the specified round. It fails on a non-zero function with no endpoint before it. |
| PciTopology.PlaceBridges | Client/main.cpp:999-1009 | The closing pass places the last level's bridges exactly as specified. |
| PciTopology.FlattenRound | Client/main.cpp:974-1011 | One iteration either finishes with the specified result, or continues one level down where the specified result is the same. |
| PciTopology.FlattenLevels | Client/main.cpp:972-1013 | The `while (1)` loop returns exactly the specified flattening from the root level. |
| PciTopology.GetEndpointDeviceList | Client/main.cpp:964-1014 | The endpoint list equals the specified flattening of the bus-0 bridges. |
| PciValidation.BlkInfo | Client/main.cpp:207-232 | The message is "OK" exactly for codes outside 1..19. |
| PciValidation.ConfigVerdict | Client/main.cpp:306-515 | Every verdict of the configuration rules is one of the nine they can set. "Invalid header type 0" (info 10) is not among them. |
| PciValidation.LinkMismatchRule | Client/main.cpp:320-330 | The verdict is blk 2 / info 15 if and only if the device has a PCI Express capability and its link is faster or wider than its port's. |
| PciValidation.BusMasterOffRule | Client/main.cpp:345-371 | Past the PCI Express checks, with bus master off: no verdict if it is multi-function and a gathered function masters the bus; otherwise blk 1 / info 2. |
| PciValidation.BusMasterOffExactly | Client/main.cpp:315-371 | blk 1 / info 2 is given if and only if the PCI Express checks pass, bus master is off, and no bus-mastering sibling excuses it. |
| PciValidation.HeaderTypeRule | Client/main.cpp:480-515 | A device reaching the last rule is judged by header layout alone: layout 1 gives info 11, layout 0 passes, and any other layout gives info 12. |
| PciValidation.NoHeaderType0Verdict | Client/main.cpp:335-339 | Info 10 is never the verdict: a port type at or above root port is already blocked with info 14. |
| PciValidation.HiddenDeviceRule | Client/main.cpp:397-411 | All-ones or all-zero vendor and device IDs past the earlier rules give blk 2 / info 5. |
| PciValidation.FindBusMaster | Client/main.cpp:351-361 | The loop finds a bus-mastering gathered function if and only if one exists. |
| PciValidation.FindHidden | Client/main.cpp:442-457 | The loop finds a gathered function with all-ones IDs if and only if one exists. |
| PciValidation.ValidateDeviceConfig | Client/main.cpp:306-515 | The entry gets exactly the configuration verdict. Device and parent are untouched, and the entry is unchanged when no rule fires. |
| PciValidation.FirstAdapter | Client/main.cpp:569-582 | The adapter is absent exactly when none matches bus, slot and function; otherwise it is the first matching one. |
| PciValidation.FirstAdapterAt | Client/main.cpp:569-582 | The first index that matches is the adapter the search returns. |
| PciValidation.FeatureRules | Client/main.cpp:518-609 | Info 19 is given if and only if no adapter backs the device and bus master is on; info 16 if and only if none backs it and bus master is off. A backed network-class function gets info 17 if and only if its adapter has no network-adapter entry, and info 18 if and only if that adapter is disabled. A backed function gets no verdict if and only if it is not a network controller or its adapter is enabled. |
| PciValidation.ValidateDeviceFeatures | Client/main.cpp:559-609 | The entry gets exactly the feature verdict. |
| PciValidation.FirstShadow | Client/main.cpp:663-682 | The index returned is the first with a fast write at 0xA0 and a slow one at 0xA8. None means no entry shows that pattern. |
| PciValidation.ProbeBlocksFirstHitOnly | Client/main.cpp:663-682 | The probe pass marks an entry pcileech (blk 2 / info 1) exactly when its probe shows the signature and no earlier entry's does. Every other entry stays as it was. |
| PciValidation.ProbeShadowConfig | Client/main.cpp:663-682 | The probe loop leaves the list equal to the specified probe pass. |
| PciValidation.ConfigPass | Client/main.cpp:687-698 | Every entry is replaced by its configuration step. An entry with a verdict is skipped. |
| PciValidation.FeaturePass | Client/main.cpp:703-713 | Every entry is replaced by its feature step. An entry with a verdict is skipped. |
| PciValidation.ConfigurationPass | Client/main.cpp:687-698 | The configuration loop leaves the list equal to the specified pass. |
| PciValidation.FeaturesPass | Client/main.cpp:703-713 | The feature loop leaves the list equal to the specified pass. |
| PciValidation.FirstClassificationWins | Client/main.cpp:687-713 | Classification never changes an entry's device or parent. A verdict set by the probe or the configuration pass is final. |
| PciValidation.StepsKeepConsistent | Client/main.cpp:687-713 | Both passes keep blk in {0,1,2}, with info 0 exactly when blk is 0 and a named code otherwise. |
| PciValidation.ClassifiedCodesNamed | Client/main.cpp:656-713 | After classification, every entry's blk is 0, 1 or 2, and blk is 0 exactly when its info code prints as "OK". |
| PciValidation.WithoutBusMaster | Client/main.cpp:745 | The written command value has bit 2 clear and agrees with the original on every other bit. |
| PciValidation.BlockedParents | Client/main.cpp:726-752 | Every bridge blocked for a level had bus master on and is the parent of an entry at that level. |
| PciValidation.BlockedParentsComplete | Client/main.cpp:728-749 | Conversely, every entry at the level whose parent masters the bus has that parent blocked. |
| PciValidation.Remediated | Client/main.cpp:724-780 | Nothing is blocked without `disable`. Every blocked bridge had bus master on and is the parent of a warned or blocked entry. |
| PciValidation.BlockWrites | Client/main.cpp:739-748 | One write per blocked bridge, to its command register, with only bit 2 cleared. |
| PciValidation.RestoreWrites | Client/main.cpp:787-790 | One write per blocked bridge, to its command register, with the command value of its snapshot. |
| PciValidation.BlockLevel | Client/main.cpp:726-752 | The loop blocks exactly the level's bus-mastering parents, in list order, and issues their clearing writes. |
| PciValidation.RestoreBridges | Client/main.cpp:787-790 | The unblocking loop issues exactly the restoring writes. |
| PciValidation.Remediate | Client/main.cpp:724-791 | Warned entries' bridges are blocked before blocked entries' bridges, and all of them are restored afterwards, in order. |
| PciValidation.TestDevices | Client/main.cpp:656-792 | The list ends up probe-, configuration- and feature-classified. The bridges blocked and the writes issued are the specified remediation. |
| EfiIntegrity.LastUnlinked | Client/main.cpp:1579-1602 | None means every allocation is covered. Otherwise it gives the last allocation that no descriptor covers. |
| EfiIntegrity.FindCovering | Client/main.cpp:1583-1590 | The inner loop finds a covering descriptor if and only if one exists. |
| EfiIntegrity.UnlinkDetection | Client/main.cpp:1572-1605 | Returns true if and only if some allocation's start lies outside every descriptor's inclusive range. `out` then holds the last such allocation, and is untouched otherwise. |
| EfiIntegrity.EndOfDescriptorIsLinked | Client/main.cpp:1585 | The range is inclusive: an allocation starting exactly at a descriptor's end counts as linked. |
| EfiIntegrity.OnlyStartIsTested | Client/main.cpp:1585 | Only the allocation's start is tested, so its size never affects the verdict. |
| EfiIntegrity.LastFlagged | Client/main.cpp:1614-1637 | None means no descriptor is flagged. Otherwise it gives the last flagged one. |
| EfiIntegrity.InvalidRangeDetection | Client/main.cpp:1607-1640 | Returns true if and only if some descriptor outside the DXE range is runtime code or data with attributes 0x800000000000000f, starting above the DXE start. `out` is the last one. |
| EfiIntegrity.InsideDxeNeverFlagged | Client/main.cpp:1616-1622 | A descriptor inside the DXE range is never the one reported. |
| EfiIntegrity.InsideDxeWithoutWrap | Client/main.cpp:1616-1619 | When neither sum wraps, "inside" means plain containment of [start, end) in the DXE range. |
| EfiIntegrity.WrappedSpanCountsAsInside | Client/main.cpp:1616-1619 | A descriptor whose end wraps past 2^64 counts as inside and is not flagged, although it reaches past the DXE end. |
| EfiIntegrity.RangePastDxeIsReported | Client/main.cpp:1614-1636 | A runtime-services range beyond the DXE end is reported. |
| EfiIntegrity.Inspect | Client/main.cpp:1652-1673 | Any finding names the service's index and address. |
| EfiIntegrity.BytePatchWins | Client/main.cpp:1653-1657 | A service whose first code word is FF 25 is reported as byte-patched, and the module test is skipped. |
| EfiIntegrity.PointerSwapExactly | Client/main.cpp:1653-1673 | A pointer swap is reported if and only if the code is not FF 25 and its physical address lies in no DXE module's inclusive range. |
| EfiIntegrity.RuntimeHooks | Client/main.cpp:1650-1674 | Every finding is the verdict for its table entry, in increasing table order. |
| EfiIntegrity.RuntimeHooksComplete | Client/main.cpp:1650-1674 | Every entry with a verdict appears among the findings. |
| EfiIntegrity.FindModule | Client/main.cpp:1661-1668 | The containment loop finds a module if and only if one contains the physical address. |
| EfiIntegrity.ScanRuntime | Client/main.cpp:1642-1675 | The loop over the runtime services table reports exactly the specified findings. |
| ModuleDiff.AsSigned | Client/main.cpp:1314 | The QWORD difference read as INT64 lies in the signed range and wraps back to the same word. |
| ModuleDiff.Abs64 | Client/main.cpp:1314 | `abs` gives the magnitude of every INT64 other than INT64_MIN. On INT64_MIN the model returns INT64_MIN, its two's-complement result (see "Left out"). |
| ModuleDiff.AddressEqualIsDistance | Client/main.cpp:1312-1316 | When the distance fits in INT64, the addresses are "equal" exactly when their distance is at most `cnt`. |
| ModuleDiff.RunLength | Client/main.cpp:1327-1342 | A run never reaches past the section size. |
| ModuleDiff.RunLengthMaximal | Client/main.cpp:1327-1342 | Every byte of a run differs, and the run ends at the section end or at the first equal byte. |
| ModuleDiff.Runs | Client/main.cpp:1320-1358 | Every reported run starts at a differing byte with an equal byte or the scan start before it. It is maximal and at least `diff` long. |
| ModuleDiff.RunsSeparated | Client/main.cpp:1320-1358 | Reported runs are in increasing order, never overlap, and are separated by at least one equal byte. |
| ModuleDiff.RunsComplete | Client/main.cpp:1320-1358 | Every maximal run of differing bytes at least `diff` long is reported. |
| ModuleDiff.EqualBytesSkipped | Client/main.cpp:1322-1325 | Equal bytes contribute nothing: the scan from before them reports what the scan after them does. |
| ModuleDiff.IdenticalSectionsNoRuns | Client/main.cpp:1318-1359 | Identical sections report nothing. |
| ModuleDiff.SingleByteChange | Client/main.cpp:1318-1359 | One changed byte is reported as one run of length 1 at its offset, for `diff` at most 1. |
| ModuleDiff.TwoSeparatedChanges | Client/main.cpp:1318-1359 | Two changed bytes with an equal byte between them give two runs. |
| ModuleDiff.Report | Client/main.cpp:1343-1356 | One record per reported run. |
| ModuleDiff.ReportAt | Client/main.cpp:1345-1355 | A record names the section and the address section+start, with the original and current bytes of the run. |
| ModuleDiff.ReportedBytesDiffer | Client/main.cpp:1318-1358 | Each record covers 1 or more bytes, at least `diff`, within the section, and its bytes differ pairwise. |
| ModuleDiff.MeasureRun | Client/main.cpp:1327-1342 | The counting loop measures exactly the run length. |
| ModuleDiff.ScanAt | Client/main.cpp:1320-1358 | One iteration of the outer loop moves forward and keeps the records equal to the specified report of the runs found so far. |
| ModuleDiff.ScanSection | Client/main.cpp:1318-1359 | The scan returns exactly the specified report. |
| ModuleDiff.SectionHeaderAt | Client/main.cpp:1372-1377 | The section name is the 8-byte name field. |
| ModuleDiff.ParseHeaders | Client/main.cpp:1363-1371 | The section count read from the NT headers is a 16-bit value. |
| ModuleDiff.UnmonitoredSectionSkipped | Client/main.cpp:1379-1387 | A section without code, or discardable, or named "PAGEwx3", contributes no record whatever its bytes. |
| ModuleDiff.SectionRecordsInside | Client/main.cpp:1379-1397 | Every record of a section comes from a monitored section and lies inside its virtual range. |
| ModuleDiff.RecordsFromMonitoredSections | Client/main.cpp:1371-1398 | Every record of the module comes from some monitored section and lies inside its virtual range. |
| ModuleDiff.CompareSection | Client/main.cpp:1372-1397 | One iteration of the section loop returns exactly that section's specified records. |
| ModuleDiff.CompareSectionTable | Client/main.cpp:1371-1398 | The section loop returns exactly the specified records, in table order. |
| ModuleDiff.CompareSections | Client/main.cpp:1361-1399 | The whole comparison returns exactly the specified module report. |
| PageWalk.Frame | Driver/main.cpp:519 | A frame number shifted by 12 gives a page-aligned address below 2^48. |
| PageWalk.Flush | Driver/main.cpp:548-553 | A flush either records nothing or appends one run and keeps the runs before it. |
| PageWalk.PteStep | Driver/main.cpp:517-556 | page_count grows by one if and only if the page is usable and exactly 0x1000 above the previous one. Otherwise it resets to 0 or stays. An unusable page never extends a run. |
| PageWalk.PteWalk | Driver/main.cpp:517-557 | page_count grows by at most one per entry. |
| PageWalk.PdeStep | Driver/main.cpp:470-557 | A PDE adds at most 512 to page_count. |
| PageWalk.PdeWalk | Driver/main.cpp:468-558 | page_count never exceeds 512 per PDE, so the DWORD never wraps. |
| PageWalk.FlushGood | Driver/main.cpp:548-552 | A flushed run covers at least 4 pages, inside the physical range, and its pages after the first are usable. |
| PageWalk.PteStepGood | Driver/main.cpp:517-556 | One PTE keeps the pending chain of usable pages and every recorded run good. |
| PageWalk.PteWalkGood | Driver/main.cpp:517-557 | A PTE table keeps the pending chain and every recorded run good. |
| PageWalk.PdeStepGood | Driver/main.cpp:470-557 | One PDE keeps the pending chain and every recorded run good. |
| PageWalk.PdeWalkGood | Driver/main.cpp:468-558 | A page directory keeps the pending chain and every recorded run good. |
| PageWalk.PdptWalkGood | Driver/main.cpp:446-559 | A PDPT keeps every recorded run good. |
| PageWalk.Pml4WalkGood | Driver/main.cpp:433-560 | The upper-half PML4 walk records only good runs. |
| PageWalk.RecordedRunsAreUsable | Driver/main.cpp:418-563 | Every run the walk records covers at least 4 pages, and every page after its first is present, executable and not reverse-mapped. |
| PageWalk.AnchorMayBeUnusable | Driver/main.cpp:527-556 | After a flush at an unusable page, a run can start from that unusable page. |
| PageWalk.LowerHalfIgnored | Driver/main.cpp:433 | PML4 entries 0..255 never influence the result. |
| PageWalk.HugePagesSkipped | Driver/main.cpp:458-464 | A 1 GiB entry anywhere in a PDPT contributes nothing: the walk gives the same runs as when that entry maps nothing. |
| PageWalk.LargePageClosesRun | Driver/main.cpp:501-512 | A 2 MiB entry counts no page. It closes the pending run, which is recorded only when long enough, and acts as an entry that maps nothing, except that its frame becomes the previous address. |
| PageWalk.LargePagesSkipped | Driver/main.cpp:501-515 | A page directory made only of 2 MiB pages adds no run and leaves no pending pages. |
| PageWalk.Emit | Driver/main.cpp:548-553 | A flush writes the run's start and count at `index` when capacity remains, and touches no later slot. |
| PageWalk.WalkPtes | Driver/main.cpp:517-557 | The PTE loop follows the specified walk and writes the recorded runs into free slots. |
| PageWalk.WalkPdes | Driver/main.cpp:468-558 | The PDE loop follows the specified walk, and drops the pending run at its end. |
| PageWalk.WalkPdpt | Driver/main.cpp:446-559 | The PDPT loop follows the specified walk. |
| PageWalk.GetEfiMemoryPages | Driver/main.cpp:418-563 | Without a PML4 it returns false and leaves the count alone. Otherwise the count is min(capacity, runs found) and the slots hold the first runs. It returns true exactly when the count is non-zero, and later slots are untouched. |
| DriverIo.ConfigAddress | Driver/main.cpp:106 | The address has the enable bit set and the register offset in its low byte. |
| DriverIo.ConfigAddressFields | Driver/main.cpp:106 | For slot < 32 and func < 8, the fields decode back as enable 0x80, then bus, slot, function and offset. |
| DriverIo.SelectWord | Driver/main.cpp:107 | Offset bit 1 clear gives the low half of the dword, and set gives the high half. |
| DriverIo.HalvesReassemble | Driver/main.cpp:107 | Both halves together give back the dword. |
| DriverIo.ReadMatchesSnapshot | Driver/main.cpp:104-108 | For an even offset, when port 0xCFC answers with the aligned dword of the configuration space, the read is the snapshot's WORD at that offset. |
| DriverIo.LeRoundTrip | Driver/main.cpp:233-238 | A little-endian field of n bytes decodes back to the value stored. |
| DriverIo.RequestSize | Driver/main.cpp:227-228 | The size is count*16+4 in DWORD arithmetic, never 0. For counts up to the 100 slots it is exactly count*16+4. |
| DriverIo.RegionSize | Driver/main.cpp:230 | The allocation is the size rounded up to whole pages. |
| DriverIo.PageList | Driver/main.cpp:233-239 | The page list is 4+16*count bytes long. |
| DriverIo.ReplyHeader | Driver/main.cpp:233 | The first 4 bytes hold the count. |
| DriverIo.RecordAt | Driver/main.cpp:234-239 | Slot i holds its start at 4+16i and its page count at 4+16i+8, little-endian. |
| DriverIo.PageListRoundTrip | Driver/main.cpp:233-239 | Reading the buffer back, whatever follows the list, gives exactly the runs written. |
| DriverIo.StoreRun | Driver/main.cpp:236-238 | One iteration writes a run's start and page count into the next 16 zero bytes. |
| DriverIo.StoreRuns | Driver/main.cpp:233-239 | The fill loop leaves the page list followed by the untouched zero bytes. |
| DriverIo.RequestPages | Driver/main.cpp:223-254 | On allocation failure: null buffer and size 0. Otherwise: a fresh buffer of count*16+4 bytes rounded up to whole pages, holding exactly the page list, then zeros. |

## Where the code and its description differ

In each case below the model follows the code.

- The absence test reads config bytes 0x04..0x0B (Client/main.cpp:873-880), not the first eight bytes of the header.
- A slot whose mapping is 0 ends the scan of the whole bus (`goto E0`), not just that slot.
- `unlink_detection` tests only an allocation's start against each descriptor's inclusive range. It does not test full containment (`EfiIntegrity.OnlyStartIsTested`).
- `compare_sections` selects sections by IMAGE_SCN_CNT_CODE (0x20), not by the execute permission bit.
- The header-type-0 rule (info 10) cannot fire: a PCI Express device with a port type at or above root port has already been blocked with info 14 (`PciValidation.NoHeaderType0Verdict`).
- In `invalid_range_detection` the end sums wrap at 2^64, so a descriptor whose end wraps counts as inside the DXE range (`EfiIntegrity.WrappedSpanCountsAsInside`).
- A run recorded by `get_efi_memory_pages` starts one page before its first counted page. After a flush that page can be the unusable page that caused the flush, or the address of a 2 MiB page (`PageWalk.AnchorMayBeUnusable`).
- The pending run at the end of a PDPT entry's PDE loop is dropped. `page_count` and `previous_address` are declared again for the next entry.
- The Xilinx, power-management, MSI and zero-ID child rules are commented out in the source, and they are not modelled.
- The runs `get_efi_memory_pages` records are neither ordered by address nor disjoint. They come out in virtual-walk order, and two page-table entries can map the same frame. No lemma about their order or overlap is stated.
- `IsAddressEqual` (Client/main.cpp:1312-1316) has no caller in Client/main.cpp. `ModuleDiff.AsSigned`, `ModuleDiff.Abs64` and `ModuleDiff.AddressEqualIsDistance` model this helper on its own. It plays no part in the module diff.

## Left out

- Port and memory I/O, physical-memory mapping, the timer and the console: hardware is replaced by the inputs listed above. Printing, colour output, config and BAR dumps, `filter_pci_cfg`, `print_device_info` and `get_port_type_str` produce no decision.
- Command-line parsing in `main`, `scan_pci`, `scan_efi`, `scan_image` and the dump-to-file helpers: these only orchestrate or do file I/O.
- The `pci::` capability helpers (`get_pcie`, `get_link`, link speed and width) are not part of this model. They are defined here from the standard offsets: the list starts at 0x34, the walk is bounded to 48 steps, the PCI Express capability ID is 0x10, the port type sits in bits 7:4 at capability+2, and the link status at capability+0x12. A function without that capability reads speed and width 0.
- PciValidation.ProbeShadowConfig: the GetTickCount timing and the probe writes at 0xA0 and 0xA8 are replaced by per-device delays given as input.
- PciValidation.ValidateDeviceFeatures: the WMI query for network adapters is a lookup function returning the adapter's NetEnabled value, or None when no row matches. PnP ids are compared exactly, not case-insensitively.
- PciValidation.Remediate: the wait for a key press before unblocking is not modelled. The memory-mapped configuration writes are returned as a sequence instead of being issued.
- ModuleDiff.Abs64: `abs(INT64_MIN)` is undefined behaviour in C++. The model returns INT64_MIN there, which is the usual two's-complement outcome but a modelling choice.
- PciTopology.GetEndpointDeviceList: the `while (1)` loop is bounded by a round limit. When the limit is hit the result is an error.
- PciTopology.GetEndpointDeviceList: a non-zero function with no endpoint before it indexes an empty vector in the source (undefined behaviour). It is an `OrphanFunction` error here.
- ModuleDiff.CompareSections: header and section reads that would fall outside an image are `PeError` results. The source reads them unchecked.
- PageWalk.GetEfiMemoryPages: the walk is modelled, with its assumptions made explicit:
  - CR3, `MmGetVirtualForPhysical` and `MmIsAddressValid` are a machine value: a root address, a map from table address to table, and the set of frames that have a virtual mapping;
  - a table address absent from the map stands for an invalid mapping.
- DriverIo.RequestPages: `ZwAllocateVirtualMemory` is a success flag. The region is rounded up to whole pages and zero-filled, and the status code is reduced to success or failure.
- The STATUS_INVALID_ADDRESS branch of IOCTL_REQUEST_PAGES is unreachable, because the DWORD size is never 0 (`DriverIo.RequestSize`). The client-side reader of the page list is not part of this model: `DriverIo.ParsePageList` stands in as the layout's inverse.
- DriverEntry, DriverUnload, the IoControl dispatch and its other IOCTLs, and TSC latency measurement are left out: these are kernel plumbing and timing.
- Client/clkm/clkm.cpp is not part of this model.
