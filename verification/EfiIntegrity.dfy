/**
 * Firmware integrity checks over the UEFI memory map.
 *
 * Memory types 5 and 6 are EfiRuntimeServicesCode and EfiRuntimeServicesData,
 * and attribute bit 63 is EFI_MEMORY_RUNTIME (UEFI Specification 2.9,
 * section 7.2, GetMemoryMap). All address arithmetic is on 64-bit words and
 * wraps exactly as the QWORD sums it models.
 */
module EfiIntegrity {
  import opened Common

  const EFI_RUNTIME_SERVICES_CODE: u32 := 5
  const EFI_RUNTIME_SERVICES_DATA: u32 := 6
  /** EFI_MEMORY_RUNTIME together with the UC, WC, WT and WB cacheability bits. */
  const RUNTIME_ATTRIBUTES: qword := 0x800000000000000f
  /** Bytes FF 25 read as a little-endian word: an indirect `jmp [rip+disp32]`. */
  const INDIRECT_JUMP: u16 := 0x25ff

  /** One entry of the firmware memory map. */
  datatype MemoryDescriptor = MemoryDescriptor(
    memType: u32,
    physicalStart: qword,
    virtualStart: qword,
    numberOfPages: qword,
    attribute: qword)

  /** A physical range found through the firmware's page tables (also used for the DXE range). */
  datatype PageTableAllocation = PageTableAllocation(physicalStart: qword, numberOfPages: qword)

  /** Physical span of one loaded DXE module. */
  datatype ModuleInfo = ModuleInfo(physicalAddress: qword, size: qword)

  /** First address past `pages` 4 KiB pages from `start`, wrapping at 2^64. */
  function SpanEnd(start: qword, pages: qword): qword
  {
    Wrap64(start + pages * PAGE_SIZE)
  }

  // ---------------------------------------------------------------------
  // unlink_detection
  // ---------------------------------------------------------------------

  /** `addr` lies in the inclusive range [start, start + pages * 0x1000] of the descriptor. */
  predicate Covers(mm: MemoryDescriptor, addr: qword)
  {
    addr >= mm.physicalStart && addr <= SpanEnd(mm.physicalStart, mm.numberOfPages)
  }

  /** Some descriptor of the memory map covers the allocation's first address. */
  predicate Linked(a: PageTableAllocation, memoryMap: seq<MemoryDescriptor>)
  {
    exists j | 0 <= j < |memoryMap| :: Covers(memoryMap[j], a.physicalStart)
  }

  /** Index of the last allocation that no descriptor covers, if any. */
  function LastUnlinked(list: seq<PageTableAllocation>, memoryMap: seq<MemoryDescriptor>): (r: Option<nat>)
    ensures r.None? <==> forall i | 0 <= i < |list| :: Linked(list[i], memoryMap)
    ensures r.Some? ==>
      && r.value < |list|
      && !Linked(list[r.value], memoryMap)
      && forall j | r.value < j < |list| :: Linked(list[j], memoryMap)
  {
    if list == [] then None
    else if !Linked(list[|list| - 1], memoryMap) then Some(|list| - 1)
    else
      var r := LastUnlinked(list[..|list| - 1], memoryMap);
      assert forall i | 0 <= i < |list| - 1 :: list[..|list| - 1][i] == list[i];
      r
  }

  /** Whether some descriptor covers `addr`: the inner loop, which stops at the first hit. */
  method FindCovering(memoryMap: seq<MemoryDescriptor>, addr: qword) returns (found: bool)
    ensures found <==> exists j | 0 <= j < |memoryMap| :: Covers(memoryMap[j], addr)
  {
    found := false;
    for j := 0 to |memoryMap|
      invariant !found && forall k | 0 <= k < j :: !Covers(memoryMap[k], addr)
    {
      if Covers(memoryMap[j], addr) {
        found := true;
        break;
      }
    }
  }

  /**
   * Reports every page-table allocation whose start no memory-map descriptor
   * covers; `out` keeps the last one reported and is left as `out0` when none is.
   */
  method UnlinkDetection(list: seq<PageTableAllocation>, memoryMap: seq<MemoryDescriptor>, out0: PageTableAllocation)
    returns (status: bool, out: PageTableAllocation)
    ensures status <==> exists i | 0 <= i < |list| :: !Linked(list[i], memoryMap)
    ensures status ==> out == list[LastUnlinked(list, memoryMap).value]
    ensures !status ==> out == out0
  {
    status := false;
    out := out0;
    for i := 0 to |list|
      invariant status <==> LastUnlinked(list[..i], memoryMap).Some?
      invariant status ==> out == list[..i][LastUnlinked(list[..i], memoryMap).value]
      invariant !status ==> out == out0
    {
      var found := FindCovering(memoryMap, list[i].physicalStart);
      assert list[..i + 1][..i] == list[..i];
      if !found {
        out := list[i];
        status := true;
      }
    }
    assert list[..|list|] == list;
  }

  /** The range test is inclusive: an allocation starting exactly at a descriptor's end counts as linked. */
  lemma EndOfDescriptorIsLinked(mm: MemoryDescriptor, a: PageTableAllocation)
    requires a.physicalStart == SpanEnd(mm.physicalStart, mm.numberOfPages)
    requires mm.physicalStart <= a.physicalStart
    ensures Linked(a, [mm])
  {
    assert Covers(mm, a.physicalStart);
    assert [mm][0] == mm;
  }

  /** Only the start of an allocation is tested: one starting inside a descriptor is linked however far it extends. */
  lemma OnlyStartIsTested(mm: MemoryDescriptor, a: PageTableAllocation, pages: qword)
    requires Linked(a, [mm])
    ensures Linked(PageTableAllocation(a.physicalStart, pages), [mm])
  {
    assert [mm][0] == mm;
  }

  // ---------------------------------------------------------------------
  // invalid_range_detection
  // ---------------------------------------------------------------------

  /** The descriptor starts at or after the DXE start and ends at or before the DXE end. */
  predicate InsideDxe(e: MemoryDescriptor, dxe: PageTableAllocation)
  {
    && e.physicalStart >= dxe.physicalStart
    && SpanEnd(e.physicalStart, e.numberOfPages) <= SpanEnd(dxe.physicalStart, dxe.numberOfPages)
  }

  /** Runtime services code or data with exactly the runtime, UC, WC, WT and WB attributes. */
  predicate RuntimeServicesRange(e: MemoryDescriptor)
  {
    && (e.memType == EFI_RUNTIME_SERVICES_CODE || e.memType == EFI_RUNTIME_SERVICES_DATA)
    && e.attribute == RUNTIME_ATTRIBUTES
  }

  /** A runtime-services range outside the DXE range that starts above the DXE start. */
  predicate Flagged(e: MemoryDescriptor, dxe: PageTableAllocation)
  {
    !InsideDxe(e, dxe) && RuntimeServicesRange(e) && e.physicalStart > dxe.physicalStart
  }

  /** Index of the last flagged descriptor, if any. */
  function LastFlagged(memoryMap: seq<MemoryDescriptor>, dxe: PageTableAllocation): (r: Option<nat>)
    ensures r.None? <==> forall i | 0 <= i < |memoryMap| :: !Flagged(memoryMap[i], dxe)
    ensures r.Some? ==>
      && r.value < |memoryMap|
      && Flagged(memoryMap[r.value], dxe)
      && forall j | r.value < j < |memoryMap| :: !Flagged(memoryMap[j], dxe)
  {
    if memoryMap == [] then None
    else if Flagged(memoryMap[|memoryMap| - 1], dxe) then Some(|memoryMap| - 1)
    else
      var r := LastFlagged(memoryMap[..|memoryMap| - 1], dxe);
      assert forall i | 0 <= i < |memoryMap| - 1 :: memoryMap[..|memoryMap| - 1][i] == memoryMap[i];
      r
  }

  /** One more descriptor: it becomes the last flagged one exactly when it is flagged. */
  lemma LastFlaggedStep(memoryMap: seq<MemoryDescriptor>, dxe: PageTableAllocation, i: nat)
    requires i < |memoryMap|
    ensures LastFlagged(memoryMap[..i + 1], dxe)
      == if Flagged(memoryMap[i], dxe) then Some(i) else LastFlagged(memoryMap[..i], dxe)
  {
    assert memoryMap[..i + 1][..i] == memoryMap[..i];
    assert memoryMap[..i + 1][i] == memoryMap[i];
  }

  /**
   * Reports every runtime-services descriptor lying outside the DXE range
   * above its start; `out` keeps the last one reported and is left as
   * `out0` when none is.
   */
  method InvalidRangeDetection(memoryMap: seq<MemoryDescriptor>, dxe: PageTableAllocation, out0: MemoryDescriptor)
    returns (status: bool, out: MemoryDescriptor)
    ensures status <==> exists i | 0 <= i < |memoryMap| :: Flagged(memoryMap[i], dxe)
    ensures status ==> out == memoryMap[LastFlagged(memoryMap, dxe).value]
    ensures !status ==> out == out0
  {
    status := false;
    out := out0;
    for i := 0 to |memoryMap|
      invariant status <==> LastFlagged(memoryMap[..i], dxe).Some?
      invariant status ==> out == memoryMap[..i][LastFlagged(memoryMap[..i], dxe).value]
      invariant !status ==> out == out0
    {
      var entry := memoryMap[i];
      LastFlaggedStep(memoryMap, dxe, i);
      if InsideDxe(entry, dxe) {
        continue;
      }
      if RuntimeServicesRange(entry) && entry.physicalStart > dxe.physicalStart {
        out := entry;
        status := true;
      }
    }
    assert memoryMap[..|memoryMap|] == memoryMap;
  }

  /** No descriptor lying fully inside the DXE range is ever reported. */
  lemma InsideDxeNeverFlagged(memoryMap: seq<MemoryDescriptor>, dxe: PageTableAllocation, i: nat)
    requires i < |memoryMap| && InsideDxe(memoryMap[i], dxe)
    ensures LastFlagged(memoryMap, dxe) != Some(i)
  {
  }

  /** Without wrap-around, a descriptor is inside the DXE range exactly when its span is contained in it. */
  lemma InsideDxeWithoutWrap(e: MemoryDescriptor, dxe: PageTableAllocation)
    requires e.physicalStart + e.numberOfPages * PAGE_SIZE < TWO_TO_64
    requires dxe.physicalStart + dxe.numberOfPages * PAGE_SIZE < TWO_TO_64
    ensures InsideDxe(e, dxe) <==>
      && dxe.physicalStart <= e.physicalStart
      && e.physicalStart + e.numberOfPages * PAGE_SIZE <= dxe.physicalStart + dxe.numberOfPages * PAGE_SIZE
  {
  }

  /**
   * With wrap-around the end test can pass for a span reaching far past the
   * DXE end: a runtime-code descriptor one page above the DXE start whose
   * page count makes its end wrap back to the DXE start is skipped.
   */
  lemma WrappedSpanCountsAsInside()
    ensures
      var dxe := PageTableAllocation(0x7000_0000, 0x100);
      var entry := MemoryDescriptor(5, 0x7000_1000, 0, 0xF_FFFF_FFFF_FFFF, RUNTIME_ATTRIBUTES);
      && InsideDxe(entry, dxe)
      && entry.physicalStart + entry.numberOfPages * PAGE_SIZE > dxe.physicalStart + dxe.numberOfPages * PAGE_SIZE
      && LastFlagged([entry], dxe).None?
  {
  }

  /** A runtime-code range 0x10000 bytes past the end of the DXE range is reported. */
  lemma RangePastDxeIsReported()
    ensures
      var dxe := PageTableAllocation(0x7000_0000, 0x100);
      var entry := MemoryDescriptor(5, 0x7011_0000, 0xFFFF_F800_0000_0000, 0x10, RUNTIME_ATTRIBUTES);
      LastFlagged([MemoryDescriptor(7, 0x1000, 0, 0x10, 0xF), entry], dxe) == Some(1)
  {
  }

  // ---------------------------------------------------------------------
  // scan_runtime
  // ---------------------------------------------------------------------

  /** How a runtime service pointer was found to be hooked. */
  datatype Hook =
    | BytePatch(index: nat, address: qword)
    | PointerSwap(index: nat, address: qword, physical: qword)

  /** Reads the first code word of a runtime service (a virtual read in the System process). */
  type CodeReader = qword -> u16
  /** Translates a virtual address to its physical address. */
  type Translator = qword -> qword

  /** The physical address lies in the inclusive range [base, base + size] of the module. */
  predicate InModule(m: ModuleInfo, physical: qword)
  {
    physical >= m.physicalAddress && physical <= Wrap64(m.physicalAddress + m.size)
  }

  /** Some DXE module contains the physical address. */
  predicate InAnyModule(modules: seq<ModuleInfo>, physical: qword)
  {
    exists j | 0 <= j < |modules| :: InModule(modules[j], physical)
  }

  /** The verdict for runtime service `i` at `address`. */
  function Inspect(i: nat, address: qword, readWord: CodeReader, toPhysical: Translator, modules: seq<ModuleInfo>): (r: Option<Hook>)
    ensures r.Some? ==> r.value.index == i && r.value.address == address
  {
    if readWord(address) == INDIRECT_JUMP then Some(BytePatch(i, address))
    else if InAnyModule(modules, toPhysical(address)) then None
    else Some(PointerSwap(i, address, toPhysical(address)))
  }

  /** The findings for the runtime services table, each one the verdict for its entry, in table order. */
  function RuntimeHooks(table: seq<qword>, readWord: CodeReader, toPhysical: Translator, modules: seq<ModuleInfo>): (r: seq<Hook>)
    ensures forall k | 0 <= k < |r| ::
      r[k].index < |table| && Inspect(r[k].index, table[r[k].index], readWord, toPhysical, modules) == Some(r[k])
    ensures forall k, l | 0 <= k < l < |r| :: r[k].index < r[l].index
  {
    if table == [] then []
    else
      var n := |table| - 1;
      var rest := RuntimeHooks(table[..n], readWord, toPhysical, modules);
      assert forall i | 0 <= i < n :: table[..n][i] == table[i];
      match Inspect(n, table[n], readWord, toPhysical, modules)
      case None => rest
      case Some(h) => rest + [h]
  }

  /** Every entry with a verdict is reported. */
  lemma {:induction false} RuntimeHooksComplete(table: seq<qword>, readWord: CodeReader, toPhysical: Translator, modules: seq<ModuleInfo>, i: nat)
    requires i < |table| && Inspect(i, table[i], readWord, toPhysical, modules).Some?
    ensures Inspect(i, table[i], readWord, toPhysical, modules).value in RuntimeHooks(table, readWord, toPhysical, modules)
  {
    var n := |table| - 1;
    assert table[..n + 1] == table;
    if i < n {
      assert table[..n][i] == table[i];
      RuntimeHooksComplete(table[..n], readWord, toPhysical, modules, i);
    }
  }

  /** Whether some module contains `physical`: the inner loop, which stops at the first hit. */
  method FindModule(modules: seq<ModuleInfo>, physical: qword) returns (found: bool)
    ensures found <==> InAnyModule(modules, physical)
  {
    found := false;
    for j := 0 to |modules|
      invariant !found && forall k | 0 <= k < j :: !InModule(modules[k], physical)
    {
      if InModule(modules[j], physical) {
        found := true;
        break;
      }
    }
  }

  /**
   * Checks every runtime service pointer: a leading indirect jump is a byte
   * patch; otherwise a physical address outside every DXE module is a
   * pointer swap. An empty table yields nothing.
   */
  method ScanRuntime(table: seq<qword>, readWord: CodeReader, toPhysical: Translator, modules: seq<ModuleInfo>)
    returns (hooks: seq<Hook>)
    ensures hooks == RuntimeHooks(table, readWord, toPhysical, modules)
  {
    hooks := [];
    if |table| == 0 {
      return;
    }
    for i := 0 to |table|
      invariant hooks == RuntimeHooks(table[..i], readWord, toPhysical, modules)
    {
      var rtFunc := table[i];
      assert table[..i + 1][..i] == table[..i];
      assert table[..i + 1][i] == rtFunc;
      if readWord(rtFunc) == INDIRECT_JUMP {
        hooks := hooks + [BytePatch(i, rtFunc)];
        continue;
      }
      var physical := toPhysical(rtFunc);
      var found := FindModule(modules, physical);
      if !found {
        hooks := hooks + [PointerSwap(i, rtFunc, physical)];
      }
    }
    assert table[..|table|] == table;
  }

  /** A byte patch is reported whatever the pointer's physical address. */
  lemma BytePatchWins(i: nat, address: qword, readWord: CodeReader, toPhysical: Translator, modules: seq<ModuleInfo>)
    requires readWord(address) == INDIRECT_JUMP
    ensures Inspect(i, address, readWord, toPhysical, modules) == Some(BytePatch(i, address))
  {
  }

  /** A pointer is a pointer swap exactly when it is not patched and no DXE module contains its physical address. */
  lemma PointerSwapExactly(i: nat, address: qword, readWord: CodeReader, toPhysical: Translator, modules: seq<ModuleInfo>)
    ensures Inspect(i, address, readWord, toPhysical, modules).Some?
      && Inspect(i, address, readWord, toPhysical, modules).value.PointerSwap?
      <==> readWord(address) != INDIRECT_JUMP && !InAnyModule(modules, toPhysical(address))
  {
  }
}
