/**
 * Discovery of the runs of physically contiguous 4 KB pages that the
 * firmware left executable and that no virtual address maps back to.
 *
 * The walk visits the upper half of the kernel's 4-level x86-64 page
 * tables (PML4, PDPT, PD, PT, section 4.5 of the Intel SDM Vol. 3A). The
 * machine is abstract: a table is present at a physical address when the
 * kernel can map it, and `mapped` holds the frames for which a reverse
 * virtual mapping exists.
 */
module PageWalk {
  import opened Common

  /** Entries per paging-structure table. */
  const ENTRIES: nat := 512
  /** The first PML4 index of the kernel half of the address space. */
  const KERNEL_PML4_INDEX: nat := 256
  /** Frames are 36-bit page frame numbers shifted by 12: every frame lies below 2^48. */
  const FRAME_LIMIT: int := 0x1_0000_0000_0000
  /** A run is recorded only when more than this many contiguous pages followed its first one. */
  const MIN_PAGE_COUNT: nat := 2
  /** Within one PDPT entry at most 512 * 512 page-table entries are visited. */
  const MAX_PAGE_COUNT: nat := 512 * 512

  type Pfn = x: int | 0 <= x < 0x10_0000_0000

  /** The fields of a PML4E, PDPTE, PDE or PTE that the walk reads. */
  datatype Entry = Entry(present: bool, largePage: bool, executeDisable: bool, pfn: Pfn)

  type Table = t: seq<Entry> | |t| == 512 witness seq(512, _ => Entry(false, false, false, 0))

  /** The page tables the kernel can reach, keyed by physical address, and the reverse-mapped frames. */
  datatype Machine = Machine(root: qword, tables: map<qword, Table>, mapped: set<qword>)

  /** A recorded run: its first physical page and its number of pages. */
  datatype PageRun = PageRun(start: qword, count: qword)

  /** The walk's state inside one PDPT entry: pages counted, last physical address, runs so far. */
  datatype Walk = Walk(pageCount: nat, previous: qword, found: seq<PageRun>)

  /** Physical address of the frame an entry points to. */
  function Frame(e: Entry): (pa: qword)
    ensures pa % PAGE_SIZE == 0 && pa < FRAME_LIMIT
  {
    e.pfn * 0x1000
  }

  /** A page-table entry whose page is present, executable, and not reverse mapped. */
  predicate Usable(m: Machine, e: Entry)
  {
    e.present && !e.executeDisable && Frame(e) !in m.mapped
  }

  /** Close the pending run: record it when more than two pages followed its first one. */
  function Flush(w: Walk): (found: seq<PageRun>)
    requires w.pageCount <= MAX_PAGE_COUNT
    ensures found == w.found || (|found| == |w.found| + 1 && found[..|w.found|] == w.found)
  {
    if w.pageCount > MIN_PAGE_COUNT then
      w.found + [PageRun(Wrap64(w.previous - w.pageCount * 0x1000), w.pageCount + 1)]
    else w.found
  }

  /** One page-table entry. */
  function PteStep(m: Machine, w: Walk, e: Entry): (r: Walk)
    requires w.pageCount < MAX_PAGE_COUNT
    ensures r.pageCount == w.pageCount + 1 <==> Usable(m, e) && Wrap64(Frame(e) - w.previous) == PAGE_SIZE
    ensures r.pageCount == w.pageCount + 1 || r.pageCount == 0 || r == w
    ensures !Usable(m, e) ==> r == w || (r.pageCount == 0 && r.previous == Frame(e))
  {
    var pa := Frame(e);
    if !Usable(m, e) then
      if w.pageCount > MIN_PAGE_COUNT then Walk(0, pa, Flush(w)) else w
    else if Wrap64(pa - w.previous) == PAGE_SIZE then
      Walk(w.pageCount + 1, pa, w.found)
    else
      Walk(0, pa, Flush(w))
  }

  /** The first `k` entries of the page table at `pt`. */
  function PteWalk(m: Machine, w: Walk, pt: qword, k: nat): (r: Walk)
    requires pt in m.tables && k <= ENTRIES && w.pageCount + k <= MAX_PAGE_COUNT
    ensures r.pageCount <= w.pageCount + k
  {
    if k == 0 then w
    else PteStep(m, PteWalk(m, w, pt, k - 1), m.tables[pt][k - 1])
  }

  /** One page-directory entry: a missing table or a 2 MB page closes the pending run. */
  function PdeStep(m: Machine, w: Walk, e: Entry): (r: Walk)
    requires w.pageCount + ENTRIES <= MAX_PAGE_COUNT
    ensures r.pageCount <= w.pageCount + ENTRIES
  {
    var pa := Frame(e);
    if !e.present then Walk(0, 0, Flush(w))
    else if pa !in m.tables then Walk(0, 0, Flush(w))
    else if e.largePage then Walk(0, pa, Flush(w))
    else PteWalk(m, w, pa, ENTRIES)
  }

  /** The first `k` entries of the page directory at `pd`, starting with no pending run. */
  function PdeWalk(m: Machine, found: seq<PageRun>, pd: qword, k: nat): (r: Walk)
    requires pd in m.tables && k <= ENTRIES
    ensures r.pageCount <= k * ENTRIES
  {
    if k == 0 then Walk(0, 0, found)
    else PdeStep(m, PdeWalk(m, found, pd, k - 1), m.tables[pd][k - 1])
  }

  /** One PDPT entry: a 1 GB page is skipped, and a run still pending after its directory is dropped. */
  function PdptStep(m: Machine, found: seq<PageRun>, e: Entry): seq<PageRun>
  {
    var pa := Frame(e);
    if !e.present || pa !in m.tables || e.largePage then found
    else PdeWalk(m, found, pa, ENTRIES).found
  }

  /** The first `k` entries of the PDPT at `pdpt`. */
  function PdptWalk(m: Machine, found: seq<PageRun>, pdpt: qword, k: nat): seq<PageRun>
    requires pdpt in m.tables && k <= ENTRIES
  {
    if k == 0 then found
    else PdptStep(m, PdptWalk(m, found, pdpt, k - 1), m.tables[pdpt][k - 1])
  }

  /** One PML4 entry. */
  function Pml4Step(m: Machine, found: seq<PageRun>, e: Entry): seq<PageRun>
  {
    var pa := Frame(e);
    if !e.present || pa !in m.tables then found
    else PdptWalk(m, found, pa, ENTRIES)
  }

  /** PML4 entries 256 up to `k` of the table `pml4`. */
  function Pml4Walk(m: Machine, pml4: Table, k: nat): seq<PageRun>
    requires KERNEL_PML4_INDEX <= k <= ENTRIES
  {
    if k == KERNEL_PML4_INDEX then []
    else Pml4Step(m, Pml4Walk(m, pml4, k - 1), pml4[k - 1])
  }

  /** Every run the walk closes, in order, or None when the PML4 cannot be mapped. */
  function EfiMemoryPages(m: Machine): Option<seq<PageRun>>
  {
    if m.root !in m.tables then None
    else Some(Pml4Walk(m, m.tables[m.root], ENTRIES))
  }

  // ---------------------------------------------------------------------
  // What a recorded run is made of
  // ---------------------------------------------------------------------

  /** `pa` is the frame of a usable entry of some page table. */
  ghost predicate UsableFrame(m: Machine, pa: int)
  {
    exists t, i | t in m.tables && 0 <= i < ENTRIES :: Usable(m, m.tables[t][i]) && Frame(m.tables[t][i]) == pa
  }

  /** The `pageCount` pages ending at `previous` are usable frames, and none of them wraps below zero. */
  ghost predicate Chain(m: Machine, w: Walk)
  {
    && w.previous < FRAME_LIMIT
    && w.pageCount * 0x1000 <= w.previous
    && forall j | 0 <= j < w.pageCount :: UsableFrame(m, w.previous - j * 0x1000)
  }

  /** At least four pages; every page after the first is a usable frame. */
  ghost predicate GoodRun(m: Machine, r: PageRun)
  {
    && r.count >= MIN_PAGE_COUNT + 2
    && r.start + (r.count - 1) * 0x1000 < FRAME_LIMIT
    && forall j | 1 <= j < r.count :: UsableFrame(m, r.start + j * 0x1000)
  }

  ghost predicate GoodRuns(m: Machine, found: seq<PageRun>)
  {
    forall k | 0 <= k < |found| :: GoodRun(m, found[k])
  }

  lemma FlushGood(m: Machine, w: Walk)
    requires w.pageCount <= MAX_PAGE_COUNT && Chain(m, w) && GoodRuns(m, w.found)
    ensures GoodRuns(m, Flush(w))
  {
    if w.pageCount > MIN_PAGE_COUNT {
      var r := PageRun(Wrap64(w.previous - w.pageCount * 0x1000), w.pageCount + 1);
      assert r.start == w.previous - w.pageCount * 0x1000;
      forall j | 1 <= j < r.count
        ensures UsableFrame(m, r.start + j * 0x1000)
      {
        assert r.start + j * 0x1000 == w.previous - (w.pageCount - j) * 0x1000;
      }
      assert GoodRun(m, r);
      var found := Flush(w);
      assert found == w.found + [r];
      forall k | 0 <= k < |found|
        ensures GoodRun(m, found[k])
      {
        if k < |w.found| {
          assert found[k] == w.found[k];
        }
      }
    }
  }

  lemma PteStepGood(m: Machine, w: Walk, pt: qword, i: nat)
    requires pt in m.tables && i < ENTRIES
    requires w.pageCount < MAX_PAGE_COUNT && Chain(m, w) && GoodRuns(m, w.found)
    ensures var r := PteStep(m, w, m.tables[pt][i]); Chain(m, r) && GoodRuns(m, r.found)
  {
    var e := m.tables[pt][i];
    var pa := Frame(e);
    var r := PteStep(m, w, e);
    if !Usable(m, e) {
      if w.pageCount > MIN_PAGE_COUNT {
        FlushGood(m, w);
      }
    } else if Wrap64(pa - w.previous) == PAGE_SIZE {
      assert pa == w.previous + 0x1000;
      assert UsableFrame(m, pa);
      forall j | 0 <= j < r.pageCount
        ensures UsableFrame(m, r.previous - j * 0x1000)
      {
        if j > 0 {
          assert r.previous - j * 0x1000 == w.previous - (j - 1) * 0x1000;
        }
      }
    } else {
      FlushGood(m, w);
    }
  }

  lemma {:induction false} PteWalkGood(m: Machine, w: Walk, pt: qword, k: nat)
    requires pt in m.tables && k <= ENTRIES && w.pageCount + k <= MAX_PAGE_COUNT
    requires Chain(m, w) && GoodRuns(m, w.found)
    ensures var r := PteWalk(m, w, pt, k); Chain(m, r) && GoodRuns(m, r.found)
  {
    if k > 0 {
      var before := PteWalk(m, w, pt, k - 1);
      PteWalkGood(m, w, pt, k - 1);
      PteStepGood(m, before, pt, k - 1);
      assert PteWalk(m, w, pt, k) == PteStep(m, before, m.tables[pt][k - 1]);
    }
  }

  lemma PdeStepGood(m: Machine, w: Walk, pd: qword, i: nat)
    requires pd in m.tables && i < ENTRIES
    requires w.pageCount + ENTRIES <= MAX_PAGE_COUNT && Chain(m, w) && GoodRuns(m, w.found)
    ensures var r := PdeStep(m, w, m.tables[pd][i]); Chain(m, r) && GoodRuns(m, r.found)
  {
    var e := m.tables[pd][i];
    if !e.present || Frame(e) !in m.tables || e.largePage {
      FlushGood(m, w);
    } else {
      PteWalkGood(m, w, Frame(e), ENTRIES);
    }
  }

  lemma {:induction false} PdeWalkGood(m: Machine, found: seq<PageRun>, pd: qword, k: nat)
    requires pd in m.tables && k <= ENTRIES && GoodRuns(m, found)
    ensures var r := PdeWalk(m, found, pd, k); Chain(m, r) && GoodRuns(m, r.found)
  {
    if k > 0 {
      var before := PdeWalk(m, found, pd, k - 1);
      PdeWalkGood(m, found, pd, k - 1);
      PdeStepGood(m, before, pd, k - 1);
      assert PdeWalk(m, found, pd, k) == PdeStep(m, before, m.tables[pd][k - 1]);
    }
  }

  lemma {:induction false} PdptWalkGood(m: Machine, found: seq<PageRun>, pdpt: qword, k: nat)
    requires pdpt in m.tables && k <= ENTRIES && GoodRuns(m, found)
    ensures GoodRuns(m, PdptWalk(m, found, pdpt, k))
  {
    if k > 0 {
      PdptWalkGood(m, found, pdpt, k - 1);
      var e := m.tables[pdpt][k - 1];
      if e.present && Frame(e) in m.tables && !e.largePage {
        PdeWalkGood(m, PdptWalk(m, found, pdpt, k - 1), Frame(e), ENTRIES);
      }
    }
  }

  lemma {:induction false} Pml4WalkGood(m: Machine, pml4: Table, k: nat)
    requires KERNEL_PML4_INDEX <= k <= ENTRIES
    ensures GoodRuns(m, Pml4Walk(m, pml4, k))
  {
    if k > KERNEL_PML4_INDEX {
      Pml4WalkGood(m, pml4, k - 1);
      var e := pml4[k - 1];
      if e.present && Frame(e) in m.tables {
        PdptWalkGood(m, Pml4Walk(m, pml4, k - 1), Frame(e), ENTRIES);
      }
    }
  }

  /**
   * Every recorded run spans at least four pages, and each of its pages
   * after the first is the frame of a present, executable page-table entry
   * that no virtual address maps back to. The first page is the one the
   * walk last visited before the run began, which need not be usable (see
   * `AnchorMayBeUnusable`).
   */
  lemma RecordedRunsAreUsable(m: Machine)
    requires EfiMemoryPages(m).Some?
    ensures GoodRuns(m, EfiMemoryPages(m).value)
  {
    Pml4WalkGood(m, m.tables[m.root], ENTRIES);
  }

  /**
   * A run may start at a page that is not usable: a non-executable page
   * closes a long run but still becomes the previous address, so the next
   * usable page just after it begins a new run whose first page is the
   * non-executable one.
   */
  lemma AnchorMayBeUnusable(m: Machine, w: Walk, bad: Entry, good: Entry)
    requires 2 < w.pageCount < MAX_PAGE_COUNT
    requires !Usable(m, bad) && Usable(m, good) && Frame(good) == Frame(bad) + PAGE_SIZE
    ensures var r := PteStep(m, PteStep(m, w, bad), good);
      r.pageCount == 1 && r.previous - r.pageCount * 0x1000 == Frame(bad)
  {
  }

  // ---------------------------------------------------------------------
  // Which entries can contribute
  // ---------------------------------------------------------------------

  /** Only PML4 entries 256..511 are read: two tables that agree there give the same runs. */
  lemma {:induction false} LowerHalfIgnored(m: Machine, pml4: Table, other: Table, k: nat)
    requires KERNEL_PML4_INDEX <= k <= ENTRIES
    requires pml4[KERNEL_PML4_INDEX..] == other[KERNEL_PML4_INDEX..]
    ensures Pml4Walk(m, pml4, k) == Pml4Walk(m, other, k)
  {
    if k > KERNEL_PML4_INDEX {
      LowerHalfIgnored(m, pml4, other, k - 1);
      assert pml4[k - 1] == pml4[KERNEL_PML4_INDEX..][k - 1 - KERNEL_PML4_INDEX];
      assert other[k - 1] == other[KERNEL_PML4_INDEX..][k - 1 - KERNEL_PML4_INDEX];
    }
  }

  /** An entry that maps nothing. */
  const ABSENT_ENTRY: Entry := Entry(false, false, false, 0)

  /**
   * A 1 GB page in a PDPT contributes nothing: the PDPT at `pdpt` walks to
   * the same runs as the PDPT at `other`, which agrees with it everywhere
   * except that its entry `i` maps nothing.
   */
  lemma {:induction false} HugePagesSkipped(m: Machine, found: seq<PageRun>, pdpt: qword, other: qword, i: nat, k: nat)
    requires pdpt in m.tables && other in m.tables && i < ENTRIES && k <= ENTRIES
    requires m.tables[pdpt][i].largePage
    requires m.tables[other] == m.tables[pdpt][i := ABSENT_ENTRY]
    ensures PdptWalk(m, found, pdpt, k) == PdptWalk(m, found, other, k)
  {
    if k > 0 {
      HugePagesSkipped(m, found, pdpt, other, i, k - 1);
    }
  }

  /**
   * A 2 MB page in a page directory counts no page: it closes the pending
   * run, which is recorded when long enough, and the count starts again
   * from zero. It acts as an entry that maps nothing, except that its frame
   * becomes the previous address.
   */
  lemma LargePageClosesRun(m: Machine, w: Walk, e: Entry)
    requires w.pageCount + ENTRIES <= MAX_PAGE_COUNT
    requires e.largePage
    ensures PdeStep(m, w, e).pageCount == 0 && PdeStep(m, w, e).found == Flush(w)
    ensures PdeStep(m, w, e) == PdeStep(m, w, ABSENT_ENTRY)
      || PdeStep(m, w, e) == PdeStep(m, w, ABSENT_ENTRY).(previous := Frame(e))
  {
  }

  /** A page directory made only of 2 MB pages adds no run and leaves no pages counted. */
  lemma {:induction false} LargePagesSkipped(m: Machine, found: seq<PageRun>, pd: qword, k: nat)
    requires pd in m.tables && k <= ENTRIES
    requires forall i | 0 <= i < k :: m.tables[pd][i].largePage
    ensures PdeWalk(m, found, pd, k).found == found && PdeWalk(m, found, pd, k).pageCount == 0
  {
    if k > 0 {
      LargePagesSkipped(m, found, pd, k - 1);
      assert m.tables[pd][k - 1].largePage;
    }
  }

  // ---------------------------------------------------------------------
  // The walk over the caller's buffers
  // ---------------------------------------------------------------------

  function Min(a: nat, b: nat): nat
  {
    if a <= b then a else b
  }

  /**
   * The first `index` slots of the two buffers hold the first runs found,
   * and `index` is the number found, capped by the buffers' capacity.
   */
  ghost predicate Recorded(starts: array<qword>, counts: array<qword>, capacity: nat, index: nat, found: seq<PageRun>)
    reads starts, counts
  {
    && capacity <= starts.Length && capacity <= counts.Length
    && index == Min(capacity, |found|)
    && forall j | 0 <= j < index :: starts[j] == found[j].start && counts[j] == found[j].count
  }

  /** Close the pending run, writing it when it is long enough and a slot is left. */
  method Emit(starts: array<qword>, counts: array<qword>, capacity: nat, index: nat,
              pageCount: nat, previous: qword, ghost found: seq<PageRun>)
    returns (next: nat, ghost found': seq<PageRun>)
    requires starts != counts && pageCount <= MAX_PAGE_COUNT
    requires Recorded(starts, counts, capacity, index, found)
    modifies starts, counts
    ensures found' == Flush(Walk(pageCount, previous, found))
    ensures Recorded(starts, counts, capacity, next, found') && index <= next
    ensures forall j | next <= j < starts.Length :: starts[j] == old(starts[j])
    ensures forall j | next <= j < counts.Length :: counts[j] == old(counts[j])
  {
    found' := Flush(Walk(pageCount, previous, found));
    next := index;
    if pageCount > MIN_PAGE_COUNT && capacity > index {
      starts[index] := Wrap64(previous - pageCount * 0x1000);
      counts[index] := pageCount + 1;
      next := index + 1;
    }
  }

  /** The 512 entries of the page table at `pt`. */
  method WalkPtes(m: Machine, pt: qword, starts: array<qword>, counts: array<qword>, capacity: nat,
                  index: nat, pageCount: nat, previous: qword, ghost found: seq<PageRun>)
    returns (index': nat, pageCount': nat, previous': qword, ghost found': seq<PageRun>)
    requires pt in m.tables && starts != counts && pageCount + ENTRIES <= MAX_PAGE_COUNT
    requires Recorded(starts, counts, capacity, index, found)
    modifies starts, counts
    ensures Walk(pageCount', previous', found') == PteWalk(m, Walk(pageCount, previous, found), pt, ENTRIES)
    ensures Recorded(starts, counts, capacity, index', found') && index <= index'
    ensures forall j | index' <= j < starts.Length :: starts[j] == old(starts[j])
    ensures forall j | index' <= j < counts.Length :: counts[j] == old(counts[j])
  {
    index', pageCount', previous', found' := index, pageCount, previous, found;
    for pteIndex := 0 to ENTRIES
      invariant Walk(pageCount', previous', found') == PteWalk(m, Walk(pageCount, previous, found), pt, pteIndex)
      invariant Recorded(starts, counts, capacity, index', found') && index <= index'
      invariant forall j | index' <= j < starts.Length :: starts[j] == old(starts[j])
      invariant forall j | index' <= j < counts.Length :: counts[j] == old(counts[j])
    {
      var e := m.tables[pt][pteIndex];
      var pa := Frame(e);
      if !e.present || e.executeDisable || pa in m.mapped {
        if pageCount' > MIN_PAGE_COUNT {
          index', found' := Emit(starts, counts, capacity, index', pageCount', previous', found');
          pageCount', previous' := 0, pa;
        }
      } else if Wrap64(pa - previous') == PAGE_SIZE {
        pageCount', previous' := pageCount' + 1, pa;
      } else {
        index', found' := Emit(starts, counts, capacity, index', pageCount', previous', found');
        pageCount', previous' := 0, pa;
      }
    }
  }

  /** The 512 entries of the page directory at `pd`; a run still pending at its end is dropped. */
  method WalkPdes(m: Machine, pd: qword, starts: array<qword>, counts: array<qword>, capacity: nat,
                  index: nat, ghost found: seq<PageRun>)
    returns (index': nat, ghost found': seq<PageRun>)
    requires pd in m.tables && starts != counts
    requires Recorded(starts, counts, capacity, index, found)
    modifies starts, counts
    ensures found' == PdeWalk(m, found, pd, ENTRIES).found
    ensures Recorded(starts, counts, capacity, index', found') && index <= index'
    ensures forall j | index' <= j < starts.Length :: starts[j] == old(starts[j])
    ensures forall j | index' <= j < counts.Length :: counts[j] == old(counts[j])
  {
    var pageCount: nat := 0;
    var previous: qword := 0;
    index', found' := index, found;
    for pdeIndex := 0 to ENTRIES
      invariant Walk(pageCount, previous, found') == PdeWalk(m, found, pd, pdeIndex)
      invariant Recorded(starts, counts, capacity, index', found') && index <= index'
      invariant forall j | index' <= j < starts.Length :: starts[j] == old(starts[j])
      invariant forall j | index' <= j < counts.Length :: counts[j] == old(counts[j])
    {
      var e := m.tables[pd][pdeIndex];
      var pa := Frame(e);
      if !e.present || pa !in m.tables {
        index', found' := Emit(starts, counts, capacity, index', pageCount, previous, found');
        pageCount, previous := 0, 0;
      } else if e.largePage {
        index', found' := Emit(starts, counts, capacity, index', pageCount, previous, found');
        pageCount, previous := 0, pa;
      } else {
        index', pageCount, previous, found' :=
          WalkPtes(m, pa, starts, counts, capacity, index', pageCount, previous, found');
      }
    }
  }

  /** The 512 entries of the PDPT at `pdpt`; 1 GB pages are skipped. */
  method WalkPdpt(m: Machine, pdpt: qword, starts: array<qword>, counts: array<qword>, capacity: nat,
                  index: nat, ghost found: seq<PageRun>)
    returns (index': nat, ghost found': seq<PageRun>)
    requires pdpt in m.tables && starts != counts
    requires Recorded(starts, counts, capacity, index, found)
    modifies starts, counts
    ensures found' == PdptWalk(m, found, pdpt, ENTRIES)
    ensures Recorded(starts, counts, capacity, index', found') && index <= index'
    ensures forall j | index' <= j < starts.Length :: starts[j] == old(starts[j])
    ensures forall j | index' <= j < counts.Length :: counts[j] == old(counts[j])
  {
    index', found' := index, found;
    for pdptIndex := 0 to ENTRIES
      invariant found' == PdptWalk(m, found, pdpt, pdptIndex)
      invariant Recorded(starts, counts, capacity, index', found') && index <= index'
      invariant forall j | index' <= j < starts.Length :: starts[j] == old(starts[j])
      invariant forall j | index' <= j < counts.Length :: counts[j] == old(counts[j])
    {
      var e := m.tables[pdpt][pdptIndex];
      var pa := Frame(e);
      if e.present && pa in m.tables && !e.largePage {
        index', found' := WalkPdes(m, pa, starts, counts, capacity, index', found');
      }
    }
  }

  /**
   * get_efi_memory_pages: `capacity` is the caller's `*total_count` on
   * entry and `total` its value on return. When the PML4 cannot be mapped
   * the walk fails and the count is left as it was; otherwise the buffers
   * receive the first runs found, as many as fit, and the walk succeeds
   * exactly when at least one was written.
   */
  method GetEfiMemoryPages(m: Machine, starts: array<qword>, counts: array<qword>, capacity: nat)
    returns (ok: bool, total: nat)
    requires starts != counts && capacity <= starts.Length && capacity <= counts.Length
    modifies starts, counts
    ensures EfiMemoryPages(m).None? ==> !ok && total == capacity
    ensures EfiMemoryPages(m).Some? ==>
      var runs := EfiMemoryPages(m).value;
      && total == Min(capacity, |runs|)
      && (ok <==> total != 0)
      && forall j | 0 <= j < total :: starts[j] == runs[j].start && counts[j] == runs[j].count
    ensures forall j | total <= j < starts.Length :: starts[j] == old(starts[j])
    ensures forall j | total <= j < counts.Length :: counts[j] == old(counts[j])
  {
    if m.root !in m.tables {
      return false, capacity;
    }
    var pml4 := m.tables[m.root];
    var index: nat := 0;
    ghost var found: seq<PageRun> := [];
    for pml4Index := KERNEL_PML4_INDEX to ENTRIES
      invariant found == Pml4Walk(m, pml4, pml4Index)
      invariant Recorded(starts, counts, capacity, index, found)
      invariant forall j | index <= j < starts.Length :: starts[j] == old(starts[j])
      invariant forall j | index <= j < counts.Length :: counts[j] == old(counts[j])
    {
      var e := pml4[pml4Index];
      var pa := Frame(e);
      if e.present && pa in m.tables {
        index, found := WalkPdpt(m, pa, starts, counts, capacity, index, found);
      }
    }
    total := index;
    ok := index != 0;
  }
}
