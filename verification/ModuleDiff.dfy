/**
 * Byte comparison of a module's reference image against its runtime image.
 *
 * Both images are in memory layout, so a section's bytes sit at its virtual
 * address in each. Only sections holding code (IMAGE_SCN_CNT_CODE, 0x20)
 * and not discardable (IMAGE_SCN_MEM_DISCARDABLE, 0x02000000) are compared,
 * following the section flags of the Microsoft PE/COFF specification, and
 * the section named "PAGEwx3" is skipped. Inside a section every maximal run
 * of differing bytes at least `diff` long is reported.
 */
module ModuleDiff {
  import opened Common

  // ---------------------------------------------------------------------
  // IsAddressEqual: a distance test defined beside the module diff, which
  // nothing in the client calls
  // ---------------------------------------------------------------------

  const TWO_TO_63: int := 0x8000_0000_0000_0000

  /** The QWORD `x` reinterpreted as a two's-complement INT64. */
  function AsSigned(x: qword): (r: int)
    ensures -TWO_TO_63 <= r < TWO_TO_63
    ensures Wrap64(r) == x
  {
    if x < TWO_TO_63 then x else x - TWO_TO_64
  }

  /**
   * `abs` on INT64. The most negative value has no positive counterpart;
   * C++ leaves that case undefined, and it is taken here to come back
   * unchanged, as two's-complement hardware returns it.
   */
  function Abs64(d: int): (r: int)
    requires -TWO_TO_63 <= d < TWO_TO_63
    ensures d != -TWO_TO_63 ==> r >= 0 && (r == d || r == -d)
    ensures d == -TWO_TO_63 ==> r == d
  {
    if d == -TWO_TO_63 then d else if d < 0 then -d else d
  }

  /** The two addresses lie at most `cnt` apart, measured on the wrapped signed difference. */
  predicate IsAddressEqual(address0: qword, address2: qword, cnt: int)
  {
    Abs64(AsSigned(Wrap64(address2 - address0))) <= cnt
  }

  /** For addresses less than 2^63 apart the test is the plain distance bound, in both directions. */
  lemma AddressEqualIsDistance(address0: qword, address2: qword, cnt: int)
    requires -TWO_TO_63 < address2 - address0 < TWO_TO_63
    ensures IsAddressEqual(address0, address2, cnt) <==>
      (if address2 >= address0 then address2 - address0 else address0 - address2) <= cnt
  {
    var d := address2 - address0;
    if d < 0 {
      assert Wrap64(d) == d + TWO_TO_64;
    }
    assert AsSigned(Wrap64(d)) == d;
  }

  // ---------------------------------------------------------------------
  // scan_section
  // ---------------------------------------------------------------------

  /** A run of differing bytes: its offset in the section and its length. */
  datatype Run = Run(start: nat, length: nat)

  /** Number of consecutive differing bytes from offset `i`, stopping at an equal byte or at `size`. */
  function RunLength(local: seq<u8>, runtime: seq<u8>, size: nat, i: nat): (n: nat)
    requires size <= |local| && size <= |runtime| && i <= size
    ensures i + n <= size
    decreases size - i
  {
    if i == size || local[i] == runtime[i] then 0
    else 1 + RunLength(local, runtime, size, i + 1)
  }

  /** A run is maximal: every byte in it differs, and it ends at an equal byte or at `size`. */
  lemma {:induction false} RunLengthMaximal(local: seq<u8>, runtime: seq<u8>, size: nat, i: nat)
    requires size <= |local| && size <= |runtime| && i <= size
    ensures forall j | i <= j < i + RunLength(local, runtime, size, i) :: local[j] != runtime[j]
    ensures var n := RunLength(local, runtime, size, i); i + n == size || local[i + n] == runtime[i + n]
    decreases size - i
  {
    if i < size && local[i] != runtime[i] {
      RunLengthMaximal(local, runtime, size, i + 1);
    }
  }

  /** Offset `s` begins a maximal run of the part scanned from `from`: it differs and the byte before it does not. */
  predicate StartsRun(local: seq<u8>, runtime: seq<u8>, size: nat, from: nat, s: nat)
    requires size <= |local| && size <= |runtime|
  {
    && from <= s < size
    && local[s] != runtime[s]
    && (s == from || local[s - 1] == runtime[s - 1])
  }

  /** `run` is the maximal run starting at its offset, and it is at least `diff` long. */
  predicate ReportedRun(local: seq<u8>, runtime: seq<u8>, size: nat, from: nat, diff: nat, run: Run)
    requires size <= |local| && size <= |runtime|
  {
    && StartsRun(local, runtime, size, from, run.start)
    && run.length == RunLength(local, runtime, size, run.start)
    && run.length >= diff
  }

  /** Runs in increasing order, each ending before the next begins with at least one byte between. */
  predicate Separated(rs: seq<Run>)
  {
    forall k, m | 0 <= k < m < |rs| :: rs[k].start + rs[k].length < rs[m].start
  }

  /**
   * The runs reported when scanning from offset `from`: maximal runs of
   * differing bytes at least `diff` long, in scan order.
   */
  function Runs(local: seq<u8>, runtime: seq<u8>, size: nat, from: nat, diff: nat): (rs: seq<Run>)
    requires size <= |local| && size <= |runtime|
    ensures forall k | 0 <= k < |rs| :: ReportedRun(local, runtime, size, from, diff, rs[k])
    decreases if from <= size then size - from else 0
  {
    if from >= size then []
    else if local[from] == runtime[from] then
      var rest := Runs(local, runtime, size, from + 1, diff);
      assert forall k | 0 <= k < |rest| :: ReportedRun(local, runtime, size, from, diff, rest[k]);
      rest
    else
      var n := RunLength(local, runtime, size, from);
      var rest := Runs(local, runtime, size, from + n + 1, diff);
      RunLengthMaximal(local, runtime, size, from);
      assert forall k | 0 <= k < |rest| :: ReportedRun(local, runtime, size, from, diff, rest[k]);
      if n >= diff then [Run(from, n)] + rest else rest
  }

  /** The reported runs are in increasing order, never overlapping and never touching. */
  lemma {:induction false} RunsSeparated(local: seq<u8>, runtime: seq<u8>, size: nat, from: nat, diff: nat)
    requires size <= |local| && size <= |runtime|
    ensures Separated(Runs(local, runtime, size, from, diff))
    decreases if from <= size then size - from else 0
  {
    if from >= size {
    } else if local[from] == runtime[from] {
      RunsSeparated(local, runtime, size, from + 1, diff);
    } else {
      var n := RunLength(local, runtime, size, from);
      var rest := Runs(local, runtime, size, from + n + 1, diff);
      RunsSeparated(local, runtime, size, from + n + 1, diff);
      if n >= diff {
        var rs := [Run(from, n)] + rest;
        assert Runs(local, runtime, size, from, diff) == rs;
        forall k, m | 0 <= k < m < |rs|
          ensures rs[k].start + rs[k].length < rs[m].start
        {
          assert rs[m] == rest[m - 1];
          assert ReportedRun(local, runtime, size, from + n + 1, diff, rest[m - 1]);
          if k > 0 {
            assert rs[k] == rest[k - 1];
          }
        }
      }
    }
  }

  /** Every maximal run at least `diff` long is reported. */
  lemma {:induction false} RunsComplete(local: seq<u8>, runtime: seq<u8>, size: nat, from: nat, diff: nat, s: nat)
    requires size <= |local| && size <= |runtime|
    requires StartsRun(local, runtime, size, from, s)
    requires RunLength(local, runtime, size, s) >= diff
    ensures Run(s, RunLength(local, runtime, size, s)) in Runs(local, runtime, size, from, diff)
    decreases size - from
  {
    if s == from {
    } else if local[from] == runtime[from] {
      RunsComplete(local, runtime, size, from + 1, diff, s);
    } else {
      var n := RunLength(local, runtime, size, from);
      RunLengthMaximal(local, runtime, size, from);
      assert local[s - 1] == runtime[s - 1];
      RunsComplete(local, runtime, size, from + n + 1, diff, s);
    }
  }

  /** Equal bytes in front of the scan position change nothing. */
  lemma {:induction false} EqualBytesSkipped(local: seq<u8>, runtime: seq<u8>, size: nat, from: nat, to: nat, diff: nat)
    requires size <= |local| && size <= |runtime| && from <= to <= size
    requires forall j | from <= j < to :: local[j] == runtime[j]
    ensures Runs(local, runtime, size, from, diff) == Runs(local, runtime, size, to, diff)
    decreases (to as int) - (from as int)
  {
    if from < to {
      EqualBytesSkipped(local, runtime, size, from + 1, to, diff);
    }
  }

  /** Identical sections produce no run. */
  lemma IdenticalSectionsNoRuns(local: seq<u8>, runtime: seq<u8>, size: nat, diff: nat)
    requires size <= |local| && size <= |runtime|
    requires local[..size] == runtime[..size]
    ensures Runs(local, runtime, size, 0, diff) == []
  {
    assert forall j | 0 <= j < size :: local[j] == local[..size][j] == runtime[..size][j] == runtime[j];
    EqualBytesSkipped(local, runtime, size, 0, size, diff);
  }

  /** A single modified byte, with `diff` at most 1, is reported as exactly one run of length 1 at its offset. */
  lemma SingleByteChange(local: seq<u8>, runtime: seq<u8>, size: nat, diff: nat, j: nat)
    requires size <= |local| && size <= |runtime| && j < size && diff <= 1
    requires local[j] != runtime[j]
    requires forall k | 0 <= k < size && k != j :: local[k] == runtime[k]
    ensures Runs(local, runtime, size, 0, diff) == [Run(j, 1)]
  {
    EqualBytesSkipped(local, runtime, size, 0, j, diff);
    assert RunLength(local, runtime, size, j + 1) == 0;
    if j + 2 <= size {
      EqualBytesSkipped(local, runtime, size, j + 2, size, diff);
    }
  }

  /** Two modified bytes with an equal byte between them are reported as two runs of length 1. */
  lemma TwoSeparatedChanges(local: seq<u8>, runtime: seq<u8>, size: nat, diff: nat, j1: nat, j2: nat)
    requires size <= |local| && size <= |runtime| && j1 + 1 < j2 < size && diff <= 1
    requires local[j1] != runtime[j1] && local[j2] != runtime[j2]
    requires forall k | 0 <= k < size && k != j1 && k != j2 :: local[k] == runtime[k]
    ensures Runs(local, runtime, size, 0, diff) == [Run(j1, 1), Run(j2, 1)]
  {
    EqualBytesSkipped(local, runtime, size, 0, j1, diff);
    assert RunLength(local, runtime, size, j1 + 1) == 0;
    EqualBytesSkipped(local, runtime, size, j1 + 2, j2, diff);
    assert RunLength(local, runtime, size, j2 + 1) == 0;
    if j2 + 2 <= size {
      EqualBytesSkipped(local, runtime, size, j2 + 2, size, diff);
    }
  }

  /** One reported modification: where it is and the bytes on each side. */
  datatype SectionDiff = SectionDiff(name: seq<u8>, address: nat, original: seq<u8>, current: seq<u8>)

  /** Every run lies inside both buffers. */
  predicate RunsInBounds(local: seq<u8>, runtime: seq<u8>, runs: seq<Run>)
  {
    forall k | 0 <= k < |runs| ::
      runs[k].start + runs[k].length <= |local| && runs[k].start + runs[k].length <= |runtime|
  }

  /** The records printed for the runs of the section named `name` at `sectionAddress`. */
  function Report(name: seq<u8>, sectionAddress: nat, local: seq<u8>, runtime: seq<u8>, runs: seq<Run>): (r: seq<SectionDiff>)
    requires RunsInBounds(local, runtime, runs)
    ensures |r| == |runs|
  {
    if runs == [] then []
    else
      var last := runs[|runs| - 1];
      Report(name, sectionAddress, local, runtime, runs[..|runs| - 1])
        + [SectionDiff(name, sectionAddress + last.start,
                       local[last.start..last.start + last.length],
                       runtime[last.start..last.start + last.length])]
  }

  /** The records a scan of the section produces. */
  function SectionReport(diff: nat, name: seq<u8>, local: seq<u8>, runtime: seq<u8>, size: nat, sectionAddress: nat): seq<SectionDiff>
    requires size <= |local| && size <= |runtime|
  {
    var runs := Runs(local, runtime, size, 0, diff);
    assert RunsInBounds(local, runtime, runs);
    Report(name, sectionAddress, local, runtime, runs)
  }

  /** Each record's index `k` comes from run `k`: its address and its two byte strings. */
  lemma {:induction false} ReportAt(name: seq<u8>, sectionAddress: nat, local: seq<u8>, runtime: seq<u8>, runs: seq<Run>, k: nat)
    requires RunsInBounds(local, runtime, runs) && k < |runs|
    ensures
      var rec := Report(name, sectionAddress, local, runtime, runs)[k];
      && rec.name == name
      && rec.address == sectionAddress + runs[k].start
      && rec.original == local[runs[k].start..runs[k].start + runs[k].length]
      && rec.current == runtime[runs[k].start..runs[k].start + runs[k].length]
  {
    var n := |runs| - 1;
    if k < n {
      assert RunsInBounds(local, runtime, runs[..n]);
      assert runs[..n][k] == runs[k];
      ReportAt(name, sectionAddress, local, runtime, runs[..n], k);
    }
  }

  /**
   * Every record lies inside the section, is at least `diff` (and at least
   * one) byte long, and its original and current bytes differ at every
   * position.
   */
  lemma ReportedBytesDiffer(diff: nat, name: seq<u8>, local: seq<u8>, runtime: seq<u8>, size: nat, sectionAddress: nat, k: nat)
    requires size <= |local| && size <= |runtime|
    requires k < |SectionReport(diff, name, local, runtime, size, sectionAddress)|
    ensures
      var rec := SectionReport(diff, name, local, runtime, size, sectionAddress)[k];
      && |rec.original| == |rec.current|
      && 1 <= |rec.original| && diff <= |rec.original|
      && sectionAddress <= rec.address && rec.address + |rec.original| <= sectionAddress + size
      && forall m | 0 <= m < |rec.original| :: rec.original[m] != rec.current[m]
  {
    var runs := Runs(local, runtime, size, 0, diff);
    assert RunsInBounds(local, runtime, runs);
    ReportAt(name, sectionAddress, local, runtime, runs, k);
    var run := runs[k];
    assert ReportedRun(local, runtime, size, 0, diff, run);
    RunLengthMaximal(local, runtime, size, run.start);
    var rec := Report(name, sectionAddress, local, runtime, runs)[k];
    SlicesDiffer(local, runtime, run.start, run.length, rec.original, rec.current);
  }

  /** Slices `a` and `b` taken from a stretch where the buffers differ byte for byte differ at every position. */
  lemma SlicesDiffer(local: seq<u8>, runtime: seq<u8>, s: nat, n: nat, a: seq<u8>, b: seq<u8>)
    requires s + n <= |local| && s + n <= |runtime|
    requires a == local[s..s + n] && b == runtime[s..s + n]
    requires forall j | s <= j < s + n :: local[j] != runtime[j]
    ensures forall m | 0 <= m < n :: a[m] != b[m]
  {
    forall m | 0 <= m < n
      ensures a[m] != b[m]
    {
      assert a[m] == local[s + m] && b[m] == runtime[s + m];
    }
  }



  /** Reporting one more run appends its record. */
  lemma ReportStep(name: seq<u8>, sectionAddress: nat, local: seq<u8>, runtime: seq<u8>, found: seq<Run>, run: Run)
    requires RunsInBounds(local, runtime, found)
    requires run.start + run.length <= |local| && run.start + run.length <= |runtime|
    ensures RunsInBounds(local, runtime, found + [run])
    ensures Report(name, sectionAddress, local, runtime, found + [run])
      == Report(name, sectionAddress, local, runtime, found)
         + [SectionDiff(name, sectionAddress + run.start,
                        local[run.start..run.start + run.length],
                        runtime[run.start..run.start + run.length])]
  {
    assert (found + [run])[..|found|] == found;
  }

  /** The inner loop of the scan: counts differing bytes from `i` up to an equal byte or `size`. */
  method MeasureRun(local: seq<u8>, runtime: seq<u8>, size: nat, i: nat) returns (cnt: nat)
    requires size <= |local| && size <= |runtime| && i <= size
    ensures cnt == RunLength(local, runtime, size, i)
  {
    cnt := 0;
    while true
      invariant i + cnt <= size
      invariant RunLength(local, runtime, size, i) == cnt + RunLength(local, runtime, size, i + cnt)
      decreases size - (i + cnt)
    {
      if i + cnt >= size {
        break;
      }
      if local[i + cnt] == runtime[i + cnt] {
        break;
      }
      cnt := cnt + 1;
    }
  }

  /**
   * Scans `size` bytes of a section: at each differing byte, measures the run
   * up to the next equal byte or the section end, reports it when it is at
   * least `diff` long, and resumes past the byte that ended it.
   */
  method ScanSection(diff: nat, name: seq<u8>, local: seq<u8>, runtime: seq<u8>, size: nat, sectionAddress: nat)
    returns (records: seq<SectionDiff>)
    requires size <= |local| && size <= |runtime|
    ensures records == SectionReport(diff, name, local, runtime, size, sectionAddress)
  {
    records := [];
    ghost var found: seq<Run> := [];
    var i := 0;
    while i < size
      invariant found + Runs(local, runtime, size, i, diff) == Runs(local, runtime, size, 0, diff)
      invariant RunsInBounds(local, runtime, found)
      invariant records == Report(name, sectionAddress, local, runtime, found)
      decreases size - i
    {
      i, records, found := ScanAt(diff, name, local, runtime, size, sectionAddress, i, records, found);
    }
    assert Runs(local, runtime, size, i, diff) == [];
    assert found + [] == found;
  }

  /** One pass of the scan loop at offset `i`: skip an equal byte, or measure the run there and report it if long enough. */
  method ScanAt(diff: nat, name: seq<u8>, local: seq<u8>, runtime: seq<u8>, size: nat, sectionAddress: nat,
                i: nat, records: seq<SectionDiff>, ghost found: seq<Run>)
    returns (next: nat, records': seq<SectionDiff>, ghost found': seq<Run>)
    requires size <= |local| && size <= |runtime| && i < size
    requires RunsInBounds(local, runtime, found)
    requires records == Report(name, sectionAddress, local, runtime, found)
    ensures i < next
    ensures found' + Runs(local, runtime, size, next, diff) == found + Runs(local, runtime, size, i, diff)
    ensures RunsInBounds(local, runtime, found')
    ensures records' == Report(name, sectionAddress, local, runtime, found')
  {
    records', found' := records, found;
    if local[i] == runtime[i] {
      assert Runs(local, runtime, size, i, diff) == Runs(local, runtime, size, i + 1, diff);
      return i + 1, records', found';
    }
    var cnt := MeasureRun(local, runtime, size, i);
    ghost var rest := Runs(local, runtime, size, i + cnt + 1, diff);
    if cnt < diff {
      assert Runs(local, runtime, size, i, diff) == rest;
    } else {
      assert Runs(local, runtime, size, i, diff) == [Run(i, cnt)] + rest;
      assert found + ([Run(i, cnt)] + rest) == (found + [Run(i, cnt)]) + rest;
      var run := Run(i, cnt);
      ReportStep(name, sectionAddress, local, runtime, found, run);
      records' := records + [SectionDiff(name, sectionAddress + run.start,
                                         local[run.start..run.start + run.length],
                                         runtime[run.start..run.start + run.length])];
      found' := found + [run];
    }
    next := i + cnt;
    next := next + 1;
  }

  // ---------------------------------------------------------------------
  // compare_sections
  // ---------------------------------------------------------------------

  const IMAGE_FILE_MACHINE_AMD64: nat := 0x8664
  const IMAGE_SCN_CNT_CODE: u32 := 0x0000_0020
  const IMAGE_SCN_MEM_DISCARDABLE: u32 := 0x0200_0000
  /** Offset of e_lfanew in the DOS header. */
  const NT_HEADER_POINTER: nat := 0x3C
  /** An IMAGE_SECTION_HEADER is 40 bytes. */
  const SECTION_HEADER_SIZE: nat := 40
  /** Offset of the section table from the NT headers: 0x108 for PE32+ (AMD64), 0xF8 otherwise. */
  const SECTION_TABLE_PE32PLUS: nat := 0x108
  const SECTION_TABLE_PE32: nat := 0xF8
  /** "PAGEwx3" with its terminating NUL in the 8-byte name field. */
  const WARBIRD_SECTION_NAME: seq<u8> := [0x50, 0x41, 0x47, 0x45, 0x77, 0x78, 0x33, 0x00]

  /** Little-endian WORD at `off`. */
  function Word(img: seq<u8>, off: nat): nat
    requires off + 2 <= |img|
  {
    img[off] as nat + img[off + 1] as nat * 0x100
  }

  /** Little-endian DWORD at `off`. */
  function Dword(img: seq<u8>, off: nat): nat
    requires off + 4 <= |img|
  {
    Word(img, off) + Word(img, off + 2) * 0x1_0000
  }

  /** Little-endian DWORD at `off`, as a bit field. */
  function DwordBits(img: seq<u8>, off: nat): u32
    requires off + 4 <= |img|
  {
    (img[off + 3] as u32 << 24) | (img[off + 2] as u32 << 16) | (img[off + 1] as u32 << 8) | img[off] as u32
  }

  /** The fields of an IMAGE_SECTION_HEADER the comparison uses. */
  datatype SectionHeader = SectionHeader(name: seq<u8>, virtualSize: nat, virtualAddress: nat, characteristics: u32)

  /** The section header at `off`: Name at 0, VirtualSize at 8, VirtualAddress at 0xC, Characteristics at 0x24. */
  function SectionHeaderAt(img: seq<u8>, off: nat): (h: SectionHeader)
    requires off + SECTION_HEADER_SIZE <= |img|
    ensures |h.name| == 8
  {
    SectionHeader(img[off..off + 8], Dword(img, off + 0x08), Dword(img, off + 0x0C), DwordBits(img, off + 0x24))
  }

  /**
   * A section that is compared: code, not discardable, and not the Warbird
   * page. The name test is `strcmp` against "PAGEwx3", which matches exactly
   * when the 8-byte field holds those seven characters and a NUL.
   */
  predicate Monitored(h: SectionHeader)
  {
    && h.characteristics & IMAGE_SCN_CNT_CODE != 0
    && h.characteristics & IMAGE_SCN_MEM_DISCARDABLE == 0
    && h.name != WARBIRD_SECTION_NAME
  }

  /** A read the source performs unchecked would fall outside an image. */
  datatype PeError =
    | HeadersOutOfBounds
    | SectionHeaderOutOfBounds(index: nat)
    | SectionOutOfBounds(index: nat)

  /** Where the headers say the section table is, and how many sections it holds. */
  datatype SectionTable = SectionTable(offset: nat, count: nat)

  /** Follows e_lfanew to the NT headers and reads the machine and the section count. */
  function ParseHeaders(local: seq<u8>): (r: Result<SectionTable, PeError>)
    ensures r.Success? ==> r.value.count < 0x1_0000
  {
    if |local| < NT_HEADER_POINTER + 4 then Failure(HeadersOutOfBounds)
    else
      var nt := Dword(local, NT_HEADER_POINTER);
      if nt + 8 > |local| then Failure(HeadersOutOfBounds)
      else
        var machine := Word(local, nt + 4);
        var table := if machine == IMAGE_FILE_MACHINE_AMD64 then nt + SECTION_TABLE_PE32PLUS else nt + SECTION_TABLE_PE32;
        Success(SectionTable(table, Word(local, nt + 6)))
  }

  /** The records for section `k` alone: none when it is not monitored. */
  function SectionRecords(local: seq<u8>, runtime: seq<u8>, diff: nat, tableOffset: nat, k: nat): Result<seq<SectionDiff>, PeError>
  {
    var off := tableOffset + k * SECTION_HEADER_SIZE;
    if off + SECTION_HEADER_SIZE > |local| then Failure(SectionHeaderOutOfBounds(k))
    else
      var h := SectionHeaderAt(local, off);
      if !Monitored(h) then Success([])
      else if h.virtualAddress + h.virtualSize > |local| || h.virtualAddress + h.virtualSize > |runtime| then
        Failure(SectionOutOfBounds(k))
      else
        Success(SectionReport(diff, h.name, local[h.virtualAddress..], runtime[h.virtualAddress..],
                              h.virtualSize, h.virtualAddress))
  }

  /** `found` in front of a result, keeping a failure as it is. */
  function Prepend(found: seq<SectionDiff>, r: Result<seq<SectionDiff>, PeError>): Result<seq<SectionDiff>, PeError>
  {
    match r
    case Failure(e) => Failure(e)
    case Success(rest) => Success(found + rest)
  }

  /** Records for the sections from index `k` on, in table order, or the first out-of-bounds read. */
  function SectionDiffs(local: seq<u8>, runtime: seq<u8>, diff: nat, table: SectionTable, k: nat): Result<seq<SectionDiff>, PeError>
    decreases table.count - k
  {
    if k >= table.count then Success([])
    else
      match SectionRecords(local, runtime, diff, table.offset, k)
      case Failure(e) => Failure(e)
      case Success(found) => Prepend(found, SectionDiffs(local, runtime, diff, table, k + 1))
  }

  /** All records for the module, or the first out-of-bounds read. */
  function ModuleReport(local: seq<u8>, runtime: seq<u8>, diff: nat): Result<seq<SectionDiff>, PeError>
  {
    match ParseHeaders(local)
    case Failure(e) => Failure(e)
    case Success(table) => SectionDiffs(local, runtime, diff, table, 0)
  }

  /** A section that is not monitored contributes no record, whatever its bytes. */
  lemma UnmonitoredSectionSkipped(local: seq<u8>, runtime: seq<u8>, diff: nat, table: SectionTable, k: nat)
    requires k < table.count
    requires table.offset + (k + 1) * SECTION_HEADER_SIZE <= |local|
    requires !Monitored(SectionHeaderAt(local, table.offset + k * SECTION_HEADER_SIZE))
    ensures SectionDiffs(local, runtime, diff, table, k) == SectionDiffs(local, runtime, diff, table, k + 1)
  {
    var r := SectionDiffs(local, runtime, diff, table, k + 1);
    if r.Success? {
      assert [] + r.value == r.value;
    }
  }

  /** Each record of section `k` lies inside that section, which is monitored. */
  lemma SectionRecordsInside(local: seq<u8>, runtime: seq<u8>, diff: nat, tableOffset: nat, k: nat, m: nat)
    requires SectionRecords(local, runtime, diff, tableOffset, k).Success?
    requires m < |SectionRecords(local, runtime, diff, tableOffset, k).value|
    ensures tableOffset + (k + 1) * SECTION_HEADER_SIZE <= |local|
    ensures
      var h := SectionHeaderAt(local, tableOffset + k * SECTION_HEADER_SIZE);
      && Monitored(h)
      && h.virtualAddress <= SectionRecords(local, runtime, diff, tableOffset, k).value[m].address
      && SectionRecords(local, runtime, diff, tableOffset, k).value[m].address < h.virtualAddress + h.virtualSize
  {
    var h := SectionHeaderAt(local, tableOffset + k * SECTION_HEADER_SIZE);
    ReportedBytesDiffer(diff, h.name, local[h.virtualAddress..], runtime[h.virtualAddress..],
                        h.virtualSize, h.virtualAddress, m);
  }

  /** Every record of a successful comparison comes from a monitored section and lies inside it. */
  lemma {:induction false} RecordsFromMonitoredSections(local: seq<u8>, runtime: seq<u8>, diff: nat, table: SectionTable, k: nat, m: nat)
    requires SectionDiffs(local, runtime, diff, table, k).Success?
    requires m < |SectionDiffs(local, runtime, diff, table, k).value|
    ensures exists i | k <= i < table.count ::
      && table.offset + (i + 1) * SECTION_HEADER_SIZE <= |local|
      && var h := SectionHeaderAt(local, table.offset + i * SECTION_HEADER_SIZE);
      && Monitored(h)
      && h.virtualAddress <= SectionDiffs(local, runtime, diff, table, k).value[m].address < h.virtualAddress + h.virtualSize
    decreases table.count - k
  {
    var found := SectionRecords(local, runtime, diff, table.offset, k).value;
    var rest := SectionDiffs(local, runtime, diff, table, k + 1).value;
    var rs := SectionDiffs(local, runtime, diff, table, k).value;
    assert rs == found + rest;
    if m < |found| {
      SectionRecordsInside(local, runtime, diff, table.offset, k, m);
      assert rs[m] == found[m];
    } else {
      assert rs[m] == rest[m - |found|];
      RecordsFromMonitoredSections(local, runtime, diff, table, k + 1, m - |found|);
    }
  }

  /** The loop body for section `i`: read its header, skip it unless monitored, else scan it. */
  method CompareSection(local: seq<u8>, runtime: seq<u8>, diff: nat, sectionHeaderOff: nat, i: nat)
    returns (r: Result<seq<SectionDiff>, PeError>)
    ensures r == SectionRecords(local, runtime, diff, sectionHeaderOff, i)
  {
    var section := sectionHeaderOff + i * SECTION_HEADER_SIZE;
    if section + SECTION_HEADER_SIZE > |local| {
      return Failure(SectionHeaderOutOfBounds(i));
    }
    var h := SectionHeaderAt(local, section);
    if h.characteristics & IMAGE_SCN_CNT_CODE != 0 && h.characteristics & IMAGE_SCN_MEM_DISCARDABLE == 0 {
      if h.name == WARBIRD_SECTION_NAME {
        return Success([]);
      }
      if h.virtualAddress + h.virtualSize > |local| || h.virtualAddress + h.virtualSize > |runtime| {
        return Failure(SectionOutOfBounds(i));
      }
      var found := ScanSection(diff, h.name, local[h.virtualAddress..], runtime[h.virtualAddress..],
                               h.virtualSize, h.virtualAddress);
      return Success(found);
    }
    return Success([]);
  }

  /**
   * Compares every monitored section of the reference image `local` with
   * the same section of `runtime`, in section-table order.
   */
  method CompareSections(local: seq<u8>, runtime: seq<u8>, diff: nat) returns (r: Result<seq<SectionDiff>, PeError>)
    ensures r == ModuleReport(local, runtime, diff)
  {
    var parsed := ParseHeaders(local);
    if parsed.Failure? {
      return Failure(parsed.error);
    }
    r := CompareSectionTable(local, runtime, diff, parsed.value);
  }

  /** The loop over the section table, stopping at the first out-of-bounds read. */
  method CompareSectionTable(local: seq<u8>, runtime: seq<u8>, diff: nat, table: SectionTable)
    returns (r: Result<seq<SectionDiff>, PeError>)
    ensures r == SectionDiffs(local, runtime, diff, table, 0)
  {
    var records := [];
    PrependEmpty(SectionDiffs(local, runtime, diff, table, 0));
    for i := 0 to table.count
      invariant Prepend(records, SectionDiffs(local, runtime, diff, table, i)) == SectionDiffs(local, runtime, diff, table, 0)
    {
      var found := CompareSection(local, runtime, diff, table.offset, i);
      match found {
        case Failure(e) =>
          return Failure(e);
        case Success(sectionRecords) =>
          PrependAssoc(records, sectionRecords, SectionDiffs(local, runtime, diff, table, i + 1));
          records := records + sectionRecords;
      }
    }
    assert SectionDiffs(local, runtime, diff, table, table.count) == Success([]);
    assert records + [] == records;
    r := Success(records);
  }

  /** Prepending nothing changes nothing. */
  lemma PrependEmpty(r: Result<seq<SectionDiff>, PeError>)
    ensures Prepend([], r) == r
  {
    if r.Success? {
      assert [] + r.value == r.value;
    }
  }

  /** Prepending in two steps is prepending the concatenation. */
  lemma PrependAssoc(a: seq<SectionDiff>, b: seq<SectionDiff>, r: Result<seq<SectionDiff>, PeError>)
    ensures Prepend(a, Prepend(b, r)) == Prepend(a + b, r)
  {
    if r.Success? {
      assert a + (b + r.value) == (a + b) + r.value;
    }
  }
}
