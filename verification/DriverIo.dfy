/**
 * The driver's two small encoders: the PCI configuration address written
 * to port 0xCF8 (Configuration Mechanism #1, section 3.2.2.3.2 of the PCI
 * Local Bus Specification 3.0) and the page-list reply to the request for
 * the runs found by the page walk.
 */
module DriverIo {
  import opened Common
  import PciConfig

  // ---------------------------------------------------------------------
  // read_pci_u16
  // ---------------------------------------------------------------------

  /** Bit 31 of CONFIG_ADDRESS enables the configuration cycle. */
  const CONFIG_ENABLE: u32 := 0x8000_0000

  /** The dword written to port 0xCF8; the fields are shifted into place and not masked. */
  function ConfigAddress(bus: u8, slot: u8, func: u8, offset: u8): (a: u32)
    ensures a & CONFIG_ENABLE != 0
    ensures a & 0xFF == offset as u32
  {
    CONFIG_ENABLE | (bus as u32 << 16) | (slot as u32 << 11) | (func as u32 << 8) | offset as u32
  }

  /** With a device number below 32 and a function number below 8 every field reads back from its own bits. */
  lemma ConfigAddressFields(bus: u8, slot: u8, func: u8, offset: u8)
    requires slot < 32 && func < 8
    ensures var a := ConfigAddress(bus, slot, func, offset);
      && a >> 24 == 0x80
      && (a >> 16) & 0xFF == bus as u32
      && (a >> 11) & 0x1F == slot as u32
      && (a >> 8) & 0x7 == func as u32
      && a & 0xFF == offset as u32
  {
  }

  /** The 16-bit half of the 0xCFC dword that offset bit 1 selects. */
  function SelectWord(data: u32, offset: u8): (w: u16)
    ensures offset & 2 == 0 ==> w as u32 == data & 0xFFFF
    ensures offset & 2 != 0 ==> w as u32 == data >> 16
  {
    ((data >> (((offset & 2) as nat) * 8)) & 0xFFFF) as u16
  }

  /** The dword whose low half is `lo` and whose high half is `hi`. */
  function JoinWords(lo: u16, hi: u16): u32
  {
    (hi as u32 << 16) | lo as u32
  }

  /** The two halves put back together give the dword read. */
  lemma HalvesReassemble(data: u32)
    ensures JoinWords(SelectWord(data, 0), SelectWord(data, 2)) == data
  {
  }

  /**
   * read_pci_u16: `port` stands for the dword port 0xCFC returns once a
   * configuration address has been written to port 0xCF8.
   */
  function ReadPciU16(port: u32 -> u32, bus: u8, slot: u8, func: u8, offset: u8): u16
  {
    SelectWord(port(ConfigAddress(bus, slot, func, offset)), offset)
  }

  /** Offset bit 1 picks the high or the low register of a dword. */
  lemma SelectFromDword(lo: u16, hi: u16, offset: u8)
    ensures SelectWord(JoinWords(lo, hi), offset) == if offset & 2 == 0 then lo else hi
  {
  }

  /** An even offset is its dword's base, or two above it. */
  lemma EvenOffsetInDword(offset: u8)
    requires offset & 1 == 0
    ensures offset & 2 == 0 ==> (offset & 0xFC) as nat == offset as nat
    ensures offset & 2 != 0 ==> (offset & 0xFC) as nat + 2 == offset as nat
  {
  }

  /**
   * When the data port answers with the dword of the function's
   * configuration space that holds `offset`, an even offset reads the same
   * register as the snapshot does.
   */
  lemma ReadMatchesSnapshot(port: u32 -> u32, bus: u8, slot: u8, func: u8, offset: u8, cfg: PciConfig.ConfigSpace)
    requires offset & 1 == 0
    requires var base := (offset & 0xFC) as nat;
      port(ConfigAddress(bus, slot, func, offset)) == JoinWords(PciConfig.WordAt(cfg, base), PciConfig.WordAt(cfg, base + 2))
    ensures ReadPciU16(port, bus, slot, func, offset) == PciConfig.WordAt(cfg, offset as nat)
  {
    var base := (offset & 0xFC) as nat;
    SelectFromDword(PciConfig.WordAt(cfg, base), PciConfig.WordAt(cfg, base + 2), offset);
    EvenOffsetInDword(offset);
  }

  // ---------------------------------------------------------------------
  // The page-list reply
  // ---------------------------------------------------------------------

  /** The capacity of the driver's run buffers. */
  const MAX_EFI_PAGES: nat := 100
  const TWO_TO_32: int := 0x1_0000_0000

  /** A byte of the reply buffer, as a number. */
  type byte = x: int | 0 <= x < 256

  function Pow256(n: nat): (p: nat)
    ensures p >= 1
  {
    if n == 0 then 1 else 256 * Pow256(n - 1)
  }

  /** `v` as `n` little-endian bytes, keeping the low `n` bytes. */
  function LeBytes(v: nat, n: nat): (b: seq<byte>)
    ensures |b| == n
  {
    if n == 0 then [] else [v % 256] + LeBytes(v / 256, n - 1)
  }

  /** The number held by little-endian bytes. */
  function LeValue(b: seq<byte>): (v: nat)
    ensures v < Pow256(|b|)
  {
    if b == [] then 0 else b[0] + 256 * LeValue(b[1..])
  }

  lemma {:induction false} LeRoundTrip(v: nat, n: nat)
    requires v < Pow256(n)
    ensures LeValue(LeBytes(v, n)) == v
  {
    if n > 0 {
      var b := LeBytes(v, n);
      assert Pow256(n) == 256 * Pow256(n - 1);
      assert v / 256 < Pow256(n - 1);
      LeRoundTrip(v / 256, n - 1);
      assert b[1..] == LeBytes(v / 256, n - 1);
      assert LeValue(b) == v % 256 + 256 * (v / 256);
    }
  }

  lemma QwordBound()
    ensures Pow256(8) == TWO_TO_64 && Pow256(4) == TWO_TO_32
  {
  }

  /** The DWORD size the reply asks to allocate: a 4-byte count, then 16 bytes per run. */
  function RequestSize(count: nat): (size: nat)
    requires count < TWO_TO_32
    ensures size != 0
    ensures count <= MAX_EFI_PAGES ==> size == count * 16 + 4
  {
    var size := (count * 16 + 4) % TWO_TO_32;
    assert size % 16 == 4 by {
      assert size == count * 16 + 4 || size == count * 16 + 4 - TWO_TO_32 * ((count * 16 + 4) / TWO_TO_32);
    }
    size
  }

  /** The allocator hands out whole pages: the region granted for a request of `size` bytes. */
  function RegionSize(size: nat): (region: nat)
    ensures size <= region < size + PAGE_SIZE && region % PAGE_SIZE == 0
  {
    (size + PAGE_SIZE - 1) / PAGE_SIZE * PAGE_SIZE
  }

  /**
   * The reply with its first `k` runs written: the run count `count` as a
   * DWORD, then each run's start and page count, eight little-endian bytes
   * each.
   */
  function Reply(count: nat, starts: seq<qword>, counts: seq<qword>, k: nat): (b: seq<byte>)
    requires |starts| == |counts| && k <= |starts|
    ensures |b| == 4 + 16 * k
  {
    if k == 0 then LeBytes(count, 4)
    else Reply(count, starts, counts, k - 1) + LeBytes(starts[k - 1], 8) + LeBytes(counts[k - 1], 8)
  }

  /** The whole reply for the given runs. */
  function PageList(starts: seq<qword>, counts: seq<qword>): (b: seq<byte>)
    requires |starts| == |counts|
    ensures |b| == 4 + 16 * |starts|
  {
    Reply(|starts|, starts, counts, |starts|)
  }

  /** The first `k` runs of a reply. */
  function ParseRecords(b: seq<byte>, k: nat): (r: (seq<qword>, seq<qword>))
    requires 4 + 16 * k <= |b|
    ensures |r.0| == k && |r.1| == k
  {
    if k == 0 then ([], [])
    else
      var prev := ParseRecords(b, k - 1);
      var off := 4 + 16 * (k - 1);
      QwordBound();
      (prev.0 + [LeValue(b[off..off + 8])], prev.1 + [LeValue(b[off + 8..off + 16])])
  }

  /** Reads a reply back: None when it is shorter than its count says. */
  function ParsePageList(b: seq<byte>): (r: Option<(seq<qword>, seq<qword>)>)
    ensures r.Some? ==> |r.value.0| == |r.value.1| && 4 + 16 * |r.value.0| <= |b|
  {
    if |b| < 4 then None
    else
      var n := LeValue(b[..4]);
      if |b| < 4 + 16 * n then None else Some(ParseRecords(b, n))
  }

  lemma SliceOfFront(a: seq<byte>, b: seq<byte>, lo: nat, hi: nat)
    requires lo <= hi <= |a|
    ensures (a + b)[lo..hi] == a[lo..hi]
  {
  }

  lemma SlicesOfThree(a: seq<byte>, b: seq<byte>, c: seq<byte>)
    ensures (a + b + c)[|a|..|a| + |b|] == b && (a + b + c)[|a| + |b|..|a| + |b| + |c|] == c
  {
  }

  /** The count sits in the first four bytes of every partial reply. */
  lemma {:induction false} ReplyHeader(count: nat, starts: seq<qword>, counts: seq<qword>, k: nat)
    requires |starts| == |counts| && k <= |starts|
    ensures Reply(count, starts, counts, k)[..4] == LeBytes(count, 4)
  {
    if k > 0 {
      var prefix := Reply(count, starts, counts, k - 1);
      ReplyHeader(count, starts, counts, k - 1);
      SliceOfFront(prefix, LeBytes(starts[k - 1], 8) + LeBytes(counts[k - 1], 8), 0, 4);
      assert Reply(count, starts, counts, k) == prefix + (LeBytes(starts[k - 1], 8) + LeBytes(counts[k - 1], 8));
    }
  }

  /** Run `i` sits at bytes 4+16i .. 4+16i+16 of every partial reply that holds it. */
  lemma {:induction false} RecordAt(count: nat, starts: seq<qword>, counts: seq<qword>, k: nat, i: nat)
    requires |starts| == |counts| && i < k <= |starts|
    ensures Reply(count, starts, counts, k)[4 + 16 * i..4 + 16 * i + 8] == LeBytes(starts[i], 8)
    ensures Reply(count, starts, counts, k)[4 + 16 * i + 8..4 + 16 * i + 16] == LeBytes(counts[i], 8)
  {
    var prefix := Reply(count, starts, counts, k - 1);
    var last := LeBytes(starts[k - 1], 8) + LeBytes(counts[k - 1], 8);
    assert Reply(count, starts, counts, k) == prefix + last;
    if i < k - 1 {
      RecordAt(count, starts, counts, k - 1, i);
      SliceOfFront(prefix, last, 4 + 16 * i, 4 + 16 * i + 8);
      SliceOfFront(prefix, last, 4 + 16 * i + 8, 4 + 16 * i + 16);
    } else {
      SlicesOfThree(prefix, LeBytes(starts[k - 1], 8), LeBytes(counts[k - 1], 8));
    }
  }

  /** The runs a buffer's 16-byte slots hold, slot by slot. */
  ghost predicate HoldsRuns(b: seq<byte>, starts: seq<qword>, counts: seq<qword>)
  {
    && |starts| == |counts| && 4 + 16 * |starts| <= |b|
    && forall i | 0 <= i < |starts| ::
         LeValue(b[4 + 16 * i..4 + 16 * i + 8]) == starts[i] && LeValue(b[4 + 16 * i + 8..4 + 16 * i + 16]) == counts[i]
  }

  lemma {:induction false} ParseRecordsOf(b: seq<byte>, starts: seq<qword>, counts: seq<qword>, k: nat)
    requires HoldsRuns(b, starts, counts) && k <= |starts|
    ensures ParseRecords(b, k) == (starts[..k], counts[..k])
  {
    if k > 0 {
      ParseRecordsOf(b, starts, counts, k - 1);
      assert starts[..k] == starts[..k - 1] + [starts[k - 1]];
      assert counts[..k] == counts[..k - 1] + [counts[k - 1]];
    }
  }

  /** Slot `i` of a reply, whatever follows it, reads back as run `i`. */
  lemma SlotHoldsRun(starts: seq<qword>, counts: seq<qword>, padding: seq<byte>, i: nat)
    requires |starts| == |counts| && i < |starts|
    ensures var b := PageList(starts, counts) + padding;
      LeValue(b[4 + 16 * i..4 + 16 * i + 8]) == starts[i] && LeValue(b[4 + 16 * i + 8..4 + 16 * i + 16]) == counts[i]
  {
    var list := PageList(starts, counts);
    RecordAt(|starts|, starts, counts, |starts|, i);
    SliceOfFront(list, padding, 4 + 16 * i, 4 + 16 * i + 8);
    SliceOfFront(list, padding, 4 + 16 * i + 8, 4 + 16 * i + 16);
    QwordBound();
    LeRoundTrip(starts[i], 8);
    LeRoundTrip(counts[i], 8);
  }

  lemma ReplyHoldsRuns(starts: seq<qword>, counts: seq<qword>, padding: seq<byte>)
    requires |starts| == |counts|
    ensures HoldsRuns(PageList(starts, counts) + padding, starts, counts)
  {
    forall i | 0 <= i < |starts| {
      SlotHoldsRun(starts, counts, padding, i);
    }
  }

  /** A reply, followed by whatever the rest of its region holds, reads back as the runs it was built from. */
  lemma PageListRoundTrip(starts: seq<qword>, counts: seq<qword>, padding: seq<byte>)
    requires |starts| == |counts| && |starts| < TWO_TO_32
    ensures ParsePageList(PageList(starts, counts) + padding) == Some((starts, counts))
  {
    var list := PageList(starts, counts);
    var b := list + padding;
    ReplyHeader(|starts|, starts, counts, |starts|);
    SliceOfFront(list, padding, 0, 4);
    QwordBound();
    LeRoundTrip(|starts|, 4);
    ReplyHoldsRuns(starts, counts, padding);
    ParseRecordsOf(b, starts, counts, |starts|);
    assert starts[..|starts|] == starts && counts[..|counts|] == counts;
  }

  // ---------------------------------------------------------------------
  // Filling the reply buffer
  // ---------------------------------------------------------------------

  /** `n` zero bytes: fresh committed memory reads as zeros. */
  function ZeroBytes(n: nat): (z: seq<byte>)
    ensures |z| == n && forall i | 0 <= i < n :: z[i] == 0
  {
    seq(n, _ => 0)
  }

  datatype IoStatus = StatusSuccess | AllocationFailed

  /** One little-endian store of `bytes` at `offset`. */
  method Store(buffer: array<byte>, offset: nat, bytes: seq<byte>)
    requires offset + |bytes| <= buffer.Length
    modifies buffer
    ensures buffer[..] == old(buffer[..])[..offset] + bytes + old(buffer[..])[offset + |bytes|..]
  {
    forall j | 0 <= j < |bytes| {
      buffer[offset + j] := bytes[j];
    }
  }

  /** Storing into the zero tail of a buffer moves the boundary of the tail. */
  lemma StoreIntoTail(head: seq<byte>, rest: nat, bytes: seq<byte>)
    requires |bytes| <= rest
    ensures var b := head + ZeroBytes(rest);
      b[..|head|] + bytes + b[|head| + |bytes|..] == head + bytes + ZeroBytes(rest - |bytes|)
  {
    var b := head + ZeroBytes(rest);
    assert b[..|head|] == head;
    assert b[|head| + |bytes|..] == ZeroBytes(rest - |bytes|);
  }

  /** Write one run into the zero tail of the buffer, start first, count second. */
  method StoreRun(b: array<byte>, offset: nat, ghost head: seq<byte>, ghost rest: nat, start: qword, count: qword)
    requires offset == |head| && 16 <= rest && b[..] == head + ZeroBytes(rest)
    modifies b
    ensures b[..] == head + LeBytes(start, 8) + LeBytes(count, 8) + ZeroBytes(rest - 16)
  {
    StoreIntoTail(head, rest, LeBytes(start, 8));
    Store(b, offset, LeBytes(start, 8));
    StoreIntoTail(head + LeBytes(start, 8), rest - 8, LeBytes(count, 8));
    Store(b, offset + 8, LeBytes(count, 8));
  }

  /** Write the runs one after the other behind the 4-byte header. */
  method StoreRuns(b: array<byte>, starts: array<qword>, counts: array<qword>, pageCount: nat, ghost rest: nat)
    requires pageCount <= starts.Length && pageCount <= counts.Length
    requires 16 * pageCount <= rest && b[..] == LeBytes(pageCount, 4) + ZeroBytes(rest)
    modifies b
    ensures b[..] == PageList(starts[..pageCount], counts[..pageCount]) + ZeroBytes(rest - 16 * pageCount)
  {
    ghost var runStarts := starts[..pageCount];
    ghost var runCounts := counts[..pageCount];
    for i := 0 to pageCount
      invariant b[..] == Reply(pageCount, runStarts, runCounts, i) + ZeroBytes(rest - 16 * i)
    {
      StoreRun(b, 4 + 16 * i, Reply(pageCount, runStarts, runCounts, i), rest - 16 * i, starts[i], counts[i]);
    }
  }

  /**
   * The IOCTL_REQUEST_PAGES branch: allocate a region for the reply, write
   * the run count and then each run, and hand back the region and its size;
   * when the allocation fails both are zero. `allocationSucceeds` stands for
   * the allocator's answer, which grants whole zero-filled pages.
   */
  method RequestPages(starts: array<qword>, counts: array<qword>, pageCount: nat, allocationSucceeds: bool)
    returns (status: IoStatus, buffer: array?<byte>, bufferSize: nat)
    requires pageCount <= MAX_EFI_PAGES && pageCount <= starts.Length && pageCount <= counts.Length
    ensures !allocationSucceeds ==> status == AllocationFailed && buffer == null && bufferSize == 0
    ensures allocationSucceeds ==>
      && status == StatusSuccess && buffer != null && fresh(buffer)
      && bufferSize == buffer.Length == RegionSize(RequestSize(pageCount))
      && buffer[..] == PageList(starts[..pageCount], counts[..pageCount]) + ZeroBytes(bufferSize - RequestSize(pageCount))
  {
    var size := RequestSize(pageCount);
    if !allocationSucceeds {
      return AllocationFailed, null, 0;
    }
    var region := RegionSize(size);
    var b := new byte[region](_ => 0);
    assert b[..] == [] + ZeroBytes(region);
    StoreIntoTail([], region, LeBytes(pageCount, 4));
    Store(b, 0, LeBytes(pageCount, 4));
    assert b[..] == LeBytes(pageCount, 4) + ZeroBytes(region - 4);
    StoreRuns(b, starts, counts, pageCount, region - 4);
    return StatusSuccess, b, region;
  }
}
