/** Machine words and failure wrappers shared by the scanner's engines. */
module Common {

  /** BYTE, WORD, DWORD and QWORD: unsigned words whose arithmetic wraps like C's. */
  type u8 = bv8
  type u16 = bv16
  type u32 = bv32
  type u64 = bv64

  const TWO_TO_64: int := 0x1_0000_0000_0000_0000

  /**
   * A QWORD used for address arithmetic, held as an integer so that range
   * comparisons stay linear; every sum is reduced with `Wrap64` exactly
   * where the 64-bit C expression would wrap.
   */
  type qword = x: int | 0 <= x < TWO_TO_64

  /** Reduction modulo 2^64, as unsigned 64-bit arithmetic does. */
  function Wrap64(x: int): (r: qword)
    ensures 0 <= x < TWO_TO_64 ==> r == x
  {
    x % TWO_TO_64
  }

  /** Size of a 4 KB page, the unit of EFI descriptors and page-table frames. */
  const PAGE_SIZE: int := 0x1000

  /** `n` zero bytes. */
  function Zeros(n: nat): (s: seq<u8>)
    ensures |s| == n && forall i | 0 <= i < n :: s[i] == 0
  {
    if n == 0 then [] else Zeros(n - 1) + [0]
  }

  /** Sequence concatenation regrouped, for proofs that extend a list one part at a time. */
  lemma Associative<T>(a: seq<T>, b: seq<T>, c: seq<T>)
    ensures a + (b + c) == a + b + c
  {
  }

  datatype Option<T> = None | Some(value: T)

  datatype Result<T, E> = Success(value: T) | Failure(error: E)
}
