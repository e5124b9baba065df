/**
 Where things live in the mapped file: the queue header, the ring of 64-byte slots and
 the file-size arithmetic of the C++ and the Java buffer classes.

 Byte positions follow the two constructors.  The ring models address the file in
 64-bit words; `SlotWord` is the word form of `CalcElementOffset`, and the word constants are
 the byte positions (`WordAddressIsByteAddress`).
 */
module Layout {
  import opened Words

  /** The repository implements everything twice, over the same file. */
  datatype Language = Cpp | Java

  const LINE: nat := 64
  const QUEUE_HEADER_SIZE: nat := 8
  const DEFAULT_QUEUE_EXPONENT: nat := 12

  const HEAD_POS: nat := 0
  const TAIL_CACHE_POS: nat := HEAD_POS + 8
  const TAIL_POS: nat := HEAD_POS + 2 * LINE
  const HEAD_CACHE_POS: nat := TAIL_POS + 8
  const SYNC_POS: nat := 3 * LINE
  const ARRAY_BASE_POS: nat := HEAD_POS + 4 * LINE

  // The same positions counted in 64-bit words.
  const HEAD: nat := 0
  const TAIL_CACHE: nat := 1
  const TAIL: nat := 16
  const HEAD_CACHE: nat := 17
  const SYNC: nat := 24
  const ARRAY_BASE: nat := 32
  const SLOT_WORDS: nat := 8

  /** `calcElementOffset`: mask, then shift left by 6. */
  function CalcElementOffset(s: int, k: nat): nat {
    ARRAY_BASE_POS + Masked(s, k) * 64
  }

  /** The remainder operator of C++ and Java, which truncates toward zero. */
  function TruncatedRemainder(a: int, n: int): int
    requires n >= 1
  {
    if a >= 0 then a % n else -((-a) % n)
  }

  /** `calcElementOffsetModulus`, the slow form. */
  function CalcElementOffsetModulus(s: int, k: nat): int {
    ARRAY_BASE_POS + TruncatedRemainder(s, Pow2(k)) * 64
  }

  function SlotWord(s: int, k: nat, j: nat): nat {
    ARRAY_BASE + SLOT_WORDS * Masked(s, k) + j
  }

  function FileWords(k: nat): nat {
    SLOT_WORDS * (Pow2(k) + QUEUE_HEADER_SIZE)
  }

  /** `FILE_SIZE` of the Java buffer, a 32-bit int. */
  function JavaFileSize(k: nat): int {
    Wrap32((Pow2(k) + QUEUE_HEADER_SIZE) * LINE)
  }

  /** `m_fileSize` of the C++ buffer, for the line size the processor reports. */
  function CppFileSize(k: nat, reportedLine: nat): nat {
    (QUEUE_HEADER_SIZE + Pow2(k)) * reportedLine
  }

  function Wrap32(x: int): (w: int)
    ensures w < 0x8000_0000
  {
    (x + 0x8000_0000) % 0x1_0000_0000 - 0x8000_0000
  }

  /** The masked address equals the modulus address, except for negative sequence
      numbers that are not multiples of the capacity. */
  lemma FastAddressIsSlowAddress(s: int, k: nat)
    ensures CalcElementOffset(s, k) == CalcElementOffsetModulus(s, k) <==> s >= 0 || s % Pow2(k) == 0
  {
    MaskIsRemainder(s, k);
    var n := Pow2(k);
    if s < 0 {
      if s % n == 0 {
        UniqueRemainder(-s, n, -(s / n), 0);
      }
    }
  }

  lemma WordAddressIsByteAddress(s: int, k: nat, j: nat)
    ensures 8 * SlotWord(s, k, j) == CalcElementOffset(s, k) + 8 * j
    ensures 8 * FileWords(k) == (Pow2(k) + QUEUE_HEADER_SIZE) * LINE
    ensures [8 * HEAD, 8 * TAIL_CACHE, 8 * TAIL, 8 * HEAD_CACHE, 8 * SYNC, 8 * ARRAY_BASE]
         == [HEAD_POS, TAIL_CACHE_POS, TAIL_POS, HEAD_CACHE_POS, SYNC_POS, ARRAY_BASE_POS]
  {
  }

  /** Any N consecutive sequence numbers own pairwise disjoint 64-byte slots, all clear
      of the four cursors and of the sync word. */
  lemma SlotsAreDisjoint(a: int, b: int, k: nat)
    requires a < b < a + Pow2(k)
    ensures CalcElementOffset(a, k) + LINE <= CalcElementOffset(b, k)
         || CalcElementOffset(b, k) + LINE <= CalcElementOffset(a, k)
    ensures SYNC_POS + 8 <= CalcElementOffset(a, k)
  {
    MaskedDistinct(a, b, k);
  }

  lemma Pow2Grows(j: nat, k: nat)
    requires j <= k
    ensures Pow2(j) <= Pow2(k)
  {
    Pow2Divides(j, k);
    MulBound(Pow2(k - j), Pow2(j));
  }

  ghost predicate FileHoldsRing(k: nat, fileSize: int) {
    forall s: int :: CalcElementOffset(s, k) + LINE <= fileSize
  }

  /** A file holds every slot exactly when it reaches the end of slot N - 1. */
  lemma FileHoldsRingExactly(k: nat, fileSize: int)
    ensures FileHoldsRing(k, fileSize) <==> ARRAY_BASE_POS + LINE * Pow2(k) <= fileSize
  {
    MaskedSmall(Pow2(k) - 1, k);
    assert CalcElementOffset(Pow2(k) - 1, k) + LINE == ARRAY_BASE_POS + LINE * Pow2(k);
    forall s: int ensures Masked(s, k) <= Pow2(k) - 1 {
      MaskedRange(s, k);
    }
  }

  /** The Java file size is an int: it holds the ring for capacities up to 2^24, and the
      product overflows from 2^25 on. */
  lemma JavaFileHoldsRing(k: nat)
    requires k <= 30
    ensures FileHoldsRing(k, JavaFileSize(k)) <==> k <= 24
  {
    FileHoldsRingExactly(k, JavaFileSize(k));
    assert Pow2(8) == 256;
    Pow2Divides(8, 16);
    Pow2Divides(16, 24);
    if k <= 24 {
      Pow2Grows(k, 24);
      assert JavaFileSize(k) == (Pow2(k) + QUEUE_HEADER_SIZE) * LINE;
    } else {
      assert Pow2(25) == 2 * Pow2(24);
      Pow2Grows(25, k);
    }
  }

  /** With the fixed capacity 4096 the C++ file needs a reported line of at least 64 bytes. */
  lemma CppFileHoldsRing(reportedLine: nat)
    ensures FileHoldsRing(DEFAULT_QUEUE_EXPONENT, CppFileSize(DEFAULT_QUEUE_EXPONENT, reportedLine))
       <==> reportedLine >= 64
  {
    assert Pow2(6) == 64;
    assert Pow2(12) == 4096 by {
      Pow2Divides(6, 12);
    }
    FileHoldsRingExactly(DEFAULT_QUEUE_EXPONENT, CppFileSize(DEFAULT_QUEUE_EXPONENT, reportedLine));
  }
}
