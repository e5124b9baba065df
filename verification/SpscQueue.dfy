/**
 The queue class over the mapped file, for calls that do not overlap.

 The file is an array of 64-bit words that the methods overwrite; cursor words wrap like
 Java's `long`.  The ghost cursors are the unbounded sequence numbers behind them, and
 `Contents` is the bounded FIFO the class stands for.
 */
module SpscQueue {
  import opened Words
  import opened Layout
  import opened StoreBuffer
  import Ring

  /** A re-aimable view of one line of the file, `buffer` being its first word. */
  class CacheLine {
    const file: array<int>
    var buffer: nat
    var length: nat

    constructor (file: array<int>)
      ensures this.file == file && buffer == 0 && length == 0
    {
      this.file := file;
      buffer, length := 0, 0;
    }

    method UpdateWrap(buffer: nat, length: nat)
      modifies this
      ensures this.buffer == buffer && this.length == length
    {
      this.length := length;
      this.buffer := buffer;
    }

    method PutInt64(j: nat, v: int)
      requires buffer + j < file.Length
      modifies file
      ensures file[..] == old(file[..])[buffer + j := v]
    {
      file[buffer + j] := v;
    }

    method GetInt64(j: nat) returns (v: int)
      requires buffer + j < file.Length
      ensures v == file[buffer + j]
    {
      v := file[buffer + j];
    }
  }

  // ------------------------------------------------------- the file as a value

  /** Unbounded cursors. */
  datatype Cursors = Cursors(headCache: nat, head: nat, tailCache: nat, tail: nat)

  ghost predicate Ordered(c: Cursors, k: nat) {
    c.headCache <= c.head <= c.tailCache <= c.tail <= c.headCache + Pow2(k) - 1
  }

  ghost predicate Holds(m: seq<int>, k: nat, c: Cursors) {
    && |m| == FileWords(k)
    && m[HEAD] == Wrap64(c.head) && m[TAIL_CACHE] == Wrap64(c.tailCache)
    && m[TAIL] == Wrap64(c.tail) && m[HEAD_CACHE] == Wrap64(c.headCache)
    && Ordered(c, k)
  }

  ghost function Queued(m: seq<int>, k: nat, head: nat, tail: nat): (q: seq<seq<int>>)
    requires head <= tail
    ensures |q| == tail - head
  {
    seq(tail - head, i requires 0 <= i < tail - head => Ring.Payload(m, head + i, k))
  }

  lemma SlotInsideFile(s: int, k: nat, j: nat)
    requires j < SLOT_WORDS
    ensures ARRAY_BASE <= SlotWord(s, k, j) < FileWords(k)
  {
    MaskedRange(s, k);
  }

  /** Header stores touch no payload. */
  lemma HeaderStoreKeepsQueued(m: seq<int>, k: nat, a: nat, v: int, head: nat, tail: nat)
    requires |m| == FileWords(k) && a < ARRAY_BASE && head <= tail
    ensures Queued(m[a := v], k, head, tail) == Queued(m, k, head, tail)
    ensures forall s: int :: Ring.Payload(m[a := v], s, k) == Ring.Payload(m, s, k)
  {
    forall s: int ensures Ring.Payload(m[a := v], s, k) == Ring.Payload(m, s, k) {
      forall j: nat | j < SLOT_WORDS ensures At(m[a := v], SlotWord(s, k, j)) == At(m, SlotWord(s, k, j)) {
        SlotInsideFile(s, k, j);
      }
    }
  }

  /** A store into the slot after the last queued one touches no queued payload. */
  lemma WindowStoreKeepsQueued(m: seq<int>, k: nat, c: Cursors, j: nat, v: int)
    requires Holds(m, k, c) && j < SLOT_WORDS
    ensures SlotWord(c.tail, k, j) < |m|
    ensures var m' := m[SlotWord(c.tail, k, j) := v];
            && Holds(m', k, c)
            && Queued(m', k, c.head, c.tail) == Queued(m, k, c.head, c.tail)
            && Ring.Payload(m', c.tail, k) == Ring.Payload(m, c.tail, k)[j := v]
  {
    SlotInsideFile(c.tail, k, j);
    var m' := m[SlotWord(c.tail, k, j) := v];
    forall s: nat | c.head <= s < c.tail ensures Ring.Payload(m', s, k) == Ring.Payload(m, s, k) {
      MaskedDistinct(s, c.tail, k);
    }
    forall i: nat | i < SLOT_WORDS ensures SlotWord(c.tail, k, i) < |m| {
      SlotInsideFile(c.tail, k, i);
    }
  }

  /** The words of a slot, read in place, are its payload. */
  lemma SlotSlice(m: seq<int>, k: nat, s: int)
    requires |m| == FileWords(k)
    ensures SlotWord(s, k, 0) + SLOT_WORDS <= |m|
    ensures m[SlotWord(s, k, 0)..SlotWord(s, k, 0) + SLOT_WORDS] == Ring.Payload(m, s, k)
  {
    SlotInsideFile(s, k, SLOT_WORDS - 1);
  }

  /** The masked tests on wrapped cursor words are exact. */
  lemma WrappedFullTest(k: nat, c: Cursors)
    requires k <= 64 && Ordered(c, k)
    ensures Masked(Wrap64(Wrap64(c.tail) + 1 - Wrap64(c.headCache)), k) == 0 <==> c.tail - c.headCache == Pow2(k) - 1
  {
    WrapDifference(c.tail, c.headCache, 1);
    MaskedWrap(c.tail + 1 - c.headCache, k);
    MaskedFull(c.tail + 1 - c.headCache, k);
  }

  lemma WrappedEmptyTest(k: nat, c: Cursors)
    requires k <= 64 && Ordered(c, k)
    ensures Masked(Wrap64(Wrap64(c.head) - Wrap64(c.tailCache)), k) == 0 <==> c.head == c.tailCache
  {
    WrapDifference(c.head, c.tailCache, 0);
    MaskedWrap(c.head - c.tailCache, k);
    MaskedEmpty(c.head - c.tailCache, k);
  }

  lemma WrappedSize(k: nat, c: Cursors)
    requires k <= 64 && Ordered(c, k)
    ensures Masked(Wrap64(Wrap64(c.tail) - Wrap64(c.head)), k) == c.tail - c.head
  {
    WrapDifference(c.tail, c.head, 0);
    MaskedWrap(c.tail - c.head, k);
    MaskedSmall(c.tail - c.head, k);
  }

  /** The answer of `size` is the number of elements for every capacity up to 2^31, and turns
      negative in a queue of capacity 2^32 that is at least half full. */
  lemma SizeFitsInt(k: nat, n: nat)
    requires k <= 32 && n < Pow2(k)
    ensures Wrap32(n) == n <==> n < 0x8000_0000
    ensures k <= 31 ==> n < 0x8000_0000
    ensures n >= 0x8000_0000 ==> Wrap32(n) < 0
  {
    assert Pow2(8) == 256;
    Pow2Divides(8, 16);
    Pow2Divides(16, 32);
    assert Pow2(32) == 2 * Pow2(31);
    Pow2Grows(k, if k <= 31 then 31 else 32);
  }

  // ------------------------------------------------------------- role gates

  const IS_PRODUCER: nat := 1
  const IS_CONSUMER: nat := 2

  /** `(viewMask && (bool)IS_CONSUMER) != 0`. */
  predicate CppClears(viewMask: nat) {
    viewMask != 0 && IS_CONSUMER != 0
  }

  /** `(viewMask & CONSUMER) == CONSUMER`. */
  predicate JavaClears(viewMask: nat) {
    And(viewMask, IS_CONSUMER) == IS_CONSUMER
  }

  /** Whether a process that attaches with this view mask empties the queue. */
  predicate Clears(language: Language, viewMask: nat) {
    match language
    case Cpp => CppClears(viewMask)
    case Java => JavaClears(viewMask)
  }

  /** The C++ gate is the Java gate except for callers that are not consumers: a C++ process
      that only produces also empties the queue when it attaches. */
  lemma GatesAgree(viewMask: nat)
    ensures Clears(Cpp, viewMask) == Clears(Java, viewMask) <==> viewMask == 0 || viewMask / 2 % 2 == 1
    ensures Clears(Cpp, IS_PRODUCER) && !Clears(Java, IS_PRODUCER)
    ensures Clears(Cpp, IS_CONSUMER) && Clears(Java, IS_CONSUMER)
  {
    assert And(viewMask, 2) == 2 * And(viewMask / 2, 1);
    assert And(viewMask / 2, 1) == viewMask / 2 % 2;
  }

  // ------------------------------------------------------------------- peek

  /** `peek` compares cursors by magnitude. */
  predicate PeekSees(head: int, tailCache: int, tail: int) {
    !(head >= tailCache && head >= tail)
  }

  lemma WrapOrder(x: nat, y: nat)
    requires x <= y < x + TWO_64
    ensures var hx, hy := (x + TWO_63) / TWO_64, (y + TWO_63) / TWO_64;
            && (hx == hy ==> Wrap64(y) - Wrap64(x) == y - x)
            && (hx != hy ==> Wrap64(y) - Wrap64(x) == y - x - TWO_64)
  {
  }

  /** The sequence numbers at which a `long` cursor wraps to the smallest `long`. */
  function Boundary(q: nat): nat {
    TWO_63 + q * TWO_64
  }

  ghost predicate Crosses(low: nat, high: nat, q: nat) {
    low < Boundary(q) <= high
  }

  /** Between cursors less than 2^63 apart, magnitude is order unless a boundary is crossed. */
  lemma WrapCompares(x: nat, y: nat)
    requires x <= y < x + TWO_63
    ensures Wrap64(y) > Wrap64(x) <==> x < y && forall q: nat :: !Crosses(x, y, q)
  {
    WrapOrder(x, y);
    var hx, hy := (x + TWO_63) / TWO_64, (y + TWO_63) / TWO_64;
    if hx < hy {
      assert Crosses(x, y, hx);
    }
    forall q: nat | Crosses(x, y, q) ensures hx < hy {
      assert hx <= q;
      assert q + 1 <= hy;
    }
  }

  lemma OneBoundary(x: nat, y: nat, q: nat, r: nat)
    requires y < x + TWO_63 && Crosses(x, y, q) && Crosses(x, y, r)
    ensures q == r
  {
  }

  /** `peek` never shows an element of an empty queue, and misses one exactly when the tail has
      passed a boundary that the head has not, and no element before it is in the cached tail. */
  lemma PeekExact(c: Cursors, k: nat)
    requires k <= 63 && Ordered(c, k)
    ensures PeekSees(Wrap64(c.head), Wrap64(c.tailCache), Wrap64(c.tail))
       <==> c.head < c.tail
            && !exists q: nat :: Crosses(c.head, c.tail, q) && !(c.head < c.tailCache < Boundary(q))
  {
    hide Wrap64;
    Pow2Grows(k, 63);
    Pow2Of64();
    assert Pow2(64) == 2 * Pow2(63);
    WrapCompares(c.head, c.tail);
    WrapCompares(c.head, c.tailCache);
    if q: nat :| Crosses(c.head, c.tail, q) {
      forall r: nat | Crosses(c.head, c.tail, r) ensures r == q {
        OneBoundary(c.head, c.tail, q, r);
      }
      assert forall r: nat :: Crosses(c.head, c.tailCache, r) ==> Crosses(c.head, c.tail, r);
      assert Crosses(c.head, c.tailCache, q) <==> Boundary(q) <= c.tailCache;
    }
  }

  /** So `peek` is right while no boundary lies between head and tail; in particular as long
      as fewer than 2^63 elements were ever offered. */
  lemma PeekRightAwayFromBoundaries(c: Cursors, k: nat)
    requires k <= 63 && Ordered(c, k)
    ensures (forall q: nat :: !Crosses(c.head, c.tail, q)) ==>
              (PeekSees(Wrap64(c.head), Wrap64(c.tailCache), Wrap64(c.tail)) <==> c.head < c.tail)
    ensures c.tail < TWO_63 ==> forall q: nat :: !Crosses(c.head, c.tail, q)
  {
    PeekExact(c, k);
  }

  /** A queue of one element that straddles the wrap, with a stale cached tail. */
  lemma PeekMissesAtWrap()
    ensures var c := Cursors(0x7FFF_FFFF_FFFF_FFFF, 0x7FFF_FFFF_FFFF_FFFF, 0x7FFF_FFFF_FFFF_FFFF, 0x8000_0000_0000_0000);
            Ordered(c, 1) && !PeekSees(Wrap64(c.head), Wrap64(c.tailCache), Wrap64(c.tail))
  {
    assert Pow2(1) == 2;
  }

  // -------------------------------------------------------------- the class

  class SpscMemoryMappedCacheLineQueue {
    const k: nat
    const mem: array<int>
    const mask: nat
    const pollCacheLine: CacheLine
    const peekCacheLine: CacheLine
    ghost var cursors: Cursors

    ghost predicate Valid()
      reads this, mem
    {
      && k <= 32 && mask == Pow2(k) - 1
      && pollCacheLine.file == mem && peekCacheLine.file == mem && pollCacheLine != peekCacheLine
      && Holds(mem[..], k, cursors)
    }

    ghost function Contents(): (q: seq<seq<int>>)
      requires Valid()
      reads this, mem
    {
      Queued(mem[..], k, cursors.head, cursors.tail)
    }

    /** What a true `preOffer` grants: room for one more. */
    ghost predicate CanOffer()
      reads this
    {
      cursors.tail + 1 <= cursors.headCache + Pow2(k) - 1
    }

    /** What a non-null `poll` grants. */
    ghost predicate CanRelease()
      reads this
    {
      cursors.head < cursors.tailCache
    }

    /** Attaches to a mapped file.  By `GatesAgree`, a C++ process that only produces discards
        the elements it finds, and a Java one keeps them. */
    constructor (language: Language, mem: array<int>, k: nat, viewMask: nat, ghost found: Cursors)
      requires k <= 32 && Holds(mem[..], k, found)
      modifies mem
      ensures Valid() && this.mem == mem && this.k == k
      ensures fresh(pollCacheLine) && fresh(peekCacheLine)
      ensures Contents() == if Clears(language, viewMask) then [] else old(Queued(mem[..], k, found.head, found.tail))
      ensures Clears(language, viewMask) ==> cursors == found.(head := found.tail, tailCache := found.tail)
      ensures !Clears(language, viewMask) ==> cursors == found && mem[..] == old(mem[..])
    {
      this.mem, this.k := mem, k;
      mask := Pow2(k) - 1;
      pollCacheLine := new CacheLine(mem);
      peekCacheLine := new CacheLine(mem);
      cursors := found;
      new;
      if Clears(language, viewMask) {
        Clear();
      }
    }

    function CalcElementOffset(s: int): nat
      reads this
    {
      ARRAY_BASE + And(s, mask) * SLOT_WORDS
    }

    /** Stores a cursor word. */
    method SetWord(a: nat, v: int)
      requires a < mem.Length
      modifies mem
      ensures mem[..] == old(mem[..])[a := v]
    {
      mem[a] := v;
    }

    method PreOffer(line: CacheLine) returns (ok: bool)
      requires Valid() && line.file == mem
      modifies mem, line, `cursors
      ensures Valid() && Contents() == old(Contents())
      ensures ok <==> |Contents()| < Pow2(k) - 1
      ensures ok ==> CanOffer() && line.buffer == SlotWord(cursors.tail, k, 0) && line.length == LINE
      ensures !ok ==> line.buffer == old(line.buffer) && line.length == old(line.length)
      ensures cursors == old(cursors).(headCache :=
                if old(cursors).tail - old(cursors).headCache < Pow2(k) - 1 then old(cursors).headCache else cursors.head)
      ensures mem[..] == old(mem[..])[HEAD_CACHE := mem[HEAD_CACHE]]
      ensures forall s: int :: Ring.Payload(mem[..], s, k) == old(Ring.Payload(mem[..], s, k))
    {
      var currentTail := mem[TAIL];
      WrappedFullTest(k, cursors);
      if And(Wrap64(currentTail + 1 - mem[HEAD_CACHE]), mask) == 0 {
        HeaderStoreKeepsQueued(mem[..], k, HEAD_CACHE, mem[HEAD], cursors.head, cursors.tail);
        SetWord(HEAD_CACHE, mem[HEAD]);
        cursors := cursors.(headCache := cursors.head);
        WrappedFullTest(k, cursors);
        if And(Wrap64(currentTail + 1 - mem[HEAD_CACHE]), mask) == 0 {
          return false;
        }
      }
      MaskedWrap(cursors.tail, k);
      line.UpdateWrap(CalcElementOffset(currentTail), LINE);
      return true;
    }

    method Offer()
      requires Valid() && CanOffer()
      modifies mem, `cursors
      ensures Valid()
      ensures cursors == old(cursors).(tail := old(cursors).tail + 1)
      ensures mem[..] == old(mem[..])[TAIL := mem[TAIL]]
      ensures Contents() == old(Contents()) + [old(Ring.Payload(mem[..], cursors.tail, k))]
    {
      HeaderStoreKeepsQueued(mem[..], k, TAIL, Wrap64(mem[TAIL] + 1), cursors.head, cursors.tail);
      WrapAbsorbs(cursors.tail, 1);
      SetWord(TAIL, Wrap64(mem[TAIL] + 1));
      cursors := cursors.(tail := cursors.tail + 1);
    }

    method Poll() returns (line: CacheLine?)
      requires Valid()
      modifies mem, pollCacheLine, `cursors
      ensures Valid() && Contents() == old(Contents())
      ensures line != null <==> Contents() != []
      ensures line != null ==>
                && line == pollCacheLine && CanRelease() && line.length == LINE
                && line.buffer == SlotWord(cursors.head, k, 0) && line.buffer + SLOT_WORDS <= mem.Length
                && mem[line.buffer..line.buffer + SLOT_WORDS] == Contents()[0]
      ensures line == null ==> cursors.head == cursors.tailCache == cursors.tail
      ensures cursors == old(cursors).(tailCache :=
                if old(cursors).head < old(cursors).tailCache then old(cursors).tailCache else cursors.tail)
      ensures mem[..] == old(mem[..])[TAIL_CACHE := mem[TAIL_CACHE]]
    {
      hide Wrap64, Ring.Payload, And;
      var currentHead := mem[HEAD];
      WrappedEmptyTest(k, cursors);
      if And(Wrap64(currentHead - mem[TAIL_CACHE]), mask) == 0 {
        HeaderStoreKeepsQueued(mem[..], k, TAIL_CACHE, mem[TAIL], cursors.head, cursors.tail);
        SetWord(TAIL_CACHE, mem[TAIL]);
        cursors := cursors.(tailCache := cursors.tail);
        WrappedEmptyTest(k, cursors);
        if And(Wrap64(currentHead - mem[TAIL_CACHE]), mask) == 0 {
          return null;
        }
      }
      MaskedWrap(cursors.head, k);
      SlotSlice(mem[..], k, cursors.head);
      pollCacheLine.UpdateWrap(CalcElementOffset(currentHead), LINE);
      return pollCacheLine;
    }

    method ReleaseCacheLine()
      requires Valid() && CanRelease()
      modifies mem, `cursors
      ensures Valid()
      ensures cursors == old(cursors).(head := old(cursors).head + 1)
      ensures mem[..] == old(mem[..])[HEAD := mem[HEAD]]
      ensures Contents() == old(Contents())[1..]
    {
      HeaderStoreKeepsQueued(mem[..], k, HEAD, Wrap64(mem[HEAD] + 1), cursors.head, cursors.tail);
      WrapAbsorbs(cursors.head, 1);
      SetWord(HEAD, Wrap64(mem[HEAD] + 1));
      cursors := cursors.(head := cursors.head + 1);
    }

    /** Terminates from any file left behind, and releases exactly the elements found. */
    method Clear()
      requires Valid()
      modifies mem, pollCacheLine, `cursors
      ensures Valid() && Contents() == []
      ensures cursors == old(cursors).(head := old(cursors).tail, tailCache := old(cursors).tail)
      ensures mem[..] == old(mem[..])[HEAD := mem[HEAD]][TAIL_CACHE := mem[TAIL_CACHE]]
    {
      var line := Poll();
      while line != null
        invariant Valid() && (line != null ==> CanRelease())
        invariant line == null ==> cursors.head == cursors.tailCache == cursors.tail
        invariant cursors.tail == old(cursors).tail && cursors.headCache == old(cursors).headCache
        invariant mem[..] == old(mem[..])[HEAD := mem[HEAD]][TAIL_CACHE := mem[TAIL_CACHE]]
        decreases cursors.tail - cursors.head, line != null
      {
        ReleaseCacheLine();
        line := Poll();
      }
    }

    /** The cast to a 32-bit int is exact up to capacity 2^31; see `SizeFitsInt`. */
    method Size() returns (n: int)
      requires Valid()
      ensures n == Wrap32(|Contents()|)
    {
      hide Wrap64, Wrap32;
      WrappedSize(k, cursors);
      n := Wrap32(And(Wrap64(mem[TAIL] - mem[HEAD]), mask));
    }

    method IsEmpty() returns (e: bool)
      requires Valid()
      ensures e <==> Contents() == []
    {
      hide Wrap64;
      WrappedSize(k, cursors);
      e := And(Wrap64(mem[TAIL] - mem[HEAD]), mask) == 0;
    }

    /** Exact about what it answers; `PeekExact` says when the answer is right. */
    method Peek() returns (line: CacheLine?)
      requires Valid()
      modifies peekCacheLine
      ensures Valid() && Contents() == old(Contents())
      ensures line != null <==> PeekSees(Wrap64(cursors.head), Wrap64(cursors.tailCache), Wrap64(cursors.tail))
      ensures line != null ==>
                line == peekCacheLine && line.buffer == SlotWord(cursors.head, k, 0) && line.length == LINE
    {
      var currentHead := mem[HEAD];
      if currentHead >= mem[TAIL_CACHE] && currentHead >= mem[TAIL] {
        return null;
      }
      MaskedWrap(cursors.head, k);
      peekCacheLine.UpdateWrap(CalcElementOffset(currentHead), LINE);
      return peekCacheLine;
    }
  }
}
