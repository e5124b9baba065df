/**
 The queue's own test program as a client of the class: every REQUIRE is collected in a
 result that is proved true, for every power-of-two capacity up to 2^31 instead of 4096.
 */
module QueueTests {
  import opened Words
  import opened Layout
  import opened SpscQueue
  import Ring

  /** A store through a granted line keeps the queue and lands in the slot to be offered. */
  method PutWord(queue: SpscMemoryMappedCacheLineQueue, line: CacheLine, j: nat, v: int)
    requires queue.Valid() && queue.CanOffer() && line.file == queue.mem && j < SLOT_WORDS
    requires line.buffer == SlotWord(queue.cursors.tail, queue.k, 0)
    modifies queue.mem
    ensures queue.Valid() && queue.Contents() == old(queue.Contents())
    ensures Ring.Payload(queue.mem[..], queue.cursors.tail, queue.k)
         == old(Ring.Payload(queue.mem[..], queue.cursors.tail, queue.k))[j := v]
  {
    WindowStoreKeepsQueued(queue.mem[..], queue.k, queue.cursors, j, v);
    line.PutInt64(j, v);
  }

  ghost predicate CountsUp(q: seq<seq<int>>, from: int) {
    forall i: nat :: i < |q| ==> |q[i]| == SLOT_WORDS && q[i][0] == from + i
  }

  method AddUntilFull(queue: SpscMemoryMappedCacheLineQueue, line: CacheLine) returns (ok: bool)
    requires queue.Valid() && queue.k <= 31 && line.file == queue.mem && queue.Contents() == []
    modifies queue.mem, line, queue`cursors
    ensures ok && queue.Valid()
    ensures |queue.Contents()| == Pow2(queue.k) - 1 && CountsUp(queue.Contents(), 0)
  {
    ok := true;
    var i := 0;
    while i < Pow2(queue.k) - 1
      invariant 0 <= i <= Pow2(queue.k) - 1
      invariant ok && queue.Valid() && |queue.Contents()| == i && CountsUp(queue.Contents(), 0)
    {
      var room := queue.PreOffer(line);
      PutWord(queue, line, 0, i);
      queue.Offer();
      SizeFitsInt(queue.k, i + 1);
      var n := queue.Size();
      ok := ok && room && n == i + 1;
      i := i + 1;
    }
    var room := queue.PreOffer(line);
    ok := ok && room == false;
  }

  method Drain(queue: SpscMemoryMappedCacheLineQueue, count: nat) returns (ok: bool)
    requires queue.Valid() && |queue.Contents()| == count && CountsUp(queue.Contents(), 0)
    modifies queue.mem, queue.pollCacheLine, queue`cursors
    ensures ok && queue.Valid() && queue.Contents() == []
  {
    ok := true;
    var i := 0;
    while i < count
      invariant 0 <= i <= count
      invariant ok && queue.Valid() && |queue.Contents()| == count - i && CountsUp(queue.Contents(), i)
    {
      var line := queue.Poll();
      ok := ok && line != null;
      assert queue.Contents()[0][0] == i;
      var v := line.GetInt64(0);
      ok := ok && v == i;
      queue.ReleaseCacheLine();
      i := i + 1;
    }
    var n := queue.Size();
    ok := ok && n == 0;
  }

  /** `testAddAndPurge` on a zero-filled file: fill, drain, fill, drain, fill, clear. */
  method TestAddAndPurge(mem: array<int>, k: nat) returns (ok: bool)
    requires k <= 31 && mem.Length == FileWords(k) && forall i :: 0 <= i < mem.Length ==> mem[i] == 0
    modifies mem
    ensures ok
  {
    assert Holds(mem[..], k, Cursors(0, 0, 0, 0));
    var queue := new SpscMemoryMappedCacheLineQueue(Cpp, mem, k, IS_PRODUCER + IS_CONSUMER, Cursors(0, 0, 0, 0));
    var line := new CacheLine(mem);
    ok := AddUntilFull(queue, line);
    var drained := Drain(queue, Pow2(k) - 1);
    ok := ok && drained;
    var refilled := AddUntilFull(queue, line);
    ok := ok && refilled;
    drained := Drain(queue, Pow2(k) - 1);
    ok := ok && drained;
    refilled := AddUntilFull(queue, line);
    ok := ok && refilled;
    queue.Clear();
    var n := queue.Size();
    ok := ok && n == 0;
  }

  /** `testOffsetCalculation`: ten laps of the ring, fast address against slow address. */
  method TestOffsetCalculation(k: nat) returns (ok: bool)
    ensures ok
  {
    ok := true;
    var i := 0;
    while i < 10 * Pow2(k)
      invariant 0 <= i && ok
      decreases 10 * Pow2(k) - i
    {
      FastAddressIsSlowAddress(i, k);
      ok := ok && CalcElementOffset(i, k) == CalcElementOffsetModulus(i, k);
      i := i + 1;
    }
  }
}
